/** Small value wrappers shared by the model. */
module Wrappers {

  /** Python's `None`-or-value, for dictionary lookups and optional JSON fields. */
  datatype Option<+T> = None | Some(value: T)

  /** A Python exception that escapes the function it is raised in (the toolkit
      never catches these, so the process stops with a traceback). */
  datatype Crash =
    | KeyErrorRaised(key: string)
    | IndexErrorRaised(what: string)
    | TypeErrorRaised(what: string)
    | AttributeErrorRaised(what: string)

  /** A value, or the exception that prevented it. */
  datatype Result<+T> = Ok(value: T) | Err(error: Crash)
}
