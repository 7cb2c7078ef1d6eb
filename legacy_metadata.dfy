/** `emg_toolkit/metadata.py`, the legacy package: one attribute per sample,
    gathered into a table that is written or logged. */
module LegacyMetadata {
  import opened Wrappers
  import opened Metadata

  // ---------------------------------------------------------------------
  // The first tagged attribute

  /** Where the loop of `get_metadata` returns: the first attribute with a
      tag, or the end when none has one. */
  function FirstTaggedIndex(attrs: seq<Attribute>): (i: nat)
    ensures i <= |attrs|
    ensures i < |attrs| ==> attrs[i].tag.Some?
    ensures forall j :: 0 <= j < i ==> attrs[j].tag.None?
    decreases |attrs|
  {
    if attrs == [] then 0
    else if attrs[0].tag.Some? then 0
    else 1 + FirstTaggedIndex(attrs[1..])
  }

  /** What `get_metadata` returns: the `(TAG, VALUE)` of the first tagged
      attribute, the value `None` when it has no `VALUE`; `None` when no
      attribute has a tag. */
  function FirstTagged(attrs: seq<Attribute>): Option<(string, Option<string>)> {
    var i := FirstTaggedIndex(attrs);
    if i < |attrs| then Some((attrs[i].tag.value, attrs[i].value)) else None
  }

  /** `get_metadata`, given the attributes of the sample's record: the
      `return` inside the loop ends it at the first tagged attribute. */
  method GetMetadata(attrs: seq<Attribute>) returns (r: Option<(string, Option<string>)>)
    ensures r == FirstTagged(attrs)
  {
    var i := 0;
    while i < |attrs|
      invariant 0 <= i <= |attrs|
      invariant forall j :: 0 <= j < i ==> attrs[j].tag.None?
    {
      var m := attrs[i];
      if m.tag.None? {
        i := i + 1;
        continue;
      }
      var key := m.tag.value;
      var value := m.value;
      ghost var first := FirstTaggedIndex(attrs);
      assert first == i;
      return Some((key, value));
    }
    return None;
  }

  /** The result is `None` exactly when no attribute has a tag. */
  lemma FirstTaggedNone(attrs: seq<Attribute>)
    ensures FirstTagged(attrs).None? <==> forall i :: 0 <= i < |attrs| ==> attrs[i].tag.None?
  {
    var i := FirstTaggedIndex(attrs);
    if i < |attrs| {
      assert attrs[i].tag.Some?;
    }
  }

  /** Attributes after the first tagged one are never looked at. */
  lemma {:induction false} FirstTaggedIgnoresRest(attrs: seq<Attribute>, rest: seq<Attribute>)
    requires FirstTagged(attrs).Some?
    ensures FirstTagged(attrs + rest) == FirstTagged(attrs)
    decreases |attrs|
  {
    assert (attrs + rest)[0] == attrs[0];
    if attrs[0].tag.None? {
      FirstTaggedIgnoresRest(attrs[1..], rest);
      assert (attrs + rest)[1..] == attrs[1..] + rest;
    }
  }

  /** The legacy key is one the current `get_metadata` also reports. */
  lemma FirstTaggedIsMetadataKey(attrs: seq<Attribute>)
    requires FirstTagged(attrs).Some?
    ensures FirstTagged(attrs).value.0 in AttributeMeta(attrs)
  {
    var i := FirstTaggedIndex(attrs);
    AttributeMetaKeys(attrs);
    assert attrs[i].tag.value in set k | 0 <= k < |attrs| && attrs[k].tag.Some? :: attrs[k].tag.value;
  }

  // ---------------------------------------------------------------------
  // The per-sample table

  /** `sample_accession`: one per run record, in response order, repeats kept. */
  function SampleAccessions(records: seq<RunRecord>): (samples: seq<string>)
    ensures |samples| == |records|
    ensures forall i :: 0 <= i < |records| ==> samples[i] == records[i].sample
  {
    seq(|records|, i requires 0 <= i < |records| => records[i].sample)
  }

  const UnpackNone := TypeErrorRaised("cannot unpack non-iterable NoneType object")

  /** `meta_csv` after the loop over the samples: `key, value =` fails when
      `get_metadata` found no tagged attribute; a sample seen before gets the
      key set in its entry, a new one gets `{key: value}`. */
  function SampleTable(samples: seq<string>, attrsOf: string -> seq<Attribute>)
    : Result<map<string, map<string, Option<string>>>>
    decreases |samples|
  {
    if samples == [] then Ok(map[])
    else
      match SampleTable(samples[..|samples| - 1], attrsOf)
      case Err(e) => Err(e)
      case Ok(t) =>
        var s := samples[|samples| - 1];
        match FirstTagged(attrsOf(s))
        case None => Err(UnpackNone)
        case Some(kv) => Ok(Added(t, s, kv))
  }

  /** `meta_csv[s][key] = value`, or `meta_csv[s] = {key: value}` on the
      `KeyError` of a sample not yet in the table. */
  function Added(t: map<string, map<string, Option<string>>>, s: string, kv: (string, Option<string>))
    : map<string, map<string, Option<string>>>
  {
    if s in t then t[s := t[s][kv.0 := kv.1]] else t[s := map[kv.0 := kv.1]]
  }

  lemma SampleTableSnoc(xs: seq<string>, s: string, attrsOf: string -> seq<Attribute>)
    ensures SampleTable(xs + [s], attrsOf) ==
            match SampleTable(xs, attrsOf)
            case Err(e) => Err(e)
            case Ok(t) =>
              match FirstTagged(attrsOf(s))
              case None => Err(UnpackNone)
              case Some(kv) => Ok(Added(t, s, kv))
  {
    assert (xs + [s])[..|xs|] == xs;
  }

  /** The loop of `original_metadata` over one study's samples. */
  method AccumulateSamples(samples: seq<string>, attrsOf: string -> seq<Attribute>)
    returns (r: Result<map<string, map<string, Option<string>>>>)
    ensures r == SampleTable(samples, attrsOf)
  {
    var metaCsv: map<string, map<string, Option<string>>> := map[];
    var i := 0;
    while i < |samples|
      invariant 0 <= i <= |samples|
      invariant SampleTable(samples[..i], attrsOf) == Ok(metaCsv)
    {
      var s := samples[i];
      assert samples[..i + 1] == samples[..i] + [s];
      SampleTableSnoc(samples[..i], s, attrsOf);
      var kv := GetMetadata(attrsOf(s));
      if kv.None? {
        SampleTableStaysErr(samples[..i + 1], samples[i + 1..], attrsOf);
        assert samples[..i + 1] + samples[i + 1..] == samples;
        return Err(UnpackNone);
      }
      var (key, value) := kv.value;
      ghost var before := metaCsv;
      if s in metaCsv {
        metaCsv := metaCsv[s := metaCsv[s][key := value]];
      } else {
        metaCsv := metaCsv[s := map[key := value]];
      }
      assert metaCsv == Added(before, s, (key, value));
      i := i + 1;
    }
    assert samples[..i] == samples;
    return Ok(metaCsv);
  }

  /** Once a sample has failed, the whole table fails with it. */
  lemma {:induction false} SampleTableStaysErr(xs: seq<string>, ys: seq<string>, attrsOf: string -> seq<Attribute>)
    requires SampleTable(xs, attrsOf).Err?
    ensures SampleTable(xs + ys, attrsOf) == SampleTable(xs, attrsOf)
    decreases |ys|
  {
    if ys == [] {
      assert xs + ys == xs;
    } else {
      var init := ys[..|ys| - 1];
      SampleTableStaysErr(xs, init, attrsOf);
      assert (xs + ys)[..|xs + ys| - 1] == xs + init;
    }
  }

  /** The table fails exactly when some sample has no tagged attribute. */
  lemma {:induction false} SampleTableFails(samples: seq<string>, attrsOf: string -> seq<Attribute>)
    ensures SampleTable(samples, attrsOf).Err? <==>
            exists i :: 0 <= i < |samples| && FirstTagged(attrsOf(samples[i])).None?
    decreases |samples|
  {
    if samples != [] {
      var init := samples[..|samples| - 1];
      SampleTableFails(init, attrsOf);
      assert forall i :: 0 <= i < |init| ==> init[i] == samples[i];
    }
  }

  /** A table that does not fail has one entry per distinct sample. */
  lemma {:induction false} SampleTableKeys(samples: seq<string>, attrsOf: string -> seq<Attribute>)
    requires SampleTable(samples, attrsOf).Ok?
    ensures SampleTable(samples, attrsOf).value.Keys == set i | 0 <= i < |samples| :: samples[i]
    decreases |samples|
  {
    if samples != [] {
      var init := samples[..|samples| - 1];
      SampleTableKeys(init, attrsOf);
      assert forall i :: 0 <= i < |init| ==> init[i] == samples[i];
      assert (set i | 0 <= i < |samples| :: samples[i]) ==
             (set i | 0 <= i < |init| :: init[i]) + {samples[|samples| - 1]};
    }
  }

  /** Every occurrence of a sample yields the same pair, so the entry of
      sample `s` is `{key: value}` of its first tagged attribute. */
  lemma {:induction false} SampleTableEntry(samples: seq<string>, attrsOf: string -> seq<Attribute>, s: string)
    requires SampleTable(samples, attrsOf).Ok?
    requires s in SampleTable(samples, attrsOf).value
    ensures FirstTagged(attrsOf(s)).Some?
    ensures SampleTable(samples, attrsOf).value[s] == map[FirstTagged(attrsOf(s)).value.0 := FirstTagged(attrsOf(s)).value.1]
    decreases |samples|
  {
    var init := samples[..|samples| - 1];
    var last := samples[|samples| - 1];
    var t0 := SampleTable(init, attrsOf).value;
    if s in t0 {
      SampleTableEntry(init, attrsOf, s);
    }
    if s == last && s in t0 {
      var kv := FirstTagged(attrsOf(s)).value;
      assert t0[s][kv.0 := kv.1] == map[kv.0 := kv.1];
    }
  }

  // ---------------------------------------------------------------------
  // One table per study

  /** What happens to a study's table: written to `"{accession}_{exportName}"`
      when an export name is given, logged otherwise. */
  datatype Output =
    | WriteCsv(name: string, table: map<string, map<string, Option<string>>>)
    | LogTable(table: map<string, map<string, Option<string>>>)

  /** The outputs so far and the error that ended the run, if any. */
  datatype LegacyRun = LegacyRun(outputs: seq<Output>, crash: Option<Crash>)

  function OutputOf(accession: string, exportName: string, table: map<string, map<string, Option<string>>>): Output {
    if exportName != "" then WriteCsv(accession + "_" + exportName, table) else LogTable(table)
  }

  /** The run of `original_metadata` over the study accessions: a reply that
      is not JSON is skipped, a failing table ends the run. */
  function LegacyOutputs(accessions: seq<string>, exportName: string, searchRuns: string -> RunsReply,
                         attrsOf: string -> seq<Attribute>): LegacyRun
    decreases |accessions|
  {
    if accessions == [] then LegacyRun([], None)
    else
      var prev := LegacyOutputs(accessions[..|accessions| - 1], exportName, searchRuns, attrsOf);
      var a := accessions[|accessions| - 1];
      if prev.crash.Some? then prev
      else match searchRuns(a)
        case NotJson => prev
        case Records(records) =>
          match SampleTable(SampleAccessions(records), attrsOf)
          case Err(e) => LegacyRun(prev.outputs, Some(e))
          case Ok(t) => LegacyRun(prev.outputs + [OutputOf(a, exportName, t)], None)
  }

  /** `original_metadata` of the legacy package. */
  method OriginalMetadata(accessions: seq<string>, exportName: string, searchRuns: string -> RunsReply,
                          attrsOf: string -> seq<Attribute>)
    returns (run: LegacyRun)
    ensures run == LegacyOutputs(accessions, exportName, searchRuns, attrsOf)
  {
    var outputs: seq<Output> := [];
    var i := 0;
    while i < |accessions|
      invariant 0 <= i <= |accessions|
      invariant LegacyOutputs(accessions[..i], exportName, searchRuns, attrsOf) == LegacyRun(outputs, None)
    {
      var accession := accessions[i];
      assert accessions[..i + 1][..i] == accessions[..i];
      var resp := searchRuns(accession);
      if resp.NotJson? {
        i := i + 1;
        continue;
      }
      var sampleAccession := SampleAccessions(resp.records);
      var table := AccumulateSamples(sampleAccession, attrsOf);
      if table.Err? {
        LegacyOutputsStaysCrashed(accessions[..i + 1], accessions[i + 1..], exportName, searchRuns, attrsOf);
        assert accessions[..i + 1] + accessions[i + 1..] == accessions;
        return LegacyRun(outputs, Some(table.error));
      }
      if exportName != "" {
        outputs := outputs + [WriteCsv(accession + "_" + exportName, table.value)];
      } else {
        outputs := outputs + [LogTable(table.value)];
      }
      i := i + 1;
    }
    assert accessions[..i] == accessions;
    return LegacyRun(outputs, None);
  }

  lemma {:induction false} LegacyOutputsStaysCrashed(xs: seq<string>, ys: seq<string>, exportName: string,
                                                     searchRuns: string -> RunsReply, attrsOf: string -> seq<Attribute>)
    requires LegacyOutputs(xs, exportName, searchRuns, attrsOf).crash.Some?
    ensures LegacyOutputs(xs + ys, exportName, searchRuns, attrsOf) == LegacyOutputs(xs, exportName, searchRuns, attrsOf)
    decreases |ys|
  {
    if ys == [] {
      assert xs + ys == xs;
    } else {
      var init := ys[..|ys| - 1];
      LegacyOutputsStaysCrashed(xs, init, exportName, searchRuns, attrsOf);
      assert (xs + ys)[..|xs + ys| - 1] == xs + init;
    }
  }

  /** With an export name every output is a CSV named after one of the study
      accessions and that name; without one, every table is logged. */
  lemma {:induction false} LegacyOutputsNamed(accessions: seq<string>, exportName: string, searchRuns: string -> RunsReply,
                                              attrsOf: string -> seq<Attribute>)
    ensures var outs := LegacyOutputs(accessions, exportName, searchRuns, attrsOf).outputs;
            |outs| <= |accessions| &&
            forall k :: 0 <= k < |outs| ==>
              (exportName == "" ==> outs[k].LogTable?) &&
              (exportName != "" ==>
                 outs[k].WriteCsv? &&
                 exists i :: 0 <= i < |accessions| && outs[k].name == accessions[i] + "_" + exportName)
    decreases |accessions|
  {
    if accessions != [] {
      var init := accessions[..|accessions| - 1];
      LegacyOutputsNamed(init, exportName, searchRuns, attrsOf);
      var prev := LegacyOutputs(init, exportName, searchRuns, attrsOf).outputs;
      var outs := LegacyOutputs(accessions, exportName, searchRuns, attrsOf).outputs;
      assert forall i :: 0 <= i < |init| ==> init[i] == accessions[i];
      if exportName != "" {
        forall k | 0 <= k < |outs|
          ensures outs[k].WriteCsv? && exists i :: 0 <= i < |accessions| && outs[k].name == accessions[i] + "_" + exportName
        {
          if k < |prev| {
            assert outs[k] == prev[k];
            var i :| 0 <= i < |init| && prev[k].name == init[i] + "_" + exportName;
            assert accessions[i] == init[i];
          } else {
            assert outs[k].name == accessions[|accessions| - 1] + "_" + exportName;
          }
        }
      }
    }
  }
}
