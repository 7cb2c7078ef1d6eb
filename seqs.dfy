/** Two list-building patterns the loops of the toolkit follow: the nested
    `for` that flattens a list of lists, and the loop that builds one value
    per item until the first item raises. */
module Seqs {
  import opened Wrappers

  /** The items of `f(x)` for each `x` of `xs`, in order. */
  function FlatMap<A, B>(xs: seq<A>, f: A -> seq<B>): seq<B>
    decreases |xs|
  {
    if xs == [] then [] else FlatMap(xs[..|xs| - 1], f) + f(xs[|xs| - 1])
  }

  lemma {:induction false} FlatMapAppend<A, B>(xs: seq<A>, ys: seq<A>, f: A -> seq<B>)
    ensures FlatMap(xs + ys, f) == FlatMap(xs, f) + FlatMap(ys, f)
    decreases |ys|
  {
    if ys == [] {
      assert xs + ys == xs;
    } else {
      var init := ys[..|ys| - 1];
      FlatMapAppend(xs, init, f);
      assert (xs + ys)[..|xs + ys| - 1] == xs + init;
      assert (xs + ys)[|xs + ys| - 1] == ys[|ys| - 1];
    }
  }

  lemma Regroup<T>(a: seq<T>, b: seq<T>, c: seq<T>, d: seq<T>)
    ensures a + (b + c) + d == (a + b) + (c + d)
  {
  }

  lemma SnocSlice<T>(a: seq<T>, ys: seq<T>, j: nat)
    requires j < |ys|
    ensures a + ys[..j + 1] == (a + ys[..j]) + [ys[j]]
  {
    assert ys[..j + 1] == ys[..j] + [ys[j]];
  }

  lemma SplitAround<T>(a: seq<T>, ys: seq<T>, j: nat)
    requires j < |ys|
    ensures a + ys == (a + ys[..j]) + [ys[j]] + ys[j + 1..]
  {
    assert ys == ys[..j] + [ys[j]] + ys[j + 1..];
  }

  lemma FlatMapSnoc<A, B>(xs: seq<A>, x: A, f: A -> seq<B>)
    ensures FlatMap(xs + [x], f) == FlatMap(xs, f) + f(x)
  {
    assert (xs + [x])[..|xs|] == xs;
  }

  /** The flattening around one item: what comes before it, its list, and
      what comes after. */
  lemma FlatMapAt<A, B>(xs: seq<A>, i: nat, f: A -> seq<B>)
    requires i < |xs|
    ensures FlatMap(xs, f) == FlatMap(xs[..i], f) + f(xs[i]) + FlatMap(xs[i + 1..], f)
  {
    var before := xs[..i];
    var after := xs[i + 1..];
    assert xs == (before + [xs[i]]) + after;
    FlatMapAppend(before + [xs[i]], after, f);
    FlatMapSnoc(before, xs[i], f);
  }

  /** An error within the list of item `i` is the result for all of `xs`. */
  lemma FlatMapErrAt<A, B, C>(xs: seq<A>, i: nat, j: nat, f: A -> seq<B>, g: B -> Result<C>)
    requires i < |xs| && j < |f(xs[i])|
    requires MapUntilErr(FlatMap(xs[..i], f) + f(xs[i])[..j + 1], g).Err?
    ensures MapUntilErr(FlatMap(xs, f), g) == MapUntilErr(FlatMap(xs[..i], f) + f(xs[i])[..j + 1], g)
  {
    var before := FlatMap(xs[..i], f);
    var ys := f(xs[i]);
    var after := FlatMap(xs[i + 1..], f);
    FlatMapAt(xs, i, f);
    assert ys == ys[..j + 1] + ys[j + 1..];
    Regroup(before, ys[..j + 1], ys[j + 1..], after);
    MapUntilErrStaysErr(before + ys[..j + 1], ys[j + 1..] + after, g);
  }

  /** Every item of the flattening comes from one of the lists. */
  lemma {:induction false} FlatMapMember<A, B>(xs: seq<A>, f: A -> seq<B>, y: B) returns (x: A)
    requires y in FlatMap(xs, f)
    ensures x in xs && y in f(x)
    decreases |xs|
  {
    var init := xs[..|xs| - 1];
    if y in f(xs[|xs| - 1]) {
      x := xs[|xs| - 1];
    } else {
      x := FlatMapMember(init, f, y);
      assert forall z :: z in init ==> z in xs;
    }
  }

  /** `f` applied to each item in order, or the first error. */
  function MapUntilErr<A, B>(xs: seq<A>, f: A -> Result<B>): Result<seq<B>>
    decreases |xs|
  {
    if xs == [] then Ok([])
    else
      match MapUntilErr(xs[..|xs| - 1], f)
      case Err(e) => Err(e)
      case Ok(ys) =>
        match f(xs[|xs| - 1])
        case Err(e) => Err(e)
        case Ok(y) => Ok(ys + [y])
  }

  /** A success holds one value per item, each the value of `f` on it; a
      failure is the error of some item. */
  lemma {:induction false} MapUntilErrShape<A, B>(xs: seq<A>, f: A -> Result<B>)
    ensures var r := MapUntilErr(xs, f);
            (r.Ok? ==> |r.value| == |xs| && forall i :: 0 <= i < |xs| ==> f(xs[i]) == Ok(r.value[i])) &&
            (r.Err? ==> exists i :: 0 <= i < |xs| && f(xs[i]) == Err(r.error))
    decreases |xs|
  {
    if xs != [] {
      var init := xs[..|xs| - 1];
      MapUntilErrShape(init, f);
      assert forall i :: 0 <= i < |init| ==> init[i] == xs[i];
    }
  }

  /** One more item: its value is appended, or its error ends the result. */
  lemma MapUntilErrSnoc<A, B>(xs: seq<A>, x: A, f: A -> Result<B>)
    requires MapUntilErr(xs, f).Ok?
    ensures f(x).Ok? ==> MapUntilErr(xs + [x], f) == Ok(MapUntilErr(xs, f).value + [f(x).value])
    ensures f(x).Err? ==> MapUntilErr(xs + [x], f) == Err(f(x).error)
  {
    assert (xs + [x])[..|xs + [x]| - 1] == xs;
  }

  /** Once an error is reached, later items change nothing. */
  lemma {:induction false} MapUntilErrStaysErr<A, B>(xs: seq<A>, more: seq<A>, f: A -> Result<B>)
    requires MapUntilErr(xs, f).Err?
    ensures MapUntilErr(xs + more, f) == MapUntilErr(xs, f)
    decreases |more|
  {
    if more == [] {
      assert xs + more == xs;
    } else {
      MapUntilErrStaysErr(xs, more[..|more| - 1], f);
      assert (xs + more)[..|xs + more| - 1] == xs + more[..|more| - 1];
    }
  }
}
