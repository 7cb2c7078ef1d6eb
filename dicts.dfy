/** Python dictionaries filled by repeated `d[k] = v`. */
module Dicts {
  import opened Wrappers
  import opened Seqs

  /** The dictionary left by assigning `d[k] = v` for each pair in order,
      starting from `{}`. */
  function PutAll<K, V>(kvs: seq<(K, V)>): map<K, V>
    decreases |kvs|
  {
    if kvs == [] then map[]
    else PutAll(kvs[..|kvs| - 1])[kvs[|kvs| - 1].0 := kvs[|kvs| - 1].1]
  }

  /** Its keys are exactly the keys assigned. */
  lemma {:induction false} PutAllKeys<K, V>(kvs: seq<(K, V)>)
    ensures PutAll(kvs).Keys == set i | 0 <= i < |kvs| :: kvs[i].0
    decreases |kvs|
  {
    if kvs != [] {
      var init := kvs[..|kvs| - 1];
      PutAllKeys(init);
      assert forall i :: 0 <= i < |init| ==> init[i] == kvs[i];
    }
  }

  /** Last write wins: a key keeps the value of its last assignment. */
  lemma {:induction false} PutAllLastWins<K, V>(kvs: seq<(K, V)>, i: nat)
    requires i < |kvs|
    requires forall j :: i < j < |kvs| ==> kvs[j].0 != kvs[i].0
    ensures kvs[i].0 in PutAll(kvs) && PutAll(kvs)[kvs[i].0] == kvs[i].1
    decreases |kvs|
  {
    var init := kvs[..|kvs| - 1];
    if i < |kvs| - 1 {
      assert init[i] == kvs[i];
      PutAllLastWins(init, i);
    }
  }

  /** Appending one more assignment updates just that key. */
  lemma PutAllSnoc<K, V>(kvs: seq<(K, V)>, k: K, v: V)
    ensures PutAll(kvs + [(k, v)]) == PutAll(kvs)[k := v]
  {
    assert (kvs + [(k, v)])[..|kvs|] == kvs;
  }

  /** Keyed values built until the first error, then assigned in order: one
      key per item, each holding the value of the last item with that key. */
  lemma PutAllOfResults<A, K, V>(xs: seq<A>, f: A -> Result<(K, V)>, key: A -> K, i: nat)
    requires MapUntilErr(xs, f).Ok?
    requires forall x :: f(x).Ok? ==> f(x).value.0 == key(x)
    ensures var m := PutAll(MapUntilErr(xs, f).value);
            m.Keys == (set k | 0 <= k < |xs| :: key(xs[k])) &&
            (i < |xs| && (forall j :: i < j < |xs| ==> key(xs[j]) != key(xs[i])) ==>
              f(xs[i]) == Ok((key(xs[i]), m[key(xs[i])])))
  {
    var rows := MapUntilErr(xs, f).value;
    MapUntilErrShape(xs, f);
    PutAllKeys(rows);
    assert (set k | 0 <= k < |rows| :: rows[k].0) == (set k | 0 <= k < |xs| :: key(xs[k]));
    if i < |xs| && forall j :: i < j < |xs| ==> key(xs[j]) != key(xs[i]) {
      PutAllLastWins(rows, i);
    }
  }

  /** The keys of `PutAll(kvs)` in a dictionary's iteration order: the order
      in which each key was first assigned. */
  function InsertionOrder<K(==), V>(kvs: seq<(K, V)>): seq<K>
    decreases |kvs|
  {
    if kvs == [] then []
    else
      var order := InsertionOrder(kvs[..|kvs| - 1]);
      if kvs[|kvs| - 1].0 in order then order else order + [kvs[|kvs| - 1].0]
  }

  /** Each key of the dictionary appears in the iteration order exactly once. */
  lemma {:induction false} InsertionOrderKeys<K, V>(kvs: seq<(K, V)>)
    ensures var order := InsertionOrder(kvs);
            (forall k :: k in order <==> k in PutAll(kvs)) &&
            Distinct(order)
    decreases |kvs|
  {
    if kvs != [] {
      var init := kvs[..|kvs| - 1];
      var k := kvs[|kvs| - 1].0;
      InsertionOrderKeys(init);
      var order := InsertionOrder(init);
      if k !in order {
        var order' := order + [k];
        assert InsertionOrder(kvs) == order';
        assert forall i :: 0 <= i < |order| ==> order'[i] == order[i] && order[i] != k;
        assert order'[|order|] == k;
      }
    }
  }

  ghost predicate Distinct<K>(s: seq<K>) {
    forall i, j :: 0 <= i < j < |s| ==> s[i] != s[j]
  }

  /** A sequence without repetitions has as many elements as its set. */
  lemma {:induction false} DistinctCard<K>(s: seq<K>)
    requires Distinct(s)
    ensures |set x | x in s| == |s|
    decreases |s|
  {
    if s != [] {
      var init := s[..|s| - 1];
      var last := s[|s| - 1];
      assert forall i :: 0 <= i < |init| ==> init[i] == s[i] && init[i] != last;
      DistinctCard(init);
      assert (set x | x in s) == (set x | x in init) + {last};
      assert last !in (set x | x in init);
    }
  }
}
