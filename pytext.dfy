/** The Python `str` operations the toolkit relies on, over `seq<char>`. */
module PyText {

  /** `s.split(sep)` for a one-character separator (Python never returns an
      empty list here: `"".split(",") == [""]`). */
  function Split(s: string, sep: char): (parts: seq<string>)
    ensures |parts| >= 1
    decreases |s|
  {
    if |s| == 0 then [""]
    else
      var rest := Split(s[1..], sep);
      if s[0] == sep then [""] + rest
      else [[s[0]] + rest[0]] + rest[1..]
  }

  /** `sep.join(parts)`. */
  function JoinWith(parts: seq<string>, sep: char): string
    decreases |parts|
  {
    if |parts| == 0 then ""
    else if |parts| == 1 then parts[0]
    else parts[0] + [sep] + JoinWith(parts[1..], sep)
  }

  /** No piece of a split holds the separator. */
  lemma {:induction false} SplitPiecesLackSep(s: string, sep: char)
    ensures forall i :: 0 <= i < |Split(s, sep)| ==> sep !in Split(s, sep)[i]
    decreases |s|
  {
    if |s| > 0 {
      SplitPiecesLackSep(s[1..], sep);
      var rest := Split(s[1..], sep);
      if s[0] != sep {
        assert forall c :: c in [s[0]] + rest[0] ==> c == s[0] || c in rest[0];
      }
    }
  }

  /** Joining the pieces of a split with the same separator gives the string
      back; together with the fact that no piece holds the separator, this
      pins `Split` down completely. */
  lemma {:induction false} JoinSplit(s: string, sep: char)
    ensures JoinWith(Split(s, sep), sep) == s
    decreases |s|
  {
    if |s| > 0 {
      JoinSplit(s[1..], sep);
      var rest := Split(s[1..], sep);
      if s[0] == sep {
        assert ([""] + rest)[1..] == rest;
      } else {
        var parts := [[s[0]] + rest[0]] + rest[1..];
        if |rest| > 1 {
          assert parts[1..] == rest[1..];
        }
      }
    }
  }

  /** With two pieces or more, the joined string is longer than the last piece. */
  lemma {:induction false} JoinWithLongerThanLast(parts: seq<string>, sep: char)
    requires |parts| > 1
    ensures |JoinWith(parts, sep)| > |parts[|parts| - 1]|
    decreases |parts|
  {
    if |parts| > 2 {
      JoinWithLongerThanLast(parts[1..], sep);
    }
  }

  /** A string without the separator splits into just itself. */
  lemma {:induction false} SplitNoSep(p: string, sep: char)
    requires sep !in p
    ensures Split(p, sep) == [p]
    decreases |p|
  {
    if |p| > 0 {
      SplitNoSep(p[1..], sep);
      assert [p[0]] + p[1..] == p;
    }
  }

  /** A separator-free piece followed by the separator splits off as one piece. */
  lemma {:induction false} SplitAfterPiece(p: string, sep: char, tail: string)
    requires sep !in p
    ensures Split(p + [sep] + tail, sep) == [p] + Split(tail, sep)
    decreases |p|
  {
    var s := p + [sep] + tail;
    if |p| == 0 {
      assert s == [sep] + tail;
      assert s[1..] == tail;
    } else {
      SplitAfterPiece(p[1..], sep, tail);
      assert s[1..] == p[1..] + [sep] + tail;
      assert [p[0]] + p[1..] == p;
    }
  }

  /** Splitting a join gives the pieces back, as long as none of them holds
      the separator. */
  lemma {:induction false} SplitJoin(parts: seq<string>, sep: char)
    requires |parts| >= 1
    requires forall i :: 0 <= i < |parts| ==> sep !in parts[i]
    ensures Split(JoinWith(parts, sep), sep) == parts
    decreases |parts|
  {
    if |parts| == 1 {
      SplitNoSep(parts[0], sep);
    } else {
      SplitJoin(parts[1..], sep);
      SplitAfterPiece(parts[0], sep, JoinWith(parts[1..], sep));
      assert [parts[0]] + parts[1..] == parts;
    }
  }

  /** The last piece of a split is the suffix of `s` after the last separator
      (all of `s` when there is none). */
  lemma {:induction false} SplitLastIsSuffix(s: string, sep: char)
    ensures var parts := Split(s, sep);
            var last := parts[|parts| - 1];
            |last| <= |s| && last == s[|s| - |last|..] &&
            (|last| < |s| ==> s[|s| - |last| - 1] == sep)
    decreases |s|
  {
    if |s| > 0 {
      var tail := s[1..];
      SplitLastIsSuffix(tail, sep);
      var rest := Split(tail, sep);
      SplitLastStep(s, sep);
      if s[0] != sep && |rest| == 1 {
        JoinSplit(tail, sep);
        assert [s[0]] + tail == s;
      } else {
        var last := rest[|rest| - 1];
        assert tail[|tail| - |last|..] == s[|s| - |last|..];
        if s[0] != sep {
          JoinSplit(tail, sep);
          JoinWithLongerThanLast(rest, sep);
        }
        if |last| < |tail| {
          assert tail[|tail| - |last| - 1] == s[|s| - |last| - 1];
        }
      }
    }
  }

  /** The last piece of `s` is the last piece of its tail, unless the first
      piece is the only one and is extended by the first character. */
  lemma SplitLastStep(s: string, sep: char)
    requires |s| > 0
    ensures var rest := Split(s[1..], sep);
            var parts := Split(s, sep);
            (s[0] != sep && |rest| == 1 ==> parts[|parts| - 1] == [s[0]] + rest[0]) &&
            (s[0] == sep || |rest| != 1 ==> parts[|parts| - 1] == rest[|rest| - 1])
  {
  }

  /** `s.lstrip(c)`. */
  function StripLeading(s: string, c: char): (r: string)
    ensures |r| <= |s|
    decreases |s|
  {
    if |s| > 0 && s[0] == c then StripLeading(s[1..], c) else s
  }

  /** `lstrip` removes the longest prefix made of `c` alone. */
  lemma {:induction false} StripLeadingShape(s: string, c: char)
    ensures var r := StripLeading(s, c);
            r == s[|s| - |r|..] && (r == [] || r[0] != c) &&
            forall k :: 0 <= k < |s| - |r| ==> s[k] == c
    decreases |s|
  {
    if |s| > 0 && s[0] == c {
      StripLeadingShape(s[1..], c);
    }
  }

  /** `s.rstrip(c)`. */
  function StripTrailing(s: string, c: char): (r: string)
    ensures |r| <= |s|
    decreases |s|
  {
    if |s| > 0 && s[|s| - 1] == c then StripTrailing(s[..|s| - 1], c) else s
  }

  /** `rstrip` removes the longest suffix made of `c` alone. */
  lemma {:induction false} StripTrailingShape(s: string, c: char)
    ensures var r := StripTrailing(s, c);
            r == s[..|r|] && (r == [] || r[|r| - 1] != c) &&
            forall k :: |r| <= k < |s| ==> s[k] == c
    decreases |s|
  {
    if |s| > 0 && s[|s| - 1] == c {
      StripTrailingShape(s[..|s| - 1], c);
    }
  }

  /** `s.strip(c)`. */
  function Strip(s: string, c: char): (r: string)
    ensures |r| <= |s|
  {
    StripTrailing(StripLeading(s, c), c)
  }

  /** What `strip` leaves is a contiguous part of `s` that neither starts nor
      ends with `c`, and everything removed around it is `c`. */
  lemma StripShape(s: string, c: char)
    ensures var r := Strip(s, c);
            var i := |s| - |StripLeading(s, c)|;
            i + |r| <= |s| && r == s[i..i + |r|] &&
            (forall k :: 0 <= k < i ==> s[k] == c) &&
            (forall k :: i + |r| <= k < |s| ==> s[k] == c) &&
            (r == [] || (r[0] != c && r[|r| - 1] != c)) &&
            (c !in s ==> r == s)
  {
    var left := StripLeading(s, c);
    StripLeadingShape(s, c);
    StripTrailingShape(left, c);
    var i := |s| - |left|;
    var r := StripTrailing(left, c);
    PrefixOfSuffix(s, i, left, r, c);
    if c !in s {
      StripAbsent(s, c);
    }
  }

  /** A prefix `r` of the suffix `left` of `s` starting at `i`, with only `c`
      after it in `left`, sits in `s` with only `c` after it. */
  lemma PrefixOfSuffix(s: string, i: nat, left: string, r: string, c: char)
    requires i <= |s| && left == s[i..]
    requires |r| <= |left| && r == left[..|r|]
    requires forall k :: |r| <= k < |left| ==> left[k] == c
    ensures i + |r| <= |s| && r == s[i..i + |r|]
    ensures forall k :: i + |r| <= k < |s| ==> s[k] == c
    ensures |r| > 0 ==> r[0] == left[0]
  {
    assert forall k :: i <= k < |s| ==> s[k] == left[k - i];
  }

  /** Neither strip touches a string without `c`. */
  lemma StripAbsent(s: string, c: char)
    requires c !in s
    ensures StripLeading(s, c) == s && StripTrailing(s, c) == s
  {
    if |s| > 0 {
      assert s[0] in s && s[|s| - 1] in s;
    }
  }

  /** `s.replace(a, b)` for single characters. */
  function ReplaceChar(s: string, a: char, b: char): (r: string)
    ensures |r| == |s|
    decreases |s|
  {
    if |s| == 0 then ""
    else [if s[0] == a then b else s[0]] + ReplaceChar(s[1..], a, b)
  }

  /** Each `a` becomes `b`, every other character stays; so no `a` is left. */
  lemma {:induction false} ReplaceCharShape(s: string, a: char, b: char)
    ensures forall i :: 0 <= i < |s| ==> ReplaceChar(s, a, b)[i] == (if s[i] == a then b else s[i])
    ensures a != b ==> a !in ReplaceChar(s, a, b)
    decreases |s|
  {
    if |s| > 0 {
      ReplaceCharShape(s[1..], a, b);
    }
  }
}
