/** POSIX `os.path.join`, with the rule that an absolute component discards
    everything joined before it. */
module PosixPath {

  predicate IsAbs(p: string) {
    |p| > 0 && p[0] == '/'
  }

  /** A path component that `os.path.join` glues on with exactly one `/`:
      non-empty, neither starting nor ending with `/`. */
  predicate Plain(p: string) {
    |p| > 0 && p[0] != '/' && p[|p| - 1] != '/'
  }

  /** `os.path.join(a, b)`. */
  function Join2(a: string, b: string): (r: string)
    ensures IsAbs(b) ==> r == b
    ensures IsAbs(a) ==> IsAbs(r)
    ensures |b| <= |r| && r[|r| - |b|..] == b
  {
    if IsAbs(b) then b
    else if a == "" || a[|a| - 1] == '/' then a + b
    else a + "/" + b
  }

  /** `os.path.join(a, *parts)`: the components are joined left to right. */
  function Join(a: string, parts: seq<string>): (r: string)
    ensures IsAbs(a) ==> IsAbs(r)
    decreases |parts|
  {
    if parts == [] then a
    else Join2(Join(a, parts[..|parts| - 1]), parts[|parts| - 1])
  }

  /** One plain component after a root that does not end in `/`. */
  lemma JoinPlainStep(a: string, b: string)
    requires |a| > 0 && a[|a| - 1] != '/'
    requires Plain(b)
    ensures Join2(a, b) == a + "/" + b
    ensures var r := Join2(a, b); |r| > 0 && r[|r| - 1] != '/'
  {
    var r := a + "/" + b;
    assert r[|r| - 1] == b[|b| - 1];
  }

  /** Joining a plain root and plain components puts exactly one `/` between
      each. */
  lemma JoinPlain2(a: string, p: string, q: string)
    requires |a| > 0 && a[|a| - 1] != '/'
    requires Plain(p) && Plain(q)
    ensures Join(a, [p, q]) == a + "/" + p + "/" + q
    ensures var r := Join(a, [p, q]); |r| > 0 && r[|r| - 1] != '/'
  {
    var s1, s2 := [p], [p, q];
    assert s2[..1] == s1 && s2[1] == q;
    assert s1[..0] == [] && s1[0] == p;
    JoinPlainStep(a, p);
    var ap := a + "/" + p;
    assert Join(a, s1) == ap;
    JoinPlainStep(ap, q);
  }

  lemma JoinPlain3(a: string, p: string, q: string, r: string)
    requires |a| > 0 && a[|a| - 1] != '/'
    requires Plain(p) && Plain(q) && Plain(r)
    ensures Join(a, [p, q, r]) == a + "/" + p + "/" + q + "/" + r
  {
    JoinPlain2(a, p, q);
    var apq := a + "/" + p + "/" + q;
    var s2, s3 := [p, q], [p, q, r];
    assert s3[..2] == s2 && s3[2] == r;
    JoinPlainStep(apq, r);
    assert Join(a, s3) == apq + "/" + r;
  }
}
