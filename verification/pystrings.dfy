/** Python's substring test (`sub in s`), `str.find` and `str.split(sep)`
    on strings, with `Join` as the inverse that says what `Split` means. */
module PyStrings {
  import opened Wrappers

  /** `sub` occurs in `s` starting at index `i`. */
  predicate OccursAt(s: string, sub: string, i: int)
  {
    0 <= i && i + |sub| <= |s| && s[i..i + |sub|] == sub
  }

  /** `i` is the leftmost index at which `sub` occurs in `s`. */
  ghost predicate IsFirstOccurrence(s: string, sub: string, i: int)
  {
    OccursAt(s, sub, i) && forall j :: 0 <= j < i ==> !OccursAt(s, sub, j)
  }

  /** The meaning of Python's `sub in s` on strings. */
  ghost predicate Contains(s: string, sub: string)
  {
    exists i :: OccursAt(s, sub, i)
  }

  lemma OccursAtShift(s: string, sub: string)
    requires |s| > 0
    ensures forall i :: 1 <= i ==> (OccursAt(s, sub, i) <==> OccursAt(s[1..], sub, i - 1))
  {
  }

  /** Python's `s.find(sub)`, with `None` for its -1. */
  function Find(s: string, sub: string): (r: Option<nat>)
    ensures r.Some? ==> IsFirstOccurrence(s, sub, r.value)
    ensures r.None? <==> !Contains(s, sub)
    decreases |s|
  {
    if |s| < |sub| then
      None
    else if s[..|sub|] == sub then
      assert OccursAt(s, sub, 0);
      Some(0)
    else
      OccursAtShift(s, sub);
      assert !OccursAt(s, sub, 0);
      match Find(s[1..], sub)
      case None => None
      case Some(k) => Some(k + 1)
  }

  /** Python's `sub in s`. */
  function In(sub: string, s: string): (b: bool)
    ensures b <==> Contains(s, sub)
  {
    Find(s, sub).Some?
  }

  /** Python's `sep.join(parts)`. */
  function Join(parts: seq<string>, sep: string): string
  {
    if |parts| == 0 then ""
    else if |parts| == 1 then parts[0]
    else parts[0] + sep + Join(parts[1..], sep)
  }

  /** An occurrence inside a prefix is an occurrence in the whole string. */
  lemma OccursInPrefix(s: string, sub: string, n: nat, j: int)
    requires n <= |s|
    requires OccursAt(s[..n], sub, j)
    ensures OccursAt(s, sub, j)
  {
  }

  /** `parts` is the left-to-right split of `s` at `sep`: each piece but the
      last ends at the leftmost occurrence of `sep` in what remains after the
      previous separator, and the last piece is a remainder with no `sep`. */
  ghost predicate IsLeftmostSplit(s: string, sep: string, parts: seq<string>)
    decreases |parts|
  {
    if |parts| == 0 then false
    else if |parts| == 1 then parts[0] == s && !Contains(s, sep)
    else
      && |parts[0]| + |sep| <= |s|
      && s[..|parts[0]|] == parts[0]
      && IsFirstOccurrence(s, sep, |parts[0]|)
      && IsLeftmostSplit(s[|parts[0]| + |sep|..], sep, parts[1..])
  }

  /** The leftmost split is unique: the predicate pins the whole result. */
  lemma {:induction false} LeftmostSplitUnique(s: string, sep: string, p: seq<string>, q: seq<string>)
    requires IsLeftmostSplit(s, sep, p) && IsLeftmostSplit(s, sep, q)
    ensures p == q
    decreases |p|
  {
    if |p| >= 2 && |q| >= 2 {
      var i := |p[0]|;
      assert p[0] == q[0];
      LeftmostSplitUnique(s[i + |sep|..], sep, p[1..], q[1..]);
      assert p == [p[0]] + p[1..];
      assert q == [q[0]] + q[1..];
    }
  }

  /** Python's `s.split(sep)` for a non-empty separator: the pieces between
      the non-overlapping occurrences of `sep`, scanning left to right. */
  function Split(s: string, sep: string): (parts: seq<string>)
    requires |sep| > 0
    ensures |parts| >= 1
    ensures Join(parts, sep) == s
    ensures forall k :: 0 <= k < |parts| ==> !Contains(parts[k], sep)
    ensures |parts| == 1 <==> !Contains(s, sep)
    ensures |parts[0]| <= |s| && parts[0] == s[..|parts[0]|]
    ensures |parts| >= 2 ==> IsFirstOccurrence(s, sep, |parts[0]|)
    ensures IsLeftmostSplit(s, sep, parts)
    decreases |s|
  {
    match Find(s, sep)
    case None => [s]
    case Some(i) =>
      var rest := Split(s[i + |sep|..], sep);
      assert !Contains(s[..i], sep) by {
        forall j | OccursAt(s[..i], sep, j)
          ensures false
        {
          OccursInPrefix(s, sep, i, j);
        }
      }
      assert s[..i] + sep + s[i + |sep|..] == s;
      assert ([s[..i]] + rest)[1..] == rest;
      assert IsLeftmostSplit(s, sep, [s[..i]] + rest);
      [s[..i]] + rest
  }

  /** On a separator that overlaps itself, the scan resumes after each
      separator it cut at, so `"x/d/a/d/d/b"` splits as Python splits it. */
  lemma SplitOverlappingSeparator()
    ensures Split("x/d/a/d/d/b", "/d/") == ["x", "a", "d/b"]
  {
    var s := "x/d/a/d/d/b";
    assert !OccursAt(s, "/d/", 0) by { assert s[0..3][0] == 'x'; }
    assert OccursAt(s, "/d/", 1);
    var t := s[4..];
    assert t == "a/d/d/b";
    assert !OccursAt(t, "/d/", 0) by { assert t[0..3][0] == 'a'; }
    assert OccursAt(t, "/d/", 1);
    var u := t[4..];
    assert u == "d/b";
    assert !Contains(u, "/d/");
    assert IsLeftmostSplit(u, "/d/", ["d/b"]);
    assert IsLeftmostSplit(t, "/d/", ["a", "d/b"]);
    assert IsLeftmostSplit(s, "/d/", ["x", "a", "d/b"]);
    LeftmostSplitUnique(s, "/d/", Split(s, "/d/"), ["x", "a", "d/b"]);
  }
}
