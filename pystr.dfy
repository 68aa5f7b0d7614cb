/**
 * The few Python `str` operations the relay relies on: `strip()`, `lower()`,
 * `startswith`, the `in` substring test and `replace(pattern, "")`.
 */
module PyStr {

  /** The characters for which Python's `str.isspace()` holds; `strip()` with no argument removes these. */
  predicate IsSpace(c: char) {
    c == ' ' || ('\t' <= c <= '\r') || ('\U{1c}' <= c <= '\U{1f}')
    || c == '\U{85}' || c == '\U{a0}' || c == '\U{1680}' || ('\U{2000}' <= c <= '\U{200a}')
    || c == '\U{2028}' || c == '\U{2029}' || c == '\U{202f}' || c == '\U{205f}' || c == '\U{3000}'
  }

  predicate AllSpace(s: string) {
    forall i :: 0 <= i < |s| ==> IsSpace(s[i])
  }

  /** `s.lstrip()` */
  function TrimLeft(s: string): (r: string)
    ensures |r| <= |s| && r == s[|s| - |r|..]
    ensures r == [] || !IsSpace(r[0])
    ensures forall i :: 0 <= i < |s| - |r| ==> IsSpace(s[i])
  {
    if s != [] && IsSpace(s[0]) then
      var r := TrimLeft(s[1..]);
      assert s[1..][|s| - 1 - |r|..] == s[|s| - |r|..];
      r
    else s
  }

  /** `s.rstrip()` */
  function TrimRight(s: string): (r: string)
    ensures |r| <= |s| && r == s[..|r|]
    ensures r == [] || !IsSpace(r[|r| - 1])
    ensures forall i :: |r| <= i < |s| ==> IsSpace(s[i])
  {
    if s != [] && IsSpace(s[|s| - 1]) then
      var r := TrimRight(s[..|s| - 1]);
      r
    else s
  }

  /** Every character before index `i` and from index `j` on is white space. */
  predicate SpaceOutside(s: string, i: int, j: int) {
    (forall k :: 0 <= k < i && k < |s| ==> IsSpace(s[k])) && (forall k :: j <= k < |s| && 0 <= k ==> IsSpace(s[k]))
  }

  /** A prefix of the suffix of `s` from `i` is the slice of `s` starting at `i`. */
  lemma PrefixOfSuffix(s: string, i: int, r: string)
    requires 0 <= i <= |s| && |r| <= |s| - i && r == s[i..][..|r|]
    ensures s[i..i + |r|] == r
  {
  }

  /**
   * When everything before `i` is white space, and so is everything after the first `n`
   * characters of the suffix from `i`, then `s` is white space outside `[i, i + n)`.
   */
  lemma SpaceAround(s: string, i: int, n: int)
    requires 0 <= i <= |s| && 0 <= n <= |s| - i
    requires forall k :: 0 <= k < i ==> IsSpace(s[k])
    requires forall k :: n <= k < |s[i..]| ==> IsSpace(s[i..][k])
    ensures SpaceOutside(s, i, i + n)
  {
    forall k | i + n <= k < |s| ensures IsSpace(s[k]) {
      assert s[k] == s[i..][k - i];
    }
  }

  /**
   * A prefix `r` of a suffix `l` of `s` occurs in `s`, and it neither starts nor ends with
   * white space when `l` does not start with white space and `r` does not end with it.
   */
  lemma TrimmedEnds(s: string, l: string, r: string)
    requires |l| <= |s| && l == s[|s| - |l|..] && (l == [] || !IsSpace(l[0]))
    requires |r| <= |l| && r == l[..|r|] && (r == [] || !IsSpace(r[|r| - 1]))
    ensures Contains(s, r)
    ensures r == [] || (!IsSpace(r[0]) && !IsSpace(r[|r| - 1]))
  {
    var i := |s| - |l|;
    PrefixOfSuffix(s, i, r);
    assert OccursAt(r, s, i);
  }

  /** `s.strip()`: the slice of `s` that neither starts nor ends with white space (see `StripRemovesOnlySpace`). */
  function Strip(s: string): (r: string)
    ensures Contains(s, r)
    ensures r == [] || (!IsSpace(r[0]) && !IsSpace(r[|r| - 1]))
  {
    TrimmedEnds(s, TrimLeft(s), TrimRight(TrimLeft(s)));
    TrimRight(TrimLeft(s))
  }

  /**
   * A prefix `r` of a suffix `l` of `s` sits at `|s| - |l|` in `s`; when what precedes `l` and
   * what follows `r` in `l` is white space, so is everything of `s` around `r`.
   */
  lemma TrimmedSlice(s: string, l: string, r: string)
    requires |l| <= |s| && l == s[|s| - |l|..]
    requires forall k :: 0 <= k < |s| - |l| ==> IsSpace(s[k])
    requires |r| <= |l| && r == l[..|r|]
    requires forall k :: |r| <= k < |l| ==> IsSpace(l[k])
    ensures OccursAt(r, s, |s| - |l|) && SpaceOutside(s, |s| - |l|, |s| - |l| + |r|)
  {
    var i := |s| - |l|;
    PrefixOfSuffix(s, i, r);
    SpaceAround(s, i, |r|);
  }

  /** What `strip()` removes from either end is white space only. */
  lemma StripRemovesOnlySpace(s: string)
    ensures exists i :: OccursAt(Strip(s), s, i) && SpaceOutside(s, i, i + |Strip(s)|)
  {
    var l := TrimLeft(s);
    var r := TrimRight(l);
    TrimmedSlice(s, l, r);
    var i := |s| - |l|;
    assert Strip(s) == r;
    assert OccursAt(Strip(s), s, i) && SpaceOutside(s, i, i + |Strip(s)|);
  }

  /** Stripping a string gives the empty string exactly when the string is all white space. */
  lemma StripEmptyIffAllSpace(s: string)
    ensures Strip(s) == [] <==> AllSpace(s)
  {
    var l := TrimLeft(s);
    if Strip(s) == [] {
      assert TrimRight(l) == [];
      assert l == [];
    } else {
      var r := Strip(s);
      var i :| 0 <= i <= |s| && OccursAt(r, s, i);
      assert s[i] == r[0];
    }
  }

  /** A string that neither starts nor ends with white space is its own strip. */
  lemma StripUnchanged(s: string)
    requires s != [] && !IsSpace(s[0]) && !IsSpace(s[|s| - 1])
    ensures Strip(s) == s
  {
    assert TrimLeft(s) == s;
    assert TrimRight(s) == s;
  }

  /** Stripping twice changes nothing more. */
  lemma StripIdempotent(s: string)
    ensures Strip(Strip(s)) == Strip(s)
  {
    var r := Strip(s);
    assert TrimLeft(r) == r;
    assert TrimRight(r) == r;
  }

  function LowerChar(c: char): (d: char)
    ensures 'A' <= c <= 'Z' ==> 'a' <= d <= 'z' && d as int == c as int + 32
    ensures !('A' <= c <= 'Z') ==> d == c
  {
    if 'A' <= c <= 'Z' then (c as int + 32) as char else c
  }

  /** `s.lower()` restricted to the ASCII letters. */
  function Lower(s: string): (r: string)
    ensures |r| == |s|
    ensures forall i :: 0 <= i < |s| ==> r[i] == LowerChar(s[i])
  {
    seq(|s|, i requires 0 <= i < |s| => LowerChar(s[i]))
  }

  lemma LowerIdempotent(s: string)
    ensures Lower(Lower(s)) == Lower(s)
  {
    assert forall i :: 0 <= i < |s| ==> LowerChar(LowerChar(s[i])) == LowerChar(s[i]);
  }

  /** `k` occurs in `s` starting at index `i`. */
  predicate OccursAt(k: string, s: string, i: int) {
    0 <= i && i + |k| <= |s| && s[i..i + |k|] == k
  }

  /** Python's `k in s` for strings. */
  predicate Contains(s: string, k: string) {
    exists i :: 0 <= i <= |s| && OccursAt(k, s, i)
  }

  /** `s.startswith(p)` */
  predicate StartsWith(s: string, p: string) {
    |p| <= |s| && s[..|p|] == p
  }

  /**
   * `s.replace(p, "")`: scans left to right and deletes every non-overlapping
   * occurrence of the non-empty pattern `p`.
   */
  function RemoveAll(s: string, p: string): (r: string)
    requires p != []
    ensures |r| <= |s|
    decreases |s|
  {
    if StartsWith(s, p) then RemoveAll(s[|p|..], p)
    else if s == [] then []
    else [s[0]] + RemoveAll(s[1..], p)
  }

  /** A pattern absent from a string is absent from its tail. */
  lemma AbsentFromTail(s: string, p: string)
    requires s != [] && !Contains(s, p)
    ensures !Contains(s[1..], p)
  {
    forall i | 0 <= i <= |s[1..]| ensures !OccursAt(p, s[1..], i) {
      if OccursAt(p, s[1..], i) {
        assert s[i + 1..i + 1 + |p|] == s[1..][i..i + |p|];
        assert OccursAt(p, s, i + 1);
      }
    }
  }

  /** A string without any occurrence of the pattern is left as it is. */
  lemma {:induction false} RemoveAllAbsent(s: string, p: string)
    requires p != [] && !Contains(s, p)
    ensures RemoveAll(s, p) == s
    decreases |s|
  {
    if StartsWith(s, p) {
      assert OccursAt(p, s, 0);
    } else if s != [] {
      AbsentFromTail(s, p);
      RemoveAllAbsent(s[1..], p);
      assert s == [s[0]] + s[1..];
    }
  }

  /** A stretch `a` free of occurrences before `p + b` stays free when its first character is dropped. */
  lemma NoOccurrenceInTail(a: string, p: string, b: string)
    requires a != []
    requires forall i :: 0 <= i < |a| ==> !OccursAt(p, a + p + b, i)
    ensures forall i :: 0 <= i < |a| - 1 ==> !OccursAt(p, a[1..] + p + b, i)
  {
    var s := a + p + b;
    var u := a[1..] + p + b;
    assert s[1..] == u;
    forall i | 0 <= i < |a| - 1 ensures !OccursAt(p, u, i) {
      assert !OccursAt(p, s, i + 1);
      if i + |p| <= |u| {
        assert s[i + 1..i + 1 + |p|] == u[i..i + |p|];
      }
    }
  }

  /** One step of `RemoveAllAfter`: a first character that does not start the pattern is kept. */
  lemma RemoveAllSkip(c: char, t: string, p: string, u: string, rest: string)
    requires p != [] && !StartsWith([c] + t, p)
    requires RemoveAll(t, p) == u + rest
    ensures RemoveAll([c] + t, p) == ([c] + u) + rest
  {
    var s := [c] + t;
    assert s[0] == c && s[1..] == t;
  }

  /**
   * An occurrence of the pattern after a stretch that contains no occurrence is deleted
   * too: the stretch is kept as it is and the rest is processed the same way.
   */
  lemma {:induction false} RemoveAllAfter(a: string, p: string, b: string)
    requires p != []
    requires forall i :: 0 <= i < |a| ==> !OccursAt(p, a + p + b, i)
    ensures RemoveAll(a + p + b, p) == a + RemoveAll(b, p)
    decreases |a|
  {
    var s := a + p + b;
    if a == [] {
      assert s == p + b;
      RemoveAllLeading(p, b);
    } else {
      assert !OccursAt(p, s, 0);
      NoOccurrenceInTail(a, p, b);
      RemoveAllAfter(a[1..], p, b);
      var t := a[1..] + p + b;
      assert s == [a[0]] + t;
      assert s[..|p|] == s[0..|p|];
      RemoveAllSkip(a[0], t, p, a[1..], RemoveAll(b, p));
      assert [a[0]] + a[1..] == a;
    }
  }

  /** Each leading occurrence of the pattern is deleted; what follows is processed the same way. */
  lemma RemoveAllLeading(p: string, t: string)
    requires p != []
    ensures RemoveAll(p + t, p) == RemoveAll(t, p)
  {
    assert (p + t)[..|p|] == p;
    assert (p + t)[|p|..] == t;
  }
}
