/**
 * The Python `str` built-ins the parser relies on: `str.isspace` (which is also what the
 * regular-expression class `\s`, `str.strip()` and `str.split()` test), the digit class `\d`,
 * `str.strip()`, `str.split(None, 1)`, `str.startswith` and `str.find` / the `in` operator.
 * Scanning is done with indices into the one string, as CPython does it.
 */
module PyStr {
  import opened Wrappers

  /** CPython's whitespace set (Py_UNICODE_ISSPACE): the characters `str.isspace`,
      `str.split()`, `str.strip()` and the regex class `\s` all agree on. */
  predicate IsSpace(c: char) {
    ('\t' <= c <= '\r') || ('\U{1C}' <= c <= '\U{1F}') || c == ' ' || c == '\U{85}' ||
    c == '\U{A0}' || c == '\U{1680}' || ('\U{2000}' <= c <= '\U{200A}') ||
    c == '\U{2028}' || c == '\U{2029}' || c == '\U{202F}' || c == '\U{205F}' || c == '\U{3000}'
  }

  /** The regex class `\d`, restricted to ASCII and full-width decimal digits. */
  predicate IsDigit(c: char) {
    ('0' <= c <= '9') || ('\U{FF10}' <= c <= '\U{FF19}')
  }

  /** Every character of `s[a..b]` is whitespace. */
  predicate SpaceBetween(s: string, a: nat, b: nat)
    requires a <= b <= |s|
  {
    forall k :: a <= k < b ==> IsSpace(s[k])
  }

  /** `s.isspace()` or `s == ""`: `s.strip()` is empty. */
  predicate AllSpace(s: string) {
    forall k :: 0 <= k < |s| ==> IsSpace(s[k])
  }

  predicate NoSpace(s: string) {
    forall k :: 0 <= k < |s| ==> !IsSpace(s[k])
  }

  /** The end of the whitespace run of `s` that starts at `from`. */
  function SkipSpace(s: string, from: nat): (j: nat)
    requires from <= |s|
    ensures from <= j <= |s| && SpaceBetween(s, from, j)
    ensures j < |s| ==> !IsSpace(s[j])
    decreases |s| - from
  {
    if from == |s| || !IsSpace(s[from]) then from else SkipSpace(s, from + 1)
  }

  /** The end of the whitespace-free run of `s` that starts at `from`. */
  function SkipToken(s: string, from: nat): (j: nat)
    requires from <= |s|
    ensures from <= j <= |s| && forall k :: from <= k < j ==> !IsSpace(s[k])
    ensures j < |s| ==> IsSpace(s[j])
    decreases |s| - from
  {
    if from == |s| || IsSpace(s[from]) then from else SkipToken(s, from + 1)
  }

  /** The start of the whitespace run of `s` that ends at `upto`. */
  function SkipSpaceBack(s: string, upto: nat): (j: nat)
    requires upto <= |s|
    ensures j <= upto && SpaceBetween(s, j, upto)
    ensures 0 < j ==> !IsSpace(s[j - 1])
    decreases upto
  {
    if upto == 0 || !IsSpace(s[upto - 1]) then upto else SkipSpaceBack(s, upto - 1)
  }

  /** A whitespace run ending at a non-whitespace character (or at the end) is the one
      `SkipSpace` finds. */
  lemma {:induction false} SkipSpaceIs(s: string, from: nat, j: nat)
    requires from <= j <= |s| && SpaceBetween(s, from, j)
    requires j < |s| ==> !IsSpace(s[j])
    ensures SkipSpace(s, from) == j
    decreases j - from
  {
    if from < j {
      SkipSpaceIs(s, from + 1, j);
    }
  }

  lemma {:induction false} SkipTokenIs(s: string, from: nat, j: nat)
    requires from <= j <= |s| && forall k :: from <= k < j ==> !IsSpace(s[k])
    requires j < |s| ==> IsSpace(s[j])
    ensures SkipToken(s, from) == j
    decreases j - from
  {
    if from < j {
      SkipTokenIs(s, from + 1, j);
    }
  }

  lemma {:induction false} SkipSpaceBackIs(s: string, upto: nat, j: nat)
    requires j <= upto <= |s| && SpaceBetween(s, j, upto)
    requires 0 < j ==> !IsSpace(s[j - 1])
    ensures SkipSpaceBack(s, upto) == j
    decreases upto - j
  {
    if j < upto {
      SkipSpaceBackIs(s, upto - 1, j);
    }
  }

  /** `s.strip()`: `s` without its leading and trailing whitespace. */
  function Strip(s: string): (r: string)
    ensures r == [] <==> AllSpace(s)
    ensures SkipSpace(s, 0) + |r| <= |s| && r == s[SkipSpace(s, 0)..SkipSpace(s, 0) + |r|]
    ensures SpaceBetween(s, SkipSpace(s, 0) + |r|, |s|)
    ensures r != [] ==> !IsSpace(r[0]) && !IsSpace(r[|r| - 1])
  {
    var i := SkipSpace(s, 0);
    if i == |s| then
      []
    else
      var j := SkipSpaceBack(s, |s|);
      assert !IsSpace(s[i]);
      s[i..j]
  }

  /** Stripping keeps exactly the part between the leading and the trailing whitespace. */
  lemma StripBetween(s: string, i: nat, j: nat)
    requires i < j <= |s| && SpaceBetween(s, 0, i) && SpaceBetween(s, j, |s|)
    requires !IsSpace(s[i]) && !IsSpace(s[j - 1])
    ensures Strip(s) == s[i..j]
  {
    SkipSpaceIs(s, 0, i);
    SkipSpaceBackIs(s, |s|, j);
  }

  /** `s` is whitespace, then `head`, then whitespace, then `tail`, with `head` a whole
      token: `head` is the first whitespace-delimited token of `s` and `tail` is what
      `s.split(None, 1)` leaves after it. */
  ghost predicate FirstGapSplit(s: string, head: string, tail: string) {
    head != [] && NoSpace(head) && (tail != [] ==> !IsSpace(tail[0])) &&
    exists a: nat {:trigger SpaceBetween(s, 0, a)} ::
      a + |head| + |tail| <= |s| && SpaceBetween(s, 0, a) &&
      s[a..a + |head|] == head &&
      SpaceBetween(s, a + |head|, |s| - |tail|) && s[|s| - |tail|..] == tail &&
      (tail != [] ==> a + |head| < |s| - |tail|)
  }

  /** `s.split(None, 1)`: the first token and, when anything but whitespace follows it, the
      rest of `s` after the whitespace run that ends the token. */
  function SplitOnce(s: string): (parts: seq<string>)
    ensures |parts| <= 2
    ensures parts == [] <==> AllSpace(s)
    ensures |parts| == 1 ==> FirstGapSplit(s, parts[0], [])
    ensures |parts| == 2 ==> parts[1] != [] && FirstGapSplit(s, parts[0], parts[1])
  {
    var i := SkipSpace(s, 0);
    if i == |s| then
      []
    else
      var e := SkipToken(s, i);
      var j := SkipSpace(s, e);
      assert !IsSpace(s[i]) && i < e;
      assert SpaceBetween(s, 0, i);
      if j == |s| then
        assert s[|s|..] == [];
        [s[i..e]]
      else
        assert IsSpace(s[e]) && e < j;
        [s[i..e], s[j..]]
  }

  /** `s.split(None, 1)` in terms of the three scanner positions: the token starts at `a`
      and ends at `e`, and the remainder starts at `j`. */
  lemma SplitOnceAt(s: string, a: nat, e: nat, j: nat)
    requires a < e <= j <= |s| && SpaceBetween(s, 0, a) && !IsSpace(s[a])
    requires forall k :: a <= k < e ==> !IsSpace(s[k])
    requires e < |s| ==> IsSpace(s[e])
    requires SpaceBetween(s, e, j) && (j < |s| ==> !IsSpace(s[j]))
    ensures SplitOnce(s) == if j == |s| then [s[a..e]] else [s[a..e], s[j..]]
  {
    SkipSpaceIs(s, 0, a);
    SkipTokenIs(s, a, e);
    SkipSpaceIs(s, e, j);
  }

  /** Every first-token split of `s` is the one `s.split(None, 1)` returns; in particular
      there is at most one. */
  lemma FirstGapSplitIsSplitOnce(s: string, head: string, tail: string)
    requires FirstGapSplit(s, head, tail)
    ensures SplitOnce(s) == if tail == [] then [head] else [head, tail]
  {
    var a: nat :| a + |head| + |tail| <= |s| && SpaceBetween(s, 0, a) &&
      s[a..a + |head|] == head &&
      SpaceBetween(s, a + |head|, |s| - |tail|) && s[|s| - |tail|..] == tail &&
      (tail != [] ==> a + |head| < |s| - |tail|);
    var e := a + |head|;
    var j := |s| - |tail|;
    assert forall k :: a <= k < e ==> s[k] == head[k - a];
    assert j < |s| ==> s[j] == tail[0];
    var h, t := s[a..e], s[j..];
    assert h == head && t == tail;
    SplitOnceAt(s, a, e, j);
    if tail == [] {
      assert SplitOnce(s) == [h];
    } else {
      assert SplitOnce(s) == [h, t];
    }
  }

  /** `s.startswith(prefix)`. */
  predicate StartsWith(s: string, prefix: string) {
    |prefix| <= |s| && s[..|prefix|] == prefix
  }

  /** `s.endswith(suffix)`. */
  predicate EndsWith(s: string, suffix: string) {
    |suffix| <= |s| && s[|s| - |suffix|..] == suffix
  }

  /** `pat` occurs in `s` starting at index `i`. */
  predicate OccursAt(s: string, pat: string, i: nat) {
    i + |pat| <= |s| && s[i..i + |pat|] == pat
  }

  /** Python's `pat in s`. */
  ghost predicate Occurs(s: string, pat: string) {
    exists i: nat :: OccursAt(s, pat, i)
  }

  /** `s.find(pat, from)`, with `None` for Python's -1. */
  function FindFrom(s: string, pat: string, from: nat): (r: Option<nat>)
    requires from <= |s|
    ensures r.Some? ==> from <= r.value && OccursAt(s, pat, r.value)
    ensures r.Some? ==> forall j: nat :: from <= j < r.value ==> !OccursAt(s, pat, j)
    ensures r.None? ==> forall j: nat :: from <= j ==> !OccursAt(s, pat, j)
    decreases |s| - from
  {
    if OccursAt(s, pat, from) then Some(from)
    else if from == |s| then None
    else FindFrom(s, pat, from + 1)
  }

  /** `s.find(pat)`: the index of the first occurrence of `pat`, or `None`. */
  function Find(s: string, pat: string): (r: Option<nat>)
    ensures r.Some? <==> Occurs(s, pat)
    ensures r.Some? ==> OccursAt(s, pat, r.value) && forall j: nat :: j < r.value ==> !OccursAt(s, pat, j)
  {
    FindFrom(s, pat, 0)
  }
}
