/**
 * The few pieces of Python's `str` behaviour that the backend relies on:
 * `find`, `in`, `strip`, `lower`, `startswith`, slicing with a negative stop,
 * `", ".join(...)` and `str(int)`.
 */
module PyStr {

  /** `sub` occurs in `s` starting at index `i`. */
  predicate OccursAt(s: string, sub: string, i: int) {
    0 <= i && i + |sub| <= |s| && s[i..i + |sub|] == sub
  }

  /** `s.find(sub, start)`: the least index at or after `start` where `sub` occurs, else -1. */
  function Find(s: string, sub: string, start: nat): (r: int)
    ensures r == -1 || (start <= r && OccursAt(s, sub, r))
    decreases |s| - start
  {
    if start + |sub| > |s| then -1
    else if s[start..start + |sub|] == sub then start
    else Find(s, sub, start + 1)
  }

  /** `find` returns the first occurrence: none lies between `start` and the result, or after `start` at all on -1. */
  lemma {:induction false} FindIsFirst(s: string, sub: string, start: nat)
    ensures Find(s, sub, start) == -1 ==> forall i :: start <= i ==> !OccursAt(s, sub, i)
    ensures Find(s, sub, start) != -1 ==> forall i :: start <= i < Find(s, sub, start) ==> !OccursAt(s, sub, i)
    decreases |s| - start
  {
    if start + |sub| <= |s| && s[start..start + |sub|] != sub {
      FindIsFirst(s, sub, start + 1);
    }
  }

  /** Python's `sub in s`. */
  predicate Contains(s: string, sub: string) {
    Find(s, sub, 0) != -1
  }

  /** A string holding `sub` holds every prefix of `sub`, at the same place. */
  lemma ContainsPrefix(s: string, sub: string, pre: string)
    requires Contains(s, sub) && StartsWith(sub, pre)
    ensures Contains(s, pre)
  {
    var i := Find(s, sub, 0);
    assert s[i..i + |pre|] == s[i..i + |sub|][..|pre|];
    assert OccursAt(s, pre, i);
    ContainsIff(s, pre);
  }

  lemma ContainsIff(s: string, sub: string)
    ensures Contains(s, sub) <==> exists i :: OccursAt(s, sub, i)
  {
    FindIsFirst(s, sub, 0);
    if !Contains(s, sub) {
      forall i ensures !OccursAt(s, sub, i) {
        if 0 <= i { assert 0 <= i; }
      }
    }
  }

  /** A substring of a string that does not contain `sub` does not contain it either. */
  lemma {:induction false} NotContainsSlice(s: string, sub: string, a: nat, b: nat)
    requires a <= b <= |s|
    requires forall i :: a <= i && i + |sub| <= b ==> !OccursAt(s, sub, i)
    ensures forall k :: !OccursAt(s[a..b], sub, k)
  {
    forall k | OccursAt(s[a..b], sub, k) ensures false {
      assert 0 <= k && k + |sub| <= b - a;
      var t := s[a..b];
      forall j | 0 <= j < |sub| ensures s[a + k + j] == sub[j] {
        assert t[k..k + |sub|][j] == sub[j];
        assert t[k..k + |sub|][j] == t[k + j];
        assert t[k + j] == s[a + k + j];
      }
      assert s[a + k..a + k + |sub|] == sub;
      assert OccursAt(s, sub, a + k);
    }
  }

  /** Python's `str.isspace()` for a single character. */
  predicate IsSpace(c: char) {
    var k := c as int;
    (9 <= k <= 13) || (28 <= k <= 32) || k == 0x85 || k == 0xA0 || k == 0x1680 ||
    (0x2000 <= k <= 0x200A) || k == 0x2028 || k == 0x2029 || k == 0x202F ||
    k == 0x205F || k == 0x3000
  }

  /** The first index at or after `i` that does not hold whitespace (or `|s|`). */
  function SkipLeading(s: string, i: nat): (j: nat)
    requires i <= |s|
    ensures i <= j <= |s|
    decreases |s| - i
  {
    if i < |s| && IsSpace(s[i]) then SkipLeading(s, i + 1) else i
  }

  /** `SkipLeading` passes whitespace only, and stops at the end or at a non-space. */
  lemma {:induction false} SkipLeadingSkipsSpaces(s: string, i: nat)
    requires i <= |s|
    ensures forall k :: i <= k < SkipLeading(s, i) ==> IsSpace(s[k])
    ensures SkipLeading(s, i) < |s| ==> !IsSpace(s[SkipLeading(s, i)])
    decreases |s| - i
  {
    if i < |s| && IsSpace(s[i]) {
      SkipLeadingSkipsSpaces(s, i + 1);
    }
  }

  /** The end, at or before `j` but not before `lo`, once the whitespace before `j` is dropped. */
  function SkipTrailing(s: string, lo: nat, j: nat): (k: nat)
    requires lo <= j <= |s|
    ensures lo <= k <= j
    decreases j
  {
    if j > lo && IsSpace(s[j - 1]) then SkipTrailing(s, lo, j - 1) else j
  }

  /** `SkipTrailing` drops whitespace only, and stops at `lo` or after a non-space. */
  lemma {:induction false} SkipTrailingSkipsSpaces(s: string, lo: nat, j: nat)
    requires lo <= j <= |s|
    ensures forall m :: SkipTrailing(s, lo, j) <= m < j ==> IsSpace(s[m])
    ensures SkipTrailing(s, lo, j) > lo ==> !IsSpace(s[SkipTrailing(s, lo, j) - 1])
    decreases j
  {
    if j > lo && IsSpace(s[j - 1]) {
      SkipTrailingSkipsSpaces(s, lo, j - 1);
    }
  }

  /** Where `s.strip()` starts and ends in `s`. */
  function StripStart(s: string): (a: nat)
    ensures a <= |s|
  {
    SkipLeading(s, 0)
  }

  function StripEnd(s: string): (b: nat)
    ensures StripStart(s) <= b <= |s|
  {
    SkipTrailing(s, StripStart(s), |s|)
  }

  /** `s.strip()`: `s` without its leading and trailing whitespace. */
  function Strip(s: string): (r: string)
    ensures |r| <= |s|
  {
    s[StripStart(s)..StripEnd(s)]
  }

  /** `strip` removes whitespace only, and all of it at both ends. */
  lemma StripTrimsWhitespace(s: string)
    ensures forall i :: 0 <= i < StripStart(s) ==> IsSpace(s[i])
    ensures forall i :: StripEnd(s) <= i < |s| ==> IsSpace(s[i])
    ensures Strip(s) == [] || (!IsSpace(Strip(s)[0]) && !IsSpace(Strip(s)[|Strip(s)| - 1]))
  {
    SkipLeadingSkipsSpaces(s, 0);
    SkipTrailingSkipsSpaces(s, StripStart(s), |s|);
  }

  /** Stripping a piece that holds no occurrence of `sub` leaves none. */
  lemma StripKeepsAbsence(s: string, sub: string)
    requires forall k :: !OccursAt(s, sub, k)
    ensures forall k :: !OccursAt(Strip(s), sub, k)
  {
    NotContainsSlice(s, sub, StripStart(s), StripEnd(s));
  }

  /** `s.startswith(prefix)`. */
  predicate StartsWith(s: string, prefix: string) {
    |prefix| <= |s| && s[..|prefix|] == prefix
  }

  /** `c.lower()` for ASCII letters; every other character is left as it is. */
  function LowerChar(c: char): (r: char)
    ensures 'A' <= c <= 'Z' ==> r as int == c as int + 32
    ensures !('A' <= c <= 'Z') ==> r == c
  {
    if 'A' <= c <= 'Z' then (c as int + 32) as char else c
  }

  /** `s.lower()`, character by character. */
  function Lower(s: string): (r: string)
    ensures |r| == |s|
    ensures forall i :: 0 <= i < |s| ==> r[i] == LowerChar(s[i])
  {
    if s == [] then [] else [LowerChar(s[0])] + Lower(s[1..])
  }

  /** Text without capital letters is its own lower case. */
  lemma LowerKeepsLowercase(s: string)
    requires forall i :: 0 <= i < |s| ==> !('A' <= s[i] <= 'Z')
    ensures Lower(s) == s
  {
    assert forall i :: 0 <= i < |s| ==> Lower(s)[i] == s[i];
  }

  /** A slice bound as Python normalises it: negative counts from the end, then clamped to [0, n]. */
  function SliceBound(i: int, n: nat): (r: nat)
    ensures r <= n
    ensures 0 <= i <= n ==> r == i
    ensures -(n as int) <= i < 0 ==> r == n + i
  {
    if i < 0 then (if i + n < 0 then 0 else i + n) else if i > n then n else i
  }

  /** Python's `s[start:stop]`. */
  function PySlice(s: string, start: int, stop: int): (r: string)
    ensures |r| <= |s|
  {
    var a := SliceBound(start, |s|);
    var b := SliceBound(stop, |s|);
    if a < b then s[a..b] else []
  }

  /** `sep.join(items)`. */
  function Join(sep: string, items: seq<string>): (r: string)
    ensures items == [] ==> r == []
    ensures |items| == 1 ==> r == items[0]
  {
    if items == [] then []
    else if |items| == 1 then items[0]
    else items[0] + sep + Join(sep, items[1..])
  }

  function DigitChar(d: nat): (c: char)
    requires d < 10
    ensures '0' <= c <= '9'
  {
    ('0' as int + d) as char
  }

  /** `str(n)` for a natural number: decimal digits, no leading zero. */
  function NatToString(n: nat): (r: string)
    ensures |r| >= 1
    ensures forall i :: 0 <= i < |r| ==> '0' <= r[i] <= '9'
    ensures n > 0 ==> r[0] != '0'
  {
    if n < 10 then [DigitChar(n)] else NatToString(n / 10) + [DigitChar(n % 10)]
  }

  /** `str(n)` for an integer. */
  function IntToString(n: int): (r: string)
    ensures |r| >= 1
    ensures n < 0 ==> r[0] == '-'
    ensures n >= 0 ==> r == NatToString(n)
  {
    if n < 0 then "-" + NatToString(-n) else NatToString(n)
  }
}
