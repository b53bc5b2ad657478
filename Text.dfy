/** The string operations the lookup engine applies to query text and cell
    text: Python's `str.strip()`, `str.lower()`, `str.isdigit()` with `int()`,
    and the substring test `p in s`. */
module Text {

  /** Python's `str.isspace()` for one character: the ASCII blanks and
      separators plus the Unicode space characters. */
  predicate IsSpace(c: char) {
    c in {' ', '\t', '\n', '\r', '\U{0B}', '\U{0C}', '\U{1C}', '\U{1D}', '\U{1E}', '\U{1F}',
          '\U{85}', '\U{A0}', '\U{1680}', '\U{2028}', '\U{2029}', '\U{202F}', '\U{205F}', '\U{3000}'}
    || ('\U{2000}' <= c <= '\U{200A}')
  }

  ghost predicate AllSpace(s: string) {
    forall k :: 0 <= k < |s| ==> IsSpace(s[k])
  }

  /** No whitespace at either end: what `strip()` leaves. */
  ghost predicate IsStripped(s: string) {
    s == [] || (!IsSpace(s[0]) && !IsSpace(s[|s| - 1]))
  }

  /** The number of leading whitespace characters of `s`. */
  function LeadingSpaces(s: string): (n: nat)
    ensures n <= |s|
    ensures AllSpace(s[..n])
    ensures n < |s| ==> !IsSpace(s[n])
  {
    if s != [] && IsSpace(s[0]) then
      var n := 1 + LeadingSpaces(s[1..]);
      assert s[..n] == [s[0]] + s[1..][..n - 1];
      n
    else 0
  }

  /** The end of `s[lo..]` once trailing whitespace is dropped. */
  function TrailingEnd(s: string, lo: nat): (m: nat)
    requires lo <= |s|
    ensures lo <= m <= |s|
    ensures AllSpace(s[m..])
    ensures m > lo ==> !IsSpace(s[m - 1])
    decreases |s| - lo
  {
    if |s| > lo && IsSpace(s[|s| - 1]) then
      var m := TrailingEnd(s[..|s| - 1], lo);
      assert s[m..] == s[..|s| - 1][m..] + [s[|s| - 1]];
      m
    else |s|
  }

  /** Python's `s.strip()`: `s` without leading and trailing whitespace. */
  function Strip(s: string): (r: string)
    ensures IsStripped(r)
    ensures exists i, j :: 0 <= i <= j <= |s| && r == s[i..j] && AllSpace(s[..i]) && AllSpace(s[j..])
  {
    var i := LeadingSpaces(s);
    var j := TrailingEnd(s, i);
    assert i < j ==> !IsSpace(s[i..j][0]);
    s[i..j]
  }

  /** Stripping twice is stripping once. */
  lemma StripIdempotent(s: string)
    ensures Strip(Strip(s)) == Strip(s)
  {
    var t := Strip(s);
    assert LeadingSpaces(t) == 0;
    assert TrailingEnd(t, 0) == |t|;
    assert t[0..|t|] == t;
  }

  /** `str.lower()` on one character; only ASCII letters change case here. */
  function LowerChar(c: char): char {
    if 'A' <= c <= 'Z' then (c as int + 32) as char else c
  }

  /** `s.lower()`: no capital ASCII letter is left, each capital becomes its
      small letter, and every other character stays where it was. */
  function Lower(s: string): (r: string)
    ensures |r| == |s|
    ensures forall k :: 0 <= k < |r| ==> !('A' <= r[k] <= 'Z')
    ensures forall k :: 0 <= k < |s| && 'A' <= s[k] <= 'Z' ==> r[k] as int == s[k] as int + 32
    ensures forall k :: 0 <= k < |s| && !('A' <= s[k] <= 'Z') ==> r[k] == s[k]
  {
    seq(|s|, k requires 0 <= k < |s| => LowerChar(s[k]))
  }

  /** A string without capital ASCII letters is its own lowercase. */
  lemma LowerKeepsUncased(s: string)
    requires forall k :: 0 <= k < |s| ==> !('A' <= s[k] <= 'Z')
    ensures Lower(s) == s
  {
  }

  /** Lowering twice is lowering once. */
  lemma LowerIdempotent(s: string)
    ensures Lower(Lower(s)) == Lower(s)
  {
  }

  predicate IsPrefix(p: string, s: string) {
    |p| <= |s| && s[..|p|] == p
  }

  /** `p` occurs in `s` starting at index `i`. */
  ghost predicate OccursAt(p: string, s: string, i: nat) {
    i + |p| <= |s| && s[i..i + |p|] == p
  }

  /** Python's `p in s` for strings, computed by trying every start position. */
  function Contains(p: string, s: string): bool
    decreases |s|
  {
    IsPrefix(p, s) || (s != [] && Contains(p, s[1..]))
  }

  /** An occurrence past the first character is an occurrence in the tail. */
  lemma OccursShift(p: string, s: string, j: nat)
    requires s != [] && OccursAt(p, s, j + 1)
    ensures OccursAt(p, s[1..], j)
  {
    assert s[1..][j..j + |p|] == s[j + 1..j + 1 + |p|];
  }

  /** `p in s` holds exactly when `p` occurs in `s` at some position. */
  lemma {:induction false} ContainsIffOccurs(p: string, s: string)
    ensures Contains(p, s) <==> exists i: nat :: OccursAt(p, s, i)
    decreases |s|
  {
    if IsPrefix(p, s) {
      assert OccursAt(p, s, 0);
    } else if s == [] {
      forall i: nat ensures !OccursAt(p, s, i) {}
    } else {
      ContainsIffOccurs(p, s[1..]);
      if Contains(p, s[1..]) {
        var i: nat :| OccursAt(p, s[1..], i);
        assert s[i + 1..i + 1 + |p|] == s[1..][i..i + |p|];
        assert OccursAt(p, s, i + 1);
      } else {
        forall i: nat | OccursAt(p, s, i)
          ensures false
        {
          if i > 0 {
            OccursShift(p, s, i - 1);
          }
        }
      }
    }
  }

  predicate IsDigitChar(c: char) {
    '0' <= c <= '9'
  }

  /** Python's `s.isdigit()`, for ASCII digits: non-empty and all digits. */
  predicate IsDigits(s: string) {
    s != [] && forall k :: 0 <= k < |s| ==> IsDigitChar(s[k])
  }

  /** Python's `int(s)` on a digit string, in decimal; leading zeros allowed. */
  function DigitsValue(s: string): (n: nat)
    requires forall k :: 0 <= k < |s| ==> IsDigitChar(s[k])
    decreases |s|
  {
    if s == [] then 0
    else
      assert IsDigitChar(s[|s| - 1]);
      10 * DigitsValue(s[..|s| - 1]) + (s[|s| - 1] as int - '0' as int)
  }

  function Pow10(n: nat): (p: nat)
    ensures p >= 1
  {
    if n == 0 then 1 else 10 * Pow10(n - 1)
  }

  lemma {:induction false} Pow10Monotone(m: nat, n: nat)
    requires m <= n
    ensures Pow10(m) <= Pow10(n)
    decreases n
  {
    if m < n {
      Pow10Monotone(m, n - 1);
    }
  }

  /** A string of `n` digits denotes a number below `10^n`, and at least
      `10^(n-1)` when it does not start with `0`: the decimal reading of
      `int()`. */
  lemma {:induction false} DigitsBounds(s: string)
    requires IsDigits(s)
    ensures DigitsValue(s) < Pow10(|s|)
    ensures s[0] != '0' ==> Pow10(|s| - 1) <= DigitsValue(s)
    decreases |s|
  {
    var n := |s| - 1;
    var front := s[..n];
    assert IsDigitChar(s[n]);
    if n == 0 {
      assert front == [];
    } else {
      assert front[0] == s[0];
      assert IsDigits(front) by {
        forall k | 0 <= k < |front| ensures IsDigitChar(front[k]) {
          assert front[k] == s[k];
        }
      }
      DigitsBounds(front);
    }
  }
}
