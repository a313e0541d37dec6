/**
 * The parts of `java.lang.String` and `java.lang.Long` the model relies on:
 * prefix/suffix tests, `indexOf`, `trim`, `replace(char, char)`, `toLowerCase`
 * (restricted to ASCII letters), `String.valueOf(long)` and `Long.parseLong`.
 */
module JavaStrings {
  import opened Wrappers

  const MIN_LONG: int := -0x8000_0000_0000_0000
  const MAX_LONG: int := 0x7FFF_FFFF_FFFF_FFFF

  predicate IsLong(n: int) { MIN_LONG <= n <= MAX_LONG }

  predicate StartsWith(s: string, prefix: string) {
    |prefix| <= |s| && s[..|prefix|] == prefix
  }

  predicate EndsWith(s: string, suffix: string) {
    |suffix| <= |s| && s[|s| - |suffix|..] == suffix
  }

  /** `p` occurs in `s` starting at index `i`. */
  predicate OccursAt(s: string, p: string, i: int) {
    0 <= i && i + |p| <= |s| && s[i..i + |p|] == p
  }

  /** `s.indexOf(p) != -1`. */
  predicate Contains(s: string, p: string) {
    exists i | 0 <= i <= |s| :: OccursAt(s, p, i)
  }

  /** `s.indexOf(p, from)`: the first occurrence at or after `from`, or -1. */
  function IndexOfFrom(s: string, p: string, from: nat): (r: int)
    ensures r == -1 || (from <= r && OccursAt(s, p, r))
    decreases |s| + 1 - from
  {
    if from + |p| > |s| then -1
    else if s[from..from + |p|] == p then from
    else IndexOfFrom(s, p, from + 1)
  }

  /** `s.indexOf(p)`. */
  function IndexOf(s: string, p: string): (r: int)
    ensures r == -1 || OccursAt(s, p, r)
  {
    IndexOfFrom(s, p, 0)
  }

  /** `indexOf` finds an occurrence exactly when there is one, and the first one. */
  lemma {:induction false} IndexOfFromFinds(s: string, p: string, from: nat)
    ensures var r := IndexOfFrom(s, p, from);
            (r == -1 <==> forall i :: from <= i <= |s| ==> !OccursAt(s, p, i))
            && (r != -1 ==> forall i :: from <= i < r ==> !OccursAt(s, p, i))
    decreases |s| + 1 - from
  {
    if from + |p| <= |s| && s[from..from + |p|] != p {
      IndexOfFromFinds(s, p, from + 1);
    }
  }

  lemma IndexOfFinds(s: string, p: string)
    ensures IndexOf(s, p) == -1 <==> !Contains(s, p)
    ensures IndexOf(s, p) != -1 ==> forall i :: 0 <= i < IndexOf(s, p) ==> !OccursAt(s, p, i)
  {
    IndexOfFromFinds(s, p, 0);
  }

  lemma OccursInConcat(a: string, b: string, p: string, i: int)
    requires OccursAt(b, p, i)
    ensures OccursAt(a + b, p, |a| + i)
  {
    assert (a + b)[|a| + i..|a| + i + |p|] == b[i..i + |p|];
  }

  // ---------------------------------------------------------------- trim

  /** Java's `trim` removes every character whose code is at most U+0020 from both ends. */
  predicate IsTrimmable(c: char) { c <= ' ' }

  function TrimLeft(s: string): (r: string)
    ensures |r| <= |s| && r == s[|s| - |r|..]
    ensures r == [] || !IsTrimmable(r[0])
    ensures forall i :: 0 <= i < |s| - |r| ==> IsTrimmable(s[i])
  {
    if |s| > 0 && IsTrimmable(s[0]) then TrimLeft(s[1..]) else s
  }

  function TrimRight(s: string): (r: string)
    ensures |r| <= |s| && r == s[..|r|]
    ensures r == [] || !IsTrimmable(r[|r| - 1])
    ensures forall i :: |r| <= i < |s| ==> IsTrimmable(s[i])
  {
    if |s| > 0 && IsTrimmable(s[|s| - 1]) then TrimRight(s[..|s| - 1]) else s
  }

  predicate IsTrimmed(s: string) {
    s == [] || (!IsTrimmable(s[0]) && !IsTrimmable(s[|s| - 1]))
  }

  /** `r` occurs in `s` at `i`, with only trimmable characters before and after it. */
  predicate TrimmedAt(s: string, r: string, i: int) {
    0 <= i <= |s| - |r| && s[i..i + |r|] == r
    && (forall k | 0 <= k < i :: IsTrimmable(s[k]))
    && (forall k | i + |r| <= k < |s| :: IsTrimmable(s[k]))
  }

  /** `r` is `s` with its leading and trailing trimmable characters removed. */
  predicate IsTrimOf(s: string, r: string) {
    IsTrimmed(r) && exists i | 0 <= i <= |s| :: TrimmedAt(s, r, i)
  }

  /** `s.trim()`. */
  function Trim(s: string): (r: string)
    ensures IsTrimOf(s, r)
  {
    var l := TrimLeft(s);
    TrimmedAtParts(s, l, TrimRight(l));
    TrimRight(l)
  }

  /**
   * A suffix `l` of `s` after trimmable characters, and a prefix `r` of `l`
   * before trimmable ones, place `r` in `s` at the index where `l` starts.
   */
  lemma TrimmedAtParts(s: string, l: string, r: string)
    requires |l| <= |s| && l == s[|s| - |l|..] && forall k :: 0 <= k < |s| - |l| ==> IsTrimmable(s[k])
    requires l == [] || !IsTrimmable(l[0])
    requires |r| <= |l| && r == l[..|r|] && forall k :: |r| <= k < |l| ==> IsTrimmable(l[k])
    requires r == [] || !IsTrimmable(r[|r| - 1])
    ensures IsTrimmed(r) && TrimmedAt(s, r, |s| - |l|)
  {
    var i := |s| - |l|;
    assert s[i..i + |r|] == l[..|r|];
    forall k | i + |r| <= k < |s|
      ensures IsTrimmable(s[k])
    {
      assert s[k] == l[k - i];
    }
  }

  /** A non-empty trim starts at the first and ends at the last non-trimmable character. */
  lemma TrimmedAtBounds(s: string, r: string, i: int)
    requires TrimmedAt(s, r, i) && IsTrimmed(r) && r != []
    ensures !IsTrimmable(s[i]) && !IsTrimmable(s[i + |r| - 1])
  {
    assert r[0] == s[i..i + |r|][0];
    assert r[|r| - 1] == s[i..i + |r|][|r| - 1];
  }

  /** At most one string is the trim of `s`, so the contract of `Trim` determines its result. */
  lemma TrimOfUnique(s: string, a: string, b: string)
    requires IsTrimOf(s, a) && IsTrimOf(s, b)
    ensures a == b
  {
    var i :| 0 <= i <= |s| && TrimmedAt(s, a, i);
    var j :| 0 <= j <= |s| && TrimmedAt(s, b, j);
    if a != [] {
      TrimmedAtBounds(s, a, i);
    }
    if b != [] {
      TrimmedAtBounds(s, b, j);
    }
  }

  lemma TrimOfTrimmed(s: string)
    requires IsTrimmed(s)
    ensures Trim(s) == s
  {
  }

  lemma TrimIdempotent(s: string)
    ensures Trim(Trim(s)) == Trim(s)
  {
    TrimOfTrimmed(Trim(s));
  }

  // ---------------------------------------------------------------- characters

  /** `s.replace(from, to)` for single characters. */
  function ReplaceChar(s: string, from: char, to: char): (r: string)
    ensures |r| == |s|
    ensures forall i :: 0 <= i < |s| ==> r[i] == (if s[i] == from then to else s[i])
  {
    seq(|s|, i requires 0 <= i < |s| => if s[i] == from then to else s[i])
  }

  lemma ReplaceCharRemovesAll(s: string, from: char, to: char)
    requires from != to
    ensures forall i :: 0 <= i < |s| ==> ReplaceChar(s, from, to)[i] != from
  {
  }

  function LowerChar(c: char): char {
    if 'A' <= c <= 'Z' then (c as int - 'A' as int + 'a' as int) as char else c
  }

  /** `s.toLowerCase()` on the ASCII letters; every other character is kept. */
  function ToLowerAscii(s: string): (r: string)
    ensures |r| == |s|
    ensures forall i :: 0 <= i < |s| ==> r[i] == LowerChar(s[i])
  {
    seq(|s|, i requires 0 <= i < |s| => LowerChar(s[i]))
  }

  predicate IsLowerAscii(s: string) {
    forall i :: 0 <= i < |s| ==> LowerChar(s[i]) == s[i]
  }

  lemma LowerIsLower(s: string)
    ensures IsLowerAscii(ToLowerAscii(s))
  {
  }

  lemma LowerOfLower(s: string)
    requires IsLowerAscii(s)
    ensures ToLowerAscii(s) == s
  {
  }

  // ---------------------------------------------------------------- decimal numbers

  predicate IsDigit(c: char) { '0' <= c <= '9' }

  function DigitValue(c: char): int
    requires IsDigit(c)
  {
    c as int - '0' as int
  }

  function DigitChar(d: int): (c: char)
    requires 0 <= d < 10
    ensures IsDigit(c) && DigitValue(c) == d
  {
    ('0' as int + d) as char
  }

  predicate AllDigits(s: string) {
    forall i :: 0 <= i < |s| ==> IsDigit(s[i])
  }

  /** The value of a string of decimal digits, read most significant first. */
  function DigitsValue(s: string): (n: nat)
    requires AllDigits(s)
  {
    if s == [] then 0 else DigitsValue(s[..|s| - 1]) * 10 + DigitValue(s[|s| - 1])
  }

  /** The decimal digits of `n` without leading zeros (`"0"` for zero). */
  function NatToString(n: nat): (s: string)
    ensures |s| > 0 && AllDigits(s)
  {
    if n < 10 then [DigitChar(n)] else NatToString(n / 10) + [DigitChar(n % 10)]
  }

  lemma {:induction false} NatToStringValue(n: nat)
    ensures DigitsValue(NatToString(n)) == n
  {
    var s := NatToString(n);
    if n >= 10 {
      assert s[..|s| - 1] == NatToString(n / 10);
      NatToStringValue(n / 10);
    }
  }

  /** `String.valueOf(n)` for a `long` (or an `int`). */
  function DecimalString(n: int): (s: string)
    ensures |s| > 0
  {
    if n < 0 then "-" + NatToString(-n) else NatToString(n)
  }

  /**
   * `Long.parseLong(s)`: an optional `-` or `+` sign followed by at least one
   * decimal digit, whose value fits in a `long`; `None` is the
   * `NumberFormatException` (only ASCII digits are accepted here).
   */
  function ParseLong(s: string): (r: Option<int>)
    ensures r.Some? ==> IsLong(r.value)
  {
    if |s| == 0 then None
    else
      var negative := s[0] == '-';
      var digits := if s[0] == '-' || s[0] == '+' then s[1..] else s;
      if |digits| == 0 || !AllDigits(digits) then None
      else
        var magnitude: int := DigitsValue(digits);
        var v := if negative then 0 - magnitude else magnitude;
        if IsLong(v) then Some(v) else None
  }

  lemma ParseLongAccepts(s: string, v: int)
    requires ParseLong(s) == Some(v)
    ensures exists i :: 0 <= i < |s| && AllDigits(s[i..]) && |s[i..]| > 0
  {
    var i := if s[0] == '-' || s[0] == '+' then 1 else 0;
    assert s[i..] == (if s[0] == '-' || s[0] == '+' then s[1..] else s);
  }

  /** `Long.parseLong(String.valueOf(n)) == n` for every `long` value `n`. */
  lemma DecimalRoundTrip(n: int)
    requires IsLong(n)
    ensures ParseLong(DecimalString(n)) == Some(n)
  {
    var s := DecimalString(n);
    if n < 0 {
      NatToStringValue(-n);
      assert s[1..] == NatToString(-n);
    } else {
      NatToStringValue(n);
      assert s[0] != '-' && s[0] != '+';
    }
  }
}
