/** Numeric building blocks shared by the simulation and the rasteriser:
    the turn constant, C++'s truncating `static_cast<int>` on doubles,
    `std::min`/`std::clamp` on ints, and the decimal rendering that
    `ostringstream << int` performs. Doubles are modelled as exact reals. */
module Numeric {

  /** `PI` and `TWO_PI` of main.cpp, as the real value of the decimal literal. */
  const PI: real := 3.14159265358979323846
  const TWO_PI: real := 2.0 * PI

  /** `static_cast<int>(r)`: truncation toward zero (not floor). */
  function Trunc(r: real): (t: int)
    ensures 0.0 <= r ==> t as real <= r < t as real + 1.0
    ensures r < 0.0 ==> t as real - 1.0 < r <= t as real
    ensures 0.0 <= r ==> 0 <= t
    ensures r <= 0.0 ==> t <= 0
  {
    if r >= 0.0 then r.Floor else -((-r).Floor)
  }

  /** Truncation never reverses the order of its arguments. */
  lemma TruncMonotone(r1: real, r2: real)
    requires r1 <= r2
    ensures Trunc(r1) <= Trunc(r2)
  {
  }

  /** Every real in (-1, 1) truncates to 0: a coordinate just left of the
      grid still lands in column 0. */
  lemma TruncNearZero(r: real)
    requires -1.0 < r < 1.0
    ensures Trunc(r) == 0
  {
  }

  /** `static_cast<int>(n / 2.0)` for a non-negative int is integer halving. */
  lemma TruncHalf(n: int)
    requires 0 <= n
    ensures Trunc(n as real / 2.0) == n / 2
  {
    var q := n / 2;
    assert n == 2 * q || n == 2 * q + 1;
    assert q as real <= n as real / 2.0 < q as real + 1.0;
  }

  /** `std::min` on ints. */
  function Min(a: int, b: int): (m: int)
    ensures m <= a && m <= b
    ensures m == a || m == b
  {
    if a <= b then a else b
  }

  /** `std::clamp(v, lo, hi)` on ints; std::clamp demands `lo <= hi`. */
  function Clamp(v: int, lo: int, hi: int): (c: int)
    requires lo <= hi
    ensures lo <= c <= hi
    ensures lo <= v <= hi ==> c == v
    ensures v < lo ==> c == lo
    ensures hi < v ==> c == hi
  {
    if v < lo then lo else if hi < v then hi else v
  }

  /** Clamping preserves order. */
  lemma ClampMonotone(v1: int, v2: int, lo: int, hi: int)
    requires lo <= hi && v1 <= v2
    ensures Clamp(v1, lo, hi) <= Clamp(v2, lo, hi)
  {
  }

  predicate IsDigit(c: char) {
    '0' <= c <= '9'
  }

  function DigitChar(d: int): (c: char)
    requires 0 <= d < 10
    ensures IsDigit(c)
  {
    ('0' as int + d) as char
  }

  function DigitValue(c: char): (d: int)
    requires IsDigit(c)
    ensures 0 <= d < 10
  {
    c as int - '0' as int
  }

  /** The decimal digits of `n`, most significant first, no leading zero. */
  function NatToString(n: nat): (s: string)
    ensures |s| >= 1
    ensures forall i :: 0 <= i < |s| ==> IsDigit(s[i])
    ensures (s[0] == '0') <==> (n == 0)
    ensures n < 10 <==> |s| == 1
    decreases n
  {
    if n < 10 then [DigitChar(n)] else NatToString(n / 10) + [DigitChar(n % 10)]
  }

  /** What `ostringstream << n` writes for an int: a minus sign for negative
      values, then the decimal digits of the magnitude. */
  function IntToString(i: int): (s: string)
    ensures |s| >= 1
    ensures (s[0] == '-') <==> (i < 0)
    ensures forall k :: (if i < 0 then 1 else 0) <= k < |s| ==> IsDigit(s[k])
  {
    if i < 0 then "-" + NatToString(-i) else NatToString(i)
  }

  /** The value of a string of decimal digits (the inverse of NatToString). */
  function ParseNat(s: string): nat
    requires forall i :: 0 <= i < |s| ==> IsDigit(s[i])
    decreases |s|
  {
    if |s| == 0 then 0 else ParseNat(s[..|s| - 1]) * 10 + DigitValue(s[|s| - 1])
  }

  /** The value of an optionally signed decimal numeral. */
  function ParseInt(s: string): int
    requires |s| >= 1
    requires forall k :: (if s[0] == '-' then 1 else 0) <= k < |s| ==> IsDigit(s[k])
  {
    if s[0] == '-' then -(ParseNat(s[1..]) as int) else ParseNat(s)
  }

  lemma {:induction false} ParseNatToString(n: nat)
    ensures ParseNat(NatToString(n)) == n
    decreases n
  {
    if n >= 10 {
      var s := NatToString(n);
      assert s[..|s| - 1] == NatToString(n / 10);
      ParseNatToString(n / 10);
    }
  }

  /** Reading back the numeral that IntToString writes gives the number:
      the footer's seconds count is rendered without loss. */
  lemma IntToStringRoundTrip(i: int)
    ensures ParseInt(IntToString(i)) == i
  {
    var s := IntToString(i);
    if i < 0 {
      assert s[1..] == NatToString(-i);
      ParseNatToString(-i);
    } else {
      ParseNatToString(i);
    }
  }

  /** Distinct ints are rendered as distinct strings. */
  lemma IntToStringInjective(i: int, j: int)
    requires IntToString(i) == IntToString(j)
    ensures i == j
  {
    IntToStringRoundTrip(i);
    IntToStringRoundTrip(j);
  }
}
