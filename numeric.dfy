/**
 * Kotlin's integer conversions and 64-bit `Long` arithmetic, written out over
 * Dafny's unbounded `int`.
 */
module Numeric {
  import opened Wrappers

  const LONG_MIN: int := -0x8000_0000_0000_0000
  const LONG_MAX: int := 0x7FFF_FFFF_FFFF_FFFF
  const INT_MIN: int := -0x8000_0000
  const INT_MAX: int := 0x7FFF_FFFF
  const TWO_TO_64: int := 0x1_0000_0000_0000_0000

  predicate IsLong(x: int) { LONG_MIN <= x <= LONG_MAX }
  predicate IsInt(x: int) { INT_MIN <= x <= INT_MAX }

  predicate IsDigit(c: char) { '0' <= c <= '9' }
  predicate AllDigits(s: string) { forall i :: 0 <= i < |s| ==> IsDigit(s[i]) }

  /** The value of a string of decimal digits, most significant first. */
  function DigitsValue(s: string): nat
    requires AllDigits(s)
  {
    if |s| == 0 then 0 else DigitsValue(s[..|s| - 1]) * 10 + (s[|s| - 1] as int - '0' as int)
  }

  /**
   * Kotlin `String.toLongOrNull()` / `toIntOrNull()` in radix 10 for the range
   * [lo, hi]: an optional leading `-` or `+`, then at least one digit; null when
   * the text is anything else or the value is out of range.
   */
  function ParseDecimal(s: string, lo: int, hi: int): (r: Option<int>)
    ensures r.Some? ==> lo <= r.value <= hi
    ensures r.Some? ==> |s| > 0 && (IsDigit(s[0]) || s[0] == '-' || s[0] == '+')
    ensures r.Some? ==> |s| > 0 && IsDigit(s[|s| - 1])
  {
    if |s| == 0 then None
    else
      var signed := s[0] == '-' || s[0] == '+';
      var digits := if signed then s[1..] else s;
      if |digits| == 0 || !AllDigits(digits) then None
      else
        assert !signed ==> IsDigit(s[0]);
        var magnitude: int := DigitsValue(digits);
        var v := if s[0] == '-' then -magnitude else magnitude;
        if lo <= v <= hi then Some(v) else None
  }

  /** Accepted text holds digits only, apart from a sign in front. */
  lemma ParseDecimalChars(s: string, lo: int, hi: int)
    requires ParseDecimal(s, lo, hi).Some?
    ensures forall i :: 0 <= i < |s| ==> IsDigit(s[i]) || (i == 0 && (s[0] == '-' || s[0] == '+'))
  {
    var signed := s[0] == '-' || s[0] == '+';
    var digits := if signed then s[1..] else s;
    assert signed ==> forall i :: 1 <= i < |s| ==> s[i] == digits[i - 1];
  }

  /** `String.toLongOrNull()`. */
  function ToLongOrNull(s: string): (r: Option<int>)
    ensures r.Some? ==> IsLong(r.value)
  {
    ParseDecimal(s, LONG_MIN, LONG_MAX)
  }

  /** `String.toIntOrNull()` (and `toInt()`, whose exception the callers catch). */
  function ToIntOrNull(s: string): (r: Option<int>)
    ensures r.Some? ==> IsInt(r.value)
  {
    ParseDecimal(s, INT_MIN, INT_MAX)
  }

  function DigitChar(d: int): (c: char)
    requires 0 <= d < 10
    ensures IsDigit(c) && c as int - '0' as int == d
  {
    ('0' as int + d) as char
  }

  /** The decimal digits of `n`, without leading zeros. */
  function NatDigits(n: nat): (r: string)
    ensures |r| > 0 && AllDigits(r)
    ensures DigitsValue(r) == n
  {
    if n < 10 then [DigitChar(n)]
    else
      var r := NatDigits(n / 10) + [DigitChar(n % 10)];
      assert r[..|r| - 1] == NatDigits(n / 10);
      r
  }

  /** `Long.toString()`: a `-` sign for negative values, then the digits. */
  function FormatDecimal(n: int): (r: string)
    ensures |r| > 0 && IsDigit(r[|r| - 1])
    ensures forall i :: 0 <= i < |r| ==> IsDigit(r[i]) || (i == 0 && r[0] == '-')
  {
    if n < 0 then "-" + NatDigits(-n) else NatDigits(n)
  }

  /** Decimal text holds nothing but digits and a sign. */
  lemma FormatDecimalChars(n: int, c: char)
    requires !IsDigit(c) && c != '-'
    ensures c !in FormatDecimal(n)
  {
  }

  /** Parsing the decimal text of an in-range value gives the value back. */
  lemma ParseFormat(n: int, lo: int, hi: int)
    requires lo <= n <= hi
    ensures ParseDecimal(FormatDecimal(n), lo, hi) == Some(n)
  {
    if n < 0 {
      assert FormatDecimal(n)[1..] == NatDigits(-n);
    }
  }

  /** Two's-complement wrap-around of a Kotlin `Long` operation's exact result. */
  function Wrap64(x: int): (r: int)
    ensures IsLong(r)
    ensures IsLong(x) ==> r == x
  {
    (x - LONG_MIN) % TWO_TO_64 + LONG_MIN
  }

  /** Wrapping after every step of a sum is the same as wrapping once at the end. */
  lemma Wrap64Add(a: int, b: int)
    ensures Wrap64(Wrap64(a) + b) == Wrap64(a + b)
  {
    var m := TWO_TO_64;
    var q := (a - LONG_MIN) / m;
    assert a - LONG_MIN == q * m + (a - LONG_MIN) % m;
    assert Wrap64(a) + b - LONG_MIN == (a + b - LONG_MIN) - q * m;
    ModMultiple(a + b - LONG_MIN, q);
  }

  lemma {:induction false} ModMultiple(z: int, q: int)
    ensures (z - q * TWO_TO_64) % TWO_TO_64 == z % TWO_TO_64
    decreases if q < 0 then -q else q
  {
    if q > 0 {
      ModMultiple(z, q - 1);
      assert z - q * TWO_TO_64 == (z - (q - 1) * TWO_TO_64) - TWO_TO_64;
    } else if q < 0 {
      ModMultiple(z, q + 1);
      assert z - q * TWO_TO_64 == (z - (q + 1) * TWO_TO_64) + TWO_TO_64;
    }
  }

  /** Euclidean division of a non-negative dividend: the quotient bounds it from below. */
  lemma DivBounds(a: int, d: int)
    requires a >= 0 && d > 0
    ensures 0 <= a / d && (a / d) * d <= a < (a / d) * d + d
  {
    var q := a / d;
    var r := a % d;
    assert a == d * q + r && 0 <= r < d;
    assert d * q == q * d;
  }

  /** Kotlin/Java integer division by a positive divisor: truncates toward zero. */
  function DivTrunc(a: int, d: int): (q: int)
    requires d > 0
    ensures a >= 0 ==> 0 <= q && q * d <= a < q * d + d
    ensures a < 0 ==> q <= 0 && q * d - d < a <= q * d
  {
    if a >= 0 then
      DivBounds(a, d);
      a / d
    else
      DivBounds(-a, d);
      -((-a) / d)
  }
}
