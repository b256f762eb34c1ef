/**
 * The pieces of the Java platform the modelled classes lean on: nullable
 * references, the 32-bit `int` with its wrap-around arithmetic, and the
 * decimal conversions `String.valueOf(int)` and `Integer.valueOf(String)`.
 */
module JavaLang {

  /** A Java reference that may be `null` (`None`). */
  datatype Option<+T> = None | Some(value: T)

  const MIN_INT: int := -0x8000_0000
  const MAX_INT: int := 0x7FFF_FFFF
  /** Number of distinct values of a Java `int`. */
  const INT_RANGE: int := 0x1_0000_0000

  /** The values a Java `int` can hold. */
  predicate IsInt(n: int) {
    MIN_INT <= n <= MAX_INT
  }

  /** Two's-complement wrap-around: the Java `int` congruent to `x` modulo 2^32. */
  function Wrap(x: int): (r: int)
    ensures IsInt(r)
    ensures IsInt(x) ==> r == x
  {
    (x - MIN_INT) % INT_RANGE + MIN_INT
  }

  /** Two mathematical values that differ by a multiple of 2^32 wrap to the same `int`. */
  lemma {:induction false} WrapCongruent(a: int, b: int, k: int)
    requires a == b + k * INT_RANGE
    ensures Wrap(a) == Wrap(b)
  {
    var x := b - MIN_INT;
    assert a - MIN_INT == x + k * INT_RANGE;
    var q := x / INT_RANGE;
    var m := x % INT_RANGE;
    assert x == q * INT_RANGE + m && 0 <= m < INT_RANGE;
    assert a - MIN_INT == (q + k) * INT_RANGE + m;
  }

  /** Wrapping an intermediate result does not change the final wrapped sum. */
  lemma {:induction false} WrapAdd(x: int, y: int)
    ensures Wrap(Wrap(x) + y) == Wrap(x + y)
  {
    var q := (x - MIN_INT) / INT_RANGE;
    assert Wrap(x) == x - q * INT_RANGE;
    WrapCongruent(x + y, Wrap(x) + y, q);
  }

  predicate IsDigit(c: char) {
    '0' <= c <= '9'
  }

  predicate AllDigits(s: string) {
    forall i :: 0 <= i < |s| ==> IsDigit(s[i])
  }

  function DigitChar(d: int): (c: char)
    requires 0 <= d < 10
    ensures IsDigit(c)
  {
    ('0' as int + d) as char
  }

  function DigitValue(c: char): (d: int)
    requires IsDigit(c)
    ensures 0 <= d < 10
  {
    c as int - '0' as int
  }

  /** Decimal digits of a natural number, most significant first, with no leading zero. */
  function NatToString(n: nat): (s: string)
    ensures |s| > 0 && AllDigits(s)
    ensures s[0] == '0' ==> n == 0
  {
    if n < 10 then [DigitChar(n)] else NatToString(n / 10) + [DigitChar(n % 10)]
  }

  /** `String.valueOf(int)`: a minus sign for negative values, then the digits of the magnitude. */
  function IntToString(n: int): (s: string)
  {
    if n < 0 then "-" + NatToString(-n) else NatToString(n)
  }

  /** The number a run of decimal digits denotes, most significant digit first. */
  function DigitsValue(s: string): (v: nat)
    requires AllDigits(s)
  {
    if s == [] then 0 else DigitsValue(s[..|s| - 1]) * 10 + DigitValue(s[|s| - 1])
  }

  /**
   * `Integer.valueOf(String)`: an optional `-` or `+`, then at least one
   * decimal digit, denoting a value within the `int` range. Anything else
   * raises NumberFormatException, modelled as `None`.
   */
  function ParseInt(s: string): (r: Option<int>)
    ensures r.Some? ==> IsInt(r.value)
    ensures r.Some? ==> |s| > 0
  {
    if |s| == 0 then None
    else
      var digits := if s[0] == '-' || s[0] == '+' then s[1..] else s;
      if |digits| == 0 || !AllDigits(digits) then None
      else
        var magnitude: int := DigitsValue(digits);
        var n := if s[0] == '-' then -magnitude else magnitude;
        if IsInt(n) then Some(n) else None
  }

  lemma {:induction false} DigitsValueOfNatToString(n: nat)
    ensures DigitsValue(NatToString(n)) == n
  {
    if n >= 10 {
      var s := NatToString(n);
      assert s[..|s| - 1] == NatToString(n / 10);
      DigitsValueOfNatToString(n / 10);
    }
  }

  /** Parsing what `String.valueOf` printed gives back the same `int`. */
  lemma ParseIntOfIntToString(n: int)
    requires IsInt(n)
    ensures ParseInt(IntToString(n)) == Some(n)
  {
    var s := IntToString(n);
    if n < 0 {
      var digits := NatToString(-n);
      assert s == "-" + digits && s[0] == '-' && s[1..] == digits;
      DigitsValueOfNatToString(-n);
      assert DigitsValue(s[1..]) == -n;
    } else {
      DigitsValueOfNatToString(n);
      assert s[0] != '-' && s[0] != '+';
    }
  }

  /** Distinct `int`s are printed as distinct strings. */
  lemma IntToStringInjective(m: int, n: int)
    requires IsInt(m) && IsInt(n) && IntToString(m) == IntToString(n)
    ensures m == n
  {
    ParseIntOfIntToString(m);
    ParseIntOfIntToString(n);
  }
}
