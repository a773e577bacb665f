/** The part of the arbitrary-precision decimal library that the price
    formatter relies on: `Div` by a power of ten, which rounds the quotient
    to DivisionPrecision fractional digits (half away from zero), and
    `String`, which prints the result in plain notation with trailing
    fractional zeros removed. Parsing is not modelled here; see Externals. */
module Decimal {

  /** The value coefficient * 10^exponent. */
  datatype Decimal = Decimal(coefficient: int, exponent: int)

  /** Fractional digits kept by `Div`. */
  const DivisionPrecision: nat := 16

  function Pow10(n: nat): (r: nat)
    ensures r >= 1
  {
    if n == 0 then 1 else 10 * Pow10(n - 1)
  }

  function Abs(x: int): (a: nat) {
    if x < 0 then -x else x
  }

  /** `int32(x)`: two's-complement truncation to 32 bits. */
  function Int32(x: int): (r: int)
    ensures -0x8000_0000 <= r < 0x8000_0000
    ensures (x - r) % 0x1_0000_0000 == 0
  {
    (x + 0x8000_0000) % 0x1_0000_0000 - 0x8000_0000
  }

  /** a / p rounded to the nearest integer, halves upwards. */
  function RoundMagnitude(a: nat, p: nat): (u: nat)
    requires p >= 1
    ensures 2 * Abs(a - u * p) <= p
    ensures 2 * Abs(a - u * p) == p ==> u * p > a
  {
    var q, r := a / p, a % p;
    var u := q + (if 2 * r >= p then 1 else 0);
    RoundingBound(a, p, q, r, u);
    u
  }

  lemma RoundingBound(a: nat, p: nat, q: nat, r: nat, u: nat)
    requires p >= 1 && a == q * p + r && r < p
    requires u == q + (if 2 * r >= p then 1 else 0)
    ensures 2 * Abs(a - u * p) <= p
    ensures 2 * Abs(a - u * p) == p ==> u * p > a
  {
    if 2 * r >= p {
      assert u * p == q * p + p;
    } else {
      assert u * p == q * p;
    }
  }

  /** c / p rounded to an integer, halves away from zero. */
  function RoundHalfAway(c: int, p: nat): (t: int)
    requires p >= 1
    ensures 2 * Abs(c - t * p) <= p
    ensures 2 * Abs(c - t * p) == p ==> Abs(t * p) > Abs(c)
    ensures (c >= 0 ==> t >= 0) && (c <= 0 ==> t <= 0)
  {
    var u := RoundMagnitude(Abs(c), p);
    if c < 0 then
      var t := -(u as int);
      assert t * p == -(u * p);
      t
    else u
  }

  /** The coefficient q of `d.Div(10^e)`, whose exponent is always
      -DivisionPrecision: the exact quotient d / 10^e when that has at most
      DivisionPrecision fractional digits, and otherwise that quotient
      rounded half away from zero. */
  function QuotientByPow10(d: Decimal, e: int): (q: int)
    ensures var k := d.exponent - e + DivisionPrecision;
      k >= 0 ==> q == d.coefficient * Pow10(k)
    ensures var k := d.exponent - e + DivisionPrecision;
      k < 0 ==> 2 * Abs(d.coefficient - q * Pow10(-k)) <= Pow10(-k)
  {
    var k := d.exponent - e + DivisionPrecision;
    if k >= 0 then d.coefficient * Pow10(k)
    else RoundHalfAway(d.coefficient, Pow10(-k))
  }

  predicate IsDigit(c: char) {
    '0' <= c <= '9'
  }

  function DigitChar(d: nat): (c: char)
    requires d < 10
    ensures IsDigit(c)
  {
    ('0' as int + d) as char
  }

  /** The decimal digits of n with no leading zeros ("0" for zero). */
  function Digits(n: nat): (s: string)
    ensures |s| >= 1
    ensures forall i :: 0 <= i < |s| ==> IsDigit(s[i])
  {
    if n < 10 then [DigitChar(n)] else Digits(n / 10) + [DigitChar(n % 10)]
  }

  function Zeros(n: nat): (s: string)
    ensures |s| == n && forall i :: 0 <= i < n ==> s[i] == '0'
  {
    seq(n, _ => '0')
  }

  /** The last k decimal digits of b, zero-padded to exactly k characters. */
  function Padded(b: nat, k: nat): (s: string)
    ensures |s| == k
    ensures forall i :: 0 <= i < |s| ==> IsDigit(s[i])
  {
    if k == 0 then [] else Padded(b / 10, k - 1) + [DigitChar(b % 10)]
  }

  function TrimTrailingZeros(s: string): (r: string)
    ensures |r| <= |s| && r == s[..|r|]
    ensures forall i :: |r| <= i < |s| ==> s[i] == '0'
    ensures r == [] || r[|r| - 1] != '0'
  {
    if |s| > 0 && s[|s| - 1] == '0' then TrimTrailingZeros(s[..|s| - 1]) else s
  }

  /** The digits left of the point when k fractional digits are kept: all
      but the last k digits, or "0" when there are no more than k. */
  function IntegerDigits(str: string, k: nat): (r: string)
    requires forall i :: 0 <= i < |str| ==> IsDigit(str[i])
    ensures |r| >= 1 && forall i :: 0 <= i < |r| ==> IsDigit(r[i])
  {
    if |str| > k then str[..|str| - k] else "0"
  }

  /** The k digits right of the point, zero-padded on the left when the
      digit string is shorter. */
  function FractionDigits(str: string, k: nat): (r: string)
    requires forall i :: 0 <= i < |str| ==> IsDigit(str[i])
    ensures forall i :: 0 <= i < |r| ==> IsDigit(r[i])
  {
    if |str| > k then str[|str| - k..] else Zeros(k - |str|) + str
  }

  /** A point followed by the fractional digits, or nothing when they are
      all zeros. */
  function PointAndFraction(frac: string): (r: string)
    requires forall i :: 0 <= i < |frac| ==> IsDigit(frac[i])
    ensures forall i :: 0 <= i < |r| ==> IsDigit(r[i]) || r[i] == '.'
  {
    var f := TrimTrailingZeros(frac);
    if |f| > 0 then "." + f else ""
  }

  /** `String()` of the decimal q * 10^-k (k > 0), following the library:
      the digits of |q| are split k places from the right (padding with
      zeros, integer part "0", when there are too few), trailing fractional
      zeros are dropped, a '.' is written only when a fractional digit
      remains, and a '-' leads a negative value. */
  function Format(q: int, k: nat): (s: string)
    ensures forall i :: 0 <= i < |s| ==> IsDigit(s[i]) || s[i] == '.' || s[i] == '-'
    ensures |s| >= 1 && (s[0] == '-' <==> q < 0)
  {
    var str := Digits(Abs(q));
    var whole := IntegerDigits(str, k);
    var number := whole + PointAndFraction(FractionDigits(str, k));
    assert number[0] == whole[0];
    Sign(q) + number
  }

  /** `String()` of a quotient produced by `Div`, whose exponent is always
      -DivisionPrecision. */
  function ToString(q: int): (s: string)
    ensures forall i :: 0 <= i < |s| ==> IsDigit(s[i]) || s[i] == '.' || s[i] == '-'
    ensures |s| >= 1 && (s[0] == '-' <==> q < 0)
  {
    Format(q, DivisionPrecision)
  }

  // ---------------------------------------------------------------------
  // Arithmetic reading of ToString

  lemma DivMod10(x: nat, y: nat)
    ensures (10 * x + y) / 10 == x + y / 10
    ensures (10 * x + y) % 10 == y % 10
  {
  }

  lemma {:induction false} Pow10Add(i: nat, j: nat)
    ensures Pow10(i + j) == Pow10(i) * Pow10(j)
  {
    if j > 0 {
      Pow10Add(i, j - 1);
      assert Pow10(i + j) == 10 * Pow10(i + j - 1);
    }
  }

  lemma Pow10Sixteen()
    ensures Pow10(DivisionPrecision) == 10000000000000000
  {
    assert Pow10(4) == 10000;
    Pow10Add(4, 4);
    Pow10Add(8, 8);
  }

  lemma {:induction false} PaddedZero(j: nat)
    ensures Padded(0, j) == Zeros(j)
  {
    if j > 0 {
      PaddedZero(j - 1);
      assert Zeros(j - 1) + ['0'] == Zeros(j);
    }
  }

  /** Writing a * 10^k + b (b below 10^k) prints a's digits followed by
      b's k-digit padded form. */
  lemma {:induction false} DigitsConcat(a: nat, b: nat, k: nat)
    requires a >= 1 && b < Pow10(k)
    ensures Digits(a * Pow10(k) + b) == Digits(a) + Padded(b, k)
  {
    if k > 0 {
      var n := a * Pow10(k) + b;
      ShiftDigit(a, b, k);
      DigitsConcat(a, b / 10, k - 1);
      assert Digits(n) == Digits(n / 10) + [DigitChar(n % 10)];
    }
  }

  /** Dropping the last digit of a * 10^k + b (k > 0, b below 10^k) drops
      the last digit of b. */
  lemma ShiftDigit(a: nat, b: nat, k: nat)
    requires k > 0 && b < Pow10(k)
    ensures var n := a * Pow10(k) + b;
      && n / 10 == a * Pow10(k - 1) + b / 10
      && n % 10 == b % 10
      && b / 10 < Pow10(k - 1)
      && (a >= 1 ==> n >= 10)
  {
    var p := Pow10(k - 1);
    assert Pow10(k) == 10 * p;
    assert a * Pow10(k) == 10 * (a * p) by {
      MulAssoc(a, 10, p);
    }
    var x := a * p + b / 10;
    assert a * Pow10(k) + b == 10 * x + b % 10;
    DivMod10(a * p + b / 10, b % 10);
    if a >= 1 {
      MulMono(a, p);
    }
  }

  lemma MulAssoc(a: int, b: int, c: int)
    ensures a * (b * c) == b * (a * c)
  {
  }

  lemma MulMono(a: nat, p: nat)
    requires a >= 1
    ensures a * p >= p
  {
  }

  /** A number below 10^k has at most k digits, and zero-padding them on
      the left to k places gives Padded(b, k). */
  lemma {:induction false} DigitsPadded(b: nat, k: nat)
    requires k >= 1 && b < Pow10(k)
    ensures |Digits(b)| <= k
    ensures Zeros(k - |Digits(b)|) + Digits(b) == Padded(b, k)
  {
    if b < 10 {
      PaddedZero(k - 1);
      assert Padded(b, k) == Padded(0, k - 1) + [DigitChar(b)];
    } else {
      assert b / 10 < Pow10(k - 1);
      DigitsPadded(b / 10, k - 1);
      assert Zeros(k - |Digits(b)|) == Zeros(k - 1 - |Digits(b / 10)|);
    }
  }

  /** Splitting the digits of a * 10^k + b (b below 10^k) k places from
      the right gives the digits of a and the k-digit padded form of b. */
  lemma SplitDenotes(a: nat, b: nat, k: nat)
    requires k >= 1 && b < Pow10(k)
    ensures IntegerDigits(Digits(a * Pow10(k) + b), k) == Digits(a)
    ensures FractionDigits(Digits(a * Pow10(k) + b), k) == Padded(b, k)
  {
    if a >= 1 {
      SplitLong(a, b, k);
    } else {
      SplitShort(b, k);
      assert Digits(0) == "0";
    }
  }

  lemma SplitLong(a: nat, b: nat, k: nat)
    requires a >= 1 && b < Pow10(k)
    ensures IntegerDigits(Digits(a * Pow10(k) + b), k) == Digits(a)
    ensures FractionDigits(Digits(a * Pow10(k) + b), k) == Padded(b, k)
  {
    var str := Digits(a * Pow10(k) + b);
    DigitsConcat(a, b, k);
    assert str[..|str| - k] == Digits(a);
    assert str[|str| - k..] == Padded(b, k);
  }

  lemma SplitShort(n: nat, k: nat)
    requires k >= 1 && n < Pow10(k)
    ensures IntegerDigits(Digits(n), k) == "0"
    ensures FractionDigits(Digits(n), k) == Padded(n, k)
  {
    DigitsPadded(n, k);
  }

  /** Format prints the sign, then the integer part a = |q| div 10^k in
      plain digits, then the fractional part b = |q| mod 10^k as k digits
      with trailing zeros dropped (and no point when nothing remains). This
      ties the library's digit-string splitting to the value it denotes. */
  lemma FormatDenotes(q: int, k: nat, a: nat, b: nat)
    requires k >= 1 && b < Pow10(k) && Abs(q) == a * Pow10(k) + b
    ensures Format(q, k) == Sign(q) + (Digits(a) + PointAndFraction(Padded(b, k)))
  {
    var str := Digits(Abs(q));
    SplitDenotes(a, b, k);
    assert IntegerDigits(str, k) == Digits(a);
    assert FractionDigits(str, k) == Padded(b, k);
  }

  function Sign(q: int): (s: string) {
    if q < 0 then "-" else ""
  }

  lemma {:induction false} PaddedConcat(a: nat, b: nat, i: nat, j: nat)
    requires b < Pow10(j)
    ensures Padded(a * Pow10(j) + b, i + j) == Padded(a, i) + Padded(b, j)
  {
    if j > 0 {
      ShiftDigit(a, b, j);
      PaddedConcat(a, b / 10, i, j - 1);
    }
  }

  lemma {:induction false} TrimZerosAppended(s: string, j: nat)
    ensures TrimTrailingZeros(s + Zeros(j)) == TrimTrailingZeros(s)
  {
    if j > 0 {
      var t := s + Zeros(j);
      assert t[|t| - 1] == '0';
      assert t[..|t| - 1] == s + Zeros(j - 1);
      assert TrimTrailingZeros(t) == TrimTrailingZeros(t[..|t| - 1]);
      TrimZerosAppended(s, j - 1);
    } else {
      assert s + Zeros(j) == s;
    }
  }

  /** A whole amount prints as its digits, with no point. */
  lemma WholeAmount(n: int, k: nat)
    requires k >= 1
    ensures Format(n * Pow10(k), k) == Sign(n) + Digits(Abs(n))
  {
    var q := n * Pow10(k);
    ScaledSign(n, Pow10(k));
    FormatDenotes(q, k, Abs(n), 0);
    NoFraction(k);
    assert Digits(Abs(n)) + "" == Digits(Abs(n));
  }

  lemma ScaledSign(n: int, p: nat)
    requires p >= 1
    ensures Abs(n * p) == Abs(n) * p + 0 && Sign(n * p) == Sign(n)
  {
    if n < 0 {
      assert n * p == -(Abs(n) * p);
      assert Abs(n) * p >= 1;
    }
  }

  lemma NoFraction(k: nat)
    ensures PointAndFraction(Padded(0, k)) == ""
  {
    PaddedZero(k);
    TrimZerosAppended([], k);
    assert [] + Zeros(k) == Zeros(k);
  }
}
