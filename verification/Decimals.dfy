/**
 Decimal numbers as text: the fixed-point printer and the parsers of unsigned integers and decimals.
 */
module Decimals {
  import opened Options

  function Pow10(d: nat): (p: real)
    ensures p >= 1.0
  {
    if d == 0 then 1.0 else Pow10(d - 1) * 10.0
  }

  function Over(n: real, d: nat): real { n / Pow10(d) }

  // ---------------------------------------------------------------------------------------
  // Digits
  // ---------------------------------------------------------------------------------------

  predicate IsDigit(c: char) { '0' <= c <= '9' }

  predicate AllDigits(s: string) { forall i :: 0 <= i < |s| ==> IsDigit(s[i]) }

  function Digit(n: nat): (c: char)
    requires n < 10
    ensures IsDigit(c) && DigitValue(c) == n
  {
    ('0' as int + n) as char
  }

  function DigitValue(c: char): (n: nat)
    requires IsDigit(c)
    ensures n < 10
  {
    c as int - '0' as int
  }

  function ReadNat(s: string): nat
    requires AllDigits(s)
  {
    if s == [] then 0 else ReadNat(s[..|s| - 1]) * 10 + DigitValue(s[|s| - 1])
  }

  /** The digits of a number with leading zeros up to a width; reading them gives the number. */
  function Padded(n: nat, width: nat): (s: string)
    ensures |s| >= 1 && |s| >= width && AllDigits(s) && ReadNat(s) == n
    decreases n, width
  {
    if n < 10 && width <= 1 then
      var s := [Digit(n)];
      assert s[..0] == [];
      s
    else
      var front := Padded(n / 10, if width > 0 then width - 1 else 0);
      var s := front + [Digit(n % 10)];
      assert s[..|s| - 1] == front;
      s
  }

  function ShowNat(n: nat): (s: string)
    ensures |s| >= 1 && AllDigits(s) && ReadNat(s) == n
  {
    Padded(n, 1)
  }

  /** Unsigned parsing: an optional plus sign and at least one digit, failing above `max`. */
  function ParseNat(s: string, max: nat): (r: Option<nat>)
    ensures r.Some? ==> r.value <= max
  {
    var digits := if s != [] && s[0] == '+' then s[1..] else s;
    if digits != [] && AllDigits(digits) && ReadNat(digits) <= max then Some(ReadNat(digits)) else None
  }

  lemma NatRoundTrip(n: nat, max: nat)
    ensures ParseNat(ShowNat(n), max) == if n <= max then Some(n) else None
  {
    var s := ShowNat(n);
    assert IsDigit(s[0]);
  }

  // ---------------------------------------------------------------------------------------
  // Decimal text
  // ---------------------------------------------------------------------------------------

  /** A decimal as it is written: a sign, all digits as one number, and how many are decimals. */
  datatype Numeral = Numeral(negative: bool, digits: nat, decimals: nat) {
    function Value(): real {
      var magnitude := Over(digits as real, decimals);
      if negative then -magnitude else magnitude
    }
  }

  /** Digits with a decimal point before the last `d`. */
  function WithPoint(digits: string, d: nat): string
    requires |digits| > d
  {
    if d == 0 then digits else digits[..|digits| - d] + "." + digits[|digits| - d..]
  }

  function Show(n: Numeral): string {
    var text := WithPoint(Padded(n.digits, n.decimals + 1), n.decimals);
    if n.negative then "-" + text else text
  }

  /** The first position of a character from `from` on, or the length. */
  function IndexOf(s: string, c: char, from: nat): (k: nat)
    requires from <= |s|
    ensures from <= k <= |s| && (forall i :: from <= i < k ==> s[i] != c) && (k < |s| ==> s[k] == c)
    decreases |s| - from
  {
    if from == |s| || s[from] == c then from else IndexOf(s, c, from + 1)
  }

  function ParseUnsigned(s: string, negative: bool): Option<Numeral> {
    var dot := IndexOf(s, '.', 0);
    var fraction := if dot < |s| then s[dot + 1..] else [];
    var digits := s[..dot] + fraction;
    if digits != [] && AllDigits(digits) then Some(Numeral(negative, ReadNat(digits), |fraction|)) else None
  }

  /** An optional sign, then digits with an optional point. */
  function ParseNumeral(s: string): Option<Numeral> {
    if s != [] && s[0] == '-' then ParseUnsigned(s[1..], true)
    else ParseUnsigned(if s != [] && s[0] == '+' then s[1..] else s, false)
  }

  function ParseDecimal(s: string): Option<real> {
    var n := ParseNumeral(s);
    if n.Some? then Some(n.value.Value()) else None
  }

  lemma DotAt(a: string, b: string)
    requires AllDigits(a)
    ensures IndexOf(a + "." + b, '.', 0) == |a|
  {
    var s := a + "." + b;
    assert s[|a|] == '.';
    assert forall i :: 0 <= i < |a| ==> s[i] == a[i] && IsDigit(a[i]);
  }

  lemma PointRoundTrip(a: string, b: string, negative: bool)
    requires AllDigits(a) && AllDigits(b) && a != []
    ensures ParseUnsigned(a + "." + b, negative) == Some(Numeral(negative, ReadNat(a + b), |b|))
  {
    DotAt(a, b);
    assert (a + "." + b)[..|a|] == a && (a + "." + b)[|a| + 1..] == b;
  }

  lemma IntegerRoundTrip(digits: string, negative: bool)
    requires AllDigits(digits) && digits != []
    ensures ParseUnsigned(digits, negative) == Some(Numeral(negative, ReadNat(digits), 0))
  {
    assert forall i :: 0 <= i < |digits| ==> IsDigit(digits[i]);
    assert digits[..|digits|] + [] == digits;
  }

  lemma PointInDigits(digits: string, a: string, b: string, negative: bool)
    requires AllDigits(digits) && a != [] && digits == a + b
    ensures ParseUnsigned(a + "." + b, negative) == Some(Numeral(negative, ReadNat(digits), |b|))
  {
    assert forall i :: 0 <= i < |a| ==> a[i] == digits[i];
    assert forall i :: 0 <= i < |b| ==> b[i] == digits[|a| + i];
    PointRoundTrip(a, b, negative);
  }

  lemma PartsOf(digits: string, d: nat) returns (a: string, b: string)
    requires |digits| > d > 0
    ensures digits == a + b && a != [] && |b| == d && WithPoint(digits, d) == a + "." + b
  {
    a, b := digits[..|digits| - d], digits[|digits| - d..];
  }

  lemma TextRoundTrip(digits: string, d: nat, negative: bool)
    requires AllDigits(digits) && |digits| > d
    ensures ParseUnsigned(WithPoint(digits, d), negative) == Some(Numeral(negative, ReadNat(digits), d))
  {
    if d == 0 {
      IntegerRoundTrip(digits, negative);
    } else {
      var a, b := PartsOf(digits, d);
      PointInDigits(digits, a, b, negative);
    }
  }

  lemma TextHead(digits: string, d: nat)
    requires AllDigits(digits) && |digits| > d
    ensures WithPoint(digits, d) != [] && IsDigit(WithPoint(digits, d)[0])
  {
  }

  /** Parsing what is shown gives back the numeral, decimals and sign included. */
  lemma NumeralRoundTrip(n: Numeral)
    ensures ParseNumeral(Show(n)) == Some(n)
  {
    var digits := Padded(n.digits, n.decimals + 1);
    TextRoundTrip(digits, n.decimals, n.negative);
    TextHead(digits, n.decimals);
    SignRoundTrip(WithPoint(digits, n.decimals), n);
  }

  lemma SignRoundTrip(text: string, n: Numeral)
    requires text != [] && IsDigit(text[0]) && ParseUnsigned(text, n.negative) == Some(n)
    ensures ParseNumeral(if n.negative then "-" + text else text) == Some(n)
  {
    assert ("-" + text)[1..] == text;
  }

  // ---------------------------------------------------------------------------------------
  // Rounding
  // ---------------------------------------------------------------------------------------

  predicate Integral(x: real) { x.Floor as real == x }

  /** Rounding to the nearest integer, ties to even. */
  function RoundHalfEven(x: real): (r: int)
    ensures -0.5 <= r as real - x <= 0.5
    ensures x - x.Floor as real == 0.5 ==> r % 2 == 0
    ensures x >= 0.0 ==> r >= 0
  {
    var f := x.Floor;
    var rest := x - f as real;
    if rest < 0.5 || (rest == 0.5 && f % 2 == 0) then f else f + 1
  }

  function Times(x: real, d: nat): (y: real)
    ensures x >= 0.0 ==> y >= 0.0
  {
    x * Pow10(d)
  }

  /** What `{:.d}` shows of a number: `d` decimals, rounded half to even, the sign always kept. */
  function FixedNumeral(x: real, d: nat): Numeral {
    Numeral(x < 0.0, RoundHalfEven(Times(if x < 0.0 then -x else x, d)), d)
  }

  function Fixed(x: real, d: nat): string { Show(FixedNumeral(x, d)) }

  function Rounded(x: real, d: nat): real { FixedNumeral(x, d).Value() }

  /** Parsing the printed text gives the rounded number. */
  lemma FixedRoundTrip(x: real, d: nat)
    ensures ParseDecimal(Fixed(x, d)) == Some(Rounded(x, d))
  {
    NumeralRoundTrip(FixedNumeral(x, d));
  }

  lemma RoundIsExact(y: real)
    ensures RoundHalfEven(y) as real == y <==> Integral(y)
  {
  }

  lemma OverUndoesTimes(n: real, a: real, d: nat)
    ensures Over(n, d) == a <==> n == Times(a, d)
  {
    SameQuotient(n, a, Pow10(d));
  }

  lemma QuotientIsExact(a: real, d: nat)
    ensures Over(RoundHalfEven(Times(a, d)) as real, d) == a <==> Integral(Times(a, d))
  {
    RoundIsExact(Times(a, d));
    OverUndoesTimes(RoundHalfEven(Times(a, d)) as real, a, d);
  }

  /** Rounding keeps exactly the numbers that have at most `d` decimals. */
  lemma RoundedIsExact(x: real, d: nat)
    ensures Rounded(x, d) == x <==> Integral(Times(x, d))
  {
    QuotientIsExact(if x < 0.0 then -x else x, d);
    NegatedTimes(x, d);
    IntegralOfNegation(Times(x, d));
  }

  lemma NegatedTimes(x: real, d: nat)
    ensures Times(-x, d) == -Times(x, d)
  {
  }

  lemma IntegralOfNegation(z: real)
    ensures Integral(z) <==> Integral(-z)
  {
    if Integral(z) {
      assert -z == (-(z.Floor)) as real;
    }
    if Integral(-z) {
      assert z == (-((-z).Floor)) as real;
    }
  }

  lemma SameQuotient(n: real, a: real, p: real)
    requires p > 0.0
    ensures n / p == a <==> n == a * p
  {
  }

  // ---------------------------------------------------------------------------------------
  // The shape of printed numbers
  // ---------------------------------------------------------------------------------------

  predicate Numeric(s: string) {
    && s != [] && IsDigit(s[|s| - 1])
    && forall i :: 0 <= i < |s| ==> IsDigit(s[i]) || s[i] == '-' || s[i] == '.'
  }

  lemma PointIsNumeric(digits: string, d: nat)
    requires AllDigits(digits) && |digits| > d
    ensures Numeric(WithPoint(digits, d))
  {
    assert IsDigit(digits[|digits| - 1]);
  }

  lemma SignIsNumeric(m: string)
    requires Numeric(m)
    ensures Numeric("-" + m)
  {
    assert ("-" + m)[|m|] == m[|m| - 1];
  }

  lemma ShownIsNumeric(n: Numeral)
    ensures Numeric(Show(n))
  {
    var digits := Padded(n.digits, n.decimals + 1);
    PointIsNumeric(digits, n.decimals);
    SignIsNumeric(WithPoint(digits, n.decimals));
  }

  lemma NatIsNumeric(n: nat)
    ensures Numeric(ShowNat(n)) && IsDigit(ShowNat(n)[0])
  {
    var s := ShowNat(n);
    assert IsDigit(s[|s| - 1]) && IsDigit(s[0]);
  }
}
