/**
 * Numbers as ECMAScript writes them (section 6.1.6.1.20 of ECMA-262,
 * `Number::toString` in radix 10), on their shortest decimal digits.
 */
module JsonNumber {
  import opened Text

  type Digit = d: int | 0 <= d < 10

  /**
   * A finite number is 0.d1d2...dk times ten to the power `point`, with no
   * leading and no trailing zero; zero has no digit.
   */
  datatype Number =
    | NotANumber
    | Infinite(negative: bool)
    | Finite(negative: bool, digits: seq<Digit>, point: int)

  predicate Proper(x: Number) {
    x.Finite? ==>
      if x.digits == [] then x.point == 0 else x.digits[0] != 0 && x.digits[|x.digits| - 1] != 0
  }

  const MINUS: CodeUnit := 45
  const PLUS: CodeUnit := 43
  const DOT: CodeUnit := 46
  const LETTER_E: CodeUnit := 101
  const ZERO: CodeUnit := 48

  function UnitOf(d: Digit): (u: CodeUnit)
    ensures IsDigit(u) && u - 48 == d
  {
    var n: int := d;
    48 + n
  }

  function DigitUnits(ds: seq<Digit>): (t: Text)
    ensures |t| == |ds| && forall i :: 0 <= i < |ds| ==> t[i] == UnitOf(ds[i])
  {
    if ds == [] then [] else [UnitOf(ds[0])] + DigitUnits(ds[1..])
  }

  function Zeros(n: nat): (ds: seq<Digit>)
    ensures |ds| == n && forall i :: 0 <= i < n ==> ds[i] == 0
  {
    if n == 0 then [] else [0] + Zeros(n - 1)
  }

  function Decimal(n: nat): (ds: seq<Digit>)
    ensures ds != []
  {
    if n < 10 then [n] else Decimal(n / 10) + [n % 10]
  }

  function Exponent(e: int): Text {
    [LETTER_E] + if e >= 0 then [PLUS] + DigitUnits(Decimal(e)) else [MINUS] + DigitUnits(Decimal(-e))
  }

  /** The text of a positive number. */
  function Unsigned(ds: seq<Digit>, point: int): Text
    requires ds != []
  {
    if |ds| <= point <= 21 then DigitUnits(ds + Zeros(point - |ds|))
    else if 0 < point <= 21 then DigitUnits(ds[..point]) + [DOT] + DigitUnits(ds[point..])
    else if -6 < point <= 0 then [ZERO, DOT] + DigitUnits(Zeros(-point) + ds)
    else if |ds| == 1 then DigitUnits(ds) + Exponent(point - 1)
    else DigitUnits(ds[..1]) + [DOT] + DigitUnits(ds[1..]) + Exponent(point - 1)
  }

  function NumberText(x: Number): Text
    requires x.Finite?
  {
    if x.digits == [] then [ZERO] else (if x.negative then [MINUS] else []) + Unsigned(x.digits, x.point)
  }

  /** 1.5 and 123000. */
  lemma KnownDecimals()
    ensures NumberText(Finite(false, [1, 5], 1)) == [49, 46, 53]
    ensures NumberText(Finite(false, [1, 2, 3], 6)) == [49, 50, 51, 48, 48, 48]
  {
    assert [1, 5][..1] == [1] && [1, 5][1..] == [5];
    assert [1, 2, 3] + Zeros(3) == [1, 2, 3, 0, 0, 0];
    UnitsOfDigits([1, 2, 3, 0, 0, 0], [49, 50, 51, 48, 48, 48]);
  }

  /** 0.00001. */
  lemma KnownFraction()
    ensures NumberText(Finite(false, [1], -4)) == [48, 46, 48, 48, 48, 48, 49]
  {
    assert Zeros(4) + [1] == [0, 0, 0, 0, 1];
    UnitsOfDigits([0, 0, 0, 0, 1], [48, 48, 48, 48, 49]);
  }

  lemma UnitsOfDigits(ds: seq<Digit>, t: Text)
    requires |t| == |ds| && forall i :: 0 <= i < |ds| ==> t[i] == 48 + ds[i] as int
    ensures DigitUnits(ds) == t
  {}

  /** -1e+21 and 1.2e-7. */
  lemma KnownExponents()
    ensures NumberText(Finite(true, [1], 22)) == [45, 49, 101, 43, 50, 49]
    ensures NumberText(Finite(false, [1, 2], -6)) == [49, 46, 50, 101, 45, 55]
  {
    assert Decimal(21) == [2, 1];
    assert [1, 2][..1] == [1] && [1, 2][1..] == [2];
  }

  // ── The text gives the number back ──

  predicate IsDigit(u: CodeUnit) {
    48 <= u < 58
  }

  function DigitOf(u: CodeUnit): Digit
    requires IsDigit(u)
  {
    var n: int := u;
    n - 48
  }

  function DigitsOf(t: Text): seq<Digit>
    requires forall i :: 0 <= i < |t| ==> IsDigit(t[i])
  {
    if t == [] then [] else [DigitOf(t[0])] + DigitsOf(t[1..])
  }

  lemma {:induction false} DigitsBack(ds: seq<Digit>)
    ensures DigitsOf(DigitUnits(ds)) == ds
  {
    if ds != [] {
      DigitsBack(ds[1..]);
      assert DigitUnits(ds)[1..] == DigitUnits(ds[1..]);
      assert ds == [ds[0]] + ds[1..];
    }
  }

  lemma SameDigits(a: seq<Digit>, b: seq<Digit>)
    requires DigitUnits(a) == DigitUnits(b)
    ensures a == b
  {
    DigitsBack(a);
    DigitsBack(b);
  }

  function ValueOf(ds: seq<Digit>): nat {
    if ds == [] then 0 else 10 * ValueOf(ds[..|ds| - 1]) + ds[|ds| - 1]
  }

  lemma {:induction false} DecimalBack(n: nat)
    ensures ValueOf(Decimal(n)) == n
  {
    if n < 10 {
      assert [n][..0] == [];
      assert ValueOf([n][..0]) == 0;
    } else {
      DecimalBack(n / 10);
      var ds := Decimal(n);
      assert ds[..|ds| - 1] == Decimal(n / 10);
    }
  }

  function Magnitude(e: int): nat {
    if e >= 0 then e else -e
  }

  lemma ExponentParts(e: int)
    ensures |Exponent(e)| >= 2 && Exponent(e)[1] == (if e >= 0 then PLUS else MINUS)
    ensures Exponent(e)[2..] == DigitUnits(Decimal(Magnitude(e)))
  {}

  lemma SameDecimal(m: nat, n: nat)
    requires DigitUnits(Decimal(m)) == DigitUnits(Decimal(n))
    ensures m == n
  {
    SameDigits(Decimal(m), Decimal(n));
    DecimalBack(m);
    DecimalBack(n);
  }

  lemma SameExponent(a: int, b: int)
    requires Exponent(a) == Exponent(b)
    ensures a == b
  {
    ExponentParts(a);
    ExponentParts(b);
    SameDecimal(Magnitude(a), Magnitude(b));
  }

  lemma NoSeparator(ds: seq<Digit>)
    ensures DOT !in DigitUnits(ds) && LETTER_E !in DigitUnits(ds) && MINUS !in DigitUnits(ds)
  {}

  /** The mantissa of the exponential form. */
  function Mantissa(ds: seq<Digit>): Text
    requires ds != []
  {
    if |ds| == 1 then DigitUnits(ds) else DigitUnits(ds[..1]) + [DOT] + DigitUnits(ds[1..])
  }

  lemma SameMantissa(a: seq<Digit>, b: seq<Digit>)
    requires a != [] && b != [] && Mantissa(a) == Mantissa(b)
    ensures a == b
  {
    NoSeparator(a);
    NoSeparator(b);
    if |a| == 1 {
      assert |Mantissa(a)| == 1;
      SameDigits(a, b);
    } else {
      assert |Mantissa(a)| > 1;
      NoSeparator(a[..1]);
      NoSeparator(b[..1]);
      SplitAt(DOT, DigitUnits(a[..1]), DigitUnits(b[..1]), DigitUnits(a[1..]), DigitUnits(b[1..]));
      SameDigits(a[..1], b[..1]);
      SameDigits(a[1..], b[1..]);
      assert a == a[..1] + a[1..] && b == b[..1] + b[1..];
    }
  }

  predicate Exponential(ds: seq<Digit>, point: int) {
    point > 21 || point <= -6
  }

  predicate Pointed(ds: seq<Digit>, point: int) {
    !Exponential(ds, point) && point < |ds|
  }

  lemma NoLetterE(ds: seq<Digit>, point: int)
    requires ds != [] && !Exponential(ds, point)
    ensures LETTER_E !in Unsigned(ds, point)
  {
    if point >= |ds| {
      NoSeparator(ds + Zeros(point - |ds|));
    } else if point > 0 {
      NoSeparator(ds[..point]);
      NoSeparator(ds[point..]);
    } else {
      NoSeparator(Zeros(-point) + ds);
    }
  }

  lemma NoLetterEInMantissa(ds: seq<Digit>)
    requires ds != []
    ensures LETTER_E !in Mantissa(ds)
  {
    NoSeparator(ds);
    NoSeparator(ds[..1]);
    NoSeparator(ds[1..]);
  }

  lemma ExponentialText(ds: seq<Digit>, point: int)
    requires ds != [] && Exponential(ds, point)
    ensures Unsigned(ds, point) == Mantissa(ds) + [LETTER_E] + Exponent(point - 1)[1..]
    ensures LETTER_E in Unsigned(ds, point)
  {
    var e := Exponent(point - 1);
    assert e == [LETTER_E] + e[1..];
    assert Mantissa(ds) + ([LETTER_E] + e[1..]) == Mantissa(ds) + [LETTER_E] + e[1..];
    var u := Mantissa(ds) + [LETTER_E] + e[1..];
    assert u[|Mantissa(ds)|] == LETTER_E;
  }

  lemma PointedText(ds: seq<Digit>, point: int)
    requires ds != [] && !Exponential(ds, point)
    ensures DOT in Unsigned(ds, point) <==> Pointed(ds, point)
  {
    if Pointed(ds, point) {
      assert Unsigned(ds, point)[if point > 0 then point else 1] == DOT;
    }
  }

  lemma {:induction false} TrailingZeros(a: seq<Digit>, m: nat, b: seq<Digit>, n: nat)
    requires a != [] && b != [] && a[|a| - 1] != 0 && b[|b| - 1] != 0 && a + Zeros(m) == b + Zeros(n)
    ensures a == b && m == n
  {
    var t, u := a + Zeros(m), b + Zeros(n);
    assert t[|a| - 1] == a[|a| - 1] && u[|b| - 1] == b[|b| - 1];
    assert forall i :: |a| <= i < |t| ==> t[i] == 0;
    assert forall i :: |b| <= i < |u| ==> u[i] == 0;
    assert |a| == |b|;
    assert a == t[..|a|] && b == u[..|b|];
  }

  lemma {:induction false} LeadingZeros(a: seq<Digit>, m: nat, b: seq<Digit>, n: nat)
    requires a != [] && b != [] && a[0] != 0 && b[0] != 0 && Zeros(m) + a == Zeros(n) + b
    ensures a == b && m == n
  {
    var t, u := Zeros(m) + a, Zeros(n) + b;
    assert t[m] == a[0] && u[n] == b[0];
    assert forall i :: 0 <= i < m ==> t[i] == 0;
    assert forall i :: 0 <= i < n ==> u[i] == 0;
    assert m == n;
    assert a == t[m..] && b == u[n..];
  }

  lemma SamePlain(a: seq<Digit>, p: int, b: seq<Digit>, q: int)
    requires a != [] && b != [] && a[|a| - 1] != 0 && b[|b| - 1] != 0
    requires |a| <= p <= 21 && |b| <= q <= 21 && Unsigned(a, p) == Unsigned(b, q)
    ensures a == b && p == q
  {
    SameDigits(a + Zeros(p - |a|), b + Zeros(q - |b|));
    TrailingZeros(a, p - |a|, b, q - |b|);
  }

  lemma SamePointedInside(a: seq<Digit>, p: int, b: seq<Digit>, q: int)
    requires 0 < p < |a| && 0 < q < |b| && p <= 21 && q <= 21 && Unsigned(a, p) == Unsigned(b, q)
    ensures a == b && p == q
  {
    NoSeparator(a[..p]);
    NoSeparator(b[..q]);
    SplitAt(DOT, DigitUnits(a[..p]), DigitUnits(b[..q]), DigitUnits(a[p..]), DigitUnits(b[q..]));
    SameDigits(a[..p], b[..q]);
    SameDigits(a[p..], b[q..]);
    assert a == a[..p] + a[p..] && b == b[..q] + b[q..];
  }

  lemma SamePointedBefore(a: seq<Digit>, p: int, b: seq<Digit>, q: int)
    requires a != [] && b != [] && a[0] != 0 && b[0] != 0
    requires -6 < p <= 0 && -6 < q <= 0 && Unsigned(a, p) == Unsigned(b, q)
    ensures a == b && p == q
  {
    assert Unsigned(a, p)[2..] == DigitUnits(Zeros(-p) + a) && Unsigned(b, q)[2..] == DigitUnits(Zeros(-q) + b);
    SameDigits(Zeros(-p) + a, Zeros(-q) + b);
    LeadingZeros(a, -p, b, -q);
  }

  lemma FirstOfPointed(a: seq<Digit>, p: int)
    requires a != [] && a[0] != 0 && Pointed(a, p)
    ensures Unsigned(a, p) != [] && (Unsigned(a, p)[0] == ZERO <==> p <= 0)
  {}

  lemma SamePointed(a: seq<Digit>, p: int, b: seq<Digit>, q: int)
    requires a != [] && b != [] && a[0] != 0 && b[0] != 0
    requires Pointed(a, p) && Pointed(b, q) && Unsigned(a, p) == Unsigned(b, q)
    ensures a == b && p == q
  {
    FirstOfPointed(a, p);
    FirstOfPointed(b, q);
    if p > 0 { SamePointedInside(a, p, b, q); } else { SamePointedBefore(a, p, b, q); }
  }

  lemma SameUnsigned(a: seq<Digit>, p: int, b: seq<Digit>, q: int)
    requires a != [] && b != [] && a[0] != 0 && b[0] != 0 && a[|a| - 1] != 0 && b[|b| - 1] != 0
    requires Unsigned(a, p) == Unsigned(b, q)
    ensures a == b && p == q
  {
    if Exponential(a, p) {
      ExponentialText(a, p);
      if !Exponential(b, q) { NoLetterE(b, q); }
      ExponentialText(b, q);
      NoLetterEInMantissa(a);
      NoLetterEInMantissa(b);
      var x, y := Exponent(p - 1), Exponent(q - 1);
      SplitAt(LETTER_E, Mantissa(a), Mantissa(b), x[1..], y[1..]);
      SameMantissa(a, b);
      assert x == [LETTER_E] + x[1..] && y == [LETTER_E] + y[1..];
      SameExponent(p - 1, q - 1);
    } else {
      NoLetterE(a, p);
      if Exponential(b, q) { ExponentialText(b, q); }
      PointedText(a, p);
      PointedText(b, q);
      if Pointed(a, p) { SamePointed(a, p, b, q); } else { SamePlain(a, p, b, q); }
    }
  }

  /** What JSON keeps of a number: minus zero is zero, and what is not finite is not a number. */
  function Plain(x: Number): Number {
    if x.Finite? && x.digits == [] then Finite(false, [], 0) else x
  }

  lemma FirstUnit(ds: seq<Digit>, point: int)
    requires ds != []
    ensures Unsigned(ds, point) != [] && IsDigit(Unsigned(ds, point)[0])
    ensures Unsigned(ds, point) == [ZERO] ==> ds[0] == 0
  {}

  /** The text of a finite number is its own. */
  lemma NumberTextIsInjective(x: Number, y: Number)
    requires x.Finite? && y.Finite? && Proper(x) && Proper(y) && NumberText(x) == NumberText(y)
    ensures Plain(x) == Plain(y)
  {
    if x.digits != [] { FirstUnit(x.digits, x.point); }
    if y.digits != [] { FirstUnit(y.digits, y.point); }
    if x.digits != [] && y.digits != [] {
      assert x.negative <==> NumberText(x)[0] == MINUS;
      assert y.negative <==> NumberText(y)[0] == MINUS;
      var from := if x.negative then 1 else 0;
      assert Unsigned(x.digits, x.point) == NumberText(x)[from..] && Unsigned(y.digits, y.point) == NumberText(y)[from..];
      SameUnsigned(x.digits, x.point, y.digits, y.point);
    }
  }

  /** Only these units occur in a number. */
  predicate InNumber(u: CodeUnit) {
    IsDigit(u) || u == MINUS || u == PLUS || u == DOT || u == LETTER_E
  }

  lemma NumberUnits(x: Number)
    requires x.Finite?
    ensures NumberText(x) != [] && forall i :: 0 <= i < |NumberText(x)| ==> InNumber(NumberText(x)[i])
    ensures IsDigit(NumberText(x)[0]) || NumberText(x)[0] == MINUS
  {
    if x.digits != [] {
      FirstUnit(x.digits, x.point);
      UnsignedUnits(x.digits, x.point);
    }
  }

  lemma UnsignedUnits(ds: seq<Digit>, point: int)
    requires ds != []
    ensures forall i :: 0 <= i < |Unsigned(ds, point)| ==> InNumber(Unsigned(ds, point)[i])
  {
    var e := Exponent(point - 1);
    assert forall i :: 0 <= i < |e| ==> InNumber(e[i]);
  }
}
