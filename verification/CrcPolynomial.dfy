/**
 * What the CRC is: the remainder of a division of polynomials over GF(2), by
 * the polynomial of section 8 of RFC 1952 (`crc32` of apps/web/src/zipArchive.ts
 * holds it with its bits in reverse order).
 */
module CrcPolynomial {
  import opened Crc32

  /** The exponents whose coefficient is 1. */
  type Poly = set<nat>

  /** x^32 + x^26 + x^23 + x^22 + x^16 + x^12 + x^11 + x^10 + x^8 + x^7 + x^5 + x^4 + x^2 + x + 1. */
  const DIVISOR: Poly := {32, 26, 23, 22, 16, 12, 11, 10, 8, 7, 5, 4, 2, 1, 0}

  /** All the coefficients below x^32. */
  const ONES: Poly := Below(32)

  function Below(n: nat): (p: Poly)
    ensures forall e: nat :: e in p <==> e < n
  {
    if n == 0 then {} else Below(n - 1) + {n - 1}
  }

  function Sum(a: Poly, b: Poly): (s: Poly)
    ensures forall e :: e in s <==> (e in a) != (e in b)
  {
    (a - b) + (b - a)
  }

  /** Times x^k. */
  function Shift(a: Poly, k: nat): (s: Poly)
    ensures forall e: nat :: e in s <==> e >= k && e - k in a
  {
    set e | e in a :: e + k
  }

  function Term(bit: bool, a: Poly, k: nat): Poly {
    if bit then Shift(a, k) else {}
  }

  /** `a` times the polynomial whose coefficients are `bits`, the highest first. */
  function Product(bits: seq<bool>, a: Poly): Poly {
    if bits == [] then {} else Sum(Term(bits[0], a, |bits| - 1), Product(bits[1..], a))
  }

  /** One more coefficient, the highest. */
  function Join(bit: bool, e: nat, rest: Poly): Poly {
    if bit then rest + {e} else rest
  }

  /** The `n` bits of a register, each found by `low` once those below it have gone: the low one is the highest coefficient. */
  function Coefficients<W>(low: W -> bool, half: W -> W, c: W, n: nat): (p: Poly)
    ensures forall e :: e in p ==> e < n
    decreases n
  {
    if n == 0 then {} else Join(low(c), n - 1, Coefficients(low, half, half(c), n - 1))
  }

  predicate Low(c: bv32) {
    c & 1 == 1
  }

  function Register(c: bv32): (p: Poly)
    ensures forall e :: e in p ==> e < 32
  {
    Coefficients(Low, Half, c, 32)
  }

  /** The bits of a byte, the low one first. */
  function BitsOf(x: bv32): seq<bool> {
    [x & 1 == 1, (x >> 1) & 1 == 1, (x >> 2) & 1 == 1, (x >> 3) & 1 == 1,
     (x >> 4) & 1 == 1, (x >> 5) & 1 == 1, (x >> 6) & 1 == 1, (x >> 7) & 1 == 1]
  }

  function MessageBits(bytes: seq<Byte>): (bits: seq<bool>)
    ensures |bits| == 8 * |bytes|
  {
    if bytes == [] then [] else BitsOf(bytes[0] as bv32) + MessageBits(bytes[1..])
  }

  // ── Arithmetic of polynomials ──

  lemma ShiftShift(a: Poly, j: nat, k: nat)
    ensures Shift(Shift(a, j), k) == Shift(a, j + k)
  {
    forall e: nat ensures e in Shift(Shift(a, j), k) <==> e in Shift(a, j + k) {
      if e >= j + k { assert e - k in Shift(a, j) <==> e - k - j in a; }
    }
  }

  lemma ShiftSum(a: Poly, b: Poly, k: nat)
    ensures Shift(Sum(a, b), k) == Sum(Shift(a, k), Shift(b, k))
  {}

  lemma SumAssociates(a: Poly, b: Poly, c: Poly)
    ensures Sum(Sum(a, b), c) == Sum(a, Sum(b, c))
  {}

  lemma TermShift(bit: bool, a: Poly, j: nat, k: nat)
    ensures Shift(Term(bit, a, j), k) == Term(bit, a, j + k)
  {
    ShiftShift(a, j, k);
  }

  lemma ProductUnfolds(bits: seq<bool>, first: bool, rest: seq<bool>, a: Poly)
    requires bits == [first] + rest
    ensures Product(bits, a) == Sum(Term(first, a, |rest|), Product(rest, a))
  {
    assert bits[1..] == rest;
  }

  lemma {:induction false} ProductConcat(p: seq<bool>, q: seq<bool>, a: Poly)
    ensures Product(p + q, a) == Sum(Shift(Product(p, a), |q|), Product(q, a))
  {
    if p == [] {
      assert p + q == q;
    } else {
      var rest := p[1..];
      ProductConcat(rest, q, a);
      ProductUnfolds(p, p[0], rest, a);
      assert p + q == [p[0]] + (rest + q);
      ProductUnfolds(p + q, p[0], rest + q, a);
      TermShift(p[0], a, |rest|, |q|);
      ShiftSum(Term(p[0], a, |rest|), Product(rest, a), |q|);
      SumAssociates(Term(p[0], a, |rest| + |q|), Shift(Product(rest, a), |q|), Product(q, a));
    }
  }

  // ── Division ──

  /** Dividing `start` times x^|bits| plus the message times x^32 gives the quotient `q` and leaves `end`. */
  ghost predicate Divides(start: Poly, bits: seq<bool>, q: seq<bool>, end: Poly) {
    |q| == |bits| && Sum(Shift(start, |bits|), Product(bits, {32})) == Sum(Product(q, DIVISOR), end)
  }

  /** A division can be carried on. */
  lemma DivisionGoesOn(start: Poly, bits: seq<bool>, q: seq<bool>, mid: Poly, bits': seq<bool>, q': seq<bool>, end: Poly)
    requires Divides(start, bits, q, mid) && Divides(mid, bits', q', end)
    ensures Divides(start, bits + bits', q + q', end)
  {
    var n := |bits'|;
    DivisionShifted(start, bits, q, mid, n);
    ProductConcat(bits, bits', {32});
    ProductConcat(q, q', DIVISOR);
    assert |bits + bits'| == |q + q'| == |bits| + n;
    Regroup(Shift(start, |bits| + n), Shift(Product(bits, {32}), n), Product(bits', {32}), Product(bits + bits', {32}),
            Shift(Product(q, DIVISOR), n), Shift(mid, n), Product(q', DIVISOR), Product(q + q', DIVISOR), end);
  }

  lemma DivisionShifted(start: Poly, bits: seq<bool>, q: seq<bool>, mid: Poly, n: nat)
    requires Divides(start, bits, q, mid)
    ensures Sum(Shift(start, |bits| + n), Shift(Product(bits, {32}), n)) == Sum(Shift(Product(q, DIVISOR), n), Shift(mid, n))
  {
    ShiftShift(start, |bits|, n);
    ShiftSum(Shift(start, |bits|), Product(bits, {32}), n);
    ShiftSum(Product(q, DIVISOR), mid, n);
  }

  lemma Regroup(s: Poly, b: Poly, b': Poly, bs: Poly, q: Poly, m: Poly, q': Poly, qs: Poly, e: Poly)
    requires Sum(s, b) == Sum(q, m) && Sum(m, b') == Sum(q', e) && bs == Sum(b, b') && qs == Sum(q, q')
    ensures Sum(s, bs) == Sum(qs, e)
  {
    SumAssociates(s, b, b');
    SumAssociates(q, m, b');
    SumAssociates(q, q', e);
  }

  // ── The register ──

  lemma JoinSum(x: bool, y: bool, z: bool, e: nat, a: Poly, b: Poly, c: Poly)
    requires e !in a && e !in b && z == (x != y) && c == Sum(a, b)
    ensures Join(z, e, c) == Sum(Join(x, e, a), Join(y, e, b))
  {}

  lemma JoinShift(x: bool, e: nat, a: Poly)
    ensures Join(x, e + 1, Shift(a, 1)) == Shift(Join(x, e, a), 1)
  {}

  lemma OneMoreCoefficient<W>(low: W -> bool, half: W -> W, a: W, b: W, c: W, n: nat)
    requires n > 0 && low(c) == (low(a) != low(b))
    requires Coefficients(low, half, half(c), n - 1)
          == Sum(Coefficients(low, half, half(a), n - 1), Coefficients(low, half, half(b), n - 1))
    ensures Coefficients(low, half, c, n) == Sum(Coefficients(low, half, a, n), Coefficients(low, half, b, n))
  {
    var p, q := Coefficients(low, half, half(a), n - 1), Coefficients(low, half, half(b), n - 1);
    JoinSum(low(a), low(b), low(c), n - 1, p, q, Coefficients(low, half, half(c), n - 1));
  }

  lemma {:induction false} CoefficientsSum<W(!new)>(low: W -> bool, half: W -> W, rel: (W, W, W) -> bool, a: W, b: W, c: W, n: nat)
    requires forall x, y, z {:trigger rel(x, y, z)} ::
      rel(x, y, z) ==> rel(half(x), half(y), half(z)) && low(z) == (low(x) != low(y))
    requires rel(a, b, c)
    ensures Coefficients(low, half, c, n) == Sum(Coefficients(low, half, a, n), Coefficients(low, half, b, n))
    decreases n
  {
    if n > 0 {
      CoefficientsSum(low, half, rel, half(a), half(b), half(c), n - 1);
      OneMoreCoefficient(low, half, a, b, c, n);
    }
  }

  /** With room to spare, a register can be read as if it had one more bit. */
  lemma {:induction false} CoefficientsWider<W>(low: W -> bool, half: W -> W, zero: W, c: W, n: nat)
    requires !low(zero) && Iter(half, c, n) == zero
    ensures Coefficients(low, half, c, n + 1) == Shift(Coefficients(low, half, c, n), 1)
    decreases n
  {
    if n == 0 {
      assert Coefficients(low, half, half(c), 0) == {};
    } else {
      CoefficientsWider(low, half, zero, half(c), n - 1);
      JoinShift(low(c), n - 1, Coefficients(low, half, half(c), n - 1));
    }
  }

  /** Only zero has no coefficient. */
  lemma {:induction false} NoCoefficient<W(!new)>(low: W -> bool, half: W -> W, zero: W, c: W, n: nat)
    requires forall x :: !low(x) && half(x) == zero ==> x == zero
    requires Iter(half, c, n) == zero && Coefficients(low, half, c, n) == {}
    ensures c == zero
    decreases n
  {
    if n > 0 {
      assert n - 1 !in Coefficients(low, half, c, n);
      NoCoefficient(low, half, zero, half(c), n - 1);
    }
  }

  lemma SumHalves(a: bv32, b: bv32, c: bv32)
    requires IsSum(a, b, c)
    ensures IsSum(Half(a), Half(b), Half(c)) && Low(c) == (Low(a) != Low(b))
  {
    ShiftXor(a, b);
  }

  lemma RegisterSum(a: bv32, b: bv32, c: bv32)
    requires IsSum(a, b, c)
    ensures Register(c) == Sum(Register(a), Register(b))
  {
    forall x, y, z | IsSum(x, y, z) ensures IsSum(Half(x), Half(y), Half(z)) && Low(z) == (Low(x) != Low(y)) {
      SumHalves(x, y, z);
    }
    CoefficientsSum(Low, Half, IsSum, a, b, c, 32);
  }

  lemma {:induction false} IterAdds<W>(turn: W -> W, x: W, j: nat, k: nat)
    ensures Iter(turn, x, j + k) == Iter(turn, Iter(turn, x, j), k)
    decreases j
  {
    if j > 0 { IterAdds(turn, turn(x), j - 1, k); }
  }

  lemma ThirtyTwoHalves(c: bv32, n: nat)
    requires n == 32
    ensures Iter(Half, c, n) == 0
  {
    var eight := n - 24;
    EightHalves(c);
    EightHalves(c >> 8);
    EightHalves((c >> 8) >> 8);
    EightHalves(((c >> 8) >> 8) >> 8);
    IterAdds(Half, c, eight, n - 8);
    IterAdds(Half, c >> 8, eight, n - 16);
    IterAdds(Half, (c >> 8) >> 8, eight, n - 24);
    AllGone(c);
  }

  lemma AllGone(c: bv32)
    ensures (((c >> 8) >> 8) >> 8) >> 8 == 0
  {}

  lemma NoBit()
    ensures !Low(0)
  {}

  /** One bit of room is left once a bit has fallen out. */
  lemma HalfShifts(c: bv32, n: nat)
    requires n == 32
    ensures Coefficients(Low, Half, Half(c), n) == Shift(Coefficients(Low, Half, Half(c), n - 1), 1)
  {
    ThirtyTwoHalves(c, n);
    NoBit();
    CoefficientsWider(Low, Half, 0, Half(c), n - 1);
  }

  /** A whole byte of a register. */
  lemma EightCoefficients<W>(low: W -> bool, half: W -> W, x0: W, x1: W, x2: W, x3: W, x4: W, x5: W, x6: W, x7: W, x8: W, n: nat)
    requires x1 == half(x0) && x2 == half(x1) && x3 == half(x2) && x4 == half(x3)
    requires x5 == half(x4) && x6 == half(x5) && x7 == half(x6) && x8 == half(x7)
    ensures Coefficients(low, half, x0, n + 8)
         == Join(low(x0), n + 7, Join(low(x1), n + 6, Join(low(x2), n + 5, Join(low(x3), n + 4,
            Join(low(x4), n + 3, Join(low(x5), n + 2, Join(low(x6), n + 1, Join(low(x7), n, Coefficients(low, half, x8, n)))))))))
  {
    ThreeCoefficients(low, half, x5, x6, x7, x8, n);
    ThreeCoefficients(low, half, x2, x3, x4, x5, n + 3);
    assert Coefficients(low, half, x1, n + 7) == Join(low(x1), n + 6, Coefficients(low, half, x2, n + 6));
  }

  lemma ThreeCoefficients<W>(low: W -> bool, half: W -> W, x0: W, x1: W, x2: W, x3: W, n: nat)
    requires x1 == half(x0) && x2 == half(x1) && x3 == half(x2)
    ensures Coefficients(low, half, x0, n + 3)
         == Join(low(x0), n + 2, Join(low(x1), n + 1, Join(low(x2), n, Coefficients(low, half, x3, n))))
  {
    assert Coefficients(low, half, x1, n + 2) == Join(low(x1), n + 1, Coefficients(low, half, x2, n + 1));
  }

  lemma PolynomialByte0(n: nat)
    requires n == 24 && Coefficients(Low, Half, 0xedb883, n) == {23, 22, 16, 12, 11, 10, 8, 7, 5, 4, 2, 1, 0}
    ensures Coefficients(Low, Half, 0xedb88320, n + 8) == {26, 23, 22, 16, 12, 11, 10, 8, 7, 5, 4, 2, 1, 0}
  {
    EightCoefficients(Low, Half, 0xedb88320, 0x76dc4190, 0x3b6e20c8, 0x1db71064, 0xedb8832, 0x76dc419, 0x3b6e20c, 0x1db7106, 0xedb883, n);
  }

  lemma PolynomialByte1(n: nat)
    requires n == 16 && Coefficients(Low, Half, 0xedb8, n) == {12, 11, 10, 8, 7, 5, 4, 2, 1, 0}
    ensures Coefficients(Low, Half, 0xedb883, n + 8) == {23, 22, 16, 12, 11, 10, 8, 7, 5, 4, 2, 1, 0}
  {
    EightCoefficients(Low, Half, 0xedb883, 0x76dc41, 0x3b6e20, 0x1db710, 0xedb88, 0x76dc4, 0x3b6e2, 0x1db71, 0xedb8, n);
  }

  lemma PolynomialByte2(n: nat)
    requires n == 8 && Coefficients(Low, Half, 0xed, n) == {7, 5, 4, 2, 1, 0}
    ensures Coefficients(Low, Half, 0xedb8, n + 8) == {12, 11, 10, 8, 7, 5, 4, 2, 1, 0}
  {
    EightCoefficients(Low, Half, 0xedb8, 0x76dc, 0x3b6e, 0x1db7, 0xedb, 0x76d, 0x3b6, 0x1db, 0xed, n);
  }

  lemma PolynomialByte3(n: nat)
    requires n == 0
    ensures Coefficients(Low, Half, 0xed, n + 8) == {7, 5, 4, 2, 1, 0}
  {
    EightCoefficients(Low, Half, 0xed, 0x76, 0x3b, 0x1d, 0xe, 0x7, 0x3, 0x1, 0x0, n);
  }

  lemma PolynomialReversed()
    ensures Register(POLY) == DIVISOR - {32}
  {
    PolynomialByte3(0);
    PolynomialByte2(8);
    PolynomialByte1(16);
    PolynomialByte0(24);
  }

  lemma {:induction false} ZeroCoefficients<W>(low: W -> bool, half: W -> W, zero: W, n: nat)
    requires !low(zero) && half(zero) == zero
    ensures Coefficients(low, half, zero, n) == {}
    decreases n
  {
    if n > 0 { ZeroCoefficients(low, half, zero, n - 1); }
  }

  lemma LowOnly(b: bv32)
    ensures Low(b) ==> b & 1 == 1
    ensures !Low(b) ==> b & 1 == 0
    ensures Half(1) == 0 && Half(0) == 0 && Low(1)
  {}

  /** A bit that comes in is the highest coefficient. */
  lemma RegisterOfBit(b: bv32, n: nat)
    requires n == 32
    ensures Coefficients(Low, Half, b & 1, n) == if Low(b) then {n - 1} else {}
  {
    LowOnly(b);
    NoBit();
    ZeroCoefficients(Low, Half, 0, n);
    ZeroCoefficients(Low, Half, 0, n - 1);
    assert Coefficients(Low, Half, 1, n) == Join(true, n - 1, Coefficients(Low, Half, 0, n - 1));
  }

  predicate LowOnes<W>(low: W -> bool, half: W -> W, c: W, k: nat)
    decreases k
  {
    k == 0 || (low(c) && LowOnes(low, half, half(c), k - 1))
  }

  lemma {:induction false} OnesFill<W>(low: W -> bool, half: W -> W, c: W, n: nat)
    requires LowOnes(low, half, c, n)
    ensures Coefficients(low, half, c, n) == Below(n)
    decreases n
  {
    if n > 0 {
      OnesFill(low, half, half(c), n - 1);
      assert Join(true, n - 1, Below(n - 1)) == Below(n);
    }
  }

  lemma EightOnes<W>(low: W -> bool, half: W -> W, x0: W, x1: W, x2: W, x3: W, x4: W, x5: W, x6: W, x7: W, x8: W, n: nat)
    requires x1 == half(x0) && x2 == half(x1) && x3 == half(x2) && x4 == half(x3)
    requires x5 == half(x4) && x6 == half(x5) && x7 == half(x6) && x8 == half(x7)
    requires low(x0) && low(x1) && low(x2) && low(x3) && low(x4) && low(x5) && low(x6) && low(x7)
    requires LowOnes(low, half, x8, n)
    ensures LowOnes(low, half, x0, n + 8)
  {
    assert LowOnes(low, half, x6, n + 2);
    assert LowOnes(low, half, x4, n + 4);
    assert LowOnes(low, half, x2, n + 6);
  }

  lemma AllOnes()
    ensures Register(0xffff_ffff) == ONES
  {
    ThirtyTwoOnes(0);
    OnesFill(Low, Half, 0xffff_ffff, 32);
  }

  lemma ThirtyTwoOnes(n: nat)
    requires n == 0
    ensures LowOnes(Low, Half, 0xffff_ffff, n + 32)
  {
    EightOnes(Low, Half, 0xff, 0x7f, 0x3f, 0x1f, 0xf, 0x7, 0x3, 0x1, 0x0, n);
    EightOnes(Low, Half, 0xffff, 0x7fff, 0x3fff, 0x1fff, 0xfff, 0x7ff, 0x3ff, 0x1ff, 0xff, n + 8);
    EightOnes(Low, Half, 0xffffff, 0x7fffff, 0x3fffff, 0x1fffff, 0xfffff, 0x7ffff, 0x3ffff, 0x1ffff, 0xffff, n + 16);
    EightOnes(Low, Half, 0xffffffff, 0x7fffffff, 0x3fffffff, 0x1fffffff, 0xfffffff, 0x7ffffff, 0x3ffffff, 0x1ffffff, 0xffffff, n + 24);
  }

  // ── The steps of the register are steps of the division ──

  lemma Reduced(h: Poly, r: Poly)
    requires r == Sum(DIVISOR - {32}, h) && forall e :: e in h ==> e < 32
    ensures Join(true, 32, h) == Sum(DIVISOR, r)
  {}

  lemma TurnIs(c: bv32)
    ensures Low(c) ==> IsSum(POLY, Half(c), Turn(c))
    ensures !Low(c) ==> Turn(c) == Half(c)
  {}

  /** Times x, the bit that falls out is the coefficient of x^32. */
  lemma ShiftedRegister(c: bv32)
    ensures Shift(Register(c), 1) == Join(Low(c), 32, Register(Half(c)))
  {
    var rest := Coefficients(Low, Half, Half(c), 31);
    assert Register(c) == Join(Low(c), 31, rest);
    HalfShifts(c, 32);
    JoinShift(Low(c), 31, rest);
  }

  /** A turn multiplies by x, and takes the divisor away when it can. */
  lemma TurnDivides(c: bv32)
    ensures Shift(Register(c), 1) == Sum(if Low(c) then DIVISOR else {}, Register(Turn(c)))
  {
    ShiftedRegister(c);
    TurnIs(c);
    if Low(c) {
      PolynomialReversed();
      RegisterSum(POLY, Half(c), Turn(c));
      Reduced(Register(Half(c)), Register(Turn(c)));
    } else {
      assert Sum({}, Register(Half(c))) == Register(Half(c));
    }
  }

  predicate Quotient(c: bv32, b: bv32) {
    Low(Add(c, b & 1))
  }

  lemma BitShifts(a: Poly, bit: bool)
    ensures Shift(Sum(a, if bit then {31} else {}), 1) == Sum(Shift(a, 1), if bit then {32} else {})
  {}

  lemma OneTerm(bit: bool, a: Poly)
    ensures Product([bit], a) == if bit then a else {}
  {
    assert Shift(a, 0) == a;
    ProductUnfolds([bit], bit, [], a);
  }

  lemma BitDivides(c: bv32, b: bv32)
    ensures Divides(Register(c), [Low(b)], [Quotient(c, b)], Register(TakeBit(c, b)))
  {
    var c1 := Add(c, b & 1);
    RegisterSum(c, b & 1, c1);
    RegisterOfBit(b, 32);
    BitShifts(Register(c), Low(b));
    TurnDivides(c1);
    OneTerm(Low(b), {32});
    OneTerm(Low(c1), DIVISOR);
  }

  /** The bits a message of `n` bits gives, in the order they come in. */
  function SerialBits<W>(low: W -> bool, half: W -> W, b: W, n: nat): seq<bool>
    decreases n
  {
    if n == 0 then [] else [low(b)] + SerialBits(low, half, half(b), n - 1)
  }

  lemma NothingDivided(a: Poly)
    ensures Divides(a, [], [], a)
  {
    assert Shift(a, 0) == a;
  }

  lemma {:induction false} SerialDivides<W(!new)>(take: (W, W) -> W, half: W -> W, low: W -> bool, quotient: (W, W) -> bool,
                                                  reg: W -> Poly, c: W, b: W, n: nat) returns (q: seq<bool>)
    requires forall x, y {:trigger take(x, y)} :: Divides(reg(x), [low(y)], [quotient(x, y)], reg(take(x, y)))
    ensures Divides(reg(c), SerialBits(low, half, b, n), q, reg(Serial(take, half, c, b, n)))
    decreases n
  {
    if n == 0 {
      q := [];
      NothingDivided(reg(c));
    } else {
      var mid := take(c, b);
      var rest := SerialDivides(take, half, low, quotient, reg, mid, half(b), n - 1);
      q := [quotient(c, b)] + rest;
      DivisionGoesOn(reg(c), [low(b)], [quotient(c, b)], reg(mid), SerialBits(low, half, half(b), n - 1), rest,
                     reg(Serial(take, half, mid, half(b), n - 1)));
    }
  }

  lemma EightBits<W>(low: W -> bool, half: W -> W, x0: W, x1: W, x2: W, x3: W, x4: W, x5: W, x6: W, x7: W, n: nat)
    requires x1 == half(x0) && x2 == half(x1) && x3 == half(x2) && x4 == half(x3)
    requires x5 == half(x4) && x6 == half(x5) && x7 == half(x6) && n == 8
    ensures SerialBits(low, half, x0, n) == [low(x0), low(x1), low(x2), low(x3), low(x4), low(x5), low(x6), low(x7)]
  {
    assert SerialBits(low, half, x7, n - 7) == [low(x7)] + SerialBits(low, half, half(x7), n - 8);
    assert SerialBits(low, half, x5, n - 5) == [low(x5), low(x6), low(x7)];
    assert SerialBits(low, half, x3, n - 3) == [low(x3), low(x4), low(x5), low(x6), low(x7)];
    assert SerialBits(low, half, x1, n - 1) == [low(x1), low(x2), low(x3), low(x4), low(x5), low(x6), low(x7)];
  }

  lemma ByteBits(x: bv32, n: nat)
    requires n == 8
    ensures SerialBits(Low, Half, x, n) == BitsOf(x)
  {
    Shifts(x);
    EightBits(Low, Half, x, x >> 1, x >> 2, x >> 3, x >> 4, x >> 5, x >> 6, x >> 7, n);
  }

  lemma ByteDivides(c: bv32, b: Byte) returns (q: seq<bool>)
    ensures Divides(Register(c), BitsOf(b as bv32), q, Register(TakeByte(c, b)))
  {
    forall x, y ensures Divides(Register(x), [Low(y)], [Quotient(x, y)], Register(TakeBit(x, y))) { BitDivides(x, y); }
    q := SerialDivides(TakeBit, Half, Low, Quotient, Register, c, b as bv32, 8);
    ByteBits(b as bv32, 8);
  }

  lemma {:induction false} MessageDivides(c: bv32, bytes: seq<Byte>) returns (q: seq<bool>)
    ensures Divides(Register(c), MessageBits(bytes), q, Register(TakeAll(c, bytes)))
    decreases |bytes|
  {
    if bytes == [] {
      q := [];
      NothingDivided(Register(c));
    } else {
      var mid := TakeByte(c, bytes[0]);
      var first := ByteDivides(c, bytes[0]);
      var rest := MessageDivides(mid, bytes[1..]);
      q := first + rest;
      DivisionGoesOn(Register(c), BitsOf(bytes[0] as bv32), first, Register(mid), MessageBits(bytes[1..]), rest,
                     Register(TakeAll(mid, bytes[1..])));
    }
  }

  // ── There is one remainder ──

  lemma {:induction false} ProductBelow(q: seq<bool>)
    ensures forall e :: e in Product(q, DIVISOR) ==> e < 32 + |q|
  {
    if q != [] { ProductBelow(q[1..]); }
  }

  lemma SameFirst(q: seq<bool>, r: Poly)
    requires q != [] && forall e :: e in r ==> e < 32
    ensures 31 + |q| in Sum(Product(q, DIVISOR), r) <==> q[0]
  {
    ProductBelow(q[1..]);
    assert 32 in DIVISOR;
  }

  lemma Cancels(t: Poly, a: Poly, b: Poly, r: Poly, r': Poly)
    requires Sum(Sum(t, a), r) == Sum(Sum(t, b), r')
    ensures Sum(a, r) == Sum(b, r')
  {
    forall e ensures e in Sum(a, r) <==> e in Sum(b, r') {
      assert e in Sum(Sum(t, a), r) <==> e in Sum(Sum(t, b), r');
    }
  }

  lemma {:induction false} RemainderIsUnique(q: seq<bool>, q': seq<bool>, r: Poly, r': Poly)
    requires |q| == |q'| && Sum(Product(q, DIVISOR), r) == Sum(Product(q', DIVISOR), r')
    requires (forall e :: e in r ==> e < 32) && forall e :: e in r' ==> e < 32
    ensures r == r'
  {
    if q == [] {
      assert Sum({}, r) == r && Sum({}, r') == r';
    } else {
      SameFirst(q, r);
      SameFirst(q', r');
      Cancels(Term(q[0], DIVISOR, |q| - 1), Product(q[1..], DIVISOR), Product(q'[1..], DIVISOR), r, r');
      RemainderIsUnique(q[1..], q'[1..], r, r');
    }
  }

  lemma OnlyZeroIsEmpty(c: bv32)
    requires Register(c) == {}
    ensures c == 0
  {
    forall x: bv32 | !Low(x) && Half(x) == 0 ensures x == 0 { NothingLeft(x); }
    ThirtyTwoHalves(c, 32);
    NoCoefficient(Low, Half, 0, c, 32);
  }

  lemma RegisterIsInjective(a: bv32, b: bv32, c: bv32)
    requires Register(a) == Register(b) && IsSum(a, b, c)
    ensures a == b
  {
    RegisterSum(a, b, c);
    assert Sum(Register(a), Register(b)) == {};
    OnlyZeroIsEmpty(c);
    SameIfNothingAdded(a, b);
  }

  lemma NothingLeft(x: bv32)
    requires !Low(x) && Half(x) == 0
    ensures x == 0
  {
    LowOnly(x);
  }

  lemma SameIfNothingAdded(a: bv32, b: bv32)
    requires IsSum(a, b, 0)
    ensures a == b
  {}

  lemma Complemented(c: bv32, d: bv32)
    requires IsSum(c, 0xffff_ffff, d)
    ensures Sum(Register(d), ONES) == Register(c)
  {
    RegisterSum(c, 0xffff_ffff, d);
    AllOnes();
    assert Sum(Sum(Register(c), ONES), ONES) == Register(c);
  }

  lemma CrcIsARemainder(bytes: seq<Byte>) returns (q: seq<bool>)
    ensures Divides(ONES, MessageBits(bytes), q, Sum(Register(Crc(bytes)), ONES))
  {
    q := MessageDivides(0xffff_ffff, bytes);
    AllOnes();
    Complemented(TakeAll(0xffff_ffff, bytes), Crc(bytes));
  }

  lemma NoOtherRemainder(bits: seq<bool>, q: seq<bool>, q': seq<bool>, a: bv32, b: bv32)
    requires Divides(ONES, bits, q, Sum(Register(a), ONES)) && Divides(ONES, bits, q', Sum(Register(b), ONES))
    ensures a == b
  {
    RemainderIsUnique(q, q', Sum(Register(a), ONES), Sum(Register(b), ONES));
    SumIsInjective(Register(a), Register(b), ONES);
    RegisterIsInjective(a, b, a ^ b);
  }

  /** Complemented, the word is the remainder of the message times x^32, its first 32 bits complemented. */
  ghost predicate IsRemainder(bytes: seq<Byte>, crc: bv32) {
    exists q :: Divides(ONES, MessageBits(bytes), q, Sum(Register(crc), ONES))
  }

  /** The CRC of a message is its remainder in the division by the polynomial, and no other word is. */
  lemma CrcIsTheRemainder(bytes: seq<Byte>, crc: bv32)
    ensures IsRemainder(bytes, crc) <==> crc == Crc(bytes)
  {
    var q := CrcIsARemainder(bytes);
    if IsRemainder(bytes, crc) {
      var q' :| Divides(ONES, MessageBits(bytes), q', Sum(Register(crc), ONES));
      NoOtherRemainder(MessageBits(bytes), q, q', Crc(bytes), crc);
    }
  }

  lemma SumIsInjective(a: Poly, b: Poly, c: Poly)
    requires Sum(a, c) == Sum(b, c)
    ensures a == b
  {
    forall e ensures e in a <==> e in b { assert e in Sum(a, c) <==> e in Sum(b, c); }
  }
}
