/**
 * Strings as JSON.stringify writes them (`QuoteJSONString`, section 25.5.2.3
 * of ECMA-262), lone surrogates included.
 */
module JsonString {
  import opened Text

  const QUOTE: CodeUnit := 34
  const BACKSLASH: CodeUnit := 92
  const LETTER_U: CodeUnit := 117

  predicate IsLead(u: CodeUnit) {
    0xD800 <= u < 0xDC00
  }

  predicate IsTrail(u: CodeUnit) {
    0xDC00 <= u < 0xE000
  }

  /** The two units at the start are one code point beyond the first plane. */
  predicate StartsWithPair(t: Text) {
    |t| >= 2 && IsLead(t[0]) && IsTrail(t[1])
  }

  function Hex(n: nat): CodeUnit
    requires n < 16
  {
    if n < 10 then 48 + n else 87 + n
  }

  function Hex4(u: CodeUnit): (t: Text)
    ensures |t| == 4
  {
    var n: int := u;
    [Hex(n / 4096), Hex(n / 256 % 16), Hex(n / 16 % 16), Hex(n % 16)]
  }

  /** The letter of a two-unit escape; 0 where there is none. */
  function Short(u: CodeUnit): CodeUnit {
    if u == 8 then 98 else if u == 9 then 116 else if u == 10 then 110 else if u == 12 then 102 else if u == 13 then 114
    else if u == QUOTE then QUOTE else if u == BACKSLASH then BACKSLASH else 0
  }

  /** One unit on its own. */
  function EscapeUnit(u: CodeUnit): (t: Text)
    ensures t != []
  {
    if Short(u) != 0 then [BACKSLASH, Short(u)]
    else if u < 32 || IsLead(u) || IsTrail(u) then [BACKSLASH, LETTER_U] + Hex4(u)
    else [u]
  }

  /** Backspace, tab, line feed, form feed, return, quote and backslash have letters; a unit separator has none; a delete stays. */
  lemma KnownEscapes()
    ensures EscapeUnit(8) == [92, 98] && EscapeUnit(9) == [92, 116] && EscapeUnit(10) == [92, 110] && EscapeUnit(12) == [92, 102]
    ensures EscapeUnit(13) == [92, 114] && EscapeUnit(34) == [92, 34] && EscapeUnit(92) == [92, 92]
    ensures EscapeUnit(31) == [92, 117, 48, 48, 49, 102] && EscapeUnit(127) == [127]
  {}

  function Escape(t: Text): Text {
    if t == [] then []
    else if StartsWithPair(t) then t[..2] + Escape(t[2..])
    else EscapeUnit(t[0]) + Escape(t[1..])
  }

  function Quote(t: Text): Text {
    [QUOTE] + Escape(t) + [QUOTE]
  }

  // ── A quoted string is read back in one way ──

  lemma HexIsInjective(m: nat, n: nat)
    requires m < 16 && n < 16 && Hex(m) == Hex(n)
    ensures m == n
  {}

  lemma FourHexDigits(n: int)
    requires 0 <= n < 0x1_0000
    ensures n == 4096 * (n / 4096) + 256 * (n / 256 % 16) + 16 * (n / 16 % 16) + n % 16
  {
    assert n / 256 == n / 16 / 16 && n / 4096 == n / 256 / 16;
    assert n == 16 * (n / 16) + n % 16;
    assert n / 16 == 16 * (n / 256) + n / 16 % 16;
    assert n / 256 == 16 * (n / 4096) + n / 256 % 16;
  }

  lemma Hex4IsInjective(u: CodeUnit, v: CodeUnit)
    requires Hex4(u) == Hex4(v)
    ensures u == v
  {
    var m: int, n: int := u, v;
    var a, b := Hex4(u), Hex4(v);
    assert a[0] == b[0] && a[1] == b[1] && a[2] == b[2] && a[3] == b[3];
    HexIsInjective(m / 4096, n / 4096);
    HexIsInjective(m / 256 % 16, n / 256 % 16);
    HexIsInjective(m / 16 % 16, n / 16 % 16);
    HexIsInjective(m % 16, n % 16);
    FourHexDigits(m);
    FourHexDigits(n);
  }

  /** What one unit was written as can be told from what follows it. */
  lemma UnitReadsBack(u: CodeUnit, v: CodeUnit, x: Text, y: Text)
    requires EscapeUnit(u) + x == EscapeUnit(v) + y
    ensures u == v && x == y
  {
    var l, r := EscapeUnit(u) + x, EscapeUnit(v) + y;
    assert l[0] == r[0];
    assert EscapeUnit(u)[0] == l[0] && EscapeUnit(v)[0] == r[0];
    if l[0] == BACKSLASH {
      assert EscapeUnit(u)[1] == l[1] && EscapeUnit(v)[1] == r[1];
      if l[1] == LETTER_U {
        assert Hex4(u) == l[2..6] && Hex4(v) == r[2..6];
        Hex4IsInjective(u, v);
      }
    }
    assert u == v;
    assert x == l[|EscapeUnit(u)|..] && y == r[|EscapeUnit(v)|..];
  }

  lemma UnitStart(u: CodeUnit, x: Text)
    ensures var t := EscapeUnit(u) + x; t[0] != QUOTE && !IsLead(t[0])
  {}

  /** The end of a string and what follows it. */
  predicate AfterString(x: Text) {
    x != [] && x[0] == QUOTE
  }

  lemma {:induction false} EscapeReadsBack(a: Text, b: Text, x: Text, y: Text)
    requires AfterString(x) && AfterString(y) && Escape(a) + x == Escape(b) + y
    ensures a == b && x == y
    decreases |a|
  {
    StartOf(a, x);
    StartOf(b, y);
    var l, r := Escape(a) + x, Escape(b) + y;
    if a == [] {
      assert l == x && r == y;
    } else if StartsWithPair(a) {
      assert l[2..] == r[2..];
      EscapeReadsBack(a[2..], b[2..], x, y);
      assert a == a[..2] + a[2..] && b == b[..2] + b[2..];
    } else {
      UnitReadsBack(a[0], b[0], Escape(a[1..]) + x, Escape(b[1..]) + y);
      EscapeReadsBack(a[1..], b[1..], x, y);
      assert a == [a[0]] + a[1..] && b == [b[0]] + b[1..];
    }
  }

  /** The first unit tells whether the string is over, starts with a pair, or with a unit on its own. */
  lemma StartOf(t: Text, x: Text)
    requires AfterString(x)
    ensures var l := Escape(t) + x;
      && l != []
      && (t == [] <==> l[0] == QUOTE)
      && (StartsWithPair(t) <==> IsLead(l[0]))
      && (StartsWithPair(t) ==> |l| >= 2 && l[..2] == t[..2] && l[2..] == Escape(t[2..]) + x)
      && (t != [] && !StartsWithPair(t) ==> l == EscapeUnit(t[0]) + (Escape(t[1..]) + x))
  {
    if t == [] {
    } else if StartsWithPair(t) {
      StartOfPair(t, x);
    } else {
      assert Escape(t) == EscapeUnit(t[0]) + Escape(t[1..]);
      Assoc(EscapeUnit(t[0]), Escape(t[1..]), x);
      UnitStart(t[0], Escape(t[1..]) + x);
    }
  }

  lemma StartOfPair(t: Text, x: Text)
    requires StartsWithPair(t)
    ensures var l := Escape(t) + x; |l| >= 2 && l[0] == t[0] && l[..2] == t[..2] && l[2..] == Escape(t[2..]) + x
  {
    var pair, rest := t[..2], Escape(t[2..]);
    assert Escape(t) == pair + rest;
    Assoc(pair, rest, x);
    assert (pair + (rest + x))[..2] == pair && (pair + (rest + x))[2..] == rest + x;
  }

  lemma QuoteReadsBack(a: Text, b: Text, x: Text, y: Text)
    requires Quote(a) + x == Quote(b) + y
    ensures a == b && x == y
  {
    var l, r := Quote(a) + x, Quote(b) + y;
    assert l[1..] == Escape(a) + ([QUOTE] + x) && r[1..] == Escape(b) + ([QUOTE] + y);
    EscapeReadsBack(a, b, [QUOTE] + x, [QUOTE] + y);
    assert x == ([QUOTE] + x)[1..] && y == ([QUOTE] + y)[1..];
  }
}
