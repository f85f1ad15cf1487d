/**
 * Text as bytes: UTF-8 with lone surrogates replaced (TextEncoder in the
 * browser, `Encoding.UTF8` in the backend).
 */
module Utf8 {
  import opened Common
  import opened Text
  import opened JsonString
  import opened Crc32

  /** A code point in one to four bytes. */
  function Point(c: int): (b: seq<Byte>)
    requires 0 <= c < 0x11_0000
    ensures 1 <= |b| <= 4
    ensures b[|b| - 1] == 47 <==> c == 47
  {
    if c < 0x80 then [c]
    else if c < 0x800 then [0xC0 + c / 64, 0x80 + c % 64]
    else if c < 0x1_0000 then [0xE0 + c / 4096, 0x80 + c / 64 % 64, 0x80 + c % 64]
    else [0xF0 + c / 262144, 0x80 + c / 4096 % 64, 0x80 + c / 64 % 64, 0x80 + c % 64]
  }

  function PairPoint(lead: CodeUnit, trail: CodeUnit): int
    requires IsLead(lead) && IsTrail(trail)
  {
    0x1_0000 + (lead - 0xD800) * 1024 + (trail - 0xDC00)
  }

  function Encode(t: Text): seq<Byte> {
    if t == [] then []
    else if StartsWithPair(t) then Point(PairPoint(t[0], t[1])) + Encode(t[2..])
    else Point(if IsLead(t[0]) || IsTrail(t[0]) then 0xFFFD else t[0]) + Encode(t[1..])
  }

  /** A path that ends with a slash is one whose last byte is a slash. */
  lemma {:induction false} EndsWithSlash(t: Text)
    ensures t == [] <==> Encode(t) == []
    ensures t != [] ==> (t[|t| - 1] == 47 <==> Encode(t)[|Encode(t)| - 1] == 47)
    decreases |t|
  {
    if t != [] {
      if StartsWithPair(t) { EndsWithSlash(t[2..]); } else { EndsWithSlash(t[1..]); }
    }
  }

  // ── A strict reader ──

  /** A code point that has an encoding, and the number of its bytes. */
  datatype Scalar = Scalar(point: int, length: nat)

  predicate IsScalar(c: int) {
    0 <= c < 0xD800 || 0xE000 <= c <= 0x10_FFFF
  }

  predicate IsTail(u: Byte) {
    0x80 <= u <= 0xBF
  }

  /** No overlong form and no surrogate (section 4 of RFC 3629). */
  predicate ThreeStart(a: Byte, b: Byte) {
    || (a == 0xE0 && 0xA0 <= b <= 0xBF)
    || (0xE1 <= a <= 0xEC && IsTail(b))
    || (a == 0xED && 0x80 <= b <= 0x9F)
    || (0xEE <= a <= 0xEF && IsTail(b))
  }

  /** No overlong form, and nothing past U+10FFFF. */
  predicate FourStart(a: Byte, b: Byte) {
    || (a == 0xF0 && 0x90 <= b <= 0xBF)
    || (0xF1 <= a <= 0xF3 && IsTail(b))
    || (a == 0xF4 && 0x80 <= b <= 0x8F)
  }

  function TwoBytes(a: int, b: int): int {
    (a - 192) * 64 + (b - 128)
  }

  function ThreeBytes(a: int, b: int, c: int): int {
    (a - 224) * 4096 + (b - 128) * 64 + (c - 128)
  }

  function FourBytes(a: int, b: int, c: int, d: int): int {
    (a - 240) * 262144 + (b - 128) * 4096 + (c - 128) * 64 + (d - 128)
  }

  function ReadPoint(b: seq<Byte>): (r: Option<Scalar>)
    ensures r.Some? ==> 1 <= r.value.length <= |b| && IsScalar(r.value.point)
  {
    if b == [] then None
    else if b[0] <= 0x7F then Some(Scalar(b[0], 1))
    else if |b| >= 2 && 0xC2 <= b[0] <= 0xDF && IsTail(b[1]) then
      Some(Scalar(TwoBytes(b[0], b[1]), 2))
    else if |b| >= 3 && ThreeStart(b[0], b[1]) && IsTail(b[2]) then
      Some(Scalar(ThreeBytes(b[0], b[1], b[2]), 3))
    else if |b| >= 4 && FourStart(b[0], b[1]) && IsTail(b[2]) && IsTail(b[3]) then
      Some(Scalar(FourBytes(b[0], b[1], b[2], b[3]), 4))
    else None
  }

  /** One UTF-16 unit, or two from U+10000 on (section 2.1 of RFC 2781). */
  function Units(c: int): Text
    requires IsScalar(c)
  {
    if c < 65536 then [c] else [55296 + (c - 65536) / 1024, 56320 + (c - 65536) % 1024]
  }

  function Decode(b: seq<Byte>): Option<Text>
    decreases |b|
  {
    if b == [] then Some([]) else
      match ReadPoint(b)
      case None => None
      case Some(s) =>
        match Decode(b[s.length..])
        case None => None
        case Some(rest) => Some(Units(s.point) + rest)
  }

  /** A lead surrogate with no trail after it, or a trail with no lead before it. */
  predicate Lone(t: Text, i: nat)
    requires i < |t|
  {
    || (0xD800 <= t[i] <= 0xDBFF && !(i + 1 < |t| && 0xDC00 <= t[i + 1] <= 0xDFFF))
    || (0xDC00 <= t[i] <= 0xDFFF && !(i > 0 && 0xD800 <= t[i - 1] <= 0xDBFF))
  }

  /** Lone surrogates become U+FFFD. */
  function Mended(t: Text): (m: Text)
    ensures |m| == |t| && forall i :: 0 <= i < |t| ==> m[i] == if Lone(t, i) then 0xFFFD else t[i]
  {
    seq(|t|, i requires 0 <= i < |t| => if Lone(t, i) then 0xFFFD else t[i])
  }

  lemma TwoWritten(a: Byte, b: Byte)
    requires 0xC2 <= a <= 0xDF && IsTail(b)
    ensures Point(TwoBytes(a, b)) == [a, b]
  {
    var c := TwoBytes(a, b);
    assert c / 64 == a - 192 && c % 64 == b - 128;
  }

  lemma ThreeWritten(a: Byte, b: Byte, e: Byte)
    requires ThreeStart(a, b) && IsTail(e)
    ensures Point(ThreeBytes(a, b, e)) == [a, b, e]
  {
    var c := ThreeBytes(a, b, e);
    assert c / 64 == (a - 224) * 64 + (b as int - 128) && c % 64 == e - 128;
    assert c / 64 % 64 == b - 128 && c / 4096 == a - 224;
  }

  lemma FourWritten(a: Byte, b: Byte, e: Byte, f: Byte)
    requires FourStart(a, b) && IsTail(e) && IsTail(f)
    ensures Point(FourBytes(a, b, e, f)) == [a, b, e, f]
  {
    var c := FourBytes(a, b, e, f);
    assert c / 64 == (a - 240) * 4096 + (b as int - 128) * 64 + (e as int - 128) && c % 64 == f - 128;
    assert c / 4096 == (a - 240) * 64 + (b as int - 128) && c / 64 % 64 == e - 128;
    assert c / 4096 % 64 == b - 128 && c / 262144 == a - 240;
  }

  lemma PointWritten(b: seq<Byte>)
    requires ReadPoint(b).Some?
    ensures var s := ReadPoint(b).value; b[..s.length] == Point(s.point)
  {
    match ReadPoint(b).value.length
    case 1 =>
    case 2 => TwoWritten(b[0], b[1]);
    case 3 => ThreeWritten(b[0], b[1], b[2]);
    case _ => FourWritten(b[0], b[1], b[2], b[3]);
  }

  lemma TwoRead(c: int)
    requires 0x80 <= c < 0x800
    ensures var p := Point(c); |p| == 2 && 0xC2 <= p[0] <= 0xDF && IsTail(p[1]) && TwoBytes(p[0], p[1]) == c
  {}

  lemma ThreeRead(c: int)
    requires 0x800 <= c < 0x1_0000 && IsScalar(c)
    ensures var p := Point(c); |p| == 3 && ThreeStart(p[0], p[1]) && IsTail(p[2]) && ThreeBytes(p[0], p[1], p[2]) == c
  {
    assert c == c / 64 * 64 + c % 64 && c / 64 == c / 4096 * 64 + c / 64 % 64;
  }

  lemma FourRead(c: int)
    requires 0x1_0000 <= c <= 0x10_FFFF
    ensures var p := Point(c);
      |p| == 4 && FourStart(p[0], p[1]) && IsTail(p[2]) && IsTail(p[3]) && FourBytes(p[0], p[1], p[2], p[3]) == c
  {
    assert c == c / 64 * 64 + c % 64 && c / 64 == c / 4096 * 64 + c / 64 % 64;
    assert c / 4096 == c / 262144 * 64 + c / 4096 % 64;
  }

  lemma PointReads(c: int, rest: seq<Byte>)
    requires IsScalar(c)
    ensures ReadPoint(Point(c) + rest) == Some(Scalar(c, |Point(c)|))
  {
    var b := Point(c) + rest;
    assert b[..|Point(c)|] == Point(c);
    if 0x80 <= c < 0x800 { TwoRead(c); }
    else if 0x800 <= c < 0x1_0000 { ThreeRead(c); }
    else if c >= 0x1_0000 { FourRead(c); }
  }

  lemma MendedPair(t: Text)
    requires StartsWithPair(t)
    ensures Mended(t) == t[..2] + Mended(t[2..])
  {
    forall i | 2 <= i < |t| ensures Lone(t, i) <==> Lone(t[2..], i - 2) {}
  }

  lemma MendedOne(t: Text)
    requires t != [] && !StartsWithPair(t)
    ensures Mended(t) == [if IsLead(t[0]) || IsTrail(t[0]) then 0xFFFD else t[0]] + Mended(t[1..])
  {
    forall i | 1 <= i < |t| ensures Lone(t, i) <==> Lone(t[1..], i - 1) {}
  }

  lemma PairIsUnits(lead: CodeUnit, trail: CodeUnit)
    requires IsLead(lead) && IsTrail(trail)
    ensures IsScalar(PairPoint(lead, trail)) && Units(PairPoint(lead, trail)) == [lead, trail]
  {}

  lemma UnitsArePair(c: int)
    requires IsScalar(c) && c >= 65536
    ensures var u := Units(c); |u| == 2 && IsLead(u[0]) && IsTrail(u[1]) && PairPoint(u[0], u[1]) == c
  {}

  lemma DecodeStep(c: int, rest: seq<Byte>)
    requires IsScalar(c)
    ensures Decode(Point(c) + rest) == match Decode(rest) case None => None case Some(t) => Some(Units(c) + t)
  {
    PointReads(c, rest);
    var p := Point(c);
    assert (p + rest)[|p|..] == rest;
  }

  /** What is read back is the text, with its lone surrogates replaced. */
  lemma {:induction false} DecodeEncoded(t: Text)
    ensures Decode(Encode(t)) == Some(Mended(t))
    decreases |t|
  {
    if t == [] {
      assert Mended(t) == [];
    } else if StartsWithPair(t) {
      PairIsUnits(t[0], t[1]);
      assert [t[0], t[1]] == t[..2];
      DecodeStep(PairPoint(t[0], t[1]), Encode(t[2..]));
      DecodeEncoded(t[2..]);
      MendedPair(t);
    } else {
      var c := if IsLead(t[0]) || IsTrail(t[0]) then 0xFFFD else t[0];
      DecodeStep(c, Encode(t[1..]));
      DecodeEncoded(t[1..]);
      MendedOne(t);
    }
  }

  /** The reader takes nothing but what the writer gives. */
  lemma {:induction false} EncodeDecoded(b: seq<Byte>)
    requires Decode(b).Some?
    ensures Encode(Decode(b).value) == b
    decreases |b|
  {
    if b != [] {
      var s := ReadPoint(b).value;
      var t := Decode(b[s.length..]).value;
      PointWritten(b);
      EncodeDecoded(b[s.length..]);
      var u := Units(s.point);
      if s.point >= 65536 { UnitsArePair(s.point); }
      assert (u + t)[|u|..] == t;
      assert b == b[..s.length] + b[s.length..];
    }
  }

  /** Only the encoding of a text reads back as that text, lone surrogates replaced. */
  lemma DecodeExact(b: seq<Byte>, t: Text)
    ensures Decode(b) == Some(Mended(t)) <==> b == Encode(t)
  {
    DecodeEncoded(t);
    EncodeDecoded(Encode(t));
    if Decode(b) == Some(Mended(t)) { EncodeDecoded(b); }
  }

  /** A text comes back as it was exactly when it has no lone surrogate. */
  lemma ReadsBackExactly(t: Text)
    ensures Decode(Encode(t)) == Some(t) <==> forall i :: 0 <= i < |t| ==> !Lone(t, i)
  {
    DecodeEncoded(t);
    if i :| 0 <= i < |t| && Lone(t, i) {
      assert Mended(t)[i] != t[i];
    } else {
      assert Mended(t) == t;
    }
  }
}
