/**
 * An archive without compression (`createZip` of apps/web/src/zipArchive.ts),
 * written as in sections 4.3.7, 4.3.12 and 4.3.16 of PKWARE's APPNOTE.
 */
module ZipArchive {
  import opened Text
  import opened Crc32
  import opened Utf8

  const MAX_ENTRIES := 0xffff
  const MAX_SIZE := 0xffff_ffff

  datatype Entry = Entry(path: Text, bytes: seq<Byte>, time: nat, day: nat)

  /** What is written of an entry: its name in UTF-8, its data and their CRC, whether it is a folder, its date. */
  datatype Put = Put(name: seq<Byte>, bytes: seq<Byte>, crc: nat, folder: bool, time: nat, day: nat)

  function PutOf(e: Entry): Put {
    Put(Encode(e.path), e.bytes, Crc(e.bytes) as int, e.path != [] && e.path[|e.path| - 1] == 47, e.time, e.day)
  }

  // ── Fields ──

  function Read16(s: seq<Byte>, at: nat): nat
    requires at + 2 <= |s|
  {
    (s[at] as int) + 256 * (s[at + 1] as int)
  }

  function Read32(s: seq<Byte>, at: nat): nat
    requires at + 4 <= |s|
  {
    Read16(s, at) + 65536 * Read16(s, at + 2)
  }

  /** Two buffers agree on a stretch. */
  predicate Agree(s: seq<Byte>, t: seq<Byte>, from: nat, to: nat)
    requires from <= to <= |s| && |s| == |t|
  {
    forall i :: from <= i < to ==> s[i] == t[i]
  }

  /** Nothing but this stretch has changed. */
  predicate Changed(s: seq<Byte>, t: seq<Byte>, from: nat, to: nat)
    requires from <= to <= |s| && |s| == |t|
  {
    Agree(s, t, 0, from) && Agree(s, t, to, |s|)
  }

  method SetUint16(a: array<Byte>, at: nat, v: nat)
    requires at + 2 <= a.Length
    modifies a
    ensures Read16(a[..], at) == v % 65536 && Changed(old(a[..]), a[..], at, at + 2)
  {
    a[at] := v % 256;
    a[at + 1] := v / 256 % 256;
    TwoBytes(v);
  }

  method SetUint32(a: array<Byte>, at: nat, v: nat)
    requires at + 4 <= a.Length
    modifies a
    ensures Read32(a[..], at) == v % 0x1_0000_0000 && Changed(old(a[..]), a[..], at, at + 4)
  {
    var high := v / 65536;
    a[at] := v % 256;
    a[at + 1] := v / 256 % 256;
    a[at + 2] := high % 256;
    a[at + 3] := high / 256 % 256;
    TwoBytes(v);
    TwoBytes(high);
    TwoHalves(v);
  }

  lemma TwoBytes(v: nat)
    ensures v % 256 + 256 * (v / 256 % 256) == v % 65536
  {
    var q := v / 256;
    assert v == 256 * q + v % 256;
    assert q == 256 * (q / 256) + q % 256;
  }

  lemma TwoHalves(v: nat)
    ensures v % 65536 + 65536 * (v / 65536 % 65536) == v % 0x1_0000_0000
  {
    var q := v / 65536;
    assert v == 65536 * q + v % 65536;
    assert q == 65536 * (q / 65536) + q % 65536;
  }

  /** Version, flags (names in UTF-8), no compression, time and date. */
  ghost predicate HasDates(h: seq<Byte>, at: nat, e: Put)
    requires at + 10 <= |h|
  {
    && Read16(h, at) == 20 && Read16(h, at + 2) == 0x0800 && Read16(h, at + 4) == 0
    && Read16(h, at + 6) == e.time % 65536 && Read16(h, at + 8) == e.day % 65536
  }

  /** CRC, the size twice, and the length of the name. */
  ghost predicate HasSizes(h: seq<Byte>, at: nat, e: Put)
    requires at + 14 <= |h|
  {
    && Read32(h, at) == e.crc % 0x1_0000_0000
    && Read32(h, at + 4) == Read32(h, at + 8) == |e.bytes| % 0x1_0000_0000
    && Read16(h, at + 12) == |e.name| % 65536
  }

  /** The header before an entry's name and data. */
  ghost predicate IsLocalHeader(h: seq<Byte>, e: Put) {
    |h| == 30 && Read32(h, 0) == 0x0403_4b50 && HasDates(h, 4, e) && HasSizes(h, 14, e) && Read16(h, 28) == 0
  }

  /** The header before an entry's name in the directory. */
  ghost predicate IsDirHeader(h: seq<Byte>, e: Put, offset: nat) {
    && |h| == 46
    && Read32(h, 0) == 0x0201_4b50 && Read16(h, 4) == 20 && HasDates(h, 6, e) && HasSizes(h, 16, e)
    && Read32(h, 30) == 0 && Read32(h, 34) == 0
    && Read32(h, 38) == (if e.folder then 0x10 else 0)
    && Read32(h, 42) == offset % 0x1_0000_0000
  }

  ghost predicate IsEnd(h: seq<Byte>, n: nat, size: nat, offset: nat) {
    && |h| == 22
    && Read32(h, 0) == 0x0605_4b50 && Read32(h, 4) == 0
    && Read16(h, 8) == Read16(h, 10) == n % 65536
    && Read32(h, 12) == size % 0x1_0000_0000 && Read32(h, 16) == offset % 0x1_0000_0000
    && Read16(h, 20) == 0
  }

  lemma SameDates(s: seq<Byte>, t: seq<Byte>, at: nat, e: Put)
    requires |s| == |t| && at + 10 <= |s| && Agree(s, t, at, at + 10) && HasDates(s, at, e)
    ensures HasDates(t, at, e)
  {}

  lemma SameSizes(s: seq<Byte>, t: seq<Byte>, at: nat, e: Put)
    requires |s| == |t| && at + 14 <= |s| && Agree(s, t, at, at + 14) && HasSizes(s, at, e)
    ensures HasSizes(t, at, e)
  {}

  method SetDates(a: array<Byte>, at: nat, e: Put)
    requires at + 10 <= a.Length
    modifies a
    ensures HasDates(a[..], at, e) && Changed(old(a[..]), a[..], at, at + 10)
  {
    SetUint16(a, at, 20);
    SetUint16(a, at + 2, 0x0800);
    SetUint16(a, at + 4, 0);
    SetUint16(a, at + 6, e.time);
    SetUint16(a, at + 8, e.day);
  }

  method SetSizes(a: array<Byte>, at: nat, e: Put)
    requires at + 14 <= a.Length
    modifies a
    ensures HasSizes(a[..], at, e) && Changed(old(a[..]), a[..], at, at + 14)
  {
    SetUint32(a, at, e.crc);
    SetUint32(a, at + 4, |e.bytes|);
    SetUint32(a, at + 8, |e.bytes|);
    SetUint16(a, at + 12, |e.name|);
  }

  method SetSignature(a: array<Byte>)
    requires a.Length == 30
    modifies a
    ensures Read32(a[..], 0) == 0x0403_4b50 && Changed(old(a[..]), a[..], 0, 4)
  {
    SetUint32(a, 0, 0x0403_4b50);
  }

  method SetNoExtra(a: array<Byte>)
    requires a.Length == 30
    modifies a
    ensures Read16(a[..], 28) == 0 && Changed(old(a[..]), a[..], 28, 30)
  {
    SetUint16(a, 28, 0);
  }

  lemma SameLowByte(x: int, high: int, y: int, high': int)
    requires 0 <= x < 256 && 0 <= y < 256 && x + 256 * high == y + 256 * high'
    ensures x == y && high == high'
  {}

  lemma SameBytes(x: int, y: int, z: int, w: int, a: int, b: int, c: int, d: int)
    requires 0 <= x < 256 && 0 <= y < 256 && 0 <= z < 256 && 0 <= w < 256
    requires 0 <= a < 256 && 0 <= b < 256 && 0 <= c < 256 && 0 <= d < 256
    requires x + 256 * y + 65536 * (z + 256 * w) == a + 256 * b + 65536 * (c + 256 * d)
    ensures x == a && y == b && z == c && w == d
  {
    SameLowByte(x, y + 256 * (z + 256 * w), a, b + 256 * (c + 256 * d));
    SameLowByte(y, z + 256 * w, b, c + 256 * d);
    SameLowByte(z, w, c, d);
  }

  /** Four bytes, the low one first. */
  lemma FourBytes(h: seq<Byte>, a: Byte, b: Byte, c: Byte, d: Byte)
    requires |h| >= 4 && Read32(h, 0) == a as int + 256 * b as int + 65536 * (c as int + 256 * d as int)
    ensures h[..4] == [a, b, c, d]
  {
    SameBytes(h[0], h[1], h[2], h[3], a, b, c, d);
  }

  method LocalHeader(e: Put) returns (h: seq<Byte>)
    ensures IsLocalHeader(h, e) && h[..4] == [0x50, 0x4b, 3, 4]
  {
    var a := new Byte[30](_ => 0);
    SetSignature(a);
    ghost var signed := a[..];
    SetDates(a, 4, e);
    ghost var dated := a[..];
    SetSizes(a, 14, e);
    ghost var sized := a[..];
    SetNoExtra(a);
    h := a[..];
    SameSignature(signed, h);
    FourBytes(h, 0x50, 0x4b, 3, 4);
    SameDates(dated, h, 4, e);
    SameSizes(sized, h, 14, e);
  }

  /** Attributes (0x10: a folder, for MS-DOS) and offset. */
  method SetPlace(a: array<Byte>, e: Put, offset: nat)
    requires a.Length == 46
    modifies a
    ensures Read32(a[..], 38) == (if e.folder then 0x10 else 0) && Read32(a[..], 42) == offset % 0x1_0000_0000
    ensures Changed(old(a[..]), a[..], 38, 46)
  {
    SetUint32(a, 38, if e.folder then 0x10 else 0);
    SetUint32(a, 42, offset);
  }

  lemma SameSignature(s: seq<Byte>, t: seq<Byte>)
    requires |s| == |t| && 4 <= |s| && Agree(s, t, 0, 4)
    ensures Read32(s, 0) == Read32(t, 0)
  {}

  lemma SameStart(s: seq<Byte>, t: seq<Byte>)
    requires |s| == |t| && 6 <= |s| && Agree(s, t, 0, 6)
    ensures Read32(s, 0) == Read32(t, 0) && Read16(s, 4) == Read16(t, 4)
  {}

  lemma ZeroGap(s: seq<Byte>, t: seq<Byte>)
    requires |s| == |t| == 46 && Agree(s, t, 30, 38) && forall i :: 30 <= i < 38 ==> s[i] == 0
    ensures Read32(t, 30) == 0 && Read32(t, 34) == 0
  {}

  method SetDirStart(a: array<Byte>)
    requires a.Length == 46
    modifies a
    ensures Read32(a[..], 0) == 0x0201_4b50 && Read16(a[..], 4) == 20 && Changed(old(a[..]), a[..], 0, 6)
  {
    SetUint32(a, 0, 0x0201_4b50);
    SetUint16(a, 4, 20);
  }

  method DirHeader(e: Put, offset: nat) returns (h: seq<Byte>)
    ensures IsDirHeader(h, e, offset) && h[..4] == [0x50, 0x4b, 1, 2]
  {
    var a := new Byte[46](_ => 0);
    ghost var blank := a[..];
    SetDirStart(a);
    ghost var start := a[..];
    SetDates(a, 6, e);
    ghost var dated := a[..];
    SetSizes(a, 16, e);
    ghost var sized := a[..];
    SetPlace(a, e, offset);
    h := a[..];
    SameStart(start, h);
    FourBytes(h, 0x50, 0x4b, 1, 2);
    SameDates(dated, h, 6, e);
    SameSizes(sized, h, 16, e);
    ZeroGap(blank, h);
  }

  lemma SameCounts(s: seq<Byte>, t: seq<Byte>)
    requires |s| == |t| == 22 && Agree(s, t, 0, 12)
    ensures Read32(s, 0) == Read32(t, 0) && Read32(s, 4) == Read32(t, 4)
    ensures Read16(s, 8) == Read16(t, 8) && Read16(s, 10) == Read16(t, 10)
  {}

  /** The signature and the number of entries. */
  method SetCounts(a: array<Byte>, n: nat)
    requires a.Length == 22 && forall i :: 0 <= i < 22 ==> a[i] == 0
    modifies a
    ensures Read32(a[..], 0) == 0x0605_4b50 && Read32(a[..], 4) == 0
    ensures Read16(a[..], 8) == Read16(a[..], 10) == n % 65536
    ensures Changed(old(a[..]), a[..], 0, 12)
  {
    SetUint32(a, 0, 0x0605_4b50);
    SetUint16(a, 8, n);
    SetUint16(a, 10, n);
  }

  method EndHeader(n: nat, size: nat, offset: nat) returns (h: seq<Byte>)
    ensures IsEnd(h, n, size, offset) && h[..4] == [0x50, 0x4b, 5, 6]
  {
    var a := new Byte[22](_ => 0);
    SetCounts(a, n);
    ghost var counted := a[..];
    SetUint32(a, 12, size);
    SetUint32(a, 16, offset);
    h := a[..];
    SameCounts(counted, h);
    FourBytes(h, 0x50, 0x4b, 5, 6);
  }
}
