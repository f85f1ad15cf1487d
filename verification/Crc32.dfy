/**
 * The CRC of an archive (`crc32` of apps/web/src/zipArchive.ts): a table of
 * 256 words, against the bit-at-a-time definition (section 8 of RFC 1952).
 */
module Crc32 {

  type Byte = b: int | 0 <= b < 256

  const POLY: bv32 := 0xedb8_8320

  /** A JavaScript number that fits 32 bits: its bits, and whether they are read as signed. */
  datatype Int32 = Int32(bits: bv32, signed: bool)

  /** `^` takes any number, and gives a signed one. */
  function Xor(a: Int32, b: Int32): Int32 {
    Int32(a.bits ^ b.bits, true)
  }

  function And(a: Int32, b: Int32): Int32 {
    Int32(a.bits & b.bits, true)
  }

  /** `>>>` shifts in zeros whatever the sign, and gives an unsigned number. */
  function ShiftOne(a: Int32): Int32 {
    Int32(a.bits >> 1, false)
  }

  function ShiftEight(a: Int32): Int32 {
    Int32(a.bits >> 8, false)
  }

  function ToUnsigned(a: Int32): Int32 {
    Int32(a.bits, false)
  }

  function ByteOf(b: Byte): Int32 {
    Int32(b as bv32, true)
  }

  // ── Steps of a register, whatever it is made of ──

  function Iter<W>(turn: W -> W, x: W, k: nat): W
    decreases k
  {
    if k == 0 then x else Iter(turn, turn(x), k - 1)
  }

  /** A message of `n` bits comes in, its low bit first. */
  function Serial<W>(take: (W, W) -> W, half: W -> W, c: W, b: W, n: nat): W
    decreases n
  {
    if n == 0 then c else Serial(take, half, take(c, b), half(b), n - 1)
  }

  /** What a step keeps between three registers, any number of steps keep. */
  lemma {:induction false} IterKeeps<W(!new)>(turn: W -> W, rel: (W, W, W) -> bool, a: W, b: W, c: W, k: nat)
    requires forall x, y, z :: rel(x, y, z) ==> rel(turn(x), turn(y), turn(z))
    requires rel(a, b, c)
    ensures rel(Iter(turn, a, k), Iter(turn, b, k), Iter(turn, c, k))
    decreases k
  {
    if k > 0 { IterKeeps(turn, rel, turn(a), turn(b), turn(c), k - 1); }
  }

  /** If a bit can be added before the step as well as after, all can be added first. */
  lemma {:induction false} SerialAtOnce<W(!new)>(take: (W, W) -> W, half: W -> W, turn: W -> W, xor: (W, W) -> W, zero: W,
                                                 c: W, b: W, n: nat)
    requires forall x, y :: xor(take(x, y), half(y)) == turn(xor(x, y))
    requires forall x :: xor(x, zero) == x
    requires Iter(half, b, n) == zero
    ensures Serial(take, half, c, b, n) == Iter(turn, xor(c, b), n)
    decreases n
  {
    if n > 0 { SerialAtOnce(take, half, turn, xor, zero, take(c, b), half(b), n - 1); }
  }

  lemma EightFollow<W>(turn: W -> W, x0: W, x1: W, x2: W, x3: W, x4: W, x5: W, x6: W, x7: W, x8: W)
    requires x1 == turn(x0) && x2 == turn(x1) && x3 == turn(x2) && x4 == turn(x3)
    requires x5 == turn(x4) && x6 == turn(x5) && x7 == turn(x6) && x8 == turn(x7)
    ensures Iter(turn, x0, 8) == x8
  {
    assert Iter(turn, x6, 2) == x8;
    assert Iter(turn, x4, 4) == x8;
    assert Iter(turn, x2, 6) == x8;
  }

  // ── Bit by bit ──

  /** One step of the register: the bit that falls out decides. */
  function Turn(c: bv32): bv32 {
    if c & 1 == 1 then POLY ^ (c >> 1) else c >> 1
  }

  /** The low bit of `b` comes in. */
  function TakeBit(c: bv32, b: bv32): bv32 {
    Turn(c ^ (b & 1))
  }

  function Half(b: bv32): bv32 {
    b >> 1
  }

  function Add(a: bv32, b: bv32): bv32 {
    a ^ b
  }

  /** The eight bits of a byte, the least significant first. */
  function TakeByte(c: bv32, b: Byte): bv32 {
    Serial(TakeBit, Half, c, b as bv32, 8)
  }

  function TakeAll(c: bv32, bytes: seq<Byte>): bv32
    decreases |bytes|
  {
    if bytes == [] then c else TakeAll(TakeByte(c, bytes[0]), bytes[1..])
  }

  /** The CRC-32 of a message. */
  function Crc(bytes: seq<Byte>): bv32 {
    TakeAll(0xffff_ffff, bytes) ^ 0xffff_ffff
  }

  // ── A byte at once ──

  function Mask(low: bv32): bv32 {
    if low == 1 then POLY else 0
  }

  lemma NothingAdded(c: bv32)
    ensures c ^ 0 == c && 0 ^ c == c
  {}

  lemma LowBit(a: bv32)
    ensures a & 1 == 0 || a & 1 == 1
  {}

  /** The same step without a branch. */
  function MaskedTurn(c: bv32): bv32 {
    Mask(c & 1) ^ (c >> 1)
  }

  lemma TurnByMask(c: bv32, m: bv32)
    requires m == Mask(c & 1)
    ensures Turn(c) == m ^ (c >> 1)
  {
    NothingAdded(c >> 1);
    if c & 1 == 1 {
      assert m == POLY;
    } else {
      assert m == 0;
    }
  }

  lemma ShiftXor(a: bv32, b: bv32)
    ensures (a ^ b) >> 1 == (a >> 1) ^ (b >> 1)
    ensures (a ^ b) & 1 == (a & 1) ^ (b & 1)
  {}

  lemma MaskIsLinear(x: bv32, y: bv32)
    requires (x == 0 || x == 1) && (y == 0 || y == 1)
    ensures Mask(x ^ y) == Mask(x) ^ Mask(y)
  {}

  lemma XorSwaps(a: bv32, b: bv32, c: bv32, d: bv32)
    ensures (a ^ b) ^ (c ^ d) == (a ^ c) ^ (b ^ d)
  {}

  lemma MaskedTurnIsLinear(a: bv32, b: bv32)
    ensures MaskedTurn(a ^ b) == MaskedTurn(a) ^ MaskedTurn(b)
  {
    ShiftXor(a, b);
    LowBit(a);
    LowBit(b);
    MaskIsLinear(a & 1, b & 1);
    XorSwaps(Mask(a & 1), Mask(b & 1), a >> 1, b >> 1);
  }

  predicate IsSum(a: bv32, b: bv32, c: bv32) {
    c == a ^ b
  }

  lemma MaskedTurnKeepsSum(a: bv32, b: bv32, c: bv32)
    requires IsSum(a, b, c)
    ensures IsSum(MaskedTurn(a), MaskedTurn(b), MaskedTurn(c))
  {
    MaskedTurnIsLinear(a, b);
  }

  lemma TurnIsMasked(c: bv32)
    ensures Turn(c) == MaskedTurn(c)
  {
    NothingAdded(c >> 1);
  }

  lemma LowBitOnly(c: bv32, b: bv32)
    ensures (c ^ (b & 1)) & 1 == (c ^ b) & 1
    ensures (c ^ (b & 1)) >> 1 == c >> 1
  {}

  lemma XorAssociates(a: bv32, b: bv32, c: bv32)
    ensures (a ^ b) ^ c == a ^ (b ^ c)
  {}

  /** A bit that is still to come can be added before the step. */
  lemma TakeThenAdd(c: bv32, b: bv32)
    ensures Add(TakeBit(c, b), Half(b)) == Turn(Add(c, b))
  {
    var m := Mask((c ^ b) & 1);
    LowBitOnly(c, b);
    ShiftXor(c, b);
    TurnByMask(c ^ (b & 1), m);
    TurnByMask(c ^ b, m);
    XorAssociates(m, c >> 1, b >> 1);
  }

  predicate LowZeros(y: bv32, k: nat)
    decreases k
  {
    k == 0 || (y & 1 == 0 && LowZeros(Half(y), k - 1))
  }

  lemma FallsOnce(y: bv32)
    requires y & 1 == 0
    ensures Turn(y) == Half(y)
  {}

  /** A low zero falls out without a trace. */
  lemma {:induction false} ZerosFall(y: bv32, k: nat)
    requires LowZeros(y, k)
    ensures Iter(Turn, y, k) == Iter(Half, y, k)
    decreases k
  {
    if k > 0 {
      FallsOnce(y);
      ZerosFall(Half(y), k - 1);
    }
  }

  lemma EightHalves(y: bv32)
    ensures Iter(Half, y, 8) == y >> 8
  {
    Shifts(y);
    EightFollow(Half, y, y >> 1, y >> 2, y >> 3, y >> 4, y >> 5, y >> 6, y >> 7, y >> 8);
  }

  lemma LowBitsOf(y: bv32)
    requires y & 0xff == 0
    ensures y & 1 == 0 && (y >> 1) & 1 == 0 && (y >> 2) & 1 == 0 && (y >> 3) & 1 == 0
    ensures (y >> 4) & 1 == 0 && (y >> 5) & 1 == 0 && (y >> 6) & 1 == 0 && (y >> 7) & 1 == 0
  {}

  lemma Shifts(y: bv32)
    ensures (y >> 1) >> 1 == y >> 2 && (y >> 2) >> 1 == y >> 3 && (y >> 3) >> 1 == y >> 4
    ensures (y >> 4) >> 1 == y >> 5 && (y >> 5) >> 1 == y >> 6 && (y >> 6) >> 1 == y >> 7 && (y >> 7) >> 1 == y >> 8
  {}

  lemma EightZeros(y: bv32)
    requires y & 0xff == 0
    ensures LowZeros(y, 8)
  {
    LowBitsOf(y);
    Shifts(y);
    assert LowZeros(y >> 7, 1);
    assert LowZeros(y >> 6, 2);
    assert LowZeros(y >> 5, 3);
    assert LowZeros(y >> 4, 4);
    assert LowZeros(y >> 3, 5);
    assert LowZeros(y >> 2, 6);
    assert LowZeros(y >> 1, 7);
  }

  lemma HighBitsFall(y: bv32)
    requires y & 0xff == 0
    ensures Iter(Turn, y, 8) == y >> 8
  {
    EightZeros(y);
    ZerosFall(y, 8);
    EightHalves(y);
  }

  lemma ByteIsGone(b: bv32)
    requires b < 256
    ensures b >> 8 == 0
  {}

  lemma ByteFits(b: bv32)
    requires b < 256
    ensures Iter(Half, b, 8) == 0
  {
    EightHalves(b);
    ByteIsGone(b);
  }

  lemma AddNothing(c: bv32)
    ensures Add(c, 0) == c
  {}

  /** Taking the bits of a message one by one is adding them all, then as many steps. */
  lemma BitsAtOnce(c: bv32, b: bv32, n: nat)
    requires Iter(Half, b, n) == 0
    ensures Serial(TakeBit, Half, c, b, n) == Iter(Turn, Add(c, b), n)
  {
    forall x, y ensures Add(TakeBit(x, y), Half(y)) == Turn(Add(x, y)) { TakeThenAdd(x, y); }
    forall x ensures Add(x, 0) == x { AddNothing(x); }
    SerialAtOnce(TakeBit, Half, Turn, Add, 0, c, b, n);
  }

  lemma SplitByte(x: bv32)
    ensures IsSum(x & 0xff, x & 0xffff_ff00, x)
    ensures (x & 0xffff_ff00) & 0xff == 0 && (x & 0xffff_ff00) >> 8 == x >> 8
  {}

  /** Steps go through exclusive or. */
  lemma TurnsKeepSum(a: bv32, b: bv32, c: bv32, k: nat)
    requires IsSum(a, b, c)
    ensures IsSum(Iter(Turn, a, k), Iter(Turn, b, k), Iter(Turn, c, k))
  {
    forall x, y, z | IsSum(x, y, z) ensures IsSum(Turn(x), Turn(y), Turn(z)) {
      MaskedTurnKeepsSum(x, y, z);
      TurnIsMasked(x);
      TurnIsMasked(y);
      TurnIsMasked(z);
    }
    IterKeeps(Turn, IsSum, a, b, c, k);
  }

  lemma ByteGoesAway(c: bv32, b: bv32)
    requires b < 256
    ensures Add(c, b) >> 8 == c >> 8
  {}

  /** The low byte and the rest of a register can be stepped apart. */
  lemma TurnsSplit(x: bv32, k: nat, rest: bv32, out: bv32)
    requires rest == Iter(Turn, x & 0xffff_ff00, k) && out == Iter(Turn, x, k)
    ensures IsSum(Iter(Turn, x & 0xff, k), rest, out)
  {
    SplitByte(x);
    TurnsKeepSum(x & 0xff, x & 0xffff_ff00, x, k);
  }

  lemma HighPart(c: bv32, b: bv32, x: bv32)
    requires b < 256 && x == Add(c, b)
    ensures (x & 0xffff_ff00) & 0xff == 0 && (x & 0xffff_ff00) >> 8 == c >> 8
  {
    ByteGoesAway(c, b);
    SplitByte(x);
  }

  lemma RestFalls(hi: bv32, rest: bv32)
    requires hi & 0xff == 0 && rest == hi >> 8
    ensures Iter(Turn, hi, 8) == rest
  {
    HighBitsFall(hi);
  }

  lemma RestOfByte(c: bv32, b: bv32, x: bv32, turns: nat)
    requires b < 256 && x == Add(c, b) && turns == 8
    ensures Iter(Turn, x & 0xffff_ff00, turns) == c >> 8
  {
    HighPart(c, b, x);
    RestFalls(x & 0xffff_ff00, c >> 8);
  }

  /** One byte by the table is eight bits one by one. */
  lemma ByteByTable(c: bv32, b: bv32, x: bv32, out: bv32)
    requires b < 256 && x == Add(c, b) && out == Serial(TakeBit, Half, c, b, 8)
    ensures IsSum(Iter(Turn, x & 0xff, 8), c >> 8, out)
  {
    ByteFits(b);
    BitsAtOnce(c, b, 8);
    RestOfByte(c, b, x, 8);
    TurnsSplit(x, 8, c >> 8, out);
  }

  /** A byte, from what each turn makes of the register. */
  lemma ByteTurns(c: bv32, b: Byte, x0: bv32, x1: bv32, x2: bv32, x3: bv32, x4: bv32, x5: bv32, x6: bv32, x7: bv32, x8: bv32)
    requires x0 == Add(c, b as bv32)
    requires x1 == Turn(x0) && x2 == Turn(x1) && x3 == Turn(x2) && x4 == Turn(x3)
    requires x5 == Turn(x4) && x6 == Turn(x5) && x7 == Turn(x6) && x8 == Turn(x7)
    ensures TakeByte(c, b) == x8
  {
    SmallByte(b);
    ByteFits(b as bv32);
    BitsAtOnce(c, b as bv32, 8);
    EightFollow(Turn, x0, x1, x2, x3, x4, x5, x6, x7, x8);
  }

  lemma CheckDigit1()
    ensures TakeByte(0xffffffff, 49) == 0x7c231048
  {
    ByteTurns(0xffffffff, 49, 0xffffffce, 0x7fffffe7, 0xd2477cd3, 0x849b3d49, 0xaff51d84, 0x57fa8ec2, 0x2bfd4761, 0xf8462090, 0x7c231048);
  }

  lemma CheckDigit2()
    ensures TakeByte(0x7c231048, 50) == 0xb0acbb32
  {
    ByteTurns(0x7c231048, 50, 0x7c23107a, 0x3e11883d, 0xf2b0473e, 0x7958239f, 0xd11492ef, 0x8532ca57, 0xaf21e60b, 0xba287025, 0xb0acbb32);
  }

  lemma CheckDigit3()
    ensures TakeByte(0xb0acbb32, 51) == 0x77b79c2d
  {
    ByteTurns(0xb0acbb32, 51, 0xb0acbb01, 0xb5eedea0, 0x5af76f50, 0x2d7bb7a8, 0x16bddbd4, 0xb5eedea, 0x5af76f5, 0xef6f385a, 0x77b79c2d);
  }

  lemma CheckDigit4()
    ensures TakeByte(0x77b79c2d, 52) == 0x641c1f5c
  {
    ByteTurns(0x77b79c2d, 52, 0x77b79c19, 0xd6634d2c, 0x6b31a696, 0x3598d34b, 0xf774ea85, 0x9602f662, 0x4b017b31, 0xc8383eb8, 0x641c1f5c);
  }

  lemma CheckDigit5()
    ensures TakeByte(0x641c1f5c, 53) == 0x340ac5e3
  {
    ByteTurns(0x641c1f5c, 53, 0x641c1f69, 0xdfb68c94, 0x6fdb464a, 0x37eda325, 0xf64e52b2, 0x7b272959, 0xd02b178c, 0x68158bc6, 0x340ac5e3);
  }

  lemma CheckDigit6()
    ensures TakeByte(0x340ac5e3, 54) == 0xf68d2c9e
  {
    ByteTurns(0x340ac5e3, 54, 0x340ac5d5, 0xf7bde1ca, 0x7bdef0e5, 0xd057fb52, 0x682bfda9, 0xd9ad7df4, 0x6cd6befa, 0x366b5f7d, 0xf68d2c9e);
  }

  lemma CheckDigit7()
    ensures TakeByte(0xf68d2c9e, 55) == 0xaffc9660
  {
    ByteTurns(0xf68d2c9e, 55, 0xf68d2ca9, 0x96fe1574, 0x4b7f0aba, 0x25bf855d, 0xff67418e, 0x7fb3a0c7, 0xd2615343, 0x84882a81, 0xaffc9660);
  }

  lemma CheckDigit8()
    ensures TakeByte(0xaffc9660, 56) == 0x651f2550
  {
    ByteTurns(0xaffc9660, 56, 0xaffc9658, 0x57fe4b2c, 0x2bff2596, 0x15ff92cb, 0xe7474a45, 0x9e1b2602, 0x4f0d9301, 0xca3e4aa0, 0x651f2550);
  }

  lemma CheckDigit9()
    ensures TakeByte(0x651f2550, 57) == 0x340bc6d9
  {
    ByteTurns(0x651f2550, 57, 0x651f2569, 0xdf371194, 0x6f9b88ca, 0x37cdc465, 0xf65e6112, 0x7b2f3089, 0xd02f1b64, 0x68178db2, 0x340bc6d9);
  }

  lemma OneMoreByte(bytes: seq<Byte>, i: nat, c: bv32)
    requires i < |bytes|
    ensures TakeAll(c, bytes[i..]) == TakeAll(TakeByte(c, bytes[i]), bytes[i + 1..])
  {
    assert bytes[i..][0] == bytes[i] && bytes[i..][1..] == bytes[i + 1..];
  }

  /** The digits from 1 to 9. */
  predicate IsDigits(message: seq<Byte>) {
    |message| == 9 && forall i :: 0 <= i < 9 ==> message[i] == 49 + i
  }

  lemma Digit(message: seq<Byte>, i: nat, c: bv32, d: bv32)
    requires IsDigits(message) && i < 9 && TakeByte(c, 49 + i) == d
    ensures TakeAll(c, message[i..]) == TakeAll(d, message[i + 1..])
  {
    assert message[i] == 49 + i;
    OneMoreByte(message, i, c);
  }

  lemma CheckDigits1To3(message: seq<Byte>)
    requires IsDigits(message)
    ensures TakeAll(0xffffffff, message[0..]) == TakeAll(0x77b79c2d, message[3..])
  {
    CheckDigit1();
    Digit(message, 0, 0xffffffff, 0x7c231048);
    CheckDigit2();
    Digit(message, 1, 0x7c231048, 0xb0acbb32);
    CheckDigit3();
    Digit(message, 2, 0xb0acbb32, 0x77b79c2d);
  }

  lemma CheckDigits4To6(message: seq<Byte>)
    requires IsDigits(message)
    ensures TakeAll(0x77b79c2d, message[3..]) == TakeAll(0xf68d2c9e, message[6..])
  {
    CheckDigit4();
    Digit(message, 3, 0x77b79c2d, 0x641c1f5c);
    CheckDigit5();
    Digit(message, 4, 0x641c1f5c, 0x340ac5e3);
    CheckDigit6();
    Digit(message, 5, 0x340ac5e3, 0xf68d2c9e);
  }

  lemma CheckDigits7To9(message: seq<Byte>)
    requires IsDigits(message)
    ensures TakeAll(0xf68d2c9e, message[6..]) == TakeAll(0x340bc6d9, message[9..])
  {
    CheckDigit7();
    Digit(message, 6, 0xf68d2c9e, 0xaffc9660);
    CheckDigit8();
    Digit(message, 7, 0xaffc9660, 0x651f2550);
    CheckDigit9();
    Digit(message, 8, 0x651f2550, 0x340bc6d9);
  }

  /** The check value of this CRC is that of the digits from 1 to 9. */
  lemma CheckValue(message: seq<Byte>)
    requires IsDigits(message)
    ensures Crc(message) == 0xcbf4_3926
  {
    CheckDigits1To3(message);
    CheckDigits4To6(message);
    CheckDigits7To9(message);
    assert message[0..] == message && message[9..] == [];
    assert TakeAll(0x340bc6d9, []) == 0x340bc6d9;
  }

  // ── The class ──

  /** What `turns` steps make of each byte. */
  ghost predicate IsTable(t: seq<bv32>, turns: nat) {
    |t| == 256 && forall n :: 0 <= n < 256 ==> t[n] == Iter(Turn, n as bv32, turns)
  }

  lemma EntryOf(t: seq<bv32>, slot: bv32, turns: nat)
    requires IsTable(t, turns) && slot < 256
    ensures (slot as int) < 256 && t[slot as int] == Iter(Turn, slot, turns)
  {
    assert ((slot as int) as bv32) == slot;
  }

  lemma SmallSlot(x: bv32)
    ensures x & 0xff < 256
  {}

  lemma SmallByte(b: Byte)
    ensures (b as bv32) < 256
  {}

  /** One step, on numbers as JavaScript has them. */
  function TurnNumber(c: Int32): Int32 {
    if And(c, Int32(1, true)).bits == 1 then Xor(Int32(POLY, false), ShiftOne(c)) else ShiftOne(c)
  }

  lemma EntryUpdates(entry: bv32, c: bv32, b: Byte)
    requires entry == Iter(Turn, Add(c, b as bv32) & 0xff, 8)
    ensures IsSum(entry, c >> 8, TakeByte(c, b))
  {
    SmallByte(b);
    ByteByTable(c, b as bv32, Add(c, b as bv32), TakeByte(c, b));
  }

  lemma ByteUpdates(entry: bv32, c: Int32, b: Byte)
    requires entry == Iter(Turn, Add(c.bits, b as bv32) & 0xff, 8)
    ensures Xor(Int32(entry, false), ShiftEight(c)).bits == TakeByte(c.bits, b)
  {
    EntryUpdates(entry, c.bits, b);
  }

  lemma SlotIs(c: Int32, b: Byte)
    ensures And(Xor(c, ByteOf(b)), Int32(0xff, true)).bits == Add(c.bits, b as bv32) & 0xff
  {}

  /** The last of eight turns is the first to let a bit of 128 out. */
  lemma OneTurnIn(turns: nat)
    ensures turns == 8 ==> Iter(Turn, 128, turns) == 0xedb8_8320
  {
    EightFollow(Turn, 0x80, 0x40, 0x20, 0x10, 0x8, 0x4, 0x2, 0x1, 0xedb88320);
  }

  class Summer {
    var table: array?<bv32>

    constructor ()
      ensures Valid() && table == null
    {
      table := null;
    }

    /** The table is made once. */
    ghost predicate Valid()
      reads this, table
    {
      table != null ==> IsTable(table[..], 8)
    }

    method Entry(n: nat, turns: nat) returns (entry: bv32)
      requires n < 256
      ensures entry == Iter(Turn, n as bv32, turns)
    {
      var c := Int32(n as bv32, false);
      for k := 0 to turns
        invariant Iter(Turn, c.bits, turns - k) == Iter(Turn, n as bv32, turns)
      {
        assert And(c, Int32(1, true)).bits == c.bits & 1;
        c := TurnNumber(c);
      }
      entry := ToUnsigned(c).bits;
    }

    method MakeTable(turns: nat) returns (t: array<bv32>)
      ensures fresh(t) && IsTable(t[..], turns)
      ensures turns == 8 ==> t[128] == 0xedb8_8320
    {
      t := new bv32[256];
      for n := 0 to 256
        invariant forall m :: 0 <= m < n ==> t[m] == Iter(Turn, m as bv32, turns)
      {
        var entry := Entry(n, turns);
        t[n] := entry;
      }
      assert t[128] == Iter(Turn, 128, turns);
      OneTurnIn(turns);
    }

    method Look(slot: bv32) returns (entry: bv32)
      requires Valid() && table != null && slot < 256
      ensures entry == Iter(Turn, slot, 8)
    {
      EntryOf(table[..], slot, 8);
      entry := table[slot as int];
    }

    /** One byte, by the table. */
    method Update(c: Int32, b: Byte) returns (c': Int32)
      requires Valid() && table != null
      ensures c'.bits == TakeByte(c.bits, b)
    {
      var slot := And(Xor(c, ByteOf(b)), Int32(0xff, true)).bits;
      SlotIs(c, b);
      SmallSlot(Add(c.bits, b as bv32));
      var entry := Look(slot);
      ByteUpdates(entry, c, b);
      c' := Xor(Int32(entry, false), ShiftEight(c));
    }

    method UpdateAll(from: Int32, bytes: seq<Byte>) returns (c: Int32)
      requires Valid() && table != null
      ensures c.bits == TakeAll(from.bits, bytes)
    {
      c := from;
      ghost var all := TakeAll(from.bits, bytes);
      assert bytes[0..] == bytes;
      for i := 0 to |bytes|
        invariant TakeAll(c.bits, bytes[i..]) == all
      {
        OneMoreByte(bytes, i, c.bits);
        c := Update(c, bytes[i]);
      }
      assert bytes[|bytes|..] == [];
    }

    method Crc32(bytes: seq<Byte>) returns (crc: bv32)
      requires Valid()
      modifies this
      ensures Valid() && crc == Crc(bytes)
    {
      if table == null {
        var t := MakeTable(8);
        table := t;
      }
      var c := UpdateAll(Int32(0xffff_ffff, false), bytes);
      crc := ToUnsigned(Xor(c, Int32(0xffff_ffff, false))).bits;
    }
  }
}
