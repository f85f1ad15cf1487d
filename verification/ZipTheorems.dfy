/** The archive as a whole, and a reader that gets its entries back. */
module ZipTheorems {
  import opened Common
  import opened Crc32
  import opened ZipArchive

  function Concat(bs: seq<seq<Byte>>): seq<Byte> {
    if bs == [] then [] else Concat(bs[..|bs| - 1]) + bs[|bs| - 1]
  }

  /** Where the block `i` starts. */
  function Pos(bs: seq<seq<Byte>>, i: nat): nat
    requires i <= |bs|
  {
    if i == 0 then 0 else Pos(bs, i - 1) + |bs[i - 1]|
  }

  /** What the archive is made of: entries with their headers, directory headers with names, the record at the end. */
  datatype Archive = Archive(blocks: seq<seq<Byte>>, dirs: seq<seq<Byte>>, end: seq<Byte>)

  function Bytes(a: Archive): seq<Byte> {
    Concat(a.blocks) + Concat(a.dirs) + a.end
  }

  ghost predicate IsBlock(b: seq<Byte>, e: Put) {
    |b| == 30 + |e.name| + |e.bytes| && IsLocalHeader(b[..30], e) && b[30..] == e.name + e.bytes
  }

  ghost predicate IsDir(d: seq<Byte>, e: Put, offset: nat) {
    |d| == 46 + |e.name| && IsDirHeader(d[..46], e, offset) && d[46..] == e.name
  }

  ghost predicate BlocksOf(blocks: seq<seq<Byte>>, es: seq<Put>) {
    |blocks| == |es| && forall i :: 0 <= i < |es| ==> IsBlock(blocks[i], es[i])
  }

  /** Each directory entry points at its own block. */
  ghost predicate DirsOf(dirs: seq<seq<Byte>>, blocks: seq<seq<Byte>>, es: seq<Put>) {
    |dirs| == |blocks| == |es| && forall i :: 0 <= i < |es| ==> IsDir(dirs[i], es[i], Pos(blocks, i))
  }

  ghost predicate WellFormed(a: Archive, es: seq<Put>) {
    && BlocksOf(a.blocks, es) && DirsOf(a.dirs, a.blocks, es)
    && IsEnd(a.end, |es|, |Concat(a.dirs)|, |Concat(a.blocks)|)
  }

  /** Bytes of the entries before `i`. */
  function OffsetOf(es: seq<Put>, i: nat): nat
    requires i <= |es|
  {
    if i == 0 then 0 else OffsetOf(es, i - 1) + 30 + |es[i - 1].name| + |es[i - 1].bytes|
  }

  /** None of the first `n` entries is too long, nor starts too far. */
  ghost predicate SizesOk(es: seq<Put>, n: nat)
    requires n <= |es|
  {
    forall i :: 0 <= i < n ==> |es[i].bytes| <= MAX_SIZE && OffsetOf(es, i) <= MAX_SIZE
  }

  lemma {:induction false} ConcatLength(bs: seq<seq<Byte>>)
    ensures |Concat(bs)| == Pos(bs, |bs|)
  {
    if bs != [] {
      ConcatLength(bs[..|bs| - 1]);
      PosOfPrefix(bs, |bs| - 1, |bs| - 1);
    }
  }

  lemma {:induction false} PosOfPrefix(bs: seq<seq<Byte>>, n: nat, i: nat)
    requires i <= n <= |bs|
    ensures Pos(bs[..n], i) == Pos(bs, i)
  {
    if i > 0 { PosOfPrefix(bs, n, i - 1); }
  }

  /** Each block is found at its place. */
  lemma {:induction false} BlockAt(bs: seq<seq<Byte>>, i: nat)
    requires i < |bs|
    ensures Pos(bs, i) + |bs[i]| <= |Concat(bs)|
    ensures Concat(bs)[Pos(bs, i)..Pos(bs, i) + |bs[i]|] == bs[i]
  {
    var n := |bs| - 1;
    var front := bs[..n];
    ConcatLength(front);
    PosOfPrefix(bs, n, n);
    if i < n {
      BlockAt(front, i);
      PosOfPrefix(bs, n, i);
    }
  }

  lemma {:induction false} OffsetIsPos(blocks: seq<seq<Byte>>, es: seq<Put>, i: nat)
    requires |blocks| == |es| && (forall k :: 0 <= k < |es| ==> IsBlock(blocks[k], es[k])) && i <= |es|
    ensures OffsetOf(es, i) == Pos(blocks, i)
  {
    if i > 0 { OffsetIsPos(blocks, es, i - 1); }
  }

  // ── Writing ──

  lemma BlockMade(h: seq<Byte>, e: Put)
    requires IsLocalHeader(h, e)
    ensures IsBlock(h + e.name + e.bytes, e)
  {
    var b := h + e.name + e.bytes;
    assert b[..30] == h && b[30..] == e.name + e.bytes;
  }

  lemma DirMade(h: seq<Byte>, e: Put, offset: nat)
    requires IsDirHeader(h, e, offset)
    ensures IsDir(h + e.name, e, offset)
  {
    assert (h + e.name)[..46] == h && (h + e.name)[46..] == e.name;
  }

  lemma OneMoreBlock(blocks: seq<seq<Byte>>, b: seq<Byte>, es: seq<Put>, i: nat)
    requires i < |es| && BlocksOf(blocks, es[..i]) && IsBlock(b, es[i])
    ensures BlocksOf(blocks + [b], es[..i + 1])
    ensures Concat(blocks + [b]) == Concat(blocks) + b
  {
    assert (blocks + [b])[..|blocks|] == blocks;
  }

  lemma OneMoreDir(dirs: seq<seq<Byte>>, d: seq<Byte>, blocks: seq<seq<Byte>>, b: seq<Byte>, es: seq<Put>, i: nat)
    requires i < |es| && DirsOf(dirs, blocks, es[..i]) && IsDir(d, es[i], |Concat(blocks)|)
    ensures DirsOf(dirs + [d], blocks + [b], es[..i + 1])
    ensures Concat(dirs + [d]) == Concat(dirs) + d
  {
    ConcatLength(blocks);
    var all := blocks + [b];
    assert (dirs + [d])[..|dirs|] == dirs && all[..i] == blocks;
    forall k | 0 <= k < i + 1 ensures IsDir((dirs + [d])[k], es[..i + 1][k], Pos(all, k)) {
      PosOfPrefix(all, i, k);
      if k < i { assert IsDir(dirs[k], es[..i][k], Pos(blocks, k)); }
    }
  }

  lemma {:induction false} OffsetOfPrefix(es: seq<Put>, n: nat, i: nat)
    requires i <= n <= |es|
    ensures OffsetOf(es[..n], i) == OffsetOf(es, i)
  {
    if i > 0 { OffsetOfPrefix(es, n, i - 1); }
  }

  /** The headers of one entry, with what follows them. */
  method MakeEntry(e: Put, offset: nat) returns (block: seq<Byte>, dir: seq<Byte>)
    ensures IsBlock(block, e) && IsDir(dir, e, offset)
  {
    var local := LocalHeader(e);
    var d := DirHeader(e, offset);
    BlockMade(local, e);
    DirMade(d, e, offset);
    block := local + e.name + e.bytes;
    dir := d + e.name;
  }

  /** What has been written when `i` entries are. */
  ghost predicate Written(parts: seq<seq<Byte>>, central: seq<seq<Byte>>, es: seq<Put>, i: nat, offset: nat, size: nat)
    requires i <= |es|
  {
    && BlocksOf(parts, es[..i]) && DirsOf(central, parts, es[..i])
    && offset == |Concat(parts)| == OffsetOf(es, i) && size == |Concat(central)|
  }

  lemma OneMoreEntry(parts: seq<seq<Byte>>, central: seq<seq<Byte>>, es: seq<Put>, i: nat, offset: nat, size: nat,
                     block: seq<Byte>, dir: seq<Byte>)
    requires i < |es| && Written(parts, central, es, i, offset, size)
    requires IsBlock(block, es[i]) && IsDir(dir, es[i], offset)
    ensures Written(parts + [block], central + [dir], es, i + 1,
                    offset + 30 + |es[i].name| + |es[i].bytes|, size + 46 + |es[i].name|)
  {
    OneMoreBlock(parts, block, es, i);
    OneMoreDir(central, dir, parts, block, es, i);
  }

  method AddEntry(parts: seq<seq<Byte>>, central: seq<seq<Byte>>, es: seq<Put>, i: nat, offset: nat, size: nat)
    returns (parts': seq<seq<Byte>>, central': seq<seq<Byte>>, offset': nat, size': nat)
    requires i < |es| && Written(parts, central, es, i, offset, size)
    ensures Written(parts', central', es, i + 1, offset', size')
  {
    var block, dir := MakeEntry(es[i], offset);
    OneMoreEntry(parts, central, es, i, offset, size, block, dir);
    parts' := parts + [block];
    central' := central + [dir];
    offset' := offset + 30 + |es[i].name| + |es[i].bytes|;
    size' := size + 46 + |es[i].name|;
  }

  /** The entries one after another, as long as they fit. */
  method WriteEntries(es: seq<Put>)
    returns (ok: bool, parts: seq<seq<Byte>>, central: seq<seq<Byte>>, offset: nat, size: nat)
    ensures ok <==> SizesOk(es, |es|)
    ensures ok ==> Written(parts, central, es, |es|, offset, size)
  {
    ok, parts, central, offset, size := true, [], [], 0, 0;
    NothingWritten(es);
    for i := 0 to |es|
      invariant ok && Written(parts, central, es, i, offset, size)
      invariant SizesOk(es, i)
    {
      WrittenOffset(parts, central, es, i, offset, size);
      if |es[i].bytes| > MAX_SIZE || offset > MAX_SIZE {
        ok := false;
        return;
      }
      parts, central, offset, size := AddEntry(parts, central, es, i, offset, size);
    }
  }

  lemma NothingWritten(es: seq<Put>)
    ensures Written([], [], es, 0, 0, 0)
  {}

  lemma WrittenOffset(parts: seq<seq<Byte>>, central: seq<seq<Byte>>, es: seq<Put>, i: nat, offset: nat, size: nat)
    requires i <= |es| && Written(parts, central, es, i, offset, size)
    ensures offset == OffsetOf(es, i)
  {}

  lemma AllWritten(parts: seq<seq<Byte>>, central: seq<seq<Byte>>, es: seq<Put>, offset: nat, size: nat, end: seq<Byte>)
    requires Written(parts, central, es, |es|, offset, size) && IsEnd(end, |es|, size, offset)
    ensures WellFormed(Archive(parts, central, end), es)
  {
    assert es[..|es|] == es;
  }

  /** Refused above the limits of the format, as far as they are checked; otherwise an archive of these entries. */
  method WriteArchive(es: seq<Put>) returns (r: Result<Archive, ()>)
    ensures r.Ok? <==> |es| <= MAX_ENTRIES && SizesOk(es, |es|)
    ensures r.Ok? ==> WellFormed(r.value, es)
  {
    if |es| > MAX_ENTRIES { return Err(()); }
    var ok, parts, central, offset, size := WriteEntries(es);
    if !ok { return Err(()); }
    var end := EndHeader(|es|, size, offset);
    AllWritten(parts, central, es, offset, size, end);
    r := Ok(Archive(parts, central, end));
  }

  // ── A reader ──

  /** A date as a header has it, in two words. */
  datatype Moment = Moment(time: nat, day: nat)

  /** `utf8`: the flag that says so of the name (bit 11). `date` is that of the directory, `localDate` that of the header before the data. */
  datatype Item = Item(name: seq<Byte>, utf8: bool, bytes: seq<Byte>, crc: nat, folder: bool, date: Moment, localDate: Moment)

  /** What a reader takes from a local header: signature, date, length of the name, length of the extra field. */
  datatype Local = Local(signature: nat, date: Moment, nameLength: nat, extraLength: nat)

  function LocalAt(z: seq<Byte>, o: nat): Local
    requires o + 30 <= |z|
  {
    Local(Read32(z, o), Moment(Read16(z, o + 10), Read16(z, o + 12)), Read16(z, o + 26), Read16(z, o + 28))
  }

  datatype Stored = Stored(date: Moment, bytes: seq<Byte>)

  /** The data of an entry: the local header says how far behind it starts. */
  function ReadData(z: seq<Byte>, o: nat, size: nat): Option<Stored> {
    if o + 30 > |z| then None else
      var l := LocalAt(z, o);
      var start := o + 30 + l.nameLength + l.extraLength;
      if l.signature != 0x0403_4b50 || start + size > |z| then None
      else Some(Stored(l.date, z[start..start + size]))
  }

  /** What a reader takes from a directory header. */
  datatype Dir = Dir(signature: nat, flags: nat, compression: nat, date: Moment, crc: nat, size: nat,
                     nameLength: nat, extraLength: nat, commentLength: nat, attributes: nat, offset: nat)

  function DirAt(z: seq<Byte>, p: nat): Dir
    requires p + 46 <= |z|
  {
    Dir(Read32(z, p), Read16(z, p + 8), Read16(z, p + 10), Moment(Read16(z, p + 12), Read16(z, p + 14)), Read32(z, p + 16), Read32(z, p + 20),
        Read16(z, p + 28), Read16(z, p + 30), Read16(z, p + 32), Read32(z, p + 38), Read32(z, p + 42))
  }

  function ItemFrom(z: seq<Byte>, p: nat, d: Dir): Option<Item>
    requires p + 46 <= |z|
  {
    var data := ReadData(z, d.offset, d.size);
    if d.signature != 0x0201_4b50 || d.compression != 0 || p + 46 + d.nameLength > |z| || data.None? then None
    else
      var name := z[p + 46..p + 46 + d.nameLength];
      Some(Item(name, d.flags / 2048 % 2 == 1, data.value.bytes, d.crc, d.attributes / 16 % 2 == 1, d.date, data.value.date))
  }

  function ReadItem(z: seq<Byte>, p: nat): (r: Option<Item>)
    ensures r.Some? ==> |r.value.name| < 65536
  {
    if p + 46 > |z| then None else ItemFrom(z, p, DirAt(z, p))
  }

  /** The next header of the directory is after the name, the extra field and the comment. */
  function NextDir(z: seq<Byte>, p: nat): nat {
    if p + 46 > |z| then p else
      var d := DirAt(z, p);
      p + 46 + d.nameLength + d.extraLength + d.commentLength
  }

  /** So many items in a row, each telling where the next one is. */
  function Series<T>(read: nat -> Option<T>, next: nat -> nat, p: nat, count: nat): Option<seq<T>>
    decreases count
  {
    if count == 0 then Some([]) else
      var item := read(p);
      if item.None? then None else
        var rest := Series(read, next, next(p), count - 1);
        if rest.None? then None else Some([item.value] + rest.value)
  }

  function ReadDirectory(z: seq<Byte>, p: nat, count: nat): Option<seq<Item>> {
    Series(q => ReadItem(z, q), q => NextDir(z, q), p, count)
  }

  /** What a reader takes from the record at the end. */
  datatype End = End(signature: nat, count: nat, offset: nat, commentLength: nat)

  function EndAt(z: seq<Byte>, p: nat): End
    requires p + 22 <= |z|
  {
    End(Read32(z, p), Read16(z, p + 10), Read32(z, p + 16), Read16(z, p + 20))
  }

  /** From the record at the end, without a comment, to the directory it points at. */
  function ReadZip(z: seq<Byte>): Option<seq<Item>> {
    if |z| < 22 then None else
      var e := EndAt(z, |z| - 22);
      if e.signature != 0x0605_4b50 || e.commentLength != 0 then None else ReadDirectory(z, e.offset, e.count)
  }

  lemma {:induction false} SeriesRead<T>(read: nat -> Option<T>, next: nat -> nat, ps: seq<nat>, items: seq<T>, i: nat)
    requires |ps| == |items| + 1 && i <= |items|
    requires forall k :: i <= k < |items| ==> read(ps[k]) == Some(items[k]) && ps[k + 1] == next(ps[k])
    ensures Series(read, next, ps[i], |items| - i) == Some(items[i..])
    decreases |items| - i
  {
    if i < |items| {
      SeriesRead(read, next, ps, items, i + 1);
      assert items[i..] == [items[i]] + items[i + 1..];
    }
  }

  /** One item misread is enough for another result. */
  lemma {:induction false} SeriesDiffers<T>(read: nat -> Option<T>, next: nat -> nat, ps: seq<nat>, items: seq<T>, i: nat, k: nat)
    requires |ps| == |items| + 1 && i <= k < |items|
    requires forall j :: i <= j < k ==> read(ps[j]) == Some(items[j]) && ps[j + 1] == next(ps[j])
    requires read(ps[k]) != Some(items[k])
    ensures Series(read, next, ps[i], |items| - i) != Some(items[i..])
    decreases |items| - i
  {
    assert items[i..] == [items[i]] + items[i + 1..];
    if i < k {
      SeriesDiffers(read, next, ps, items, i + 1, k);
      var rest := Series(read, next, ps[i + 1], |items| - i - 1);
      if rest.Some? { assert ([items[i]] + rest.value)[1..] == rest.value && items[i..][1..] == items[i + 1..]; }
    } else {
      var rest := Series(read, next, next(ps[i]), |items| - i - 1);
      if read(ps[i]).Some? && rest.Some? { assert ([read(ps[i]).value] + rest.value)[0] == read(ps[i]).value; }
    }
  }

  function DateOf(e: Put): Moment {
    Moment(e.time % 65536, e.day % 65536)
  }

  function ItemOf(e: Put): Item {
    Item(e.name, true, e.bytes, e.crc, e.folder, DateOf(e), DateOf(e))
  }

  function ItemsOf(es: seq<Put>): (items: seq<Item>)
    ensures |items| == |es| && forall i :: 0 <= i < |es| ==> items[i] == ItemOf(es[i])
  {
    seq(|es|, i requires 0 <= i < |es| => ItemOf(es[i]))
  }

  /** Bytes found in a larger text can be read there. */
  ghost predicate At(z: seq<Byte>, p: nat, b: seq<Byte>) {
    p + |b| <= |z| && z[p..p + |b|] == b
  }

  lemma ReadThere(z: seq<Byte>, p: nat, b: seq<Byte>, k: nat)
    requires At(z, p, b) && k + 2 <= |b|
    ensures Read16(z, p + k) == Read16(b, k)
    ensures k + 4 <= |b| ==> Read32(z, p + k) == Read32(b, k)
  {
    assert b[k] == z[p + k] && b[k + 1] == z[p + k + 1];
    if k + 4 <= |b| { assert b[k + 2] == z[p + k + 2] && b[k + 3] == z[p + k + 3]; }
  }

  lemma PartThere(z: seq<Byte>, p: nat, b: seq<Byte>, i: nat, j: nat)
    requires At(z, p, b) && i <= j <= |b|
    ensures At(z, p + i, b[i..j])
  {
    var c := b[i..j];
    forall k | 0 <= k < |c| ensures c[k] == z[p + i..p + j][k] {
      assert b[i + k] == z[p..p + |b|][i + k];
    }
    assert |c| == j - i && p + i + |c| == p + j;
  }

  lemma LocalRead(z: seq<Byte>, o: nat, b: seq<Byte>, e: Put)
    requires At(z, o, b) && IsBlock(b, e) && |e.name| < 65536
    ensures o + 30 <= |z| && LocalAt(z, o) == Local(0x0403_4b50, DateOf(e), |e.name|, 0)
  {
    var h := b[..30];
    PartThere(z, o, b, 0, 30);
    ReadThere(z, o, h, 0);
    ReadThere(z, o, h, 10);
    ReadThere(z, o, h, 12);
    ReadThere(z, o, h, 26);
    ReadThere(z, o, h, 28);
    assert HasDates(h, 4, e) && HasSizes(h, 14, e) && Read16(h, 26) == |e.name|;
  }

  lemma DataThere(z: seq<Byte>, o: nat, b: seq<Byte>, e: Put)
    requires At(z, o, b) && |b| == 30 + |e.name| + |e.bytes| && b[30..] == e.name + e.bytes
    ensures At(z, o + 30 + |e.name|, e.bytes)
  {
    PartThere(z, o, b, 30 + |e.name|, |b|);
    assert b[30..][|e.name|..] == e.bytes;
    assert b[30 + |e.name|..|b|] == b[30..][|e.name|..];
  }

  lemma DataRead(z: seq<Byte>, o: nat, date: Moment, name: nat, bytes: seq<Byte>)
    requires o + 30 <= |z| && LocalAt(z, o) == Local(0x0403_4b50, date, name, 0) && At(z, o + 30 + name, bytes)
    ensures ReadData(z, o, |bytes|) == Some(Stored(date, bytes))
  {}

  function DirFor(e: Put, offset: nat): Dir {
    Dir(0x0201_4b50, 0x0800, 0, DateOf(e), e.crc, |e.bytes|, |e.name| % 65536, 0, 0, if e.folder then 0x10 else 0, offset)
  }

  /** What a directory header says, once it is found. */
  ghost predicate DirSays(z: seq<Byte>, p: nat, e: Put, offset: nat) {
    p + 46 <= |z| && DirAt(z, p) == DirFor(e, offset)
  }

  predicate Fits32(n: int) {
    0 <= n < 0x1_0000_0000
  }

  lemma DirHeaderFields(h: seq<Byte>, e: Put, offset: nat)
    requires IsDirHeader(h, e, offset) && Fits32(offset) && Fits32(|e.bytes|) && Fits32(e.crc)
    ensures Read32(h, 0) == 0x0201_4b50 && Read16(h, 8) == 0x0800 && Read16(h, 10) == 0 && Moment(Read16(h, 12), Read16(h, 14)) == DateOf(e)
    ensures Read32(h, 16) == e.crc && Read32(h, 20) == |e.bytes|
    ensures Read16(h, 28) == |e.name| % 65536 && Read16(h, 30) == 0 && Read16(h, 32) == 0
    ensures Read32(h, 38) == (if e.folder then 0x10 else 0) && Read32(h, 42) == offset
  {
    assert HasDates(h, 6, e) && HasSizes(h, 16, e);
    assert Read32(h, 30) == Read16(h, 30) + 65536 * Read16(h, 32);
  }

  lemma DirRead(z: seq<Byte>, p: nat, d: seq<Byte>, e: Put, offset: nat)
    requires At(z, p, d) && IsDir(d, e, offset) && Fits32(offset) && Fits32(|e.bytes|) && Fits32(e.crc)
    ensures DirSays(z, p, e, offset)
  {
    var h := d[..46];
    PartThere(z, p, d, 0, 46);
    DirHeaderFields(h, e, offset);
    ReadThere(z, p, h, 0);
    ReadThere(z, p, h, 8);
    ReadThere(z, p, h, 10);
    ReadThere(z, p, h, 12);
    ReadThere(z, p, h, 14);
    ReadThere(z, p, h, 16);
    ReadThere(z, p, h, 20);
    ReadThere(z, p, h, 28);
    ReadThere(z, p, h, 30);
    ReadThere(z, p, h, 32);
    ReadThere(z, p, h, 38);
    ReadThere(z, p, h, 42);
  }

  lemma ItemRead(z: seq<Byte>, p: nat, e: Put, offset: nat)
    requires p + 46 <= |z| && At(z, p + 46, e.name) && |e.name| < 65536
    requires ReadData(z, offset, |e.bytes|) == Some(Stored(DateOf(e), e.bytes))
    ensures ItemFrom(z, p, DirFor(e, offset)) == Some(ItemOf(e))
  {}

  lemma NameThere(z: seq<Byte>, p: nat, d: seq<Byte>, e: Put, offset: nat)
    requires At(z, p, d) && IsDir(d, e, offset)
    ensures At(z, p + 46, e.name)
  {
    PartThere(z, p, d, 46, |d|);
    assert d[46..|d|] == d[46..];
  }

  // ── The whole archive ──

  /** Names that 16 bits can measure. */
  predicate NamesFit(es: seq<Put>) {
    forall i :: 0 <= i < |es| ==> |es[i].name| < 65536
  }

  ghost predicate Measured(a: Archive, es: seq<Put>) {
    && WellFormed(a, es) && |es| <= MAX_ENTRIES && Fits32(|Concat(a.blocks)|)
    && forall i :: 0 <= i < |es| ==> Fits32(es[i].crc)
  }

  /** Where the directory entry `i` is in the archive. */
  function DirPos(a: Archive, i: nat): nat
    requires i <= |a.dirs|
  {
    |Concat(a.blocks)| + Pos(a.dirs, i)
  }

  lemma PiecesThere(a: Archive, i: nat)
    requires i < |a.dirs| == |a.blocks|
    ensures At(Bytes(a), Pos(a.blocks, i), a.blocks[i])
    ensures At(Bytes(a), DirPos(a, i), a.dirs[i])
    ensures DirPos(a, i + 1) == DirPos(a, i) + |a.dirs[i]|
  {
    var z, blocks, dirs := Bytes(a), Concat(a.blocks), Concat(a.dirs);
    BlockAt(a.blocks, i);
    BlockAt(a.dirs, i);
    var o, b := Pos(a.blocks, i), a.blocks[i];
    assert z[o..o + |b|] == blocks[o..o + |b|];
    var q, d := Pos(a.dirs, i), a.dirs[i];
    assert z[|blocks| + q..|blocks| + q + |d|] == dirs[q..q + |d|];
  }

  lemma SizesFit(a: Archive, es: seq<Put>, i: nat)
    requires Measured(a, es) && i < |es|
    ensures Fits32(|es[i].bytes|) && Fits32(Pos(a.blocks, i)) && Fits32(es[i].crc)
    ensures IsBlock(a.blocks[i], es[i]) && IsDir(a.dirs[i], es[i], Pos(a.blocks, i))
  {
    BlockAt(a.blocks, i);
  }

  lemma BlockRead(z: seq<Byte>, o: nat, b: seq<Byte>, e: Put)
    requires At(z, o, b) && IsBlock(b, e) && |e.name| < 65536
    ensures ReadData(z, o, |e.bytes|) == Some(Stored(DateOf(e), e.bytes))
  {
    LocalRead(z, o, b, e);
    DataThere(z, o, b, e);
    DataRead(z, o, DateOf(e), |e.name|, e.bytes);
  }

  lemma EntryRead(z: seq<Byte>, p: nat, o: nat, d: seq<Byte>, b: seq<Byte>, e: Put)
    requires At(z, p, d) && At(z, o, b) && IsDir(d, e, o) && IsBlock(b, e)
    requires Fits32(o) && Fits32(|e.bytes|) && Fits32(e.crc) && |e.name| < 65536
    ensures ReadItem(z, p) == Some(ItemOf(e)) && NextDir(z, p) == p + |d|
  {
    DirRead(z, p, d, e, o);
    BlockRead(z, o, b, e);
    NameThere(z, p, d, e, o);
    ItemRead(z, p, e, o);
  }

  function DirPlaces(a: Archive): (ps: seq<nat>)
    ensures |ps| == |a.dirs| + 1 && forall i :: 0 <= i <= |a.dirs| ==> ps[i] == DirPos(a, i)
  {
    seq(|a.dirs| + 1, i requires 0 <= i <= |a.dirs| => DirPos(a, i))
  }

  lemma PlaceRead(a: Archive, es: seq<Put>, z: seq<Byte>, i: nat)
    requires Measured(a, es) && z == Bytes(a) && i < |es| && |es[i].name| < 65536
    ensures ReadItem(z, DirPos(a, i)) == Some(ItemOf(es[i])) && DirPos(a, i + 1) == NextDir(z, DirPos(a, i))
  {
    PiecesThere(a, i);
    SizesFit(a, es, i);
    EntryRead(z, DirPos(a, i), Pos(a.blocks, i), a.dirs[i], a.blocks[i], es[i]);
  }

  lemma PlacesRead(a: Archive, es: seq<Put>, z: seq<Byte>, n: nat)
    requires Measured(a, es) && z == Bytes(a) && n <= |es| && forall i :: 0 <= i < n ==> |es[i].name| < 65536
    ensures forall i :: 0 <= i < n ==>
      && ReadItem(z, DirPlaces(a)[i]) == Some(ItemsOf(es)[i])
      && DirPlaces(a)[i + 1] == NextDir(z, DirPlaces(a)[i])
  {
    forall i | 0 <= i < n
      ensures ReadItem(z, DirPlaces(a)[i]) == Some(ItemsOf(es)[i]) && DirPlaces(a)[i + 1] == NextDir(z, DirPlaces(a)[i])
    {
      PlaceRead(a, es, z, i);
    }
  }

  lemma DirectoryRead(z: seq<Byte>, ps: seq<nat>, items: seq<Item>)
    requires |ps| == |items| + 1
    requires forall i :: 0 <= i < |items| ==> ReadItem(z, ps[i]) == Some(items[i]) && ps[i + 1] == NextDir(z, ps[i])
    ensures ReadDirectory(z, ps[0], |items|) == Some(items)
  {
    SeriesRead(q => ReadItem(z, q), q => NextDir(z, q), ps, items, 0);
    assert items[0..] == items;
  }

  lemma LongNameSeries(read: nat -> Option<Item>, next: nat -> nat, ps: seq<nat>, items: seq<Item>, k: nat)
    requires |ps| == |items| + 1 && k < |items| && |items[k].name| >= 65536
    requires forall q :: read(q).Some? ==> |read(q).value.name| < 65536
    requires forall i :: 0 <= i < k ==> read(ps[i]) == Some(items[i]) && ps[i + 1] == next(ps[i])
    ensures Series(read, next, ps[0], |items|) != Some(items)
  {
    SeriesDiffers(read, next, ps, items, 0, k);
    assert items[0..] == items;
  }

  lemma LongNameLost(z: seq<Byte>, ps: seq<nat>, items: seq<Item>, k: nat)
    requires |ps| == |items| + 1 && k < |items| && |items[k].name| >= 65536
    requires forall i :: 0 <= i < k ==> ReadItem(z, ps[i]) == Some(items[i]) && ps[i + 1] == NextDir(z, ps[i])
    ensures ReadDirectory(z, ps[0], |items|) != Some(items)
  {
    LongNameSeries((q: nat) => ReadItem(z, q), (q: nat) => NextDir(z, q), ps, items, k);
  }

  lemma EndThere(a: Archive)
    ensures At(Bytes(a), |Concat(a.blocks)| + |Concat(a.dirs)|, a.end)
    ensures |Bytes(a)| == |Concat(a.blocks)| + |Concat(a.dirs)| + |a.end|
  {
    var front := Concat(a.blocks) + Concat(a.dirs);
    assert (front + a.end)[|front|..] == a.end;
  }

  lemma EndRead(z: seq<Byte>, end: seq<Byte>, n: nat, size: nat, offset: nat)
    requires 22 <= |z| && At(z, |z| - 22, end) && IsEnd(end, n, size, offset) && n <= MAX_ENTRIES && Fits32(offset)
    ensures EndAt(z, |z| - 22) == End(0x0605_4b50, n, offset, 0)
  {
    ReadThere(z, |z| - 22, end, 0);
    ReadThere(z, |z| - 22, end, 10);
    ReadThere(z, |z| - 22, end, 16);
    ReadThere(z, |z| - 22, end, 20);
  }

  lemma EndLeads(z: seq<Byte>, n: nat, offset: nat)
    requires 22 <= |z| && EndAt(z, |z| - 22) == End(0x0605_4b50, n, offset, 0)
    ensures ReadZip(z) == ReadDirectory(z, offset, n)
  {}

  lemma FirstPlace(a: Archive)
    ensures DirPlaces(a)[0] == |Concat(a.blocks)|
  {}

  lemma ArchiveEnds(a: Archive, z: seq<Byte>, n: nat, size: nat, offset: nat)
    requires z == Bytes(a) && IsEnd(a.end, n, size, offset) && n <= MAX_ENTRIES && Fits32(offset)
    ensures 22 <= |z| && EndAt(z, |z| - 22) == End(0x0605_4b50, n, offset, 0)
  {
    EndThere(a);
    EndRead(z, a.end, n, size, offset);
  }

  lemma ArchiveLeads(a: Archive, es: seq<Put>, z: seq<Byte>)
    requires Measured(a, es) && z == Bytes(a)
    ensures ReadZip(z) == ReadDirectory(z, DirPlaces(a)[0], |es|)
  {
    ArchiveEnds(a, z, |es|, |Concat(a.dirs)|, |Concat(a.blocks)|);
    EndLeads(z, |es|, |Concat(a.blocks)|);
    FirstPlace(a);
  }

  /** The reader gets back the names, the data, the CRCs, the folders and the dates of both headers. */
  lemma ZipRoundTrip(a: Archive, es: seq<Put>)
    requires Measured(a, es) && NamesFit(es)
    ensures ReadZip(Bytes(a)) == Some(ItemsOf(es))
  {
    ArchiveLeads(a, es, Bytes(a));
    PlacesRead(a, es, Bytes(a), |es|);
    DirectoryRead(Bytes(a), DirPlaces(a), ItemsOf(es));
  }

  lemma {:induction false} FirstLongName(es: seq<Put>, n: nat) returns (k: nat)
    requires n <= |es| && exists i :: 0 <= i < n && |es[i].name| >= 65536
    ensures k < n && |es[k].name| >= 65536 && forall i :: 0 <= i < k ==> |es[i].name| < 65536
  {
    if i :| 0 <= i < n - 1 && |es[i].name| >= 65536 {
      k := FirstLongName(es, n - 1);
    } else {
      k := n - 1;
    }
  }

  /** Nothing checks the length of a name: what comes back is what went in exactly when all names fit 16 bits. */
  lemma ReadableExactly(a: Archive, es: seq<Put>)
    requires Measured(a, es)
    ensures ReadZip(Bytes(a)) == Some(ItemsOf(es)) <==> NamesFit(es)
  {
    if NamesFit(es) {
      ZipRoundTrip(a, es);
    } else {
      var k := FirstLongName(es, |es|);
      ArchiveLeads(a, es, Bytes(a));
      PlacesRead(a, es, Bytes(a), k);
      LongNameLost(Bytes(a), DirPlaces(a), ItemsOf(es), k);
    }
  }
}
