/** From the files of a vault to an archive (`createZip` of apps/web/src/zipArchive.ts), and back. */
module ZipExport {
  import opened Common
  import opened Crc32
  import opened Utf8
  import opened ZipArchive
  import opened ZipTheorems

  function PutsOf(es: seq<Entry>): (ps: seq<Put>)
    ensures |ps| == |es| && forall i :: 0 <= i < |es| ==> ps[i] == PutOf(es[i])
  {
    seq(|es|, i requires 0 <= i < |es| => PutOf(es[i]))
  }

  predicate SumsFit(ps: seq<Put>) {
    forall i :: 0 <= i < |ps| ==> Fits32(ps[i].crc)
  }

  method MakePuts(summer: Summer, entries: seq<Entry>) returns (ps: seq<Put>)
    requires summer.Valid()
    modifies summer
    ensures summer.Valid() && ps == PutsOf(entries)
  {
    ps := [];
    for i := 0 to |entries|
      invariant summer.Valid() && |ps| == i && forall k :: 0 <= k < i ==> ps[k] == PutOf(entries[k])
    {
      var e := entries[i];
      var crc := summer.Crc32(e.bytes);
      ps := ps + [Put(Encode(e.path), e.bytes, crc as int, e.path != [] && e.path[|e.path| - 1] == 47, e.time, e.day)];
    }
  }

  lemma SumsAlwaysFit(es: seq<Entry>)
    ensures SumsFit(PutsOf(es))
  {
    forall i | 0 <= i < |es| ensures Fits32(PutsOf(es)[i].crc) { SumFits(Crc(es[i].bytes)); }
  }

  lemma SumFits(crc: bv32)
    ensures Fits32(crc as int)
  {}

  lemma ArchiveIsMeasured(a: Archive, ps: seq<Put>)
    requires WellFormed(a, ps) && |ps| <= MAX_ENTRIES && SumsFit(ps) && Fits32(OffsetOf(ps, |ps|))
    ensures Measured(a, ps)
  {
    OffsetIsPos(a.blocks, ps, |ps|);
    ConcatLength(a.blocks);
  }

  /** What a reader is to find of an entry. */
  ghost predicate IsItem(item: Item, e: Entry) {
    && item.bytes == e.bytes && item.crc == Crc(e.bytes) as int
    && item.utf8 && Decode(item.name) == Some(Mended(e.path))
    && (item.folder <==> |e.path| > 0 && e.path[|e.path| - 1] == 47)
    && item.date.time == item.localDate.time == e.time % 65536
    && item.date.day == item.localDate.day == e.day % 65536
  }

  /** It finds all of them, in order. */
  ghost predicate ReadsBack(items: Option<seq<Item>>, entries: seq<Entry>) {
    items.Some? && |items.value| == |entries| && forall i :: 0 <= i < |entries| ==> IsItem(items.value[i], entries[i])
  }

  /** The room the first `n` entries take: a header of 30 bytes, the name and the data of each. */
  function Room(entries: seq<Entry>, n: nat): nat
    requires n <= |entries|
  {
    if n == 0 then 0
    else Room(entries, n - 1) + 30 + |Encode(entries[n - 1].path)| + |entries[n - 1].bytes|
  }

  lemma {:induction false} SameRoom(ps: seq<Put>, entries: seq<Entry>, n: nat)
    requires n <= |entries| == |ps|
    requires forall i :: 0 <= i < n ==> ps[i].name == Encode(entries[i].path) && ps[i].bytes == entries[i].bytes
    ensures OffsetOf(ps, n) == Room(entries, n)
  {
    if n > 0 {
      SameRoom(ps, entries, n - 1);
      assert ps[n - 1].name == Encode(entries[n - 1].path);
    }
  }

  lemma RoomIsOffset(entries: seq<Entry>, n: nat)
    requires n <= |entries|
    ensures OffsetOf(PutsOf(entries), n) == Room(entries, n)
  {
    SameRoom(PutsOf(entries), entries, n);
  }

  /** The item of an entry, and no other, is what a reader is to find of it. */
  lemma ItemExact(item: Item, e: Entry)
    ensures IsItem(item, e) <==> item == ItemOf(PutOf(e))
  {
    DecodeExact(item.name, e.path);
  }

  lemma ReadsBackExact(items: Option<seq<Item>>, entries: seq<Entry>)
    ensures ReadsBack(items, entries) <==> items == Some(ItemsOf(PutsOf(entries)))
  {
    var all := ItemsOf(PutsOf(entries));
    if ReadsBack(items, entries) {
      forall i | 0 <= i < |entries| ensures items.value[i] == all[i] { ItemExact(items.value[i], entries[i]); }
      assert items.value == all;
    } else if items == Some(all) {
      forall i | 0 <= i < |entries| ensures IsItem(all[i], entries[i]) { ItemExact(all[i], entries[i]); }
    }
  }

  lemma Limits(entries: seq<Entry>)
    ensures SizesOk(PutsOf(entries), |entries|)
      <==> forall i :: 0 <= i < |entries| ==> |entries[i].bytes| <= 0xffff_ffff && Room(entries, i) <= 0xffff_ffff
    ensures NamesFit(PutsOf(entries)) <==> forall i :: 0 <= i < |entries| ==> |Encode(entries[i].path)| <= 0xffff
  {
    var ps := PutsOf(entries);
    forall i | 0 <= i < |entries|
      ensures ps[i].bytes == entries[i].bytes && ps[i].name == Encode(entries[i].path)
      ensures OffsetOf(ps, i) == Room(entries, i)
    {
      RoomIsOffset(entries, i);
    }
    if NamesFit(ps) {
      forall i | 0 <= i < |entries| ensures |Encode(entries[i].path)| <= 0xffff { assert |ps[i].name| < 65536; }
    }
    if SizesOk(ps, |ps|) {
      forall i | 0 <= i < |entries| ensures |entries[i].bytes| <= 0xffff_ffff && Room(entries, i) <= 0xffff_ffff {
        assert |ps[i].bytes| <= MAX_SIZE;
      }
    }
  }

  /**
   * The archive is refused when there are too many entries, or one of them is
   * too long or starts too far. Otherwise, as long as the last one ends below
   * 4 GiB, a reader gets every entry back: its data and their CRC, its name,
   * whether it is a folder, and its date in both headers. Unless a name is too long.
   */
  method CreateZip(summer: Summer, entries: seq<Entry>) returns (r: Result<seq<Byte>, ()>)
    requires summer.Valid()
    modifies summer
    ensures summer.Valid()
    ensures r.Ok? <==>
      && |entries| <= 0xffff
      && forall i :: 0 <= i < |entries| ==> |entries[i].bytes| <= 0xffff_ffff && Room(entries, i) <= 0xffff_ffff
    ensures r.Ok? && Room(entries, |entries|) <= 0xffff_ffff ==>
      (ReadsBack(ReadZip(r.value), entries) <==> forall i :: 0 <= i < |entries| ==> |Encode(entries[i].path)| <= 0xffff)
  {
    var ps := MakePuts(summer, entries);
    var w := WriteArchive(ps);
    Limits(entries);
    if w.Err? { return Err(()); }
    r := Ok(Bytes(w.value));
    RoomIsOffset(entries, |entries|);
    if Fits32(OffsetOf(ps, |ps|)) {
      SumsAlwaysFit(entries);
      ArchiveIsMeasured(w.value, ps);
      ReadableExactly(w.value, ps);
      ReadsBackExact(ReadZip(r.value), entries);
    }
  }

  /** The folder flag read back says that the name read back ends with a slash. */
  lemma FoldersEndWithSlash(e: Entry)
    ensures var item := ItemOf(PutOf(e));
      item.folder <==> item.name != [] && item.name[|item.name| - 1] == 47
  {
    EndsWithSlash(e.path);
  }
}
