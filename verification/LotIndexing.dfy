/**
 * Rows of large bases, read lot by lot (`indexLot`, `indexBase` and
 * `forgetLots` of apps/indexer/src/store.ts): only the rows whose signature
 * changed are written, as far as the signatures of the lot are still known.
 */
module LotIndexing {
  import opened Common
  import opened Text

  const ROWS_PER_TX := 500
  const LOT_SIG_CACHE := 64

  /** The product of two words, cut to 32 bits. */
  function Imul(x: bv32): bv32 {
    x * 0x01000193
  }

  /** One turn of FNV-1a on 32 bits: the unit comes in, then the product. */
  function Mix(h: bv32, u: CodeUnit): bv32 {
    Imul(h ^ (u as bv32))
  }

  function Fnv1a32(t: Text, h: bv32): bv32 {
    if t == [] then h else Fnv1a32(t[1..], Mix(h, t[0]))
  }

  /** The lot a row belongs to. */
  function LotOf(row: Text, lotCount: int): nat {
    var h := Fnv1a32(row, 0x811c9dc5);
    (h as int) % Max(1, lotCount)
  }

  lemma OneMoreUnit(t: Text, i: nat, h: bv32)
    requires i < |t|
    ensures Fnv1a32(t[i..], h) == Fnv1a32(t[i + 1..], Mix(h, t[i]))
  {
    assert t[i..][0] == t[i] && t[i..][1..] == t[i + 1..];
  }

  lemma PrimeIsASum(x: bv32, p: bv32)
    requires p == x * 0x100_0193
    ensures p == x * 0x100_0000 + x * 0x100 + x * 0x80 + x * 16 + x * 2 + x
  {}

  /** The unit comes in, then the product by the prime 2^24 + 2^8 + 2^7 + 2^4 + 2 + 1. */
  lemma MixExact(h: bv32, u: CodeUnit, x: bv32)
    requires x == h ^ (u as bv32)
    ensures Mix(h, u) == x * 0x100_0000 + x * 0x100 + x * 0x80 + x * 16 + x * 2 + x
  {
    PrimeIsASum(x, Imul(x));
  }

  lemma NextUnit(t: Text, i: nat, u: CodeUnit, h: bv32, h': bv32)
    requires i < |t| && t[i] == u && Mix(h, u) == h'
    ensures Fnv1a32(t[i..], h) == Fnv1a32(t[i + 1..], h')
  {
    OneMoreUnit(t, i, h);
  }

  lemma FirstHalf(t: Text)
    requires |t| == 6 && t[0] == 102 && t[1] == 111 && t[2] == 111
    ensures Fnv1a32(t[0..], 0x811c9dc5) == Fnv1a32(t[3..], 0xa9f37ed7)
  {
    NextUnit(t, 0, 102, 0x811c9dc5, 0xe30c2799);
    NextUnit(t, 1, 111, 0xe30c2799, 0x6222e842);
    NextUnit(t, 2, 111, 0x6222e842, 0xa9f37ed7);
  }

  lemma SecondHalf(t: Text)
    requires |t| == 6 && t[3] == 98 && t[4] == 97 && t[5] == 114
    ensures Fnv1a32(t[3..], 0xa9f37ed7) == Fnv1a32(t[6..], 0xbf9cf968)
  {
    NextUnit(t, 3, 98, 0xa9f37ed7, 0x3f5076ef);
    NextUnit(t, 4, 97, 0x3f5076ef, 0x39aaa18a);
    NextUnit(t, 5, 114, 0x39aaa18a, 0xbf9cf968);
  }

  /** Published values of this hash: those of "a" and "foobar". */
  lemma KnownHashes(a: Text, foobar: Text)
    requires a == [97] && foobar == [102, 111, 111, 98, 97, 114]
    ensures Fnv1a32(a, 0x811c9dc5) == 0xe40c292c && Fnv1a32(foobar, 0x811c9dc5) == 0xbf9cf968
  {
    NextUnit(a, 0, 97, 0x811c9dc5, 0xe40c292c);
    FirstHalf(foobar);
    SecondHalf(foobar);
    assert a[0..] == a && a[1..] == [] && foobar[0..] == foobar && foobar[6..] == [];
  }

  method Hash(t: Text) returns (h: bv32)
    ensures h == Fnv1a32(t, 0x811c9dc5)
  {
    h := 0x811c9dc5;
    assert t[0..] == t;
    for i := 0 to |t|
      invariant Fnv1a32(t, 0x811c9dc5) == Fnv1a32(t[i..], h)
    {
      OneMoreUnit(t, i, h);
      h := Mix(h, t[i]);
    }
    assert t[|t|..] == [];
  }

  method BaseLotOf(row: Text, lotCount: int) returns (n: nat)
    ensures n == LotOf(row, lotCount)
    ensures if lotCount <= 1 then n == 0 else n == Fnv1a32(row, 0x811c9dc5) as int % lotCount
  {
    var h := Hash(row);
    n := (h as int) % Max(1, lotCount);
  }

  /** The index that answers, or the one being built beside it. */
  datatype Space = Serving | Target

  datatype Place = Place(vault: Text, space: Space)

  datatype LotKey = LotKey(place: Place, base: Text, lot: nat)

  /** A row as indexed: its base, and the signature of its title and values. */
  datatype Record = Record(base: Text, sig: Text)

  type Index = map<Text, Record>

  type Sigs = map<Text, Text>

  datatype Cell = Cell(key: LotKey, sigs: Sigs)

  datatype Row = Row(id: Text, sig: Text)

  function SigsOf(rows: seq<Row>): Sigs {
    if rows == [] then map[] else SigsOf(rows[..|rows| - 1])[rows[|rows| - 1].id := rows[|rows| - 1].sig]
  }

  predicate InLot(x: Index, base: Text, n: nat, lotCount: int, id: Text) {
    id in x && x[id].base == base && LotOf(id, lotCount) == n
  }

  /** Deleting the lot and writing all its rows. */
  function Rewritten(x: Index, base: Text, n: nat, lotCount: int, sigs: Sigs): Index {
    map id | id in x.Keys + sigs.Keys && (id in sigs || !InLot(x, base, n, lotCount, id)) ::
      if id in sigs then Record(base, sigs[id]) else x[id]
  }

  /** What is known already is not written again; what is known and gone is removed. */
  function Updated(x: Index, base: Text, n: nat, lotCount: int, sigs: Sigs, before: Option<Sigs>): Index {
    map id | id in x.Keys + Fresh(sigs, before).Keys && !Gone(x, base, n, lotCount, sigs, before, id) ::
      if id in Fresh(sigs, before) then Record(base, sigs[id]) else x[id]
  }

  function Fresh(sigs: Sigs, before: Option<Sigs>): (r: Sigs)
    ensures r.Keys <= sigs.Keys
  {
    map id | id in sigs && !(before.Some? && id in before.value && before.value[id] == sigs[id]) :: sigs[id]
  }

  /** The rows whose signature is not known, in order. */
  function Changed(rows: seq<Row>, before: Option<Sigs>): seq<Row> {
    if rows == [] then [] else
      var r := rows[|rows| - 1];
      Changed(rows[..|rows| - 1], before)
      + if before.Some? && r.id in before.value && before.value[r.id] == r.sig then [] else [r]
  }

  lemma {:induction false} ChangedIsFresh(rows: seq<Row>, before: Option<Sigs>)
    requires DistinctIds(rows)
    ensures SigsOf(Changed(rows, before)) == Fresh(SigsOf(rows), before)
  {
    if rows != [] {
      var n := |rows| - 1;
      var r, records := rows[n], Changed(rows[..n], before);
      assert rows[..n + 1] == rows;
      NotYet(rows, n);
      ChangedIsFresh(rows[..n], before);
      assert (records + [r])[..|records|] == records && records + [] == records;
      OneMoreFresh(SigsOf(rows[..n]), before, r);
    }
  }

  lemma OneMoreFresh(sigs: Sigs, before: Option<Sigs>, r: Row)
    requires r.id !in sigs
    ensures Fresh(sigs[r.id := r.sig], before)
         == if before.Some? && r.id in before.value && before.value[r.id] == r.sig then Fresh(sigs, before)
            else Fresh(sigs, before)[r.id := r.sig]
  {}

  /** A row is written exactly when the signature known for it, if any, is not its own. */
  lemma {:induction false} WrittenExact(rows: seq<Row>, before: Option<Sigs>, r: Row)
    ensures r in Changed(rows, before) <==>
      r in rows && (before.Some? ==> Lookup(before.value, r.id) != Some(r.sig))
  {
    if rows != [] {
      var n := |rows| - 1;
      WrittenExact(rows[..n], before, r);
      assert r in rows <==> r in rows[..n] || r == rows[n];
    }
  }

  predicate Gone(x: Index, base: Text, n: nat, lotCount: int, sigs: Sigs, before: Option<Sigs>, id: Text) {
    id !in sigs && if before.Some? then id in before.value else InLot(x, base, n, lotCount, id)
  }

  function WithRows(x: Index, base: Text, sigs: Sigs): Index {
    map id | id in x.Keys + sigs.Keys :: if id in sigs then Record(base, sigs[id]) else x[id]
  }

  // ── The signatures of the last lots read ──

  function Known(cells: seq<Cell>, key: LotKey): Option<Sigs> {
    if cells == [] then None else if cells[0].key == key then Some(cells[0].sigs) else Known(cells[1..], key)
  }

  function Except(cells: seq<Cell>, key: LotKey): seq<Cell> {
    if cells == [] then [] else (if cells[0].key == key then [] else [cells[0]]) + Except(cells[1..], key)
  }

  lemma {:induction false} ExceptKeeps(cells: seq<Cell>, key: LotKey)
    ensures |Except(cells, key)| <= |cells|
    ensures forall c :: c in Except(cells, key) <==> c in cells && c.key != key
  {
    if cells != [] {
      ExceptKeeps(cells[1..], key);
      assert forall c :: c in cells <==> c == cells[0] || c in cells[1..];
    }
  }

  /** The lot read now goes last; the oldest ones go. */
  function Remembered(cells: seq<Cell>, key: LotKey, sigs: Sigs): seq<Cell> {
    var all := Except(cells, key) + [Cell(key, sigs)];
    all[Max(0, |all| - LOT_SIG_CACHE)..]
  }

  function Forgotten(cells: seq<Cell>, vault: Text, base: Option<Text>): seq<Cell> {
    if cells == [] then [] else
      var c := cells[0];
      (if c.key.place.vault == vault && (base.None? || base.value == c.key.base) then [] else [c]) + Forgotten(cells[1..], vault, base)
  }

  // ── The class ──

  class LotStore {
    var index: map<Place, Index>
    var cells: seq<Cell>

    constructor ()
      ensures index == map[] && cells == []
    {
      index, cells := map[], [];
    }

    /** Writes records, one by one. */
    method ApplyRecords(place: Place, base: Text, chunk: seq<Row>)
      requires place in index
      modifies this`index
      ensures index == old(index)[place := WithRows(old(index)[place], base, SigsOf(chunk))]
    {
      ghost var x := index[place];
      assert WithRows(x, base, map[]) == x;
      for i := 0 to |chunk|
        invariant place in index && index == old(index)[place := WithRows(x, base, SigsOf(chunk[..i]))]
      {
        assert chunk[..i + 1][..i] == chunk[..i];
        var r := chunk[i];
        ghost var y := index[place];
        index := index[place := index[place][r.id := Record(base, r.sig)]];
        OneMoreRow(x, base, SigsOf(chunk[..i]), r);
      }
      assert chunk[..|chunk|] == chunk;
    }

    /** The rows to write, and the signatures of them all. */
    method Compare(rows: seq<Row>, before: Option<Sigs>) returns (sigs: Sigs, records: seq<Row>)
      requires DistinctIds(rows)
      ensures sigs == SigsOf(rows) && SigsOf(records) == Fresh(SigsOf(rows), before)
      ensures records == Changed(rows, before)
    {
      sigs, records := map[], [];
      for i := 0 to |rows|
        invariant sigs == SigsOf(rows[..i]) && records == Changed(rows[..i], before)
      {
        assert rows[..i + 1][..i] == rows[..i];
        var r := rows[i];
        if !(before.Some? && r.id in before.value && before.value[r.id] == r.sig) { records := records + [r]; }
        sigs := sigs[r.id := r.sig];
      }
      assert rows[..|rows|] == rows;
      ChangedIsFresh(rows, before);
    }

    method RemoveDocs(place: Place, ids: set<Text>)
      requires place in index
      modifies this`index
      ensures index == old(index)[place := old(index)[place] - ids]
    {
      index := index[place := index[place] - ids];
    }

    /** Writes records, so many to a transaction. */
    method ApplyAll(place: Place, base: Text, records: seq<Row>)
      requires place in index
      modifies this`index
      ensures index == old(index)[place := WithRows(old(index)[place], base, SigsOf(records))]
    {
      ghost var x := index[place];
      var i := 0;
      assert records[..0] == [] && WithRows(x, base, map[]) == x;
      while i < |records|
        invariant i <= |records| && place in index
        invariant index == old(index)[place := WithRows(x, base, SigsOf(records[..i]))]
      {
        var end := Min(i + ROWS_PER_TX, |records|);
        ApplyRecords(place, base, records[i..end]);
        assert records[..end] == records[..i] + records[i..end];
        SigsAppend(records[..i], records[i..end]);
        ApplyTwice(x, base, SigsOf(records[..i]), SigsOf(records[i..end]));
        i := end;
      }
      assert records[..|records|] == records;
    }

    /** The rows of the lot that are in the index and no longer in the lot. */
    method RemoveGone(key: LotKey, lotCount: int, sigs: Sigs, before: Option<Sigs>)
      requires key.place in index
      modifies this`index
      ensures index == old(index)[key.place := WithoutGone(old(index)[key.place], key.base, key.lot, lotCount, sigs, before)]
    {
      var x := index[key.place];
      var gone := if before.Some?
        then set id | id in before.value && id !in sigs
        else set id | id in x && InLot(x, key.base, key.lot, lotCount, id) && id !in sigs;
      RemoveDocs(key.place, gone);
      assert x - gone == WithoutGone(x, key.base, key.lot, lotCount, sigs, before);
    }

    method Remember(key: LotKey, sigs: Sigs)
      modifies this`cells
      ensures cells == Remembered(old(cells), key, sigs)
      ensures |cells| <= 64 && cells != [] && cells[|cells| - 1] == Cell(key, sigs)
      ensures |old(cells)| < 64 ==> forall c :: c in old(cells) && c.key != key ==> c in cells
    {
      ExceptKeeps(cells, key);
      cells := Except(cells, key) + [Cell(key, sigs)];
      ghost var all := cells;
      while |cells| > LOT_SIG_CACHE
        invariant |cells| <= |all| && cells == all[|all| - |cells|..]
        invariant |all| <= LOT_SIG_CACHE ==> cells == all
        invariant |all| > LOT_SIG_CACHE ==> |cells| >= LOT_SIG_CACHE
        decreases |cells|
      {
        cells := cells[1..];
      }
    }

    /** Reads one lot: `full` when the whole base is read again. */
    method IndexLot(key: LotKey, lotCount: int, rows: seq<Row>, full: bool)
      requires DistinctIds(rows) && key.place in index
      modifies this
      ensures cells == Remembered(old(cells), key, SigsOf(rows))
      ensures full ==> index == old(index)[key.place := WithRows(old(index)[key.place], key.base, SigsOf(rows))]
      ensures !full ==> index == old(index)[key.place :=
        Updated(old(index)[key.place], key.base, key.lot, lotCount, SigsOf(rows), Known(old(cells), key))]
    {
      var before := if full then None else Known(cells, key);
      var sigs, records := Compare(rows, before);
      ghost var x := index[key.place];
      ApplyAll(key.place, key.base, records);
      if full {
        assert Fresh(sigs, None) == sigs;
      } else {
        RemoveGone(key, lotCount, sigs, before);
        UpdatedInTwo(x, key.base, key.lot, lotCount, sigs, before);
      }
      Remember(key, sigs);
    }

    /** Every lot of a manifest, in full. */
    method IndexLots(place: Place, base: Text, lotCount: int, lots: seq<Lot>) returns (present: set<Text>)
      requires place in index && forall i :: 0 <= i < |lots| ==> DistinctIds(lots[i].rows)
      modifies this
      ensures index == old(index)[place := WithRows(old(index)[place], base, AllSigs(lots))]
      ensures cells == RememberedAll(old(cells), place, base, lots)
      ensures present == AllSigs(lots).Keys
    {
      ghost var x := index[place];
      present := {};
      assert WithRows(x, base, map[]) == x;
      for i := 0 to |lots|
        invariant place in index && index == old(index)[place := WithRows(x, base, AllSigs(lots[..i]))]
        invariant cells == RememberedAll(old(cells), place, base, lots[..i])
        invariant present == AllSigs(lots[..i]).Keys
      {
        assert lots[..i + 1][..i] == lots[..i];
        IndexLot(LotKey(place, base, lots[i].n), lotCount, lots[i].rows, true);
        ApplyTwice(x, base, AllSigs(lots[..i]), SigsOf(lots[i].rows));
        present := present + SigsOf(lots[i].rows).Keys;
      }
      assert lots[..|lots|] == lots;
    }

    /** Reads a whole base: every lot of its manifest; then what is in none of them goes. */
    method IndexBase(place: Place, base: Text, lotCount: int, lots: seq<Lot>)
      requires place in index && forall i :: 0 <= i < |lots| ==> DistinctIds(lots[i].rows)
      modifies this
      ensures index == old(index)[place := BaseReplaced(old(index)[place], base, AllSigs(lots))]
      ensures cells == RememberedAll(old(cells), place, base, lots)
    {
      ghost var x := index[place];
      var present := IndexLots(place, base, lotCount, lots);
      var y := index[place];
      var gone := set id | id in y && y[id].base == base && id !in present;
      RemoveDocs(place, gone);
      assert y - gone == BaseReplaced(x, base, AllSigs(lots));
    }

    /** Signatures of a vault, or of one of its bases, are forgotten. */
    method ForgetLots(vault: Text, base: Option<Text>)
      modifies this`cells
      ensures cells == Forgotten(old(cells), vault, base)
    {
      var all := cells;
      cells := [];
      for i := 0 to |all|
        invariant cells == Forgotten(all[..i], vault, base)
      {
        ForgottenNext(all, i, vault, base);
        var c := all[i];
        if !(c.key.place.vault == vault && (base.None? || base.value == c.key.base)) { cells := cells + [c]; }
      }
      assert all[..|all|] == all;
    }
  }

  datatype Lot = Lot(n: nat, rows: seq<Row>)

  function AllSigs(lots: seq<Lot>): Sigs {
    if lots == [] then map[] else AllSigs(lots[..|lots| - 1]) + SigsOf(lots[|lots| - 1].rows)
  }

  function RememberedAll(cells: seq<Cell>, place: Place, base: Text, lots: seq<Lot>): seq<Cell> {
    if lots == [] then cells else
      var last := lots[|lots| - 1];
      Remembered(RememberedAll(cells, place, base, lots[..|lots| - 1]), LotKey(place, base, last.n), SigsOf(last.rows))
  }

  /** The rows of a base are exactly these. */
  function BaseReplaced(x: Index, base: Text, all: Sigs): Index {
    map id | id in x.Keys + all.Keys && (id in all || x[id].base != base) :: if id in all then Record(base, all[id]) else x[id]
  }

  function WithoutGone(x: Index, base: Text, n: nat, lotCount: int, sigs: Sigs, before: Option<Sigs>): Index {
    map id | id in x && !Gone(x, base, n, lotCount, sigs, before, id) :: x[id]
  }

  lemma UpdatedInTwo(x: Index, base: Text, n: nat, lotCount: int, sigs: Sigs, before: Option<Sigs>)
    ensures WithoutGone(WithRows(x, base, Fresh(sigs, before)), base, n, lotCount, sigs, before)
         == Updated(x, base, n, lotCount, sigs, before)
  {
    var y := WithRows(x, base, Fresh(sigs, before));
    forall id ensures id !in sigs ==> (Gone(y, base, n, lotCount, sigs, before, id) <==> Gone(x, base, n, lotCount, sigs, before, id)) {}
  }

  lemma {:induction false} SigsAppend(a: seq<Row>, b: seq<Row>)
    ensures SigsOf(a + b) == SigsOf(a) + SigsOf(b)
  {
    if b == [] {
      assert a + b == a;
    } else {
      var n := |b| - 1;
      assert (a + b)[..|a| + n] == a + b[..n];
      SigsAppend(a, b[..n]);
    }
  }

  lemma ApplyTwice(x: Index, base: Text, a: Sigs, b: Sigs)
    ensures WithRows(WithRows(x, base, a), base, b) == WithRows(x, base, a + b)
  {}

  lemma {:induction false} ForgottenNext(cells: seq<Cell>, i: nat, vault: Text, base: Option<Text>)
    requires i < |cells|
    ensures var c := cells[i];
      Forgotten(cells[..i + 1], vault, base) == Forgotten(cells[..i], vault, base)
        + if c.key.place.vault == vault && (base.None? || base.value == c.key.base) then [] else [c]
  {
    if i == 0 {
      assert cells[..1] == [cells[0]] && cells[..0] == [];
      assert cells[..1][1..] == [];
    } else {
      assert cells[..i + 1][1..] == cells[1..][..i] && cells[..i][1..] == cells[1..][..i - 1];
      ForgottenNext(cells[1..], i - 1, vault, base);
    }
  }

  predicate DistinctIds(rows: seq<Row>) {
    forall i, j :: 0 <= i < j < |rows| ==> rows[i].id != rows[j].id
  }

  lemma OneMoreRow(x: Index, base: Text, sigs: Sigs, r: Row)
    ensures WithRows(x, base, sigs)[r.id := Record(base, r.sig)] == WithRows(x, base, sigs[r.id := r.sig])
  {}

  lemma {:induction false} SigsKnown(rows: seq<Row>, id: Text)
    ensures id in SigsOf(rows) <==> exists i :: 0 <= i < |rows| && rows[i].id == id
  {
    if rows != [] {
      var n := |rows| - 1;
      SigsKnown(rows[..n], id);
      if rows[n].id == id { assert rows[n].id == id; }
      if i :| 0 <= i < |rows| && rows[i].id == id { assert i < n ==> rows[..n][i].id == id; }
    }
  }

  lemma NotYet(rows: seq<Row>, i: nat)
    requires i < |rows| && DistinctIds(rows)
    ensures rows[i].id !in SigsOf(rows[..i])
  {
    SigsKnown(rows[..i], rows[i].id);
  }
}
