/** Reading lots by signature gives the index that rewriting every lot in full would give. */
module LotTheorems {
  import opened Common
  import opened Text
  import opened LotIndexing

  /** The cached signatures of a lot are those of its rows in the index. */
  ghost predicate Describes(x: Index, c: Cell, lotCount: int) {
    forall id ::
      && (id in c.sigs <==> InLot(x, c.key.base, c.key.lot, lotCount, id))
      && (id in c.sigs ==> id in x && x[id].sig == c.sigs[id])
  }

  /** The rows of the lot `n` are placed in it. */
  predicate WellPlaced(sigs: Sigs, n: nat, lotCount: int) {
    forall id :: id in sigs ==> LotOf(id, lotCount) == n
  }

  /** A row id belongs to one base. */
  predicate OwnRows(x: Index, base: Text, sigs: Sigs) {
    forall id :: id in sigs && id in x ==> x[id].base == base
  }

  /** Reading a lot against what is known of it is rewriting it. */
  lemma IncrementalIsFull(x: Index, key: LotKey, lotCount: int, sigs: Sigs, before: Option<Sigs>)
    requires before.Some? ==> Describes(x, Cell(key, before.value), lotCount)
    ensures Updated(x, key.base, key.lot, lotCount, sigs, before) == Rewritten(x, key.base, key.lot, lotCount, sigs)
  {
    var u, r := Updated(x, key.base, key.lot, lotCount, sigs, before), Rewritten(x, key.base, key.lot, lotCount, sigs);
    if before.Some? {
      forall id ensures id in u <==> id in r {
        assert id in before.value <==> InLot(x, key.base, key.lot, lotCount, id);
      }
      forall id | id in u ensures u[id] == r[id] {
        assert id in before.value <==> InLot(x, key.base, key.lot, lotCount, id);
      }
    }
  }

  /** What the cached signatures must tell for that: no row taken for written that is not, none left and none lost. */
  ghost predicate Agrees(x: Index, key: LotKey, lotCount: int, sigs: Sigs, before: Sigs) {
    && (forall id :: id in sigs && id in before && before[id] == sigs[id] ==> id in x && x[id] == Record(key.base, sigs[id]))
    && (forall id :: id in x && id !in sigs ==> (id in before <==> InLot(x, key.base, key.lot, lotCount, id)))
  }

  lemma IncrementalExact(x: Index, key: LotKey, lotCount: int, sigs: Sigs, before: Sigs)
    ensures Updated(x, key.base, key.lot, lotCount, sigs, Some(before)) == Rewritten(x, key.base, key.lot, lotCount, sigs)
       <==> Agrees(x, key, lotCount, sigs, before)
  {
    var u, r := Updated(x, key.base, key.lot, lotCount, sigs, Some(before)), Rewritten(x, key.base, key.lot, lotCount, sigs);
    if u == r {
      forall id | id in sigs && id in before && before[id] == sigs[id] ensures id in x && x[id] == Record(key.base, sigs[id]) {
        assert id in r && id in u;
      }
      forall id | id in x && id !in sigs ensures id in before <==> InLot(x, key.base, key.lot, lotCount, id) {
        assert id in u <==> id in r;
      }
    }
  }

  // ── The cache goes on describing the index ──

  /** With how many lots each base of each index was last read in full. */
  type Counts = map<(Place, Text), int>

  function CountOf(counts: Counts, place: Place, base: Text): int {
    if (place, base) in counts then counts[(place, base)] else 0
  }

  /** Rows of a lot that reads which failed wrote, or did not come to remove, since its signatures were remembered. */
  type Torn = map<LotKey, Sigs>

  function TornOf(torn: Torn, key: LotKey): Sigs {
    if key in torn then torn[key] else map[]
  }

  /** The rows the index has of a lot whose signatures are remembered. */
  function Actual(c: Cell, torn: Torn): Cell {
    Cell(c.key, c.sigs + TornOf(torn, c.key))
  }

  lemma ActualWhole(c: Cell, torn: Torn)
    requires c.key !in torn
    ensures Actual(c, torn) == c
  {
    assert c.sigs + map[] == c.sigs;
  }

  ghost predicate Inv(index: map<Place, Index>, cells: seq<Cell>, counts: Counts, torn: Torn) {
    forall i :: 0 <= i < |cells| ==> Holds(index, cells[i], counts, torn)
  }

  ghost predicate Holds(index: map<Place, Index>, c: Cell, counts: Counts, torn: Torn) {
    c.key.place in index && Describes(index[c.key.place], Actual(c, torn), CountOf(counts, c.key.place, c.key.base))
  }

  lemma {:induction false} ExceptCells(cells: seq<Cell>, key: LotKey)
    ensures forall c :: c in Except(cells, key) <==> c in cells && c.key != key
  {
    if cells != [] { ExceptCells(cells[1..], key); }
  }

  lemma RememberedCells(cells: seq<Cell>, key: LotKey, sigs: Sigs, c: Cell)
    requires c in Remembered(cells, key, sigs)
    ensures c == Cell(key, sigs) || (c in cells && c.key != key)
  {
    ExceptCells(cells, key);
    var all := Except(cells, key) + [Cell(key, sigs)];
    assert c in all;
  }

  lemma {:induction false} KnownIs(cells: seq<Cell>, key: LotKey)
    requires Known(cells, key).Some?
    ensures Cell(key, Known(cells, key).value) in cells
  {
    if cells[0].key != key { KnownIs(cells[1..], key); }
  }

  lemma RewrittenDescribes(x: Index, key: LotKey, lotCount: int, sigs: Sigs)
    requires WellPlaced(sigs, key.lot, lotCount)
    ensures Describes(Rewritten(x, key.base, key.lot, lotCount, sigs), Cell(key, sigs), lotCount)
  {}

  lemma RewrittenElsewhere(x: Index, key: LotKey, lotCount: int, sigs: Sigs, c: Cell, count: int)
    requires Describes(x, c, count) && OwnRows(x, key.base, sigs) && WellPlaced(sigs, key.lot, lotCount)
    requires c.key.base != key.base || (c.key.lot != key.lot && count == lotCount)
    ensures Describes(Rewritten(x, key.base, key.lot, lotCount, sigs), c, count)
  {
    var r := Rewritten(x, key.base, key.lot, lotCount, sigs);
    forall id
      ensures id in c.sigs <==> InLot(r, c.key.base, c.key.lot, count, id)
      ensures id in c.sigs ==> id in r && r[id].sig == c.sigs[id]
    {
      assert id in c.sigs <==> InLot(x, c.key.base, c.key.lot, count, id);
    }
  }

  /** The index after one lot is read. */
  function AfterLot(index: map<Place, Index>, key: LotKey, lotCount: int, sigs: Sigs): map<Place, Index>
    requires key.place in index
  {
    index[key.place := Rewritten(index[key.place], key.base, key.lot, lotCount, sigs)]
  }

  /**
   * The lot reads whole again: no row that a failed read wrote has gone back to
   * its former content, and none that was not in the lot before is gone.
   */
  predicate Mends(torn: Sigs, before: Sigs, sigs: Sigs) {
    forall id :: id in torn ==>
      if id in sigs then !(id in before && before[id] == sigs[id] && torn[id] != sigs[id]) else id in before
  }

  lemma TornRow(x: Index, key: LotKey, lotCount: int, before: Sigs, torn: Sigs, id: Text)
    requires Describes(x, Cell(key, before + torn), lotCount)
    ensures id in before || id in torn <==> InLot(x, key.base, key.lot, lotCount, id)
    ensures id in before && id !in torn ==> x[id] == Record(key.base, before[id])
    ensures id in torn ==> x[id] == Record(key.base, torn[id])
  {
    assert id in before + torn <==> InLot(x, key.base, key.lot, lotCount, id);
  }

  lemma TornAgrees(x: Index, key: LotKey, lotCount: int, sigs: Sigs, before: Sigs, torn: Sigs)
    requires Describes(x, Cell(key, before + torn), lotCount)
    ensures Agrees(x, key, lotCount, sigs, before) <==> Mends(torn, before, sigs)
  {
    forall id
      ensures id in before || id in torn <==> InLot(x, key.base, key.lot, lotCount, id)
      ensures id in before && id !in torn ==> x[id] == Record(key.base, before[id])
      ensures id in torn ==> x[id] == Record(key.base, torn[id])
    {
      TornRow(x, key, lotCount, before, torn, id);
    }
  }

  /** Reading a lot against what is remembered of it is rewriting it, exactly when it reads whole again. */
  lemma ReadLotExact(index: map<Place, Index>, cells: seq<Cell>, counts: Counts, torn: Torn, key: LotKey, sigs: Sigs)
    requires Inv(index, cells, counts, torn) && key.place in index
    ensures var lotCount := CountOf(counts, key.place, key.base);
      Updated(index[key.place], key.base, key.lot, lotCount, sigs, Known(cells, key)) == Rewritten(index[key.place], key.base, key.lot, lotCount, sigs)
      <==> (Known(cells, key).Some? ==> Mends(TornOf(torn, key), Known(cells, key).value, sigs))
  {
    var lotCount := CountOf(counts, key.place, key.base);
    var x := index[key.place];
    if Known(cells, key).Some? {
      var before := Known(cells, key).value;
      KnownIs(cells, key);
      var i :| 0 <= i < |cells| && cells[i] == Cell(key, before);
      assert Holds(index, cells[i], counts, torn);
      TornAgrees(x, key, lotCount, sigs, before, TornOf(torn, key));
      IncrementalExact(x, key, lotCount, sigs, before);
    } else {
      IncrementalIsFull(x, key, lotCount, sigs, None);
    }
  }

  /** After that, every set of signatures still remembered describes its lot. */
  lemma ReadLotKeeps(index: map<Place, Index>, cells: seq<Cell>, counts: Counts, torn: Torn, key: LotKey, sigs: Sigs)
    requires Inv(index, cells, counts, torn) && key.place in index
    requires WellPlaced(sigs, key.lot, CountOf(counts, key.place, key.base)) && OwnRows(index[key.place], key.base, sigs)
    ensures Inv(AfterLot(index, key, CountOf(counts, key.place, key.base), sigs), Remembered(cells, key, sigs), counts, torn - {key})
  {
    var lotCount := CountOf(counts, key.place, key.base);
    var x := index[key.place];
    var cells' := Remembered(cells, key, sigs);
    forall i | 0 <= i < |cells'| ensures Holds(AfterLot(index, key, lotCount, sigs), cells'[i], counts, torn - {key}) {
      RememberedCells(cells, key, sigs, cells'[i]);
      if cells'[i] == Cell(key, sigs) {
        RewrittenDescribes(x, key, lotCount, sigs);
        ActualWhole(Cell(key, sigs), torn - {key});
      } else {
        var j :| 0 <= j < |cells| && cells[j] == cells'[i];
        assert Holds(index, cells[j], counts, torn);
        assert Actual(cells'[i], torn - {key}) == Actual(cells'[i], torn);
        if cells'[i].key.place == key.place {
          RewrittenElsewhere(x, key, lotCount, sigs, Actual(cells'[i], torn), CountOf(counts, key.place, cells'[i].key.base));
        }
      }
    }
  }

  // ── A read that fails ──

  lemma WrittenDescribes(x: Index, c: Cell, lotCount: int, written: Sigs)
    requires Describes(x, c, lotCount) && WellPlaced(written, c.key.lot, lotCount)
    ensures Describes(WithRows(x, c.key.base, written), Cell(c.key, c.sigs + written), lotCount)
  {
    var y := WithRows(x, c.key.base, written);
    forall id
      ensures id in c.sigs + written <==> InLot(y, c.key.base, c.key.lot, lotCount, id)
      ensures id in c.sigs + written ==> id in y && y[id].sig == (c.sigs + written)[id]
    {
      assert id in c.sigs <==> InLot(x, c.key.base, c.key.lot, lotCount, id);
    }
  }

  lemma WrittenElsewhere(x: Index, key: LotKey, lotCount: int, written: Sigs, c: Cell, count: int)
    requires Describes(x, c, count) && OwnRows(x, key.base, written) && WellPlaced(written, key.lot, lotCount)
    requires c.key.base != key.base || (c.key.lot != key.lot && count == lotCount)
    ensures Describes(WithRows(x, key.base, written), c, count)
  {
    var y := WithRows(x, key.base, written);
    forall id
      ensures id in c.sigs <==> InLot(y, c.key.base, c.key.lot, count, id)
      ensures id in c.sigs ==> id in y && y[id].sig == c.sigs[id]
    {
      assert id in c.sigs <==> InLot(x, c.key.base, c.key.lot, count, id);
    }
  }

  function AfterFailure(index: map<Place, Index>, key: LotKey, written: Sigs): map<Place, Index>
    requires key.place in index
  {
    index[key.place := WithRows(index[key.place], key.base, written)]
  }

  function TornMore(torn: Torn, key: LotKey, written: Sigs): Torn {
    torn[key := TornOf(torn, key) + written]
  }

  lemma ActualMore(c: Cell, torn: Torn, key: LotKey, written: Sigs)
    ensures c.key == key ==> Actual(c, TornMore(torn, key, written)) == Cell(key, Actual(c, torn).sigs + written)
    ensures c.key != key ==> Actual(c, TornMore(torn, key, written)) == Actual(c, torn)
  {
    assert (c.sigs + TornOf(torn, key)) + written == c.sigs + (TornOf(torn, key) + written);
  }

  /** What a read wrote before it failed is all that the signatures do not tell. */
  lemma FailureKeeps(index: map<Place, Index>, cells: seq<Cell>, counts: Counts, torn: Torn, key: LotKey, written: Sigs)
    requires Inv(index, cells, counts, torn) && key.place in index
    requires WellPlaced(written, key.lot, CountOf(counts, key.place, key.base)) && OwnRows(index[key.place], key.base, written)
    ensures Inv(AfterFailure(index, key, written), cells, counts, TornMore(torn, key, written))
  {
    var x := index[key.place];
    forall i | 0 <= i < |cells| ensures Holds(AfterFailure(index, key, written), cells[i], counts, TornMore(torn, key, written)) {
      var c := cells[i];
      assert Holds(index, c, counts, torn);
      ActualMore(c, torn, key, written);
      var count := CountOf(counts, c.key.place, c.key.base);
      if c.key == key {
        WrittenDescribes(x, Actual(c, torn), count, written);
      } else if c.key.place == key.place {
        WrittenElsewhere(x, key, CountOf(counts, key.place, key.base), written, Actual(c, torn), count);
      }
    }
  }

  // ── A lot read in full, in a read of its base that goes no further ──

  /** The rows of the lot that are still there and not in it any more. */
  function Leftover(x: Index, key: LotKey, lotCount: int, sigs: Sigs): Sigs {
    map id | id in x && InLot(x, key.base, key.lot, lotCount, id) && id !in sigs :: x[id].sig
  }

  lemma FullDescribes(x: Index, key: LotKey, lotCount: int, sigs: Sigs)
    requires WellPlaced(sigs, key.lot, lotCount)
    ensures Describes(WithRows(x, key.base, sigs), Cell(key, sigs + Leftover(x, key, lotCount, sigs)), lotCount)
  {}

  lemma FullLotKeeps(index: map<Place, Index>, cells: seq<Cell>, counts: Counts, torn: Torn, key: LotKey, sigs: Sigs)
    requires Inv(index, cells, counts, torn) && key.place in index
    requires WellPlaced(sigs, key.lot, CountOf(counts, key.place, key.base)) && OwnRows(index[key.place], key.base, sigs)
    ensures Inv(AfterFailure(index, key, sigs), Remembered(cells, key, sigs), counts,
                torn[key := Leftover(index[key.place], key, CountOf(counts, key.place, key.base), sigs)])
  {
    var lotCount := CountOf(counts, key.place, key.base);
    var x := index[key.place];
    var torn' := torn[key := Leftover(x, key, lotCount, sigs)];
    var cells' := Remembered(cells, key, sigs);
    forall i | 0 <= i < |cells'| ensures Holds(AfterFailure(index, key, sigs), cells'[i], counts, torn') {
      RememberedCells(cells, key, sigs, cells'[i]);
      if cells'[i] == Cell(key, sigs) {
        FullDescribes(x, key, lotCount, sigs);
      } else {
        var j :| 0 <= j < |cells| && cells[j] == cells'[i];
        assert Holds(index, cells[j], counts, torn);
        if cells'[i].key.place == key.place {
          WrittenElsewhere(x, key, lotCount, sigs, Actual(cells'[i], torn), CountOf(counts, key.place, cells'[i].key.base));
        }
      }
    }
  }

  // ── A whole base ──

  ghost predicate LotsOk(lots: seq<Lot>, lotCount: int) {
    && (forall i :: 0 <= i < |lots| ==> WellPlaced(SigsOf(lots[i].rows), lots[i].n, lotCount))
    && (forall i, j :: 0 <= i < j < |lots| ==> lots[i].n != lots[j].n)
  }

  /** A row is in one lot only. */
  lemma NotInTwoLots(lots: seq<Lot>, lotCount: int, id: Text, i: nat, j: nat)
    requires LotsOk(lots, lotCount) && i < j < |lots| && id in SigsOf(lots[i].rows)
    ensures id !in SigsOf(lots[j].rows)
  {
    assert lots[i].n == LotOf(id, lotCount) && lots[i].n != lots[j].n;
  }

  lemma {:induction false} InAllSigs(lots: seq<Lot>, lotCount: int, id: Text, i: nat)
    requires LotsOk(lots, lotCount) && i < |lots| && id in SigsOf(lots[i].rows)
    ensures id in AllSigs(lots) && AllSigs(lots)[id] == SigsOf(lots[i].rows)[id]
  {
    var n := |lots| - 1;
    if i < n {
      InAllSigs(lots[..n], lotCount, id, i);
      NotInTwoLots(lots, lotCount, id, i, n);
    }
  }

  lemma {:induction false} FromAllSigs(lots: seq<Lot>, id: Text) returns (i: nat)
    requires id in AllSigs(lots)
    ensures i < |lots| && id in SigsOf(lots[i].rows)
  {
    var n := |lots| - 1;
    if id in SigsOf(lots[n].rows) { i := n; } else { i := FromAllSigs(lots[..n], id); }
  }

  lemma BaseDescribes(x: Index, base: Text, lots: seq<Lot>, lotCount: int, i: nat, place: Place)
    requires LotsOk(lots, lotCount) && i < |lots|
    ensures Describes(BaseReplaced(x, base, AllSigs(lots)), Cell(LotKey(place, base, lots[i].n), SigsOf(lots[i].rows)), lotCount)
  {
    var sigs := SigsOf(lots[i].rows);
    var r := BaseReplaced(x, base, AllSigs(lots));
    forall id
      ensures id in sigs <==> InLot(r, base, lots[i].n, lotCount, id)
      ensures id in sigs ==> id in r && r[id].sig == sigs[id]
    {
      if id in sigs { InAllSigs(lots, lotCount, id, i); }
      if InLot(r, base, lots[i].n, lotCount, id) {
        var j := FromAllSigs(lots, id);
        assert lots[j].n == LotOf(id, lotCount) == lots[i].n;
      }
    }
  }

  lemma {:induction false} RememberedAllCells(cells: seq<Cell>, place: Place, base: Text, lots: seq<Lot>, c: Cell)
    requires c in RememberedAll(cells, place, base, lots)
    ensures (exists i :: 0 <= i < |lots| && c == Cell(LotKey(place, base, lots[i].n), SigsOf(lots[i].rows)))
         || (c in cells && forall i :: 0 <= i < |lots| ==> c.key != LotKey(place, base, lots[i].n))
  {
    if lots != [] {
      var n := |lots| - 1;
      RememberedCells(RememberedAll(cells, place, base, lots[..n]), LotKey(place, base, lots[n].n), SigsOf(lots[n].rows), c);
      if c == Cell(LotKey(place, base, lots[n].n), SigsOf(lots[n].rows)) {
        assert c == Cell(LotKey(place, base, lots[n].n), SigsOf(lots[n].rows));
      } else {
        RememberedAllCells(cells, place, base, lots[..n], c);
        if i :| 0 <= i < n && c == Cell(LotKey(place, base, lots[..n][i].n), SigsOf(lots[..n][i].rows)) {
          assert c == Cell(LotKey(place, base, lots[i].n), SigsOf(lots[i].rows));
        }
        if c in cells && forall i :: 0 <= i < n ==> c.key != LotKey(place, base, lots[..n][i].n) {
          forall i | 0 <= i < n ensures c.key != LotKey(place, base, lots[i].n) {
            assert lots[..n][i] == lots[i];
          }
        }
      }
    }
  }

  /** No lot whose rows are remembered is missing from the manifest. */
  ghost predicate ManifestCovers(cells: seq<Cell>, place: Place, base: Text, lots: seq<Lot>) {
    forall k :: 0 <= k < |cells| && cells[k].key.place == place && cells[k].key.base == base ==>
      cells[k].sigs == map[] || exists i :: 0 <= i < |lots| && lots[i].n == cells[k].key.lot
  }

  lemma OtherBaseStays(x: Index, base: Text, all: Sigs, c: Cell, count: int)
    requires Describes(x, c, count) && OwnRows(x, base, all) && c.key.base != base
    ensures Describes(BaseReplaced(x, base, all), c, count)
  {
    var r := BaseReplaced(x, base, all);
    forall id
      ensures id in c.sigs <==> InLot(r, c.key.base, c.key.lot, count, id)
      ensures id in c.sigs ==> id in r && r[id].sig == c.sigs[id]
    {
      assert id in c.sigs <==> InLot(x, c.key.base, c.key.lot, count, id);
    }
  }

  /** A lot that is in no manifest has no row. */
  lemma EmptyLotDescribes(x: Index, base: Text, lots: seq<Lot>, lotCount: int, c: Cell)
    requires LotsOk(lots, lotCount) && c.sigs == map[] && c.key.base == base
    requires forall i :: 0 <= i < |lots| ==> lots[i].n != c.key.lot
    ensures Describes(BaseReplaced(x, base, AllSigs(lots)), c, lotCount)
  {
    var r := BaseReplaced(x, base, AllSigs(lots));
    forall id ensures !InLot(r, base, c.key.lot, lotCount, id) {
      if id in AllSigs(lots) { var i := FromAllSigs(lots, id); }
    }
  }

  /** A lot described that is in no manifest has no row either. */
  lemma DescribedIsEmpty(x: Index, base: Text, lots: seq<Lot>, lotCount: int, c: Cell)
    requires LotsOk(lots, lotCount) && c.key.base == base && Describes(BaseReplaced(x, base, AllSigs(lots)), c, lotCount)
    requires forall i :: 0 <= i < |lots| ==> lots[i].n != c.key.lot
    ensures c.sigs == map[]
  {
    forall id ensures id !in c.sigs {
      assert id in c.sigs <==> InLot(BaseReplaced(x, base, AllSigs(lots)), base, c.key.lot, lotCount, id);
      if id in AllSigs(lots) { var i := FromAllSigs(lots, id); }
    }
  }

  function AfterBase(index: map<Place, Index>, place: Place, base: Text, lots: seq<Lot>): map<Place, Index>
    requires place in index
  {
    index[place := BaseReplaced(index[place], base, AllSigs(lots))]
  }

  /** What is torn outside a base. */
  function TornOutside(torn: Torn, place: Place, base: Text): Torn {
    map k | k in torn && !(k.place == place && k.base == base) :: torn[k]
  }

  lemma ActualOutside(c: Cell, torn: Torn, place: Place, base: Text)
    ensures Actual(c, TornOutside(torn, place, base)) == if c.key.place == place && c.key.base == base then c else Actual(c, torn)
  {
    if c.key.place == place && c.key.base == base { ActualWhole(c, TornOutside(torn, place, base)); }
  }

  lemma ReadBaseHolds(index: map<Place, Index>, cells: seq<Cell>, counts: Counts, torn: Torn, place: Place, base: Text, lotCount: int, lots: seq<Lot>, c: Cell)
    requires Inv(index, cells, counts, torn) && place in index && LotsOk(lots, lotCount) && OwnRows(index[place], base, AllSigs(lots))
    requires c in RememberedAll(cells, place, base, lots)
    ensures Holds(AfterBase(index, place, base, lots), c, counts[(place, base) := lotCount], TornOutside(torn, place, base))
       <==> (c.key.place == place && c.key.base == base ==> c.sigs == map[] || exists i :: 0 <= i < |lots| && lots[i].n == c.key.lot)
  {
    var x := index[place];
    var torn' := TornOutside(torn, place, base);
    RememberedAllCells(cells, place, base, lots, c);
    ActualOutside(c, torn, place, base);
    if i :| 0 <= i < |lots| && c == Cell(LotKey(place, base, lots[i].n), SigsOf(lots[i].rows)) {
      BaseDescribes(x, base, lots, lotCount, i, place);
    } else {
      var j :| 0 <= j < |cells| && cells[j] == c;
      assert Holds(index, cells[j], counts, torn);
      if c.key.place == place && c.key.base == base {
        if c.sigs == map[] {
          EmptyLotDescribes(x, base, lots, lotCount, c);
        } else if Describes(BaseReplaced(x, base, AllSigs(lots)), c, lotCount) {
          DescribedIsEmpty(x, base, lots, lotCount, c);
        }
      } else if c.key.place == place {
        OtherBaseStays(x, base, AllSigs(lots), Actual(c, torn), CountOf(counts, place, c.key.base));
      }
    }
  }

  /**
   * Reading a whole base, into the same number of lots or another, leaves the
   * signatures describing the index exactly when those still remembered of
   * each lot that is not in the manifest are none; and mends what was torn.
   */
  lemma ReadBaseKeeps(index: map<Place, Index>, cells: seq<Cell>, counts: Counts, torn: Torn, place: Place, base: Text, lotCount: int, lots: seq<Lot>)
    requires Inv(index, cells, counts, torn) && place in index && LotsOk(lots, lotCount) && OwnRows(index[place], base, AllSigs(lots))
    ensures Inv(AfterBase(index, place, base, lots), RememberedAll(cells, place, base, lots), counts[(place, base) := lotCount], TornOutside(torn, place, base))
       <==> ManifestCovers(RememberedAll(cells, place, base, lots), place, base, lots)
  {
    var cells' := RememberedAll(cells, place, base, lots);
    forall k | 0 <= k < |cells'|
      ensures Holds(AfterBase(index, place, base, lots), cells'[k], counts[(place, base) := lotCount], TornOutside(torn, place, base))
         <==> (cells'[k].key.place == place && cells'[k].key.base == base ==>
                 cells'[k].sigs == map[] || exists i :: 0 <= i < |lots| && lots[i].n == cells'[k].key.lot)
    {
      ReadBaseHolds(index, cells, counts, torn, place, base, lotCount, lots, cells'[k]);
    }
  }

  /** After a base is read, any of its rows is in the index, and in no lot that is not in the manifest. */
  lemma InAnotherLot(x: Index, base: Text, lots: seq<Lot>, lotCount: int, n: nat, id: Text)
    requires LotsOk(lots, lotCount) && id in AllSigs(lots)
    requires forall i :: 0 <= i < |lots| ==> lots[i].n != n
    ensures id in BaseReplaced(x, base, AllSigs(lots)) && LotOf(id, lotCount) != n
  {
    var i := FromAllSigs(lots, id);
    assert LotOf(id, lotCount) == lots[i].n;
  }

  /** Signatures remembered of a lot take a row of another lot with them, when that lot is read without it. */
  lemma StaleCellRemoves(x: Index, base: Text, n: nat, lotCount: int, known: Sigs, sigs: Sigs, id: Text)
    requires id in x && LotOf(id, lotCount) != n && id in known && id !in sigs
    ensures id in Rewritten(x, base, n, lotCount, sigs)
    ensures id !in Updated(x, base, n, lotCount, sigs, Some(known))
  {
    assert Gone(x, base, n, lotCount, sigs, Some(known), id);
  }

  // ── A base that is gone ──

  lemma {:induction false} ForgottenCells(cells: seq<Cell>, vault: Text, base: Option<Text>, c: Cell)
    ensures c in Forgotten(cells, vault, base)
       <==> c in cells && !(c.key.place.vault == vault && (base.None? || base.value == c.key.base))
  {
    if cells != [] { ForgottenCells(cells[1..], vault, base, c); }
  }

  lemma DropBaseKeeps(index: map<Place, Index>, cells: seq<Cell>, counts: Counts, torn: Torn, place: Place, base: Text)
    requires Inv(index, cells, counts, torn) && place in index
    ensures Inv(index[place := BaseReplaced(index[place], base, map[])], Forgotten(cells, place.vault, Some(base)), counts, torn)
  {
    var cells' := Forgotten(cells, place.vault, Some(base));
    forall k | 0 <= k < |cells'|
      ensures Holds(index[place := BaseReplaced(index[place], base, map[])], cells'[k], counts, torn)
    {
      ForgottenCells(cells, place.vault, Some(base), cells'[k]);
      var j :| 0 <= j < |cells| && cells[j] == cells'[k];
      assert Holds(index, cells[j], counts, torn);
      if cells[j].key.place == place {
        OtherBaseStays(index[place], base, map[], Actual(cells[j], torn), CountOf(counts, place, cells[j].key.base));
      }
    }
  }

  // ── Whole runs ──

  datatype Op =
    | ReadLot(key: LotKey, lotCount: int, rows: seq<Row>)
    | FailLot(key: LotKey, lotCount: int, rows: seq<Row>, written: Sigs)
    | FullLot(key: LotKey, lotCount: int, rows: seq<Row>)
    | ReadBase(place: Place, base: Text, lotCount: int, lots: seq<Lot>)
    | DropBase(place: Place, base: Text)
    | Forget(vault: Text, of: Option<Text>)

  datatype State = State(index: map<Place, Index>, cells: seq<Cell>, counts: Counts, torn: Torn)

  ghost predicate Ok(s: State) {
    Inv(s.index, s.cells, s.counts, s.torn)
  }

  predicate OfLot(op: Op) {
    op.ReadLot? || op.FailLot? || op.FullLot?
  }

  /** The operation has the index it needs. */
  predicate Possible(index: map<Place, Index>, op: Op) {
    if OfLot(op) then op.key.place in index else op.Forget? || op.place in index
  }

  /** Some of the rows a read would write, before it failed. */
  predicate PartOf(written: Sigs, sigs: Sigs, before: Option<Sigs>) {
    forall id :: id in written ==> id in Fresh(sigs, before) && written[id] == sigs[id]
  }

  /**
   * A lot is read with the number of lots its base was last read with; a base,
   * with any, its manifest listing the lots still remembered.
   */
  ghost predicate Sound(index: map<Place, Index>, cells: seq<Cell>, counts: Counts, op: Op) {
    Possible(index, op) &&
    match op
    case ReadBase(place, base, lotCount, lots) =>
      && LotsOk(lots, lotCount) && OwnRows(index[place], base, AllSigs(lots))
      && ManifestCovers(RememberedAll(cells, place, base, lots), place, base, lots)
    case DropBase(_, _) => true
    case Forget(_, _) => true
    case _ =>
      && op.lotCount == CountOf(counts, op.key.place, op.key.base)
      && WellPlaced(SigsOf(op.rows), op.key.lot, op.lotCount) && OwnRows(index[op.key.place], op.key.base, SigsOf(op.rows))
      && (op.FailLot? ==> PartOf(op.written, SigsOf(op.rows), Known(cells, op.key)))
  }

  /** A lot that is read after reads of it failed reads whole again. */
  predicate Whole(s: State, op: Op) {
    op.ReadLot? && Known(s.cells, op.key).Some? ==> Mends(TornOf(s.torn, op.key), Known(s.cells, op.key).value, SigsOf(op.rows))
  }

  /** As the code does it, with the cached signatures. */
  function Step(s: State, op: Op): State
    requires Possible(s.index, op)
  {
    match op
    case ReadLot(key, lotCount, rows) =>
      s.(index := s.index[key.place := Updated(s.index[key.place], key.base, key.lot, lotCount, SigsOf(rows), Known(s.cells, key))],
         cells := Remembered(s.cells, key, SigsOf(rows)), torn := s.torn - {key})
    case FailLot(key, _, _, written) =>
      s.(index := AfterFailure(s.index, key, written), torn := TornMore(s.torn, key, written))
    case FullLot(key, lotCount, rows) =>
      s.(index := AfterFailure(s.index, key, SigsOf(rows)), cells := Remembered(s.cells, key, SigsOf(rows)),
         torn := s.torn[key := Leftover(s.index[key.place], key, lotCount, SigsOf(rows))])
    case ReadBase(place, base, lotCount, lots) =>
      State(AfterBase(s.index, place, base, lots), RememberedAll(s.cells, place, base, lots), s.counts[(place, base) := lotCount],
            TornOutside(s.torn, place, base))
    case DropBase(place, base) =>
      s.(index := s.index[place := BaseReplaced(s.index[place], base, map[])], cells := Forgotten(s.cells, place.vault, Some(base)))
    case Forget(vault, of) => s.(cells := Forgotten(s.cells, vault, of))
  }

  /** Without any cache: each lot that is read to its end is rewritten in full. */
  function FullStep(index: map<Place, Index>, op: Op): map<Place, Index>
    requires Possible(index, op)
  {
    match op
    case ReadLot(key, lotCount, rows) => AfterLot(index, key, lotCount, SigsOf(rows))
    case FailLot(key, _, _, written) => AfterFailure(index, key, written)
    case FullLot(key, _, rows) => AfterFailure(index, key, SigsOf(rows))
    case ReadBase(place, base, _, lots) => AfterBase(index, place, base, lots)
    case DropBase(place, base) => index[place := BaseReplaced(index[place], base, map[])]
    case Forget(_, _) => index
  }

  /** Both ways of indexing, from the same start, over the same operations. */
  ghost predicate Run(s: State, ops: seq<Op>, s': State, full: map<Place, Index>, full': map<Place, Index>)
    decreases |ops|
  {
    if ops == [] then s' == s && full' == full else
      && Sound(s.index, s.cells, s.counts, ops[0]) && Sound(full, s.cells, s.counts, ops[0]) && Whole(s, ops[0])
      && Run(Step(s, ops[0]), ops[1..], s', FullStep(full, ops[0]), full')
  }

  lemma ForgetKeeps(index: map<Place, Index>, cells: seq<Cell>, counts: Counts, torn: Torn, vault: Text, of: Option<Text>)
    requires Inv(index, cells, counts, torn)
    ensures Inv(index, Forgotten(cells, vault, of), counts, torn)
  {
    var cells' := Forgotten(cells, vault, of);
    forall k | 0 <= k < |cells'| ensures Holds(index, cells'[k], counts, torn) {
      ForgottenCells(cells, vault, of, cells'[k]);
      var j :| 0 <= j < |cells| && cells[j] == cells'[k];
      assert Holds(index, cells[j], counts, torn);
    }
  }

  lemma PartIsPlaced(x: Index, key: LotKey, lotCount: int, sigs: Sigs, before: Option<Sigs>, written: Sigs)
    requires PartOf(written, sigs, before) && WellPlaced(sigs, key.lot, lotCount) && OwnRows(x, key.base, sigs)
    ensures WellPlaced(written, key.lot, lotCount) && OwnRows(x, key.base, written)
  {}

  /** One operation gives what it gives without any cache exactly when a lot that was torn reads whole again. */
  lemma StepExact(s: State, op: Op)
    requires Ok(s) && Sound(s.index, s.cells, s.counts, op)
    ensures Step(s, op).index == FullStep(s.index, op) <==> Whole(s, op)
  {
    if op.ReadLot? {
      var key := op.key;
      ReadLotExact(s.index, s.cells, s.counts, s.torn, key, SigsOf(op.rows));
      var u := Updated(s.index[key.place], key.base, key.lot, op.lotCount, SigsOf(op.rows), Known(s.cells, key));
      var r := Rewritten(s.index[key.place], key.base, key.lot, op.lotCount, SigsOf(op.rows));
      assert Step(s, op).index[key.place] == u && FullStep(s.index, op)[key.place] == r;
    }
  }

  lemma StepKeeps(s: State, op: Op)
    requires Ok(s) && Sound(s.index, s.cells, s.counts, op) && Whole(s, op)
    ensures Ok(Step(s, op)) && Step(s, op).index == FullStep(s.index, op)
  {
    StepExact(s, op);
    match op
    case ReadLot(key, lotCount, rows) => ReadLotKeeps(s.index, s.cells, s.counts, s.torn, key, SigsOf(rows));
    case FailLot(key, lotCount, rows, written) =>
      PartIsPlaced(s.index[key.place], key, lotCount, SigsOf(rows), Known(s.cells, key), written);
      FailureKeeps(s.index, s.cells, s.counts, s.torn, key, written);
    case FullLot(key, lotCount, rows) => FullLotKeeps(s.index, s.cells, s.counts, s.torn, key, SigsOf(rows));
    case ReadBase(place, base, lotCount, lots) => ReadBaseKeeps(s.index, s.cells, s.counts, s.torn, place, base, lotCount, lots);
    case DropBase(place, base) => DropBaseKeeps(s.index, s.cells, s.counts, s.torn, place, base);
    case Forget(vault, of) => ForgetKeeps(s.index, s.cells, s.counts, s.torn, vault, of);
  }

  /**
   * Over any sequence of lots and bases read, reads that fail on the way,
   * bases divided anew, bases dropped and signatures forgotten or evicted, the
   * index is the same, as long as each lot reads whole again.
   */
  lemma {:induction false} IncrementalRefinesFull(s: State, ops: seq<Op>, s': State, full': map<Place, Index>)
    requires Ok(s) && Run(s, ops, s', s.index, full')
    ensures s'.index == full' && Ok(s')
    decreases |ops|
  {
    if ops != [] {
      StepKeeps(s, ops[0]);
      IncrementalRefinesFull(Step(s, ops[0]), ops[1..], s', full');
    }
  }

  // ── When the number of lots changes ──

  const HERE := Place([1], Serving)
  const OLD_ROW: Text := [2]
  const NEW_ROW: Text := [1]

  lemma LotsOfTwo()
    ensures LotOf(OLD_ROW, 1) == 0 && LotOf(OLD_ROW, 2) == 1 && LotOf(NEW_ROW, 2) == 0
  {
    assert OLD_ROW[1..] == [] && NEW_ROW[1..] == [];
    assert Fnv1a32(OLD_ROW, 0x811c9dc5) == Mix(0x811c9dc5, 2);
    assert Fnv1a32(NEW_ROW, 0x811c9dc5) == Mix(0x811c9dc5, 1);
  }

  /**
   * A base goes from one lot to two. Its rows are read again, but what was
   * known of its first lot is not forgotten unless that lot is read too; when
   * a row is added to it later, the row that moved to the other lot is removed.
   */
  lemma StaleAfterRepartition() returns (x: Index, cells: seq<Cell>, x': Index)
    ensures x == map[OLD_ROW := Record([5], [9])]
    ensures cells == RememberedAll([Cell(LotKey(HERE, [5], 0), map[OLD_ROW := [9]])], HERE, [5], [Lot(1, [Row(OLD_ROW, [9])])])
    ensures x' == Updated(x, [5], 0, 2, map[NEW_ROW := [7]], Known(cells, LotKey(HERE, [5], 0)))
    ensures OLD_ROW !in x'
    ensures OLD_ROW in Rewritten(x, [5], 0, 2, map[NEW_ROW := [7]])
  {
    LotsOfTwo();
    var first := Cell(LotKey(HERE, [5], 0), map[OLD_ROW := [9]]);
    x := map[OLD_ROW := Record([5], [9])];
    var lots := [Lot(1, [Row(OLD_ROW, [9])])];
    cells := RememberedAll([first], HERE, [5], lots);
    assert lots[..0] == [];
    assert RememberedAll([first], HERE, [5], lots[..0]) == [first];
    var sigs := SigsOf(lots[0].rows);
    var key := LotKey(HERE, [5], 1);
    assert Except([first], key) == [first];
    assert cells == [first] + [Cell(key, sigs)];
    assert cells[0] == first;
    assert Known(cells, LotKey(HERE, [5], 0)) == Some(first.sigs);
    x' := Updated(x, [5], 0, 2, map[NEW_ROW := [7]], Known(cells, LotKey(HERE, [5], 0)));
  }

  // ── When a read fails ──

  const KEY := LotKey(HERE, [5], 0)

  function OneRow(sig: Text): seq<Row> {
    [Row(OLD_ROW, sig)]
  }

  lemma SigsOfOne(sig: Text)
    ensures SigsOf(OneRow(sig)) == map[OLD_ROW := sig]
  {
    var rows := OneRow(sig);
    assert rows[..0] == [] && rows[0] == Row(OLD_ROW, sig);
    assert SigsOf(rows) == SigsOf(rows[..0])[OLD_ROW := sig];
  }

  /** A row as indexed, the signature remembered, and what a failed read wrote. */
  function Holding(indexed: Text, torn: Torn): State {
    State(map[HERE := map[OLD_ROW := Record([5], indexed)]], [Cell(KEY, map[OLD_ROW := [9]])], map[(HERE, [5]) := 1], torn)
  }

  lemma HoldingOk()
    ensures Ok(Holding([9], map[]))
  {
    LotsOfTwo();
    var s := Holding([9], map[]);
    ActualWhole(s.cells[0], s.torn);
    assert Describes(s.index[HERE], s.cells[0], 1);
  }

  lemma RowChanges(old': Text, sig: Text)
    ensures WithRows(map[OLD_ROW := Record([5], old')], [5], map[OLD_ROW := sig]) == map[OLD_ROW := Record([5], sig)]
  {}

  lemma FirstReadFails()
    ensures var s, op := Holding([9], map[]), FailLot(KEY, 1, OneRow([7]), map[OLD_ROW := [7]]);
      Sound(s.index, s.cells, s.counts, op) && Step(s, op) == Holding([7], map[KEY := map[OLD_ROW := [7]]])
  {
    LotsOfTwo();
    SigsOfOne([7]);
    var s := Holding([9], map[]);
    var none: Sigs := map[];
    assert Known(s.cells, KEY) == Some(map[OLD_ROW := [9]]);
    assert none + map[OLD_ROW := [7]] == map[OLD_ROW := [7]];
    RowChanges([9], [7]);
  }

  /**
   * A read writes a row and fails; the row goes back to its former content,
   * which is the one remembered: the next read takes it for written.
   */
  lemma TornRowStays() returns (s: State, first: Op, second: Op)
    ensures Ok(s) && first.FailLot? && second.ReadLot?
    ensures Sound(s.index, s.cells, s.counts, first) && Whole(s, first) && Ok(Step(s, first))
    ensures var t := Step(s, first);
      Sound(t.index, t.cells, t.counts, second) && Step(t, second).index != FullStep(t.index, second)
  {
    s, first, second := Holding([9], map[]), FailLot(KEY, 1, OneRow([7]), map[OLD_ROW := [7]]), ReadLot(KEY, 1, OneRow([9]));
    HoldingOk();
    FirstReadFails();
    StepKeeps(s, first);
    var t := Step(s, first);
    LotsOfTwo();
    SigsOfOne([9]);
    assert Known(t.cells, KEY) == Some(map[OLD_ROW := [9]]) && TornOf(t.torn, KEY) == map[OLD_ROW := [7]];
    assert OLD_ROW in TornOf(t.torn, KEY);
    StepExact(t, second);
  }
}
