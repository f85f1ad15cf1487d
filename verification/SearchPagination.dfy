/**
 * Whole runs of the global search: each call takes up the cursor of the one
 * before (`search` of apps/indexer/src/service.ts with `mergePages`), over
 * vaults whose own listing is cut into pages in any way.
 */
module SearchPagination {
  import opened Common
  import opened Text
  import opened GlobalSearch

  predicate HitAhead(a: Hit, b: Hit) {
    a.score > b.score || (a.score == b.score && Before(a.id, b.id))
  }

  /**
   * One vault's answers: all its hits in order, the page it gives for a cursor
   * and a limit, and (for the proof) where a cursor stands and how far it is
   * from the end.
   */
  datatype Listing = Listing(
    stream: seq<Hit>,
    page: (Option<Cursor>, nat) -> Page,
    off: Option<Cursor> -> nat,
    rank: Option<Cursor> -> nat)

  ghost predicate InOrder(stream: seq<Hit>) {
    forall i, j :: 0 <= i < j < |stream| ==> HitAhead(stream[i], stream[j])
  }

  /** A page is a stretch of the listing, long, short or empty; the next one goes on from there. */
  ghost predicate LawfulPage(l: Listing, c: Option<Cursor>, p: Page) {
    && l.off(c) + |p.hits| <= |l.stream|
    && p.hits == l.stream[l.off(c)..l.off(c) + |p.hits|]
    && (p.next.None? ==> l.off(c) + |p.hits| == |l.stream|)
    && (p.next.Some? ==> l.off(p.next) == l.off(c) + |p.hits| && l.rank(p.next) < l.rank(c))
  }

  ghost predicate Lawful(l: Listing) {
    && InOrder(l.stream) && l.off(None) == 0
    && forall c, n: nat :: n >= 1 ==> LawfulPage(l, c, l.page(c, n))
  }

  type Listings = map<Text, Listing>

  ghost predicate AllLawful(ls: Listings) {
    forall v :: v in ls ==> Lawful(ls[v])
  }

  ghost predicate KnownParts(ls: Listings, parts: seq<Part>) {
    && (forall i :: 0 <= i < |parts| ==> parts[i].vault in ls)
    && (forall i, j :: 0 <= i < j < |parts| ==> parts[i].vault != parts[j].vault)
  }

  ghost predicate WaitsFrom(l: Listing, from: nat, h: Hit) {
    exists k :: from <= k < |l.stream| && l.stream[k] == h
  }

  /** A hit the client has not been given yet. */
  ghost predicate Waits(ls: Listings, parts: seq<Part>, f: Found)
    requires KnownParts(ls, parts)
  {
    exists i :: 0 <= i < |parts| && WaitsIn(ls, parts[i], f)
  }

  ghost predicate WaitsIn(ls: Listings, part: Part, f: Found)
    requires part.vault in ls
  {
    part.vault == f.vault && WaitsFrom(ls[part.vault], ls[part.vault].off(part.c) + part.s, f.hit)
  }

  ghost predicate Sorted(hits: seq<Found>) {
    forall i, j :: 0 <= i < j < |hits| ==> Ahead(hits[i], hits[j])
  }

  // ── One call ──

  function PagesFor(ls: Listings, parts: seq<Part>, limit: nat): (pages: seq<VaultPage>)
    requires KnownParts(ls, parts)
    ensures |pages| == |parts|
  {
    seq(|parts|, i requires 0 <= i < |parts| => VaultPage(parts[i], ls[parts[i].vault].page(parts[i].c, limit)))
  }

  /** What the client gets, and the cursor for its next call. */
  function Call(ls: Listings, parts: seq<Part>, limit: nat): (seq<Found>, seq<Part>)
    requires KnownParts(ls, parts)
  {
    var pages := PagesFor(ls, parts, limit);
    var (hits, pos) := Merge(pages, Starts(pages), limit);
    (hits, AllLeft(pages, pos))
  }

  /** The page read again is still as long as what was returned of it. */
  ghost predicate Fits(ls: Listings, parts: seq<Part>, limit: nat)
    requires KnownParts(ls, parts)
  {
    forall i :: 0 <= i < |parts| ==> parts[i].s <= |ls[parts[i].vault].page(parts[i].c, limit).hits|
  }

  ghost predicate LawfulPages(ls: Listings, pages: seq<VaultPage>) {
    && (forall i :: 0 <= i < |pages| ==>
          && pages[i].part.vault in ls && InOrder(ls[pages[i].part.vault].stream)
          && LawfulPage(ls[pages[i].part.vault], pages[i].part.c, pages[i].page))
    && (forall i, j :: 0 <= i < j < |pages| ==> pages[i].part.vault != pages[j].part.vault)
  }

  ghost predicate PagesOk(ls: Listings, pages: seq<VaultPage>, pos: seq<nat>) {
    && |pos| == |pages| && LawfulPages(ls, pages)
    && forall i :: 0 <= i < |pages| ==> pos[i] <= |pages[i].page.hits|
  }

  /** Not returned yet, when the pages have been returned up to `pos`. */
  ghost predicate Rest(ls: Listings, pages: seq<VaultPage>, pos: seq<nat>, f: Found)
    requires PagesOk(ls, pages, pos)
  {
    exists i :: 0 <= i < |pages| && RestOf(ls, pages[i], pos[i], f)
  }

  ghost predicate RestOf(ls: Listings, p: VaultPage, at: nat, f: Found)
    requires p.part.vault in ls
  {
    p.part.vault == f.vault && WaitsFrom(ls[p.part.vault], ls[p.part.vault].off(p.part.c) + at, f.hit)
  }

  lemma {:induction false} BestIsBest(pages: seq<VaultPage>, pos: seq<nat>, n: nat, i: nat)
    requires i < n <= |pages| == |pos| && !Exhausted(pages[i], pos[i])
    ensures BestOf(pages, pos, n).Some?
    ensures var b := BestOf(pages, pos, n).value;
      HeadOf(pages[b], pos[b]) == HeadOf(pages[i], pos[i]) || Ahead(HeadOf(pages[b], pos[b]), HeadOf(pages[i], pos[i]))
  {
    var last := n - 1;
    if i < last { BestIsBest(pages, pos, last, i); }
    if !Exhausted(pages[last], pos[last]) && BestOf(pages, pos, last).Some? {
      var a := BestOf(pages, pos, last).value;
      var ha, hl, hi := HeadOf(pages[a], pos[a]), HeadOf(pages[last], pos[last]), HeadOf(pages[i], pos[i]);
      CompareOrders(hl, ha);
      CompareOrders(ha, hl);
      if Ahead(hl, ha) && Ahead(ha, hi) { AheadTransitive(hl, ha, hi); }
    }
  }

  lemma HeadLeads(ls: Listings, pages: seq<VaultPage>, pos: seq<nat>, i: nat, f: Found)
    requires PagesOk(ls, pages, pos) && i < |pages| && RestOf(ls, pages[i], pos[i], f) && !Blocked(pages, pos)
    ensures !Exhausted(pages[i], pos[i])
    ensures f == HeadOf(pages[i], pos[i]) || Ahead(HeadOf(pages[i], pos[i]), f)
  {
    var l := ls[f.vault];
    var from := l.off(pages[i].part.c);
    var k :| from + pos[i] <= k < |l.stream| && l.stream[k] == f.hit;
    assert pages[i].page.hits == l.stream[from..from + |pages[i].page.hits|];
    if from + pos[i] < k { assert HitAhead(l.stream[from + pos[i]], l.stream[k]); }
  }

  lemma BestLeads(ls: Listings, pages: seq<VaultPage>, pos: seq<nat>, f: Found)
    requires PagesOk(ls, pages, pos) && !Blocked(pages, pos) && Rest(ls, pages, pos, f)
    ensures BestOf(pages, pos, |pages|).Some?
    ensures var b := BestOf(pages, pos, |pages|).value;
      f == HeadOf(pages[b], pos[b]) || Ahead(HeadOf(pages[b], pos[b]), f)
  {
    var i :| 0 <= i < |pages| && RestOf(ls, pages[i], pos[i], f);
    HeadLeads(ls, pages, pos, i, f);
    BestIsBest(pages, pos, |pages|, i);
    var b := BestOf(pages, pos, |pages|).value;
    if Ahead(HeadOf(pages[b], pos[b]), HeadOf(pages[i], pos[i])) && Ahead(HeadOf(pages[i], pos[i]), f) {
      AheadTransitive(HeadOf(pages[b], pos[b]), HeadOf(pages[i], pos[i]), f);
    }
  }

  /** Returning a hit takes it, and only it, from the rest; what stays is behind it. */
  lemma PickMoves(ls: Listings, pages: seq<VaultPage>, pos: seq<nat>, b: nat, f: Found)
    requires PagesOk(ls, pages, pos) && b < |pages| && !Exhausted(pages[b], pos[b])
    ensures PagesOk(ls, pages, pos[b := pos[b] + 1])
    ensures Rest(ls, pages, pos, f) <==> f == HeadOf(pages[b], pos[b]) || Rest(ls, pages, pos[b := pos[b] + 1], f)
    ensures !Rest(ls, pages, pos[b := pos[b] + 1], HeadOf(pages[b], pos[b]))
  {
    var pos' := pos[b := pos[b] + 1];
    var head := HeadOf(pages[b], pos[b]);
    var l := ls[pages[b].part.vault];
    var from := l.off(pages[b].part.c) + pos[b];
    assert l.stream[from] == head.hit;
    HeadMoves(l, from, f.hit);
    HeadMoves(l, from, head.hit);
    assert f == head ==> RestOf(ls, pages[b], pos[b], f);
    assert RestOf(ls, pages[b], pos[b], f) <==> f == head || RestOf(ls, pages[b], pos'[b], f);
    if Rest(ls, pages, pos, f) {
      var i :| 0 <= i < |pages| && RestOf(ls, pages[i], pos[i], f);
      assert i != b ==> RestOf(ls, pages[i], pos'[i], f);
    }
    if Rest(ls, pages, pos', f) {
      var i :| 0 <= i < |pages| && RestOf(ls, pages[i], pos'[i], f);
      assert RestOf(ls, pages[i], pos[i], f);
    }
  }

  lemma HeadMoves(l: Listing, from: nat, h: Hit)
    requires InOrder(l.stream) && from < |l.stream|
    ensures WaitsFrom(l, from, h) <==> h == l.stream[from] || WaitsFrom(l, from + 1, h)
    ensures !WaitsFrom(l, from + 1, l.stream[from])
  {
    if WaitsFrom(l, from + 1, l.stream[from]) {
      var k :| from + 1 <= k < |l.stream| && l.stream[k] == l.stream[from];
      assert HitAhead(l.stream[from], l.stream[k]);
      BeforeIrreflexive(l.stream[from].id);
    }
    if WaitsFrom(l, from, h) {
      var k :| from <= k < |l.stream| && l.stream[k] == h;
    }
  }

  /** The hits of a call, taken off the rest in order. */
  ghost predicate TakesOff(ls: Listings, pages: seq<VaultPage>, pos: seq<nat>, hits: seq<Found>, pos': seq<nat>)
    requires PagesOk(ls, pages, pos)
  {
    && PagesOk(ls, pages, pos')
    && (forall f :: Rest(ls, pages, pos, f) <==> f in hits || Rest(ls, pages, pos', f))
    && Sorted(hits)
    && (forall h, f :: h in hits && Rest(ls, pages, pos', f) ==> Ahead(h, f))
  }

  lemma NothingTaken(ls: Listings, pages: seq<VaultPage>, pos: seq<nat>)
    requires PagesOk(ls, pages, pos)
    ensures TakesOff(ls, pages, pos, [], pos)
  {}

  lemma {:induction false} MergeTakes(ls: Listings, pages: seq<VaultPage>, pos: seq<nat>, limit: nat, m: Merged)
    requires PagesOk(ls, pages, pos) && m == Merge(pages, pos, limit)
    ensures TakesOff(ls, pages, pos, m.0, m.1)
    decreases limit
  {
    var best, pos1, m1 := MergeUnfolds(pages, pos, limit, m);
    if best.None? {
      NothingTaken(ls, pages, pos);
    } else {
      PickOk(ls, pages, pos, best.value, pos1);
      MergeTakes(ls, pages, pos1, limit - 1, m1);
      OneMoreTaken(ls, pages, pos, best.value, pos1, m1, m);
    }
  }

  lemma {:induction false} MergeIsShort(pages: seq<VaultPage>, pos: seq<nat>, limit: nat, m: Merged)
    requires |pos| == |pages| && m == Merge(pages, pos, limit)
    ensures |m.0| <= limit
    decreases limit
  {
    var best, pos1, m1 := MergeUnfolds(pages, pos, limit, m);
    if best.Some? { MergeIsShort(pages, pos1, limit - 1, m1); }
  }

  lemma MergeTakesOff(ls: Listings, pages: seq<VaultPage>, pos: seq<nat>, limit: nat, m: Merged)
    requires PagesOk(ls, pages, pos) && m == Merge(pages, pos, limit)
    ensures TakesOff(ls, pages, pos, m.0, m.1) && |m.0| <= limit
  {
    MergeTakes(ls, pages, pos, limit, m);
    MergeIsShort(pages, pos, limit, m);
  }

  lemma PickOk(ls: Listings, pages: seq<VaultPage>, pos: seq<nat>, b: nat, pos1: seq<nat>)
    requires PagesOk(ls, pages, pos) && b < |pages| && !Exhausted(pages[b], pos[b]) && pos1 == pos[b := pos[b] + 1]
    ensures PagesOk(ls, pages, pos1)
  {
    PickMoves(ls, pages, pos, b, HeadOf(pages[b], pos[b]));
  }

  lemma OneMoreTaken(ls: Listings, pages: seq<VaultPage>, pos: seq<nat>, b: nat, pos1: seq<nat>, m1: Merged, m: Merged)
    requires PagesOk(ls, pages, pos) && !Blocked(pages, pos) && BestOf(pages, pos, |pages|) == Some(b)
    requires pos1 == pos[b := pos[b] + 1] && PagesOk(ls, pages, pos1) && TakesOff(ls, pages, pos1, m1.0, m1.1)
    requires m == ([HeadOf(pages[b], pos[b])] + m1.0, m1.1)
    ensures TakesOff(ls, pages, pos, m.0, m.1)
  {
    var hits := m1.0;
    var head := HeadOf(pages[b], pos[b]);
    forall f ensures Rest(ls, pages, pos, f) <==> f == head || Rest(ls, pages, pos1, f) {
      PickMoves(ls, pages, pos, b, f);
    }
    forall f | Rest(ls, pages, pos1, f) ensures Ahead(head, f) {
      PickMoves(ls, pages, pos, b, f);
      BestLeads(ls, pages, pos, f);
    }
    forall j | 0 <= j < |hits| ensures Ahead(head, hits[j]) {
      assert hits[j] in hits && Rest(ls, pages, pos1, hits[j]);
    }
  }

  // ── The cursor handed back ──

  lemma LeftOne(ls: Listings, p: VaultPage, at: nat, f: Found)
    requires p.part.vault in ls && LawfulPage(ls[p.part.vault], p.part.c, p.page) && at <= |p.page.hits|
    ensures RestOf(ls, p, at, f) <==> exists i :: 0 <= i < |Left(p, at)| && WaitsIn(ls, Left(p, at)[i], f)
  {
    if Left(p, at) != [] { assert WaitsIn(ls, Left(p, at)[0], f) <==> RestOf(ls, p, at, f); }
  }

  ghost predicate From(parts: seq<Part>, pages: seq<VaultPage>) {
    forall j :: 0 <= j < |parts| ==> exists i :: 0 <= i < |pages| && pages[i].part.vault == parts[j].vault
  }

  lemma {:induction false} LeftKnown(ls: Listings, pages: seq<VaultPage>, pos: seq<nat>)
    requires PagesOk(ls, pages, pos)
    ensures KnownParts(ls, AllLeft(pages, pos)) && From(AllLeft(pages, pos), pages)
  {
    if pages != [] {
      var n := |pages| - 1;
      var ps, at := pages[..n], pos[..n];
      assert PagesOk(ls, ps, at);
      LeftKnown(ls, ps, at);
      OneMoreLeft(ls, pages, pos, AllLeft(ps, at));
    }
  }

  lemma OneMoreLeft(ls: Listings, pages: seq<VaultPage>, pos: seq<nat>, before: seq<Part>)
    requires PagesOk(ls, pages, pos) && pages != [] && KnownParts(ls, before) && From(before, pages[..|pages| - 1])
    ensures var n := |pages| - 1; KnownParts(ls, before + Left(pages[n], pos[n])) && From(before + Left(pages[n], pos[n]), pages)
  {
    var n := |pages| - 1;
    var last := Left(pages[n], pos[n]);
    var all: seq<Part> := before + last;
    forall j | 0 <= j < |all| ensures exists i :: 0 <= i < |pages| && pages[i].part.vault == all[j].vault {
      if j < |before| {
        var i :| 0 <= i < n && pages[..n][i].part.vault == before[j].vault;
        assert pages[i].part.vault == all[j].vault;
      } else {
        assert pages[n].part.vault == all[j].vault;
      }
    }
    forall j, k | 0 <= j < k < |all| ensures all[j].vault != all[k].vault {
      if j < |before| {
        var i :| 0 <= i < n && pages[..n][i].part.vault == before[j].vault;
        assert k >= |before| ==> pages[i].part.vault != pages[n].part.vault;
      }
    }
  }

  lemma {:induction false} LeftWaits(ls: Listings, pages: seq<VaultPage>, pos: seq<nat>, f: Found)
    requires PagesOk(ls, pages, pos) && KnownParts(ls, AllLeft(pages, pos))
    ensures Waits(ls, AllLeft(pages, pos), f) <==> Rest(ls, pages, pos, f)
  {
    if pages != [] {
      var n := |pages| - 1;
      var before, last := AllLeft(pages[..n], pos[..n]), Left(pages[n], pos[n]);
      LeftKnown(ls, pages[..n], pos[..n]);
      LeftWaits(ls, pages[..n], pos[..n], f);
      LeftOne(ls, pages[n], pos[n], f);
      WaitsSplits(ls, before, last, f);
      RestSplits(ls, pages, pos, f);
    }
  }

  lemma WaitsSplits(ls: Listings, before: seq<Part>, last: seq<Part>, f: Found)
    requires KnownParts(ls, before + last) && KnownParts(ls, before)
    ensures forall i :: 0 <= i < |last| ==> last[i] == (before + last)[|before| + i]
    ensures Waits(ls, before + last, f) <==> Waits(ls, before, f) || exists i :: 0 <= i < |last| && WaitsIn(ls, last[i], f)
  {
    var all := before + last;
    assert forall i :: 0 <= i < |last| ==> last[i] == all[|before| + i];
    assert forall i :: 0 <= i < |before| ==> before[i] == all[i];
    if i :| 0 <= i < |all| && WaitsIn(ls, all[i], f) {
      if i >= |before| { assert WaitsIn(ls, last[i - |before|], f); } else { assert WaitsIn(ls, before[i], f); }
    }
    if i :| 0 <= i < |before| && WaitsIn(ls, before[i], f) { assert WaitsIn(ls, all[i], f); }
    if i :| 0 <= i < |last| && WaitsIn(ls, last[i], f) { assert WaitsIn(ls, all[|before| + i], f); }
  }

  lemma RestSplits(ls: Listings, pages: seq<VaultPage>, pos: seq<nat>, f: Found)
    requires PagesOk(ls, pages, pos) && pages != []
    ensures var n := |pages| - 1;
      Rest(ls, pages, pos, f) <==> Rest(ls, pages[..n], pos[..n], f) || RestOf(ls, pages[n], pos[n], f)
  {
    var n := |pages| - 1;
    if i :| 0 <= i < |pages| && RestOf(ls, pages[i], pos[i], f) {
      if i < n { assert RestOf(ls, pages[..n][i], pos[..n][i], f); }
    }
    if i :| 0 <= i < n && RestOf(ls, pages[..n][i], pos[..n][i], f) { assert RestOf(ls, pages[i], pos[i], f); }
  }

  // ── What one call does ──

  lemma PagesForOk(ls: Listings, parts: seq<Part>, limit: nat)
    requires AllLawful(ls) && KnownParts(ls, parts) && limit >= 1
    ensures PagesOk(ls, PagesFor(ls, parts, limit), Starts(PagesFor(ls, parts, limit)))
  {}

  /** The part of the cursor the call really goes on from. */
  function Effective(ls: Listings, parts: seq<Part>, limit: nat): seq<Part>
    requires KnownParts(ls, parts)
  {
    seq(|parts|, i requires 0 <= i < |parts| =>
      parts[i].(s := Min(parts[i].s, |ls[parts[i].vault].page(parts[i].c, limit).hits|)))
  }

  lemma StartsWait(ls: Listings, parts: seq<Part>, limit: nat, f: Found)
    requires AllLawful(ls) && KnownParts(ls, parts) && limit >= 1
    requires PagesOk(ls, PagesFor(ls, parts, limit), Starts(PagesFor(ls, parts, limit)))
    requires KnownParts(ls, Effective(ls, parts, limit))
    ensures Rest(ls, PagesFor(ls, parts, limit), Starts(PagesFor(ls, parts, limit)), f) <==> Waits(ls, Effective(ls, parts, limit), f)
  {
    var pages := PagesFor(ls, parts, limit);
    var eff := Effective(ls, parts, limit);
    forall i | 0 <= i < |parts| ensures RestOf(ls, pages[i], Starts(pages)[i], f) <==> WaitsIn(ls, eff[i], f) {}
  }

  lemma CallTakes(ls: Listings, parts: seq<Part>, limit: nat)
    requires AllLawful(ls) && KnownParts(ls, parts) && limit >= 1
    ensures var (hits, parts') := Call(ls, parts, limit);
      && KnownParts(ls, parts') && KnownParts(ls, Effective(ls, parts, limit))
      && (forall f :: Waits(ls, Effective(ls, parts, limit), f) <==> f in hits || Waits(ls, parts', f))
      && Sorted(hits) && |hits| <= limit
      && (forall h, f :: h in hits && Waits(ls, parts', f) ==> Ahead(h, f))
  {
    var pages := PagesFor(ls, parts, limit);
    PagesForOk(ls, parts, limit);
    var m := Merge(pages, Starts(pages), limit);
    MergeTakesOff(ls, pages, Starts(pages), limit, m);
    LeftKnown(ls, pages, m.1);
    forall f ensures Waits(ls, AllLeft(pages, m.1), f) <==> Rest(ls, pages, m.1, f) { LeftWaits(ls, pages, m.1, f); }
    forall f ensures Waits(ls, Effective(ls, parts, limit), f) <==> Rest(ls, pages, Starts(pages), f) {
      StartsWait(ls, parts, limit, f);
    }
  }

  /** A cursor that some call handed out: it does not point past the end. */
  ghost predicate Genuine(ls: Listings, parts: seq<Part>)
    requires KnownParts(ls, parts)
  {
    forall i :: 0 <= i < |parts| ==> ls[parts[i].vault].off(parts[i].c) + parts[i].s <= |ls[parts[i].vault].stream|
  }

  /** The hits of a call and what its cursor still announces are exactly what was announced before. */
  ghost predicate NothingSkippedNorRepeated(ls: Listings, parts: seq<Part>, limit: nat)
    requires KnownParts(ls, parts) && KnownParts(ls, Call(ls, parts, limit).1)
  {
    forall f :: Waits(ls, parts, f) <==> f in Call(ls, parts, limit).0 || Waits(ls, Call(ls, parts, limit).1, f)
  }

  lemma WaitsBefore(ls: Listings, parts: seq<Part>, i: nat, k: nat)
    requires AllLawful(ls) && KnownParts(ls, parts) && i < |parts|
    requires k < |ls[parts[i].vault].stream| && k < ls[parts[i].vault].off(parts[i].c) + parts[i].s
    ensures !Waits(ls, parts, Found(parts[i].vault, ls[parts[i].vault].stream[k]))
  {
    var l := ls[parts[i].vault];
    if WaitsFrom(l, l.off(parts[i].c) + parts[i].s, l.stream[k]) {
      var m :| k < m < |l.stream| && l.stream[m] == l.stream[k];
      assert HitAhead(l.stream[k], l.stream[m]);
      BeforeIrreflexive(l.stream[k].id);
    }
  }

  /** A call neither skips nor repeats exactly when every page read again still fits. */
  lemma CallExact(ls: Listings, parts: seq<Part>, limit: nat)
    requires AllLawful(ls) && KnownParts(ls, parts) && Genuine(ls, parts) && limit >= 1
    ensures KnownParts(ls, Call(ls, parts, limit).1)
    ensures NothingSkippedNorRepeated(ls, parts, limit) <==> Fits(ls, parts, limit)
  {
    CallTakes(ls, parts, limit);
    var eff := Effective(ls, parts, limit);
    if Fits(ls, parts, limit) {
      assert eff == parts;
    } else {
      var i :| 0 <= i < |parts| && parts[i].s > |ls[parts[i].vault].page(parts[i].c, limit).hits|;
      var l := ls[parts[i].vault];
      var k := l.off(parts[i].c) + eff[i].s;
      var f := Found(parts[i].vault, l.stream[k]);
      WaitsBefore(ls, parts, i, k);
      assert WaitsIn(ls, eff[i], f);
    }
  }

  lemma {:induction false} LeftGenuine(ls: Listings, pages: seq<VaultPage>, pos: seq<nat>)
    requires PagesOk(ls, pages, pos) && KnownParts(ls, AllLeft(pages, pos))
    ensures Genuine(ls, AllLeft(pages, pos))
  {
    if pages != [] {
      var n := |pages| - 1;
      LeftKnown(ls, pages[..n], pos[..n]);
      LeftGenuine(ls, pages[..n], pos[..n]);
      var before, last := AllLeft(pages[..n], pos[..n]), Left(pages[n], pos[n]);
      var all := AllLeft(pages, pos);
      forall j | 0 <= j < |all| ensures ls[all[j].vault].off(all[j].c) + all[j].s <= |ls[all[j].vault].stream| {
        if j < |before| { assert all[j] == before[j]; } else { assert all[j] == last[j - |before|]; }
      }
    }
  }

  // ── Whole runs ──

  function FirstParts(vs: seq<Text>): seq<Part> {
    seq(|vs|, i requires 0 <= i < |vs| => Part(vs[i], None, 0))
  }

  /** Calls with these limits, each with the cursor of the one before, return `out` and leave `parts'`. */
  ghost predicate Run(ls: Listings, parts: seq<Part>, limits: seq<nat>, out: seq<Found>, parts': seq<Part>)
    requires AllLawful(ls) && KnownParts(ls, parts)
    decreases |limits|
  {
    if limits == [] then out == [] && parts' == parts else
      && limits[0] >= 1 && Fits(ls, parts, limits[0])
      && (CallTakes(ls, parts, limits[0]);
          var (hits, rest) := Call(ls, parts, limits[0]);
          hits <= out && Run(ls, rest, limits[1..], out[|hits|..], parts'))
  }

  lemma {:induction false} RunTakes(ls: Listings, parts: seq<Part>, limits: seq<nat>, out: seq<Found>, parts': seq<Part>)
    requires AllLawful(ls) && KnownParts(ls, parts) && Run(ls, parts, limits, out, parts')
    ensures KnownParts(ls, parts')
    ensures forall f :: Waits(ls, parts, f) <==> f in out || Waits(ls, parts', f)
    ensures Sorted(out)
    ensures forall h, f :: h in out && Waits(ls, parts', f) ==> Ahead(h, f)
    decreases |limits|
  {
    if limits != [] {
      CallTakes(ls, parts, limits[0]);
      assert Effective(ls, parts, limits[0]) == parts;
      var (hits, rest) := Call(ls, parts, limits[0]);
      var more := out[|hits|..];
      assert out == hits + more;
      RunTakes(ls, rest, limits[1..], more, parts');
      Appended(ls, hits, rest, more, parts');
    }
  }

  lemma Appended(ls: Listings, hits: seq<Found>, rest: seq<Part>, more: seq<Found>, parts': seq<Part>)
    requires KnownParts(ls, rest) && KnownParts(ls, parts') && Sorted(hits) && Sorted(more)
    requires forall h, f :: h in hits && Waits(ls, rest, f) ==> Ahead(h, f)
    requires forall f :: Waits(ls, rest, f) <==> f in more || Waits(ls, parts', f)
    requires forall h, f :: h in more && Waits(ls, parts', f) ==> Ahead(h, f)
    ensures Sorted(hits + more)
    ensures forall h, f :: h in hits + more && Waits(ls, parts', f) ==> Ahead(h, f)
  {
    forall i, j | 0 <= i < j < |hits + more| ensures Ahead((hits + more)[i], (hits + more)[j]) {
      if i < |hits| <= j { assert hits[i] in hits && more[j - |hits|] in more; }
    }
  }

  lemma FirstWait(ls: Listings, vs: seq<Text>, f: Found)
    requires AllLawful(ls) && KnownParts(ls, FirstParts(vs))
    ensures Waits(ls, FirstParts(vs), f) <==> f.vault in vs && f.vault in ls && f.hit in ls[f.vault].stream
  {
    var parts := FirstParts(vs);
    if Waits(ls, parts, f) {
      var i :| 0 <= i < |parts| && WaitsIn(ls, parts[i], f);
      assert vs[i] == f.vault;
    }
    if f.vault in vs && f.vault in ls && f.hit in ls[f.vault].stream {
      var i :| 0 <= i < |vs| && vs[i] == f.vault;
      var k :| 0 <= k < |ls[f.vault].stream| && ls[f.vault].stream[k] == f.hit;
      assert WaitsIn(ls, parts[i], f);
    }
  }

  /** A run to the end returns every hit of every vault, once, in the global order. */
  lemma PaginationIsTheGlobalSort(ls: Listings, vs: seq<Text>, limits: seq<nat>, out: seq<Found>)
    requires AllLawful(ls) && KnownParts(ls, FirstParts(vs)) && Run(ls, FirstParts(vs), limits, out, [])
    ensures Sorted(out)
    ensures forall f :: f in out <==> f.vault in vs && f.vault in ls && f.hit in ls[f.vault].stream
  {
    RunTakes(ls, FirstParts(vs), limits, out, []);
    forall f ensures f in out <==> f.vault in vs && f.vault in ls && f.hit in ls[f.vault].stream {
      FirstWait(ls, vs, f);
    }
  }

  /** There is only one such list. */
  lemma {:induction false} SortedUnique(a: seq<Found>, b: seq<Found>)
    requires Sorted(a) && Sorted(b) && forall f :: f in a <==> f in b
    ensures a == b
  {
    EmptyTogether(a, b);
    if a != [] {
      assert a[0] in a && b[0] in b;
      LeastFirst(a, b[0]);
      LeastFirst(b, a[0]);
      CompareOrders(a[0], b[0]);
      CompareOrders(b[0], a[0]);
      forall f ensures f in a[1..] <==> f in b[1..] {
        TailOf(a, f);
        TailOf(b, f);
      }
      SortedUnique(a[1..], b[1..]);
    }
  }

  lemma EmptyTogether(a: seq<Found>, b: seq<Found>)
    requires forall f :: f in a <==> f in b
    ensures a == [] <==> b == []
  {
    if |a| > 0 { assert a[0] in a; }
    if |b| > 0 { assert b[0] in b; }
  }

  lemma LeastFirst(a: seq<Found>, f: Found)
    requires Sorted(a) && f in a
    ensures f == a[0] || Ahead(a[0], f)
  {}

  lemma TailOf(a: seq<Found>, f: Found)
    requires Sorted(a) && a != []
    ensures f in a[1..] <==> f in a && f != a[0]
  {
    if f in a[1..] {
      var i :| 1 <= i < |a| && a[i] == f;
      assert Ahead(a[0], a[i]);
      CompareOrders(a[0], a[i]);
    }
  }

  // ── Every run ends ──

  /** What is left of one vault to go through: its hits, its pages, and itself. */
  function ToGo(l: Listing, c: Option<Cursor>, s: nat): int {
    |l.stream| - l.off(c) - s + l.rank(c) + 1
  }

  function Sum(ns: seq<int>): int {
    if ns == [] then 0 else Sum(ns[..|ns| - 1]) + ns[|ns| - 1]
  }

  function Measure(ls: Listings, parts: seq<Part>): int
    requires KnownParts(ls, parts)
  {
    Sum(seq(|parts|, i requires 0 <= i < |parts| => ToGo(ls[parts[i].vault], parts[i].c, parts[i].s)))
  }

  /** For each page, what there is to go through. */
  function Amounts(ls: Listings, pages: seq<VaultPage>, pos: seq<nat>): (ns: seq<int>)
    requires PagesOk(ls, pages, pos)
    ensures |ns| == |pages|
  {
    seq(|pages|, i requires 0 <= i < |pages| => ToGo(ls[pages[i].part.vault], pages[i].part.c, pos[i]))
  }

  function MeasureAt(ls: Listings, pages: seq<VaultPage>, pos: seq<nat>): int
    requires PagesOk(ls, pages, pos)
  {
    Sum(Amounts(ls, pages, pos))
  }

  lemma {:induction false} SumUpdate(ns: seq<int>, i: nat, n: int)
    requires i < |ns|
    ensures Sum(ns[i := n]) == Sum(ns) - ns[i] + n
  {
    var last := |ns| - 1;
    if i < last {
      assert ns[i := n][..last] == ns[..last][i := n];
      SumUpdate(ns[..last], i, n);
    } else {
      assert ns[i := n][..last] == ns[..last];
    }
  }

  lemma SumAppend(ns: seq<int>, n: int)
    ensures Sum(ns + [n]) == Sum(ns) + n
  {
    assert (ns + [n])[..|ns|] == ns;
  }

  lemma OnePickCounts(ls: Listings, pages: seq<VaultPage>, pos: seq<nat>, b: nat, pos1: seq<nat>)
    requires PagesOk(ls, pages, pos) && b < |pages| && !Exhausted(pages[b], pos[b]) && pos1 == pos[b := pos[b] + 1]
    ensures PagesOk(ls, pages, pos1)
    ensures MeasureAt(ls, pages, pos1) == MeasureAt(ls, pages, pos) - 1
  {
    PickOk(ls, pages, pos, b, pos1);
    var ns := Amounts(ls, pages, pos);
    assert Amounts(ls, pages, pos1) == ns[b := ns[b] - 1];
    SumUpdate(ns, b, ns[b] - 1);
  }

  /** Each hit of a call is one less to go through. */
  ghost predicate CountsFrom(ls: Listings, pages: seq<VaultPage>, pos: seq<nat>, m: Merged)
    requires PagesOk(ls, pages, pos)
  {
    PagesOk(ls, pages, m.1) && MeasureAt(ls, pages, m.1) == MeasureAt(ls, pages, pos) - |m.0|
  }

  lemma OneMoreCounted(ls: Listings, pages: seq<VaultPage>, pos: seq<nat>, b: nat, pos1: seq<nat>, m1: Merged, m: Merged)
    requires PagesOk(ls, pages, pos) && b < |pages| && !Exhausted(pages[b], pos[b]) && pos1 == pos[b := pos[b] + 1]
    requires PagesOk(ls, pages, pos1) && CountsFrom(ls, pages, pos1, m1)
    requires m == ([HeadOf(pages[b], pos[b])] + m1.0, m1.1)
    ensures CountsFrom(ls, pages, pos, m)
  {
    OnePickCounts(ls, pages, pos, b, pos1);
  }

  lemma {:induction false} MergeCounts(ls: Listings, pages: seq<VaultPage>, pos: seq<nat>, limit: nat, m: Merged)
    requires PagesOk(ls, pages, pos) && m == Merge(pages, pos, limit)
    ensures CountsFrom(ls, pages, pos, m)
    decreases limit
  {
    var best, pos1, m1 := MergeUnfolds(pages, pos, limit, m);
    if best.Some? {
      PickOk(ls, pages, pos, best.value, pos1);
      MergeCounts(ls, pages, pos1, limit - 1, m1);
      OneMoreCounted(ls, pages, pos, best.value, pos1, m1, m);
    }
  }

  lemma {:induction false} SumLess(a: seq<int>, b: seq<int>, i: nat)
    requires |a| == |b| && forall k :: 0 <= k < |a| ==> 0 <= a[k] <= b[k]
    ensures 0 <= Sum(a) <= Sum(b)
    ensures i < |a| && a[i] < b[i] ==> Sum(a) < Sum(b)
  {
    if a != [] { SumLess(a[..|a| - 1], b[..|b| - 1], i); }
  }

  function StillToGo(l: Listing, p: VaultPage, at: nat): int {
    if !Exhausted(p, at) then ToGo(l, p.part.c, at) else if p.page.next.Some? then ToGo(l, p.page.next, 0) else 0
  }

  /** For each page, what there is to go through once it is left. */
  function LeftAmounts(ls: Listings, pages: seq<VaultPage>, pos: seq<nat>): (ns: seq<int>)
    requires PagesOk(ls, pages, pos)
    ensures |ns| == |pages|
  {
    seq(|pages|, i requires 0 <= i < |pages| => StillToGo(ls[pages[i].part.vault], pages[i], pos[i]))
  }

  lemma LeftIsKnown(ls: Listings, pages: seq<VaultPage>, pos: seq<nat>)
    requires PagesOk(ls, pages, pos)
    ensures KnownParts(ls, AllLeft(pages, pos))
  {
    LeftKnown(ls, pages, pos);
  }

  lemma {:induction false} LeftIsSum(ls: Listings, pages: seq<VaultPage>, pos: seq<nat>)
    requires PagesOk(ls, pages, pos) && KnownParts(ls, AllLeft(pages, pos))
    ensures Measure(ls, AllLeft(pages, pos)) == Sum(LeftAmounts(ls, pages, pos))
  {
    if pages != [] {
      var n := |pages| - 1;
      var ps, at := pages[..n], pos[..n];
      LeftIsKnown(ls, ps, at);
      LeftIsSum(ls, ps, at);
      LeftCountsOne(ls, AllLeft(ps, at), pages[n], pos[n]);
      assert LeftAmounts(ls, pages, pos)[..n] == LeftAmounts(ls, ps, at);
    }
  }

  lemma LeftCountsOne(ls: Listings, before: seq<Part>, p: VaultPage, at: nat)
    requires p.part.vault in ls && KnownParts(ls, before) && KnownParts(ls, before + Left(p, at))
    ensures Measure(ls, before + Left(p, at)) == Measure(ls, before) + StillToGo(ls[p.part.vault], p, at)
  {
    if Left(p, at) == [] {
      assert before + Left(p, at) == before;
    } else {
      OneMorePart(ls, before, Left(p, at)[0]);
      assert Left(p, at) == [Left(p, at)[0]];
    }
  }

  lemma OneMorePart(ls: Listings, parts: seq<Part>, part: Part)
    requires KnownParts(ls, parts) && KnownParts(ls, parts + [part])
    ensures part.vault in ls
    ensures Measure(ls, parts + [part]) == Measure(ls, parts) + ToGo(ls[part.vault], part.c, part.s)
  {
    var all := parts + [part];
    assert all[|parts|] == part;
    var ns := seq(|parts|, i requires 0 <= i < |parts| => ToGo(ls[parts[i].vault], parts[i].c, parts[i].s));
    var x := ToGo(ls[part.vault], part.c, part.s);
    assert seq(|all|, i requires 0 <= i < |all| => ToGo(ls[all[i].vault], all[i].c, all[i].s)) == ns + [x];
    SumAppend(ns, x);
  }

  lemma AmountsShrink(ls: Listings, pages: seq<VaultPage>, pos: seq<nat>, i: nat)
    requires PagesOk(ls, pages, pos)
    ensures 0 <= Sum(LeftAmounts(ls, pages, pos)) <= Sum(Amounts(ls, pages, pos))
    ensures i < |pages| && Exhausted(pages[i], pos[i]) ==> Sum(LeftAmounts(ls, pages, pos)) < Sum(Amounts(ls, pages, pos))
  {
    SumLess(LeftAmounts(ls, pages, pos), Amounts(ls, pages, pos), i);
  }

  /**
   * What is left is no more than what there was; and a page fully returned
   * leaves less: its vault is done, or its next page is closer to the end.
   */
  lemma LeftCounts(ls: Listings, pages: seq<VaultPage>, pos: seq<nat>, i: nat)
    requires PagesOk(ls, pages, pos) && KnownParts(ls, AllLeft(pages, pos))
    ensures 0 <= Measure(ls, AllLeft(pages, pos)) <= MeasureAt(ls, pages, pos)
    ensures i < |pages| && Exhausted(pages[i], pos[i]) ==> Measure(ls, AllLeft(pages, pos)) < MeasureAt(ls, pages, pos)
  {
    LeftIsSum(ls, pages, pos);
    AmountsShrink(ls, pages, pos, i);
  }

  lemma SameMeasure(ls: Listings, parts: seq<Part>, limit: nat)
    requires AllLawful(ls) && KnownParts(ls, parts) && limit >= 1 && Fits(ls, parts, limit)
    requires PagesOk(ls, PagesFor(ls, parts, limit), Starts(PagesFor(ls, parts, limit)))
    ensures MeasureAt(ls, PagesFor(ls, parts, limit), Starts(PagesFor(ls, parts, limit))) == Measure(ls, parts)
  {
    var pages := PagesFor(ls, parts, limit);
    assert Amounts(ls, pages, Starts(pages))
        == seq(|parts|, i requires 0 <= i < |parts| => ToGo(ls[parts[i].vault], parts[i].c, parts[i].s));
  }

  /** Each call returns a hit, or moves a vault to a later page, or is done with one. */
  lemma CallAdvances(ls: Listings, parts: seq<Part>, limit: nat)
    requires AllLawful(ls) && KnownParts(ls, parts) && limit >= 1 && Fits(ls, parts, limit) && parts != []
    ensures KnownParts(ls, Call(ls, parts, limit).1)
    ensures 0 <= Measure(ls, Call(ls, parts, limit).1) < Measure(ls, parts)
  {
    var pages := PagesFor(ls, parts, limit);
    PagesForOk(ls, parts, limit);
    SameMeasure(ls, parts, limit);
    var m := Merge(pages, Starts(pages), limit);
    MergeTakesOff(ls, pages, Starts(pages), limit, m);
    MergeCounts(ls, pages, Starts(pages), limit, m);
    LeftKnown(ls, pages, m.1);
    var best, _, _ := MergeUnfolds(pages, Starts(pages), limit, m);
    var i := 0;
    if best.None? { i := NoHitsMeansExhausted(pages, Starts(pages)); }
    LeftCounts(ls, pages, m.1, i);
  }

  lemma NoHitsMeansExhausted(pages: seq<VaultPage>, pos: seq<nat>) returns (i: nat)
    requires |pos| == |pages| && pages != [] && (Blocked(pages, pos) || BestOf(pages, pos, |pages|).None?)
    ensures i < |pages| && Exhausted(pages[i], pos[i])
  {
    if Blocked(pages, pos) {
      i :| 0 <= i < |pages| && Exhausted(pages[i], pos[i]);
    } else {
      i := 0;
      if !Exhausted(pages[0], pos[0]) { BestIsBest(pages, pos, |pages|, 0); }
    }
  }

  /** So a client that goes on while there is a cursor stops: no run is longer than what there is to go through. */
  lemma {:induction false} RunsEnd(ls: Listings, parts: seq<Part>, limits: seq<nat>, out: seq<Found>, parts': seq<Part>)
    requires AllLawful(ls) && KnownParts(ls, parts) && Run(ls, parts, limits, out, parts')
    ensures KnownParts(ls, parts')
    ensures parts' != [] ==> |limits| + Measure(ls, parts') <= Measure(ls, parts)
    decreases |limits|
  {
    if limits != [] {
      CallTakes(ls, parts, limits[0]);
      var (hits, rest) := Call(ls, parts, limits[0]);
      RunsEnd(ls, rest, limits[1..], out[|hits|..], parts');
      if parts != [] { CallAdvances(ls, parts, limits[0]); } else { NoPartsLeft(ls, limits, out, parts'); }
    }
  }

  lemma {:induction false} NoPartsLeft(ls: Listings, limits: seq<nat>, out: seq<Found>, parts': seq<Part>)
    requires AllLawful(ls) && Run(ls, [], limits, out, parts')
    ensures parts' == []
    decreases |limits|
  {
    if limits != [] {
      var (hits, rest) := Call(ls, [], limits[0]);
      assert rest == [];
      CallTakes(ls, [], limits[0]);
      NoPartsLeft(ls, limits[1..], out[|hits|..], parts');
    }
  }
}
