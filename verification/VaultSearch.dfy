/**
 * What one vault answers (`runSearch` of packages/indexer-core/src/powers/search.ts):
 * the hits after the one the cursor names, in order, at most `limit` of them.
 */
module VaultSearch {
  import opened Common
  import opened Text
  import opened GlobalSearch
  import opened SearchPagination

  predicate Past(h: Hit, c: Option<Cursor>) {
    c.Some? ==> HitAhead(c.value, h)
  }

  function After(stream: seq<Hit>, c: Option<Cursor>): seq<Hit> {
    if stream == [] then [] else (if Past(stream[0], c) then [stream[0]] else []) + After(stream[1..], c)
  }

  /** One row more than asked tells whether there is a next page. */
  function KeysetPage(stream: seq<Hit>, c: Option<Cursor>, limit: nat): Page {
    var rest := After(stream, c);
    var rows := rest[..Min(limit + 1, |rest|)];
    var shown := rows[..Min(limit, |rows|)];
    Page(shown, if |rows| > limit > 0 then Some(shown[|shown| - 1]) else None)
  }

  function Offset(stream: seq<Hit>, c: Option<Cursor>): (off: nat)
    ensures off <= |stream|
  {
    AfterIsShorter(stream, c);
    |stream| - |After(stream, c)|
  }

  function Keyset(stream: seq<Hit>): Listing {
    Listing(stream, (c: Option<Cursor>, n: nat) => KeysetPage(stream, c, n), c => Offset(stream, c), c => |stream| - Offset(stream, c))
  }

  lemma {:induction false} AfterIsShorter(stream: seq<Hit>, c: Option<Cursor>)
    ensures |After(stream, c)| <= |stream|
  {
    if stream != [] { AfterIsShorter(stream[1..], c); }
  }

  lemma {:induction false} AllPast(stream: seq<Hit>, c: Option<Cursor>)
    requires forall i :: 0 <= i < |stream| ==> Past(stream[i], c)
    ensures After(stream, c) == stream
  {
    if stream != [] {
      AllPast(stream[1..], c);
      assert stream == [stream[0]] + stream[1..];
    }
  }

  lemma HitAheadTransitive(a: Hit, b: Hit, c: Hit)
    requires HitAhead(a, b) && HitAhead(b, c)
    ensures HitAhead(a, c)
  {
    if Before(a.id, b.id) && Before(b.id, c.id) { BeforeTransitive(a.id, b.id, c.id); }
  }

  /** The hits past a cursor are the end of the list. */
  lemma {:induction false} AfterIsSuffix(stream: seq<Hit>, c: Option<Cursor>)
    requires InOrder(stream)
    ensures |After(stream, c)| <= |stream|
    ensures After(stream, c) == stream[|stream| - |After(stream, c)|..]
  {
    if stream == [] {
    } else if Past(stream[0], c) {
      forall i | 0 <= i < |stream| ensures Past(stream[i], c) {
        if i > 0 && c.Some? { HitAheadTransitive(c.value, stream[0], stream[i]); }
      }
      AllPast(stream, c);
    } else {
      var rest := stream[1..];
      AfterIsSuffix(rest, c);
      assert After(stream, c) == After(rest, c);
      assert rest[|rest| - |After(rest, c)|..] == stream[|stream| - |After(rest, c)|..];
    }
  }

  /** A cursor that names a hit stands just after it. */
  lemma {:induction false} OffsetOfHit(stream: seq<Hit>, i: nat)
    requires InOrder(stream) && i < |stream|
    ensures Offset(stream, Some(stream[i])) == i + 1
  {
    var c := Some(stream[i]);
    BeforeIrreflexive(stream[i].id);
    if i == 0 {
      AllPast(stream[1..], c);
    } else {
      assert HitAhead(stream[0], stream[i]);
      if Past(stream[0], c) { HitAheadTransitive(stream[0], stream[i], stream[0]); BeforeIrreflexive(stream[0].id); }
      OffsetOfHit(stream[1..], i - 1);
    }
  }

  lemma PageIsPrefix(stream: seq<Hit>, c: Option<Cursor>, limit: nat)
    requires limit >= 1
    ensures var p, rest := KeysetPage(stream, c, limit), After(stream, c);
      && p.hits == rest[..Min(limit, |rest|)]
      && (p.next.Some? <==> |rest| > limit)
      && (p.next.Some? ==> p.next.value == rest[limit - 1])
  {
    var rest := After(stream, c);
    var rows := rest[..Min(limit + 1, |rest|)];
    assert rows[..Min(limit, |rows|)] == rest[..Min(limit, |rest|)];
  }

  lemma PageOfKeyset(stream: seq<Hit>, c: Option<Cursor>, limit: nat)
    requires InOrder(stream) && limit >= 1
    ensures LawfulPage(Keyset(stream), c, KeysetPage(stream, c, limit))
    ensures |KeysetPage(stream, c, limit).hits| == Min(limit, |stream| - Offset(stream, c))
  {
    AfterIsSuffix(stream, c);
    PageIsPrefix(stream, c, limit);
    var off, n := Offset(stream, c), |KeysetPage(stream, c, limit).hits|;
    var rest := After(stream, c);
    assert rest == stream[off..];
    assert rest[..n] == stream[off..off + n];
    if |rest| > limit {
      assert rest[limit - 1] == stream[off + limit - 1];
      OffsetOfHit(stream, off + limit - 1);
    }
  }

  lemma KeysetIsLawful(stream: seq<Hit>)
    requires InOrder(stream)
    ensures Lawful(Keyset(stream))
    ensures forall c, n: nat :: n >= 1 ==> |KeysetPage(stream, c, n).hits| == Min(n, |stream| - Offset(stream, c))
  {
    var l := Keyset(stream);
    AllPast(stream, None);
    forall c, n: nat | n >= 1
      ensures LawfulPage(l, c, l.page(c, n)) && |KeysetPage(stream, c, n).hits| == Min(n, |stream| - Offset(stream, c))
    {
      PageOfKeyset(stream, c, n);
    }
  }

  // ── When the limit changes from one call to the next ──

  ghost predicate AllKeyset(ls: Listings) {
    forall v :: v in ls ==> InOrder(ls[v].stream) && ls[v] == Keyset(ls[v].stream)
  }

  lemma KeysetsAreLawful(ls: Listings)
    requires AllKeyset(ls)
    ensures AllLawful(ls)
  {
    forall v | v in ls ensures Lawful(ls[v]) { KeysetIsLawful(ls[v].stream); }
  }

  /** No call has returned more of a page than this limit allows. */
  predicate WithinLimit(parts: seq<Part>, limit: nat) {
    forall i :: 0 <= i < |parts| ==> parts[i].s <= limit
  }

  /**
   * The cursor does not fix the limit: a page is read again with the limit of
   * the new call. A call neither skips nor repeats a hit if and only if that
   * limit is not below what was already returned of any page.
   */
  lemma LimitExact(ls: Listings, parts: seq<Part>, limit: nat)
    requires AllKeyset(ls) && KnownParts(ls, parts) && Genuine(ls, parts) && limit >= 1
    ensures KnownParts(ls, Call(ls, parts, limit).1)
    ensures NothingSkippedNorRepeated(ls, parts, limit) <==> WithinLimit(parts, limit)
  {
    KeysetsAreLawful(ls);
    CallExact(ls, parts, limit);
    forall i | 0 <= i < |parts| ensures parts[i].s <= |ls[parts[i].vault].page(parts[i].c, limit).hits| <==> parts[i].s <= limit {
      PageOfKeyset(ls[parts[i].vault].stream, parts[i].c, limit);
    }
  }

  lemma {:induction false} LeftWithin(pages: seq<VaultPage>, pos: seq<nat>, limit: nat)
    requires |pos| == |pages| && forall i :: 0 <= i < |pages| ==> |pages[i].page.hits| <= limit
    ensures WithinLimit(AllLeft(pages, pos), limit)
  {
    if pages != [] {
      var n := |pages| - 1;
      LeftWithin(pages[..n], pos[..n], limit);
      assert WithinLimit(Left(pages[n], pos[n]), limit);
    }
  }

  lemma CallStaysWithin(ls: Listings, parts: seq<Part>, limit: nat)
    requires AllKeyset(ls) && KnownParts(ls, parts) && limit >= 1
    ensures WithinLimit(Call(ls, parts, limit).1, limit)
  {
    var pages := PagesFor(ls, parts, limit);
    forall i | 0 <= i < |pages| ensures |pages[i].page.hits| <= limit {
      PageOfKeyset(ls[parts[i].vault].stream, parts[i].c, limit);
    }
    LeftWithin(pages, Merge(pages, Starts(pages), limit).1, limit);
  }

  lemma CallStaysGenuine(ls: Listings, parts: seq<Part>, limit: nat)
    requires AllLawful(ls) && KnownParts(ls, parts) && limit >= 1
    ensures KnownParts(ls, Call(ls, parts, limit).1) && Genuine(ls, Call(ls, parts, limit).1)
  {
    var pages := PagesFor(ls, parts, limit);
    PagesForOk(ls, parts, limit);
    var m := Merge(pages, Starts(pages), limit);
    MergeTakesOff(ls, pages, Starts(pages), limit, m);
    LeftKnown(ls, pages, m.1);
    LeftGenuine(ls, pages, m.1);
  }

  predicate NeverShrinking(limits: seq<nat>) {
    forall i, j :: 0 <= i <= j < |limits| ==> 1 <= limits[i] <= limits[j]
  }

  /** A client whose limit never shrinks (in particular one that keeps it) makes an exact run. */
  lemma {:induction false} NeverShrinkingRuns(ls: Listings, parts: seq<Part>, limits: seq<nat>)
    returns (out: seq<Found>, parts': seq<Part>)
    requires AllKeyset(ls) && AllLawful(ls) && KnownParts(ls, parts) && Genuine(ls, parts) && NeverShrinking(limits)
    requires limits != [] ==> WithinLimit(parts, limits[0])
    ensures Run(ls, parts, limits, out, parts')
    decreases |limits|
  {
    if limits == [] {
      out, parts' := [], parts;
    } else {
      var limit := limits[0];
      LimitExact(ls, parts, limit);
      CallExact(ls, parts, limit);
      CallTakes(ls, parts, limit);
      CallStaysWithin(ls, parts, limit);
      CallStaysGenuine(ls, parts, limit);
      var (hits, rest) := Call(ls, parts, limit);
      var more;
      more, parts' := NeverShrinkingRuns(ls, rest, limits[1..]);
      out := hits + more;
      assert out[|hits|..] == more;
    }
  }

  /** From the first call to an empty cursor: the global sort of all the vaults. */
  lemma NeverShrinkingIsTheGlobalSort(ls: Listings, vs: seq<Text>, limits: seq<nat>)
    returns (out: seq<Found>, parts': seq<Part>)
    requires AllKeyset(ls) && KnownParts(ls, FirstParts(vs)) && NeverShrinking(limits)
    ensures AllLawful(ls) && Run(ls, FirstParts(vs), limits, out, parts') && KnownParts(ls, parts') && Sorted(out)
    ensures |limits| > Measure(ls, FirstParts(vs)) ==> parts' == []
    ensures parts' == [] ==> forall f :: f in out <==> f.vault in vs && f.vault in ls && f.hit in ls[f.vault].stream
  {
    KeysetsAreLawful(ls);
    FirstGenuine(ls, vs);
    out, parts' := NeverShrinkingRuns(ls, FirstParts(vs), limits);
    RunSettles(ls, vs, limits, out, parts');
  }

  lemma FirstGenuine(ls: Listings, vs: seq<Text>)
    requires AllLawful(ls) && KnownParts(ls, FirstParts(vs))
    ensures Genuine(ls, FirstParts(vs)) && WithinLimit(FirstParts(vs), 0)
  {
    var parts := FirstParts(vs);
    forall i | 0 <= i < |parts| ensures ls[parts[i].vault].off(parts[i].c) + parts[i].s <= |ls[parts[i].vault].stream| {
      assert Lawful(ls[parts[i].vault]);
    }
  }

  lemma RunSettles(ls: Listings, vs: seq<Text>, limits: seq<nat>, out: seq<Found>, parts': seq<Part>)
    requires AllKeyset(ls) && AllLawful(ls) && KnownParts(ls, FirstParts(vs)) && Run(ls, FirstParts(vs), limits, out, parts')
    ensures KnownParts(ls, parts') && Sorted(out)
    ensures |limits| > Measure(ls, FirstParts(vs)) ==> parts' == []
    ensures parts' == [] ==> forall f :: f in out <==> f.vault in vs && f.vault in ls && f.hit in ls[f.vault].stream
  {
    RunTakes(ls, FirstParts(vs), limits, out, parts');
    RunsEnd(ls, FirstParts(vs), limits, out, parts');
    if parts' == [] {
      PaginationIsTheGlobalSort(ls, vs, limits, out);
    } else {
      FirstGenuine(ls, vs);
      NotNegative(ls, FirstParts(vs));
      RunStaysAhead(ls, FirstParts(vs), limits, out, parts');
    }
  }

  /** There is never less than nothing to go through. */
  lemma {:induction false} RunStaysAhead(ls: Listings, parts: seq<Part>, limits: seq<nat>, out: seq<Found>, parts': seq<Part>)
    requires AllLawful(ls) && KnownParts(ls, parts) && Run(ls, parts, limits, out, parts') && KnownParts(ls, parts')
    requires limits == [] ==> Measure(ls, parts) >= 0
    ensures Measure(ls, parts') >= 0
    decreases |limits|
  {
    if limits != [] {
      CallTakes(ls, parts, limits[0]);
      var (hits, rest) := Call(ls, parts, limits[0]);
      CallStaysGenuine(ls, parts, limits[0]);
      NotNegative(ls, rest);
      RunStaysAhead(ls, rest, limits[1..], out[|hits|..], parts');
    }
  }

  lemma NotNegative(ls: Listings, parts: seq<Part>)
    requires KnownParts(ls, parts) && Genuine(ls, parts)
    ensures Measure(ls, parts) >= |parts|
  {
    AtLeastOneEach(seq(|parts|, i requires 0 <= i < |parts| => ToGo(ls[parts[i].vault], parts[i].c, parts[i].s)));
  }

  lemma {:induction false} AtLeastOneEach(ns: seq<int>)
    requires forall i :: 0 <= i < |ns| ==> ns[i] >= 1
    ensures Sum(ns) >= |ns|
  {
    if ns != [] { AtLeastOneEach(ns[..|ns| - 1]); }
  }

  // ── A limit that shrinks ──

  const H3 := Hit(3.0, [3])
  const H2 := Hit(2.0, [2])
  const H1 := Hit(1.0, [1])

  /** Three hits, two of them returned with limit 3; with limit 1 the second one comes again. */
  lemma ShrinkingLimitRepeats() returns (ls: Listings, parts: seq<Part>, parts': seq<Part>)
    ensures AllKeyset(ls) && KnownParts(ls, parts) && Genuine(ls, parts)
    ensures ls.Keys == {[1]} && ls[[1]].stream == [H3, H2, H1] && parts == [Part([1], None, 2)]
    ensures !Waits(ls, parts, Found([1], H2))
    ensures Call(ls, parts, 1) == ([], parts') && KnownParts(ls, parts')
    ensures Waits(ls, parts', Found([1], H2))
  {
    var stream := [H3, H2, H1];
    ls := map[[1] := Keyset(stream)];
    parts := [Part([1], None, 2)];
    parts' := [Part([1], Some(H3), 0)];
    AllPast(stream, None);
    FirstOfThree();
    OffsetOfHit(stream, 0);
    KeysetsAreLawful(ls);
    assert ls[parts[0].vault].off(parts[0].c) == 0;
    WaitsBefore(ls, parts, 0, 1);
    ShrunkCall(ls, parts);
    var l := ls[[1]];
    assert l.off(Some(H3)) == 1 && l.stream[1] == H2;
    assert WaitsFrom(l, 1, H2);
    assert WaitsIn(ls, parts'[0], Found([1], H2));
  }

  lemma FirstOfThree()
    ensures InOrder([H3, H2, H1])
    ensures KeysetPage([H3, H2, H1], None, 1) == Page([H3], Some(H3))
  {
    AllPast([H3, H2, H1], None);
    var rows := [H3, H2, H1][..2];
    assert rows[..1] == [H3];
  }

  lemma ShrunkCall(ls: Listings, parts: seq<Part>)
    requires ls == map[[1] := Keyset([H3, H2, H1])] && parts == [Part([1], None, 2)]
    ensures KnownParts(ls, parts) && Call(ls, parts, 1) == ([], [Part([1], Some(H3), 0)])
  {
    FirstOfThree();
    var p := VaultPage(parts[0], Page([H3], Some(H3)));
    var pages := PagesFor(ls, parts, 1);
    assert pages == [p];
    assert Starts(pages) == [1];
    assert Blocked(pages, [1]) by { assert Exhausted(pages[0], [1 as nat][0]); }
    assert Merge(pages, [1], 1) == ([], [1]);
    assert pages[..0] == [] && Left(p, 1) == [Part([1], Some(H3), 0)];
    assert AllLeft(pages, [1]) == [] + [Part([1], Some(H3), 0)];
    var m := Merge(pages, Starts(pages), 1);
    assert m.0 == [] && m.1 == [1];
    assert AllLeft(pages, m.1) == [Part([1], Some(H3), 0)];
    assert Call(ls, parts, 1).0 == m.0 && Call(ls, parts, 1).1 == AllLeft(pages, m.1);
  }
}
