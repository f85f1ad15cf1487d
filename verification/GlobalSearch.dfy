/**
 * Search over several vaults, page by page (apps/indexer/src/globalSearch.ts
 * and `search` of apps/indexer/src/service.ts): each vault gives a page of its
 * own hits, the pages are merged as far as what was seen allows, and what is
 * left is handed to the client as one cursor.
 */
module GlobalSearch {
  import opened Common
  import opened Text

  datatype Hit = Hit(score: real, id: Text)

  datatype Found = Found(vault: Text, hit: Hit)

  /** A vault's own cursor names the last hit of the page before. */
  type Cursor = Hit

  /** What is left of a vault: a page (None: the first), and how much of it was returned. */
  datatype Part = Part(vault: Text, c: Option<Cursor>, s: nat)

  datatype Page = Page(hits: seq<Hit>, next: Option<Cursor>)

  datatype VaultPage = VaultPage(part: Part, page: Page)

  function Compare(a: Found, b: Found): int {
    if a.hit.score != b.hit.score then if b.hit.score > a.hit.score then 1 else -1
    else if a.vault != b.vault then if Before(a.vault, b.vault) then -1 else 1
    else if Before(a.hit.id, b.hit.id) then -1
    else if Before(b.hit.id, a.hit.id) then 1 else 0
  }

  /** Score first, best before; then the vault, then the note. */
  predicate Ahead(a: Found, b: Found) {
    || a.hit.score > b.hit.score
    || (a.hit.score == b.hit.score && (Before(a.vault, b.vault) || (a.vault == b.vault && Before(a.hit.id, b.hit.id))))
  }

  lemma CompareOrders(a: Found, b: Found)
    ensures Compare(a, b) < 0 <==> Ahead(a, b)
    ensures Compare(a, b) == 0 <==> a == b
    ensures Compare(a, b) == -Compare(b, a)
  {
    BeforeTotal(a.vault, b.vault);
    BeforeTotal(a.hit.id, b.hit.id);
    BeforeIrreflexive(a.vault);
    BeforeIrreflexive(a.hit.id);
    if Before(a.vault, b.vault) && Before(b.vault, a.vault) { BeforeTransitive(a.vault, b.vault, a.vault); }
    if Before(a.hit.id, b.hit.id) && Before(b.hit.id, a.hit.id) { BeforeTransitive(a.hit.id, b.hit.id, a.hit.id); }
  }

  lemma AheadTransitive(a: Found, b: Found, c: Found)
    requires Ahead(a, b) && Ahead(b, c)
    ensures Ahead(a, c)
  {
    if Before(a.vault, b.vault) && Before(b.vault, c.vault) { BeforeTransitive(a.vault, b.vault, c.vault); }
    if Before(a.hit.id, b.hit.id) && Before(b.hit.id, c.hit.id) { BeforeTransitive(a.hit.id, b.hit.id, c.hit.id); }
  }

  // ── Merging the pages of one call ──

  predicate Exhausted(p: VaultPage, at: nat) {
    at >= |p.page.hits|
  }

  /** A vault has more than the page that was seen: nothing can be ranked behind it. */
  predicate Blocked(pages: seq<VaultPage>, pos: seq<nat>)
    requires |pos| == |pages|
  {
    exists i :: 0 <= i < |pages| && Exhausted(pages[i], pos[i]) && pages[i].page.next.Some?
  }

  function HeadOf(p: VaultPage, at: nat): Found
    requires !Exhausted(p, at)
  {
    Found(p.part.vault, p.page.hits[at])
  }

  /** The vault with the best hit still to return, among the first `n`. */
  function BestOf(pages: seq<VaultPage>, pos: seq<nat>, n: nat): (best: Option<nat>)
    requires n <= |pages| == |pos|
    ensures best.Some? ==> best.value < n && !Exhausted(pages[best.value], pos[best.value])
  {
    if n == 0 then None else
      var best := BestOf(pages, pos, n - 1);
      if Exhausted(pages[n - 1], pos[n - 1]) then best
      else if best.None? || Compare(HeadOf(pages[n - 1], pos[n - 1]), HeadOf(pages[best.value], pos[best.value])) < 0
      then Some(n - 1) else best
  }

  /** The hits of a call, and how far each page has been returned. */
  function Merge(pages: seq<VaultPage>, pos: seq<nat>, limit: nat): (r: (seq<Found>, seq<nat>))
    requires |pos| == |pages|
    ensures |r.1| == |pages|
    decreases limit
  {
    var best := BestOf(pages, pos, |pages|);
    if limit == 0 || Blocked(pages, pos) || best.None? then ([], pos) else
      var i := best.value;
      var (hits, pos') := Merge(pages, pos[i := pos[i] + 1], limit - 1);
      ([HeadOf(pages[i], pos[i])] + hits, pos')
  }

  function StartOf(p: VaultPage): nat {
    Min(p.part.s, |p.page.hits|)
  }

  function Starts(pages: seq<VaultPage>): (pos: seq<nat>)
    ensures |pos| == |pages|
  {
    seq(|pages|, i requires 0 <= i < |pages| => StartOf(pages[i]))
  }

  /** What is left of one vault: the rest of its page, its next page, or nothing. */
  function Left(p: VaultPage, at: nat): seq<Part> {
    if !Exhausted(p, at) then [Part(p.part.vault, p.part.c, at)]
    else if p.page.next.Some? then [Part(p.part.vault, p.page.next, 0)]
    else []
  }

  function AllLeft(pages: seq<VaultPage>, pos: seq<nat>): seq<Part>
    requires |pos| == |pages|
  {
    if pages == [] then [] else
      AllLeft(pages[..|pages| - 1], pos[..|pos| - 1]) + Left(pages[|pages| - 1], pos[|pos| - 1])
  }

  method Choose(pages: seq<VaultPage>, pos: array<nat>) returns (best: Option<nat>)
    requires pos.Length == |pages|
    ensures best == BestOf(pages, pos[..], |pages|)
  {
    best := None;
    for i := 0 to |pages|
      invariant best == BestOf(pages, pos[..], i)
    {
      if !Exhausted(pages[i], pos[i]) {
        if best.None? || Compare(HeadOf(pages[i], pos[i]), HeadOf(pages[best.value], pos[best.value])) < 0 { best := Some(i); }
      }
    }
  }

  method Remainder(pages: seq<VaultPage>, pos: array<nat>) returns (remaining: seq<Part>)
    requires pos.Length == |pages|
    ensures remaining == AllLeft(pages, pos[..])
  {
    remaining := [];
    for i := 0 to |pages|
      invariant remaining == AllLeft(pages[..i], pos[..i])
    {
      assert pages[..i + 1][..i] == pages[..i] && pos[..i + 1][..i] == pos[..i];
      remaining := remaining + Left(pages[i], pos[i]);
    }
    assert pages[..|pages|] == pages && pos[..|pages|] == pos[..];
  }

  method IsBlocked(pages: seq<VaultPage>, pos: array<nat>) returns (blocked: bool)
    requires pos.Length == |pages|
    ensures blocked == Blocked(pages, pos[..])
  {
    blocked := exists i :: 0 <= i < |pages| && Exhausted(pages[i], pos[i]) && pages[i].page.next.Some?;
  }

  type Merged = (seq<Found>, seq<nat>)

  /** `whole` is `hits` and then `more`. */
  ghost predicate Taken(whole: Merged, hits: seq<Found>, more: Merged) {
    whole == (hits + more.0, more.1)
  }

  lemma TakeOne(whole: Merged, hits: seq<Found>, h: Found, more: Merged, more': Merged)
    requires Taken(whole, hits, more) && more.0 == [h] + more'.0 && more.1 == more'.1
    ensures Taken(whole, hits + [h], more')
  {
    assert hits + ([h] + more'.0) == (hits + [h]) + more'.0;
  }

  /** One more hit, unless no more can be told. */
  ghost predicate Picks(pages: seq<VaultPage>, pos: seq<nat>, pick: Option<Found>, pos': seq<nat>)
    requires |pos| == |pages|
  {
    var best := BestOf(pages, pos, |pages|);
    if Blocked(pages, pos) || best.None? then pick.None? && pos' == pos
    else pick == Some(HeadOf(pages[best.value], pos[best.value])) && pos' == pos[best.value := pos[best.value] + 1]
  }

  lemma PicksMerge(pages: seq<VaultPage>, pos: seq<nat>, pick: Option<Found>, pos': seq<nat>, limit: nat)
    requires |pos| == |pages| && Picks(pages, pos, pick, pos') && limit > 0
    ensures |pos'| == |pages|
    ensures pick.None? ==> Merge(pages, pos, limit) == ([], pos)
    ensures pick.Some? ==> Merge(pages, pos, limit).0 == [pick.value] + Merge(pages, pos', limit - 1).0
    ensures pick.Some? ==> Merge(pages, pos, limit).1 == Merge(pages, pos', limit - 1).1
  {}

  /** Either a merge stops here, or it takes the best hit and goes on. */
  lemma MergeUnfolds(pages: seq<VaultPage>, pos: seq<nat>, limit: nat, m: Merged)
    returns (best: Option<nat>, pos1: seq<nat>, m1: Merged)
    requires |pos| == |pages| && m == Merge(pages, pos, limit)
    ensures best.None? ==> m == ([], pos) && (limit == 0 || Blocked(pages, pos) || BestOf(pages, pos, |pages|).None?)
    ensures best.Some? ==> limit > 0 && !Blocked(pages, pos) && BestOf(pages, pos, |pages|) == best
    ensures best.Some? ==> pos1 == pos[best.value := pos[best.value] + 1] && m1 == Merge(pages, pos1, limit - 1)
    ensures best.Some? ==> m == ([HeadOf(pages[best.value], pos[best.value])] + m1.0, m1.1)
  {
    best := if limit == 0 || Blocked(pages, pos) then None else BestOf(pages, pos, |pages|);
    pos1, m1 := pos, m;
    if best.Some? {
      pos1 := pos[best.value := pos[best.value] + 1];
      m1 := Merge(pages, pos1, limit - 1);
    }
  }

  method Pick(pages: seq<VaultPage>, pos: array<nat>) returns (pick: Option<Found>)
    requires pos.Length == |pages|
    modifies pos
    ensures Picks(pages, old(pos[..]), pick, pos[..])
  {
    var blocked := IsBlocked(pages, pos);
    if blocked { return None; }
    var best := Choose(pages, pos);
    if best.None? { return None; }
    pick := Some(HeadOf(pages[best.value], pos[best.value]));
    pos[best.value] := pos[best.value] + 1;
  }

  method Fill(pages: seq<VaultPage>, pos: array<nat>, limit: nat) returns (hits: seq<Found>)
    requires pos.Length == |pages|
    modifies pos
    ensures (hits, pos[..]) == Merge(pages, old(pos[..]), limit)
  {
    ghost var whole := Merge(pages, pos[..], limit);
    hits := [];
    assert hits + whole.0 == whole.0;
    while |hits| < limit
      invariant |hits| <= limit && Taken(whole, hits, Merge(pages, pos[..], limit - |hits|))
      decreases limit - |hits|
    {
      ghost var before := pos[..];
      var pick := Pick(pages, pos);
      PicksMerge(pages, before, pick, pos[..], limit - |hits|);
      if pick.None? {
        assert hits + [] == hits;
        return;
      }
      TakeOne(whole, hits, pick.value, Merge(pages, before, limit - |hits|), Merge(pages, pos[..], limit - |hits| - 1));
      hits := hits + [pick.value];
    }
    assert Merge(pages, pos[..], 0) == ([], pos[..]);
    assert hits + [] == hits;
  }

  // ── What stops a call short ──

  /** Every hit of the page, from where it starts, is among those returned. */
  ghost predicate Returned(p: VaultPage, hits: seq<Found>) {
    forall k :: p.part.s <= k < |p.page.hits| ==> Found(p.part.vault, p.page.hits[k]) in hits
  }

  lemma {:induction false} BestOfNone(pages: seq<VaultPage>, pos: seq<nat>, n: nat)
    requires n <= |pages| == |pos| && BestOf(pages, pos, n).None?
    ensures forall i :: 0 <= i < n ==> pos[i] >= |pages[i].page.hits|
    decreases n
  {
    if n > 0 { BestOfNone(pages, pos, n - 1); }
  }

  /** What a merge moves past, it returns. */
  lemma {:induction false} MergeReturns(pages: seq<VaultPage>, pos: seq<nat>, limit: nat, m: Merged, i: nat, k: nat)
    requires |pos| == |pages| && m == Merge(pages, pos, limit) && i < |pages| && k < |pages[i].page.hits| && pos[i] <= k < m.1[i]
    ensures Found(pages[i].part.vault, pages[i].page.hits[k]) in m.0
    decreases limit
  {
    var best, pos1, m1 := MergeUnfolds(pages, pos, limit, m);
    if best.Some? && !(best.value == i && k == pos[i]) { MergeReturns(pages, pos1, limit - 1, m1, i, k); }
  }

  /** A merge that returns fewer hits than it may has come to the end of a page that has a next one, or of them all. */
  lemma {:induction false} MergeStops(pages: seq<VaultPage>, pos: seq<nat>, limit: nat, m: Merged)
    requires |pos| == |pages| && m == Merge(pages, pos, limit) && |m.0| < limit
    ensures (exists i :: 0 <= i < |pages| && pages[i].page.next.Some? && m.1[i] >= |pages[i].page.hits|)
         || (forall i :: 0 <= i < |pages| ==> m.1[i] >= |pages[i].page.hits|)
    decreases limit
  {
    var best, pos1, m1 := MergeUnfolds(pages, pos, limit, m);
    if best.Some? {
      MergeStops(pages, pos1, limit - 1, m1);
    } else if !Blocked(pages, pos) {
      BestOfNone(pages, pos, |pages|);
    }
  }

  lemma ReturnedWhole(pages: seq<VaultPage>, limit: nat, m: Merged, i: nat)
    requires m == Merge(pages, Starts(pages), limit) && i < |pages| && m.1[i] >= |pages[i].page.hits|
    ensures Returned(pages[i], m.0)
  {
    forall k | pages[i].part.s <= k < |pages[i].page.hits| ensures Found(pages[i].part.vault, pages[i].page.hits[k]) in m.0 {
      MergeReturns(pages, Starts(pages), limit, m, i, k);
    }
  }

  lemma ShortCall(pages: seq<VaultPage>, limit: nat, m: Merged)
    requires m == Merge(pages, Starts(pages), limit) && |m.0| < limit
    ensures (exists i :: 0 <= i < |pages| && pages[i].page.next.Some? && Returned(pages[i], m.0))
         || (forall i :: 0 <= i < |pages| ==> Returned(pages[i], m.0))
  {
    MergeStops(pages, Starts(pages), limit, m);
    forall i | 0 <= i < |pages| && m.1[i] >= |pages[i].page.hits| ensures Returned(pages[i], m.0) {
      ReturnedWhole(pages, limit, m, i);
    }
  }

  /**
   * The merge, in place. It is short of `limit` only if a page that has a next
   * one was returned whole, or if they all were.
   */
  method MergePages(pages: seq<VaultPage>, limit: nat) returns (hits: seq<Found>, remaining: seq<Part>)
    ensures hits == Merge(pages, Starts(pages), limit).0
    ensures remaining == AllLeft(pages, Merge(pages, Starts(pages), limit).1)
    ensures |hits| < limit ==>
      || (exists i :: 0 <= i < |pages| && pages[i].page.next.Some? && Returned(pages[i], hits))
      || (forall i :: 0 <= i < |pages| ==> Returned(pages[i], hits))
  {
    var pos := new nat[|pages|](i requires 0 <= i < |pages| => StartOf(pages[i]));
    assert pos[..] == Starts(pages);
    hits := Fill(pages, pos, limit);
    if |hits| < limit { ShortCall(pages, limit, (hits, pos[..])); }
    remaining := Remainder(pages, pos);
  }
}
