/**
 * Over whole runs of the peer: what a live unit may skip (`liveUnit` of
 * apps/indexer/src/store.ts), its work having waited for the vault while a
 * build, or another unit, recorded a position above it.
 */
module SkipTheorems {
  import opened Common
  import opened ChangeQueue
  import opened IndexJob
  import opened VaultMachine
  import opened VaultSafety
  import opened PeerMachine
  import opened PeerTheorems
  import opened SkipSafety

  /** How what was handed over to a vault changes with a step of the peer. */
  ghost function Learned(k: Handed, s: Peer, a: PeerAction, id: VaultId): Handed {
    match a
    case Dispatches => if s.page.Some? && id in s.page.value.rows then HandedWith(k, s.page.value.rows[id]) else k
    case Crashes => map[]
    case ShardFails(ids) => if id in ids then map[] else k
    case _ => k
  }

  /** The trees a vault has had, after a step of the peer. */
  function Remembers(h: History, s: Peer, a: PeerAction, id: VaultId): History {
    if a.WritesTree? && a.id == id then h[s.clock + 1 := a.tree] else h
  }

  /** Those it has had by the end of a run. */
  ghost function HistoryOf(h: History, s: Peer, run: seq<PeerAction>, t: Peer, id: VaultId): History
    requires OrderlyRun(s, run, t, id)
    decreases |run|
  {
    if run == [] then h else HistoryOf(Remembers(h, s, run[0], id), PeerStep(s, run[0]), run[1..], t, id)
  }

  ghost predicate Knows(k: Handed, h: History, s: Peer, id: VaultId) {
    && PeerInv(s, id) && HandedOk(k, s.vaults[id], h, s.src[id])
    && (s.page.Some? ==> OnItsWay(k, s.vaults[id], h, s.src[id], s.page.value.rows[id]))
  }

  lemma StampsOnlyGrow(s: Peer, a: PeerAction, id: VaultId, r: Resource)
    requires PeerInv(s, id) && PeerEnabled(s, a)
    ensures StampOf(s.src[id], r) <= StampOf(PeerStep(s, a).src[id], r)
  {
    SourceFits(s.vaults[id], s.src[id], s.clock, s.now);
  }

  predicate OfBackend(a: PeerAction) {
    a.Writes? || a.WritesTree? || a.Registers? || a.Tick?
  }

  lemma HistoryGrows(h: History, s: Peer, a: PeerAction, id: VaultId)
    requires PeerInv(s, id) && PeerEnabled(s, a) && OfBackend(a) && HistoryOk(h, s.vaults[id], s.src[id])
    ensures HistoryOk(Remembers(h, s, a, id), PeerStep(s, a).vaults[id], PeerStep(s, a).src[id])
    ensures forall n :: n in h ==> n in Remembers(h, s, a, id) && Remembers(h, s, a, id)[n] == h[n]
  {
    SourceFits(s.vaults[id], s.src[id], s.clock, s.now);
  }

  lemma BackendKnows(k: Handed, h: History, s: Peer, a: PeerAction, id: VaultId)
    requires Knows(k, h, s, id) && PeerEnabled(s, a) && OfBackend(a)
    ensures var t, h' := PeerStep(s, a), Remembers(h, s, a, id);
      && HandedOk(k, t.vaults[id], h', t.src[id])
      && (t.page.Some? ==> OnItsWay(k, t.vaults[id], h', t.src[id], t.page.value.rows[id]))
  {
    HistoryGrows(h, s, a, id);
    forall r ensures StampOf(s.src[id], r) <= StampOf(PeerStep(s, a).src[id], r) { StampsOnlyGrow(s, a, id, r); }
    forall r, q: nat | Accounts(s.vaults[id], h, r, q) ensures Accounts(s.vaults[id], Remembers(h, s, a, id), r, q) {
      AccountsStay(s.vaults[id], h, Remembers(h, s, a, id), r, q);
    }
  }

  lemma FetchKnows(k: Handed, h: History, s: Peer, last: nat, id: VaultId)
    requires Knows(k, h, s, id) && PeerEnabled(s, Fetches(last))
    ensures OnItsWay(k, s.vaults[id], h, s.src[id], PeerStep(s, Fetches(last)).page.value.rows[id])
  {
    var rows := PeerStep(s, Fetches(last)).page.value.rows[id];
    forall r | r in rows ensures Accounts(s.vaults[id], h, r, rows[r]) {
      LastWriteAccounted(s.vaults[id], h, s.src[id], s.clock, s.now, r);
    }
  }

  lemma InsideKnows(k: Handed, h: History, s: Peer, va: Action, id: VaultId)
    requires Knows(k, h, s, id) && PeerEnabled(s, Inside(id, va))
    ensures var v' := Step(s.vaults[id], s.src[id], s.now, va);
      HandedOk(k, v', h, s.src[id]) && (s.page.Some? ==> OnItsWay(k, v', h, s.src[id], s.page.value.rows[id]))
  {
    var v, b := s.vaults[id], s.src[id];
    HandedStep(k, v, h, b, s.clock, s.now, va);
    if s.page.Some? {
      var rows := s.page.value.rows[id];
      forall r | r in rows ensures Accounts(Step(v, b, s.now, va), h, r, rows[r]) {
        StepAccounts(v, h, b, s.clock, s.now, va, r, rows[r]);
      }
    }
  }

  lemma LossKnows(k: Handed, h: History, s: Peer, page: Option<Page>, id: VaultId)
    requires Knows(k, h, s, id) && (page == None || (page == s.page && SafeToForget(s.vaults[id], s.persisted)))
    ensures var v' := Forgotten(s.vaults[id], s.persisted);
      HandedOk(map[], v', h, s.src[id]) && (page.Some? ==> OnItsWay(map[], v', h, s.src[id], page.value.rows[id]))
  {
    if page.Some? {
      var rows := page.value.rows[id];
      forall r | r in rows ensures Accounts(Forgotten(s.vaults[id], s.persisted), h, r, rows[r]) {
        ForgottenAccounts(k, s.vaults[id], h, s.src[id], s.persisted, rows, r);
      }
    }
  }

  lemma UnfitAccounts(v: Vault, h: History, b: Source, clock: nat, now: nat, mode: Mode, lost: bool, r: Resource, q: nat)
    requires Bookkeeping(v, b, clock, now) && !v.checked && Accounts(v, h, r, q)
    ensures Accounts(Unfit(v, mode, lost), h, r, q)
  {}

  lemma UnfitKnows(k: Handed, h: History, s: Peer, a: PeerAction, id: VaultId)
    requires Knows(k, h, s, id) && PeerEnabled(s, a) && a.FoundUnfit? && a.id == id
    ensures var v' := Unfit(s.vaults[id], a.mode, a.lost);
      HandedOk(k, v', h, s.src[id]) && (s.page.Some? ==> OnItsWay(k, v', h, s.src[id], s.page.value.rows[id]))
  {
    var v := s.vaults[id];
    forall r, q: nat | Accounts(v, h, r, q) ensures Accounts(Unfit(v, a.mode, a.lost), h, r, q) {
      UnfitAccounts(v, h, s.src[id], s.clock, s.now, a.mode, a.lost, r, q);
    }
  }

  lemma StepKnows(k: Handed, h: History, s: Peer, a: PeerAction, id: VaultId)
    requires Knows(k, h, s, id) && PeerEnabled(s, a) && Orderly(s, a, id)
    ensures Knows(Learned(k, s, a, id), Remembers(h, s, a, id), PeerStep(s, a), id)
  {
    PeerStepKeeps(s, a, id);
    if OfBackend(a) {
      BackendKnows(k, h, s, a, id);
    } else {
      match a
      case Fetches(last) => FetchKnows(k, h, s, last, id);
      case Dispatches =>
        HandedDeliver(k, s.vaults[id], h, s.src[id], s.clock, s.now, s.page.value.rows[id], s.page.value.since, s.page.value.last);
      case Inside(at, va) => if at == id { InsideKnows(k, h, s, va, id); }
      case Crashes => LossKnows(k, h, s, None, id);
      case ShardFails(ids) => if id in ids { LossKnows(k, h, s, s.page, id); }
      case FoundUnfit(at, _, _) => if at == id { UnfitKnows(k, h, s, a, id); }
      case _ =>
    }
  }

  lemma {:induction false} RunKnows(k: Handed, h: History, s: Peer, run: seq<PeerAction>, t: Peer, id: VaultId) returns (k': Handed)
    requires Knows(k, h, s, id) && OrderlyRun(s, run, t, id)
    ensures Knows(k', HistoryOf(h, s, run, t, id), t, id)
    decreases |run|
  {
    if run == [] {
      k' := k;
    } else {
      StepKnows(k, h, s, run[0], id);
      k' := RunKnows(Learned(k, s, run[0], id), Remembers(h, s, run[0], id), PeerStep(s, run[0]), run[1..], t, id);
    }
  }

  // ── Skipping ──

  /** A unit waits for the vault with work on `r` that it will skip. */
  predicate WillSkip(v: Vault, r: Resource) {
    v.unit.Waiting? && r in v.unit.work && v.unit.work[r] <= v.applied
  }

  /** What the queue says of it: a newer change waits, above the recorded position. */
  predicate Superseded(v: Vault, r: Resource) {
    r in v.pending && v.pending[r].stamp > v.applied
  }

  lemma Older(h: History, t: DocTree, q: nat, q': nat)
    requires AllPut(h, t, q') && q <= q'
    ensures AllPut(h, t, q)
  {
    forall d | d in t ensures Put(h, d, t[d], q) { assert Put(h, d, t[d], q'); }
  }

  lemma OlderHolds(x: Rows, j: Job, h: History, r: Resource, q: nat, q': nat)
    requires q <= q'
    ensures Holds(x, h, r, q') ==> Holds(x, h, r, q)
    ensures WillHold(x, j, h, r, q') ==> WillHold(x, j, h, r, q)
  {
    forall t: DocTree | AllPut(h, t, q') ensures AllPut(h, t, q) { Older(h, t, q, q'); }
  }

  lemma OlderBuilds(v: Vault, h: History, r: Resource, q: nat, q': nat)
    requires v.build.Building? && q <= q' && BuildHolds(v, h, r, q')
    ensures BuildHolds(v, h, r, q)
  {
    match v.build.stage
    case Reading(tree, _, toFetch, _, got) => OlderHolds(Within(BuiltRows(v), tree), ReadJob(toFetch, got), h, r, q, q');
    case Catching(job) => OlderHolds(BuiltRows(v), job, h, r, q, q');
    case Ending(_) => OlderHolds(BuiltRows(v), NO_JOB, h, r, q, q');
    case _ =>
  }

  lemma SkipAccounted(k: Handed, v: Vault, h: History, b: Source, r: Resource)
    requires HandedOk(k, v, h, b) && WillSkip(v, r) && !Superseded(v, r)
    ensures v.mode.Built? ==> Holds(v.rows, h, r, v.unit.work[r])
    ensures v.build.Building? ==> BuildHolds(v, h, r, v.unit.work[r])
  {
    assert r in WorkOf(v.unit);
    assert Accounts(v, h, r, k[r]) && k[r] <= v.pos;
    if v.mode.Built? { OlderHolds(v.rows, NO_JOB, h, r, v.unit.work[r], k[r]); }
    if v.build.Building? { OlderBuilds(v, h, r, v.unit.work[r], k[r]); }
  }

  /** At the start of a run: the tree the backend has. */
  function TreeNow(b: Source): History {
    map[b.treeStamp := b.tree]
  }

  lemma StartLosesNothing(t: Peer, id: VaultId, implicitTree: bool)
    requires PeerInv(t, id) && PeerEnabled(t, Inside(id, StartUnit(implicitTree)))
    ensures Covered(PeerStep(t, Inside(id, StartUnit(implicitTree))), id)
  {
    PeerStepKeeps(t, Inside(id, StartUnit(implicitTree)), id);
    InvCovers(PeerStep(t, Inside(id, StartUnit(implicitTree))), id);
  }

  /**
   * After any run from a first start, or from rest: of what a unit skips, a
   * document or the tree, a built index has nothing older and a build under
   * way will have nothing older, unless the queue holds a newer change above
   * the recorded position; that change then goes on waiting. And nothing is
   * lost by it.
   */
  lemma SkippingAfterAnyRun(s: Peer, run: seq<PeerAction>, t: Peer, id: VaultId, r: Resource, implicitTree: bool)
    requires NothingInHand(s, id) && OrderlyRun(s, run, t, id) && id in t.vaults && id in t.src
    requires WillSkip(t.vaults[id], r)
    ensures var v, q, h := t.vaults[id], t.vaults[id].unit.work[r], HistoryOf(TreeNow(s.src[id]), s, run, t, id);
      if Superseded(v, r) then Lookup(UnitStarted(v, implicitTree).pending, r) == Some(v.pending[r]) && v.pending[r].stamp > q
      else (v.mode.Built? ==> Holds(v.rows, h, r, q)) && (v.build.Building? ==> BuildHolds(v, h, r, q))
    ensures PeerEnabled(t, Inside(id, StartUnit(implicitTree))) ==> Covered(PeerStep(t, Inside(id, StartUnit(implicitTree))), id)
  {
    var h := TreeNow(s.src[id]);
    assert Knows(map[], h, s, id);
    var k := RunKnows(map[], h, s, run, t, id);
    if !Superseded(t.vaults[id], r) { SkipAccounted(k, t.vaults[id], HistoryOf(h, s, run, t, id), t.src[id], r); }
    if PeerEnabled(t, Inside(id, StartUnit(implicitTree))) { StartLosesNothing(t, id, implicitTree); }
  }

  // ── Exactly ──

  /** A built vault, as the invariants allow it, about to skip stamp `q` of `r` with `waiting` in its queue. */
  ghost predicate Skips(v: Vault, b: Source, k: Handed, h: History, clock: nat, now: nat, r: Resource, q: nat, applied: nat, waiting: Option<nat>) {
    && Inv(v, b, clock, now) && HandedOk(k, v, h, b) && v.mode.Built?
    && v.unit == Waiting(map[r := q]) && v.applied == applied
    && (if r in v.pending then waiting == Some(v.pending[r].stamp) else waiting.None?)
  }

  const HERE := Path("n.md", "md")
  const THERE := Path("m.md", "md")

  function Behind(x: Rows, r: Resource, q: nat, applied: nat, waiting: nat): Vault {
    Vault(x, applied, Built, true, map[r := Pending(waiting, 0, 0)], waiting, waiting, applied, Waiting(map[r := q]), NoBuild, waiting)
  }

  /** A document whose content in the index is older than what is skipped. */
  lemma BehindOnDoc(d: DocId, q: nat, applied: nat, waiting: nat)
    requires 0 < q <= applied < waiting
    ensures var v, b := Behind(map[d := Row(HERE, 0, "md")], Doc(d), q, applied, waiting), Source(map[d := HERE], 0, map[d := waiting]);
      Skips(v, b, map[Doc(d) := waiting], TreeNow(b), waiting, 0, Doc(d), q, applied, Some(waiting)) && !HoldsDoc(v.rows, d, q)
  {
    var v, b := Behind(map[d := Row(HERE, 0, "md")], Doc(d), q, applied, waiting), Source(map[d := HERE], 0, map[d := waiting]);
    assert Paths(v.rows) == b.tree == Named(b);
    assert Doc(d) in v.pending && Announced(v, b, Doc(d));
    assert forall r :: r in v.unit.work ==> r == Doc(d);
  }

  /** A note that stands where only an older tree put it. */
  lemma BehindOnTree(q: nat, applied: nat, waiting: nat)
    requires 0 < q <= applied < waiting
    ensures var v, b := Behind(map["n" := Row(HERE, 0, "md")], Tree, q, applied, waiting), Source(map["n" := THERE], waiting, map["n" := 0]);
      Skips(v, b, map[Tree := waiting], TreeNow(b), waiting, 0, Tree, q, applied, Some(waiting)) && !Holds(v.rows, TreeNow(b), Tree, q)
  {
    var v, b := Behind(map["n" := Row(HERE, 0, "md")], Tree, q, applied, waiting), Source(map["n" := THERE], waiting, map["n" := 0]);
    assert Tree in v.pending && Announced(v, b, Tree);
    assert forall r :: r in v.unit.work ==> r == Tree;
    assert "n" in Paths(v.rows) && !Put(TreeNow(b), "n", HERE, q);
  }

  /** The queue alone tells: the index is sure to have nothing older than what is skipped exactly when no newer change waits above the recorded position. */
  lemma SkippingExact(r: Resource, q: nat, applied: nat, waiting: Option<nat>)
    requires 0 < q <= applied
    ensures (forall v, b, k, h, clock: nat, now: nat :: Skips(v, b, k, h, clock, now, r, q, applied, waiting) ==> Holds(v.rows, h, r, q))
       <==> !(waiting.Some? && waiting.value > applied)
  {
    if waiting.Some? && waiting.value > applied {
      match r
      case Tree => BehindOnTree(q, applied, waiting.value);
      case Doc(d) => BehindOnDoc(d, q, applied, waiting.value);
    } else {
      forall v, b, k, h, clock: nat, now: nat | Skips(v, b, k, h, clock, now, r, q, applied, waiting) ensures Holds(v.rows, h, r, q) {
        SkipAccounted(k, v, h, b, r);
      }
    }
  }
}
