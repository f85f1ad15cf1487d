/**
 * Stamps that a memory has been handed and that newer ones may have superseded
 * since. `liveUnit` of apps/indexer/src/store.ts drops the work at or below
 * the recorded position: what then accounts for the versions it was to index?
 */
module SkipSafety {
  import opened Common
  import opened ChangeQueue
  import opened IndexJob
  import opened VaultMachine
  import opened VaultSafety

  // ── What an index holds ──

  /** The trees the backend has held for a vault, by stamp. */
  type History = map<nat, DocTree>

  /** Some tree of stamp `q` or newer puts the document there. */
  ghost predicate Put(h: History, d: DocId, path: Path, q: nat) {
    exists n :: n in h && q <= n && d in h[n] && h[n][d] == path
  }

  ghost predicate AllPut(h: History, t: DocTree, q: nat) {
    forall d :: d in t ==> Put(h, d, t[d], q)
  }

  predicate HoldsDoc(x: Rows, d: DocId, q: nat) {
    d in x ==> x[d].version >= q
  }

  /** The index has nothing older than stamp `q` of the resource: no older content of a document, no note where only older trees put it. */
  ghost predicate Holds(x: Rows, h: History, r: Resource, q: nat) {
    match r
    case Tree => AllPut(h, Paths(x), q)
    case Doc(d) => HoldsDoc(x, d, q)
  }

  /** Left to run, the job ends with nothing older. */
  ghost predicate WillHold(x: Rows, j: Job, h: History, r: Resource, q: nat) {
    match r
    case Tree =>
      (match j.phase
       case NeedTree => true
       case GotTree(_, stamp) => stamp >= q
       case _ => AllPut(h, Promised(x, j), q))
    case Doc(d) =>
      if d in j.toFetch then d in j.got ==> j.got[d].None? || j.got[d].value >= q
      else d in j.docs || HoldsDoc(x, d, q)
  }

  ghost predicate JobKnown(h: History, j: Job) {
    j.phase.GotTree? ==> j.phase.stamp in h && h[j.phase.stamp] == j.phase.tree
  }

  ghost predicate StageKnown(h: History, st: Stage) {
    match st
    case TreeRead(_, _, tree, stamp) => stamp in h && h[stamp] == tree
    case Catching(job) => JobKnown(h, job)
    case _ => true
  }

  /** The history has the backend's tree, and every tree read and not applied yet. */
  ghost predicate HistoryOk(h: History, v: Vault, b: Source) {
    && b.treeStamp in h && h[b.treeStamp] == b.tree && (forall n :: n in h ==> n <= b.treeStamp)
    && (v.unit.Running? ==> JobKnown(h, v.unit.job))
    && (v.build.Building? ==> StageKnown(h, v.build.stage))
  }

  lemma UnitHistory(h: History, v: Vault, b: Source, now: nat, a: Action)
    requires HistoryOk(h, v, b) && Enabled(v, a) && (OfUnit(a) || AroundUnit(a))
    ensures HistoryOk(h, Step(v, b, now, a), b)
  {}

  lemma HistoryStep(h: History, v: Vault, b: Source, now: nat, a: Action)
    requires HistoryOk(h, v, b) && Enabled(v, a) && (a.WriteRows? ==> StageShape(v.build.stage))
    ensures HistoryOk(h, Step(v, b, now, a), b)
  {
    if OfUnit(a) || AroundUnit(a) { UnitHistory(h, v, b, now, a); }
  }

  // ── Jobs ──

  lemma PutByTree(h: History, t: DocTree, stamp: nat, q: nat, part: DocTree)
    requires stamp in h && h[stamp] == t && stamp >= q && forall d :: d in part ==> d in t && part[d] == t[d]
    ensures AllPut(h, part, q)
  {}

  lemma TreeStepHolds(x: Rows, j: Job, h: History, b: Source, a: JobAction, q: nat)
    requires JobOk(x, j, b) && JobEnabled(x, j, a) && JobKnown(h, j) && WillHold(x, j, h, Tree, q) && q <= b.treeStamp
    ensures var (x', j') := JobStep(x, j, b, a); WillHold(x', j', h, Tree, q) && (AllPut(h, Paths(x), q) ==> AllPut(h, Paths(x'), q))
  {
    var (x', j') := JobStep(x, j, b, a);
    match a
    case ReadTree =>
    case ApplySome(ds) =>
      var t := j.phase.tree;
      if AllPut(h, Paths(x), q) {
        forall d | d in Paths(x') ensures Put(h, d, Paths(x')[d], q) {
          if d in ds { PutByTree(h, t, j.phase.stamp, q, t); } else { assert Put(h, d, Paths(x)[d], q); }
        }
      }
    case ApplyTree =>
      PlanApplied(x, j.phase.tree, j'.toFetch);
      assert Promised(x', j') == Planned(x', j') == j.phase.tree;
      PutByTree(h, j.phase.tree, j.phase.stamp, q, j.phase.tree);
      PutByTree(h, j.phase.tree, j.phase.stamp, q, Paths(x'));
    case LookUpDocs => PlanLookedUp(x, j, b);
    case ReadDoc(d) => PlanRead(x, j, b, d);
    case WriteDocs(ds) =>
      PlanWritten(x, j, b, ds);
      if AllPut(h, Paths(x), q) {
        forall d | d in Paths(x') ensures Put(h, d, Paths(x')[d], q) {
          if d in ds { assert Put(h, d, Promised(x, j)[d], q); } else { assert Put(h, d, Paths(x)[d], q); }
        }
      }
  }

  lemma DocStepHolds(x: Rows, j: Job, h: History, b: Source, a: JobAction, d: DocId, q: nat)
    requires JobOk(x, j, b) && JobEnabled(x, j, a) && WillHold(x, j, h, Doc(d), q) && q <= StampOf(b, Doc(d))
    ensures var (x', j') := JobStep(x, j, b, a); WillHold(x', j', h, Doc(d), q) && (HoldsDoc(x, d, q) ==> HoldsDoc(x', d, q))
  {
    match a
    case ApplyTree =>
    case LookUpDocs =>
    case ReadDoc(e) =>
    case _ =>
  }

  /** Whatever a step of a job does, it goes on towards nothing older, and brings nothing older back. */
  lemma JobStepHolds(x: Rows, j: Job, h: History, b: Source, a: JobAction, r: Resource, q: nat)
    requires JobOk(x, j, b) && JobEnabled(x, j, a) && JobKnown(h, j) && WillHold(x, j, h, r, q) && q <= StampOf(b, r)
    ensures var (x', j') := JobStep(x, j, b, a); WillHold(x', j', h, r, q) && (Holds(x, h, r, q) ==> Holds(x', h, r, q))
  {
    match r
    case Tree => TreeStepHolds(x, j, h, b, a, q);
    case Doc(d) => DocStepHolds(x, j, h, b, a, d, q);
  }

  lemma JobDoneHolds(x: Rows, j: Job, h: History, b: Source, r: Resource, q: nat)
    requires JobOk(x, j, b) && JobDone(j)
    ensures WillHold(x, j, h, r, q) <==> Holds(x, h, r, q)
  {
    if r == Tree { NothingToFetch(x, j, b); }
  }

  lemma JobStartHolds(x: Rows, work: set<Resource>, implicitTree: bool, h: History, b: Source, r: Resource, q: nat)
    requires Holds(x, h, r, q) || r in work
    ensures WillHold(x, StartJob(work, implicitTree), h, r, q)
  {
    var j := StartJob(work, implicitTree);
    match r
    case Tree => if !j.phase.NeedTree? { NothingToFetch(x, j, b); }
    case Doc(d) => assert r in work ==> d in j.docs;
  }

  // ── What accounts for a stamp ──

  /** An announcement at least as recent is still to come, or waits, above `floor`. */
  predicate Ahead(q: nat, r: Resource, queue: Queue, pos: nat, floor: nat) {
    || (q > pos && q > floor)
    || (r in queue && queue[r].stamp >= q && queue[r].stamp > floor)
  }

  /** What a built index claims to reflect, or is about to. */
  function Claimed(v: Vault): nat {
    Max(Max(v.applied, v.recorded), if v.unit.Sealing? then v.unit.stamp else 0)
  }

  function BuildClaimed(v: Vault): nat
    requires v.build.Building?
  {
    Max(Max(v.applied, v.build.from),
        Max(if v.unit.Sealing? then v.unit.stamp else 0, if v.build.stage.Ending? then v.build.stage.stamp else 0))
  }

  ghost predicate ServesFrom(v: Vault, h: History, r: Resource, q: nat) {
    && (Holds(v.rows, h, r, q) || Ahead(q, r, v.pending, v.pos, Claimed(v)))
    && (v.unit.Running? ==>
          WillHold(v.rows, v.unit.job, h, r, q) || Ahead(q, r, Settle(v.pending, v.unit.work), v.pos, Claimed(v)))
  }

  ghost predicate BuildHolds(v: Vault, h: History, r: Resource, q: nat)
    requires v.build.Building?
  {
    r in v.build.replay ||
    match v.build.stage
    case TreeRead(_, _, _, stamp) => r == Tree ==> stamp >= q
    case Reading(tree, _, toFetch, _, got) => WillHold(Within(BuiltRows(v), tree), ReadJob(toFetch, got), h, r, q)
    case Catching(job) => WillHold(BuiltRows(v), job, h, r, q)
    case Ending(_) => Holds(BuiltRows(v), h, r, q)
    case _ => true
  }

  ghost predicate BuildsFrom(v: Vault, h: History, r: Resource, q: nat)
    requires v.build.Building?
  {
    BuildHolds(v, h, r, q) || Ahead(q, r, v.pending, v.pos, BuildClaimed(v))
  }

  /** Stamp `q` of the resource, or a newer one, is in the index, or still announced above all it claims. */
  ghost predicate Accounts(v: Vault, h: History, r: Resource, q: nat) {
    (v.mode.Built? ==> ServesFrom(v, h, r, q)) && (v.build.Building? ==> BuildsFrom(v, h, r, q))
  }

  lemma CurrentHolds(x: Rows, h: History, b: Source, r: Resource)
    requires b.treeStamp in h && h[b.treeStamp] == b.tree && Current(x, b, r)
    ensures Holds(x, h, r, StampOf(b, r))
  {
    if r == Tree {
      forall d | d in Paths(x) ensures d in b.tree && Paths(x)[d] == b.tree[d] { assert d in Named(b); }
      PutByTree(h, b.tree, b.treeStamp, b.treeStamp, Paths(x));
    }
  }

  lemma WillBeCurrentHolds(x: Rows, j: Job, h: History, b: Source, r: Resource)
    requires b.treeStamp in h && h[b.treeStamp] == b.tree && WillBeCurrent(x, j, b, r)
    ensures WillHold(x, j, h, r, StampOf(b, r))
  {
    if r == Tree && Fulfils(x, j, b) { PutByTree(h, b.tree, b.treeStamp, b.treeStamp, Promised(x, j)); }
  }

  lemma LastWriteServes(v: Vault, h: History, b: Source, clock: nat, now: nat, r: Resource)
    requires Inv(v, b, clock, now) && HistoryOk(h, v, b) && v.mode.Built?
    ensures ServesFrom(v, h, r, StampOf(b, r))
  {
    var q := StampOf(b, r);
    if Current(v.rows, b, r) { CurrentHolds(v.rows, h, b, r); } else { assert Announced(v, b, r); }
    if v.unit.Running? {
      if WillBeCurrent(v.rows, v.unit.job, b, r) {
        WillBeCurrentHolds(v.rows, v.unit.job, h, b, r);
      } else {
        assert StillToCome(v, b, r);
        if q <= v.pos { SettleKeepsOthers(v.pending, v.unit.work, r); }
      }
    }
  }

  lemma LastWriteBuilds(v: Vault, h: History, b: Source, clock: nat, now: nat, r: Resource)
    requires Inv(v, b, clock, now) && HistoryOk(h, v, b) && v.build.Building?
    ensures BuildsFrom(v, h, r, StampOf(b, r))
  {
    if BuildCovers(v, b, r) {
      match v.build.stage
      case Reading(tree, _, toFetch, _, got) =>
        if r !in v.build.replay { WillBeCurrentHolds(Within(BuiltRows(v), tree), ReadJob(toFetch, got), h, b, r); }
      case Catching(job) => if r !in v.build.replay { WillBeCurrentHolds(BuiltRows(v), job, h, b, r); }
      case Ending(_) => if r !in v.build.replay { CurrentHolds(BuiltRows(v), h, b, r); }
      case _ =>
    } else {
      assert Announced(v, b, r);
    }
  }

  /** The last write of a resource is accounted for. */
  lemma LastWriteAccounted(v: Vault, h: History, b: Source, clock: nat, now: nat, r: Resource)
    requires Inv(v, b, clock, now) && HistoryOk(h, v, b)
    ensures Accounts(v, h, r, StampOf(b, r))
  {
    if v.mode.Built? { LastWriteServes(v, h, b, clock, now, r); }
    if v.build.Building? { LastWriteBuilds(v, h, b, clock, now, r); }
  }

  lemma PutStays(h: History, h': History, t: DocTree, q: nat)
    requires AllPut(h, t, q) && forall n :: n in h ==> n in h' && h'[n] == h[n]
    ensures AllPut(h', t, q)
  {
    forall d | d in t ensures Put(h', d, t[d], q) {
      assert Put(h, d, t[d], q);
      var n :| n in h && q <= n && d in h[n] && h[n][d] == t[d];
      assert n in h';
    }
  }

  /** A longer history takes nothing back. */
  lemma AccountsStay(v: Vault, h: History, h': History, r: Resource, q: nat)
    requires Accounts(v, h, r, q) && forall n :: n in h ==> n in h' && h'[n] == h[n]
    ensures Accounts(v, h', r, q)
  {
    forall t: DocTree | AllPut(h, t, q) ensures AllPut(h', t, q) { PutStays(h, h', t, q); }
  }

  // ── Live units ──

  lemma StartUnitAccounts(v: Vault, h: History, b: Source, implicitTree: bool, r: Resource, q: nat)
    requires Enabled(v, StartUnit(implicitTree)) && Accounts(v, h, r, q)
    ensures Accounts(UnitStarted(v, implicitTree), h, r, q)
  {
    var v' := UnitStarted(v, implicitTree);
    assert r in v.pending && v.pending[r].stamp > v.applied ==> r in v'.pending && v'.pending[r] == v.pending[r];
    if v.mode.Built? && v'.unit.Running? {
      if Holds(v.rows, h, r, q) || r in v'.unit.work {
        JobStartHolds(v.rows, v'.unit.work.Keys, implicitTree, h, b, r, q);
      } else if q <= v.pos {
        SettleKeepsOthers(v'.pending, v'.unit.work, r);
      }
    }
  }

  lemma UnitStepAccounts(v: Vault, h: History, b: Source, clock: nat, now: nat, a: JobAction, r: Resource, q: nat)
    requires Bookkeeping(v, b, clock, now) && HistoryOk(h, v, b) && Enabled(v, UnitStep(a)) && q <= StampOf(b, r) && Accounts(v, h, r, q)
    ensures Accounts(UnitStepped(v, b, a), h, r, q)
  {
    if WillHold(v.rows, v.unit.job, h, r, q) { JobStepHolds(v.rows, v.unit.job, h, b, a, r, q); }
  }

  lemma UnitDoneServes(v: Vault, h: History, b: Source, clock: nat, now: nat, r: Resource, q: nat)
    requires Bookkeeping(v, b, clock, now) && Enabled(v, UnitDone) && ServesFrom(v, h, r, q)
    ensures ServesFrom(UnitFinished(v), h, r, q)
  {
    LowWaterBelow(UnitFinished(v).pending, v.maxSeen, 0, r);
    JobDoneHolds(v.rows, v.unit.job, h, b, r, q);
  }

  lemma UnitDoneBuilds(v: Vault, h: History, b: Source, clock: nat, now: nat, r: Resource, q: nat)
    requires Bookkeeping(v, b, clock, now) && Enabled(v, UnitDone) && v.build.Building? && BuildsFrom(v, h, r, q)
    ensures BuildsFrom(UnitFinished(v), h, r, q)
  {
    LowWaterBelow(UnitFinished(v).pending, v.maxSeen, 0, r);
    if !BuildHolds(v, h, r, q) && q <= v.pos && r !in v.unit.work { SettleKeepsOthers(v.pending, v.unit.work, r); }
  }

  lemma UnitDoneAccounts(v: Vault, h: History, b: Source, clock: nat, now: nat, r: Resource, q: nat)
    requires Bookkeeping(v, b, clock, now) && Enabled(v, UnitDone) && Accounts(v, h, r, q)
    ensures Accounts(UnitFinished(v), h, r, q)
  {
    if v.mode.Built? { UnitDoneServes(v, h, b, clock, now, r, q); }
    if v.build.Building? { UnitDoneBuilds(v, h, b, clock, now, r, q); }
  }

  lemma LowWaterBelow(queue: Queue, maxSeen: nat, floor: nat, r: Resource)
    requires forall r :: r in queue ==> 0 < queue[r].stamp
    ensures LowWaterOf(queue, maxSeen, floor) <= Max(floor, maxSeen)
    ensures r in queue ==> LowWaterOf(queue, maxSeen, floor) <= Max(floor, queue[r].stamp - 1)
  {}

  // ── Rebuilds ──

  lemma UseTreeHolds(v: Vault, h: History, r: Resource, q: nat)
    requires Enabled(v, UseTree) && StageKnown(h, v.build.stage) && BuildHolds(v, h, r, q)
    ensures BuildHolds(TreeUsed(v), h, r, q)
  {
    var st := v.build.stage;
    if r == Tree && st.stamp >= q {
      var y, j := Within(BuiltRows(v), st.tree), ReadJob(st.tree, map[]);
      assert Promised(y, j) == Planned(y, j) == st.tree;
      PutByTree(h, st.tree, st.stamp, q, st.tree);
    }
  }

  lemma UseTreeAccounts(v: Vault, h: History, b: Source, clock: nat, now: nat, r: Resource, q: nat)
    requires Bookkeeping(v, b, clock, now) && HistoryOk(h, v, b) && Enabled(v, UseTree) && Accounts(v, h, r, q)
    ensures Accounts(TreeUsed(v), h, r, q)
  {
    if BuildHolds(v, h, r, q) { UseTreeHolds(v, h, r, q); }
  }

  lemma ReadDocLogHolds(v: Vault, h: History, b: Source, clock: nat, now: nat, e: DocId, r: Resource, q: nat)
    requires Bookkeeping(v, b, clock, now) && Enabled(v, ReadDocLog(e)) && q <= StampOf(b, r) && BuildHolds(v, h, r, q)
    ensures BuildHolds(DocLogRead(v, b, e), h, r, q)
  {
    var st := v.build.stage;
    if r !in v.build.replay {
      ReadingIsAJob(v, b, now);
      JobStepHolds(Within(BuiltRows(v), st.tree), ReadJob(st.toFetch, st.got), h, b, ReadDoc(e), r, q);
    }
  }

  lemma ReadDocLogAccounts(v: Vault, h: History, b: Source, clock: nat, now: nat, e: DocId, r: Resource, q: nat)
    requires Bookkeeping(v, b, clock, now) && Enabled(v, ReadDocLog(e)) && q <= StampOf(b, r) && Accounts(v, h, r, q)
    ensures Accounts(DocLogRead(v, b, e), h, r, q)
  {
    if BuildHolds(v, h, r, q) { ReadDocLogHolds(v, h, b, clock, now, e, r, q); }
  }

  lemma WritingHolds(x: Rows, tree: DocTree, j: Job, h: History, b: Source, ds: set<DocId>, r: Resource, q: nat)
    requires JobOk(Within(x, tree), j, b) && j.phase.Fetch? && j.docs == {} && ds <= j.got.Keys && j.toFetch.Keys <= tree.Keys
    requires q <= StampOf(b, r) && WillHold(Within(x, tree), j, h, r, q)
    ensures WillHold(Within(Written(x, j, ds), tree), ReadJob(j.toFetch - ds, j.got - ds), h, r, q)
  {
    JobStepHolds(Within(x, tree), j, h, b, WriteDocs(ds), r, q);
    WrittenWithin(x, j, ds, tree);
  }

  lemma WriteRowsHolds(v: Vault, h: History, b: Source, clock: nat, now: nat, ds: set<DocId>, r: Resource, q: nat)
    requires Bookkeeping(v, b, clock, now) && Enabled(v, WriteRows(ds)) && q <= StampOf(b, r) && BuildHolds(v, h, r, q)
    ensures BuildHolds(RowsWritten(v, ds), h, r, q)
  {
    var st := v.build.stage;
    if r !in v.build.replay {
      ReadingIsAJob(v, b, now);
      WritingHolds(BuiltRows(v), st.tree, ReadJob(st.toFetch, st.got), h, b, ds, r, q);
      assert BuiltRows(RowsWritten(v, ds)) == Written(BuiltRows(v), ReadJob(st.toFetch, st.got), ds);
    }
  }

  /** In place, an entry dropped after a read is not newer than what was read. */
  lemma DroppedIsWritten(v: Vault, h: History, b: Source, clock: nat, now: nat, ds: set<DocId>, d: DocId, q: nat)
    requires Bookkeeping(v, b, clock, now) && Enabled(v, WriteRows(ds)) && v.mode.InPlace? && d in ds
    requires Doc(d) in v.pending && v.pending[Doc(d)].stamp >= q && Doc(d) !in RowsWritten(v, ds).pending
    ensures BuildHolds(RowsWritten(v, ds), h, Doc(d), q)
  {
    var st := v.build.stage;
    assert BuiltRows(RowsWritten(v, ds)) == Written(BuiltRows(v), ReadJob(st.toFetch, st.got), ds);
    assert SeenBefore(v, Doc(d), st.asked[d].at, st.asked[d].base);
    assert st.got[d].Some? ==> st.asked[d].base <= st.got[d].value;
  }

  lemma WriteRowsAccounts(v: Vault, h: History, b: Source, clock: nat, now: nat, ds: set<DocId>, r: Resource, q: nat)
    requires Bookkeeping(v, b, clock, now) && Enabled(v, WriteRows(ds)) && q <= StampOf(b, r) && Accounts(v, h, r, q)
    ensures Accounts(RowsWritten(v, ds), h, r, q)
  {
    if BuildHolds(v, h, r, q) {
      WriteRowsHolds(v, h, b, clock, now, ds, r, q);
    } else if r in v.pending && r !in RowsWritten(v, ds).pending && v.pending[r].stamp >= q {
      DroppedIsWritten(v, h, b, clock, now, ds, r.id, q);
    }
  }

  lemma PruneAccounts(v: Vault, h: History, b: Source, clock: nat, now: nat, r: Resource, q: nat)
    requires Bookkeeping(v, b, clock, now) && Enabled(v, Prune) && Accounts(v, h, r, q)
    ensures Accounts(Pruned(v), h, r, q)
  {
    PrunedRows(v);
    assert ReadJob(v.build.stage.toFetch, v.build.stage.got) == NO_JOB;
  }

  lemma ReplayAccounts(v: Vault, h: History, b: Source, clock: nat, now: nat, implicitTree: bool, r: Resource, q: nat)
    requires Bookkeeping(v, b, clock, now) && Enabled(v, Replay(implicitTree)) && Accounts(v, h, r, q)
    ensures Accounts(ReplayStarted(v, implicitTree), h, r, q)
  {
    JobDoneHolds(BuiltRows(v), v.build.stage.job, h, b, r, q);
    if BuildHolds(v, h, r, q) { JobStartHolds(BuiltRows(v), v.build.replay, implicitTree, h, b, r, q); }
  }

  lemma ReplayStepAccounts(v: Vault, h: History, b: Source, clock: nat, now: nat, a: JobAction, r: Resource, q: nat)
    requires Bookkeeping(v, b, clock, now) && HistoryOk(h, v, b) && Enabled(v, ReplayStep(a)) && q <= StampOf(b, r) && Accounts(v, h, r, q)
    ensures Accounts(ReplayStepped(v, b, a), h, r, q)
  {
    if WillHold(BuiltRows(v), v.build.stage.job, h, r, q) { JobStepHolds(BuiltRows(v), v.build.stage.job, h, b, a, r, q); }
  }

  lemma MeasureAccounts(v: Vault, h: History, b: Source, clock: nat, now: nat, r: Resource, q: nat)
    requires Bookkeeping(v, b, clock, now) && Enabled(v, Measure) && Accounts(v, h, r, q)
    ensures Accounts(BuildMeasured(v), h, r, q)
  {
    LowWaterBelow(v.pending, v.maxSeen, v.build.from, r);
    JobDoneHolds(BuiltRows(v), v.build.stage.job, h, b, r, q);
  }

  lemma FinishAccounts(v: Vault, h: History, b: Source, clock: nat, now: nat, r: Resource, q: nat)
    requires Bookkeeping(v, b, clock, now) && Enabled(v, Finish) && Accounts(v, h, r, q)
    ensures Accounts(BuildFinished(v), h, r, q)
  {}

  predicate OfCatchUp(a: Action) {
    a.WriteRows? || a.Prune? || a.Replay? || a.ReplayStep? || a.Measure? || a.Finish?
  }

  lemma CatchUpAccounts(v: Vault, h: History, b: Source, clock: nat, now: nat, a: Action, r: Resource, q: nat)
    requires Bookkeeping(v, b, clock, now) && HistoryOk(h, v, b) && Enabled(v, a) && OfCatchUp(a) && q <= StampOf(b, r) && Accounts(v, h, r, q)
    ensures Accounts(Step(v, b, now, a), h, r, q)
  {
    match a
    case WriteRows(ds) => WriteRowsAccounts(v, h, b, clock, now, ds, r, q);
    case Prune => PruneAccounts(v, h, b, clock, now, r, q);
    case Replay(i) => ReplayAccounts(v, h, b, clock, now, i, r, q);
    case ReplayStep(ja) => ReplayStepAccounts(v, h, b, clock, now, ja, r, q);
    case Measure => MeasureAccounts(v, h, b, clock, now, r, q);
    case Finish => FinishAccounts(v, h, b, clock, now, r, q);
  }

  lemma OpeningAccounts(v: Vault, h: History, b: Source, clock: nat, now: nat, a: Action, r: Resource, q: nat)
    requires Bookkeeping(v, b, clock, now) && Enabled(v, a) && (a.BuildStart? || a.BuildOpen? || a.AskTree? || a.BuildFails?)
    ensures Accounts(Step(v, b, now, a), h, r, q)
  {}

  lemma EarlyAccounts(v: Vault, h: History, b: Source, clock: nat, now: nat, a: Action, r: Resource, q: nat)
    requires Bookkeeping(v, b, clock, now) && Enabled(v, a) && q <= StampOf(b, r) && Accounts(v, h, r, q)
    requires a.ReadTreeLog? || a.AskDocs? || a.Lock?
    ensures Accounts(Step(v, b, now, a), h, r, q)
  {}

  lemma AroundUnitAccounts(v: Vault, h: History, b: Source, clock: nat, now: nat, a: Action, r: Resource, q: nat)
    requires Bookkeeping(v, b, clock, now) && Enabled(v, a) && Accounts(v, h, r, q) && AroundUnit(a)
    ensures Accounts(Step(v, b, now, a), h, r, q)
  {}

  lemma UnitAccounts(v: Vault, h: History, b: Source, clock: nat, now: nat, a: Action, r: Resource, q: nat)
    requires Bookkeeping(v, b, clock, now) && HistoryOk(h, v, b) && Enabled(v, a) && q <= StampOf(b, r) && Accounts(v, h, r, q) && OfUnit(a)
    ensures Accounts(Step(v, b, now, a), h, r, q)
  {
    match a
    case StartUnit(i) => StartUnitAccounts(v, h, b, i, r, q);
    case UnitStep(ja) => UnitStepAccounts(v, h, b, clock, now, ja, r, q);
    case UnitDone => UnitDoneAccounts(v, h, b, clock, now, r, q);
  }

  /** Whatever a vault does, a stamp accounted for stays so. */
  lemma StepAccounts(v: Vault, h: History, b: Source, clock: nat, now: nat, a: Action, r: Resource, q: nat)
    requires Bookkeeping(v, b, clock, now) && HistoryOk(h, v, b) && Enabled(v, a) && q <= StampOf(b, r) && Accounts(v, h, r, q)
    ensures Accounts(Step(v, b, now, a), h, r, q)
  {
    if OfUnit(a) {
      UnitAccounts(v, h, b, clock, now, a, r, q);
    } else if AroundUnit(a) {
      AroundUnitAccounts(v, h, b, clock, now, a, r, q);
    } else if a.ReadDocLog? {
      ReadDocLogAccounts(v, h, b, clock, now, a.d, r, q);
    } else if a.UseTree? {
      UseTreeAccounts(v, h, b, clock, now, r, q);
    } else if OfCatchUp(a) {
      CatchUpAccounts(v, h, b, clock, now, a, r, q);
    } else if a.BuildStart? || a.BuildOpen? || a.AskTree? || a.BuildFails? {
      OpeningAccounts(v, h, b, clock, now, a, r, q);
    } else {
      EarlyAccounts(v, h, b, clock, now, a, r, q);
    }
  }

  // ── The feed, and losses of memory ──

  /** What the memory of a vault has been handed, of each resource: its greatest stamp. */
  type Handed = map<Resource, nat>

  /** What was handed over is accounted for; the bookkeeping of stamps between it, the queue and the unit. */
  ghost predicate HandedOk(k: Handed, v: Vault, h: History, b: Source) {
    && HistoryOk(h, v, b)
    && (forall r :: r in k ==> k[r] <= v.pos && k[r] <= StampOf(b, r) && Accounts(v, h, r, k[r]))
    && (forall r :: r in v.pending ==> r in k && v.pending[r].stamp <= k[r])
    && (forall r :: r in WorkOf(v.unit) ==>
          r in k && WorkOf(v.unit)[r] <= k[r]
          && (r in v.pending ==> WorkOf(v.unit)[r] <= v.pending[r].stamp))
  }

  function WorkOf(u: Unit): Work {
    match u
    case Waiting(work) => work
    case Running(work, _) => work
    case _ => map[]
  }

  /** A page on its way: no older than what was handed over, and accounted for. */
  ghost predicate OnItsWay(k: Handed, v: Vault, h: History, b: Source, rows: Work) {
    forall r :: r in rows ==>
      rows[r] <= StampOf(b, r) && (r in k ==> k[r] <= rows[r]) && Accounts(v, h, r, rows[r])
  }

  function HandedWith(k: Handed, rows: Work): Handed {
    map r | r in k.Keys + rows.Keys ::
      if r in rows then (if r in k then Max(k[r], rows[r]) else rows[r]) else k[r]
  }

  lemma HandedStep(k: Handed, v: Vault, h: History, b: Source, clock: nat, now: nat, a: Action)
    requires Bookkeeping(v, b, clock, now) && Enabled(v, a) && HandedOk(k, v, h, b)
    ensures HandedOk(k, Step(v, b, now, a), h, b)
  {
    var v' := Step(v, b, now, a);
    forall r | r in k ensures Accounts(v', h, r, k[r]) { StepAccounts(v, h, b, clock, now, a, r, k[r]); }
    HistoryStep(h, v, b, now, a);
    FewerWaits(v, b, clock, now, a);
    forall r | r in WorkOf(v'.unit)
      ensures if a.Take? then r in v.pending && WorkOf(v'.unit)[r] == v.pending[r].stamp
              else r in WorkOf(v.unit) && WorkOf(v'.unit)[r] == WorkOf(v.unit)[r]
    {
      WorkIsTaken(v, b, clock, now, a, r);
    }
  }

  lemma UnitTakesOff(v: Vault, b: Source, now: nat, a: Action)
    requires Enabled(v, a) && (OfUnit(a) || AroundUnit(a))
    ensures Fewer(Step(v, b, now, a).pending, v.pending) && Step(v, b, now, a).pos == v.pos
  {}

  lemma FewerWaits(v: Vault, b: Source, clock: nat, now: nat, a: Action)
    requires Bookkeeping(v, b, clock, now) && Enabled(v, a)
    ensures Fewer(Step(v, b, now, a).pending, v.pending) && Step(v, b, now, a).pos == v.pos
  {
    if OfUnit(a) || AroundUnit(a) { UnitTakesOff(v, b, now, a); }
  }

  lemma UnitStands(v: Vault, b: Source, now: nat, a: Action)
    requires Enabled(v, a) && (a.WriteRows? ==> StageShape(v.build.stage)) && !OfUnit(a) && !AroundUnit(a)
    ensures Step(v, b, now, a).unit == v.unit
  {}

  /** A vault's own steps only take work from its queue. */
  lemma WorkIsTaken(v: Vault, b: Source, clock: nat, now: nat, a: Action, r: Resource)
    requires Bookkeeping(v, b, clock, now) && Enabled(v, a) && r in WorkOf(Step(v, b, now, a).unit)
    ensures var stamp := WorkOf(Step(v, b, now, a).unit)[r];
      if a.Take? then r in v.pending && stamp == v.pending[r].stamp else r in WorkOf(v.unit) && stamp == WorkOf(v.unit)[r]
  {
    if !OfUnit(a) && !AroundUnit(a) { UnitStands(v, b, now, a); }
  }

  lemma DeliveredAhead(v: Vault, rows: Work, last: nat, now: nat, r: Resource, q: nat, floor: nat)
    requires Ahead(q, r, v.pending, v.pos, floor) && (q <= v.pos || (r in rows && rows[r] == q <= last))
    ensures var v' := Delivered(v, rows, last, now); Ahead(q, r, v'.pending, v'.pos, floor)
  {
    assert r in Delivered(v, rows, last, now).pending;
  }

  lemma DeliveredBuilds(v: Vault, h: History, rows: Work, last: nat, now: nat, r: Resource, q: nat)
    requires v.build.Building? && BuildsFrom(v, h, r, q) && (q <= v.pos || (r in rows && rows[r] == q <= last))
    ensures BuildsFrom(Delivered(v, rows, last, now), h, r, q)
  {
    if !BuildHolds(v, h, r, q) { DeliveredAhead(v, rows, last, now, r, q, BuildClaimed(v)); }
  }

  lemma DeliveredAccounts(k: Handed, v: Vault, h: History, b: Source, clock: nat, now: nat, rows: Work, last: nat, r: Resource, q: nat)
    requires Bookkeeping(v, b, clock, now) && HandedOk(k, v, h, b) && OnItsWay(k, v, h, b, rows) && Accounts(v, h, r, q)
    requires q <= v.pos || (r in rows && rows[r] == q <= last)
    ensures Accounts(Delivered(v, rows, last, now), h, r, q)
  {
    if v.mode.Built? {
      if !Holds(v.rows, h, r, q) { DeliveredAhead(v, rows, last, now, r, q, Claimed(v)); }
      if v.unit.Running? && !WillHold(v.rows, v.unit.job, h, r, q) { DeliveredBesideUnit(k, v, h, b, now, rows, last, r, q); }
    }
    if v.build.Building? { DeliveredBuilds(v, h, rows, last, now, r, q); }
  }

  lemma DeliveredBesideUnit(k: Handed, v: Vault, h: History, b: Source, now: nat, rows: Work, last: nat, r: Resource, q: nat)
    requires HandedOk(k, v, h, b) && OnItsWay(k, v, h, b, rows) && v.unit.Running?
    requires q <= v.pos || (r in rows && rows[r] == q <= last)
    requires Ahead(q, r, Settle(v.pending, v.unit.work), v.pos, Claimed(v))
    ensures var v' := Delivered(v, rows, last, now); Ahead(q, r, Settle(v'.pending, v.unit.work), v'.pos, Claimed(v'))
  {
    var v' := Delivered(v, rows, last, now);
    assert r in v'.pending;
    assert r in v.unit.work ==> v'.pending[r].stamp != v.unit.work[r];
    SettleKeepsOthers(v'.pending, v.unit.work, r);
  }

  lemma HandedStamps(k: Handed, v: Vault, h: History, b: Source, clock: nat, now: nat, rows: Work, since: nat, last: nat, r: Resource)
    requires Bookkeeping(v, b, clock, now) && HandedOk(k, v, h, b) && OnItsWay(k, v, h, b, rows) && PageOf(rows, b, since, last)
    requires r in HandedWith(k, rows)
    ensures var v', q := Delivered(v, rows, last, now), HandedWith(k, rows)[r];
      q <= v'.pos && q <= StampOf(b, r) && Accounts(v', h, r, q)
  {
    DeliveredAccounts(k, v, h, b, clock, now, rows, last, r, HandedWith(k, rows)[r]);
  }

  lemma HandedQueue(k: Handed, v: Vault, h: History, b: Source, rows: Work, last: nat, now: nat, r: Resource)
    requires HandedOk(k, v, h, b) && OnItsWay(k, v, h, b, rows)
    ensures var v', k' := Delivered(v, rows, last, now), HandedWith(k, rows);
      && (r in v'.pending ==> r in k' && v'.pending[r].stamp <= k'[r])
      && (r in WorkOf(v.unit) ==>
            r in k' && WorkOf(v.unit)[r] <= k'[r] && (r in v'.pending ==> WorkOf(v.unit)[r] <= v'.pending[r].stamp))
  {
    var v' := Delivered(v, rows, last, now);
    assert r in v'.pending <==> r in v.pending || r in rows;
  }

  lemma HandedDeliver(k: Handed, v: Vault, h: History, b: Source, clock: nat, now: nat, rows: Work, since: nat, last: nat)
    requires Bookkeeping(v, b, clock, now) && HandedOk(k, v, h, b) && OnItsWay(k, v, h, b, rows) && PageOf(rows, b, since, last)
    ensures HandedOk(HandedWith(k, rows), Delivered(v, rows, last, now), h, b)
  {
    var v', k' := Delivered(v, rows, last, now), HandedWith(k, rows);
    assert v'.unit == v.unit;
    forall r | r in k' ensures k'[r] <= v'.pos && k'[r] <= StampOf(b, r) && Accounts(v', h, r, k'[r]) {
      HandedStamps(k, v, h, b, clock, now, rows, since, last, r);
    }
    forall r ensures r in v'.pending ==> r in k' && v'.pending[r].stamp <= k'[r] { HandedQueue(k, v, h, b, rows, last, now, r); }
    forall r | r in WorkOf(v'.unit)
      ensures r in k' && WorkOf(v'.unit)[r] <= k'[r] && (r in v'.pending ==> WorkOf(v'.unit)[r] <= v'.pending[r].stamp)
    {
      HandedQueue(k, v, h, b, rows, last, now, r);
    }
  }

  /** A loss of memory, with a page on its way or none, leaves that page accounted for. */
  lemma ForgottenAccounts(k: Handed, v: Vault, h: History, b: Source, from: nat, rows: Work, r: Resource)
    requires HandedOk(k, v, h, b) && OnItsWay(k, v, h, b, rows) && r in rows
    requires from <= v.pos && SafeToForget(v, from)
    ensures Accounts(Forgotten(v, from), h, r, rows[r])
  {}
}
