/**
 * One vault of a shard: live units, rebuilds in place and beside, what is on
 * disk and what is only in memory (`VaultStore` of apps/indexer/src/store.ts).
 * Between any two steps the backend may write, the feed may hand over a page,
 * and the other activity of the vault may go on.
 */
module VaultMachine {
  import opened Common
  import opened ChangeQueue
  import opened IndexJob

  /** What the file on disk says must be done at the next opening. */
  datatype Mode = Built | InPlace | Beside

  datatype Unit =
    | Idle
    | Waiting(work: Work)               // taken, waits for the vault mutex
    | Running(work: Work, job: Job)     // holds the mutex
    | Sealing(stamp: nat)               // settled, about to record its position

  datatype Stage =
    | Opening
    | Opened
    | TreeAsked(at: nat, base: nat)
    | TreeRead(at: nat, base: nat, tree: DocTree, stamp: nat)
    | Reading(tree: DocTree, stamp: nat, toFetch: DocTree, asked: map<DocId, Asked>, got: map<DocId, Option<nat>>)
    | Catching(job: Job)
    | Ending(stamp: nat)                // its position is settled, it waits for the slot

  /** When a document read was asked, and (for the proof) what the backend held then. */
  datatype Asked = Asked(at: nat, base: nat)

  datatype Build =
    | NoBuild
    | Building(from: nat, stage: Stage, target: Rows, replay: set<Resource>, locked: bool)

  datatype Vault = Vault(
    // on disk
    rows: Rows, recorded: nat, mode: Mode,
    // in memory
    checked: bool, pending: Queue, maxSeen: nat, feedPos: nat, applied: nat,
    unit: Unit, build: Build,
    // for the proof: every feed row up to here has been delivered to this memory
    pos: nat)

  datatype Action =
    | Check(trustRecorded: bool)
    | Take(work: Work)
    | StartUnit(implicitTree: bool)
    | UnitStep(a: JobAction)
    | UnitDone
    | Seal
    | SealFails
    | UnitFails
    | BuildStart
    | BuildOpen(emptied: bool)
    | AskTree
    | ReadTreeLog
    | UseTree
    | AskDocs(ds: set<DocId>)
    | ReadDocLog(d: DocId)
    | WriteRows(ds: set<DocId>)
    | Prune
    | Replay(implicitTree: bool)
    | ReplayStep(a: JobAction)
    | Lock
    | Measure
    | Finish
    | BuildFails

  /** `rebuild` of the source: known once the file has been checked. */
  predicate RebuildPending(v: Vault) {
    v.checked && !v.mode.Built?
  }

  /** The rows a build writes. */
  function BuiltRows(v: Vault): Rows
    requires v.build.Building?
  {
    if v.mode.InPlace? then v.rows else v.build.target
  }

  function WithBuiltRows(v: Vault, x: Rows): Vault
    requires v.build.Building?
  {
    if v.mode.InPlace? then v.(rows := x) else v.(build := v.build.(target := x))
  }

  predicate HoldsMutex(u: Unit) {
    u.Running? || u.Sealing?
  }

  predicate TargetOpen(v: Vault) {
    v.build.Building? && v.mode.Beside? && !v.build.stage.Opening?
  }

  predicate Enabled(v: Vault, a: Action) {
    match a
    case Check(_) => !v.checked
    case Take(work) =>
      && v.checked && !v.mode.InPlace? && v.unit.Idle?
      && work != map[] && work.Keys <= v.pending.Keys
      && forall r :: r in work ==> work[r] == v.pending[r].stamp
    case StartUnit(_) => v.unit.Waiting? && !(v.build.Building? && v.build.locked)
    case UnitStep(ja) => v.unit.Running? && JobEnabled(v.rows, v.unit.job, ja)
    case UnitDone => v.unit.Running? && JobDone(v.unit.job)
    case Seal => v.unit.Sealing?
    case SealFails => v.unit.Sealing?
    case UnitFails => v.unit.Running?
    case BuildStart => RebuildPending(v) && v.build.NoBuild?
    case BuildOpen(emptied) => v.build.Building? && v.build.stage.Opening? && (emptied ==> v.mode.InPlace?)
    case AskTree => v.build.Building? && v.build.stage.Opened?
    case ReadTreeLog => v.build.Building? && v.build.stage.TreeAsked?
    case UseTree => v.build.Building? && v.build.stage.TreeRead?
    case AskDocs(ds) => v.build.Building? && v.build.stage.Reading? && ds <= v.build.stage.toFetch.Keys - v.build.stage.asked.Keys
    case ReadDocLog(d) => v.build.Building? && v.build.stage.Reading? && d in v.build.stage.asked && d !in v.build.stage.got
    case WriteRows(ds) => v.build.Building? && v.build.stage.Reading? && ds <= v.build.stage.got.Keys
    case Prune => v.build.Building? && v.build.stage.Reading? && v.build.stage.toFetch == map[]
    case Replay(_) => v.mode.Beside? && v.build.Building? && v.build.stage.Catching? && JobDone(v.build.stage.job) && v.build.replay != {}
    case ReplayStep(ja) => v.build.Building? && v.build.stage.Catching? && JobEnabled(BuiltRows(v), v.build.stage.job, ja)
    case Lock => v.build.Building? && v.build.stage.Catching? && JobDone(v.build.stage.job) && !HoldsMutex(v.unit)
    case Measure => v.build.Building? && v.build.stage.Catching? && JobDone(v.build.stage.job) && v.build.locked && v.build.replay == {}
    case Finish => v.build.Building? && v.build.stage.Ending?
    case BuildFails => v.build.Building?
  }

  // ── Live units ──

  function Checked(v: Vault, trustRecorded: bool): Vault {
    v.(checked := true, applied := if v.mode.InPlace? || (v.mode.Beside? && !trustRecorded) then 0 else v.recorded)
  }

  /** Inside the mutex: what the index already records is dropped, then the job starts. */
  function UnitStarted(v: Vault, implicitTree: bool): Vault
    requires v.unit.Waiting?
  {
    var work := NotApplied(v.unit.work, v.applied);
    v.(pending := Settle(v.pending, Applied(v.unit.work, v.applied)),
       unit := if work == map[] then Idle else Running(work, StartJob(work.Keys, implicitTree)))
  }

  function UnitStepped(v: Vault, b: Source, a: JobAction): Vault
    requires v.unit.Running? && JobEnabled(v.rows, v.unit.job, a)
  {
    var (x, j) := JobStep(v.rows, v.unit.job, b, a);
    v.(rows := x, unit := v.unit.(job := j))
  }

  ghost function UnitFinished(v: Vault): Vault
    requires v.unit.Running?
  {
    var q := Settle(v.pending, v.unit.work);
    var low := LowWaterOf(q, v.maxSeen, 0);
    v.(pending := q,
       build := if TargetOpen(v) then v.build.(replay := v.build.replay + v.unit.work.Keys) else v.build,
       unit := if low > v.applied then Sealing(low) else Idle)
  }

  function Sealed(v: Vault): Vault
    requires v.unit.Sealing?
  {
    v.(recorded := v.unit.stamp, applied := v.unit.stamp, unit := Idle)
  }

  // ── Rebuilds ──

  function BuildStarted(v: Vault): Vault {
    v.(pending := After(v.pending, v.feedPos), build := Building(v.feedPos, Opening, map[], {}, false))
  }

  function BuildOpened(v: Vault, emptied: bool): Vault
    requires v.build.Building?
  {
    var v' := v.(build := v.build.(stage := Opened));
    if emptied then v'.(rows := map[], recorded := 0) else v'
  }

  function TreeUsed(v: Vault): Vault
    requires v.build.Building? && v.build.stage.TreeRead?
  {
    var st := v.build.stage;
    v.(pending := if v.mode.InPlace? then ForgetSeenBefore(v.pending, {Tree}, st.at) else v.pending,
       build := v.build.(stage := Reading(st.tree, st.stamp, st.tree, map[], map[])))
  }

  function DocsAsked(v: Vault, b: Source, now: nat, ds: set<DocId>): Vault
    requires v.build.Building? && v.build.stage.Reading?
  {
    var st := v.build.stage;
    var more := map d | d in ds :: Asked(now, StampOf(b, Doc(d)));
    v.(build := v.build.(stage := st.(asked := st.asked + more)))
  }

  function DocLogRead(v: Vault, b: Source, d: DocId): Vault
    requires v.build.Building? && v.build.stage.Reading?
  {
    var st := v.build.stage;
    v.(build := v.build.(stage := st.(got := st.got[d := Lookup(b.docs, d)])))
  }

  /** What a build has read and still has to read, as a job. */
  function ReadJob(toFetch: DocTree, got: map<DocId, Option<nat>>): Job {
    Job({}, Fetch, toFetch, got)
  }

  /** Written notes; in place, changes seen before these notes were read are in them. */
  function RowsWritten(v: Vault, ds: set<DocId>): Vault
    requires v.build.Building? && v.build.stage.Reading? && ds <= v.build.stage.got.Keys
    requires v.build.stage.got.Keys <= v.build.stage.asked.Keys && v.build.stage.got.Keys <= v.build.stage.toFetch.Keys
  {
    var st := v.build.stage;
    var v' := WithBuiltRows(v, Written(BuiltRows(v), ReadJob(st.toFetch, st.got), ds));
    v'.(pending := if v.mode.InPlace? then ForgetRead(v.pending, st.asked, ds) else v.pending,
        build := v'.build.(stage := st.(toFetch := st.toFetch - ds, asked := st.asked - ds, got := st.got - ds)))
  }

  function ForgetRead(q: Queue, asked: map<DocId, Asked>, ds: set<DocId>): Queue
    requires ds <= asked.Keys
  {
    map r | r in q && !(r.Doc? && r.id in ds && q[r].lastAt < asked[r.id].at) :: q[r]
  }

  function Within(x: Rows, tree: DocTree): Rows {
    map d | d in x && d in tree :: x[d]
  }

  /** What is indexed and not in the tree goes. */
  function Pruned(v: Vault): Vault
    requires v.build.Building? && v.build.stage.Reading?
  {
    var v' := WithBuiltRows(v, Within(BuiltRows(v), v.build.stage.tree));
    v'.(build := v'.build.(stage := Catching(NO_JOB)))
  }

  function ReplayStarted(v: Vault, implicitTree: bool): Vault
    requires v.build.Building?
  {
    v.(build := v.build.(stage := Catching(StartJob(v.build.replay, implicitTree)), replay := {}))
  }

  function ReplayStepped(v: Vault, b: Source, a: JobAction): Vault
    requires v.build.Building? && v.build.stage.Catching? && JobEnabled(BuiltRows(v), v.build.stage.job, a)
  {
    var (x, j) := JobStep(BuiltRows(v), v.build.stage.job, b, a);
    var v' := WithBuiltRows(v, x);
    v'.(build := v'.build.(stage := Catching(j)))
  }

  /** The position the file will record; changes may still arrive before it is written. */
  ghost function BuildMeasured(v: Vault): Vault
    requires v.build.Building?
  {
    v.(build := v.build.(stage := Ending(LowWaterOf(v.pending, v.maxSeen, v.build.from))))
  }

  /** The swap (beside) or the end (in place): the file is built, up to this position. */
  function BuildFinished(v: Vault): Vault
    requires v.build.Building? && v.build.stage.Ending?
  {
    var stamp := v.build.stage.stamp;
    v.(rows := BuiltRows(v), recorded := stamp, mode := Built, applied := stamp, build := NoBuild)
  }

  ghost function Step(v: Vault, b: Source, now: nat, a: Action): Vault
    requires Enabled(v, a) && (a.WriteRows? ==> StageShape(v.build.stage))
  {
    match a
    case Check(t) => Checked(v, t)
    case Take(work) => v.(unit := Waiting(work))
    case StartUnit(i) => UnitStarted(v, i)
    case UnitStep(ja) => UnitStepped(v, b, ja)
    case UnitDone => UnitFinished(v)
    case Seal => Sealed(v)
    case SealFails => v.(unit := Idle)
    case UnitFails => v.(unit := Idle)
    case BuildStart => BuildStarted(v)
    case BuildOpen(emptied) => BuildOpened(v, emptied)
    case AskTree => v.(build := v.build.(stage := TreeAsked(now, b.treeStamp)))
    case ReadTreeLog =>
      v.(build := v.build.(stage := TreeRead(v.build.stage.at, v.build.stage.base, b.tree, b.treeStamp)))
    case UseTree => TreeUsed(v)
    case AskDocs(ds) => DocsAsked(v, b, now, ds)
    case ReadDocLog(d) => DocLogRead(v, b, d)
    case WriteRows(ds) => RowsWritten(v, ds)
    case Prune => Pruned(v)
    case Replay(i) => ReplayStarted(v, i)
    case ReplayStep(ja) => ReplayStepped(v, b, ja)
    case Lock => v.(build := v.build.(locked := true))
    case Measure => BuildMeasured(v)
    case Finish => BuildFinished(v)
    case BuildFails => v.(build := NoBuild)
  }

  // ── What is announced, what is covered ──

  ghost predicate StageShape(st: Stage) {
    st.Reading? ==> st.got.Keys <= st.asked.Keys <= st.toFetch.Keys <= st.tree.Keys
  }

  /** The last write of `r` will still be handed to this memory, or waits in it. */
  ghost predicate Announced(v: Vault, b: Source, r: Resource) {
    StampOf(b, r) > v.pos || (r in v.pending && v.pending[r].stamp == StampOf(b, r))
  }

  /** The build, as far as it has gone, accounts for the last write of `r`. */
  ghost predicate BuildCovers(v: Vault, b: Source, r: Resource)
    requires v.build.Building?
  {
    r in v.build.replay ||
    match v.build.stage
    case Opening => true
    case Opened => true
    case TreeAsked(_, _) => true
    case TreeRead(_, _, _, stamp) => r == Tree ==> stamp == b.treeStamp
    case Reading(tree, _, toFetch, _, got) => WillBeCurrent(Within(BuiltRows(v), tree), ReadJob(toFetch, got), b, r)
    case Catching(job) => WillBeCurrent(BuiltRows(v), job, b, r)
    case Ending(_) => Current(BuiltRows(v), b, r)
  }

  ghost predicate TreeOk(tree: DocTree, stamp: nat, b: Source) {
    stamp <= b.treeStamp && (stamp == b.treeStamp ==> tree == b.tree)
  }

  ghost predicate StageOk(v: Vault, b: Source, now: nat)
    requires v.build.Building?
  {
    StageShape(v.build.stage) &&
    match v.build.stage
    case Opening => true
    case Opened => true
    case TreeAsked(at, base) =>
      && at <= now && base <= b.treeStamp
      && SeenBefore(v, Tree, at, base)
    case TreeRead(at, base, tree, stamp) =>
      && at <= now && base <= stamp && TreeOk(tree, stamp, b)
      && SeenBefore(v, Tree, at, base)
    case Reading(tree, _, toFetch, asked, got) =>
      && (forall d :: d in toFetch ==> toFetch[d] == tree[d])
      && (forall d :: d in asked ==>
            asked[d].at <= now && asked[d].base <= StampOf(b, Doc(d)) && SeenBefore(v, Doc(d), asked[d].at, asked[d].base))
      && (forall d :: d in got ==> if got[d].Some? then d in b.docs && asked[d].base <= got[d].value <= b.docs[d] else asked[d].base == 0)
    case Catching(job) => JobOk(BuiltRows(v), job, b)
    case Ending(_) => v.build.locked && v.build.replay == {}
  }

  ghost predicate SeenBefore(v: Vault, r: Resource, at: nat, base: nat) {
    r in v.pending && v.pending[r].lastAt < at ==> v.pending[r].stamp <= base
  }

  ghost predicate WorkOk(work: Work, b: Source) {
    forall r :: r in work ==> work[r] <= StampOf(b, r)
  }

  ghost predicate Bookkeeping(v: Vault, b: Source, clock: nat, now: nat) {
    && RowsOk(v.rows, b)
    && b.treeStamp <= clock && (forall d :: d in b.docs ==> b.docs[d] <= clock)
    && (forall r :: r in v.pending ==> 0 < v.pending[r].stamp <= StampOf(b, r) && v.pending[r].lastAt <= now)
    && v.maxSeen <= v.pos <= clock && v.feedPos <= v.pos
    && v.recorded <= clock && v.applied <= clock
    && (!v.checked ==> v.unit.Idle? && v.build.NoBuild? && v.applied == 0)
    && (v.mode.Built? ==> v.build.NoBuild?)
    && (v.mode.InPlace? ==> v.unit.Idle?)
    && (v.unit.Waiting? ==> WorkOk(v.unit.work, b))
    && (v.unit.Running? ==> WorkOk(v.unit.work, b) && JobOk(v.rows, v.unit.job, b))
    && (v.unit.Sealing? ==> v.unit.stamp <= clock)
    && (v.build.Building? ==>
          && StageOk(v, b, now) && RowsOk(BuiltRows(v), b)
          && v.build.from <= v.pos
          && (v.build.locked ==> (v.build.stage.Catching? || v.build.stage.Ending?) && !HoldsMutex(v.unit))
          && (v.build.stage.Ending? ==> v.build.stage.stamp <= clock)
          && (v.build.replay != {} ==> v.mode.Beside?))
  }

  /** A stamp this unit is not about to settle, nor the index to claim. */
  ghost predicate StillToCome(v: Vault, b: Source, r: Resource)
    requires v.unit.Running?
  {
    && Announced(v, b, r)
    && !(r in v.unit.work && v.unit.work[r] == StampOf(b, r))
    && StampOf(b, r) > v.applied && StampOf(b, r) > v.recorded
  }

  /** A built index: nothing is lost, and no recorded position claims too much. */
  ghost predicate Serves(v: Vault, b: Source) {
    && (forall r :: Current(v.rows, b, r) || Announced(v, b, r))
    && (forall r :: StampOf(b, r) <= v.applied || StampOf(b, r) <= v.recorded ==> Current(v.rows, b, r))
    && (v.unit.Running? ==> forall r :: WillBeCurrent(v.rows, v.unit.job, b, r) || StillToCome(v, b, r))
    && (v.unit.Sealing? ==> forall r :: StampOf(b, r) <= v.unit.stamp ==> Current(v.rows, b, r))
  }

  /** A build under way: whatever it does not account for is still announced. */
  ghost predicate Builds(v: Vault, b: Source)
    requires v.build.Building?
  {
    && (forall r :: BuildCovers(v, b, r) || Announced(v, b, r))
    && (forall r :: StampOf(b, r) <= v.build.from || StampOf(b, r) <= v.applied ==> BuildCovers(v, b, r))
    && (v.unit.Sealing? ==> forall r :: StampOf(b, r) <= v.unit.stamp ==> BuildCovers(v, b, r))
    && (v.build.stage.Ending? ==> forall r :: StampOf(b, r) <= v.build.stage.stamp ==> BuildCovers(v, b, r))
  }

  ghost predicate Inv(v: Vault, b: Source, clock: nat, now: nat) {
    && Bookkeeping(v, b, clock, now)
    && (v.mode.Built? ==> Serves(v, b))
    && (v.build.Building? ==> Builds(v, b))
  }
}
