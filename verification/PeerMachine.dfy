/**
 * The whole indexer peer: the feed loop and its positions (`Feed` of
 * apps/indexer/src/feed.ts), the shards behind it (apps/indexer/src/shards.ts)
 * and the backend, as one state machine over any interleaving of their steps.
 */
module PeerMachine {
  import opened Common
  import opened ChangeQueue
  import opened IndexJob
  import opened VaultMachine
  import opened VaultSafety
  import opened Registration

  type VaultId = string

  datatype Page = Page(since: nat, last: nat, rows: map<VaultId, Work>)

  datatype Peer = Peer(
    clock: nat,                        // greatest stamp of the feed
    now: nat,                          // wall clock, never going back
    src: map<VaultId, Source>,
    vaults: map<VaultId, Vault>,
    cursor: nat,
    persisted: nat,
    rewindTo: Option<nat>,
    page: Option<Page>,                // read from the backend, not yet dispatched
    saving: Option<nat>)               // cursor captured by a `persist` under way

  datatype PeerAction =
    | Tick(dt: nat)
    | Writes(id: VaultId, d: DocId)
    | WritesTree(id: VaultId, tree: DocTree)
    | Registers(id: VaultId, d: DocId)
    | Fetches(last: nat)
    | FetchFails
    | Dispatches
    | Rewinds
    | SaveStarts
    | SaveEnds
    | Inside(id: VaultId, a: Action)
    | Crashes
    | ShardFails(ids: set<VaultId>)
    | FoundUnfit(id: VaultId, mode: Mode, lost: bool)

  function Resources(b: Source): set<Resource> {
    {Tree} + set d | d in b.docs :: Doc(d)
  }

  /** The rows of the feed between two positions: one per resource, at its last write. */
  function RowsBetween(b: Source, since: nat, last: nat): Work {
    map r | r in Resources(b) && since < StampOf(b, r) <= last :: StampOf(b, r)
  }

  ghost predicate PeerEnabled(s: Peer, a: PeerAction) {
    match a
    case Tick(_) => true
    case Writes(id, d) => id in s.src && id in s.vaults && d in s.src[id].docs
    case WritesTree(id, tree) => id in s.src && id in s.vaults
    case Registers(id, d) => id in s.src && id in s.vaults
    case Fetches(last) => s.page.None? && s.rewindTo.None? && s.cursor <= last <= s.clock
    case FetchFails => s.page.Some?
    case Dispatches => s.page.Some? && s.page.value.rows.Keys == s.vaults.Keys
    case Rewinds => s.page.None? && s.rewindTo.Some?
    case SaveStarts => s.saving.None?
    case SaveEnds => s.saving.Some?
    case Inside(id, va) => id in s.vaults && id in s.src && Enabled(s.vaults[id], va)
                           && (va.WriteRows? ==> StageShape(s.vaults[id].build.stage))
    case Crashes => true
    case ShardFails(ids) => ids <= s.vaults.Keys
    case FoundUnfit(id, mode, lost) => id in s.vaults && !s.vaults[id].checked && (lost ==> mode.InPlace?)
  }

  /** What holds `persist` back: a vault to be rebuilt does not (`lowWater` of store.ts). */
  ghost function FirstWaiting(v: Vault): Option<nat> {
    if RebuildPending(v) then None else LeastStamp(v.pending)
  }

  ghost function LeastWaiting(vs: map<VaultId, Vault>): (m: Option<nat>)
    ensures m.None? ==> forall id :: id in vs ==> FirstWaiting(vs[id]).None?
    ensures m.Some? ==> forall id :: id in vs && FirstWaiting(vs[id]).Some? ==> m.value <= FirstWaiting(vs[id]).value
    ensures m.Some? ==> exists id :: id in vs && FirstWaiting(vs[id]) == m
    decreases |vs|
  {
    if vs == map[] then None else
      var id :| id in vs;
      var rest := vs - {id};
      assert vs == rest[id := vs[id]];
      var m := LeastWaiting(rest);
      var w := FirstWaiting(vs[id]);
      if m.None? then w else if w.None? then m else Some(Min(m.value, w.value))
  }

  /** `persist` of feed.ts: never beyond a change not handled yet. */
  ghost function SafePosition(captured: nat, vs: map<VaultId, Vault>): nat {
    match LeastWaiting(vs)
    case None => captured
    case Some(m) => Max(0, Min(captured, m - 1))
  }

  /** Strictly worse news than what the file already says wins. */
  function Unfit(v: Vault, mode: Mode, lost: bool): Vault {
    if lost then v.(rows := map[], recorded := 0, mode := InPlace)
    else if v.mode.InPlace? || mode.Built? then v
    else v.(mode := mode)
  }

  ghost function PeerStep(s: Peer, a: PeerAction): Peer
    requires PeerEnabled(s, a)
  {
    match a
    case Tick(dt) => s.(now := s.now + dt)
    case Writes(id, d) => s.(clock := s.clock + 1, src := s.src[id := WriteDoc(s.src[id], d, s.clock + 1)])
    case WritesTree(id, tree) => s.(clock := s.clock + 1, src := s.src[id := WriteTree(s.src[id], tree, s.clock + 1)])
    case Registers(id, d) => s.(src := s.src[id := Register(s.src[id], d)])
    case Fetches(last) =>
      var rows := map id | id in s.vaults ::
        if id in s.src then RowsBetween(s.src[id], s.cursor, last) else map[];
      s.(page := Some(Page(s.cursor, last, rows)))
    case FetchFails => s.(page := None)
    case Dispatches =>
      var pg := s.page.value;
      s.(vaults := map id | id in s.vaults :: Delivered(s.vaults[id], pg.rows[id], pg.last, s.now),
         cursor := if s.rewindTo.None? then Max(s.cursor, pg.last) else s.cursor,
         page := None)
    case Rewinds => s.(cursor := Min(s.cursor, s.rewindTo.value), rewindTo := None)
    case SaveStarts => s.(saving := Some(s.cursor))
    case SaveEnds => s.(persisted := SafePosition(s.saving.value, s.vaults), saving := None)
    case Inside(id, va) => s.(vaults := s.vaults[id := Step(s.vaults[id], s.src[id], s.now, va)])
    case Crashes =>
      s.(vaults := map id | id in s.vaults :: Forgotten(s.vaults[id], s.persisted),
         cursor := s.persisted, rewindTo := None, page := None, saving := None)
    case ShardFails(ids) =>
      s.(vaults := map id | id in s.vaults :: if id in ids then Forgotten(s.vaults[id], s.persisted) else s.vaults[id],
         rewindTo := Some(s.persisted), saving := None)
    case FoundUnfit(id, mode, lost) => s.(vaults := s.vaults[id := Unfit(s.vaults[id], mode, lost)])
  }

  /**
   * The circumstances the code relies on without enforcing them, for one
   * vault: a document is registered before anything takes it for gone;
   * `persist` does not start between the death of a shard and the rewind; its
   * memory is not lost while it alone knows of a last write, at or below the
   * persisted position, that its built index lacks; nor, with a page in
   * flight, while that index waits for any change there, or if the page
   * starts above it.
   */
  ghost predicate Orderly(s: Peer, a: PeerAction, id: VaultId)
    requires PeerEnabled(s, a) && id in s.vaults && id in s.src
  {
    match a
    case Registers(at, d) => at == id ==> InTime(s.vaults[id], s.src[id], d)
    case SaveStarts => s.rewindTo.None?
    case Crashes => !LosesAChange(s.vaults[id], s.src[id], s.persisted)
    case ShardFails(ids) => id in ids ==> SafeToFail(s, s.vaults[id], s.src[id])
    case _ => true
  }

  ghost predicate SafeToFail(s: Peer, v: Vault, b: Source) {
    match s.page
    case None => !LosesAChange(v, b, s.persisted)
    case Some(page) => SafeToForget(v, s.persisted) && page.since <= s.persisted
  }

  ghost predicate Positions(s: Peer) {
    && s.persisted <= s.cursor <= s.clock
    && (s.rewindTo.Some? ==> s.rewindTo.value == s.persisted && s.saving.None?)
    && (s.saving.Some? ==> s.saving.value <= s.cursor)
    && (s.page.Some? ==> s.page.value.since == s.cursor <= s.page.value.last <= s.clock)
  }

  /** Every feed row up to where the feed was read, saved or captured has reached this memory. */
  ghost predicate Reached(s: Peer, v: Vault) {
    && s.persisted <= v.pos
    && (s.rewindTo.None? ==> s.cursor <= v.pos)
    && (s.saving.Some? ==> s.saving.value <= v.pos)
    && (s.page.Some? ==> s.page.value.since <= v.pos)
  }

  ghost predicate PageHolds(s: Peer, id: VaultId)
    requires id in s.src
  {
    s.page.Some? ==> id in s.page.value.rows && PageOf(s.page.value.rows[id], s.src[id], s.page.value.since, s.page.value.last)
  }

  ghost predicate VaultHolds(s: Peer, id: VaultId)
    requires id in s.vaults && id in s.src
  {
    Inv(s.vaults[id], s.src[id], s.clock, s.now)
  }

  /** What every orderly step keeps, for one vault, whatever happens to the others. */
  ghost predicate PeerInv(s: Peer, id: VaultId) {
    && id in s.vaults && id in s.src
    && VaultHolds(s, id) && Positions(s) && Reached(s, s.vaults[id]) && PageHolds(s, id)
  }

  // ── One lemma a step ──

  lemma SourceFits(v: Vault, b: Source, clock: nat, now: nat)
    requires Inv(v, b, clock, now)
    ensures b.treeStamp <= clock && forall d :: d in b.docs ==> b.docs[d] <= clock
  {}

  /** What a write of the backend changes, and how. */
  lemma WriteMoves(b: Source, a: PeerAction, clock: nat, b': Source) returns (changed: Resource)
    requires b.treeStamp <= clock && forall d :: d in b.docs ==> b.docs[d] <= clock
    requires (a.Writes? && a.d in b.docs && b' == WriteDoc(b, a.d, clock + 1)) || (a.WritesTree? && b' == WriteTree(b, a.tree, clock + 1))
    ensures OnlyChanges(b, b', Some(changed)) && StampOf(b', changed) == clock + 1
    ensures b'.treeStamp <= clock + 1 && forall d :: d in b'.docs ==> b'.docs[d] <= clock + 1
  {
    changed := if a.Writes? then Doc(a.d) else Tree;
  }

  lemma PageStands(rows: Work, b: Source, b': Source, changed: Resource, clock: nat, since: nat, last: nat)
    requires PageOf(rows, b, since, last) && last <= clock && OnlyChanges(b, b', Some(changed)) && StampOf(b', changed) > clock
    ensures PageOf(rows, b', since, last)
  {
    forall r ensures StampOf(b', r) == StampOf(b, r) || (StampOf(b', r) > clock && StampOf(b, r) < StampOf(b', r)) {}
  }

  lemma WriteKeeps(s: Peer, a: PeerAction, id: VaultId)
    requires (a.Writes? || a.WritesTree?) && PeerInv(s, id) && PeerEnabled(s, a)
    ensures VaultHolds(PeerStep(s, a), id) && PageHolds(PeerStep(s, a), id)
  {
    var s' := PeerStep(s, a);
    SourceFits(s.vaults[id], s.src[id], s.clock, s.now);
    if a.id == id {
      var changed := WriteMoves(s.src[id], a, s.clock, s'.src[id]);
      BackendWriteKeeps(s.vaults[id], s.src[id], s'.src[id], Some(changed), s.clock, s'.clock, s.now);
      if s.page.Some? {
        var pg := s.page.value;
        PageStands(pg.rows[id], s.src[id], s'.src[id], changed, s.clock, pg.since, pg.last);
      }
    } else {
      BackendWriteKeeps(s.vaults[id], s.src[id], s'.src[id], None, s.clock, s'.clock, s.now);
    }
  }

  lemma PageRegistered(rows: Work, b: Source, d: DocId, since: nat, last: nat)
    requires PageOf(rows, b, since, last) && d !in b.docs
    ensures PageOf(rows, Register(b, d), since, last)
  {
    forall r ensures StampOf(Register(b, d), r) == StampOf(b, r) { }
  }

  /** A registration keeps what is kept for its vault exactly when it comes in time. */
  lemma RegistersExact(s: Peer, a: PeerAction, id: VaultId)
    requires a.Registers? && a.id == id && PeerInv(s, id) && PeerEnabled(s, a)
    ensures PeerInv(PeerStep(s, a), id) <==> InTime(s.vaults[id], s.src[id], a.d)
  {
    RegisteringExact(s.vaults[id], s.src[id], s.clock, s.now, a.d);
    if s.page.Some? && a.d !in s.src[id].docs {
      PageRegistered(s.page.value.rows[id], s.src[id], a.d, s.page.value.since, s.page.value.last);
    }
  }

  lemma FetchKeeps(s: Peer, last: nat, id: VaultId)
    requires PeerInv(s, id) && PeerEnabled(s, Fetches(last))
    ensures PageHolds(PeerStep(s, Fetches(last)), id)
  {
    var pg := PeerStep(s, Fetches(last)).page.value;
    forall r | s.cursor < StampOf(s.src[id], r) <= last ensures r in pg.rows[id] {
      assert r in Resources(s.src[id]);
    }
  }

  lemma DispatchKeeps(s: Peer, id: VaultId)
    requires PeerInv(s, id) && PeerEnabled(s, Dispatches)
    ensures VaultHolds(PeerStep(s, Dispatches), id)
  {
    var pg := s.page.value;
    DeliverKeeps(s.vaults[id], s.src[id], s.clock, s.now, pg.rows[id], pg.since, pg.last);
  }

  lemma UnfitKeeps(v: Vault, b: Source, clock: nat, now: nat, mode: Mode, lost: bool)
    requires Inv(v, b, clock, now) && !v.checked
    ensures Inv(Unfit(v, mode, lost), b, clock, now)
  {}

  lemma VaultKeeps(s: Peer, a: PeerAction, id: VaultId)
    requires PeerInv(s, id) && PeerEnabled(s, a) && Orderly(s, a, id)
    ensures VaultHolds(PeerStep(s, a), id)
  {
    match a
    case Tick(dt) => TimePasses(s.vaults[id], s.src[id], s.clock, s.now, s.now + dt);
    case Writes(_, _) => WriteKeeps(s, a, id);
    case WritesTree(_, _) => WriteKeeps(s, a, id);
    case Registers(at, _) => if at == id { RegistersExact(s, a, id); }
    case Dispatches => DispatchKeeps(s, id);
    case Inside(at, va) => if at == id { StepKeeps(s.vaults[id], s.src[id], s.clock, s.now, va); }
    case Crashes => ForgetExact(s.vaults[id], s.src[id], s.clock, s.now, s.persisted);
    case ShardFails(ids) => if id in ids { ForgetExact(s.vaults[id], s.src[id], s.clock, s.now, s.persisted); }
    case FoundUnfit(at, mode, lost) =>
      if at == id { UnfitKeeps(s.vaults[id], s.src[id], s.clock, s.now, mode, lost); }
    case _ =>
  }

  /** Positions of a vault only move when a page arrives or its memory is lost. */
  lemma PosStands(v: Vault, b: Source, now: nat, a: Action)
    requires Enabled(v, a) && (a.WriteRows? ==> StageShape(v.build.stage))
    ensures Step(v, b, now, a).pos == v.pos
  {}

  lemma PositionsKeep(s: Peer, a: PeerAction, id: VaultId)
    requires id in s.vaults && id in s.src && Positions(s) && Reached(s, s.vaults[id]) && PeerEnabled(s, a) && Orderly(s, a, id)
    ensures Positions(PeerStep(s, a)) && Reached(PeerStep(s, a), PeerStep(s, a).vaults[id])
  {
    match a
    case Inside(at, va) => if at == id { PosStands(s.vaults[id], s.src[id], s.now, va); }
    case _ =>
  }

  lemma PageKeeps(s: Peer, a: PeerAction, id: VaultId)
    requires PeerInv(s, id) && PeerEnabled(s, a)
    ensures id in PeerStep(s, a).src && PageHolds(PeerStep(s, a), id)
  {
    match a
    case Writes(_, _) => WriteKeeps(s, a, id);
    case WritesTree(_, _) => WriteKeeps(s, a, id);
    case Registers(at, d) =>
      if at == id && s.page.Some? && d !in s.src[id].docs {
        PageRegistered(s.page.value.rows[id], s.src[id], d, s.page.value.since, s.page.value.last);
      }
    case Fetches(last) => FetchKeeps(s, last, id);
    case _ =>
  }

  lemma PeerStepKeeps(s: Peer, a: PeerAction, id: VaultId)
    requires PeerInv(s, id) && PeerEnabled(s, a) && Orderly(s, a, id)
    ensures PeerInv(PeerStep(s, a), id)
  {
    VaultKeeps(s, a, id);
    PositionsKeep(s, a, id);
    PageKeeps(s, a, id);
  }
}
