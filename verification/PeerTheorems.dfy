/** What holds over whole runs of the peer. */
module PeerTheorems {
  import opened Common
  import opened ChangeQueue
  import opened IndexJob
  import opened VaultMachine
  import opened VaultSafety
  import opened PeerMachine

  /** `run` leads from `s` to `t`, every step of it in order for the vault `id`. */
  ghost predicate OrderlyRun(s: Peer, run: seq<PeerAction>, t: Peer, id: VaultId)
    decreases |run|
  {
    if run == [] then s == t else
      && PeerEnabled(s, run[0]) && id in s.vaults && id in s.src && Orderly(s, run[0], id)
      && OrderlyRun(PeerStep(s, run[0]), run[1..], t, id)
  }

  /** First start: no saved position, no index file. */
  ghost predicate FirstStart(s: Peer) {
    && s.vaults.Keys == s.src.Keys
    && s.cursor == s.persisted == 0 && s.rewindTo.None? && s.page.None? && s.saving.None?
    && (forall id :: id in s.src ==>
          s.src[id].treeStamp <= s.clock && forall d :: d in s.src[id].docs ==> s.src[id].docs[d] <= s.clock)
    && (forall id :: id in s.vaults ==> s.vaults[id] == Forgotten(NoFile(), 0))
  }

  function NoFile(): Vault {
    Vault(map[], 0, InPlace, false, map[], 0, 0, 0, Idle, NoBuild, 0)
  }

  /** Where the feed will be read from next. */
  function ResumesAt(s: Peer): nat {
    if s.rewindTo.Some? then Min(s.cursor, s.rewindTo.value) else s.cursor
  }

  /** A built index lacks the last write of `r`. */
  ghost predicate Lacks(v: Vault, b: Source, r: Resource) {
    v.mode.Built? && !Current(v.rows, b, r)
  }

  /**
   * Whatever a built index lacks, the feed still announces: its row is above
   * everything the index claims, and either not handed over yet or waiting;
   * and unless a crash would lose a change now, it is above the persisted
   * position too, so it comes back.
   */
  ghost predicate Covered(s: Peer, id: VaultId) {
    id in s.vaults && id in s.src && forall r ::
      Lacks(s.vaults[id], s.src[id], r) ==> AnnouncedFor(s, s.vaults[id], s.src[id], r)
  }

  ghost predicate AnnouncedFor(s: Peer, v: Vault, b: Source, r: Resource) {
    var stamp := StampOf(b, r);
    && stamp > v.recorded && stamp > v.applied
    && (stamp > ResumesAt(s) || (r in v.pending && v.pending[r].stamp == stamp))
    && (!LosesAChange(v, b, s.persisted) ==> stamp > s.persisted)
  }

  lemma FirstStartHolds(s: Peer, id: VaultId)
    requires FirstStart(s) && id in s.vaults
    ensures NothingInHand(s, id)
  {}

  /** Nothing waits and nothing is under way: a first start, or a peer at rest. */
  ghost predicate NothingInHand(s: Peer, id: VaultId) {
    PeerInv(s, id) && s.vaults[id].pending == map[] && s.vaults[id].unit.Idle? && s.vaults[id].build.NoBuild? && s.page.None?
  }

  lemma {:induction false} RunKeeps(s: Peer, run: seq<PeerAction>, t: Peer, id: VaultId)
    requires PeerInv(s, id) && OrderlyRun(s, run, t, id)
    ensures PeerInv(t, id)
    decreases |run|
  {
    if run != [] {
      PeerStepKeeps(s, run[0], id);
      RunKeeps(PeerStep(s, run[0]), run[1..], t, id);
    }
  }

  lemma InvCovers(s: Peer, id: VaultId)
    requires PeerInv(s, id)
    ensures Covered(s, id)
  {
    var v, b := s.vaults[id], s.src[id];
    forall r | Lacks(v, b, r) ensures AnnouncedFor(s, v, b, r) {
      assert Announced(v, b, r);
    }
  }

  /**
   * No change of a vault is ever lost, whatever the order of writes, polls,
   * units, builds, failures and crashes, and whatever befalls the other vaults.
   */
  lemma NothingIsLost(s: Peer, run: seq<PeerAction>, t: Peer, id: VaultId)
    requires FirstStart(s) && id in s.vaults && OrderlyRun(s, run, t, id)
    ensures Covered(t, id)
  {
    FirstStartHolds(s, id);
    RunKeeps(s, run, t, id);
    InvCovers(t, id);
  }

  /** When nothing waits and the feed has been read to its end, the index is the backend. */
  lemma QuietMeansCurrent(s: Peer, run: seq<PeerAction>, t: Peer, id: VaultId)
    requires FirstStart(s) && id in s.vaults && OrderlyRun(s, run, t, id)
    requires id in t.vaults && id in t.src && t.vaults[id].mode.Built? && t.vaults[id].pending == map[]
    requires forall r :: StampOf(t.src[id], r) <= ResumesAt(t)
    ensures t.vaults[id].rows == FromScratch(t.src[id])
  {
    NothingIsLost(s, run, t, id);
    forall r ensures Current(t.vaults[id].rows, t.src[id], r) {
      assert Lacks(t.vaults[id], t.src[id], r) ==> AnnouncedFor(t, t.vaults[id], t.src[id], r);
    }
    CurrentEverywhere(t.vaults[id].rows, t.src[id]);
  }

  // ── When is it safe to lose the memory? ──

  /** Inside a vault only the end of a build can make a loss of memory unsafe, and exactly then. */
  lemma InsideSafety(v: Vault, b: Source, now: nat, a: Action, from: nat)
    requires Enabled(v, a) && (a.WriteRows? ==> StageShape(v.build.stage))
    requires v.mode.Built? ==> v.build.NoBuild?
    requires SafeToForget(v, from)
    ensures !a.Finish? ==> SafeToForget(Step(v, b, now, a), from)
    ensures a.Finish? ==>
      (SafeToForget(Step(v, b, now, a), from) <==> forall r :: r in v.pending ==> from < v.pending[r].stamp)
  {
    var v' := Step(v, b, now, a);
    assert Fewer(v'.pending, v.pending);
  }

  lemma DeliverySafety(v: Vault, rows: Work, since: nat, last: nat, now: nat, from: nat)
    requires SafeToForget(v, from) && from <= since && forall r :: r in rows ==> since < rows[r]
    ensures SafeToForget(Delivered(v, rows, last, now), from)
  {
    var v' := Delivered(v, rows, last, now);
    forall r | v.mode.Built? && r in v'.pending ensures from < v'.pending[r].stamp {
      assert r in rows || v'.pending[r] == v.pending[r];
    }
  }

  /** A saved position is below everything a built index waits for. */
  lemma SaveIsSafe(v: Vault, b: Source, clock: nat, now: nat, captured: nat, vs: map<VaultId, Vault>, id: VaultId)
    requires Inv(v, b, clock, now) && id in vs && vs[id] == v
    ensures SafeToForget(v, SafePosition(captured, vs))
  {
    forall r | v.mode.Built? && r in v.pending ensures SafePosition(captured, vs) < v.pending[r].stamp {
      assert !RebuildPending(v) && FirstWaiting(v) == LeastStamp(v.pending);
      assert v.pending != map[];
      assert LeastStamp(v.pending).value <= v.pending[r].stamp;
      assert LeastWaiting(vs).value <= LeastStamp(v.pending).value;
    }
  }

  lemma InsideIsSafe(s: Peer, id: VaultId, at: VaultId, va: Action)
    requires PeerInv(s, id) && PeerEnabled(s, Inside(at, va)) && Inside(at, va) != Inside(id, Finish)
    requires SafeToForget(s.vaults[id], s.persisted)
    ensures SafeToForget(PeerStep(s, Inside(at, va)).vaults[id], s.persisted)
  {
    if at == id { InsideSafety(s.vaults[id], s.src[id], s.now, va, s.persisted); }
  }

  /**
   * Nothing but the end of a build leaves a built index waiting for a change
   * at or below the persisted position, and the next save ends that.
   */
  lemma SafetyWindow(s: Peer, a: PeerAction, id: VaultId)
    requires PeerInv(s, id) && PeerEnabled(s, a) && Orderly(s, a, id) && a != Inside(id, Finish)
    requires a.SaveEnds? || SafeToForget(s.vaults[id], s.persisted)
    ensures SafeToForget(PeerStep(s, a).vaults[id], PeerStep(s, a).persisted)
  {
    var v := s.vaults[id];
    match a
    case Inside(at, va) => InsideIsSafe(s, id, at, va);
    case Dispatches =>
      var pg := s.page.value;
      DeliverySafety(v, pg.rows[id], pg.since, pg.last, s.now, s.persisted);
    case SaveEnds => SaveIsSafe(v, s.src[id], s.clock, s.now, s.saving.value, s.vaults, id);
    case _ =>
  }

  /** A crash keeps every promise if and only if no change is known from memory alone below the saved position. */
  lemma CrashExact(s: Peer, id: VaultId)
    requires PeerInv(s, id)
    ensures PeerInv(PeerStep(s, Crashes), id) <==> !LosesAChange(s.vaults[id], s.src[id], s.persisted)
  {
    ForgetExact(s.vaults[id], s.src[id], s.clock, s.now, s.persisted);
  }

  /** The end of a build leaves waiting a last write that the index it installs lacks, at or below `from`. */
  ghost predicate EndsLacking(v: Vault, b: Source, from: nat)
    requires v.build.Building?
  {
    exists r :: r in v.pending && v.pending[r].stamp <= from && v.pending[r].stamp == StampOf(b, r) && !Current(BuiltRows(v), b, r)
  }

  lemma EndLoses(v: Vault, b: Source, from: nat)
    requires Enabled(v, Finish)
    ensures LosesAChange(BuildFinished(v), b, from) <==> EndsLacking(v, b, from)
  {
    var v' := BuildFinished(v);
    assert v'.pending == v.pending && v'.rows == BuiltRows(v);
  }

  /** The peer once the build of `id` has ended. */
  ghost function Ended(s: Peer, id: VaultId): Peer
    requires PeerEnabled(s, Inside(id, Finish))
  {
    PeerStep(s, Inside(id, Finish))
  }

  /**
   * While a vault is being rebuilt a crash loses nothing. Once the build has
   * ended it does, exactly if a last write that the new index lacks is left
   * waiting at or below the persisted position.
   */
  lemma WindowOpens(s: Peer, id: VaultId)
    requires PeerInv(s, id) && PeerEnabled(s, Inside(id, Finish))
    ensures PeerInv(PeerStep(s, Crashes), id)
    ensures PeerInv(PeerStep(Ended(s, id), Crashes), id) <==> !EndsLacking(s.vaults[id], s.src[id], s.persisted)
  {
    CrashExact(s, id);
    PeerStepKeeps(s, Inside(id, Finish), id);
    CrashExact(Ended(s, id), id);
    EndLoses(s.vaults[id], s.src[id], s.persisted);
  }

  /** Likewise the death of a shard, with the feed at rest or a page in flight. */
  lemma ShardFailsExact(s: Peer, id: VaultId, ids: set<VaultId>)
    requires PeerInv(s, id) && PeerEnabled(s, ShardFails(ids)) && id in ids
    ensures PeerInv(PeerStep(s, ShardFails(ids)), id)
       <==> !LosesAChange(s.vaults[id], s.src[id], s.persisted) && (s.page.Some? ==> s.page.value.since <= s.persisted)
  {
    ForgetExact(s.vaults[id], s.src[id], s.clock, s.now, s.persisted);
  }

  // ── What the orderly steps leave out ──

  /** The peer once a save that starts here has ended. */
  ghost function Saved(s: Peer): Peer {
    s.(persisted := SafePosition(s.cursor, s.vaults), saving := None)
  }

  /**
   * A save between the death of a shard and the rewind keeps every promise of
   * a vault, now and after a crash, if and only if its index lacks no last
   * write between the position to rewind to and the one saved.
   */
  lemma SaveOverRewindExact(s: Peer, id: VaultId)
    requires PeerInv(s, id) && s.rewindTo.Some?
    ensures PeerEnabled(s, SaveStarts) && PeerEnabled(PeerStep(s, SaveStarts), SaveEnds)
    ensures PeerStep(PeerStep(s, SaveStarts), SaveEnds) == Saved(s)
    ensures Covered(Saved(s), id)
       <==> forall r :: Lacks(s.vaults[id], s.src[id], r) ==> !(s.rewindTo.value < StampOf(s.src[id], r) <= Saved(s).persisted)
    ensures Covered(Saved(s), id) <==> PeerInv(PeerStep(Saved(s), Crashes), id)
  {
    var v, b, t := s.vaults[id], s.src[id], Saved(s);
    InvCovers(s, id);
    SaveIsSafe(v, b, s.clock, s.now, s.cursor, s.vaults, id);
    forall r | Lacks(v, b, r) ensures StampOf(b, r) <= s.rewindTo.value ==> StampOf(b, r) > t.persisted {
      assert AnnouncedFor(s, v, b, r);
    }
    forall r | Lacks(v, b, r) ensures AnnouncedFor(t, v, b, r) <==> StampOf(b, r) > t.persisted {
      assert AnnouncedFor(s, v, b, r);
    }
    ForgetAnywhere(v, b, s.clock, s.now, t.persisted);
  }

  /**
   * A page dispatched while a rewind waits, or after any loss of memory, keeps
   * every promise of a vault if and only if the writes it jumps over, between
   * what this memory was handed and where the page starts, are accounted for
   * without their announcement.
   */
  lemma DispatchExact(s: Peer, id: VaultId)
    requires id in s.vaults && id in s.src && VaultHolds(s, id) && Positions(s) && PageHolds(s, id)
    requires PeerEnabled(s, Dispatches) && Reached(s.(page := None), s.vaults[id])
    ensures PeerInv(PeerStep(s, Dispatches), id)
       <==> forall r :: JumpedOver(s.vaults[id], s.src[id], s.page.value.since, r) ==> !Unaccounted(s.vaults[id], s.src[id], r)
  {
    var pg := s.page.value;
    DeliverExact(s.vaults[id], s.src[id], s.clock, s.now, pg.rows[id], pg.since, pg.last);
    DispatchPositions(s, id);
  }

  lemma DispatchPositions(s: Peer, id: VaultId)
    requires id in s.vaults && id in s.src && Positions(s) && PeerEnabled(s, Dispatches) && Reached(s.(page := None), s.vaults[id])
    ensures var t := PeerStep(s, Dispatches); Positions(t) && Reached(t, t.vaults[id]) && PageHolds(t, id)
  {}

  /** For a vault whose memory was just lost, those are the last writes its built index lacks between the two. */
  lemma DispatchAfterLossExact(s: Peer, id: VaultId)
    requires id in s.vaults && id in s.src && VaultHolds(s, id) && Positions(s) && PageHolds(s, id)
    requires PeerEnabled(s, Dispatches) && Reached(s.(page := None), s.vaults[id])
    requires s.vaults[id] == Forgotten(s.vaults[id], s.persisted)
    ensures PeerInv(PeerStep(s, Dispatches), id)
       <==> forall r :: Lacks(s.vaults[id], s.src[id], r) ==> !(s.persisted < StampOf(s.src[id], r) <= s.page.value.since)
  {
    DispatchExact(s, id);
    forall r ensures JumpedOver(s.vaults[id], s.src[id], s.page.value.since, r)
      <==> s.persisted < StampOf(s.src[id], r) <= s.page.value.since {}
    forall r ensures Unaccounted(s.vaults[id], s.src[id], r) <==> Lacks(s.vaults[id], s.src[id], r) {}
  }
}
