/**
 * Over whole runs of the peer: what a swap installs, against what the index
 * it replaces was serving.
 */
module SwapTheorems {
  import opened ChangeQueue
  import opened IndexJob
  import opened VaultMachine
  import opened PeerMachine
  import opened PeerTheorems
  import opened SwapPace

  function PeerPaced(p: Pace, s: Peer, a: PeerAction, id: VaultId): Pace
    requires a.Inside? && a.id == id ==> id in s.vaults && Enabled(s.vaults[id], a.a)
  {
    match a
    case Inside(at, va) => if at == id then Paced(p, s.vaults[id], va) else p
    case Writes(at, d) => if at == id then Dirtied(p, d) else p
    case _ => p
  }

  /** The record of a vault at the end of a run. */
  ghost function RunPace(p: Pace, s: Peer, run: seq<PeerAction>, t: Peer, id: VaultId): Pace
    requires OrderlyRun(s, run, t, id)
    decreases |run|
  {
    if run == [] then p else RunPace(PeerPaced(p, s, run[0], id), PeerStep(s, run[0]), run[1..], t, id)
  }

  lemma WritePace(p: Pace, s: Peer, a: PeerAction, id: VaultId)
    requires (a.Writes? || a.WritesTree?) && PeerInv(s, id) && PeerEnabled(s, a) && PaceInv(p, s.vaults[id], s.src[id])
    ensures PaceInv(PeerPaced(p, s, a, id), PeerStep(s, a).vaults[id], PeerStep(s, a).src[id])
  {
    if a.id == id {
      var v, b, b' := s.vaults[id], s.src[id], PeerStep(s, a).src[id];
      SourceFits(v, b, s.clock, s.now);
      var changed := WriteMoves(b, a, s.clock, b');
      forall d | Besides(v) && Hand(v, d).Some? ensures d in b.docs && Hand(v, d).value <= b.docs[d] {
        HandFits(v, b, s.clock, s.now, d);
      }
      WroteWhat(b, a, s.clock, b', changed);
      BackendPace(p, v, b, b', changed);
    }
  }

  lemma WroteWhat(b: Source, a: PeerAction, clock: nat, b': Source, changed: Resource)
    requires b.treeStamp <= clock && forall d :: d in b.docs ==> b.docs[d] <= clock
    requires (a.Writes? && a.d in b.docs && b' == WriteDoc(b, a.d, clock + 1)) || (a.WritesTree? && b' == WriteTree(b, a.tree, clock + 1))
    requires StampOf(b', changed) == clock + 1
    ensures changed == if a.Writes? then Doc(a.d) else Tree
  {}

  lemma PeerStepPace(p: Pace, s: Peer, a: PeerAction, id: VaultId)
    requires PeerInv(s, id) && PeerEnabled(s, a) && PaceInv(p, s.vaults[id], s.src[id])
    ensures PaceInv(PeerPaced(p, s, a, id), PeerStep(s, a).vaults[id], PeerStep(s, a).src[id])
  {
    var v, b := s.vaults[id], s.src[id];
    match a
    case Writes(_, _) => WritePace(p, s, a, id);
    case WritesTree(_, _) => WritePace(p, s, a, id);
    case Registers(at, d) => if at == id { RegisterPace(p, v, b, d); }
    case Dispatches => DeliverPace(p, v, b, s.page.value.rows[id], s.page.value.last, s.now);
    case Inside(at, va) => if at == id { OwnStepPace(p, v, b, s.clock, s.now, va); }
    case _ =>
  }

  lemma {:induction false} RunPaceHolds(p: Pace, s: Peer, run: seq<PeerAction>, t: Peer, id: VaultId)
    requires PeerInv(s, id) && OrderlyRun(s, run, t, id) && PaceInv(p, s.vaults[id], s.src[id])
    ensures PeerInv(t, id) && PaceInv(RunPace(p, s, run, t, id), t.vaults[id], t.src[id])
    decreases |run|
  {
    if run != [] {
      PeerStepPace(p, s, run[0], id);
      PeerStepKeeps(s, run[0], id);
      RunPaceHolds(PeerPaced(p, s, run[0], id), PeerStep(s, run[0]), run[1..], t, id);
    }
  }

  /** The index lacks the last write of `r`, and the feed still announces it. */
  ghost predicate StillAnnounced(s: Peer, id: VaultId, r: Resource)
    requires id in s.vaults && id in s.src
  {
    Lacks(s.vaults[id], s.src[id], r) && AnnouncedFor(s, s.vaults[id], s.src[id], r)
  }

  /**
   * After any run from a first start, or from rest, a note that the swap installs is at
   * least as recent as the one the old index served, and as any a live unit
   * wrote since the build started, exactly when it is not behind. If it is, it is
   * astray, written by a unit that failed or did not have it in its work, and
   * the write it lacks is still announced.
   */
  lemma SwapAfterAnyRun(s: Peer, run: seq<PeerAction>, t: Peer, id: VaultId, d: DocId)
    requires NothingInHand(s, id) && OrderlyRun(s, run, t, id)
    requires PeerEnabled(t, Inside(id, Finish)) && t.vaults[id].mode.Beside?
    requires d in PeerStep(t, Inside(id, Finish)).vaults[id].rows
    ensures var p, served, installed := RunPace(NO_PACE, s, run, t, id), t.vaults[id].rows, PeerStep(t, Inside(id, Finish)).vaults[id].rows;
      && (d in served ==> (installed[d].version >= served[d].version <==> d !in p.behind))
      && (d in p.live ==> (installed[d].version >= p.live[d] <==> d !in p.behind))
      && (d in p.behind ==> d in p.strays && StillAnnounced(PeerStep(t, Inside(id, Finish)), id, Doc(d)))
  {
    RunPaceHolds(NO_PACE, s, run, t, id);
    var p := RunPace(NO_PACE, s, run, t, id);
    var t' := PeerStep(t, Inside(id, Finish));
    PeerStepKeeps(t, Inside(id, Finish), id);
    InvCovers(t', id);
    SwapExact(p, t.vaults[id], t.src[id], t.clock, t.now, d);
  }
}
