/**
 * What each step of a vault takes off its queue, and the positions it settles,
 * entry by entry (`liveUnit`, `build` and `pumpChecks` of apps/indexer/src/store.ts).
 */
module VaultSteps {
  import opened Common
  import opened ChangeQueue
  import opened IndexJob
  import opened VaultMachine

  /** The entry is done with, or what it announces has been read. */
  ghost predicate TakesOff(v: Vault, a: Action, r: Resource)
    requires Enabled(v, a) && (a.WriteRows? ==> StageShape(v.build.stage)) && r in v.pending
  {
    var p := v.pending[r];
    match a
    case StartUnit(_) => r in v.unit.work && v.unit.work[r] == p.stamp <= v.applied
    case UnitDone => r in v.unit.work && v.unit.work[r] == p.stamp
    case BuildStart => p.stamp <= v.feedPos
    case UseTree => v.mode.InPlace? && r == Tree && p.lastAt < v.build.stage.at
    case WriteRows(ds) => v.mode.InPlace? && r.Doc? && r.id in ds && p.lastAt < v.build.stage.asked[r.id].at
    case _ => false
  }

  /** No other entry goes, none changes and none comes. */
  lemma DroppedExact(v: Vault, b: Source, now: nat, a: Action, r: Resource)
    requires Enabled(v, a) && (a.WriteRows? ==> StageShape(v.build.stage))
    ensures Lookup(Step(v, b, now, a).pending, r) == if r in v.pending && TakesOff(v, a, r) then None else Lookup(v.pending, r)
  {
    match a
    case StartUnit(_) =>
    case UnitDone =>
    case BuildStart =>
    case UseTree =>
    case WriteRows(ds) =>
    case _ =>
  }

  /** From `floor` on, the greatest position up to which nothing waits, among the stamps seen. */
  ghost predicate IsPosition(stamp: nat, q: Queue, maxSeen: nat, floor: nat) {
    && stamp >= floor
    && (stamp > floor ==> stamp <= maxSeen && forall r :: r in q ==> stamp < q[r].stamp)
    && (stamp < maxSeen ==> exists r :: r in q && q[r].stamp <= stamp + 1)
  }

  /** There is one such position. */
  lemma LowWaterExact(stamp: nat, q: Queue, maxSeen: nat, floor: nat)
    ensures IsPosition(stamp, q, maxSeen, floor) <==> stamp == LowWaterOf(q, maxSeen, floor)
  {
    var low := LowWaterOf(q, maxSeen, floor);
    var m := LeastStamp(q);
    if m.Some? {
      var r :| r in q && q[r].stamp == m.value;
      assert low < maxSeen ==> q[r].stamp <= low + 1;
      assert stamp > floor && IsPosition(stamp, q, maxSeen, floor) ==> stamp < q[r].stamp;
    }
  }

  /**
   * A unit that is done records the position that follows from what still
   * waits, if it is an advance. The end of a build settles it from its starting
   * point on. What is settled is what is recorded; and only the recorded
   * position of a file that can be trusted is taken up again.
   */
  lemma PositionExact(v: Vault, b: Source, now: nat, a: Action)
    requires Enabled(v, a) && (a.WriteRows? ==> StageShape(v.build.stage))
    ensures a.UnitDone? ==> var v' := Step(v, b, now, a);
      exists s: nat :: IsPosition(s, v'.pending, v.maxSeen, 0) && v'.unit == if s > v.applied then Sealing(s) else Idle
    ensures a.Measure? ==> var v' := Step(v, b, now, a);
      v'.build.stage.Ending? && IsPosition(v'.build.stage.stamp, v.pending, v.maxSeen, v.build.from)
    ensures a.Seal? ==> var v' := Step(v, b, now, a); v'.recorded == v'.applied == v.unit.stamp
    ensures a.Finish? ==> var v' := Step(v, b, now, a);
      v'.recorded == v'.applied == v.build.stage.stamp && v'.mode.Built? && v'.rows == BuiltRows(v)
    ensures a.Check? ==>
      Step(v, b, now, a).applied == if v.mode.Built? || (v.mode.Beside? && a.trustRecorded) then v.recorded else 0
    ensures !a.Seal? && !a.Finish? && !a.Check? ==> Step(v, b, now, a).applied == v.applied
  {
    if a.UnitDone? {
      var q := Step(v, b, now, a).pending;
      LowWaterExact(LowWaterOf(q, v.maxSeen, 0), q, v.maxSeen, 0);
    } else if a.Measure? {
      LowWaterExact(LowWaterOf(v.pending, v.maxSeen, v.build.from), v.pending, v.maxSeen, v.build.from);
    }
  }
}
