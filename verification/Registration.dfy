/**
 * Documents join the registry of a vault without a row of the feed
 * (backend/Savoire.API/Api/Hubs/VaultHub.cs); the design registers a document
 * before the tree names it. Here is exactly when it may come after.
 */
module Registration {
  import opened ChangeQueue
  import opened IndexJob
  import opened VaultMachine
  import opened VaultSafety

  /** What the build still has to read covers the tree once `d` is registered. */
  ghost predicate BuildWillSee(v: Vault, b: Source, d: DocId)
    requires v.build.Building?
  {
    Tree in v.build.replay ||
    match v.build.stage
    case Opening => true
    case Opened => true
    case TreeAsked(_, _) => true
    case TreeRead(_, _, _, stamp) => stamp == b.treeStamp
    case Reading(tree, _, toFetch, _, got) => WillSee(Within(BuiltRows(v), tree), ReadJob(toFetch, got), b, d)
    case Catching(job) => WillSee(BuiltRows(v), job, b, d)
    case Ending(_) => false
  }

  /** A built index: the change of the tree still waits, above everything recorded. */
  ghost predicate ServesLate(v: Vault, b: Source, d: DocId) {
    && Announced(v, b, Tree) && b.treeStamp > v.applied && b.treeStamp > v.recorded
    && (v.unit.Running? ==> WillSee(v.rows, v.unit.job, b, d) || StillToCome(v, b, Tree))
    && (v.unit.Sealing? ==> b.treeStamp > v.unit.stamp)
  }

  /** A build under way: it has yet to read `d`, or the change of the tree waits above all it claims. */
  ghost predicate BuildsLate(v: Vault, b: Source, d: DocId)
    requires v.build.Building?
  {
    || BuildWillSee(v, b, d)
    || (&& Announced(v, b, Tree) && b.treeStamp > v.build.from && b.treeStamp > v.applied
        && (v.unit.Sealing? ==> b.treeStamp > v.unit.stamp)
        && (v.build.stage.Ending? ==> b.treeStamp > v.build.stage.stamp))
  }

  /** Nothing has taken the document for gone yet. */
  ghost predicate InTime(v: Vault, b: Source, d: DocId) {
    d in b.docs || d !in b.tree ||
    ((v.mode.Built? ==> ServesLate(v, b, d)) && (v.build.Building? ==> BuildsLate(v, b, d)))
  }

  lemma StampStays(v: Vault, b: Source, d: DocId, r: Resource)
    requires d !in b.docs
    ensures StampOf(Register(b, d), r) == StampOf(b, r)
    ensures Announced(v, Register(b, d), r) <==> Announced(v, b, r)
  {}

  lemma RegisterBooks(v: Vault, b: Source, clock: nat, now: nat, d: DocId)
    requires Bookkeeping(v, b, clock, now) && d !in b.docs
    ensures Bookkeeping(v, Register(b, d), clock, now)
  {
    forall r ensures StampOf(Register(b, d), r) == StampOf(b, r) { StampStays(v, b, d, r); }
  }

  lemma OtherCovers(v: Vault, b: Source, d: DocId, r: Resource)
    requires d !in b.docs && v.build.Building? && RowsOk(BuiltRows(v), b) && (r.Doc? || d !in b.tree)
    ensures BuildCovers(v, Register(b, d), r) <==> BuildCovers(v, b, r)
  {
    match v.build.stage
    case Reading(tree, _, toFetch, _, got) => RegisterTouches(Within(BuiltRows(v), tree), ReadJob(toFetch, got), b, d, r);
    case Catching(job) => RegisterTouches(BuiltRows(v), job, b, d, r);
    case Ending(_) => RegisterTouches(BuiltRows(v), NO_JOB, b, d, r);
    case _ =>
  }

  lemma TreeCovers(v: Vault, b: Source, clock: nat, now: nat, d: DocId)
    requires Bookkeeping(v, b, clock, now) && d !in b.docs && d in b.tree && v.build.Building?
    ensures BuildCovers(v, Register(b, d), Tree) <==> BuildWillSee(v, b, d)
  {
    match v.build.stage
    case Reading(tree, _, toFetch, _, got) =>
      ReadingIsAJob(v, b, now);
      RegisterExact(Within(BuiltRows(v), tree), ReadJob(toFetch, got), b, d);
    case Catching(job) => RegisterExact(BuiltRows(v), job, b, d);
    case Ending(_) => RegisterExact(BuiltRows(v), NO_JOB, b, d);
    case _ =>
  }

  lemma ServesExact(v: Vault, b: Source, clock: nat, now: nat, d: DocId)
    requires Bookkeeping(v, b, clock, now) && Serves(v, b) && d !in b.docs && d in b.tree
    ensures Serves(v, Register(b, d)) <==> ServesLate(v, b, d)
  {
    var b' := Register(b, d);
    var j := if v.unit.Running? then v.unit.job else NO_JOB;
    RegisterExact(v.rows, j, b, d);
    StampStays(v, b, d, Tree);
    forall r: Resource | r.Doc?
      ensures StampOf(b', r) == StampOf(b, r) && (Announced(v, b', r) <==> Announced(v, b, r))
      ensures (Current(v.rows, b', r) <==> Current(v.rows, b, r)) && (WillBeCurrent(v.rows, j, b', r) <==> WillBeCurrent(v.rows, j, b, r))
    {
      StampStays(v, b, d, r);
      RegisterTouches(v.rows, j, b, d, r);
    }
    if v.unit.Running? {
      assert StillToCome(v, b', Tree) <==> StillToCome(v, b, Tree);
    }
  }

  lemma BuildsExact(v: Vault, b: Source, clock: nat, now: nat, d: DocId)
    requires Bookkeeping(v, b, clock, now) && v.build.Building? && Builds(v, b) && d !in b.docs && d in b.tree
    ensures Builds(v, Register(b, d)) <==> BuildsLate(v, b, d)
  {
    var b' := Register(b, d);
    TreeCovers(v, b, clock, now, d);
    StampStays(v, b, d, Tree);
    forall r: Resource | r.Doc?
      ensures StampOf(b', r) == StampOf(b, r) && (Announced(v, b', r) <==> Announced(v, b, r))
      ensures BuildCovers(v, b', r) <==> BuildCovers(v, b, r)
    {
      StampStays(v, b, d, r);
      OtherCovers(v, b, d, r);
    }
  }

  lemma UnnamedKeeps(v: Vault, b: Source, clock: nat, now: nat, d: DocId)
    requires Inv(v, b, clock, now) && d !in b.docs && d !in b.tree
    ensures Inv(v, Register(b, d), clock, now)
  {
    var b' := Register(b, d);
    RegisterBooks(v, b, clock, now, d);
    var j := if v.unit.Running? then v.unit.job else NO_JOB;
    forall r
      ensures StampOf(b', r) == StampOf(b, r) && (Announced(v, b', r) <==> Announced(v, b, r))
      ensures (Current(v.rows, b', r) <==> Current(v.rows, b, r)) && (WillBeCurrent(v.rows, j, b', r) <==> WillBeCurrent(v.rows, j, b, r))
      ensures v.build.Building? ==> (BuildCovers(v, b', r) <==> BuildCovers(v, b, r))
    {
      StampStays(v, b, d, r);
      RegisterTouches(v.rows, j, b, d, r);
      if v.build.Building? { OtherCovers(v, b, d, r); }
    }
    if v.unit.Running? {
      forall r ensures StillToCome(v, b', r) <==> StillToCome(v, b, r) {}
    }
  }

  /** A document may be registered after the tree names it exactly as long as nothing has taken it for gone. */
  lemma RegisteringExact(v: Vault, b: Source, clock: nat, now: nat, d: DocId)
    requires Inv(v, b, clock, now)
    ensures Inv(v, Register(b, d), clock, now) <==> InTime(v, b, d)
  {
    if d !in b.docs {
      RegisterBooks(v, b, clock, now, d);
      if d !in b.tree {
        UnnamedKeeps(v, b, clock, now, d);
      } else {
        if v.mode.Built? { ServesExact(v, b, clock, now, d); }
        if v.build.Building? { BuildsExact(v, b, clock, now, d); }
      }
    }
  }
}
