/**
 * Every step of a vault keeps its invariant: whatever live units, rebuilds,
 * failures and backend writes interleave, no change is dropped unless the
 * index that will answer already reflects it.
 */
module VaultSafety {
  import opened Common
  import opened ChangeQueue
  import opened IndexJob
  import opened VaultMachine

  // ── Queue facts ──

  lemma SettleKeepsOthers(q: Queue, work: Work, r: Resource)
    requires r in q && !(r in work && work[r] == q[r].stamp)
    ensures r in Settle(q, work) && Settle(q, work)[r] == q[r]
  {}

  /** A stamp up to the low-water position is not waiting any more. */
  lemma BelowLowWater(q: Queue, maxSeen: nat, floor: nat, stamp: nat)
    requires stamp <= LowWaterOf(q, maxSeen, floor)
    ensures stamp <= floor || (stamp <= maxSeen && forall r :: r in q ==> q[r].stamp > stamp)
  {}

  ghost predicate Fewer(q': Queue, q: Queue) {
    forall r :: r in q' ==> r in q && q'[r] == q[r]
  }

  lemma BuildStandsWithFewer(v: Vault, v': Vault, b: Source, now: nat)
    requires v.build.Building? && StageOk(v, b, now)
    requires v'.build == v.build && v'.mode == v.mode && BuiltRows(v') == BuiltRows(v)
    requires Fewer(v'.pending, v.pending)
    ensures StageOk(v', b, now)
  {}

  // ── Live units ──

  lemma StartUnitAnnounced(v: Vault, b: Source, implicitTree: bool, r: Resource)
    requires v.unit.Waiting? && Announced(v, b, r) && StampOf(b, r) > v.applied
    ensures Announced(UnitStarted(v, implicitTree), b, r)
  {
    if StampOf(b, r) <= v.pos {
      SettleKeepsOthers(v.pending, Applied(v.unit.work, v.applied), r);
    }
  }

  lemma StartUnitBooks(v: Vault, b: Source, clock: nat, now: nat, implicitTree: bool)
    requires Bookkeeping(v, b, clock, now) && Enabled(v, StartUnit(implicitTree))
    ensures Bookkeeping(UnitStarted(v, implicitTree), b, clock, now)
  {
    var v' := UnitStarted(v, implicitTree);
    JobStartsOk(v.rows, NotApplied(v.unit.work, v.applied).Keys, implicitTree, b);
    assert Fewer(v'.pending, v.pending);
    if v.build.Building? { BuildStandsWithFewer(v, v', b, now); }
  }

  lemma StartUnitServes(v: Vault, b: Source, clock: nat, now: nat, implicitTree: bool)
    requires Bookkeeping(v, b, clock, now) && Serves(v, b) && Enabled(v, StartUnit(implicitTree))
    ensures Serves(UnitStarted(v, implicitTree), b)
  {
    var v' := UnitStarted(v, implicitTree);
    forall r ensures Current(v'.rows, b, r) || (Announced(v', b, r) && StampOf(b, r) > v.applied && StampOf(b, r) > v.recorded) {
      if !Current(v.rows, b, r) { StartUnitAnnounced(v, b, implicitTree, r); }
    }
    if v'.unit.Running? {
      forall r ensures WillBeCurrent(v'.rows, v'.unit.job, b, r) || StillToCome(v', b, r) {
        if Current(v.rows, b, r) || r in v'.unit.work {
          JobStarts(v.rows, v'.unit.work.Keys, implicitTree, b, r);
        }
      }
    }
  }

  lemma StartUnitKeeps(v: Vault, b: Source, clock: nat, now: nat, implicitTree: bool)
    requires Inv(v, b, clock, now) && Enabled(v, StartUnit(implicitTree))
    ensures Inv(UnitStarted(v, implicitTree), b, clock, now)
  {
    var v' := UnitStarted(v, implicitTree);
    StartUnitBooks(v, b, clock, now, implicitTree);
    if v.mode.Built? { StartUnitServes(v, b, clock, now, implicitTree); }
    if v.build.Building? {
      forall r ensures BuildCovers(v', b, r) || Announced(v', b, r) {
        if StampOf(b, r) > v.applied && Announced(v, b, r) { StartUnitAnnounced(v, b, implicitTree, r); }
      }
    }
  }

  lemma UnitStepBooks(v: Vault, b: Source, clock: nat, now: nat, a: JobAction)
    requires Bookkeeping(v, b, clock, now) && Enabled(v, UnitStep(a))
    ensures Bookkeeping(UnitStepped(v, b, a), b, clock, now)
  {
    JobStepOk(v.rows, v.unit.job, b, a);
    var v' := UnitStepped(v, b, a);
    if v.build.Building? { BuildStandsWithFewer(v, v', b, now); }
  }

  lemma UnitStepServes(v: Vault, b: Source, clock: nat, now: nat, a: JobAction)
    requires Bookkeeping(v, b, clock, now) && Serves(v, b) && Enabled(v, UnitStep(a))
    ensures Serves(UnitStepped(v, b, a), b)
  {
    var v' := UnitStepped(v, b, a);
    forall r ensures Current(v'.rows, b, r) || (Announced(v', b, r) && StampOf(b, r) > v.applied && StampOf(b, r) > v.recorded) {
      if Current(v.rows, b, r) && WillBeCurrent(v.rows, v.unit.job, b, r) {
        JobStepServes(v.rows, v.unit.job, b, a, r);
      } else {
        assert StillToCome(v, b, r) || !Current(v.rows, b, r);
      }
    }
    forall r ensures WillBeCurrent(v'.rows, v'.unit.job, b, r) || StillToCome(v', b, r) {
      if WillBeCurrent(v.rows, v.unit.job, b, r) { JobStepKeeps(v.rows, v.unit.job, b, a, r); }
    }
  }

  lemma UnitStepKeeps(v: Vault, b: Source, clock: nat, now: nat, a: JobAction)
    requires Inv(v, b, clock, now) && Enabled(v, UnitStep(a))
    ensures Inv(UnitStepped(v, b, a), b, clock, now)
  {
    UnitStepBooks(v, b, clock, now, a);
    if v.mode.Built? { UnitStepServes(v, b, clock, now, a); }
    if v.build.Building? {
      var v' := UnitStepped(v, b, a);
      assert forall r :: BuildCovers(v', b, r) <==> BuildCovers(v, b, r);
      assert forall r :: Announced(v', b, r) <==> Announced(v, b, r);
    }
  }

  lemma UnitDoneStage(v: Vault, b: Source, now: nat)
    requires Enabled(v, UnitDone) && v.build.Building? && StageOk(v, b, now) && !v.build.locked
    ensures StageOk(UnitFinished(v), b, now)
  {
    var v' := UnitFinished(v);
    assert Fewer(v'.pending, v.pending);
    assert v'.build.stage == v.build.stage && BuiltRows(v') == BuiltRows(v);
    BuildStandsWithFewer(v, v'.(build := v.build), b, now);
  }

  lemma UnitDoneBooks(v: Vault, b: Source, clock: nat, now: nat)
    requires Bookkeeping(v, b, clock, now) && Enabled(v, UnitDone)
    ensures Bookkeeping(UnitFinished(v), b, clock, now)
  {
    assert Fewer(UnitFinished(v).pending, v.pending);
    if v.build.Building? { UnitDoneStage(v, b, now); }
  }

  /** What a unit settles is current, whatever was written while it ran. */
  lemma UnitDoneServes(v: Vault, b: Source, clock: nat, now: nat)
    requires Bookkeeping(v, b, clock, now) && Serves(v, b) && Enabled(v, UnitDone)
    ensures Serves(UnitFinished(v), b)
  {
    var v' := UnitFinished(v);
    forall r ensures Current(v'.rows, b, r) || (Announced(v', b, r) && StampOf(b, r) > v.applied && StampOf(b, r) > v.recorded) {
      if WillBeCurrent(v.rows, v.unit.job, b, r) {
        JobEnds(v.rows, v.unit.job, b, r);
      } else if StampOf(b, r) <= v.pos {
        assert StillToCome(v, b, r);
        SettleKeepsOthers(v.pending, v.unit.work, r);
      }
    }
    if v'.unit.Sealing? {
      forall r | StampOf(b, r) <= v'.unit.stamp ensures Current(v'.rows, b, r) {
        BelowLowWater(v'.pending, v.maxSeen, 0, StampOf(b, r));
      }
    }
  }

  lemma UnitDoneBuilds(v: Vault, b: Source, clock: nat, now: nat)
    requires Bookkeeping(v, b, clock, now) && v.build.Building? && Builds(v, b) && Enabled(v, UnitDone)
    ensures Builds(UnitFinished(v), b)
  {
    var v' := UnitFinished(v);
    forall r ensures BuildCovers(v', b, r) || Announced(v', b, r) {
      if BuildCovers(v, b, r) {
      } else if StampOf(b, r) <= v.pos && !(r in v.unit.work && v.unit.work[r] == StampOf(b, r)) {
        SettleKeepsOthers(v.pending, v.unit.work, r);
      }
    }
    if v'.unit.Sealing? {
      forall r | StampOf(b, r) <= v'.unit.stamp ensures BuildCovers(v', b, r) {
        BelowLowWater(v'.pending, v.maxSeen, 0, StampOf(b, r));
      }
    }
  }

  lemma UnitDoneKeeps(v: Vault, b: Source, clock: nat, now: nat)
    requires Inv(v, b, clock, now) && Enabled(v, UnitDone)
    ensures Inv(UnitFinished(v), b, clock, now)
  {
    UnitDoneBooks(v, b, clock, now);
    if v.mode.Built? { UnitDoneServes(v, b, clock, now); }
    if v.build.Building? { UnitDoneBuilds(v, b, clock, now); }
  }

  lemma OnlyUnitMoves(v: Vault, v': Vault, b: Source, clock: nat, now: nat)
    requires Bookkeeping(v, b, clock, now)
    requires v' == v.(unit := v'.unit, applied := v'.applied, recorded := v'.recorded)
    requires v'.unit.Idle? || (v'.unit.Waiting? && WorkOk(v'.unit.work, b) && v.checked && !v.mode.InPlace?)
    requires v'.applied <= clock && v'.recorded <= clock && (!v.checked ==> v'.applied == 0)
    ensures Bookkeeping(v', b, clock, now)
    ensures forall r :: Announced(v', b, r) <==> Announced(v, b, r)
    ensures v.build.Building? ==> forall r :: BuildCovers(v', b, r) <==> BuildCovers(v, b, r)
  {
    if v.build.Building? { BuildStandsWithFewer(v, v', b, now); }
  }

  predicate AroundUnit(a: Action) {
    a.Check? || a.Take? || a.Seal? || a.SealFails? || a.UnitFails?
  }

  lemma UnitSimpleKeeps(v: Vault, b: Source, clock: nat, now: nat, a: Action)
    requires AroundUnit(a)
    requires Inv(v, b, clock, now) && Enabled(v, a)
    ensures Inv(Step(v, b, now, a), b, clock, now)
  {
    OnlyUnitMoves(v, if a.Check? then v else Step(v, b, now, a), b, clock, now);
    if a.Check? {
      assert Bookkeeping(Step(v, b, now, a), b, clock, now);
      assert forall r :: Announced(Step(v, b, now, a), b, r) <==> Announced(v, b, r);
    }
  }

  // ── Rebuilds ──

  /** Changes already handed over when a build starts are part of what it will read. */
  lemma BuildStartKeeps(v: Vault, b: Source, clock: nat, now: nat)
    requires Inv(v, b, clock, now) && Enabled(v, BuildStart)
    ensures Inv(BuildStarted(v), b, clock, now)
  {}

  lemma BuildOpenKeeps(v: Vault, b: Source, clock: nat, now: nat, emptied: bool)
    requires Inv(v, b, clock, now) && Enabled(v, BuildOpen(emptied))
    ensures Inv(BuildOpened(v, emptied), b, clock, now)
  {}

  lemma AskTreeKeeps(v: Vault, b: Source, clock: nat, now: nat)
    requires Inv(v, b, clock, now) && Enabled(v, AskTree)
    ensures Inv(Step(v, b, now, AskTree), b, clock, now)
  {}

  lemma ReadTreeLogKeeps(v: Vault, b: Source, clock: nat, now: nat)
    requires Inv(v, b, clock, now) && Enabled(v, ReadTreeLog)
    ensures Inv(Step(v, b, now, ReadTreeLog), b, clock, now)
  {}

  /** A build that has read the tree and no document yet. */
  lemma TreeUsedCovers(x: Rows, b: Source, r: Resource)
    ensures WillBeCurrent(Within(x, b.tree), ReadJob(b.tree, map[]), b, Tree)
  {
    var y, j := Within(x, b.tree), ReadJob(b.tree, map[]);
    assert Planned(y, j) == b.tree;
    assert Promised(y, j) == b.tree;
  }

  lemma UseTreeKeeps(v: Vault, b: Source, clock: nat, now: nat)
    requires Inv(v, b, clock, now) && Enabled(v, UseTree)
    ensures Inv(TreeUsed(v), b, clock, now)
  {
    var v' := TreeUsed(v);
    var st := v.build.stage;
    forall r | BuildCovers(v, b, r) ensures BuildCovers(v', b, r) {
      if r == Tree && r !in v.build.replay { TreeUsedCovers(BuiltRows(v), b, r); }
      if r.Doc? && r.id in Within(BuiltRows(v), st.tree) { assert r.id in st.tree; }
    }
    forall r ensures BuildCovers(v', b, r) || Announced(v', b, r) {
      assert BuildCovers(v, b, r) || Announced(v, b, r);
    }
  }

  /** A build step that changes nothing but its stage, its rows and the entries it drops. */
  ghost predicate BuildMoves(v: Vault, v': Vault) {
    && v.build.Building? && v'.build.Building?
    && v' == v.(rows := v'.rows, pending := v'.pending, build := v'.build)
    && (v.mode.Beside? ==> v'.rows == v.rows)
    && Fewer(v'.pending, v.pending)
    && v'.build == v.build.(stage := v'.build.stage, target := v'.build.target)
    && (v.build.stage.Catching? ==> v'.build.stage.Catching?)
    && !v.build.stage.Ending? && !v'.build.stage.Ending?
  }

  lemma BuildMovesKeeps(v: Vault, v': Vault, b: Source, clock: nat, now: nat)
    requires Inv(v, b, clock, now) && BuildMoves(v, v')
    requires StageOk(v', b, now) && RowsOk(BuiltRows(v'), b)
    requires forall r :: BuildCovers(v, b, r) ==> BuildCovers(v', b, r)
    requires forall r :: Announced(v, b, r) ==> Announced(v', b, r) || BuildCovers(v', b, r)
    ensures Inv(v', b, clock, now)
  {}

  lemma AskDocsKeeps(v: Vault, b: Source, clock: nat, now: nat, ds: set<DocId>)
    requires Inv(v, b, clock, now) && Enabled(v, AskDocs(ds))
    ensures Inv(DocsAsked(v, b, now, ds), b, clock, now)
  {
    var v' := DocsAsked(v, b, now, ds);
    AskDocsStage(v, b, now, ds);
    forall r | BuildCovers(v, b, r) ensures BuildCovers(v', b, r) {}
    forall r | Announced(v, b, r) ensures Announced(v', b, r) {}
    BuildMovesKeeps(v, v', b, clock, now);
  }

  lemma AskedSeen(v: Vault, b: Source, now: nat, ds: set<DocId>, d: DocId)
    requires Enabled(v, AskDocs(ds)) && StageOk(v, b, now)
    requires forall r :: r in v.pending ==> v.pending[r].stamp <= StampOf(b, r)
    requires d in v.build.stage.asked.Keys + ds
    ensures var v' := DocsAsked(v, b, now, ds);
      var a := v'.build.stage.asked;
      d in a && a[d].at <= now && a[d].base <= StampOf(b, Doc(d)) && SeenBefore(v', Doc(d), a[d].at, a[d].base)
  {
    if d !in ds { assert SeenBefore(v, Doc(d), v.build.stage.asked[d].at, v.build.stage.asked[d].base); }
  }

  lemma AskDocsStage(v: Vault, b: Source, now: nat, ds: set<DocId>)
    requires Enabled(v, AskDocs(ds)) && StageOk(v, b, now)
    requires forall r :: r in v.pending ==> v.pending[r].stamp <= StampOf(b, r)
    ensures StageOk(DocsAsked(v, b, now, ds), b, now)
  {
    var v' := DocsAsked(v, b, now, ds);
    var st, st' := v.build.stage, v'.build.stage;
    assert st'.asked.Keys == st.asked.Keys + ds;
    forall d | d in st'.asked
      ensures st'.asked[d].at <= now && st'.asked[d].base <= StampOf(b, Doc(d)) && SeenBefore(v', Doc(d), st'.asked[d].at, st'.asked[d].base)
    {
      AskedSeen(v, b, now, ds, d);
    }
    assert BuiltRows(v') == BuiltRows(v) && st' == st.(asked := st'.asked);
    forall d | d in st'.got ensures st'.asked[d] == st.asked[d] {
      assert d in st.asked;
    }
  }

  lemma ReadDocLogKeeps(v: Vault, b: Source, clock: nat, now: nat, d: DocId)
    requires Inv(v, b, clock, now) && Enabled(v, ReadDocLog(d))
    ensures Inv(DocLogRead(v, b, d), b, clock, now)
  {
    var v' := DocLogRead(v, b, d);
    ReadDocLogStage(v, b, clock, now, d);
    forall r | BuildCovers(v, b, r) ensures BuildCovers(v', b, r) { ReadDocLogCovers(v, b, clock, now, d, r); }
    forall r | Announced(v, b, r) ensures Announced(v', b, r) {}
    BuildMovesKeeps(v, v', b, clock, now);
  }

  lemma ReadDocLogCovers(v: Vault, b: Source, clock: nat, now: nat, d: DocId, r: Resource)
    requires Bookkeeping(v, b, clock, now) && Enabled(v, ReadDocLog(d)) && BuildCovers(v, b, r)
    ensures BuildCovers(DocLogRead(v, b, d), b, r)
  {
    var st := v.build.stage;
    if r !in v.build.replay {
      ReadingIsAJob(v, b, now);
      JobStepKeeps(Within(BuiltRows(v), st.tree), ReadJob(st.toFetch, st.got), b, ReadDoc(d), r);
    }
  }

  /** The notes read, and those still to be read, are a job on the rows the tree names. */
  lemma ReadingIsAJob(v: Vault, b: Source, now: nat)
    requires v.build.Building? && v.build.stage.Reading? && StageOk(v, b, now) && RowsOk(BuiltRows(v), b)
    ensures var st := v.build.stage;
      RowsOk(Within(BuiltRows(v), st.tree), b) && JobOk(Within(BuiltRows(v), st.tree), ReadJob(st.toFetch, st.got), b)
  {}

  lemma ReadDocLogStage(v: Vault, b: Source, clock: nat, now: nat, d: DocId)
    requires Bookkeeping(v, b, clock, now) && Enabled(v, ReadDocLog(d))
    ensures StageOk(DocLogRead(v, b, d), b, now)
  {
    var v' := DocLogRead(v, b, d);
    var st, st' := v.build.stage, v'.build.stage;
    assert st'.asked == st.asked && st.asked[d].base <= StampOf(b, Doc(d));
    forall e | e in st'.got
      ensures if st'.got[e].Some? then e in b.docs && st'.asked[e].base <= st'.got[e].value <= b.docs[e] else st'.asked[e].base == 0
    {
      if e != d { assert e in st.got && st'.got[e] == st.got[e]; }
    }
    forall e | e in st'.asked ensures SeenBefore(v', Doc(e), st'.asked[e].at, st'.asked[e].base) {
      assert SeenBefore(v, Doc(e), st.asked[e].at, st.asked[e].base);
    }
  }

  lemma WriteRowsStage(v: Vault, b: Source, clock: nat, now: nat, ds: set<DocId>)
    requires Bookkeeping(v, b, clock, now) && Enabled(v, WriteRows(ds))
    ensures StageOk(RowsWritten(v, ds), b, now) && RowsOk(BuiltRows(RowsWritten(v, ds)), b)
  {
    var v' := RowsWritten(v, ds);
    var st, st' := v.build.stage, v'.build.stage;
    assert BuiltRows(v') == Written(BuiltRows(v), ReadJob(st.toFetch, st.got), ds);
    forall e | e in st'.asked ensures SeenBefore(v', Doc(e), st'.asked[e].at, st'.asked[e].base) {
      assert SeenBefore(v, Doc(e), st.asked[e].at, st.asked[e].base);
    }
  }

  lemma WrittenWithin(x: Rows, j: Job, ds: set<DocId>, tree: DocTree)
    requires ds <= j.got.Keys <= j.toFetch.Keys <= tree.Keys
    ensures Within(Written(x, j, ds), tree) == Written(Within(x, tree), j, ds)
  {}

  lemma WritingGoesOn(x: Rows, tree: DocTree, j: Job, b: Source, ds: set<DocId>, r: Resource)
    requires RowsOk(Within(x, tree), b) && JobOk(Within(x, tree), j, b) && j.phase.Fetch? && j.docs == {}
    requires ds <= j.got.Keys && j.toFetch.Keys <= tree.Keys && WillBeCurrent(Within(x, tree), j, b, r)
    ensures WillBeCurrent(Within(Written(x, j, ds), tree), ReadJob(j.toFetch - ds, j.got - ds), b, r)
  {
    JobStepKeeps(Within(x, tree), j, b, WriteDocs(ds), r);
    WrittenWithin(x, j, ds, tree);
  }

  /** Writing what was read goes on with the reading. */
  lemma WriteRowsCovers(v: Vault, b: Source, clock: nat, now: nat, ds: set<DocId>, r: Resource)
    requires Bookkeeping(v, b, clock, now) && Enabled(v, WriteRows(ds)) && BuildCovers(v, b, r)
    ensures BuildCovers(RowsWritten(v, ds), b, r)
  {
    var st := v.build.stage;
    var j := ReadJob(st.toFetch, st.got);
    if r !in v.build.replay {
      ReadingIsAJob(v, b, now);
      WritingGoesOn(BuiltRows(v), st.tree, j, b, ds, r);
      assert BuiltRows(RowsWritten(v, ds)) == Written(BuiltRows(v), j, ds);
    }
  }

  /** In place, a change dropped after a read was in what was read. */
  lemma WriteRowsDrops(v: Vault, b: Source, clock: nat, now: nat, ds: set<DocId>, r: Resource)
    requires Bookkeeping(v, b, clock, now) && Enabled(v, WriteRows(ds)) && Announced(v, b, r)
    ensures Announced(RowsWritten(v, ds), b, r) || BuildCovers(RowsWritten(v, ds), b, r)
  {
    var v' := RowsWritten(v, ds);
    var st := v.build.stage;
    assert BuiltRows(v') == Written(BuiltRows(v), ReadJob(st.toFetch, st.got), ds);
    if r.Doc? && r.id in ds {
      var d := r.id;
      assert SeenBefore(v, r, st.asked[d].at, st.asked[d].base);
      assert if st.got[d].Some? then st.asked[d].base <= st.got[d].value <= b.docs[d] else st.asked[d].base == 0;
    }
  }

  lemma WriteRowsKeeps(v: Vault, b: Source, clock: nat, now: nat, ds: set<DocId>)
    requires Inv(v, b, clock, now) && Enabled(v, WriteRows(ds))
    ensures Inv(RowsWritten(v, ds), b, clock, now)
  {
    WriteRowsStage(v, b, clock, now, ds);
    forall r | BuildCovers(v, b, r) ensures BuildCovers(RowsWritten(v, ds), b, r) { WriteRowsCovers(v, b, clock, now, ds, r); }
    forall r | Announced(v, b, r) ensures Announced(RowsWritten(v, ds), b, r) || BuildCovers(RowsWritten(v, ds), b, r) {
      WriteRowsDrops(v, b, clock, now, ds, r);
    }
    BuildMovesKeeps(v, RowsWritten(v, ds), b, clock, now);
  }

  /** Nothing left to read: what the tree does not name goes. */
  lemma PruneCovers(v: Vault, b: Source, now: nat, r: Resource)
    requires Enabled(v, Prune) && StageOk(v, b, now) && BuildCovers(v, b, r)
    ensures BuildCovers(Pruned(v), b, r)
  {
    PrunedRows(v);
    var st := v.build.stage;
    assert st.got == map[];
    assert ReadJob(st.toFetch, st.got) == NO_JOB;
  }

  lemma PrunedRows(v: Vault)
    requires Enabled(v, Prune)
    ensures Pruned(v).build.Building? && Pruned(v).build.stage == Catching(NO_JOB) && Pruned(v).build.replay == v.build.replay
    ensures BuiltRows(Pruned(v)) == Within(BuiltRows(v), v.build.stage.tree)
  {}

  lemma PruneStage(v: Vault, b: Source, clock: nat, now: nat)
    requires Bookkeeping(v, b, clock, now) && Enabled(v, Prune)
    ensures BuildMoves(v, Pruned(v)) && StageOk(Pruned(v), b, now) && RowsOk(BuiltRows(Pruned(v)), b)
  {}

  lemma PruneKeeps(v: Vault, b: Source, clock: nat, now: nat)
    requires Inv(v, b, clock, now) && Enabled(v, Prune)
    ensures Inv(Pruned(v), b, clock, now)
  {
    PruneStage(v, b, clock, now);
    forall r | Announced(v, b, r) ensures Announced(Pruned(v), b, r) {}
    forall r | BuildCovers(v, b, r) ensures BuildCovers(Pruned(v), b, r) { PruneCovers(v, b, now, r); }
    BuildMovesKeeps(v, Pruned(v), b, clock, now);
  }

  lemma ReplayKeeps(v: Vault, b: Source, clock: nat, now: nat, implicitTree: bool)
    requires Inv(v, b, clock, now) && Enabled(v, Replay(implicitTree))
    ensures Inv(ReplayStarted(v, implicitTree), b, clock, now)
  {
    var v' := ReplayStarted(v, implicitTree);
    JobStartsOk(BuiltRows(v), v.build.replay, implicitTree, b);
    forall r | BuildCovers(v, b, r) ensures BuildCovers(v', b, r) {
      if r !in v.build.replay { JobEnds(BuiltRows(v), v.build.stage.job, b, r); }
      JobStarts(BuiltRows(v), v.build.replay, implicitTree, b, r);
    }
  }

  lemma ReplayStepCovers(v: Vault, b: Source, clock: nat, now: nat, a: JobAction, r: Resource)
    requires Bookkeeping(v, b, clock, now) && Enabled(v, ReplayStep(a)) && BuildCovers(v, b, r)
    ensures BuildCovers(ReplayStepped(v, b, a), b, r)
  {
    if r !in v.build.replay { JobStepKeeps(BuiltRows(v), v.build.stage.job, b, a, r); }
  }

  lemma ReplayStepStage(v: Vault, b: Source, clock: nat, now: nat, a: JobAction)
    requires Bookkeeping(v, b, clock, now) && Enabled(v, ReplayStep(a))
    ensures BuildMoves(v, ReplayStepped(v, b, a))
    ensures StageOk(ReplayStepped(v, b, a), b, now) && RowsOk(BuiltRows(ReplayStepped(v, b, a)), b)
  {
    JobStepOk(BuiltRows(v), v.build.stage.job, b, a);
  }

  lemma ReplayStepKeeps(v: Vault, b: Source, clock: nat, now: nat, a: JobAction)
    requires Inv(v, b, clock, now) && Enabled(v, ReplayStep(a))
    ensures Inv(ReplayStepped(v, b, a), b, clock, now)
  {
    var v' := ReplayStepped(v, b, a);
    ReplayStepStage(v, b, clock, now, a);
    forall r | BuildCovers(v, b, r) ensures BuildCovers(v', b, r) { ReplayStepCovers(v, b, clock, now, a, r); }
    forall r | Announced(v, b, r) ensures Announced(v', b, r) { assert v'.pending == v.pending; }
    BuildMovesKeeps(v, v', b, clock, now);
  }

  /** Under the mutex, with nothing left to replay, the new index is current for what is not announced. */
  lemma MeasureKeeps(v: Vault, b: Source, clock: nat, now: nat)
    requires Inv(v, b, clock, now) && Enabled(v, Measure)
    ensures Inv(BuildMeasured(v), b, clock, now)
  {
    var v' := BuildMeasured(v);
    forall r | BuildCovers(v, b, r) ensures BuildCovers(v', b, r) {
      JobEnds(BuiltRows(v), v.build.stage.job, b, r);
    }
    forall r | StampOf(b, r) <= v'.build.stage.stamp ensures BuildCovers(v', b, r) {
      BelowLowWater(v.pending, v.maxSeen, v.build.from, StampOf(b, r));
    }
  }

  /** The index a finished build hands over serves; its position claims nothing it lacks. */
  lemma FinishKeeps(v: Vault, b: Source, clock: nat, now: nat)
    requires Inv(v, b, clock, now) && Enabled(v, Finish)
    ensures Inv(BuildFinished(v), b, clock, now)
  {
    var v' := BuildFinished(v);
    forall r ensures BuildCovers(v, b, r) ==> Current(v'.rows, b, r) {}
    forall r ensures Announced(v', b, r) <==> Announced(v, b, r) {}
  }

  predicate OfUnit(a: Action) {
    a.StartUnit? || a.UnitStep? || a.UnitDone?
  }

  predicate OfReading(a: Action) {
    a.BuildStart? || a.BuildOpen? || a.AskTree? || a.ReadTreeLog? || a.UseTree? || a.AskDocs? || a.ReadDocLog?
  }

  lemma UnitKeeps(v: Vault, b: Source, clock: nat, now: nat, a: Action)
    requires OfUnit(a) && Inv(v, b, clock, now) && Enabled(v, a)
    ensures Inv(Step(v, b, now, a), b, clock, now)
  {
    match a
    case StartUnit(i) => StartUnitKeeps(v, b, clock, now, i);
    case UnitStep(ja) => UnitStepKeeps(v, b, clock, now, ja);
    case UnitDone => UnitDoneKeeps(v, b, clock, now);
  }

  lemma ReadingKeeps(v: Vault, b: Source, clock: nat, now: nat, a: Action)
    requires OfReading(a) && Inv(v, b, clock, now) && Enabled(v, a)
    ensures Inv(Step(v, b, now, a), b, clock, now)
  {
    match a
    case BuildStart => BuildStartKeeps(v, b, clock, now);
    case BuildOpen(e) => BuildOpenKeeps(v, b, clock, now, e);
    case AskTree => AskTreeKeeps(v, b, clock, now);
    case ReadTreeLog => ReadTreeLogKeeps(v, b, clock, now);
    case UseTree => UseTreeKeeps(v, b, clock, now);
    case AskDocs(ds) => AskDocsKeeps(v, b, clock, now, ds);
    case ReadDocLog(d) => ReadDocLogKeeps(v, b, clock, now, d);
  }

  lemma StepKeeps(v: Vault, b: Source, clock: nat, now: nat, a: Action)
    requires Inv(v, b, clock, now) && Enabled(v, a)
    ensures Inv(Step(v, b, now, a), b, clock, now)
  {
    if OfUnit(a) {
      UnitKeeps(v, b, clock, now, a);
    } else if AroundUnit(a) {
      UnitSimpleKeeps(v, b, clock, now, a);
    } else if OfReading(a) {
      ReadingKeeps(v, b, clock, now, a);
    } else {
      match a
      case WriteRows(ds) => WriteRowsKeeps(v, b, clock, now, ds);
      case Prune => PruneKeeps(v, b, clock, now);
      case Replay(i) => ReplayKeeps(v, b, clock, now, i);
      case ReplayStep(ja) => ReplayStepKeeps(v, b, clock, now, ja);
      case Lock => LockKeeps(v, b, clock, now);
      case Measure => MeasureKeeps(v, b, clock, now);
      case Finish => FinishKeeps(v, b, clock, now);
      case BuildFails => BuildFailsKeeps(v, b, clock, now);
    }
  }

  lemma LockKeeps(v: Vault, b: Source, clock: nat, now: nat)
    requires Inv(v, b, clock, now) && Enabled(v, Lock)
    ensures Inv(Step(v, b, now, Lock), b, clock, now)
  {
    var v' := Step(v, b, now, Lock);
    assert forall r :: BuildCovers(v', b, r) <==> BuildCovers(v, b, r);
    assert forall r :: Announced(v', b, r) <==> Announced(v, b, r);
  }

  lemma BuildFailsKeeps(v: Vault, b: Source, clock: nat, now: nat)
    requires Inv(v, b, clock, now) && Enabled(v, BuildFails)
    ensures Inv(Step(v, b, now, BuildFails), b, clock, now)
  {}

  // ── What the rest of the system does to a vault ──

  /** The backend writes one resource, with a stamp above all others. */
  lemma BackendWriteKeeps(v: Vault, b: Source, b': Source, changed: Option<Resource>, clock: nat, clock': nat, now: nat)
    requires Inv(v, b, clock, now) && clock <= clock'
    requires OnlyChanges(b, b', changed)
    requires b'.treeStamp <= clock' && forall d :: d in b'.docs ==> b'.docs[d] <= clock'
    requires changed.Some? ==> StampOf(b', changed.value) > clock
    ensures Inv(v, b', clock', now)
  {
    BackendWriteBooks(v, b, b', changed, clock, clock', now);
    forall r | changed != Some(r) ensures Announced(v, b', r) <==> Announced(v, b, r) {
      assert StampOf(b', r) == StampOf(b, r);
    }
    if v.mode.Built? {
      OthersUntouched(v.rows, if v.unit.Running? then v.unit.job else NO_JOB, b, b', changed);
      BackendWriteServes(v, b, b', changed, clock, now);
    }
    if v.build.Building? {
      forall r | changed != Some(r) && BuildCovers(v, b, r) ensures BuildCovers(v, b', r) {
        BackendWriteCovers(v, b, b', changed, r);
      }
    }
  }

  lemma BackendWriteCovers(v: Vault, b: Source, b': Source, changed: Option<Resource>, r: Resource)
    requires OnlyChanges(b, b', changed) && changed != Some(r)
    requires v.build.Building? && BuildCovers(v, b, r)
    ensures BuildCovers(v, b', r)
  {
    assert StampOf(b', r) == StampOf(b, r);
    match v.build.stage
    case Reading(tree, _, toFetch, _, got) => OthersUntouched(Within(BuiltRows(v), tree), ReadJob(toFetch, got), b, b', changed);
    case Catching(job) => OthersUntouched(BuiltRows(v), job, b, b', changed);
    case Ending(_) => OthersUntouched(BuiltRows(v), NO_JOB, b, b', changed);
    case _ =>
  }

  lemma BackendWriteBooks(v: Vault, b: Source, b': Source, changed: Option<Resource>, clock: nat, clock': nat, now: nat)
    requires Bookkeeping(v, b, clock, now) && clock <= clock'
    requires OnlyChanges(b, b', changed)
    requires b'.treeStamp <= clock' && forall d :: d in b'.docs ==> b'.docs[d] <= clock'
    ensures Bookkeeping(v, b', clock', now)
  {
    assert forall r :: StampOf(b, r) <= StampOf(b', r) by {
      assert forall r :: changed != Some(r) ==> StampOf(b', r) == StampOf(b, r);
    }
    OthersUntouched(v.rows, if v.unit.Running? then v.unit.job else NO_JOB, b, b', changed);
    if v.build.Building? {
      var j := if v.build.stage.Catching? then v.build.stage.job else NO_JOB;
      OthersUntouched(BuiltRows(v), j, b, b', changed);
      BackendWriteStage(v, b, b', changed, now);
    }
  }

  lemma BackendWriteStage(v: Vault, b: Source, b': Source, changed: Option<Resource>, now: nat)
    requires OnlyChanges(b, b', changed) && v.build.Building? && StageOk(v, b, now)
    requires v.build.stage.Catching? ==> JobOk(BuiltRows(v), v.build.stage.job, b')
    ensures StageOk(v, b', now)
  {
    assert StampOf(b, Tree) <= StampOf(b', Tree);
    assert StampOf(b', Tree) == StampOf(b, Tree) ==> changed != Some(Tree);
    forall d ensures StampOf(b, Doc(d)) <= StampOf(b', Doc(d)) {
      assert changed != Some(Doc(d)) ==> StampOf(b', Doc(d)) == StampOf(b, Doc(d));
    }
  }

  lemma BackendWriteServes(v: Vault, b: Source, b': Source, changed: Option<Resource>, clock: nat, now: nat)
    requires Bookkeeping(v, b, clock, now) && Serves(v, b) && OnlyChanges(b, b', changed)
    requires changed.Some? ==> StampOf(b', changed.value) > clock
    requires forall r :: changed != Some(r) ==> (Announced(v, b', r) <==> Announced(v, b, r))
    requires forall r :: changed != Some(r) && Current(v.rows, b, r) ==> Current(v.rows, b', r)
    requires v.unit.Running? ==> forall r :: changed != Some(r) && WillBeCurrent(v.rows, v.unit.job, b, r) ==> WillBeCurrent(v.rows, v.unit.job, b', r)
    ensures Serves(v, b')
  {
    forall r ensures StampOf(b', r) == StampOf(b, r) || (changed == Some(r) && StampOf(b', r) > clock) {}
    if v.unit.Running? {
      forall r ensures WillBeCurrent(v.rows, v.unit.job, b', r) || StillToCome(v, b', r) {
        if changed == Some(r) {
          assert StampOf(b, r) < StampOf(b', r);
          assert r in v.unit.work ==> v.unit.work[r] <= StampOf(b, r);
        } else if !WillBeCurrent(v.rows, v.unit.job, b, r) {
          assert StillToCome(v, b, r);
        }
      }
    }
  }

  ghost function Greatest(rows: Work): (m: nat)
    ensures forall r :: r in rows ==> rows[r] <= m
    ensures m == 0 || exists r :: r in rows && rows[r] == m
    decreases |rows|
  {
    if rows == map[] then 0 else
      var r :| r in rows;
      var rest := rows - {r};
      assert rows == rest[r := rows[r]];
      Max(rows[r], Greatest(rest))
  }

  /** One page of the feed reaches the memory of a vault. */
  ghost function Delivered(v: Vault, rows: Work, last: nat, now: nat): Vault {
    v.(pending := Deliver(v.pending, rows, now), maxSeen := Max(v.maxSeen, Greatest(rows)),
       feedPos := Max(v.feedPos, last), pos := Max(v.pos, last))
  }

  /** A page holds every row of the vault between two positions, as the backend had them. */
  ghost predicate PageOf(rows: Work, b: Source, since: nat, last: nat) {
    && (forall r :: since < StampOf(b, r) <= last ==> r in rows && rows[r] == StampOf(b, r))
    && (forall r :: r in rows ==> since < rows[r] <= last && rows[r] <= StampOf(b, r))
  }

  lemma DeliverBooks(v: Vault, b: Source, clock: nat, now: nat, rows: Work, since: nat, last: nat)
    requires Bookkeeping(v, b, clock, now) && PageOf(rows, b, since, last)
    requires last <= clock
    ensures Bookkeeping(Delivered(v, rows, last, now), b, clock, now)
  {
    if v.build.Building? { DeliverStage(v, b, now, rows, last); }
  }

  /** A write that falls between what was delivered and a page that starts further is not announced any more. */
  ghost predicate JumpedOver(v: Vault, b: Source, since: nat, r: Resource) {
    v.pos < StampOf(b, r) <= since && !(r in v.pending && v.pending[r].stamp == StampOf(b, r))
  }

  /** Nothing but its announcement accounts for the last write of `r`. */
  ghost predicate Unaccounted(v: Vault, b: Source, r: Resource) {
    || (v.mode.Built? && (!Current(v.rows, b, r) || (v.unit.Running? && !WillBeCurrent(v.rows, v.unit.job, b, r))))
    || (v.build.Building? && !BuildCovers(v, b, r))
  }

  lemma DeliverAnnounced(v: Vault, b: Source, clock: nat, now: nat, rows: Work, since: nat, last: nat, r: Resource)
    requires Bookkeeping(v, b, clock, now) && PageOf(rows, b, since, last) && since <= last
    requires Announced(v, b, r)
    ensures Announced(Delivered(v, rows, last, now), b, r) <==> !JumpedOver(v, b, since, r)
  {
    var v' := Delivered(v, rows, last, now);
    assert r in v'.pending <==> r in v.pending || r in rows;
    if StampOf(b, r) <= v'.pos && !JumpedOver(v, b, since, r) { assert r in v'.pending; }
  }

  /** A page keeps the invariant, wherever it starts, exactly when it jumps over nothing unaccounted for. */
  lemma DeliverExact(v: Vault, b: Source, clock: nat, now: nat, rows: Work, since: nat, last: nat)
    requires Inv(v, b, clock, now) && PageOf(rows, b, since, last) && since <= last <= clock
    ensures Inv(Delivered(v, rows, last, now), b, clock, now) <==> forall r :: JumpedOver(v, b, since, r) ==> !Unaccounted(v, b, r)
  {
    var v' := Delivered(v, rows, last, now);
    DeliverBooks(v, b, clock, now, rows, since, last);
    forall r | Announced(v, b, r) ensures Announced(v', b, r) <==> !JumpedOver(v, b, since, r) {
      DeliverAnnounced(v, b, clock, now, rows, since, last, r);
    }
    if v.mode.Built? { DeliverServes(v, v', b, since); }
    if v.build.Building? { DeliverBuilds(v, v', b, since); }
  }

  ghost predicate HandedOver(v: Vault, v': Vault) {
    v' == v.(pending := v'.pending, maxSeen := v'.maxSeen, feedPos := v'.feedPos, pos := v'.pos)
  }

  lemma DeliverServes(v: Vault, v': Vault, b: Source, since: nat)
    requires v.mode.Built? && Serves(v, b) && HandedOver(v, v')
    requires forall r :: Announced(v, b, r) ==> (Announced(v', b, r) <==> !JumpedOver(v, b, since, r))
    ensures Serves(v', b) <==> forall r :: JumpedOver(v, b, since, r) ==>
      Current(v.rows, b, r) && (v.unit.Running? ==> WillBeCurrent(v.rows, v.unit.job, b, r))
  {
    forall r | JumpedOver(v, b, since, r) ensures Announced(v, b, r) && !Announced(v', b, r) {}
    if v.unit.Running? {
      forall r | StillToCome(v, b, r) ensures StillToCome(v', b, r) <==> !JumpedOver(v, b, since, r) {}
    }
  }

  lemma DeliverBuilds(v: Vault, v': Vault, b: Source, since: nat)
    requires v.build.Building? && Builds(v, b) && HandedOver(v, v')
    requires forall r :: Announced(v, b, r) ==> (Announced(v', b, r) <==> !JumpedOver(v, b, since, r))
    ensures Builds(v', b) <==> forall r :: JumpedOver(v, b, since, r) ==> BuildCovers(v, b, r)
  {
    forall r | JumpedOver(v, b, since, r) ensures Announced(v, b, r) && !Announced(v', b, r) {}
    forall r ensures BuildCovers(v', b, r) <==> BuildCovers(v, b, r) {}
  }

  lemma DeliverKeeps(v: Vault, b: Source, clock: nat, now: nat, rows: Work, since: nat, last: nat)
    requires Inv(v, b, clock, now) && PageOf(rows, b, since, last)
    requires since <= v.pos && since <= last <= clock
    ensures Inv(Delivered(v, rows, last, now), b, clock, now)
  {
    DeliverExact(v, b, clock, now, rows, since, last);
  }

  /** An entry touched now is not one seen before a read asked earlier. */
  lemma DeliverStage(v: Vault, b: Source, now: nat, rows: Work, last: nat)
    requires v.build.Building? && StageOk(v, b, now)
    ensures StageOk(Delivered(v, rows, last, now), b, now)
  {
    var v' := Delivered(v, rows, last, now);
    forall r, at: nat, base: nat | at <= now && SeenBefore(v, r, at, base) ensures SeenBefore(v', r, at, base) {
      if r in v'.pending && r !in rows { assert v'.pending[r] == v.pending[r]; }
    }
  }

  lemma TimePasses(v: Vault, b: Source, clock: nat, now: nat, later: nat)
    requires Inv(v, b, clock, now) && now <= later
    ensures Inv(v, b, clock, later)
  {}

  // ── Losing the memory ──

  /** Only the disk is left; the feed will be read again from `from`. */
  function Forgotten(v: Vault, from: nat): Vault {
    Vault(v.rows, v.recorded, v.mode, false, map[], 0, 0, 0, Idle, NoBuild, from)
  }

  /** No built index waits for a change at or below `from`. */
  ghost predicate SafeToForget(v: Vault, from: nat) {
    v.mode.Built? ==> forall r :: r in v.pending ==> from < v.pending[r].stamp
  }

  /** The last write of some resource, at or below `from`, is known only from memory. */
  ghost predicate LosesAChange(v: Vault, b: Source, from: nat) {
    && v.mode.Built?
    && (exists r ::
          && r in v.pending && v.pending[r].stamp <= from
          && v.pending[r].stamp == StampOf(b, r)
          && !Current(v.rows, b, r))
  }

  /** Exactly when a loss of memory loses no change. */
  lemma ForgetExact(v: Vault, b: Source, clock: nat, now: nat, from: nat)
    requires Inv(v, b, clock, now) && from <= v.pos
    ensures Inv(Forgotten(v, from), b, clock, now) <==> !LosesAChange(v, b, from)
  {
    var v' := Forgotten(v, from);
    if v.mode.Built? && Inv(v', b, clock, now) {
      forall r | r in v.pending && v.pending[r].stamp <= from && v.pending[r].stamp == StampOf(b, r)
        ensures Current(v.rows, b, r)
      {
        assert Current(v'.rows, b, r) || Announced(v', b, r);
      }
    }
  }

  /** Read again from further than was delivered, the feed brings back all but what lies below. */
  lemma ForgetAnywhere(v: Vault, b: Source, clock: nat, now: nat, from: nat)
    requires Inv(v, b, clock, now) && from <= clock
    ensures Inv(Forgotten(v, from), b, clock, now)
       <==> forall r :: v.mode.Built? && !Current(v.rows, b, r) ==> StampOf(b, r) > from
  {
    var v' := Forgotten(v, from);
    forall r ensures Announced(v', b, r) <==> StampOf(b, r) > from {}
  }
}
