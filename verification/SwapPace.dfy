/**
 * How recent the documents are that a build beside installs, against what the
 * old index was serving (`replay` and the bascule of apps/indexer/src/store.ts).
 * Live units go on writing to the old index while the new one is made; the
 * documents of their work are read again for it, but a unit that applies a
 * tree also writes documents that are not in its work.
 */
module SwapPace {
  import opened Common
  import opened ChangeQueue
  import opened IndexJob
  import opened VaultMachine
  import opened VaultSafety

  /**
   * What happened to documents since the build started. `live`: the version
   * the old index had then, or a live unit wrote since; `dirty`: written by
   * the backend since the build last read them; `ahead`: read so by the unit
   * under way; `behind`: and written by it to the old index; `wrote`: what
   * that unit has written; `strays`: written by a unit that failed, or did
   * not have them in its work, and not read by the build since.
   */
  datatype Pace = Pace(live: map<DocId, nat>, dirty: set<DocId>, ahead: set<DocId>, behind: set<DocId>, wrote: set<DocId>, strays: set<DocId>)

  const NO_PACE := Pace(map[], {}, {}, {}, {}, {})

  function Versions(x: Rows): map<DocId, nat> {
    map d | d in x :: x[d].version
  }

  /** The documents a unit writes, of those it has read. */
  function WrittenDocs(j: Job, ds: set<DocId>): set<DocId> {
    set d | d in ds && d in j.got && j.got[d].Some?
  }

  function LiveWritten(p: Pace, j: Job, ds: set<DocId>): Pace {
    var w := WrittenDocs(j, ds);
    p.(live := map d | d in p.live.Keys + w :: if d in w then j.got[d].value else p.live[d],
       behind := (p.behind - w) + (w * p.ahead), ahead := p.ahead - ds, wrote := p.wrote + w)
  }

  /** The build reads a document: whatever happened to it before is in what it reads. */
  function ReadAgain(p: Pace, d: DocId): Pace {
    p.(dirty := p.dirty - {d}, ahead := p.ahead - {d}, behind := p.behind - {d}, wrote := p.wrote - {d}, strays := p.strays - {d})
  }

  function Paced(p: Pace, v: Vault, a: Action): Pace
    requires Enabled(v, a)
  {
    match a
    case BuildStart => Pace(Versions(v.rows), {}, {}, {}, p.wrote, {})
    case StartUnit(_) => p.(ahead := {}, wrote := {})
    case UnitStep(ja) =>
      (match ja
       case ReadDoc(d) => p.(ahead := if d in p.dirty then p.ahead + {d} else p.ahead - {d})
       case WriteDocs(ds) => LiveWritten(p, v.unit.job, ds)
       case _ => p)
    case UnitDone => p.(strays := p.strays + (p.wrote - DocsOf(v.unit.work.Keys)), wrote := {})
    case UnitFails => p.(strays := p.strays + p.wrote, wrote := {})
    case ReadDocLog(d) => ReadAgain(p, d)
    case ReplayStep(ja) => if ja.ReadDoc? then ReadAgain(p, ja.d) else p
    case _ => p
  }

  // ── What the record says ──

  function HandIn(x: Rows, got: map<DocId, Option<nat>>, d: DocId): Option<nat> {
    if d in got then got[d] else if d in x then Some(x[d].version) else None
  }

  function GotOf(st: Stage): map<DocId, Option<nat>> {
    match st
    case Reading(_, _, _, _, got) => got
    case Catching(job) => job.got
    case _ => map[]
  }

  /** The version of a document the build has in hand, from its last read. */
  function Hand(v: Vault, d: DocId): Option<nat>
    requires v.build.Building?
  {
    HandIn(v.build.target, GotOf(v.build.stage), d)
  }

  predicate Besides(v: Vault) {
    v.build.Building? && v.mode.Beside?
  }

  /** A document the build still has to read again. */
  predicate ToReadAgain(v: Vault, d: DocId)
    requires v.build.Building?
  {
    || Doc(d) in v.build.replay
    || (v.build.stage.Catching? &&
        (d in v.build.stage.job.docs || (d in v.build.stage.job.toFetch && d !in v.build.stage.job.got)))
  }

  ghost predicate PaceOf(p: Pace, v: Vault, b: Source, d: DocId, h: nat)
    requires v.build.Building?
  {
    && (d in p.dirty <==> h < StampOf(b, Doc(d)))
    && (d in p.live ==> (d in p.behind <==> h < p.live[d]))
    && (v.unit.Running? && d in v.unit.job.got && v.unit.job.got[d].Some? ==> (d in p.ahead <==> h < v.unit.job.got[d].value))
    && (d in p.behind ==> d in p.live && (d in p.strays || (v.unit.Running? && d in p.wrote) || ToReadAgain(v, d)))
  }

  /** What the old index serves is on record. */
  predicate Serving(p: Pace, v: Vault) {
    forall d :: d in v.rows ==> d in p.live && p.live[d] == v.rows[d].version
  }

  ghost predicate PaceInv(p: Pace, v: Vault, b: Source) {
    Besides(v) ==>
      && (v.build.stage.Opening? ==> v.build.target == map[])
      && (forall d :: d in p.live ==> d in b.docs && p.live[d] <= b.docs[d])
      && Serving(p, v)
      && (forall d :: Hand(v, d).Some? ==> PaceOf(p, v, b, d, Hand(v, d).value))
  }

  // ── Steps that move neither the hand nor the unit ──

  /** All that the record depends on. */
  ghost predicate SamePlace(v: Vault, v': Vault, d: DocId)
    requires v.build.Building? && v'.build.Building?
  {
    && Hand(v', d) == Hand(v, d)
    && (v'.unit == v.unit || (!v.unit.Running? && !v'.unit.Running?))
    && (ToReadAgain(v, d) ==> ToReadAgain(v', d))
  }

  lemma PlaceKeeps(p: Pace, v: Vault, v': Vault, b: Source)
    requires Besides(v) && Besides(v') && PaceInv(p, v, b)
    requires v'.rows == v.rows && (v'.build.stage.Opening? ==> v'.build.target == map[])
    requires forall d :: Hand(v', d).Some? ==> SamePlace(v, v', d)
    ensures PaceInv(p, v', b)
  {
    forall d | Hand(v', d).Some? ensures PaceOf(p, v', b, d, Hand(v', d).value) {
      assert SamePlace(v, v', d) && PaceOf(p, v, b, d, Hand(v, d).value);
    }
  }

  lemma WrittenInHand(x: Rows, j: Job, ds: set<DocId>, d: DocId)
    requires ds <= j.got.Keys <= j.toFetch.Keys
    ensures HandIn(Written(x, j, ds), j.got - ds, d) == HandIn(x, j.got, d)
  {}

  predicate Aside(a: Action) {
    || a.Take? || a.Seal? || a.SealFails? || a.Lock? || a.Measure? || a.BuildOpen? || a.AskTree? || a.ReadTreeLog?
    || a.UseTree? || a.AskDocs? || a.WriteRows? || a.Prune? || a.Replay? || (a.ReplayStep? && !a.a.ReadDoc?)
  }

  lemma QueuePlace(v: Vault, b: Source, clock: nat, now: nat, a: Action, d: DocId)
    requires Bookkeeping(v, b, clock, now) && Besides(v) && Enabled(v, a) && (a.Take? || a.Seal? || a.SealFails?)
    ensures Besides(Step(v, b, now, a)) && SamePlace(v, Step(v, b, now, a), d)
  {}

  lemma AsidePlace(v: Vault, b: Source, clock: nat, now: nat, a: Action, d: DocId)
    requires Bookkeeping(v, b, clock, now) && Besides(v) && Enabled(v, a)
    requires a.Lock? || a.Measure? || (a.BuildOpen? && v.build.target == map[]) || a.AskTree? || a.ReadTreeLog?
    ensures Besides(Step(v, b, now, a))
    ensures Hand(Step(v, b, now, a), d).Some? ==> SamePlace(v, Step(v, b, now, a), d)
  {}

  lemma StagePlace(v: Vault, b: Source, clock: nat, now: nat, a: Action, d: DocId)
    requires Bookkeeping(v, b, clock, now) && Besides(v) && Enabled(v, a) && (a.UseTree? || a.AskDocs? || a.Replay?)
    ensures Besides(Step(v, b, now, a))
    ensures Hand(Step(v, b, now, a), d).Some? ==> SamePlace(v, Step(v, b, now, a), d)
  {}

  lemma WriteRowsPlace(v: Vault, b: Source, clock: nat, now: nat, ds: set<DocId>, d: DocId)
    requires Bookkeeping(v, b, clock, now) && Besides(v) && Enabled(v, WriteRows(ds))
    ensures Besides(RowsWritten(v, ds)) && SamePlace(v, RowsWritten(v, ds), d)
  {
    var st := v.build.stage;
    WrittenInHand(v.build.target, ReadJob(st.toFetch, st.got), ds, d);
  }

  lemma PrunePlace(v: Vault, b: Source, clock: nat, now: nat, d: DocId)
    requires Bookkeeping(v, b, clock, now) && Besides(v) && Enabled(v, Prune)
    ensures Besides(Pruned(v))
    ensures Hand(Pruned(v), d).Some? ==> SamePlace(v, Pruned(v), d)
  {
    assert v.build.stage.got == map[];
  }

  lemma ReplayPlace(v: Vault, b: Source, clock: nat, now: nat, ja: JobAction, d: DocId)
    requires Bookkeeping(v, b, clock, now) && Besides(v) && Enabled(v, ReplayStep(ja)) && !ja.ReadDoc?
    ensures Besides(ReplayStepped(v, b, ja))
    ensures Hand(ReplayStepped(v, b, ja), d).Some? ==> SamePlace(v, ReplayStepped(v, b, ja), d)
  {
    var j := v.build.stage.job;
    if ja.WriteDocs? { WrittenInHand(v.build.target, j, ja.ds, d); } else { assert j.got == map[]; }
  }

  lemma AsideSame(v: Vault, b: Source, clock: nat, now: nat, a: Action, d: DocId)
    requires Bookkeeping(v, b, clock, now) && Besides(v) && Enabled(v, a) && Aside(a)
    requires a.BuildOpen? ==> v.build.target == map[]
    ensures Besides(Step(v, b, now, a))
    ensures Hand(Step(v, b, now, a), d).Some? ==> SamePlace(v, Step(v, b, now, a), d)
  {
    if a.WriteRows? {
      WriteRowsPlace(v, b, clock, now, a.ds, d);
    } else if a.Prune? {
      PrunePlace(v, b, clock, now, d);
    } else if a.ReplayStep? {
      ReplayPlace(v, b, clock, now, a.a, d);
    } else if a.Take? || a.Seal? || a.SealFails? {
      QueuePlace(v, b, clock, now, a, d);
    } else if a.UseTree? || a.AskDocs? || a.Replay? {
      StagePlace(v, b, clock, now, a, d);
    } else {
      AsidePlace(v, b, clock, now, a, d);
    }
  }

  lemma AsideKeeps(p: Pace, v: Vault, v': Vault, b: Source, clock: nat, now: nat, a: Action)
    requires Bookkeeping(v, b, clock, now) && Besides(v) && PaceInv(p, v, b) && Enabled(v, a) && Aside(a)
    requires v' == Step(v, b, now, a)
    ensures PaceInv(p, v', b)
  {
    forall d ensures Besides(v') && (Hand(v', d).Some? ==> SamePlace(v, v', d)) { AsideSame(v, b, clock, now, a, d); }
    PlaceKeeps(p, v, v', b);
  }

  // ── Live units ──

  lemma StartUnitPace(p: Pace, v: Vault, b: Source, implicitTree: bool)
    requires Besides(v) && PaceInv(p, v, b) && Enabled(v, StartUnit(implicitTree))
    ensures PaceInv(Paced(p, v, StartUnit(implicitTree)), UnitStarted(v, implicitTree), b)
  {
    var v' := UnitStarted(v, implicitTree);
    forall d | Hand(v', d).Some? ensures PaceOf(Paced(p, v, StartUnit(implicitTree)), v', b, d, Hand(v', d).value) {
      assert PaceOf(p, v, b, d, Hand(v, d).value);
    }
  }

  /** What the unit reads is ahead of the build exactly when the backend wrote since the build read. */
  lemma UnitReadPace(p: Pace, v: Vault, b: Source, clock: nat, now: nat, e: DocId)
    requires Bookkeeping(v, b, clock, now) && Besides(v) && PaceInv(p, v, b) && Enabled(v, UnitStep(ReadDoc(e)))
    ensures PaceInv(Paced(p, v, UnitStep(ReadDoc(e))), UnitStepped(v, b, ReadDoc(e)), b)
  {
    var v' := UnitStepped(v, b, ReadDoc(e));
    forall d | Hand(v', d).Some? ensures PaceOf(Paced(p, v, UnitStep(ReadDoc(e))), v', b, d, Hand(v', d).value) {
      assert PaceOf(p, v, b, d, Hand(v, d).value);
    }
  }

  lemma UnitWritePace(p: Pace, v: Vault, b: Source, clock: nat, now: nat, ds: set<DocId>)
    requires Bookkeeping(v, b, clock, now) && Besides(v) && PaceInv(p, v, b) && Enabled(v, UnitStep(WriteDocs(ds)))
    ensures PaceInv(Paced(p, v, UnitStep(WriteDocs(ds))), UnitStepped(v, b, WriteDocs(ds)), b)
  {
    var v' := UnitStepped(v, b, WriteDocs(ds));
    var p' := Paced(p, v, UnitStep(WriteDocs(ds)));
    forall d | Hand(v', d).Some? ensures PaceOf(p', v', b, d, Hand(v', d).value) {
      assert PaceOf(p, v, b, d, Hand(v, d).value);
    }
  }

  lemma UnitStepPace(p: Pace, v: Vault, b: Source, clock: nat, now: nat, ja: JobAction)
    requires Bookkeeping(v, b, clock, now) && Besides(v) && PaceInv(p, v, b) && Enabled(v, UnitStep(ja))
    ensures PaceInv(Paced(p, v, UnitStep(ja)), UnitStepped(v, b, ja), b)
  {
    match ja
    case ReadDoc(d) => UnitReadPace(p, v, b, clock, now, d);
    case WriteDocs(ds) => UnitWritePace(p, v, b, clock, now, ds);
    case _ =>
      var v' := UnitStepped(v, b, ja);
      assert v'.unit.job.got == v.unit.job.got;
      forall d | Hand(v', d).Some? ensures PaceOf(p, v', b, d, Hand(v', d).value) {
        assert PaceOf(p, v, b, d, Hand(v, d).value);
      }
  }

  /** A unit that is done hands its work to the replay; what it wrote besides is astray. */
  lemma UnitDonePace(p: Pace, v: Vault, b: Source)
    requires Besides(v) && PaceInv(p, v, b) && Enabled(v, UnitDone)
    ensures PaceInv(Paced(p, v, UnitDone), UnitFinished(v), b)
  {
    var v' := UnitFinished(v);
    var p' := Paced(p, v, UnitDone);
    assert v'.build.stage == v.build.stage && v'.build.target == v.build.target;
    forall d | Hand(v', d).Some? ensures PaceOf(p', v', b, d, Hand(v', d).value) {
      assert PaceOf(p, v, b, d, Hand(v, d).value);
      if d in p.wrote && d !in p'.strays { assert Doc(d) in v.unit.work.Keys; }
    }
  }

  lemma UnitFailsPace(p: Pace, v: Vault, b: Source)
    requires Besides(v) && PaceInv(p, v, b) && Enabled(v, UnitFails)
    ensures PaceInv(Paced(p, v, UnitFails), v.(unit := Idle), b)
  {
    var v' := v.(unit := Idle);
    forall d | Hand(v', d).Some? ensures PaceOf(Paced(p, v, UnitFails), v', b, d, Hand(v', d).value) {
      assert PaceOf(p, v, b, d, Hand(v, d).value);
    }
  }

  // ── The build reads ──

  lemma ReadLogPace(p: Pace, v: Vault, b: Source, clock: nat, now: nat, e: DocId)
    requires Bookkeeping(v, b, clock, now) && Besides(v) && PaceInv(p, v, b) && Enabled(v, ReadDocLog(e))
    ensures PaceInv(ReadAgain(p, e), DocLogRead(v, b, e), b)
  {
    var v' := DocLogRead(v, b, e);
    forall d | Hand(v', d).Some? ensures PaceOf(ReadAgain(p, e), v', b, d, Hand(v', d).value) {
      if d != e { assert Hand(v', d) == Hand(v, d) && PaceOf(p, v, b, d, Hand(v, d).value); }
    }
  }

  lemma ReplayReadPace(p: Pace, v: Vault, b: Source, clock: nat, now: nat, e: DocId)
    requires Bookkeeping(v, b, clock, now) && Besides(v) && PaceInv(p, v, b) && Enabled(v, ReplayStep(ReadDoc(e)))
    ensures PaceInv(ReadAgain(p, e), ReplayStepped(v, b, ReadDoc(e)), b)
  {
    var v' := ReplayStepped(v, b, ReadDoc(e));
    forall d | Hand(v', d).Some? ensures PaceOf(ReadAgain(p, e), v', b, d, Hand(v', d).value) {
      if d != e { assert Hand(v', d) == Hand(v, d) && PaceOf(p, v, b, d, Hand(v, d).value); }
    }
  }

  lemma BuildStartPace(p: Pace, v: Vault, b: Source, clock: nat, now: nat)
    requires Bookkeeping(v, b, clock, now) && Enabled(v, BuildStart)
    ensures PaceInv(Paced(p, v, BuildStart), BuildStarted(v), b)
  {
    forall d ensures Hand(BuildStarted(v), d).None? {}
  }

  lemma UnitPace(p: Pace, v: Vault, b: Source, clock: nat, now: nat, a: Action)
    requires Bookkeeping(v, b, clock, now) && Besides(v) && PaceInv(p, v, b) && Enabled(v, a)
    requires OfUnit(a) || a.UnitFails?
    ensures PaceInv(Paced(p, v, a), Step(v, b, now, a), b)
  {
    match a
    case StartUnit(i) => StartUnitPace(p, v, b, i);
    case UnitStep(ja) => UnitStepPace(p, v, b, clock, now, ja);
    case UnitDone => UnitDonePace(p, v, b);
    case UnitFails => UnitFailsPace(p, v, b);
  }

  lemma NoBuildAfter(v: Vault, b: Source, now: nat, a: Action)
    requires Enabled(v, a) && (a.WriteRows? ==> StageShape(v.build.stage))
    ensures a.BuildFails? || a.Finish? ==> !Besides(Step(v, b, now, a))
    ensures !Besides(v) && !a.BuildStart? ==> !Besides(Step(v, b, now, a))
  {}

  predicate ReadsForBuild(a: Action) {
    a.ReadDocLog? || (a.ReplayStep? && a.a.ReadDoc?)
  }

  lemma BuildReadPace(p: Pace, v: Vault, b: Source, clock: nat, now: nat, a: Action)
    requires Bookkeeping(v, b, clock, now) && Besides(v) && PaceInv(p, v, b) && Enabled(v, a) && ReadsForBuild(a)
    ensures PaceInv(Paced(p, v, a), Step(v, b, now, a), b)
  {
    if a.ReadDocLog? { ReadLogPace(p, v, b, clock, now, a.d); } else { ReplayReadPace(p, v, b, clock, now, a.a.d); }
  }

  lemma AsideUnrecorded(p: Pace, v: Vault, a: Action)
    requires Enabled(v, a) && Aside(a)
    ensures Paced(p, v, a) == p
  {}

  lemma BesidePace(p: Pace, v: Vault, b: Source, clock: nat, now: nat, a: Action)
    requires Bookkeeping(v, b, clock, now) && Besides(v) && PaceInv(p, v, b) && Enabled(v, a)
    requires Aside(a) || OfUnit(a) || a.UnitFails? || ReadsForBuild(a)
    ensures PaceInv(Paced(p, v, a), Step(v, b, now, a), b)
  {
    if Aside(a) {
      AsideUnrecorded(p, v, a);
      AsideKeeps(p, v, Step(v, b, now, a), b, clock, now, a);
    } else if ReadsForBuild(a) {
      BuildReadPace(p, v, b, clock, now, a);
    } else {
      UnitPace(p, v, b, clock, now, a);
    }
  }

  lemma EveryStep(v: Vault, a: Action)
    requires Enabled(v, a) && Besides(v) && v.checked
    ensures Aside(a) || OfUnit(a) || a.UnitFails? || ReadsForBuild(a) || a.BuildFails? || a.Finish?
  {}

  /** Every step of a vault keeps what the record says. */
  lemma OwnStepPace(p: Pace, v: Vault, b: Source, clock: nat, now: nat, a: Action)
    requires Bookkeeping(v, b, clock, now) && PaceInv(p, v, b) && Enabled(v, a)
    ensures PaceInv(Paced(p, v, a), Step(v, b, now, a), b)
  {
    if a.BuildStart? {
      BuildStartPace(p, v, b, clock, now);
    } else if Besides(v) && !a.BuildFails? && !a.Finish? {
      EveryStep(v, a);
      BesidePace(p, v, b, clock, now, a);
    } else {
      NoBuildAfter(v, b, now, a);
    }
  }

  // ── What the backend and the feed do ──

  function Dirtied(p: Pace, d: DocId): Pace {
    p.(dirty := p.dirty + {d})
  }

  lemma BackendPace(p: Pace, v: Vault, b: Source, b': Source, changed: Resource)
    requires PaceInv(p, v, b) && OnlyChanges(b, b', Some(changed))
    requires Besides(v) ==> forall d :: Hand(v, d).Some? ==> d in b.docs && Hand(v, d).value <= b.docs[d]
    ensures PaceInv(if changed.Doc? then Dirtied(p, changed.id) else p, v, b')
  {
    var p' := if changed.Doc? then Dirtied(p, changed.id) else p;
    if Besides(v) {
      forall d | Hand(v, d).Some? ensures PaceOf(p', v, b', d, Hand(v, d).value) {
        assert PaceOf(p, v, b, d, Hand(v, d).value);
        assert changed == Doc(d) ==> StampOf(b', Doc(d)) > StampOf(b, Doc(d));
        assert changed != Doc(d) ==> StampOf(b', Doc(d)) == StampOf(b, Doc(d));
      }
    }
  }

  lemma RegisterPace(p: Pace, v: Vault, b: Source, d: DocId)
    requires PaceInv(p, v, b)
    ensures PaceInv(p, v, Register(b, d))
  {
    var b' := Register(b, d);
    if Besides(v) {
      forall e | Hand(v, e).Some? ensures PaceOf(p, v, b', e, Hand(v, e).value) {
        assert PaceOf(p, v, b, e, Hand(v, e).value) && StampOf(b', Doc(e)) == StampOf(b, Doc(e));
      }
    }
  }

  /** What is in hand was read from the backend. */
  lemma HandFits(v: Vault, b: Source, clock: nat, now: nat, d: DocId)
    requires Bookkeeping(v, b, clock, now) && Besides(v) && Hand(v, d).Some?
    ensures d in b.docs && Hand(v, d).value <= b.docs[d]
  {}

  lemma DeliverPace(p: Pace, v: Vault, b: Source, rows: Work, last: nat, now: nat)
    requires PaceInv(p, v, b)
    ensures PaceInv(p, Delivered(v, rows, last, now), b)
  {
    var v' := Delivered(v, rows, last, now);
    if Besides(v) { PlaceKeeps(p, v, v', b); }
  }

  // ── The swap ──

  /**
   * A document of the new index is at least as recent as what the old one
   * served exactly when it is not behind: written by the backend after the
   * build read it last, and read and written since by a live unit. And a
   * document can only be behind if the unit that wrote it failed, or did not
   * have it in its work.
   */
  lemma SwapExact(p: Pace, v: Vault, b: Source, clock: nat, now: nat, d: DocId)
    requires Bookkeeping(v, b, clock, now) && PaceInv(p, v, b) && Enabled(v, Finish) && v.mode.Beside?
    requires d in BuildFinished(v).rows
    ensures d in p.live ==> (BuildFinished(v).rows[d].version >= p.live[d] <==> d !in p.behind)
    ensures d in p.behind ==> d in p.strays && !Current(BuildFinished(v).rows, b, Doc(d))
    ensures d in v.rows ==> d in p.live && p.live[d] == v.rows[d].version
  {
    assert Hand(v, d) == Some(v.build.target[d].version);
    assert PaceOf(p, v, b, d, v.build.target[d].version);
  }
}
