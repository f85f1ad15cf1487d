/**
 * A run in order, of a peer at rest, whose swap goes back: a live unit that
 * applies the tree writes a note the build has read before; the note is not in
 * the work of the unit, and so is not read again.
 */
module SwapCounterexample {
  import opened Common
  import opened ChangeQueue
  import opened IndexJob
  import opened VaultMachine
  import opened VaultSafety
  import opened PeerMachine
  import opened PeerTheorems
  import opened PeerCounterexamples

  const D0 := Source(map[], 0, map["a" := 0])
  const D1 := Source(TA, 1, map["a" := 0])
  const D2 := Source(TA, 1, map["a" := 2])

  /** A peer at rest, with a document the tree does not name yet. */
  const START := Resting(D0, map[], 0)

  function Stale(rows: Rows, recorded: nat, pending: Queue, pos: nat, unit: Unit, build: Build): Vault {
    Vault(rows, recorded, Beside, true, pending, pos, pos, recorded, unit, build, pos)
  }

  function Made(stage: Stage, target: Rows): Build {
    Building(0, stage, target, {}, false)
  }

  lemma NothingNamed()
    ensures FromScratch(D0) == map[]
  {}

  lemma StartRests()
    ensures AtRest(START)
  {
    NothingNamed();
    RestingIsAtRest(D0, map[], 0);
  }

  lemma Stopped()
    ensures Reaches(START, One(0, D0, Forgotten(Indexed(map[], 0), 0), 0, 0), NO_SLIP)
  {
    Begin(START, NO_SLIP);
    Crash(START, START, NO_SLIP);
  }

  lemma Restarted()
    ensures Reaches(START, One(0, D0, Forgotten(Indexed(map[], 0), 0).(mode := Beside), 0, 0), NO_SLIP)
  {
    Stopped();
    var v := Forgotten(Indexed(map[], 0), 0);
    var t := One(0, D0, v, 0, 0);
    assert t.vaults["v" := v.(mode := Beside)] == map["v" := v.(mode := Beside)];
    Do(START, t, FoundUnfit("v", Beside, false), One(0, D0, v.(mode := Beside), 0, 0), NO_SLIP);
  }

  lemma BuildBesideOpens()
    ensures Reaches(START, One(0, D0, Stale(map[], 0, map[], 0, Idle, Made(Opened, map[])), 0, 0), NO_SLIP)
  {
    Restarted();
    var v := Forgotten(Indexed(map[], 0), 0).(mode := Beside);
    InOne(START, 0, D0, 0, 0, v, Check(true), Stale(map[], 0, map[], 0, Idle, NoBuild), NO_SLIP);
    assert After(map[], 0) == map[];
    InOne(START, 0, D0, 0, 0, Stale(map[], 0, map[], 0, Idle, NoBuild), BuildStart, Stale(map[], 0, map[], 0, Idle, Made(Opening, map[])), NO_SLIP);
    InOne(START, 0, D0, 0, 0, Stale(map[], 0, map[], 0, Idle, Made(Opening, map[])), BuildOpen(false),
          Stale(map[], 0, map[], 0, Idle, Made(Opened, map[])), NO_SLIP);
  }

  const TREE_WAITS: Queue := map[Tree := Pending(1, 0, 0)]

  lemma TreeArrives(v: Vault)
    requires v.pending == map[] && v.maxSeen == v.feedPos == v.pos == 0
    ensures Delivered(v, TREE_1, 1, 0) == v.(pending := TREE_WAITS, maxSeen := 1, feedPos := 1, pos := 1)
  {
    assert Deliver(map[], TREE_1, 0) == TREE_WAITS;
    GreatestOfOne(Tree, 1);
  }

  const OPENED := Stale(map[], 0, map[], 0, Idle, Made(Opened, map[]))

  /** The tree now names "a". */
  lemma AddedToTree()
    ensures Reaches(START, One(1, D1, OPENED, 0, 0), NO_SLIP)
  {
    BuildBesideOpens();
    var t0, t1 := One(0, D0, OPENED, 0, 0), One(1, D1, OPENED, 0, 0);
    assert t0.src["v" := D1] == t1.src;
    Do(START, t0, WritesTree("v", TA), t1, NO_SLIP);
  }

  lemma TreeFetched()
    ensures Reaches(START, One(1, D1, OPENED, 0, 0).(page := Some(Page(0, 1, map["v" := TREE_1]))), NO_SLIP)
  {
    AddedToTree();
    assert RowsBetween(D1, 0, 1) == TREE_1;
    FetchPage(START, One(1, D1, OPENED, 0, 0), 1, TREE_1, NO_SLIP);
  }

  lemma TreeHandedOver()
    ensures Reaches(START, One(1, D1, Stale(map[], 0, TREE_WAITS, 1, Idle, Made(Opened, map[])), 1, 0), NO_SLIP)
  {
    TreeFetched();
    TreeArrives(OPENED);
    var v' := Stale(map[], 0, TREE_WAITS, 1, Idle, Made(Opened, map[]));
    DispatchPage(START, One(1, D1, OPENED, 0, 0).(page := Some(Page(0, 1, map["v" := TREE_1]))), v', One(1, D1, v', 1, 0), NO_SLIP);
  }

  /** A step of the build. */
  lemma BuildDoes(b: Source, st: Stage, x: Rows, a: Action, st': Stage, x': Rows)
    requires var v, v' := Stale(map[], 0, TREE_WAITS, 1, Idle, Made(st, x)), Stale(map[], 0, TREE_WAITS, 1, Idle, Made(st', x'));
      && Reaches(START, One(1, b, v, 1, 0), NO_SLIP)
      && Enabled(v, a) && (a.WriteRows? ==> StageShape(v.build.stage)) && Step(v, b, 0, a) == v'
    ensures Reaches(START, One(1, b, Stale(map[], 0, TREE_WAITS, 1, Idle, Made(st', x')), 1, 0), NO_SLIP)
  {
    InOne(START, 1, b, 1, 0, Stale(map[], 0, TREE_WAITS, 1, Idle, Made(st, x)), a, Stale(map[], 0, TREE_WAITS, 1, Idle, Made(st', x')), NO_SLIP);
  }

  lemma BuildReadsTree()
    ensures Reaches(START, One(1, D1, Stale(map[], 0, TREE_WAITS, 1, Idle, Made(Reading(TA, 1, TA, map[], map[]), map[])), 1, 0), NO_SLIP)
  {
    TreeHandedOver();
    BuildDoes(D1, Opened, map[], AskTree, TreeAsked(0, 1), map[]);
    BuildDoes(D1, TreeAsked(0, 1), map[], ReadTreeLog, TreeRead(0, 1, TA, 1), map[]);
    BuildDoes(D1, TreeRead(0, 1, TA, 1), map[], UseTree, Reading(TA, 1, TA, map[], map[]), map[]);
  }

  const ASKED: map<DocId, Asked> := map["a" := Asked(0, 0)]
  const GOT: map<DocId, Option<nat>> := map["a" := Some(0)]

  lemma AskIt(v: Vault)
    requires v == Stale(map[], 0, TREE_WAITS, 1, Idle, Made(Reading(TA, 1, TA, map[], map[]), map[]))
    ensures Enabled(v, AskDocs({"a"}))
    ensures Step(v, D1, 0, AskDocs({"a"})) == Stale(map[], 0, TREE_WAITS, 1, Idle, Made(Reading(TA, 1, TA, ASKED, map[]), map[]))
  {
    var st := v.build.stage;
    forall d | d in {"a"} ensures d in st.toFetch.Keys - st.asked.Keys { assert "a" in TA; }
    assert DocsAsked(v, D1, 0, {"a"}).build.stage.asked == ASKED;
  }

  lemma WriteIt(v: Vault)
    requires v == Stale(map[], 0, TREE_WAITS, 1, Idle, Made(Reading(TA, 1, TA, ASKED, GOT), map[]))
    ensures Enabled(v, WriteRows({"a"})) && StageShape(v.build.stage)
    ensures Step(v, D1, 0, WriteRows({"a"})) == Stale(map[], 0, TREE_WAITS, 1, Idle, Made(Reading(TA, 1, map[], map[], map[]), X0))
  {
    assert Written(map[], ReadJob(TA, GOT), {"a"}) == X0;
  }

  lemma BuildReadsNote()
    ensures Reaches(START, One(1, D1, Stale(map[], 0, TREE_WAITS, 1, Idle, Made(Reading(TA, 1, TA, ASKED, GOT), map[])), 1, 0), NO_SLIP)
  {
    BuildReadsTree();
    AskIt(Stale(map[], 0, TREE_WAITS, 1, Idle, Made(Reading(TA, 1, TA, map[], map[]), map[])));
    BuildDoes(D1, Reading(TA, 1, TA, map[], map[]), map[], AskDocs({"a"}), Reading(TA, 1, TA, ASKED, map[]), map[]);
    BuildDoes(D1, Reading(TA, 1, TA, ASKED, map[]), map[], ReadDocLog("a"), Reading(TA, 1, TA, ASKED, GOT), map[]);
  }

  /** The build has read "a" as it is, and is ready to catch up. */
  lemma BuildWritesNote()
    ensures Reaches(START, One(1, D1, Stale(map[], 0, TREE_WAITS, 1, Idle, Made(Catching(NO_JOB), X0)), 1, 0), NO_SLIP)
  {
    BuildReadsNote();
    WriteIt(Stale(map[], 0, TREE_WAITS, 1, Idle, Made(Reading(TA, 1, TA, ASKED, GOT), map[])));
    BuildDoes(D1, Reading(TA, 1, TA, ASKED, GOT), map[], WriteRows({"a"}), Reading(TA, 1, map[], map[], map[]), X0);
    assert Within(X0, TA) == X0;
    BuildDoes(D1, Reading(TA, 1, map[], map[], map[]), X0, Prune, Catching(NO_JOB), X0);
  }

  const CATCHING := Made(Catching(NO_JOB), X0)

  /** Meanwhile "a" is written, and a live unit takes charge of the tree alone. */
  lemma UnitTakesTree()
    ensures Reaches(START, One(2, D2, Stale(map[], 0, TREE_WAITS, 1, Waiting(TREE_1), CATCHING), 1, 0), NO_SLIP)
  {
    BuildWritesNote();
    var v := Stale(map[], 0, TREE_WAITS, 1, Idle, CATCHING);
    Write(START, One(1, D1, v, 1, 0), "a", NO_SLIP);
    assert WriteDoc(D1, "a", 2) == D2;
    assert Tree in TREE_1;
    InOne(START, 2, D2, 1, 0, v, Take(TREE_1), Stale(map[], 0, TREE_WAITS, 1, Waiting(TREE_1), CATCHING), NO_SLIP);
  }

  /** A step of the unit. */
  lemma UnitDoes(x: Rows, j: Job, a: JobAction, x': Rows, j': Job)
    requires Reaches(START, One(2, D2, Stale(x, 0, TREE_WAITS, 1, Running(TREE_1, j), CATCHING), 1, 0), NO_SLIP)
    requires JobEnabled(x, j, a) && JobStep(x, j, D2, a) == (x', j')
    ensures Reaches(START, One(2, D2, Stale(x', 0, TREE_WAITS, 1, Running(TREE_1, j'), CATCHING), 1, 0), NO_SLIP)
  {
    InOne(START, 2, D2, 1, 0, Stale(x, 0, TREE_WAITS, 1, Running(TREE_1, j), CATCHING), UnitStep(a),
          Stale(x', 0, TREE_WAITS, 1, Running(TREE_1, j'), CATCHING), NO_SLIP);
  }

  lemma UnitReadsTree()
    ensures Reaches(START, One(2, D2, Stale(map[], 0, TREE_WAITS, 1, Running(TREE_1, Job({}, GotTree(TA, 1), map[], map[])), CATCHING), 1, 0), NO_SLIP)
  {
    UnitTakesTree();
    TreeAlone(1);
    assert NotApplied(TREE_1, 0) == TREE_1 && Settle(TREE_WAITS, Applied(TREE_1, 0)) == TREE_WAITS;
    InOne(START, 2, D2, 1, 0, Stale(map[], 0, TREE_WAITS, 1, Waiting(TREE_1), CATCHING), StartUnit(false),
          Stale(map[], 0, TREE_WAITS, 1, Running(TREE_1, Job({}, NeedTree, map[], map[])), CATCHING), NO_SLIP);
    UnitDoes(map[], Job({}, NeedTree, map[], map[]), ReadTree, map[], Job({}, GotTree(TA, 1), map[], map[]));
  }

  const NEW_ROW: Rows := map["a" := Row(P, 2, "md")]

  /** The unit finds "a" added, reads it and writes it to the index that serves. */
  lemma UnitWritesNote()
    ensures Reaches(START, One(2, D2, Stale(NEW_ROW, 0, TREE_WAITS, 1, Running(TREE_1, NO_JOB), CATCHING), 1, 0), NO_SLIP)
  {
    UnitReadsTree();
    AppliedToNothing(D2);
    UnitDoes(map[], Job({}, GotTree(TA, 1), map[], map[]), ApplyTree, map[], Job({}, LookUp, TA, map[]));
    LookedUpInNothing(D2);
    UnitDoes(map[], Job({}, LookUp, TA, map[]), LookUpDocs, map[], Job({}, Phase.Fetch, TA, map[]));
    var j := Job({}, Phase.Fetch, TA, map["a" := Some(2)]);
    UnitDoes(map[], Job({}, Phase.Fetch, TA, map[]), ReadDoc("a"), map[], j);
    assert Written(map[], j, {"a"}) == NEW_ROW;
    UnitDoes(map[], j, WriteDocs({"a"}), NEW_ROW, NO_JOB);
  }

  function Replayed(stage: Stage, replay: set<Resource>, locked: bool): Vault {
    Stale(NEW_ROW, 1, map[], 1, Idle, Building(0, stage, X0, replay, locked))
  }

  /** The unit is done: only the tree is to be replayed on the new index. */
  lemma TreeToReplay()
    ensures Reaches(START, One(2, D2, Replayed(Catching(NO_JOB), {Tree}, false), 1, 0), NO_SLIP)
  {
    UnitWritesNote();
    var v := Stale(NEW_ROW, 0, TREE_WAITS, 1, Running(TREE_1, NO_JOB), CATCHING);
    var v' := Stale(NEW_ROW, 0, map[], 1, Sealing(1), CATCHING.(replay := {Tree}));
    assert Settle(TREE_WAITS, TREE_1) == map[];
    assert {} + TREE_1.Keys == {Tree};
    InOne(START, 2, D2, 1, 0, v, UnitDone, v', NO_SLIP);
    InOne(START, 2, D2, 1, 0, v', Seal, Replayed(Catching(NO_JOB), {Tree}, false), NO_SLIP);
  }

  lemma ReplayDoes(j: Job, a: JobAction, j': Job)
    requires Reaches(START, One(2, D2, Replayed(Catching(j), {}, false), 1, 0), NO_SLIP)
    requires JobEnabled(X0, j, a) && JobStep(X0, j, D2, a) == (X0, j')
    ensures Reaches(START, One(2, D2, Replayed(Catching(j'), {}, false), 1, 0), NO_SLIP)
  {
    InOne(START, 2, D2, 1, 0, Replayed(Catching(j), {}, false), ReplayStep(a), Replayed(Catching(j'), {}, false), NO_SLIP);
  }

  lemma AppliedToIt()
    ensures JobStep(X0, Job({}, GotTree(TA, 1), map[], map[]), D2, ApplyTree) == (X0, Job({}, LookUp, map[], map[]))
  {
    assert Rearranged(X0, TA, X0.Keys) == X0;
  }

  lemma LookedUpInIt()
    ensures JobStep(X0, Job({}, LookUp, map[], map[]), D2, LookUpDocs) == (X0, NO_JOB)
  {}

  /** The new index has "a" where the tree says: it is not read again. */
  lemma TreeReplayed()
    ensures Reaches(START, One(2, D2, Replayed(Catching(NO_JOB), {}, false), 1, 0), NO_SLIP)
  {
    TreeToReplay();
    var j := Job({}, NeedTree, map[], map[]);
    assert DocsOf({Tree}) == {};
    InOne(START, 2, D2, 1, 0, Replayed(Catching(NO_JOB), {Tree}, false), Replay(false), Replayed(Catching(j), {}, false), NO_SLIP);
    ReplayDoes(j, ReadTree, Job({}, GotTree(TA, 1), map[], map[]));
    AppliedToIt();
    ReplayDoes(Job({}, GotTree(TA, 1), map[], map[]), ApplyTree, Job({}, LookUp, map[], map[]));
    LookedUpInIt();
    ReplayDoes(Job({}, LookUp, map[], map[]), LookUpDocs, NO_JOB);
  }

  lemma ReadyToSwap()
    ensures Reaches(START, One(2, D2, Replayed(Ending(1), {}, true), 1, 0), NO_SLIP)
  {
    TreeReplayed();
    InOne(START, 2, D2, 1, 0, Replayed(Catching(NO_JOB), {}, false), Lock, Replayed(Catching(NO_JOB), {}, true), NO_SLIP);
    InOne(START, 2, D2, 1, 0, Replayed(Catching(NO_JOB), {}, true), Measure, Replayed(Ending(1), {}, true), NO_SLIP);
  }

  const READY := One(2, D2, Replayed(Ending(1), {}, true), 1, 0)

  lemma OrderlyToTheSwap() returns (run: seq<PeerAction>)
    ensures OrderlyRun(START, run, READY, "v")
  {
    ReadyToSwap();
    run :| RunBut(START, run, READY, NO_SLIP);
    InOrderThroughout(START, run, READY, "v");
  }

  /** The swap that comes next serves an older version of `d` than the index it replaces. */
  ghost predicate SwapLowers(s: Peer, id: VaultId, d: DocId) {
    && PeerEnabled(s, Inside(id, Finish)) && s.vaults[id].mode.Beside?
    && var served, installed := s.vaults[id].rows, PeerStep(s, Inside(id, Finish)).vaults[id].rows;
       d in served && d in installed && installed[d].version < served[d].version
  }

  lemma ReadyLowers()
    ensures SwapLowers(READY, "v", "a")
  {
    var v := READY.vaults["v"];
    assert v == Replayed(Ending(1), {}, true) && v.rows == NEW_ROW && BuiltRows(v) == X0;
    assert BuildFinished(v).rows == X0;
  }

  /** Every step is in order, yet "a" was served at 2 and is served at 0 after the swap. */
  lemma SwapGoesBack() returns (s: Peer, run: seq<PeerAction>, t: Peer)
    ensures AtRest(s) && OrderlyRun(s, run, t, "v") && SwapLowers(t, "v", "a")
  {
    s, t := START, READY;
    StartRests();
    ReadyLowers();
    run := OrderlyToTheSwap();
  }
}
