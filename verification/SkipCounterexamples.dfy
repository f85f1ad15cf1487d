/**
 * Two runs in order, of a peer at rest, after which a live unit skips a change
 * that the index which answers does not reflect: once a newer change of the
 * note has superseded it, once while a build makes the next index.
 */
module SkipCounterexamples {
  import opened Common
  import opened ChangeQueue
  import opened IndexJob
  import opened VaultMachine
  import opened VaultSafety
  import opened PeerMachine
  import opened PeerTheorems
  import opened PeerCounterexamples
  import opened SkipSafety
  import opened SkipTheorems

  /** A unit is about to skip a change of `d` that the index does not reflect. */
  ghost predicate SkipsUnindexed(s: Peer, id: VaultId, d: DocId) {
    && id in s.vaults && PeerEnabled(s, Inside(id, StartUnit(false)))
    && WillSkip(s.vaults[id], Doc(d)) && !HoldsDoc(s.vaults[id].rows, d, s.vaults[id].unit.work[Doc(d)])
  }

  lemma InOrderUpTo(s: Peer, t: Peer) returns (run: seq<PeerAction>)
    requires Reaches(s, t, NO_SLIP) && "v" in s.vaults && "v" in s.src
    ensures OrderlyRun(s, run, t, "v")
  {
    run :| RunBut(s, run, t, NO_SLIP);
    InOrderThroughout(s, run, t, "v");
  }

  // ── Superseded while it waited for the vault ──

  const A_1: Work := map[A := 1]
  const B3 := Source(TA, 0, map["a" := 2])

  function Caught(pending: Queue, pos: nat, unit: Unit, stage: Stage, locked: bool): Vault {
    Vault(X0, 0, Beside, true, pending, pos, pos, 0, unit, Building(0, stage, X0, {}, locked), pos)
  }

  lemma BuildWrites()
    ensures Reaches(REST, One(1, B1, Caught(Holding(1), 1, Idle, Catching(NO_JOB), false), 1, 0), NO_SLIP)
  {
    WrittenDuringBuild(NO_SLIP);
    var v0 := BuildingA(READ_A, map[], Holding(1), 1, false);
    var v1 := BuildingA(Reading(TA, 0, map[], map[], map[]), X0, Holding(1), 1, false);
    WriteA(v0, v1);
    InOne(REST, 1, B1, 1, 0, v0, WriteRows({"a"}), v1, NO_SLIP);
    assert Within(X0, TA) == X0;
    InOne(REST, 1, B1, 1, 0, v1, Prune, Caught(Holding(1), 1, Idle, Catching(NO_JOB), false), NO_SLIP);
  }

  lemma WorkWaits()
    ensures Reaches(REST, One(1, B1, Caught(Holding(1), 1, Waiting(A_1), Catching(NO_JOB), false), 1, 0), NO_SLIP)
  {
    BuildWrites();
    assert A in A_1;
    InOne(REST, 1, B1, 1, 0, Caught(Holding(1), 1, Idle, Catching(NO_JOB), false), Take(A_1),
          Caught(Holding(1), 1, Waiting(A_1), Catching(NO_JOB), false), NO_SLIP);
  }

  lemma NewerDelivered(v: Vault)
    requires v.pending == Holding(1) && v.maxSeen == v.feedPos == v.pos == 1
    ensures Delivered(v, map[A := 2], 2, 0) == v.(pending := Holding(2), maxSeen := 2, feedPos := 2, pos := 2)
  {
    GreatestOfOne(A, 2);
    assert A in Holding(1);
    assert Deliver(Holding(1), map[A := 2], 0) == Holding(2);
  }

  const TAKEN := Caught(Holding(1), 1, Waiting(A_1), Catching(NO_JOB), false)

  /** "a" is written again; its change supersedes the one taken. */
  lemma WrittenAgain()
    ensures Reaches(REST, One(2, B3, TAKEN, 1, 0), NO_SLIP)
  {
    WorkWaits();
    Write(REST, One(1, B1, TAKEN, 1, 0), "a", NO_SLIP);
    assert WriteDoc(B1, "a", 2) == B3;
  }

  lemma FetchedAgain()
    ensures Reaches(REST, One(2, B3, TAKEN, 1, 0).(page := Some(Page(1, 2, map["v" := map[A := 2]]))), NO_SLIP)
  {
    WrittenAgain();
    RowsOfOneWrite(B1, 1);
    assert WriteDoc(B1, "a", 2) == B3;
    FetchPage(REST, One(2, B3, TAKEN, 1, 0), 2, map[A := 2], NO_SLIP);
  }

  lemma HandedOverAgain()
    ensures Reaches(REST, One(2, B3, Caught(Holding(2), 2, Waiting(A_1), Catching(NO_JOB), false), 2, 0), NO_SLIP)
  {
    FetchedAgain();
    var v' := Caught(Holding(2), 2, Waiting(A_1), Catching(NO_JOB), false);
    NewerDelivered(TAKEN);
    DispatchPage(REST, One(2, B3, TAKEN, 1, 0).(page := Some(Page(1, 2, map["v" := map[A := 2]]))), v', One(2, B3, v', 2, 0), NO_SLIP);
  }

  lemma BuildMeasuresAgain()
    ensures Reaches(REST, One(2, B3, Caught(Holding(2), 2, Waiting(A_1), Ending(1), true), 2, 0), NO_SLIP)
  {
    HandedOverAgain();
    var v1 := Caught(Holding(2), 2, Waiting(A_1), Catching(NO_JOB), false);
    var v2 := Caught(Holding(2), 2, Waiting(A_1), Catching(NO_JOB), true);
    InOne(REST, 2, B3, 2, 0, v1, Lock, v2, NO_SLIP);
    LowWaterOfHolding(2, 2, 0);
    InOne(REST, 2, B3, 2, 0, v2, Measure, Caught(Holding(2), 2, Waiting(A_1), Ending(1), true), NO_SLIP);
  }

  const SWAPPED := Vault(X0, 1, Built, true, Holding(2), 2, 2, 1, Waiting(A_1), NoBuild, 2)

  /** The new index records 1, below the change that waits; it holds "a" at 0. */
  lemma BuildRecords()
    ensures Reaches(REST, One(2, B3, SWAPPED, 2, 0), NO_SLIP)
  {
    BuildMeasuresAgain();
    InOne(REST, 2, B3, 2, 0, Caught(Holding(2), 2, Waiting(A_1), Ending(1), true), Finish, SWAPPED, NO_SLIP);
  }

  lemma SkipsNext(t: Peer, v: Vault)
    requires t.vaults.Keys == t.src.Keys == {"v"} && t.vaults["v"] == v
    requires v.unit.Waiting? && A in v.unit.work && v.unit.work[A] == 1 <= v.applied && v.rows == X0
    requires !(v.build.Building? && v.build.locked)
    ensures SkipsUnindexed(t, "v", "a")
  {
    assert X0["a"].version == 0;
  }

  /** A built index at 0, a unit about to skip stamp 1, and stamp 2 waiting. */
  lemma SkipsASupersededChange() returns (s: Peer, run: seq<PeerAction>, t: Peer)
    ensures AtRest(s) && OrderlyRun(s, run, t, "v")
    ensures SkipsUnindexed(t, "v", "a") && t.vaults["v"].mode.Built? && Superseded(t.vaults["v"], A)
  {
    s, t := REST, One(2, B3, SWAPPED, 2, 0);
    Rests(NO_SLIP);
    BuildRecords();
    assert A in A_1 && A in Holding(2);
    SkipsNext(t, SWAPPED);
    run := InOrderUpTo(s, t);
  }

  // ── While a build makes the next index ──

  function Old(recorded: nat, pending: Queue, pos: nat, unit: Unit, build: Build): Vault {
    Vault(X0, recorded, Beside, true, pending, pos, pos, recorded, unit, build, pos)
  }

  function Begun(stage: Stage, replay: set<Resource>): Build {
    Building(1, stage, map[], replay, false)
  }

  lemma ChangeBeforeBuild()
    ensures Reaches(REST, One(1, B1, Old(0, Holding(1), 1, Idle, NoBuild), 1, 0), NO_SLIP)
  {
    BuildBegins(NO_SLIP);
    var v := Forgotten(Indexed(X0, 0), 0).(mode := Beside);
    InOne(REST, 0, B0, 0, 0, v, Check(true), Old(0, map[], 0, Idle, NoBuild), NO_SLIP);
    WriteArrives(REST, 0, B0, Old(0, map[], 0, Idle, NoBuild), 0, NO_SLIP);
    assert WriteDoc(B0, "a", 1) == B1;
    assert Waits(Old(0, map[], 0, Idle, NoBuild), 1) == Old(0, Holding(1), 1, Idle, NoBuild);
  }

  /** The build will read "a": its change is dropped. */
  lemma BuildTakesOver()
    ensures Reaches(REST, One(1, B1, Old(0, map[], 1, Idle, Begun(Opened, {})), 1, 0), NO_SLIP)
  {
    ChangeBeforeBuild();
    assert After(Holding(1), 1) == map[];
    InOne(REST, 1, B1, 1, 0, Old(0, Holding(1), 1, Idle, NoBuild), BuildStart, Old(0, map[], 1, Idle, Begun(Opening, {})), NO_SLIP);
    InOne(REST, 1, B1, 1, 0, Old(0, map[], 1, Idle, Begun(Opening, {})), BuildOpen(false), Old(0, map[], 1, Idle, Begun(Opened, {})), NO_SLIP);
  }

  const TREE_AT_2: Queue := map[Tree := Pending(2, 0, 0)]

  const BEGUN := Old(0, map[], 1, Idle, Begun(Opened, {}))

  lemma TreeIsWritten()
    ensures Reaches(REST, One(2, B2, BEGUN, 1, 0), NO_SLIP)
  {
    BuildTakesOver();
    var t, t1 := One(1, B1, BEGUN, 1, 0), One(2, B2, BEGUN, 1, 0);
    assert t.src["v" := B2] == t1.src;
    Do(REST, t, WritesTree("v", TA), t1, NO_SLIP);
  }

  lemma RowOfTree()
    ensures RowsBetween(B2, 1, 2) == TREE_2
  {}

  lemma TreeIsFetched()
    ensures Reaches(REST, One(2, B2, BEGUN, 1, 0).(page := Some(IN_FLIGHT)), NO_SLIP)
  {
    TreeIsWritten();
    RowOfTree();
    FetchPage(REST, One(2, B2, BEGUN, 1, 0), 2, TREE_2, NO_SLIP);
  }

  lemma TreeHandedOver()
    ensures Reaches(REST, One(2, B2, Old(0, TREE_AT_2, 2, Idle, Begun(Opened, {})), 2, 0), NO_SLIP)
  {
    TreeIsFetched();
    var v' := Old(0, TREE_AT_2, 2, Idle, Begun(Opened, {}));
    GreatestOfOne(Tree, 2);
    assert Deliver(map[], TREE_2, 0) == TREE_AT_2;
    DispatchPage(REST, One(2, B2, BEGUN, 1, 0).(page := Some(IN_FLIGHT)), v', One(2, B2, v', 2, 0), NO_SLIP);
  }

  /** A step inside the vault. */
  lemma Then(v: Vault, a: Action, v': Vault)
    requires Reaches(REST, One(2, B2, v, 2, 0), NO_SLIP)
    requires Enabled(v, a) && (a.WriteRows? ==> StageShape(v.build.stage)) && Step(v, B2, 0, a) == v'
    ensures Reaches(REST, One(2, B2, v', 2, 0), NO_SLIP)
  {
    InOne(REST, 2, B2, 2, 0, v, a, v', NO_SLIP);
  }

  lemma TreeUnitStarts()
    ensures Reaches(REST, One(2, B2, Old(0, TREE_AT_2, 2, Running(TREE_2, Job({}, GotTree(TA, 2), map[], map[])), Begun(Opened, {})), 2, 0), NO_SLIP)
  {
    TreeHandedOver();
    var bd := Begun(Opened, {});
    assert Tree in TREE_2;
    Then(Old(0, TREE_AT_2, 2, Idle, bd), Take(TREE_2), Old(0, TREE_AT_2, 2, Waiting(TREE_2), bd));
    TreeAlone(2);
    assert NotApplied(TREE_2, 0) == TREE_2 && Settle(TREE_AT_2, Applied(TREE_2, 0)) == TREE_AT_2;
    var v2 := Old(0, TREE_AT_2, 2, Running(TREE_2, Job({}, NeedTree, map[], map[])), bd);
    Then(Old(0, TREE_AT_2, 2, Waiting(TREE_2), bd), StartUnit(false), v2);
    Then(v2, UnitStep(ReadTree), Old(0, TREE_AT_2, 2, Running(TREE_2, Job({}, GotTree(TA, 2), map[], map[])), bd));
  }

  /** A step of the unit that changes no row. */
  lemma UnitThen(j: Job, a: JobAction, j': Job)
    requires Reaches(REST, One(2, B2, Old(0, TREE_AT_2, 2, Running(TREE_2, j), Begun(Opened, {})), 2, 0), NO_SLIP)
    requires JobEnabled(X0, j, a) && JobStep(X0, j, B2, a) == (X0, j')
    ensures Reaches(REST, One(2, B2, Old(0, TREE_AT_2, 2, Running(TREE_2, j'), Begun(Opened, {})), 2, 0), NO_SLIP)
  {
    Then(Old(0, TREE_AT_2, 2, Running(TREE_2, j), Begun(Opened, {})), UnitStep(a), Old(0, TREE_AT_2, 2, Running(TREE_2, j'), Begun(Opened, {})));
  }

  lemma NothingMoves()
    ensures JobStep(X0, Job({}, GotTree(TA, 2), map[], map[]), B2, ApplyTree) == (X0, Job({}, LookUp, map[], map[]))
    ensures JobStep(X0, Job({}, LookUp, map[], map[]), B2, LookUpDocs) == (X0, NO_JOB)
  {
    assert Rearranged(X0, TA, X0.Keys) == X0;
  }

  lemma TreeUnitRuns()
    ensures Reaches(REST, One(2, B2, Old(0, TREE_AT_2, 2, Running(TREE_2, NO_JOB), Begun(Opened, {})), 2, 0), NO_SLIP)
  {
    TreeUnitStarts();
    NothingMoves();
    UnitThen(Job({}, GotTree(TA, 2), map[], map[]), ApplyTree, Job({}, LookUp, map[], map[]));
    UnitThen(Job({}, LookUp, map[], map[]), LookUpDocs, NO_JOB);
  }

  /** Nothing waits: the old index claims everything up to 2. */
  lemma OldIndexClaims()
    ensures Reaches(REST, One(2, B2, Old(2, map[], 2, Idle, Begun(Opened, {Tree})), 2, 0), NO_SLIP)
  {
    TreeUnitRuns();
    assert Settle(TREE_AT_2, TREE_2) == map[];
    assert {} + TREE_2.Keys == {Tree};
    var v1 := Old(0, map[], 2, Sealing(2), Begun(Opened, {Tree}));
    Then(Old(0, TREE_AT_2, 2, Running(TREE_2, NO_JOB), Begun(Opened, {})), UnitDone, v1);
    Then(v1, Seal, Old(2, map[], 2, Idle, Begun(Opened, {Tree})));
  }

  /** Another shard dies: the feed is rewound for all. */
  lemma FeedRewound()
    ensures Reaches(REST, One(2, B2, Old(2, map[], 2, Idle, Begun(Opened, {Tree})), 0, 0), NO_SLIP)
  {
    OldIndexClaims();
    var v := Old(2, map[], 2, Idle, Begun(Opened, {Tree}));
    var t := One(2, B2, v, 2, 0);
    assert PeerStep(t, ShardFails({})).vaults == t.vaults;
    Do(REST, t, ShardFails({}), t.(rewindTo := Some(0)), NO_SLIP);
    Rewind(REST, t.(rewindTo := Some(0)), NO_SLIP);
  }

  const REWOUND := Old(2, map[], 2, Idle, Begun(Opened, {Tree}))

  lemma FetchedOnceMore()
    ensures Reaches(REST, One(2, B2, REWOUND, 0, 0).(page := Some(Page(0, 2, map["v" := BOTH]))), NO_SLIP)
  {
    FeedRewound();
    BothRowsAgain();
    FetchPage(REST, One(2, B2, REWOUND, 0, 0), 2, BOTH, NO_SLIP);
  }

  lemma ReadOnceMore()
    ensures Reaches(REST, One(2, B2, Old(2, BOTH_WAIT, 2, Idle, Begun(Opened, {Tree})), 2, 0), NO_SLIP)
  {
    FetchedOnceMore();
    var v' := Old(2, BOTH_WAIT, 2, Idle, Begun(Opened, {Tree}));
    BothDelivered(REWOUND);
    DispatchPage(REST, One(2, B2, REWOUND, 0, 0).(page := Some(Page(0, 2, map["v" := BOTH]))), v', One(2, B2, v', 2, 0), NO_SLIP);
  }

  const ABOUT := Old(2, BOTH_WAIT, 2, Waiting(BOTH), Begun(Opened, {Tree}))

  lemma BothTakenAgain()
    ensures Reaches(REST, One(2, B2, ABOUT, 2, 0), NO_SLIP)
  {
    ReadOnceMore();
    assert A in BOTH;
    Then(Old(2, BOTH_WAIT, 2, Idle, Begun(Opened, {Tree})), Take(BOTH), ABOUT);
  }

  /** The old index has never reflected stamp 1, and nothing newer waits: it is the build that will. */
  lemma SkipsBesideABuild() returns (s: Peer, run: seq<PeerAction>, t: Peer)
    ensures AtRest(s) && OrderlyRun(s, run, t, "v")
    ensures SkipsUnindexed(t, "v", "a") && t.vaults["v"].build.Building? && !Superseded(t.vaults["v"], A)
  {
    s, t := REST, One(2, B2, ABOUT, 2, 0);
    Rests(NO_SLIP);
    BothTakenAgain();
    assert A in BOTH && A in BOTH_WAIT;
    SkipsNext(t, ABOUT);
    run := InOrderUpTo(s, t);
  }
}
