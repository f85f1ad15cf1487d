/**
 * Each circumstance that `Orderly` rules out (a late registration, a save over
 * a rewind, a crash, the death of a shard, with a page in flight or without) is
 * needed: without it there is a run, from a peer at rest, after which the index
 * lacks a change that nothing announces any more.
 */
module PeerCounterexamples {
  import opened Common
  import opened ChangeQueue
  import opened IndexJob
  import opened VaultMachine
  import opened VaultSafety
  import opened PeerMachine
  import opened PeerTheorems

  ghost predicate InOrder(s: Peer, a: PeerAction)
    requires PeerEnabled(s, a)
  {
    forall id :: id in s.vaults && id in s.src ==> Orderly(s, a, id)
  }

  /** A run in order but for the steps `slip`. */
  ghost predicate RunBut(s: Peer, run: seq<PeerAction>, t: Peer, slip: PeerAction)
    decreases |run|
  {
    if run == [] then s == t else
      && PeerEnabled(s, run[0]) && (InOrder(s, run[0]) || run[0] == slip)
      && RunBut(PeerStep(s, run[0]), run[1..], t, slip)
  }

  ghost predicate Reaches(s: Peer, t: Peer, slip: PeerAction) {
    exists run :: RunBut(s, run, t, slip)
  }

  lemma {:induction false} Extend(s: Peer, run: seq<PeerAction>, t: Peer, a: PeerAction, slip: PeerAction)
    requires RunBut(s, run, t, slip) && PeerEnabled(t, a) && (InOrder(t, a) || a == slip)
    ensures RunBut(s, run + [a], PeerStep(t, a), slip)
    decreases |run|
  {
    if run == [] {
      assert (run + [a])[1..] == [];
    } else {
      Extend(PeerStep(s, run[0]), run[1..], t, a, slip);
      assert (run + [a])[1..] == run[1..] + [a];
    }
  }

  /** Never a slip: a failed fetch is always in order. */
  const NO_SLIP := FetchFails

  lemma {:induction false} InOrderThroughout(s: Peer, run: seq<PeerAction>, t: Peer, id: VaultId)
    requires RunBut(s, run, t, NO_SLIP) && id in s.vaults && id in s.src
    ensures OrderlyRun(s, run, t, id)
    decreases |run|
  {
    if run != [] {
      assert Orderly(s, run[0], id);
      InOrderThroughout(PeerStep(s, run[0]), run[1..], t, id);
    }
  }

  /** Everything indexed, everything read, everything saved. */
  ghost predicate AtRest(s: Peer) {
    && (forall id :: id in s.vaults ==> PeerInv(s, id))
    && s.cursor == s.persisted == s.clock && s.page.None? && s.rewindTo.None? && s.saving.None?
    && forall id :: id in s.vaults ==> Quiet(s.vaults[id]) && s.vaults[id].rows == FromScratch(s.src[id])
  }

  predicate Quiet(v: Vault) {
    v.mode.Built? && v.checked && v.unit.Idle? && v.build.NoBuild? && v.pending == map[]
  }

  /** Nothing left to read, nothing waiting, and an index behind the backend. */
  ghost predicate Lost(s: Peer, id: VaultId) {
    && id in s.vaults && id in s.src && Quiet(s.vaults[id])
    && s.cursor == s.clock && s.page.None? && s.rewindTo.None?
    && s.vaults[id].rows != FromScratch(s.src[id])
  }

  function Indexed(rows: Rows, stamp: nat): Vault {
    Vault(rows, stamp, Built, true, map[], stamp, stamp, stamp, Idle, NoBuild, stamp)
  }

  function Resting(b: Source, rows: Rows, stamp: nat): Peer {
    Peer(stamp, 0, map["v" := b], map["v" := Indexed(rows, stamp)], stamp, stamp, None, None, None)
  }

  const P := Path("n.md", "md")

  lemma RestingIsAtRest(b: Source, rows: Rows, stamp: nat)
    requires b.tree.Keys <= b.docs.Keys && rows == FromScratch(b) && b.treeStamp <= stamp
    requires forall d :: d in b.docs ==> b.docs[d] <= stamp
    ensures AtRest(Resting(b, rows, stamp))
  {
    var s := Resting(b, rows, stamp);
    assert Paths(rows) == b.tree;
    assert Paths(rows) == Named(b);
    assert PeerInv(s, "v");
  }

  // ── Runs of a peer with one vault ──

  function One(clock: nat, b: Source, v: Vault, cursor: nat, persisted: nat): Peer {
    Peer(clock, 0, map["v" := b], map["v" := v], cursor, persisted, None, None, None)
  }

  lemma Begin(s: Peer, slip: PeerAction)
    ensures Reaches(s, s, slip)
  {
    assert RunBut(s, [], s, slip);
  }

  lemma Do(s: Peer, t: Peer, a: PeerAction, t': Peer, slip: PeerAction)
    requires Reaches(s, t, slip) && PeerEnabled(t, a) && (InOrder(t, a) || a == slip) && PeerStep(t, a) == t'
    ensures Reaches(s, t', slip)
  {
    var run :| RunBut(s, run, t, slip);
    Extend(s, run, t, a, slip);
    assert RunBut(s, run + [a], t', slip);
  }

  /** A page is read from the backend. */
  lemma FetchPage(s: Peer, t: Peer, last: nat, rows: Work, slip: PeerAction)
    requires Reaches(s, t, slip) && t.page.None? && t.rewindTo.None? && t.cursor <= last <= t.clock
    requires t.src.Keys == t.vaults.Keys == {"v"} && rows == RowsBetween(t.src["v"], t.cursor, last)
    ensures Reaches(s, t.(page := Some(Page(t.cursor, last, map["v" := rows]))), slip)
  {
    var pg := Page(t.cursor, last, map["v" := rows]);
    assert PeerStep(t, Fetches(last)).page.value.rows == pg.rows;
    Do(s, t, Fetches(last), t.(page := Some(pg)), slip);
  }

  /** A page is dispatched. */
  lemma DispatchPage(s: Peer, t: Peer, v': Vault, t': Peer, slip: PeerAction)
    requires Reaches(s, t, slip) && t.page.Some? && t.vaults.Keys == {"v"} && t.page.value.rows.Keys == {"v"}
    requires v' == Delivered(t.vaults["v"], t.page.value.rows["v"], t.page.value.last, t.now)
    requires t' == t.(vaults := map["v" := v'], page := None,
                      cursor := if t.rewindTo.None? then Max(t.cursor, t.page.value.last) else t.cursor)
    ensures Reaches(s, t', slip)
  {
    assert PeerStep(t, Dispatches).vaults == t'.vaults;
    Do(s, t, Dispatches, t', slip);
  }

  lemma In(s: Peer, t: Peer, a: Action, v': Vault, slip: PeerAction)
    requires Reaches(s, t, slip) && t.vaults.Keys == {"v"} && PeerEnabled(t, Inside("v", a))
    requires v' == Step(t.vaults["v"], t.src["v"], t.now, a)
    ensures Reaches(s, t.(vaults := map["v" := v']), slip)
  {
    assert t.vaults["v" := v'] == map["v" := v'];
    Do(s, t, Inside("v", a), t.(vaults := map["v" := v']), slip);
  }

  lemma Write(s: Peer, t: Peer, d: DocId, slip: PeerAction)
    requires Reaches(s, t, slip) && t.src.Keys == t.vaults.Keys == {"v"} && d in t.src["v"].docs
    ensures Reaches(s, t.(clock := t.clock + 1, src := map["v" := WriteDoc(t.src["v"], d, t.clock + 1)]), slip)
  {
    var b := WriteDoc(t.src["v"], d, t.clock + 1);
    assert t.src["v" := b] == map["v" := b];
    Do(s, t, Writes("v", d), t.(clock := t.clock + 1, src := map["v" := b]), slip);
  }

  lemma Rewrite(s: Peer, t: Peer, tree: DocTree, slip: PeerAction)
    requires Reaches(s, t, slip) && t.src.Keys == t.vaults.Keys == {"v"}
    requires PeerEnabled(t, WritesTree("v", tree)) && InOrder(t, WritesTree("v", tree))
    ensures Reaches(s, t.(clock := t.clock + 1, src := map["v" := WriteTree(t.src["v"], tree, t.clock + 1)]), slip)
  {
    var b := WriteTree(t.src["v"], tree, t.clock + 1);
    assert t.src["v" := b] == map["v" := b];
    Do(s, t, WritesTree("v", tree), t.(clock := t.clock + 1, src := map["v" := b]), slip);
  }

  lemma Save(s: Peer, t: Peer, slip: PeerAction)
    requires Reaches(s, t, slip) && t.saving.None? && (t.rewindTo.None? || slip == SaveStarts)
    ensures Reaches(s, t.(persisted := SafePosition(t.cursor, t.vaults)), slip)
  {
    Do(s, t, SaveStarts, t.(saving := Some(t.cursor)), slip);
    Do(s, t.(saving := Some(t.cursor)), SaveEnds, t.(persisted := SafePosition(t.cursor, t.vaults)), slip);
  }

  lemma Crash(s: Peer, t: Peer, slip: PeerAction)
    requires Reaches(s, t, slip) && t.vaults.Keys == {"v"}
    requires slip == Crashes || SafeToForget(t.vaults["v"], t.persisted)
    ensures Reaches(s, t.(vaults := map["v" := Forgotten(t.vaults["v"], t.persisted)], cursor := t.persisted,
                          rewindTo := None, page := None, saving := None), slip)
  {
    var t' := t.(vaults := map["v" := Forgotten(t.vaults["v"], t.persisted)], cursor := t.persisted,
                 rewindTo := None, page := None, saving := None);
    assert PeerStep(t, Crashes).vaults == t'.vaults;
    Do(s, t, Crashes, t', slip);
  }

  lemma Fail(s: Peer, t: Peer, slip: PeerAction)
    requires Reaches(s, t, slip) && t.vaults.Keys == {"v"}
    requires slip == ShardFails({"v"}) || (t.page.None? && SafeToForget(t.vaults["v"], t.persisted))
    ensures Reaches(s, t.(vaults := map["v" := Forgotten(t.vaults["v"], t.persisted)], rewindTo := Some(t.persisted), saving := None), slip)
  {
    var t' := t.(vaults := map["v" := Forgotten(t.vaults["v"], t.persisted)], rewindTo := Some(t.persisted), saving := None);
    assert PeerStep(t, ShardFails({"v"})).vaults == t'.vaults;
    Do(s, t, ShardFails({"v"}), t', slip);
  }

  lemma Rewind(s: Peer, t: Peer, slip: PeerAction)
    requires Reaches(s, t, slip) && t.page.None? && t.rewindTo.Some?
    ensures Reaches(s, t.(cursor := Min(t.cursor, t.rewindTo.value), rewindTo := None), slip)
  {
    Do(s, t, Rewinds, t.(cursor := Min(t.cursor, t.rewindTo.value), rewindTo := None), slip);
  }

  const A := Doc("a")
  const B0 := Source(map["a" := P], 0, map["a" := 0])
  const B1 := Source(map["a" := P], 0, map["a" := 1])
  const X0: Rows := map["a" := Row(P, 0, "md")]

  function Holding(stamp: nat): Queue { map[A := Pending(stamp, 0, 0)] }

  lemma DeliveredOne(v: Vault, stamp: nat, last: nat)
    requires v.pending == map[]
    ensures Delivered(v, map[A := stamp], last, 0)
         == v.(pending := Holding(stamp), maxSeen := Max(v.maxSeen, stamp), feedPos := Max(v.feedPos, last), pos := Max(v.pos, last))
  {
    assert Deliver(v.pending, map[A := stamp], 0) == Holding(stamp);
    var rows: Work := map[A := stamp];
    assert rows[A] == stamp;
  }

  function Waits(v: Vault, stamp: nat): Vault {
    v.(pending := Holding(stamp), maxSeen := Max(v.maxSeen, stamp), feedPos := Max(v.feedPos, stamp), pos := Max(v.pos, stamp))
  }

  lemma RowsOfOneWrite(b: Source, last: nat)
    requires b.treeStamp <= last && forall d :: d in b.docs ==> b.docs[d] <= last
    ensures RowsBetween(WriteDoc(b, "a", last + 1), last, last + 1) == map[A := last + 1]
  {
    var b' := WriteDoc(b, "a", last + 1);
    assert A in Resources(b') by { assert "a" in b'.docs; }
  }

  /** "a" is written, and its row read from the feed and handed over. */
  lemma WriteArrives(s: Peer, last: nat, b: Source, v: Vault, saved: nat, slip: PeerAction)
    requires Reaches(s, One(last, b, v, last, saved), slip) && v.pending == map[] && "a" in b.docs
    requires b.treeStamp <= last && forall d :: d in b.docs ==> b.docs[d] <= last
    ensures Reaches(s, One(last + 1, WriteDoc(b, "a", last + 1), Waits(v, last + 1), last + 1, saved), slip)
  {
    Write(s, One(last, b, v, last, saved), "a", slip);
    var b' := WriteDoc(b, "a", last + 1);
    var t1 := One(last + 1, b', v, last, saved);
    RowsOfOneWrite(b, last);
    FetchPage(s, t1, last + 1, map[A := last + 1], slip);
    DeliveredOne(v, last + 1, last + 1);
    DispatchPage(s, t1.(page := Some(Page(last, last + 1, map["v" := map[A := last + 1]]))), Waits(v, last + 1),
                 One(last + 1, b', Waits(v, last + 1), last + 1, saved), slip);
  }

  /** A peer at rest that has indexed "a". */
  const REST := Resting(B0, X0, 0)

  lemma Rests(slip: PeerAction)
    ensures AtRest(REST) && Reaches(REST, One(0, B0, Indexed(X0, 0), 0, 0), slip)
  {
    RestingIsAtRest(B0, X0, 0);
    Begin(REST, slip);
  }

  /** From rest, "a" is written and its change handed over. */
  lemma WrittenAndHandedOver(slip: PeerAction)
    ensures Reaches(REST, One(1, B1, Waits(Indexed(X0, 0), 1), 1, 0), slip)
  {
    Rests(slip);
    WriteArrives(REST, 0, B0, Indexed(X0, 0), 0, slip);
    assert WriteDoc(B0, "a", 1) == B1;
  }

  /** A shard dies, its pending changes with it; `persist` runs before the feed is rewound. */
  lemma SaveBeforeRewind() returns (s: Peer, t: Peer)
    ensures AtRest(s) && Reaches(s, t, SaveStarts) && Lost(t, "v")
  {
    s := REST;
    WrittenAndHandedOver(SaveStarts);
    Fail(s, One(1, B1, Waits(Indexed(X0, 0), 1), 1, 0), SaveStarts);
    var t1 := One(1, B1, Forgotten(Indexed(X0, 0), 0), 1, 0).(rewindTo := Some(0));
    Save(s, t1, SaveStarts);
    assert LeastWaiting(t1.vaults).None?;
    SavedTooFar(s, t1.(persisted := 1));
    t := One(1, B1, TOO_FAR, 1, 1);
    BehindB1();
    Rests(SaveStarts);
  }

  const TOO_FAR := Checked(Forgotten(Indexed(X0, 0), 1), true)

  lemma SavedTooFar(s: Peer, t: Peer)
    requires Reaches(s, t, SaveStarts)
    requires t == One(1, B1, Forgotten(Indexed(X0, 0), 0), 1, 1).(rewindTo := Some(0))
    ensures Reaches(s, One(1, B1, TOO_FAR, 1, 1), SaveStarts)
  {
    Rewind(s, t, SaveStarts);
    Crash(s, t.(cursor := 0, rewindTo := None), SaveStarts);
    var t4 := One(1, B1, Forgotten(Indexed(X0, 0), 1), 1, 1);
    In(s, t4, Check(true), TOO_FAR, SaveStarts);
  }

  lemma BehindB1()
    ensures X0 != FromScratch(B1)
  {
    assert FromScratch(B1)["a"] == Row(P, 1, "md");
  }

  // ── A crash just after a build ──

  function BuildingA(stage: Stage, target: Rows, pending: Queue, pos: nat, locked: bool): Vault {
    Vault(X0, 0, Beside, true, pending, pos, pos, 0, Idle, Building(0, stage, target, {}, locked), pos)
  }

  const TA: DocTree := map["a" := P]

  /** A step inside the only vault of a peer that is neither polling nor saving. */
  lemma InOne(s: Peer, clock: nat, b: Source, at: nat, saved: nat, v: Vault, a: Action, v': Vault, slip: PeerAction)
    requires Reaches(s, One(clock, b, v, at, saved), slip)
    requires Enabled(v, a) && (a.WriteRows? ==> StageShape(v.build.stage)) && Step(v, b, 0, a) == v'
    ensures Reaches(s, One(clock, b, v', at, saved), slip)
  {
    In(s, One(clock, b, v, at, saved), a, v', slip);
  }

  /** Restarted, the index is found to need a rebuild. */
  lemma BuildBegins(slip: PeerAction)
    ensures Reaches(REST, One(0, B0, Forgotten(Indexed(X0, 0), 0).(mode := Beside), 0, 0), slip)
  {
    Rests(slip);
    Crash(REST, One(0, B0, Indexed(X0, 0), 0, 0), slip);
    FoundOld(REST, Forgotten(Indexed(X0, 0), 0), slip);
  }

  lemma FoundOld(s: Peer, v: Vault, slip: PeerAction)
    requires Reaches(s, One(0, B0, v, 0, 0), slip) && v.mode.Built? && !v.checked
    ensures Reaches(s, One(0, B0, v.(mode := Beside), 0, 0), slip)
  {
    var v' := v.(mode := Beside);
    var t := One(0, B0, v, 0, 0);
    assert t.vaults["v" := v'] == map["v" := v'];
    Do(s, t, FoundUnfit("v", Beside, false), One(0, B0, v', 0, 0), slip);
  }

  const READ_A := Reading(TA, 0, TA, map["a" := Asked(0, 0)], map["a" := Some(0)])

  lemma BuildOpens(slip: PeerAction)
    ensures Reaches(REST, One(0, B0, BuildingA(Opened, map[], map[], 0, false), 0, 0), slip)
  {
    BuildBegins(slip);
    var v := Forgotten(Indexed(X0, 0), 0).(mode := Beside);
    InOne(REST, 0, B0, 0, 0, v, Check(true), v.(checked := true), slip);
    InOne(REST, 0, B0, 0, 0, v.(checked := true), BuildStart, BuildingA(Opening, map[], map[], 0, false), slip);
    InOne(REST, 0, B0, 0, 0, BuildingA(Opening, map[], map[], 0, false), BuildOpen(false),
          BuildingA(Opened, map[], map[], 0, false), slip);
  }

  lemma TreeIsRead(slip: PeerAction)
    ensures Reaches(REST, One(0, B0, BuildingA(Reading(TA, 0, TA, map[], map[]), map[], map[], 0, false), 0, 0), slip)
  {
    BuildOpens(slip);
    var v1 := BuildingA(TreeAsked(0, 0), map[], map[], 0, false);
    InOne(REST, 0, B0, 0, 0, BuildingA(Opened, map[], map[], 0, false), AskTree, v1, slip);
    var v2 := BuildingA(TreeRead(0, 0, TA, 0), map[], map[], 0, false);
    InOne(REST, 0, B0, 0, 0, v1, ReadTreeLog, v2, slip);
    InOne(REST, 0, B0, 0, 0, v2, UseTree, BuildingA(Reading(TA, 0, TA, map[], map[]), map[], map[], 0, false), slip);
  }

  lemma AskA(v1: Vault, v2: Vault)
    requires v1 == BuildingA(Reading(TA, 0, TA, map[], map[]), map[], map[], 0, false)
    requires v2 == BuildingA(Reading(TA, 0, TA, map["a" := Asked(0, 0)], map[]), map[], map[], 0, false)
    ensures Enabled(v1, AskDocs({"a"})) && Step(v1, B0, 0, AskDocs({"a"})) == v2
  {
    var st := v1.build.stage;
    forall d | d in {"a"} ensures d in st.toFetch.Keys - st.asked.Keys { assert "a" in TA; }
    assert DocsAsked(v1, B0, 0, {"a"}).build.stage.asked == map["a" := Asked(0, 0)];
  }

  lemma BuildReads(slip: PeerAction)
    ensures Reaches(REST, One(0, B0, BuildingA(READ_A, map[], map[], 0, false), 0, 0), slip)
  {
    TreeIsRead(slip);
    var v1 := BuildingA(Reading(TA, 0, TA, map[], map[]), map[], map[], 0, false);
    var v2 := BuildingA(Reading(TA, 0, TA, map["a" := Asked(0, 0)], map[]), map[], map[], 0, false);
    AskA(v1, v2);
    InOne(REST, 0, B0, 0, 0, v1, AskDocs({"a"}), v2, slip);
    InOne(REST, 0, B0, 0, 0, v2, ReadDocLog("a"), BuildingA(READ_A, map[], map[], 0, false), slip);
  }

  /** "a" is written after the build read it; the change waits. */
  lemma WrittenDuringBuild(slip: PeerAction)
    ensures Reaches(REST, One(1, B1, BuildingA(READ_A, map[], Holding(1), 1, false), 1, 0), slip)
  {
    BuildReads(slip);
    var v := BuildingA(READ_A, map[], map[], 0, false);
    WriteArrives(REST, 0, B0, v, 0, slip);
    assert WriteDoc(B0, "a", 1) == B1;
    assert Waits(v, 1) == BuildingA(READ_A, map[], Holding(1), 1, false);
  }

  lemma LowWaterOfHolding(stamp: nat, maxSeen: nat, floor: nat)
    requires 0 < stamp
    ensures LowWaterOf(Holding(stamp), maxSeen, floor) == Max(floor, Min(maxSeen, stamp - 1))
  {
    assert IsLeastStamp(Holding(stamp), stamp) by { assert A in Holding(stamp); }
    LeastStampUnique(Holding(stamp), stamp);
  }

  /** A vault being rebuilt does not hold the position back: it moves past the change. */
  lemma SavedDuringBuild(slip: PeerAction)
    ensures Reaches(REST, One(1, B1, BuildingA(READ_A, map[], Holding(1), 1, false), 1, 1), slip)
  {
    WrittenDuringBuild(slip);
    var v := BuildingA(READ_A, map[], Holding(1), 1, false);
    Save(REST, One(1, B1, v, 1, 0), slip);
    assert LeastWaiting(map["v" := v]).None?;
  }

  lemma WriteA(v1: Vault, v2: Vault)
    requires v1 == BuildingA(READ_A, map[], Holding(1), 1, false)
    requires v2 == BuildingA(Reading(TA, 0, map[], map[], map[]), X0, Holding(1), 1, false)
    ensures Enabled(v1, WriteRows({"a"})) && StageShape(v1.build.stage) && Step(v1, B1, 0, WriteRows({"a"})) == v2
  {
    assert Written(map[], Job({}, Phase.Fetch, TA, map["a" := Some(0)]), {"a"}) == X0;
  }

  lemma RowsOfBuild(slip: PeerAction)
    ensures Reaches(REST, One(1, B1, BuildingA(Catching(NO_JOB), X0, Holding(1), 1, false), 1, 1), slip)
  {
    SavedDuringBuild(slip);
    var v0 := BuildingA(READ_A, map[], Holding(1), 1, false);
    var v1 := BuildingA(Reading(TA, 0, map[], map[], map[]), X0, Holding(1), 1, false);
    WriteA(v0, v1);
    InOne(REST, 1, B1, 1, 1, v0, WriteRows({"a"}), v1, slip);
    assert Within(X0, TA) == X0;
    InOne(REST, 1, B1, 1, 1, v1, Prune, BuildingA(Catching(NO_JOB), X0, Holding(1), 1, false), slip);
  }

  lemma BuildMeasures(slip: PeerAction)
    ensures Reaches(REST, One(1, B1, BuildingA(Ending(0), X0, Holding(1), 1, true), 1, 1), slip)
  {
    RowsOfBuild(slip);
    var v1 := BuildingA(Catching(NO_JOB), X0, Holding(1), 1, false);
    var v2 := BuildingA(Catching(NO_JOB), X0, Holding(1), 1, true);
    InOne(REST, 1, B1, 1, 1, v1, Lock, v2, slip);
    LowWaterOfHolding(1, 1, 0);
    InOne(REST, 1, B1, 1, 1, v2, Measure, BuildingA(Ending(0), X0, Holding(1), 1, true), slip);
  }

  const JUST_BUILT := Vault(X0, 0, Built, true, Holding(1), 1, 1, 0, Idle, NoBuild, 1)

  /** The build ends, with the change still waiting. */
  lemma BuildEnds(slip: PeerAction)
    ensures Reaches(REST, One(1, B1, JUST_BUILT, 1, 1), slip)
  {
    BuildMeasures(slip);
    InOne(REST, 1, B1, 1, 1, BuildingA(Ending(0), X0, Holding(1), 1, true), Finish, JUST_BUILT, slip);
  }

  /** The peer stops before the next save. */
  lemma CrashAfterBuild() returns (s: Peer, t: Peer)
    ensures AtRest(s) && Reaches(s, t, Crashes) && Lost(t, "v")
  {
    s := REST;
    BuildEnds(Crashes);
    CrashedThen(s, JUST_BUILT);
    t := One(1, B1, TOO_FAR, 1, 1);
    BehindB1();
    Rests(Crashes);
  }

  lemma CrashedThen(s: Peer, v: Vault)
    requires v == JUST_BUILT && Reaches(s, One(1, B1, v, 1, 1), Crashes)
    ensures Reaches(s, One(1, B1, TOO_FAR, 1, 1), Crashes)
  {
    Crash(s, One(1, B1, v, 1, 1), Crashes);
    InOne(s, 1, B1, 1, 1, Forgotten(v, 1), Check(true), TOO_FAR, Crashes);
  }

  /** It is only the shard that stops: the feed is rewound to the saved position, which is too far. */
  lemma ShardDiesAfterBuild() returns (s: Peer, t: Peer)
    ensures AtRest(s) && Reaches(s, t, FAILS) && Lost(t, "v")
  {
    s := REST;
    BuildEnds(FAILS);
    RewoundInVain(s);
    t := One(1, B1, TOO_FAR, 1, 1);
    BehindB1();
    Rests(FAILS);
  }

  lemma RewoundInVain(s: Peer)
    requires Reaches(s, One(1, B1, JUST_BUILT, 1, 1), FAILS)
    ensures Reaches(s, One(1, B1, TOO_FAR, 1, 1), FAILS)
  {
    Fail(s, One(1, B1, JUST_BUILT, 1, 1), FAILS);
    Rewind(s, One(1, B1, Forgotten(JUST_BUILT, 1), 1, 1).(rewindTo := Some(1)), FAILS);
    InOne(s, 1, B1, 1, 1, Forgotten(JUST_BUILT, 1), Check(true), TOO_FAR, FAILS);
  }

  // ── A page in flight when a shard dies ──

  lemma InAmid(s: Peer, clock: nat, b: Source, at: nat, back: nat, v: Vault, a: Action, v': Vault, slip: PeerAction)
    requires Reaches(s, One(clock, b, v, at, 0).(rewindTo := Some(back)), slip)
    requires Enabled(v, a) && (a.WriteRows? ==> StageShape(v.build.stage)) && Step(v, b, 0, a) == v'
    ensures Reaches(s, One(clock, b, v', at, 0).(rewindTo := Some(back)), slip)
  {
    In(s, One(clock, b, v, at, 0).(rewindTo := Some(back)), a, v', slip);
  }

  const B2 := Source(TA, 2, map["a" := 1])
  const FAILS := ShardFails({"v"})

  function TreeWaiting(applied: nat, unit: Unit, pending: Queue): Vault {
    Vault(X0, applied, Built, true, pending, 2, 2, applied, unit, NoBuild, 2)
  }

  lemma PageTaken()
    ensures Reaches(REST, One(2, B2, Waits(Indexed(X0, 0), 1), 1, 0).(page := Some(Page(1, 2, map["v" := map[Tree := 2]]))), FAILS)
  {
    WrittenAndHandedOver(FAILS);
    var t := One(1, B1, Waits(Indexed(X0, 0), 1), 1, 0);
    var t1 := One(2, B2, Waits(Indexed(X0, 0), 1), 1, 0);
    assert t.src["v" := B2] == t1.src;
    Do(REST, t, WritesTree("v", TA), t1, FAILS);
    assert RowsBetween(B2, 1, 2) == map[Tree := 2];
    FetchPage(REST, t1, 2, map[Tree := 2], FAILS);
  }

  lemma GreatestOfOne(r: Resource, stamp: nat)
    ensures Greatest(map[r := stamp]) == stamp
  {
    var rows: Work := map[r := stamp];
    assert rows[r] == stamp;
  }

  const IN_FLIGHT := Page(1, 2, map["v" := map[Tree := 2]])

  lemma DiesMeanwhile()
    ensures Reaches(REST, One(2, B2, Forgotten(Waits(Indexed(X0, 0), 1), 0), 1, 0).(page := Some(IN_FLIGHT), rewindTo := Some(0)), FAILS)
  {
    PageTaken();
    Fail(REST, One(2, B2, Waits(Indexed(X0, 0), 1), 1, 0).(page := Some(IN_FLIGHT)), FAILS);
  }

  lemma PageLands()
    ensures Reaches(REST, One(2, B2, TreeWaiting(0, Idle, map[Tree := Pending(2, 0, 0)]), 1, 0).(rewindTo := Some(0)), FAILS)
  {
    DiesMeanwhile();
    var v1 := Forgotten(Waits(Indexed(X0, 0), 1), 0);
    var v2 := Vault(X0, 0, Built, false, map[Tree := Pending(2, 0, 0)], 2, 2, 0, Idle, NoBuild, 2);
    GreatestOfOne(Tree, 2);
    assert Deliver(v1.pending, map[Tree := 2], 0) == v2.pending;
    DispatchPage(REST, One(2, B2, v1, 1, 0).(page := Some(IN_FLIGHT), rewindTo := Some(0)), v2, One(2, B2, v2, 1, 0).(rewindTo := Some(0)), FAILS);
    InAmid(REST, 2, B2, 1, 0, v2, Check(true), TreeWaiting(0, Idle, v2.pending), FAILS);
  }

  const TREE_2: Work := map[Tree := 2]

  lemma TreeAlone(stamp: nat)
    ensures var work: Work := map[Tree := stamp]; StartJob(work.Keys, false) == Job({}, NeedTree, map[], map[])
  {
    var work: Work := map[Tree := stamp];
    assert Tree in work.Keys && DocsOf(work.Keys) == {};
  }

  lemma TreeUnitReads()
    ensures Reaches(REST, One(2, B2, TreeWaiting(0, Running(TREE_2, Job({}, GotTree(TA, 2), map[], map[])), map[Tree := Pending(2, 0, 0)]), 1, 0)
                         .(rewindTo := Some(0)), FAILS)
  {
    PageLands();
    var q: Queue := map[Tree := Pending(2, 0, 0)];
    var v1 := TreeWaiting(0, Waiting(TREE_2), q);
    assert Tree in TREE_2;
    InAmid(REST, 2, B2, 1, 0, TreeWaiting(0, Idle, q), Take(TREE_2), v1, FAILS);
    var v2 := TreeWaiting(0, Running(TREE_2, Job({}, NeedTree, map[], map[])), q);
    TreeAlone(2);
    assert NotApplied(TREE_2, 0) == TREE_2 && Settle(q, Applied(TREE_2, 0)) == q;
    InAmid(REST, 2, B2, 1, 0, v1, StartUnit(false), v2, FAILS);
    InAmid(REST, 2, B2, 1, 0, v2, UnitStep(ReadTree), TreeWaiting(0, Running(TREE_2, Job({}, GotTree(TA, 2), map[], map[])), q), FAILS);
  }

  lemma TreeUnitApplies()
    ensures Reaches(REST, One(2, B2, TreeWaiting(0, Running(TREE_2, NO_JOB), map[Tree := Pending(2, 0, 0)]), 1, 0).(rewindTo := Some(0)), FAILS)
  {
    TreeUnitReads();
    var q: Queue := map[Tree := Pending(2, 0, 0)];
    var j := Job({}, LookUp, map[], map[]);
    assert Rearranged(X0, TA, X0.Keys) == X0;
    InAmid(REST, 2, B2, 1, 0, TreeWaiting(0, Running(TREE_2, Job({}, GotTree(TA, 2), map[], map[])), q),
           UnitStep(ApplyTree), TreeWaiting(0, Running(TREE_2, j), q), FAILS);
    InAmid(REST, 2, B2, 1, 0, TreeWaiting(0, Running(TREE_2, j), q), UnitStep(LookUpDocs), TreeWaiting(0, Running(TREE_2, NO_JOB), q), FAILS);
  }

  /** The index now claims everything up to 2, though "a" at 1 was never applied. */
  lemma ClaimsTooMuch()
    ensures Reaches(REST, One(2, B2, TreeWaiting(2, Idle, map[]), 0, 0), FAILS)
  {
    TreeUnitApplies();
    var q: Queue := map[Tree := Pending(2, 0, 0)];
    var v1 := TreeWaiting(0, Sealing(2), map[]);
    assert Settle(q, TREE_2) == map[];
    InAmid(REST, 2, B2, 1, 0, TreeWaiting(0, Running(TREE_2, NO_JOB), q), UnitDone, v1, FAILS);
    InAmid(REST, 2, B2, 1, 0, v1, Seal, TreeWaiting(2, Idle, map[]), FAILS);
    Rewind(REST, One(2, B2, TreeWaiting(2, Idle, map[]), 1, 0).(rewindTo := Some(0)), FAILS);
  }

  const BOTH: Work := map[A := 1, Tree := 2]
  const BOTH_WAIT: Queue := map[A := Pending(1, 0, 0), Tree := Pending(2, 0, 0)]

  lemma BothRowsAgain()
    ensures RowsBetween(B2, 0, 2) == BOTH
  {
    assert "a" in B2.docs;
  }

  lemma BothDelivered(v: Vault)
    requires v.pending == map[] && v.maxSeen == v.feedPos == v.pos == 2
    ensures Delivered(v, BOTH, 2, 0) == v.(pending := BOTH_WAIT)
  {
    assert Greatest(BOTH) == 2 by { assert BOTH[Tree] == 2 && BOTH[A] == 1; }
    assert Deliver(v.pending, BOTH, 0) == BOTH_WAIT;
  }

  lemma ReadAgain()
    ensures Reaches(REST, One(2, B2, TreeWaiting(2, Idle, BOTH_WAIT), 2, 0), FAILS)
  {
    ClaimsTooMuch();
    var v := TreeWaiting(2, Idle, map[]);
    BothRowsAgain();
    FetchPage(REST, One(2, B2, v, 0, 0), 2, BOTH, FAILS);
    BothDelivered(v);
    DispatchPage(REST, One(2, B2, v, 0, 0).(page := Some(Page(0, 2, map["v" := BOTH]))), TreeWaiting(2, Idle, BOTH_WAIT),
                 One(2, B2, TreeWaiting(2, Idle, BOTH_WAIT), 2, 0), FAILS);
  }

  lemma BothTaken()
    ensures Reaches(REST, One(2, B2, TreeWaiting(2, Waiting(BOTH), BOTH_WAIT), 2, 0), FAILS)
  {
    ReadAgain();
    assert A in BOTH;
    InOne(REST, 2, B2, 2, 0, TreeWaiting(2, Idle, BOTH_WAIT), Take(BOTH), TreeWaiting(2, Waiting(BOTH), BOTH_WAIT), FAILS);
  }

  lemma BothSkipped()
    ensures UnitStarted(TreeWaiting(2, Waiting(BOTH), BOTH_WAIT), false) == TreeWaiting(2, Idle, map[])
  {
    assert NotApplied(BOTH, 2) == map[];
    assert Settle(BOTH_WAIT, Applied(BOTH, 2)) == map[];
  }

  /** The feed is read again from the start, and "a" is skipped as already applied. */
  lemma PageInFlight() returns (s: Peer, t: Peer)
    ensures AtRest(s) && Reaches(s, t, FAILS) && Lost(t, "v")
  {
    s := REST;
    Rests(FAILS);
    BothTaken();
    BothSkipped();
    InOne(s, 2, B2, 2, 0, TreeWaiting(2, Waiting(BOTH), BOTH_WAIT), StartUnit(false), TreeWaiting(2, Idle, map[]), FAILS);
    t := One(2, B2, TreeWaiting(2, Idle, map[]), 2, 0);
    BehindB2();
  }

  lemma BehindB2()
    ensures X0 != FromScratch(B2)
  {
    assert FromScratch(B2)["a"] == Row(P, 1, "md");
  }

  // ── A tree that names a document not registered yet ──

  const LATE := Registers("v", "a")
  const EMPTY := Source(map[], 0, map[])
  const C1 := Source(TA, 1, map[])
  const C2 := Source(TA, 1, map["a" := 2])

  function Bare(pos: nat, applied: nat, unit: Unit, pending: Queue): Vault {
    Vault(map[], applied, Built, true, pending, pos, pos, applied, unit, NoBuild, pos)
  }

  const TREE_1: Work := map[Tree := 1]

  const BARE := Resting(EMPTY, map[], 0)

  lemma RestsBare(slip: PeerAction)
    ensures AtRest(BARE) && Reaches(BARE, One(0, EMPTY, Bare(0, 0, Idle, map[]), 0, 0), slip)
  {
    RestingIsAtRest(EMPTY, map[], 0);
    Begin(BARE, slip);
  }

  lemma NamedEarly()
    ensures Reaches(BARE, One(1, C1, Bare(0, 0, Idle, map[]), 0, 0), LATE)
  {
    Begin(BARE, LATE);
    Rewrite(BARE, One(0, EMPTY, Bare(0, 0, Idle, map[]), 0, 0), TA, LATE);
  }

  lemma TreeDelivered()
    ensures Delivered(Bare(0, 0, Idle, map[]), TREE_1, 1, 0) == Bare(1, 0, Idle, map[Tree := Pending(1, 0, 0)])
  {
    assert Deliver(map[], TREE_1, 0) == map[Tree := Pending(1, 0, 0)];
    GreatestOfOne(Tree, 1);
  }

  lemma NamedFirst()
    ensures Reaches(BARE, One(1, C1, Bare(1, 0, Idle, map[Tree := Pending(1, 0, 0)]), 1, 0), LATE)
  {
    NamedEarly();
    var t1 := One(1, C1, Bare(0, 0, Idle, map[]), 0, 0);
    assert RowsBetween(C1, 0, 1) == TREE_1;
    FetchPage(BARE, t1, 1, TREE_1, LATE);
    TreeDelivered();
    var v' := Bare(1, 0, Idle, map[Tree := Pending(1, 0, 0)]);
    DispatchPage(BARE, t1.(page := Some(Page(0, 1, map["v" := TREE_1]))), v', One(1, C1, v', 1, 0), LATE);
  }

  lemma NamedTreeRead()
    ensures Reaches(BARE, One(1, C1, Bare(1, 0, Running(TREE_1, Job({}, GotTree(TA, 1), map[], map[])), map[Tree := Pending(1, 0, 0)]), 1, 0), LATE)
  {
    NamedFirst();
    var q: Queue := map[Tree := Pending(1, 0, 0)];
    var v1 := Bare(1, 0, Waiting(TREE_1), q);
    assert Tree in TREE_1;
    InOne(BARE, 1, C1, 1, 0, Bare(1, 0, Idle, q), Take(TREE_1), v1, LATE);
    var v2 := Bare(1, 0, Running(TREE_1, Job({}, NeedTree, map[], map[])), q);
    TreeAlone(1);
    assert NotApplied(TREE_1, 0) == TREE_1 && Settle(q, Applied(TREE_1, 0)) == q;
    InOne(BARE, 1, C1, 1, 0, v1, StartUnit(false), v2, LATE);
    InOne(BARE, 1, C1, 1, 0, v2, UnitStep(ReadTree), Bare(1, 0, Running(TREE_1, Job({}, GotTree(TA, 1), map[], map[])), q), LATE);
  }

  lemma NamedTreeApplied()
    ensures Reaches(BARE, One(1, C1, Bare(1, 0, Running(TREE_1, Job({}, Phase.Fetch, TA, map[])), map[Tree := Pending(1, 0, 0)]), 1, 0), LATE)
  {
    NamedTreeRead();
    var q: Queue := map[Tree := Pending(1, 0, 0)];
    var v2 := Bare(1, 0, Running(TREE_1, Job({}, LookUp, TA, map[])), q);
    AppliedToNothing(C1);
    InOne(BARE, 1, C1, 1, 0, Bare(1, 0, Running(TREE_1, Job({}, GotTree(TA, 1), map[], map[])), q), UnitStep(ApplyTree), v2, LATE);
    LookedUpInNothing(C1);
    InOne(BARE, 1, C1, 1, 0, v2, UnitStep(LookUpDocs), Bare(1, 0, Running(TREE_1, Job({}, Phase.Fetch, TA, map[])), q), LATE);
  }

  lemma AppliedToNothing(b: Source)
    ensures JobStep(map[], Job({}, GotTree(TA, 1), map[], map[]), b, ApplyTree) == (map[], Job({}, LookUp, TA, map[]))
  {
    var x: Rows := map[];
    assert Rearranged(x, TA, x.Keys) == map[];
    assert (map d | d in TA && !Survives(x, TA, d) :: TA[d]) == TA;
  }

  lemma LookedUpInNothing(b: Source)
    ensures JobStep(map[], Job({}, LookUp, TA, map[]), b, LookUpDocs) == (map[], Job({}, Phase.Fetch, TA, map[]))
  {
    var x: Rows := map[];
    var none: set<DocId> := {};
    assert TA + (map d | d in none && d in x :: x[d].path) == TA;
  }

  /** "a" is not there yet: it is taken for gone. */
  lemma TakenForGone()
    ensures Reaches(BARE, One(1, C1, Bare(1, 0, Running(TREE_1, NO_JOB), map[Tree := Pending(1, 0, 0)]), 1, 0), LATE)
  {
    NamedTreeApplied();
    var q: Queue := map[Tree := Pending(1, 0, 0)];
    var j1 := Job({}, Phase.Fetch, TA, map[]);
    var j2 := Job({}, Phase.Fetch, TA, map["a" := None]);
    InOne(BARE, 1, C1, 1, 0, Bare(1, 0, Running(TREE_1, j1), q), UnitStep(ReadDoc("a")), Bare(1, 0, Running(TREE_1, j2), q), LATE);
    assert Written(map[], j2, {"a"}) == map[];
    InOne(BARE, 1, C1, 1, 0, Bare(1, 0, Running(TREE_1, j2), q), UnitStep(WriteDocs({"a"})), Bare(1, 0, Running(TREE_1, NO_JOB), q), LATE);
  }

  lemma TreeSettled()
    ensures Reaches(BARE, One(1, C1, Bare(1, 1, Idle, map[]), 1, 0), LATE)
  {
    TakenForGone();
    var q: Queue := map[Tree := Pending(1, 0, 0)];
    assert Settle(q, TREE_1) == map[];
    InOne(BARE, 1, C1, 1, 0, Bare(1, 0, Running(TREE_1, NO_JOB), q), UnitDone, Bare(1, 0, Sealing(1), map[]), LATE);
    InOne(BARE, 1, C1, 1, 0, Bare(1, 0, Sealing(1), map[]), Seal, Bare(1, 1, Idle, map[]), LATE);
  }

  lemma RegisteredLate()
    ensures Reaches(BARE, One(2, C2, Waits(Bare(1, 1, Idle, map[]), 2), 2, 0), LATE)
  {
    TreeSettled();
    var v := Bare(1, 1, Idle, map[]);
    var r := Register(C1, "a");
    assert One(1, C1, v, 1, 0).src["v" := r] == map["v" := r];
    Do(BARE, One(1, C1, v, 1, 0), LATE, One(1, r, v, 1, 0), LATE);
    WriteArrives(BARE, 1, r, v, 0, LATE);
    assert WriteDoc(r, "a", 2) == C2;
  }

  const A_2: Work := map[A := 2]

  lemma LookedUpInVain()
    ensures Reaches(BARE, One(2, C2, Bare(2, 1, Running(A_2, Job({"a"}, LookUp, map[], map[])), Holding(2)), 2, 0), LATE)
  {
    RegisteredLate();
    var v := Bare(2, 1, Idle, Holding(2));
    assert Waits(Bare(1, 1, Idle, map[]), 2) == v;
    assert A in A_2;
    InOne(BARE, 2, C2, 2, 0, v, Take(A_2), Bare(2, 1, Waiting(A_2), Holding(2)), LATE);
    assert NotApplied(A_2, 1) == A_2 && Settle(Holding(2), Applied(A_2, 1)) == Holding(2);
    assert DocsOf(A_2.Keys) == {"a"} by { assert A in A_2; }
    InOne(BARE, 2, C2, 2, 0, Bare(2, 1, Waiting(A_2), Holding(2)), StartUnit(false),
          Bare(2, 1, Running(A_2, Job({"a"}, LookUp, map[], map[])), Holding(2)), LATE);
  }

  /** Its own change is then skipped as that of a document which is not indexed. */
  lemma UnregisteredDocument() returns (s: Peer, t: Peer)
    ensures AtRest(s) && Reaches(s, t, LATE) && Lost(t, "v")
  {
    s := BARE;
    RestsBare(LATE);
    LookedUpInVain();
    var v1 := Bare(2, 1, Running(A_2, NO_JOB), Holding(2));
    InOne(s, 2, C2, 2, 0, Bare(2, 1, Running(A_2, Job({"a"}, LookUp, map[], map[])), Holding(2)), UnitStep(LookUpDocs), v1, LATE);
    assert Settle(Holding(2), A_2) == map[];
    InOne(s, 2, C2, 2, 0, v1, UnitDone, Bare(2, 1, Sealing(2), map[]), LATE);
    t := One(2, C2, Bare(2, 2, Idle, map[]), 2, 0);
    InOne(s, 2, C2, 2, 0, Bare(2, 1, Sealing(2), map[]), Seal, Bare(2, 2, Idle, map[]), LATE);
    assert FromScratch(C2)["a"] == Row(P, 2, "md");
  }
}
