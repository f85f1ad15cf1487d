/**
 * The index of a vault on disk (apps/desktop/src/DesktopVaultIndexer.ts): only
 * notes whose signature differs from the stored one are read again. Files
 * change at any time: between the listing and the reading, between the reading
 * and the writing.
 */
module DesktopIndexer {
  import opened Common

  type DocId = string

  type Path = string

  /** Where the source of a note is: its file, or the state of a document that is not text. */
  datatype Place = File(path: Path) | StateDir(id: DocId)

  /** Each change of a place gives it a new stamp, which its size and date tell. */
  type Files = map<Place, nat>

  /** A signature: the path, and what the listing said of the source (None: no file). */
  datatype Sig = Sig(path: Path, stamp: Option<nat>)

  datatype Row = Row(path: Path, version: nat)

  datatype Phase =
    | Idle
    | Listed(files: Files)
    | Working(jobs: map<DocId, Sig>, got: map<DocId, nat>)

  datatype State = State(
    clock: nat,
    docs: map<DocId, Path>,           // the session's tree
    files: Files,                     // the disk
    rows: map<DocId, Row>,            // the index
    sigs: map<DocId, Sig>,            // the stored signatures
    phase: Phase)

  datatype Action =
    | Writes(p: Place)
    | Vanishes(p: Place)
    | Places(d: DocId, path: Path)
    | Removes(d: DocId)
    | ListFiles
    | PlanAll
    | PlanSome(d: DocId)
    | ReadDoc(d: DocId)
    | ReadFails(d: DocId)
    | Apply(ds: set<DocId>)
    | Done
    | NoteText(d: DocId, path: Path, version: nat)

  function PlaceOf(text: Path -> bool, d: DocId, path: Path): Place {
    if text(path) then File(path) else StateDir(d)
  }

  function SigIn(files: Files, text: Path -> bool, d: DocId, path: Path): Sig {
    Sig(path, Lookup(files, PlaceOf(text, d, path)))
  }

  /** The notes whose stored signature is not the one listed. */
  function Planned(docs: map<DocId, Path>, files: Files, sigs: map<DocId, Sig>, text: Path -> bool): map<DocId, Sig> {
    map d | d in docs && Lookup(sigs, d) != Some(SigIn(files, text, d, docs[d])) :: SigIn(files, text, d, docs[d])
  }

  /**
   * Once its stored signature is the listed one, a note is read again exactly
   * when its own source changes: its file if it is text, the state directory
   * of its document if it is not.
   */
  lemma PlannedAgainExact(docs: map<DocId, Path>, files: Files, sigs: map<DocId, Sig>, text: Path -> bool,
                          d: DocId, p: Place, stamp: nat)
    requires d in docs && d !in Planned(docs, files, sigs, text) && Lookup(files, p) != Some(stamp)
    ensures d in Planned(docs, files[p := stamp], sigs, text) <==> p == if text(docs[d]) then File(docs[d]) else StateDir(d)
  {
    var own := PlaceOf(text, d, docs[d]);
    assert Lookup(sigs, d) == Some(Sig(docs[d], Lookup(files, own)));
    assert Lookup(files[p := stamp], own) == if p == own then Some(stamp) else Lookup(files, own);
  }

  function Kept<V>(m: map<DocId, V>, docs: map<DocId, Path>): map<DocId, V> {
    map d | d in m && d in docs :: m[d]
  }

  function WithRows(rows: map<DocId, Row>, jobs: map<DocId, Sig>, got: map<DocId, nat>, ds: set<DocId>): map<DocId, Row>
    requires ds <= got.Keys <= jobs.Keys
  {
    map d | d in rows.Keys + ds :: if d in ds then Row(jobs[d].path, got[d]) else rows[d]
  }

  function WithSigs(sigs: map<DocId, Sig>, jobs: map<DocId, Sig>, ds: set<DocId>): map<DocId, Sig>
    requires ds <= jobs.Keys
  {
    map d | d in sigs.Keys + ds :: if d in ds then jobs[d] else sigs[d]
  }

  predicate Possible(s: State, a: Action, text: Path -> bool) {
    match a
    case ListFiles => s.phase.Idle?
    case PlanAll => s.phase.Listed?
    case PlanSome(d) => (s.phase.Idle? || s.phase.Working?) && d in s.docs
    case ReadDoc(d) => s.phase.Working? && d in s.phase.jobs && d !in s.phase.got && PlaceOf(text, d, s.phase.jobs[d].path) in s.files
    case ReadFails(d) => s.phase.Working? && d in s.phase.jobs && d !in s.phase.got
    case Apply(ds) => s.phase.Working? && ds <= s.phase.got.Keys <= s.phase.jobs.Keys
    case Done => s.phase.Working? && s.phase.jobs == map[]
    case NoteText(_, _, _) => s.phase.Idle?
    case _ => true
  }

  function Step(s: State, a: Action, text: Path -> bool): State
    requires Possible(s, a, text)
  {
    match a
    case Writes(p) => s.(clock := s.clock + 1, files := s.files[p := s.clock + 1])
    case Vanishes(p) => s.(files := s.files - {p})
    case Places(d, path) => s.(docs := s.docs[d := path])
    case Removes(d) => s.(docs := s.docs - {d})
    case ListFiles => s.(phase := Listed(s.files))
    case PlanAll =>
      s.(phase := Working(Planned(s.docs, s.phase.files, s.sigs, text), map[]),
         rows := Kept(s.rows, s.docs), sigs := Kept(s.sigs, s.docs))
    case PlanSome(d) =>
      var sig := SigIn(s.files, text, d, s.docs[d]);
      var jobs := if s.phase.Working? then s.phase.jobs else map[];
      var got := if s.phase.Working? then s.phase.got else map[];
      if Lookup(s.sigs, d) == Some(sig) || d in jobs then s else s.(phase := Working(jobs[d := sig], got))
    case ReadDoc(d) => s.(phase := s.phase.(got := s.phase.got[d := s.files[PlaceOf(text, d, s.phase.jobs[d].path)]]))
    case ReadFails(d) => s.(phase := s.phase.(jobs := s.phase.jobs - {d}))
    case Apply(ds) =>
      s.(rows := WithRows(s.rows, s.phase.jobs, s.phase.got, ds), sigs := WithSigs(s.sigs, s.phase.jobs, ds),
         phase := Working(s.phase.jobs - ds, s.phase.got - ds))
    case Done => s.(phase := Idle)
    case NoteText(d, path, version) => s.(rows := s.rows[d := Row(path, version)])
  }

  // ── What a signature is worth ──

  /** As recent as the file, or exactly its content where only files are read. */
  predicate Enough(version: nat, stamp: nat, exact: bool) {
    if exact then version == stamp else version >= stamp
  }

  /** If the signature is still that of the file, what was indexed with it is its content. */
  ghost predicate Signed(s: State, d: DocId, text: Path -> bool, exact: bool)
    requires d in s.sigs
  {
    var sig := s.sigs[d];
    sig.stamp.Some? && Lookup(s.files, PlaceOf(text, d, sig.path)) == sig.stamp ==>
      d in s.rows && s.rows[d].path == sig.path && Enough(s.rows[d].version, sig.stamp.value, exact)
  }

  ghost predicate JobOk(s: State, d: DocId, text: Path -> bool)
    requires s.phase.Working? && d in s.phase.jobs && d in s.phase.got
  {
    var sig := s.phase.jobs[d];
    sig.stamp.Some? && Lookup(s.files, PlaceOf(text, d, sig.path)) == sig.stamp ==> s.phase.got[d] == sig.stamp.value
  }

  predicate Old(sig: Sig, clock: nat) {
    sig.stamp.Some? ==> sig.stamp.value <= clock
  }

  ghost predicate Inv(s: State, text: Path -> bool, exact: bool) {
    && (forall p :: p in s.files ==> s.files[p] <= s.clock)
    && (forall d :: d in s.sigs ==> Old(s.sigs[d], s.clock) && Signed(s, d, text, exact))
    && (s.phase.Listed? ==> forall p :: p in s.phase.files ==> s.phase.files[p] <= s.clock)
    && (s.phase.Working? ==>
          && s.phase.got.Keys <= s.phase.jobs.Keys
          && (forall d :: d in s.phase.jobs ==> Old(s.phase.jobs[d], s.clock))
          && (forall d :: d in s.phase.got ==> JobOk(s, d, text)))
  }

  lemma WriteKeeps(s: State, p: Place, text: Path -> bool, exact: bool)
    requires Inv(s, text, exact)
    ensures Inv(Step(s, Writes(p), text), text, exact)
  {
    var s' := Step(s, Writes(p), text);
    forall d | d in s'.sigs ensures Signed(s', d, text, exact) { assert Signed(s, d, text, exact); }
    if s.phase.Working? {
      forall d | d in s'.phase.got ensures JobOk(s', d, text) { assert JobOk(s, d, text); }
    }
  }

  lemma VanishKeeps(s: State, p: Place, text: Path -> bool, exact: bool)
    requires Inv(s, text, exact)
    ensures Inv(Step(s, Vanishes(p), text), text, exact)
  {
    var s' := Step(s, Vanishes(p), text);
    forall d | d in s'.sigs ensures Signed(s', d, text, exact) { assert Signed(s, d, text, exact); }
    if s.phase.Working? {
      forall d | d in s'.phase.got ensures JobOk(s', d, text) { assert JobOk(s, d, text); }
    }
  }

  lemma ApplyKeeps(s: State, ds: set<DocId>, text: Path -> bool, exact: bool)
    requires Inv(s, text, exact) && Possible(s, Apply(ds), text)
    ensures Inv(Step(s, Apply(ds), text), text, exact)
  {
    var s' := Step(s, Apply(ds), text);
    forall d | d in s'.sigs ensures Old(s'.sigs[d], s'.clock) && Signed(s', d, text, exact) {
      if d in ds { assert JobOk(s, d, text); } else { assert Signed(s, d, text, exact); }
    }
    forall d | d in s'.phase.got ensures JobOk(s', d, text) { assert JobOk(s, d, text); }
  }

  lemma PlanKeeps(s: State, text: Path -> bool, exact: bool)
    requires Inv(s, text, exact) && Possible(s, PlanAll, text)
    ensures Inv(Step(s, PlanAll, text), text, exact)
  {
    var s' := Step(s, PlanAll, text);
    forall d | d in s'.sigs ensures Signed(s', d, text, exact) { assert Signed(s, d, text, exact); }
  }

  lemma StepKeeps(s: State, a: Action, text: Path -> bool, exact: bool)
    requires Inv(s, text, exact) && Possible(s, a, text) && !a.NoteText?
    ensures Inv(Step(s, a, text), text, exact)
  {
    match a
    case Writes(p) => WriteKeeps(s, p, text, exact);
    case Vanishes(p) => VanishKeeps(s, p, text, exact);
    case Apply(ds) => ApplyKeeps(s, ds, text, exact);
    case PlanAll => PlanKeeps(s, text, exact);
    case _ => OtherKeeps(s, a, text, exact);
  }

  lemma OtherKeeps(s: State, a: Action, text: Path -> bool, exact: bool)
    requires Inv(s, text, exact) && Possible(s, a, text)
    requires !a.NoteText? && !a.Writes? && !a.Vanishes? && !a.Apply? && !a.PlanAll?
    ensures Inv(Step(s, a, text), text, exact)
  {
    var s' := Step(s, a, text);
    forall d | d in s'.sigs ensures Signed(s', d, text, exact) { assert Signed(s, d, text, exact); }
    if s'.phase.Working? {
      forall d | d in s'.phase.got ensures JobOk(s', d, text) {
        if s.phase.Working? && d in s.phase.got { assert JobOk(s, d, text); }
      }
    }
  }

  /** An editor's text may be indexed without unsaying the signature exactly when it is as recent as the file so signed. */
  ghost predicate TextInTime(s: State, d: DocId, path: Path, version: nat, text: Path -> bool) {
    d in s.sigs && s.sigs[d].stamp.Some? && Lookup(s.files, PlaceOf(text, d, s.sigs[d].path)) == s.sigs[d].stamp ==>
      path == s.sigs[d].path && version >= s.sigs[d].stamp.value
  }

  lemma NoteTextExact(s: State, d: DocId, path: Path, version: nat, text: Path -> bool)
    requires Inv(s, text, false) && Possible(s, NoteText(d, path, version), text)
    ensures Inv(Step(s, NoteText(d, path, version), text), text, false) <==> TextInTime(s, d, path, version, text)
  {
    var s' := Step(s, NoteText(d, path, version), text);
    forall e | e in s'.sigs && e != d ensures Signed(s', e, text, false) { assert Signed(s, e, text, false); }
    if d in s.sigs { assert Signed(s', d, text, false) <==> TextInTime(s, d, path, version, text); }
  }

  // ── Runs ──

  /** Any order of changes, listings, readings and writings; texts of the editor only in time. */
  ghost predicate Run(s: State, actions: seq<Action>, s': State, text: Path -> bool, exact: bool)
    decreases |actions|
  {
    if actions == [] then s' == s else
      var a := actions[0];
      && Possible(s, a, text)
      && (a.NoteText? ==> !exact && TextInTime(s, a.d, a.path, a.version, text))
      && Run(Step(s, a, text), actions[1..], s', text, exact)
  }

  lemma {:induction false} RunKeeps(s: State, actions: seq<Action>, s': State, text: Path -> bool, exact: bool)
    requires Inv(s, text, exact) && Run(s, actions, s', text, exact)
    ensures Inv(s', text, exact)
    decreases |actions|
  {
    if actions != [] {
      var a := actions[0];
      if a.NoteText? { NoteTextExact(s, a.d, a.path, a.version, text); } else { StepKeeps(s, a, text, exact); }
      RunKeeps(Step(s, a, text), actions[1..], s', text, exact);
    }
  }

  const NOTHING := State(0, map[], map[], map[], map[], Idle)

  /** A stored signature that is the file's current one vouches for what is indexed. */
  lemma SignatureVouches(actions: seq<Action>, s: State, text: Path -> bool, exact: bool, d: DocId)
    requires Run(NOTHING, actions, s, text, exact) && d in s.docs
    requires Lookup(s.sigs, d) == Some(SigIn(s.files, text, d, s.docs[d])) && s.sigs[d].stamp.Some?
    ensures d in s.rows && s.rows[d].path == s.docs[d]
    ensures Enough(s.rows[d].version, s.files[PlaceOf(text, d, s.docs[d])], exact)
  {
    RunKeeps(NOTHING, actions, s, text, exact);
    assert Signed(s, d, text, exact);
  }

  lemma {:induction false} More(s: State, actions: seq<Action>, t: State, a: Action, u: State, text: Path -> bool, exact: bool)
    requires Run(s, actions, t, text, exact) && Possible(t, a, text) && u == Step(t, a, text)
    requires a.NoteText? ==> !exact && TextInTime(t, a.d, a.path, a.version, text)
    ensures Run(s, actions + [a], u, text, exact)
    decreases |actions|
  {
    if actions == [] {
      assert [a][1..] == [] && Run(u, [], u, text, exact);
      assert actions + [a] == [a];
    } else {
      More(Step(s, actions[0], text), actions[1..], t, a, u, text, exact);
      assert (actions + [a])[1..] == actions[1..] + [a];
    }
  }

  function AllText(p: Path): bool { true }

  ghost predicate Reachable(s: State) {
    exists actions :: Run(NOTHING, actions, s, AllText, true)
  }

  lemma Goes(t: State, a: Action, u: State)
    requires Reachable(t) && Possible(t, a, AllText) && !a.NoteText? && u == Step(t, a, AllText)
    ensures Reachable(u)
  {
    var actions :| Run(NOTHING, actions, t, AllText, true);
    More(NOTHING, actions, t, a, u, AllText, true);
  }

  const NOTE: Path := "n.md"
  const DOCS: map<DocId, Path> := map["n" := NOTE]
  const DISK: Files := map[File(NOTE) := 2]
  const LISTED := Sig(NOTE, Some(2))

  lemma NoteWrittenTwice()
    ensures Reachable(State(2, DOCS, DISK, map[], map[], Idle))
  {
    var s1 := State(0, DOCS, map[], map[], map[], Idle);
    var s2 := State(1, DOCS, map[File(NOTE) := 1], map[], map[], Idle);
    assert Run(NOTHING, [], NOTHING, AllText, true);
    Goes(NOTHING, Places("n", NOTE), s1);
    Goes(s1, Writes(File(NOTE)), s2);
    Goes(s2, Writes(File(NOTE)), State(2, DOCS, DISK, map[], map[], Idle));
  }

  lemma NotePlanned()
    ensures Reachable(State(2, DOCS, DISK, map[], map[], Working(map["n" := LISTED], map[])))
  {
    NoteWrittenTwice();
    var s3 := State(2, DOCS, DISK, map[], map[], Idle);
    var s4 := s3.(phase := Listed(DISK));
    Goes(s3, ListFiles, s4);
    assert Planned(DOCS, DISK, map[], AllText) == map["n" := LISTED];
    Goes(s4, PlanAll, s3.(phase := Working(map["n" := LISTED], map[])));
  }

  const INDEXED := State(2, DOCS, DISK, map["n" := Row(NOTE, 2)], map["n" := LISTED], Idle)

  lemma NoteIndexed()
    ensures Reachable(INDEXED)
  {
    NotePlanned();
    var s5 := State(2, DOCS, DISK, map[], map[], Working(map["n" := LISTED], map[]));
    var s6 := State(2, DOCS, DISK, map[], map[], Working(map["n" := LISTED], map["n" := 2]));
    var s7 := INDEXED.(phase := Working(map[], map[]));
    Goes(s5, ReadDoc("n"), s6);
    NoteApplied();
    Goes(s6, Apply({"n"}), s7);
    Goes(s7, Done, INDEXED);
  }

  lemma NoteApplied()
    ensures WithRows(map[], map["n" := LISTED], map["n" := 2], {"n"}) == map["n" := Row(NOTE, 2)]
    ensures WithSigs(map[], map["n" := LISTED], {"n"}) == map["n" := LISTED]
  {}

  /**
   * An old text of the editor, queued behind the reading of a newer file, takes
   * its place in the index for good: the signature says there is nothing to do.
   */
  lemma LateTextStays() returns (s: State)
    ensures Reachable(s) && s.phase.Idle?
    ensures var s' := Step(s, NoteText("n", NOTE, 1), AllText);
      && Lookup(s'.files, File(NOTE)) == Some(2) && Lookup(s'.rows, "n") == Some(Row(NOTE, 1))
      && Planned(s'.docs, s'.files, s'.sigs, AllText) == map[]
  {
    NoteIndexed();
    s := INDEXED;
    var s' := Step(s, NoteText("n", NOTE, 1), AllText);
    assert SigIn(s'.files, AllText, "n", NOTE) == LISTED && Lookup(s'.sigs, "n") == Some(LISTED);
    forall d | d in DOCS ensures Lookup(s'.sigs, d) == Some(SigIn(s'.files, AllText, d, DOCS[d])) {}
  }

  // ── A full pass while nothing changes ──

  /** Indexing every note from scratch. */
  function FromScratch(docs: map<DocId, Path>, files: Files, text: Path -> bool): map<DocId, Row> {
    map d | d in docs && PlaceOf(text, d, docs[d]) in files :: Row(docs[d], files[PlaceOf(text, d, docs[d])])
  }

  predicate Quiet(a: Action) {
    a.ListFiles? || a.PlanAll? || a.ReadDoc? || a.ReadFails? || a.Apply?
  }

  ghost predicate QuietRun(s: State, actions: seq<Action>, s': State, text: Path -> bool)
    decreases |actions|
  {
    if actions == [] then s' == s else
      Quiet(actions[0]) && Possible(s, actions[0], text) && QuietRun(Step(s, actions[0], text), actions[1..], s', text)
  }

  function Unreadable(actions: seq<Action>): set<DocId> {
    set a | a in actions && a.ReadFails? :: a.d
  }

  /** The stored signature of `d` is the listed one: it will not be read. */
  predicate Skipped(s: State, d: DocId, text: Path -> bool)
    requires d in s.docs
  {
    Lookup(s.sigs, d) == Some(SigIn(s.files, text, d, s.docs[d]))
  }

  /** What a pass that began in `s0` has done with `d` and has still to do. */
  ghost predicate DocOnCourse(s0: State, s: State, failed: set<DocId>, text: Path -> bool, d: DocId)
    requires s.phase.Working? && d in s0.docs
  {
    var place := PlaceOf(text, d, s0.docs[d]);
    if d in s.phase.jobs then
      && s.phase.jobs[d] == SigIn(s0.files, text, d, s0.docs[d]) && !Skipped(s0, d, text) && d !in failed
      && (d in s.phase.got ==> Lookup(s0.files, place) == Some(s.phase.got[d]))
      && Lookup(s.rows, d) == Lookup(s0.rows, d)
    else if Skipped(s0, d, text) || d in failed then Lookup(s.rows, d) == Lookup(s0.rows, d)
    else place in s0.files && Lookup(s.rows, d) == Some(Row(s0.docs[d], s0.files[place]))
  }

  ghost predicate OnCourse(s0: State, s: State, failed: set<DocId>, text: Path -> bool) {
    && s.docs == s0.docs && s.files == s0.files
    && match s.phase
       case Idle => s == s0 && failed == {}
       case Listed(files) => files == s0.files && s.rows == s0.rows && s.sigs == s0.sigs && failed == {}
       case Working(jobs, got) =>
         && s.rows.Keys <= s0.docs.Keys && got.Keys <= jobs.Keys <= s0.docs.Keys
         && forall d :: d in s0.docs ==> DocOnCourse(s0, s, failed, text, d)
  }

  lemma PlannedOnCourse(s0: State, s: State, d: DocId, text: Path -> bool)
    requires OnCourse(s0, s, {}, text) && s.phase.Listed? && d in s0.docs
    ensures DocOnCourse(s0, Step(s, PlanAll, text), {}, text, d)
  {}

  lemma WorkOnCourse(s0: State, s: State, failed: set<DocId>, a: Action, d: DocId, text: Path -> bool)
    requires OnCourse(s0, s, failed, text) && s.phase.Working? && Quiet(a) && Possible(s, a, text) && d in s0.docs
    ensures DocOnCourse(s0, Step(s, a, text), failed + Unreadable([a]), text, d)
  {
    assert DocOnCourse(s0, s, failed, text, d);
    assert d in Unreadable([a]) <==> ReadFails(d) in [a];
  }

  lemma QuietStep(s0: State, s: State, failed: set<DocId>, a: Action, text: Path -> bool)
    requires OnCourse(s0, s, failed, text) && Quiet(a) && Possible(s, a, text)
    ensures OnCourse(s0, Step(s, a, text), failed + Unreadable([a]), text)
  {
    var s' := Step(s, a, text);
    if s.phase.Working? {
      forall d | d in s0.docs ensures DocOnCourse(s0, s', failed + Unreadable([a]), text, d) {
        WorkOnCourse(s0, s, failed, a, d, text);
      }
    } else {
      assert failed + Unreadable([a]) == {};
      if a.PlanAll? {
        forall d | d in s0.docs ensures DocOnCourse(s0, s', {}, text, d) { PlannedOnCourse(s0, s, d, text); }
      }
    }
  }

  lemma {:induction false} QuietStays(s0: State, s: State, failed: set<DocId>, actions: seq<Action>, s': State, text: Path -> bool)
    requires OnCourse(s0, s, failed, text) && QuietRun(s, actions, s', text)
    ensures OnCourse(s0, s', failed + Unreadable(actions), text)
    decreases |actions|
  {
    if actions == [] {
      assert failed + Unreadable(actions) == failed;
    } else {
      QuietStep(s0, s, failed, actions[0], text);
      QuietStays(s0, Step(s, actions[0], text), failed + Unreadable([actions[0]]), actions[1..], s', text);
      UnreadableIn(actions);
      assert failed + Unreadable([actions[0]]) + Unreadable(actions[1..]) == failed + Unreadable(actions);
    }
  }

  lemma UnreadableIn(actions: seq<Action>)
    requires actions != []
    ensures Unreadable(actions) == Unreadable([actions[0]]) + Unreadable(actions[1..])
  {
    forall a ensures a in actions <==> a in [actions[0]] || a in actions[1..] {
      assert actions == [actions[0]] + actions[1..];
    }
    forall d ensures d in Unreadable(actions) <==> d in Unreadable([actions[0]]) + Unreadable(actions[1..]) {
      assert d in Unreadable(actions) <==> ReadFails(d) in actions;
      assert d in Unreadable([actions[0]]) <==> ReadFails(d) in [actions[0]];
      assert d in Unreadable(actions[1..]) <==> ReadFails(d) in actions[1..];
    }
  }

  /**
   * A full pass while nothing changes, from any state, leaves the index as if
   * made from scratch exactly when every note it did not read, because its
   * stored signature is the listed one or because it could not, was right.
   */
  lemma ReconcileExact(s: State, actions: seq<Action>, s': State, text: Path -> bool)
    requires s.phase.Idle? && QuietRun(s, actions, s', text)
    requires s'.phase.Working? && s'.phase.jobs == map[]
    ensures s'.rows == FromScratch(s.docs, s.files, text)
       <==> forall d :: d in s.docs && (Skipped(s, d, text) || ReadFails(d) in actions) ==>
              Lookup(s.rows, d) == Lookup(FromScratch(s.docs, s.files, text), d)
  {
    QuietStays(s, s, {}, actions, s', text);
    var scratch := FromScratch(s.docs, s.files, text);
    forall d ensures d in {} + Unreadable(actions) <==> ReadFails(d) in actions {}
    forall d | d in s.docs
      ensures if Skipped(s, d, text) || ReadFails(d) in actions then Lookup(s'.rows, d) == Lookup(s.rows, d)
              else Lookup(s'.rows, d) == Lookup(scratch, d)
    {
      assert DocOnCourse(s, s', {} + Unreadable(actions), text, d);
    }
    if forall d :: d in s.docs && (Skipped(s, d, text) || ReadFails(d) in actions) ==> Lookup(s.rows, d) == Lookup(scratch, d) {
      forall d ensures Lookup(s'.rows, d) == Lookup(scratch, d) {}
      SameLookups(s'.rows, scratch);
    }
  }

  lemma SameLookups<K, V>(m: map<K, V>, n: map<K, V>)
    requires forall k :: Lookup(m, k) == Lookup(n, k)
    ensures m == n
  {
    forall k ensures k in m <==> k in n { assert Lookup(m, k) == Lookup(n, k); }
    forall k | k in m ensures m[k] == n[k] { assert Lookup(m, k) == Lookup(n, k); }
  }

  /** So does every pass that reads all it must, where no text of an editor newer than its file stands in the index. */
  lemma ReconcileIsFromScratch(s: State, actions: seq<Action>, s': State, text: Path -> bool)
    requires Inv(s, text, false) && s.phase.Idle? && QuietRun(s, actions, s', text)
    requires s'.phase.Working? && s'.phase.jobs == map[] && Unreadable(actions) == {}
    requires forall d :: d in s.docs ==> PlaceOf(text, d, s.docs[d]) in s.files
    ensures s'.rows == FromScratch(s.docs, s.files, text)
       <==> forall d :: d in s.docs && Skipped(s, d, text) ==> s.rows[d].version <= s.files[PlaceOf(text, d, s.docs[d])]
  {
    ReconcileExact(s, actions, s', text);
    forall d | d in s.docs
      ensures ReadFails(d) !in actions
      ensures Skipped(s, d, text) ==>
        d in s.rows && s.rows[d].path == s.docs[d] && s.rows[d].version >= s.files[PlaceOf(text, d, s.docs[d])]
    {
      assert ReadFails(d) in actions ==> d in Unreadable(actions);
      if Skipped(s, d, text) { assert Signed(s, d, text, false); }
    }
  }

  lemma {:induction false} TextsAllowed(s: State, actions: seq<Action>, t: State, text: Path -> bool)
    requires Run(s, actions, t, text, true)
    ensures Run(s, actions, t, text, false)
    decreases |actions|
  {
    if actions != [] { TextsAllowed(Step(s, actions[0], text), actions[1..], t, text); }
  }

  const TYPED := State(2, DOCS, DISK, map["n" := Row(NOTE, 3)], map["n" := LISTED], Idle)

  /** An editor's text newer than its file, and in time: a full pass does not read the file again. */
  lemma NewerTextStays() returns (actions: seq<Action>, s': State)
    ensures Run(NOTHING, actions, TYPED, AllText, false)
    ensures QuietRun(TYPED, [ListFiles, PlanAll], s', AllText) && s'.phase == Working(map[], map[])
    ensures s'.rows != FromScratch(TYPED.docs, TYPED.files, AllText)
  {
    NoteIndexed();
    var before :| Run(NOTHING, before, INDEXED, AllText, true);
    TextsAllowed(NOTHING, before, INDEXED, AllText);
    assert Step(INDEXED, NoteText("n", NOTE, 3), AllText) == TYPED;
    assert TextInTime(INDEXED, "n", NOTE, 3, AllText);
    actions := before + [NoteText("n", NOTE, 3)];
    More(NOTHING, before, INDEXED, NoteText("n", NOTE, 3), TYPED, AllText, false);
    s' := TypedPass();
  }

  lemma NothingPlanned()
    ensures Planned(DOCS, DISK, map["n" := LISTED], AllText) == map[]
  {}

  lemma TypedPass() returns (s': State)
    ensures QuietRun(TYPED, [ListFiles, PlanAll], s', AllText) && s'.phase == Working(map[], map[])
    ensures s'.rows != FromScratch(TYPED.docs, TYPED.files, AllText)
  {
    var s1 := TYPED.(phase := Listed(DISK));
    s' := Step(s1, PlanAll, AllText);
    NothingPlanned();
    assert QuietRun(s', [], s', AllText);
    assert [PlanAll][1..] == [] && QuietRun(s1, [PlanAll], s', AllText);
    assert [ListFiles, PlanAll][1..] == [PlanAll];
    assert s'.rows["n"] == Row(NOTE, 3) && FromScratch(TYPED.docs, TYPED.files, AllText)["n"] == Row(NOTE, 2);
  }

  // ── The class ──

  class Indexer {
    var rows: map<DocId, Row>
    var stored: map<DocId, Sig>

    constructor ()
      ensures rows == map[] && stored == map[]
    {
      rows, stored := map[], map[];
    }

    /** The notes to read: those whose stored signature is not the one listed. */
    method Compare(docs: map<DocId, Path>, files: Files, text: Path -> bool) returns (jobs: map<DocId, Sig>)
      ensures forall d :: d in jobs <==>
        && d in docs
        && Lookup(stored, d) != Some(Sig(docs[d], Lookup(files, if text(docs[d]) then File(docs[d]) else StateDir(d))))
      ensures forall d :: d in jobs ==>
        jobs[d] == Sig(docs[d], Lookup(files, if text(docs[d]) then File(docs[d]) else StateDir(d)))
      ensures jobs == Planned(docs, files, stored, text)
    {
      jobs := map[];
      var left := docs.Keys;
      while left != {}
        invariant left <= docs.Keys
        invariant forall d :: d in jobs <==>
          d in docs && d !in left && Lookup(stored, d) != Some(SigIn(files, text, d, docs[d]))
        invariant forall d :: d in jobs ==> jobs[d] == SigIn(files, text, d, docs[d])
        decreases left
      {
        var d :| d in left;
        var sig := SigIn(files, text, d, docs[d]);
        if d !in stored || stored[d] != sig { jobs := jobs[d := sig]; }
        left := left - {d};
      }
    }

    /** What is in no document any more goes, from the index and from the signatures. */
    method RemoveGone(docs: map<DocId, Path>)
      modifies this
      ensures rows == Kept(old(rows), docs) && stored == Kept(old(stored), docs)
    {
      var gone := (set d | d in stored && d !in docs) + (set d | d in rows && d !in docs);
      rows := rows - gone;
      stored := stored - gone;
    }

    method Reconcile(docs: map<DocId, Path>, files: Files, text: Path -> bool) returns (jobs: map<DocId, Sig>)
      modifies this
      ensures jobs == Planned(docs, files, old(stored), text)
      ensures rows == Kept(old(rows), docs) && stored == Kept(old(stored), docs)
    {
      jobs := Compare(docs, files, text);
      RemoveGone(docs);
    }

    /** Notes that have been read are written with their signatures, all at once. */
    method ApplyDocs(jobs: map<DocId, Sig>, got: map<DocId, nat>, ds: set<DocId>)
      requires ds <= got.Keys <= jobs.Keys
      modifies this
      ensures rows == WithRows(old(rows), jobs, got, ds) && stored == WithSigs(old(stored), jobs, ds)
    {
      var left := ds;
      ghost var rows0, stored0 := rows, stored;
      while left != {}
        invariant left <= ds
        invariant rows == WithRows(rows0, jobs, got, ds - left) && stored == WithSigs(stored0, jobs, ds - left)
        decreases left
      {
        var d :| d in left;
        OneMoreDoc(rows0, stored0, jobs, got, ds - left, d);
        rows := rows[d := Row(jobs[d].path, got[d])];
        stored := stored[d := jobs[d]];
        assert (ds - left) + {d} == ds - (left - {d});
        left := left - {d};
      }
      assert ds - left == ds;
    }
  }

  lemma OneMoreDoc(rows: map<DocId, Row>, sigs: map<DocId, Sig>, jobs: map<DocId, Sig>, got: map<DocId, nat>, ds: set<DocId>, d: DocId)
    requires ds + {d} <= got.Keys <= jobs.Keys
    ensures WithRows(rows, jobs, got, ds)[d := Row(jobs[d].path, got[d])] == WithRows(rows, jobs, got, ds + {d})
    ensures WithSigs(sigs, jobs, ds)[d := jobs[d]] == WithSigs(sigs, jobs, ds + {d})
  {}
}
