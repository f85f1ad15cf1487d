/**
 * Bringing an index in line with the backend (`process` and `writeNotes` of
 * apps/indexer/src/store.ts). Backend reads and index writes are separate
 * steps, so the backend may change between any two of them.
 */
module IndexJob {
  import opened Common
  import opened ChangeQueue

  datatype Path = Path(text: string, ext: string)

  type DocTree = map<DocId, Path>

  /**
   * The backend's side of one vault. `docs` gives, for each registered
   * document, the feed stamp of its last write (0: registered, never written):
   * a stamp names a content.
   */
  datatype Source = Source(tree: DocTree, treeStamp: nat, docs: map<DocId, nat>)

  /**
   * An indexed note: where it is, the stamp of the content it was built from,
   * and the extension that content was read under (it decides what is extracted).
   */
  datatype Row = Row(path: Path, version: nat, readAs: string)

  type Rows = map<DocId, Row>

  function StampOf(b: Source, r: Resource): nat {
    match r
    case Tree => b.treeStamp
    case Doc(d) => if d in b.docs then b.docs[d] else 0
  }

  function Paths(x: Rows): DocTree {
    map d | d in x :: x[d].path
  }

  /** The notes an index can hold: the tree may name documents that are not registered yet. */
  function Named(b: Source): DocTree {
    map d | d in b.tree && d in b.docs :: b.tree[d]
  }

  /** Every content was read under the extension its note has now. */
  ghost predicate Typed(x: Rows) {
    forall d :: d in x ==> x[d].readAs == x[d].path.ext
  }

  /** The index has nothing to learn from resource `r`. */
  ghost predicate Current(x: Rows, b: Source, r: Resource) {
    match r
    case Tree => Paths(x) == Named(b) && Typed(x)
    case Doc(d) => d in x ==> x[d].version == StampOf(b, r)
  }

  /** What indexing everything from scratch gives. */
  function FromScratch(b: Source): Rows {
    map d | d in b.tree && d in b.docs :: Row(b.tree[d], b.docs[d], b.tree[d].ext)
  }

  lemma CurrentEverywhere(x: Rows, b: Source)
    requires forall r :: Current(x, b, r)
    ensures x == FromScratch(b)
  {
    assert Current(x, b, Tree);
    assert x.Keys == Paths(x).Keys == Named(b).Keys;
    forall d | d in x ensures x[d] == Row(b.tree[d], b.docs[d], b.tree[d].ext) {
      assert Current(x, b, Doc(d));
      assert Paths(x)[d] == Named(b)[d];
    }
  }

  // ── The steps of a job ──

  datatype Phase = NeedTree | GotTree(tree: DocTree, stamp: nat) | LookUp | Fetch

  /**
   * `docs`: still to be looked up in the index; `toFetch`: to be read and
   * written; `got`: read and not yet written (None: not registered).
   */
  datatype Job = Job(docs: set<DocId>, phase: Phase, toFetch: DocTree, got: map<DocId, Option<nat>>)

  function DocsOf(work: set<Resource>): set<DocId> {
    set r | r in work && r.Doc? :: r.id
  }

  function StartJob(work: set<Resource>, implicitTree: bool): Job {
    Job(DocsOf(work), if Tree in work || implicitTree then NeedTree else LookUp, map[], map[])
  }

  const NO_JOB := Job({}, Fetch, map[], map[])

  predicate JobDone(j: Job) {
    j.phase.Fetch? && j.toFetch == map[]
  }

  datatype JobAction =
    | ReadTree
    | ApplySome(ds: set<DocId>)
    | ApplyTree
    | LookUpDocs
    | ReadDoc(d: DocId)
    | WriteDocs(ds: set<DocId>)

  /** A row survives a tree change if it keeps its extension; otherwise it is read again. */
  predicate Survives(x: Rows, t: DocTree, d: DocId) {
    d in x && d in t && (x[d].path == t[d] || x[d].path.ext == t[d].ext)
  }

  function Rearranged(x: Rows, t: DocTree, ds: set<DocId>): Rows {
    map d | d in x && (d in ds ==> Survives(x, t, d)) ::
      if d in ds then Row(t[d], x[d].version, x[d].readAs) else x[d]
  }

  function Written(x: Rows, j: Job, ds: set<DocId>): Rows
    requires ds <= j.got.Keys <= j.toFetch.Keys
  {
    map d | d in x.Keys + ds && (d in ds ==> j.got[d].Some?) ::
      if d in ds then Row(j.toFetch[d], j.got[d].value, j.toFetch[d].ext) else x[d]
  }

  predicate JobEnabled(x: Rows, j: Job, a: JobAction) {
    match a
    case ReadTree => j.phase.NeedTree?
    case ApplySome(_) => j.phase.GotTree?
    case ApplyTree => j.phase.GotTree?
    case LookUpDocs => j.phase.LookUp?
    case ReadDoc(d) => j.phase.Fetch? && d in j.toFetch && d !in j.got
    case WriteDocs(ds) => j.phase.Fetch? && ds <= j.got.Keys <= j.toFetch.Keys
  }

  function JobStep(x: Rows, j: Job, b: Source, a: JobAction): (Rows, Job)
    requires JobEnabled(x, j, a)
  {
    match a
    case ReadTree => (x, j.(phase := GotTree(b.tree, b.treeStamp)))
    case ApplySome(ds) => (Rearranged(x, j.phase.tree, ds), j)
    case ApplyTree =>
      var t := j.phase.tree;
      (Rearranged(x, t, x.Keys),
       j.(phase := LookUp, toFetch := map d | d in t && !Survives(x, t, d) :: t[d]))
    case LookUpDocs =>
      var known := map d | d in j.docs && d in x :: x[d].path;
      (x, j.(phase := Fetch, docs := {}, toFetch := j.toFetch + known))
    case ReadDoc(d) => (x, j.(got := j.got[d := Lookup(b.docs, d)]))
    case WriteDocs(ds) => (Written(x, j, ds), j.(toFetch := j.toFetch - ds, got := j.got - ds))
  }

  ghost predicate RowsOk(x: Rows, b: Source) {
    x.Keys <= b.docs.Keys && (forall d :: d in x ==> x[d].version <= b.docs[d]) && Typed(x)
  }

  ghost predicate JobOk(x: Rows, j: Job, b: Source) {
    && j.got.Keys <= j.toFetch.Keys
    && (forall d :: d in j.got && j.got[d].Some? ==> d in b.docs && j.got[d].value <= b.docs[d])
    && (j.phase.NeedTree? || j.phase.GotTree? ==> j.toFetch == map[])
    && (!j.phase.Fetch? ==> j.got == map[])
    && (j.phase.Fetch? ==> j.docs == {})
    && (j.phase.LookUp? ==> j.toFetch.Keys !! x.Keys)
    && (j.phase.GotTree? ==>
          && j.phase.stamp <= b.treeStamp
          && (j.phase.stamp == b.treeStamp ==> j.phase.tree == b.tree))
  }

  /** The paths the index has, and those it is going to write. */
  function Planned(x: Rows, j: Job): DocTree {
    Paths(x) + j.toFetch
  }

  /** Those that stay: all but the documents read as not registered. */
  function Promised(x: Rows, j: Job): DocTree {
    map d | d in Planned(x, j) && (d in j.got ==> j.got[d].Some?) :: Planned(x, j)[d]
  }

  /** They are what the tree names, and no registered document is missing. */
  ghost predicate Fulfils(x: Rows, j: Job, b: Source) {
    && (forall d :: d in Promised(x, j) ==> d in b.tree && Promised(x, j)[d] == b.tree[d])
    && (forall d :: d in b.tree && d in b.docs ==> d in Promised(x, j))
  }

  /** Left to run with no further write of `r`, the job ends with `r` current. */
  ghost predicate WillBeCurrent(x: Rows, j: Job, b: Source, r: Resource) {
    match r
    case Tree =>
      (match j.phase
       case NeedTree => true
       case GotTree(_, stamp) => stamp == b.treeStamp
       case _ => Fulfils(x, j, b))
    case Doc(d) =>
      if d in j.toFetch then d in j.got ==> j.got[d].None? || j.got[d] == Some(StampOf(b, r))
      else d in j.docs || (d in x ==> x[d].version == StampOf(b, r))
  }

  lemma JobStartsOk(x: Rows, work: set<Resource>, implicitTree: bool, b: Source)
    ensures JobOk(x, StartJob(work, implicitTree), b)
  {}

  lemma JobStarts(x: Rows, work: set<Resource>, implicitTree: bool, b: Source, r: Resource)
    requires Current(x, b, r) || r in work || (r == Tree && implicitTree)
    ensures WillBeCurrent(x, StartJob(work, implicitTree), b, r)
  {
    var j := StartJob(work, implicitTree);
    match r
    case Tree => if !j.phase.NeedTree? { NothingToFetch(x, j, b); }
    case Doc(d) => assert r in work ==> d in j.docs;
  }

  /** With nothing to fetch, the rows are all there is. */
  lemma NothingToFetch(x: Rows, j: Job, b: Source)
    requires j.toFetch == map[] && j.got == map[]
    ensures Promised(x, j) == Paths(x)
    ensures Paths(x) == Named(b) ==> Fulfils(x, j, b)
    ensures RowsOk(x, b) && Fulfils(x, j, b) ==> Paths(x) == Named(b)
  {
    assert Promised(x, j) == Planned(x, j) == Paths(x);
    if Paths(x) == Named(b) {
      forall d | d in Promised(x, j) ensures d in b.tree && Promised(x, j)[d] == b.tree[d] { assert d in Named(b); }
      forall d | d in b.tree && d in b.docs ensures d in Promised(x, j) { assert d in Named(b); }
    }
    if RowsOk(x, b) && Fulfils(x, j, b) {
      forall d ensures d in Paths(x) <==> d in Named(b) {
        assert d in Paths(x) ==> d in x && d in Promised(x, j);
        assert d in Named(b) ==> d in Promised(x, j);
      }
      forall d | d in Paths(x) ensures Paths(x)[d] == Named(b)[d] { assert d in Promised(x, j); }
    }
  }

  lemma JobStepOk(x: Rows, j: Job, b: Source, a: JobAction)
    requires RowsOk(x, b) && JobOk(x, j, b) && JobEnabled(x, j, a)
    ensures var (x', j') := JobStep(x, j, b, a); RowsOk(x', b) && JobOk(x', j', b)
  {
    match a
    case ApplyTree =>
    case LookUpDocs =>
    case ReadDoc(d) =>
    case _ =>
  }

  /**
   * A tree change reads a note again exactly when the index does not hold its
   * content as read under the extension it goes to; the others keep theirs.
   */
  lemma ReadAgainExact(x: Rows, j: Job, b: Source, d: DocId)
    requires RowsOk(x, b) && JobOk(x, j, b) && j.phase.GotTree?
    ensures var t := j.phase.tree; var (x', j') := JobStep(x, j, b, ApplyTree);
      && (d in j'.toFetch <==> d in t && !(d in x && x[d].readAs == t[d].ext))
      && (d in x' <==> d in t && d in x && x[d].readAs == t[d].ext)
      && (d in j'.toFetch ==> j'.toFetch[d] == t[d])
      && (d in x' ==> x'[d] == x[d].(path := t[d]))
  {
    if d in x { assert x[d].readAs == x[d].path.ext; }
  }

  /** Of the documents announced, those the index has are read again, where they are; the others are not. */
  lemma LookUpExact(x: Rows, j: Job, b: Source, d: DocId)
    requires JobOk(x, j, b) && j.phase.LookUp?
    ensures var (x', j') := JobStep(x, j, b, LookUpDocs);
      && x' == x && JobEnabled(x', j', ReadDoc(d)) == (d in j.toFetch || (d in j.docs && d in x))
      && (d in j.toFetch ==> j'.toFetch[d] == j.toFetch[d])
      && (d in j.docs && d in x ==> j'.toFetch[d] == x[d].path)
  {
    assert d in x ==> d !in j.toFetch;
  }

  lemma PlanApplied(x: Rows, t: DocTree, toFetch: DocTree)
    requires toFetch == map d | d in t && !Survives(x, t, d) :: t[d]
    ensures Paths(Rearranged(x, t, x.Keys)) + toFetch == t
  {
    var x' := Rearranged(x, t, x.Keys);
    assert forall d :: d in x' <==> Survives(x, t, d);
  }

  lemma FulfilsOnceApplied(x: Rows, j: Job, b: Source)
    requires JobOk(x, j, b) && j.phase.GotTree? && j.phase.stamp == b.treeStamp
    ensures var (x', j') := JobStep(x, j, b, ApplyTree); Fulfils(x', j', b)
  {
    var (x', j') := JobStep(x, j, b, ApplyTree);
    PlanApplied(x, j.phase.tree, j'.toFetch);
    assert Promised(x', j') == Planned(x', j') == b.tree;
  }

  lemma PlanLookedUp(x: Rows, j: Job, b: Source)
    requires JobOk(x, j, b) && j.phase.LookUp?
    ensures var (x', j') := JobStep(x, j, b, LookUpDocs); Promised(x', j') == Promised(x, j)
  {
    var (x', j') := JobStep(x, j, b, LookUpDocs);
    assert Planned(x', j').Keys == Planned(x, j).Keys;
    assert Planned(x', j') == Planned(x, j);
  }

  lemma PlanRead(x: Rows, j: Job, b: Source, d: DocId)
    requires JobEnabled(x, j, ReadDoc(d))
    ensures var (x', j') := JobStep(x, j, b, ReadDoc(d));
      Promised(x', j') == Promised(x, j) - if d in b.docs then {} else {d}
  {
    var (x', j') := JobStep(x, j, b, ReadDoc(d));
    assert Planned(x', j') == Planned(x, j);
  }

  lemma PlanWritten(x: Rows, j: Job, b: Source, ds: set<DocId>)
    requires JobEnabled(x, j, WriteDocs(ds))
    ensures var (x', j') := JobStep(x, j, b, WriteDocs(ds)); Promised(x', j') == Promised(x, j)
  {
    var (x', j') := JobStep(x, j, b, WriteDocs(ds));
    forall d ensures d in Promised(x', j') <==> d in Promised(x, j) {}
    forall d | d in Promised(x, j) ensures Promised(x', j')[d] == Promised(x, j)[d] {}
  }

  /** From the moment the tree is applied, only a document found not registered leaves the plan. */
  lemma FulfilsStill(x: Rows, j: Job, b: Source, a: JobAction)
    requires JobOk(x, j, b) && JobEnabled(x, j, a) && (j.phase.LookUp? || j.phase.Fetch?) && Fulfils(x, j, b)
    ensures var (x', j') := JobStep(x, j, b, a); Fulfils(x', j', b)
  {
    match a
    case LookUpDocs => PlanLookedUp(x, j, b);
    case ReadDoc(d) => PlanRead(x, j, b, d);
    case WriteDocs(ds) => PlanWritten(x, j, b, ds);
  }

  /** Whatever a step does, a resource that was going to be current still is. */
  lemma JobStepKeeps(x: Rows, j: Job, b: Source, a: JobAction, r: Resource)
    requires RowsOk(x, b) && JobOk(x, j, b) && JobEnabled(x, j, a)
    requires WillBeCurrent(x, j, b, r)
    ensures var (x', j') := JobStep(x, j, b, a); WillBeCurrent(x', j', b, r)
  {
    match r
    case Tree =>
      if a.ApplyTree? {
        FulfilsOnceApplied(x, j, b);
      } else if j.phase.LookUp? || j.phase.Fetch? {
        FulfilsStill(x, j, b, a);
      }
    case Doc(d) =>
      match a
      case ApplyTree =>
      case WriteDocs(ds) =>
      case _ =>
  }

  lemma RearrangedServes(x: Rows, b: Source, ds: set<DocId>)
    requires Paths(x) == Named(b)
    ensures Rearranged(x, b.tree, ds) == x
  {
    forall d | d in x ensures d in b.tree && x[d].path == b.tree[d] {
      assert d in Paths(x) && Paths(x)[d] == Named(b)[d];
    }
  }

  lemma WrittenServes(x: Rows, j: Job, b: Source, ds: set<DocId>)
    requires JobOk(x, j, b) && JobEnabled(x, j, WriteDocs(ds)) && Paths(x) == Named(b) && Fulfils(x, j, b)
    ensures Paths(Written(x, j, ds)) == Named(b)
  {
    forall d | d in ds ensures if j.got[d].Some? then d in x && x[d].path == j.toFetch[d] else d !in x {
      if j.got[d].Some? {
        assert d in Promised(x, j) && Promised(x, j)[d] == j.toFetch[d];
        assert d in Named(b);
        assert d in Paths(x) && Paths(x)[d] == j.toFetch[d];
      } else {
        assert d !in Promised(x, j);
        assert d !in Named(b);
        assert d !in Paths(x);
      }
    }
    assert Paths(Written(x, j, ds)) == Paths(x);
  }

  /** A step never spoils a resource it is in order with. */
  lemma JobStepServes(x: Rows, j: Job, b: Source, a: JobAction, r: Resource)
    requires RowsOk(x, b) && JobOk(x, j, b) && JobEnabled(x, j, a)
    requires Current(x, b, r) && WillBeCurrent(x, j, b, r)
    ensures Current(JobStep(x, j, b, a).0, b, r)
  {
    match r
    case Doc(d) =>
    case Tree =>
      match a
      case ApplySome(ds) => RearrangedServes(x, b, ds);
      case ApplyTree => RearrangedServes(x, b, x.Keys);
      case WriteDocs(ds) => WrittenServes(x, j, b, ds);
      case _ =>
  }

  lemma JobEnds(x: Rows, j: Job, b: Source, r: Resource)
    requires RowsOk(x, b) && JobOk(x, j, b) && JobDone(j) && WillBeCurrent(x, j, b, r)
    ensures Current(x, b, r)
  {
    NothingToFetch(x, j, b);
  }

  // ── Writes of the backend ──

  function WriteDoc(b: Source, d: DocId, stamp: nat): Source {
    b.(docs := b.docs[d := stamp])
  }

  function WriteTree(b: Source, t: DocTree, stamp: nat): Source {
    b.(tree := t, treeStamp := stamp)
  }

  /** A document joins the registry of the vault; the feed does not say so. */
  function Register(b: Source, d: DocId): Source {
    if d in b.docs then b else b.(docs := b.docs[d := 0])
  }

  /** One resource is written, or none; the registry does not change. */
  ghost predicate OnlyChanges(b: Source, b': Source, changed: Option<Resource>) {
    && b.docs.Keys == b'.docs.Keys
    && (forall d :: d in b.docs ==> b.docs[d] <= b'.docs[d])
    && b.treeStamp <= b'.treeStamp
    && (changed != Some(Tree) ==> b'.tree == b.tree)
    && (forall r :: changed != Some(r) ==> StampOf(b', r) == StampOf(b, r))
    && (forall r :: changed == Some(r) ==> StampOf(b', r) > StampOf(b, r))
  }

  lemma SameNames(x: Rows, j: Job, b: Source, b': Source)
    requires b.docs.Keys == b'.docs.Keys && b.tree == b'.tree
    ensures Named(b') == Named(b) && (Fulfils(x, j, b') <==> Fulfils(x, j, b))
  {}

  lemma OthersUntouched(x: Rows, j: Job, b: Source, b': Source, changed: Option<Resource>)
    requires OnlyChanges(b, b', changed)
    ensures RowsOk(x, b) ==> RowsOk(x, b')
    ensures JobOk(x, j, b) ==> JobOk(x, j, b')
    ensures forall r :: changed != Some(r) && Current(x, b, r) ==> Current(x, b', r)
    ensures forall r :: changed != Some(r) && WillBeCurrent(x, j, b, r) ==> WillBeCurrent(x, j, b', r)
  {
    if changed != Some(Tree) { SameNames(x, j, b, b'); }
    if JobOk(x, j, b) && j.phase.GotTree? {
      assert changed != Some(Tree) ==> StampOf(b', Tree) == StampOf(b, Tree);
      assert changed == Some(Tree) ==> StampOf(b', Tree) > StampOf(b, Tree);
    }
    forall r | changed != Some(r) && WillBeCurrent(x, j, b, r) ensures WillBeCurrent(x, j, b', r) {
      assert StampOf(b', r) == StampOf(b, r);
    }
  }

  // ── A document joins the registry ──

  /** The work in hand is going to read `d`, and is in order with the tree. */
  ghost predicate WillSee(x: Rows, j: Job, b: Source, d: DocId) {
    match j.phase
    case NeedTree => true
    case GotTree(_, stamp) => stamp == b.treeStamp
    case _ => Fulfils(x, j, b) && d in j.toFetch && d !in j.got
  }

  /** Registering a document changes nothing but, if the tree names it already, what the index should hold. */
  lemma RegisterTouches(x: Rows, j: Job, b: Source, d: DocId, r: Resource)
    requires d !in b.docs && RowsOk(x, b) && (r.Doc? || d !in b.tree)
    ensures Current(x, Register(b, d), r) <==> Current(x, b, r)
    ensures WillBeCurrent(x, j, Register(b, d), r) <==> WillBeCurrent(x, j, b, r)
  {
    if r == Tree {
      assert Named(Register(b, d)) == Named(b);
      assert Fulfils(x, j, Register(b, d)) <==> Fulfils(x, j, b);
    }
  }

  /** Registered after the tree named it, a document is missed unless the work in hand is going to read it. */
  lemma RegisterExact(x: Rows, j: Job, b: Source, d: DocId)
    requires d !in b.docs && d in b.tree && RowsOk(x, b) && JobOk(x, j, b)
    ensures !Current(x, Register(b, d), Tree)
    ensures WillBeCurrent(x, j, Register(b, d), Tree) <==> WillSee(x, j, b, d)
  {
    var b' := Register(b, d);
    assert d in Named(b') && d !in Paths(x);
    if j.phase.LookUp? || j.phase.Fetch? {
      assert d in Promised(x, j) <==> d in j.toFetch && (d in j.got ==> j.got[d].Some?);
      assert d in j.got ==> j.got[d].None?;
    }
  }
}
