/**
 * The queues of a shard, as the store keeps them: one object per vault, updated
 * in place by loops over changes and entries (`VaultStore` and `Vault` of
 * apps/indexer/src/store.ts). Each method is proved against the machine's
 * functions on queues.
 */
module Store {
  import opened Common
  import opened ChangeQueue
  import opened VaultMachine
  import opened PeerMachine

  /** A row of the feed: the tree or a document of a vault. */
  datatype Change = Change(vault: VaultId, r: Resource, stamp: nat)

  function OfferAll(q: Queue, list: seq<Change>, now: nat): Queue {
    if list == [] then q else
      var c := list[|list| - 1];
      Offer(OfferAll(q, list[..|list| - 1], now), c.r, c.stamp, now)
  }

  function Seen(m: nat, list: seq<Change>): nat {
    if list == [] then m else Max(Seen(m, list[..|list| - 1]), list[|list| - 1].stamp)
  }

  function For(list: seq<Change>, id: VaultId): seq<Change> {
    if list == [] then [] else
      var c := list[|list| - 1];
      For(list[..|list| - 1], id) + if c.vault == id then [c] else []
  }

  predicate Distinct(list: seq<Change>) {
    forall i, j :: 0 <= i < j < |list| ==> list[i].r != list[j].r
  }

  function RowsOf(list: seq<Change>): Work {
    if list == [] then map[] else RowsOf(list[..|list| - 1])[list[|list| - 1].r := list[|list| - 1].stamp]
  }

  lemma {:induction false} RowsKnown(list: seq<Change>, r: Resource)
    ensures r in RowsOf(list) <==> exists i :: 0 <= i < |list| && list[i].r == r
    ensures r in RowsOf(list) ==> exists i :: 0 <= i < |list| && list[i].r == r && list[i].stamp == RowsOf(list)[r]
  {
    if list != [] {
      var rest := list[..|list| - 1];
      RowsKnown(rest, r);
      if r == list[|list| - 1].r { assert list[|list| - 1].r == r; }
    }
  }

  /** The feed holds one row per resource, so a page taken row by row is the page delivered at once. */
  lemma {:induction false} RowByRow(q: Queue, list: seq<Change>, now: nat)
    requires Distinct(list)
    ensures OfferAll(q, list, now) == Deliver(q, RowsOf(list), now)
  {
    if list == [] {
    } else {
      var rest := list[..|list| - 1];
      var c := list[|list| - 1];
      RowByRow(q, rest, now);
      RowsKnown(rest, c.r);
      assert c.r !in RowsOf(rest);
      OneMoreRow(q, RowsOf(rest), c, now);
    }
  }

  lemma OneMoreRow(q: Queue, rows: Work, c: Change, now: nat)
    requires c.r !in rows
    ensures Offer(Deliver(q, rows, now), c.r, c.stamp, now) == Deliver(q, rows[c.r := c.stamp], now)
  {
    var q1 := Deliver(q, rows, now);
    assert Lookup(q1, c.r) == Lookup(q, c.r);
    assert q1.Keys + {c.r} == Deliver(q, rows[c.r := c.stamp], now).Keys;
  }

  lemma OneMoreChange(list: seq<Change>, i: nat, id: VaultId, q: Queue, m: nat, now: nat)
    requires i < |list|
    ensures OfferAll(q, For(list[..i + 1], id), now)
         == if list[i].vault == id then Offer(OfferAll(q, For(list[..i], id), now), list[i].r, list[i].stamp, now)
            else OfferAll(q, For(list[..i], id), now)
    ensures Seen(m, For(list[..i + 1], id))
         == if list[i].vault == id then Max(Seen(m, For(list[..i], id)), list[i].stamp) else Seen(m, For(list[..i], id))
  {
    assert list[..i + 1][..i] == list[..i];
    var before := For(list[..i], id);
    assert list[i].vault == id ==> (before + [list[i]])[..|before|] == before;
    assert list[i].vault != id ==> before + [] == before;
  }

  // ── One vault ──

  function At(tree: Option<Pending>, docs: map<DocId, Pending>, r: Resource): Option<Pending> {
    match r
    case Tree => tree
    case Doc(d) => Lookup(docs, d)
  }

  function Held(tree: Option<Pending>, docs: map<DocId, Pending>): set<Resource> {
    (set d | d in docs :: Doc(d)) + if tree.Some? then {Tree} else {}
  }

  /** The tree entry and the document entries, as one queue. */
  function QueueOf(tree: Option<Pending>, docs: map<DocId, Pending>): (q: Queue)
    ensures forall r :: Lookup(q, r) == At(tree, docs, r)
  {
    map r | r in Held(tree, docs) :: At(tree, docs, r).value
  }

  lemma SameQueue(q: Queue, q': Queue)
    requires forall r :: Lookup(q, r) == Lookup(q', r)
    ensures q == q'
  {
    forall r ensures r in q <==> r in q' {
      assert Lookup(q, r) == Lookup(q', r);
    }
    forall r | r in q ensures q[r] == q'[r] {
      assert Lookup(q, r) == Lookup(q', r);
    }
  }

  /** What `Settle` leaves of a document's entry. */
  function Unsettled(docs: map<DocId, Pending>, work: Work, d: DocId): Option<Pending> {
    if d in docs && Doc(d) in work && docs[d].stamp == work[Doc(d)] then None else Lookup(docs, d)
  }

  /** What `DropRead` leaves of a document's entry. */
  function Unread(docs: map<DocId, Pending>, asked: map<DocId, Asked>, d: DocId): Option<Pending>
    requires d in asked
  {
    if d in docs && docs[d].lastAt < asked[d].at then None else Lookup(docs, d)
  }

  class VaultQueue {
    var tree: Option<Pending>
    var docs: map<DocId, Pending>
    var maxSeen: nat
    var applied: nat
    var rebuild: bool

    constructor ()
      ensures Waiting() == map[] && maxSeen == 0 && applied == 0 && !rebuild
    {
      tree, docs, maxSeen, applied, rebuild := None, map[], 0, 0, false;
    }

    ghost function Waiting(): Queue
      reads this
    {
      QueueOf(tree, docs)
    }

    /** One row of the feed. */
    method Announce(r: Resource, stamp: nat, now: nat)
      modifies this
      ensures Waiting() == Offer(old(Waiting()), r, stamp, now)
      ensures r in Waiting() && Waiting()[r].lastAt == now
      ensures r in old(Waiting()) ==>
        Waiting()[r].stamp == Max(old(Waiting())[r].stamp, stamp) && Waiting()[r].firstAt == old(Waiting())[r].firstAt
      ensures r !in old(Waiting()) ==> Waiting()[r].stamp == stamp && Waiting()[r].firstAt == now
      ensures forall s :: s != r ==> Lookup(Waiting(), s) == Lookup(old(Waiting()), s)
      ensures maxSeen == Max(old(maxSeen), stamp) && applied == old(applied) && rebuild == old(rebuild)
    {
      ghost var before := Waiting();
      maxSeen := Max(maxSeen, stamp);
      match r
      case Tree => tree := Some(Merge(tree, stamp, now));
      case Doc(d) => docs := docs[d := Merge(Lookup(docs, d), stamp, now)];
      SameQueue(Waiting(), Offer(before, r, stamp, now));
    }

    /** The work that is due: everything announced long enough ago, or for too long. */
    method TakeDue(now: nat, debounce: nat, debounceMax: nat) returns (work: Work)
      ensures forall r :: r in work <==>
        r in Waiting() && (now >= Waiting()[r].lastAt + debounce || now >= Waiting()[r].firstAt + debounceMax)
      ensures forall r :: r in work ==> work[r] == Waiting()[r].stamp
      ensures work == Due(Waiting(), now, debounce, debounceMax)
    {
      work := map[];
      if tree.Some? && DueAt(tree.value, debounce, debounceMax) <= now { work := work[Tree := tree.value.stamp]; }
      var left := docs.Keys;
      while left != {}
        invariant left <= docs.Keys
        invariant forall r :: r in work <==>
          && r in Waiting() && DueAt(Waiting()[r], debounce, debounceMax) <= now && (r.Doc? ==> r.id !in left)
        invariant forall r :: r in work ==> work[r] == Waiting()[r].stamp
        decreases left
      {
        var d :| d in left;
        assert Lookup(Waiting(), Doc(d)) == At(tree, docs, Doc(d));
        if DueAt(docs[d], debounce, debounceMax) <= now { work := work[Doc(d) := docs[d].stamp]; }
        left := left - {d};
      }
    }

    /** Removes what was done, unless it changed since. */
    method Settle(work: Work)
      modifies this`tree, this`docs
      ensures Waiting() == ChangeQueue.Settle(old(Waiting()), work)
      ensures forall r ::
        Lookup(Waiting(), r) ==
          if r in work && r in old(Waiting()) && old(Waiting())[r].stamp == work[r] then None else Lookup(old(Waiting()), r)
    {
      ghost var before := Waiting();
      ghost var docs0 := docs;
      if tree.Some? && Tree in work && tree.value.stamp == work[Tree] { tree := None; }
      ghost var tree1 := tree;
      var left := set r | r in work && r.Doc? :: r.id;
      while left != {}
        invariant tree == tree1
        invariant forall d :: d in left ==> Doc(d) in work
        invariant forall d :: Lookup(docs, d) == if d in left then Lookup(docs0, d) else Unsettled(docs0, work, d)
        decreases left
      {
        var d :| d in left;
        if d in docs && docs[d].stamp == work[Doc(d)] { docs := docs - {d}; }
        left := left - {d};
      }
      forall r ensures Lookup(Waiting(), r) == Lookup(ChangeQueue.Settle(before, work), r) {
        assert Lookup(before, r) == At(old(tree), docs0, r) && Lookup(Waiting(), r) == At(tree, docs, r);
        if r.Doc? { assert Lookup(docs, r.id) == Unsettled(docs0, work, r.id); }
      }
      SameQueue(Waiting(), ChangeQueue.Settle(before, work));
    }

    /** What the index already records is dropped from the work, and from what waits. */
    method SkipApplied(work: Work) returns (rest: Work)
      modifies this`tree, this`docs
      ensures forall r :: r in rest <==> r in work && work[r] > applied
      ensures forall r :: r in rest ==> rest[r] == work[r]
      ensures forall r ::
        Lookup(Waiting(), r) ==
          if r in work && work[r] <= applied && r in old(Waiting()) && old(Waiting())[r].stamp == work[r] then None
          else Lookup(old(Waiting()), r)
      ensures rest == NotApplied(work, applied)
      ensures Waiting() == ChangeQueue.Settle(old(Waiting()), Applied(work, applied))
    {
      rest := work;
      var done: Work := map[];
      var left := work.Keys;
      while left != {}
        invariant left <= work.Keys
        invariant forall r :: r in rest <==> r in work && (r in left || work[r] > applied)
        invariant forall r :: r in done <==> r in work && r !in left && work[r] <= applied
        invariant forall r :: (r in rest ==> rest[r] == work[r]) && (r in done ==> done[r] == work[r])
        decreases left
      {
        var r :| r in left;
        if work[r] <= applied { rest, done := rest - {r}, done[r := work[r]]; }
        left := left - {r};
      }
      Settle(done);
      assert done == Applied(work, applied);
    }

    /** The least stamp that waits. */
    method MinPending() returns (min: Option<nat>)
      ensures min == LeastStamp(Waiting())
    {
      min := if tree.Some? then Some(tree.value.stamp) else None;
      assert Lookup(Waiting(), Tree) == tree;
      var left := docs.Keys;
      while left != {}
        invariant left <= docs.Keys
        invariant min.Some? ==> exists r :: r in Waiting() && Waiting()[r].stamp == min.value
        invariant forall r :: r in Waiting() && (r.Doc? ==> r.id !in left) ==> min.Some? && min.value <= Waiting()[r].stamp
        decreases left
      {
        var d :| d in left;
        assert Lookup(Waiting(), Doc(d)) == At(tree, docs, Doc(d));
        assert Doc(d) in Waiting();
        if min.None? || docs[d].stamp < min.value { min := Some(docs[d].stamp); }
        left := left - {d};
      }
      if min.Some? {
        LeastStampUnique(Waiting(), min.value);
      } else {
        assert Waiting() == map[];
      }
    }

    /** The position to record: everything up to it is handled. */
    method LowWater(floor: nat) returns (stamp: nat)
      ensures stamp >= floor
      ensures stamp > floor ==> stamp <= maxSeen && forall r :: r in Waiting() ==> stamp < Waiting()[r].stamp
      ensures stamp < maxSeen ==> exists r :: r in Waiting() && Waiting()[r].stamp <= stamp + 1
      ensures stamp == LowWaterOf(Waiting(), maxSeen, floor)
    {
      var min := MinPending();
      if min.None? {
        stamp := Max(floor, maxSeen);
      } else {
        var below := (min.value as int) - 1;
        stamp := Max(floor, Min(maxSeen, below));
      }
    }

    /** A build starts: what the feed gave up to its starting point is part of what it reads. */
    method DropUpTo(from: nat)
      modifies this`tree, this`docs
      ensures forall r ::
        Lookup(Waiting(), r) ==
          if r in old(Waiting()) && old(Waiting())[r].stamp <= from then None else Lookup(old(Waiting()), r)
      ensures Waiting() == After(old(Waiting()), from)
    {
      ghost var before := Waiting();
      if tree.Some? && tree.value.stamp <= from { tree := None; }
      docs := map d | d in docs && docs[d].stamp > from :: docs[d];
      SameQueue(Waiting(), After(before, from));
    }

    /** A build in place read the tree it had asked for at `at`: a change seen before is in it. */
    method DropTree(at: nat)
      modifies this`tree
      ensures forall r ::
        Lookup(Waiting(), r) ==
          if r == Tree && r in old(Waiting()) && old(Waiting())[r].lastAt < at then None else Lookup(old(Waiting()), r)
      ensures Waiting() == ForgetSeenBefore(old(Waiting()), {Tree}, at)
    {
      ghost var before := Waiting();
      if tree.Some? && tree.value.lastAt < at { tree := None; }
      SameQueue(Waiting(), ForgetSeenBefore(before, {Tree}, at));
    }

    /** A build in place wrote notes it had asked for at `at`: changes seen before are in them. */
    method DropRead(asked: map<DocId, Asked>, ds: set<DocId>)
      requires ds <= asked.Keys
      modifies this`docs
      ensures forall r ::
        Lookup(Waiting(), r) ==
          if r.Doc? && r.id in ds && r in old(Waiting()) && old(Waiting())[r].lastAt < asked[r.id].at then None
          else Lookup(old(Waiting()), r)
      ensures Waiting() == ForgetRead(old(Waiting()), asked, ds)
    {
      ghost var before := Waiting();
      ghost var docs0 := docs;
      var left := ds;
      while left != {}
        invariant left <= ds
        invariant forall d ::
          Lookup(docs, d) == if d in ds && d !in left then Unread(docs0, asked, d) else Lookup(docs0, d)
        decreases left
      {
        var d :| d in left;
        if d in docs && docs[d].lastAt < asked[d].at { docs := docs - {d}; }
        left := left - {d};
      }
      forall r ensures Lookup(Waiting(), r) == Lookup(ForgetRead(before, asked, ds), r) {
        assert Lookup(before, r) == At(tree, docs0, r);
        if r.Doc? && r.id in ds { assert Lookup(docs, r.id) == Unread(docs0, asked, r.id); }
      }
      SameQueue(Waiting(), ForgetRead(before, asked, ds));
    }
  }

  // ── All the vaults of a shard ──

  class ShardQueues {
    var vaults: map<VaultId, VaultQueue>
    var feedPos: nat

    constructor ()
      ensures Valid() && vaults == map[] && feedPos == 0
    {
      vaults, feedPos := map[], 0;
    }

    /** No two vaults share a queue. */
    ghost predicate Valid()
      reads this
    {
      forall a, b :: a in vaults && b in vaults && vaults[a] == vaults[b] ==> a == b
    }

    ghost function WaitingFor(id: VaultId): Queue
      reads this, vaults.Values
    {
      if id in vaults then vaults[id].Waiting() else map[]
    }

    ghost function SeenFor(id: VaultId): nat
      reads this, vaults.Values
    {
      if id in vaults then vaults[id].maxSeen else 0
    }

    /** The queue of a vault, made at its first change. */
    method Vault(id: VaultId) returns (v: VaultQueue)
      requires Valid()
      modifies this`vaults
      ensures Valid() && id in vaults && vaults[id] == v
      ensures id in old(vaults) ==> vaults == old(vaults)
      ensures id !in old(vaults) ==> fresh(v) && vaults == old(vaults)[id := v] && v.Waiting() == map[] && v.maxSeen == 0
    {
      if id in vaults {
        v := vaults[id];
      } else {
        v := new VaultQueue();
        vaults := vaults[id := v];
      }
    }

    /** One row of the feed reaches its vault, and no other. */
    method Announce(c: Change, now: nat)
      requires Valid()
      modifies this`vaults, vaults.Values
      ensures Valid() && fresh(vaults.Values - old(vaults.Values))
      ensures WaitingFor(c.vault) == Offer(old(WaitingFor(c.vault)), c.r, c.stamp, now)
      ensures forall id :: id != c.vault ==> WaitingFor(id) == old(WaitingFor(id))
      ensures forall id :: SeenFor(id) == if id == c.vault then Max(old(SeenFor(id)), c.stamp) else old(SeenFor(id))
    {
      var v := Vault(c.vault);
      assert v.Waiting() == old(WaitingFor(c.vault));
      v.Announce(c.r, c.stamp, now);
    }

    /** What `list` did to a vault that had `q` waiting and had seen `m`. */
    ghost predicate Holds(id: VaultId, q: Queue, m: nat, list: seq<Change>, now: nat)
      reads this, vaults.Values
    {
      WaitingFor(id) == OfferAll(q, For(list, id), now) && SeenFor(id) == Seen(m, For(list, id))
    }

    /** A page of the feed: each vault gets its own rows, in order. */
    method Changes(list: seq<Change>, upTo: nat, now: nat)
      requires Valid()
      modifies this, vaults.Values
      ensures Valid() && fresh(vaults.Values - old(vaults.Values)) && feedPos == Max(old(feedPos), upTo)
      ensures forall id :: Holds(id, old(WaitingFor(id)), old(SeenFor(id)), list, now)
    {
      var i := 0;
      while i < |list|
        invariant i <= |list| && Valid() && fresh(vaults.Values - old(vaults.Values)) && feedPos == old(feedPos)
        invariant forall id :: Holds(id, old(WaitingFor(id)), old(SeenFor(id)), list[..i], now)
      {
        label Before:
        Announce(list[i], now);
        forall id ensures Holds(id, old(WaitingFor(id)), old(SeenFor(id)), list[..i + 1], now) {
          var q, m := old(WaitingFor(id)), old(SeenFor(id));
          assert old@Before(Holds(id, q, m, list[..i], now));
          OneMoreChange(list, i, id, q, m, now);
        }
        i := i + 1;
      }
      assert list[..i] == list;
      feedPos := Max(feedPos, upTo);
    }

    /** The change that holds the saved position back: a vault to be rebuilt reads everything again. */
    ghost function AwaitedFor(id: VaultId): Option<nat>
      requires id in vaults
      reads this, vaults.Values
    {
      if vaults[id].rebuild then None else LeastStamp(vaults[id].Waiting())
    }

    /** One less than the least stamp awaited, over all vaults. */
    method LowWater() returns (low: Option<int>)
      ensures low.None? ==> forall id :: id in vaults ==> AwaitedFor(id).None?
      ensures low.Some? ==>
        && (exists id :: id in vaults && AwaitedFor(id) == Some(low.value + 1))
        && forall id :: id in vaults && AwaitedFor(id).Some? ==> low.value + 1 <= AwaitedFor(id).value
    {
      var min: Option<nat> := None;
      var left := vaults.Keys;
      ghost var awaited := map id | id in vaults :: AwaitedFor(id);
      while left != {}
        invariant left <= vaults.Keys
        invariant min.Some? ==> exists id :: id in vaults && awaited[id] == min
        invariant forall id :: id in vaults && id !in left && awaited[id].Some? ==>
          min.Some? && min.value <= awaited[id].value
        decreases left
      {
        var id :| id in left;
        if !vaults[id].rebuild {
          var m := vaults[id].MinPending();
          if m.Some? && (min.None? || m.value < min.value) { min := m; }
        }
        left := left - {id};
      }
      assert forall id :: id in vaults ==> awaited[id] == AwaitedFor(id);
      low := if min.None? then None else Some((min.value as int) - 1);
    }
  }
}
