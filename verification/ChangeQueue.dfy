/**
 * What the feed has asked for and is not indexed yet, for one vault
 * (`Pending`, `merge`, `takeDue`, `settle`, `lowWaterOf` of apps/indexer/src/store.ts).
 */
module ChangeQueue {
  import opened Common

  type DocId = string

  /** A resource of a vault: its tree, or one of its documents. */
  datatype Resource = Tree | Doc(id: DocId)

  datatype Pending = Pending(stamp: nat, firstAt: nat, lastAt: nat)

  type Queue = map<Resource, Pending>

  /** The feed stamps a unit has taken charge of. */
  type Work = map<Resource, nat>

  function Merge(p: Option<Pending>, stamp: nat, now: nat): Pending {
    match p
    case Some(q) => Pending(Max(q.stamp, stamp), q.firstAt, now)
    case None => Pending(stamp, now, now)
  }

  function Offer(q: Queue, r: Resource, stamp: nat, now: nat): Queue {
    q[r := Merge(Lookup(q, r), stamp, now)]
  }

  /** A whole page of the feed: one row per resource. */
  function Deliver(q: Queue, rows: Work, now: nat): Queue {
    map r | r in q.Keys + rows.Keys ::
      if r in rows then Merge(Lookup(q, r), rows[r], now) else q[r]
  }

  /** Entries whose stamp has not moved since the work was taken are done. */
  function Settle(q: Queue, work: Work): Queue {
    map r | r in q && !(r in work && q[r].stamp == work[r]) :: q[r]
  }

  /** Work a unit need not do: the index already records that stamp. */
  function Applied(work: Work, applied: nat): Work {
    map r | r in work && work[r] <= applied :: work[r]
  }

  function NotApplied(work: Work, applied: nat): Work {
    map r | r in work && work[r] > applied :: work[r]
  }

  function After(q: Queue, from: nat): Queue {
    map r | r in q && q[r].stamp > from :: q[r]
  }

  /** An entry last announced before a read started is part of what was read. */
  function ForgetSeenBefore(q: Queue, rs: set<Resource>, at: nat): Queue {
    map r | r in q && !(r in rs && q[r].lastAt < at) :: q[r]
  }

  function DueAt(p: Pending, debounce: nat, debounceMax: nat): nat {
    Min(p.lastAt + debounce, p.firstAt + debounceMax)
  }

  function Due(q: Queue, now: nat, debounce: nat, debounceMax: nat): Work {
    map r | r in q && DueAt(q[r], debounce, debounceMax) <= now :: q[r].stamp
  }

  ghost predicate IsLeastStamp(q: Queue, m: nat) {
    (exists r :: r in q && q[r].stamp == m) && forall r :: r in q ==> m <= q[r].stamp
  }

  ghost function LeastStamp(q: Queue): (m: Option<nat>)
    ensures m.None? <==> q == map[]
    ensures m.Some? ==> IsLeastStamp(q, m.value)
    decreases |q|
  {
    if q == map[] then None else
      var r :| r in q;
      var rest := q - {r};
      assert q == rest[r := q[r]];
      match LeastStamp(rest)
      case None => Some(q[r].stamp)
      case Some(m) => Some(Min(m, q[r].stamp))
  }

  lemma LeastStampUnique(q: Queue, m: nat)
    requires IsLeastStamp(q, m)
    ensures LeastStamp(q) == Some(m)
  {
    var r :| r in q && q[r].stamp == m;
    var k := LeastStamp(q).value;
    var s :| s in q && q[s].stamp == k;
  }

  /** Everything up to this stamp is handled. */
  ghost function LowWaterOf(q: Queue, maxSeen: nat, floor: nat): nat {
    match LeastStamp(q)
    case None => Max(floor, maxSeen)
    case Some(m) => Max(floor, Min(maxSeen, m - 1))
  }

  // ── A resource announced again and again ──

  /** A row of the feed and the time it was handed over. */
  datatype Announcement = Announcement(r: Resource, stamp: nat, at: nat)

  /** What waits after these announcements, made in this order to an empty queue. */
  function Queued(list: seq<Announcement>): Queue {
    if list == [] then map[] else
      var a := list[|list| - 1];
      Offer(Queued(list[..|list| - 1]), a.r, a.stamp, a.at)
  }

  ghost predicate FirstOf(list: seq<Announcement>, r: Resource, i: nat) {
    i < |list| && list[i].r == r && forall k :: 0 <= k < i ==> list[k].r != r
  }

  ghost predicate LastOf(list: seq<Announcement>, r: Resource, i: nat) {
    i < |list| && list[i].r == r && forall k :: i < k < |list| ==> list[k].r != r
  }

  ghost predicate GreatestOf(list: seq<Announcement>, r: Resource, stamp: nat) {
    && (exists k :: 0 <= k < |list| && list[k].r == r && list[k].stamp == stamp)
    && forall k :: 0 <= k < |list| && list[k].r == r ==> list[k].stamp <= stamp
  }

  /** The greatest stamp announced, the time of the first announcement and that of the last. */
  ghost predicate SumsUp(list: seq<Announcement>, r: Resource, p: Pending) {
    && (exists i: nat :: FirstOf(list, r, i) && list[i].at == p.firstAt)
    && (exists i: nat :: LastOf(list, r, i) && list[i].at == p.lastAt)
    && GreatestOf(list, r, p.stamp)
  }

  lemma SumsUpFirst(list: seq<Announcement>, a: Announcement)
    requires forall k :: 0 <= k < |list| ==> list[k].r != a.r
    ensures SumsUp(list + [a], a.r, Merge(None, a.stamp, a.at))
  {
    assert FirstOf(list + [a], a.r, |list|) && LastOf(list + [a], a.r, |list|);
  }

  lemma SumsUpAgain(list: seq<Announcement>, a: Announcement, p: Pending)
    requires SumsUp(list, a.r, p)
    ensures SumsUp(list + [a], a.r, Merge(Some(p), a.stamp, a.at))
  {
    var all := list + [a];
    var i: nat :| FirstOf(list, a.r, i) && list[i].at == p.firstAt;
    assert FirstOf(all, a.r, i) && all[i].at == p.firstAt;
    assert LastOf(all, a.r, |list|);
    var k :| 0 <= k < |list| && list[k].r == a.r && list[k].stamp == p.stamp;
    assert all[k] == list[k] && all[|list|] == a;
  }

  lemma SumsUpStill(list: seq<Announcement>, a: Announcement, r: Resource, p: Pending)
    requires SumsUp(list, r, p) && a.r != r
    ensures SumsUp(list + [a], r, p)
  {
    var all := list + [a];
    var i: nat :| FirstOf(list, r, i) && list[i].at == p.firstAt;
    assert FirstOf(all, r, i) && all[i].at == p.firstAt;
    var j: nat :| LastOf(list, r, j) && list[j].at == p.lastAt;
    assert LastOf(all, r, j) && all[j].at == p.lastAt;
    var k :| 0 <= k < |list| && list[k].r == r && list[k].stamp == p.stamp;
    assert all[k] == list[k];
  }

  lemma {:induction false} QueuedExact(list: seq<Announcement>, r: Resource)
    ensures r !in Queued(list) <==> forall k :: 0 <= k < |list| ==> list[k].r != r
    ensures r in Queued(list) ==> SumsUp(list, r, Queued(list)[r])
  {
    if list != [] {
      var n := |list| - 1;
      var rest, a := list[..n], list[n];
      assert list == rest + [a];
      QueuedExact(rest, r);
      assert r !in Queued(rest) <==> forall k :: 0 <= k < n ==> list[k].r != r;
      if a.r != r {
        if r in Queued(rest) { SumsUpStill(rest, a, r, Queued(rest)[r]); }
      } else if r in Queued(rest) {
        SumsUpAgain(rest, a, Queued(rest)[r]);
      } else {
        SumsUpFirst(rest, a);
      }
    }
  }

  /**
   * When a resource announced any number of times is taken: `debounce` after
   * its last announcement, and `debounceMax` after its first however many
   * follow. It is taken with the greatest stamp announced.
   */
  lemma TakenExact(list: seq<Announcement>, r: Resource, first: nat, last: nat, now: nat, debounce: nat, debounceMax: nat)
    requires FirstOf(list, r, first) && LastOf(list, r, last)
    ensures var work := Due(Queued(list), now, debounce, debounceMax);
      && (r in work <==> now >= list[last].at + debounce || now >= list[first].at + debounceMax)
      && (r in work ==> GreatestOf(list, r, work[r]))
  {
    QueuedExact(list, r);
    assert list[first].r == r;
    var p := Queued(list)[r];
    var i: nat :| FirstOf(list, r, i) && list[i].at == p.firstAt;
    var j: nat :| LastOf(list, r, j) && list[j].at == p.lastAt;
    assert i == first && j == last;
  }
}
