/**
 * The slot that one SQLite task at a time may hold (apps/indexer/src/sched.ts):
 * interactive calls first, then live updates, then builds; a task that has
 * waited too long passes first, at most once in a while.
 */
module PrioritySlot {
  import opened Common

  const INTERACTIVE: nat := 0
  const LIVE: nat := 1
  const BUILD: nat := 2
  const AGED_EVERY: nat := 3

  /** Milliseconds after which a waiting task is aged. Interactive calls never are. */
  function AgingMs(priority: nat): nat {
    if priority == LIVE then 300 else 2000
  }

  /** `n`: rank of submission. `at`: time of submission. */
  datatype Task = Task(n: nat, priority: nat, at: int)

  datatype Start = Start(task: Task, aged: bool)

  /** The slot, and what became of the tasks submitted to it. */
  datatype Slot = Slot(
    busy: Option<Task>,
    queues: seq<seq<Task>>,
    sinceAged: nat,
    started: seq<Start>,
    finished: seq<Task>,
    rejected: seq<Task>)

  const EMPTY := Slot(None, [[], [], []], 0, [], [], [])

  datatype Event =
    | Submit(task: Task, aborted: bool)
    | Finish(now: int)
    | Abort(task: Task)
    | CancelAll

  predicate Shape(s: Slot) {
    |s.queues| == 3
  }

  predicate HeadAged(s: Slot, p: nat, now: int)
    requires Shape(s) && p < 3
  {
    s.queues[p] != [] && now - s.queues[p][0].at > AgingMs(p)
  }

  /** The queue that goes next, and whether its turn comes from age. */
  function Choice(s: Slot, now: int): (c: Option<(nat, bool)>)
    requires Shape(s)
    ensures c.Some? ==> c.value.0 < 3 && s.queues[c.value.0] != []
    ensures c.None? <==> forall p :: 0 <= p < 3 ==> s.queues[p] == []
  {
    if s.sinceAged >= AGED_EVERY && HeadAged(s, LIVE, now) then Some((LIVE, true))
    else if s.sinceAged >= AGED_EVERY && HeadAged(s, BUILD, now) then Some((BUILD, true))
    else if s.queues[INTERACTIVE] != [] then Some((INTERACTIVE, false))
    else if s.queues[LIVE] != [] then Some((LIVE, false))
    else if s.queues[BUILD] != [] then Some((BUILD, false))
    else None
  }

  /** Starts the next task, if any waits. */
  function Next(s: Slot, now: int): Slot
    requires Shape(s)
  {
    var c := Choice(s, now);
    if s.busy.Some? || c.None? then s else
      var (p, aged) := c.value;
      var t := s.queues[p][0];
      s.(busy := Some(t), queues := s.queues[p := s.queues[p][1..]],
         sinceAged := if aged then 0 else s.sinceAged + 1,
         started := s.started + [Start(t, aged)])
  }

  function Without(q: seq<Task>, t: Task): seq<Task> {
    if q == [] then [] else if q[0] == t then q[1..] else [q[0]] + Without(q[1..], t)
  }

  predicate Possible(s: Slot, e: Event) {
    match e
    case Submit(t, _) => t.priority < 3
    case Finish(_) => s.busy.Some?
    case Abort(t) => t.priority < 3
    case CancelAll => true
  }

  function Step(s: Slot, e: Event): Slot
    requires Shape(s) && Possible(s, e)
  {
    match e
    case Submit(t, aborted) =>
      if aborted then s.(rejected := s.rejected + [t])
      else Next(s.(queues := s.queues[t.priority := s.queues[t.priority] + [t]]), t.at)
    case Finish(now) => Next(s.(busy := None, finished := s.finished + [s.busy.value]), now)
    case Abort(t) =>
      if t in s.queues[t.priority]
      then s.(queues := s.queues[t.priority := Without(s.queues[t.priority], t)], rejected := s.rejected + [t])
      else s
    case CancelAll =>
      s.(queues := [[], [], []], rejected := s.rejected + s.queues[0] + s.queues[1] + s.queues[2])
  }

  /** The first of a queue has waited for more than `wait` milliseconds. */
  predicate Overdue(q: seq<Task>, wait: int, now: int) {
    |q| > 0 && now - q[0].at > wait
  }

  // ── The class ──

  class PrioritySlot {
    var busy: Option<Task>
    var queues: seq<seq<Task>>
    var sinceAged: nat
    var started: seq<Start>
    var finished: seq<Task>
    var rejected: seq<Task>

    constructor ()
      ensures State() == EMPTY
    {
      busy, queues, sinceAged := None, [[], [], []], 0;
      started, finished, rejected := [], [], [];
    }

    function State(): Slot
      reads this
    {
      Slot(busy, queues, sinceAged, started, finished, rejected)
    }

    method Pick(now: int) returns (pick: Option<Start>)
      requires Shape(State())
      modifies this`queues, this`sinceAged
      ensures var c := Choice(old(State()), now);
        && (c.None? ==> pick.None? && State() == old(State()))
        && (c.Some? ==>
              && pick == Some(Start(old(queues)[c.value.0][0], c.value.1))
              && queues == old(queues)[c.value.0 := old(queues)[c.value.0][1..]]
              && sinceAged == if c.value.1 then 0 else old(sinceAged) + 1)
      ensures var q := old(queues);
        && (pick.None? <==> q[0] == q[1] == q[2] == [])
        && (pick.Some? ==>
              var (t, aged) := (pick.value.task, pick.value.aged);
              && (aged <==> old(sinceAged) >= 3 && (Overdue(q[1], 300, now) || Overdue(q[2], 2000, now)))
              && (aged && Overdue(q[1], 300, now) ==> t == q[1][0])
              && (aged && !Overdue(q[1], 300, now) ==> t == q[2][0])
              && (!aged && q[0] != [] ==> t == q[0][0])
              && (!aged && q[0] == [] && q[1] != [] ==> t == q[1][0])
              && (!aged && q[0] == [] && q[1] == [] ==> q[2] != [] && t == q[2][0]))
    {
      if sinceAged >= AGED_EVERY {
        for p := LIVE to BUILD + 1
          invariant State() == old(State())
          invariant forall q :: LIVE <= q < p ==> !HeadAged(State(), q, now)
        {
          if queues[p] != [] && now - queues[p][0].at > AgingMs(p) {
            pick := Some(Start(queues[p][0], true));
            sinceAged := 0;
            queues := queues[p := queues[p][1..]];
            return;
          }
        }
      }
      for p := 0 to 3
        invariant State() == old(State())
        invariant forall q :: 0 <= q < p ==> queues[q] == []
        invariant sinceAged >= AGED_EVERY ==> !HeadAged(State(), LIVE, now) && !HeadAged(State(), BUILD, now)
      {
        if queues[p] != [] {
          sinceAged := sinceAged + 1;
          pick := Some(Start(queues[p][0], false));
          queues := queues[p := queues[p][1..]];
          return;
        }
      }
      pick := None;
    }

    method StartNext(now: int)
      requires Shape(State())
      modifies this
      ensures State() == Next(old(State()), now)
    {
      if busy.Some? { return; }
      var pick := Pick(now);
      if pick.None? { return; }
      busy := Some(pick.value.task);
      started := started + [pick.value];
    }

    method Run(t: Task, aborted: bool)
      requires Shape(State()) && t.priority < 3
      modifies this
      ensures State() == Step(old(State()), Submit(t, aborted))
      ensures aborted ==> rejected == old(rejected) + [t] && queues == old(queues) && started == old(started)
      ensures !aborted && old(busy).Some? ==>
        queues == old(queues)[t.priority := old(queues)[t.priority] + [t]] && started == old(started) && rejected == old(rejected)
    {
      if aborted {
        rejected := rejected + [t];
        return;
      }
      queues := queues[t.priority := queues[t.priority] + [t]];
      if busy.None? { StartNext(t.at); }
    }

    method Done(now: int)
      requires Shape(State()) && busy.Some?
      modifies this
      ensures State() == Step(old(State()), Finish(now))
    {
      finished := finished + [busy.value];
      busy := None;
      StartNext(now);
    }

    method Abandon(t: Task)
      requires Shape(State()) && t.priority < 3
      modifies this
      ensures State() == Step(old(State()), Abort(t))
    {
      var q := queues[t.priority];
      for i := 0 to |q|
        invariant State() == old(State()) && q == queues[t.priority]
        invariant t !in q[..i]
      {
        if q[i] == t {
          WithoutAt(q, i, t);
          assert t in q;
          queues := queues[t.priority := q[..i] + q[i + 1..]];
          rejected := rejected + [t];
          return;
        }
      }
    }

    method RejectAll()
      requires Shape(State())
      modifies this
      ensures State() == Step(old(State()), CancelAll)
      ensures queues == [[], [], []] && rejected == old(rejected + queues[0] + queues[1] + queues[2])
    {
      ghost var all := queues;
      for p := 0 to 3
        invariant |queues| == 3 && busy == old(busy) && sinceAged == old(sinceAged) && started == old(started) && finished == old(finished)
        invariant forall q :: 0 <= q < 3 ==> queues[q] == if q < p then [] else all[q]
        invariant rejected == old(rejected) + (if p > 0 then all[0] else []) + (if p > 1 then all[1] else []) + if p > 2 then all[2] else []
      {
        rejected := rejected + queues[p];
        queues := queues[p := []];
      }
    }
  }

  lemma {:induction false} WithoutAt(q: seq<Task>, i: nat, t: Task)
    requires i < |q| && q[i] == t && t !in q[..i]
    ensures Without(q, t) == q[..i] + q[i + 1..]
  {
    if i > 0 {
      assert q[..i][0] == q[0];
      assert q[1..][..i - 1] == q[..i][1..];
      WithoutAt(q[1..], i - 1, t);
    }
  }
}
