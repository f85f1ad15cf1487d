/** What holds over whole runs of the slot. */
module SlotTheorems {
  import opened Common
  import opened PrioritySlot

  /** A clock that never goes back, and tasks numbered as they come. */
  ghost predicate InTurn(e: Event, now: int, n: nat) {
    match e
    case Submit(t, _) => t.at >= now && t.n == n
    case Finish(at) => at >= now
    case _ => true
  }

  function TimeAfter(e: Event, now: int): int {
    match e
    case Submit(t, _) => t.at
    case Finish(at) => at
    case _ => now
  }

  function CountAfter(e: Event, n: nat): nat {
    if e.Submit? then n + 1 else n
  }

  ghost predicate Run(s: Slot, now: int, n: nat, events: seq<Event>, s': Slot)
    requires Shape(s)
    decreases |events|
  {
    if events == [] then s' == s else
      var e := events[0];
      && Possible(s, e) && InTurn(e, now, n)
      && Run(Step(s, e), TimeAfter(e, now), CountAfter(e, n), events[1..], s')
  }

  // ── Invariants ──

  function Tasks(starts: seq<Start>): seq<Task> {
    seq(|starts|, i requires 0 <= i < |starts| => starts[i].task)
  }

  ghost predicate QueueOrdered(q: seq<Task>, p: nat, now: int, n: nat) {
    && (forall i :: 0 <= i < |q| ==> q[i].priority == p && q[i].n < n && q[i].at <= now)
    && (forall i, j :: 0 <= i < j < |q| ==> q[i].n < q[j].n && q[i].at <= q[j].at)
  }

  /** Within a priority, what has started came before what waits. */
  ghost predicate StartsOrdered(starts: seq<Start>, n: nat) {
    && (forall i :: 0 <= i < |starts| ==> starts[i].task.n < n)
    && (forall i, j :: 0 <= i < j < |starts| && starts[i].task.priority == starts[j].task.priority ==> starts[i].task.n < starts[j].task.n)
  }

  ghost predicate StartedFirst(starts: seq<Start>, q: seq<Task>) {
    forall i, j :: 0 <= i < |starts| && 0 <= j < |q| && starts[i].task.priority == q[j].priority ==> starts[i].task.n < q[j].n
  }

  ghost predicate Fifo(s: Slot, now: int, n: nat)
    requires Shape(s)
  {
    && StartsOrdered(s.started, n)
    && forall p :: 0 <= p < 3 ==> QueueOrdered(s.queues[p], p, now, n) && StartedFirst(s.started, s.queues[p])
  }

  predicate Conserves(s: Slot)
    requires Shape(s)
  {
    s.busy.None? ==> forall p :: 0 <= p < 3 ==> s.queues[p] == []
  }

  /** What has started has finished, but for the one that runs. */
  predicate Exclusive(s: Slot) {
    Tasks(s.started) == s.finished + if s.busy.Some? then [s.busy.value] else []
  }

  function Occurs(q: seq<Task>, t: Task): nat {
    multiset(q)[t]
  }

  /** How many times `t` was started or rejected, or still waits. */
  function Outcomes(s: Slot, t: Task): nat
    requires Shape(s)
  {
    Occurs(Tasks(s.started), t) + Occurs(s.rejected, t) + Waiting(s.queues, t)
  }

  function Waiting(queues: seq<seq<Task>>, t: Task): nat
    requires |queues| == 3
  {
    Occurs(queues[0], t) + Occurs(queues[1], t) + Occurs(queues[2], t)
  }

  predicate Spaced(s: Slot) {
    && (forall i :: 0 <= i < |s.started| && s.started[i].aged ==> s.sinceAged < |s.started| - i)
    && (forall i, j :: 0 <= i < j < |s.started| && s.started[i].aged && s.started[j].aged ==> j - i > AGED_EVERY)
  }

  // ── Each step keeps them ──

  lemma NextFifo(s: Slot, now: int, n: nat)
    requires Shape(s) && Fifo(s, now, n)
    ensures Fifo(Next(s, now), now, n)
  {
    var c := Choice(s, now);
    if s.busy.None? && c.Some? {
      var (p, aged) := c.value;
      var s' := Next(s, now);
      var t := s.queues[p][0];
      assert t.priority == p;
      forall i | 0 <= i < |s.started| ensures s.started[i].task.priority == p ==> s.started[i].task.n < t.n {}
      forall q | 0 <= q < 3 ensures QueueOrdered(s'.queues[q], q, now, n) && StartedFirst(s'.started, s'.queues[q]) {}
    }
  }

  lemma {:induction false} WithoutFifo(q: seq<Task>, t: Task, p: nat, now: int, n: nat, starts: seq<Start>)
    requires QueueOrdered(q, p, now, n) && StartedFirst(starts, q)
    ensures QueueOrdered(Without(q, t), p, now, n) && StartedFirst(starts, Without(q, t))
  {
    if t in q {
      var i := FirstAt(q, t);
      WithoutAt(q, i, t);
    } else {
      NotThere(q, t);
    }
  }

  lemma {:induction false} FirstAt(q: seq<Task>, t: Task) returns (i: nat)
    requires t in q
    ensures i < |q| && q[i] == t && t !in q[..i]
  {
    if q[0] == t {
      i := 0;
    } else {
      i := FirstAt(q[1..], t);
      assert q[..i + 1] == [q[0]] + q[1..][..i];
      i := i + 1;
    }
  }

  lemma {:induction false} NotThere(q: seq<Task>, t: Task)
    requires t !in q
    ensures Without(q, t) == q
  {
    if q != [] { NotThere(q[1..], t); }
  }

  lemma LaterFifo(s: Slot, now: int, n: nat, now': int, n': nat)
    requires Shape(s) && Fifo(s, now, n) && now <= now' && n <= n'
    ensures Fifo(s, now', n')
  {}

  lemma FifoKept(s: Slot, e: Event, now: int, n: nat)
    requires Shape(s) && Possible(s, e) && InTurn(e, now, n) && Fifo(s, now, n)
    ensures Fifo(Step(s, e), TimeAfter(e, now), CountAfter(e, n))
  {
    LaterFifo(s, now, n, TimeAfter(e, now), CountAfter(e, n));
    match e
    case Submit(t, aborted) =>
      if !aborted {
        var s1 := s.(queues := s.queues[t.priority := s.queues[t.priority] + [t]]);
        assert Fifo(s1, t.at, n + 1);
        NextFifo(s1, t.at, n + 1);
      }
    case Finish(at) => NextFifo(s.(busy := None, finished := s.finished + [s.busy.value]), at, n);
    case Abort(t) => WithoutFifo(s.queues[t.priority], t, t.priority, now, n, s.started);
    case CancelAll =>
  }

  lemma ConservesKept(s: Slot, e: Event)
    requires Shape(s) && Possible(s, e) && Conserves(s)
    ensures Conserves(Step(s, e))
  {
    match e
    case Abort(t) => if t in s.queues[t.priority] { assert s.queues[t.priority] != []; }
    case _ =>
  }

  lemma ExclusiveKept(s: Slot, e: Event)
    requires Shape(s) && Possible(s, e) && Exclusive(s)
    ensures Exclusive(Step(s, e))
  {
    match e
    case Submit(t, aborted) =>
      if !aborted { NextExclusive(s.(queues := s.queues[t.priority := s.queues[t.priority] + [t]]), t.at); }
    case Finish(at) => NextExclusive(s.(busy := None, finished := s.finished + [s.busy.value]), at);
    case _ =>
  }

  lemma NextExclusive(s: Slot, now: int)
    requires Shape(s) && Exclusive(s)
    ensures Exclusive(Next(s, now))
  {
    var c := Choice(s, now);
    if s.busy.None? && c.Some? {
      var t := s.queues[c.value.0][0];
      assert Tasks(s.started + [Start(t, c.value.1)]) == Tasks(s.started) + [t];
      assert s.finished + [] == s.finished;
    }
  }

  lemma SpacedKept(s: Slot, e: Event)
    requires Shape(s) && Possible(s, e) && Spaced(s)
    ensures Spaced(Step(s, e))
  {}

  lemma OccursSplits(a: seq<Task>, b: seq<Task>, t: Task)
    ensures Occurs(a + b, t) == Occurs(a, t) + Occurs(b, t)
    ensures forall u :: Occurs([u], t) == if u == t then 1 else 0
  {}

  lemma OneQueueMoves(queues: seq<seq<Task>>, p: nat, q: seq<Task>, t: Task)
    requires |queues| == 3 && p < 3
    ensures Waiting(queues[p := q], t) == Waiting(queues, t) - Occurs(queues[p], t) + Occurs(q, t)
  {}

  lemma NextOutcomes(s: Slot, now: int, t: Task)
    requires Shape(s)
    ensures Outcomes(Next(s, now), t) == Outcomes(s, t)
  {
    var c := Choice(s, now);
    if s.busy.None? && c.Some? {
      var (p, aged) := c.value;
      var q := s.queues[p];
      assert q == [q[0]] + q[1..];
      OccursSplits([q[0]], q[1..], t);
      assert Tasks(s.started + [Start(q[0], aged)]) == Tasks(s.started) + [q[0]];
      OccursSplits(Tasks(s.started), [q[0]], t);
      OneQueueMoves(s.queues, p, q[1..], t);
    }
  }

  function SubmittedTimes(e: Event, t: Task): nat {
    if e.Submit? && e.task == t then 1 else 0
  }

  lemma OutcomesKept(s: Slot, e: Event, t: Task)
    requires Shape(s) && Possible(s, e)
    ensures Outcomes(Step(s, e), t) == Outcomes(s, t) + SubmittedTimes(e, t)
  {
    match e
    case Submit(u, aborted) =>
      if aborted {
        OccursSplits(s.rejected, [u], t);
      } else {
        var s1 := s.(queues := s.queues[u.priority := s.queues[u.priority] + [u]]);
        OccursSplits(s.queues[u.priority], [u], t);
        OneQueueMoves(s.queues, u.priority, s.queues[u.priority] + [u], t);
        NextOutcomes(s1, u.at, t);
      }
    case Finish(at) => NextOutcomes(s.(busy := None, finished := s.finished + [s.busy.value]), at, t);
    case Abort(u) => AbortOutcomes(s, u, t);
    case CancelAll =>
      OccursSplits(s.rejected, s.queues[0], t);
      OccursSplits(s.rejected + s.queues[0], s.queues[1], t);
      OccursSplits(s.rejected + s.queues[0] + s.queues[1], s.queues[2], t);
  }

  lemma AbortOutcomes(s: Slot, u: Task, t: Task)
    requires Shape(s) && u.priority < 3
    ensures Outcomes(Step(s, Abort(u)), t) == Outcomes(s, t)
  {
    var q := s.queues[u.priority];
    if u in q {
      var i := FirstAt(q, u);
      WithoutAt(q, i, u);
      assert q == q[..i] + ([u] + q[i + 1..]);
      OccursSplits(q[..i], [u] + q[i + 1..], t);
      OccursSplits([u], q[i + 1..], t);
      OccursSplits(q[..i], q[i + 1..], t);
      OccursSplits(s.rejected, [u], t);
      OneQueueMoves(s.queues, u.priority, Without(q, u), t);
    }
  }

  // ── Whole runs ──

  ghost predicate Inv(s: Slot, now: int, n: nat) {
    Shape(s) && Fifo(s, now, n) && Conserves(s) && Exclusive(s) && Spaced(s)
  }

  lemma StepKeeps(s: Slot, e: Event, now: int, n: nat)
    requires Inv(s, now, n) && Possible(s, e) && InTurn(e, now, n)
    ensures Inv(Step(s, e), TimeAfter(e, now), CountAfter(e, n))
  {
    FifoKept(s, e, now, n);
    ConservesKept(s, e);
    ExclusiveKept(s, e);
    SpacedKept(s, e);
  }

  function TimeAtEnd(events: seq<Event>, now: int): int {
    if events == [] then now else TimeAtEnd(events[1..], TimeAfter(events[0], now))
  }

  function CountAtEnd(events: seq<Event>, n: nat): nat {
    if events == [] then n else CountAtEnd(events[1..], CountAfter(events[0], n))
  }

  lemma {:induction false} RunKeeps(s: Slot, now: int, n: nat, events: seq<Event>, s': Slot)
    requires Inv(s, now, n) && Run(s, now, n, events, s')
    ensures Inv(s', TimeAtEnd(events, now), CountAtEnd(events, n))
    decreases |events|
  {
    if events != [] {
      var e := events[0];
      StepKeeps(s, e, now, n);
      RunKeeps(Step(s, e), TimeAfter(e, now), CountAfter(e, n), events[1..], s');
    }
  }

  /**
   * From an empty slot: one task at a time, never idle while one waits, first
   * come first served within a priority, and four starts for one out of age.
   */
  lemma SlotIsExclusiveFairAndNeverIdle(now: int, events: seq<Event>, s': Slot)
    requires Run(EMPTY, now, 0, events, s')
    ensures Shape(s') && Conserves(s') && Exclusive(s') && Spaced(s')
    ensures StartsOrdered(s'.started, CountAtEnd(events, 0))
    ensures forall p :: 0 <= p < 3 ==> StartedFirst(s'.started, s'.queues[p])
  {
    assert Inv(EMPTY, now, 0);
    RunKeeps(EMPTY, now, 0, events, s');
  }

  function SubmittedIn(events: seq<Event>, t: Task): nat {
    if events == [] then 0 else SubmittedTimes(events[0], t) + SubmittedIn(events[1..], t)
  }

  lemma {:induction false} RunOutcomes(s: Slot, now: int, n: nat, events: seq<Event>, s': Slot, t: Task)
    requires Shape(s) && Run(s, now, n, events, s')
    ensures Shape(s') && Outcomes(s', t) == Outcomes(s, t) + SubmittedIn(events, t)
    decreases |events|
  {
    if events != [] {
      var e := events[0];
      OutcomesKept(s, e, t);
      RunOutcomes(Step(s, e), TimeAfter(e, now), CountAfter(e, n), events[1..], s', t);
    }
  }

  lemma {:induction false} SubmittedAtMostOnce(s: Slot, now: int, n: nat, events: seq<Event>, s': Slot, t: Task)
    requires Shape(s) && Run(s, now, n, events, s')
    ensures SubmittedIn(events, t) <= 1
    ensures t.n < n ==> SubmittedIn(events, t) == 0
    decreases |events|
  {
    if events != [] {
      var e := events[0];
      SubmittedAtMostOnce(Step(s, e), TimeAfter(e, now), CountAfter(e, n), events[1..], s', t);
    }
  }

  /** Each task submitted has one outcome or still waits, never two; nothing else ever starts. */
  lemma EachTaskOnce(now: int, events: seq<Event>, s': Slot, t: Task)
    requires Run(EMPTY, now, 0, events, s')
    ensures Shape(s') && Outcomes(s', t) == SubmittedIn(events, t) <= 1
  {
    RunOutcomes(EMPTY, now, 0, events, s', t);
    SubmittedAtMostOnce(EMPTY, now, 0, events, s', t);
  }

  // ── Bounded bypass ──

  /** Starts still possible ahead of what waits at `i` in a queue whose head is aged. */
  function Bypass(s: Slot, i: nat): nat {
    4 * i + if s.sinceAged < AGED_EVERY then AGED_EVERY - s.sinceAged else 0
  }

  /** Starts that passed out of age in a priority that goes before `p`. */
  function AgedOver(starts: seq<Start>, p: nat): nat {
    if starts == [] then 0 else
      var last := starts[|starts| - 1];
      AgedOver(starts[..|starts| - 1], p) + if last.aged && last.task.priority < p then 1 else 0
  }

  ghost predicate AgedAt(s: Slot, p: nat, i: nat, now: int)
    requires Shape(s) && p < 3
  {
    i < |s.queues[p]| && now - s.queues[p][i].at > AgingMs(p)
  }

  /** Where a task stands in its queue. */
  ghost predicate StandsAt(s: Slot, p: nat, t: Task, i: nat)
    requires Shape(s) && p < 3
  {
    i < |s.queues[p]| && s.queues[p][i] == t
  }

  lemma OneMoreStart(starts: seq<Start>, a: Start, p: nat)
    ensures AgedOver(starts + [a], p) == AgedOver(starts, p) + if a.aged && a.task.priority < p then 1 else 0
  {
    assert (starts + [a])[..|starts|] == starts;
  }

  /** One start, seen by a task that is aged and stays: the bypass shrinks, unless a higher priority went out of age. */
  lemma StartShrinks(s: Slot, now: int, n: nat, p: nat, t: Task, i: nat) returns (i': nat)
    requires Shape(s) && Fifo(s, now, n) && s.busy.None? && (p == LIVE || p == BUILD)
    requires StandsAt(s, p, t, i) && AgedAt(s, p, i, now) && t in Next(s, now).queues[p]
    ensures StandsAt(Next(s, now), p, t, i')
    ensures |Next(s, now).started| - |s.started| + Bypass(Next(s, now), i')
         <= Bypass(s, i) + 4 * (AgedOver(Next(s, now).started, p) - AgedOver(s.started, p))
  {
    var c := Choice(s, now);
    var (q, aged) := c.value;
    var s' := Next(s, now);
    assert QueueOrdered(s.queues[p], p, now, n);
    assert s.queues[p][0].at <= t.at;
    assert HeadAged(s, p, now);
    OneMoreStart(s.started, Start(s.queues[q][0], aged), p);
    assert QueueOrdered(s.queues[q], q, now, n);
    if q == p {
      var k :| 0 <= k < |s'.queues[p]| && s'.queues[p][k] == t;
      assert s.queues[p][k + 1] == t;
      assert k + 1 == i;
      i' := k;
    } else {
      i' := i;
    }
  }

  lemma StepShrinks(s: Slot, e: Event, now: int, n: nat, p: nat, t: Task, i: nat) returns (i': nat)
    requires Inv(s, now, n) && Possible(s, e) && InTurn(e, now, n) && (p == LIVE || p == BUILD)
    requires StandsAt(s, p, t, i) && AgedAt(s, p, i, now) && t in Step(s, e).queues[p]
    ensures StandsAt(Step(s, e), p, t, i') && AgedAt(Step(s, e), p, i', TimeAfter(e, now))
    ensures |Step(s, e).started| - |s.started| + Bypass(Step(s, e), i')
         <= Bypass(s, i) + 4 * (AgedOver(Step(s, e).started, p) - AgedOver(s.started, p))
  {
    assert QueueOrdered(s.queues[p], p, now, n);
    match e
    case Submit(u, aborted) => i' := i;
    case Finish(at) =>
      var s1 := s.(busy := None, finished := s.finished + [s.busy.value]);
      LaterFifo(s, now, n, at, n);
      i' := StartShrinks(s1, at, n, p, t, i);
    case Abort(u) => i' := AbortShrinks(s, u, p, t, i);
    case CancelAll => i' := i;
  }

  lemma AbortShrinks(s: Slot, u: Task, p: nat, t: Task, i: nat) returns (i': nat)
    requires Shape(s) && u.priority < 3 && p < 3 && StandsAt(s, p, t, i)
    requires forall k, m :: 0 <= k < m < |s.queues[p]| ==> s.queues[p][k].n < s.queues[p][m].n
    requires t in Step(s, Abort(u)).queues[p]
    ensures i' <= i && StandsAt(Step(s, Abort(u)), p, t, i')
  {
    i' := i;
    var q := s.queues[u.priority];
    if u in q && u.priority == p {
      var k := FirstAt(q, u);
      WithoutAt(q, k, u);
      var m :| 0 <= m < |Without(q, u)| && Without(q, u)[m] == t;
      assert Without(q, u)[m] == if m < k then q[m] else q[m + 1];
      i' := m;
    }
  }

  /** `t` waits in every state of the run. */
  ghost predicate KeepsWaiting(s: Slot, events: seq<Event>, p: nat, t: Task)
    requires Shape(s) && p < 3
    decreases |events|
  {
    t in s.queues[p] && (events != [] && Possible(s, events[0]) ==> KeepsWaiting(Step(s, events[0]), events[1..], p, t))
  }

  lemma {:induction false} BypassIsBounded(s: Slot, now: int, n: nat, events: seq<Event>, s': Slot, p: nat, t: Task, i: nat)
    requires Inv(s, now, n) && Run(s, now, n, events, s') && (p == LIVE || p == BUILD)
    requires StandsAt(s, p, t, i) && AgedAt(s, p, i, now) && KeepsWaiting(s, events, p, t)
    ensures |s'.started| - |s.started| <= Bypass(s, i) + 4 * (AgedOver(s'.started, p) - AgedOver(s.started, p))
    decreases |events|
  {
    if events != [] {
      var e := events[0];
      StepKeeps(s, e, now, n);
      var i' := StepShrinks(s, e, now, n, p, t, i);
      BypassIsBounded(Step(s, e), TimeAfter(e, now), CountAfter(e, n), events[1..], s', p, t, i');
    }
  }

  lemma StepNotOverLive(s: Slot, e: Event, now: int, n: nat)
    requires Shape(s) && Fifo(s, now, n) && Possible(s, e) && InTurn(e, now, n)
    ensures AgedOver(Step(s, e).started, LIVE) == AgedOver(s.started, LIVE)
  {
    match e
    case Submit(u, aborted) =>
      if !aborted {
        var s1 := s.(queues := s.queues[u.priority := s.queues[u.priority] + [u]]);
        LaterFifo(s, now, n, u.at, n + 1);
        assert Fifo(s1, u.at, n + 1);
        NextNotOverLive(s1, u.at, n + 1);
      }
    case Finish(at) =>
      LaterFifo(s, now, n, at, n);
      NextNotOverLive(s.(busy := None, finished := s.finished + [s.busy.value]), at, n);
    case _ =>
  }

  /** Interactive calls never pass out of age, so nothing passes out of age over a live update. */
  lemma {:induction false} NothingAgedOverLive(s: Slot, now: int, n: nat, events: seq<Event>, s': Slot)
    requires Inv(s, now, n) && Run(s, now, n, events, s')
    ensures AgedOver(s'.started, LIVE) == AgedOver(s.started, LIVE)
    decreases |events|
  {
    if events != [] {
      var e := events[0];
      StepKeeps(s, e, now, n);
      StepNotOverLive(s, e, now, n);
      NothingAgedOverLive(Step(s, e), TimeAfter(e, now), CountAfter(e, n), events[1..], s');
    }
  }

  /** What starts out of age is a live update or a build. */
  lemma AgedIsNotACall(s: Slot, now: int, n: nat)
    requires Shape(s) && Choice(s, now).Some? && QueueOrdered(s.queues[Choice(s, now).value.0], Choice(s, now).value.0, now, n)
    ensures var (q, aged) := Choice(s, now).value; aged ==> s.queues[q][0].priority >= LIVE
  {}

  lemma NextNotOverLive(s: Slot, now: int, n: nat)
    requires Shape(s) && Fifo(s, now, n)
    ensures AgedOver(Next(s, now).started, LIVE) == AgedOver(s.started, LIVE)
  {
    var c := Choice(s, now);
    if s.busy.None? && c.Some? {
      var (q, aged) := c.value;
      AgedIsNotACall(s, now, n);
      OneMoreStart(s.started, Start(s.queues[q][0], aged), LIVE);
    }
  }

  /**
   * However many calls come in: a live update behind `j` others that has waited
   * for more than 300 ms is passed by at most 4j + 3 starts. A build behind `j`
   * others that has waited for more than 2 s, by four more for each live update
   * that passes out of age meanwhile.
   */
  lemma AgedTasksPass(s: Slot, now: int, n: nat, events: seq<Event>, s': Slot, t: Task, j: nat)
    requires Inv(s, now, n) && Run(s, now, n, events, s') && t.priority < 3 && KeepsWaiting(s, events, t.priority, t)
    requires StandsAt(s, t.priority, t, j) && now - t.at > if t.priority == LIVE then 300 else 2000
    ensures t.priority == LIVE ==> |s'.started| - |s.started| <= 4 * j + 3
    ensures t.priority == BUILD ==>
      |s'.started| - |s.started| <= 4 * (j + AgedOver(s'.started, BUILD) - AgedOver(s.started, BUILD)) + 3
  {
    if t.priority == LIVE || t.priority == BUILD {
      BypassIsBounded(s, now, n, events, s', t.priority, t, j);
      NothingAgedOverLive(s, now, n, events, s');
    }
  }
}
