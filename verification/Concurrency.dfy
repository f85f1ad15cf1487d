/**
 * At most so many at a time: `Semaphore` and `mapLimit` of
 * apps/indexer/src/util.ts, over any interleaving of their tasks.
 */
module Concurrency {
  import opened Common

  type Task = nat

  // ── Semaphore ──

  /** `holding`: the tasks let in and not finished. `arrived` and `admitted`: all of them so far, in order. */
  datatype Gate = Gate(active: int, queue: seq<Task>, holding: set<Task>, arrived: seq<Task>, admitted: seq<Task>)

  const CLOSED := Gate(0, [], {}, [], [])

  datatype Move = Arrive(t: Task) | Finish(t: Task)

  predicate CanMove(g: Gate, m: Move) {
    match m
    case Arrive(t) => t !in g.arrived
    case Finish(t) => t in g.holding
  }

  /** A task that finishes hands its place to the first that waits. */
  function Moved(g: Gate, m: Move, n: int): Gate {
    match m
    case Arrive(t) =>
      if g.active >= n then g.(queue := g.queue + [t], arrived := g.arrived + [t])
      else g.(active := g.active + 1, holding := g.holding + {t}, arrived := g.arrived + [t], admitted := g.admitted + [t])
    case Finish(t) =>
      if g.queue != [] then
        g.(queue := g.queue[1..], holding := g.holding - {t} + {g.queue[0]}, admitted := g.admitted + [g.queue[0]])
      else g.(active := g.active - 1, holding := g.holding - {t})
  }

  ghost predicate GateOk(g: Gate, n: nat) {
    && g.active == |g.holding| <= n
    && (g.queue != [] ==> g.active == n)
    && g.admitted + g.queue == g.arrived
    && (forall i, j :: 0 <= i < j < |g.arrived| ==> g.arrived[i] != g.arrived[j])
    && (forall t :: t in g.holding ==> t in g.admitted)
  }

  lemma GateKeeps(g: Gate, m: Move, n: nat)
    requires GateOk(g, n) && CanMove(g, m)
    ensures GateOk(Moved(g, m, n), n)
  {
    match m
    case Arrive(t) =>
      if g.active < n {
        assert g.queue == [] && t !in g.holding;
      } else {
        assert g.admitted + (g.queue + [t]) == g.arrived + [t];
      }
    case Finish(t) =>
      if g.queue != [] {
        var next := g.queue[0];
        assert g.arrived[|g.admitted|] == next;
        assert forall i :: 0 <= i < |g.admitted| ==> g.admitted[i] == g.arrived[i];
        assert next !in g.admitted;
        assert g.admitted + g.queue == g.admitted + [next] + g.queue[1..];
      }
  }

  ghost predicate Passes(g: Gate, moves: seq<Move>, n: nat, g': Gate)
    decreases |moves|
  {
    if moves == [] then g' == g else CanMove(g, moves[0]) && Passes(Moved(g, moves[0], n), moves[1..], n, g')
  }

  lemma {:induction false} PassesKeep(g: Gate, moves: seq<Move>, n: nat, g': Gate)
    requires GateOk(g, n) && Passes(g, moves, n, g')
    ensures GateOk(g', n)
    decreases |moves|
  {
    if moves != [] {
      GateKeeps(g, moves[0], n);
      PassesKeep(Moved(g, moves[0], n), moves[1..], n, g');
    }
  }

  /**
   * Never more than `n` inside; tasks wait only while `n` are inside, so that
   * one of them will let the next in (there is one, if `n` is not zero); and
   * tasks are let in in the order they came.
   */
  lemma SemaphoreIsSafe(moves: seq<Move>, n: nat, g: Gate)
    requires Passes(CLOSED, moves, n, g)
    ensures |g.holding| <= n
    ensures g.queue != [] ==> |g.holding| == n
    ensures g.queue != [] && n > 0 ==> exists t :: t in g.holding && CanMove(g, Finish(t)) && g.queue[0] in Moved(g, Finish(t), n).holding
    ensures g.admitted <= g.arrived && g.arrived[|g.admitted|..] == g.queue
  {
    PassesKeep(CLOSED, moves, n, g);
    if g.queue != [] && n > 0 {
      var t :| t in g.holding;
      assert CanMove(g, Finish(t)) && g.queue[0] in Moved(g, Finish(t), n).holding;
    }
  }

  class Semaphore {
    const n: int
    var active: int
    var queue: seq<Task>
    ghost var gate: Gate

    constructor (n: int)
      ensures this.n == n && Valid() && gate == CLOSED
    {
      this.n, active, queue, gate := n, 0, [], CLOSED;
    }

    ghost predicate Valid()
      reads this
    {
      active == gate.active && queue == gate.queue
    }

    /** A task comes: it is let in, or waits. */
    method Enter(t: Task) returns (admitted: bool)
      requires Valid() && CanMove(gate, Arrive(t))
      modifies this
      ensures Valid() && gate == Moved(old(gate), Arrive(t), n)
      ensures admitted <==> gate.admitted == old(gate).admitted + [t]
    {
      gate := Moved(gate, Arrive(t), n);
      admitted := active < n;
      if active >= n { queue := queue + [t]; } else { active := active + 1; }
    }

    /** A task is done, well or not: the first that waits takes its place. */
    method Leave(t: Task) returns (next: Option<Task>)
      requires Valid() && CanMove(gate, Finish(t))
      modifies this
      ensures Valid() && gate == Moved(old(gate), Finish(t), n)
      ensures next.Some? <==> old(queue) != []
      ensures next.Some? ==> next.value in gate.holding && gate.admitted == old(gate).admitted + [next.value]
    {
      gate := Moved(gate, Finish(t), n);
      if queue != [] {
        next := Some(queue[0]);
        queue := queue[1..];
      } else {
        next := None;
        active := active - 1;
      }
    }
  }

  // ── mapLimit ──

  datatype Worker = Ready | Busy(i: nat) | Stopped | Failed(i: nat)

  /** `called`: the indices the function was called with, in order. */
  datatype Mapping<R> = Mapping(next: nat, out: seq<Option<R>>, workers: seq<Worker>, called: seq<nat>)

  function Started<R>(length: nat, n: int): Mapping<R> {
    Mapping(0, seq(length, _ => None), seq(Max(0, Min(n, length)), _ => Ready), [])
  }

  datatype Turn = Takes(w: nat) | Returns(w: nat) | Fails(w: nat)

  predicate CanTurn<R>(m: Mapping<R>, t: Turn) {
    t.w < |m.workers| && if t.Takes? then m.workers[t.w].Ready? else m.workers[t.w].Busy? && m.workers[t.w].i < |m.out|
  }

  /** A worker takes the next index, or stops; a call returns at its own position, or ends the worker. */
  function Turned<R>(m: Mapping<R>, t: Turn, f: nat -> R): Mapping<R>
    requires CanTurn(m, t)
  {
    match t
    case Takes(w) =>
      if m.next < |m.out|
      then m.(next := m.next + 1, workers := m.workers[w := Busy(m.next)], called := m.called + [m.next])
      else m.(workers := m.workers[w := Stopped])
    case Returns(w) =>
      var i := m.workers[w].i;
      m.(out := m.out[i := Some(f(i))], workers := m.workers[w := Ready])
    case Fails(w) => m.(workers := m.workers[w := Failed(m.workers[w].i)])
  }

  predicate Holds(w: Worker, i: nat) {
    (w.Busy? || w.Failed?) && w.i == i
  }

  ghost predicate MappingOk<R(!new)>(m: Mapping<R>, f: nat -> R) {
    && m.next <= |m.out|
    && |m.called| == m.next && (forall k :: 0 <= k < m.next ==> m.called[k] == k)
    && (forall w :: 0 <= w < |m.workers| && (m.workers[w].Busy? || m.workers[w].Failed?) ==>
          m.workers[w].i < m.next && m.out[m.workers[w].i].None?)
    && (forall v, w :: 0 <= v < w < |m.workers| && (m.workers[v].Busy? || m.workers[v].Failed?) ==> !Holds(m.workers[w], m.workers[v].i))
    && (forall i :: 0 <= i < m.next ==> m.out[i].Some? || exists w :: 0 <= w < |m.workers| && Holds(m.workers[w], i))
    && (forall i :: 0 <= i < |m.out| && m.out[i].Some? ==> i < m.next && m.out[i].value == f(i))
    && (forall w :: 0 <= w < |m.workers| && m.workers[w].Stopped? ==> m.next == |m.out|)
  }

  /** An index taken is answered, or some worker has it. */
  lemma TurnCovers<R(!new)>(m: Mapping<R>, t: Turn, f: nat -> R, i: nat)
    requires MappingOk(m, f) && CanTurn(m, t) && i < Turned(m, t, f).next
    ensures var m' := Turned(m, t, f);
      m'.out[i].Some? || exists w :: 0 <= w < |m'.workers| && Holds(m'.workers[w], i)
  {
    var m' := Turned(m, t, f);
    if i == m.next {
      assert Holds(m'.workers[t.w], i);
    } else if m.out[i].None? {
      var w :| 0 <= w < |m.workers| && Holds(m.workers[w], i);
      if w != t.w || t.Fails? { assert Holds(m'.workers[w], i); }
    }
  }

  lemma TurnKeeps<R(!new)>(m: Mapping<R>, t: Turn, f: nat -> R)
    requires MappingOk(m, f) && CanTurn(m, t)
    ensures MappingOk(Turned(m, t, f), f)
    ensures |Turned(m, t, f).workers| == |m.workers| && |Turned(m, t, f).out| == |m.out|
  {
    var m' := Turned(m, t, f);
    forall i | 0 <= i < m'.next ensures m'.out[i].Some? || exists w :: 0 <= w < |m'.workers| && Holds(m'.workers[w], i) {
      TurnCovers(m, t, f, i);
    }
  }

  ghost predicate Runs<R(!new)>(m: Mapping<R>, turns: seq<Turn>, f: nat -> R, m': Mapping<R>)
    decreases |turns|
  {
    if turns == [] then m' == m else CanTurn(m, turns[0]) && Runs(Turned(m, turns[0], f), turns[1..], f, m')
  }

  lemma {:induction false} RunsKeep<R(!new)>(m: Mapping<R>, turns: seq<Turn>, f: nat -> R, m': Mapping<R>)
    requires MappingOk(m, f) && Runs(m, turns, f, m')
    ensures MappingOk(m', f) && |m'.workers| == |m.workers| && |m'.out| == |m.out|
    decreases |turns|
  {
    if turns != [] {
      TurnKeeps(m, turns[0], f);
      RunsKeep(Turned(m, turns[0], f), turns[1..], f, m');
    }
  }

  /** Each index is called once, in order, by at most `n` at a time, and its result stands at its own position. */
  lemma MapLimitIsExact<R(!new)>(length: nat, n: int, turns: seq<Turn>, f: nat -> R, m: Mapping<R>)
    requires Runs(Started(length, n), turns, f, m)
    ensures |m.called| <= length && forall k :: 0 <= k < |m.called| ==> m.called[k] == k
    ensures |m.workers| == Max(0, Min(n, length))
    ensures |m.out| == length && forall i :: 0 <= i < length && m.out[i].Some? ==> m.out[i].value == f(i)
    ensures forall v, w :: 0 <= v < w < |m.workers| && m.workers[v].Busy? && m.workers[w].Busy? ==> m.workers[v].i != m.workers[w].i
  {
    RunsKeep(Started(length, n), turns, f, m);
  }

  /** When all workers have stopped, all results are there, if there was any worker; with none, none is. */
  lemma MapLimitEnds<R(!new)>(length: nat, n: int, turns: seq<Turn>, f: nat -> R, m: Mapping<R>)
    requires Runs(Started(length, n), turns, f, m) && forall w :: 0 <= w < |m.workers| ==> m.workers[w].Stopped?
    ensures (forall i :: 0 <= i < length ==> |m.out| == length && m.out[i] == Some(f(i))) <==> n >= 1 || length == 0
  {
    RunsKeep(Started(length, n), turns, f, m);
    if n >= 1 && length > 0 {
      assert m.workers[0].Stopped?;
    }
    if n < 1 && length > 0 {
      NoWorkerNoTurn(Started(length, n), turns, f, m);
      assert m.out[0].None?;
    }
  }

  lemma NoWorkerNoTurn<R(!new)>(m: Mapping<R>, turns: seq<Turn>, f: nat -> R, m': Mapping<R>)
    requires m.workers == [] && Runs(m, turns, f, m')
    ensures m' == m
  {}

  /** The shared variables of `mapLimit`: the next index, and the results in place. */
  class Mapper<R(!new)> {
    var next: nat
    const out: array<Option<R>>
    ghost var m: Mapping<R>

    constructor (length: nat, n: int)
      ensures Valid() && m == Started(length, n) && fresh(out)
    {
      next := 0;
      out := new Option<R>[length](_ => None);
      m := Started(length, n);
    }

    ghost predicate Valid()
      reads this, out
    {
      next == m.next && out[..] == m.out
    }

    /** The index a worker goes on with; none when there is no more. */
    method Take(w: nat, ghost f: nat -> R) returns (i: Option<nat>)
      requires Valid() && CanTurn(m, Takes(w))
      modifies this
      ensures Valid() && m == Turned(old(m), Takes(w), f)
      ensures i == if old(next) < out.Length then Some(old(next)) else None
    {
      m := Turned(m, Takes(w), f);
      if next >= out.Length { return None; }
      i := Some(next);
      next := next + 1;
    }

    /** A call has returned. */
    method Put(w: nat, i: nat, r: R, ghost f: nat -> R)
      requires Valid() && CanTurn(m, Returns(w)) && m.workers[w] == Busy(i) && r == f(i)
      modifies this`m, out
      ensures Valid() && m == Turned(old(m), Returns(w), f)
    {
      m := Turned(m, Returns(w), f);
      out[i] := Some(r);
    }
  }
}
