/**
 * The feed's positions, updated in place (`Feed` of apps/indexer/src/feed.ts),
 * and the position saved from what the shards answer (`lowWater` of
 * apps/indexer/src/shards.ts).
 */
module Feed {
  import opened Common
  import opened VaultMachine
  import opened PeerMachine

  /** A shard's answer: none if it is not running; otherwise one less than the least stamp it awaits, if any. */
  type Reply = Option<Option<int>>

  class Positions {
    var cursor: nat
    var persisted: nat
    var rewindTo: Option<nat>

    constructor (saved: nat)
      ensures cursor == persisted == saved && rewindTo.None?
    {
      cursor, persisted, rewindTo := saved, saved, None;
    }

    /** Where the feed will be read from next. */
    function Next(): nat
      reads this
    {
      if rewindTo.Some? then Min(cursor, rewindTo.value) else cursor
    }

    method Rewind()
      modifies this`rewindTo
      ensures rewindTo == Some(persisted)
    {
      rewindTo := Some(persisted);
    }

    /** The start of a turn of the loop: what was asked for is applied. */
    method Resume()
      modifies this`cursor, this`rewindTo
      ensures rewindTo.None? && cursor == old(Next()) == Next()
    {
      if rewindTo.Some? {
        cursor := Min(cursor, rewindTo.value);
        rewindTo := None;
      }
    }

    /** A page has been handed over; a rewind asked for meanwhile keeps the cursor back. */
    method Dispatched(last: nat)
      modifies this`cursor
      ensures rewindTo.None? ==> Next() == Max(old(Next()), last)
      ensures rewindTo.Some? ==> cursor == old(cursor)
    {
      if rewindTo.None? { cursor := Max(cursor, last); }
    }

    /** Saves the captured position, held back by what the shards still await. */
    method Persist(captured: nat, replies: seq<Reply>) returns (saved: bool)
      modifies this`persisted
      ensures saved <==> forall i :: 0 <= i < |replies| ==> replies[i].Some?
      ensures !saved ==> persisted == old(persisted)
      ensures saved ==> IsHeldBack(persisted, captured, replies)
    {
      saved := true;
      var low: Option<int> := None;
      for i := 0 to |replies|
        invariant saved <==> forall k :: 0 <= k < i ==> replies[k].Some?
        invariant saved ==> IsLeastReply(low, replies[..i])
      {
        if replies[i].None? {
          saved := false;
        } else if replies[i].value.Some? && (low.None? || replies[i].value.value < low.value) {
          low := replies[i].value;
          assert replies[..i + 1][i] == replies[i];
        }
      }
      assert replies[..|replies|] == replies;
      if saved { persisted := Max(0, if low.None? then captured else Min(captured, low.value)); }
    }
  }

  ghost predicate IsLeastReply(low: Option<int>, replies: seq<Reply>) {
    && (low.None? ==> forall i :: 0 <= i < |replies| && replies[i].Some? ==> replies[i].value.None?)
    && (low.Some? ==> exists i :: 0 <= i < |replies| && replies[i] == Some(low))
    && (low.Some? ==> forall i :: 0 <= i < |replies| && replies[i].Some? && replies[i].value.Some? ==>
          low.value <= replies[i].value.value)
  }

  ghost predicate IsHeldBack(position: nat, captured: nat, replies: seq<Reply>) {
    exists low :: IsLeastReply(low, replies) && position == Max(0, if low.None? then captured else Min(captured, low.value))
  }

  /** For each vault, the least stamp it awaits. */
  type Awaited = map<VaultId, Option<nat>>

  ghost predicate IsLeastAwaited(least: Option<nat>, m: Awaited) {
    && (least.None? ==> forall id :: id in m ==> m[id].None?)
    && (least.Some? ==> exists id :: id in m && m[id] == least)
    && (least.Some? ==> forall id :: id in m && m[id].Some? ==> least.value <= m[id].value)
  }

  /** What a shard that holds these vaults answers. */
  ghost predicate IsReply(reply: Reply, m: Awaited) {
    reply.Some? && IsLeastAwaited(if reply.value.Some? && reply.value.value >= -1 then Some(reply.value.value + 1) else None, m)
    && (reply.value.Some? ==> reply.value.value >= -1)
  }

  /** Each vault is on its shard, and the shards hold no other. */
  ghost predicate Shared(m: Awaited, parts: seq<Awaited>, shardOf: VaultId -> nat) {
    && (forall i, id :: 0 <= i < |parts| && id in parts[i] ==> id in m && m[id] == parts[i][id])
    && (forall id :: id in m ==> shardOf(id) < |parts| && id in parts[shardOf(id)])
  }

  ghost predicate Answered(parts: seq<Awaited>, replies: seq<Reply>) {
    |replies| == |parts| && forall i :: 0 <= i < |parts| ==> IsReply(replies[i], parts[i])
  }

  lemma LeastOfReplies(low: Option<int>, m: Awaited, parts: seq<Awaited>, replies: seq<Reply>, shardOf: VaultId -> nat, least: Option<nat>)
    requires Shared(m, parts, shardOf) && Answered(parts, replies) && IsLeastReply(low, replies) && IsLeastAwaited(least, m)
    ensures low == if least.Some? then Some(least.value - 1) else None
  {
    if low.Some? {
      var i :| 0 <= i < |replies| && replies[i] == Some(low);
      assert IsReply(replies[i], parts[i]);
      var id :| id in parts[i] && parts[i][id] == Some(low.value + 1);
      assert m[id] == Some(low.value + 1);
    }
    if least.Some? {
      var id :| id in m && m[id] == least;
      assert IsReply(replies[shardOf(id)], parts[shardOf(id)]) && parts[shardOf(id)][id] == least;
    }
  }

  lemma LeastWaitingIs(vs: map<VaultId, Vault>, m: Awaited)
    requires m.Keys == vs.Keys && forall id :: id in m ==> m[id] == FirstWaiting(vs[id])
    ensures IsLeastAwaited(LeastWaiting(vs), m)
  {}

  lemma SafeFrom(position: nat, captured: nat, vs: map<VaultId, Vault>, least: Option<nat>)
    requires least == LeastWaiting(vs)
    requires position == Max(0, if least.None? then captured else Min(captured, least.value - 1))
    ensures position == SafePosition(captured, vs)
  {}

  /** Saved from the answers of the shards, the position is the one that is safe for all vaults together. */
  lemma HeldBackIsSafe(position: nat, captured: nat, vs: map<VaultId, Vault>, m: Awaited,
                       parts: seq<Awaited>, shardOf: VaultId -> nat, replies: seq<Reply>)
    requires m.Keys == vs.Keys && forall id :: id in m ==> m[id] == FirstWaiting(vs[id])
    requires Shared(m, parts, shardOf) && Answered(parts, replies) && IsHeldBack(position, captured, replies)
    ensures position == SafePosition(captured, vs)
  {
    var least := LeastWaiting(vs);
    LeastWaitingIs(vs, m);
    var low :| IsLeastReply(low, replies) && position == Max(0, if low.None? then captured else Min(captured, low.value));
    LeastOfReplies(low, m, parts, replies, shardOf, least);
    SafeFrom(position, captured, vs, least);
  }
}
