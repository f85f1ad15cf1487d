/**
 * The cache and the generations (`callCached` of apps/indexer/src/service.ts,
 * `receive` and `call` of apps/indexer/src/shards.ts, `call` and `bump` of
 * apps/indexer/src/store.ts): indexes change in the shards, their messages
 * travel, and the main thread answers from what it was told last.
 */
module CacheCoherence {
  import opened Common
  import opened Text
  import opened ResultCache
  import opened CacheTheorems

  /** One state of an index, from which every answer follows. */
  type View = nat

  datatype Call = Call(vault: Text, capability: Text, name: Text, params: Text)

  type Answers = (View, Call) -> Text

  datatype Message =
    | Gen(gen: nat)
    | Reply(call: Call, json: Text, gen: nat)

  /** One life of the shard of a vault: when it began, and its views by generation. */
  datatype Life = Life(start: int, views: seq<View>)

  datatype System = System(
    past: map<Text, seq<Life>>,         // for the proof: the lives that are over
    hist: map<Text, seq<View>>,         // per vault, the views of the shard's present life, by generation
    startedAt: map<Text, int>,          // when that life began
    channel: map<Text, seq<Message>>,   // on their way to the main thread
    gens: map<Text, nat>,               // what the main thread knows
    settled: seq<Message>,              // replies received, not stored yet
    es: seq<Entry>,
    now: int)

  datatype Action =
    | Tick
    | Opens(v: Text, view: View)
    | Changes(v: Text, view: View)
    | Answered(c: Call)
    | Receives(v: Text)
    | Stores(i: nat)
    | LooksUp(c: Call)
    | Restarts(v: Text, view: View)

  /** What `isVaultId` and `isName` let through. */
  predicate WellNamed(c: Call) {
    NoZero(c.vault) && NoZero(c.capability) && NoZero(c.name)
  }

  function KeyOf(c: Call): Text {
    Key(c.vault, c.capability, c.name, c.params)
  }

  ghost predicate Possible(s: System, a: Action) {
    match a
    case Tick => true
    case Opens(v, _) => v !in s.hist
    case Changes(v, _) => v in s.hist && s.hist[v] != [] && v in s.channel
    case Answered(c) => c.vault in s.hist && s.hist[c.vault] != [] && c.vault in s.channel && WellNamed(c)
    case Receives(v) => v in s.channel && s.channel[v] != []
    case Stores(i) => i < |s.settled| && s.settled[i].Reply?
    case LooksUp(c) => WellNamed(c)
    case Restarts(v, _) => v in s.hist && s.settled == []
  }

  /** The lives of the shard of a vault, the present one last. */
  function LivesOf(s: System, v: Text): seq<Life> {
    (if v in s.past then s.past[v] else []) + (if v in s.hist && v in s.startedAt then [Life(s.startedAt[v], s.hist[v])] else [])
  }

  function Latest(s: System, v: Text): nat
    requires v in s.hist && s.hist[v] != []
  {
    |s.hist[v]| - 1
  }

  /** The state after, the cache being free to evict as it must. */
  ghost predicate Steps(s: System, a: Action, s': System, ans: Answers, l: Limits)
    requires Possible(s, a)
  {
    match a
    case Tick => s' == s.(now := s.now + 1)
    case Opens(v, view) =>
      s' == s.(hist := s.hist[v := [view]], channel := s.channel[v := []], startedAt := s.startedAt[v := s.now])
    case Changes(v, view) =>
      s' == s.(hist := s.hist[v := s.hist[v] + [view]], channel := s.channel[v := s.channel[v] + [Gen(|s.hist[v]|)]])
    case Answered(c) =>
      var g := Latest(s, c.vault);
      s' == s.(channel := s.channel[c.vault := s.channel[c.vault] + [Reply(c, ans(s.hist[c.vault][g], c), g)]])
    case Receives(v) =>
      var m := s.channel[v][0];
      var known := v in s.gens && m.gen <= s.gens[v] && m.Reply?;
      s' == s.(channel := s.channel[v := s.channel[v][1..]],
               gens := if known then s.gens else s.gens[v := m.gen],
               settled := if m.Reply? then s.settled + [m] else s.settled)
    case Stores(i) =>
      var m := s.settled[i];
      && AfterSet(s.es, Entry(KeyOf(m.call), m.call.vault, m.gen, m.json, s.now), l, s'.es)
      && s' == s.(settled := s.settled[..i] + s.settled[i + 1..], es := s'.es)
    case LooksUp(c) =>
      s' == s.(es := AfterGet(s.es, KeyOf(c), Lookup(s.gens, c.vault), s.now, l))
    case Restarts(v, view) =>
      s' == s.(past := s.past[v := LivesOf(s, v)],
               hist := s.hist[v := [view]], channel := s.channel[v := []], startedAt := s.startedAt[v := s.now + 1], now := s.now + 1)
  }

  /** What a call is answered without asking the shard, if anything. */
  function Served(s: System, c: Call, l: Limits): Option<Text> {
    var e := Find(s.es, KeyOf(c));
    if Enabled(l) && Good(e, Lookup(s.gens, c.vault), s.now, l) then Some(e.value.json) else None
  }

  // ── The invariant ──

  /** This is what the index answered to `c` at generation `g` of its present life. */
  ghost predicate TrueAt(s: System, c: Call, g: nat, json: Text, ans: Answers) {
    WellNamed(c) && c.vault in s.hist && g < |s.hist[c.vault]| && json == ans(s.hist[c.vault][g], c)
  }

  ghost predicate EntryTrue(s: System, e: Entry, ans: Answers) {
    exists c: Call :: c.vault == e.vault && KeyOf(c) == e.key && TrueAt(s, c, e.gen, e.json, ans)
  }

  /** The key of any entry, old or new, is that of a call to its vault. */
  ghost predicate EntryNamed(e: Entry) {
    exists c: Call :: WellNamed(c) && c.vault == e.vault && KeyOf(c) == e.key
  }

  ghost predicate MessageTrue(s: System, v: Text, m: Message, ans: Answers) {
    match m
    case Gen(g) => v in s.hist && g < |s.hist[v]|
    case Reply(c, json, g) => c.vault == v && TrueAt(s, c, g, json, ans)
  }

  ghost predicate ChannelsTrue(s: System, ans: Answers) {
    forall v, k :: v in s.channel && 0 <= k < |s.channel[v]| ==> MessageTrue(s, v, s.channel[v][k], ans)
  }

  ghost predicate SettledTrue(s: System, ans: Answers) {
    forall k :: 0 <= k < |s.settled| ==> s.settled[k].Reply? && MessageTrue(s, s.settled[k].call.vault, s.settled[k], ans)
  }

  /** Entries stored in the present life of their vault are true. */
  ghost predicate EntriesTrue(s: System, ans: Answers) {
    && (forall e :: e in s.es ==> EntryNamed(e) && e.vault in s.startedAt && e.at <= s.now)
    && (forall e :: e in s.es && e.vault in s.startedAt && e.at >= s.startedAt[e.vault] ==> EntryTrue(s, e, ans))
    && DistinctKeys(s.es)
  }

  ghost predicate Alive(s: System) {
    && s.channel.Keys == s.hist.Keys == s.startedAt.Keys && s.past.Keys <= s.hist.Keys
    && forall v :: v in s.hist ==> s.hist[v] != [] && s.startedAt[v] <= s.now
  }

  ghost predicate Inv(s: System, ans: Answers) {
    Alive(s) && ChannelsTrue(s, ans) && SettledTrue(s, ans) && EntriesTrue(s, ans)
  }

  /** What was true stays true while the views only grow. */
  lemma MessageStays(s: System, s': System, v: Text, m: Message, ans: Answers)
    requires MessageTrue(s, v, m, ans) && v in s.hist && v in s'.hist && s.hist[v] <= s'.hist[v]
    ensures MessageTrue(s', v, m, ans)
  {}

  lemma EntryStays(s: System, s': System, e: Entry, ans: Answers)
    requires EntryTrue(s, e, ans) && e.vault in s.hist && e.vault in s'.hist && s.hist[e.vault] <= s'.hist[e.vault]
    ensures EntryTrue(s', e, ans)
  {
    var c: Call :| c.vault == e.vault && KeyOf(c) == e.key && TrueAt(s, c, e.gen, e.json, ans);
    assert TrueAt(s', c, e.gen, e.json, ans);
  }

  ghost predicate Grows(s: System, s': System) {
    forall v :: v in s.hist ==> v in s'.hist && s.hist[v] <= s'.hist[v]
  }

  lemma SubsetOfEntries(es: seq<Entry>, key: Text, gen: Option<nat>, now: int, l: Limits)
    requires DistinctKeys(es)
    ensures DistinctKeys(AfterGet(es, key, gen, now, l))
    ensures forall e :: e in AfterGet(es, key, gen, now, l) ==> e in es
  {
    WithoutKey(es, key);
    if Find(es, key).Some? { PutLast(es, Find(es, key).value); }
  }

  lemma KeptEntries(es: seq<Entry>, full: seq<Entry>)
    requires DistinctKeys(full) && |es| <= |full| && es == full[|full| - |es|..]
    ensures DistinctKeys(es) && forall x :: x in es ==> x in full
  {
    var n := |full| - |es|;
    forall i, j | 0 <= i < j < |es| ensures es[i].key != es[j].key {
      assert es[i] == full[n + i] && es[j] == full[n + j];
    }
  }

  lemma FullEntries(es: seq<Entry>, e: Entry, full: seq<Entry>)
    requires DistinctKeys(es) && full == Without(es, e.key) + [e]
    ensures DistinctKeys(full) && forall x :: x in full ==> x in es || x == e
  {
    WithoutKey(es, e.key);
    PutLast(es, e);
  }

  lemma NewEntries(es: seq<Entry>, e: Entry, l: Limits, es': seq<Entry>)
    requires DistinctKeys(es) && AfterSet(es, e, l, es')
    ensures DistinctKeys(es')
    ensures forall x :: x in es' ==> x in es || x == e
  {
    if Enabled(l) && !Oversized(e, l) {
      var full := Without(es, e.key) + [e];
      FullEntries(es, e, full);
      KeptEntries(es', full);
    }
  }

  lemma SettledStays(s: System, s': System, ans: Answers)
    requires Alive(s) && SettledTrue(s, ans) && Grows(s, s') && s'.settled == s.settled
    ensures SettledTrue(s', ans)
  {
    forall k | 0 <= k < |s.settled| ensures MessageTrue(s', s.settled[k].call.vault, s.settled[k], ans) {
      MessageStays(s, s', s.settled[k].call.vault, s.settled[k], ans);
    }
  }

  lemma EntriesStay(s: System, s': System, ans: Answers)
    requires Alive(s) && EntriesTrue(s, ans) && Grows(s, s') && DistinctKeys(s'.es) && s.now <= s'.now
    requires forall e :: e in s'.es ==> e in s.es
    requires forall v :: v in s.startedAt ==> v in s'.startedAt && s'.startedAt[v] >= s.startedAt[v]
    ensures EntriesTrue(s', ans)
  {
    forall e | e in s'.es && e.at >= s'.startedAt[e.vault] ensures EntryTrue(s', e, ans) {
      EntryStays(s, s', e, ans);
    }
  }

  lemma ChannelsStay(s: System, s': System, ans: Answers)
    requires Alive(s) && ChannelsTrue(s, ans) && Grows(s, s')
    requires forall u :: u in s'.channel ==> s'.channel[u] == [] || (u in s.channel && s'.channel[u] == s.channel[u])
    ensures ChannelsTrue(s', ans)
  {
    forall u, k | u in s'.channel && 0 <= k < |s'.channel[u]| ensures MessageTrue(s', u, s'.channel[u][k], ans) {
      MessageStays(s, s', u, s.channel[u][k], ans);
    }
  }

  /** One more message, true now. */
  lemma MessageSent(s: System, s': System, v: Text, m: Message, ans: Answers)
    requires Alive(s) && ChannelsTrue(s, ans) && Grows(s, s') && v in s.channel
    requires s'.channel == s.channel[v := s.channel[v] + [m]] && MessageTrue(s', v, m, ans)
    ensures ChannelsTrue(s', ans)
  {
    forall u, k | u in s'.channel && 0 <= k < |s'.channel[u]| ensures MessageTrue(s', u, s'.channel[u][k], ans) {
      if u != v || k < |s.channel[v]| { MessageStays(s, s', u, s.channel[u][k], ans); }
    }
  }

  lemma OpenKeeps(s: System, v: Text, view: View, s': System, ans: Answers, l: Limits)
    requires Inv(s, ans) && Possible(s, Opens(v, view)) && Steps(s, Opens(v, view), s', ans, l)
    ensures Inv(s', ans)
  {
    SettledStays(s, s', ans);
    EntriesStay(s, s', ans);
    ChannelsStay(s, s', ans);
  }

  lemma ChangeKeeps(s: System, v: Text, view: View, s': System, ans: Answers, l: Limits)
    requires Inv(s, ans) && Possible(s, Changes(v, view)) && Steps(s, Changes(v, view), s', ans, l)
    ensures Inv(s', ans)
  {
    SettledStays(s, s', ans);
    EntriesStay(s, s', ans);
    MessageSent(s, s', v, Gen(|s.hist[v]|), ans);
  }

  lemma AnswerKeeps(s: System, c: Call, s': System, ans: Answers, l: Limits)
    requires Inv(s, ans) && Possible(s, Answered(c)) && Steps(s, Answered(c), s', ans, l)
    ensures Inv(s', ans)
  {
    SettledStays(s, s', ans);
    EntriesStay(s, s', ans);
    var g := Latest(s, c.vault);
    MessageSent(s, s', c.vault, Reply(c, ans(s.hist[c.vault][g], c), g), ans);
  }

  lemma ReceiveKeeps(s: System, v: Text, s': System, ans: Answers, l: Limits)
    requires Inv(s, ans) && Possible(s, Receives(v)) && Steps(s, Receives(v), s', ans, l)
    ensures Inv(s', ans)
  {
    EntriesStay(s, s', ans);
    var m := s.channel[v][0];
    assert MessageTrue(s, v, m, ans);
    forall u, k | u in s'.channel && 0 <= k < |s'.channel[u]| ensures MessageTrue(s', u, s'.channel[u][k], ans) {
      MessageStays(s, s', u, s.channel[u][if u == v then k + 1 else k], ans);
    }
    forall k | 0 <= k < |s'.settled| ensures s'.settled[k].Reply? && MessageTrue(s', s'.settled[k].call.vault, s'.settled[k], ans) {
      if k < |s.settled| {
        MessageStays(s, s', s.settled[k].call.vault, s.settled[k], ans);
      } else {
        MessageStays(s, s', v, m, ans);
      }
    }
  }

  lemma StoreKeeps(s: System, i: nat, s': System, ans: Answers, l: Limits)
    requires Inv(s, ans) && Possible(s, Stores(i)) && Steps(s, Stores(i), s', ans, l)
    ensures Inv(s', ans)
  {
    var m := s.settled[i];
    var stored := Entry(KeyOf(m.call), m.call.vault, m.gen, m.json, s.now);
    NewEntries(s.es, stored, l, s'.es);
    assert TrueAt(s, m.call, m.gen, m.json, ans);
    assert EntryTrue(s, stored, ans) && EntryNamed(stored);
    var with := s.(es := s'.es);
    assert EntriesTrue(with, ans);
    EntriesStay(with, s', ans);
    ChannelsStay(s, s', ans);
    OneSettledLess(s, i, s', ans);
  }

  lemma OneSettledLess(s: System, i: nat, s': System, ans: Answers)
    requires Alive(s) && SettledTrue(s, ans) && Grows(s, s')
    requires i < |s.settled| && s'.settled == s.settled[..i] + s.settled[i + 1..]
    ensures SettledTrue(s', ans)
  {
    forall k | 0 <= k < |s'.settled| ensures s'.settled[k].Reply? && MessageTrue(s', s'.settled[k].call.vault, s'.settled[k], ans) {
      var from := s.settled[if k < i then k else k + 1];
      assert s'.settled[k] == from;
      MessageStays(s, s', from.call.vault, from, ans);
    }
  }

  lemma LookUpKeeps(s: System, c: Call, s': System, ans: Answers, l: Limits)
    requires Inv(s, ans) && Possible(s, LooksUp(c)) && Steps(s, LooksUp(c), s', ans, l)
    ensures Inv(s', ans)
  {
    SubsetOfEntries(s.es, KeyOf(c), Lookup(s.gens, c.vault), s.now, l);
    EntriesStay(s, s', ans);
    SettledStays(s, s', ans);
    ChannelsStay(s, s', ans);
  }

  lemma RestartKeeps(s: System, v: Text, view: View, s': System, ans: Answers, l: Limits)
    requires Inv(s, ans) && Possible(s, Restarts(v, view)) && Steps(s, Restarts(v, view), s', ans, l)
    ensures Inv(s', ans)
  {
    forall u, k | u in s'.channel && 0 <= k < |s'.channel[u]| ensures MessageTrue(s', u, s'.channel[u][k], ans) {
      MessageStays(s, s', u, s.channel[u][k], ans);
    }
    forall e | e in s'.es && e.vault in s'.startedAt && e.at >= s'.startedAt[e.vault] ensures EntryTrue(s', e, ans) {
      EntryStays(s, s', e, ans);
    }
  }

  lemma StepKeeps(s: System, a: Action, s': System, ans: Answers, l: Limits)
    requires Inv(s, ans) && Possible(s, a) && Steps(s, a, s', ans, l)
    ensures Inv(s', ans)
  {
    match a
    case Tick =>
      EntriesStay(s, s', ans);
      SettledStays(s, s', ans);
      ChannelsStay(s, s', ans);
    case Receives(v) => ReceiveKeeps(s, v, s', ans, l);
    case Stores(i) => StoreKeeps(s, i, s', ans, l);
    case LooksUp(c) => LookUpKeeps(s, c, s', ans, l);
    case Restarts(v, view) => RestartKeeps(s, v, view, s', ans, l);
    case Opens(v, view) => OpenKeeps(s, v, view, s', ans, l);
    case Changes(v, view) => ChangeKeeps(s, v, view, s', ans, l);
    case Answered(c) => AnswerKeeps(s, c, s', ans, l);
  }

  // ── Whole runs ──

  ghost predicate Run(s: System, actions: seq<Action>, s': System, ans: Answers, l: Limits)
    decreases |actions|
  {
    if actions == [] then s' == s else
      Possible(s, actions[0]) && exists m :: Steps(s, actions[0], m, ans, l) && Run(m, actions[1..], s', ans, l)
  }

  const NOTHING := System(map[], map[], map[], map[], map[], [], [], 0)

  lemma {:induction false} RunKeeps(s: System, actions: seq<Action>, s': System, ans: Answers, l: Limits)
    requires Inv(s, ans) && Run(s, actions, s', ans, l)
    ensures Inv(s', ans)
    decreases |actions|
  {
    if actions != [] {
      var m :| Steps(s, actions[0], m, ans, l) && Run(m, actions[1..], s', ans, l);
      StepKeeps(s, actions[0], m, ans, l);
      RunKeeps(m, actions[1..], s', ans, l);
    }
  }

  /** The answer of the present index to `c`, at the generation the main thread knows. */
  ghost predicate Coherent(s: System, c: Call, json: Text, ans: Answers) {
    && c.vault in s.hist && c.vault in s.gens && s.gens[c.vault] < |s.hist[c.vault]|
    && json == ans(s.hist[c.vault][s.gens[c.vault]], c)
  }

  /**
   * What a call is served from the cache, if it was stored since the vault's
   * shard last started, is what its index answered to that same call at the
   * generation the main thread knows.
   */
  lemma ServedIsCoherent(actions: seq<Action>, s: System, ans: Answers, l: Limits, c: Call)
    requires Run(NOTHING, actions, s, ans, l) && WellNamed(c) && Served(s, c, l).Some?
    requires c.vault in s.startedAt && Find(s.es, KeyOf(c)).value.at >= s.startedAt[c.vault]
    ensures Coherent(s, c, Served(s, c, l).value, ans)
  {
    assert Inv(NOTHING, ans);
    RunKeeps(NOTHING, actions, s, ans, l);
    ServedIsTrue(s, ans, l, c);
  }

  lemma SameCall(c: Call, d: Call)
    requires WellNamed(c) && WellNamed(d) && KeyOf(c) == KeyOf(d)
    ensures c == d
  {
    KeyIsInjective(c.vault, c.capability, c.name, c.params, d.vault, d.capability, d.name, d.params);
  }

  lemma ServedIsTrue(s: System, ans: Answers, l: Limits, c: Call)
    requires EntriesTrue(s, ans) && WellNamed(c) && Served(s, c, l).Some?
    requires c.vault in s.startedAt && Find(s.es, KeyOf(c)).value.at >= s.startedAt[c.vault]
    ensures c.vault in s.gens && TrueAt(s, c, s.gens[c.vault], Served(s, c, l).value, ans)
  {
    var e := Find(s.es, KeyOf(c)).value;
    assert EntryNamed(e);
    var d: Call :| WellNamed(d) && d.vault == e.vault && KeyOf(d) == e.key;
    SameCall(c, d);
    assert EntryTrue(s, e, ans);
    var b: Call :| b.vault == e.vault && KeyOf(b) == e.key && TrueAt(s, b, e.gen, e.json, ans);
    SameCall(c, b);
  }

  // ── Once it is told ──

  /** The last generation announced among these messages. */
  function LastTold(ms: seq<Message>): Option<nat> {
    if ms == [] then None else
      var m := ms[|ms| - 1];
      if m.Gen? then Some(m.gen) else LastTold(ms[..|ms| - 1])
  }

  /** The generation the index is at is on its way, the last one told, or known. */
  ghost predicate Told(s: System, v: Text)
    requires v in s.hist && v in s.channel
  {
    |s.hist[v]| >= 2 ==>
      match LastTold(s.channel[v])
      case Some(g) => g == |s.hist[v]| - 1
      case None => Lookup(s.gens, v) == Some(|s.hist[v]| - 1)
  }

  lemma OneMoreTold(ms: seq<Message>, m: Message)
    ensures LastTold(ms + [m]) == if m.Gen? then Some(m.gen) else LastTold(ms)
  {
    assert (ms + [m])[..|ms|] == ms;
  }

  lemma {:induction false} FirstTaken(ms: seq<Message>)
    requires ms != []
    ensures LastTold(ms) == if LastTold(ms[1..]).Some? then LastTold(ms[1..]) else if ms[0].Gen? then Some(ms[0].gen) else None
  {
    var n := |ms| - 1;
    if n > 0 {
      assert ms[1..][n - 1] == ms[n] && ms[1..][..n - 1] == ms[..n][1..];
      if !ms[n].Gen? { FirstTaken(ms[..n]); }
    }
  }

  lemma ReceiveTells(s: System, v: Text, s': System, ans: Answers, l: Limits)
    requires Inv(s, ans) && Possible(s, Receives(v)) && Steps(s, Receives(v), s', ans, l) && Told(s, v)
    ensures Told(s', v)
  {
    assert MessageTrue(s, v, s.channel[v][0], ans);
    FirstTaken(s.channel[v]);
  }

  lemma StepTells(s: System, a: Action, s': System, ans: Answers, l: Limits, v: Text)
    requires Inv(s, ans) && Possible(s, a) && Steps(s, a, s', ans, l) && v in s'.hist && v in s'.channel
    requires v in s.hist ==> Told(s, v)
    ensures Told(s', v)
  {
    match a
    case Changes(u, _) => if u == v { OneMoreTold(s.channel[v], Gen(|s.hist[v]|)); }
    case Answered(c) =>
      if c.vault == v {
        var g := Latest(s, v);
        OneMoreTold(s.channel[v], Reply(c, ans(s.hist[v][g], c), g));
      }
    case Receives(u) => if u == v { ReceiveTells(s, v, s', ans, l); }
    case _ =>
  }

  lemma {:induction false} RunTells(s: System, actions: seq<Action>, s': System, ans: Answers, l: Limits, v: Text)
    requires Inv(s, ans) && Run(s, actions, s', ans, l) && v in s'.hist
    requires v in s.hist ==> Told(s, v)
    ensures Inv(s', ans) && Told(s', v)
    decreases |actions|
  {
    if actions != [] {
      var m :| Steps(s, actions[0], m, ans, l) && Run(m, actions[1..], s', ans, l);
      StepKeeps(s, actions[0], m, ans, l);
      if v in m.hist { StepTells(s, actions[0], m, ans, l, v); }
      RunTells(m, actions[1..], s', ans, l, v);
    }
  }

  /**
   * Once no generation of the vault is on its way any more, what a call is
   * served is what the index answers now, if it was stored since the vault's
   * shard last started.
   */
  lemma ServedIsCurrent(actions: seq<Action>, s: System, ans: Answers, l: Limits, c: Call)
    requires Run(NOTHING, actions, s, ans, l) && WellNamed(c) && Served(s, c, l).Some?
    requires c.vault in s.startedAt && Find(s.es, KeyOf(c)).value.at >= s.startedAt[c.vault]
    requires c.vault in s.channel && forall k :: 0 <= k < |s.channel[c.vault]| ==> !s.channel[c.vault][k].Gen?
    ensures c.vault in s.hist && s.hist[c.vault] != []
    ensures Served(s, c, l).value == ans(s.hist[c.vault][|s.hist[c.vault]| - 1], c)
  {
    assert Inv(NOTHING, ans);
    RunKeeps(NOTHING, actions, s, ans, l);
    ServedIsTrue(s, ans, l, c);
    RunTells(NOTHING, actions, s, ans, l, c.vault);
    NothingTold(s.channel[c.vault]);
  }

  lemma {:induction false} NothingTold(ms: seq<Message>)
    requires forall k :: 0 <= k < |ms| ==> !ms[k].Gen?
    ensures LastTold(ms).None?
  {
    if ms != [] { NothingTold(ms[..|ms| - 1]); }
  }

  /** As long as no shard was started again, everything served is coherent. */
  lemma {:induction false} NeverRestarted(s: System, actions: seq<Action>, s': System, ans: Answers, l: Limits)
    requires Inv(s, ans) && Run(s, actions, s', ans, l)
    requires forall e :: e in s.es ==> e.at >= s.startedAt[e.vault]
    requires forall i :: 0 <= i < |actions| ==> !actions[i].Restarts?
    ensures forall e :: e in s'.es ==> e.vault in s'.startedAt && e.at >= s'.startedAt[e.vault]
    decreases |actions|
  {
    if actions != [] {
      var a := actions[0];
      var m :| Steps(s, a, m, ans, l) && Run(m, actions[1..], s', ans, l);
      StepKeeps(s, a, m, ans, l);
      StoredSince(s, a, m, ans, l);
      NeverRestarted(m, actions[1..], s', ans, l);
    }
  }

  lemma StoredSince(s: System, a: Action, m: System, ans: Answers, l: Limits)
    requires Inv(s, ans) && Possible(s, a) && Steps(s, a, m, ans, l) && Inv(m, ans) && !a.Restarts?
    requires forall e :: e in s.es ==> e.at >= s.startedAt[e.vault]
    ensures forall e :: e in m.es ==> e.at >= m.startedAt[e.vault]
  {
    match a
    case Stores(i) =>
      var r := s.settled[i];
      NewEntries(s.es, Entry(KeyOf(r.call), r.call.vault, r.gen, r.json, s.now), l, m.es);
    case LooksUp(c) => SubsetOfEntries(s.es, KeyOf(c), Lookup(s.gens, c.vault), s.now, l);
    case _ =>
  }

  /** Within one life of the shards: every answer from the cache is the index's own. */
  lemma CacheIsCoherent(actions: seq<Action>, s: System, ans: Answers, l: Limits, c: Call)
    requires Run(NOTHING, actions, s, ans, l) && WellNamed(c) && Served(s, c, l).Some?
    requires forall i :: 0 <= i < |actions| ==> !actions[i].Restarts?
    ensures Coherent(s, c, Served(s, c, l).value, ans)
  {
    assert Inv(NOTHING, ans);
    RunKeeps(NOTHING, actions, s, ans, l);
    NeverRestarted(NOTHING, actions, s, ans, l);
    var e := Find(s.es, KeyOf(c)).value;
    assert EntryNamed(e);
    var d: Call :| WellNamed(d) && d.vault == e.vault && KeyOf(d) == e.key;
    SameCall(c, d);
    ServedIsTrue(s, ans, l, c);
  }

  /** After a restart, coherence is back at the latest when what was stored before has expired. */
  lemma CoherentAfterExpiry(actions: seq<Action>, s: System, ans: Answers, l: Limits, c: Call)
    requires Run(NOTHING, actions, s, ans, l) && WellNamed(c) && Served(s, c, l).Some?
    requires c.vault in s.startedAt && s.now - s.startedAt[c.vault] >= l.ttlMs
    ensures Coherent(s, c, Served(s, c, l).value, ans)
  {
    ServedIsCoherent(actions, s, ans, l, c);
  }

  // ── Entries of former lives ──

  /** The life `k` is the one that was running at `at`. */
  predicate RunningAt(lives: seq<Life>, k: nat, at: int) {
    k < |lives| && lives[k].start <= at && (k + 1 < |lives| ==> at < lives[k + 1].start)
  }

  /** An entry is what the index answered in the life that was running when it was stored. */
  ghost predicate StoredIn(s: System, e: Entry, k: nat, ans: Answers) {
    && RunningAt(LivesOf(s, e.vault), k, e.at) && e.gen < |LivesOf(s, e.vault)[k].views|
    && exists c: Call :: WellNamed(c) && c.vault == e.vault && KeyOf(c) == e.key && e.json == ans(LivesOf(s, e.vault)[k].views[e.gen], c)
  }

  ghost predicate Dated(s: System, ans: Answers) {
    forall e :: e in s.es ==> exists k: nat :: StoredIn(s, e, k, ans)
  }

  /** Lives go on, or end and are followed by later ones. */
  ghost predicate LivesGrow(s: System, s': System, v: Text) {
    var old', new' := LivesOf(s, v), LivesOf(s', v);
    && |old'| <= |new'|
    && (forall k :: 0 <= k < |old'| ==> new'[k].start == old'[k].start && old'[k].views <= new'[k].views)
    && (forall k :: |old'| <= k < |new'| ==> new'[k].start > s.now || old' == [])
  }

  lemma LifeEnds(s: System, v: Text, view: View, s': System, ans: Answers, l: Limits, u: Text)
    requires Inv(s, ans) && Possible(s, Restarts(v, view)) && Steps(s, Restarts(v, view), s', ans, l)
    ensures LivesGrow(s, s', u)
  {
    if u == v { assert LivesOf(s', v) == LivesOf(s, v) + [Life(s.now + 1, [view])]; } else { assert LivesOf(s', u) == LivesOf(s, u); }
  }

  lemma LifeGoesOn(s: System, v: Text, view: View, s': System, ans: Answers, l: Limits, u: Text)
    requires Inv(s, ans) && Possible(s, Changes(v, view)) && Steps(s, Changes(v, view), s', ans, l)
    ensures LivesGrow(s, s', u)
  {
    if u != v { assert LivesOf(s', u) == LivesOf(s, u); }
  }

  lemma LivesGo(s: System, a: Action, s': System, ans: Answers, l: Limits, v: Text)
    requires Inv(s, ans) && Possible(s, a) && Steps(s, a, s', ans, l)
    ensures LivesGrow(s, s', v)
  {
    match a
    case Restarts(u, view) => LifeEnds(s, u, view, s', ans, l, v);
    case Changes(u, view) => LifeGoesOn(s, u, view, s', ans, l, v);
    case Opens(u, view) => if u == v { assert LivesOf(s, v) == []; } else { assert LivesOf(s', v) == LivesOf(s, v); }
    case _ => assert LivesOf(s', v) == LivesOf(s, v);
  }

  lemma StaysDated(s: System, s': System, e: Entry, ans: Answers, k: nat)
    requires StoredIn(s, e, k, ans) && LivesGrow(s, s', e.vault) && e.at <= s.now
    ensures StoredIn(s', e, k, ans)
  {
    var old', new' := LivesOf(s, e.vault), LivesOf(s', e.vault);
    var c: Call :| WellNamed(c) && c.vault == e.vault && KeyOf(c) == e.key && e.json == ans(old'[k].views[e.gen], c);
    assert new'[k].views[e.gen] == old'[k].views[e.gen];
  }

  lemma NewlyDated(s: System, i: nat, ans: Answers)
    requires Inv(s, ans) && i < |s.settled|
    ensures var m := s.settled[i];
      exists k: nat :: StoredIn(s, Entry(KeyOf(m.call), m.call.vault, m.gen, m.json, s.now), k, ans)
  {
    var m := s.settled[i];
    var e := Entry(KeyOf(m.call), m.call.vault, m.gen, m.json, s.now);
    assert TrueAt(s, m.call, m.gen, m.json, ans);
    var k := |LivesOf(s, e.vault)| - 1;
    assert LivesOf(s, e.vault)[k] == Life(s.startedAt[e.vault], s.hist[e.vault]);
    assert StoredIn(s, e, k, ans);
  }

  lemma StepDates(s: System, a: Action, s': System, ans: Answers, l: Limits)
    requires Inv(s, ans) && Possible(s, a) && Steps(s, a, s', ans, l) && Dated(s, ans)
    ensures Dated(s', ans)
  {
    forall e | e in s'.es ensures exists k: nat :: StoredIn(s', e, k, ans) {
      LivesGo(s, a, s', ans, l, e.vault);
      if a.LooksUp? { SubsetOfEntries(s.es, KeyOf(a.c), Lookup(s.gens, a.c.vault), s.now, l); }
      if a.Stores? {
        var m := s.settled[a.i];
        NewEntries(s.es, Entry(KeyOf(m.call), m.call.vault, m.gen, m.json, s.now), l, s'.es);
        NewlyDated(s, a.i, ans);
      }
      var k: nat :| StoredIn(s, e, k, ans);
      StaysDated(s, s', e, ans, k);
    }
  }

  lemma {:induction false} RunDates(s: System, actions: seq<Action>, s': System, ans: Answers, l: Limits)
    requires Inv(s, ans) && Dated(s, ans) && Run(s, actions, s', ans, l)
    ensures Dated(s', ans)
    decreases |actions|
  {
    if actions != [] {
      var m :| Steps(s, actions[0], m, ans, l) && Run(m, actions[1..], s', ans, l);
      StepKeeps(s, actions[0], m, ans, l);
      StepDates(s, actions[0], m, ans, l);
      RunDates(m, actions[1..], s', ans, l);
    }
  }

  /** A call is served what the index answered in its life `k`, running when the answer was stored. */
  ghost predicate ServedFrom(s: System, c: Call, l: Limits, ans: Answers, k: nat)
    requires Served(s, c, l).Some?
  {
    var lives := LivesOf(s, c.vault);
    && c.vault in s.gens && RunningAt(lives, k, Find(s.es, KeyOf(c)).value.at) && s.gens[c.vault] < |lives[k].views|
    && Served(s, c, l).value == ans(lives[k].views[s.gens[c.vault]], c)
  }

  /**
   * Whatever restarts: a call is served what the index answered, at the
   * generation known, in the life that was running when it was stored.
   */
  lemma ServedFromALife(actions: seq<Action>, s: System, ans: Answers, l: Limits, c: Call)
    requires Run(NOTHING, actions, s, ans, l) && WellNamed(c) && Served(s, c, l).Some?
    ensures exists k: nat :: ServedFrom(s, c, l, ans, k)
  {
    assert Inv(NOTHING, ans) && Dated(NOTHING, ans);
    RunKeeps(NOTHING, actions, s, ans, l);
    RunDates(NOTHING, actions, s, ans, l);
    var e := Find(s.es, KeyOf(c)).value;
    var k: nat :| StoredIn(s, e, k, ans);
    var d: Call :| WellNamed(d) && d.vault == e.vault && KeyOf(d) == e.key && e.json == ans(LivesOf(s, e.vault)[k].views[e.gen], d);
    SameCall(c, d);
    assert ServedFrom(s, c, l, ans, k);
  }

  // ── A restart ──

  const V: Text := [7]
  const ASKED := Call(V, [1], [1], [1])

  function LimitsOf(ttl: nat): Limits {
    Limits(10, 1000, ttl)
  }

  function AnswerOf(view: View, c: Call): Text {
    if view == 0 then [1] else [2]
  }

  function After(hist: seq<View>, gens: map<Text, nat>, channel: seq<Message>, settled: seq<Message>, es: seq<Entry>, now: int): System {
    System(map[], map[V := hist], map[V := 0], map[V := channel], gens, settled, es, now)
  }

  lemma {:induction false} More(s: System, actions: seq<Action>, t: System, a: Action, u: System, ans: Answers, l: Limits)
    requires Run(s, actions, t, ans, l) && Possible(t, a) && Steps(t, a, u, ans, l)
    ensures Run(s, actions + [a], u, ans, l)
    decreases |actions|
  {
    if actions == [] {
      assert [a][1..] == [] && Run(u, [], u, ans, l);
      assert actions + [a] == [a];
    } else {
      var m :| Steps(s, actions[0], m, ans, l) && Run(m, actions[1..], t, ans, l);
      More(m, actions[1..], t, a, u, ans, l);
      assert (actions + [a])[1..] == actions[1..] + [a];
    }
  }

  function Stored(at: int): Entry {
    Entry(KeyOf(ASKED), V, 0, [1], at)
  }

  ghost predicate Reachable(s: System, l: Limits) {
    exists actions :: Run(NOTHING, actions, s, AnswerOf, l)
  }

  lemma Goes(t: System, a: Action, u: System, l: Limits)
    requires Reachable(t, l) && Possible(t, a) && Steps(t, a, u, AnswerOf, l)
    ensures Reachable(u, l)
  {
    var actions :| Run(NOTHING, actions, t, AnswerOf, l);
    More(NOTHING, actions, t, a, u, AnswerOf, l);
  }

  lemma {:induction false} TimePasses(t: System, k: nat, l: Limits)
    requires Reachable(t, l)
    ensures Reachable(t.(now := t.now + k), l)
    decreases k
  {
    if k == 0 {
      assert t.(now := t.now + k) == t;
    } else {
      Goes(t, Tick, t.(now := t.now + 1), l);
      TimePasses(t.(now := t.now + 1), k - 1, l);
    }
  }

  lemma StoredAlone(at: int, ttl: nat)
    requires ttl > 0
    ensures AfterSet([], Stored(at), LimitsOf(ttl), [Stored(at)])
  {
    var one := [Stored(at)];
    assert Without([], Stored(at).key) + [Stored(at)] == one;
    assert |Stored(at).key| == 7;
    assert Total(one) == SizeOf(Stored(at)) + Total(one[1..]) && one[1..] == [];
    assert one[0..] == one;
  }

  lemma AnsweredAndReceived(l: Limits)
    ensures Reachable(After([0], map[V := 0], [], [Reply(ASKED, [1], 0)], [], 0), l)
  {
    var reply := Reply(ASKED, [1], 0);
    var s1, s2 := After([0], map[], [], [], [], 0), After([0], map[], [reply], [], [], 0);
    assert Run(NOTHING, [], NOTHING, AnswerOf, l);
    Goes(NOTHING, Opens(V, 0), s1, l);
    assert s1.channel[V] + [reply] == s2.channel[V];
    Goes(s1, Answered(ASKED), s2, l);
    assert s2.channel[V][1..] == [];
    Goes(s2, Receives(V), After([0], map[V := 0], [], [reply], [], 0), l);
  }

  /** The answer reaches the cache at `at`. */
  lemma AnsweredAndStored(at: nat, ttl: nat)
    requires ttl > 0
    ensures Reachable(After([0], map[V := 0], [], [], [Stored(at)], at), LimitsOf(ttl))
  {
    AnsweredAndReceived(LimitsOf(ttl));
    TimePasses(After([0], map[V := 0], [], [Reply(ASKED, [1], 0)], [], 0), at, LimitsOf(ttl));
    var s := After([0], map[V := 0], [], [Reply(ASKED, [1], 0)], [], at);
    StoredAlone(at, ttl);
    assert s.settled[..0] + s.settled[1..] == [];
    Goes(s, Stores(0), After([0], map[V := 0], [], [], [Stored(at)], at), LimitsOf(ttl));
  }

  /** The index changes, and its shard is about to die before saying so. */
  lemma ChangedInSilence(at: nat, st: nat, ttl: nat)
    requires ttl > 0 && at < st
    ensures Reachable(After([0, 1], map[V := 0], [Gen(1)], [], [Stored(at)], st - 1), LimitsOf(ttl))
  {
    AnsweredAndStored(at, ttl);
    var s := After([0], map[V := 0], [], [], [Stored(at)], at);
    var s' := After([0, 1], map[V := 0], [Gen(1)], [], [Stored(at)], at);
    assert s.hist[V] + [1] == s'.hist[V] && s.channel[V] + [Gen(1)] == s'.channel[V];
    Goes(s, Changes(V, 1), s', LimitsOf(ttl));
    TimePasses(s', st - 1 - at, LimitsOf(ttl));
    assert s'.(now := s'.now + (st - 1 - at)) == After([0, 1], map[V := 0], [Gen(1)], [], [Stored(at)], st - 1);
  }

  /**
   * Its generations start again from zero, and the answer stored at generation
   * 0 of the first life is served for generation 0 of the second: whenever it
   * was stored, whenever the new life begins, until the answer expires.
   */
  lemma StaleAfterRestart(at: nat, st: nat, ttl: nat) returns (s: System)
    requires at < st <= at + ttl
    ensures Reachable(s, LimitsOf(ttl)) && WellNamed(ASKED) && Served(s, ASKED, LimitsOf(ttl)).Some?
    ensures StoredAt(s, ASKED, at, st)
    ensures !Coherent(s, ASKED, Served(s, ASKED, LimitsOf(ttl)).value, AnswerOf)
  {
    ChangedInSilence(at, st, ttl);
    var t := After([0, 1], map[V := 0], [Gen(1)], [], [Stored(at)], st - 1);
    s := System(map[V := [Life(0, [0, 1])]], map[V := [1]], map[V := st], map[V := []], map[V := 0], [], [Stored(at)], st);
    assert LivesOf(t, V) == [Life(0, [0, 1])];
    Goes(t, Restarts(V, 1), s, LimitsOf(ttl));
    assert Find(s.es, KeyOf(ASKED)) == Some(Stored(at));
  }

  // ── Which entries are safe ──

  /** The entry for `c` was stored at `at`, and the present life of its vault's shard began at `st`. */
  ghost predicate StoredAt(s: System, c: Call, at: int, st: int) {
    && Find(s.es, KeyOf(c)).Some? && Find(s.es, KeyOf(c)).value.at == at
    && c.vault in s.startedAt && s.startedAt[c.vault] == st
  }

  /** Whatever happened, whatever the index answers and whatever the limits: such an entry is served only when it is right. */
  ghost predicate Sure(at: int, st: int) {
    forall actions, s, ans: Answers, l, c ::
      Run(NOTHING, actions, s, ans, l) && WellNamed(c) && StoredAt(s, c, at, st) && Served(s, c, l).Some? ==>
        Coherent(s, c, Served(s, c, l).value, ans)
  }

  /** An entry is sure to be right exactly when it was stored in the present life. */
  lemma SureExact(at: nat, st: nat)
    ensures Sure(at, st) <==> at >= st
  {
    if at >= st {
      forall actions, s, ans: Answers, l, c
        | Run(NOTHING, actions, s, ans, l) && WellNamed(c) && StoredAt(s, c, at, st) && Served(s, c, l).Some?
        ensures Coherent(s, c, Served(s, c, l).value, ans)
      {
        ServedIsCoherent(actions, s, ans, l, c);
      }
    } else {
      var s := StaleAfterRestart(at, st, st - at);
      var actions :| Run(NOTHING, actions, s, AnswerOf, LimitsOf(st - at));
      assert !Sure(at, st);
    }
  }
}
