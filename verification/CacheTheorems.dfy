/** What holds over any sequence of reads and writes of the cache, vaults being forgotten on the way. */
module CacheTheorems {
  import opened Common
  import opened Text
  import opened ResultCache

  datatype Op =
    | Read(key: Text, gen: Option<nat>, now: int)
    | Write(e: Entry)
    | Forget(vault: Text)

  /** The cache, the entries it accepted of vaults not forgotten since, and the keys it was used for, in time order. */
  datatype Trace = Trace(es: seq<Entry>, accepted: seq<Entry>, used: seq<Text>)

  ghost predicate Happens(t: Trace, op: Op, l: Limits, t': Trace) {
    match op
    case Read(key, gen, now) =>
      && t'.es == AfterGet(t.es, key, gen, now, l) && t'.accepted == t.accepted
      && t'.used == if Enabled(l) && Good(Find(t.es, key), gen, now, l) then t.used + [key] else t.used
    case Write(e) =>
      && AfterSet(t.es, e, l, t'.es)
      && t'.accepted == (if Enabled(l) && !Oversized(e, l) then t.accepted + [e] else t.accepted)
      && t'.used == if Enabled(l) && !Oversized(e, l) then t.used + [e.key] else t.used
    case Forget(vault) => t' == t.(es := ForgetVault(t.es, vault), accepted := ForgetVault(t.accepted, vault))
  }

  function LastFor(accepted: seq<Entry>, key: Text): Option<Entry> {
    if accepted == [] then None else
      var last := accepted[|accepted| - 1];
      if last.key == key then Some(last) else LastFor(accepted[..|accepted| - 1], key)
  }

  /** When a key was last used: later is greater; 0 is never. */
  function LastUse(used: seq<Text>, key: Text): nat {
    if used == [] then 0 else if used[|used| - 1] == key then |used| else LastUse(used[..|used| - 1], key)
  }

  /** The entries stand in the order their keys were last used. */
  ghost predicate InUseOrder(es: seq<Entry>, used: seq<Text>) {
    forall i, j :: 0 <= i < j < |es| ==> LastUse(used, es[i].key) < LastUse(used, es[j].key)
  }

  ghost predicate Inv(t: Trace, l: Limits) {
    && DistinctKeys(t.es) && (Enabled(l) ==> Fits(t.es, l))
    && (forall e :: e in t.es ==> LastFor(t.accepted, e.key) == Some(e))
    && (forall e :: e in t.es ==> 8 * (|e.key| + |e.json|) <= l.maxBytes)
    && InUseOrder(t.es, t.used)
  }

  lemma {:induction false} UsedBefore(used: seq<Text>, key: Text)
    ensures LastUse(used, key) <= |used|
  {
    if used != [] { UsedBefore(used[..|used| - 1], key); }
  }

  lemma OneMoreUse(used: seq<Text>, key: Text, other: Text)
    ensures LastUse(used + [key], other) == if other == key then |used| + 1 else LastUse(used, other)
  {
    assert (used + [key])[..|used|] == used;
  }

  lemma OneMoreAccepted(accepted: seq<Entry>, e: Entry, key: Text)
    ensures LastFor(accepted + [e], key) == if key == e.key then Some(e) else LastFor(accepted, key)
  {
    assert (accepted + [e])[..|accepted|] == accepted;
  }

  /** Taking an entry out leaves the others in order. */
  lemma {:induction false} WithoutInOrder(es: seq<Entry>, key: Text, used: seq<Text>)
    requires DistinctKeys(es)
    requires InUseOrder(es, used)
    ensures InUseOrder(Without(es, key), used)
  {
    WithoutIs(es, key);
  }

  lemma {:induction false} WithoutIs(es: seq<Entry>, key: Text)
    requires DistinctKeys(es)
    ensures Without(es, key) == es || exists i :: 0 <= i < |es| && es[i].key == key && Without(es, key) == es[..i] + es[i + 1..]
  {
    if Find(es, key).None? {
      WithoutAbsent(es, key);
    } else {
      var i :| 0 <= i < |es| && es[i] == Find(es, key).value;
      WithoutMiddle(es, i);
      assert es[i].key == key;
    }
  }

  /** The entry used now goes last. */
  lemma UsedLast(es: seq<Entry>, e: Entry, used: seq<Text>)
    requires DistinctKeys(es)
    requires InUseOrder(es, used)
    ensures var es', used' := Without(es, e.key) + [e], used + [e.key];
      && DistinctKeys(es')
      && InUseOrder(es', used')
  {
    var w := Without(es, e.key);
    PutLast(es, e);
    WithoutKey(es, e.key);
    WithoutInOrder(es, e.key, used);
    forall i | 0 <= i < |w| ensures LastUse(used + [e.key], w[i].key) == LastUse(used, w[i].key) <= |used| {
      assert w[i] in w;
      OneMoreUse(used, e.key, w[i].key);
      UsedBefore(used, w[i].key);
    }
    OneMoreUse(used, e.key, e.key);
  }

  lemma ReadKeeps(t: Trace, key: Text, gen: Option<nat>, now: int, l: Limits, t': Trace)
    requires Inv(t, l) && Happens(t, Read(key, gen, now), l, t')
    ensures Inv(t', l)
  {
    WithoutKey(t.es, key);
    WithoutInOrder(t.es, key, t.used);
    var e := Find(t.es, key);
    if Enabled(l) && Good(e, gen, now, l) {
      UsedLast(t.es, e.value, t.used);
      FindLeaves(t.es, key);
      TotalSplits(Without(t.es, key), [e.value]);
    }
  }

  lemma SuffixInOrder(full: seq<Entry>, es: seq<Entry>, used: seq<Text>)
    requires DistinctKeys(full) && InUseOrder(full, used) && |es| <= |full| && es == full[|full| - |es|..]
    ensures DistinctKeys(es) && InUseOrder(es, used) && forall x :: x in es ==> x in full
  {
    var n := |full| - |es|;
    forall i | 0 <= i < |es| ensures es[i] == full[n + i] {}
  }

  lemma WriteKeeps(t: Trace, e: Entry, l: Limits, t': Trace)
    requires Inv(t, l) && Happens(t, Write(e), l, t')
    ensures Inv(t', l)
  {
    if Enabled(l) && !Oversized(e, l) {
      var full := Without(t.es, e.key) + [e];
      UsedLast(t.es, e, t.used);
      WithoutKey(t.es, e.key);
      forall x | x in full ensures LastFor(t'.accepted, x.key) == Some(x) {
        OneMoreAccepted(t.accepted, e, x.key);
      }
      SuffixInOrder(full, t'.es, t'.used);
    }
  }

  lemma {:induction false} Remaining(es: seq<Entry>, vault: Text, e: Entry)
    ensures e in ForgetVault(es, vault) <==> e in es && e.vault != vault
  {
    if es != [] { Remaining(es[1..], vault, e); }
  }

  lemma InFront(e: Entry, rest: seq<Entry>, used: seq<Text>)
    requires InUseOrder(rest, used) && forall x :: x in rest ==> LastUse(used, e.key) < LastUse(used, x.key)
    ensures InUseOrder([e] + rest, used)
  {}

  /** Forgetting a vault leaves the other entries in order. */
  lemma {:induction false} RemainingInOrder(es: seq<Entry>, vault: Text, used: seq<Text>)
    requires InUseOrder(es, used)
    ensures InUseOrder(ForgetVault(es, vault), used)
  {
    if es != [] {
      var rest := ForgetVault(es[1..], vault);
      RemainingInOrder(es[1..], vault, used);
      forall x | x in rest ensures LastUse(used, es[0].key) < LastUse(used, x.key) { Remaining(es[1..], vault, x); }
      InFront(es[0], rest, used);
      assert ForgetVault(es, vault) == if es[0].vault == vault then rest else [es[0]] + rest;
    }
  }

  /** What was accepted last for a key still is, if its vault is not the one forgotten. */
  lemma {:induction false} LastStays(accepted: seq<Entry>, vault: Text, e: Entry)
    requires LastFor(accepted, e.key) == Some(e) && e.vault != vault
    ensures LastFor(ForgetVault(accepted, vault), e.key) == Some(e)
  {
    var n := |accepted| - 1;
    ForgetStep(accepted, n, vault);
    assert accepted[..n + 1] == accepted;
    if accepted[n].key == e.key {
      OneMoreAccepted(ForgetVault(accepted[..n], vault), e, e.key);
    } else {
      LastStays(accepted[..n], vault, e);
      assert ForgetVault(accepted[..n], vault) + [] == ForgetVault(accepted[..n], vault);
      if accepted[n].vault != vault { OneMoreAccepted(ForgetVault(accepted[..n], vault), accepted[n], e.key); }
    }
  }

  lemma ForgetKeeps(t: Trace, vault: Text, l: Limits, t': Trace)
    requires Inv(t, l) && Happens(t, Forget(vault), l, t')
    ensures Inv(t', l)
  {
    RemainingInOrder(t.es, vault, t.used);
    assert DistinctKeys(t'.es);
    ForgetShrinks(t.es, vault);
    forall e | e in t'.es ensures e in t.es && LastFor(t'.accepted, e.key) == Some(e) {
      Remaining(t.es, vault, e);
      LastStays(t.accepted, vault, e);
    }
  }

  ghost predicate Run(t: Trace, ops: seq<Op>, l: Limits, t': Trace)
    decreases |ops|
  {
    if ops == [] then t' == t else exists m :: Happens(t, ops[0], l, m) && Run(m, ops[1..], l, t')
  }

  lemma {:induction false} RunKeeps(t: Trace, ops: seq<Op>, l: Limits, t': Trace)
    requires Inv(t, l) && Run(t, ops, l, t')
    ensures Inv(t', l)
    decreases |ops|
  {
    if ops != [] {
      var m :| Happens(t, ops[0], l, m) && Run(m, ops[1..], l, t');
      match ops[0] {
        case Read(key, gen, now) => ReadKeeps(t, key, gen, now, l, m);
        case Write(e) => WriteKeeps(t, e, l, m);
        case Forget(vault) => ForgetKeeps(t, vault, l, m);
      }
      RunKeeps(m, ops[1..], l, t');
    }
  }

  /**
   * What a read returns is the last value accepted for its key, of a vault not
   * forgotten since, stored at that generation and not too long ago; the bounds hold, each
   * entry is at most an eighth of the bound in bytes; and the entries stand in
   * the order they were last used, so that the first to go is the least
   * recently used.
   */
  lemma ReadsTheLastAccepted(start: Trace, ops: seq<Op>, l: Limits, t: Trace, key: Text, gen: nat, now: int)
    requires start == Trace([], [], []) && Run(start, ops, l, t)
    requires Enabled(l) && Good(Find(t.es, key), Some(gen), now, l)
    ensures var last := LastFor(t.accepted, key);
      last == Find(t.es, key) && last.value.gen == gen && now - last.value.at <= l.ttlMs
    ensures |t.es| <= l.maxEntries && Total(t.es) <= l.maxBytes
    ensures forall e :: e in t.es ==> 8 * (|e.key| + |e.json|) <= l.maxBytes
    ensures InUseOrder(t.es, t.used)
  {
    RunKeeps(start, ops, l, t);
  }

  lemma LongestThatFits(es: seq<Entry>, full: seq<Entry>, l: Limits, other: seq<Entry>)
    requires EvictsLeast(es, full, l) && Fits(other, l)
    requires |other| <= |full| && other == full[|full| - |other|..]
    ensures |other| <= |es|
  {}

  /** Eviction leaves no choice. */
  lemma EvictionIsExact(full: seq<Entry>, l: Limits, a: seq<Entry>, b: seq<Entry>)
    requires EvictsLeast(a, full, l) && EvictsLeast(b, full, l)
    ensures a == b
  {
    LongestThatFits(a, full, l, b);
    LongestThatFits(b, full, l, a);
  }

  /** It never takes what was just stored. */
  lemma NewestStays(es: seq<Entry>, e: Entry, l: Limits, es': seq<Entry>)
    requires Enabled(l) && !Oversized(e, l) && AfterSet(es, e, l, es')
    ensures es' != [] && es'[|es'| - 1] == e
  {
    var one := [e];
    assert Total(one) == SizeOf(e) + Total(one[1..]) && one[1..] == [];
    LongestThatFits(es', Without(es, e.key) + [e], l, one);
  }

  lemma {:induction false} FindLast(es: seq<Entry>, e: Entry)
    requires es != [] && es[|es| - 1] == e && DistinctKeys(es)
    ensures Find(es, e.key) == Some(e)
  {
    FindDistinct(es, e);
  }

  /**
   * A value is read back after it was stored, unless it was too big: then an
   * older value of that key, if it is still good, is what comes back.
   */
  lemma StoredThenRead(es: seq<Entry>, e: Entry, l: Limits, es': seq<Entry>)
    requires Enabled(l) && DistinctKeys(es) && Fits(es, l) && AfterSet(es, e, l, es')
    ensures Find(es', e.key) == Some(e) <==> !Oversized(e, l) || Find(es, e.key) == Some(e)
    ensures Oversized(e, l) ==> Find(es', e.key) == Find(es, e.key)
  {
    if !Oversized(e, l) {
      NewestStays(es, e, l, es');
      PutLast(es, e);
      var full := Without(es, e.key) + [e];
      forall i, j | 0 <= i < j < |es'| ensures es'[i].key != es'[j].key {
        var n := |full| - |es'|;
        assert es'[i] == full[n + i] && es'[j] == full[n + j];
      }
      FindLast(es', e);
    }
  }

  // ── The key ──

  predicate NoZero(t: Text) {
    0 !in t
  }

  function Key(vault: Text, capability: Text, name: Text, params: Text): Text {
    vault + [0] + capability + [0] + name + [0] + params
  }

  /** Vault ids and names hold no zero, so a key is one call's and no other's. */
  lemma KeyIsInjective(v1: Text, c1: Text, m1: Text, p1: Text, v2: Text, c2: Text, m2: Text, p2: Text)
    requires NoZero(v1) && NoZero(c1) && NoZero(m1) && NoZero(v2) && NoZero(c2) && NoZero(m2)
    requires Key(v1, c1, m1, p1) == Key(v2, c2, m2, p2)
    ensures v1 == v2 && c1 == c2 && m1 == m2 && p1 == p2
  {
    var x1, x2 := m1 + [0] + p1, m2 + [0] + p2;
    var y1, y2 := c1 + [0] + x1, c2 + [0] + x2;
    assert Key(v1, c1, m1, p1) == v1 + [0] + y1;
    assert Key(v2, c2, m2, p2) == v2 + [0] + y2;
    SplitAt(0, v1, v2, y1, y2);
    SplitAt(0, c1, c2, x1, x2);
    SplitAt(0, m1, m2, p1, p2);
  }
}
