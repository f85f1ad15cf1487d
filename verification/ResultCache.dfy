/**
 * The cache of results (apps/indexer/src/cache.ts): entries in order of use,
 * the oldest first, bounded in number and in size.
 */
module ResultCache {
  import opened Common
  import opened Text

  datatype Entry = Entry(key: Text, vault: Text, gen: nat, json: Text, at: int)

  datatype Limits = Limits(maxEntries: nat, maxBytes: nat, ttlMs: nat)

  predicate Enabled(l: Limits) {
    l.maxEntries > 0 && l.maxBytes > 0 && l.ttlMs > 0
  }

  function SizeOf(e: Entry): nat {
    |e.key| + |e.json|
  }

  function Total(es: seq<Entry>): nat {
    if es == [] then 0 else SizeOf(es[0]) + Total(es[1..])
  }

  predicate DistinctKeys(es: seq<Entry>) {
    forall i, j :: 0 <= i < j < |es| ==> es[i].key != es[j].key
  }

  function Find(es: seq<Entry>, key: Text): (e: Option<Entry>)
    ensures e.Some? ==> e.value in es && e.value.key == key
    ensures e.None? ==> forall i :: 0 <= i < |es| ==> es[i].key != key
  {
    if es == [] then None else if es[0].key == key then Some(es[0]) else Find(es[1..], key)
  }

  function Without(es: seq<Entry>, key: Text): seq<Entry> {
    if es == [] then [] else if es[0].key == key then es[1..] else [es[0]] + Without(es[1..], key)
  }

  predicate Fits(es: seq<Entry>, l: Limits) {
    |es| <= l.maxEntries && Total(es) <= l.maxBytes
  }

  /** Too big to be worth keeping. */
  predicate Oversized(e: Entry, l: Limits) {
    8 * SizeOf(e) > l.maxBytes
  }

  /** Still good for this generation, at this time. */
  predicate Good(e: Option<Entry>, gen: Option<nat>, now: int, l: Limits) {
    e.Some? && gen == Some(e.value.gen) && now - e.value.at <= l.ttlMs
  }

  function AfterGet(es: seq<Entry>, key: Text, gen: Option<nat>, now: int, l: Limits): seq<Entry> {
    var e := Find(es, key);
    if !Enabled(l) || e.None? then es
    else if Good(e, gen, now, l) then Without(es, key) + [e.value]
    else Without(es, key)
  }

  /** Only as many of the oldest entries go as must. */
  ghost predicate EvictsLeast(es: seq<Entry>, full: seq<Entry>, l: Limits) {
    && |es| <= |full| && es == full[|full| - |es|..] && Fits(es, l)
    && forall k :: 0 <= k < |full| - |es| ==> !Fits(full[k..], l)
  }

  ghost predicate AfterSet(es: seq<Entry>, e: Entry, l: Limits, es': seq<Entry>) {
    if !Enabled(l) || Oversized(e, l) then es' == es
    else EvictsLeast(es', Without(es, e.key) + [e], l)
  }

  function ForgetVault(es: seq<Entry>, vault: Text): seq<Entry> {
    if es == [] then [] else (if es[0].vault == vault then [] else [es[0]]) + ForgetVault(es[1..], vault)
  }

  // ── Facts about entries in order ──

  lemma {:induction false} TotalSplits(a: seq<Entry>, b: seq<Entry>)
    ensures Total(a + b) == Total(a) + Total(b)
  {
    if a == [] {
      assert a + b == b;
    } else {
      assert (a + b)[1..] == a[1..] + b;
      TotalSplits(a[1..], b);
    }
  }

  lemma {:induction false} WithoutKey(es: seq<Entry>, key: Text)
    requires DistinctKeys(es)
    ensures DistinctKeys(Without(es, key))
    ensures forall e :: e in Without(es, key) <==> e in es && e.key != key
    ensures |Without(es, key)| <= |es|
    ensures Total(es) == Total(Without(es, key)) + if Find(es, key).Some? then SizeOf(Find(es, key).value) else 0
  {
    if es != [] {
      var rest := es[1..];
      WithoutKey(rest, key);
      forall e ensures e in es <==> e == es[0] || e in rest {}
      if es[0].key != key {
        TotalSplits([es[0]], Without(rest, key));
        var w := Without(es, key);
        forall i, j | 0 <= i < j < |w| ensures w[i].key != w[j].key {
          if i == 0 { assert w[j] in Without(rest, key); }
        }
      } else {
        forall e | e in rest ensures e.key != key {}
      }
    }
  }

  // ── The class ──

  class Cache {
    const limits: Limits
    var entries: seq<Entry>
    var bytes: int
    var hits: nat
    var misses: nat
    var evictions: nat

    constructor (l: Limits)
      ensures Valid() && limits == l && entries == []
    {
      limits, entries, bytes := l, [], 0;
      hits, misses, evictions := 0, 0, 0;
    }

    /** The count of bytes is exact, each key is there once, and the bounds hold. */
    ghost predicate Valid()
      reads this
    {
      && DistinctKeys(entries) && bytes == Total(entries)
      && if Enabled(limits) then Fits(entries, limits) else entries == []
    }

    method Drop(e: Entry)
      requires DistinctKeys(entries) && e in entries
      modifies this`entries, this`bytes
      ensures entries == Without(old(entries), e.key)
      ensures bytes == old(bytes) - SizeOf(e)
      ensures Total(entries) == Total(old(entries)) - SizeOf(e) && DistinctKeys(entries)
    {
      WithoutKey(entries, e.key);
      FindDistinct(entries, e);
      entries := Without(entries, e.key);
      bytes := bytes - (|e.key| + |e.json|);
    }

    method Get(key: Text, gen: Option<nat>, now: int) returns (json: Option<Text>)
      requires Valid()
      modifies this
      ensures Valid() && entries == AfterGet(old(entries), key, gen, now, limits)
      ensures json == if Enabled(limits) && Good(Find(old(entries), key), gen, now, limits)
                      then Some(Find(old(entries), key).value.json) else None
      ensures json.Some? ==>
        exists e :: e in old(entries) && e.key == key && gen == Some(e.gen) && now - e.at <= limits.ttlMs && json == Some(e.json)
      ensures limits.maxEntries > 0 && limits.maxBytes > 0 && limits.ttlMs > 0 ==>
        forall e :: e in old(entries) && e.key == key && gen == Some(e.gen) && now - e.at <= limits.ttlMs ==> json == Some(e.json)
      ensures evictions == old(evictions)
      ensures Enabled(limits) ==> hits + misses == old(hits) + old(misses) + 1 && (json.Some? <==> hits == old(hits) + 1)
    {
      if !Enabled(limits) { return None; }
      var e := Find(entries, key);
      forall x | x in entries && x.key == key ensures e == Some(x) { FindDistinct(entries, x); }
      if e.None? || gen.None? || e.value.gen != gen.value || now - e.value.at > limits.ttlMs {
        if e.Some? {
          WithoutKey(entries, key);
          Drop(e.value);
        }
        misses := misses + 1;
        return None;
      }
      WithoutKey(entries, key);
      TotalSplits(Without(entries, key), [e.value]);
      FindLeaves(entries, key);
      PutLast(entries, e.value);
      entries := Without(entries, key) + [e.value];
      hits := hits + 1;
      json := Some(e.value.json);
    }

    /** The new entry takes the place of the old one, as the most recent. */
    method Put(e: Entry)
      requires DistinctKeys(entries) && bytes == Total(entries)
      modifies this`entries, this`bytes
      ensures entries == Without(old(entries), e.key) + [e]
      ensures DistinctKeys(entries) && bytes == Total(entries)
    {
      var before := Find(entries, e.key);
      WithoutKey(entries, e.key);
      if before.Some? { Drop(before.value); } else { WithoutAbsent(entries, e.key); }
      PutLast(old(entries), e);
      TotalSplits(entries, [e]);
      entries := entries + [e];
      bytes := bytes + |e.key| + |e.json|;
    }

    /** The oldest entries go, until what is left fits; the newest stays. */
    method Evict()
      requires DistinctKeys(entries) && bytes == Total(entries) && entries != []
      requires Fits(entries[|entries| - 1..], limits)
      modifies this`entries, this`bytes, this`evictions
      ensures EvictsLeast(entries, old(entries), limits) && entries != []
      ensures DistinctKeys(entries) && bytes == Total(entries)
    {
      ghost var full := entries;
      ghost var newest := entries[|entries| - 1..];
      while |entries| > limits.maxEntries || bytes > limits.maxBytes
        invariant DistinctKeys(entries) && bytes == Total(entries)
        invariant 1 <= |entries| <= |full| && entries == full[|full| - |entries|..]
        invariant forall k :: 0 <= k < |full| - |entries| ==> !Fits(full[k..], limits)
        decreases |entries|
      {
        assert |entries| == 1 ==> entries == newest;
        FirstWithout(entries);
        ghost var k := |full| - |entries|;
        assert full[k..][1..] == full[k + 1..];
        Drop(entries[0]);
        evictions := evictions + 1;
      }
    }

    method Set(e: Entry)
      requires Valid()
      modifies this
      ensures Valid() && AfterSet(old(entries), e, limits, entries)
      ensures limits.maxEntries > 0 && limits.maxBytes > 0 && limits.ttlMs > 0 && 8 * (|e.key| + |e.json|) <= limits.maxBytes
        ==> entries != [] && entries[|entries| - 1] == e
      ensures limits.maxEntries == 0 || limits.maxBytes == 0 || limits.ttlMs == 0 || 8 * (|e.key| + |e.json|) > limits.maxBytes
        ==> entries == old(entries)
      ensures hits == old(hits) && misses == old(misses)
    {
      if !Enabled(limits) { return; }
      var size := |e.key| + |e.json|;
      if 8 * size > limits.maxBytes { return; }
      Put(e);
      Evict();
    }

    method DropVault(vault: Text)
      requires DistinctKeys(entries) && bytes == Total(entries)
      modifies this`entries, this`bytes
      ensures DistinctKeys(entries) && bytes == Total(entries) && entries == ForgetVault(old(entries), vault)
    {
      var all := entries;
      var i := 0;
      ghost var kept := [];
      assert all[..0] == [] && all[0..] == all;
      while i < |all|
        invariant i <= |all| && DistinctKeys(entries) && bytes == Total(entries)
        invariant kept == ForgetVault(all[..i], vault) && entries == kept + all[i..]
      {
        ForgetTurn(entries, all, i, vault);
        if all[i].vault == vault { Drop(all[i]); }
        i := i + 1;
        kept := ForgetVault(all[..i], vault);
      }
      assert all[..i] == all && all[i..] == [];
    }

    method Forget(vault: Text)
      requires Valid()
      modifies this`entries, this`bytes
      ensures Valid() && entries == ForgetVault(old(entries), vault)
    {
      ForgetShrinks(entries, vault);
      DropVault(vault);
    }
  }

  lemma ForgetTurn(es: seq<Entry>, all: seq<Entry>, i: nat, vault: Text)
    requires i < |all| && DistinctKeys(es) && es == ForgetVault(all[..i], vault) + all[i..]
    ensures all[i] in es
    ensures ForgetVault(all[..i + 1], vault) + all[i + 1..] == if all[i].vault == vault then Without(es, all[i].key) else es
  {
    var kept := ForgetVault(all[..i], vault);
    ForgetStep(all, i, vault);
    assert es[|kept|] == all[i];
    WithoutMiddle(es, |kept|);
    assert es[..|kept|] == kept && es[|kept| + 1..] == all[i + 1..];
    assert kept + ([all[i]] + all[i + 1..]) == (kept + [all[i]]) + all[i + 1..];
    assert all[i..] == [all[i]] + all[i + 1..] && kept + [] == kept;
  }

  lemma PutLast(es: seq<Entry>, e: Entry)
    requires DistinctKeys(es)
    ensures DistinctKeys(Without(es, e.key) + [e])
  {
    WithoutKey(es, e.key);
    var w := Without(es, e.key);
    forall i | 0 <= i < |w| ensures w[i].key != e.key { assert w[i] in w; }
  }

  lemma {:induction false} ForgetShrinks(es: seq<Entry>, vault: Text)
    ensures |ForgetVault(es, vault)| <= |es| && Total(ForgetVault(es, vault)) <= Total(es)
  {
    if es != [] {
      ForgetShrinks(es[1..], vault);
      TotalSplits([es[0]], ForgetVault(es[1..], vault));
      assert [] + ForgetVault(es[1..], vault) == ForgetVault(es[1..], vault);
    }
  }

  lemma {:induction false} FindDistinct(es: seq<Entry>, e: Entry)
    requires DistinctKeys(es) && e in es
    ensures Find(es, e.key) == Some(e)
  {
    if es[0] != e { FindDistinct(es[1..], e); }
  }

  lemma {:induction false} WithoutAbsent(es: seq<Entry>, key: Text)
    requires Find(es, key).None?
    ensures Without(es, key) == es
  {
    if es != [] { WithoutAbsent(es[1..], key); }
  }

  lemma {:induction false} FindLeaves(es: seq<Entry>, key: Text)
    requires DistinctKeys(es) && Find(es, key).Some?
    ensures |Without(es, key)| == |es| - 1
    ensures DistinctKeys(Without(es, key) + [Find(es, key).value])
  {
    WithoutKey(es, key);
    if es[0].key != key { FindLeaves(es[1..], key); }
    var w := Without(es, key);
    forall i | 0 <= i < |w| ensures w[i].key != key { assert w[i] in w; }
  }

  lemma FirstWithout(es: seq<Entry>)
    requires es != []
    ensures Without(es, es[0].key) == es[1..]
  {}

  lemma {:induction false} WithoutMiddle(es: seq<Entry>, i: nat)
    requires DistinctKeys(es) && i < |es|
    ensures Without(es, es[i].key) == es[..i] + es[i + 1..]
  {
    if i > 0 {
      var rest := es[1..];
      WithoutMiddle(rest, i - 1);
      assert es[0].key != es[i].key;
      assert [es[0]] + (rest[..i - 1] + rest[i..]) == es[..i] + es[i + 1..];
    }
  }

  lemma {:induction false} ForgetStep(all: seq<Entry>, i: nat, vault: Text)
    requires i < |all|
    ensures ForgetVault(all[..i + 1], vault) == ForgetVault(all[..i], vault) + if all[i].vault == vault then [] else [all[i]]
  {
    if i == 0 {
      assert all[..1] == [all[0]] && all[..0] == [];
    } else {
      assert all[..i + 1][1..] == all[1..][..i] && all[..i][1..] == all[1..][..i - 1];
      ForgetStep(all[1..], i - 1, vault);
    }
  }
}
