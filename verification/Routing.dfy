/**
 * Which instance indexes a vault: rendezvous hashing
 * (backend/Savoire.Application/Indexer/IndexerRouting.cs).
 */
module Routing {
  import opened Common
  import opened Text
  import opened Crc32
  import opened Utf8

  const BAR: CodeUnit := 124

  /** A product that wraps. */
  function Times(x: bv64): bv64 {
    x * 0x100_0000_01b3
  }

  /** One turn of FNV-1a on 64 bits: the byte comes in, then the product. */
  function Mix(h: bv64, b: Byte): bv64 {
    Times(h ^ (b as bv64))
  }

  function Fnv(bytes: seq<Byte>, h: bv64): bv64
    decreases |bytes|
  {
    if bytes == [] then h else Fnv(bytes[1..], Mix(h, bytes[0]))
  }

  lemma OneMoreByte(bytes: seq<Byte>, i: nat, h: bv64)
    requires i < |bytes|
    ensures Fnv(bytes[i..], h) == Fnv(bytes[i + 1..], Mix(h, bytes[i]))
  {
    assert bytes[i..][0] == bytes[i] && bytes[i..][1..] == bytes[i + 1..];
  }

  lemma PrimeIsASum(x: bv64, p: bv64)
    requires p == x * 0x100_0000_01b3
    ensures p == x * 0x100_0000_0000 + x * 0x100 + x * 0x80 + x * 32 + x * 16 + x * 2 + x
  {}

  /** The byte comes in, then the product by the prime 2^40 + 2^8 + 2^7 + 2^5 + 2^4 + 2 + 1. */
  lemma MixExact(h: bv64, b: Byte, x: bv64)
    requires x == h ^ (b as bv64)
    ensures Mix(h, b) == x * 0x100_0000_0000 + x * 0x100 + x * 0x80 + x * 32 + x * 16 + x * 2 + x
  {
    PrimeIsASum(x, Times(x));
  }

  lemma NextByte(bytes: seq<Byte>, i: nat, b: Byte, h: bv64, h': bv64)
    requires i < |bytes| && bytes[i] == b && Mix(h, b) == h'
    ensures Fnv(bytes[i..], h) == Fnv(bytes[i + 1..], h')
  {
    OneMoreByte(bytes, i, h);
  }

  lemma FirstHalf(t: seq<Byte>)
    requires |t| == 6 && t[0] == 102 && t[1] == 111 && t[2] == 111
    ensures Fnv(t[0..], 0xcbf29ce484222325) == Fnv(t[3..], 0xdcb27518fed9d577)
  {
    NextByte(t, 0, 102, 0xcbf29ce484222325, 0xaf63db4c8601ead9);
    NextByte(t, 1, 111, 0xaf63db4c8601ead9, 0x8985907b541d342);
    NextByte(t, 2, 111, 0x8985907b541d342, 0xdcb27518fed9d577);
  }

  lemma SecondHalf(t: seq<Byte>)
    requires |t| == 6 && t[3] == 98 && t[4] == 97 && t[5] == 114
    ensures Fnv(t[3..], 0xdcb27518fed9d577) == Fnv(t[6..], 0x85944171f73967e8)
  {
    NextByte(t, 3, 98, 0xdcb27518fed9d577, 0xdd120e790c2512af);
    NextByte(t, 4, 97, 0xdd120e790c2512af, 0xcac165afa2fef40a);
    NextByte(t, 5, 114, 0xcac165afa2fef40a, 0x85944171f73967e8);
  }

  /** The value the protocol gives for the bytes of "foobar". */
  lemma KnownHash(foobar: seq<Byte>)
    requires foobar == [102, 111, 111, 98, 97, 114]
    ensures Fnv(foobar, 0xcbf2_9ce4_8422_2325) == 0x8594_4171_f739_67e8
  {
    FirstHalf(foobar);
    SecondHalf(foobar);
    assert foobar[0..] == foobar && foobar[6..] == [];
  }

  method Fnv1a64(text: Text) returns (h: bv64)
    ensures h == Fnv(Encode(text), 0xcbf2_9ce4_8422_2325)
  {
    h := 0xcbf2_9ce4_8422_2325;
    var bytes := Encode(text);
    assert bytes[0..] == bytes;
    for i := 0 to |bytes|
      invariant Fnv(bytes[i..], h) == Fnv(bytes, 0xcbf2_9ce4_8422_2325)
    {
      OneMoreByte(bytes, i, h);
      h := Mix(h, bytes[i]);
    }
    assert bytes[|bytes|..] == [];
  }

  /** What an instance weighs for a vault, as an unsigned number. */
  function Weight(name: Text, vault: Text): nat {
    Fnv(Encode(name + [BAR] + vault), 0xcbf2_9ce4_8422_2325) as int
  }

  lemma FourBytesHashed(t: seq<Byte>)
    requires |t| == 4 && t[0] == 195 && t[1] == 169 && t[2] == 124 && t[3] == 118
    ensures Fnv(t[0..], 0xcbf29ce484222325) == Fnv(t[4..], 0xf92d6dc6f2df26e3)
  {
    NextByte(t, 0, 195, 0xcbf29ce484222325, 0xaf647e4c8602ffd2);
    NextByte(t, 1, 169, 0xaf647e4c8602ffd2, 0xac21707b7181e01);
    NextByte(t, 2, 124, 0xac21707b7181e01, 0x5feb9f1c1dfbce67);
    NextByte(t, 3, 118, 0x5feb9f1c1dfbce67, 0xf92d6dc6f2df26e3);
  }

  /** The weight the protocol gives for the instance "é" and the vault "v". */
  lemma KnownWeight(name: Text, vault: Text)
    requires name == [0xe9] && vault == [118]
    ensures Weight(name, vault) == 0xf92d_6dc6_f2df_26e3
  {
    var bytes := Encode(name + [BAR] + vault);
    KnownBytes(name + [BAR] + vault);
    FourBytesHashed(bytes);
    assert bytes[0..] == bytes && bytes[4..] == [];
  }

  lemma KnownBytes(t: Text)
    requires t == [0xe9, 124, 118]
    ensures Encode(t) == [195, 169, 124, 118]
  {
    assert t[1..] == [124, 118] && t[1..][1..] == [118] && t[1..][1..][1..] == [];
    assert Encode([]) == [];
    assert Encode(t[1..][1..]) == [118];
    assert Encode(t[1..]) == [124, 118];
  }

  /** The heavier instance wins; at equal weight, the one whose name comes first. */
  predicate Beats(vault: Text, a: Text, b: Text) {
    Weight(a, vault) > Weight(b, vault) || (Weight(a, vault) == Weight(b, vault) && Before(a, b))
  }

  ghost predicate IsOwnerOf(vault: Text, owner: Text, names: seq<Text>) {
    owner in names && forall n :: n in names ==> n == owner || Beats(vault, owner, n)
  }

  method WeightOf(name: Text, vault: Text) returns (w: nat)
    ensures w == Weight(name, vault)
  {
    var h := Fnv1a64(name + [BAR] + vault);
    w := h as int;
  }

  method OwnerOf(vault: Text, names: seq<Text>) returns (best: Option<Text>)
    ensures best.None? <==> names == []
    ensures best.Some? ==> IsOwnerOf(vault, best.value, names)
    ensures best.Some? ==> best.value in names && forall n :: n in names ==>
      || Weight(n, vault) < Weight(best.value, vault)
      || (Weight(n, vault) == Weight(best.value, vault) && (n == best.value || Before(best.value, n)))
  {
    best := None;
    var bestWeight := 0;
    for i := 0 to |names|
      invariant best.None? <==> i == 0
      invariant best.Some? ==> bestWeight == Weight(best.value, vault) && IsOwnerOf(vault, best.value, names[..i])
    {
      var w := WeightOf(names[i], vault);
      NextOwner(vault, names, i, best);
      if best.None? || w > bestWeight || (w == bestWeight && Before(names[i], best.value)) {
        best := Some(names[i]);
        bestWeight := w;
      }
    }
    assert names[..|names|] == names;
  }

  lemma NextOwner(vault: Text, names: seq<Text>, i: nat, best: Option<Text>)
    requires i < |names| && (best.None? <==> i == 0)
    requires best.Some? ==> IsOwnerOf(vault, best.value, names[..i])
    ensures IsOwnerOf(vault, if best.None? || Beats(vault, names[i], best.value) then names[i] else best.value, names[..i + 1])
  {
    assert names[..i + 1] == names[..i] + [names[i]];
    if best.Some? {
      BeatsTotal(vault, names[i], best.value);
      forall n | n in names[..i] && Beats(vault, names[i], best.value) && Beats(vault, best.value, n)
        ensures Beats(vault, names[i], n)
      {
        BeatsTransitive(vault, names[i], best.value, n);
      }
    }
  }

  lemma BeatsTotal(vault: Text, a: Text, b: Text)
    ensures Beats(vault, a, b) || a == b || Beats(vault, b, a)
  {
    BeforeTotal(a, b);
  }

  lemma BeatsTransitive(vault: Text, a: Text, b: Text, c: Text)
    requires Beats(vault, a, b) && Beats(vault, b, c)
    ensures Beats(vault, a, c)
  {
    if Before(a, b) && Before(b, c) { BeforeTransitive(a, b, c); }
  }

  lemma BeatsOneWay(vault: Text, a: Text, b: Text)
    requires Beats(vault, a, b)
    ensures !Beats(vault, b, a) && a != b
  {
    BeforeIrreflexive(a);
    if Before(a, b) && Before(b, a) { BeforeTransitive(a, b, a); }
  }

  /** A vault has one owner, whatever the order of the list and however often a name is in it. */
  lemma OwnerIsUnique(vault: Text, a: Text, names: seq<Text>, b: Text, names': seq<Text>)
    requires IsOwnerOf(vault, a, names) && IsOwnerOf(vault, b, names')
    requires forall n :: n in names <==> n in names'
    ensures a == b
  {
    if a != b { BeatsOneWay(vault, a, b); }
  }

  lemma OwnerExists(vault: Text, names: seq<Text>) returns (owner: Text)
    requires names != []
    ensures IsOwnerOf(vault, owner, names)
  {
    owner := names[0];
    for i := 1 to |names|
      invariant IsOwnerOf(vault, owner, names[..i])
    {
      NextOwner(vault, names, i, Some(owner));
      if Beats(vault, names[i], owner) { owner := names[i]; }
    }
    assert names[..|names|] == names;
  }

  /** An instance that joins takes vaults for itself only. */
  lemma JoiningMovesOnlyToIt(vault: Text, names: seq<Text>, name: Text, before: Text, after: Text)
    requires IsOwnerOf(vault, before, names) && IsOwnerOf(vault, after, names + [name])
    ensures after == before || after == name
    ensures after == before <==> before == name || Beats(vault, before, name)
  {
    assert name in names + [name] && before in names + [name];
    if after != before && after != name {
      assert after in names;
      BeatsOneWay(vault, after, before);
    }
    if after == name && before != name { BeatsOneWay(vault, name, before); }
  }

  /** An instance that leaves gives up its own vaults only. */
  lemma LeavingMovesOnlyItsOwn(vault: Text, names: seq<Text>, left: seq<Text>, name: Text, before: Text, after: Text)
    requires IsOwnerOf(vault, before, names) && IsOwnerOf(vault, after, left)
    requires forall n :: n in left <==> n in names && n != name
    ensures after == before <==> before != name
  {
    if before != name && after != before { BeatsOneWay(vault, after, before); }
  }
}
