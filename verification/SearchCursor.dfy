/**
 * The composed cursor of a global search (`encodeCursor` and `decodeCursor` of
 * apps/indexer/src/globalSearch.ts), on the JSON value that is written as text.
 */
module SearchCursor {
  import opened Common
  import opened Text

  /** A JSON value as far as the cursor looks into it. */
  datatype Raw =
    | Missing                              // a member that is not there
    | RNull
    | RBool(b: bool)
    | RNum(x: real)
    | RStr(t: Text)
    | RArr
    | RObj(members: seq<RawMember>)

  datatype RawMember = RawMember(name: Text, value: Raw)

  /** What is left of one vault: its page (none: the first one) and how much of it was returned. */
  datatype Left = Left(vault: Text, c: Option<Text>, s: nat)

  datatype Decoded = Decoded(parts: seq<Left>, partial: bool)

  const V_NAME: Text := [118]
  const P_NAME: Text := [112]
  const X_NAME: Text := [120]
  const C_NAME: Text := [99]
  const S_NAME: Text := [115]

  function Get(r: Raw, name: Text): Raw {
    if r.RObj? then Member(r.members, name) else Missing
  }

  function Member(members: seq<RawMember>, name: Text): Raw {
    if members == [] then Missing else if members[0].name == name then members[0].value else Member(members[1..], name)
  }

  function EncodePart(p: Left): RawMember {
    RawMember(p.vault, RObj([
      RawMember(C_NAME, if p.c.None? then RNull else RStr(p.c.value)),
      RawMember(S_NAME, RNum(p.s as real))]))
  }

  function EncodeParts(parts: seq<Left>): (ms: seq<RawMember>)
    ensures |ms| == |parts|
  {
    if parts == [] then [] else [EncodePart(parts[0])] + EncodeParts(parts[1..])
  }

  function Encode(parts: seq<Left>, partial: bool): Raw {
    RObj([RawMember(V_NAME, RNum(1.0)), RawMember(P_NAME, RObj(EncodeParts(parts))), RawMember(X_NAME, RBool(partial))])
  }

  predicate IsCount(x: real) {
    x >= 0.0 && x.Floor as real == x
  }

  /** An entry that can be read: a page cursor or none, a count or none. */
  predicate GoodPart(r: Raw) {
    && (r.RObj? || r.RArr?)
    && (Get(r, C_NAME).RNull? || Get(r, C_NAME).Missing? || Get(r, C_NAME).RStr?)
    && (Get(r, S_NAME).Missing? || (Get(r, S_NAME).RNum? && IsCount(Get(r, S_NAME).x)))
  }

  function PartOf(m: RawMember): Left
    requires GoodPart(m.value)
  {
    var c, s := Get(m.value, C_NAME), Get(m.value, S_NAME);
    Left(m.name, if c.RStr? then Some(c.t) else None, if s.Missing? then 0 else s.x.Floor)
  }

  predicate GoodRoot(r: Raw) {
    && Get(r, V_NAME) == RNum(1.0) && Get(r, P_NAME).RObj?
    && forall i :: 0 <= i < |Get(r, P_NAME).members| ==> GoodPart(Get(r, P_NAME).members[i].value)
  }

  /** The members of an entry, by their names "c" and "s". */
  ghost predicate Reads(part: Left, m: RawMember) {
    && part.vault == m.name
    && (part.c.None? <==> Get(m.value, [99]).RNull? || Get(m.value, [99]).Missing?)
    && (part.c.Some? ==> Get(m.value, [99]) == RStr(part.c.value))
    && (Get(m.value, [115]) == RNum(part.s as real) || (Get(m.value, [115]).Missing? && part.s == 0))
  }

  /** The cursor is read entry by entry; one that cannot be read refuses it all. */
  method DecodeCursor(root: Raw) returns (d: Option<Decoded>)
    ensures d.Some? <==> GoodRoot(root)
    ensures d.Some? ==>
      && |d.value.parts| == |Get(root, P_NAME).members|
      && (forall i :: 0 <= i < |d.value.parts| ==> d.value.parts[i] == PartOf(Get(root, P_NAME).members[i]))
      && (d.value.partial <==> Get(root, X_NAME) == RBool(true))
    ensures d.Some? ==>
      && Get(root, [118]) == RNum(1.0) && Get(root, [112]).RObj? && |Get(root, [112]).members| == |d.value.parts|
      && (forall i :: 0 <= i < |d.value.parts| ==> Reads(d.value.parts[i], Get(root, [112]).members[i]))
      && (d.value.partial <==> Get(root, [120]) == RBool(true))
  {
    var p := Get(root, P_NAME);
    if Get(root, V_NAME) != RNum(1.0) || !p.RObj? { return None; }
    var parts: seq<Left> := [];
    for i := 0 to |p.members|
      invariant |parts| == i
      invariant forall k :: 0 <= k < i ==> GoodPart(p.members[k].value) && parts[k] == PartOf(p.members[k])
    {
      var r := p.members[i].value;
      if !r.RObj? && !r.RArr? { return None; }
      var c, s := Get(r, C_NAME), Get(r, S_NAME);
      if !c.RNull? && !c.Missing? && !c.RStr? { return None; }
      if !s.Missing? && !(s.RNum? && s.x >= 0.0 && s.x.Floor as real == s.x) { return None; }
      parts := parts + [Left(p.members[i].name, if c.RStr? then Some(c.t) else None, if s.Missing? then 0 else s.x.Floor)];
    }
    d := Some(Decoded(parts, Get(root, X_NAME) == RBool(true)));
  }

  lemma {:induction false} EncodedParts(parts: seq<Left>, i: nat)
    requires i < |parts|
    ensures EncodeParts(parts)[i] == EncodePart(parts[i])
  {
    if i > 0 { EncodedParts(parts[1..], i - 1); }
  }

  lemma MemberOfTwo(a: RawMember, b: RawMember, name: Text)
    ensures Member([a, b], name) == if a.name == name then a.value else if b.name == name then b.value else Missing
  {
    assert [a, b][1..] == [b];
    assert Member([b], name) == if b.name == name then b.value else Missing;
  }

  lemma MemberOfThree(a: RawMember, b: RawMember, c: RawMember, name: Text)
    ensures Member([a, b, c], name) == if a.name == name then a.value else Member([b, c], name)
  {
    assert [a, b, c][1..] == [b, c];
  }

  lemma PartBack(p: Left)
    ensures GoodPart(EncodePart(p).value) && PartOf(EncodePart(p)) == p
  {
    var r := EncodePart(p).value;
    MemberOfTwo(r.members[0], r.members[1], C_NAME);
    MemberOfTwo(r.members[0], r.members[1], S_NAME);
    assert r.members == [r.members[0], r.members[1]];
  }

  /** What was encoded can be read, and gives back the same parts in the same order. */
  lemma RoundTrip(parts: seq<Left>, partial: bool)
    ensures GoodRoot(Encode(parts, partial))
    ensures var members := Get(Encode(parts, partial), P_NAME).members;
      |members| == |parts| && forall i :: 0 <= i < |parts| ==> PartOf(members[i]) == parts[i]
    ensures Get(Encode(parts, partial), X_NAME) == RBool(partial)
  {
    var r := Encode(parts, partial);
    var v, p, x := r.members[0], r.members[1], r.members[2];
    assert r.members == [v, p, x];
    MemberOfThree(v, p, x, P_NAME);
    MemberOfThree(v, p, x, X_NAME);
    MemberOfTwo(p, x, P_NAME);
    MemberOfTwo(p, x, X_NAME);
    forall i | 0 <= i < |parts| ensures GoodPart(EncodeParts(parts)[i].value) && PartOf(EncodeParts(parts)[i]) == parts[i] {
      EncodedParts(parts, i);
      PartBack(parts[i]);
    }
  }

  /** The method itself gives back what was encoded. */
  method DecodeEncoded(parts: seq<Left>, partial: bool) returns (d: Option<Decoded>)
    ensures d == Some(Decoded(parts, partial))
  {
    RoundTrip(parts, partial);
    d := DecodeCursor(Encode(parts, partial));
    assert d.value.parts == parts;
  }
}
