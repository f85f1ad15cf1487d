/**
 * JSON with sorted keys (`stableStringify` of apps/indexer/src/util.ts), which
 * makes the cache's keys.
 */
module CanonicalJson {
  import opened Text
  import opened JsonNumber
  import opened JsonString

  datatype Member = Member(key: Text, value: Value)

  /** What a request holds: JSON values, and members that are not defined. */
  datatype Value =
    | Undefined
    | Null
    | Bool(b: bool)
    | Num(x: Number)
    | Str(t: Text)
    | Arr(items: seq<Value>)
    | Obj(members: seq<Member>)

  const NULL_TEXT: Text := [110, 117, 108, 108]
  const TRUE_TEXT: Text := [116, 114, 117, 101]
  const FALSE_TEXT: Text := [102, 97, 108, 115, 101]
  const COMMA: CodeUnit := 44
  const COLON: CodeUnit := 58
  const LBRACKET: CodeUnit := 91
  const RBRACKET: CodeUnit := 93
  const LBRACE: CodeUnit := 123
  const RBRACE: CodeUnit := 125

  // ── Sizes, for recursion ──

  function Size(v: Value): nat {
    match v
    case Arr(items) => 1 + SizeItems(items)
    case Obj(members) => 1 + SizeMembers(members)
    case _ => 1
  }

  function SizeItems(items: seq<Value>): nat {
    if items == [] then 0 else 1 + Size(items[0]) + SizeItems(items[1..])
  }

  function SizeMembers(members: seq<Member>): nat {
    if members == [] then 0 else 1 + Size(members[0].value) + SizeMembers(members[1..])
  }

  // ── Members: filtered, sorted ──

  function Defined(members: seq<Member>): (r: seq<Member>)
    ensures SizeMembers(r) <= SizeMembers(members)
  {
    if members == [] then [] else
      var rest := Defined(members[1..]);
      if members[0].value.Undefined? then rest
      else
        assert ([members[0]] + rest)[1..] == rest;
        [members[0]] + rest
  }

  function Insert(m: Member, sorted: seq<Member>): (r: seq<Member>)
    ensures SizeMembers(r) == 1 + Size(m.value) + SizeMembers(sorted)
  {
    if sorted == [] || !Before(sorted[0].key, m.key) then [m] + sorted
    else
      var rest := Insert(m, sorted[1..]);
      assert ([sorted[0]] + rest)[1..] == rest;
      [sorted[0]] + rest
  }

  function Sort(members: seq<Member>): (r: seq<Member>)
    ensures SizeMembers(r) == SizeMembers(members)
  {
    if members == [] then [] else Insert(members[0], Sort(members[1..]))
  }

  // ── stableStringify ──

  function NumText(x: Number): Text {
    if x.Finite? then NumberText(x) else NULL_TEXT
  }

  function Stable(v: Value): Text
    decreases Size(v)
  {
    match v
    case Undefined => NULL_TEXT
    case Null => NULL_TEXT
    case Bool(b) => if b then TRUE_TEXT else FALSE_TEXT
    case Num(x) => NumText(x)
    case Str(t) => Quote(t)
    case Arr(items) => [LBRACKET] + StableItems(items) + [RBRACKET]
    case Obj(members) => [LBRACE] + StableMembers(Sort(Defined(members))) + [RBRACE]
  }

  function StableItems(items: seq<Value>): Text
    decreases SizeItems(items)
  {
    if items == [] then []
    else Stable(items[0]) + if |items| == 1 then [] else [COMMA] + StableItems(items[1..])
  }

  function StableMembers(members: seq<Member>): Text
    decreases SizeMembers(members)
  {
    if members == [] then []
    else Quote(members[0].key) + ([COLON] + (Stable(members[0].value) + if |members| == 1 then [] else [COMMA] + StableMembers(members[1..])))
  }

  /** Of {"b": [1, null], "a": "\n", "c": undefined}: {"a":"\n","b":[1,null]}. */
  lemma KnownText(members: seq<Member>, a: Member, b: Member, c: Member, x: Text, y: Text)
    requires members == [b, a, c] && a.key == [97] && b.key == [98] && c.value.Undefined?
    requires a.value == Str([10]) && b.value == Arr([Num(Finite(false, [1], 1)), Null])
    requires x == [34, 92, 110, 34] && y == [91, 49, 44, 110, 117, 108, 108, 93]
    ensures Stable(Obj(members)) == [123] + ([34, 97, 34] + ([58] + (x + ([44] + ([34, 98, 34] + ([58] + (y + []))))))) + [125]
  {
    DropsLast(b, a, c);
    SortsTwo(b, a);
    KnownLine(a.value);
    KnownItems(b.value);
    KnownMembers(a, b, x, y);
  }

  lemma DropsLast(b: Member, a: Member, c: Member)
    requires !a.value.Undefined? && !b.value.Undefined? && c.value.Undefined?
    ensures Defined([b, a, c]) == [b, a]
  {
    assert [b, a, c][1..] == [a, c] && [a, c][1..] == [c] && [c][1..] == [];
    assert Defined([c]) == [];
    assert Defined([a, c]) == [a];
  }

  lemma SortsTwo(b: Member, a: Member)
    requires Before(a.key, b.key)
    ensures Sort([b, a]) == [a, b]
  {
    assert [b, a][1..] == [a] && [a][1..] == [];
    assert Sort([a]) == [a];
    assert Insert(b, [a]) == [a] + Insert(b, [a][1..]);
  }

  lemma KnownItems(items: Value)
    requires items == Arr([Num(Finite(false, [1], 1)), Null])
    ensures Stable(items) == [91, 49, 44, 110, 117, 108, 108, 93]
  {
    assert items.items[1..] == [Null];
    assert StableItems([Null]) == [110, 117, 108, 108];
    assert NumberText(Finite(false, [1], 1)) == [49];
    assert StableItems(items.items) == [49] + ([44] + [110, 117, 108, 108]);
  }

  lemma KnownLine(line: Value)
    requires line == Str([10])
    ensures Stable(line) == [34, 92, 110, 34]
  {
    assert [10][1..] == [];
    assert Escape([10]) == [92, 110];
  }

  lemma KnownMembers(a: Member, b: Member, x: Text, y: Text)
    requires a.key == [97] && b.key == [98] && Stable(a.value) == x && Stable(b.value) == y
    ensures StableMembers([a, b]) == [34, 97, 34] + ([58] + (x + ([44] + ([34, 98, 34] + ([58] + (y + []))))))
  {
    assert [a, b][1..] == [b];
    OneUnitQuoted(97);
    OneUnitQuoted(98);
  }

  lemma OneUnitQuoted(u: CodeUnit)
    requires 97 <= u <= 98
    ensures Quote([u]) == [34, u, 34]
  {
    assert [u][1..] == [];
    assert Escape([u]) == [u] + Escape([]);
  }

  // ── What JSON keeps of a value ──

  /** Sorted keys, no undefined member, no number JSON has not. */
  function Norm(v: Value): Value
    decreases Size(v)
  {
    match v
    case Undefined => Null
    case Num(x) => if x.Finite? then Num(Plain(x)) else Null
    case Arr(items) => Arr(NormItems(items))
    case Obj(members) => Obj(NormMembers(Sort(Defined(members))))
    case _ => v
  }

  function NormItems(items: seq<Value>): seq<Value>
    decreases SizeItems(items)
  {
    if items == [] then [] else [Norm(items[0])] + NormItems(items[1..])
  }

  function NormMembers(members: seq<Member>): seq<Member>
    decreases SizeMembers(members)
  {
    if members == [] then [] else [Member(members[0].key, Norm(members[0].value))] + NormMembers(members[1..])
  }

  ghost predicate ProperValue(v: Value)
    decreases Size(v)
  {
    match v
    case Num(x) => Proper(x)
    case Arr(items) => ProperItems(items)
    case Obj(members) => ProperMembers(members)
    case _ => true
  }

  ghost predicate ProperItems(items: seq<Value>)
    decreases SizeItems(items)
  {
    items == [] || (ProperValue(items[0]) && ProperItems(items[1..]))
  }

  ghost predicate ProperMembers(members: seq<Member>)
    decreases SizeMembers(members)
  {
    members == [] || (ProperValue(members[0].value) && ProperMembers(members[1..]))
  }

  lemma {:induction false} DefinedProper(members: seq<Member>)
    requires ProperMembers(members)
    ensures ProperMembers(Defined(members))
  {
    if members != [] {
      DefinedProper(members[1..]);
      assert ([members[0]] + Defined(members[1..]))[1..] == Defined(members[1..]);
    }
  }

  lemma {:induction false} InsertProper(m: Member, sorted: seq<Member>)
    requires ProperValue(m.value) && ProperMembers(sorted)
    ensures ProperMembers(Insert(m, sorted))
  {
    if sorted != [] && Before(sorted[0].key, m.key) {
      InsertProper(m, sorted[1..]);
      assert Insert(m, sorted)[1..] == Insert(m, sorted[1..]);
    }
  }

  lemma {:induction false} SortProper(members: seq<Member>)
    requires ProperMembers(members)
    ensures ProperMembers(Sort(members))
  {
    if members != [] {
      SortProper(members[1..]);
      InsertProper(members[0], Sort(members[1..]));
    }
  }

  // ── A text is read back in one way ──

  predicate Delimited(x: Text) {
    x == [] || x[0] == COMMA || x[0] == RBRACKET || x[0] == RBRACE
  }

  lemma LiteralStart(v: Value)
    requires ProperValue(v)
    ensures Stable(v) != []
    ensures var u := Stable(v)[0];
      && (u == 110 <==> v.Undefined? || v.Null? || (v.Num? && !v.x.Finite?))
      && (u == 116 <==> v == Bool(true)) && (u == 102 <==> v == Bool(false))
      && (IsDigit(u) || u == MINUS <==> v.Num? && v.x.Finite?)
      && (u == QUOTE <==> v.Str?) && (u == LBRACKET <==> v.Arr?) && (u == LBRACE <==> v.Obj?)
  {
    if v.Num? && v.x.Finite? { NumberUnits(v.x); }
  }

  lemma NumberEnds(a: Number, b: Number, x: Text, y: Text)
    requires a.Finite? && b.Finite? && Proper(a) && Proper(b) && Delimited(x) && Delimited(y)
    requires NumberText(a) + x == NumberText(b) + y
    ensures Plain(a) == Plain(b) && x == y
  {
    NumberUnits(a);
    NumberUnits(b);
    var l, r := NumberText(a) + x, NumberText(b) + y;
    assert |NumberText(a)| == |NumberText(b)| by {
      assert x != [] ==> l[|NumberText(a)|] == x[0];
      assert y != [] ==> r[|NumberText(b)|] == y[0];
      assert forall i :: 0 <= i < |NumberText(a)| ==> InNumber(l[i]);
      assert forall i :: 0 <= i < |NumberText(b)| ==> InNumber(r[i]);
    }
    assert NumberText(a) == l[..|NumberText(a)|] && NumberText(b) == r[..|NumberText(b)|];
    assert x == l[|NumberText(a)|..] && y == r[|NumberText(b)|..];
    NumberTextIsInjective(a, b);
  }

  /** What follows the first item: the end, or a comma and the others. */
  function ItemsTail(items: seq<Value>, x: Text): Text
    requires items != []
  {
    if |items| == 1 then x else [COMMA] + (StableItems(items[1..]) + x)
  }

  lemma ItemsStart(items: seq<Value>, x: Text)
    requires items != []
    ensures StableItems(items) + x == Stable(items[0]) + ItemsTail(items, x)
  {
    if |items| == 1 {
      assert Stable(items[0]) + [] == Stable(items[0]);
    } else {
      Assoc(Stable(items[0]), [COMMA] + StableItems(items[1..]), x);
      Assoc([COMMA], StableItems(items[1..]), x);
    }
  }

  function MembersTail(members: seq<Member>, x: Text): Text
    requires members != []
  {
    if |members| == 1 then x else [COMMA] + (StableMembers(members[1..]) + x)
  }

  lemma MembersStart(members: seq<Member>, x: Text)
    requires members != []
    ensures StableMembers(members) + x
         == Quote(members[0].key) + ([COLON] + (Stable(members[0].value) + MembersTail(members, x)))
  {
    var key, value := Quote(members[0].key), Stable(members[0].value);
    var others := if |members| == 1 then [] else [COMMA] + StableMembers(members[1..]);
    assert others + x == MembersTail(members, x) by {
      if |members| > 1 { Assoc([COMMA], StableMembers(members[1..]), x); }
    }
    Assoc(key, [COLON] + (value + others), x);
    Assoc([COLON], value + others, x);
    Assoc(value, others, x);
  }

  lemma Unwrapped(open: CodeUnit, close: CodeUnit, a: Text, b: Text, x: Text, y: Text)
    requires ([open] + a + [close]) + x == ([open] + b + [close]) + y
    ensures a + ([close] + x) == b + ([close] + y)
  {
    assert (([open] + a + [close]) + x)[1..] == a + ([close] + x);
    assert (([open] + b + [close]) + y)[1..] == b + ([close] + y);
  }

  lemma {:induction false} ReadsBack(a: Value, b: Value, x: Text, y: Text)
    requires ProperValue(a) && ProperValue(b) && Delimited(x) && Delimited(y) && Stable(a) + x == Stable(b) + y
    ensures Norm(a) == Norm(b) && x == y
    decreases Size(a), 1
  {
    LiteralStart(a);
    LiteralStart(b);
    var l, r := Stable(a) + x, Stable(b) + y;
    assert l[0] == Stable(a)[0] && r[0] == Stable(b)[0];
    match a
    case Num(n) =>
      if n.Finite? { NumberEnds(n, b.x, x, y); } else { SameLength(a, b, x, y); }
    case Str(t) => QuoteReadsBack(t, b.t, x, y);
    case Arr(items) =>
      Unwrapped(LBRACKET, RBRACKET, StableItems(items), StableItems(b.items), x, y);
      ItemsReadBack(items, b.items, [RBRACKET] + x, [RBRACKET] + y);
      assert x == ([RBRACKET] + x)[1..] && y == ([RBRACKET] + y)[1..];
    case Obj(members) => ObjectsReadBack(members, b.members, x, y);
    case _ => SameLength(a, b, x, y);
  }

  lemma SameLength(a: Value, b: Value, x: Text, y: Text)
    requires |Stable(a)| == |Stable(b)| && Stable(a) + x == Stable(b) + y
    ensures x == y
  {
    assert x == (Stable(a) + x)[|Stable(a)|..] && y == (Stable(b) + y)[|Stable(b)|..];
  }

  lemma {:induction false} ObjectsReadBack(aa: seq<Member>, bb: seq<Member>, x: Text, y: Text)
    requires ProperMembers(aa) && ProperMembers(bb) && Stable(Obj(aa)) + x == Stable(Obj(bb)) + y
    ensures Norm(Obj(aa)) == Norm(Obj(bb)) && x == y
    decreases 1 + SizeMembers(aa), 0
  {
    var ma, mb := Sort(Defined(aa)), Sort(Defined(bb));
    DefinedProper(aa);
    SortProper(Defined(aa));
    DefinedProper(bb);
    SortProper(Defined(bb));
    Unwrapped(LBRACE, RBRACE, StableMembers(ma), StableMembers(mb), x, y);
    MembersReadBack(ma, mb, [RBRACE] + x, [RBRACE] + y);
    assert x == ([RBRACE] + x)[1..] && y == ([RBRACE] + y)[1..];
  }

  lemma {:induction false} ItemsReadBack(aa: seq<Value>, bb: seq<Value>, x: Text, y: Text)
    requires ProperItems(aa) && ProperItems(bb) && x != [] && y != [] && x[0] == y[0] == RBRACKET
    requires StableItems(aa) + x == StableItems(bb) + y
    ensures NormItems(aa) == NormItems(bb) && x == y
    decreases SizeItems(aa), 2
  {
    if aa != [] { ItemsStart(aa, x); LiteralStart(aa[0]); }
    if bb != [] { ItemsStart(bb, y); LiteralStart(bb[0]); }
    if aa == [] {
      assert StableItems(aa) + x == x && (StableItems(bb) + y)[0] == RBRACKET;
      assert StableItems(bb) + y == y;
    } else {
      assert (StableItems(aa) + x)[0] == Stable(aa[0])[0];
      assert bb != [] by { assert StableItems([]) + y == y; }
      ReadsBack(aa[0], bb[0], ItemsTail(aa, x), ItemsTail(bb, y));
      if |aa| == 1 {
        assert bb[1..] == [] && aa[1..] == [];
      } else {
        assert ItemsTail(aa, x)[1..] == StableItems(aa[1..]) + x && ItemsTail(bb, y)[1..] == StableItems(bb[1..]) + y;
        ItemsReadBack(aa[1..], bb[1..], x, y);
      }
    }
  }

  lemma {:induction false} MembersReadBack(aa: seq<Member>, bb: seq<Member>, x: Text, y: Text)
    requires ProperMembers(aa) && ProperMembers(bb) && x != [] && y != [] && x[0] == y[0] == RBRACE
    requires StableMembers(aa) + x == StableMembers(bb) + y
    ensures NormMembers(aa) == NormMembers(bb) && x == y
    decreases SizeMembers(aa), 2
  {
    if aa != [] { MembersStart(aa, x); }
    if bb != [] { MembersStart(bb, y); }
    if aa == [] {
      assert StableMembers(aa) + x == x && (StableMembers(bb) + y)[0] == RBRACE;
      assert StableMembers(bb) + y == y;
    } else {
      assert (StableMembers(aa) + x)[0] == QUOTE;
      assert bb != [] by { assert StableMembers([]) + y == y; }
      var va, vb := Stable(aa[0].value) + MembersTail(aa, x), Stable(bb[0].value) + MembersTail(bb, y);
      QuoteReadsBack(aa[0].key, bb[0].key, [COLON] + va, [COLON] + vb);
      assert va == ([COLON] + va)[1..] && vb == ([COLON] + vb)[1..];
      ReadsBack(aa[0].value, bb[0].value, MembersTail(aa, x), MembersTail(bb, y));
      if |aa| == 1 {
        assert bb[1..] == [] && aa[1..] == [];
      } else {
        assert MembersTail(aa, x)[1..] == StableMembers(aa[1..]) + x && MembersTail(bb, y)[1..] == StableMembers(bb[1..]) + y;
        MembersReadBack(aa[1..], bb[1..], x, y);
      }
    }
  }

  // ── The same kept value gives the same text ──

  lemma {:induction false} SameText(a: Value, b: Value)
    requires Norm(a) == Norm(b)
    ensures Stable(a) == Stable(b)
    decreases Size(a), 1
  {
    match a
    case Arr(items) => SameItems(items, b.items);
    case Obj(members) => SameMembers(Sort(Defined(members)), Sort(Defined(b.members)));
    case _ =>
  }

  lemma {:induction false} SameItems(aa: seq<Value>, bb: seq<Value>)
    requires NormItems(aa) == NormItems(bb)
    ensures |aa| == |bb| && StableItems(aa) == StableItems(bb)
    decreases SizeItems(aa), 0
  {
    if aa != [] {
      assert NormItems(aa)[0] == Norm(aa[0]) && NormItems(aa)[1..] == NormItems(aa[1..]);
      assert NormItems(bb)[0] == Norm(bb[0]) && NormItems(bb)[1..] == NormItems(bb[1..]);
      SameText(aa[0], bb[0]);
      SameItems(aa[1..], bb[1..]);
    }
  }

  lemma {:induction false} SameMembers(aa: seq<Member>, bb: seq<Member>)
    requires NormMembers(aa) == NormMembers(bb)
    ensures |aa| == |bb| && StableMembers(aa) == StableMembers(bb)
    decreases SizeMembers(aa), 0
  {
    if aa != [] {
      assert NormMembers(aa)[0].value == Norm(aa[0].value) && NormMembers(aa)[1..] == NormMembers(aa[1..]);
      assert NormMembers(bb)[0].value == Norm(bb[0].value) && NormMembers(bb)[1..] == NormMembers(bb[1..]);
      assert aa[0].key == NormMembers(aa)[0].key && bb[0].key == NormMembers(bb)[0].key;
      SameText(aa[0].value, bb[0].value);
      SameMembers(aa[1..], bb[1..]);
    }
  }

  /** Two requests have the same text exactly when JSON keeps the same of them. */
  lemma StableIsCanonical(a: Value, b: Value)
    requires ProperValue(a) && ProperValue(b)
    ensures Stable(a) == Stable(b) <==> Norm(a) == Norm(b)
  {
    if Norm(a) == Norm(b) { SameText(a, b); }
    if Stable(a) == Stable(b) {
      assert Stable(a) + [] == Stable(b) + [];
      ReadsBack(a, b, [], []);
    }
  }
}
