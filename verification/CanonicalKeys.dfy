/** Objects taken as maps, and the keys of the cache. */
module CanonicalKeys {
  import opened Common
  import opened Text
  import opened JsonNumber
  import opened CanonicalJson
  import opened CacheTheorems

  function FindKey(members: seq<Member>, key: Text): Option<Value> {
    if members == [] then None
    else if members[0].key == key then Some(members[0].value) else FindKey(members[1..], key)
  }

  /** What JSON keeps of a member: nothing, if it is not there or not defined. */
  function Kept(members: seq<Member>, key: Text): Option<Value> {
    match FindKey(Defined(members), key)
    case None => None
    case Some(v) => Some(Norm(v))
  }

  predicate DistinctMembers(members: seq<Member>) {
    forall i, j :: 0 <= i < j < |members| ==> members[i].key != members[j].key
  }

  predicate InKeyOrder(members: seq<Member>) {
    forall i, j :: 0 <= i < j < |members| ==> Before(members[i].key, members[j].key)
  }

  lemma {:induction false} FindThere(members: seq<Member>, key: Text)
    ensures FindKey(members, key).Some? <==> exists i :: 0 <= i < |members| && members[i].key == key
  {
    if members != [] {
      FindThere(members[1..], key);
      if i :| 0 <= i < |members| && members[i].key == key { assert i > 0 ==> members[1..][i - 1].key == key; }
      if members[0].key == key { assert members[0].key == key; }
    }
  }

  lemma {:induction false} DefinedDistinct(members: seq<Member>)
    requires DistinctMembers(members)
    ensures DistinctMembers(Defined(members))
    ensures forall i :: 0 <= i < |Defined(members)| ==> exists j :: 0 <= j < |members| && members[j].key == Defined(members)[i].key
  {
    if members != [] {
      var rest := members[1..];
      DefinedDistinct(rest);
      var d := Defined(members);
      forall i | 0 <= i < |d| ensures exists j :: 0 <= j < |members| && members[j].key == d[i].key {
        if d == [members[0]] + Defined(rest) && i == 0 {
          assert members[0].key == d[0].key;
        } else {
          var k := if d == [members[0]] + Defined(rest) && !members[0].value.Undefined? then i - 1 else i;
          var j :| 0 <= j < |rest| && rest[j].key == Defined(rest)[k].key;
          assert members[j + 1].key == d[i].key;
        }
      }
    }
  }

  lemma {:induction false} FindInsert(m: Member, sorted: seq<Member>, key: Text)
    ensures FindKey(Insert(m, sorted), key) == if key == m.key then Some(m.value) else FindKey(sorted, key)
  {
    if sorted != [] && Before(sorted[0].key, m.key) {
      FindInsert(m, sorted[1..], key);
      BeforeIrreflexive(m.key);
      assert Insert(m, sorted)[1..] == Insert(m, sorted[1..]);
    }
  }

  lemma {:induction false} FindSort(members: seq<Member>, key: Text)
    ensures FindKey(Sort(members), key) == FindKey(members, key)
  {
    if members != [] {
      FindSort(members[1..], key);
      FindInsert(members[0], Sort(members[1..]), key);
    }
  }

  lemma {:induction false} FindNorm(members: seq<Member>, key: Text)
    ensures FindKey(NormMembers(members), key) ==
      match FindKey(members, key) { case None => None case Some(v) => Some(Norm(v)) }
  {
    if members != [] {
      FindNorm(members[1..], key);
      assert NormMembers(members)[1..] == NormMembers(members[1..]);
    }
  }

  lemma {:induction false} InsertInOrder(m: Member, sorted: seq<Member>)
    requires InKeyOrder(sorted) && FindKey(sorted, m.key).None?
    ensures InKeyOrder(Insert(m, sorted))
  {
    if sorted != [] {
      BeforeTotal(sorted[0].key, m.key);
      var r := Insert(m, sorted);
      if Before(sorted[0].key, m.key) {
        InsertInOrder(m, sorted[1..]);
        var rest := Insert(m, sorted[1..]);
        forall j | 0 <= j < |rest| ensures Before(sorted[0].key, rest[j].key) { InsertKeys(m, sorted[1..], j); }
      } else {
        forall j | 0 <= j < |sorted| ensures Before(m.key, sorted[j].key) {
          if j > 0 { BeforeTransitive(m.key, sorted[0].key, sorted[j].key); }
        }
      }
    }
  }

  lemma {:induction false} InsertKeys(m: Member, sorted: seq<Member>, j: nat)
    requires j < |Insert(m, sorted)|
    ensures Insert(m, sorted)[j].key == m.key || exists i :: 0 <= i < |sorted| && sorted[i].key == Insert(m, sorted)[j].key
  {
    if sorted != [] && Before(sorted[0].key, m.key) {
      if j > 0 {
        InsertKeys(m, sorted[1..], j - 1);
        if i :| 0 <= i < |sorted[1..]| && sorted[1..][i].key == Insert(m, sorted[1..])[j - 1].key {
          assert sorted[i + 1].key == Insert(m, sorted)[j].key;
        }
      } else {
        assert sorted[0].key == Insert(m, sorted)[0].key;
      }
    } else if j > 0 {
      assert sorted[j - 1].key == Insert(m, sorted)[j].key;
    }
  }

  lemma {:induction false} SortInOrder(members: seq<Member>)
    requires DistinctMembers(members)
    ensures InKeyOrder(Sort(members))
  {
    if members != [] {
      var rest := members[1..];
      SortInOrder(rest);
      FindSort(rest, members[0].key);
      FindThere(rest, members[0].key);
      InsertInOrder(members[0], Sort(rest));
    }
  }

  lemma {:induction false} NormInOrder(members: seq<Member>)
    requires InKeyOrder(members)
    ensures |NormMembers(members)| == |members| && forall i :: 0 <= i < |members| ==> NormMembers(members)[i].key == members[i].key
    ensures InKeyOrder(NormMembers(members))
  {
    if members != [] { NormInOrder(members[1..]); }
  }

  /** Members in key order are determined by what each key is given. */
  lemma {:induction false} OrderedUnique(a: seq<Member>, b: seq<Member>)
    requires InKeyOrder(a) && InKeyOrder(b) && forall key :: FindKey(a, key) == FindKey(b, key)
    ensures a == b
  {
    if a != [] { assert FindKey(b, a[0].key).Some?; }
    if b != [] { assert FindKey(a, b[0].key).Some?; }
    if a != [] && b != [] {
      FirstIsLeast(a, b[0].key);
      FirstIsLeast(b, a[0].key);
      if Before(a[0].key, b[0].key) && Before(b[0].key, a[0].key) {
        BeforeTransitive(a[0].key, b[0].key, a[0].key);
        BeforeIrreflexive(a[0].key);
      }
      assert a[0].key == b[0].key && FindKey(a, a[0].key) == FindKey(b, a[0].key);
      forall key ensures FindKey(a[1..], key) == FindKey(b[1..], key) {
        assert FindKey(a, key) == FindKey(b, key);
        NotInTail(a);
        NotInTail(b);
      }
      OrderedUnique(a[1..], b[1..]);
      assert a == [a[0]] + a[1..] && b == [b[0]] + b[1..];
    }
  }

  lemma FirstIsLeast(a: seq<Member>, key: Text)
    requires InKeyOrder(a) && FindKey(a, key).Some?
    ensures a[0].key == key || Before(a[0].key, key)
  {
    FindThere(a, key);
    var i :| 0 <= i < |a| && a[i].key == key;
  }

  lemma NotInTail(a: seq<Member>)
    requires InKeyOrder(a) && a != []
    ensures FindKey(a[1..], a[0].key).None?
  {
    FindThere(a[1..], a[0].key);
    if i :| 0 <= i < |a[1..]| && a[1..][i].key == a[0].key {
      assert Before(a[0].key, a[i + 1].key);
      BeforeIrreflexive(a[0].key);
    }
  }

  lemma KeptIsFound(members: seq<Member>, key: Text)
    ensures FindKey(NormMembers(Sort(Defined(members))), key) == Kept(members, key)
  {
    FindSort(Defined(members), key);
    FindNorm(Sort(Defined(members)), key);
  }

  lemma KeptInOrder(members: seq<Member>)
    requires DistinctMembers(members)
    ensures InKeyOrder(NormMembers(Sort(Defined(members))))
  {
    DefinedDistinct(members);
    SortInOrder(Defined(members));
    NormInOrder(Sort(Defined(members)));
  }

  /** Two objects have the same text exactly when, as maps, they hold the same. */
  lemma ObjectsAreMaps(a: seq<Member>, b: seq<Member>)
    requires ProperMembers(a) && ProperMembers(b) && DistinctMembers(a) && DistinctMembers(b)
    ensures Stable(Obj(a)) == Stable(Obj(b)) <==> forall key :: Kept(a, key) == Kept(b, key)
  {
    StableIsCanonical(Obj(a), Obj(b));
    forall key ensures FindKey(NormMembers(Sort(Defined(a))), key) == Kept(a, key) { KeptIsFound(a, key); }
    forall key ensures FindKey(NormMembers(Sort(Defined(b))), key) == Kept(b, key) { KeptIsFound(b, key); }
    KeptInOrder(a);
    KeptInOrder(b);
    if forall key :: Kept(a, key) == Kept(b, key) {
      forall key ensures FindKey(NormMembers(Sort(Defined(a))), key) == FindKey(NormMembers(Sort(Defined(b))), key) {
        assert Kept(a, key) == Kept(b, key);
      }
      OrderedUnique(NormMembers(Sort(Defined(a))), NormMembers(Sort(Defined(b))));
    }
    if Norm(Obj(a)) == Norm(Obj(b)) {
      forall key ensures Kept(a, key) == Kept(b, key) {
        KeptIsFound(a, key);
        KeptIsFound(b, key);
      }
    }
  }

  /** A number too big for a double is read as infinite, and then written as null is. */
  lemma InfiniteCollides()
    ensures Stable(Num(Infinite(false))) == Stable(Null) && Num(Infinite(false)) != Null
  {}

  /** One key of the cache, one vault, one method, and parameters of which JSON keeps the same. */
  lemma CacheKeyIsExact(v1: Text, c1: Text, m1: Text, p1: Value, v2: Text, c2: Text, m2: Text, p2: Value)
    requires NoZero(v1) && NoZero(c1) && NoZero(m1) && NoZero(v2) && NoZero(c2) && NoZero(m2)
    requires ProperValue(p1) && ProperValue(p2)
    ensures Key(v1, c1, m1, Stable(p1)) == Key(v2, c2, m2, Stable(p2))
       <==> v1 == v2 && c1 == c2 && m1 == m2 && Norm(p1) == Norm(p2)
  {
    StableIsCanonical(p1, p2);
    if Key(v1, c1, m1, Stable(p1)) == Key(v2, c2, m2, Stable(p2)) {
      KeyIsInjective(v1, c1, m1, Stable(p1), v2, c2, m2, Stable(p2));
    }
  }
}
