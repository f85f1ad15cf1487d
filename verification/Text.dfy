/** Strings as the source compares them: sequences of 16-bit code units. */
module Text {

  type CodeUnit = u: int | 0 <= u < 0x1_0000

  type Text = seq<CodeUnit>

  /** Ordinal order: the first difference decides, and a proper prefix comes first. */
  predicate Before(a: Text, b: Text) {
    if b == [] then false
    else if a == [] then true
    else if a[0] != b[0] then a[0] < b[0]
    else Before(a[1..], b[1..])
  }

  lemma {:induction false} BeforeIrreflexive(a: Text)
    ensures !Before(a, a)
  {
    if a != [] { BeforeIrreflexive(a[1..]); }
  }

  lemma {:induction false} BeforeTransitive(a: Text, b: Text, c: Text)
    requires Before(a, b) && Before(b, c)
    ensures Before(a, c)
  {
    if a != [] && a[0] == b[0] && b[0] == c[0] { BeforeTransitive(a[1..], b[1..], c[1..]); }
  }

  lemma {:induction false} BeforeTotal(a: Text, b: Text)
    ensures Before(a, b) || a == b || Before(b, a)
  {
    if a != [] && b != [] && a[0] == b[0] {
      BeforeTotal(a[1..], b[1..]);
      assert a == [a[0]] + a[1..] && b == [b[0]] + b[1..];
    }
  }

  /** Two ways to split a text at the first unit of a kind are one. */
  lemma SplitAt(sep: CodeUnit, a: Text, b: Text, x: Text, y: Text)
    requires sep !in a && sep !in b && a + [sep] + x == b + [sep] + y
    ensures a == b && x == y
  {
    var l, r := a + [sep] + x, b + [sep] + y;
    assert l[|a|] == sep && r[|b|] == sep;
    assert |a| == |b| by {
      assert forall i :: 0 <= i < |b| ==> r[i] == b[i] && b[i] in b;
      assert forall i :: 0 <= i < |a| ==> l[i] == a[i] && a[i] in a;
    }
    assert a == l[..|a|] && b == r[..|b|];
    assert x == l[|a| + 1..] && y == r[|b| + 1..];
  }

  lemma Assoc(a: Text, b: Text, c: Text)
    ensures (a + b) + c == a + (b + c)
  {}
}
