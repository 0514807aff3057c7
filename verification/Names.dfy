// Node and task names, ordered the way the source's string sort orders them.
module Names {
  import opened Sequences

  type Name = string

  // Strictly before, comparing character by character; a proper prefix comes first.
  predicate Before(a: Name, b: Name) {
    if b == "" then false
    else if a == "" then true
    else if a[0] == b[0] then Before(a[1..], b[1..])
    else a[0] < b[0]
  }

  lemma {:induction false} BeforeIsTotal(a: Name, b: Name)
    ensures Before(a, b) || Before(b, a) || a == b
    ensures !(Before(a, b) && Before(b, a))
    ensures !Before(a, a)
  {
    if a == "" || b == "" {
      if a != "" { BeforeIsTotal(a[1..], a[1..]); }
    } else {
      BeforeIsTotal(a[1..], b[1..]);
      if a[0] == b[0] && a[1..] == b[1..] {
        assert a == [a[0]] + a[1..] == b;
      }
    }
  }

  lemma {:induction false} BeforeIsTransitive(a: Name, b: Name, c: Name)
    requires Before(a, b) && Before(b, c)
    ensures Before(a, c)
  {
    if a != "" && a[0] == b[0] == c[0] {
      BeforeIsTransitive(a[1..], b[1..], c[1..]);
    }
  }

  predicate Sorted(s: seq<Name>) {
    forall i, j :: 0 <= i < j < |s| ==> !Before(s[j], s[i])
  }

  predicate NotAfter(a: Name, b: Name) {
    !Before(b, a)
  }

  lemma NamesAreOrdered()
    ensures Preorder(NotAfter)
  {
    forall x, y ensures NotAfter(x, y) || NotAfter(y, x) { BeforeIsTotal(x, y); }
    forall x, y, z | NotAfter(x, y) && NotAfter(y, z) ensures NotAfter(x, z) {
      BeforeIsTotal(x, y);
      BeforeIsTotal(y, z);
      if Before(z, x) {
        if x != y { BeforeIsTransitive(z, x, y); }
      }
    }
  }

  // The library sort: the same names in order.
  function Sort(s: seq<Name>): (r: seq<Name>)
    ensures Sorted(r) && multiset(r) == multiset(s)
  {
    NamesAreOrdered();
    SortIs(NotAfter, s);
    assert forall i, j :: 0 <= i < j < |SortBy(NotAfter, s)| ==>
                            NotAfter(SortBy(NotAfter, s)[i], SortBy(NotAfter, s)[j]);
    SortBy(NotAfter, s)
  }

  lemma SortedIsIncreasing(s: seq<Name>)
    requires Sorted(s) && Distinct(s)
    ensures Increasing(Before, s)
  {
    forall x, y ensures !(Before(x, y) && Before(y, x)) { BeforeIsTotal(x, y); }
    forall i, j | 0 <= i < j < |s| ensures Before(s[i], s[j]) { BeforeIsTotal(s[i], s[j]); }
  }
}
