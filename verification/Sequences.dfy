// What any sequence can be asked: whether its elements are distinct, what they are, and to be sorted.
module Sequences {
  predicate Distinct<T(==)>(s: seq<T>) {
    forall i, j :: 0 <= i < j < |s| ==> s[i] != s[j]
  }

  function Elems<T(==)>(s: seq<T>): set<T> {
    set x | x in s
  }

  lemma ElemsAppend<T>(s: seq<T>, x: T)
    ensures Elems(s + [x]) == Elems(s) + {x}
  {}

  lemma {:induction false} DistinctSize<T>(s: seq<T>)
    requires Distinct(s)
    ensures |Elems(s)| == |s|
  {
    if s != [] {
      var n := |s| - 1;
      DistinctSize(s[..n]);
      assert s == s[..n] + [s[n]];
      ElemsAppend(s[..n], s[n]);
      assert s[n] !in Elems(s[..n]);
    }
  }

  lemma DistinctConcat<T>(a: seq<T>, b: seq<T>)
    requires Distinct(a) && Distinct(b) && forall x :: x in a ==> x !in b
    ensures Distinct(a + b)
  {
    forall i, j | 0 <= i < j < |a + b| ensures (a + b)[i] != (a + b)[j] {
      if i < |a| <= j {
        assert a[i] in a && b[j - |a|] in b;
      }
    }
  }

  lemma SubsetSize<T>(a: set<T>, b: set<T>)
    ensures a <= b ==> |a| <= |b|
  {
    if a <= b {
      assert b == a + (b - a);
    }
  }

  lemma SameElements<T>(r: seq<T>, s: seq<T>)
    requires multiset(r) == multiset(s)
    ensures |r| == |s|
    ensures forall x :: x in r <==> x in s
    ensures Distinct(s) ==> Distinct(r)
  {
    assert |multiset(r)| == |multiset(s)|;
    forall x ensures x in r <==> x in s {
      assert x in r <==> x in multiset(r);
      assert x in s <==> x in multiset(s);
    }
    if Distinct(s) {
      forall i, j | 0 <= i < j < |r| ensures r[i] != r[j] {
        if r[i] == r[j] {
          assert r == r[..i] + [r[i]] + r[i + 1..j] + [r[j]] + r[j + 1..];
          assert multiset(r)[r[i]] >= 2;
          DistinctCounts(s, r[i]);
        }
      }
    }
  }

  lemma {:induction false} DistinctCounts<T>(s: seq<T>, x: T)
    requires Distinct(s)
    ensures multiset(s)[x] <= 1
  {
    if s != [] {
      assert s == [s[0]] + s[1..];
      DistinctCounts(s[1..], x);
      if s[0] == x {
        assert x !in s[1..];
        assert x !in multiset(s[1..]);
      }
    }
  }

  ghost predicate Increasing<T(!new)>(less: (T, T) -> bool, s: seq<T>) {
    (forall x, y :: !(less(x, y) && less(y, x))) && forall i, j :: 0 <= i < j < |s| ==> less(s[i], s[j])
  }

  // A set can be listed in increasing order in one way only.
  lemma {:induction false} OneOrder<T(!new)>(less: (T, T) -> bool, s: seq<T>, t: seq<T>)
    requires Increasing(less, s) && Increasing(less, t) && forall x :: x in s <==> x in t
    ensures s == t
  {
    if s != [] { assert s[0] in t; }
    if t != [] { assert t[0] in s; }
    if s != [] && t != [] {
      var k :| 0 <= k < |t| && t[k] == s[0];
      var m :| 0 <= m < |s| && s[m] == t[0];
      assert s[0] == t[0];
      assert !less(s[0], s[0]);
      assert forall i :: 0 < i < |s| ==> less(s[0], s[i]);
      assert forall i :: 0 < i < |t| ==> less(t[0], t[i]);
      forall x ensures x in s[1..] <==> x in t[1..] {
        assert x in s[1..] <==> x in s && x != s[0];
        assert x in t[1..] <==> x in t && x != t[0];
      }
      OneOrder(less, s[1..], t[1..]);
    }
  }

  predicate EndsWith<T(==)>(s: seq<T>, p: seq<T>) {
    |p| <= |s| && s[|s| - |p|..] == p
  }

  function NewLine(c: char): bool {
    c == '\n'
  }

  // ----- the library's stable sort -----

  type Order<!T> = (T, T) -> bool

  ghost predicate Preorder<T(!new)>(le: Order<T>) {
    (forall x, y :: le(x, y) || le(y, x)) && forall x, y, z :: le(x, y) && le(y, z) ==> le(x, z)
  }

  ghost predicate Ordered<T>(le: Order<T>, s: seq<T>) {
    forall i, j :: 0 <= i < j < |s| ==> le(s[i], s[j])
  }

  // Of a list, what ranks with x, as it stands there.
  ghost function Alike<T>(le: Order<T>, s: seq<T>, x: T): seq<T> {
    if s == [] then []
    else
      var n := |s| - 1;
      Alike(le, s[..n], x) + if le(s[n], x) && le(x, s[n]) then [s[n]] else []
  }

  // x after everything not behind it.
  function Insert<T>(le: Order<T>, s: seq<T>, x: T): seq<T> {
    if s == [] || le(s[|s| - 1], x) then s + [x] else Insert(le, s[..|s| - 1], x) + [s[|s| - 1]]
  }

  function SortBy<T>(le: Order<T>, s: seq<T>): seq<T> {
    if s == [] then [] else Insert(le, SortBy(le, s[..|s| - 1]), s[|s| - 1])
  }

  lemma AlikeMore<T>(le: Order<T>, s: seq<T>, e: T, x: T)
    ensures Alike(le, s + [e], x) == Alike(le, s, x) + if le(e, x) && le(x, e) then [e] else []
  {
    assert (s + [e])[..|s|] == s;
  }

  lemma {:induction false} InsertIs<T(!new)>(le: Order<T>, s: seq<T>, x: T)
    requires Preorder(le) && Ordered(le, s)
    ensures Ordered(le, Insert(le, s, x)) && multiset(Insert(le, s, x)) == multiset(s) + multiset{x}
  {
    if s != [] && !le(s[|s| - 1], x) {
      var n := |s| - 1;
      var front := Insert(le, s[..n], x);
      InsertIs(le, s[..n], x);
      assert s == s[..n] + [s[n]];
      forall i | 0 <= i < |front| ensures le(front[i], s[n]) {
        assert front[i] in multiset(front);
        assert front[i] in s[..n] || front[i] == x;
      }
    } else {
      forall i | 0 <= i < |s| ensures le(s[i], x) {
        assert i < |s| - 1 ==> le(s[i], s[|s| - 1]);
      }
    }
  }

  lemma {:induction false} InsertKeeps<T(!new)>(le: Order<T>, s: seq<T>, x: T, y: T)
    requires Preorder(le) && Ordered(le, s)
    ensures Alike(le, Insert(le, s, x), y) == Alike(le, s + [x], y)
  {
    AlikeMore(le, s, x, y);
    if s != [] && !le(s[|s| - 1], x) {
      var n := |s| - 1;
      InsertKeeps(le, s[..n], x, y);
      AlikeMore(le, s[..n], x, y);
      AlikeMore(le, Insert(le, s[..n], x), s[n], y);
      assert !(le(s[n], y) && le(y, x));
    }
  }

  // In order, the same elements, and those that rank alike as they stood.
  lemma {:induction false} SortIs<T(!new)>(le: Order<T>, s: seq<T>)
    requires Preorder(le)
    ensures Ordered(le, SortBy(le, s)) && multiset(SortBy(le, s)) == multiset(s)
  {
    if s != [] {
      var n := |s| - 1;
      SortIs(le, s[..n]);
      InsertIs(le, SortBy(le, s[..n]), s[n]);
      assert s == s[..n] + [s[n]];
    }
  }

  lemma StableMore<T(!new)>(le: Order<T>, sorted: seq<T>, s: seq<T>, x: T, y: T)
    requires Preorder(le) && Ordered(le, sorted) && Alike(le, sorted, y) == Alike(le, s, y)
    ensures Alike(le, Insert(le, sorted, x), y) == Alike(le, s + [x], y)
  {
    InsertKeeps(le, sorted, x, y);
    AlikeMore(le, sorted, x, y);
    AlikeMore(le, s, x, y);
  }

  lemma SortStep<T(!new)>(le: Order<T>, s: seq<T>, x: T, y: T)
    requires Preorder(le) && Alike(le, SortBy(le, s), y) == Alike(le, s, y)
    ensures Alike(le, SortBy(le, s + [x]), y) == Alike(le, s + [x], y)
  {
    SortIs(le, s);
    StableMore(le, SortBy(le, s), s, x, y);
    assert (s + [x])[..|s|] == s;
  }

  lemma {:induction false} SortIsStable<T(!new)>(le: Order<T>, s: seq<T>, y: T)
    requires Preorder(le)
    ensures Alike(le, SortBy(le, s), y) == Alike(le, s, y)
  {
    if s != [] {
      var n := |s| - 1;
      SortIsStable(le, s[..n], y);
      SortStep(le, s[..n], s[n], y);
      assert s == s[..n] + [s[n]];
    }
  }
}
