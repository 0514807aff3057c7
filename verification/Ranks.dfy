// What level by level scheduling does to any "needs" relation: the levels it hands out, and who is
// left when nothing more can be placed.
module Ranks {
  import opened Sequences
  import opened Names

  // For every item, the items it needs.
  type Needs<K> = map<K, set<K>>

  ghost predicate In<K>(pre: Needs<K>, i: K, j: K) {
    i in pre && j in pre[i]
  }

  // j is one of i's needs and is not behind level l - 1.
  ghost predicate Holds<K>(pre: Needs<K>, lv: map<K, nat>, l: int, i: K, j: K) {
    In(pre, i, j) && (j !in lv || lv[j] + 1 == l)
  }

  ghost predicate Held<K(!new)>(pre: Needs<K>, lv: map<K, nat>, l: int, i: K) {
    exists j :: Holds(pre, lv, l, i, j)
  }

  ghost predicate HasBase<K(!new)>(pre: Needs<K>, lv: map<K, nat>, i: K) {
    i in lv && exists j :: In(pre, i, j) && j in lv && lv[j] + 1 == lv[i]
  }

  // The levels given out below l are right, and whatever has none is held back by something.
  ghost predicate Rising<K(!new)>(pre: Needs<K>, lv: map<K, nat>, l: nat) {
    && (forall i :: i in lv ==> i in pre && lv[i] < l)
    && (forall i, j {:trigger In(pre, i, j)} :: i in lv && In(pre, i, j) ==> j in lv && lv[j] < lv[i])
    && (forall i {:trigger HasBase(pre, lv, i)} :: i in lv && lv[i] > 0 ==> HasBase(pre, lv, i))
    && (forall i {:trigger Held(pre, lv, l, i)} :: i in pre && i !in lv && l > 0 ==> Held(pre, lv, l, i))
  }

  // Not placed yet, with every need placed.
  ghost predicate Ready<K>(pre: Needs<K>, lv: map<K, nat>, i: K) {
    i in pre && i !in lv && pre[i] <= lv.Keys
  }

  ghost predicate AllReady<K(!new)>(pre: Needs<K>, lv: map<K, nat>, ready: seq<K>) {
    Distinct(ready) && forall i {:trigger i in ready} {:trigger Ready(pre, lv, i)} :: i in ready <==> Ready(pre, lv, i)
  }

  ghost function Raised<K>(lv: map<K, nat>, ready: seq<K>, l: nat): map<K, nat> {
    map i | i in lv.Keys + Elems(ready) :: if i in lv then lv[i] else l
  }

  // Giving everything that is ready the next level keeps the levels right.
  lemma Raise<K(!new)>(pre: Needs<K>, lv: map<K, nat>, l: nat, ready: seq<K>)
    requires Rising(pre, lv, l) && AllReady(pre, lv, ready)
    ensures Rising(pre, Raised(lv, ready, l), l + 1)
  {
    var lv1 := Raised(lv, ready, l);
    forall i, j | i in lv1 && In(pre, i, j) ensures j in lv1 && lv1[j] < lv1[i] {
      if i !in lv { assert Ready(pre, lv, i); }
    }
    forall i | i in lv1 && lv1[i] > 0 ensures HasBase(pre, lv1, i) {
      if i in lv {
        assert HasBase(pre, lv, i);
        var j :| In(pre, i, j) && j in lv && lv[j] + 1 == lv[i];
        assert j in lv1;
      } else {
        assert Ready(pre, lv, i) && Held(pre, lv, l, i);
        var j :| Holds(pre, lv, l, i, j);
        assert j in lv1;
      }
    }
    forall i | i in pre && i !in lv1 ensures Held(pre, lv1, l + 1, i) {
      assert !Ready(pre, lv, i);
      var j :| j in pre[i] && j !in lv;
      assert Holds(pre, lv1, l + 1, i, j);
    }
  }

  lemma RaisedSize<K(!new)>(pre: Needs<K>, lv: map<K, nat>, ready: seq<K>, l: nat)
    requires AllReady(pre, lv, ready)
    ensures |Raised(lv, ready, l).Keys| == |lv.Keys| + |ready|
  {
    var r := Elems(ready);
    DistinctSize(ready);
    assert Raised(lv, ready, l).Keys == lv.Keys + r;
    forall x | x in r ensures x !in lv.Keys { assert Ready(pre, lv, x); }
    assert lv.Keys !! r;
  }

  // An item with no needs is at level 0 and any other one above the highest of its needs, and that
  // fixes every level.
  lemma {:induction false} LevelIsFixed<K(!new)>(pre: Needs<K>, lv: map<K, nat>, l: nat, lv1: map<K, nat>, l1: nat,
                                                 i: K)
    requires Rising(pre, lv, l) && Rising(pre, lv1, l1) && i in lv && i in lv1
    ensures lv[i] == lv1[i]
    decreases lv[i]
  {
    if lv[i] > 0 {
      assert HasBase(pre, lv, i);
      var j :| In(pre, i, j) && j in lv && lv[j] + 1 == lv[i];
      LevelIsFixed(pre, lv, l, lv1, l1, j);
    }
    if lv1[i] > lv[i] {
      assert HasBase(pre, lv1, i);
      var j :| In(pre, i, j) && j in lv1 && lv1[j] + 1 == lv1[i];
      LevelIsFixed(pre, lv, l, lv1, l1, j);
    }
  }
}
