// The condensation: components in topological order, each with its level.
module Condensation {
  import opened Sequences
  import opened Names
  import opened Digraphs
  import opened Tarjan
  import opened Ranks

  // ----- which components depend on which -----

  ghost predicate DependsOn(g: Graph, a: seq<Name>, b: seq<Name>) {
    exists x, y :: x in a && y in b && y in Deps(g, x)
  }

  ghost predicate Edge(g: Graph, sets: seq<seq<Name>>, from: nat, to: nat) {
    from < |sets| && to < |sets| && from != to && DependsOn(g, sets[to], sets[from])
  }

  // pre lists, for every component, the components it depends on.
  ghost predicate Prerequisites(g: Graph, sets: seq<seq<Name>>, pre: Needs<nat>) {
    Indexed(pre, |sets|) && forall to: nat, from: nat {:trigger In(pre, to, from)} ::
      In(pre, to, from) <==> Edge(g, sets, from, to)
  }

  // pre is about the numbers below n.
  ghost predicate Indexed(pre: Needs<nat>, n: nat) {
    forall i: nat {:trigger i in pre} :: i in pre <==> i < n
  }

  ghost predicate Owns(sets: seq<seq<Name>>, owner: map<Name, nat>) {
    && (forall n :: n in owner ==> owner[n] < |sets| && n in sets[owner[n]])
    && (forall i, n :: 0 <= i < |sets| && n in sets[i] ==> n in owner && owner[n] == i)
  }

  method Owners(sets: seq<seq<Name>>) returns (owner: map<Name, nat>)
    requires forall i, j, x :: 0 <= i < |sets| && 0 <= j < |sets| && x in sets[i] && x in sets[j] ==> i == j
    ensures Owns(sets, owner)
  {
    owner := map[];
    for i := 0 to |sets|
      invariant forall n :: n in owner ==> owner[n] < i && n in sets[owner[n]]
      invariant forall j, n :: 0 <= j < i && n in sets[j] ==> n in owner && owner[n] == j
    {
      for k := 0 to |sets[i]|
        invariant forall n :: n in owner ==> owner[n] <= i && n in sets[owner[n]]
        invariant forall j, n :: 0 <= j < i && n in sets[j] ==> n in owner && owner[n] == j
        invariant forall n :: n in sets[i][..k] ==> n in owner && owner[n] == i
      {
        owner := owner[sets[i][k] := i];
      }
      assert sets[i][..|sets[i]|] == sets[i];
    }
  }

  ghost predicate At(edges: seq<set<nat>>, from: nat, to: nat) {
    from < |edges| && to in edges[from]
  }

  // edges is pre read backwards.
  ghost predicate Mirrors(pre: Needs<nat>, edges: seq<set<nat>>) {
    && Indexed(pre, |edges|)
    && (forall from: nat, to: nat {:trigger At(edges, from, to)} {:trigger In(pre, to, from)} ::
          At(edges, from, to) <==> In(pre, to, from))
  }

  // indeg counts what pre has outside `done`.
  ghost predicate Counts(pre: Needs<nat>, indeg: seq<int>, done: set<nat>) {
    && Indexed(pre, |indeg|)
    && (forall to {:trigger indeg[to]} :: 0 <= to < |indeg| ==> indeg[to] == |pre[to] - done|)
  }

  // Every recorded edge is a real one.
  ghost predicate Recorded(g: Graph, sets: seq<seq<Name>>, pre: Needs<nat>) {
    Indexed(pre, |sets|) && forall to: nat, from: nat {:trigger In(pre, to, from)} ::
      In(pre, to, from) ==> Edge(g, sets, from, to)
  }

  // The edge that y leaves among x's dependencies, if it crosses from one component to another.
  ghost predicate Left(owner: map<Name, nat>, pre: Needs<nat>, x: Name, y: Name) {
    x in owner && y in owner && owner[x] != owner[y] ==> In(pre, owner[x], owner[y])
  }

  // The first k dependencies of x have left their edges.
  ghost predicate Entered(g: Graph, owner: map<Name, nat>, pre: Needs<nat>, x: Name, k: nat) {
    forall y {:trigger Left(owner, pre, x, y)} :: y in Until(Deps(g, x), k) ==> Left(owner, pre, x, y)
  }

  ghost predicate Grown(pre: Needs<nat>, pre1: Needs<nat>) {
    pre.Keys == pre1.Keys && forall to: nat, from: nat {:trigger In(pre1, to, from)} ::
      In(pre, to, from) ==> In(pre1, to, from)
  }

  lemma EnteredStays(g: Graph, owner: map<Name, nat>, pre: Needs<nat>, pre1: Needs<nat>, x: Name, k: nat)
    requires Entered(g, owner, pre, x, k) && Grown(pre, pre1)
    ensures Entered(g, owner, pre1, x, k)
  {
    forall y | y in Until(Deps(g, x), k) ensures Left(owner, pre1, x, y) {
      assert Left(owner, pre, x, y);
    }
  }

  lemma EnteredOneMore(g: Graph, owner: map<Name, nat>, pre: Needs<nat>, pre1: Needs<nat>, x: Name, k: nat)
    requires Entered(g, owner, pre, x, k) && Grown(pre, pre1) && k < |Deps(g, x)|
    requires Left(owner, pre1, x, Deps(g, x)[k])
    ensures Entered(g, owner, pre1, x, k + 1)
  {
    EnteredStays(g, owner, pre, pre1, x, k);
    assert Until(Deps(g, x), k + 1) == Until(Deps(g, x), k) + [Deps(g, x)[k]];
  }

  function With(pre: Needs<nat>, to: nat, from: nat): Needs<nat>
    requires to in pre
  {
    pre[to := pre[to] + {from}]
  }

  lemma WithIn(pre: Needs<nat>, to: nat, from: nat, t: nat, f: nat)
    requires to in pre
    ensures In(With(pre, to, from), t, f) <==> In(pre, t, f) || (t == to && f == from)
  {}

  lemma Linked(pre: Needs<nat>, edges: seq<set<nat>>, indeg: seq<int>, from: nat, to: nat)
    requires Mirrors(pre, edges) && Counts(pre, indeg, {}) && from in pre && to in pre && to !in edges[from]
    ensures Mirrors(With(pre, to, from), edges[from := edges[from] + {to}])
    ensures Counts(With(pre, to, from), indeg[to := indeg[to] + 1], {})
  {
    var pre1, edges1 := With(pre, to, from), edges[from := edges[from] + {to}];
    forall f: nat, t: nat ensures At(edges1, f, t) <==> In(pre1, t, f) {
      WithIn(pre, to, from, t, f);
      assert At(edges, f, t) <==> In(pre, t, f);
      assert At(edges1, f, t) <==> At(edges, f, t) || (f == from && t == to);
    }
    assert !At(edges, from, to);
    assert pre1[to] - {} == (pre[to] - {}) + {from};
  }

  // One edge entered, unless it is there already.
  method Link(ghost pre: Needs<nat>, edges: array<set<nat>>, indeg: array<int>, from: nat, to: nat)
    returns (ghost pre1: Needs<nat>)
    requires Mirrors(pre, edges[..]) && Counts(pre, indeg[..], {}) && from in pre && to in pre
    modifies edges, indeg
    ensures pre1 == With(pre, to, from)
    ensures Mirrors(pre1, edges[..]) && Counts(pre1, indeg[..], {})
  {
    pre1 := With(pre, to, from);
    if to !in edges[from] {
      Linked(pre, edges[..], indeg[..], from, to);
      edges[from] := edges[from] + {to};
      indeg[to] := indeg[to] + 1;
      assert edges[..] == old(edges[..])[from := old(edges[from]) + {to}];
      assert indeg[..] == old(indeg[..])[to := old(indeg[to]) + 1];
    } else {
      assert At(edges[..], from, to);
      assert pre[to] + {from} == pre[to];
      assert pre1 == pre;
    }
  }

  lemma RealEdge(g: Graph, sets: seq<seq<Name>>, owner: map<Name, nat>, pre: Needs<nat>, x: Name, y: Name)
    requires Owns(sets, owner) && Recorded(g, sets, pre)
    requires x in owner && y in owner && owner[x] != owner[y] && y in Deps(g, x)
    ensures Recorded(g, sets, With(pre, owner[x], owner[y])) && Grown(pre, With(pre, owner[x], owner[y]))
    ensures Left(owner, With(pre, owner[x], owner[y]), x, y)
  {
    var to, from := owner[x], owner[y];
    assert Edge(g, sets, from, to);
    forall t: nat, f: nat
      ensures In(With(pre, to, from), t, f) ==> Edge(g, sets, f, t)
      ensures In(pre, t, f) ==> In(With(pre, to, from), t, f)
    {
      WithIn(pre, to, from, t, f);
    }
    WithIn(pre, to, from, to, from);
  }

  // Every edge of one name.
  method LinkAll(g: Graph, sets: seq<seq<Name>>, owner: map<Name, nat>, edges: array<set<nat>>, indeg: array<int>,
                 ghost pre: Needs<nat>, n: Name, deps: seq<Name>)
    returns (ghost pre1: Needs<nat>)
    requires Owns(sets, owner) && Recorded(g, sets, pre) && n in owner && deps == Deps(g, n)
    requires Mirrors(pre, edges[..]) && Counts(pre, indeg[..], {})
    modifies edges, indeg
    ensures Recorded(g, sets, pre1) && Grown(pre, pre1) && Entered(g, owner, pre1, n, |deps|)
    ensures Mirrors(pre1, edges[..]) && Counts(pre1, indeg[..], {})
  {
    var to := owner[n];
    pre1 := pre;
    for k := 0 to |deps|
      invariant Recorded(g, sets, pre1) && Grown(pre, pre1) && Entered(g, owner, pre1, n, k)
      invariant Mirrors(pre1, edges[..]) && Counts(pre1, indeg[..], {})
    {
      var d := deps[k];
      ghost var last := pre1;
      if d in owner && owner[d] != to {
        RealEdge(g, sets, owner, pre1, n, d);
        pre1 := Link(pre1, edges, indeg, owner[d], to);
        GrownOn(pre, last, pre1);
      }
      EnteredOneMore(g, owner, last, pre1, n, k);
    }
  }

  lemma GrownOn(a: Needs<nat>, b: Needs<nat>, c: Needs<nat>)
    requires Grown(a, b) && Grown(b, c)
    ensures Grown(a, c)
  {
    forall to: nat, from: nat | In(a, to, from) ensures In(c, to, from) {
      assert In(b, to, from);
    }
  }

  method Edges(g: Graph, sets: seq<seq<Name>>, owner: map<Name, nat>)
    returns (edges: array<set<nat>>, indeg: array<int>, ghost pre: Needs<nat>)
    requires Owns(sets, owner)
    ensures fresh(edges) && fresh(indeg)
    ensures indeg.Length == |sets| && Prerequisites(g, sets, pre) && Mirrors(pre, edges[..])
            && Counts(pre, indeg[..], {})
  {
    edges, indeg := new set<nat>[|sets|](_ => {}), new int[|sets|](_ => 0);
    pre := map i | i in Below(|sets|) :: {};
    var keys := g.Keys;
    while keys != {}
      invariant keys <= g.Keys
      invariant Recorded(g, sets, pre) && Mirrors(pre, edges[..]) && Counts(pre, indeg[..], {})
      invariant forall x :: x in g.Keys - keys ==> Entered(g, owner, pre, x, |g[x]|)
    {
      var n :| n in keys;
      if n in owner {
        ghost var before := pre;
        pre := LinkAll(g, sets, owner, edges, indeg, pre, n, g[n]);
        forall x | x in g.Keys - keys ensures Entered(g, owner, pre, x, |g[x]|) {
          EnteredStays(g, owner, before, pre, x, |g[x]|);
        }
      }
      keys := keys - {n};
    }
    AllEntered(g, sets, owner, pre);
  }

  lemma AllEntered(g: Graph, sets: seq<seq<Name>>, owner: map<Name, nat>, pre: Needs<nat>)
    requires Owns(sets, owner) && Recorded(g, sets, pre)
    requires forall x :: x in g.Keys ==> Entered(g, owner, pre, x, |g[x]|)
    ensures Prerequisites(g, sets, pre)
  {
    forall to: nat, from: nat ensures In(pre, to, from) <==> Edge(g, sets, from, to) {
      if Edge(g, sets, from, to) {
        var x, y :| x in sets[to] && y in sets[from] && y in Deps(g, x);
        assert y in Until(Deps(g, x), |g[x]|);
        assert Left(owner, pre, x, y);
      }
    }
  }

  // ----- order by first name -----

  ghost predicate ByFirst(sets: seq<seq<Name>>, order: seq<nat>) {
    && (forall k :: 0 <= k < |order| ==> order[k] < |sets| && sets[order[k]] != [])
    && (forall j, k {:trigger Before(sets[order[k]][0], sets[order[j]][0])} ::
          0 <= j < k < |order| ==> !Before(sets[order[k]][0], sets[order[j]][0]))
  }

  ghost predicate Lists(order: seq<nat>, n: nat) {
    Distinct(order) && forall i: nat {:trigger i in order} :: i in order <==> i < n
  }

  function First(sets: seq<seq<Name>>, i: nat): Name {
    if i < |sets| && sets[i] != [] then sets[i][0] else ""
  }

  function FirstNotAfter(sets: seq<seq<Name>>): Order<nat> {
    (i: nat, j: nat) => Names.NotAfter(First(sets, i), First(sets, j))
  }

  lemma FirstsAreOrdered(sets: seq<seq<Name>>)
    ensures Preorder(FirstNotAfter(sets))
  {
    NamesAreOrdered();
  }

  function UpTo(n: nat): (s: seq<nat>)
    ensures |s| == n && forall i :: 0 <= i < n ==> s[i] == i
  {
    seq(n, i => i)
  }

  lemma PermutedUpTo(order: seq<nat>, n: nat)
    requires multiset(order) == multiset(UpTo(n))
    ensures Lists(order, n)
  {
    SameElements(order, UpTo(n));
    forall i: nat ensures i in order <==> i < n {
      assert i < n ==> UpTo(n)[i] == i;
    }
  }

  lemma OrderedByFirst(sets: seq<seq<Name>>, order: seq<nat>)
    requires Ordered(FirstNotAfter(sets), order) && Lists(order, |sets|)
    requires forall i :: 0 <= i < |sets| ==> sets[i] != []
    ensures ByFirst(sets, order)
  {
    forall k | 0 <= k < |order| ensures order[k] < |sets| {
      assert order[k] in order;
    }
    forall j, k | 0 <= j < k < |order| ensures !Before(sets[order[k]][0], sets[order[j]][0]) {
      assert FirstNotAfter(sets)(order[j], order[k]);
    }
  }

  // Component numbers in the order of their first names.
  method OrderByFirst(sets: seq<seq<Name>>) returns (order: seq<nat>)
    requires forall i :: 0 <= i < |sets| ==> sets[i] != []
    ensures ByFirst(sets, order) && Lists(order, |sets|)
  {
    FirstsAreOrdered(sets);
    SortIs(FirstNotAfter(sets), UpTo(|sets|));
    order := SortBy(FirstNotAfter(sets), UpTo(|sets|));
    PermutedUpTo(order, |sets|);
    OrderedByFirst(sets, order);
  }

  // ----- levels -----

  ghost predicate Downhill(pre: Needs<nat>) {
    forall i: nat, j: nat {:trigger In(pre, i, j)} :: In(pre, i, j) ==> j < i
  }

  // The first unplaced component is ready: what it needs comes before it. So the walk never stops short.
  lemma {:induction false} FirstIsReady(pre: Needs<nat>, n: nat, lv: map<nat, nat>, i: nat) returns (first: nat)
    requires Indexed(pre, n) && Downhill(pre) && i < n && i !in lv
    ensures Ready(pre, lv, first)
    decreases i
  {
    assert i in pre;
    if j :| j in pre[i] && j !in lv {
      assert In(pre, i, j);
      first := FirstIsReady(pre, n, lv, j);
    } else {
      first := i;
    }
  }

  ghost predicate Marks(done: seq<bool>, lv: map<nat, nat>) {
    (forall i :: i in lv ==> i < |done|) && forall i {:trigger done[i]} :: 0 <= i < |done| ==> (done[i] <==> i in lv)
  }

  lemma NoneLeft(s: set<nat>, done: set<nat>)
    ensures |s - done| == 0 <==> s <= done
  {
    assert |s - done| == 0 <==> s - done == {};
    assert forall x {:trigger x in done} :: x in s && x !in done ==> x in s - done;
  }

  lemma ReadyWhen(pre: Needs<nat>, done: seq<bool>, indeg: seq<int>, lv: map<nat, nat>, i: nat)
    requires |done| == |indeg| && Marks(done, lv) && Counts(pre, indeg, lv.Keys) && i in pre
    ensures !done[i] && indeg[i] == 0 <==> Ready(pre, lv, i)
  {
    NoneLeft(pre[i], lv.Keys);
  }

  // The components of this level, in the order given.
  method CollectReady(ghost sets: seq<seq<Name>>, order: seq<nat>, done: array<bool>, indeg: array<int>,
                      ghost pre: Needs<nat>, ghost lv: map<nat, nat>)
    returns (ready: seq<nat>)
    requires ByFirst(sets, order) && Lists(order, |sets|) && Indexed(pre, |sets|)
    requires done.Length == indeg.Length == |sets| && Marks(done[..], lv) && Counts(pre, indeg[..], lv.Keys)
    ensures ByFirst(sets, ready) && AllReady(pre, lv, ready)
  {
    ready := [];
    ghost var at: seq<nat> := [];
    for k := 0 to |order|
      invariant Picked(order, k, at, ready) && ReadySoFar(order, k, pre, lv, ready)
    {
      var i := order[k];
      assert i in order;
      ReadyWhen(pre, done[..], indeg[..], lv, i);
      PickedMore(order, k, pre, lv, at, ready);
      if !done[i] && indeg[i] == 0 {
        ready, at := ready + [i], at + [k];
      }
    }
    PickedInOrder(sets, order, at, ready);
    forall i ensures i in ready <==> Ready(pre, lv, i) {
      if Ready(pre, lv, i) { assert i in order; }
    }
  }

  // ready is order taken at the increasing places `at`, all before k.
  ghost predicate Picked(order: seq<nat>, k: nat, at: seq<nat>, ready: seq<nat>) {
    && |at| == |ready|
    && (forall i :: 0 <= i < |at| ==> at[i] < k && at[i] < |order| && order[at[i]] == ready[i])
    && (forall i, j :: 0 <= i < j < |at| ==> at[i] < at[j])
  }

  // Of the first k, exactly the ready ones.
  ghost predicate ReadySoFar(order: seq<nat>, k: nat, pre: Needs<nat>, lv: map<nat, nat>, ready: seq<nat>) {
    && (forall j :: 0 <= j < k && j < |order| ==> (order[j] in ready <==> Ready(pre, lv, order[j])))
    && (forall x :: x in ready ==> Ready(pre, lv, x))
  }

  lemma PickedMore(order: seq<nat>, k: nat, pre: Needs<nat>, lv: map<nat, nat>, at: seq<nat>, ready: seq<nat>)
    requires Picked(order, k, at, ready) && ReadySoFar(order, k, pre, lv, ready) && k < |order| && Distinct(order)
    ensures Picked(order, k + 1, at, ready) && Picked(order, k + 1, at + [k], ready + [order[k]])
    ensures if Ready(pre, lv, order[k]) then ReadySoFar(order, k + 1, pre, lv, ready + [order[k]])
            else ReadySoFar(order, k + 1, pre, lv, ready)
  {
    assert order[k] !in ready;
  }

  lemma PickedInOrder(sets: seq<seq<Name>>, order: seq<nat>, at: seq<nat>, ready: seq<nat>)
    requires Picked(order, |order|, at, ready) && Distinct(order) && ByFirst(sets, order)
    ensures Distinct(ready) && ByFirst(sets, ready)
  {
    forall i, j | 0 <= i < j < |ready| ensures ready[i] != ready[j] && !Before(sets[ready[j]][0], sets[ready[i]][0]) {
      assert at[i] < at[j];
    }
  }

  // What has been emitted: component src[k], with its level.
  ghost predicate Emitted(sets: seq<seq<Name>>, lv: map<nat, nat>, src: seq<nat>, out: seq<Component>) {
    && |out| == |src|
    && (forall k :: 0 <= k < |src| ==>
                      src[k] < |sets| && sets[src[k]] != [] && src[k] in lv
                      && out[k] == Component(sets[src[k]], lv[src[k]]))
  }

  ghost predicate Covers(src: seq<nat>, lv: map<nat, nat>) {
    Distinct(src) && forall i {:trigger i in src} {:trigger i in lv} :: i in src <==> i in lv
  }

  // Level by level, and by first name within one.
  ghost predicate InOrder(out: seq<Component>) {
    && (forall k :: 0 <= k < |out| ==> out[k].nodes != [])
    && (forall j, k {:trigger NotAfter(out[j], out[k])} :: 0 <= j < k < |out| ==> NotAfter(out[j], out[k]))
  }

  ghost predicate NotAfter(a: Component, b: Component)
    requires a.nodes != [] && b.nodes != []
  {
    a.level < b.level || (a.level == b.level && !Before(b.nodes[0], a.nodes[0]))
  }

  // out1 is out followed by the ready components at this level.
  ghost predicate Appended(sets: seq<seq<Name>>, ready: seq<nat>, level: nat, out: seq<Component>,
                           out1: seq<Component>) {
    && |out1| == |out| + |ready|
    && (forall k :: 0 <= k < |ready| ==> ready[k] < |sets|)
    && (forall k :: 0 <= k < |out1| ==>
                      out1[k] == if k < |out| then out[k] else Component(sets[ready[k - |out|]], level))
  }

  lemma MarksMore(pre: Needs<nat>, lv: map<nat, nat>, ready: seq<nat>, level: nat, done: seq<bool>, done1: seq<bool>)
    requires Marks(done, lv) && AllReady(pre, lv, ready) && |done1| == |done| && Indexed(pre, |done|)
    requires forall i :: 0 <= i < |done| ==> (done1[i] <==> done[i] || i in ready)
    ensures Marks(done1, Raised(lv, ready, level))
  {}

  // The level's components are marked done and appended, in order.
  method EmitReady(sets: seq<seq<Name>>, ready: seq<nat>, level: nat, done: array<bool>, ghost pre: Needs<nat>,
                   ghost lv: map<nat, nat>,
                   remaining0: int, out0: seq<Component>)
    returns (remaining: int, out: seq<Component>)
    requires done.Length == |sets| && Indexed(pre, |sets|) && AllReady(pre, lv, ready) && Marks(done[..], lv)
    modifies done
    ensures remaining == remaining0 - |ready| && Appended(sets, ready, level, out0, out)
    ensures Marks(done[..], Raised(lv, ready, level))
  {
    forall k | 0 <= k < |ready| ensures ready[k] < |sets| {
      assert ready[k] in ready;
    }
    remaining, out := remaining0, out0;
    ghost var was := done[..];
    for k := 0 to |ready|
      invariant remaining == remaining0 - k && Appended(sets, ready[..k], level, out0, out)
      invariant forall i :: 0 <= i < |sets| ==> (done[i] <==> was[i] || i in ready[..k])
    {
      done[ready[k]] := true;
      remaining := remaining - 1;
      out := out + [Component(sets[ready[k]], level)];
      assert ready[..k + 1] == ready[..k] + [ready[k]];
    }
    assert ready[..|ready|] == ready;
    MarksMore(pre, lv, ready, level, was, done[..]);
  }

  lemma EmittedMore(sets: seq<seq<Name>>, pre: Needs<nat>, lv: map<nat, nat>, src: seq<nat>, out: seq<Component>,
                    ready: seq<nat>, level: nat, out1: seq<Component>)
    requires Emitted(sets, lv, src, out) && ByFirst(sets, ready) && AllReady(pre, lv, ready)
    requires Appended(sets, ready, level, out, out1)
    ensures Emitted(sets, Raised(lv, ready, level), src + ready, out1)
  {
    var src1, lv1 := src + ready, Raised(lv, ready, level);
    forall k | 0 <= k < |src1|
      ensures src1[k] < |sets| && sets[src1[k]] != [] && src1[k] in lv1
              && out1[k] == Component(sets[src1[k]], lv1[src1[k]])
    {
      if k >= |src| {
        assert ready[k - |src|] in ready;
        assert Ready(pre, lv, ready[k - |src|]);
      }
    }
  }

  lemma CoversMore(pre: Needs<nat>, lv: map<nat, nat>, src: seq<nat>, ready: seq<nat>, level: nat)
    requires Covers(src, lv) && AllReady(pre, lv, ready)
    ensures Covers(src + ready, Raised(lv, ready, level))
  {
    var src1 := src + ready;
    forall j, k | 0 <= j < k < |src1| ensures src1[j] != src1[k] {
      if j < |src| <= k {
        assert src[j] in src && ready[k - |src|] in ready;
      }
    }
  }

  lemma OrderedMore(sets: seq<seq<Name>>, lv: map<nat, nat>, src: seq<nat>, out: seq<Component>, ready: seq<nat>,
                    level: nat, out1: seq<Component>)
    requires Emitted(sets, lv, src, out) && InOrder(out) && ByFirst(sets, ready)
    requires forall i :: i in lv ==> lv[i] < level
    requires Appended(sets, ready, level, out, out1)
    ensures InOrder(out1)
  {
    forall j, k | 0 <= j < k < |out1| ensures out1[j].nodes != [] && out1[k].nodes != [] && NotAfter(out1[j], out1[k]) {
      if k < |out| {
        assert NotAfter(out[j], out[k]);
      } else if j < |out| {
        assert src[j] in lv;
      }
    }
  }

  // How much of pre[t] is outside done once i is added to it.
  lemma OneFewer(pre: Needs<nat>, t: nat, done: set<nat>, i: nat)
    requires t in pre && i !in done
    ensures |pre[t] - (done + {i})| == |pre[t] - done| - if In(pre, t, i) then 1 else 0
  {
    if In(pre, t, i) {
      assert pre[t] - done == (pre[t] - (done + {i})) + {i};
    } else {
      assert pre[t] - done == pre[t] - (done + {i});
    }
  }

  // Component i no longer holds anything back.
  method Release(edges: array<set<nat>>, indeg: array<int>, ghost pre: Needs<nat>, ghost done: set<nat>, i: nat)
    requires Mirrors(pre, edges[..]) && Counts(pre, indeg[..], done) && i in pre && i !in done
    modifies indeg
    ensures Counts(pre, indeg[..], done + {i})
  {
    forall t: nat ensures t in edges[i] <==> In(pre, t, i) {
      assert At(edges[..], i, t) <==> In(pre, t, i);
    }
    var left := edges[i];
    while left != {}
      invariant left <= edges[i]
      invariant forall t {:trigger indeg[t]} ::
                  0 <= t < indeg.Length ==> indeg[t] == |pre[t] - done| - if t in edges[i] - left then 1 else 0
    {
      var to :| to in left;
      assert In(pre, to, i);
      indeg[to] := indeg[to] - 1;
      left := left - {to};
    }
    forall t: nat | t in pre ensures indeg[t] == |pre[t] - (done + {i})| {
      OneFewer(pre, t, done, i);
      assert t in edges[i] <==> In(pre, t, i);
    }
  }

  lemma NextReleased(pre: Needs<nat>, lv: map<nat, nat>, ready: seq<nat>, k: nat)
    requires AllReady(pre, lv, ready) && k < |ready|
    ensures ready[k] in pre && ready[k] !in lv.Keys + Elems(ready[..k])
    ensures lv.Keys + Elems(ready[..k + 1]) == lv.Keys + Elems(ready[..k]) + {ready[k]}
  {
    assert ready[k] in ready && Ready(pre, lv, ready[k]);
    ElemsAppend(ready[..k], ready[k]);
    assert ready[..k + 1] == ready[..k] + [ready[k]];
  }

  method ReleaseAll(ready: seq<nat>, edges: array<set<nat>>, indeg: array<int>, ghost pre: Needs<nat>,
                    ghost lv: map<nat, nat>, ghost level: nat)
    requires Mirrors(pre, edges[..]) && Counts(pre, indeg[..], lv.Keys) && AllReady(pre, lv, ready)
    modifies indeg
    ensures Counts(pre, indeg[..], Raised(lv, ready, level).Keys)
  {
    assert lv.Keys + Elems(ready[..0]) == lv.Keys;
    for k := 0 to |ready|
      invariant Counts(pre, indeg[..], lv.Keys + Elems(ready[..k]))
    {
      ReleaseNext(ready, edges, indeg, pre, lv, k);
    }
    assert ready[..|ready|] == ready;
    assert Raised(lv, ready, level).Keys == lv.Keys + Elems(ready);
  }

  method ReleaseNext(ready: seq<nat>, edges: array<set<nat>>, indeg: array<int>, ghost pre: Needs<nat>,
                     ghost lv: map<nat, nat>, k: nat)
    requires k < |ready| && Mirrors(pre, edges[..]) && AllReady(pre, lv, ready)
    requires Counts(pre, indeg[..], lv.Keys + Elems(ready[..k]))
    modifies indeg
    ensures Counts(pre, indeg[..], lv.Keys + Elems(ready[..k + 1]))
  {
    NextReleased(pre, lv, ready, k);
    Release(edges, indeg, pre, lv.Keys + Elems(ready[..k]), ready[k]);
  }

  ghost function Below(n: nat): (s: set<nat>)
    ensures |s| == n && forall i :: i in s <==> 0 <= i < n
  {
    if n == 0 then {} else Below(n - 1) + {n - 1}
  }

  lemma SomeLeft(pre: Needs<nat>, lv: map<nat, nat>) returns (i: nat)
    requires |lv.Keys| < |pre.Keys|
    ensures i in pre && i !in lv
  {
    SubsetSize(pre.Keys, lv.Keys);
    i :| i in pre.Keys && i !in lv.Keys;
  }

  lemma IndexedSize(pre: Needs<nat>, n: nat)
    requires Indexed(pre, n)
    ensures |pre.Keys| == n
  {
    assert pre.Keys == Below(n);
  }

  // Where the walk over levels stands.
  datatype Tally = Tally(lv: map<nat, nat>, src: seq<nat>, out: seq<Component>, level: nat, remaining: int)

  ghost predicate Progress(sets: seq<seq<Name>>, pre: Needs<nat>, p: Tally) {
    && Emitted(sets, p.lv, p.src, p.out) && Covers(p.src, p.lv) && InOrder(p.out)
    && Rising(pre, p.lv, p.level) && p.remaining == |sets| - |p.lv.Keys|
  }

  // Progress as one opaque predicate, so that the loop carries it without its parts.
  type Chart = Tally -> bool

  ghost predicate Charts(sets: seq<seq<Name>>, pre: Needs<nat>, chart: Chart) {
    forall p {:trigger Progress(sets, pre, p)} :: chart(p) <==> Progress(sets, pre, p)
  }

  lemma Charted(sets: seq<seq<Name>>, pre: Needs<nat>) returns (chart: Chart)
    ensures Charts(sets, pre, chart)
  {
    chart := p => Progress(sets, pre, p);
  }

  ghost function Next(p: Tally, ready: seq<nat>, out: seq<Component>): Tally {
    Tally(Raised(p.lv, ready, p.level), p.src + ready, out, p.level + 1, p.remaining - |ready|)
  }

  lemma ToldMore(sets: seq<seq<Name>>, pre: Needs<nat>, chart: Chart, p: Tally, ready: seq<nat>, q: Tally)
    requires Charts(sets, pre, chart) && chart(p)
    requires ByFirst(sets, ready) && AllReady(pre, p.lv, ready) && Appended(sets, ready, p.level, p.out, q.out)
    requires q == Next(p, ready, q.out)
    ensures Emitted(sets, q.lv, q.src, q.out) && InOrder(q.out)
  {
    assert chart(p) <==> Progress(sets, pre, p);
    EmittedMore(sets, pre, p.lv, p.src, p.out, ready, p.level, q.out);
    OrderedMore(sets, p.lv, p.src, p.out, ready, p.level, q.out);
  }

  lemma PlacedMore(sets: seq<seq<Name>>, pre: Needs<nat>, chart: Chart, p: Tally, ready: seq<nat>, q: Tally)
    requires Charts(sets, pre, chart) && chart(p) && AllReady(pre, p.lv, ready)
    requires q == Next(p, ready, q.out)
    ensures Covers(q.src, q.lv) && q.remaining == |sets| - |q.lv.Keys|
  {
    assert chart(p) <==> Progress(sets, pre, p);
    CoversMore(pre, p.lv, p.src, ready, p.level);
    RaisedSize(pre, p.lv, ready, p.level);
  }

  lemma RisingIs(sets: seq<seq<Name>>, pre: Needs<nat>, chart: Chart, p: Tally)
    requires Charts(sets, pre, chart) && chart(p)
    ensures Rising(pre, p.lv, p.level)
  {
    assert chart(p) <==> Progress(sets, pre, p);
  }

  lemma RisenMore(sets: seq<seq<Name>>, pre: Needs<nat>, chart: Chart, p: Tally, ready: seq<nat>, q: Tally)
    requires Charts(sets, pre, chart) && chart(p) && AllReady(pre, p.lv, ready)
    requires q == Next(p, ready, q.out)
    ensures Rising(pre, q.lv, q.level)
  {
    RisingIs(sets, pre, chart, p);
    Raise(pre, p.lv, p.level, ready);
  }

  lemma Progresses(sets: seq<seq<Name>>, pre: Needs<nat>, chart: Chart, p: Tally, ready: seq<nat>, q: Tally)
    requires Charts(sets, pre, chart) && chart(p)
    requires ByFirst(sets, ready) && AllReady(pre, p.lv, ready) && Appended(sets, ready, p.level, p.out, q.out)
    requires q == Next(p, ready, q.out)
    ensures chart(q)
  {
    ToldMore(sets, pre, chart, p, ready, q);
    PlacedMore(sets, pre, chart, p, ready, q);
    RisenMore(sets, pre, chart, p, ready, q);
    assert chart(q) <==> Progress(sets, pre, q);
  }

  lemma NeverStuck(sets: seq<seq<Name>>, pre: Needs<nat>, chart: Chart, p: Tally, ready: seq<nat>)
    requires Charts(sets, pre, chart) && chart(p) && p.remaining > 0 && Indexed(pre, |sets|) && Downhill(pre)
    requires AllReady(pre, p.lv, ready)
    ensures ready != []
  {
    assert chart(p) <==> Progress(sets, pre, p);
    IndexedSize(pre, |sets|);
    var i := SomeLeft(pre, p.lv);
    assert i < |sets|;
    var first := FirstIsReady(pre, |sets|, p.lv, i);
    assert first in ready;
  }

  lemma PlacedAll(sets: seq<seq<Name>>, pre: Needs<nat>, chart: Chart, p: Tally)
    requires Charts(sets, pre, chart) && chart(p) && Indexed(pre, |sets|)
    ensures p.remaining >= 0
  {
    assert chart(p) <==> Progress(sets, pre, p);
    IndexedSize(pre, |sets|);
    SubsetSize(p.lv.Keys, pre.Keys);
  }

  lemma Progressed(sets: seq<seq<Name>>, pre: Needs<nat>, chart: Chart, p: Tally, ready: seq<nat>,
                   out: seq<Component>) returns (q: Tally)
    requires Charts(sets, pre, chart) && chart(p) && Indexed(pre, |sets|)
    requires ByFirst(sets, ready) && AllReady(pre, p.lv, ready) && Appended(sets, ready, p.level, p.out, out)
    ensures chart(q) && q == Next(p, ready, out) && q.remaining >= 0
  {
    q := Next(p, ready, out);
    Progresses(sets, pre, chart, p, ready, q);
    PlacedAll(sets, pre, chart, q);
  }

  method OneLevel(sets: seq<seq<Name>>, ready: seq<nat>, level: nat, done: array<bool>, edges: array<set<nat>>,
                  indeg: array<int>,
                  ghost pre: Needs<nat>, ghost lv: map<nat, nat>, remaining0: int, out0: seq<Component>)
    returns (remaining: int, out: seq<Component>)
    requires Indexed(pre, |sets|) && |sets| == done.Length && AllReady(pre, lv, ready)
    requires Mirrors(pre, edges[..]) && Counts(pre, indeg[..], lv.Keys) && Marks(done[..], lv)
    modifies done, indeg
    ensures Appended(sets, ready, level, out0, out) && remaining == remaining0 - |ready|
    ensures Counts(pre, indeg[..], Raised(lv, ready, level).Keys) && Marks(done[..], Raised(lv, ready, level))
  {
    remaining, out := EmitReady(sets, ready, level, done, pre, lv, remaining0, out0);
    ReleaseAll(ready, edges, indeg, pre, lv, level);
  }

  // Kahn's algorithm over the components: one level a turn, until none remains.
  method Levels(sets: seq<seq<Name>>, order: seq<nat>, edges: array<set<nat>>, indeg: array<int>, ghost pre: Needs<nat>)
    returns (out: seq<Component>, ghost p: Tally)
    requires ByFirst(sets, order) && Lists(order, |sets|) && Indexed(pre, |sets|) && indeg.Length == |sets|
    requires Mirrors(pre, edges[..]) && Counts(pre, indeg[..], {}) && Downhill(pre)
    modifies indeg
    ensures Progress(sets, pre, p) && p.out == out && p.remaining == 0
  {
    ghost var chart := Charted(sets, pre);
    var done := new bool[|sets|](_ => false);
    var remaining: int := |sets|;
    out := [];
    p := Tally(map[], [], [], 0, remaining);
    assert chart(p) <==> Progress(sets, pre, p);
    assert p.lv.Keys == {};
    var level := 0;
    while remaining > 0
      invariant edges[..] == old(edges[..]) && Counts(pre, indeg[..], p.lv.Keys) && Marks(done[..], p.lv)
      invariant chart(p) && p.out == out && p.level == level && p.remaining == remaining >= 0
    {
      var ready := CollectReady(sets, order, done, indeg, pre, p.lv);
      NeverStuck(sets, pre, chart, p, ready);
      if |ready| == 0 {
        break;
      }
      remaining, out := OneLevel(sets, ready, level, done, edges, indeg, pre, p.lv, remaining, out);
      p := Progressed(sets, pre, chart, p, ready, out);
      level := level + 1;
    }
    assert chart(p) <==> Progress(sets, pre, p);
  }

  // ----- the condensation -----

  // A component's level is 0 when it depends on nothing outside itself, and otherwise one more than
  // the greatest level among the components it depends on.
  ghost predicate Levelled(g: Graph, out: seq<Component>) {
    && (forall a, b :: 0 <= a < |out| && 0 <= b < |out| && a != b && DependsOn(g, out[a].nodes, out[b].nodes) ==>
                         out[b].level < out[a].level)
    && (forall a :: 0 <= a < |out| && out[a].level > 0 ==> HasLower(g, out, a))
  }

  ghost predicate HasLower(g: Graph, out: seq<Component>, a: nat)
    requires a < |out|
  {
    exists b :: 0 <= b < |out| && b != a && DependsOn(g, out[a].nodes, out[b].nodes) && out[b].level + 1 == out[a].level
  }

  lemma DependenciesAreDownhill(g: Graph, sets: seq<seq<Name>>, pre: Needs<nat>)
    requires DependenciesFirst(g, sets) && Prerequisites(g, sets, pre)
    ensures Downhill(pre)
  {
    forall i: nat, j: nat | In(pre, i, j) ensures j < i {
      assert Edge(g, sets, j, i);
      var x, y :| x in sets[i] && y in sets[j] && y in Deps(g, x);
      ReachesDep(g, x, y);
    }
  }

  lemma AllPlaced(sets: seq<seq<Name>>, pre: Needs<nat>, p: Tally, i: nat) returns (k: nat)
    requires Progress(sets, pre, p) && Indexed(pre, |sets|) && p.remaining == 0 && i < |sets|
    ensures k < |p.src| && p.src[k] == i && i in p.lv
  {
    if i !in p.lv {
      IndexedSize(pre, |sets|);
      SubsetSize(p.lv.Keys, pre.Keys - {i});
      assert false;
    }
    assert i in p.src;
    k :| 0 <= k < |p.src| && p.src[k] == i;
  }

  lemma EmittedClasses(g: Graph, roots: seq<Name>, sets: seq<seq<Name>>, pre: Needs<nat>, p: Tally)
    requires Progress(sets, pre, p) && Indexed(pre, |sets|) && p.remaining == 0 && Classes(g, roots, sets)
    ensures Classes(g, roots, NodeSets(p.out))
  {
    var out := NodeSets(p.out);
    forall k | 0 <= k < |out| ensures p.src[k] < |sets| && out[k] == sets[p.src[k]] {}
    forall x ensures FromAny(g, roots, x) <==> exists k :: 0 <= k < |out| && x in out[k] {
      if FromAny(g, roots, x) {
        var i :| 0 <= i < |sets| && x in sets[i];
        var k := AllPlaced(sets, pre, p, i);
        assert x in out[k];
      }
    }
  }

  // Along a path, components stay or fall in level.
  lemma {:induction false} PathFalls(g: Graph, roots: seq<Name>, sets: seq<seq<Name>>, pre: Needs<nat>, t: Tally,
                                     p: seq<Name>, i: nat, j: nat)
    requires Progress(sets, pre, t) && t.remaining == 0 && Classes(g, roots, sets) && Prerequisites(g, sets, pre)
    requires Path(g, p) && i < |sets| && j < |sets| && p[0] in sets[i] && p[|p| - 1] in sets[j]
    ensures i in t.lv && j in t.lv && (i == j || t.lv[j] < t.lv[i])
    decreases |p|
  {
    var ki := AllPlaced(sets, pre, t, i);
    var kj := AllPlaced(sets, pre, t, j);
    if |p| > 1 {
      var k := ComponentOfDep(g, roots, sets, p[0], p[1], i);
      var q := p[1..];
      forall m | 0 < m < |q| ensures q[m] in Deps(g, q[m - 1]) { assert q[m] == p[m + 1] && q[m - 1] == p[m]; }
      PathFalls(g, roots, sets, pre, t, q, k, j);
      if k != i {
        assert p[1] in Deps(g, p[0]);
        assert Edge(g, sets, k, i);
        assert In(pre, i, k);
      }
    }
  }

  lemma ComponentOfDep(g: Graph, roots: seq<Name>, sets: seq<seq<Name>>, x: Name, y: Name, i: nat) returns (k: nat)
    requires Classes(g, roots, sets) && i < |sets| && x in sets[i] && y in Deps(g, x)
    ensures k < |sets| && y in sets[k]
  {
    assert FromAny(g, roots, x);
    var r :| r in roots && Reaches(g, r, x);
    ReachesDep(g, x, y);
    ReachesOn(g, r, x, y);
    assert FromAny(g, roots, y);
    k :| 0 <= k < |sets| && y in sets[k];
  }

  lemma EmittedFirst(g: Graph, roots: seq<Name>, sets: seq<seq<Name>>, pre: Needs<nat>, t: Tally, a: nat, b: nat,
                     x: Name, y: Name)
    requires Progress(sets, pre, t) && t.remaining == 0 && Classes(g, roots, sets) && Prerequisites(g, sets, pre)
    requires a < |t.out| && b < |t.out| && x in t.out[a].nodes && y in t.out[b].nodes && Reaches(g, x, y)
    ensures b <= a && (a != b ==> t.out[b].level < t.out[a].level)
  {
    var p :| Path(g, p) && p[0] == x && p[|p| - 1] == y;
    PathFalls(g, roots, sets, pre, t, p, t.src[a], t.src[b]);
    assert a < b ==> NotAfter(t.out[a], t.out[b]);
    assert a != b ==> t.src[a] != t.src[b];
  }

  lemma EmittedLevels(g: Graph, roots: seq<Name>, sets: seq<seq<Name>>, pre: Needs<nat>, t: Tally)
    requires Progress(sets, pre, t) && t.remaining == 0 && Classes(g, roots, sets) && Prerequisites(g, sets, pre)
    ensures Levelled(g, t.out)
  {
    forall a, b | 0 <= a < |t.out| && 0 <= b < |t.out| && a != b && DependsOn(g, t.out[a].nodes, t.out[b].nodes)
      ensures t.out[b].level < t.out[a].level
    {
      var x, y :| x in t.out[a].nodes && y in t.out[b].nodes && y in Deps(g, x);
      ReachesDep(g, x, y);
      EmittedFirst(g, roots, sets, pre, t, a, b, x, y);
    }
    forall a | 0 <= a < |t.out| && t.out[a].level > 0 ensures HasLower(g, t.out, a) {
      var i := t.src[a];
      assert HasBase(pre, t.lv, i);
      var j: nat :| In(pre, i, j) && j in t.lv && t.lv[j] + 1 == t.lv[i];
      assert Edge(g, sets, j, i);
      var b := AllPlaced(sets, pre, t, j);
      assert t.out[b].nodes == sets[j];
    }
  }

  // The classes, dependencies first, each at its level, levels and first names in order.
  ghost predicate Condensed(g: Graph, roots: seq<Name>, out: seq<Component>) {
    Exact(g, roots, NodeSets(out)) && Levelled(g, out) && InOrder(out)
  }

  method Condense(nodes: seq<Name>, adj: Graph) returns (out: seq<Component>)
    ensures Condensed(adj, nodes, out)
  {
    var comps := SCC(nodes, adj);
    var sets := NodeSets(comps);
    var owner := Owners(sets);
    var edges, indeg;
    ghost var pre, p;
    edges, indeg, pre := Edges(adj, sets, owner);
    var order := OrderByFirst(sets);
    DependenciesAreDownhill(adj, sets, pre);
    out, p := Levels(sets, order, edges, indeg, pre);
    EmittedClasses(adj, nodes, sets, pre, p);
    EmittedLevels(adj, nodes, sets, pre, p);
    forall a, b, x, y | 0 <= a < |out| && 0 <= b < |out| && x in NodeSets(out)[a] && y in NodeSets(out)[b]
                        && Reaches(adj, x, y)
      ensures b <= a
    {
      EmittedFirst(adj, nodes, sets, pre, p, a, b, x, y);
    }
  }

  // ----- reproducible, whatever order a map is walked in -----

  lemma SameNodes(g: Graph, roots: seq<Name>, s: seq<seq<Name>>, t: seq<seq<Name>>, a: nat) returns (b: nat)
    requires Classes(g, roots, s) && Classes(g, roots, t) && a < |s|
    ensures b < |t| && t[b] == s[a]
  {
    var x := s[a][0];
    assert x in s[a];
    assert FromAny(g, roots, x);
    b :| 0 <= b < |t| && x in t[b];
    forall y ensures y in s[a] <==> y in t[b] {
      assert y in s[a] <==> Mutual(g, x, y);
      assert y in t[b] <==> Mutual(g, x, y);
    }
    SortedIsIncreasing(s[a]);
    SortedIsIncreasing(t[b]);
    OneOrder(Before, s[a], t[b]);
  }

  lemma {:induction false} LevelAtMost(g: Graph, roots: seq<Name>, s: seq<Component>, t: seq<Component>, a: nat, b: nat)
    requires Condensed(g, roots, s) && Condensed(g, roots, t)
    requires a < |s| && b < |t| && s[a].nodes == t[b].nodes
    ensures s[a].level <= t[b].level
    decreases s[a].level
  {
    if s[a].level > 0 {
      assert HasLower(g, s, a);
      var a1: nat :| a1 < |s| && a1 != a && DependsOn(g, s[a].nodes, s[a1].nodes) && s[a1].level + 1 == s[a].level;
      var b1 := SameNodes(g, roots, NodeSets(s), NodeSets(t), a1);
      LevelAtMost(g, roots, s, t, a1, b1);
      OtherNodes(g, roots, s, a, a1);
      assert t[b1].level < t[b].level;
    }
  }

  lemma SameLevel(g: Graph, roots: seq<Name>, s: seq<Component>, t: seq<Component>, a: nat, b: nat)
    requires Condensed(g, roots, s) && Condensed(g, roots, t)
    requires a < |s| && b < |t| && s[a].nodes == t[b].nodes
    ensures s[a].level == t[b].level
  {
    LevelAtMost(g, roots, s, t, a, b);
    LevelAtMost(g, roots, t, s, b, a);
  }

  lemma OtherNodes(g: Graph, roots: seq<Name>, s: seq<Component>, a: nat, a1: nat)
    requires Condensed(g, roots, s) && a < |s| && a1 < |s| && a != a1
    ensures s[a].nodes != s[a1].nodes && s[a].nodes[0] != s[a1].nodes[0]
  {
    assert NodeSets(s)[a] == s[a].nodes && NodeSets(s)[a1] == s[a1].nodes;
    assert s[a].nodes[0] in NodeSets(s)[a] && s[a1].nodes[0] in NodeSets(s)[a1];
  }

  predicate Sooner(a: Component, b: Component) {
    a.level < b.level || (a.level == b.level && a.nodes != [] && b.nodes != [] && Before(a.nodes[0], b.nodes[0]))
  }

  lemma IncreasesBySooner(g: Graph, roots: seq<Name>, s: seq<Component>)
    requires Condensed(g, roots, s)
    ensures Increasing(Sooner, s)
  {
    forall a, b ensures !(Sooner(a, b) && Sooner(b, a)) {
      if a.nodes != [] && b.nodes != [] { BeforeIsTotal(a.nodes[0], b.nodes[0]); }
    }
    forall a, b | 0 <= a < b < |s| ensures Sooner(s[a], s[b]) {
      assert NotAfter(s[a], s[b]);
      OtherNodes(g, roots, s, a, b);
      BeforeIsTotal(s[a].nodes[0], s[b].nodes[0]);
    }
  }

  lemma Includes(g: Graph, roots: seq<Name>, s: seq<Component>, t: seq<Component>, c: Component)
    requires Condensed(g, roots, s) && Condensed(g, roots, t) && c in s
    ensures c in t
  {
    var a :| 0 <= a < |s| && s[a] == c;
    var b := SameNodes(g, roots, NodeSets(s), NodeSets(t), a);
    SameLevel(g, roots, s, t, a, b);
    assert t[b] == c;
  }

  // The graph and the roots fix the condensation: two runs give the same list.
  lemma Reproducible(g: Graph, roots: seq<Name>, s: seq<Component>, t: seq<Component>)
    requires Condensed(g, roots, s) && Condensed(g, roots, t)
    ensures s == t
  {
    forall c ensures c in s <==> c in t {
      if c in s { Includes(g, roots, s, t, c); }
      if c in t { Includes(g, roots, t, s, c); }
    }
    IncreasesBySooner(g, roots, s);
    IncreasesBySooner(g, roots, t);
    OneOrder(Sooner, s, t);
  }
}
