// Strongly connected components by an iterative depth-first walk with explicit frames.
module Tarjan {
  import opened Sequences
  import opened Names
  import opened Digraphs

  // A relation known to be reachability, so that the invariants can speak of it without its paths.
  type Relation = (Name, Name) -> bool

  ghost predicate Means(g: Graph, r: Relation) {
    forall x, y {:trigger Reaches(g, x, y)} :: r(x, y) <==> Reaches(g, x, y)
  }

  lemma ToSelf(g: Graph, r: Relation, x: Name)
    requires Means(g, r)
    ensures r(x, x)
  {
    ReachesSelf(g, x);
  }

  lemma ToDep(g: Graph, r: Relation, a: Name, x: Name, y: Name)
    requires Means(g, r) && r(a, x) && y in Deps(g, x)
    ensures r(a, y)
  {
    ReachesDep(g, x, y);
    ToOn(g, r, a, x, y);
  }

  lemma ToOn(g: Graph, r: Relation, x: Name, y: Name, z: Name)
    requires Means(g, r) && r(x, y)
    requires r(y, z) || Reaches(g, y, z)
    ensures r(x, z)
  {
    assert Reaches(g, x, y) <==> r(x, y);
    assert Reaches(g, y, z) <==> r(y, z);
    ReachesOn(g, x, y, z);
  }

  datatype Frame = Frame(node: Name, i: nat)

  // The walk's variables at one moment, so that each step's effect on them is a lemma. `on` is the
  // set of names on the stack; Stacked ties it to the stack itself.
  datatype Walk = Walk(index: map<Name, nat>, low: map<Name, nat>, next: nat,
                       on: set<Name>, frames: seq<Frame>, out: seq<seq<Name>>)
  {
    function Top(): Frame
      requires frames != []
    {
      frames[|frames| - 1]
    }

    function Advanced(): seq<Frame>
      requires frames != []
    {
      frames[..|frames| - 1] + [Frame(Top().node, Top().i + 1)]
    }
  }

  // Every name met has an index below the next one; the stacked names are among them.
  ghost predicate Numbered(s: Walk) {
    && s.low.Keys == s.index.Keys
    && s.on <= s.index.Keys
    && (forall x :: x in s.index ==> s.index[x] < s.next)
  }

  // The stack holds exactly `on`, in the order of discovery.
  ghost predicate Stacked(s: Walk, stack: seq<Name>)
    requires Numbered(s)
  {
    && Elems(stack) == s.on
    && (forall i :: 0 <= i < |stack| ==> stack[i] in s.on)
    && (forall i, j :: 0 <= i < j < |stack| ==> s.index[stack[i]] < s.index[stack[j]])
  }

  // The open nodes are on the stack in order, and the first of them is at its bottom.
  ghost predicate Framed(g: Graph, s: Walk)
    requires Numbered(s)
  {
    && (s.frames == [] ==> s.on == {})
    && (forall k :: 0 <= k < |s.frames| ==> s.frames[k].node in s.on && s.frames[k].i <= |Deps(g, s.frames[k].node)|)
    && (forall j, k :: 0 <= j < k < |s.frames| ==> s.index[s.frames[j].node] < s.index[s.frames[k].node])
    && (forall x :: x in s.on ==> s.index[s.frames[0].node] <= s.index[x])
  }

  // The edge from x to y has been looked at: all of them for a finished node.
  ghost predicate Examined(g: Graph, frames: seq<Frame>, x: Name, y: Name) {
    && y in Deps(g, x)
    && forall k :: 0 <= k < |frames| && frames[k].node == x ==> y in Until(Deps(g, x), frames[k].i)
  }

  function Until(deps: seq<Name>, i: nat): seq<Name> {
    if i <= |deps| then deps[..i] else deps
  }

  // x was stacked at or after frame k's node.
  ghost predicate Above(s: Walk, k: int, x: Name)
    requires Numbered(s)
  {
    && 0 <= k < |s.frames| && x in s.on && s.frames[k].node in s.on
    && s.index[s.frames[k].node] <= s.index[x]
  }

  // An open node reaches everything stacked since it.
  ghost predicate Downward(r: Relation, s: Walk)
    requires Numbered(s)
  {
    forall k, x :: Above(s, k, x) ==> r(s.frames[k].node, x)
  }

  // Everything stacked reaches an open node no younger than itself.
  ghost predicate Upward(r: Relation, s: Walk)
    requires Numbered(s)
  {
    forall x {:trigger Homed(r, s, x)} :: x in s.on ==> Homed(r, s, x)
  }

  ghost predicate Homed(r: Relation, s: Walk, x: Name)
    requires Numbered(s)
  {
    exists k :: Above(s, k, x) && r(x, s.frames[k].node)
  }

  // z is a stacked name, as old as low says, that frame k's node really reaches.
  ghost predicate LowIsReal(r: Relation, s: Walk, k: int, z: Name)
    requires Numbered(s)
  {
    && 0 <= k < |s.frames| && z in s.on && s.frames[k].node in s.on
    && s.index[z] == s.low[s.frames[k].node] <= s.index[s.frames[k].node]
    && r(s.frames[k].node, z)
  }

  ghost predicate HasLow(r: Relation, s: Walk, k: int)
    requires Numbered(s)
  {
    exists z :: LowIsReal(r, s, k, z)
  }

  // No examined edge out of frame k's part of the stack lands below its low.
  ghost predicate LowIsLow(g: Graph, s: Walk)
    requires Numbered(s)
  {
    forall k, x, y :: Above(s, k, x) && !Above(s, k + 1, x) && Examined(g, s.frames, x, y) && y in s.on ==>
                        s.low[s.frames[k].node] <= s.index[y]
  }

  ghost predicate Lowest(g: Graph, r: Relation, s: Walk)
    requires Numbered(s)
  {
    && (forall k {:trigger HasLow(r, s, k)} :: 0 <= k < |s.frames| ==> HasLow(r, s, k))
    && LowIsLow(g, s)
  }

  ghost predicate FromRoots(r: Relation, roots: seq<Name>, x: Name) {
    exists q :: q in roots && r(q, x)
  }

  ghost predicate Visited(g: Graph, r: Relation, roots: seq<Name>, s: Walk) {
    && (forall x, y :: x in s.index && Examined(g, s.frames, x, y) ==> y in s.index)
    && (forall x :: x in s.index ==> FromRoots(r, roots, x))
  }

  // The names in the first n components.
  ghost function Upto(out: seq<seq<Name>>, n: nat): set<Name>
    requires n <= |out|
  {
    if n == 0 then {} else Upto(out, n - 1) + Elems(out[n - 1])
  }

  // A finished component is a set of mutually reaching names closed together with those before it.
  ghost predicate Settled(g: Graph, r: Relation, out: seq<seq<Name>>, i: nat)
    requires i < |out|
  {
    && out[i] != [] && Sorted(out[i]) && Distinct(out[i])
    && Elems(out[i]) !! Upto(out, i)
    && (forall x, y :: x in out[i] && y in out[i] ==> r(x, y))
    && Closed(g, Upto(out, i + 1))
  }

  ghost predicate Finished(g: Graph, r: Relation, out: seq<seq<Name>>) {
    forall i :: 0 <= i < |out| ==> Settled(g, r, out, i)
  }

  ghost predicate Inv(g: Graph, r: Relation, roots: seq<Name>, s: Walk) {
    && Numbered(s) && Framed(g, s)
    && Downward(r, s) && Upward(r, s) && Lowest(g, r, s)
    && Visited(g, r, roots, s)
    && Finished(g, r, s.out)
    && Upto(s.out, |s.out|) == s.index.Keys - s.on
  }

  // ----- a name is discovered -----

  // The frames of s, the top one stepped past one more dependency, open t's.
  ghost predicate Stepped(g: Graph, s: Walk, t: Walk) {
    && |s.frames| <= |t.frames|
    && (forall k :: 0 <= k < |s.frames| ==> t.frames[k].node == s.frames[k].node)
    && (forall k :: 0 <= k < |s.frames| - 1 ==> t.frames[k].i == s.frames[k].i)
    && (s.frames != [] ==> t.frames[|s.frames| - 1].i == s.Top().i + 1 <= |Deps(g, s.Top().node)|)
  }

  // What discovery is about: a root, or the next dependency of the top frame.
  ghost predicate Discovered(g: Graph, s: Walk, w: Name, t: Walk) {
    && w !in s.index
    && t.index == s.index[w := s.next] && t.low == s.low[w := s.next] && t.next == s.next + 1
    && t.on == s.on + {w} && t.out == s.out
    && Stepped(g, s, t) && |t.frames| == |s.frames| + 1 && t.Top() == Frame(w, 0)
    && (s.frames != [] ==> w == Deps(g, s.Top().node)[s.Top().i])
  }

  lemma DiscoverFrames(g: Graph, s: Walk, w: Name, t: Walk)
    requires Numbered(s) && Framed(g, s) && Discovered(g, s, w, t)
    ensures Numbered(t) && Framed(g, t)
  {}

  lemma DiscoverDownward(g: Graph, r: Relation, s: Walk, w: Name, t: Walk)
    requires Means(g, r) && Numbered(s) && Framed(g, s) && Discovered(g, s, w, t) && Numbered(t)
    requires Downward(r, s)
    ensures Downward(r, t)
  {
    var n := |s.frames|;
    forall k, x | Above(t, k, x) ensures r(t.frames[k].node, x) {
      if x != w {
        assert Above(s, k, x);
      } else if k < n {
        var top := s.Top().node;
        assert Above(s, k, top);
        ToDep(g, r, t.frames[k].node, top, w);
      } else {
        ToSelf(g, r, w);
      }
    }
  }

  lemma DiscoverUpward(g: Graph, r: Relation, s: Walk, w: Name, t: Walk)
    requires Means(g, r) && Numbered(s) && Framed(g, s) && Discovered(g, s, w, t) && Numbered(t)
    requires Upward(r, s)
    ensures Upward(r, t)
  {
    forall x | x in t.on ensures Homed(r, t, x) {
      if x == w {
        ToSelf(g, r, w);
        assert Above(t, |s.frames|, w);
      } else {
        assert Homed(r, s, x);
        var k :| Above(s, k, x) && r(x, s.frames[k].node);
        assert Above(t, k, x);
      }
    }
  }

  lemma DiscoverLows(g: Graph, r: Relation, s: Walk, w: Name, t: Walk)
    requires Means(g, r) && Numbered(s) && Framed(g, s) && Discovered(g, s, w, t)
    requires Lowest(g, r, s)
    ensures Numbered(t) && forall k {:trigger HasLow(r, t, k)} :: 0 <= k < |t.frames| ==> HasLow(r, t, k)
  {
    var n := |s.frames|;
    forall k | 0 <= k < |t.frames| ensures HasLow(r, t, k) {
      if k < n {
        assert HasLow(r, s, k);
        var z :| LowIsReal(r, s, k, z);
        assert LowIsReal(r, t, k, z);
      } else {
        ToSelf(g, r, w);
        assert LowIsReal(r, t, k, w);
      }
    }
  }

  lemma DiscoverBounds(g: Graph, r: Relation, s: Walk, w: Name, t: Walk)
    requires Numbered(s) && Framed(g, s) && Discovered(g, s, w, t)
    requires Lowest(g, r, s)
    requires Numbered(t) && forall k {:trigger HasLow(r, t, k)} :: 0 <= k < |t.frames| ==> HasLow(r, t, k)
    ensures LowIsLow(g, t)
  {
    var n := |s.frames|;
    forall k, x, y | Above(t, k, x) && !Above(t, k + 1, x) && Examined(g, t.frames, x, y) && y in t.on
      ensures t.low[t.frames[k].node] <= t.index[y]
    {
      if y == w {
        assert HasLow(r, t, k);
      } else {
        ExaminedBefore(g, s, w, t, x, y);
        assert k < n && Above(s, k, x);
        assert !Above(s, k + 1, x);
      }
    }
  }

  lemma ExaminedBefore(g: Graph, s: Walk, w: Name, t: Walk, x: Name, y: Name)
    requires Discovered(g, s, w, t)
    requires Examined(g, t.frames, x, y) && y != w
    ensures x != w && Examined(g, s.frames, x, y)
  {
    assert x != w by {
      assert t.frames[|s.frames|] == Frame(w, 0);
      assert Until(Deps(g, w), 0) == [];
    }
    forall k | 0 <= k < |s.frames| && s.frames[k].node == x ensures y in Until(Deps(g, x), s.frames[k].i) {
      assert t.frames[k].node == x;
      assert y in Until(Deps(g, x), t.frames[k].i);
    }
  }

  lemma DiscoverVisits(g: Graph, r: Relation, roots: seq<Name>, s: Walk, w: Name, t: Walk)
    requires Means(g, r) && Numbered(s) && Framed(g, s) && Discovered(g, s, w, t)
    requires Visited(g, r, roots, s) && (s.frames == [] ==> w in roots)
    ensures Visited(g, r, roots, t)
  {
    if s.frames == [] {
      ToSelf(g, r, w);
    } else {
      var top := s.Top().node;
      assert FromRoots(r, roots, top);
      var q :| q in roots && r(q, top);
      ToDep(g, r, q, top, w);
    }
    assert FromRoots(r, roots, w);
    forall x, y | x in t.index && Examined(g, t.frames, x, y) ensures y in t.index {
      if y != w {
        ExaminedBefore(g, s, w, t, x, y);
      }
    }
  }

  lemma Discover(g: Graph, r: Relation, roots: seq<Name>, s: Walk, w: Name, t: Walk)
    requires Means(g, r) && Inv(g, r, roots, s) && Discovered(g, s, w, t) && (s.frames == [] ==> w in roots)
    ensures Inv(g, r, roots, t)
  {
    DiscoverFrames(g, s, w, t);
    DiscoverDownward(g, r, s, w, t);
    DiscoverUpward(g, r, s, w, t);
    DiscoverLows(g, r, s, w, t);
    DiscoverBounds(g, r, s, w, t);
    DiscoverVisits(g, r, roots, s, w, t);
  }

  // ----- a dependency already met is looked at -----

  ghost predicate Looked(g: Graph, s: Walk, w: Name, t: Walk) {
    && s.frames != [] && w in s.index
    && t.index == s.index && t.next == s.next && t.on == s.on && t.out == s.out
    && Stepped(g, s, t) && |t.frames| == |s.frames|
    && w == Deps(g, s.Top().node)[s.Top().i]
    && s.Top().node in s.low
    && t.low == if w in s.on && s.index[w] < s.low[s.Top().node] then s.low[s.Top().node := s.index[w]] else s.low
  }

  lemma LookedBefore(g: Graph, s: Walk, w: Name, t: Walk, x: Name, y: Name)
    requires Looked(g, s, w, t) && Examined(g, t.frames, x, y)
    ensures Examined(g, s.frames, x, y) || (x == s.Top().node && y == w)
  {
    if !(x == s.Top().node && y == w) {
      forall k | 0 <= k < |s.frames| && s.frames[k].node == x ensures y in Until(Deps(g, x), s.frames[k].i) {
        assert t.frames[k].node == x;
        assert y in Until(Deps(g, x), t.frames[k].i);
      }
    }
  }

  lemma LookLows(g: Graph, r: Relation, s: Walk, w: Name, t: Walk)
    requires Means(g, r) && Numbered(s) && Framed(g, s) && Looked(g, s, w, t)
    requires Lowest(g, r, s)
    ensures Numbered(t) && forall k {:trigger HasLow(r, t, k)} :: 0 <= k < |t.frames| ==> HasLow(r, t, k)
  {
    forall k | 0 <= k < |t.frames| ensures HasLow(r, t, k) {
      assert HasLow(r, s, k);
      if k == |s.frames| - 1 && t.low != s.low {
        var top := s.Top().node;
        ToSelf(g, r, top);
        ToDep(g, r, top, top, w);
        assert LowIsReal(r, t, k, w);
      } else {
        var z :| LowIsReal(r, s, k, z);
        assert LowIsReal(r, t, k, z);
      }
    }
  }

  lemma LookBounds(g: Graph, r: Relation, s: Walk, w: Name, t: Walk)
    requires Numbered(s) && Framed(g, s) && Looked(g, s, w, t)
    requires LowIsLow(g, s) && Numbered(t)
    ensures LowIsLow(g, t)
  {
    forall k, x, y | Above(t, k, x) && !Above(t, k + 1, x) && Examined(g, t.frames, x, y) && y in t.on
      ensures t.low[t.frames[k].node] <= t.index[y]
    {
      LookedBefore(g, s, w, t, x, y);
      assert Above(s, k, x);
      assert !Above(s, k + 1, x);
    }
  }

  lemma LookFrames(g: Graph, r: Relation, s: Walk, w: Name, t: Walk)
    requires Numbered(s) && Framed(g, s) && Looked(g, s, w, t)
    ensures Numbered(t) && Framed(g, t)
  {}

  lemma LookDownward(g: Graph, r: Relation, s: Walk, w: Name, t: Walk)
    requires Numbered(s) && Framed(g, s) && Looked(g, s, w, t) && Numbered(t)
    requires Downward(r, s)
    ensures Downward(r, t)
  {
    forall k, x | Above(t, k, x) ensures r(t.frames[k].node, x) {
      assert Above(s, k, x);
    }
  }

  lemma LookUpward(g: Graph, r: Relation, s: Walk, w: Name, t: Walk)
    requires Numbered(s) && Framed(g, s) && Looked(g, s, w, t) && Numbered(t)
    requires Upward(r, s)
    ensures Upward(r, t)
  {
    forall x | x in t.on ensures Homed(r, t, x) {
      assert Homed(r, s, x);
      var k :| Above(s, k, x) && r(x, s.frames[k].node);
      assert Above(t, k, x);
    }
  }

  lemma Look(g: Graph, r: Relation, roots: seq<Name>, s: Walk, w: Name, t: Walk)
    requires Means(g, r) && Inv(g, r, roots, s) && Looked(g, s, w, t)
    ensures Inv(g, r, roots, t)
  {
    LookFrames(g, r, s, w, t);
    LookDownward(g, r, s, w, t);
    LookUpward(g, r, s, w, t);
    LookLows(g, r, s, w, t);
    LookBounds(g, r, s, w, t);
    forall x, y | x in t.index && Examined(g, t.frames, x, y) ensures y in t.index {
      LookedBefore(g, s, w, t, x, y);
    }
  }

  // ----- an exhausted frame is dropped -----

  ghost predicate Dropped(g: Graph, s: Walk, t: Walk) {
    && s.frames != [] && s.Top().i >= |Deps(g, s.Top().node)|
    && t.frames == s.frames[..|s.frames| - 1]
    && t.index == s.index && t.next == s.next
    && s.Top().node in s.low
  }

  // Its name stays on the stack: it can still reach something older.
  ghost predicate Merged(g: Graph, s: Walk, t: Walk) {
    && Dropped(g, s, t) && t.on == s.on && t.out == s.out
    && s.Top().node in s.index && s.low[s.Top().node] != s.index[s.Top().node]
    && t.low == LowerParent(s, t)
  }

  function LowerParent(s: Walk, t: Walk): map<Name, nat>
    requires s.frames != [] && s.Top().node in s.low
  {
    if t.frames != [] && t.Top().node in s.low && s.low[s.Top().node] < s.low[t.Top().node]
    then s.low[t.Top().node := s.low[s.Top().node]] else s.low
  }

  lemma DroppedBefore(g: Graph, s: Walk, t: Walk, x: Name, y: Name)
    requires Dropped(g, s, t) && Examined(g, t.frames, x, y)
    ensures Examined(g, s.frames, x, y)
  {
    forall k | 0 <= k < |s.frames| && s.frames[k].node == x ensures y in Until(Deps(g, x), s.frames[k].i) {
      if k < |t.frames| {
        assert t.frames[k].node == x;
      }
    }
  }

  // A frame whose low is older than itself is not the bottom one, and its home is another frame.
  lemma NotBottom(g: Graph, r: Relation, s: Walk) returns (z: Name, k: int)
    requires Means(g, r) && Numbered(s) && Framed(g, s) && Upward(r, s) && Lowest(g, r, s) && s.frames != []
    requires s.low[s.Top().node] != s.index[s.Top().node]
    ensures LowIsReal(r, s, |s.frames| - 1, z)
    ensures Above(s, k, z) && r(s.Top().node, s.frames[k].node) && k < |s.frames| - 1
  {
    assert HasLow(r, s, |s.frames| - 1);
    z :| LowIsReal(r, s, |s.frames| - 1, z);
    assert Homed(r, s, z);
    k :| Above(s, k, z) && r(z, s.frames[k].node);
    ToOn(g, r, s.Top().node, z, s.frames[k].node);
  }

  lemma MergeFrames(g: Graph, r: Relation, s: Walk, t: Walk)
    requires Means(g, r) && Numbered(s) && Framed(g, s) && Merged(g, s, t) && Upward(r, s) && Lowest(g, r, s)
    ensures Numbered(t) && Framed(g, t)
  {
    var z, j := NotBottom(g, r, s);
  }

  lemma MergeDownward(g: Graph, r: Relation, s: Walk, t: Walk)
    requires Numbered(s) && Framed(g, s) && Merged(g, s, t) && Numbered(t)
    requires Downward(r, s)
    ensures Downward(r, t)
  {
    forall k, x | Above(t, k, x) ensures r(t.frames[k].node, x) {
      assert Above(s, k, x);
    }
  }

  // What came home to the dropped frame comes home to the older frame j that it reaches.
  lemma MergeHomes(g: Graph, r: Relation, s: Walk, t: Walk, x: Name, j: int)
    requires Means(g, r) && Numbered(s) && Framed(g, s) && Merged(g, s, t) && Numbered(t)
    requires 0 <= j < |s.frames| - 1 && r(s.Top().node, s.frames[j].node)
    requires x in s.on && Homed(r, s, x)
    ensures Homed(r, t, x)
  {
    var n := |s.frames| - 1;
    var k :| Above(s, k, x) && r(x, s.frames[k].node);
    if k < n {
      assert Above(t, k, x);
    } else {
      ToOn(g, r, x, s.frames[n].node, s.frames[j].node);
      assert Above(t, j, x);
    }
  }

  lemma MergeUpward(g: Graph, r: Relation, s: Walk, t: Walk)
    requires Means(g, r) && Numbered(s) && Framed(g, s) && Merged(g, s, t) && Numbered(t)
    requires Upward(r, s) && Lowest(g, r, s)
    ensures Upward(r, t)
  {
    var z, j := NotBottom(g, r, s);
    forall x | x in t.on ensures Homed(r, t, x) {
      assert Homed(r, s, x);
      MergeHomes(g, r, s, t, x, j);
    }
  }

  lemma MergeLows(g: Graph, r: Relation, s: Walk, t: Walk)
    requires Means(g, r) && Numbered(s) && Framed(g, s) && Merged(g, s, t) && Numbered(t)
    requires Downward(r, s) && Lowest(g, r, s)
    ensures forall k {:trigger HasLow(r, t, k)} :: 0 <= k < |t.frames| ==> HasLow(r, t, k)
  {
    var n := |s.frames| - 1;
    forall k | 0 <= k < n ensures HasLow(r, t, k) {
      assert HasLow(r, s, k);
      if k == n - 1 && t.low != s.low {
        assert HasLow(r, s, n);
        var z :| LowIsReal(r, s, n, z);
        assert Above(s, k, s.frames[n].node);
        ToOn(g, r, s.frames[k].node, s.frames[n].node, z);
        assert LowIsReal(r, t, k, z);
      } else {
        var z :| LowIsReal(r, s, k, z);
        assert LowIsReal(r, t, k, z);
      }
    }
  }

  lemma MergeBounds(g: Graph, s: Walk, t: Walk)
    requires Numbered(s) && Framed(g, s) && Merged(g, s, t) && Numbered(t)
    requires LowIsLow(g, s)
    ensures LowIsLow(g, t)
  {
    var n := |s.frames| - 1;
    forall k, x, y | Above(t, k, x) && !Above(t, k + 1, x) && Examined(g, t.frames, x, y) && y in t.on
      ensures t.low[t.frames[k].node] <= t.index[y]
    {
      DroppedBefore(g, s, t, x, y);
      assert Above(s, k, x);
      if k == n - 1 && Above(s, n, x) {
        assert !Above(s, n + 1, x);
      } else {
        assert !Above(s, k + 1, x);
      }
    }
  }

  lemma Merge(g: Graph, r: Relation, roots: seq<Name>, s: Walk, t: Walk)
    requires Means(g, r) && Inv(g, r, roots, s) && Merged(g, s, t)
    ensures Inv(g, r, roots, t)
  {
    MergeFrames(g, r, s, t);
    MergeDownward(g, r, s, t);
    MergeUpward(g, r, s, t);
    MergeLows(g, r, s, t);
    MergeBounds(g, s, t);
    forall x, y | x in t.index && Examined(g, t.frames, x, y) ensures y in t.index {
      DroppedBefore(g, s, t, x, y);
    }
  }

  // ----- a component is taken off the stack -----

  // Everything stacked since the top frame's node leaves the stack as one component.
  ghost predicate Extracted(g: Graph, s: Walk, comp: seq<Name>, t: Walk) {
    && Dropped(g, s, t) && t.low == s.low && t.out == s.out + [comp]
    && Numbered(s) && s.Top().node in s.index && s.low[s.Top().node] == s.index[s.Top().node]
    && comp != [] && Sorted(comp) && Distinct(comp)
    && Elems(comp) <= s.on && t.on == s.on - Elems(comp)
    && (forall x :: x in s.on ==> (x in Elems(comp) <==> s.index[s.Top().node] <= s.index[x]))
  }

  lemma ExtractFrames(g: Graph, r: Relation, s: Walk, comp: seq<Name>, t: Walk)
    requires Numbered(s) && Framed(g, s) && Extracted(g, s, comp, t)
    ensures Numbered(t) && Framed(g, t)
  {}

  lemma ExtractDownward(g: Graph, r: Relation, s: Walk, comp: seq<Name>, t: Walk)
    requires Numbered(s) && Framed(g, s) && Extracted(g, s, comp, t) && Numbered(t)
    requires Downward(r, s)
    ensures Downward(r, t)
  {
    forall k, x | Above(t, k, x) ensures r(t.frames[k].node, x) {
      assert Above(s, k, x);
    }
  }

  lemma ExtractUpward(g: Graph, r: Relation, s: Walk, comp: seq<Name>, t: Walk)
    requires Numbered(s) && Framed(g, s) && Extracted(g, s, comp, t) && Numbered(t)
    requires Upward(r, s)
    ensures Upward(r, t)
  {
    forall x | x in t.on ensures Homed(r, t, x) {
      assert Homed(r, s, x);
      var k :| Above(s, k, x) && r(x, s.frames[k].node);
      assert k < |t.frames|;
      assert Above(t, k, x);
    }
  }

  lemma ExtractLows(g: Graph, r: Relation, s: Walk, comp: seq<Name>, t: Walk)
    requires Numbered(s) && Framed(g, s) && Extracted(g, s, comp, t) && Numbered(t)
    requires Lowest(g, r, s)
    ensures Lowest(g, r, t)
  {
    forall k | 0 <= k < |t.frames| ensures HasLow(r, t, k) {
      assert HasLow(r, s, k);
      var z :| LowIsReal(r, s, k, z);
      assert LowIsReal(r, t, k, z);
    }
    forall k, x, y | Above(t, k, x) && !Above(t, k + 1, x) && Examined(g, t.frames, x, y) && y in t.on
      ensures t.low[t.frames[k].node] <= t.index[y]
    {
      DroppedBefore(g, s, t, x, y);
      assert Above(s, k, x);
      assert !Above(s, k + 1, x);
    }
  }

  // Stacked since the top: reached from it, and reaching it through a home no younger.
  lemma ComponentIsMutual(g: Graph, r: Relation, s: Walk, comp: seq<Name>, t: Walk, x: Name, y: Name)
    requires Means(g, r) && Numbered(s) && Framed(g, s) && Extracted(g, s, comp, t)
    requires Downward(r, s) && Upward(r, s)
    requires x in comp && y in comp
    ensures r(x, y)
  {
    var n := |s.frames| - 1;
    assert x in Elems(comp) && y in Elems(comp);
    assert Homed(r, s, x);
    var k :| Above(s, k, x) && r(x, s.frames[k].node);
    assert Above(s, k, s.frames[n].node);
    assert Above(s, n, y);
    ToOn(g, r, x, s.frames[k].node, s.frames[n].node);
    ToOn(g, r, x, s.frames[n].node, y);
  }

  lemma {:induction false} UptoOlder(out: seq<seq<Name>>, comp: seq<Name>, n: nat)
    requires n <= |out|
    ensures Upto(out + [comp], n) == Upto(out, n)
  {
    if n > 0 { UptoOlder(out, comp, n - 1); }
  }

  lemma UptoIsClosed(g: Graph, r: Relation, out: seq<seq<Name>>, n: nat)
    requires Finished(g, r, out) && n <= |out|
    ensures Closed(g, Upto(out, n))
  {
    if n > 0 { assert Settled(g, r, out, n - 1); }
  }

  lemma ComponentIsClosed(g: Graph, r: Relation, roots: seq<Name>, s: Walk, comp: seq<Name>, t: Walk)
    requires Inv(g, r, roots, s) && Extracted(g, s, comp, t)
    ensures Closed(g, t.index.Keys - t.on)
  {
    var done := s.index.Keys - s.on;
    UptoIsClosed(g, r, s.out, |s.out|);
    var n := |s.frames| - 1;
    forall x, y | x in t.index.Keys - t.on && y in Deps(g, x) ensures y in t.index.Keys - t.on {
      if x !in done {
        assert Above(s, n, x) && !Above(s, n + 1, x);
        forall k | 0 <= k < |s.frames| && s.frames[k].node == x ensures y in Until(Deps(g, x), s.frames[k].i) {
          assert k == n;
        }
        assert Examined(g, s.frames, x, y);
      }
    }
  }

  lemma ExtractFinishes(g: Graph, r: Relation, roots: seq<Name>, s: Walk, comp: seq<Name>, t: Walk)
    requires Means(g, r) && Inv(g, r, roots, s) && Extracted(g, s, comp, t)
    ensures Finished(g, r, t.out) && Upto(t.out, |t.out|) == t.index.Keys - t.on
  {
    var n := |s.out|;
    UptoOlder(s.out, comp, n);
    assert Upto(t.out, n + 1) == Upto(t.out, n) + Elems(t.out[n]);
    assert Upto(t.out, n + 1) == t.index.Keys - t.on;
    forall i | 0 <= i < |t.out| ensures Settled(g, r, t.out, i) {
      if i < n {
        StillSettled(g, r, s, comp, t, i);
      } else {
        NewlySettled(g, r, roots, s, comp, t);
      }
    }
  }

  lemma StillSettled(g: Graph, r: Relation, s: Walk, comp: seq<Name>, t: Walk, i: nat)
    requires Finished(g, r, s.out) && Extracted(g, s, comp, t) && i < |s.out|
    ensures Settled(g, r, t.out, i)
  {
    UptoOlder(s.out, comp, i);
    UptoOlder(s.out, comp, i + 1);
    assert Settled(g, r, s.out, i);
    assert t.out[i] == s.out[i];
  }

  lemma NewlySettled(g: Graph, r: Relation, roots: seq<Name>, s: Walk, comp: seq<Name>, t: Walk)
    requires Means(g, r) && Inv(g, r, roots, s) && Extracted(g, s, comp, t)
    ensures Settled(g, r, t.out, |s.out|)
  {
    var n := |s.out|;
    UptoOlder(s.out, comp, n);
    assert Upto(t.out, n + 1) == Upto(t.out, n) + Elems(t.out[n]);
    assert Upto(t.out, n + 1) == t.index.Keys - t.on;
    ComponentIsClosed(g, r, roots, s, comp, t);
    forall x, y | x in comp && y in comp ensures r(x, y) {
      ComponentIsMutual(g, r, s, comp, t, x, y);
    }
  }

  lemma Extract(g: Graph, r: Relation, roots: seq<Name>, s: Walk, comp: seq<Name>, t: Walk)
    requires Means(g, r) && Inv(g, r, roots, s) && Extracted(g, s, comp, t)
    ensures Inv(g, r, roots, t)
  {
    ExtractFrames(g, r, s, comp, t);
    ExtractDownward(g, r, s, comp, t);
    ExtractUpward(g, r, s, comp, t);
    ExtractLows(g, r, s, comp, t);
    ExtractFinishes(g, r, roots, s, comp, t);
    forall x, y | x in t.index && Examined(g, t.frames, x, y) ensures y in t.index {
      DroppedBefore(g, s, t, x, y);
    }
  }

  // ----- the whole walk -----

  // Exactly the classes of mutual reachability among the names the roots reach, each name once.
  ghost predicate Classes(g: Graph, roots: seq<Name>, out: seq<seq<Name>>) {
    && (forall i :: 0 <= i < |out| ==> out[i] != [] && Sorted(out[i]) && Distinct(out[i]))
    && (forall x :: FromAny(g, roots, x) <==> exists i :: 0 <= i < |out| && x in out[i])
    && (forall i, x, y :: 0 <= i < |out| && x in out[i] ==> (y in out[i] <==> Mutual(g, x, y)))
    && (forall i, j, x :: 0 <= i < |out| && 0 <= j < |out| && x in out[i] && x in out[j] ==> i == j)
  }

  // Every component comes after all those it depends on, however far away.
  ghost predicate DependenciesFirst(g: Graph, out: seq<seq<Name>>) {
    forall i, j, x, y :: 0 <= i < |out| && 0 <= j < |out| && x in out[i] && y in out[j] && Reaches(g, x, y) ==> j <= i
  }

  ghost predicate Exact(g: Graph, roots: seq<Name>, out: seq<seq<Name>>) {
    Classes(g, roots, out) && DependenciesFirst(g, out)
  }

  lemma {:induction false} UptoHas(out: seq<seq<Name>>, n: nat, x: Name)
    requires n <= |out|
    ensures x in Upto(out, n) <==> exists i :: 0 <= i < n && x in out[i]
  {
    if n > 0 { UptoHas(out, n - 1, x); }
  }

  lemma DependsOnEarlier(g: Graph, r: Relation, out: seq<seq<Name>>, i: nat, j: nat, x: Name, y: Name)
    requires Means(g, r) && Finished(g, r, out) && i < |out| && j < |out|
    requires x in out[i] && y in out[j] && Reaches(g, x, y)
    ensures j <= i
  {
    UptoIsClosed(g, r, out, i + 1);
    UptoHas(out, i + 1, x);
    ClosedKeeps(g, Upto(out, i + 1), x, y);
    UptoHas(out, i + 1, y);
    UptoHas(out, j, y);
    assert Settled(g, r, out, j);
    assert y in Elems(out[j]);
  }

  lemma ClassIsComponent(g: Graph, r: Relation, out: seq<seq<Name>>, i: nat, x: Name, y: Name)
    requires Means(g, r) && Finished(g, r, out) && i < |out| && x in out[i]
    ensures y in out[i] <==> Mutual(g, x, y)
  {
    assert Settled(g, r, out, i);
    if y in out[i] {
      assert r(x, y) && r(y, x);
      assert Reaches(g, x, y) && Reaches(g, y, x);
    } else if Mutual(g, x, y) {
      UptoIsClosed(g, r, out, i + 1);
      UptoHas(out, i + 1, x);
      ClosedKeeps(g, Upto(out, i + 1), x, y);
      UptoHas(out, i + 1, y);
      var j :| 0 <= j < i + 1 && y in out[j];
      DependsOnEarlier(g, r, out, j, i, y, x);
    }
  }

  lemma ReachedIsFinished(g: Graph, r: Relation, roots: seq<Name>, s: Walk, x: Name)
    requires Means(g, r) && Inv(g, r, roots, s) && s.on == {}
    requires forall q :: q in roots ==> q in s.index
    ensures FromAny(g, roots, x) <==> exists i :: 0 <= i < |s.out| && x in s.out[i]
  {
    UptoHas(s.out, |s.out|, x);
    UptoIsClosed(g, r, s.out, |s.out|);
    if FromAny(g, roots, x) {
      var q :| q in roots && Reaches(g, q, x);
      ClosedKeeps(g, Upto(s.out, |s.out|), q, x);
    }
    if x in s.index {
      assert FromRoots(r, roots, x);
      var q :| q in roots && r(q, x);
      assert r(q, x) <==> Reaches(g, q, x);
    }
  }

  lemma Concluded(g: Graph, r: Relation, roots: seq<Name>, s: Walk)
    requires Means(g, r) && Inv(g, r, roots, s) && s.on == {}
    requires forall q :: q in roots ==> q in s.index
    ensures Exact(g, roots, s.out)
  {
    forall i | 0 <= i < |s.out| ensures s.out[i] != [] && Sorted(s.out[i]) && Distinct(s.out[i]) {
      assert Settled(g, r, s.out, i);
    }
    forall x ensures FromAny(g, roots, x) <==> exists i :: 0 <= i < |s.out| && x in s.out[i] {
      ReachedIsFinished(g, r, roots, s, x);
    }
    forall i, x, y | 0 <= i < |s.out| && x in s.out[i] ensures y in s.out[i] <==> Mutual(g, x, y) {
      ClassIsComponent(g, r, s.out, i, x, y);
    }
    forall i, j, x, y | 0 <= i < |s.out| && 0 <= j < |s.out| && x in s.out[i] && y in s.out[j] && Reaches(g, x, y)
      ensures j <= i
    {
      DependsOnEarlier(g, r, s.out, i, j, x, y);
    }
    forall i, j, x | 0 <= i < |s.out| && 0 <= j < |s.out| && x in s.out[i] && x in s.out[j] ensures i == j {
      ReachesSelf(g, x);
      DependsOnEarlier(g, r, s.out, i, j, x, x);
      DependsOnEarlier(g, r, s.out, j, i, x, x);
    }
  }

  // Dependencies still to look at, over all open frames: what each turn of the loop uses up.
  ghost function Work(g: Graph, frames: seq<Frame>): nat {
    if frames == [] then 0
    else
      var top := frames[|frames| - 1];
      Work(g, frames[..|frames| - 1]) + 1 + if top.i <= |Deps(g, top.node)| then |Deps(g, top.node)| - top.i else 0
  }

  ghost predicate Flags(onStack: map<Name, bool>, on: set<Name>) {
    forall x :: x in on <==> x in onStack && onStack[x]
  }

  // Names come off the stack down to v: the stack above v, and v.
  method Unwind(ghost s: Walk, v: Name, stack: seq<Name>, onStack: map<Name, bool>)
    returns (rest: seq<Name>, flags: map<Name, bool>, comp: seq<Name>)
    requires Numbered(s) && Stacked(s, stack) && Flags(onStack, s.on) && v in s.on
    ensures comp != [] && Distinct(comp) && Elems(comp) <= s.on
    ensures forall x :: x in s.on ==> (x in Elems(comp) <==> s.index[v] <= s.index[x])
    ensures Elems(rest) == s.on - Elems(comp) && rest <= stack
    ensures Flags(flags, s.on - Elems(comp))
  {
    ghost var at :| 0 <= at < |stack| && stack[at] == v;
    rest, flags, comp := stack, onStack, [];
    while true
      invariant at < |rest| && Popped(stack, rest, comp)
      invariant Flags(flags, s.on - Elems(comp))
      decreases |rest|
    {
      var w := rest[|rest| - 1];
      PopOne(stack, rest, comp, flags, s.on);
      rest, flags, comp := rest[..|rest| - 1], flags[w := false], comp + [w];
      if w == v { break; }
    }
    Cut(s, stack, rest, comp);
  }

  // comp is what came off the top of the stack, the last first, and rest what is left of it.
  ghost predicate Popped(stack: seq<Name>, rest: seq<Name>, comp: seq<Name>) {
    && |rest| <= |stack| && rest == stack[..|rest|] && |comp| == |stack| - |rest|
    && forall i :: 0 <= i < |comp| ==> comp[i] == stack[|stack| - 1 - i]
  }

  lemma PopOne(stack: seq<Name>, rest: seq<Name>, comp: seq<Name>, flags: map<Name, bool>, on: set<Name>)
    requires Popped(stack, rest, comp) && rest != [] && Flags(flags, on - Elems(comp))
    ensures var w := rest[|rest| - 1];
            Popped(stack, rest[..|rest| - 1], comp + [w]) && Flags(flags[w := false], on - Elems(comp + [w]))
  {
    assert Elems(comp + [rest[|rest| - 1]]) == Elems(comp) + {rest[|rest| - 1]};
  }

  lemma Cut(s: Walk, stack: seq<Name>, rest: seq<Name>, comp: seq<Name>)
    requires Numbered(s) && Stacked(s, stack) && Popped(stack, rest, comp) && |rest| < |stack|
    ensures comp != [] && Distinct(comp) && Elems(comp) <= s.on
    ensures forall x :: x in s.on ==> (x in Elems(comp) <==> s.index[stack[|rest|]] <= s.index[x])
    ensures Elems(rest) == s.on - Elems(comp)
  {
    forall x | x in s.on
      ensures x in Elems(comp) <==> s.index[stack[|rest|]] <= s.index[x]
      ensures x in Elems(rest) <==> x !in Elems(comp)
    {
      assert x in Elems(stack);
      var i :| 0 <= i < |stack| && stack[i] == x;
      if i >= |rest| {
        assert comp[|stack| - 1 - i] == x;
      } else {
        assert rest[i] == x;
      }
    }
  }

  datatype Component = Component(nodes: seq<Name>, level: nat)

  // ----- the loop, with the invariant as one opaque predicate -----

  type Invariant = Walk -> bool

  ghost predicate Keeps(g: Graph, r: Relation, roots: seq<Name>, inv: Invariant) {
    && Means(g, r)
    && (forall s {:trigger Inv(g, r, roots, s)} :: inv(s) <==> Inv(g, r, roots, s))
  }

  lemma Kept(g: Graph, roots: seq<Name>) returns (r: Relation, inv: Invariant)
    ensures Keeps(g, r, roots, inv)
  {
    r := (x, y) => Reaches(g, x, y);
    inv := s => Inv(g, r, roots, s);
  }

  // What the loop itself has to know of a walk that keeps the invariant.
  ghost predicate Sound(s: Walk) {
    && s.on <= s.index.Keys && s.low.Keys == s.index.Keys
    && (s.frames == [] <==> s.on == {})
    && (s.frames != [] ==> s.Top().node in s.on)
    && (|s.frames| > 1 ==> s.frames[|s.frames| - 2].node in s.on)
  }

  lemma Known(g: Graph, r: Relation, roots: seq<Name>, inv: Invariant, s: Walk)
    requires Keeps(g, r, roots, inv) && inv(s)
    ensures Sound(s) && Numbered(s)
  {
    assert Inv(g, r, roots, s) <==> inv(s);
    assert s.frames != [] ==> s.frames[0].node in s.on;
  }

  // Names the walk may meet and has not met.
  ghost function Unmet(all: set<Name>, s: Walk): nat {
    |all - s.index.Keys|
  }

  function AfterNew(s: Walk, w: Name): Walk {
    Walk(s.index[w := s.next], s.low[w := s.next], s.next + 1, s.on + {w},
         (if s.frames == [] then [] else s.Advanced()) + [Frame(w, 0)], s.out)
  }

  lemma TurnNew(g: Graph, r: Relation, roots: seq<Name>, inv: Invariant, s: Walk, w: Name)
    requires Keeps(g, r, roots, inv) && inv(s) && w !in s.index
    requires if s.frames == [] then w in roots else Next(g, s, w)
    ensures inv(AfterNew(s, w))
  {
    DiscoverKeeps(g, r, roots, inv, s, w, AfterNew(s, w));
  }

  lemma MeetsOneMore(g: Graph, all: set<Name>, s: Walk, w: Name)
    requires w !in s.index && Sound(s) && s.index.Keys <= all && Closed(g, all)
    requires Next(g, s, w)
    ensures Unmet(all, AfterNew(s, w)) < Unmet(all, s) && AfterNew(s, w).index.Keys <= all
  {
    assert s.Top().node in all;
    Shrinks(all, s.index.Keys, w);
    assert AfterNew(s, w).index.Keys == s.index.Keys + {w};
  }

  // The top frame has w left to look at.
  ghost predicate Next(g: Graph, s: Walk, w: Name) {
    s.frames != [] && s.Top().i < |Deps(g, s.Top().node)| && w == Deps(g, s.Top().node)[s.Top().i]
  }

  lemma DiscoverKeeps(g: Graph, r: Relation, roots: seq<Name>, inv: Invariant, s: Walk, w: Name, t: Walk)
    requires Keeps(g, r, roots, inv) && inv(s) && Discovered(g, s, w, t) && (s.frames == [] ==> w in roots)
    ensures inv(t)
  {
    assert inv(s) <==> Inv(g, r, roots, s);
    Discover(g, r, roots, s, w, t);
    assert inv(t) <==> Inv(g, r, roots, t);
  }

  lemma LookKeeps(g: Graph, r: Relation, roots: seq<Name>, inv: Invariant, s: Walk, w: Name, t: Walk)
    requires Keeps(g, r, roots, inv) && inv(s) && Looked(g, s, w, t)
    ensures inv(t)
  {
    assert inv(s) <==> Inv(g, r, roots, s);
    Look(g, r, roots, s, w, t);
    assert inv(t) <==> Inv(g, r, roots, t);
  }

  lemma MergeKeeps(g: Graph, r: Relation, roots: seq<Name>, inv: Invariant, s: Walk, t: Walk)
    requires Keeps(g, r, roots, inv) && inv(s) && Merged(g, s, t)
    ensures inv(t)
  {
    assert inv(s) <==> Inv(g, r, roots, s);
    Merge(g, r, roots, s, t);
    assert inv(t) <==> Inv(g, r, roots, t);
  }

  lemma ExtractKeeps(g: Graph, r: Relation, roots: seq<Name>, inv: Invariant, s: Walk, comp: seq<Name>, t: Walk)
    requires Keeps(g, r, roots, inv) && inv(s) && Extracted(g, s, comp, t)
    ensures inv(t)
  {
    assert inv(s) <==> Inv(g, r, roots, s);
    Extract(g, r, roots, s, comp, t);
    assert inv(t) <==> Inv(g, r, roots, t);
  }

  lemma Shrinks(all: set<Name>, met: set<Name>, w: Name)
    requires w in all && w !in met
    ensures |all - (met + {w})| < |all - met|
  {
    assert all - met == (all - (met + {w})) + {w};
  }

  function AfterSeen(s: Walk, w: Name): Walk
    requires s.frames != [] && w in s.index && s.Top().node in s.low
  {
    var low := if w in s.on && s.index[w] < s.low[s.Top().node] then s.low[s.Top().node := s.index[w]] else s.low;
    s.(low := low, frames := s.Advanced())
  }

  lemma TurnSeen(g: Graph, r: Relation, roots: seq<Name>, inv: Invariant, s: Walk, w: Name)
    requires Keeps(g, r, roots, inv) && inv(s) && w in s.index && s.frames != []
    requires Next(g, s, w) && s.Top().node in s.low
    ensures inv(AfterSeen(s, w)) && Work(g, s.Advanced()) < Work(g, s.frames)
  {
    var t := AfterSeen(s, w);
    LookKeeps(g, r, roots, inv, s, w, t);
    assert t.frames[..|t.frames| - 1] == s.frames[..|s.frames| - 1];
  }

  function AfterDrop(s: Walk): Walk
    requires s.frames != [] && s.Top().node in s.low
  {
    var t := s.(frames := s.frames[..|s.frames| - 1]);
    t.(low := LowerParent(s, t))
  }

  lemma TurnMerge(g: Graph, r: Relation, roots: seq<Name>, inv: Invariant, s: Walk)
    requires Keeps(g, r, roots, inv) && inv(s) && s.frames != [] && s.Top().node in s.low
    requires s.Top().i >= |Deps(g, s.Top().node)|
    requires s.Top().node in s.index && s.low[s.Top().node] != s.index[s.Top().node]
    ensures inv(AfterDrop(s)) && Work(g, AfterDrop(s).frames) < Work(g, s.frames)
  {
    MergeKeeps(g, r, roots, inv, s, AfterDrop(s));
  }

  // Dropping the frame of a component's first name leaves its parent's low alone.
  lemma ParentIsOlder(g: Graph, r: Relation, roots: seq<Name>, inv: Invariant, s: Walk)
    requires Keeps(g, r, roots, inv) && inv(s) && |s.frames| > 1 && Sound(s)
    requires s.low[s.Top().node] == s.index[s.Top().node]
    ensures s.low[s.frames[|s.frames| - 2].node] < s.low[s.Top().node]
  {
    assert inv(s) <==> Inv(g, r, roots, s);
    assert HasLow(r, s, |s.frames| - 2);
  }

  lemma TurnExtract(g: Graph, r: Relation, roots: seq<Name>, inv: Invariant, s: Walk, comp: seq<Name>)
    requires Keeps(g, r, roots, inv) && inv(s) && s.frames != [] && Sound(s)
    requires s.Top().i >= |Deps(g, s.Top().node)|
    requires s.low[s.Top().node] == s.index[s.Top().node]
    requires comp != [] && Sorted(comp) && Distinct(comp) && Elems(comp) <= s.on
    requires forall x :: x in s.on ==> (x in Elems(comp) <==> s.index[s.Top().node] <= s.index[x])
    ensures inv(AfterDrop(s).(on := s.on - Elems(comp), out := s.out + [comp]))
    ensures Work(g, AfterDrop(s).frames) < Work(g, s.frames)
  {
    var t := AfterDrop(s).(on := s.on - Elems(comp), out := s.out + [comp]);
    Known(g, r, roots, inv, s);
    if |s.frames| > 1 { ParentIsOlder(g, r, roots, inv, s); }
    ExtractKeeps(g, r, roots, inv, s, comp, t);
  }

  lemma Started(g: Graph, r: Relation, roots: seq<Name>, inv: Invariant)
    requires Keeps(g, r, roots, inv)
    ensures inv(Walk(map[], map[], 0, {}, [], []))
  {
    assert Inv(g, r, roots, Walk(map[], map[], 0, {}, [], [])) <==> inv(Walk(map[], map[], 0, {}, [], []));
  }

  lemma Ended(g: Graph, r: Relation, roots: seq<Name>, inv: Invariant, s: Walk)
    requires Keeps(g, r, roots, inv) && inv(s) && s.on == {}
    requires forall q :: q in roots ==> q in s.index
    ensures Exact(g, roots, s.out)
  {
    assert Inv(g, r, roots, s) <==> inv(s);
    Concluded(g, r, roots, s);
  }

  function NodeSets(comps: seq<Component>): seq<seq<Name>> {
    seq(|comps|, i requires 0 <= i < |comps| => comps[i].nodes)
  }

  method SCC(nodes: seq<Name>, adj: Graph) returns (comps: seq<Component>)
    ensures Exact(adj, nodes, NodeSets(comps))
    ensures forall c :: c in comps ==> c.level == 0
  {
    ghost var r, inv := Kept(adj, nodes);
    var index: map<Name, nat>, low: map<Name, nat>, onStack: map<Name, bool> := map[], map[], map[];
    var stack: seq<Name>, next, out: seq<seq<Name>> := [], 0, [];
    Started(adj, r, nodes, inv);
    for k := 0 to |nodes|
      invariant inv(Walk(index, low, next, {}, [], out))
      invariant stack == [] && Flags(onStack, {})
      invariant forall q :: q in nodes[..k] ==> q in index
    {
      if nodes[k] !in index {
        index, low, onStack, stack, next, out := Explore(nodes, adj, r, inv, nodes[k], index, low, onStack, next, out);
      }
    }
    Ended(adj, r, nodes, inv, Walk(index, low, next, {}, [], out));
    comps := [];
    for i := 0 to |out|
      invariant |comps| == i
      invariant forall j :: 0 <= j < i ==> comps[j] == Component(out[j], 0)
    {
      comps := comps + [Component(out[i], 0)];
    }
    assert NodeSets(comps) == out;
  }

  // The top frame looks at its next dependency: met for the first time, or met before.
  method Visit(ghost roots: seq<Name>, adj: Graph, ghost all: set<Name>, ghost r: Relation, ghost inv: Invariant,
               ghost s: Walk,
               index0: map<Name, nat>, low0: map<Name, nat>, onStack0: map<Name, bool>, stack0: seq<Name>,
               next0: nat, frames0: seq<Frame>)
    returns (index: map<Name, nat>, low: map<Name, nat>, onStack: map<Name, bool>, stack: seq<Name>, next: nat,
             frames: seq<Frame>, ghost t: Walk)
    requires Keeps(adj, r, roots, inv) && inv(s) && s == Walk(index0, low0, next0, s.on, frames0, s.out)
    requires Sound(s) && Numbered(s) && Stacked(s, stack0) && Flags(onStack0, s.on)
    requires frames0 != [] && s.Top().i < |Deps(adj, s.Top().node)| && Closed(adj, all) && index0.Keys <= all
    ensures inv(t) && t == Walk(index, low, next, t.on, frames, s.out) && index0.Keys <= index.Keys <= all
    ensures Numbered(t) && Stacked(t, stack) && Flags(onStack, t.on)
    ensures Unmet(all, t) < Unmet(all, s)
            || (Unmet(all, t) == Unmet(all, s) && Work(adj, frames) < Work(adj, frames0))
  {
    index, low, onStack, stack, next := index0, low0, onStack0, stack0, next0;
    var f := frames0[|frames0| - 1];
    var w := Deps(adj, f.node)[f.i];
    frames := frames0[..|frames0| - 1] + [Frame(f.node, f.i + 1)];
    if w !in index {
      VisitNew(roots, adj, all, r, inv, s, w, stack, onStack);
      t := AfterNew(s, w);
      index, low := index[w := next], low[w := next];
      next := next + 1;
      stack, onStack := stack + [w], onStack[w := true];
      frames := frames + [Frame(w, 0)];
    } else {
      TurnSeen(adj, r, roots, inv, s, w);
      t := AfterSeen(s, w);
      if w in onStack && onStack[w] {
        if index[w] < low[f.node] {
          low := low[f.node := index[w]];
        }
      }
    }
  }

  // A dependency not met before is numbered, pushed and given a frame.
  lemma VisitNew(roots: seq<Name>, adj: Graph, all: set<Name>, r: Relation, inv: Invariant, s: Walk, w: Name,
                 stack: seq<Name>, onStack: map<Name, bool>)
    requires Keeps(adj, r, roots, inv) && inv(s) && w !in s.index && Next(adj, s, w)
    requires Sound(s) && Numbered(s) && Stacked(s, stack) && Flags(onStack, s.on)
    requires s.index.Keys <= all && Closed(adj, all)
    ensures inv(AfterNew(s, w)) && Unmet(all, AfterNew(s, w)) < Unmet(all, s) && AfterNew(s, w).index.Keys <= all
    ensures Numbered(AfterNew(s, w)) && Stacked(AfterNew(s, w), stack + [w])
    ensures Flags(onStack[w := true], AfterNew(s, w).on)
  {
    TurnNew(adj, r, roots, inv, s, w);
    MeetsOneMore(adj, all, s, w);
    PushStacked(s, stack, w);
  }

  // The component closed by v, off the stack and sorted.
  method TakeComponent(ghost s: Walk, v: Name, stack: seq<Name>, onStack: map<Name, bool>)
    returns (rest: seq<Name>, flags: map<Name, bool>, sorted: seq<Name>)
    requires Numbered(s) && Stacked(s, stack) && Flags(onStack, s.on) && v in s.on
    ensures sorted != [] && Sorted(sorted) && Distinct(sorted) && Elems(sorted) <= s.on
    ensures forall x :: x in s.on ==> (x in Elems(sorted) <==> s.index[v] <= s.index[x])
    ensures Elems(rest) == s.on - Elems(sorted) && rest <= stack
    ensures Flags(flags, s.on - Elems(sorted))
  {
    var comp;
    rest, flags, comp := Unwind(s, v, stack, onStack);
    sorted := Sort(comp);
    SameElements(sorted, comp);
    assert Elems(sorted) == Elems(comp);
  }

  // The top frame has nothing left: its node may close a component, and its parent takes its low.
  method Close(ghost roots: seq<Name>, adj: Graph, ghost r: Relation, ghost inv: Invariant, ghost s: Walk,
               index: map<Name, nat>, low0: map<Name, nat>, onStack0: map<Name, bool>, stack0: seq<Name>,
               frames0: seq<Frame>, out0: seq<seq<Name>>)
    returns (low: map<Name, nat>, onStack: map<Name, bool>, stack: seq<Name>, frames: seq<Frame>,
             out: seq<seq<Name>>, ghost t: Walk)
    requires Keeps(adj, r, roots, inv) && inv(s) && s == Walk(index, low0, s.next, s.on, frames0, out0)
    requires Sound(s) && Numbered(s) && Stacked(s, stack0) && Flags(onStack0, s.on)
    requires frames0 != [] && s.Top().i >= |Deps(adj, s.Top().node)|
    ensures inv(t) && t == Walk(index, low, s.next, t.on, frames, out)
    ensures Numbered(t) && Stacked(t, stack) && Flags(onStack, t.on)
    ensures Work(adj, frames) < Work(adj, frames0)
  {
    low, onStack, stack, out := low0, onStack0, stack0, out0;
    var f := frames0[|frames0| - 1];
    t := AfterDrop(s);
    if low[f.node] == index[f.node] {
      var sorted;
      stack, onStack, sorted := TakeComponent(s, f.node, stack, onStack);
      out := out + [sorted];
      TurnExtract(adj, r, roots, inv, s, sorted);
      t := t.(on := s.on - Elems(sorted), out := out);
    } else {
      TurnMerge(adj, r, roots, inv, s);
    }
    frames := frames0[..|frames0| - 1];
    if |frames| > 0 {
      var p := frames[|frames| - 1].node;
      if low[f.node] < low[p] {
        low := low[p := low[f.node]];
      }
    }
  }

  // A root is discovered and its frame opened.
  method Enter(ghost roots: seq<Name>, adj: Graph, ghost r: Relation, ghost inv: Invariant, root: Name,
               index0: map<Name, nat>, low0: map<Name, nat>, onStack0: map<Name, bool>, next0: nat,
               ghost out: seq<seq<Name>>)
    returns (index: map<Name, nat>, low: map<Name, nat>, onStack: map<Name, bool>, stack: seq<Name>, next: nat,
             frames: seq<Frame>, ghost t: Walk)
    requires Keeps(adj, r, roots, inv) && root in roots && root !in index0
    requires inv(Walk(index0, low0, next0, {}, [], out)) && Flags(onStack0, {})
    ensures inv(t) && t == Walk(index, low, next, t.on, frames, out) && Sound(t)
    ensures Numbered(t) && Stacked(t, stack) && Flags(onStack, t.on)
    ensures index0.Keys + {root} <= index.Keys
  {
    ghost var s := Walk(index0, low0, next0, {}, [], out);
    TurnNew(adj, r, roots, inv, s, root);
    t := AfterNew(s, root);
    index, low, next := index0[root := next0], low0[root := next0], next0 + 1;
    stack, onStack, frames := [root], onStack0[root := true], [Frame(root, 0)];
    Known(adj, r, roots, inv, t);
  }

  // The walk from one root: the frames grow and shrink until none is open.
  method Explore(ghost roots: seq<Name>, adj: Graph, ghost r: Relation, ghost inv: Invariant, root: Name,
                 index0: map<Name, nat>, low0: map<Name, nat>, onStack0: map<Name, bool>, next0: nat,
                 out0: seq<seq<Name>>)
    returns (index: map<Name, nat>, low: map<Name, nat>, onStack: map<Name, bool>, stack: seq<Name>, next: nat,
             out: seq<seq<Name>>)
    requires Keeps(adj, r, roots, inv) && root in roots && root !in index0
    requires inv(Walk(index0, low0, next0, {}, [], out0)) && Flags(onStack0, {})
    ensures inv(Walk(index, low, next, {}, [], out))
    ensures stack == [] && Flags(onStack, {})
    ensures index0.Keys + {root} <= index.Keys
  {
    var frames;
    ghost var s;
    index, low, onStack, stack, next, frames, s := Enter(roots, adj, r, inv, root, index0, low0, onStack0, next0, out0);
    out := out0;
    ghost var all := index.Keys + Mentioned(adj);
    AllIsClosed(adj, index.Keys);
    while |frames| > 0
      invariant inv(s) && s == Walk(index, low, next, s.on, frames, out) && Sound(s)
      invariant Numbered(s) && Stacked(s, stack) && Flags(onStack, s.on)
      invariant index0.Keys + {root} <= index.Keys <= all
      decreases Unmet(all, s), Work(adj, frames)
    {
      var f := frames[|frames| - 1];
      if f.i < |Deps(adj, f.node)| {
        index, low, onStack, stack, next, frames, s :=
          Visit(roots, adj, all, r, inv, s, index, low, onStack, stack, next, frames);
      } else {
        low, onStack, stack, frames, out, s := Close(roots, adj, r, inv, s, index, low, onStack, stack, frames, out);
      }
      Known(adj, r, roots, inv, s);
    }
    NothingStacked(s, stack);
  }

  lemma AllIsClosed(g: Graph, met: set<Name>)
    ensures Closed(g, met + Mentioned(g))
  {}

  lemma NothingStacked(s: Walk, stack: seq<Name>)
    requires Numbered(s) && Stacked(s, stack)
    ensures s.on == {} ==> stack == []
  {
    if stack != [] { assert stack[0] in s.on; }
  }

  lemma PushStacked(s: Walk, stack: seq<Name>, w: Name)
    requires Numbered(s) && Stacked(s, stack) && w !in s.index
    ensures Numbered(AfterNew(s, w)) && Stacked(AfterNew(s, w), stack + [w])
  {
    assert Elems(stack + [w]) == Elems(stack) + {w};
  }
}
