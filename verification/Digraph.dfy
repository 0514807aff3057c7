// Directed graphs as the source passes them about: for each name, the names it depends on.
module Digraphs {
  import opened Sequences
  import opened Names

  type Graph = map<Name, seq<Name>>

  // A missing key reads as no dependencies.
  function Deps(g: Graph, n: Name): seq<Name> {
    if n in g then g[n] else []
  }

  ghost predicate Path(g: Graph, p: seq<Name>) {
    p != [] && forall i :: 0 < i < |p| ==> p[i] in Deps(g, p[i - 1])
  }

  ghost predicate Reaches(g: Graph, a: Name, b: Name) {
    exists p :: Path(g, p) && p[0] == a && p[|p| - 1] == b
  }

  lemma ReachesSelf(g: Graph, a: Name)
    ensures Reaches(g, a, a)
  {
    assert Path(g, [a]);
  }

  lemma ReachesDep(g: Graph, a: Name, b: Name)
    requires b in Deps(g, a)
    ensures Reaches(g, a, b)
  {
    var p := [a, b];
    assert Path(g, p) && p[0] == a && p[|p| - 1] == b;
  }

  lemma ReachesOn(g: Graph, a: Name, b: Name, c: Name)
    requires Reaches(g, a, b) && Reaches(g, b, c)
    ensures Reaches(g, a, c)
  {
    var p :| Path(g, p) && p[0] == a && p[|p| - 1] == b;
    var q :| Path(g, q) && q[0] == b && q[|q| - 1] == c;
    var r := p + q[1..];
    assert r[|r| - 1] == c;
    forall i | 0 < i < |r| ensures r[i] in Deps(g, r[i - 1]) {
      if i >= |p| {
        assert r[i] == q[i - |p| + 1] && r[i - 1] == q[i - |p|];
      }
    }
  }

  ghost predicate Closed(g: Graph, s: set<Name>) {
    forall x, y :: x in s && y in Deps(g, x) ==> y in s
  }

  // Nothing leaves a closed set.
  lemma {:induction false} ClosedKeeps(g: Graph, s: set<Name>, a: Name, b: Name)
    requires Closed(g, s) && a in s && Reaches(g, a, b)
    ensures b in s
  {
    var p :| Path(g, p) && p[0] == a && p[|p| - 1] == b;
    for i := 1 to |p|
      invariant forall k :: 0 <= k < i ==> p[k] in s
    {
      assert p[i] in Deps(g, p[i - 1]);
    }
  }

  ghost predicate Mutual(g: Graph, a: Name, b: Name) {
    Reaches(g, a, b) && Reaches(g, b, a)
  }

  ghost predicate FromAny(g: Graph, roots: seq<Name>, x: Name) {
    exists r :: r in roots && Reaches(g, r, x)
  }

  // Every name the graph mentions.
  ghost function Mentioned(g: Graph): set<Name> {
    g.Keys + (set k, x | k in g.Keys && x in g[k] :: x)
  }
}
