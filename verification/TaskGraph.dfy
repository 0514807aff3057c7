// Task graphs: sorting into tiers, naming what a cycle blocks, and the critical path.
module TaskGraphs {
  import opened Options
  import opened Sequences
  import opened Names
  import opened Digraphs
  import opened Ranks

  datatype Task = Task(id: Name, desc: string, dependsOn: seq<Name>)

  datatype Tier = Tier(level: nat, tasks: seq<Task>)

  datatype Fault = NoId | Duplicate(id: Name) | MissingDep(task: Name, missing: Name) | Cycle(involved: seq<Name>)

  datatype Outcome = Tiers(tiers: seq<Tier>) | Refused(fault: Fault)

  function Ids(tasks: seq<Task>): seq<Name> {
    seq(|tasks|, i requires 0 <= i < |tasks| => tasks[i].id)
  }

  // The tasks by id; a later task replaces an earlier one of the same id.
  ghost function ById(tasks: seq<Task>): map<Name, Task> {
    if tasks == [] then map[]
    else
      var n := |tasks| - 1;
      ById(tasks[..n])[tasks[n].id := tasks[n]]
  }

  ghost function Edges(tasks: seq<Task>): Graph {
    map id | id in ById(tasks) :: ById(tasks)[id].dependsOn
  }

  ghost function NeedsOf(tasks: seq<Task>): Needs<Name> {
    map id | id in ById(tasks) :: Elems(ById(tasks)[id].dependsOn)
  }

  // On a cycle: some dependency leads back.
  ghost predicate OnCycle(g: Graph, x: Name) {
    exists y :: y in Deps(g, x) && Reaches(g, y, x)
  }

  ghost predicate BehindCycle(g: Graph, x: Name) {
    exists c :: Reaches(g, x, c) && OnCycle(g, c)
  }

  ghost predicate Acyclic(g: Graph) {
    forall x :: !OnCycle(g, x)
  }

  // ----- what placing everything, or getting stuck, says about cycles -----

  // Needs and dependencies say the same.
  ghost predicate Agree(g: Graph, pre: Needs<Name>) {
    g.Keys == pre.Keys && forall x, y {:trigger In(pre, x, y)} {:trigger y in Deps(g, x)} ::
      In(pre, x, y) <==> y in Deps(g, x)
  }

  // Along a path from something placed the levels fall at every step.
  lemma {:induction false} LevelsFall(g: Graph, pre: Needs<Name>, lv: map<Name, nat>, l: nat, p: seq<Name>)
    requires Agree(g, pre) && Rising(pre, lv, l) && Path(g, p) && p[0] in lv
    ensures p[|p| - 1] in lv && lv[p[|p| - 1]] + |p| - 1 <= lv[p[0]]
    decreases |p|
  {
    if |p| > 1 {
      assert p[1] in Deps(g, p[0]);
      assert In(pre, p[0], p[1]);
      var q := p[1..];
      forall i | 0 < i < |q| ensures q[i] in Deps(g, q[i - 1]) { assert q[i] == p[i + 1] && q[i - 1] == p[i]; }
      LevelsFall(g, pre, lv, l, q);
    }
  }

  // Nothing placed is behind a cycle.
  lemma PlacedIsClear(g: Graph, pre: Needs<Name>, lv: map<Name, nat>, l: nat, x: Name)
    requires Agree(g, pre) && Rising(pre, lv, l) && x in lv
    ensures !BehindCycle(g, x)
  {
    if BehindCycle(g, x) {
      var c :| Reaches(g, x, c) && OnCycle(g, c);
      var p :| Path(g, p) && p[0] == x && p[|p| - 1] == c;
      LevelsFall(g, pre, lv, l, p);
      var y :| y in Deps(g, c) && Reaches(g, y, c);
      assert In(pre, c, y);
      var q :| Path(g, q) && q[0] == y && q[|q| - 1] == c;
      LevelsFall(g, pre, lv, l, q);
      assert false;
    }
  }

  ghost predicate HasNext(g: Graph, s: set<Name>, x: Name) {
    exists y :: y in s && y in Deps(g, x)
  }

  // Every name in s has a dependency in s.
  ghost predicate Stuck(g: Graph, s: set<Name>) {
    forall x {:trigger HasNext(g, s, x)} :: x in s ==> HasNext(g, s, x)
  }

  // The rest of s that x reaches.
  ghost function Ahead(g: Graph, s: set<Name>, x: Name): set<Name> {
    set z | z in s && Reaches(g, x, z) && z != x
  }

  lemma AheadIsStuck(g: Graph, s: set<Name>, x: Name)
    requires Stuck(g, s) && x in s && !OnCycle(g, x)
    ensures Stuck(g, Ahead(g, s, x))
  {
    forall z | z in Ahead(g, s, x) ensures HasNext(g, Ahead(g, s, x), z) {
      assert HasNext(g, s, z);
      var w :| w in s && w in Deps(g, z);
      StaysAhead(g, x, z, w);
      assert w in Ahead(g, s, x);
    }
  }

  // Names that cannot leave their own finite company sit behind a cycle.
  lemma {:induction false} StuckIsBehindCycle(g: Graph, s: set<Name>, x: Name)
    requires Stuck(g, s) && x in s
    ensures BehindCycle(g, x)
    decreases |s|
  {
    ReachesSelf(g, x);
    if !OnCycle(g, x) {
      assert HasNext(g, s, x);
      var y :| y in s && y in Deps(g, x);
      ReachesDep(g, x, y);
      ReachesSelf(g, y);
      AheadIsStuck(g, s, x);
      Fewer(Ahead(g, s, x), s, x);
      StuckIsBehindCycle(g, Ahead(g, s, x), y);
      var c :| Reaches(g, y, c) && OnCycle(g, c);
      ReachesOn(g, x, y, c);
    }
  }

  lemma Fewer(t: set<Name>, s: set<Name>, x: Name)
    requires t <= s && x in s && x !in t
    ensures |t| < |s|
  {
    assert s == (s - t) + t;
    assert x in s - t;
  }

  // A step on from what x reaches does not come back to x unless x is on a cycle.
  lemma StaysAhead(g: Graph, x: Name, z: Name, w: Name)
    requires !OnCycle(g, x) && Reaches(g, x, z) && z != x && w in Deps(g, z)
    ensures Reaches(g, x, w) && w != x
  {
    ReachesDep(g, z, w);
    ReachesOn(g, x, z, w);
    if w == x {
      var p :| Path(g, p) && p[0] == x && p[|p| - 1] == z;
      var q := p[1..];
      forall i | 0 < i < |q| ensures q[i] in Deps(g, q[i - 1]) { assert q[i] == p[i + 1] && q[i - 1] == p[i]; }
      assert Path(g, q) && q[0] == p[1] && q[|q| - 1] == z;
      assert p[1] in Deps(g, p[0]);
      ReachesOn(g, p[1], z, x);
      assert false;
    }
  }

  // When nothing is ready, what is left is exactly what is on or behind a cycle.
  lemma LeftIsBehindCycle(g: Graph, pre: Needs<Name>, lv: map<Name, nat>, l: nat, x: Name)
    requires Agree(g, pre) && Rising(pre, lv, l) && x in pre
    requires forall y, z :: In(pre, y, z) ==> z in pre
    requires forall i {:trigger Ready(pre, lv, i)} :: !Ready(pre, lv, i)
    ensures x !in lv <==> BehindCycle(g, x)
  {
    if x in lv {
      PlacedIsClear(g, pre, lv, l, x);
    } else {
      var s := pre.Keys - lv.Keys;
      forall y | y in s ensures HasNext(g, s, y) {
        assert !Ready(pre, lv, y);
        var z :| z in pre[y] && z !in lv;
        assert In(pre, y, z);
      }
      StuckIsBehindCycle(g, s, x);
    }
  }

  // Placing everything is possible exactly when there is no cycle.
  lemma AllPlacedIsAcyclic(g: Graph, pre: Needs<Name>, lv: map<Name, nat>, l: nat)
    requires Agree(g, pre) && Rising(pre, lv, l) && lv.Keys == pre.Keys
    ensures Acyclic(g)
  {
    forall x ensures !OnCycle(g, x) {
      if OnCycle(g, x) {
        var y :| y in Deps(g, x) && Reaches(g, y, x);
        assert In(pre, x, y);
        ReachesSelf(g, x);
        PlacedIsClear(g, pre, lv, l, x);
        assert false;
      }
    }
  }

  // ----- reading the request -----

  ghost predicate WellNamed(tasks: seq<Task>) {
    (forall i :: 0 <= i < |tasks| ==> tasks[i].id != "") && Distinct(Ids(tasks))
  }

  // The first task whose id is empty or already taken, and what is wrong with it.
  ghost predicate BadName(tasks: seq<Task>, fault: Fault) {
    exists i :: 0 <= i < |tasks| && WellNamed(tasks[..i])
                && if tasks[i].id == "" then fault == NoId
                else tasks[i].id in Ids(tasks[..i]) && fault == Duplicate(tasks[i].id)
  }

  lemma BadNameIsNot(tasks: seq<Task>, fault: Fault)
    requires BadName(tasks, fault)
    ensures !WellNamed(tasks)
  {
    var i :| 0 <= i < |tasks| && WellNamed(tasks[..i])
             && if tasks[i].id == "" then fault == NoId
             else tasks[i].id in Ids(tasks[..i]) && fault == Duplicate(tasks[i].id);
    if tasks[i].id != "" {
      var j :| 0 <= j < i && Ids(tasks[..i])[j] == tasks[i].id;
      assert Ids(tasks)[j] == Ids(tasks)[i];
    }
  }

  lemma {:induction false} ByIdHas(tasks: seq<Task>)
    ensures forall id {:trigger id in ById(tasks)} :: id in ById(tasks) <==> id in Ids(tasks)
    ensures WellNamed(tasks) ==> forall i {:trigger tasks[i]} ::
                0 <= i < |tasks| ==> tasks[i].id in ById(tasks) && ById(tasks)[tasks[i].id] == tasks[i]
  {
    if tasks != [] {
      var n := |tasks| - 1;
      ByIdHas(tasks[..n]);
      assert Ids(tasks) == Ids(tasks[..n]) + [tasks[n].id];
      if WellNamed(tasks) {
        WellNamedPrefix(tasks, n);
        forall i | 0 <= i < |tasks| ensures tasks[i].id in ById(tasks) && ById(tasks)[tasks[i].id] == tasks[i] {
          if i < n {
            assert tasks[..n][i] == tasks[i];
            assert Ids(tasks)[i] != Ids(tasks)[n];
          }
        }
      }
    }
  }

  lemma WellNamedPrefix(tasks: seq<Task>, n: nat)
    requires WellNamed(tasks) && n <= |tasks|
    ensures WellNamed(tasks[..n])
  {
    forall i, j | 0 <= i < j < n ensures Ids(tasks[..n])[i] != Ids(tasks[..n])[j] {
      assert Ids(tasks)[i] != Ids(tasks)[j];
    }
  }

  lemma OneMoreName(tasks: seq<Task>, i: nat)
    requires i < |tasks| && WellNamed(tasks[..i])
    ensures tasks[i].id == "" || tasks[i].id in ById(tasks[..i]) ==>
              BadName(tasks, if tasks[i].id == "" then NoId else Duplicate(tasks[i].id))
    ensures tasks[i].id != "" && tasks[i].id !in ById(tasks[..i]) ==> WellNamed(tasks[..i + 1])
    ensures ById(tasks[..i + 1]) == ById(tasks[..i])[tasks[i].id := tasks[i]]
    ensures Ids(tasks[..i + 1]) == Ids(tasks[..i]) + [tasks[i].id]
  {
    assert tasks[..i + 1][..i] == tasks[..i];
    ByIdHas(tasks[..i]);
    assert Ids(tasks[..i + 1]) == Ids(tasks[..i]) + [tasks[i].id];
  }

  method Register(tasks: seq<Task>) returns (fault: Option<Fault>, byID: map<Name, Task>, order: seq<Name>)
    ensures fault.None? ==> WellNamed(tasks) && byID == ById(tasks) && order == Ids(tasks)
    ensures fault.Some? ==> BadName(tasks, fault.value)
  {
    fault, byID, order := None, map[], [];
    for i := 0 to |tasks|
      invariant fault.None? && WellNamed(tasks[..i]) && byID == ById(tasks[..i]) && order == Ids(tasks[..i])
    {
      var t := tasks[i];
      OneMoreName(tasks, i);
      if t.id == "" {
        fault := Some(NoId);
        return;
      }
      if t.id in byID {
        fault := Some(Duplicate(t.id));
        return;
      }
      byID, order := byID[t.id := t], order + [t.id];
    }
    assert tasks[..|tasks|] == tasks;
  }

  // ----- counting what is outstanding -----

  // Reading a Go map of numbers or of lists: a missing key is zero or empty.
  function Count(m: map<Name, int>, x: Name): int {
    if x in m then m[x] else 0
  }

  function Times(s: seq<Name>, x: Name): nat {
    multiset(s)[x]
  }

  // Each task's own count of dependencies.
  ghost predicate Counted(g: Graph, indeg: map<Name, int>) {
    forall t {:trigger Count(indeg, t)} :: Count(indeg, t) == |Deps(g, t)|
  }

  // Each task's name under each of its dependencies, as often as it names it.
  ghost predicate Listed(g: Graph, dependents: Graph) {
    forall d, t {:trigger Times(Deps(dependents, d), t)} :: Times(Deps(dependents, d), t) == Times(Deps(g, t), d)
  }

  ghost predicate Linked(g: Graph, indeg: map<Name, int>, dependents: Graph) {
    Counted(g, indeg) && Listed(g, dependents)
  }

  function Entered(g: Graph, t: Name, d: Name): Graph {
    g[t := Deps(g, t) + [d]]
  }

  lemma TimesEntered(g: Graph, t: Name, d: Name, x: Name, y: Name)
    ensures Times(Deps(Entered(g, t, d), x), y) == Times(Deps(g, x), y) + if x == t && y == d then 1 else 0
  {}

  lemma ListOne(g: Graph, dependents: Graph, t: Name, d: Name)
    requires Listed(g, dependents)
    ensures Listed(Entered(g, t, d), Entered(dependents, d, t))
  {
    forall x, y ensures Times(Deps(Entered(dependents, d, t), x), y) == Times(Deps(Entered(g, t, d), y), x) {
      assert Times(Deps(dependents, x), y) == Times(Deps(g, y), x);
      TimesEntered(dependents, d, t, x, y);
      TimesEntered(g, t, d, y, x);
    }
  }

  lemma LinkOne(g: Graph, indeg: map<Name, int>, dependents: Graph, t: Name, d: Name)
    requires Linked(g, indeg, dependents)
    ensures Linked(Entered(g, t, d), indeg[t := Count(indeg, t) + 1], Entered(dependents, d, t))
  {
    ListOne(g, dependents, t, d);
    assert Count(indeg, t) == |Deps(g, t)|;
    forall x ensures Count(indeg[t := Count(indeg, t) + 1], x) == |Deps(Entered(g, t, d), x)| {
      assert Count(indeg, x) == |Deps(g, x)|;
    }
  }

  // A dependency that no task provides, the first in request order.
  ghost predicate FirstMissing(tasks: seq<Task>, fault: Fault) {
    exists i, k :: MissingAt(tasks, fault, i, k)
  }

  ghost predicate MissingAt(tasks: seq<Task>, fault: Fault, i: nat, k: nat) {
    && Provided(tasks, i) && ProvidedTo(tasks, i, k) && i < |tasks| && k < |tasks[i].dependsOn|
    && tasks[i].dependsOn[k] !in Ids(tasks) && fault == MissingDep(tasks[i].id, tasks[i].dependsOn[k])
  }

  ghost predicate ProvidedTo(tasks: seq<Task>, i: nat, k: nat) {
    i < |tasks| && k <= |tasks[i].dependsOn| && forall m :: 0 <= m < k ==> tasks[i].dependsOn[m] in Ids(tasks)
  }

  // The first n tasks name only tasks of the request.
  ghost predicate Provided(tasks: seq<Task>, n: nat) {
    n <= |tasks| && forall i {:trigger tasks[i]} :: 0 <= i < n ==> ProvidedTo(tasks, i, |tasks[i].dependsOn|)
  }

  method Link(tasks: seq<Task>, byID: map<Name, Task>)
    returns (fault: Option<Fault>, indeg: map<Name, int>, dependents: Graph)
    requires WellNamed(tasks) && byID == ById(tasks)
    ensures fault.None? ==> Provided(tasks, |tasks|) && Linked(Edges(tasks), indeg, dependents)
    ensures fault.Some? ==> FirstMissing(tasks, fault.value)
  {
    indeg, dependents, fault := map[], map[], None;
    ByIdHas(tasks);
    assert Linked(map[], indeg, dependents);
    for i := 0 to |tasks|
      invariant fault.None? && Provided(tasks, i) && Linked(Edges(tasks[..i]), indeg, dependents)
    {
      fault, indeg, dependents := LinkTask(tasks, byID, i, indeg, dependents);
      if fault.Some? { return; }
    }
    assert tasks[..|tasks|] == tasks;
  }

  method LinkTask(tasks: seq<Task>, byID: map<Name, Task>, i: nat, indeg0: map<Name, int>, dependents0: Graph)
    returns (fault: Option<Fault>, indeg: map<Name, int>, dependents: Graph)
    requires WellNamed(tasks) && i < |tasks| && Provided(tasks, i) && Linked(Edges(tasks[..i]), indeg0, dependents0)
    requires forall id {:trigger id in byID} :: id in byID <==> id in Ids(tasks)
    ensures fault.None? ==> Provided(tasks, i + 1) && Linked(Edges(tasks[..i + 1]), indeg, dependents)
    ensures fault.Some? ==> FirstMissing(tasks, fault.value)
  {
    indeg, dependents, fault := indeg0, dependents0, None;
    var t := tasks[i];
    ghost var g := Edges(tasks[..i]);
    NotYet(tasks, i);
    for k := 0 to |t.dependsOn|
      invariant fault.None? && ProvidedTo(tasks, i, k) && Deps(g, t.id) == t.dependsOn[..k]
      invariant Linked(g, indeg, dependents) && g[t.id := []] == Edges(tasks[..i])[t.id := []]
    {
      var d := t.dependsOn[k];
      if d !in byID {
        fault := Some(MissingDep(t.id, d));
        assert MissingAt(tasks, fault.value, i, k);
        return;
      }
      LinkOne(g, indeg, dependents, t.id, d);
      g := Entered(g, t.id, d);
      indeg := indeg[t.id := Count(indeg, t.id) + 1];
      dependents := Entered(dependents, d, t.id);
    }
    EdgesMore(tasks, i, g);
    forall x ensures Deps(g, x) == Deps(Edges(tasks[..i + 1]), x) {}
  }

  lemma NotYet(tasks: seq<Task>, i: nat)
    requires WellNamed(tasks) && i < |tasks|
    ensures Deps(Edges(tasks[..i]), tasks[i].id) == []
  {
    ByIdHas(tasks[..i]);
    forall j | 0 <= j < i ensures Ids(tasks[..i])[j] != tasks[i].id {
      assert Ids(tasks)[j] != Ids(tasks)[i];
    }
  }

  lemma EdgesMore(tasks: seq<Task>, i: nat, g: Graph)
    requires i < |tasks| && Deps(g, tasks[i].id) == tasks[i].dependsOn
    requires g[tasks[i].id := []] == Edges(tasks[..i])[tasks[i].id := []]
    ensures forall x {:trigger Deps(g, x)} :: Deps(g, x) == Deps(Edges(tasks[..i + 1]), x)
  {
    assert tasks[..i + 1][..i] == tasks[..i];
    forall x ensures Deps(g, x) == Deps(Edges(tasks[..i + 1]), x) {
      if x != tasks[i].id {
        assert Deps(g, x) == Deps(g[tasks[i].id := []], x);
      }
    }
  }

  // Dependencies, with their repetitions, that are not yet done.
  function Outstanding(deps: seq<Name>, done: set<Name>): nat {
    if deps == [] then 0
    else
      var n := |deps| - 1;
      Outstanding(deps[..n], done) + if deps[n] in done then 0 else 1
  }

  lemma {:induction false} OutstandingFacts(deps: seq<Name>, done: set<Name>, d: Name)
    ensures Outstanding(deps, done) == 0 <==> Elems(deps) <= done
    ensures Outstanding(deps, {}) == |deps|
    ensures d !in done ==> Outstanding(deps, done + {d}) == Outstanding(deps, done) - Times(deps, d)
  {
    if deps != [] {
      var n := |deps| - 1;
      OutstandingFacts(deps[..n], done, d);
      assert deps == deps[..n] + [deps[n]];
      ElemsAppend(deps[..n], deps[n]);
    }
  }

  ghost predicate Waits(g: Graph, indeg: map<Name, int>, done: set<Name>) {
    forall t {:trigger Count(indeg, t)} :: Count(indeg, t) == Outstanding(Deps(g, t), done)
  }

  lemma FirstWaits(g: Graph, indeg: map<Name, int>, dependents: Graph)
    requires Linked(g, indeg, dependents)
    ensures Waits(g, indeg, {})
  {
    forall t ensures Count(indeg, t) == Outstanding(Deps(g, t), {}) {
      OutstandingFacts(Deps(g, t), {}, t);
    }
  }

  // id is done: everything waiting for it waits for that much less.
  method Release(ghost g: Graph, ghost all: map<Name, int>, dependents: Graph, id: Name, ghost done: set<Name>,
                 indeg0: map<Name, int>)
    returns (indeg: map<Name, int>)
    requires Linked(g, all, dependents) && Waits(g, indeg0, done) && id !in done
    ensures Waits(g, indeg, done + {id})
  {
    indeg := indeg0;
    var deps := Deps(dependents, id);
    assert multiset(deps[..0]) == multiset{};
    assert forall t :: Times(deps[..0], t) == 0;
    for k := 0 to |deps|
      invariant forall t {:trigger Count(indeg, t)} :: Count(indeg, t) == Count(indeg0, t) - Times(deps[..k], t)
    {
      assert deps[..k + 1] == deps[..k] + [deps[k]];
      ghost var was := indeg;
      indeg := indeg[deps[k] := Count(indeg, deps[k]) - 1];
      forall t ensures Count(indeg, t) == Count(indeg0, t) - Times(deps[..k + 1], t) {
        assert Count(was, t) == Count(indeg0, t) - Times(deps[..k], t);
      }
    }
    assert deps[..|deps|] == deps;
    forall t ensures Count(indeg, t) == Outstanding(Deps(g, t), done + {id}) {
      OutstandingFacts(Deps(g, t), done, id);
      assert Times(Deps(dependents, id), t) == Times(Deps(g, t), id);
    }
  }

  method ReleaseAll(ghost g: Graph, ghost all: map<Name, int>, dependents: Graph, ready: seq<Name>,
                    ghost done: set<Name>, indeg0: map<Name, int>)
    returns (indeg: map<Name, int>)
    requires Linked(g, all, dependents) && Waits(g, indeg0, done) && Distinct(ready) && Elems(ready) !! done
    ensures Waits(g, indeg, done + Elems(ready))
  {
    indeg := indeg0;
    assert done + Elems(ready[..0]) == done;
    for k := 0 to |ready|
      invariant Waits(g, indeg, done + Elems(ready[..k]))
    {
      ElemsAppend(ready[..k], ready[k]);
      assert ready[..k + 1] == ready[..k] + [ready[k]];
      assert ready[k] in Elems(ready);
      indeg := Release(g, all, dependents, ready[k], done + Elems(ready[..k]), indeg);
      assert done + Elems(ready[..k]) + {ready[k]} == done + Elems(ready[..k + 1]);
    }
    assert ready[..|ready|] == ready;
  }

  // ----- tiers -----

  // The tasks at level l, in request order.
  ghost function AtLevel(tasks: seq<Task>, lv: map<Name, nat>, l: nat): seq<Task> {
    if tasks == [] then []
    else
      var n := |tasks| - 1;
      AtLevel(tasks[..n], lv, l) + if tasks[n].id in lv && lv[tasks[n].id] == l then [tasks[n]] else []
  }

  // The tasks that can start now, in request order.
  ghost function Chosen(tasks: seq<Task>, pre: Needs<Name>, lv: map<Name, nat>): seq<Task> {
    if tasks == [] then []
    else
      var n := |tasks| - 1;
      Chosen(tasks[..n], pre, lv) + if Ready(pre, lv, tasks[n].id) then [tasks[n]] else []
  }

  lemma {:induction false} SameLevels(tasks: seq<Task>, lv: map<Name, nat>, ready: seq<Name>, level: nat, l: nat)
    requires l < level
    ensures AtLevel(tasks, Raised(lv, ready, level), l) == AtLevel(tasks, lv, l)
  {
    if tasks != [] {
      SameLevels(tasks[..|tasks| - 1], lv, ready, level, l);
    }
  }

  lemma {:induction false} ChosenIsLevel(tasks: seq<Task>, pre: Needs<Name>, lv: map<Name, nat>, ready: seq<Name>,
                                         level: nat)
    requires AllReady(pre, lv, ready) && forall x :: x in lv ==> lv[x] < level
    ensures AtLevel(tasks, Raised(lv, ready, level), level) == Chosen(tasks, pre, lv)
  {
    if tasks != [] {
      ChosenIsLevel(tasks[..|tasks| - 1], pre, lv, ready, level);
      var id := tasks[|tasks| - 1].id;
      assert id in ready <==> Ready(pre, lv, id);
    }
  }

  lemma {:induction false} ChosenHas(tasks: seq<Task>, pre: Needs<Name>, lv: map<Name, nat>)
    ensures forall x {:trigger x in Ids(Chosen(tasks, pre, lv))} ::
              x in Ids(Chosen(tasks, pre, lv)) <==> x in Ids(tasks) && Ready(pre, lv, x)
    ensures WellNamed(tasks) ==> Distinct(Ids(Chosen(tasks, pre, lv)))
    ensures forall i :: 0 <= i < |Chosen(tasks, pre, lv)| ==> Chosen(tasks, pre, lv)[i] in tasks
  {
    if tasks != [] {
      var n := |tasks| - 1;
      ChosenHas(tasks[..n], pre, lv);
      var c, c1, id := Chosen(tasks[..n], pre, lv), Chosen(tasks, pre, lv), tasks[n].id;
      assert Ids(tasks) == Ids(tasks[..n]) + [id];
      assert Ids(c1) == if Ready(pre, lv, id) then Ids(c) + [id] else Ids(c);
      forall x ensures x in Ids(c1) <==> x in Ids(tasks) && Ready(pre, lv, x) {
        assert x in Ids(c) <==> x in Ids(tasks[..n]) && Ready(pre, lv, x);
      }
      if WellNamed(tasks) {
        WellNamedPrefix(tasks, n);
        forall j | 0 <= j < n ensures Ids(tasks[..n])[j] != tasks[n].id {
          assert Ids(tasks)[j] != Ids(tasks)[n];
        }
        assert id !in Ids(c);
      }
    }
  }

  ghost predicate Flags(seen: map<Name, bool>, lv: map<Name, nat>) {
    forall x {:trigger x in lv} {:trigger x in seen} :: x in lv <==> x in seen && seen[x]
  }

  lemma StartsWhen(tasks: seq<Task>, seen: map<Name, bool>, indeg: map<Name, int>, lv: map<Name, nat>, k: nat)
    requires k < |tasks| && Flags(seen, lv) && Waits(Edges(tasks), indeg, lv.Keys)
    ensures var id := tasks[k].id;
            !(id in seen && seen[id]) && Count(indeg, id) == 0 <==> Ready(NeedsOf(tasks), lv, id)
  {
    var id := tasks[k].id;
    ByIdHas(tasks);
    assert Ids(tasks)[k] == id;
    assert id in ById(tasks);
    OutstandingFacts(Deps(Edges(tasks), id), lv.Keys, id);
  }

  // The ids whose dependencies are all in earlier tiers, in request order.
  method CollectReady(ghost tasks: seq<Task>, order: seq<Name>, seen: map<Name, bool>, indeg: map<Name, int>,
                      ghost pre: Needs<Name>, ghost lv: map<Name, nat>)
    returns (ready: seq<Name>)
    requires WellNamed(tasks) && order == Ids(tasks) && pre == NeedsOf(tasks)
    requires Flags(seen, lv) && Waits(Edges(tasks), indeg, lv.Keys)
    ensures AllReady(pre, lv, ready) && ready == Ids(Chosen(tasks, pre, lv))
  {
    ready := [];
    for k := 0 to |order|
      invariant ready == Ids(Chosen(tasks[..k], pre, lv))
    {
      var id := order[k];
      StartsWhen(tasks, seen, indeg, lv, k);
      assert tasks[..k + 1][..k] == tasks[..k];
      if !(id in seen && seen[id]) && Count(indeg, id) == 0 {
        ready := ready + [id];
        assert Chosen(tasks[..k + 1], pre, lv) == Chosen(tasks[..k], pre, lv) + [tasks[k]];
      }
    }
    assert tasks[..|tasks|] == tasks;
    ChosenHas(tasks, pre, lv);
    ByIdHas(tasks);
  }

  ghost predicate Built(tasks: seq<Task>, lv: map<Name, nat>, tiers: seq<Tier>) {
    forall l :: 0 <= l < |tiers| ==> tiers[l] == Tier(l, AtLevel(tasks, lv, l)) && tiers[l].tasks != []
  }

  lemma BuiltMore(tasks: seq<Task>, pre: Needs<Name>, lv: map<Name, nat>, tiers: seq<Tier>, ready: seq<Name>)
    requires Built(tasks, lv, tiers) && AllReady(pre, lv, ready) && ready == Ids(Chosen(tasks, pre, lv)) && ready != []
    requires forall x :: x in lv ==> lv[x] < |tiers|
    ensures Built(tasks, Raised(lv, ready, |tiers|), tiers + [Tier(|tiers|, Chosen(tasks, pre, lv))])
  {
    var n := |tiers|;
    ChosenIsLevel(tasks, pre, lv, ready, n);
    forall l | 0 <= l < n ensures AtLevel(tasks, Raised(lv, ready, n), l) == AtLevel(tasks, lv, l) {
      SameLevels(tasks, lv, ready, n, l);
    }
  }

  // A tier of the ready ids: each is marked seen and its task looked up.
  method TakeTier(ghost tasks: seq<Task>, byID: map<Name, Task>, level: nat, ready: seq<Name>, seen0: map<Name, bool>,
                  ghost pre: Needs<Name>, ghost lv: map<Name, nat>)
    returns (tier: Tier, seen: map<Name, bool>)
    requires WellNamed(tasks) && byID == ById(tasks) && ready == Ids(Chosen(tasks, pre, lv)) && Flags(seen0, lv)
    ensures tier == Tier(level, Chosen(tasks, pre, lv)) && Flags(seen, Raised(lv, ready, level))
  {
    ghost var chosen := Chosen(tasks, pre, lv);
    seen := seen0;
    var taken := [];
    ByIdHas(tasks);
    ChosenHas(tasks, pre, lv);
    for i := 0 to |ready|
      invariant taken == chosen[..i]
      invariant forall x {:trigger x in seen} :: (x in seen && seen[x]) <==> (x in lv || x in ready[..i])
    {
      assert chosen[i] in tasks && ready[i] == chosen[i].id;
      assert ready[..i + 1] == ready[..i] + [ready[i]];
      seen := seen[ready[i] := true];
      taken := taken + [byID[ready[i]]];
    }
    assert ready[..|ready|] == ready;
    tier := Tier(level, taken);
  }

  ghost predicate Valid(tasks: seq<Task>) {
    WellNamed(tasks) && Provided(tasks, |tasks|)
  }

  // Every task is at the level its dependencies put it at, and each tier lists one level in request order.
  ghost predicate Tiered(tasks: seq<Task>, lv: map<Name, nat>, tiers: seq<Tier>) {
    && lv.Keys == Elems(Ids(tasks)) && Rising(NeedsOf(tasks), lv, |tiers|) && Built(tasks, lv, tiers)
  }

  ghost predicate NamesCycle(tasks: seq<Task>, involved: seq<Name>) {
    && involved != [] && Sorted(involved) && Distinct(involved)
    && (forall x {:trigger x in involved} :: x in involved <==> x in Ids(tasks) && BehindCycle(Edges(tasks), x))
  }

  ghost predicate Verdict(tasks: seq<Task>, out: Outcome) {
    match out
    case Tiers(tiers) => Valid(tasks) && exists lv :: Tiered(tasks, lv, tiers)
    case Refused(Cycle(involved)) => Valid(tasks) && NamesCycle(tasks, involved)
    case Refused(MissingDep(t, d)) => WellNamed(tasks) && FirstMissing(tasks, out.fault)
    case Refused(fault) => BadName(tasks, fault)
  }

  lemma EdgesAgree(tasks: seq<Task>)
    ensures Agree(Edges(tasks), NeedsOf(tasks))
    ensures NeedsOf(tasks).Keys == Elems(Ids(tasks))
  {
    ByIdHas(tasks);
  }

  lemma NeedsAreTasks(tasks: seq<Task>, x: Name, y: Name)
    requires Valid(tasks) && In(NeedsOf(tasks), x, y)
    ensures y in NeedsOf(tasks)
  {
    ByIdHas(tasks);
    assert x in Ids(tasks);
    var i :| 0 <= i < |tasks| && Ids(tasks)[i] == x;
    assert tasks[i].id in ById(tasks);
    assert ProvidedTo(tasks, i, |tasks[i].dependsOn|);
  }

  // The ids never seen, sorted.
  method CollectStuck(ghost tasks: seq<Task>, order: seq<Name>, seen: map<Name, bool>, ghost lv: map<Name, nat>,
                      ghost level: nat)
    returns (stuck: seq<Name>)
    requires Valid(tasks) && order == Ids(tasks) && Flags(seen, lv) && Rising(NeedsOf(tasks), lv, level)
    requires AllReady(NeedsOf(tasks), lv, []) && |lv.Keys| < |tasks|
    ensures NamesCycle(tasks, stuck)
  {
    stuck := [];
    for k := 0 to |order|
      invariant (forall x {:trigger x in stuck} :: x in stuck <==> x in order[..k] && x !in lv) && Distinct(stuck)
    {
      var id := order[k];
      assert order[..k + 1] == order[..k] + [id];
      assert id !in order[..k];
      assert id !in stuck;
      if !(id in seen && seen[id]) {
        stuck := stuck + [id];
      }
    }
    assert order[..|order|] == order;
    ghost var left := stuck;
    stuck := Names.Sort(stuck);
    SameElements(stuck, left);
    StuckNames(tasks, lv, level, stuck);
  }

  lemma StuckNames(tasks: seq<Task>, lv: map<Name, nat>, level: nat, stuck: seq<Name>)
    requires Valid(tasks) && Rising(NeedsOf(tasks), lv, level) && AllReady(NeedsOf(tasks), lv, [])
             && |lv.Keys| < |tasks|
    requires forall x {:trigger x in stuck} :: x in stuck <==> x in Ids(tasks) && x !in lv
    ensures stuck != []
    ensures forall x {:trigger x in stuck} :: x in stuck <==> x in Ids(tasks) && BehindCycle(Edges(tasks), x)
  {
    forall x {:trigger x in stuck} | x in Ids(tasks) ensures x !in lv <==> BehindCycle(Edges(tasks), x) {
      StuckOrNot(tasks, lv, level, x);
    }
    var x := SomeUnplaced(tasks, lv);
    assert x in stuck;
  }

  lemma StuckOrNot(tasks: seq<Task>, lv: map<Name, nat>, level: nat, x: Name)
    requires Valid(tasks) && Rising(NeedsOf(tasks), lv, level) && AllReady(NeedsOf(tasks), lv, []) && x in Ids(tasks)
    ensures x !in lv <==> BehindCycle(Edges(tasks), x)
  {
    var pre := NeedsOf(tasks);
    EdgesAgree(tasks);
    forall y, z | In(pre, y, z) ensures z in pre { NeedsAreTasks(tasks, y, z); }
    forall i ensures !Ready(pre, lv, i) {
      var none: seq<Name> := [];
      assert i in none <==> Ready(pre, lv, i);
    }
    LeftIsBehindCycle(Edges(tasks), pre, lv, level, x);
  }

  lemma SomeUnplaced(tasks: seq<Task>, lv: map<Name, nat>) returns (x: Name)
    requires WellNamed(tasks) && |lv.Keys| < |tasks|
    ensures x in Ids(tasks) && x !in lv
  {
    var ids := Elems(Ids(tasks));
    DistinctSize(Ids(tasks));
    SubsetSize(ids, lv.Keys);
    x :| x in ids && x !in lv.Keys;
  }

  // Kahn's algorithm, tier by tier, until every task has one or none can start.
  method TiersOf(tasks: seq<Task>, byID: map<Name, Task>, order: seq<Name>, indeg0: map<Name, int>,
                 dependents: Graph) returns (out: Outcome)
    requires Valid(tasks) && byID == ById(tasks) && order == Ids(tasks) && Linked(Edges(tasks), indeg0, dependents)
    ensures Verdict(tasks, out) && (out.Tiers? || out.fault.Cycle?)
  {
    var indeg := indeg0;
    ghost var g, pre, lv: map<Name, nat> := Edges(tasks), NeedsOf(tasks), map[];
    FirstWaits(g, indeg, dependents);
    var tiers, remaining: int, seen: map<Name, bool>, level := [], |tasks|, map[], 0;
    assert lv.Keys == {};
    while remaining > 0
      invariant Waits(g, indeg, lv.Keys) && Flags(seen, lv)
      invariant Rising(pre, lv, level) && Built(tasks, lv, tiers) && |tiers| == level
      invariant remaining == |tasks| - |lv.Keys|
    {
      var ready := CollectReady(tasks, order, seen, indeg, pre, lv);
      if |ready| == 0 {
        var stuck := CollectStuck(tasks, order, seen, lv, level);
        return Refused(Cycle(stuck));
      }
      var tier;
      tier, seen := TakeTier(tasks, byID, level, ready, seen, pre, lv);
      remaining := remaining - |ready|;
      RaisedSize(pre, lv, ready, level);
      BuiltMore(tasks, pre, lv, tiers, ready);
      Raise(pre, lv, level, ready);
      indeg := ReleaseReady(g, pre, indeg0, dependents, ready, lv, level, indeg);
      lv := Raised(lv, ready, level);
      tiers := tiers + [tier];
      level := level + 1;
    }
    AllTiered(tasks, lv, tiers);
    out := Tiers(tiers);
  }

  method ReleaseReady(ghost g: Graph, ghost pre: Needs<Name>, ghost all: map<Name, int>, dependents: Graph,
                      ready: seq<Name>, ghost lv: map<Name, nat>, ghost level: nat, indeg0: map<Name, int>)
    returns (indeg: map<Name, int>)
    requires Linked(g, all, dependents) && Waits(g, indeg0, lv.Keys) && AllReady(pre, lv, ready)
    ensures Waits(g, indeg, Raised(lv, ready, level).Keys)
  {
    forall x | x in Elems(ready) ensures x !in lv.Keys { assert Ready(pre, lv, x); }
    indeg := ReleaseAll(g, all, dependents, ready, lv.Keys, indeg0);
    assert Raised(lv, ready, level).Keys == lv.Keys + Elems(ready);
  }

  lemma AllTiered(tasks: seq<Task>, lv: map<Name, nat>, tiers: seq<Tier>)
    requires Valid(tasks) && Rising(NeedsOf(tasks), lv, |tiers|) && Built(tasks, lv, tiers) && |lv.Keys| >= |tasks|
    ensures Tiered(tasks, lv, tiers)
  {
    EdgesAgree(tasks);
    DistinctSize(Ids(tasks));
    var ids := Elems(Ids(tasks));
    assert lv.Keys <= ids;
    assert ids == lv.Keys + (ids - lv.Keys);
  }

  method Sort(tasks: seq<Task>) returns (out: Outcome)
    ensures Verdict(tasks, out)
    ensures out.Tiers? <==> Valid(tasks) && Acyclic(Edges(tasks))
  {
    var fault, byID, order := Register(tasks);
    if fault.Some? {
      BadNameIsNot(tasks, fault.value);
      return Refused(fault.value);
    }
    var indeg, dependents;
    fault, indeg, dependents := Link(tasks, byID);
    if fault.Some? {
      return Refused(fault.value);
    }
    out := TiersOf(tasks, byID, order, indeg, dependents);
    VerdictIsExact(tasks, out);
  }

  lemma VerdictIsExact(tasks: seq<Task>, out: Outcome)
    requires Verdict(tasks, out) && Valid(tasks) && (out.Tiers? || out.fault.Cycle?)
    ensures out.Tiers? <==> Acyclic(Edges(tasks))
  {
    EdgesAgree(tasks);
    if out.Tiers? {
      var lv :| Tiered(tasks, lv, out.tiers);
      AllPlacedIsAcyclic(Edges(tasks), NeedsOf(tasks), lv, |out.tiers|);
    } else {
      var x := out.fault.involved[0];
      assert x in out.fault.involved;
      var c :| Reaches(Edges(tasks), x, c) && OnCycle(Edges(tasks), c);
    }
  }

  // ----- what the tiers mean -----

  lemma {:induction false} AtLevelHas(tasks: seq<Task>, lv: map<Name, nat>, l: nat, t: Task)
    ensures t in AtLevel(tasks, lv, l) <==> t in tasks && t.id in lv && lv[t.id] == l
  {
    if tasks != [] {
      var n := |tasks| - 1;
      AtLevelHas(tasks[..n], lv, l, t);
      assert tasks == tasks[..n] + [tasks[n]];
    }
  }

  // The tiers share the tasks out: each is in the tier of its level and in no other.
  lemma TiersPartition(tasks: seq<Task>, lv: map<Name, nat>, tiers: seq<Tier>, t: Task, l: nat)
    requires Tiered(tasks, lv, tiers) && l < |tiers|
    ensures t in tasks ==> t.id in lv && lv[t.id] < |tiers|
    ensures t in tiers[l].tasks <==> t in tasks && t.id in lv && lv[t.id] == l
  {
    AtLevelHas(tasks, lv, l, t);
    if t in tasks {
      var i :| 0 <= i < |tasks| && tasks[i] == t;
      assert Ids(tasks)[i] == t.id;
      assert t.id in Elems(Ids(tasks));
    }
  }

  // ----- the critical path -----

  // Prerequisites first: each name depends on the one before it.
  ghost predicate Chain(g: Graph, p: seq<Name>) {
    p != [] && forall i :: 0 < i < |p| ==> p[i - 1] in Deps(g, p[i])
  }

  // No chain ending in x is longer than n.
  ghost predicate Bounded(g: Graph, x: Name, n: int) {
    forall q {:trigger Chain(g, q)} :: Chain(g, q) && q[|q| - 1] == x ==> |q| <= n
  }

  ghost predicate LongestTo(g: Graph, p: seq<Name>, x: Name) {
    Chain(g, p) && p[|p| - 1] == x && Bounded(g, x, |p|)
  }

  lemma {:induction false} ChainRises(g: Graph, pre: Needs<Name>, lv: map<Name, nat>, l: nat, p: seq<Name>)
    requires Agree(g, pre) && Rising(pre, lv, l) && Chain(g, p) && p[|p| - 1] in lv
    ensures |p| <= lv[p[|p| - 1]] + 1
    decreases |p|
  {
    var n := |p| - 1;
    if n > 0 {
      assert p[n - 1] in Deps(g, p[n]);
      assert In(pre, p[n], p[n - 1]);
      ChainRises(g, pre, lv, l, p[..n]);
    }
  }

  lemma {:induction false} ChainOfLevel(g: Graph, pre: Needs<Name>, lv: map<Name, nat>, l: nat, x: Name)
    returns (p: seq<Name>)
    requires Agree(g, pre) && Rising(pre, lv, l) && x in lv
    ensures Chain(g, p) && p[|p| - 1] == x && |p| == lv[x] + 1
    decreases lv[x]
  {
    if lv[x] == 0 {
      p := [x];
    } else {
      assert HasBase(pre, lv, x);
      var y :| In(pre, x, y) && y in lv && lv[y] + 1 == lv[x];
      p := ChainOfLevel(g, pre, lv, l, y);
      assert y in Deps(g, x);
      p := p + [x];
    }
  }

  // A task's tier is the length of its longest chain of prerequisites.
  lemma TierIsLongestChain(tasks: seq<Task>, lv: map<Name, nat>, tiers: seq<Tier>, x: Name, p: seq<Name>)
    requires Tiered(tasks, lv, tiers) && x in lv && LongestTo(Edges(tasks), p, x)
    ensures |p| == lv[x] + 1
  {
    EdgesAgree(tasks);
    ChainRises(Edges(tasks), NeedsOf(tasks), lv, |tiers|, p);
    var q := ChainOfLevel(Edges(tasks), NeedsOf(tasks), lv, |tiers|, x);
  }

  // Every open name leads to x through a dependency.
  ghost predicate LeadsTo(g: Graph, open: set<Name>, x: Name) {
    forall o :: o in open ==> exists y :: y in Deps(g, o) && Reaches(g, y, x)
  }

  // Every remembered name that is not open has its longest chain.
  ghost predicate Remembers(g: Graph, memo: Graph, open: set<Name>) {
    forall x {:trigger x in memo} :: x in memo && x !in open ==> LongestTo(g, memo[x], x)
  }

  // best is the longest of the chains to the first k of deps.
  ghost predicate Best(g: Graph, deps: seq<Name>, k: nat, best: seq<Name>) {
    && k <= |deps|
    && (best == [] || exists j :: 0 <= j < k && LongestTo(g, best, deps[j]))
    && (forall j :: 0 <= j < k ==> Bounded(g, deps[j], |best|))
  }

  lemma BestMore(g: Graph, deps: seq<Name>, k: nat, best: seq<Name>, p: seq<Name>)
    requires Best(g, deps, k, best) && k < |deps| && LongestTo(g, p, deps[k])
    ensures Best(g, deps, k + 1, if |p| > |best| then p else best)
  {
    if |p| <= |best| && best != [] {
      var j :| 0 <= j < k && LongestTo(g, best, deps[j]);
      assert j < k + 1;
    }
  }

  lemma BestThenSelf(g: Graph, x: Name, best: seq<Name>)
    requires Best(g, Deps(g, x), |Deps(g, x)|, best)
    ensures LongestTo(g, best + [x], x)
  {
    var p := best + [x];
    forall q | Chain(g, q) && q[|q| - 1] == x ensures |q| <= |p| {
      if |q| > 1 {
        var r := q[..|q| - 1];
        var y := q[|q| - 2];
        assert y in Deps(g, x);
        var j :| 0 <= j < |Deps(g, x)| && Deps(g, x)[j] == y;
        assert Bounded(g, Deps(g, x)[j], |best|);
        assert Chain(g, r) && r[|r| - 1] == y;
      }
    }
  }

  lemma LeadsOn(g: Graph, open: set<Name>, x: Name, d: Name)
    requires LeadsTo(g, open, x) && d in Deps(g, x)
    ensures LeadsTo(g, open + {x}, d)
  {
    ReachesSelf(g, d);
    ReachesDep(g, x, d);
    forall o | o in open + {x} ensures exists y :: y in Deps(g, o) && Reaches(g, y, d) {
      if o in open {
        var y :| y in Deps(g, o) && Reaches(g, y, x);
        ReachesOn(g, y, x, d);
      }
    }
  }

  // The longest chain to id, remembering what is found. An empty entry guards a name still open.
  method Walk(g: Graph, id: Name, memo0: Graph, ghost open: set<Name>, ghost all: set<Name>)
    returns (path: seq<Name>, memo: Graph)
    requires Closed(g, all) && id in all && open <= memo0.Keys && LeadsTo(g, open, id)
    requires Acyclic(g) ==> Remembers(g, memo0, open)
    ensures memo0.Keys <= memo.Keys
    ensures Acyclic(g) ==> Remembers(g, memo, open) && LongestTo(g, path, id)
    decreases |all - memo0.Keys|
  {
    if id in memo0 {
      assert id in open ==> OnCycle(g, id);
      return memo0[id], memo0;
    }
    memo := memo0[id := []];
    assert all - memo0.Keys == (all - memo.Keys) + {id};
    var best: seq<Name> := [];
    var deps := Deps(g, id);
    for k := 0 to |deps|
      invariant memo0.Keys + {id} <= memo.Keys
      invariant Acyclic(g) ==> Remembers(g, memo, open + {id}) && Best(g, deps, k, best)
    {
      LeadsOn(g, open, id, deps[k]);
      SubsetSize(all - memo.Keys, all - memo0.Keys - {id});
      var p;
      p, memo := Walk(g, deps[k], memo, open + {id}, all);
      if Acyclic(g) { BestMore(g, deps, k, best, p); }
      if |p| > |best| {
        best := p;
      }
    }
    path := best + [id];
    memo := memo[id := path];
    if Acyclic(g) { BestThenSelf(g, id, best); }
  }

  // The longest chain among the tasks.
  ghost predicate Critical(g: Graph, ids: seq<Name>, path: seq<Name>) {
    && (path == [] <==> ids == [])
    && (path != [] ==> Chain(g, path) && path[|path| - 1] in ids)
    && (forall x :: x in ids ==> Bounded(g, x, |path|))
  }

  lemma CriticalMore(g: Graph, ids: seq<Name>, x: Name, longest: seq<Name>, p: seq<Name>)
    requires Critical(g, ids, longest) && LongestTo(g, p, x)
    ensures Critical(g, ids + [x], if |p| > |longest| then p else longest)
  {}

  method EdgesOf(tasks: seq<Task>) returns (g: Graph)
    ensures g == Edges(tasks)
  {
    g := map[];
    for i := 0 to |tasks|
      invariant g == Edges(tasks[..i])
    {
      assert tasks[..i + 1][..i] == tasks[..i];
      g := g[tasks[i].id := tasks[i].dependsOn];
    }
    assert tasks[..|tasks|] == tasks;
  }

  method CriticalPath(tasks: seq<Task>) returns (longest: seq<Name>)
    ensures Acyclic(Edges(tasks)) ==> Critical(Edges(tasks), Ids(tasks), longest)
  {
    var g := EdgesOf(tasks);
    ghost var ids := Ids(tasks);
    ghost var all := Elems(ids) + Mentioned(g);
    var memo: Graph := map[];
    longest := [];
    for i := 0 to |tasks|
      invariant Acyclic(g) ==> Remembers(g, memo, {}) && Critical(g, ids[..i], longest)
    {
      var p;
      assert ids[i] in Elems(ids);
      p, memo := Walk(g, tasks[i].id, memo, {}, all);
      assert ids[..i + 1] == ids[..i] + [ids[i]];
      if Acyclic(g) { CriticalMore(g, ids[..i], ids[i], longest, p); }
      if |p| > |longest| {
        longest := p;
      }
    }
    assert ids[..|ids|] == ids;
  }

  // The critical path is as long as there are tiers.
  lemma CriticalPathCountsTiers(tasks: seq<Task>, lv: map<Name, nat>, tiers: seq<Tier>, path: seq<Name>)
    requires Tiered(tasks, lv, tiers) && Critical(Edges(tasks), Ids(tasks), path)
    ensures |path| == |tiers|
  {
    var g, pre := Edges(tasks), NeedsOf(tasks);
    EdgesAgree(tasks);
    if path != [] {
      assert path[|path| - 1] in Elems(Ids(tasks));
      ChainRises(g, pre, lv, |tiers|, path);
    }
    if tiers != [] {
      var l := |tiers| - 1;
      var t := tiers[l].tasks[0];
      TiersPartition(tasks, lv, tiers, t, l);
      assert t.id in Elems(Ids(tasks));
      var q := ChainOfLevel(g, pre, lv, |tiers|, t.id);
      assert Bounded(g, t.id, |path|);
    }
  }
}
