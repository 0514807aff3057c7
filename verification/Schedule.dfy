// The concurrent scheduler as a transition system: tasks are launched when their last prerequisite
// succeeds, pass a semaphore, and succeed or fail; a failure blocks everything behind it.
module Schedules {
  import opened Sequences
  import opened Names
  import opened Digraphs
  import opened Ranks
  import opened TaskGraphs

  // What the executor gives back for a task and the texts of its prerequisites.
  datatype Answer = Text(text: string) | Error(err: string)

  type Executor = (Task, map<Name, string>) -> Answer

  datatype End = Succeeded(text: string) | Failed(err: string) | Blocked(cause: Name)

  datatype TaskResult = TaskResult(task: Task, tier: nat, end: End)

  // ----- what every run must come to -----

  // What a task comes to when the graph is evaluated one task at a time.
  datatype Fate = Done(text: string) | Fails(err: string) | Stopped

  type Fates = Name -> Fate

  ghost predicate AllDone(fate: Fates, deps: seq<Name>) {
    forall d :: d in deps ==> fate(d).Done?
  }

  ghost function Texts(fate: Fates, deps: seq<Name>): map<Name, string>
    requires AllDone(fate, deps)
  {
    map d | d in deps :: fate(d).text
  }

  ghost function Asked(a: Answer): Fate {
    match a
    case Text(t) => Done(t)
    case Error(e) => Fails(e)
  }

  // A task runs on its prerequisites' texts if they all succeed and does not run otherwise.
  ghost predicate Follows(byID: map<Name, Task>, exec: Executor, fate: Fates, x: Name) {
    x in byID ==>
      fate(x) == if AllDone(fate, byID[x].dependsOn) then Asked(exec(byID[x], Texts(fate, byID[x].dependsOn)))
      else Stopped
  }

  ghost predicate Evaluates(byID: map<Name, Task>, exec: Executor, fate: Fates) {
    forall x {:trigger Follows(byID, exec, fate, x)} :: Follows(byID, exec, fate, x)
  }

  // c is a prerequisite of x, directly or through others.
  ghost predicate Behind(g: Graph, x: Name, c: Name) {
    exists y :: y in Deps(g, x) && Reaches(g, y, c)
  }

  lemma BehindDep(g: Graph, x: Name, d: Name)
    requires d in Deps(g, x)
    ensures Behind(g, x, d)
  {
    ReachesSelf(g, d);
  }

  lemma BehindOn(g: Graph, x: Name, d: Name, c: Name)
    requires d in Deps(g, x) && Behind(g, d, c)
    ensures Behind(g, x, c)
  {
    var y :| y in Deps(g, d) && Reaches(g, y, c);
    ReachesDep(g, d, y);
    ReachesOn(g, d, y, c);
  }

  // ----- a moment of a run -----

  datatype Moment = Moment(results: map<Name, End>, outputs: map<Name, string>, pending: map<Name, int>,
                           ready: seq<Name>, waiting: map<Name, map<Name, string>>,
                           executing: map<Name, map<Name, string>>)

  // A result is the task's fate, and a blocked task names a failed prerequisite.
  ghost predicate Right(g: Graph, fate: Fates, results: map<Name, End>, x: Name) {
    x in results ==>
      match results[x]
      case Succeeded(t) => fate(x) == Done(t)
      case Failed(e) => fate(x) == Fails(e)
      case Blocked(c) => fate(x) == Stopped && Behind(g, x, c) && c in results && results[c].Failed?
  }

  ghost predicate AllRight(g: Graph, fate: Fates, results: map<Name, End>) {
    forall x {:trigger Right(g, fate, results, x)} :: Right(g, fate, results, x)
  }

  // The outputs are the texts of the tasks that succeeded.
  ghost predicate Kept(m: Moment) {
    forall x {:trigger x in m.outputs} {:trigger x in m.results} ::
      && (x in m.outputs <==> x in m.results && m.results[x].Succeeded?)
      && (x in m.outputs ==> m.results[x] == Succeeded(m.outputs[x]))
  }

  // Everything that depends on d has its result.
  ghost predicate Heard(g: Graph, d: Name, results: map<Name, End>) {
    forall t {:trigger d in Deps(g, t)} :: d in Deps(g, t) ==> t in results
  }

  // Whatever depends on a task that did not succeed has its result.
  ghost predicate Settled(g: Graph, results: map<Name, End>, d: Name) {
    d in results && !results[d].Succeeded? ==> Heard(g, d, results)
  }

  ghost predicate AllSettled(g: Graph, results: map<Name, End>) {
    forall d {:trigger Settled(g, results, d)} :: Settled(g, results, d)
  }

  // x has no result yet and everything it needs is there.
  ghost predicate Startable(g: Graph, m: Moment, x: Name) {
    x in g && x !in m.results && Elems(Deps(g, x)) <= m.outputs.Keys
  }

  // A launched task holds exactly its prerequisites' texts.
  ghost predicate InFlight(g: Graph, m: Moment, flight: map<Name, map<Name, string>>) {
    forall x {:trigger x in flight} :: x in flight ==> Startable(g, m, x) && flight[x] == Inputs(m.outputs, Deps(g, x))
  }

  function Inputs(outputs: map<Name, string>, deps: seq<Name>): map<Name, string> {
    map d | d in deps :: if d in outputs then outputs[d] else ""
  }

  ghost predicate Queued(g: Graph, m: Moment) {
    && Distinct(m.ready)
    && (forall x {:trigger x in m.ready} :: x in m.ready ==> Startable(g, m, x) && x !in m.waiting && x !in m.executing)
  }

  // Nothing that could start is forgotten.
  ghost predicate Covered(g: Graph, m: Moment) {
    forall x {:trigger Startable(g, m, x)} :: Startable(g, m, x) ==> x in m.ready || x in m.waiting || x in m.executing
  }

  // No task ran before all its prerequisites had succeeded.
  ghost predicate RanAfter(g: Graph, m: Moment) {
    forall x {:trigger x in m.results} ::
      x in m.results && !m.results[x].Blocked? ==> Elems(Deps(g, x)) <= m.outputs.Keys
  }

  ghost predicate Inv(g: Graph, fate: Fates, m: Moment) {
    && RanAfter(g, m)
    && AllRight(g, fate, m.results) && Kept(m) && AllSettled(g, m.results) && m.results.Keys <= g.Keys
    && Waits(g, m.pending, m.outputs.Keys)
    && InFlight(g, m, m.waiting) && InFlight(g, m, m.executing) && m.waiting.Keys !! m.executing.Keys
    && Queued(g, m) && Covered(g, m)
  }

  // ----- what a launched task comes to -----

  // The graph, its tasks, the executor and the fates belong together.
  ghost predicate Setting(tasks: seq<Task>, exec: Executor, g: Graph, fate: Fates) {
    g == Edges(tasks) && Evaluates(ById(tasks), exec, fate)
  }

  lemma FateOf(tasks: seq<Task>, exec: Executor, g: Graph, fate: Fates, x: Name)
    requires Setting(tasks, exec, g, fate) && x in g
    ensures x in ById(tasks) && Deps(g, x) == ById(tasks)[x].dependsOn
    ensures fate(x) == if AllDone(fate, Deps(g, x)) then Asked(exec(ById(tasks)[x], Texts(fate, Deps(g, x))))
                       else Stopped
  {
    assert Follows(ById(tasks), exec, fate, x);
  }

  lemma OutputIsFate(g: Graph, fate: Fates, m: Moment, d: Name)
    requires AllRight(g, fate, m.results) && Kept(m) && d in m.outputs
    ensures fate(d) == Done(m.outputs[d])
  {
    assert Right(g, fate, m.results, d);
  }

  // Everything a startable task needs is done, and its inputs are its prerequisites' texts.
  lemma StartableIsDone(g: Graph, fate: Fates, m: Moment, x: Name)
    requires AllRight(g, fate, m.results) && Kept(m) && Elems(Deps(g, x)) <= m.outputs.Keys
    ensures AllDone(fate, Deps(g, x)) && Texts(fate, Deps(g, x)) == Inputs(m.outputs, Deps(g, x))
  {
    forall d | d in Deps(g, x) ensures d in m.outputs && fate(d) == Done(m.outputs[d]) {
      assert d in Elems(Deps(g, x));
      OutputIsFate(g, fate, m, d);
    }
  }

  lemma LaunchedFate(tasks: seq<Task>, exec: Executor, g: Graph, fate: Fates, m: Moment, x: Name)
    requires Setting(tasks, exec, g, fate) && AllRight(g, fate, m.results) && Kept(m)
    requires x in g && Elems(Deps(g, x)) <= m.outputs.Keys
    ensures x in ById(tasks) && fate(x) == Asked(exec(ById(tasks)[x], Inputs(m.outputs, Deps(g, x))))
  {
    StartableIsDone(g, fate, m, x);
    FateOf(tasks, exec, g, fate, x);
  }

  // What lies behind something that is not done does not run.
  lemma {:induction false} BehindIsStopped(tasks: seq<Task>, exec: Executor, g: Graph, fate: Fates, x: Name, c: Name)
    requires Setting(tasks, exec, g, fate) && Behind(g, x, c) && !fate(c).Done?
    ensures fate(x) == Stopped
  {
    var y :| y in Deps(g, x) && Reaches(g, y, c);
    var p :| Path(g, p) && p[0] == y && p[|p| - 1] == c;
    PathIsStopped(tasks, exec, g, fate, [x] + p);
  }

  lemma {:induction false} PathIsStopped(tasks: seq<Task>, exec: Executor, g: Graph, fate: Fates, p: seq<Name>)
    requires Setting(tasks, exec, g, fate) && Path(g, p) && |p| > 1 && !fate(p[|p| - 1]).Done?
    ensures fate(p[0]) == Stopped
    decreases |p|
  {
    assert p[1] in Deps(g, p[0]);
    if |p| > 2 {
      var q := p[1..];
      forall i | 0 < i < |q| ensures q[i] in Deps(g, q[i - 1]) { assert q[i] == p[i + 1] && q[i - 1] == p[i]; }
      PathIsStopped(tasks, exec, g, fate, q);
    }
    FateOf(tasks, exec, g, fate, p[0]);
  }

  // ----- a failure blocks what is behind it -----

  ghost predicate Turned(g: Graph, dependents: Graph) {
    forall d, t {:trigger t in Deps(dependents, d)} {:trigger d in Deps(g, t)} ::
      t in Deps(dependents, d) <==> d in Deps(g, t)
  }

  lemma LinkedIsTurned(g: Graph, indeg: map<Name, int>, dependents: Graph)
    requires Linked(g, indeg, dependents)
    ensures Turned(g, dependents)
  {
    forall d, t ensures t in Deps(dependents, d) <==> d in Deps(g, t) {
      assert Times(Deps(dependents, d), t) == Times(Deps(g, t), d);
    }
  }

  ghost predicate Extends(before: map<Name, End>, after: map<Name, End>) {
    forall x {:trigger x in before} {:trigger x in after} :: x in before ==> x in after && after[x] == before[x]
  }

  // The results added are blocks behind id, and whatever depends on one of them has its result.
  ghost predicate BlockedBehind(g: Graph, id: Name, cause: Name, before: map<Name, End>, after: map<Name, End>,
                                x: Name) {
    x in after && x !in before ==>
      x in g && after[x] == Blocked(cause) && Behind(g, x, id) && Heard(g, x, after)
  }

  ghost predicate Spread(g: Graph, id: Name, cause: Name, before: map<Name, End>, after: map<Name, End>) {
    && Extends(before, after)
    && forall x {:trigger BlockedBehind(g, id, cause, before, after, x)} ::
         BlockedBehind(g, id, cause, before, after, x)
  }

  lemma SpreadOn(g: Graph, id: Name, cause: Name, before: map<Name, End>, mid: map<Name, End>, dep: Name,
                 after: map<Name, End>)
    requires Spread(g, id, cause, before, mid) && id in Deps(g, dep) && dep !in mid
    requires Spread(g, dep, cause, mid[dep := Blocked(cause)], after) && Heard(g, dep, after)
    ensures Spread(g, id, cause, before, after)
  {
    forall x ensures BlockedBehind(g, id, cause, before, after, x) {
      if x in after && x !in before {
        if x in mid {
          assert BlockedBehind(g, id, cause, before, mid, x);
        } else if x == dep {
          BehindDep(g, dep, id);
        } else {
          assert BlockedBehind(g, dep, cause, mid[dep := Blocked(cause)], after, x);
          BehindThrough(g, x, dep, id);
        }
      }
    }
  }

  lemma BehindThrough(g: Graph, x: Name, d: Name, c: Name)
    requires Behind(g, x, d) && c in Deps(g, d)
    ensures Behind(g, x, c)
  {
    var y :| y in Deps(g, x) && Reaches(g, y, d);
    ReachesDep(g, d, c);
    ReachesOn(g, y, d, c);
  }

  // The first k dependents have their results.
  ghost predicate HeardBy(deps: seq<Name>, k: nat, results: map<Name, End>) {
    k <= |deps| && forall j {:trigger deps[j]} :: 0 <= j < k ==> deps[j] in results
  }

  lemma HeardOn(deps: seq<Name>, k: nat, before: map<Name, End>, after: map<Name, End>)
    requires HeardBy(deps, k, before) && Extends(before, after) && k < |deps| && deps[k] in after
    ensures HeardBy(deps, k + 1, after)
  {}

  lemma HeardAll(g: Graph, dependents: Graph, id: Name, results: map<Name, End>)
    requires Turned(g, dependents) && HeardBy(Deps(dependents, id), |Deps(dependents, id)|, results)
    ensures Heard(g, id, results)
  {}

  method BlockAll(ghost g: Graph, dependents: Graph, id: Name, cause: Name, results0: map<Name, End>)
    returns (results: map<Name, End>)
    requires Turned(g, dependents)
    ensures Spread(g, id, cause, results0, results) && Heard(g, id, results)
    decreases |g.Keys - results0.Keys|
  {
    results := results0;
    var deps := Deps(dependents, id);
    for k := 0 to |deps|
      invariant Spread(g, id, cause, results0, results) && HeardBy(deps, k, results)
    {
      var dep := deps[k];
      assert dep in Deps(dependents, id);
      ghost var mid := results;
      if dep !in results {
        results := results[dep := Blocked(cause)];
        Shrinks(g.Keys, results0.Keys, mid.Keys, dep);
        assert results.Keys == mid.Keys + {dep};
        results := BlockAll(g, dependents, dep, cause, results);
        SpreadOn(g, id, cause, results0, mid, dep, results);
        ExtendsOn(mid, dep, Blocked(cause), results);
      }
      HeardOn(deps, k, mid, results);
    }
    HeardAll(g, dependents, id, results);
  }

  lemma ExtendsOn(mid: map<Name, End>, dep: Name, end: End, after: map<Name, End>)
    requires dep !in mid && Extends(mid[dep := end], after)
    ensures Extends(mid, after) && dep in after
  {
    assert dep in mid[dep := end];
    forall x | x in mid ensures x in after && after[x] == mid[x] {
      assert x in mid[dep := end];
    }
  }

  lemma Shrinks(all: set<Name>, before: set<Name>, mid: set<Name>, dep: Name)
    requires before <= mid && dep in all && dep !in mid
    ensures |all - (mid + {dep})| < |all - before|
  {
    SubsetSize(all - (mid + {dep}), all - before - {dep});
  }

  // ----- steps -----

  // The next ready task is launched with the texts of its prerequisites.
  ghost function Launched(g: Graph, m: Moment): Moment
    requires m.ready != []
  {
    var id := m.ready[0];
    m.(ready := m.ready[1..], waiting := m.waiting[id := Inputs(m.outputs, Deps(g, id))])
  }

  lemma LaunchKeeps(g: Graph, fate: Fates, m: Moment)
    requires Inv(g, fate, m) && m.ready != []
    ensures Inv(g, fate, Launched(g, m)) && m.ready[0] !in m.results && m.ready[0] in g
    ensures m.ready[0] !in m.waiting && m.ready[0] !in m.executing
  {
    var id, n := m.ready[0], Launched(g, m);
    assert id in m.ready && Startable(g, m, id);
    forall x ensures x in n.ready <==> x in m.ready && x != id {
      assert m.ready == [id] + n.ready;
    }
    forall x ensures Startable(g, n, x) <==> Startable(g, m, x) {}
    LaunchCovers(g, m);
  }

  lemma LaunchCovers(g: Graph, m: Moment)
    requires m.ready != [] && Covered(g, m)
    ensures Covered(g, Launched(g, m))
  {
    var id, n := m.ready[0], Launched(g, m);
    forall x | Startable(g, n, x) ensures x in n.ready || x in n.waiting || x in n.executing {
      assert Startable(g, m, x);
      assert m.ready == [id] + n.ready;
    }
  }

  // A launched task passes the semaphore.
  ghost function Acquired(m: Moment, id: Name): Moment
    requires id in m.waiting
  {
    m.(waiting := m.waiting - {id}, executing := m.executing[id := m.waiting[id]])
  }

  lemma AcquireKeeps(g: Graph, fate: Fates, m: Moment, id: Name)
    requires Inv(g, fate, m) && id in m.waiting
    ensures Inv(g, fate, Acquired(m, id))
  {
    var n := Acquired(m, id);
    forall x ensures Startable(g, n, x) <==> Startable(g, m, x) {}
    assert id in m.waiting && Startable(g, m, id);
  }

  // A task succeeds: its text is out, and what waited for it alone is ready.
  ghost function SucceededTo(m: Moment, id: Name, text: string, pending: map<Name, int>, added: seq<Name>): Moment {
    m.(results := m.results[id := Succeeded(text)], outputs := m.outputs[id := text], pending := pending,
    ready := m.ready + added, executing := m.executing - {id})
  }

  // The names among those that depend on id whose last prerequisite it was.
  ghost predicate Freed(g: Graph, id: Name, pending: map<Name, int>, added: seq<Name>) {
    Distinct(added) && forall x {:trigger x in added} :: x in added <==> id in Deps(g, x) && Count(pending, x) == 0
  }

  lemma SucceedIsRight(g: Graph, fate: Fates, results: map<Name, End>, id: Name, text: string)
    requires AllRight(g, fate, results) && AllSettled(g, results) && id !in results && fate(id) == Done(text)
    ensures AllRight(g, fate, results[id := Succeeded(text)]) && AllSettled(g, results[id := Succeeded(text)])
  {
    var after := results[id := Succeeded(text)];
    forall x ensures Right(g, fate, after, x) {
      assert Right(g, fate, results, x);
    }
    forall d ensures Settled(g, after, d) {
      assert Settled(g, results, d);
    }
  }

  lemma SucceedIsKept(g: Graph, m: Moment, id: Name, text: string, pending: map<Name, int>, added: seq<Name>)
    requires Kept(m) && RanAfter(g, m) && Startable(g, m, id)
    ensures var n := SucceededTo(m, id, text, pending, added); Kept(n) && RanAfter(g, n)
  {}

  // What is startable once id is out either was startable before or waited for id.
  lemma StartableAfter(tasks: seq<Task>, exec: Executor, g: Graph, fate: Fates, m: Moment, id: Name, text: string,
                       pending: map<Name, int>, added: seq<Name>, x: Name)
    requires Setting(tasks, exec, g, fate) && Inv(g, fate, m) && id in m.executing && fate(id).Done?
    requires Waits(g, pending, m.outputs.Keys + {id}) && Freed(g, id, pending, added)
    ensures var n := SucceededTo(m, id, text, pending, added);
            && (Startable(g, m, x) && x != id ==> Startable(g, n, x) && id !in Deps(g, x) && x !in added)
            && (Startable(g, n, x) && !Startable(g, m, x) ==> x in added)
            && (x in added ==> Startable(g, n, x) && !Startable(g, m, x))
            && (Startable(g, n, x) ==> x != id)
  {
    assert id in m.executing && Startable(g, m, id);
    var n := SucceededTo(m, id, text, pending, added);
    assert n.outputs.Keys == m.outputs.Keys + {id};
    assert Count(pending, x) == Outstanding(Deps(g, x), m.outputs.Keys + {id});
    OutstandingFacts(Deps(g, x), m.outputs.Keys + {id}, x);
    assert id in Deps(g, x) <==> id in Elems(Deps(g, x));
    if id in Deps(g, x) && x in m.results && Count(pending, x) == 0 {
      FreedHasNoResult(tasks, exec, g, fate, m, id, x);
    }
  }

  // A result for something that waits for id would be too early, and nothing blocks it.
  lemma FreedHasNoResult(tasks: seq<Task>, exec: Executor, g: Graph, fate: Fates, m: Moment, id: Name, x: Name)
    requires Setting(tasks, exec, g, fate) && AllRight(g, fate, m.results) && Kept(m) && RanAfter(g, m)
             && m.results.Keys <= g.Keys
    requires id !in m.results && fate(id).Done?
    requires id in Deps(g, x) && Elems(Deps(g, x)) <= m.outputs.Keys + {id}
    ensures x !in m.results
  {
    forall d | d in Deps(g, x) ensures fate(d).Done? {
      assert d in Elems(Deps(g, x));
      if d != id { OutputIsFate(g, fate, m, d); }
    }
    if x in g { FateOf(tasks, exec, g, fate, x); }
    assert Right(g, fate, m.results, x);
    assert id in Elems(Deps(g, x));
  }

  lemma SucceedFlight(tasks: seq<Task>, exec: Executor, g: Graph, fate: Fates, m: Moment, id: Name, text: string,
                      pending: map<Name, int>, added: seq<Name>,
                      flight: map<Name, map<Name, string>>)
    requires Setting(tasks, exec, g, fate) && Inv(g, fate, m) && id in m.executing && fate(id).Done?
    requires Waits(g, pending, m.outputs.Keys + {id}) && Freed(g, id, pending, added)
    requires InFlight(g, m, flight) && id !in flight
    ensures InFlight(g, SucceededTo(m, id, text, pending, added), flight)
  {
    var n := SucceededTo(m, id, text, pending, added);
    forall x | x in flight ensures Startable(g, n, x) && flight[x] == Inputs(n.outputs, Deps(g, x)) {
      StartableAfter(tasks, exec, g, fate, m, id, text, pending, added, x);
      assert Startable(g, m, x);
    }
  }

  lemma SucceedFlights(tasks: seq<Task>, exec: Executor, g: Graph, fate: Fates, m: Moment, id: Name, text: string,
                       pending: map<Name, int>, added: seq<Name>)
    requires Setting(tasks, exec, g, fate) && Inv(g, fate, m) && id in m.executing && fate(id).Done?
    requires Waits(g, pending, m.outputs.Keys + {id}) && Freed(g, id, pending, added)
    ensures var n := SucceededTo(m, id, text, pending, added);
            InFlight(g, n, n.waiting) && InFlight(g, n, n.executing) && n.waiting.Keys !! n.executing.Keys
  {
    SucceedFlight(tasks, exec, g, fate, m, id, text, pending, added, m.waiting);
    forall x | x in (m.executing - {id}).Keys ensures x in m.executing {}
    SucceedFlight(tasks, exec, g, fate, m, id, text, pending, added, m.executing - {id});
  }

  lemma SucceedQueues(tasks: seq<Task>, exec: Executor, g: Graph, fate: Fates, m: Moment, id: Name, text: string,
                      pending: map<Name, int>, added: seq<Name>)
    requires Setting(tasks, exec, g, fate) && Inv(g, fate, m) && id in m.executing && fate(id).Done?
    requires Waits(g, pending, m.outputs.Keys + {id}) && Freed(g, id, pending, added)
    ensures var n := SucceededTo(m, id, text, pending, added); Queued(g, n) && Covered(g, n)
  {
    var n := SucceededTo(m, id, text, pending, added);
    forall x | x in n.ready ensures Startable(g, n, x) && x !in n.waiting && x !in n.executing {
      StartableAfter(tasks, exec, g, fate, m, id, text, pending, added, x);
      assert x in m.ready || x in added;
    }
    forall x | Startable(g, n, x) ensures x in n.ready || x in n.waiting || x in n.executing {
      StartableAfter(tasks, exec, g, fate, m, id, text, pending, added, x);
      assert x in added ==> x in n.ready;
      assert x in m.ready ==> x in n.ready;
    }
    forall x | x in m.ready ensures x !in added {
      StartableAfter(tasks, exec, g, fate, m, id, text, pending, added, x);
      assert Startable(g, m, x);
    }
    DistinctConcat(m.ready, added);
  }

  lemma SucceedSettles(tasks: seq<Task>, exec: Executor, g: Graph, fate: Fates, m: Moment, id: Name, text: string,
                       pending: map<Name, int>, added: seq<Name>)
    requires Setting(tasks, exec, g, fate) && Inv(g, fate, m) && id in m.executing && fate(id) == Done(text)
    ensures var n := SucceededTo(m, id, text, pending, added);
            && RanAfter(g, n) && Kept(n) && AllRight(g, fate, n.results) && AllSettled(g, n.results)
            && n.results.Keys <= g.Keys && n.outputs.Keys == m.outputs.Keys + {id}
  {
    assert Startable(g, m, id);
    SucceedIsRight(g, fate, m.results, id, text);
    SucceedIsKept(g, m, id, text, pending, added);
  }

  lemma SucceedKeeps(tasks: seq<Task>, exec: Executor, g: Graph, fate: Fates, m: Moment, id: Name, text: string,
                     pending: map<Name, int>, added: seq<Name>)
    requires Setting(tasks, exec, g, fate) && Inv(g, fate, m) && id in m.executing && fate(id) == Done(text)
    requires Waits(g, pending, m.outputs.Keys + {id}) && Freed(g, id, pending, added)
    ensures Inv(g, fate, SucceededTo(m, id, text, pending, added))
  {
    SucceedSettles(tasks, exec, g, fate, m, id, text, pending, added);
    SucceedFlights(tasks, exec, g, fate, m, id, text, pending, added);
    SucceedQueues(tasks, exec, g, fate, m, id, text, pending, added);
  }

  // A task fails: everything behind it is blocked.
  ghost function FailedTo(m: Moment, id: Name, results: map<Name, End>): Moment {
    m.(results := results, executing := m.executing - {id})
  }

  ghost predicate FailureSpread(g: Graph, m: Moment, id: Name, err: string, results: map<Name, End>) {
    Spread(g, id, id, m.results[id := Failed(err)], results) && Heard(g, id, results)
  }

  lemma FailIsRight(tasks: seq<Task>, exec: Executor, g: Graph, fate: Fates, m: Moment, id: Name, err: string,
                    results: map<Name, End>)
    requires Setting(tasks, exec, g, fate) && Inv(g, fate, m) && id in m.executing && fate(id) == Fails(err)
    requires FailureSpread(g, m, id, err, results)
    ensures AllRight(g, fate, results)
  {
    var mid := m.results[id := Failed(err)];
    assert Startable(g, m, id);
    assert id in mid;
    forall x ensures Right(g, fate, results, x) {
      assert Right(g, fate, m.results, x);
      if x in results && x !in mid {
        assert BlockedBehind(g, id, id, mid, results, x);
        BehindIsStopped(tasks, exec, g, fate, x, id);
      } else if x in m.results && m.results[x].Blocked? {
        assert m.results[x].cause in mid;
      }
    }
  }

  lemma FailSettles(g: Graph, fate: Fates, m: Moment, id: Name, err: string, results: map<Name, End>)
    requires Inv(g, fate, m) && id in m.executing && FailureSpread(g, m, id, err, results)
    ensures AllSettled(g, results) && results.Keys <= g.Keys
  {
    var mid := m.results[id := Failed(err)];
    assert Startable(g, m, id);
    forall d ensures Settled(g, results, d) {
      assert Settled(g, m.results, d);
      assert BlockedBehind(g, id, id, mid, results, d);
      if d in m.results && !m.results[d].Succeeded? {
        forall t | d in Deps(g, t) ensures t in results { assert t in mid; }
      }
    }
    forall x | x in results ensures x in g {
      assert BlockedBehind(g, id, id, mid, results, x);
    }
  }

  // Only what could not start is blocked.
  lemma BlockedIsNotStartable(tasks: seq<Task>, exec: Executor, g: Graph, fate: Fates, m: Moment, id: Name,
                              err: string, results: map<Name, End>, x: Name)
    requires Setting(tasks, exec, g, fate) && Inv(g, fate, m) && id in m.executing && fate(id) == Fails(err)
    requires FailureSpread(g, m, id, err, results)
    ensures Startable(g, FailedTo(m, id, results), x) <==> Startable(g, m, x) && x != id
  {
    var mid := m.results[id := Failed(err)];
    assert id in mid && id in results;
    if Startable(g, m, x) {
      StartableIsDone(g, fate, m, x);
      FateOf(tasks, exec, g, fate, x);
    }
    FailIsRight(tasks, exec, g, fate, m, id, err, results);
    assert BlockedBehind(g, id, id, mid, results, x);
    assert Right(g, fate, results, x);
    assert x in m.results ==> x in mid;
  }

  lemma FailIsKept(tasks: seq<Task>, g: Graph, fate: Fates, m: Moment, id: Name, err: string, results: map<Name, End>)
    requires Inv(g, fate, m) && id in m.executing && FailureSpread(g, m, id, err, results)
    ensures Kept(FailedTo(m, id, results)) && RanAfter(g, FailedTo(m, id, results))
  {
    var mid := m.results[id := Failed(err)];
    assert Startable(g, m, id);
    forall x ensures x in m.outputs ==> x in m.results && x in mid {}
    forall x | x in results ensures x in mid || results[x] == Blocked(id) {
      assert BlockedBehind(g, id, id, mid, results, x);
    }
  }

  lemma FailFlights(tasks: seq<Task>, exec: Executor, g: Graph, fate: Fates, m: Moment, id: Name, err: string,
                    results: map<Name, End>)
    requires Setting(tasks, exec, g, fate) && Inv(g, fate, m) && id in m.executing && fate(id) == Fails(err)
    requires FailureSpread(g, m, id, err, results)
    ensures var n := FailedTo(m, id, results);
            InFlight(g, n, n.waiting) && InFlight(g, n, n.executing) && Queued(g, n) && Covered(g, n)
  {
    var n := FailedTo(m, id, results);
    forall x ensures Startable(g, n, x) <==> Startable(g, m, x) && x != id {
      BlockedIsNotStartable(tasks, exec, g, fate, m, id, err, results, x);
    }
  }

  lemma FailKeeps(tasks: seq<Task>, exec: Executor, g: Graph, fate: Fates, m: Moment, id: Name, err: string,
                  results: map<Name, End>)
    requires Setting(tasks, exec, g, fate) && Inv(g, fate, m) && id in m.executing && fate(id) == Fails(err)
    requires FailureSpread(g, m, id, err, results)
    ensures Inv(g, fate, FailedTo(m, id, results))
  {
    FailIsRight(tasks, exec, g, fate, m, id, err, results);
    FailSettles(g, fate, m, id, err, results);
    FailIsKept(tasks, g, fate, m, id, err, results);
    FailFlights(tasks, exec, g, fate, m, id, err, results);
  }

  // id is out: the counts of what waits for it fall, and what reaches zero is ready.
  method Unblock(ghost g: Graph, ghost all: map<Name, int>, dependents: Graph, id: Name, ghost done: set<Name>,
                 pending0: map<Name, int>)
    returns (pending: map<Name, int>, added: seq<Name>)
    requires Linked(g, all, dependents) && Waits(g, pending0, done) && id !in done
    ensures Waits(g, pending, done + {id}) && Freed(g, id, pending, added)
  {
    pending, added := pending0, [];
    var deps := Deps(dependents, id);
    LowerNone(pending0, deps);
    for k := 0 to |deps|
      invariant Lowered(pending0, deps, k, pending) && Zeroed(deps, k, pending, added)
    {
      var dep := deps[k];
      Enough(g, all, dependents, id, done, pending0, k);
      LowerOne(pending0, deps, k, pending, added);
      pending := pending[dep := Count(pending, dep) - 1];
      if Count(pending, dep) == 0 {
        added := added + [dep];
      }
    }
    assert deps[..|deps|] == deps;
    forall t
      ensures Count(pending, t) == Outstanding(Deps(g, t), done + {id})
      ensures t in added <==> id in Deps(g, t) && Count(pending, t) == 0
    {
      UnblockedOne(g, all, dependents, id, done, pending0, pending, added, t);
    }
  }

  lemma UnblockedOne(g: Graph, all: map<Name, int>, dependents: Graph, id: Name, done: set<Name>,
                     pending0: map<Name, int>,
                     pending: map<Name, int>, added: seq<Name>, t: Name)
    requires Linked(g, all, dependents) && Waits(g, pending0, done) && id !in done
    requires var deps := Deps(dependents, id);
             deps[..|deps|] == deps && Lowered(pending0, deps, |deps|, pending)
             && Zeroed(deps, |deps|, pending, added)
    ensures Count(pending, t) == Outstanding(Deps(g, t), done + {id})
    ensures t in added <==> id in Deps(g, t) && Count(pending, t) == 0
  {
    OutstandingFacts(Deps(g, t), done, id);
    assert Count(pending0, t) == Outstanding(Deps(g, t), done);
    assert Times(Deps(dependents, id), t) == Times(Deps(g, t), id);
  }

  ghost predicate Lowered(pending0: map<Name, int>, deps: seq<Name>, k: nat, pending: map<Name, int>) {
    k <= |deps| && forall t {:trigger Count(pending, t)} ::
      Count(pending, t) == Count(pending0, t) - Times(deps[..k], t)
  }

  ghost predicate Zeroed(deps: seq<Name>, k: nat, pending: map<Name, int>, added: seq<Name>) {
    && k <= |deps| && Distinct(added)
    && forall t {:trigger t in added} :: t in added <==> Times(deps[..k], t) > 0 && Count(pending, t) == 0
  }

  lemma LowerNone(pending0: map<Name, int>, deps: seq<Name>)
    ensures Lowered(pending0, deps, 0, pending0) && Zeroed(deps, 0, pending0, [])
  {
    assert multiset(deps[..0]) == multiset{};
    forall t ensures Times(deps[..0], t) == 0 {}
  }

  // No count is asked to go below zero.
  lemma Enough(g: Graph, all: map<Name, int>, dependents: Graph, id: Name, done: set<Name>, pending0: map<Name, int>,
               k: nat)
    requires Linked(g, all, dependents) && Waits(g, pending0, done) && id !in done && k < |Deps(dependents, id)|
    ensures var deps := Deps(dependents, id); Times(deps[..k], deps[k]) < Count(pending0, deps[k])
  {
    var deps := Deps(dependents, id);
    var t := deps[k];
    assert Times(deps, t) == Times(Deps(g, t), id);
    assert Count(pending0, t) == Outstanding(Deps(g, t), done);
    OutstandingFacts(Deps(g, t), done, id);
    assert deps == deps[..k] + [t] + deps[k + 1..];
    assert Times(deps[..k], t) + 1 <= Times(deps, t);
  }

  lemma LowerOne(pending0: map<Name, int>, deps: seq<Name>, k: nat, pending: map<Name, int>, added: seq<Name>)
    requires Lowered(pending0, deps, k, pending) && Zeroed(deps, k, pending, added) && k < |deps|
    requires Times(deps[..k], deps[k]) < Count(pending0, deps[k])
    ensures var dep := deps[k];
            var next := pending[dep := Count(pending, dep) - 1];
            Lowered(pending0, deps, k + 1, next)
            && Zeroed(deps, k + 1, next, if Count(next, dep) == 0 then added + [dep] else added)
  {
    var dep := deps[k];
    var next := pending[dep := Count(pending, dep) - 1];
    assert deps[..k + 1] == deps[..k] + [dep];
    assert Count(pending, dep) == Count(pending0, dep) - Times(deps[..k], dep);
    assert dep !in added;
    forall t ensures Count(next, t) == Count(pending0, t) - Times(deps[..k + 1], t) {
      assert Count(pending, t) == Count(pending0, t) - Times(deps[..k], t);
    }
    var added1 := if Count(next, dep) == 0 then added + [dep] else added;
    forall t ensures t in added1 <==> Times(deps[..k + 1], t) > 0 && Count(next, t) == 0 {
      assert t in added <==> Times(deps[..k], t) > 0 && Count(pending, t) == 0;
    }
  }

  // ----- the end of a run -----

  // With nothing queued and nothing in flight every task has its result.
  lemma {:induction false} AllFinished(g: Graph, pre: Needs<Name>, lv: map<Name, nat>, l: nat, fate: Fates,
                                       m: Moment, x: Name)
    requires Agree(g, pre) && Rising(pre, lv, l) && lv.Keys == g.Keys && Inv(g, fate, m)
    requires m.ready == [] && m.waiting.Keys == {} && m.executing.Keys == {} && x in g
    ensures x in m.results
    decreases lv[x]
  {
    forall d | d in Deps(g, x) ensures d in m.results && (m.results[d].Succeeded? ==> d in m.outputs) {
      assert In(pre, x, d);
      AllFinished(g, pre, lv, l, fate, m, d);
    }
    if d :| d in Deps(g, x) && !m.results[d].Succeeded? {
      assert Settled(g, m.results, d);
    } else {
      assert !Startable(g, m, x);
    }
  }

  // A task is stopped exactly when a prerequisite of it, near or far, fails.
  lemma {:induction false} StoppedWhen(tasks: seq<Task>, exec: Executor, g: Graph, pre: Needs<Name>,
                                       lv: map<Name, nat>, l: nat, fate: Fates, x: Name)
    requires Setting(tasks, exec, g, fate) && Agree(g, pre) && Rising(pre, lv, l) && lv.Keys == g.Keys && x in g
    ensures fate(x) == Stopped <==> exists c :: Behind(g, x, c) && fate(c).Fails?
    decreases lv[x]
  {
    FateOf(tasks, exec, g, fate, x);
    if fate(x) == Stopped {
      var d :| d in Deps(g, x) && !fate(d).Done?;
      BehindDep(g, x, d);
      assert In(pre, x, d);
      if fate(d) == Stopped {
        StoppedWhen(tasks, exec, g, pre, lv, l, fate, d);
        var c :| Behind(g, d, c) && fate(c).Fails?;
        BehindOn(g, x, d, c);
      }
    } else if c :| Behind(g, x, c) && fate(c).Fails? {
      BehindIsStopped(tasks, exec, g, fate, x, c);
    }
  }

  // One evaluation only: levels fix it from the bottom up.
  lemma {:induction false} OneFate(tasks: seq<Task>, exec: Executor, g: Graph, pre: Needs<Name>, lv: map<Name, nat>,
                                   l: nat, fate: Fates, other: Fates, x: Name)
    requires Setting(tasks, exec, g, fate) && Setting(tasks, exec, g, other)
    requires Agree(g, pre) && Rising(pre, lv, l) && lv.Keys == g.Keys && x in g
    ensures fate(x) == other(x)
    decreases lv[x]
  {
    forall d | d in Deps(g, x) ensures fate(d) == other(d) {
      assert In(pre, x, d);
      OneFate(tasks, exec, g, pre, lv, l, fate, other, d);
    }
    FateOf(tasks, exec, g, fate, x);
    FateOf(tasks, exec, g, other, x);
    if AllDone(fate, Deps(g, x)) {
      assert AllDone(other, Deps(g, x));
      assert Texts(fate, Deps(g, x)) == Texts(other, Deps(g, x));
    } else {
      var d :| d in Deps(g, x) && !fate(d).Done?;
      assert !AllDone(other, Deps(g, x));
    }
  }

  // One tier evaluated on what the earlier ones came to.
  ghost function RunTier(byID: map<Name, Task>, exec: Executor, before: Fates, x: Name): Fate {
    if x in byID && AllDone(before, byID[x].dependsOn) then Asked(exec(byID[x], Texts(before, byID[x].dependsOn)))
    else Stopped
  }

  // The first n tiers evaluated in order, one after the other.
  ghost function InTierOrder(byID: map<Name, Task>, exec: Executor, lv: map<Name, nat>, n: nat): Fates {
    if n == 0 then (x => Stopped)
    else
      var before := InTierOrder(byID, exec, lv, n - 1);
      x => if x in lv && lv[x] == n - 1 then RunTier(byID, exec, before, x) else before(x)
  }

  lemma {:induction false} TierOrderFollows(tasks: seq<Task>, exec: Executor, g: Graph, pre: Needs<Name>,
                                            lv: map<Name, nat>, l: nat, n: nat, x: Name)
    requires g == Edges(tasks) && Agree(g, pre) && Rising(pre, lv, l) && lv.Keys == g.Keys
    requires x in lv && lv[x] < n
    ensures Follows(ById(tasks), exec, InTierOrder(ById(tasks), exec, lv, n), x)
  {
    var byID := ById(tasks);
    var before, after := InTierOrder(byID, exec, lv, n - 1), InTierOrder(byID, exec, lv, n);
    var deps := byID[x].dependsOn;
    assert deps == Deps(g, x);
    forall d | d in deps ensures before(d) == after(d) {
      assert In(pre, x, d);
    }
    assert AllDone(before, deps) <==> AllDone(after, deps);
    if AllDone(before, deps) {
      assert Texts(before, deps) == Texts(after, deps);
    }
    if lv[x] < n - 1 {
      TierOrderFollows(tasks, exec, g, pre, lv, l, n - 1, x);
    }
  }

  // Evaluating the tiers in order is such an evaluation, so there is one.
  lemma TierOrderEvaluates(tasks: seq<Task>, exec: Executor, g: Graph, pre: Needs<Name>, lv: map<Name, nat>, l: nat)
    requires g == Edges(tasks) && Agree(g, pre) && Rising(pre, lv, l) && lv.Keys == g.Keys
    ensures Setting(tasks, exec, g, InTierOrder(ById(tasks), exec, lv, l))
  {
    var fate := InTierOrder(ById(tasks), exec, lv, l);
    forall x ensures Follows(ById(tasks), exec, fate, x) {
      if x in ById(tasks) {
        assert x in g && x in lv;
        TierOrderFollows(tasks, exec, g, pre, lv, l, l, x);
      }
    }
  }

  // ----- the scheduler -----

  // The invariant as one opaque predicate of a moment.
  type Invariant = Moment -> bool

  ghost predicate Keeps(tasks: seq<Task>, exec: Executor, g: Graph, fate: Fates, inv: Invariant) {
    && Setting(tasks, exec, g, fate)
    && (forall m {:trigger Inv(g, fate, m)} :: inv(m) <==> Inv(g, fate, m))
  }

  lemma KeptBy(tasks: seq<Task>, exec: Executor, g: Graph, fate: Fates) returns (inv: Invariant)
    requires Setting(tasks, exec, g, fate)
    ensures Keeps(tasks, exec, g, fate, inv)
  {
    inv := m => Inv(g, fate, m);
  }

  lemma InvLaunch(tasks: seq<Task>, exec: Executor, g: Graph, fate: Fates, inv: Invariant, m: Moment)
    requires Keeps(tasks, exec, g, fate, inv) && inv(m) && m.ready != []
    ensures inv(Launched(g, m))
    ensures var id := m.ready[0];
            id !in m.results && id in g && id in ById(tasks) && id !in m.waiting
            && id !in m.executing
  {
    assert inv(m) <==> Inv(g, fate, m);
    LaunchKeeps(g, fate, m);
    assert inv(Launched(g, m)) <==> Inv(g, fate, Launched(g, m));
  }

  // Launched tasks are tasks of the graph, each of them once.
  lemma FlightFits(tasks: seq<Task>, exec: Executor, g: Graph, fate: Fates, inv: Invariant, m: Moment)
    requires Keeps(tasks, exec, g, fate, inv) && inv(m)
    ensures |m.waiting.Keys| + |m.executing.Keys| <= |g.Keys|
  {
    assert inv(m) <==> Inv(g, fate, m);
    InFlightIsIn(g, m, m.waiting);
    InFlightIsIn(g, m, m.executing);
    SubsetSize(m.waiting.Keys + m.executing.Keys, g.Keys);
  }

  lemma InFlightIsIn(g: Graph, m: Moment, flight: map<Name, map<Name, string>>)
    requires InFlight(g, m, flight)
    ensures flight.Keys <= g.Keys
  {
    forall x | x in flight ensures x in g {
      assert Startable(g, m, x);
    }
  }

  lemma InvAcquire(tasks: seq<Task>, exec: Executor, g: Graph, fate: Fates, inv: Invariant, m: Moment, id: Name)
    requires Keeps(tasks, exec, g, fate, inv) && inv(m) && id in m.waiting
    ensures inv(Acquired(m, id)) && id !in m.executing
  {
    assert inv(m) <==> Inv(g, fate, m);
    AcquireKeeps(g, fate, m, id);
    assert inv(Acquired(m, id)) <==> Inv(g, fate, Acquired(m, id));
  }

  // What the executor says of an executing task is its fate.
  lemma InvAnswer(tasks: seq<Task>, exec: Executor, g: Graph, fate: Fates, inv: Invariant, m: Moment, id: Name)
    requires Keeps(tasks, exec, g, fate, inv) && inv(m) && id in m.executing
    ensures id in ById(tasks) && id in g && id !in m.results && id !in m.outputs
    ensures fate(id) == Asked(exec(ById(tasks)[id], m.executing[id]))
    ensures Waits(g, m.pending, m.outputs.Keys)
  {
    assert inv(m) <==> Inv(g, fate, m);
    assert Startable(g, m, id);
    LaunchedFate(tasks, exec, g, fate, m, id);
  }

  lemma InvSucceed(tasks: seq<Task>, exec: Executor, g: Graph, fate: Fates, inv: Invariant, m: Moment, id: Name,
                   text: string, pending: map<Name, int>, added: seq<Name>)
    requires Keeps(tasks, exec, g, fate, inv) && inv(m) && id in m.executing && fate(id) == Done(text)
    requires Waits(g, pending, m.outputs.Keys + {id}) && Freed(g, id, pending, added)
    ensures inv(SucceededTo(m, id, text, pending, added))
  {
    assert inv(m) <==> Inv(g, fate, m);
    SucceedKeeps(tasks, exec, g, fate, m, id, text, pending, added);
    var n := SucceededTo(m, id, text, pending, added);
    assert inv(n) <==> Inv(g, fate, n);
  }

  lemma InvFail(tasks: seq<Task>, exec: Executor, g: Graph, fate: Fates, inv: Invariant, m: Moment, id: Name,
                err: string, results: map<Name, End>)
    requires Keeps(tasks, exec, g, fate, inv) && inv(m) && id in m.executing && fate(id) == Fails(err)
    requires FailureSpread(g, m, id, err, results)
    ensures inv(FailedTo(m, id, results))
  {
    assert inv(m) <==> Inv(g, fate, m);
    FailKeeps(tasks, exec, g, fate, m, id, err, results);
    var n := FailedTo(m, id, results);
    assert inv(n) <==> Inv(g, fate, n);
  }

  lemma SpreadAdds(g: Graph, m: Moment, id: Name, err: string, results: map<Name, End>)
    requires FailureSpread(g, m, id, err, results)
    ensures m.results.Keys + {id} <= results.Keys
  {
    forall x | x in m.results.Keys + {id} ensures x in results { assert x in m.results[id := Failed(err)]; }
  }

  lemma InvBounds(tasks: seq<Task>, exec: Executor, g: Graph, fate: Fates, inv: Invariant, m: Moment)
    requires Keeps(tasks, exec, g, fate, inv) && inv(m)
    ensures m.executing.Keys <= g.Keys - m.results.Keys && m.results.Keys <= g.Keys
  {
    assert inv(m) <==> Inv(g, fate, m);
    forall x | x in m.executing ensures x in g && x !in m.results { assert Startable(g, m, x); }
  }

  // The moment after a success: the result and the text are in, and what that frees is ready.
  method Settle(ghost tasks: seq<Task>, ghost exec: Executor, ghost g: Graph, ghost fate: Fates,
                ghost inv: Invariant, ghost counts: map<Name, int>,
                dependents: Graph, m: Moment, id: Name, text: string)
    returns (n: Moment)
    requires Keeps(tasks, exec, g, fate, inv) && Linked(g, counts, dependents)
    requires inv(m) && id in m.executing && fate(id) == Done(text)
    ensures inv(n) && n.results == m.results[id := Succeeded(text)] && n.outputs == m.outputs[id := text]
    ensures n.waiting == m.waiting && n.executing == m.executing - {id} && Left(g, n) < Left(g, m)
  {
    InvAnswer(tasks, exec, g, fate, inv, m, id);
    var pending, added := Unblock(g, counts, dependents, id, m.outputs.Keys, m.pending);
    InvSucceed(tasks, exec, g, fate, inv, m, id, text, pending, added);
    n := m.(results := m.results[id := Succeeded(text)], outputs := m.outputs[id := text], pending := pending,
    ready := m.ready + added, executing := m.executing - {id});
    LeftFalls(g, m, id, n);
  }

  // What a run still has to do: two moves for a task with no result, less one for an executing one.
  ghost function Left(g: Graph, m: Moment): int {
    2 * |g.Keys - m.results.Keys| - |m.executing.Keys|
  }

  lemma LeftIsBounded(tasks: seq<Task>, exec: Executor, g: Graph, fate: Fates, inv: Invariant, m: Moment)
    requires Keeps(tasks, exec, g, fate, inv) && inv(m)
    ensures Left(g, m) >= 0
  {
    InvBounds(tasks, exec, g, fate, inv, m);
    SubsetSize(m.executing.Keys, g.Keys - m.results.Keys);
  }

  // A failure and all that it blocks.
  method Collapse(ghost tasks: seq<Task>, ghost exec: Executor, ghost g: Graph, ghost fate: Fates,
                  ghost inv: Invariant, dependents: Graph,
                  m: Moment, id: Name, err: string) returns (n: Moment)
    requires Keeps(tasks, exec, g, fate, inv) && inv(m) && id in m.executing && fate(id) == Fails(err)
             && Turned(g, dependents)
    ensures inv(n) && n.ready == m.ready && n.waiting == m.waiting && n.executing == m.executing - {id}
            && Left(g, n) < Left(g, m)
  {
    var results := BlockAll(g, dependents, id, id, m.results[id := Failed(err)]);
    n := m.(results := results, executing := m.executing - {id});
    InvFail(tasks, exec, g, fate, inv, m, id, err, results);
    InvAnswer(tasks, exec, g, fate, inv, m, id);
    SpreadAdds(g, m, id, err, results);
    LeftFalls(g, m, id, n);
  }

  // An executing task comes back with a result where it had none.
  lemma LeftFalls(g: Graph, m: Moment, id: Name, n: Moment)
    requires id in m.executing && id in g && id !in m.results
    requires n.executing == m.executing - {id} && m.results.Keys + {id} <= n.results.Keys
    ensures Left(g, n) < Left(g, m)
  {
    FewerLeft(g.Keys, m.results.Keys, id, n.results.Keys);
    assert n.executing.Keys == m.executing.Keys - {id};
  }

  lemma FewerLeft(all: set<Name>, before: set<Name>, id: Name, after: set<Name>)
    requires before + {id} <= after && id in all && id !in before
    ensures |all - after| < |all - before|
  {
    SubsetSize(all - after, all - before - {id});
  }

  class Scheduler {
    const byID: map<Name, Task>
    const dependents: Graph
    const exec: Executor
    const concurrency: nat
    ghost const tasks: seq<Task>
    ghost const g: Graph
    ghost const counts: map<Name, int>
    ghost const fate: Fates
    ghost const inv: Invariant

    // Results, outputs, counts, the ready list, and the launched tasks before and after the semaphore.
    var now: Moment
    var inflight: int
    var peak: int

    // The counters tell the truth, and no more than `concurrency` tasks are past the semaphore.
    ghost predicate Valid()
      reads this
    {
      && inv(now)
      && inflight == |now.waiting.Keys| + |now.executing.Keys| && |now.executing.Keys| <= concurrency
      && inflight <= peak <= |g.Keys|
    }

    ghost predicate Fixed() {
      Keeps(tasks, exec, g, fate, inv) && Linked(g, counts, dependents) && Turned(g, dependents) && byID == ById(tasks)
    }

    // Whatever is ready is launched; the caller holds the lock.
    method Launch()
      requires Fixed() && Valid()
      modifies this
      ensures Valid() && now.ready == [] && now.results == old(now.results) && now.executing == old(now.executing)
      ensures inflight == old(inflight) + |old(now.ready)|
      ensures peak == if inflight > old(peak) && old(now.ready) != [] then inflight else old(peak)
    {
      while |now.ready| > 0
        invariant Valid() && inflight + |now.ready| == old(inflight) + |old(now.ready)|
        invariant now.results == old(now.results) && now.executing == old(now.executing)
        invariant |now.ready| <= |old(now.ready)|
        invariant peak == if inflight > old(peak) && |now.ready| < |old(now.ready)| then inflight else old(peak)
      {
        InvLaunch(tasks, exec, g, fate, inv, now);
        var id := now.ready[0];
        now := now.(ready := now.ready[1..]);
        if id !in now.results {
          inflight := inflight + 1;
          if inflight > peak {
            peak := inflight;
          }
          now := now.(waiting := now.waiting[id := Inputs(now.outputs, byID[id].dependsOn)]);
          FlightFits(tasks, exec, g, fate, inv, now);
        }
      }
    }

    // One launched task gets through the semaphore.
    method Acquire(id: Name)
      requires Fixed() && Valid() && id in now.waiting && |now.executing.Keys| < concurrency
      modifies this`now
      ensures Valid() && now.ready == old(now.ready) && Left(g, now) == Left(g, old(now)) - 1
    {
      InvAcquire(tasks, exec, g, fate, inv, now, id);
      now := now.(waiting := now.waiting - {id}, executing := now.executing[id := now.waiting[id]]);
    }

    // An executing task came back with a text.
    method Succeed(id: Name, text: string)
      requires Fixed() && Valid() && id in now.executing && fate(id) == Done(text)
      modifies this`now, this`inflight
      ensures Valid() && Left(g, now) < Left(g, old(now))
    {
      now := Settle(tasks, exec, g, fate, inv, counts, dependents, now, id, text);
      inflight := inflight - 1;
    }

    // An executing task came back with an error.
    method Fail(id: Name, err: string)
      requires Fixed() && Valid() && id in now.executing && fate(id) == Fails(err)
      modifies this`now, this`inflight
      ensures Valid() && now.ready == old(now.ready) && Left(g, now) < Left(g, old(now))
    {
      now := Collapse(tasks, exec, g, fate, inv, dependents, now, id, err);
      inflight := inflight - 1;
    }

    // One executing task comes back.
    method Complete(id: Name)
      requires Fixed() && Valid() && id in now.executing && now.ready == []
      modifies this
      ensures Valid() && now.ready == [] && Left(g, now) < Left(g, old(now))
      ensures peak == if inflight > old(peak) then inflight else old(peak)
    {
      InvAnswer(tasks, exec, g, fate, inv, now, id);
      match exec(byID[id], now.executing[id])
      case Text(text) =>
        Succeed(id, text);
        Launch();
      case Error(err) =>
        Fail(id, err);
    }

    // One move: any launched task may pass the semaphore when there is room, and any executing task
    // may come back. One of the two is always possible.
    method Step()
      requires Fixed() && Valid() && now.ready == [] && concurrency >= 1 && inflight > 0
      modifies this
      ensures Valid() && now.ready == [] && Left(g, now) < Left(g, old(now))
      ensures peak == if inflight > old(peak) then inflight else old(peak)
    {
      if
      case now.waiting.Keys != {} && |now.executing.Keys| < concurrency =>
        var id :| id in now.waiting.Keys;
        Acquire(id);
      case now.executing.Keys != {} =>
        var id :| id in now.executing.Keys;
        Complete(id);
    }

    // Every interleaving comes to an end with nothing in flight.
    method Run()
      requires Fixed() && Valid() && now.ready == [] && concurrency >= 1
      modifies this
      ensures Valid() && now.ready == [] && now.waiting.Keys == {} && now.executing.Keys == {} && peak >= old(peak)
    {
      while inflight > 0
        invariant Valid() && now.ready == [] && peak >= old(peak)
        decreases Left(g, now)
      {
        LeftIsBounded(tasks, exec, g, fate, inv, now);
        Step();
      }
    }

    constructor (tasks: seq<Task>, byID: map<Name, Task>, exec: Executor, concurrency: nat, dependents: Graph,
                 pending: map<Name, int>, ghost fate: Fates)
      requires TaskGraphs.Valid(tasks) && byID == ById(tasks) && Linked(Edges(tasks), pending, dependents)
      requires Setting(tasks, exec, Edges(tasks), fate)
      ensures this.tasks == tasks && this.exec == exec && this.concurrency == concurrency && this.fate == fate
              && g == Edges(tasks)
      ensures Fixed() && Valid() && now.ready == [] && now.executing == map[]
      ensures peak == inflight == |Roots(tasks)|
    {
      ghost var inv0 := KeptBy(tasks, exec, Edges(tasks), fate);
      LinkedIsTurned(Edges(tasks), pending, dependents);
      var ready := InitialReady(tasks, pending);
      FirstMoment(tasks, exec, fate, inv0, dependents, pending, ready);
      this.tasks, this.byID, this.exec, this.concurrency, this.dependents := tasks, byID, exec, concurrency, dependents;
      g, counts, this.fate, inv := Edges(tasks), pending, fate, inv0;
      now := Moment(map[], map[], pending, ready, map[], map[]);
      inflight, peak := 0, 0;
      new;
      Launch();
    }
  }

  // The tasks with no dependencies, in request order.
  ghost function Roots(tasks: seq<Task>): seq<Name> {
    if tasks == [] then []
    else
      var n := |tasks| - 1;
      Roots(tasks[..n]) + if tasks[n].dependsOn == [] then [tasks[n].id] else []
  }

  lemma {:induction false} RootsHas(tasks: seq<Task>, x: Name)
    requires WellNamed(tasks)
    ensures Distinct(Roots(tasks))
    ensures x in Roots(tasks) <==> x in ById(tasks) && ById(tasks)[x].dependsOn == []
  {
    if tasks != [] {
      var n := |tasks| - 1;
      WellNamedPrefix(tasks, n);
      RootsHas(tasks[..n], x);
      RootsHas(tasks[..n], tasks[n].id);
      NotYetRoot(tasks, n);
    }
  }

  lemma NotYetRoot(tasks: seq<Task>, i: nat)
    requires WellNamed(tasks) && i < |tasks|
    ensures tasks[i].id !in ById(tasks[..i])
  {
    ByIdHas(tasks[..i]);
    forall j | 0 <= j < i ensures Ids(tasks[..i])[j] != tasks[i].id {
      assert Ids(tasks)[j] != Ids(tasks)[i];
    }
  }

  method InitialReady(tasks: seq<Task>, pending: map<Name, int>) returns (ready: seq<Name>)
    requires WellNamed(tasks) && TaskGraphs.Counted(Edges(tasks), pending)
    ensures ready == Roots(tasks)
  {
    ready := [];
    for i := 0 to |tasks|
      invariant ready == Roots(tasks[..i])
    {
      assert tasks[..i + 1][..i] == tasks[..i];
      ByIdHas(tasks);
      assert Count(pending, tasks[i].id) == |Deps(Edges(tasks), tasks[i].id)|;
      if Count(pending, tasks[i].id) == 0 {
        ready := ready + [tasks[i].id];
      }
    }
    assert tasks[..|tasks|] == tasks;
  }

  lemma FirstMoment(tasks: seq<Task>, exec: Executor, fate: Fates, inv: Invariant, dependents: Graph,
                    pending: map<Name, int>, ready: seq<Name>)
    requires WellNamed(tasks) && Keeps(tasks, exec, Edges(tasks), fate, inv)
             && Linked(Edges(tasks), pending, dependents) && ready == Roots(tasks)
    ensures inv(Moment(map[], map[], pending, ready, map[], map[]))
  {
    var g, m := Edges(tasks), Moment(map[], map[], pending, ready, map[], map[]);
    FirstWaits(g, pending, dependents);
    assert m.outputs.Keys == {};
    RootsHas(tasks, "");
    forall x ensures Startable(g, m, x) <==> x in m.ready {
      RootsHas(tasks, x);
      ByIdHas(tasks);
      if x in g && Deps(g, x) != [] { assert Deps(g, x)[0] in Elems(Deps(g, x)); }
    }
    assert inv(m) <==> Inv(g, fate, m);
  }

  // ----- the whole schedule -----

  datatype Run = Rejected(fault: Fault) | NoConcurrency | Ran(results: seq<TaskResult>, tiers: seq<Tier>,
                                                              criticalPath: seq<Name>, peak: int)

  // Counts of dependencies, and each task listed under its dependencies.
  method Wire(tasks: seq<Task>) returns (pending: map<Name, int>, dependents: Graph)
    requires WellNamed(tasks)
    ensures Linked(Edges(tasks), pending, dependents)
  {
    pending, dependents := map[], map[];
    for i := 0 to |tasks|
      invariant Linked(Edges(tasks[..i]), pending, dependents)
    {
      pending, dependents := WireTask(tasks, i, pending, dependents);
    }
    assert tasks[..|tasks|] == tasks;
  }

  method WireTask(tasks: seq<Task>, i: nat, pending0: map<Name, int>, dependents0: Graph)
    returns (pending: map<Name, int>, dependents: Graph)
    requires WellNamed(tasks) && i < |tasks| && Linked(Edges(tasks[..i]), pending0, dependents0)
    ensures Linked(Edges(tasks[..i + 1]), pending, dependents)
  {
    var t := tasks[i];
    ghost var g := Edges(tasks[..i]);
    NotYet(tasks, i);
    pending, dependents := pending0[t.id := |t.dependsOn|], dependents0;
    for k := 0 to |t.dependsOn|
      invariant Deps(g, t.id) == t.dependsOn[..k] && Listed(g, dependents)
      invariant g[t.id := []] == Edges(tasks[..i])[t.id := []]
    {
      ListOne(g, dependents, t.id, t.dependsOn[k]);
      g := Entered(g, t.id, t.dependsOn[k]);
      dependents := Entered(dependents, t.dependsOn[k], t.id);
    }
    EdgesMore(tasks, i, g);
    WiredCounts(tasks, i, pending0);
    forall x ensures Deps(g, x) == Deps(Edges(tasks[..i + 1]), x) {}
  }

  lemma WiredCounts(tasks: seq<Task>, i: nat, pending0: map<Name, int>)
    requires WellNamed(tasks) && i < |tasks| && TaskGraphs.Counted(Edges(tasks[..i]), pending0)
    ensures TaskGraphs.Counted(Edges(tasks[..i + 1]), pending0[tasks[i].id := |tasks[i].dependsOn|])
  {
    assert tasks[..i + 1][..i] == tasks[..i];
    var pending, g := pending0[tasks[i].id := |tasks[i].dependsOn|], Edges(tasks[..i + 1]);
    forall x ensures Count(pending, x) == |Deps(g, x)| {
      assert Count(pending0, x) == |Deps(Edges(tasks[..i]), x)|;
    }
  }

  // The results at one tier, in the order they stand.
  ghost function AtTier(results: seq<TaskResult>, l: nat): seq<TaskResult> {
    if results == [] then []
    else
      var n := |results| - 1;
      AtTier(results[..n], l) + if results[n].tier == l then [results[n]] else []
  }

  ghost predicate ByTier(results: seq<TaskResult>) {
    forall i, j :: 0 <= i < j < |results| ==> results[i].tier <= results[j].tier
  }

  predicate TierNoLater(a: TaskResult, b: TaskResult) {
    a.tier <= b.tier
  }

  lemma {:induction false} AtTierIsAlike(s: seq<TaskResult>, x: TaskResult)
    ensures AtTier(s, x.tier) == Alike(TierNoLater, s, x)
  {
    if s != [] { AtTierIsAlike(s[..|s| - 1], x); }
  }

  // The stable sort: in tier order, and within a tier in the order given.
  method SortByTier(results: seq<TaskResult>) returns (r: seq<TaskResult>)
    ensures ByTier(r) && |r| == |results|
    ensures forall l :: AtTier(r, l) == AtTier(results, l)
  {
    r := SortBy(TierNoLater, results);
    SortIs(TierNoLater, results);
    assert |multiset(r)| == |multiset(results)|;
    forall l ensures AtTier(r, l) == AtTier(results, l) {
      var x := TaskResult(Task("", "", []), l, Blocked(""));
      SortIsStable(TierNoLater, results, x);
      AtTierIsAlike(results, x);
      AtTierIsAlike(SortBy(TierNoLater, results), x);
    }
  }

  // One result a task, in request order.
  method Assemble(tasks: seq<Task>, results: map<Name, End>, tierOf: map<Name, nat>) returns (r: seq<TaskResult>)
    requires forall i :: 0 <= i < |tasks| ==> tasks[i].id in results && tasks[i].id in tierOf
    ensures |r| == |tasks|
    ensures forall i :: 0 <= i < |r| ==> r[i] == TaskResult(tasks[i], tierOf[tasks[i].id], results[tasks[i].id])
  {
    r := [];
    for i := 0 to |tasks|
      invariant |r| == i
      invariant forall j :: 0 <= j < i ==> r[j] == TaskResult(tasks[j], tierOf[tasks[j].id], results[tasks[j].id])
    {
      r := r + [TaskResult(tasks[i], tierOf[tasks[i].id], results[tasks[i].id])];
    }
  }

  // The level of every task, read off the tiers.
  method TierOf(tasks: seq<Task>, ghost lv: map<Name, nat>, tiers: seq<Tier>) returns (tierOf: map<Name, nat>)
    requires Tiered(tasks, lv, tiers)
    ensures forall i :: 0 <= i < |tasks| ==>
                          tasks[i].id in lv && tasks[i].id in tierOf && tierOf[tasks[i].id] == lv[tasks[i].id]
  {
    tierOf := map[];
    for l := 0 to |tiers|
      invariant forall x :: x in tierOf ==> x in lv && tierOf[x] == lv[x]
      invariant forall t, k: nat :: k < l && t in tiers[k].tasks ==> t.id in tierOf
    {
      var ts := tiers[l].tasks;
      for k := 0 to |ts|
        invariant forall x :: x in tierOf ==> x in lv && tierOf[x] == lv[x]
        invariant forall t, k: nat :: k < l && t in tiers[k].tasks ==> t.id in tierOf
        invariant forall j :: 0 <= j < k ==> ts[j].id in tierOf
      {
        TiersPartition(tasks, lv, tiers, ts[k], l);
        tierOf := tierOf[ts[k].id := tiers[l].level];
      }
    }
    forall i | 0 <= i < |tasks| ensures tasks[i].id in lv && tasks[i].id in tierOf {
      EveryTaskHasTier(tasks, lv, tiers, tasks[i]);
    }
  }

  lemma EveryTaskHasTier(tasks: seq<Task>, lv: map<Name, nat>, tiers: seq<Tier>, t: Task)
    requires Tiered(tasks, lv, tiers) && t in tasks
    ensures t.id in lv && lv[t.id] < |tiers| && t in tiers[lv[t.id]].tasks
  {
    var i :| 0 <= i < |tasks| && tasks[i] == t;
    assert Ids(tasks)[i] == t.id;
    assert t.id in Elems(Ids(tasks));
    TiersPartition(tasks, lv, tiers, t, lv[t.id]);
  }

  // A reported end is the task's fate, and a blocked task names a failed prerequisite.
  ghost predicate Ends(g: Graph, fate: Fates, x: Name, end: End) {
    match end
    case Succeeded(t) => fate(x) == Done(t)
    case Failed(e) => fate(x) == Fails(e)
    case Blocked(c) => fate(x) == Stopped && Behind(g, x, c) && fate(c).Fails?
  }

  ghost predicate EndOfTask(g: Graph, fate: Fates, lv: map<Name, nat>, r: TaskResult) {
    r.task.id in lv && r.tier == lv[r.task.id] && Ends(g, fate, r.task.id, r.end)
  }

  function TasksOf(results: seq<TaskResult>): seq<Task> {
    seq(|results|, i requires 0 <= i < |results| => results[i].task)
  }

  // One result for every task, tier by tier in request order, each what evaluating the tiers one
  // task after another comes to.
  ghost predicate Reports(tasks: seq<Task>, exec: Executor, lv: map<Name, nat>, n: nat, results: seq<TaskResult>) {
    && |results| == |tasks| && ByTier(results)
    && (forall l :: TasksOf(AtTier(results, l)) == AtLevel(tasks, lv, l))
    && (forall r :: r in results ==> EndOfTask(Edges(tasks), InTierOrder(ById(tasks), exec, lv, n), lv, r))
  }

  lemma {:induction false} AtTierHas(results: seq<TaskResult>, l: nat, r: TaskResult)
    ensures r in AtTier(results, l) <==> r in results && r.tier == l
  {
    if results != [] {
      var n := |results| - 1;
      AtTierHas(results[..n], l, r);
      assert results == results[..n] + [results[n]];
    }
  }

  lemma {:induction false} AssembledTier(tasks: seq<Task>, lv: map<Name, nat>, r: seq<TaskResult>, l: nat)
    requires |r| == |tasks|
    requires forall i :: 0 <= i < |r| ==> r[i].task == tasks[i] && tasks[i].id in lv && r[i].tier == lv[tasks[i].id]
    ensures TasksOf(AtTier(r, l)) == AtLevel(tasks, lv, l)
  {
    if r != [] {
      var n := |r| - 1;
      AssembledTier(tasks[..n], lv, r[..n], l);
      assert TasksOf(AtTier(r, l)) == TasksOf(AtTier(r[..n], l)) + if r[n].tier == l then [r[n].task] else [];
    }
  }

  lemma RunEnds(s: Scheduler, lv: map<Name, nat>, l: nat, x: Name)
    requires s.Fixed() && s.Valid() && s.now.ready == [] && s.now.waiting.Keys == {} && s.now.executing.Keys == {}
    requires Rising(NeedsOf(s.tasks), lv, l) && lv.Keys == s.g.Keys && x in s.g
    ensures x in s.now.results && Ends(s.g, s.fate, x, s.now.results[x])
  {
    var m := s.now;
    assert s.inv(m) <==> Inv(s.g, s.fate, m);
    EdgesAgree(s.tasks);
    AllFinished(s.g, NeedsOf(s.tasks), lv, l, s.fate, m, x);
    assert Right(s.g, s.fate, m.results, x);
    if m.results[x].Blocked? {
      assert Right(s.g, s.fate, m.results, m.results[x].cause);
    }
  }

  lemma Reported(tasks: seq<Task>, exec: Executor, lv: map<Name, nat>, n: nat, assembled: seq<TaskResult>,
                 results: seq<TaskResult>)
    requires |assembled| == |tasks| == |results| && ByTier(results)
    requires forall l :: AtTier(results, l) == AtTier(assembled, l)
    requires forall i :: 0 <= i < |tasks| ==> assembled[i].task == tasks[i]
    requires forall i :: 0 <= i < |tasks| ==> EndOfTask(Edges(tasks), InTierOrder(ById(tasks), exec, lv, n), lv,
                                                        assembled[i])
    ensures Reports(tasks, exec, lv, n, results)
  {
    forall l ensures TasksOf(AtTier(results, l)) == AtLevel(tasks, lv, l) {
      AssembledTier(tasks, lv, assembled, l);
    }
    forall r | r in results ensures EndOfTask(Edges(tasks), InTierOrder(ById(tasks), exec, lv, n), lv, r) {
      AtTierHas(results, r.tier, r);
      AtTierHas(assembled, r.tier, r);
    }
  }

  // What a run reports, whatever order its tasks came back in.
  method Schedule(tasks: seq<Task>, exec: Executor, concurrency: int) returns (run: Run)
    ensures run.Rejected? ==> Verdict(tasks, Refused(run.fault)) && !(TaskGraphs.Valid(tasks) && Acyclic(Edges(tasks)))
    ensures run.NoConcurrency? ==> TaskGraphs.Valid(tasks) && Acyclic(Edges(tasks)) && concurrency < 1
    ensures run.Ran? ==> TaskGraphs.Valid(tasks) && Acyclic(Edges(tasks)) && concurrency >= 1
    ensures run.Ran? ==> exists lv :: Tiered(tasks, lv, run.tiers) && Reports(tasks, exec, lv, |run.tiers|, run.results)
    ensures run.Ran? ==> Critical(Edges(tasks), Ids(tasks), run.criticalPath)
    ensures run.Ran? ==> |Roots(tasks)| <= run.peak <= |tasks|
  {
    var out := TaskGraphs.Sort(tasks);
    if out.Refused? {
      return Rejected(out.fault);
    }
    if concurrency < 1 {
      return NoConcurrency;
    }
    ghost var lv :| Tiered(tasks, lv, out.tiers);
    var results, peak := Execute(tasks, exec, concurrency, lv, out.tiers);
    var path := CriticalPath(tasks);
    run := Ran(results, out.tiers, path, peak);
  }

  method Execute(tasks: seq<Task>, exec: Executor, concurrency: nat, ghost lv: map<Name, nat>, tiers: seq<Tier>)
    returns (results: seq<TaskResult>, peak: int)
    requires TaskGraphs.Valid(tasks) && Tiered(tasks, lv, tiers) && concurrency >= 1
    ensures Reports(tasks, exec, lv, |tiers|, results) && |Roots(tasks)| <= peak <= |tasks|
  {
    var tierOf := TierOf(tasks, lv, tiers);
    var ends;
    ends, peak := RunAll(tasks, exec, concurrency, lv, |tiers|);
    forall i | 0 <= i < |tasks| ensures tasks[i].id in ends {
      assert Ids(tasks)[i] == tasks[i].id;
    }
    var assembled := Assemble(tasks, ends, tierOf);
    forall i | 0 <= i < |tasks| ensures EndOfTask(Edges(tasks), InTierOrder(ById(tasks), exec, lv, |tiers|), lv,
                                                  assembled[i]) {
      assert Ids(tasks)[i] == tasks[i].id;
    }
    results := SortByTier(assembled);
    Reported(tasks, exec, lv, |tiers|, assembled, results);
  }

  method TasksById(tasks: seq<Task>) returns (byID: map<Name, Task>)
    ensures byID == ById(tasks)
  {
    byID := map[];
    for i := 0 to |tasks|
      invariant byID == ById(tasks[..i])
    {
      assert tasks[..i + 1][..i] == tasks[..i];
      byID := byID[tasks[i].id := tasks[i]];
    }
    assert tasks[..|tasks|] == tasks;
  }

  lemma AsManyIds(tasks: seq<Task>)
    requires TaskGraphs.Valid(tasks)
    ensures |Edges(tasks).Keys| == |tasks|
  {
    EdgesAgree(tasks);
    DistinctSize(Ids(tasks));
  }

  // The run itself: every task comes to its end.
  method RunAll(tasks: seq<Task>, exec: Executor, concurrency: nat, ghost lv: map<Name, nat>, ghost n: nat)
    returns (ends: map<Name, End>, peak: int)
    requires TaskGraphs.Valid(tasks) && Rising(NeedsOf(tasks), lv, n) && lv.Keys == Elems(Ids(tasks))
             && concurrency >= 1
    ensures forall x :: x in Ids(tasks) ==>
                          x in ends && Ends(Edges(tasks), InTierOrder(ById(tasks), exec, lv, n), x, ends[x])
    ensures |Roots(tasks)| <= peak <= |tasks|
  {
    EdgesAgree(tasks);
    TierOrderEvaluates(tasks, exec, Edges(tasks), NeedsOf(tasks), lv, n);
    var byID := TasksById(tasks);
    var pending, dependents := Wire(tasks);
    var s := new Scheduler(tasks, byID, exec, concurrency, dependents, pending, InTierOrder(ById(tasks), exec, lv, n));
    s.Run();
    ends, peak := s.now.results, s.peak;
    AsManyIds(tasks);
    forall x | x in Ids(tasks) ensures x in ends
                                       && Ends(Edges(tasks), InTierOrder(ById(tasks), exec, lv, n), x, ends[x]) {
      assert x in Elems(Ids(tasks));
      RunEnds(s, lv, n, x);
    }
  }
}
