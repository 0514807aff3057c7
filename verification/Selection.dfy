// Choosing the spans an answer is drawn from, and laying them out with their gaps marked.
module Selections {
  import opened Options
  import opened Sequences
  import opened Splitting
  import opened Spans

  datatype Selection = Selection(spans: seq<Span>, tokens: int, coverage: real, truncated: bool)

  datatype Refusal = NoBudget | NotThisSource | NoRanking | TooCostly(cost: int)

  datatype Outcome = Selected(selection: Selection) | Refused(why: Refusal)

  function Cost(count: Counter, source: string, s: Span): int {
    if Within(s, |source|) then count(source[s.start..s.end]) else 0
  }

  function TotalCost(count: Counter, source: string, spans: seq<Span>): int {
    if spans == [] then 0
    else
      var n := |spans| - 1;
      TotalCost(count, source, spans[..n]) + Cost(count, source, spans[n])
  }

  function TotalLen(spans: seq<Span>): int {
    if spans == [] then 0
    else
      var n := |spans| - 1;
      TotalLen(spans[..n]) + Len(spans[n])
  }

  ghost predicate ByStart(s: seq<Span>) {
    forall i, j :: 0 <= i < j < |s| ==> s[i].start <= s[j].start
  }

  predicate StartsNoLater(a: Span, b: Span) {
    a.start <= b.start
  }

  // The library's stable sort by start.
  function SortByStart(s: seq<Span>): (r: seq<Span>)
    ensures ByStart(r) && multiset(r) == multiset(s)
  {
    SortIs(StartsNoLater, s);
    SortBy(StartsNoLater, s)
  }

  // Taken down the ranking: whatever still fits.
  function Take(count: Counter, source: string, budget: int, ranked: seq<Span>): seq<Span> {
    if ranked == [] then []
    else
      var n := |ranked| - 1;
      var before := Take(count, source, budget, ranked[..n]);
      if TotalCost(count, source, before) + Cost(count, source, ranked[n]) > budget then before
      else before + [ranked[n]]
  }

  // Where taking down the ranking stands after i spans.
  ghost predicate Taking(count: Counter, source: string, budget: int, ranked: seq<Span>, i: nat, taken: seq<Span>,
                         spent: int, truncated: bool) {
    && i <= |ranked| && taken == Take(count, source, budget, ranked[..i])
    && spent == TotalCost(count, source, taken) <= budget
    && |taken| <= i && (truncated <==> |taken| < i) && (!truncated ==> taken == ranked[..i])
  }

  lemma TakeNext(count: Counter, source: string, budget: int, ranked: seq<Span>, i: nat, taken: seq<Span>,
                 spent: int, truncated: bool)
    requires Taking(count, source, budget, ranked, i, taken, spent, truncated) && i < |ranked|
    ensures var cost := Cost(count, source, ranked[i]);
            if spent + cost > budget then Taking(count, source, budget, ranked, i + 1, taken, spent, true)
            else Taking(count, source, budget, ranked, i + 1, taken + [ranked[i]], spent + cost, truncated)
  {
    var more := taken + [ranked[i]];
    assert ranked[..i + 1] == ranked[..i] + [ranked[i]] && ranked[..i + 1][..i] == ranked[..i];
    assert more[..|taken|] == taken;
  }

  // The same as a function value, so that the loop carries it without its sums.
  type Tally = (nat, seq<Span>, int, bool) -> bool

  ghost predicate Tallies(count: Counter, source: string, budget: int, ranked: seq<Span>, tally: Tally) {
    forall i: nat, taken, spent,
      truncated {:trigger Taking(count, source, budget, ranked, i, taken, spent, truncated)} ::
      tally(i, taken, spent, truncated) <==> Taking(count, source, budget, ranked, i, taken, spent, truncated)
  }

  lemma Tallied(count: Counter, source: string, budget: int, ranked: seq<Span>) returns (tally: Tally)
    requires budget > 0
    ensures Tallies(count, source, budget, ranked, tally) && tally(0, [], 0, false)
  {
    tally := (i: nat, taken: seq<Span>, spent: int, truncated: bool) =>
        Taking(count, source, budget, ranked, i, taken, spent, truncated);
    assert Taking(count, source, budget, ranked, 0, [], 0, false);
  }

  // The next span of the ranking is taken if it fits.
  method TakeOne(count: Counter, source: string, budget: int, ranked: seq<Span>, ghost tally: Tally, i: nat,
                 taken0: seq<Span>, spent0: int, truncated0: bool)
    returns (fits: bool, cost: int, taken: seq<Span>, spent: int, truncated: bool)
    requires Tallies(count, source, budget, ranked, tally) && tally(i, taken0, spent0, truncated0)
    requires i < |ranked| && Within(ranked[i], |source|)
    ensures cost == Cost(count, source, ranked[i]) && (i == 0 ==> (fits <==> cost <= budget))
    ensures tally(i + 1, taken, spent, truncated)
  {
    assert tally(i, taken0, spent0, truncated0) <==>
           Taking(count, source, budget, ranked, i, taken0, spent0, truncated0);
    var sp := ranked[i];
    cost := count(source[sp.start..sp.end]);
    TakeNext(count, source, budget, ranked, i, taken0, spent0, truncated0);
    fits := spent0 + cost <= budget;
    if fits {
      taken, spent, truncated := taken0 + [sp], spent0 + cost, truncated0;
    } else {
      taken, spent, truncated := taken0, spent0, true;
    }
    assert tally(i + 1, taken, spent, truncated) <==>
           Taking(count, source, budget, ranked, i + 1, taken, spent, truncated);
  }

  // Every span lies in this source, and the best ranked one fits the budget.
  ghost predicate Choosable(count: Counter, source: string, budget: int, ranked: seq<Span>) {
    && (forall k :: 0 <= k < |ranked| ==> Within(ranked[k], |source|))
    && (ranked != [] ==> Cost(count, source, ranked[0]) <= budget)
  }

  // The best span first, the rest while they fit; refused when the best does not, or when one is no
  // region of this source.
  method Choose(count: Counter, source: string, budget: int, ranked: seq<Span>)
    returns (refused: Option<Refusal>, taken: seq<Span>, spent: int, truncated: bool)
    requires budget > 0
    ensures refused.None? <==> Choosable(count, source, budget, ranked)
    ensures refused.None? ==> Taking(count, source, budget, ranked, |ranked|, taken, spent, truncated)
    ensures refused.Some? ==> match refused.value
                              case TooCostly(cost) => TooCostlyFor(count, budget, ranked, source, cost)
                              case NotThisSource => Foreign(ranked, source)
                              case _ => false
  {
    ghost var tally := Tallied(count, source, budget, ranked);
    taken, spent, truncated, refused := [], 0, false, None;
    var i := 0;
    while i < |ranked|
      invariant i <= |ranked| && refused.None? && tally(i, taken, spent, truncated)
      invariant forall k :: 0 <= k < i ==> Within(ranked[k], |source|)
      invariant i > 0 ==> Cost(count, source, ranked[0]) <= budget
    {
      if Text(ranked[i], source).None? {
        return Some(NotThisSource), taken, spent, truncated;
      }
      var fits, cost;
      fits, cost, taken, spent, truncated := TakeOne(count, source, budget, ranked, tally, i, taken, spent, truncated);
      if i == 0 && !fits {
        return Some(TooCostly(cost)), taken, spent, truncated;
      }
      i := i + 1;
    }
    assert tally(i, taken, spent, truncated) <==> Taking(count, source, budget, ranked, i, taken, spent, truncated);
  }

  // ----- what greedy taking guarantees -----

  // A ranking of spans of the index, each named once.
  ghost predicate Picks(ranked: seq<Span>, all: seq<Span>) {
    Distinct(ranked) && forall k :: 0 <= k < |ranked| ==> ranked[k] in all
  }

  lemma TakeStep(count: Counter, source: string, budget: int, ranked: seq<Span>, n: nat)
    requires n < |ranked|
    ensures var before := Take(count, source, budget, ranked[..n]);
            Take(count, source, budget, ranked[..n + 1]) ==
            if TotalCost(count, source, before) + Cost(count, source, ranked[n]) > budget then before
            else before + [ranked[n]]
  {
    assert ranked[..n + 1][..n] == ranked[..n];
  }

  lemma CostStep(count: Counter, source: string, spans: seq<Span>, x: Span)
    ensures TotalCost(count, source, spans + [x]) == TotalCost(count, source, spans) + Cost(count, source, x)
  {
    assert (spans + [x])[..|spans|] == spans;
  }

  // taken names only what done does, and nothing twice.
  ghost predicate Among(taken: seq<Span>, done: seq<Span>) {
    Distinct(taken) && forall x :: x in taken ==> x in done
  }

  lemma AmongMore(taken: seq<Span>, done: seq<Span>, x: Span)
    requires Among(taken, done) && x !in done
    ensures Among(taken, done + [x]) && Among(taken + [x], done + [x])
  {}

  lemma {:induction false} TakePicks(count: Counter, source: string, budget: int, ranked: seq<Span>, n: nat)
    requires n <= |ranked| && Distinct(ranked)
    ensures Among(Take(count, source, budget, ranked[..n]), ranked[..n])
  {
    if n > 0 {
      TakePicks(count, source, budget, ranked, n - 1);
      TakeStep(count, source, budget, ranked, n - 1);
      NotBefore(ranked, n - 1);
      AmongMore(Take(count, source, budget, ranked[..n - 1]), ranked[..n - 1], ranked[n - 1]);
    }
  }

  lemma NotBefore(ranked: seq<Span>, n: nat)
    requires n < |ranked| && Distinct(ranked)
    ensures ranked[n] !in ranked[..n] && ranked[..n + 1] == ranked[..n] + [ranked[n]]
  {}

  lemma TakeOnlyAdds(count: Counter, source: string, budget: int, ranked: seq<Span>, n: nat)
    requires n < |ranked| && (forall s: string {:trigger count(s)} :: count(s) >= 0)
    ensures var before, taken := Take(count, source, budget, ranked[..n]), Take(count, source, budget, ranked[..n + 1]);
            before <= taken && TotalCost(count, source, before) <= TotalCost(count, source, taken)
  {
    TakeStep(count, source, budget, ranked, n);
    CostStep(count, source, Take(count, source, budget, ranked[..n]), ranked[n]);
    CostNonNegative(count, source, ranked[n]);
  }

  lemma {:induction false} TakeKeeps(count: Counter, source: string, budget: int, ranked: seq<Span>, i: nat, j: nat)
    requires i <= j <= |ranked| && (forall s: string {:trigger count(s)} :: count(s) >= 0)
    ensures var before, taken := Take(count, source, budget, ranked[..i]), Take(count, source, budget, ranked[..j]);
            before <= taken && TotalCost(count, source, before) <= TotalCost(count, source, taken)
    decreases j
  {
    if i < j {
      TakeKeeps(count, source, budget, ranked, i, j - 1);
      TakeOnlyAdds(count, source, budget, ranked, j - 1);
    }
  }

  lemma CostNonNegative(count: Counter, source: string, x: Span)
    requires forall s: string {:trigger count(s)} :: count(s) >= 0
    ensures Cost(count, source, x) >= 0
  {}

  // Nothing left out would still fit, and the best span is never left out.
  lemma LeftOutWouldNotFit(count: Counter, source: string, budget: int, ranked: seq<Span>, k: nat)
    requires k < |ranked| && (forall s: string {:trigger count(s)} :: count(s) >= 0)
    ensures var taken := Take(count, source, budget, ranked);
            ranked[k] in taken || TotalCost(count, source, taken) + Cost(count, source, ranked[k]) > budget
    ensures Cost(count, source, ranked[0]) <= budget ==>
              Take(count, source, budget, ranked) != [] && Take(count, source, budget, ranked)[0] == ranked[0]
  {
    TakeStep(count, source, budget, ranked, k);
    TakeKeeps(count, source, budget, ranked, k, |ranked|);
    TakeKeeps(count, source, budget, ranked, k + 1, |ranked|);
    TakeStep(count, source, budget, ranked, 0);
    TakeKeeps(count, source, budget, ranked, 1, |ranked|);
    assert ranked[..|ranked|] == ranked && ranked[..0] == [];
    assert Take(count, source, budget, []) == [] && TotalCost(count, source, []) == 0;
  }

  // ----- coverage -----

  // Each span ends before the next begins.
  ghost predicate Disjoint(s: seq<Span>) {
    forall i, j :: 0 <= i < j < |s| ==> s[i].end <= s[j].start
  }

  ghost predicate Proper(s: seq<Span>, n: nat) {
    forall i :: 0 <= i < |s| ==> 0 <= s[i].start < s[i].end <= n
  }

  // The bytes that some span shows.
  ghost function Shown(s: seq<Span>, n: nat): set<int> {
    set b: int | 0 <= b < n && Covers(s, b)
  }

  ghost function Stretch(a: int, b: int): (s: set<int>)
    requires a <= b
    ensures |s| == b - a && forall x :: x in s <==> a <= x < b
    decreases b - a
  {
    if a == b then {} else Stretch(a, b - 1) + {b - 1}
  }

  lemma ShownMore(s: seq<Span>, x: Span, n: nat)
    requires 0 <= x.start <= x.end <= n
    ensures Shown(s + [x], n) == Shown(s, n) + Stretch(x.start, x.end)
  {
    forall b ensures b in Shown(s + [x], n) <==> b in Shown(s, n) + Stretch(x.start, x.end) {
      CoversOneMore(s, x, b);
    }
  }

  // The last span shows something shown before exactly when it begins before another ends.
  lemma LastIsNew(s: seq<Span>, x: Span, n: nat)
    requires Proper(s + [x], n) && ByStart(s + [x]) && 0 <= x.start < x.end <= n
    ensures Shown(s, n) * Stretch(x.start, x.end) == {} <==> forall i :: 0 <= i < |s| ==> s[i].end <= x.start
  {
    var all := s + [x];
    if i :| 0 <= i < |s| && x.start < s[i].end {
      assert all[i].start <= all[|s|].start && all[i] == s[i] && all[|s|] == x;
      assert Covers(s, x.start);
      assert x.start in Shown(s, n) * Stretch(x.start, x.end);
    }
    forall b | b in Shown(s, n) * Stretch(x.start, x.end) ensures exists i :: 0 <= i < |s| && s[i].end > x.start {
      var i :| 0 <= i < |s| && s[i].start <= b < s[i].end;
    }
  }

  lemma Union(a: set<int>, b: set<int>)
    ensures |a + b| <= |a| + |b| && (|a + b| == |a| + |b| <==> a * b == {})
  {
    assert |a + b| == |a| + |b| - |a * b|;
  }

  // The sum of the lengths is what is shown exactly when no two spans overlap.
  lemma {:induction false} LenIsShown(s: seq<Span>, n: nat)
    requires ByStart(s) && Proper(s, n)
    ensures |Shown(s, n)| <= TotalLen(s) && (|Shown(s, n)| == TotalLen(s) <==> Disjoint(s))
  {
    if s == [] {
      assert Shown(s, n) == {};
    } else {
      var k := |s| - 1;
      var front, x := s[..k], s[k];
      assert s == front + [x];
      LenIsShown(front, n);
      ShownMore(front, x, n);
      LastIsNew(front, x, n);
      Union(Shown(front, n), Stretch(x.start, x.end));
      DisjointMore(front, x);
    }
  }

  lemma DisjointMore(s: seq<Span>, x: Span)
    ensures Disjoint(s + [x]) <==> Disjoint(s) && forall i :: 0 <= i < |s| ==> s[i].end <= x.start
  {
    var all := s + [x];
    assert forall i :: 0 <= i < |s| ==> all[i] == s[i];
    assert all[|s|] == x;
  }

  function Coverage(spans: seq<Span>, n: nat): real {
    if n > 0 then TotalLen(spans) as real / n as real else 0.0
  }

  // No two spans share a byte, in whatever order they stand.
  ghost predicate Apart(s: seq<Span>) {
    forall i, j :: 0 <= i < j < |s| ==> s[i].end <= s[j].start || s[j].end <= s[i].start
  }

  // The same of the spans themselves.
  lemma ApartIs(s: seq<Span>, n: nat)
    requires Proper(s, n)
    ensures Apart(s) <==> Distinct(s) && forall x, y ::
                            x in s && y in s && x != y ==> x.end <= y.start || y.end <= x.start
  {
    if Apart(s) {
      forall i, j | 0 <= i < j < |s| ensures s[i] != s[j] {
        assert s[i].start < s[i].end;
      }
      forall x, y | x in s && y in s && x != y ensures x.end <= y.start || y.end <= x.start {
        var i :| 0 <= i < |s| && s[i] == x;
        var j :| 0 <= j < |s| && s[j] == y;
      }
    }
  }

  lemma ApartKeeps(s: seq<Span>, t: seq<Span>, n: nat)
    requires Proper(s, n) && multiset(s) == multiset(t) && Apart(s)
    ensures Proper(t, n) && Apart(t)
  {
    forall i | 0 <= i < |t| ensures t[i] in s {
      var k := FindIn(t, s, i);
    }
    ApartIs(s, n);
    SameElements(t, s);
    ApartIs(t, n);
  }

  // In order of start, being apart is ending before the next begins.
  lemma SortedApart(s: seq<Span>, n: nat)
    requires Proper(s, n) && ByStart(s)
    ensures Apart(s) <==> Disjoint(s)
  {
    if Apart(s) {
      forall i, j | 0 <= i < j < |s| ensures s[i].end <= s[j].start {
        assert s[i].start <= s[j].start < s[j].end;
      }
    }
  }

  // What is reported is the share of the source that is shown.
  ghost predicate Truthful(sel: Selection, n: nat)
    requires n > 0
  {
    sel.coverage == |Shown(sel.spans, n)| as real / n as real
  }

  lemma TruthfulIs(sel: Selection, n: nat)
    requires n > 0 && ByStart(sel.spans) && Proper(sel.spans, n) && sel.coverage == Coverage(sel.spans, n)
    ensures Truthful(sel, n) <==> Apart(sel.spans)
  {
    LenIsShown(sel.spans, n);
    SortedApart(sel.spans, n);
    SameShare(TotalLen(sel.spans), |Shown(sel.spans, n)|, n);
  }

  lemma SameShare(a: int, b: int, n: nat)
    requires n > 0
    ensures a as real / n as real == b as real / n as real <==> a == b
  {
    var x, y := a as real / n as real, b as real / n as real;
    assert x * n as real == a as real && y * n as real == b as real;
  }

  // ----- selecting -----

  // What is selected from a ranking: the greedy choice, in source order, with its cost and share.
  ghost predicate Selects(count: Counter, source: string, budget: int, ranked: seq<Span>, sel: Selection) {
    var taken := Take(count, source, budget, ranked);
    && ByStart(sel.spans) && multiset(sel.spans) == multiset(taken)
    && sel.tokens == TotalCost(count, source, taken) <= budget
    && (sel.truncated <==> |taken| < |ranked|) && (!sel.truncated ==> taken == ranked)
    && sel.coverage == Coverage(sel.spans, |source|)
  }

  // What is taken of a ranking apart is apart.
  lemma TakenApart(count: Counter, source: string, budget: int, ranked: seq<Span>)
    requires Proper(ranked, |source|) && Apart(ranked)
    ensures var taken := Take(count, source, budget, ranked); Proper(taken, |source|) && Apart(taken)
  {
    var taken := Take(count, source, budget, ranked);
    ApartIs(ranked, |source|);
    TakePicks(count, source, budget, ranked, |ranked|);
    assert ranked[..|ranked|] == ranked;
    forall i | 0 <= i < |taken| ensures taken[i] in ranked {}
    ApartIs(taken, |source|);
  }

  // With the budget for it all, all is taken.
  lemma {:induction false} TakesAll(count: Counter, source: string, budget: int, ranked: seq<Span>, n: nat)
    requires n <= |ranked| && TotalCost(count, source, ranked[..n]) <= budget
    requires forall s: string {:trigger count(s)} :: count(s) >= 0
    ensures Take(count, source, budget, ranked[..n]) == ranked[..n]
  {
    if n > 0 {
      assert ranked[..n] == ranked[..n - 1] + [ranked[n - 1]];
      CostStep(count, source, ranked[..n - 1], ranked[n - 1]);
      CostNonNegative(count, source, ranked[n - 1]);
      TakesAll(count, source, budget, ranked, n - 1);
      TakeStep(count, source, budget, ranked, n - 1);
    }
  }

  lemma {:induction false} CostsLess(count: Counter, source: string, spans: seq<Span>)
    requires spans != [] && forall s: string {:trigger count(s)} :: count(s) >= 0
    ensures 0 <= Cost(count, source, spans[0]) <= TotalCost(count, source, spans)
  {
    var n := |spans| - 1;
    CostNonNegative(count, source, spans[n]);
    if n > 0 {
      CostsLess(count, source, spans[..n]);
    } else {
      assert spans[..0] == [];
    }
  }

  // A selection that could be made of a ranking, with some budget.
  ghost predicate Selectable(count: Counter, source: string, budget: int, ranked: seq<Span>, sel: Selection) {
    budget > 0 && Choosable(count, source, budget, ranked) && Selects(count, source, budget, ranked, sel)
  }

  // The whole ranking selected.
  lemma SelectAll(count: Counter, source: string, ranked: seq<Span>) returns (budget: int, sel: Selection)
    requires Proper(ranked, |source|) && ranked != [] && forall s: string {:trigger count(s)} :: count(s) >= 0
    ensures Selectable(count, source, budget, ranked, sel) && multiset(sel.spans) == multiset(ranked)
  {
    var total := TotalCost(count, source, ranked);
    budget := total + 1;
    CostsLess(count, source, ranked);
    assert ranked[..|ranked|] == ranked;
    TakesAll(count, source, budget, ranked, |ranked|);
    var spans := SortByStart(ranked);
    sel := Selection(spans, total, Coverage(spans, |source|), false);
    assert forall k :: 0 <= k < |ranked| ==> Within(ranked[k], |source|);
  }

  // The coverage of every selection from a ranking, whatever the budget, is the share of the source it
  // shows exactly when no two spans of the ranking share a byte.
  lemma CoverageIsTrueWhen(count: Counter, source: string, ranked: seq<Span>)
    requires source != "" && Proper(ranked, |source|) && forall s: string {:trigger count(s)} :: count(s) >= 0
    ensures (forall budget, sel {:trigger Selectable(count, source, budget, ranked, sel)} ::
               Selectable(count, source, budget, ranked, sel) ==> Truthful(sel, |source|)) <==> Apart(ranked)
  {
    if Apart(ranked) {
      forall budget, sel | Selectable(count, source, budget, ranked, sel) ensures Truthful(sel, |source|) {
        ApartIsTrue(count, source, budget, ranked, sel);
      }
    } else {
      var budget, sel := SelectAll(count, source, ranked);
      if Truthful(sel, |source|) {
        ProperToo(ranked, sel.spans, |source|);
        TruthfulIs(sel, |source|);
        ApartKeeps(sel.spans, ranked, |source|);
      }
    }
  }

  lemma ProperToo(s: seq<Span>, t: seq<Span>, n: nat)
    requires Proper(s, n) && multiset(s) == multiset(t)
    ensures Proper(t, n)
  {
    forall i | 0 <= i < |t| ensures 0 <= t[i].start < t[i].end <= n {
      var k := FindIn(t, s, i);
    }
  }

  lemma ApartIsTrue(count: Counter, source: string, budget: int, ranked: seq<Span>, sel: Selection)
    requires source != "" && Proper(ranked, |source|) && Apart(ranked) && Selects(count, source, budget, ranked, sel)
    ensures Truthful(sel, |source|) && Disjoint(sel.spans) && Proper(sel.spans, |source|)
  {
    TakenApart(count, source, budget, ranked);
    ApartKeeps(Take(count, source, budget, ranked), sel.spans, |source|);
    TruthfulIs(sel, |source|);
    SortedApart(sel.spans, |source|);
  }

  // A truthful coverage is at most one.
  lemma TruthfulIsAFraction(sel: Selection, n: nat)
    requires n > 0 && Truthful(sel, n)
    ensures 0.0 <= sel.coverage <= 1.0
  {
    assert Shown(sel.spans, n) <= Stretch(0, n);
    SubsetSize(Shown(sel.spans, n), Stretch(0, n));
    Fraction(|Shown(sel.spans, n)|, n);
  }

  lemma Fraction(part: int, whole: nat)
    requires 0 <= part <= whole && whole > 0
    ensures 0.0 <= part as real / whole as real <= 1.0
  {}

  // A merged index ranked without repeats is such a ranking.
  lemma PicksAreApart(ranked: seq<Span>, all: seq<Span>, n: nat)
    requires Separated(all) && Proper(all, n) && Picks(ranked, all)
    ensures Proper(ranked, n) && Apart(ranked)
  {
    forall i, j | 0 <= i < j < |ranked| ensures ranked[i].end <= ranked[j].start || ranked[j].end <= ranked[i].start {
      var x :| 0 <= x < |all| && all[x] == ranked[i];
      var y :| 0 <= y < |all| && all[y] == ranked[j];
    }
  }

  // A retriever that names a passage twice: all of a source of two bytes, reported as twice the source.
  lemma CoverageCanExceedOne(s: Span, count: Counter, sel: Selection)
    requires s == Span(0, 2, 0, "", 1.0) && sel == Selection([s, s], 4, 2.0, false)
    requires count("ab") == 2
    ensures Separated([s]) && Proper([s], 2) && !Apart([s, s])
    ensures Selectable(count, "ab", 4, [s, s], sel) && sel.coverage > 1.0
  {
    TwiceTaken(s, count);
    assert [s, s][..1] == [s];
    assert TotalLen([s, s]) == 4 by {
      assert TotalLen([s]) == 2 by { assert [s][..0] == [] && TotalLen([]) == 0; }
    }
    assert !([s, s][0].end <= [s, s][1].start);
    assert Coverage([s, s], 2) == 2.0;
  }

  lemma TwiceTaken(s: Span, count: Counter)
    requires s == Span(0, 2, 0, "", 1.0) && count("ab") == 2
    ensures Take(count, "ab", 4, [s, s]) == [s, s] && TotalCost(count, "ab", [s, s]) == 4 && Cost(count, "ab", s) == 2
  {
    assert "ab"[0..2] == "ab";
    assert Take(count, "ab", 4, []) == [] && TotalCost(count, "ab", []) == 0;
    CostStep(count, "ab", [], s);
    CostStep(count, "ab", [s], s);
    assert [] + [s] == [s] && [s] + [s] == [s, s] && [s, s][..0] == [] && [s, s][..1] == [s] && [s, s][..2] == [s, s];
    TakeStep(count, "ab", 4, [s, s], 0);
    TakeStep(count, "ab", 4, [s, s], 1);
  }

  // The best passage is always there, and none left out would still fit.
  lemma SelectionIsGreedy(count: Counter, source: string, budget: int, ranked: seq<Span>, sel: Selection)
    requires Selects(count, source, budget, ranked, sel) && Choosable(count, source, budget, ranked)
    requires forall s: string {:trigger count(s)} :: count(s) >= 0
    ensures ranked != [] ==> ranked[0] in sel.spans
    ensures forall k :: 0 <= k < |ranked| ==>
                          ranked[k] in sel.spans || sel.tokens + Cost(count, source, ranked[k]) > budget
  {
    NothingBetterLeftOut(count, source, budget, ranked);
    SameElements(sel.spans, Take(count, source, budget, ranked));
  }

  lemma NothingBetterLeftOut(count: Counter, source: string, budget: int, ranked: seq<Span>)
    requires forall s: string {:trigger count(s)} :: count(s) >= 0
    ensures var taken := Take(count, source, budget, ranked);
            && (ranked != [] && Cost(count, source, ranked[0]) <= budget ==> ranked[0] in taken)
            && (forall k :: 0 <= k < |ranked| ==>
                              ranked[k] in taken
                              || TotalCost(count, source, taken) + Cost(count, source, ranked[k]) > budget)
  {
    forall k | 0 <= k < |ranked|
      ensures ranked[k] in Take(count, source, budget, ranked)
              || TotalCost(count, source, Take(count, source, budget, ranked)) + Cost(count, source, ranked[k]) > budget
    {
      LeftOutWouldNotFit(count, source, budget, ranked, k);
    }
    if ranked != [] {
      LeftOutWouldNotFit(count, source, budget, ranked, 0);
    }
  }

  method Measure(spans: seq<Span>) returns (covered: int)
    ensures covered == TotalLen(spans)
  {
    covered := 0;
    for i := 0 to |spans|
      invariant covered == TotalLen(spans[..i])
    {
      assert spans[..i + 1][..i] == spans[..i];
      covered := covered + Len(spans[i]);
    }
    assert spans[..|spans|] == spans;
  }

  // The retriever's ranking of the index, or its failure.
  type Retriever = seq<Span> -> Option<seq<Span>>

  // The reason given for a refusal is a true one.
  ghost predicate Refuses(count: Counter, budget: int, retrieve: Retriever, all: seq<Span>, source: string,
                          why: Refusal) {
    match why
    case NoBudget => budget <= 0
    case NoRanking => retrieve(all).None?
    case TooCostly(cost) => retrieve(all).Some? && TooCostlyFor(count, budget, retrieve(all).value, source, cost)
    case NotThisSource => !Proper(all, |source|) || (retrieve(all).Some? && Foreign(retrieve(all).value, source))
  }

  // The best span of a ranking does not fit.
  ghost predicate TooCostlyFor(count: Counter, budget: int, ranked: seq<Span>, source: string, cost: int) {
    ranked != [] && cost == Cost(count, source, ranked[0]) > budget
  }

  // A ranking with a span that is no region of this source.
  ghost predicate Foreign(ranked: seq<Span>, source: string) {
    exists k :: 0 <= k < |ranked| && !Within(ranked[k], |source|)
  }

  // What is taken, in source order, with its cost and share.
  method Finish(count: Counter, budget: int, ranked: seq<Span>, source: string, taken: seq<Span>, spent: int,
                truncated: bool)
    returns (sel: Selection)
    requires Taking(count, source, budget, ranked, |ranked|, taken, spent, truncated)
    ensures Selects(count, source, budget, ranked, sel)
  {
    assert ranked[..|ranked|] == ranked;
    var spans := SortByStart(taken);
    var covered := Measure(spans);
    var coverage := if |source| > 0 then covered as real / |source| as real else 0.0;
    sel := Selection(spans, spent, coverage, truncated);
  }

  method SelectRanked(count: Counter, budget: int, ranked: seq<Span>, source: string) returns (out: Outcome)
    requires budget > 0
    ensures out.Selected? <==> Choosable(count, source, budget, ranked)
    ensures out.Selected? ==> Selects(count, source, budget, ranked, out.selection)
    ensures out.Refused? ==>
              || (out.why.TooCostly? && TooCostlyFor(count, budget, ranked, source, out.why.cost))
              || (out.why.NotThisSource? && Foreign(ranked, source))
  {
    var refused, taken, spent, truncated := Choose(count, source, budget, ranked);
    if refused.Some? {
      return Refused(refused.value);
    }
    var sel := Finish(count, budget, ranked, source, taken, spent, truncated);
    out := Selected(sel);
  }

  method Select(count: Counter, budget: int, retrieve: Retriever, ix: Index, source: string) returns (out: Outcome)
    requires ix.Valid()
    ensures out.Selected? <==>
            && budget > 0 && Proper(ix.Contents(), |source|) && retrieve(ix.Contents()).Some?
            && Choosable(count, source, budget, retrieve(ix.Contents()).value)
    ensures out.Selected? ==> Selects(count, source, budget, retrieve(ix.Contents()).value, out.selection)
    ensures out.Refused? ==> Refuses(count, budget, retrieve, ix.Contents(), source, out.why)
  {
    if budget <= 0 {
      return Refused(NoBudget);
    }
    var bad := ix.Validate(source);
    if bad.Some? {
      return Refused(NotThisSource);
    }
    var answer := retrieve(ix.spans[..ix.used]);
    if answer.None? {
      return Refused(NoRanking);
    }
    out := SelectRanked(count, budget, answer.value, source);
  }

  // ----- assembling -----

  // A region of the source, shown or only counted.
  datatype Piece = Passage(from: int, to: int) | Gap(from: int, to: int)

  type Marker = int -> string

  // What one more span adds.
  function Added(spans: seq<Span>, i: nat): seq<Piece>
    requires i < |spans|
  {
    var last := Passage(spans[i].start, spans[i].end);
    if i > 0 && spans[i].start > spans[i - 1].end then [Gap(spans[i - 1].end, spans[i].start), last] else [last]
  }

  function Pieces(spans: seq<Span>): seq<Piece> {
    if spans == [] then [] else Pieces(spans[..|spans| - 1]) + Added(spans, |spans| - 1)
  }

  function Printed(p: Piece, source: string, marker: Marker): string {
    match p
    case Passage(from, to) => if 0 <= from <= to <= |source| then source[from..to] else ""
    case Gap(from, to) => marker(to - from)
  }

  function Laid(pieces: seq<Piece>, source: string, marker: Marker): string {
    if pieces == [] then ""
    else
      var n := |pieces| - 1;
      Laid(pieces[..n], source, marker) + Printed(pieces[n], source, marker)
  }

  function Original(p: Piece, source: string): string {
    if 0 <= p.from <= p.to <= |source| then source[p.from..p.to] else ""
  }

  // The same pieces with every gap given back its text.
  function Restored(pieces: seq<Piece>, source: string): string {
    if pieces == [] then ""
    else
      var n := |pieces| - 1;
      Restored(pieces[..n], source) + Original(pieces[n], source)
  }

  function Header(skeleton: string): string {
    if skeleton == "" then ""
    else "# Document overview\n\n" + skeleton + "\n\n# Relevant passages, in document order\n\n"
  }

  lemma LaidMore(pieces: seq<Piece>, p: Piece, source: string, marker: Marker)
    ensures Laid(pieces + [p], source, marker) == Laid(pieces, source, marker) + Printed(p, source, marker)
  {
    assert (pieces + [p])[..|pieces|] == pieces;
  }

  lemma RestoredMore(pieces: seq<Piece>, p: Piece, source: string)
    ensures Restored(pieces + [p], source) == Restored(pieces, source) + Original(p, source)
  {
    assert (pieces + [p])[..|pieces|] == pieces;
  }

  lemma PiecesStep(spans: seq<Span>, i: nat)
    requires i < |spans|
    ensures Pieces(spans[..i + 1]) == Pieces(spans[..i]) + Added(spans, i)
  {
    assert spans[..i + 1][..i] == spans[..i];
  }

  // The text the next span is laid out with.
  function Appended(spans: seq<Span>, i: nat, source: string, marker: Marker): string
    requires i < |spans| && Within(spans[i], |source|)
  {
    var text := source[spans[i].start..spans[i].end];
    if i > 0 && spans[i].start > spans[i - 1].end then marker(spans[i].start - spans[i - 1].end) + text else text
  }

  lemma LaidTwo(done: seq<Piece>, p: Piece, q: Piece, source: string, marker: Marker)
    ensures Laid(done + [p, q], source, marker) ==
            Laid(done, source, marker) + (Printed(p, source, marker) + Printed(q, source, marker))
  {
    LaidMore(done, p, source, marker);
    LaidMore(done + [p], q, source, marker);
    assert done + [p, q] == done + [p] + [q];
    Regroup(Laid(done, source, marker), Printed(p, source, marker), Printed(q, source, marker));
  }

  lemma Regroup(a: string, b: string, c: string)
    ensures a + b + c == a + (b + c)
  {}

  lemma AddedLaid(done: seq<Piece>, spans: seq<Span>, i: nat, source: string, marker: Marker)
    requires i < |spans| && Within(spans[i], |source|)
    ensures Laid(done + Added(spans, i), source, marker) ==
            Laid(done, source, marker) + Appended(spans, i, source, marker)
  {
    var added := Added(spans, i);
    if |added| == 2 {
      LaidTwo(done, added[0], added[1], source, marker);
    } else {
      LaidMore(done, added[0], source, marker);
    }
  }

  // The text laid out after each span, as a function value.
  ghost predicate Lays(spans: seq<Span>, header: string, source: string, marker: Marker, laid: nat -> string) {
    forall i: nat {:trigger laid(i)} :: i <= |spans| ==> laid(i) == header + Laid(Pieces(spans[..i]), source, marker)
  }

  ghost function LaidAll(spans: seq<Span>, header: string, source: string, marker: Marker): (laid: nat -> string)
    ensures Lays(spans, header, source, marker, laid)
  {
    (i: nat) => if i <= |spans| then header + Laid(Pieces(spans[..i]), source, marker) else ""
  }

  lemma LaidStep(spans: seq<Span>, i: nat, header: string, source: string, marker: Marker, laid: nat -> string)
    requires i < |spans| && Within(spans[i], |source|) && Lays(spans, header, source, marker, laid)
    ensures laid(i + 1) == laid(i) + Appended(spans, i, source, marker)
  {
    PiecesStep(spans, i);
    AddedLaid(Pieces(spans[..i]), spans, i, source, marker);
    Regroup(header, Laid(Pieces(spans[..i]), source, marker), Appended(spans, i, source, marker));
  }

  // One passage, marked when it does not follow on.
  method AppendPassage(b0: string, spans: seq<Span>, i: nat, prev0: int, source: string, marker: Marker)
    returns (b: string, prev: int)
    requires i < |spans| && Within(spans[i], |source|) && prev0 == (if i == 0 then -1 else spans[i - 1].end)
             && (i > 0 ==> prev0 >= 0)
    ensures b == b0 + Appended(spans, i, source, marker) && prev == spans[i].end
  {
    b := b0;
    var sp := spans[i];
    if prev0 >= 0 && sp.start > prev0 {
      b := b + marker(sp.start - prev0);
    }
    b := b + source[sp.start..sp.end];
    prev := sp.end;
  }

  // Each text is the one before it with one more passage.
  ghost predicate Grows(spans: seq<Span>, source: string, marker: Marker, laid: nat -> string) {
    forall i: nat {:trigger Appended(spans, i, source, marker)} ::
      i < |spans| && Within(spans[i], |source|) ==> laid(i + 1) == laid(i) + Appended(spans, i, source, marker)
  }

  lemma LaidGrows(spans: seq<Span>, header: string, source: string, marker: Marker, laid: nat -> string)
    requires Lays(spans, header, source, marker, laid)
    ensures Grows(spans, source, marker, laid) && laid(0) == header
            && laid(|spans|) == header + Laid(Pieces(spans), source, marker)
  {
    forall i: nat | i < |spans|
                    && Within(spans[i], |source|) ensures laid(i + 1) == laid(i) + Appended(spans, i, source, marker) {
      LaidStep(spans, i, header, source, marker, laid);
    }
    assert spans[..|spans|] == spans && spans[..0] == [];
    assert laid(0) == header + Laid(Pieces([]), source, marker);
  }

  method Lay(spans: seq<Span>, source: string, marker: Marker, header: string, ghost laid: nat -> string)
    returns (out: Option<string>)
    requires Grows(spans, source, marker, laid) && laid(0) == header
    ensures out.Some? <==> forall i :: 0 <= i < |spans| ==> Within(spans[i], |source|)
    ensures out.Some? ==> out.value == laid(|spans|)
  {
    var b, prev := header, -1;
    for i := 0 to |spans|
      invariant prev == if i == 0 then -1 else spans[i - 1].end
      invariant forall k :: 0 <= k < i ==> Within(spans[k], |source|)
      invariant b == laid(i)
    {
      if Text(spans[i], source).None? {
        return None;
      }
      b, prev := AppendPassage(b, spans, i, prev, source, marker);
    }
    out := Some(b);
  }

  // The skeleton, then the passages in reading order with what is missing between them counted.
  method Assemble(spans: seq<Span>, skeleton: string, source: string, marker: Marker) returns (out: Option<string>)
    ensures out.Some? <==> forall i :: 0 <= i < |spans| ==> Within(spans[i], |source|)
    ensures out.Some? ==> out.value == Header(skeleton) + Laid(Pieces(spans), source, marker)
  {
    var b := Title(skeleton);
    ghost var laid := LaidAll(spans, b, source, marker);
    LaidGrows(spans, b, source, marker, laid);
    out := Lay(spans, source, marker, b, laid);
  }

  method Title(skeleton: string) returns (b: string)
    ensures b == Header(skeleton)
  {
    b := "";
    if skeleton != "" {
      b := b + "# Document overview\n\n";
      b := b + skeleton;
      b := b + "\n\n# Relevant passages, in document order\n\n";
    }
  }

  // Spliced passages are never passed off as adjoining: giving every marked gap its text back gives the
  // source between the first passage and the last, with not one character shown twice or uncounted.
  lemma {:induction false} GapsAccountForTheRest(spans: seq<Span>, source: string)
    requires Disjoint(spans) && Proper(spans, |source|) && spans != []
    ensures spans[0].start <= spans[|spans| - 1].end
    ensures Restored(Pieces(spans), source) == source[spans[0].start..spans[|spans| - 1].end]
  {
    var n := |spans| - 1;
    var done, last := Pieces(spans[..n]), Passage(spans[n].start, spans[n].end);
    if n > 0 {
      GapsAccountForTheRest(spans[..n], source);
      assert Restored(done, source) == source[spans[0].start..spans[n - 1].end];
      AddedRestored(done, spans, source);
    } else {
      assert Added(spans, n) == [last] && done + [last] == [last];
      RestoredMore(done, last, source);
    }
  }

  lemma RestoredTwo(done: seq<Piece>, p: Piece, q: Piece, source: string)
    ensures Restored(done + [p, q], source) == Restored(done, source) + Original(p, source) + Original(q, source)
  {
    RestoredMore(done, p, source);
    RestoredMore(done + [p], q, source);
    assert done + [p, q] == done + [p] + [q];
  }

  lemma AddedRestored(done: seq<Piece>, spans: seq<Span>, source: string)
    requires |spans| > 1 && Disjoint(spans) && Proper(spans, |source|)
    requires Restored(done, source) == source[spans[0].start..spans[|spans| - 2].end]
    ensures Restored(done + Added(spans, |spans| - 1), source) == source[spans[0].start..spans[|spans| - 1].end]
  {
    var n := |spans| - 1;
    var from, prev := spans[0].start, spans[n - 1].end;
    assert spans[0].end <= prev && prev <= spans[n].start;
    RestoredOn(done, source, from, prev, spans[n].start, spans[n].end);
  }

  lemma RestoredOn(done: seq<Piece>, source: string, from: int, prev: int, start: int, end: int)
    requires 0 <= from <= prev <= start <= end <= |source| && Restored(done, source) == source[from..prev]
    ensures var last := Passage(start, end);
            Restored(done + (if start > prev then [Gap(prev, start), last] else [last]), source) == source[from..end]
  {
    Joins(source, from, prev, start);
    Joins(source, from, start, end);
    if start > prev {
      RestoredTwo(done, Gap(prev, start), Passage(start, end), source);
    } else {
      RestoredMore(done, Passage(start, end), source);
    }
  }

  lemma Joins(source: string, a: int, b: int, c: int)
    requires 0 <= a <= b <= c <= |source|
    ensures source[a..b] + source[b..c] == source[a..c]
  {}

  // The passages are the spans themselves, a gap is never empty, and two never stand together.
  lemma {:induction false} PassagesAreTheSpans(spans: seq<Span>, k: nat)
    requires k < |Pieces(spans)|
    ensures var p := Pieces(spans)[k];
            match p
            case Gap(from, to) => from < to && 0 < k < |Pieces(spans)| - 1 && Pieces(spans)[k - 1].Passage?
                                  && Pieces(spans)[k + 1].Passage?
                                  && Pieces(spans)[k - 1].to == from && Pieces(spans)[k + 1].from == to
            case Passage(from, to) => exists s :: s in spans && from == s.start && to == s.end
    decreases |spans|
  {
    var n := |spans| - 1;
    if k < |Pieces(spans[..n])| {
      PassagesAreTheSpans(spans[..n], k);
    }
    if n > 0 {
      LastPiece(spans[..n]);
    }
    assert spans[n] in spans;
  }

  lemma LastPiece(spans: seq<Span>)
    requires spans != []
    ensures Pieces(spans) != []
            && Pieces(spans)[|Pieces(spans)| - 1] == Passage(spans[|spans| - 1].start, spans[|spans| - 1].end)
  {}
}
