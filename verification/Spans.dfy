// The index of a document as regions of its bytes: sorting and merging it, and checking it against
// the source it points into.
module Spans {
  import opened Options
  import opened Sequences

  // Half-open, in bytes.
  datatype Span = Span(start: int, end: int, chunk: nat, topic: string, weight: real)

  function Len(s: Span): int {
    s.end - s.start
  }

  predicate Within(s: Span, n: nat) {
    0 <= s.start <= s.end <= n
  }

  // The source's own bytes, if the span lies in it.
  function Text(s: Span, source: string): Option<string> {
    if Within(s, |source|) then Some(source[s.start..s.end]) else None
  }

  // ----- order and overlap -----

  predicate NotAfter(a: Span, b: Span) {
    a.start < b.start || (a.start == b.start && a.end <= b.end)
  }

  ghost predicate InOrder(s: seq<Span>) {
    forall i, j :: 0 <= i < j < |s| ==> NotAfter(s[i], s[j])
  }

  // No two touch.
  ghost predicate Separated(s: seq<Span>) {
    forall i, j :: 0 <= i < j < |s| ==> s[i].end < s[j].start
  }

  ghost predicate Covers(s: seq<Span>, b: int) {
    exists i :: 0 <= i < |s| && s[i].start <= b < s[i].end
  }

  // Every span of s lies in one of t at least as heavy.
  ghost predicate Absorbed(s: Span, t: seq<Span>) {
    exists k :: 0 <= k < |t| && t[k].start <= s.start && s.end <= t[k].end && s.weight <= t[k].weight
  }

  predicate LiesIn(s: Span, t: Span) {
    t.start <= s.start && s.end <= t.end
  }

  // t begins as one span of s, is labelled as it is, and ends and weighs as some of those in it do.
  ghost predicate EdgesFrom(t: Span, s: seq<Span>) {
    BeginsFrom(t, s) && EndsFrom(t, s) && WeighsFrom(t, s)
  }

  ghost predicate BeginsFrom(t: Span, s: seq<Span>) {
    exists i :: 0 <= i < |s| && BeginsAs(t, s[i]) && LiesIn(s[i], t)
  }

  ghost predicate EndsFrom(t: Span, s: seq<Span>) {
    exists j :: 0 <= j < |s| && t.end == s[j].end && LiesIn(s[j], t)
  }

  ghost predicate WeighsFrom(t: Span, s: seq<Span>) {
    exists k :: 0 <= k < |s| && t.weight == s[k].weight && LiesIn(s[k], t)
  }

  predicate BeginsAs(t: Span, s: Span) {
    t.start == s.start && t.chunk == s.chunk && t.topic == s.topic
  }

  // The library's stable sort by start, then by end.
  function SortSpans(s: seq<Span>): (r: seq<Span>)
    ensures InOrder(r) && multiset(r) == multiset(s)
  {
    SortIs(NotAfter, s);
    SortBy(NotAfter, s)
  }

  // s joined to the last of the merged spans when it starts no later than that ends.
  function Joined(last: Span, s: Span): Span {
    last.(end := if s.end > last.end then s.end else last.end, weight := if s.weight > last.weight then s.weight
    else last.weight)
  }

  function Merge(merged: seq<Span>, s: Span): seq<Span> {
    var n := |merged|;
    if n > 0 && s.start <= merged[n - 1].end then merged[n - 1 := Joined(merged[n - 1], s)] else merged + [s]
  }

  ghost predicate EdgesAllFrom(t: seq<Span>, s: seq<Span>) {
    forall k {:trigger EdgesFrom(t[k], s)} :: 0 <= k < |t| ==> EdgesFrom(t[k], s)
  }

  // Where merging the first spans of an ordered list stands.
  ghost predicate Merged(done: seq<Span>, merged: seq<Span>) {
    && Separated(merged) && |merged| <= |done| && (done != [] ==> merged != [])
    && (forall b {:trigger Covers(merged, b)} :: Covers(merged, b) <==> Covers(done, b))
    && (forall i {:trigger Absorbed(done[i], merged)} :: 0 <= i < |done| ==> Absorbed(done[i], merged))
    && EdgesAllFrom(merged, done)
  }

  lemma MergeSeparates(merged: seq<Span>, s: Span)
    requires Separated(merged) && (forall k :: 0 <= k < |merged| ==> merged[k].start <= s.start)
    ensures Separated(Merge(merged, s))
  {}

  lemma MergeCovers(merged: seq<Span>, s: Span, b: int)
    requires Separated(merged) && (forall k :: 0 <= k < |merged| ==> merged[k].start <= s.start)
    ensures Covers(Merge(merged, s), b) <==> Covers(merged, b) || s.start <= b < s.end
  {
    var n, next := |merged|, Merge(merged, s);
    if Covers(merged, b) {
      var i :| 0 <= i < n && merged[i].start <= b < merged[i].end;
      assert next[i].start <= b < next[i].end;
    }
    if s.start <= b < s.end {
      var last := |next| - 1;
      assert n > 0 && s.start <= merged[n - 1].end ==> next[n - 1].start <= b < next[n - 1].end;
      assert next[last].start <= b < next[last].end;
    }
    if Covers(next, b) {
      var i :| 0 <= i < |next| && next[i].start <= b < next[i].end;
      if i < n && !(merged[i].start <= b < merged[i].end) {
        assert i == n - 1;
      }
    }
  }

  lemma MergeAbsorbs(merged: seq<Span>, s: Span, d: Span)
    requires Absorbed(d, merged) || d == s
    requires forall k :: 0 <= k < |merged| ==> merged[k].start <= s.start
    ensures Absorbed(d, Merge(merged, s))
  {
    var n, next := |merged|, Merge(merged, s);
    if d == s {
      var k := |next| - 1;
      assert next[k].start <= d.start && d.end <= next[k].end && d.weight <= next[k].weight;
    } else {
      var k :| 0 <= k < n && merged[k].start <= d.start && d.end <= merged[k].end && d.weight <= merged[k].weight;
      assert next[k].start <= d.start && d.end <= next[k].end && d.weight <= next[k].weight;
    }
  }

  // What holds of a span among some still holds when there is one more...
  lemma EdgesStill(t: Span, done: seq<Span>, s: Span)
    requires EdgesFrom(t, done)
    ensures EdgesFrom(t, done + [s])
  {
    var all := done + [s];
    var i :| 0 <= i < |done| && BeginsAs(t, done[i]) && LiesIn(done[i], t);
    var j :| 0 <= j < |done| && t.end == done[j].end && LiesIn(done[j], t);
    var k :| 0 <= k < |done| && t.weight == done[k].weight && LiesIn(done[k], t);
    assert all[i] == done[i] && all[j] == done[j] && all[k] == done[k];
  }

  // ...and of the two joined.
  lemma EdgesJoined(t: Span, all: seq<Span>, s: Span)
    requires EdgesFrom(t, all) && s in all && t.start <= s.start
    ensures EdgesFrom(Joined(t, s), all)
  {
    var u := Joined(t, s);
    assert LiesIn(s, u) && forall a :: LiesIn(a, t) ==> LiesIn(a, u);
    var i :| 0 <= i < |all| && BeginsAs(t, all[i]) && LiesIn(all[i], t);
    assert BeginsAs(u, all[i]) && LiesIn(all[i], u);
    var j :| 0 <= j < |all| && t.end == all[j].end && LiesIn(all[j], t);
    var k :| 0 <= k < |all| && t.weight == all[k].weight && LiesIn(all[k], t);
    var n :| 0 <= n < |all| && all[n] == s;
    assert u.end == all[if u.end == t.end then j else n].end;
    assert u.weight == all[if u.weight == t.weight then k else n].weight;
  }

  lemma MergeEdges(merged: seq<Span>, done: seq<Span>, s: Span, k: nat)
    requires k < |Merge(merged, s)| && EdgesAllFrom(merged, done)
    requires forall k :: 0 <= k < |merged| ==> merged[k].start <= s.start
    ensures EdgesFrom(Merge(merged, s)[k], done + [s])
  {
    if k < |merged| {
      assert EdgesFrom(merged[k], done);
      EdgesStill(merged[k], done, s);
      EdgesJoined(merged[k], done + [s], s);
    } else {
      assert (done + [s])[|done|] == s && BeginsAs(s, s) && LiesIn(s, s);
    }
  }

  lemma StartsFrom(merged: seq<Span>, done: seq<Span>, s: Span)
    requires EdgesAllFrom(merged, done) && InOrder(done + [s])
    ensures forall k :: 0 <= k < |merged| ==> merged[k].start <= s.start
  {
    forall k | 0 <= k < |merged| ensures merged[k].start <= s.start {
      assert EdgesFrom(merged[k], done);
      var i :| 0 <= i < |done| && BeginsAs(merged[k], done[i]);
      assert NotAfter((done + [s])[i], (done + [s])[|done|]);
    }
  }

  lemma AbsorbedMore(done: seq<Span>, merged: seq<Span>, s: Span, i: nat)
    requires (forall i {:trigger Absorbed(done[i], merged)} :: 0 <= i < |done| ==> Absorbed(done[i], merged))
             && i <= |done|
    requires forall k :: 0 <= k < |merged| ==> merged[k].start <= s.start
    ensures Absorbed((done + [s])[i], Merge(merged, s))
  {
    if i < |done| {
      assert (done + [s])[i] == done[i];
      assert Absorbed(done[i], merged);
    }
    MergeAbsorbs(merged, s, (done + [s])[i]);
  }

  lemma MergedMore(done: seq<Span>, merged: seq<Span>, s: Span)
    requires Merged(done, merged) && InOrder(done + [s])
    ensures Merged(done + [s], Merge(merged, s))
  {
    var all, next := done + [s], Merge(merged, s);
    StartsFrom(merged, done, s);
    MergeSeparates(merged, s);
    forall b ensures Covers(next, b) <==> Covers(all, b) {
      MergeCovers(merged, s, b);
      CoversOneMore(done, s, b);
    }
    forall i | 0 <= i < |all| ensures Absorbed(all[i], next) {
      AbsorbedMore(done, merged, s, i);
    }
    forall k | 0 <= k < |next| ensures EdgesFrom(next[k], all) {
      MergeEdges(merged, done, s, k);
    }
  }

  lemma CoversOneMore(done: seq<Span>, s: Span, b: int)
    ensures Covers(done + [s], b) <==> Covers(done, b) || s.start <= b < s.end
  {
    var all := done + [s];
    if Covers(done, b) {
      var i :| 0 <= i < |done| && done[i].start <= b < done[i].end;
      assert all[i].start <= b < all[i].end;
    }
    if s.start <= b < s.end {
      assert all[|done|].start <= b < all[|done|].end;
    }
  }

  // One span joined to the last of those kept, or kept after it, in place.
  method Keep(a: array<Span>, n0: nat, s: Span, ghost i: nat) returns (n: nat)
    requires n0 <= i < a.Length
    modifies a
    ensures n0 <= n <= i + 1 && a[..n] == Merge(old(a[..n0]), s)
    ensures forall k :: i < k < a.Length ==> a[k] == old(a[k])
  {
    n := n0;
    if n > 0 && s.start <= a[n - 1].end {
      if s.end > a[n - 1].end {
        a[n - 1] := a[n - 1].(end := s.end);
      }
      if s.weight > a[n - 1].weight {
        a[n - 1] := a[n - 1].(weight := s.weight);
      }
    } else {
      a[n] := s;
      n := n + 1;
    }
    assert a[..n] == Merge(old(a[..n0]), s);
  }

  method MergeNext(a: array<Span>, n0: nat, i: nat, ghost was: seq<Span>) returns (n: nat)
    requires n0 <= i < a.Length && i < |was| && a[i] == was[i] && InOrder(was) && Merged(was[..i], a[..n0])
    modifies a
    ensures n <= i + 1 && Merged(was[..i + 1], a[..n])
    ensures forall k :: i < k < a.Length ==> a[k] == old(a[k])
  {
    assert was[..i + 1] == was[..i] + [a[i]];
    MergedMore(was[..i], a[..n0], a[i]);
    n := Keep(a, n0, a[i], i);
  }

  // Merging in place over the list being read.
  method Compact(a: array<Span>, used: nat) returns (n: nat)
    requires used <= a.Length && InOrder(a[..used])
    modifies a
    ensures n <= used && Merged(old(a[..used]), a[..n])
  {
    ghost var was := a[..used];
    n := 0;
    for i := 0 to used
      invariant n <= i && Merged(was[..i], a[..n])
      invariant forall k :: i <= k < a.Length ==> a[k] == old(a[k])
    {
      n := MergeNext(a, n, i, was);
    }
    assert was[..used] == was;
  }

  // Every span known about one input.
  class Index {
    var skeleton: string
    var spans: array<Span>
    var used: nat

    ghost predicate Valid()
      reads this
    {
      used <= spans.Length
    }

    ghost function Contents(): seq<Span>
      reads this, spans
      requires Valid()
    {
      spans[..used]
    }

    constructor (skeleton: string, all: seq<Span>)
      ensures Valid() && Contents() == all && this.skeleton == skeleton && fresh(spans)
    {
      this.skeleton, used := skeleton, |all|;
      spans := new Span[|all|](i requires 0 <= i < |all| => all[i]);
    }

    // Source order, overlaps merged, in place.
    method Sort()
      requires Valid()
      modifies this`used, spans
      ensures Valid() && spans == old(spans) && used <= old(used)
      ensures exists sorted ::
                InOrder(sorted) && multiset(sorted) == multiset(old(Contents()))
                && Merged(sorted, Contents())
    {
      var sorted := SortSpans(spans[..used]);
      assert |multiset(sorted)| == used;
      forall i | 0 <= i < |sorted| {
        spans[i] := sorted[i];
      }
      assert spans[..used] == sorted;
      used := Compact(spans, used);
    }

    // The first span that is not a region of this source, if there is one.
    method Validate(source: string) returns (bad: Option<nat>)
      requires Valid()
      ensures bad.None? <==> forall i :: 0 <= i < used ==> 0 <= spans[i].start < spans[i].end <= |source|
      ensures bad.Some? ==> bad.value < used && !(0 <= spans[bad.value].start < spans[bad.value].end <= |source|)
    {
      for i := 0 to used
        invariant forall k :: 0 <= k < i ==> 0 <= spans[k].start < spans[k].end <= |source|
      {
        if Text(spans[i], source).None? {
          return Some(i);
        }
        if Len(spans[i]) <= 0 {
          return Some(i);
        }
      }
      bad := None;
    }
  }

  // Sorting keeps every byte, joins nothing that does not touch, and leaves a valid index valid.
  lemma SortKeepsTheDocument(before: seq<Span>, sorted: seq<Span>, after: seq<Span>, n: nat)
    requires multiset(sorted) == multiset(before) && Merged(sorted, after)
    ensures Separated(after) && forall b :: Covers(after, b) <==> Covers(before, b)
    ensures forall i :: 0 <= i < |before| ==> Absorbed(before[i], after)
    ensures (forall i :: 0 <= i < |before| ==> 0 <= before[i].start < before[i].end <= n) ==>
              forall k :: 0 <= k < |after| ==> 0 <= after[k].start < after[k].end <= n
  {
    forall b ensures Covers(after, b) <==> Covers(before, b) {
      SameCover(sorted, before, b);
      SameCover(before, sorted, b);
    }
    forall i | 0 <= i < |before| ensures Absorbed(before[i], after) {
      var j := FindIn(before, sorted, i);
    }
    if forall i :: 0 <= i < |before| ==> 0 <= before[i].start < before[i].end <= n {
      forall k | 0 <= k < |after| ensures 0 <= after[k].start < after[k].end <= n {
        assert EdgesFrom(after[k], sorted);
        var i :| 0 <= i < |sorted| && BeginsAs(after[k], sorted[i]) && LiesIn(sorted[i], after[k]);
        var j :| 0 <= j < |sorted| && after[k].end == sorted[j].end && LiesIn(sorted[j], after[k]);
        var i1 := FindIn(sorted, before, i);
        var j1 := FindIn(sorted, before, j);
      }
    }
  }

  lemma FindIn(s: seq<Span>, t: seq<Span>, i: nat) returns (j: nat)
    requires multiset(s) == multiset(t) && i < |s|
    ensures j < |t| && t[j] == s[i]
  {
    assert s[i] in multiset(s);
    assert s[i] in t;
    j :| 0 <= j < |t| && t[j] == s[i];
  }

  lemma SameCover(s: seq<Span>, t: seq<Span>, b: int)
    requires multiset(s) == multiset(t)
    ensures Covers(s, b) ==> Covers(t, b)
  {
    if Covers(s, b) {
      var i :| 0 <= i < |s| && s[i].start <= b < s[i].end;
      var j := FindIn(s, t, i);
      assert t[j].start <= b < t[j].end;
    }
  }
}
