// Cutting a text into chunks that fit a stream, on the best boundary near the target.
module Splitting {
  import opened Planning

  // How a chunk's trailing edge fell.
  datatype Cut = AtEnd | Declaration | Paragraph | Sentence | Word | Hard

  // Text is bytes; start and end are offsets into the whole.
  datatype Chunk = Chunk(index: nat, text: string, tokens: int, start: nat, end: nat, cut: Cut)

  type Counter = string -> int

  // Whether a text has nothing but white space.
  type Blank = string -> bool

  // A longer prefix never measures less, and a byte costs at most one token.
  ghost predicate Measures(count: Counter) {
    && (forall s: string, i, j {:trigger count(s[..i]), count(s[..j])} ::
          0 <= i <= j <= |s| ==> count(s[..i]) <= count(s[..j]))
    && (forall s: string {:trigger count(s)} :: count(s) <= |s|)
  }

  // ----- boundaries -----

  ghost predicate OccursAt(s: string, sep: string, i: int) {
    0 <= i && i + |sep| <= |s| && s[i..i + |sep|] == sep
  }

  // The library's last index: the greatest position of sep in s, or -1.
  method LastIndex(s: string, sep: string) returns (i: int)
    ensures i == -1 || OccursAt(s, sep, i)
    ensures forall k :: k > i ==> !OccursAt(s, sep, k)
  {
    i := |s| - |sep|;
    while i >= 0 && s[i..i + |sep|] != sep
      invariant i <= |s| - |sep|
      invariant forall k :: k > i ==> !OccursAt(s, sep, k)
    {
      i := i - 1;
    }
    if i < 0 { i := -1; }
  }

  // sep ends at b, having started within the window before lo.
  ghost predicate EndsAt(s: string, lo: nat, window: int, sep: string, b: int) {
    OccursAt(s, sep, b - |sep|) && b <= lo && b - |sep| >= lo - Reach(lo, window)
  }

  // A window of nothing, or of more than there is, means everything.
  function Reach(lo: nat, window: int): nat {
    if window <= 0 || window > lo then lo else window
  }

  lemma SliceOfSlice(s: string, a: int, b: int, i: int, j: int)
    requires 0 <= a <= b <= |s| && 0 <= i <= j <= b - a
    ensures s[a..b][i..j] == s[a + i..a + j]
  {
    assert |s[a..b][i..j]| == j - i == |s[a + i..a + j]|;
    forall k | 0 <= k < j - i ensures s[a..b][i..j][k] == s[a + i..a + j][k] {}
  }

  // The offset just past the last sep that starts in the final window of s[..lo], or 0.
  method LastIndexWithin(s: string, lo: nat, window: int, sep: string) returns (b: nat)
    requires lo <= |s| && sep != ""
    ensures b == 0 || EndsAt(s, lo, window, sep, b)
    ensures forall k {:trigger EndsAt(s, lo, window, sep, k)} :: EndsAt(s, lo, window, sep, k) ==> k <= b
  {
    var from := lo - Reach(lo, window);
    var part := s[from..lo];
    var i := LastIndex(part, sep);
    forall k | EndsAt(s, lo, window, sep, k) ensures k - |sep| - from <= i {
      SliceOfSlice(s, from, lo, k - |sep| - from, k - from);
      assert OccursAt(part, sep, k - |sep| - from);
    }
    if i < 0 {
      return 0;
    }
    b := from + i + |sep|;
    SliceOfSlice(s, from, lo, i, i + |sep|);
  }

  const SENTENCE_ENDS: seq<string> := [". ", ".\n", "! ", "? ", ".\t"]

  ghost predicate SentenceEnd(s: string, lo: nat, window: int, b: int) {
    exists k :: 0 <= k < |SENTENCE_ENDS| && EndsAt(s, lo, window, SENTENCE_ENDS[k], b)
  }

  method LastSentenceEnd(s: string, lo: nat, window: int) returns (best: nat)
    requires lo <= |s|
    ensures best == 0 || SentenceEnd(s, lo, window, best)
    ensures forall b {:trigger SentenceEnd(s, lo, window, b)} :: SentenceEnd(s, lo, window, b) ==> b <= best
  {
    best := 0;
    for k := 0 to |SENTENCE_ENDS|
      invariant best == 0 || SentenceEnd(s, lo, window, best)
      invariant forall j, b :: 0 <= j < k && EndsAt(s, lo, window, SENTENCE_ENDS[j], b) ==> b <= best
    {
      var i := LastIndexWithin(s, lo, window, SENTENCE_ENDS[k]);
      if i > best {
        best := i;
      }
    }
  }

  ghost predicate BoundWithin(bounds: seq<int>, lo: nat, window: int, b: int) {
    b in bounds && lo - window <= b <= lo && b > 0
  }

  method LastBoundWithin(bounds: seq<int>, lo: nat, window: int) returns (best: nat)
    ensures best == 0 || BoundWithin(bounds, lo, window, best)
    ensures forall b {:trigger BoundWithin(bounds, lo, window, b)} :: BoundWithin(bounds, lo, window, b) ==> b <= best
  {
    best := 0;
    for k := 0 to |bounds|
      invariant best == 0 || BoundWithin(bounds, lo, window, best)
      invariant forall j :: 0 <= j < k && BoundWithin(bounds, lo, window, bounds[j]) ==> bounds[j] <= best
    {
      var b := bounds[k];
      if b <= lo && b >= lo - window && b > best {
        best := b;
      }
    }
  }

  // The boundaries inside the remainder, in its own frame.
  method LocalBounds(abs: seq<int>, consumed: nat, restLen: nat) returns (out: seq<int>)
    ensures forall l {:trigger l in out} :: l in out <==> 0 < l <= restLen && consumed + l in abs
  {
    out := [];
    for k := 0 to |abs|
      invariant forall l {:trigger l in out} :: l in out <==> 0 < l <= restLen && consumed + l in abs[..k]
    {
      var l := abs[k] - consumed;
      assert abs[..k + 1] == abs[..k] + [abs[k]];
      if l > 0 && l <= restLen {
        out := out + [l];
      }
    }
    assert abs[..|abs|] == abs;
  }

  // ----- one cut -----

  ghost predicate OnlyOf(s: string, c: char) {
    forall i :: 0 <= i < |s| ==> s[i] == c
  }

  method TrimLeft(s: string, c: char) returns (r: string, ghost n: nat)
    ensures n <= |s| && r == s[n..] && OnlyOf(s[..n], c) && (r != "" ==> r[0] != c)
  {
    n := 0;
    r := s;
    while r != "" && r[0] == c
      invariant n <= |s| && r == s[n..] && OnlyOf(s[..n], c)
      decreases |r|
    {
      assert s[..n + 1] == s[..n] + [c];
      r := r[1..];
      n := n + 1;
    }
  }

  // Where the target falls: the longest prefix within it, and the window before it.
  ghost predicate Landing(s: string, target: int, count: Counter, lo: nat) {
    lo < |s| && count(s[..lo]) <= target < count(s[..lo + 1])
  }

  // The cut at b is the best the ladder offers: a declaration boundary in the window, else a paragraph,
  // a sentence, a word, and the target itself when there is none.
  ghost predicate BestCut(s: string, bounds: seq<int>, lo: nat, b: nat, cut: Cut) {
    var w := lo / 5;
    match cut
    case AtEnd => false
    case Declaration => LastBound(bounds, lo, w, b)
    case Paragraph => NoBound(bounds, lo, w) && LastSep(s, lo, w, "\n\n", b)
    case Sentence => NoBound(bounds, lo, w) && NoSep(s, lo, w, "\n\n") && LastSentence(s, lo, w, b)
    case Word => NoBound(bounds, lo, w) && NoSep(s, lo, w, "\n\n") && NoSentence(s, lo, w) && LastSep(s, lo, w, " ", b)
    case Hard =>
      NoBound(bounds, lo, w) && NoSep(s, lo, w, "\n\n") && NoSentence(s, lo, w) && NoSep(s, lo, w, " ") && b == lo
  }

  ghost predicate NoBound(bounds: seq<int>, lo: nat, w: int) {
    forall k {:trigger BoundWithin(bounds, lo, w, k)} :: !BoundWithin(bounds, lo, w, k)
  }

  ghost predicate LastBound(bounds: seq<int>, lo: nat, w: int, b: int) {
    BoundWithin(bounds, lo, w, b) && forall k {:trigger BoundWithin(bounds, lo, w, k)} ::
      BoundWithin(bounds, lo, w, k) ==> k <= b
  }

  ghost predicate NoSep(s: string, lo: nat, w: int, sep: string) {
    forall k {:trigger EndsAt(s, lo, w, sep, k)} :: !EndsAt(s, lo, w, sep, k)
  }

  ghost predicate LastSep(s: string, lo: nat, w: int, sep: string, b: int) {
    EndsAt(s, lo, w, sep, b) && forall k {:trigger EndsAt(s, lo, w, sep, k)} :: EndsAt(s, lo, w, sep, k) ==> k <= b
  }

  ghost predicate NoSentence(s: string, lo: nat, w: int) {
    forall k {:trigger SentenceEnd(s, lo, w, k)} :: !SentenceEnd(s, lo, w, k)
  }

  ghost predicate LastSentence(s: string, lo: nat, w: int, b: int) {
    SentenceEnd(s, lo, w, b) && forall k {:trigger SentenceEnd(s, lo, w, k)} :: SentenceEnd(s, lo, w, k) ==> k <= b
  }

  // The halving search. Whatever the counter does it ends at a prefix within the target, or at none;
  // for a counter that measures it is the longest one.
  method FindLanding(s: string, target: int, count: Counter) returns (lo: nat)
    requires count(s) > target
    ensures lo <= |s| && (lo > 0 ==> count(s[..lo]) <= target)
    ensures Measures(count) && target >= 0 ==> Landing(s, target, count, lo)
    ensures Measures(count) && target >= 1 ==> lo >= 1
  {
    var hi := |s|;
    lo := 0;
    assert s[..|s|] == s;
    while lo < hi
      invariant lo <= hi <= |s| && (lo > 0 ==> count(s[..lo]) <= target)
      invariant hi < |s| ==> count(s[..hi + 1]) > target
    {
      var mid := (lo + hi + 1) / 2;
      if count(s[..mid]) <= target {
        lo := mid;
      } else {
        hi := mid - 1;
      }
    }
    if Measures(count) && target >= 0 {
      assert count(s[..0]) <= |s[..0]|;
      assert lo < |s|;
      assert count(s[..1]) <= |s[..1]|;
    }
  }

  // One of the ends is found just before n.
  ghost predicate EndsAny(ends: seq<string>, s: string, n: nat) {
    exists k :: 0 <= k < |ends| && OccursAt(s, ends[k], n - |ends[k]|)
  }

  ghost predicate EndsSentence(s: string, n: nat) {
    EndsAny(SENTENCE_ENDS, s, n)
  }

  // What a label claims of a cut at b.
  ghost predicate Truthful(s: string, bounds: seq<int>, b: nat, cut: Cut) {
    match cut
    case AtEnd => b == |s|
    case Declaration => b in bounds
    case Paragraph => OccursAt(s, "\n\n", b - 2)
    case Sentence => EndsSentence(s, b)
    case Word => OccursAt(s, " ", b - 1)
    case Hard => true
  }

  // Bytes a cut may drop between one chunk and the next: new lines only, or spaces only.
  ghost predicate Dropped(s: string) {
    OnlyOf(s, '\n') || OnlyOf(s, ' ')
  }

  // s is head, then bytes that may be dropped, then tail.
  ghost predicate CutInTwo(s: string, head: string, tail: string) {
    |head| + |tail| <= |s| && head == s[..|head|] && tail == s[|s| - |tail|..] && Dropped(s[|head|..|s| - |tail|])
  }

  // tail is what is left of s after b and every c that follows it.
  ghost predicate Stripped(s: string, b: nat, c: char, tail: string) {
    && b + |tail| <= |s| && tail == s[|s| - |tail|..] && OnlyOf(s[b..|s| - |tail|], c)
    && (tail != "" ==> tail[0] != c)
  }

  // What is left after a cut at b: not the bytes that only separated the two.
  ghost predicate LeftAfter(s: string, b: nat, cut: Cut, tail: string)
    requires b <= |s|
  {
    match cut
    case Declaration => Stripped(s, b, '\n', tail)
    case Paragraph => Stripped(s, b, '\n', tail)
    case Sentence => Stripped(s, b, ' ', tail)
    case Word => Stripped(s, b, ' ', tail)
    case _ => tail == s[b..]
  }

  // The cut of s at the target, settled in full: where it lands, how it is labelled, and what is left.
  ghost predicate BestCutOf(s: string, target: int, count: Counter, bounds: seq<int>, head: string, tail: string,
                            cut: Cut) {
    if count(s) <= target then head == s && tail == "" && cut == AtEnd
    else
      && |head| <= |s| && head == s[..|head|] && LeftAfter(s, |head|, cut, tail)
      && exists lo: nat :: Landing(s, target, count, lo) && BestCut(s, bounds, lo, |head|, cut)
  }

  lemma BestIsTruthful(s: string, bounds: seq<int>, lo: nat, b: nat, cut: Cut)
    requires lo <= |s| && BestCut(s, bounds, lo, b, cut)
    ensures b <= lo && Truthful(s, bounds, b, cut)
    ensures lo > 0 ==> b > 0
  {}

  // A prefix of about the target, on the best boundary near it, and the remainder.
  method CutAt(s: string, target: int, count: Counter, bounds: seq<int>) returns (head: string, tail: string, cut: Cut)
    requires s != ""
    ensures CutInTwo(s, head, tail) && head != "" && Truthful(s, bounds, |head|, cut)
    ensures cut == AtEnd <==> count(s) <= target
    ensures cut == AtEnd ==> head == s
    ensures Measures(count) && target >= 1 ==>
              count(head) <= target && BestCutOf(s, target, count, bounds, head, tail, cut)
  {
    if count(s) <= target {
      return s, "", AtEnd;
    }
    var lo := FindLanding(s, target, count);
    if lo == 0 {
      return s[..1], s[1..], Hard;
    }
    head, tail, cut := CutBefore(s, lo, bounds);
    PrefixMeasure(s, |head|, lo, count);
  }

  lemma PrefixMeasure(s: string, b: nat, lo: nat, count: Counter)
    requires b <= lo <= |s|
    ensures Measures(count) ==> count(s[..b]) <= count(s[..lo])
  {}

  // On the best boundary no further than lo.
  method CutBefore(s: string, lo: nat, bounds: seq<int>) returns (head: string, tail: string, cut: Cut)
    requires 0 < lo <= |s|
    ensures CutInTwo(s, head, tail) && head != "" && |head| <= lo && Truthful(s, bounds, |head|, cut)
    ensures BestCut(s, bounds, lo, |head|, cut) && LeftAfter(s, |head|, cut, tail)
  {
    var b;
    b, cut := BestBoundary(s, lo, bounds);
    BestIsTruthful(s, bounds, lo, b, cut);
    head := s[..b];
    tail := TrimAt(s, b, cut);
  }

  // The remainder of a cut, without the bytes that only separated the two.
  method TrimAt(s: string, b: nat, cut: Cut) returns (tail: string)
    requires b <= |s|
    ensures CutInTwo(s, s[..b], tail) && LeftAfter(s, b, cut, tail)
  {
    ghost var n := 0;
    tail := s[b..];
    if cut == Declaration || cut == Paragraph {
      tail, n := TrimLeft(s[b..], '\n');
    } else if cut == Sentence || cut == Word {
      tail, n := TrimLeft(s[b..], ' ');
    }
    assert s[b..][..n] == s[b..b + n];
  }

  // The ladder: declaration, paragraph, sentence, word, and the target itself.
  method BestBoundary(s: string, lo: nat, bounds: seq<int>) returns (b: nat, cut: Cut)
    requires 0 < lo <= |s|
    ensures BestCut(s, bounds, lo, b, cut)
  {
    var window := lo / 5;
    b := LastBoundWithin(bounds, lo, window);
    if b > 0 {
      return b, Declaration;
    }
    b := LastIndexWithin(s, lo, window, "\n\n");
    if b > 0 {
      return b, Paragraph;
    }
    b := LastSentenceEnd(s, lo, window);
    if b > 0 {
      return b, Sentence;
    }
    b := LastIndexWithin(s, lo, window, " ");
    if b > 0 {
      return b, Word;
    }
    return lo, Hard;
  }

  // ----- the whole split -----

  // Chunk c of the text says what it holds.
  ghost predicate Faithful(text: string, bounds: seq<int>, count: Counter, limit: int, c: Chunk) {
    && c.start < c.end <= |text| && c.text == text[c.start..c.end] && c.tokens == count(c.text) <= limit
    && Truthful(text, bounds, c.end, c.cut)
  }

  // Chunks in order, each faithful, with nothing between them but droppable bytes.
  ghost predicate Ordered(text: string, bounds: seq<int>, count: Counter, limit: int, out: seq<Chunk>) {
    && (forall i {:trigger out[i]} ::
          0 <= i < |out| ==> Faithful(text, bounds, count, limit, out[i]) && out[i].index == i)
    && (forall i {:trigger out[i]} ::
          0 < i < |out| ==> out[i - 1].end <= out[i].start && Dropped(text[out[i - 1].end..out[i].start]))
    && (out != [] ==> out[0].start == 0)
  }

  // And what follows the last of them is droppable, then blank.
  ghost predicate Trailing(text: string, out: seq<Chunk>, blank: Blank) {
    exists consumed: nat :: consumed <= |text| && blank(text[consumed..]) && Reached(text, out, consumed)
  }

  // The chunks, and what was dropped after the last of them, reach as far as consumed.
  ghost predicate Reached(text: string, out: seq<Chunk>, consumed: nat) {
    if out == [] then consumed == 0
    else out[|out| - 1].end <= consumed <= |text| && Dropped(text[out[|out| - 1].end..consumed])
  }

  ghost predicate WellSplit(text: string, bounds: seq<int>, count: Counter, limit: int, blank: Blank, out: seq<Chunk>) {
    Ordered(text, bounds, count, limit, out) && Trailing(text, out, blank)
  }

  datatype Outcome = Chunks(chunks: seq<Chunk>) | PlanRefused | TooLarge(tokens: int)

  function Limit(plan: Plan): int {
    if plan.maxChunkTokens <= 0 then plan.chunkTokens else plan.maxChunkTokens
  }

  // The boundaries inside text[a..b], in its own frame.
  ghost predicate Localised(bounds: seq<int>, a: nat, len: nat, local: seq<int>) {
    forall l {:trigger l in local} :: l in local <==> 0 < l <= len && a + l in bounds
  }

  // A label that is true of a part is true of the whole.
  lemma TruthfulInWhole(text: string, a: nat, b: nat, bounds: seq<int>, local: seq<int>, n: nat, cut: Cut)
    requires a <= b <= |text| && n <= b - a && Localised(bounds, a, b - a, local)
    requires Truthful(text[a..b], local, n, cut) && (cut == AtEnd ==> b == |text|)
    ensures Truthful(text, bounds, a + n, cut)
  {
    match cut
    case Paragraph => EndsInWhole(text, a, b, "\n\n", n);
    case Word => EndsInWhole(text, a, b, " ", n);
    case Sentence => SentenceInWhole(SENTENCE_ENDS, text, a, b, n);
    case Declaration =>
    case _ =>
  }

  lemma EndsInWhole(text: string, a: nat, b: nat, sep: string, n: nat)
    requires a <= b <= |text| && OccursAt(text[a..b], sep, n - |sep|)
    ensures OccursAt(text, sep, a + n - |sep|)
  {
    OccursInWhole(text, a, b, sep, n - |sep|);
  }

  lemma SentenceInWhole(ends: seq<string>, text: string, a: nat, b: nat, n: nat)
    requires a <= b <= |text| && EndsAny(ends, text[a..b], n)
    ensures EndsAny(ends, text, a + n)
  {
    var k :| 0 <= k < |ends| && OccursAt(text[a..b], ends[k], n - |ends[k]|);
    EndsInWhole(text, a, b, ends[k], n);
  }

  lemma OccursInWhole(text: string, a: nat, b: nat, sep: string, i: int)
    requires a <= b <= |text| && OccursAt(text[a..b], sep, i)
    ensures OccursAt(text, sep, a + i)
  {
    SliceOfSlice(text, a, b, i, i + |sep|);
  }

  lemma CutInWhole(text: string, a: nat, b: nat, head: string, tail: string)
    requires a <= b <= |text| && CutInTwo(text[a..b], head, tail)
    ensures head == text[a..a + |head|] && tail == text[b - |tail|..b]
    ensures Dropped(text[a + |head|..b - |tail|])
  {
    SliceOfSlice(text, a, b, 0, |head|);
    SliceOfSlice(text, a, b, b - a - |tail|, b - a);
    SliceOfSlice(text, a, b, |head|, b - a - |tail|);
  }

  lemma OneMoreChunk(text: string, bounds: seq<int>, count: Counter, limit: int, out: seq<Chunk>, c: Chunk)
    requires Ordered(text, bounds, count, limit, out) && Faithful(text, bounds, count, limit, c) && c.index == |out|
    requires Reached(text, out, c.start)
    ensures Ordered(text, bounds, count, limit, out + [c])
  {
    var next := out + [c];
    forall i | 0 <= i < |next|
      ensures Faithful(text, bounds, count, limit, next[i]) && next[i].index == i
    {
      if i < |out| { assert next[i] == out[i]; }
    }
    forall i | 0 < i < |next|
      ensures next[i - 1].end <= next[i].start && Dropped(text[next[i - 1].end..next[i].start])
    {
      if i < |out| { assert next[i] == out[i]; }
    }
  }

  lemma ButLast(text: string, bounds: seq<int>, count: Counter, limit: int, out: seq<Chunk>)
    requires Ordered(text, bounds, count, limit, out) && out != []
    ensures Ordered(text, bounds, count, limit, out[..|out| - 1])
  {
    var less := out[..|out| - 1];
    forall i | 0 <= i < |less| ensures less[i] == out[i] {}
  }

  // Where the loop stands: what has been cut, and what is left.
  ghost predicate Cutting(text: string, bounds: seq<int>, count: Counter, limit: int, out: seq<Chunk>, consumed: nat) {
    consumed <= |text| && Ordered(text, bounds, count, limit, out) && Reached(text, out, consumed)
  }

  // The cut of what is left at the target, boundaries seen from there.
  ghost predicate NextCut(text: string, bounds: seq<int>, count: Counter, target: int, consumed: nat, piece: string,
                          rest: string, cut: Cut) {
    && consumed <= |text|
    && exists local ::
         Localised(bounds, consumed, |text| - consumed, local)
         && BestCutOf(text[consumed..], target, count, local, piece, rest, cut)
  }

  // Where what follows chunk i begins.
  function After(out: seq<Chunk>, consumed: nat, i: nat): nat {
    if i + 1 < |out| then out[i + 1].start else consumed
  }

  ghost predicate CutAtIts(text: string, bounds: seq<int>, count: Counter, target: int, out: seq<Chunk>,
                           consumed: nat, i: nat)
    requires i < |out|
  {
    After(out, consumed, i) <= |text| &&
    NextCut(text, bounds, count, target, out[i].start, out[i].text, text[After(out, consumed, i)..], out[i].cut)
  }

  // Every chunk is the cut of what was left, at the target.
  ghost predicate Greedy(text: string, bounds: seq<int>, count: Counter, target: int, out: seq<Chunk>, consumed: nat) {
    forall i: nat {:trigger CutAtIts(text, bounds, count, target, out, consumed, i)} ::
      i < |out| ==> CutAtIts(text, bounds, count, target, out, consumed, i)
  }

  lemma GreedyMore(text: string, bounds: seq<int>, count: Counter, target: int, out: seq<Chunk>, consumed: nat,
                   c: Chunk, next: nat)
    requires Greedy(text, bounds, count, target, out, consumed) && c.start == consumed && next <= |text|
    requires NextCut(text, bounds, count, target, consumed, c.text, text[next..], c.cut)
    ensures Greedy(text, bounds, count, target, out + [c], next)
  {
    forall i: nat | i < |out| + 1 ensures CutAtIts(text, bounds, count, target, out + [c], next, i) {
      if i < |out| {
        assert CutAtIts(text, bounds, count, target, out, consumed, i);
        assert After(out + [c], next, i) == After(out, consumed, i);
      }
    }
  }

  lemma LastIsCut(text: string, bounds: seq<int>, count: Counter, target: int, consumed: nat)
    requires consumed <= |text| && count(text[consumed..]) <= target
    ensures NextCut(text, bounds, count, target, consumed, text[consumed..], "", AtEnd)
  {
    var local := Locals(bounds, consumed, |text| - consumed, |bounds|);
    assert bounds[..|bounds|] == bounds;
    assert Localised(bounds, consumed, |text| - consumed, local);
    assert BestCutOf(text[consumed..], target, count, local, text[consumed..], "", AtEnd);
  }

  ghost function Locals(bounds: seq<int>, a: nat, len: nat, n: nat): (local: seq<int>)
    requires n <= |bounds|
    ensures forall l {:trigger l in local} :: l in local <==> 0 < l <= len && a + l in bounds[..n]
  {
    if n == 0 then []
    else
      assert bounds[..n] == bounds[..n - 1] + [bounds[n - 1]];
      var l := bounds[n - 1] - a;
      Locals(bounds, a, len, n - 1) + if 0 < l <= len then [l] else []
  }

  // piece is what stands at consumed, with its label, and rest is what is left after bytes that may be dropped.
  ghost predicate Taken(text: string, bounds: seq<int>, consumed: nat, piece: string, rest: string, cut: Cut) {
    && piece != "" && consumed + |piece| + |rest| <= |text|
    && piece == text[consumed..consumed + |piece|] && rest == text[|text| - |rest|..]
    && Dropped(text[consumed + |piece|..|text| - |rest|]) && Truthful(text, bounds, consumed + |piece|, cut)
  }

  lemma AllTaken(text: string, bounds: seq<int>, consumed: nat)
    requires consumed < |text|
    ensures Taken(text, bounds, consumed, text[consumed..], "", AtEnd)
  {}

  // The next chunk of the remainder.
  method CutNext(text: string, bounds: seq<int>, count: Counter, plan: Plan, consumed: nat)
    returns (piece: string, rest: string, cut: Cut)
    requires consumed < |text|
    ensures Taken(text, bounds, consumed, piece, rest, cut)
    ensures Measures(count) && plan.chunkTokens >= 1 ==>
              count(piece) <= plan.chunkTokens
              && NextCut(text, bounds, count, plan.chunkTokens, consumed, piece, rest, cut)
  {
    rest := text[consumed..];
    if count(rest) <= plan.chunkTokens {
      LastIsCut(text, bounds, count, plan.chunkTokens, consumed);
      AllTaken(text, bounds, consumed);
      piece, rest, cut := rest, "", AtEnd;
    } else {
      piece, rest, cut := CutInside(text, bounds, count, plan.chunkTokens, consumed);
    }
  }

  // A cut of the remainder, seen in the whole text.
  method CutInside(text: string, bounds: seq<int>, count: Counter, target: int, consumed: nat)
    returns (piece: string, rest: string, cut: Cut)
    requires consumed < |text| && count(text[consumed..]) > target
    ensures Taken(text, bounds, consumed, piece, rest, cut)
    ensures Measures(count) && target >= 1 ==>
              count(piece) <= target && NextCut(text, bounds, count, target, consumed, piece, rest, cut)
  {
    ghost var whole := text[consumed..];
    assert text[consumed..|text|] == whole;
    var local := LocalBounds(bounds, consumed, |text[consumed..]|);
    piece, rest, cut := CutAt(text[consumed..], target, count, local);
    CutInWhole(text, consumed, |text|, piece, rest);
    TruthfulInWhole(text, consumed, |text|, bounds, local, |piece|, cut);
  }

  // The chunks are the greedy cuts of the text, the tail of them folded.
  ghost predicate FoldedCuts(text: string, plan: Plan, count: Counter, bounds: seq<int>, blank: Blank,
                             cuts: seq<Chunk>, out: seq<Chunk>) {
    && Ordered(text, bounds, count, Limit(plan), cuts)
    && Folded(text, plan, bounds, count, blank, Limit(plan), cuts, out)
    && (Meets(plan, count) ==> exists consumed: nat ::
            consumed <= |text| && blank(text[consumed..])
            && Greedy(text, bounds, count, plan.chunkTokens, cuts, consumed))
  }

  method SplitAt(text: string, plan: Plan, count: Counter, bounds: seq<int>, blank: Blank) returns (r: Outcome)
    requires blank("")
    ensures r.PlanRefused? <==> plan.refused
    ensures !plan.refused && plan.chunks <= 1 ==> r == Chunks([Chunk(0, text, count(text), 0, |text|, AtEnd)])
    ensures r.Chunks? && plan.chunks > 1 ==> WellSplit(text, bounds, count, Limit(plan), blank, r.chunks)
    ensures r.Chunks? && plan.chunks > 1 ==> exists cuts :: FoldedCuts(text, plan, count, bounds, blank, cuts, r.chunks)
    ensures r.TooLarge? ==> r.tokens > Limit(plan)
    ensures Measures(count) && 1 <= plan.chunkTokens <= Limit(plan) ==> !r.TooLarge?
  {
    if plan.refused {
      return PlanRefused;
    }
    if plan.chunks <= 1 {
      return Chunks([Chunk(0, text, count(text), 0, |text|, AtEnd)]);
    }
    var limit := Limit(plan);
    var out, ok, tokens;
    ghost var consumed;
    out, ok, tokens, consumed := CutAll(text, plan, count, bounds, blank, limit);
    if !ok {
      return TooLarge(tokens);
    }
    ghost var cut := out;
    out := FoldTail(text, plan, count, bounds, blank, limit, out);
    StillTrails(text, cut, out, blank);
    assert FoldedCuts(text, plan, count, bounds, blank, cut, out);
    r := Chunks(out);
  }

  lemma StillTrails(text: string, out0: seq<Chunk>, out: seq<Chunk>, blank: Blank)
    requires Trailing(text, out0, blank) && SameEnd(out0, out)
    ensures Trailing(text, out, blank)
  {
    var consumed: nat :| consumed <= |text| && blank(text[consumed..]) && Reached(text, out0, consumed);
    assert Reached(text, out, consumed);
  }

  lemma TakenIsFaithful(text: string, bounds: seq<int>, count: Counter, limit: int, consumed: nat,
                        c: Chunk, rest: string)
    requires c.start == consumed && Taken(text, bounds, consumed, c.text, rest, c.cut) && c.end == consumed + |c.text|
    requires c.tokens == count(c.text) <= limit
    ensures Faithful(text, bounds, count, limit, c) && c.end <= |text| - |rest| && Dropped(text[c.end..|text| - |rest|])
  {}

  lemma TakenIsChunk(text: string, bounds: seq<int>, count: Counter, limit: int, out: seq<Chunk>, consumed: nat,
                     c: Chunk, next: nat)
    requires Cutting(text, bounds, count, limit, out, consumed) && c.index == |out| && c.start == consumed
    requires Faithful(text, bounds, count, limit, c) && c.end <= next <= |text| && Dropped(text[c.end..next])
    ensures Cutting(text, bounds, count, limit, out + [c], next)
  {
    OneMoreChunk(text, bounds, count, limit, out, c);
  }

  // The next chunk, and where the remainder begins.
  method CutOne(text: string, bounds: seq<int>, count: Counter, plan: Plan, limit: int, out: seq<Chunk>, consumed: nat)
    returns (c: Chunk, rest: string, next: nat)
    requires Cutting(text, bounds, count, limit, out, consumed) && consumed < |text|
    ensures consumed < next <= |text| && rest == text[next..]
    ensures c.tokens <= limit ==> Cutting(text, bounds, count, limit, out + [c], next)
    ensures Measures(count) && plan.chunkTokens >= 1 ==> c.tokens <= plan.chunkTokens
    ensures Measures(count) && plan.chunkTokens >= 1 && Greedy(text, bounds, count, plan.chunkTokens, out, consumed) ==>
              Greedy(text, bounds, count, plan.chunkTokens, out + [c], next)
  {
    var piece, cut;
    piece, rest, cut := CutNext(text, bounds, count, plan, consumed);
    c := Chunk(|out|, piece, count(piece), consumed, consumed + |piece|, cut);
    next := |text| - |rest|;
    if c.tokens <= limit {
      TakenIsFaithful(text, bounds, count, limit, consumed, c, rest);
      TakenIsChunk(text, bounds, count, limit, out, consumed, c, next);
    }
    if Measures(count) && plan.chunkTokens >= 1 && Greedy(text, bounds, count, plan.chunkTokens, out, consumed) {
      GreedyMore(text, bounds, count, plan.chunkTokens, out, consumed, c, next);
    }
  }

  // A counter that can be relied on, and a target it can meet.
  ghost predicate Meets(plan: Plan, count: Counter) {
    Measures(count) && plan.chunkTokens >= 1
  }

  // Cut at the target until only blank is left, however many chunks that takes.
  method CutAll(text: string, plan: Plan, count: Counter, bounds: seq<int>, blank: Blank, limit: int)
    returns (out: seq<Chunk>, ok: bool, tokens: int, ghost consumed: nat)
    requires blank("")
    ensures ok ==> WellSplit(text, bounds, count, limit, blank, out)
    ensures ok ==> consumed <= |text| && blank(text[consumed..])
    ensures ok && Meets(plan, count) ==> Greedy(text, bounds, count, plan.chunkTokens, out, consumed)
    ensures !ok ==> tokens > limit
    ensures Measures(count) && 1 <= plan.chunkTokens <= limit ==> ok
  {
    var rest, at: nat := text, 0;
    out, tokens, consumed := [], 0, 0;
    while !blank(rest)
      invariant Cutting(text, bounds, count, limit, out, at) && rest == text[at..]
      invariant Meets(plan, count) ==> Greedy(text, bounds, count, plan.chunkTokens, out, at)
      decreases |rest|
    {
      assert rest != "";
      var c, next;
      c, rest, next := CutOne(text, bounds, count, plan, limit, out, at);
      if c.tokens > limit {
        return out, false, c.tokens, at;
      }
      out, at := out + [c], next;
    }
    ok, consumed := true, at;
  }

  ghost predicate SameEnd(out0: seq<Chunk>, out: seq<Chunk>) {
    (out == [] <==> out0 == []) && (out != [] ==> out[|out| - 1].end == out0[|out0| - 1].end)
  }

  // Before the last two chunks.
  lemma ButLastTwo(text: string, bounds: seq<int>, count: Counter, limit: int, out: seq<Chunk>)
    requires Ordered(text, bounds, count, limit, out) && |out| > 1
    ensures var less := out[..|out| - 2];
            Ordered(text, bounds, count, limit, less) && Reached(text, less, out[|out| - 2].start)
    ensures out[|out| - 2].index == |out| - 2 && out[|out| - 1].index == |out| - 1
    ensures Faithful(text, bounds, count, limit, out[|out| - 2]) && Faithful(text, bounds, count, limit, out[|out| - 1])
    ensures out[|out| - 2].end <= out[|out| - 1].start
  {
    var n := |out|;
    ButLast(text, bounds, count, limit, out);
    ButLast(text, bounds, count, limit, out[..n - 1]);
    assert out[..n - 1][..n - 2] == out[..n - 2];
    assert n > 2 ==> out[..n - 2][n - 3] == out[n - 3];
    assert out[n - 2] == out[n - 2] && out[n - 1] == out[n - 1];
  }

  // The last chunk is too small to stand alone.
  predicate Runt(plan: Plan, out: seq<Chunk>) {
    |out| > 1 && out[|out| - 1].tokens < plan.chunkTokens / 4
  }

  // The text of the last two chunks and what was dropped between them.
  ghost predicate LastTwo(text: string, out: seq<Chunk>, a: nat, b: nat) {
    |out| > 1 && a == out[|out| - 2].start && b == out[|out| - 1].end && a < b <= |text|
  }

  // What becomes of the last two chunks: one chunk if that fits, else two cut at half, else as they were.
  ghost predicate Folded(text: string, plan: Plan, bounds: seq<int>, count: Counter, blank: Blank, limit: int,
                         out0: seq<Chunk>, out: seq<Chunk>) {
    if !Runt(plan, out0) then out == out0
    else exists a: nat, b: nat :: FoldedAt(text, bounds, count, blank, limit, out0, out, a, b)
  }

  ghost function Joined(text: string, count: Counter, out0: seq<Chunk>, a: nat, b: nat): Chunk
    requires a <= b <= |text| && |out0| > 1
  {
    Chunk(out0[|out0| - 2].index, text[a..b], count(text[a..b]), a, b, out0[|out0| - 1].cut)
  }

  function HeadChunk(count: Counter, out0: seq<Chunk>, a: nat, head: string, cut: Cut): Chunk
    requires |out0| > 1
  {
    Chunk(out0[|out0| - 2].index, head, count(head), a, a + |head|, cut)
  }

  function TailChunk(count: Counter, out0: seq<Chunk>, b: nat, tail: string): Chunk
    requires |out0| > 1 && |tail| <= b
  {
    Chunk(out0[|out0| - 1].index, tail, count(tail), b - |tail|, b, out0[|out0| - 1].cut)
  }

  // The last two replaced by two halves.
  function Shared(count: Counter, out0: seq<Chunk>, a: nat, b: nat, head: string, tail: string, cut: Cut): seq<Chunk>
    requires |out0| > 1 && |tail| <= b
  {
    out0[..|out0| - 2] + [HeadChunk(count, out0, a, head, cut)] + [TailChunk(count, out0, b, tail)]
  }

  ghost predicate Reshared(text: string, bounds: seq<int>, count: Counter, blank: Blank, limit: int,
                           out0: seq<Chunk>, out: seq<Chunk>, a: nat, b: nat)
    requires a < b <= |text| && |out0| > 1
  {
    exists head, tail, cut, local ::
      Halved(text, bounds, count, a, b, local, head, tail, cut) && |head| + |tail| <= b - a
      && out == if !blank(tail) && count(head) <= limit && count(tail) <= limit
                then Shared(count, out0, a, b, head, tail, cut) else out0
  }

  // The cut of the two together at half their measure, with a counter that can be relied on.
  ghost predicate Halved(text: string, bounds: seq<int>, count: Counter, a: nat, b: nat, local: seq<int>,
                         head: string, tail: string, cut: Cut)
    requires a < b <= |text|
  {
    && Localised(bounds, a, b - a, local) && CutInTwo(text[a..b], head, tail)
    && (Measures(count) && count(text[a..b]) >= 2 ==>
          BestCutOf(text[a..b], count(text[a..b]) / 2, count, local, head, tail, cut))
  }

  // A runt at the end is folded into its predecessor if the two fit, and shared out with it if they do not.
  method FoldTail(text: string, plan: Plan, count: Counter, bounds: seq<int>, blank: Blank, limit: int,
                  out0: seq<Chunk>) returns (out: seq<Chunk>)
    requires blank("") && Ordered(text, bounds, count, limit, out0)
    ensures Ordered(text, bounds, count, limit, out) && SameEnd(out0, out)
    ensures Folded(text, plan, bounds, count, blank, limit, out0, out)
  {
    if |out0| <= 1 || out0[|out0| - 1].tokens >= plan.chunkTokens / 4 {
      return out0;
    }
    assert Runt(plan, out0);
    out := FoldRunt(text, count, bounds, blank, limit, out0);
  }

  // What becomes of a runt and its predecessor.
  ghost predicate FoldedAt(text: string, bounds: seq<int>, count: Counter, blank: Blank, limit: int,
                           out0: seq<Chunk>, out: seq<Chunk>, a: nat, b: nat) {
    LastTwo(text, out0, a, b) &&
    if count(text[a..b]) <= limit then out == out0[..|out0| - 2] + [Joined(text, count, out0, a, b)]
    else Reshared(text, bounds, count, blank, limit, out0, out, a, b)
  }

  method FoldRunt(text: string, count: Counter, bounds: seq<int>, blank: Blank, limit: int, out0: seq<Chunk>)
    returns (out: seq<Chunk>)
    requires blank("") && Ordered(text, bounds, count, limit, out0) && |out0| > 1
    ensures Ordered(text, bounds, count, limit, out) && SameEnd(out0, out)
    ensures FoldedAt(text, bounds, count, blank, limit, out0, out, out0[|out0| - 2].start, out0[|out0| - 1].end)
  {
    var n := |out0|;
    var last, prev := out0[n - 1], out0[n - 2];
    ButLastTwo(text, bounds, count, limit, out0);
    assert LastTwo(text, out0, prev.start, last.end);
    var joined := text[prev.start..last.end];
    if count(joined) <= limit {
      var c := Chunk(prev.index, joined, count(joined), prev.start, last.end, last.cut);
      OneForTwo(text, bounds, count, limit, out0, c);
      out := out0[..n - 2] + [c];
    } else {
      out := Rebalance(text, count, bounds, blank, limit, out0);
    }
  }

  // text[a..b] cut afresh at half its measure; whether both halves are worth having and fit.
  method Halve(text: string, count: Counter, bounds: seq<int>, blank: Blank, limit: int, a: nat, b: nat)
    returns (both: bool, head: string, tail: string, cut: Cut, ghost local: seq<int>)
    requires blank("") && a < b <= |text|
    ensures head != "" && |head| + |tail| <= b - a && Halved(text, bounds, count, a, b, local, head, tail, cut)
    ensures both <==> !blank(tail) && count(head) <= limit && count(tail) <= limit
    ensures both ==>
              tail != "" && head == text[a..a + |head|] && tail == text[b - |tail|..b]
              && Dropped(text[a + |head|..b - |tail|])
    ensures both ==> Truthful(text, bounds, a + |head|, cut)
  {
    var inside := LocalBounds(bounds, a, b - a);
    local := inside;
    head, tail, cut := CutAt(text[a..b], count(text[a..b]) / 2, count, inside);
    both := !blank(tail) && count(head) <= limit && count(tail) <= limit;
    CutInWhole(text, a, b, head, tail);
    if both {
      TruthfulInWhole(text, a, b, bounds, local, |head|, cut);
    }
  }

  // The last two chunks cut afresh, if that helps.
  method Rebalance(text: string, count: Counter, bounds: seq<int>, blank: Blank, limit: int, out0: seq<Chunk>)
    returns (out: seq<Chunk>)
    requires blank("") && Ordered(text, bounds, count, limit, out0) && |out0| > 1
    requires LastTwo(text, out0, out0[|out0| - 2].start, out0[|out0| - 1].end)
    ensures Ordered(text, bounds, count, limit, out) && SameEnd(out0, out)
    ensures Reshared(text, bounds, count, blank, limit, out0, out, out0[|out0| - 2].start, out0[|out0| - 1].end)
  {
    var a, b := out0[|out0| - 2].start, out0[|out0| - 1].end;
    var both, head, tail, cut;
    ghost var local;
    both, head, tail, cut, local := Halve(text, count, bounds, blank, limit, a, b);
    if both {
      out := Shared(count, out0, a, b, head, tail, cut);
      HalvesAreFaithful(text, bounds, count, limit, out0, a, b, head, tail, cut);
      SharedKeeps(text, bounds, count, limit, out0, a, b, head, tail, cut);
    } else {
      out := out0;
    }
    ResharedBy(text, bounds, count, blank, limit, out0, out, a, b, local, head, tail, cut);
  }

  lemma ResharedBy(text: string, bounds: seq<int>, count: Counter, blank: Blank, limit: int, out0: seq<Chunk>,
                   out: seq<Chunk>, a: nat, b: nat, local: seq<int>, head: string, tail: string, cut: Cut)
    requires a < b <= |text| && |out0| > 1
    requires Halved(text, bounds, count, a, b, local, head, tail, cut) && |head| + |tail| <= b - a
    requires out == if !blank(tail) && count(head) <= limit && count(tail) <= limit
                    then Shared(count, out0, a, b, head, tail, cut) else out0
    ensures Reshared(text, bounds, count, blank, limit, out0, out, a, b)
  {}

  lemma SharedKeeps(text: string, bounds: seq<int>, count: Counter, limit: int, out0: seq<Chunk>,
                    a: nat, b: nat, head: string, tail: string, cut: Cut)
    requires Ordered(text, bounds, count, limit, out0) && LastTwo(text, out0, a, b) && |head| + |tail| <= b - a
    requires Faithful(text, bounds, count, limit, HeadChunk(count, out0, a, head, cut))
    requires Faithful(text, bounds, count, limit, TailChunk(count, out0, b, tail))
    requires Dropped(text[a + |head|..b - |tail|])
    ensures var out := Shared(count, out0, a, b, head, tail, cut);
            Ordered(text, bounds, count, limit, out) && SameEnd(out0, out)
  {
    LastLabels(text, bounds, count, limit, out0);
    TwoForTwo(text, bounds, count, limit, out0,
              HeadChunk(count, out0, a, head, cut), TailChunk(count, out0, b, tail));
  }

  // Each half is what stands at its place, with a label that is true.
  lemma HalvesAreFaithful(text: string, bounds: seq<int>, count: Counter, limit: int, out0: seq<Chunk>,
                          a: nat, b: nat, head: string, tail: string, cut: Cut)
    requires Ordered(text, bounds, count, limit, out0) && LastTwo(text, out0, a, b) && |head| + |tail| <= b - a
    requires head != "" && tail != "" && count(head) <= limit && count(tail) <= limit
    requires head == text[a..a + |head|] && tail == text[b - |tail|..b] && Truthful(text, bounds, a + |head|, cut)
    ensures Faithful(text, bounds, count, limit, HeadChunk(count, out0, a, head, cut))
    ensures Faithful(text, bounds, count, limit, TailChunk(count, out0, b, tail))
  {
    LastLabels(text, bounds, count, limit, out0);
    IsFaithful(text, bounds, count, limit, HeadChunk(count, out0, a, head, cut));
    IsFaithful(text, bounds, count, limit, TailChunk(count, out0, b, tail));
  }

  lemma LastLabels(text: string, bounds: seq<int>, count: Counter, limit: int, out: seq<Chunk>)
    requires Ordered(text, bounds, count, limit, out) && |out| > 1
    ensures out[|out| - 2].index == |out| - 2 && out[|out| - 1].index == |out| - 1
    ensures Truthful(text, bounds, out[|out| - 1].end, out[|out| - 1].cut)
  {
    ButLastTwo(text, bounds, count, limit, out);
  }

  lemma IsFaithful(text: string, bounds: seq<int>, count: Counter, limit: int, c: Chunk)
    requires c.start < c.end <= |text| && c.text == text[c.start..c.end] && c.tokens == count(c.text) <= limit
    requires Truthful(text, bounds, c.end, c.cut)
    ensures Faithful(text, bounds, count, limit, c)
  {}

  lemma OneForTwo(text: string, bounds: seq<int>, count: Counter, limit: int, out0: seq<Chunk>, c: Chunk)
    requires Ordered(text, bounds, count, limit, out0) && |out0| > 1
    requires c.index == |out0| - 2 && c.start == out0[|out0| - 2].start && c.end == out0[|out0| - 1].end
             && c.cut == out0[|out0| - 1].cut
    requires c.start < c.end <= |text| && c.text == text[c.start..c.end] && c.tokens == count(c.text) <= limit
    ensures var out := out0[..|out0| - 2] + [c]; Ordered(text, bounds, count, limit, out) && SameEnd(out0, out)
  {
    ButLastTwo(text, bounds, count, limit, out0);
    OneMoreChunk(text, bounds, count, limit, out0[..|out0| - 2], c);
  }

  lemma TwoForTwo(text: string, bounds: seq<int>, count: Counter, limit: int, out0: seq<Chunk>, c: Chunk, d: Chunk)
    requires Ordered(text, bounds, count, limit, out0) && |out0| > 1
    requires Faithful(text, bounds, count, limit, c) && c.index == |out0| - 2 && c.start == out0[|out0| - 2].start
    requires Faithful(text, bounds, count, limit, d) && d.index == |out0| - 1 && d.end == out0[|out0| - 1].end
    requires c.end <= d.start && Dropped(text[c.end..d.start])
    ensures var out := out0[..|out0| - 2] + [c] + [d]; Ordered(text, bounds, count, limit, out) && SameEnd(out0, out)
  {
    ButLastTwo(text, bounds, count, limit, out0);
    var less := out0[..|out0| - 2];
    OneMoreChunk(text, bounds, count, limit, less, c);
    OneMoreChunk(text, bounds, count, limit, less + [c], d);
  }

  // A plan made for the text's own measure never fails to split it, and every chunk fits a stream.
  lemma PlanSuitsItsText(p: Policy, text: string, count: Counter)
    requires Works(p) && count(text) >= 0
    ensures PlanFor(p, count(text)).Ok?
    ensures var plan := PlanFor(p, count(text)).value;
            !plan.refused ==>
              && Limit(plan) == Room(p)
              && (plan.chunks <= 1 ==> count(text) <= Room(p))
              && (plan.chunks > 1 ==> 1 <= plan.chunkTokens <= Limit(plan))
  {
    PlanIsSound(p, count(text));
  }

  // What came of dividing a text by a plan.
  ghost predicate DividedBy(text: string, plan: Plan, count: Counter, bounds: seq<int>, blank: Blank, r: Outcome) {
    && (r.PlanRefused? <==> plan.refused)
    && (!plan.refused && plan.chunks <= 1 ==> r == Chunks([Chunk(0, text, count(text), 0, |text|, AtEnd)]))
    && (r.Chunks? && plan.chunks > 1 ==> exists cuts :: FoldedCuts(text, plan, count, bounds, blank, cuts, r.chunks))
  }

  // The whole text as one chunk.
  lemma OneChunkSplits(text: string, bounds: seq<int>, count: Counter, limit: int, blank: Blank)
    requires text != "" && blank("") && count(text) <= limit
    ensures WellSplit(text, bounds, count, limit, blank, [Chunk(0, text, count(text), 0, |text|, AtEnd)])
  {
    var out := [Chunk(0, text, count(text), 0, |text|, AtEnd)];
    assert text[0..|text|] == text && text[|text|..] == "";
    assert text[|text|..|text|] == "";
    assert Reached(text, out, |text|);
  }

  // Plan, then split. A policy that cannot work is refused, and so is a text that the streams together cannot
  // hold; otherwise the text is divided by the plan its measure calls for: with a counter that can be relied on
  // that never fails, and what comes of it is always a faithful split into chunks that each fit a stream.
  method PlanThenSplit(p: Policy, text: string, count: Counter, bounds: seq<int>, blank: Blank)
    returns (r: Result<Outcome>)
    requires blank("")
    ensures r.Ok? <==> Works(p) && count(text) >= 0
    ensures r.Ok? ==> (r.value.PlanRefused? <==> !Holds(p.maxChunks, Room(p), count(text)))
    ensures r.Ok? && Measures(count) ==> !r.value.TooLarge?
    ensures r.Ok? && r.value.Chunks? && text != "" ==>
              WellSplit(text, bounds, count, Room(p), blank, r.value.chunks)
    ensures r.Ok? ==> exists plan {:trigger Prescribed(p, count(text), plan)} ::
                Prescribed(p, count(text), plan) && DividedBy(text, plan, count, bounds, blank, r.value)
  {
    var plan := PlanFor(p, count(text));
    PlanIsSound(p, count(text));
    if plan.Err? {
      return Err;
    }
    PlanSuitsItsText(p, text, count);
    if text != "" && count(text) <= Room(p) {
      OneChunkSplits(text, bounds, count, Room(p), blank);
    }
    var out := SplitAt(text, plan.value, count, bounds, blank);
    assert DividedBy(text, plan.value, count, bounds, blank, out);
    RefusedWhen(p, count(text), plan.value);
    r := Ok(out);
  }

  lemma RefusedWhen(p: Policy, n: int, plan: Plan)
    requires Works(p) && n >= 0 && Prescribed(p, n, plan)
    ensures plan.refused <==> !Holds(p.maxChunks, Room(p), n)
  {
    if n <= Room(p) {
      Times(Room(p), 1, p.maxChunks);
    }
  }

  // Only white space is lost: every other byte before the blank tail is in a chunk...
  lemma {:induction false} EveryByteKept(text: string, bounds: seq<int>, count: Counter, limit: int, out: seq<Chunk>,
                                         consumed: nat, i: nat) returns (k: nat)
    requires Ordered(text, bounds, count, limit, out) && Reached(text, out, consumed)
    requires i < consumed && text[i] != '\n' && text[i] != ' '
    ensures k < |out| && out[k].start <= i < out[k].end
  {
    var n := |out| - 1;
    assert out[n] == out[n];
    if i >= out[n].start {
      DroppedAt(text, out[n].end, consumed, i);
      k := n;
    } else {
      ButLast(text, bounds, count, limit, out);
      assert n > 0 ==> out[..n][n - 1] == out[n - 1];
      k := EveryByteKept(text, bounds, count, limit, out[..n], out[n].start, i);
    }
  }

  lemma DroppedAt(text: string, a: nat, b: nat, i: nat)
    requires a <= b <= |text| && Dropped(text[a..b])
    ensures a <= i < b ==> text[i] == '\n' || text[i] == ' '
  {
    if a <= i < b { assert text[a..b][i - a] == text[i]; }
  }

  // ...and in one only.
  lemma ChunksAreDisjoint(text: string, bounds: seq<int>, count: Counter, limit: int, out: seq<Chunk>, i: nat,
                          k: nat, m: nat)
    requires Ordered(text, bounds, count, limit, out) && k < |out| && m < |out|
    requires out[k].start <= i < out[k].end && out[m].start <= i < out[m].end
    ensures k == m
  {
    OrderedIsSpaced(text, bounds, count, limit, out);
    EndsBefore(out, k);
    EndsBefore(out, m);
  }

  ghost predicate Spaced(out: seq<Chunk>) {
    forall i {:trigger out[i]} ::
      0 <= i < |out| ==> out[i].start < out[i].end && (i > 0 ==> out[i - 1].end <= out[i].start)
  }

  lemma OrderedIsSpaced(text: string, bounds: seq<int>, count: Counter, limit: int, out: seq<Chunk>)
    requires Ordered(text, bounds, count, limit, out)
    ensures Spaced(out)
  {}

  lemma {:induction false} EndsBefore(out: seq<Chunk>, n: nat)
    requires Spaced(out) && n < |out|
    ensures forall m :: 0 <= m < n ==> out[m].end <= out[n].start
  {
    if n > 0 {
      EndsBefore(out, n - 1);
      assert out[n - 1].start < out[n - 1].end <= out[n].start;
    }
  }
}
