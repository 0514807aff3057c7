// Candidate narrowing: a histogram cutoff that must not change what top-k sees after the penalties.
// Logits are exact reals.
module Sampling {
  import opened Sequences

  datatype Params = Params(temperature: real, topK: int, minKeep: int, repeatLastN: int,
                           repeatPenalty: real, freqPenalty: real, presencePenalty: real, grammar: bool)

  datatype Candidate = Candidate(id: nat, logit: real, p: real)

  // ----- order statistics -----

  ghost function Ids(n: nat): (s: set<nat>)
    ensures |s| == n && forall i: nat {:trigger i in s} :: i in s <==> i < n
  {
    if n == 0 then {} else Ids(n - 1) + {n - 1}
  }

  // The tokens a cutoff keeps.
  ghost function KeptIds(logits: seq<real>, cutoff: real): set<nat> {
    set i | i in Ids(|logits|) && logits[i] >= cutoff
  }

  // top is a choice of the k best of the universe, ties broken any way.
  ghost predicate IsTop(values: seq<real>, universe: set<nat>, k: nat, top: set<nat>) {
    && top <= universe <= Ids(|values|)
    && |top| == (if k <= |universe| then k else |universe|)
    && (forall t, u :: t in top && u in universe - top ==> values[t] >= values[u])
  }

  // Penalised logits: nothing raised.
  ghost predicate Lowered(logits: seq<real>, after: seq<real>) {
    |after| == |logits| && forall i :: 0 <= i < |logits| ==> after[i] <= logits[i]
  }

  ghost function Touched(logits: seq<real>, after: seq<real>): set<nat>
    requires |after| == |logits|
  {
    set i | i in Ids(|logits|) && after[i] != logits[i]
  }

  // Kept tokens whose logits are as they were: more than k of them crowd everything dropped out.
  lemma UntouchedKept(logits: seq<real>, after: seq<real>, cutoff: real, k: nat) returns (u: set<nat>)
    requires Lowered(logits, after) && |KeptIds(logits, cutoff)| >= k + |Touched(logits, after)|
    ensures u <= KeptIds(logits, cutoff) && |u| >= k
    ensures forall i :: i in u ==> after[i] >= cutoff
  {
    u := KeptIds(logits, cutoff) - Touched(logits, after);
    assert KeptIds(logits, cutoff) <= u + Touched(logits, after);
    SubsetSize(KeptIds(logits, cutoff), u + Touched(logits, after));
    forall i | i in u ensures after[i] >= cutoff { assert i !in Touched(logits, after); }
  }

  lemma PickOutside(u: set<nat>, s: set<nat>) returns (x: nat)
    requires |u| > |s|
    ensures x in u && x !in s
  {
    SubsetSize(u, s);
    x :| x in u && x !in s;
  }

  // A choice of the k best of the whole vocabulary has nothing that was dropped.
  lemma TopIsKept(logits: seq<real>, after: seq<real>, cutoff: real, k: nat, top: set<nat>, d: nat)
    requires Lowered(logits, after) && |KeptIds(logits, cutoff)| >= k + |Touched(logits, after)|
    requires IsTop(after, Ids(|logits|), k, top) && d in top
    ensures d in KeptIds(logits, cutoff)
  {
    var u := UntouchedKept(logits, after, cutoff, k);
    assert d in Ids(|logits|);
    SubsetSize(KeptIds(logits, cutoff), Ids(|logits|));
    assert |top - {d}| == |top| - 1;
    var x := PickOutside(u, top - {d});
    assert x in KeptIds(logits, cutoff);
    assert x != d ==> x in Ids(|logits|) - top;
  }

  // A choice of the k best of the kept tokens beats everything dropped.
  lemma KeptTopBeats(logits: seq<real>, after: seq<real>, cutoff: real, k: nat, top: set<nat>, t: nat, d: nat)
    requires Lowered(logits, after) && |KeptIds(logits, cutoff)| >= k + |Touched(logits, after)|
    requires IsTop(after, KeptIds(logits, cutoff), k, top) && t in top
    requires d in Ids(|logits|) && d !in KeptIds(logits, cutoff)
    ensures after[t] >= cutoff > after[d]
  {
    var u := UntouchedKept(logits, after, cutoff, k);
    assert |top - {t}| == |top| - 1;
    var x := PickOutside(u, top - {t});
    assert x != t ==> x in KeptIds(logits, cutoff) - top;
  }

  // Narrowing is sound: with k and the number of penalised tokens to spare, the choices of the k best
  // after the penalties are the same for the kept tokens as for the whole vocabulary.
  lemma NarrowingIsSound(logits: seq<real>, after: seq<real>, cutoff: real, k: nat, top: set<nat>)
    requires Lowered(logits, after) && |KeptIds(logits, cutoff)| >= k + |Touched(logits, after)|
    ensures IsTop(after, Ids(|logits|), k, top) <==> IsTop(after, KeptIds(logits, cutoff), k, top)
  {
    var all, kept := Ids(|logits|), KeptIds(logits, cutoff);
    SubsetSize(kept, all);
    if IsTop(after, all, k, top) {
      forall d | d in top ensures d in kept {
        TopIsKept(logits, after, cutoff, k, top, d);
      }
    }
    if IsTop(after, kept, k, top) {
      forall t, d | t in top && d in all - top ensures after[t] >= after[d] {
        if d !in kept {
          KeptTopBeats(logits, after, cutoff, k, top, t, d);
        }
      }
    }
  }

  // ----- how much headroom narrowing needs -----

  // Keeping n tokens of the vocabulary is always enough for a top-k behind at most r penalised tokens.
  ghost predicate AlwaysSound(n: nat, k: nat, r: nat, vocab: nat) {
    forall logits: seq<real>, after, cutoff, top {:trigger IsTop(after, KeptIds(logits, cutoff), k, top)} ::
      |logits| == vocab && Lowered(logits, after) && |Touched(logits, after)| <= r && |KeptIds(logits, cutoff)| >= n ==>
        (IsTop(after, Ids(|logits|), k, top) <==> IsTop(after, KeptIds(logits, cutoff), k, top))
  }

  // n tokens at 1 and the rest at 0, the first r of them pushed below the rest.
  ghost function Split(n: nat, vocab: nat): seq<real> {
    seq(vocab, i => if i < n then 1.0 else 0.0)
  }

  ghost function Pushed(n: nat, r: nat, vocab: nat): seq<real> {
    seq(vocab, i => if i < r then -1.0 else if i < n then 1.0 else 0.0)
  }

  lemma SplitIsLowered(n: nat, r: nat, vocab: nat)
    requires 0 < n < vocab && r <= n
    ensures Lowered(Split(n, vocab), Pushed(n, r, vocab)) && |Touched(Split(n, vocab), Pushed(n, r, vocab))| <= r
    ensures KeptIds(Split(n, vocab), 1.0) == Ids(n)
  {
    SubsetSize(Touched(Split(n, vocab), Pushed(n, r, vocab)), Ids(r));
  }

  // The kept tokens that a top-k of them alone may choose when too few are untouched.
  lemma BadTop(n: nat, k: nat, r: nat, vocab: nat) returns (top: set<nat>)
    requires 0 < n < vocab && r <= n < k + r
    ensures top <= Ids(n) && |top| == (if k <= n then k else n)
    ensures forall i :: i in Ids(n) - top ==> i < r
    ensures k <= n ==> 0 in top && r > 0
  {
    if k > n {
      top := Ids(n);
    } else {
      var high, low := Ids(n) - Ids(r), Ids(k - (n - r));
      assert Ids(n) == high + Ids(r) && |high| == n - r;
      assert high !! low;
      top := high + low;
    }
  }

  lemma SplitFacts(n: nat, k: nat, r: nat, vocab: nat) returns (top: set<nat>)
    requires 0 < n < vocab && r <= n < k + r
    ensures IsTop(Pushed(n, r, vocab), Ids(n), k, top) && !IsTop(Pushed(n, r, vocab), Ids(vocab), k, top)
  {
    top := BadTop(n, k, r, vocab);
    IdsWithin(n, vocab);
    forall t, u | t in top && u in Ids(n) - top ensures Pushed(n, r, vocab)[t] >= Pushed(n, r, vocab)[u] {
      assert u < r;
    }
    NotTheBest(n, k, r, vocab, top);
  }

  lemma NotTheBest(n: nat, k: nat, r: nat, vocab: nat, top: set<nat>)
    requires 0 < n < vocab && r <= n < k + r && top <= Ids(n)
    requires |top| == (if k <= n then k else n) && (k <= n ==> 0 in top && r > 0)
    ensures !IsTop(Pushed(n, r, vocab), Ids(vocab), k, top)
  {
    assert n in Ids(vocab) - top;
    assert k <= n ==> Pushed(n, r, vocab)[0] < Pushed(n, r, vocab)[n];
  }

  lemma IdsWithin(a: nat, b: nat)
    requires a <= b
    ensures Ids(a) <= Ids(b)
  {}

  // The number of logits that may fall is exactly the headroom needed; when that is more than are kept,
  // no number kept is enough.
  lemma HeadroomIsExact(n: nat, k: nat, r: nat, vocab: nat)
    requires 0 < n < vocab
    ensures AlwaysSound(n, k, r, vocab) <==> k == 0 || n >= k + r
  {
    if k == 0 {
      forall logits: seq<real>, after, cutoff, top
        | |logits| == vocab && Lowered(logits, after)
        ensures IsTop(after, Ids(|logits|), 0, top) <==> IsTop(after, KeptIds(logits, cutoff), 0, top)
      {
        SubsetSize(KeptIds(logits, cutoff), Ids(|logits|));
      }
    } else if n >= k + r {
      forall logits: seq<real>, after, cutoff, top
        | |logits| == vocab && Lowered(logits, after) && |Touched(logits, after)| <= r && |KeptIds(logits, cutoff)| >= n
        ensures IsTop(after, Ids(|logits|), k, top) <==> IsTop(after, KeptIds(logits, cutoff), k, top)
      {
        NarrowingIsSound(logits, after, cutoff, k, top);
      }
    } else {
      var fallen := if r <= n then r else n;
      SplitIsLowered(n, fallen, vocab);
      var top := SplitFacts(n, k, fallen, vocab);
      var logits, after := Split(n, vocab), Pushed(n, fallen, vocab);
      assert IsTop(after, KeptIds(logits, 1.0), k, top) && !IsTop(after, Ids(|logits|), k, top);
    }
  }

  // How many candidates a chain is given; 0 for the whole vocabulary.
  function TruncN(p: Params, nVocab: nat): int {
    if p.temperature > 0.0 && p.topK > 0 then
      var wanted := p.topK + p.repeatLastN + 16;
      var n := if wanted < p.minKeep then p.minKeep else wanted;
      if n < nVocab then n else 0
    else 0
  }

  // A chain narrows when it takes the top of a known number, and the least that leaves MinKeep, and sixteen more
  // than the number and the window, is less than the vocabulary; it then is given that many.
  lemma ChainNarrows(p: Params, nVocab: nat)
    ensures TruncN(p, nVocab) > 0 <==>
            && p.temperature > 0.0 && p.topK > 0 && (p.minKeep > 0 || p.topK + p.repeatLastN + 16 > 0)
            && p.minKeep < nVocab && p.topK + p.repeatLastN + 16 < nVocab
    ensures TruncN(p, nVocab) > 0 ==>
              && TruncN(p, nVocab) >= p.minKeep && TruncN(p, nVocab) >= p.topK + p.repeatLastN + 16
              && TruncN(p, nVocab) in {p.minKeep, p.topK + p.repeatLastN + 16}
  {
  }

  predicate Penalises(p: Params) {
    p.repeatLastN > 0 && (p.repeatPenalty != 1.0 || p.freqPenalty != 0.0 || p.presencePenalty != 0.0)
  }

  // How many tokens the penalties of a chain can touch.
  function Window(p: Params): nat {
    if Penalises(p) then p.repeatLastN else 0
  }

  // A chain that narrows has the headroom, unless the window is set below -16 and MinKeep does not make up for it.
  lemma ChainHasHeadroom(p: Params, nVocab: nat)
    requires TruncN(p, nVocab) > 0
    ensures TruncN(p, nVocab) >= p.topK + Window(p) <==> p.repeatLastN >= -16 || p.minKeep >= p.topK
  {}

  // What the penalties make of a logit whose token was seen `count` times in the window.
  function Penalised(logit: real, count: nat, p: Params): real
    requires p.repeatPenalty > 0.0
  {
    if count == 0 then logit
    else
      (if logit <= 0.0 then logit * p.repeatPenalty
       else logit / p.repeatPenalty) - (count as real) * p.freqPenalty - p.presencePenalty
  }

  // The penalties lower every logit exactly when repetition is not rewarded and the flat penalties do
  // not add up to a bonus.
  lemma PenaltiesLower(p: Params, most: nat)
    requires p.repeatPenalty > 0.0 && most >= 1
    ensures (forall logit: real, count: nat :: count <= most ==> Penalised(logit, count, p) <= logit)
            <==>
            p.repeatPenalty >= 1.0 && p.freqPenalty + p.presencePenalty >= 0.0
            && (most as real) * p.freqPenalty + p.presencePenalty >= 0.0
  {
    var flat, top := p.freqPenalty + p.presencePenalty, (most as real) * p.freqPenalty + p.presencePenalty;
    if p.repeatPenalty >= 1.0 && flat >= 0.0 && top >= 0.0 {
      forall logit: real, count: nat | count <= most ensures Penalised(logit, count, p) <= logit {
        if count > 0 {
          Between(count, most, p.freqPenalty, p.presencePenalty);
          Shrunk(logit, p.repeatPenalty);
        }
      }
    }
    assert Penalised(0.0, 1, p) == -flat && Penalised(0.0, most, p) == -top;
    if p.repeatPenalty < 1.0 && flat >= 0.0 {
      var logit := Grown(p.repeatPenalty, flat);
      assert Penalised(logit, 1, p) > logit;
    }
  }

  lemma Between(count: nat, most: nat, freq: real, presence: real)
    requires 1 <= count <= most && freq + presence >= 0.0 && (most as real) * freq + presence >= 0.0
    ensures (count as real) * freq + presence >= 0.0
  {
    if freq >= 0.0 {
      assert (count as real) * freq >= freq;
    } else {
      assert (count as real) * freq >= (most as real) * freq;
    }
  }

  lemma Shrunk(logit: real, penalty: real)
    requires penalty >= 1.0
    ensures (if logit <= 0.0 then logit * penalty else logit / penalty) <= logit
  {
    if logit > 0.0 {
      var q := logit / penalty;
      assert q * penalty == logit;
      assert q >= 0.0;
      assert q * penalty >= q;
    } else {
      assert logit * penalty <= logit;
    }
  }

  // A repeat penalty below one raises some positive logit past any flat penalty.
  lemma Grown(penalty: real, flat: real) returns (logit: real)
    requires 0.0 < penalty < 1.0 && flat >= 0.0
    ensures logit > 0.0 && logit / penalty - flat > logit
  {
    // logit / penalty - logit = logit * (1 - penalty) / penalty
    logit := (flat + 1.0) * penalty / (1.0 - penalty);
    var q := (flat + 1.0) / (1.0 - penalty);
    assert logit == q * penalty;
    assert logit / penalty == q;
    assert q * (1.0 - penalty) == flat + 1.0;
    assert q - q * penalty == flat + 1.0;
  }

  // ----- the histogram cutoff -----

  const HIST_BUCKETS := 1024
  const HIST_LO := -60.0
  const HIST_STRIDE := 8
  const HIST_MARGIN := 8

  // Buckets per unit of logit: 1024 over the 120 units from -60 to 60.
  const SCALE := 1024.0 / 120.0

  // A float-to-integer conversion: it truncates toward zero within 32 bits and is anything outside.
  type Conversion = real -> int

  function Truncated(x: real): int {
    if x >= 0.0 then x.Floor else -((-x).Floor)
  }

  predicate Fits(x: real) {
    -2147483648.0 < x < 2147483648.0
  }

  ghost predicate Converts(convert: Conversion) {
    forall x {:trigger convert(x)} :: Fits(x) ==> convert(x) == Truncated(x)
  }

  // The bucket a logit is counted in, or -1 when it is too far down to count.
  function Bucket(convert: Conversion, v: real): (b: int)
    ensures -1 <= b < HIST_BUCKETS
  {
    var b := convert((v - HIST_LO) * SCALE);
    if b < 0 then -1 else if b >= HIST_BUCKETS then HIST_BUCKETS - 1 else b
  }

  // The logit a bucket starts at.
  function Edge(bucket: int): real {
    HIST_LO + (bucket as real) / SCALE
  }

  lemma BucketIsAbove(convert: Conversion, v: real, bucket: int)
    requires Converts(convert) && Fits((v - HIST_LO) * SCALE)
    ensures 1 <= bucket <= Bucket(convert, v) ==> v >= Edge(bucket)
    ensures v >= HIST_LO ==> Bucket(convert, v) >= 0
  {
    var x := (v - HIST_LO) * SCALE;
    assert convert(x) == Truncated(x);
    if 1 <= bucket <= Bucket(convert, v) {
      assert x >= bucket as real;
      assert v - HIST_LO == x / SCALE;
    }
  }

  // How many logits reach a cutoff.
  function Reaching(logits: seq<real>, cutoff: real): nat {
    if logits == [] then 0
    else
      var n := |logits| - 1;
      Reaching(logits[..n], cutoff) + if logits[n] >= cutoff then 1 else 0
  }

  // How many were counted in a bucket, and in that bucket or higher.
  ghost function InBucket(convert: Conversion, s: seq<real>, bucket: int): nat {
    if s == [] then 0
    else
      var n := |s| - 1;
      InBucket(convert, s[..n], bucket) + if Bucket(convert, s[n]) == bucket then 1 else 0
  }

  ghost function FromBucket(convert: Conversion, s: seq<real>, bucket: int): nat {
    if s == [] then 0
    else
      var n := |s| - 1;
      FromBucket(convert, s[..n], bucket) + if Bucket(convert, s[n]) >= bucket then 1 else 0
  }

  lemma {:induction false} FromNext(convert: Conversion, s: seq<real>, bucket: int)
    ensures FromBucket(convert, s, bucket) == FromBucket(convert, s, bucket + 1) + InBucket(convert, s, bucket)
    ensures FromBucket(convert, s, HIST_BUCKETS) == 0
  {
    if s != [] { FromNext(convert, s[..|s| - 1], bucket); }
  }

  ghost predicate AllFit(logits: seq<real>) {
    forall i :: 0 <= i < |logits| ==> Fits((logits[i] - HIST_LO) * SCALE)
  }

  // With every logit read, what the chosen bucket counts is kept by its edge, and the lowest bucket
  // counts everything in range.
  lemma {:induction false} CountedIsKept(convert: Conversion, s: seq<real>, bucket: int)
    requires Converts(convert) && AllFit(s)
    ensures bucket >= 1 ==> FromBucket(convert, s, bucket) <= Reaching(s, Edge(bucket))
    ensures Reaching(s, HIST_LO) <= FromBucket(convert, s, 0)
  {
    if s != [] {
      var n := |s| - 1;
      CountedIsKept(convert, s[..n], bucket);
      BucketIsAbove(convert, s[n], bucket);
    }
  }

  lemma {:induction false} LowerReachesMore(s: seq<real>, c: real, d: real)
    requires c <= d
    ensures Reaching(s, d) <= Reaching(s, c)
  {
    if s != [] { LowerReachesMore(s[..|s| - 1], c, d); }
  }

  // The candidates a cutoff keeps, in token order.
  function Kept(logits: seq<real>, cutoff: real): (r: seq<Candidate>)
    ensures |r| == Reaching(logits, cutoff)
  {
    if logits == [] then []
    else
      var n := |logits| - 1;
      Kept(logits[..n], cutoff) + if logits[n] >= cutoff then [Candidate(n, logits[n], 0.0)] else []
  }

  lemma {:induction false} KeptAreIds(logits: seq<real>, cutoff: real)
    ensures |KeptIds(logits, cutoff)| == Reaching(logits, cutoff)
    ensures forall c: Candidate ::
              c in Kept(logits, cutoff) <==> c.id in KeptIds(logits, cutoff) && c.logit == logits[c.id] && c.p == 0.0
  {
    if logits != [] {
      var n := |logits| - 1;
      var before := logits[..n];
      KeptAreIds(before, cutoff);
      assert KeptIds(logits, cutoff) == KeptIds(before, cutoff) + if logits[n] >= cutoff then {n} else {};
    }
  }

  // Where the j-th logit read stands.
  function At(j: nat, stride: nat): nat {
    if j == 0 then 0 else At(j - 1, stride) + stride
  }

  ghost predicate ReadSoFar(logits: seq<real>, stride: nat, read: seq<real>) {
    forall j :: 0 <= j < |read| ==> At(j, stride) < |logits| && read[j] == logits[At(j, stride)]
  }

  // Every stride'th logit, from the first to the last.
  ghost predicate ReadsEvery(logits: seq<real>, stride: nat, read: seq<real>) {
    |logits| <= At(|read|, stride) && ReadSoFar(logits, stride, read)
  }

  lemma ReadMore(logits: seq<real>, stride: nat, read: seq<real>)
    requires ReadSoFar(logits, stride, read) && At(|read|, stride) < |logits|
    ensures ReadSoFar(logits, stride, read + [logits[At(|read|, stride)]])
    ensures At(|read| + 1, stride) == At(|read|, stride) + stride
  {}

  // With a stride of one nothing is skipped.
  lemma {:induction false} OneIsAll(logits: seq<real>, read: seq<real>)
    requires ReadsEvery(logits, 1, read)
    ensures read == logits
  {
    forall j | 0 <= j <= |read| ensures At(j, 1) == j {
      AtOne(j);
    }
    if |read| > 0 {
      assert At(|read| - 1, 1) < |logits|;
    }
    forall j | 0 <= j < |read| ensures read[j] == logits[j] {
      assert read[j] == logits[At(j, 1)];
    }
  }

  lemma {:induction false} AtOne(j: nat)
    ensures At(j, 1) == j
  {
    if j > 0 { AtOne(j - 1); }
  }

  // The highest bucket with target logits in it or above.
  ghost predicate HighestWith(convert: Conversion, read: seq<real>, target: int, bucket: int) {
    0 <= bucket < HIST_BUCKETS && FromBucket(convert, read, bucket) >= target > FromBucket(convert, read, bucket + 1)
  }

  // The edge a margin below that bucket, or of the lowest.
  ghost predicate PlacesCutoff(convert: Conversion, read: seq<real>, target: int, cutoff: real) {
    exists bucket :: HighestWith(convert, read, target, bucket)
                     && cutoff == Edge(if bucket < HIST_MARGIN then 0 else bucket - HIST_MARGIN)
  }

  // How many of the logits read the cutoff has to leave.
  function Target(truncN: int, stride: nat): int
    requires stride >= 1
  {
    if truncN / stride < 1 then 1 else truncN / stride
  }

  ghost predicate CutFrom(convert: Conversion, truncN: int, logits: seq<real>, stride: nat, cutoff: real) {
    && stride >= 1
    && exists read :: ReadsEvery(logits, stride, read) && PlacesCutoff(convert, read, Target(truncN, stride), cutoff)
  }

  // A cutoff that a chain may be narrowed by: from the sample or from every logit, and with enough kept.
  ghost predicate Narrows(convert: Conversion, truncN: int, logits: seq<real>, cutoff: real) {
    && 0 < truncN < |logits| && Reaching(logits, cutoff) >= truncN
    && (CutFrom(convert, truncN, logits, HIST_STRIDE, cutoff) || CutFrom(convert, truncN, logits, 1, cutoff))
  }

  class Sampler {
    const truncN: int
    const convert: Conversion
    const hist: array<int>

    constructor (truncN: int, convert: Conversion)
      ensures this.truncN == truncN && this.convert == convert && fresh(hist) && hist.Length == HIST_BUCKETS
    {
      this.truncN, this.convert, hist := truncN, convert, new int[HIST_BUCKETS];
    }

    method ClearHist()
      requires hist.Length == HIST_BUCKETS
      modifies hist
      ensures forall b :: 0 <= b < HIST_BUCKETS ==> hist[b] == 0
    {
      for i := 0 to HIST_BUCKETS
        invariant forall b :: 0 <= b < i ==> hist[b] == 0
      {
        hist[i] := 0;
      }
    }

    // One logit more goes into its bucket.
    method CountOne(v: real, ghost read: seq<real>)
      requires hist.Length == HIST_BUCKETS
      requires forall b :: 0 <= b < HIST_BUCKETS ==> hist[b] == InBucket(convert, read, b)
      modifies hist
      ensures forall b :: 0 <= b < HIST_BUCKETS ==> hist[b] == InBucket(convert, read + [v], b)
    {
      assert (read + [v])[..|read|] == read;
      var b := convert((v - HIST_LO) * SCALE);
      if b >= 0 {
        if b >= HIST_BUCKETS {
          b := HIST_BUCKETS - 1;
        }
        hist[b] := hist[b] + 1;
      }
    }

    // Every stride'th logit goes into its bucket.
    method CountLogits(logits: seq<real>, stride: nat) returns (ghost read: seq<real>)
      requires hist.Length == HIST_BUCKETS && stride >= 1
      modifies hist
      ensures forall b :: 0 <= b < HIST_BUCKETS ==> hist[b] == InBucket(convert, read, b)
      ensures ReadsEvery(logits, stride, read)
    {
      ClearHist();
      read := [];
      var i := 0;
      while i < |logits|
        invariant forall b :: 0 <= b < HIST_BUCKETS ==> hist[b] == InBucket(convert, read, b)
        invariant i == At(|read|, stride) && ReadSoFar(logits, stride, read)
        decreases |logits| - i
      {
        CountOne(logits[i], read);
        ReadMore(logits, stride, read);
        read := read + [logits[i]];
        i := i + stride;
      }
    }

    // The highest bucket above which target logits have been counted, or -1.
    method FindBucket(ghost read: seq<real>, target: int) returns (bucket: int)
      requires hist.Length == HIST_BUCKETS && target >= 1
      requires forall b :: 0 <= b < HIST_BUCKETS ==> hist[b] == InBucket(convert, read, b)
      ensures -1 <= bucket < HIST_BUCKETS
      ensures if bucket >= 0 then FromBucket(convert, read, bucket) >= target else FromBucket(convert, read, 0) < target
      ensures FromBucket(convert, read, bucket + 1) < target
    {
      var cum, i := 0, HIST_BUCKETS - 1;
      FromNext(convert, read, 0);
      while i >= 0
        invariant -1 <= i < HIST_BUCKETS
        invariant cum == FromBucket(convert, read, i + 1) < target
      {
        cum := cum + hist[i];
        FromNext(convert, read, i);
        if cum >= target {
          return i;
        }
        i := i - 1;
      }
      bucket := -1;
    }

    method CutoffFor(logits: seq<real>, stride: nat) returns (cutoff: real, ok: bool, ghost read: seq<real>)
      requires hist.Length == HIST_BUCKETS && stride >= 1 && truncN > 0
      modifies hist
      ensures ReadsEvery(logits, stride, read)
      ensures if ok then PlacesCutoff(convert, read, Target(truncN, stride), cutoff)
              else FromBucket(convert, read, 0) < Target(truncN, stride)
      ensures ok ==> cutoff >= HIST_LO && CutFrom(convert, truncN, logits, stride, cutoff)
      ensures stride == 1 && Converts(convert) && AllFit(logits) && Reaching(logits, HIST_LO) >= truncN ==>
                ok && Reaching(logits, cutoff) >= truncN
    {
      read := CountLogits(logits, stride);
      var target := truncN / stride;
      if target < 1 {
        target := 1;
      }
      var bucket := FindBucket(read, target);
      if stride == 1 && Converts(convert) && AllFit(logits) {
        OneIsAll(logits, read);
        CountedIsKept(convert, logits, bucket);
        FloorKeepsEnough(logits, bucket);
      }
      if bucket < 0 {
        return 0.0, false, read;
      }
      ghost var highest := bucket;
      bucket := bucket - HIST_MARGIN;
      if bucket < 0 {
        bucket := 0;
      }
      assert HighestWith(convert, read, target, highest);
      return Edge(bucket), true, read;
    }

    method Collect(logits: seq<real>, cutoff: real, dst: array<Candidate>) returns (n: nat)
      requires dst.Length == |logits|
      modifies dst
      ensures n <= dst.Length && dst[..n] == Kept(logits, cutoff) && n == Reaching(logits, cutoff)
    {
      n := 0;
      for i := 0 to |logits|
        invariant n <= i && dst[..n] == Kept(logits[..i], cutoff)
      {
        assert logits[..i + 1][..i] == logits[..i];
        if logits[i] >= cutoff {
          dst[n] := Candidate(i, logits[i], 0.0);
          n := n + 1;
          assert dst[..n] == dst[..n - 1] + [Candidate(i, logits[i], 0.0)];
        }
      }
      assert logits[..|logits|] == logits;
    }

    // The kept candidates, at least truncN of them, or none when the whole vocabulary must be used.
    method SelectCandidates(logits: seq<real>, dst: array<Candidate>) returns (n: nat, ghost cutoff: real)
      requires hist.Length == HIST_BUCKETS && dst.Length == |logits|
      modifies hist, dst
      ensures n <= dst.Length
      ensures n > 0 ==> 0 < truncN < |logits| && n >= truncN && cutoff >= HIST_LO && dst[..n] == Kept(logits, cutoff)
      ensures n > 0 ==> Narrows(convert, truncN, logits, cutoff)
      ensures Converts(convert) && AllFit(logits) ==>
                (n > 0 <==> 0 < truncN < |logits| && Reaching(logits, HIST_LO) >= truncN)
    {
      cutoff := 0.0;
      if truncN <= 0 || |logits| == 0 || truncN >= |logits| {
        return 0, cutoff;
      }
      var c, ok;
      ghost var read;
      c, ok, read := CutoffFor(logits, HIST_STRIDE);
      if !ok {
        c, ok, read := CutoffFor(logits, 1);
        if !ok {
          return 0, cutoff;
        }
      }
      n := Collect(logits, c, dst);
      LowerReachesMore(logits, HIST_LO, c);
      if n < truncN {
        c, ok, read := CutoffFor(logits, 1);
        if !ok {
          return 0, cutoff;
        }
        n := Collect(logits, c, dst);
        LowerReachesMore(logits, HIST_LO, c);
        if n < truncN {
          return 0, cutoff;
        }
      }
      cutoff := c;
    }
  }

  // Stepping the bucket down by the margin, no lower than the bottom, keeps what its own edge keeps.
  lemma FloorKeepsEnough(s: seq<real>, bucket: int)
    ensures var down := if bucket - HIST_MARGIN < 0 then 0 else bucket - HIST_MARGIN;
            bucket >= 1 ==> Reaching(s, Edge(bucket)) <= Reaching(s, Edge(down))
    ensures Edge(0) == HIST_LO
  {
    var down := if bucket - HIST_MARGIN < 0 then 0 else bucket - HIST_MARGIN;
    if bucket >= 1 {
      assert Edge(down) <= Edge(bucket);
      LowerReachesMore(s, Edge(down), Edge(bucket));
    }
  }

  // ----- the whole chain -----

  // Tokens a grammar forbids are put below all others.
  ghost predicate MasksTo(logits: seq<real>, masked: seq<real>, floor: real) {
    && |masked| == |logits|
    && (forall i :: 0 <= i < |logits| ==> floor < logits[i])
    && (forall i :: 0 <= i < |logits| ==> masked[i] == logits[i] || masked[i] == floor)
  }

  ghost predicate Masks(logits: seq<real>, masked: seq<real>) {
    exists floor: real :: MasksTo(logits, masked, floor)
  }

  // Times a token stands in the window.
  function Seen(recent: seq<nat>, i: nat): nat {
    multiset(recent)[i]
  }

  // What comes of the masked logits once the tokens of the window are penalised.
  ghost predicate Weighs(p: Params, recent: seq<nat>, masked: seq<real>, after: seq<real>) {
    && |after| == |masked|
    && if Penalises(p) then
         && p.repeatPenalty > 0.0 && |recent| <= p.repeatLastN
         && forall i :: 0 <= i < |masked| ==> after[i] == Penalised(masked[i], Seen(recent, i), p)
       else after == masked
  }

  // What the chain makes of the logits before top-k.
  ghost predicate ComesOut(p: Params, recent: seq<nat>, logits: seq<real>, masked: seq<real>, after: seq<real>) {
    (if p.grammar then Masks(logits, masked) else masked == logits) && Weighs(p, recent, masked, after)
  }

  // Whatever the logits, the window and the mask, top-k after the penalties is the same from the narrowed
  // candidates as from the whole vocabulary.
  ghost predicate ChainIsSound(p: Params, convert: Conversion, vocab: nat) {
    forall logits: seq<real>, recent, masked, after, cutoff, top
      {:trigger ComesOut(p, recent, logits, masked, after), IsTop(after, KeptIds(logits, cutoff), p.topK, top)} ::
      |logits| == vocab && ComesOut(p, recent, logits, masked, after)
      && Narrows(convert, TruncN(p, vocab), logits, cutoff) ==>
        (IsTop(after, Ids(vocab), p.topK, top) <==> IsTop(after, KeptIds(logits, cutoff), p.topK, top))
  }

  // The penalties never reward a token, and the window leaves headroom.
  predicate Sane(p: Params) {
    && (p.repeatLastN >= -16 || p.minKeep >= p.topK)
    && (Penalises(p) ==>
          && p.repeatPenalty >= 1.0 && p.freqPenalty + p.presencePenalty >= 0.0
          && (p.repeatLastN as real) * p.freqPenalty + p.presencePenalty >= 0.0)
  }

  lemma {:induction false} FewTouched(recent: seq<nat>, touched: set<nat>)
    requires forall i :: i in touched ==> i in recent
    ensures |touched| <= |recent|
  {
    if recent == [] {
      assert touched == {};
    } else {
      var n := |recent| - 1;
      FewTouched(recent[..n], touched - {recent[n]});
      SubsetSize(touched, (touched - {recent[n]}) + {recent[n]});
    }
  }

  lemma {:induction false} SeenAtMost(recent: seq<nat>, i: nat)
    ensures Seen(recent, i) <= |recent| && (Seen(recent, i) > 0 ==> i in recent)
  {
    if recent != [] {
      var n := |recent| - 1;
      SeenAtMost(recent[..n], i);
      assert recent == recent[..n] + [recent[n]];
    }
  }

  // Without a grammar the chain lowers no more than the window holds.
  lemma PenaltiesTouchFew(p: Params, recent: seq<nat>, logits: seq<real>, after: seq<real>)
    requires Sane(p) && Weighs(p, recent, logits, after)
    ensures Lowered(logits, after) && |Touched(logits, after)| <= Window(p)
  {
    if Penalises(p) {
      forall i | 0 <= i < |logits| ensures after[i] <= logits[i] && (after[i] != logits[i] ==> i in recent) {
        SeenAtMost(recent, i);
        PenaltiesLower(p, p.repeatLastN);
        assert Penalised(logits[i], Seen(recent, i), p) <= logits[i];
      }
      FewTouched(recent, Touched(logits, after));
    } else {
      assert Touched(logits, after) == {};
    }
  }

  lemma PlainChainIsSound(p: Params, convert: Conversion, vocab: nat, recent: seq<nat>, logits: seq<real>,
                          after: seq<real>, cutoff: real, top: set<nat>)
    requires TruncN(p, vocab) > 0 && Sane(p) && |logits| == vocab && Weighs(p, recent, logits, after)
    requires Narrows(convert, TruncN(p, vocab), logits, cutoff)
    ensures IsTop(after, Ids(vocab), p.topK, top) <==> IsTop(after, KeptIds(logits, cutoff), p.topK, top)
  {
    PenaltiesTouchFew(p, recent, logits, after);
    ChainHasHeadroom(p, vocab);
    KeptAreIds(logits, cutoff);
    NarrowingIsSound(logits, after, cutoff, p.topK, top);
  }

  // ----- and with a grammar -----

  // n logits at 10 and the rest at 0; and the same with the n forbidden.
  ghost function Peak(n: nat, vocab: nat): seq<real> {
    seq(vocab, i => if i < n then 10.0 else 0.0)
  }

  ghost function Forbidden(n: nat, vocab: nat): seq<real> {
    seq(vocab, i => if i < n then -1.0 else 0.0)
  }

  lemma {:induction false} AtIs(j: nat, stride: nat)
    ensures At(j, stride) == j * stride
  {
    if j > 0 {
      AtIs(j - 1, stride);
      assert j * stride == (j - 1) * stride + stride;
    }
  }

  // The sample of a peak: its own logits, and then zeros.
  lemma SampleOfPeak(n: nat, vocab: nat) returns (read: seq<real>, m: nat)
    requires 0 < n < vocab
    ensures ReadsEvery(Peak(n, vocab), HIST_STRIDE, read)
    ensures m <= |read| && m >= Target(n, HIST_STRIDE)
    ensures forall j :: 0 <= j < |read| ==> read[j] == if j < m then 10.0 else 0.0
  {
    var j := (vocab + 7) / 8;
    m := (n + 7) / 8;
    AtIs(j, 8);
    read := seq(j, i => if i < m then 10.0 else 0.0);
    forall i | 0 <= i < j ensures At(i, 8) < vocab && read[i] == Peak(n, vocab)[At(i, 8)] {
      AtIs(i, 8);
    }
  }

  lemma {:induction false} PeakCounts(convert: Conversion, read: seq<real>, m: nat)
    requires Converts(convert) && m <= |read| && forall j :: 0 <= j < |read| ==> read[j] == if j < m then 10.0 else 0.0
    ensures FromBucket(convert, read, 597) == m && FromBucket(convert, read, 598) == 0
  {
    PeakBucket(convert);
    if read != [] {
      var n := |read| - 1;
      PeakCounts(convert, read[..n], if m <= n then m else n);
    }
  }

  lemma PeakBucket(convert: Conversion)
    requires Converts(convert)
    ensures Bucket(convert, 10.0) == 597 && Bucket(convert, 0.0) == 512
  {
    var x := (10.0 - HIST_LO) * SCALE;
    assert 597.0 <= x < 598.0 && Fits(x);
    assert x.Floor == 597;
    assert convert(x) == Truncated(x);
    var y := (0.0 - HIST_LO) * SCALE;
    assert y == 512.0 && Fits(y);
    assert convert(y) == Truncated(y);
  }

  lemma {:induction false} PeakReached(n: nat, vocab: nat, cutoff: real)
    requires n <= vocab && 0.0 < cutoff <= 10.0
    ensures Reaching(Peak(n, vocab), cutoff) == n && KeptIds(Peak(n, vocab), cutoff) == Ids(n)
  {
    if vocab > 0 {
      var before := if n < vocab then n else vocab - 1;
      PeakReached(before, vocab - 1, cutoff);
      assert Peak(n, vocab)[..vocab - 1] == Peak(before, vocab - 1);
    }
  }

  // The peak is what the chain is narrowed to.
  lemma PeakNarrows(convert: Conversion, n: nat, vocab: nat)
    requires Converts(convert) && 0 < n < vocab
    ensures Narrows(convert, n, Peak(n, vocab), Edge(589)) && KeptIds(Peak(n, vocab), Edge(589)) == Ids(n)
  {
    var read, m := SampleOfPeak(n, vocab);
    PeakCounts(convert, read, m);
    assert HighestWith(convert, read, Target(n, HIST_STRIDE), 597);
    assert PlacesCutoff(convert, read, Target(n, HIST_STRIDE), Edge(589));
    assert CutFrom(convert, n, Peak(n, vocab), HIST_STRIDE, Edge(589));
    PeakReached(n, vocab, Edge(589));
  }

  // All that is kept is forbidden: top-k of the kept takes forbidden tokens, and of all it does not.
  lemma ForbiddenTop(n: nat, k: nat, vocab: nat) returns (top: set<nat>)
    requires 0 < n < vocab && 0 < k
    ensures IsTop(Forbidden(n, vocab), Ids(n), k, top) && !IsTop(Forbidden(n, vocab), Ids(vocab), k, top)
  {
    top := if k <= n then Ids(k) else Ids(n);
    IdsWithin(if k <= n then k else n, n);
    IdsWithin(n, vocab);
    NotOfAll(n, k, vocab, top);
  }

  lemma NotOfAll(n: nat, k: nat, vocab: nat, top: set<nat>)
    requires 0 < n < vocab && top <= Ids(n) && 0 in top
    ensures !IsTop(Forbidden(n, vocab), Ids(vocab), k, top)
  {
    assert n in Ids(vocab) - top;
    assert Forbidden(n, vocab)[0] < Forbidden(n, vocab)[n];
  }

  lemma GrammarIsUnsound(p: Params, convert: Conversion, vocab: nat)
    requires TruncN(p, vocab) > 0 && Converts(convert) && p.grammar && (Penalises(p) ==> p.repeatPenalty > 0.0)
    ensures !ChainIsSound(p, convert, vocab)
  {
    var n := TruncN(p, vocab);
    var logits, masked := Peak(n, vocab), Forbidden(n, vocab);
    PeakNarrows(convert, n, vocab);
    var top := ForbiddenTop(n, p.topK, vocab);
    MaskComesOut(p, n, vocab);
    assert IsTop(masked, KeptIds(logits, Edge(589)), p.topK, top);
  }

  // Nothing was said yet: the mask is all that happens.
  lemma MaskComesOut(p: Params, n: nat, vocab: nat)
    requires p.grammar && (Penalises(p) ==> p.repeatPenalty > 0.0)
    ensures ComesOut(p, [], Peak(n, vocab), Forbidden(n, vocab), Forbidden(n, vocab))
  {
    MaskOfPeak(n, vocab);
    assert forall i :: Seen([], i) == 0;
  }

  lemma MaskOfPeak(n: nat, vocab: nat)
    ensures Masks(Peak(n, vocab), Forbidden(n, vocab))
  {
    assert MasksTo(Peak(n, vocab), Forbidden(n, vocab), -1.0);
  }

  // A chain that narrows is sound exactly when it has no grammar.
  lemma SoundWithoutGrammar(p: Params, convert: Conversion, vocab: nat)
    requires TruncN(p, vocab) > 0 && Sane(p) && Converts(convert)
    ensures ChainIsSound(p, convert, vocab) <==> !p.grammar
  {
    if p.grammar {
      GrammarIsUnsound(p, convert, vocab);
    } else {
      forall logits: seq<real>, recent, masked, after, cutoff, top
        | |logits| == vocab && ComesOut(p, recent, logits, masked, after)
          && Narrows(convert, TruncN(p, vocab), logits, cutoff)
        ensures IsTop(after, Ids(vocab), p.topK, top) <==> IsTop(after, KeptIds(logits, cutoff), p.topK, top)
      {
        PlainChainIsSound(p, convert, vocab, recent, logits, after, cutoff, top);
      }
    }
  }

  // One such chain: 18 tokens, top-1, the 17 best forbidden. The 17 are what is kept...
  lemma GrammarBreaksNarrowing(p: Params, convert: Conversion)
    requires p == Params(1.0, 1, 1, 0, 1.0, 0.0, 0.0, true) && Converts(convert)
    ensures Sane(p) && TruncN(p, 18) == 17
    ensures Narrows(convert, 17, Peak(17, 18), Edge(589)) && KeptIds(Peak(17, 18), Edge(589)) == Ids(17)
    ensures ComesOut(p, [], Peak(17, 18), Forbidden(17, 18), Forbidden(17, 18))
  {
    PeakNarrows(convert, 17, 18);
    MaskComesOut(p, 17, 18);
  }

  // ...and of those the chain takes a forbidden one, although the 18th is allowed and the better.
  lemma ForbiddenIsTaken()
    ensures var masked := Forbidden(17, 18);
            IsTop(masked, Ids(17), 1, {0}) && !IsTop(masked, Ids(18), 1, {0}) && IsTop(masked, Ids(18), 1, {17})
  {
    var masked := Forbidden(17, 18);
    IdsWithin(17, 18);
    assert 17 in Ids(18) - {0} && masked[0] < masked[17];
  }
}
