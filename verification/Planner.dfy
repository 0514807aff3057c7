// How many chunks a request is divided into.
module Planning {
  datatype Shape = Unknown | ReadHeavy | GenerateHeavy

  datatype Policy = Policy(perStreamContext: int, outputReserve: int, maxChunks: int, shape: Shape)

  datatype Plan = Plan(chunks: int, chunkTokens: int, maxChunkTokens: int, direct: bool, refused: bool)

  datatype Result<T> = Ok(value: T) | Err

  function Usable(p: Policy): int {
    var n := p.perStreamContext - p.outputReserve;
    if n < 1 then 0 else n
  }

  predicate ValidPolicy(p: Policy) {
    p.perStreamContext > 0 && p.outputReserve >= 0 && Usable(p) > 0 && p.maxChunks >= 1
  }

  function CeilDiv(a: int, b: int): int {
    if b <= 0 then 0 else (a + b - 1) / b
  }

  function PlanFor(p: Policy, promptTokens: int): Result<Plan> {
    if !ValidPolicy(p) || promptTokens < 0 then Err
    else if promptTokens <= Usable(p) then Ok(Plan(1, promptTokens, Usable(p), true, false))
    else
      var fewest := CeilDiv(promptTokens, Usable(p));
      if fewest > p.maxChunks then Ok(Plan(0, 0, 0, false, true))
      else
        var chunks := if !p.shape.GenerateHeavy? then fewest else if fewest * 2 <= p.maxChunks then fewest * 2
                      else p.maxChunks;
        Ok(Plan(chunks, CeilDiv(promptTokens, chunks), Usable(p), false, false))
  }

  // k pieces of size b hold a.
  predicate Holds(k: int, b: int, a: int) {
    a <= k * b
  }

  // The quotient rounded up is the least number of pieces of size b that hold a.
  lemma CeilDivIsLeast(a: int, b: int, k: int)
    requires a >= 0 && b > 0
    ensures CeilDiv(a, b) <= k <==> Holds(k, b, a)
  {
    var q := CeilDiv(a, b);
    assert q * b <= a + b - 1 < q * b + b;
    if q <= k {
      assert q * b <= k * b;
    } else {
      assert (k + 1) * b <= q * b;
    }
  }

  // Divided n ways, each share fits u exactly when n streams of u hold it all.
  lemma ShareFits(a: int, n: int, u: int)
    requires a > 0 && n > 0 && u > 0
    ensures CeilDiv(a, n) <= u <==> Holds(n, u, a)
    ensures CeilDiv(a, n) >= 1 && Holds(n, CeilDiv(a, n), a)
  {
    CeilDivIsLeast(a, n, u);
    assert n * u == u * n;
    CeilDivIsLeast(a, n, 0);
    CeilDivIsLeast(a, n, CeilDiv(a, n));
    assert n * CeilDiv(a, n) == CeilDiv(a, n) * n;
  }

  // The policies that can produce a working plan.
  predicate Works(p: Policy) {
    p.perStreamContext > 0 && p.outputReserve >= 0 && p.perStreamContext - p.outputReserve >= 1 && p.maxChunks >= 1
  }

  // What one stream has room for.
  function Room(p: Policy): int {
    p.perStreamContext - p.outputReserve
  }

  // The least number of pieces of size b that hold n.
  ghost predicate Fewest(k: int, b: int, n: int) {
    k >= 0 && Holds(k, b, n) && forall j {:trigger Holds(j, b, n)} :: 0 <= j < k ==> !Holds(j, b, n)
  }

  // How many chunks a request over one stream calls for, when that many streams hold it: the fewest that fit,
  // and for work that generates much twice as many, or as many as there are streams.
  ghost predicate Spread(p: Policy, n: int, chunks: int) {
    exists k {:trigger Fewest(k, Room(p), n)} ::
      && Fewest(k, Room(p), n)
      && (!p.shape.GenerateHeavy? ==> chunks == k)
      && (p.shape.GenerateHeavy? && 2 * k <= p.maxChunks ==> chunks == 2 * k)
      && (p.shape.GenerateHeavy? && 2 * k > p.maxChunks ==> chunks == p.maxChunks)
  }

  // The share of each chunk is the even one: with a token less they would not hold the request.
  ghost predicate EvenShare(chunks: int, share: int, n: int) {
    Holds(chunks, share, n) && !Holds(chunks, share - 1, n)
  }

  // The plan a request calls for.
  ghost predicate Prescribed(p: Policy, n: int, plan: Plan) {
    if n <= Room(p) then plan == Plan(1, n, Room(p), true, false)
    else if !Holds(p.maxChunks, Room(p), n) then plan == Plan(0, 0, 0, false, true)
    else
      && !plan.direct && !plan.refused && plan.maxChunkTokens == Room(p)
      && Spread(p, n, plan.chunks) && EvenShare(plan.chunks, plan.chunkTokens, n)
  }

  // Every chunk's share fits a stream, and the shares hold the request.
  ghost predicate Fitting(p: Policy, n: int, plan: Plan) {
    && 1 <= plan.chunks <= p.maxChunks && plan.maxChunkTokens + p.outputReserve == p.perStreamContext
    && plan.chunkTokens <= plan.maxChunkTokens && Holds(plan.chunks, plan.chunkTokens, n)
    && (n > Room(p) ==> plan.chunkTokens >= 1 && plan.chunks > 1)
  }

  lemma FewestIs(n: int, u: int)
    requires n > 0 && u > 0
    ensures Fewest(CeilDiv(n, u), u, n)
  {
    CeilDivIsLeast(n, u, CeilDiv(n, u));
    CeilDivIsLeast(n, u, 0);
    forall j | 0 <= j < CeilDiv(n, u) ensures !Holds(j, u, n) {
      CeilDivIsLeast(n, u, j);
    }
  }

  // Divided n ways, one token less for each would leave some over.
  lemma ShareIsEven(a: int, n: int)
    requires a > 0 && n > 0
    ensures EvenShare(n, CeilDiv(a, n), a)
  {
    ShareFits(a, n, 1);
    var less := CeilDiv(a, n) - 1;
    CeilDivIsLeast(a, n, less);
    assert n * less == less * n;
  }

  lemma SplitPlanFits(p: Policy, n: int)
    requires Works(p) && n > Room(p) && Holds(p.maxChunks, Room(p), n)
    ensures PlanFor(p, n).Ok? && Fitting(p, n, PlanFor(p, n).value) && Prescribed(p, n, PlanFor(p, n).value)
  {
    var u := Room(p);
    CeilDivIsLeast(n, u, p.maxChunks);
    CeilDivIsLeast(n, u, 1);
    FewestIs(n, u);
    var plan := PlanFor(p, n).value;
    CeilDivIsLeast(n, u, plan.chunks);
    ShareFits(n, plan.chunks, u);
    ShareIsEven(n, plan.chunks);
  }

  // A plan is refused to a policy that cannot work and to nothing else; the plan is the one the request calls
  // for; and unless it says that the streams together cannot hold the request, it fits.
  lemma PlanIsSound(p: Policy, n: int)
    ensures PlanFor(p, n).Ok? <==> Works(p) && n >= 0
    ensures PlanFor(p, n).Ok? ==> Prescribed(p, n, PlanFor(p, n).value)
    ensures PlanFor(p, n).Ok? && !PlanFor(p, n).value.refused ==> Fitting(p, n, PlanFor(p, n).value)
  {
    var u := Room(p);
    if Works(p) && n > u {
      CeilDivIsLeast(n, u, p.maxChunks);
      if Holds(p.maxChunks, u, n) {
        SplitPlanFits(p, n);
      }
    }
  }

  // A request calls for one plan.
  lemma OnePlan(p: Policy, n: int, a: Plan, b: Plan)
    requires Works(p) && Prescribed(p, n, a) && Prescribed(p, n, b)
    ensures a == b
  {
    if n > Room(p) && Holds(p.maxChunks, Room(p), n) {
      OneSpread(p, n, a.chunks, b.chunks);
      OneShare(a.chunks, a.chunkTokens, b.chunkTokens, n);
      OneShare(a.chunks, b.chunkTokens, a.chunkTokens, n);
    }
  }

  lemma OneSpread(p: Policy, n: int, a: int, b: int)
    requires Works(p) && n > Room(p) && Spread(p, n, a) && Spread(p, n, b)
    ensures a == b && a >= 1
  {
    var k :| Fewest(k, Room(p), n) && (p.shape.GenerateHeavy? || a == k)
             && (p.shape.GenerateHeavy? ==> a == if 2 * k <= p.maxChunks then 2 * k else p.maxChunks);
    var m :| Fewest(m, Room(p), n) && (p.shape.GenerateHeavy? || b == m)
             && (p.shape.GenerateHeavy? ==> b == if 2 * m <= p.maxChunks then 2 * m else p.maxChunks);
    assert Holds(k, Room(p), n) && Holds(m, Room(p), n);
    assert k > 0;
  }

  lemma OneShare(chunks: int, a: int, b: int, n: int)
    requires chunks >= 1 && EvenShare(chunks, a, n) && EvenShare(chunks, b, n)
    ensures a <= b
  {
    if a > b {
      Times(chunks, b, a - 1);
    }
  }

  lemma Times(c: int, a: int, b: int)
    requires c >= 0 && a <= b
    ensures c * a <= c * b
  {
  }
}
