/** The slot table as a value: what holds of all slots at once, and how one slot's step keeps it.

    The statements about all slots are used one slot at a time, which their triggers enforce. */
module Tables {
  import opened Options
  import opened Utf8
  import opened Decoding
  import opened Backends
  import opened Slots

  predicate Spare(free: seq<nat>, q: nat) {
    q in free
  }

  /** Every sequence id is either free, once, or in use. */
  ghost predicate Partition(n: nat, free: seq<nat>, used: set<nat>) {
    && (forall q :: q in used ==> q < n)
    && (forall i, j :: 0 <= i < j < |free| ==> free[i] != free[j])
    && (forall q: nat {:trigger Spare(free, q)} :: q < n ==> (Spare(free, q) <==> q !in used))
    && (forall q: nat {:trigger Spare(free, q)} :: Spare(free, q) ==> q < n)
  }

  lemma ReleaseId(n: nat, free: seq<nat>, used: set<nat>, q: nat)
    requires Partition(n, free, used) && q in used
    ensures Partition(n, free + [q], used - {q})
  {
    forall p: nat ensures Spare(free + [q], p) <==> Spare(free, p) || p == q {
    }
    assert !Spare(free, q);
  }

  lemma TakeId(n: nat, free: seq<nat>, used: set<nat>)
    requires Partition(n, free, used) && free != []
    ensures Partition(n, free[1..], used + {free[0]})
    ensures free[0] < n && free[0] !in used
  {
    assert Spare(free, free[0]);
    forall p: nat ensures Spare(free, p) <==> Spare(free[1..], p) || p == free[0] {
      if Spare(free, p) && p != free[0] {
        var i :| 0 <= i < |free| && free[i] == p;
        assert free[1..][i - 1] == p;
      }
    }
    assert !Spare(free[1..], free[0]);
  }

  ghost predicate AllFinal(over: seq<Outcome>, plain: Decoder, window: nat, fate: Fate) {
    forall i {:trigger Final(over[i], plain, window, fate)} ::
      0 <= i < |over| ==> Final(over[i], plain, window, fate)
  }

  ghost predicate AllHeld(active: map<nat, Slot>, n: nat, plain: Decoder, bound: nat, rewinder: bool,
                          tips: seq<seq<Token>>, chains: seq<Chain>, ckpt: seq<Option<seq<Token>>>,
                          rows: seq<Row>)
    requires |tips| == |chains| == |ckpt| == n
  {
    forall q {:trigger Held(active[q], plain, bound, rewinder, q, tips[q], chains[q], ckpt[q], rows)} ::
      q in active && q < n ==>
        Held(active[q], plain, bound, rewinder, q, tips[q], chains[q], ckpt[q], rows)
  }

  /** Staging for one sequence leaves the others as they were. */
  lemma StagedOne(before: map<nat, Slot>, after: map<nat, Slot>, q: nat, n: nat, plain: Decoder, bound: nat,
                  rewinder: bool, tips: seq<seq<Token>>, tips': seq<seq<Token>>, chains: seq<Chain>,
                  ckpt: seq<Option<seq<Token>>>, ckpt': seq<Option<seq<Token>>>,
                  rows: seq<Row>, rows': seq<Row>)
    requires |tips| == |tips'| == |chains| == |ckpt| == |ckpt'| == n && q < n
    requires q in after
    requires AllHeld(before, n, plain, bound, rewinder, tips, chains, ckpt, rows)
    requires q in before && after == before[q := after[q]]
    requires tips' == tips[q := tips'[q]] && ckpt' == ckpt[q := ckpt'[q]]
    requires rows <= rows'
    requires Held(after[q], plain, bound, rewinder, q, tips'[q], chains[q], ckpt'[q], rows')
    ensures AllHeld(after, n, plain, bound, rewinder, tips', chains, ckpt', rows')
  {
    forall p | p in before && p != q && p < n
      ensures Held(after[p], plain, bound, rewinder, p, tips'[p], chains[p], ckpt'[p], rows')
    {
      HeldGrows(before[p], plain, bound, rewinder, p, tips[p], chains[p], ckpt[p], rows, rows');
    }
  }

  /** Leading tokens two prompts share. */
  function CommonPrefix(a: seq<Token>, b: seq<Token>): (n: nat)
    ensures n <= |a| && n <= |b| && a[..n] == b[..n]
    ensures n < |a| && n < |b| ==> a[n] != b[n]
  {
    if a == [] || b == [] || a[0] != b[0] then 0 else 1 + CommonPrefix(a[1..], b[1..])
  }

  lemma CommonPrefixIs(a: seq<Token>, b: seq<Token>, n: nat)
    requires n <= |a| && n <= |b| && a[..n] == b[..n]
    requires n < |a| && n < |b| ==> a[n] != b[n]
    ensures CommonPrefix(a, b) == n
  {
    var k := CommonPrefix(a, b);
    assert forall i :: 0 <= i < n ==> a[..n][i] == b[..n][i];
    assert forall i :: 0 <= i < k ==> a[..k][i] == b[..k][i];
  }

  method CountShared(a: seq<Token>, b: seq<Token>) returns (n: nat)
    ensures n == CommonPrefix(a, b)
  {
    n := 0;
    while n < |a| && n < |b| && a[n] == b[n]
      invariant n <= |a| && n <= |b| && a[..n] == b[..n]
    {
      n := n + 1;
    }
    CommonPrefixIs(a, b, n);
  }

  /** What the stream of `d` can lend to that of `s`: the tokens their prompts share, as far as it
      has cached them, and never the whole prompt of the borrower. */
  function Lendable(s: Slot, d: Slot): (n: int)
    ensures n <= |d.req.prompt| && n <= d.pos && n < |s.req.prompt|
    ensures n > 0 ==> s.req.prompt[..n] == d.req.prompt[..n]
    ensures 0 <= n < |s.req.prompt| - 1 && n < |d.req.prompt| && n < d.pos ==> s.req.prompt[n] != d.req.prompt[n]
  {
    var shared := CommonPrefix(s.req.prompt, d.req.prompt);
    var cached := if shared > d.pos then d.pos else shared;
    if cached >= |s.req.prompt| then |s.req.prompt| - 1 else cached
  }

  /** Staging, polling and sharing change how far a slot is, never what it has said. */
  predicate SameStream(s: Slot, s': Slot) {
    && s'.req == s.req && s'.noSpeculate == s.noSpeculate && s'.patient == s.patient
    && s'.generated == s.generated && s'.next == s.next && s'.sampledOnce == s.sampledOnce
    && s'.buf == s.buf && s'.text == s.text && s'.events == s.events
    && (s.cancelled ==> s'.cancelled) && (s.patient ==> !s.cancelled ==> !s'.cancelled)
  }

  /** While the rows are being sampled: `todo` have not been looked at, the others are idle again. */
  ghost predicate HarvestedSoFar(table: map<nat, Slot>, todo: set<nat>, n: nat, plain: Decoder, bound: nat,
                                 rewinder: bool, att: seq<seq<Token>>, chains: seq<Chain>,
                                 ckpt: seq<Option<seq<Token>>>, rows: seq<Row>)
    requires |att| == |chains| == |ckpt| == n
  {
    && (forall q {:trigger Held(table[q], plain, bound, rewinder, q, att[q], chains[q], ckpt[q], rows)} ::
          q in table && q in todo && q < n ==>
            Held(table[q], plain, bound, rewinder, q, att[q], chains[q], ckpt[q], rows))
    && AllIdle(table, todo, n, plain, bound, att, chains)
  }

  ghost predicate AllIdle(table: map<nat, Slot>, except: set<nat>, n: nat, plain: Decoder, bound: nat,
                          att: seq<seq<Token>>, chains: seq<Chain>)
    requires |att| == |chains| == n
  {
    forall q {:trigger Idle(table[q], plain, bound, att[q], chains[q])} ::
      q in table && q !in except && q < n ==> Idle(table[q], plain, bound, att[q], chains[q])
  }

  lemma SampledOne(table: map<nat, Slot>, table': map<nat, Slot>, todo: set<nat>, q: nat, n: nat,
                   plain: Decoder, bound: nat, rewinder: bool,
                   att: seq<seq<Token>>, att': seq<seq<Token>>, chains: seq<Chain>, chains': seq<Chain>,
                   ckpt: seq<Option<seq<Token>>>, ckpt': seq<Option<seq<Token>>>, rows: seq<Row>)
    requires |att| == |chains| == |ckpt| == |att'| == |chains'| == |ckpt'| == n && q < n
    requires HarvestedSoFar(table, todo, n, plain, bound, rewinder, att, chains, ckpt, rows)
    requires table' == table - {q} || (q in table' && table' == table[q := table'[q]])
    requires forall p :: 0 <= p < n && p != q ==>
                           att'[p] == att[p] && chains'[p] == chains[p] && ckpt'[p] == ckpt[p]
    requires q in table' ==> Idle(table'[q], plain, bound, att'[q], chains'[q])
    ensures HarvestedSoFar(table', todo - {q}, n, plain, bound, rewinder, att', chains', ckpt', rows)
  {
    forall p | p in table' && p != q && p < n
      ensures p in todo ==> Held(table'[p], plain, bound, rewinder, p, att'[p], chains'[p], ckpt'[p], rows)
      ensures p !in todo ==> Idle(table'[p], plain, bound, att'[p], chains'[p])
    {
      assert p in todo ==> Held(table[p], plain, bound, rewinder, p, att[p], chains[p], ckpt[p], rows);
      assert p !in todo ==> Idle(table[p], plain, bound, att[p], chains[p]);
    }
  }

  /** A stream that is there to lend to that of `q`, and whose caller stays. */
  predicate Lends(table: map<nat, Slot>, q: nat, d: nat) {
    d in table && d != q && table[d].patient && !table[d].cancelled
  }

  /** One long enough to be worth the call. */
  predicate LendsEnough(table: map<nat, Slot>, q: nat, d: nat)
    requires q in table
  {
    Lends(table, q, d) && Lendable(table[q], table[d]) >= 256
  }

  /** A loan worth the call, and none that stays available is longer. */
  ghost predicate BestLoan(table: map<nat, Slot>, q: nat, donor: nat, n: nat)
    requires q in table
  {
    && donor in table && donor != q && n == Lendable(table[q], table[donor]) >= 256
    && forall d {:trigger Lends(table, q, d)} :: Lends(table, q, d) ==> Lendable(table[q], table[d]) <= n
  }

  /** The live stream that can lend the longest prefix, the lowest sequence among equals.  Streams
      whose callers are gone lend nothing. */
  method BestDonor(nSeqMax: nat, table: map<nat, Slot>, q: nat) returns (donor: nat, n: nat)
    requires q in table && forall d :: d in table ==> d < nSeqMax
    ensures n > 0 ==> donor in table && donor != q && n == Lendable(table[q], table[donor])
    ensures forall d {:trigger Lends(table, q, d)} :: Lends(table, q, d) ==>
                                                        && Lendable(table[q], table[d]) <= n
                                                        && (Lendable(table[q], table[d]) == n > 0 ==> donor <= d)
  {
    var s := table[q];
    donor, n := 0, 0;
    for id := 0 to nSeqMax
      invariant n > 0 ==> donor in table && donor != q && donor < id && n == Lendable(s, table[donor])
      invariant forall d :: d in table && d != q && d < id && table[d].patient && !table[d].cancelled ==>
                              && Lendable(s, table[d]) <= n
                              && (Lendable(s, table[d]) == n > 0 ==> donor <= d)
    {
      if id !in table || id == q {
        continue;
      }
      var d := table[id];
      var gone := Gone(d);
      if gone {
        continue;
      }
      var lend: int := CountShared(s.req.prompt, d.req.prompt);
      if lend > d.pos {
        lend := d.pos;
      }
      if lend >= |s.req.prompt| {
        lend := |s.req.prompt| - 1;
      }
      if lend > n {
        donor, n := id, lend;
      }
    }
  }

  lemma IdCount(ids: set<nat>, n: nat)
    requires forall q :: q in ids ==> q < n
    ensures |ids| <= n
  {
    if n == 0 {
      assert ids == {};
    } else {
      IdCount(ids - {n - 1}, n - 1);
      assert ids <= (ids - {n - 1}) + {n - 1};
    }
  }

  lemma Product(a: nat, b: nat, c: nat)
    requires a <= b
    ensures a * c <= b * c && (a - 1) * c + c == a * c
  {
  }

  /** A slot that has moved on without a word said. */
  predicate Onward(s0: Slot, s: Slot) {
    SameStream(s0, s) && |s.pending| <= |s0.pending|
  }

  ghost predicate AllOnward(table0: map<nat, Slot>, table: map<nat, Slot>) {
    && table.Keys == table0.Keys
    && forall q {:trigger Onward(table0[q], table[q])} :: q in table ==> Onward(table0[q], table[q])
  }

  lemma OnwardOne(table0: map<nat, Slot>, table: map<nat, Slot>, table': map<nat, Slot>, q: nat)
    requires AllOnward(table0, table)
    requires q in table && q in table' && table' == table[q := table'[q]]
    requires Onward(table[q], table'[q])
    ensures AllOnward(table0, table')
  {
    forall p | p in table' ensures Onward(table0[p], table'[p]) {
      assert Onward(table0[p], table[p]);
    }
  }

  /** A slot before prefill: past its prompt and holding all of it, or with nothing staged. */
  predicate Steady(s0: Slot, s: Slot, att: seq<Token>, tip: seq<Token>) {
    && Onward(s0, s) && s.primed == s0.primed
    && if s.primed then |att| >= |s.req.prompt| else !s.hasLogits && tip == att
  }

  ghost predicate AllSteady(table0: map<nat, Slot>, table: map<nat, Slot>,
                            att: seq<seq<Token>>, tips: seq<seq<Token>>)
    requires |att| == |tips|
  {
    && table.Keys == table0.Keys
    && forall q {:trigger Steady(table0[q], table[q], att[q], tips[q])} ::
         q in table && q < |att| ==> Steady(table0[q], table[q], att[q], tips[q])
  }

  lemma SteadyOne(table0: map<nat, Slot>, table: map<nat, Slot>, table': map<nat, Slot>, q: nat,
                  att: seq<seq<Token>>, att': seq<seq<Token>>, tips: seq<seq<Token>>, tips': seq<seq<Token>>)
    requires |att| == |att'| == |tips| == |tips'| && q < |att|
    requires AllSteady(table0, table, att, tips)
    requires q in table && q in table' && table' == table[q := table'[q]]
    requires att' == att[q := att'[q]] && tips' == tips[q := tips'[q]]
    requires Steady(table0[q], table[q], att[q], tips[q]) ==>
               Steady(table0[q], table'[q], att'[q], tips'[q])
    ensures AllSteady(table0, table', att', tips')
  {
    forall p | p in table' && p < |att'|
      ensures Steady(table0[p], table'[p], att'[p], tips'[p])
    {
      assert Steady(table0[p], table[p], att[p], tips[p]);
    }
  }

  lemma SteadyFacts(table0: map<nat, Slot>, table: map<nat, Slot>, att: seq<seq<Token>>, tips: seq<seq<Token>>)
    requires |att| == |tips| && AllSteady(table0, table, att, tips)
    requires forall q :: q in table ==> q < |att|
    ensures AllOnward(table0, table)
    ensures forall q :: q in table ==>
                          && table[q].primed == table0[q].primed && table[q].patient == table0[q].patient
                          && (table[q].primed || !table[q].hasLogits)
  {
    forall q | q in table
      ensures Onward(table0[q], table[q])
      ensures table[q].primed == table0[q].primed && table[q].patient == table0[q].patient
      ensures table[q].primed || !table[q].hasLogits
    {
      assert Steady(table0[q], table[q], att[q], tips[q]);
    }
  }

  lemma OnwardFacts(table0: map<nat, Slot>, table: map<nat, Slot>)
    requires AllOnward(table0, table)
    ensures forall q :: q in table ==> table[q].patient == table0[q].patient && table[q].req == table0[q].req
  {
    forall q | q in table ensures table[q].patient == table0[q].patient && table[q].req == table0[q].req {
      assert Onward(table0[q], table[q]);
    }
  }

  /** A slot that pass 1 has not come to. */
  predicate Unvisited(s: Slot, att: seq<Token>, tip: seq<Token>) {
    !s.hasLogits && tip == att
  }

  ghost predicate AllUnvisited(table: map<nat, Slot>, todo: set<nat>, att: seq<seq<Token>>, tips: seq<seq<Token>>)
    requires |att| == |tips|
  {
    && todo <= table.Keys
    && forall q {:trigger Unvisited(table[q], att[q], tips[q])} ::
         q in todo && q < |att| ==> Unvisited(table[q], att[q], tips[q])
  }

  lemma UnvisitedOne(table: map<nat, Slot>, table': map<nat, Slot>, todo: set<nat>, q: nat,
                     att: seq<seq<Token>>, tips: seq<seq<Token>>, tips': seq<seq<Token>>)
    requires |att| == |tips| == |tips'| && q < |att|
    requires AllUnvisited(table, todo, att, tips)
    requires q in table' && table' == table[q := table'[q]] && q in table && tips' == tips[q := tips'[q]]
    ensures AllUnvisited(table', todo - {q}, att, tips')
  {
    forall p | p in todo && p != q && p < |att|
      ensures Unvisited(table'[p], att[p], tips'[p])
    {
      assert Unvisited(table[p], att[p], tips[p]);
    }
  }

  /** Clearing the flags of the last tick makes every slot ready to be staged. */
  lemma FlagsCleared(table: map<nat, Slot>, table': map<nat, Slot>, n: nat, plain: Decoder, bound: nat,
                     rewinder: bool, att: seq<seq<Token>>, chains: seq<Chain>,
                     ckpt: seq<Option<seq<Token>>>, rows: seq<Row>)
    requires |att| == |chains| == |ckpt| == n
    requires AllIdle(table, {}, n, plain, bound, att, chains)
    requires table'.Keys == table.Keys
    requires forall q :: q in table ==> table'[q] == table[q].(hasLogits := false)
    ensures AllHeld(table', n, plain, bound, rewinder, att, chains, ckpt, rows)
    ensures AllSteady(table, table', att, att)
    ensures AllUnvisited(table', table.Keys, att, att)
  {
    forall q | q in table' && q < n
      ensures Held(table'[q], plain, bound, rewinder, q, att[q], chains[q], ckpt[q], rows)
      ensures Steady(table[q], table'[q], att[q], att[q])
    {
      assert Idle(table[q], plain, bound, att[q], chains[q]);
    }
  }

  /** Every stream that was past its prompt has logits coming, unless its caller may leave. */
  ghost predicate Prompt(table: map<nat, Slot>) {
    forall q :: q in table && table[q].primed ==> table[q].hasLogits || !table[q].patient
  }

  /** Something has been staged for some stream, unless callers may leave. */
  ghost predicate Gaining(table0: map<nat, Slot>, table: map<nat, Slot>) {
    (exists q :: q in table && !table[q].patient)
    || table == map[]
    || (exists q :: q in table && q in table0 &&
                    (|table[q].pending| < |table0[q].pending| || table[q].hasLogits))
  }

  /** `table1` is the table after the first pass, `table` after the second. */
  lemma GainingHolds(table0: map<nat, Slot>, table1: map<nat, Slot>, table: map<nat, Slot>)
    requires table0.Keys == table1.Keys == table.Keys
    requires forall q :: q in table ==> table[q].patient == table1[q].patient
    requires Prompt(table1)
    requires forall q :: q in table1 && table1[q].primed ==> table[q] == table1[q]
    requires (exists q :: q in table1 && !table1[q].primed) ==>
               || (exists q :: q in table && |table[q].pending| < |table0[q].pending|)
               || (forall q :: q in table ==> table1[q].primed || !table[q].patient)
    ensures Gaining(table0, table)
  {
    if q :| q in table && table[q].patient {
      if q' :| q' in table1 && !table1[q'].primed {
        if forall q :: q in table ==> table1[q].primed || !table[q].patient {
          assert !table[q'].patient;
        }
      } else {
        assert table[q].hasLogits;
      }
    } else if table.Keys != {} {
      var q :| q in table;
      assert !table[q].patient;
    }
  }

  /** A slot after its rows were sampled: every slot with logits said something. */
  predicate Harvested(s0: Slot, s: Slot) {
    && s.req == s0.req && s.patient == s0.patient && s.pending == s0.pending
    && s.generated >= s0.generated
    && (s0.hasLogits ==> s.generated > s0.generated)
  }

  /** Some slots are gone, those in `todo` are untouched and the others are harvested. */
  ghost predicate AllHarvested(table0: map<nat, Slot>, table: map<nat, Slot>, todo: set<nat>) {
    && todo <= table.Keys <= table0.Keys
    && (forall q :: q in todo ==> table[q] == table0[q])
    && (forall q {:trigger Harvested(table0[q], table[q])} ::
          q in table && q !in todo ==> Harvested(table0[q], table[q]))
  }

  lemma HarvestedOne(table0: map<nat, Slot>, table: map<nat, Slot>, table': map<nat, Slot>, todo: set<nat>, q: nat)
    requires AllHarvested(table0, table, todo) && q in todo && q in table
    requires table' == table - {q} || (q in table' && table' == table[q := table'[q]])
    requires q in table' ==> Harvested(table[q], table'[q])
    ensures AllHarvested(table0, table', todo - {q})
  {
    forall p | p in table' && p !in todo - {q} ensures Harvested(table0[p], table'[p]) {
      assert p != q ==> Harvested(table0[p], table[p]);
    }
  }

  // ----- The work that remains -----

  /** Steps that the first `n` sequences may still take. */
  function Load(table: map<nat, Slot>, n: nat): nat {
    if n == 0 then 0 else Load(table, n - 1) + if n - 1 in table then Rest(table[n - 1]) else 0
  }

  /** Work shrinks when no slot has more of it and one has less. */
  lemma {:induction false} LoadShrinks(table0: map<nat, Slot>, table: map<nat, Slot>, n: nat)
    requires table.Keys <= table0.Keys
    requires forall q :: q in table ==> Rest(table[q]) <= Rest(table0[q])
    ensures Load(table, n) <= Load(table0, n)
    ensures (exists q :: q in table0 && q < n && (if q in table then Rest(table[q]) < Rest(table0[q])
                                                  else Rest(table0[q]) > 0))
            ==> Load(table, n) < Load(table0, n)
  {
    if n > 0 {
      LoadShrinks(table0, table, n - 1);
    }
  }

  /** Every live stream has a token limit and has not reached it. */
  predicate Unfinished(s: Slot) {
    s.generated < s.req.maxTokens
  }

  /** Pass 1 under way: `staged` are visited streams past their prompts, and with `ample` room each such
      stream visited has fed its token, unless it was abandoned. */
  ghost predicate Fed(table: map<nat, Slot>, todo: set<nat>, staged: set<nat>, ample: bool) {
    && todo <= table.Keys && staged !! todo && staged <= table.Keys && (forall q :: q in staged ==> table[q].primed)
    && (ample ==> forall q :: q in table && q !in todo && table[q].primed ==> table[q].hasLogits || !table[q].patient)
  }

  lemma FedMore(table: map<nat, Slot>, table': map<nat, Slot>, todo: set<nat>, staged: set<nat>, staged': set<nat>,
                q: nat, ample: bool)
    requires Fed(table, todo, staged, ample) && q in todo && table'.Keys == table.Keys
    requires forall p :: p in table' && p != q ==> table'[p] == table[p]
    requires table'[q].primed == table[q].primed && staged' == if table[q].primed then staged + {q} else staged
    requires ample && table[q].primed ==> table'[q].hasLogits || !table'[q].patient
    ensures Fed(table', todo - {q}, staged', ample)
  {
  }

  /** Pass 2 under way: streams past their prompts are as they were in `table1`, and while none was fed
      (`mover` is one that was) the batch is `same`, and those visited were past theirs or abandoned. */
  ghost predicate Prefilling(table0: map<nat, Slot>, table1: map<nat, Slot>, table: map<nat, Slot>, todo: set<nat>,
                             mover: int, room: bool, same: bool) {
    && todo <= table.Keys == table1.Keys && table1.Keys <= table0.Keys
    && (forall q :: q in todo ==> table[q].primed || !table[q].hasLogits)
    && (forall q :: q in table && (q in todo || table1[q].primed) ==> table[q] == table1[q])
    && (mover >= 0 ==> mover in table && mover !in todo && |table[mover].pending| < |table0[mover].pending|)
    && (room && mover < 0 ==> same && forall q :: q in table && q !in todo ==> table1[q].primed || !table[q].patient)
  }

  lemma PrefillingMore(table0: map<nat, Slot>, table1: map<nat, Slot>, table: map<nat, Slot>, table': map<nat, Slot>,
                       todo: set<nat>, q: nat, mover: int, mover': int, room: bool, same: bool, same': bool)
    requires Prefilling(table0, table1, table, todo, mover, room, same) && q in todo && table'.Keys == table.Keys
    requires forall p :: p in table' && (p != q || table[p].primed) ==> table'[p] == table[p]
    requires |table[q].pending| <= |table0[q].pending|
    requires mover' == if |table'[q].pending| < |table0[q].pending| then q else mover
    requires room && same ==> || |table'[q].pending| < |table[q].pending|
                              || (same' && (table[q].primed || !table'[q].patient))
    ensures Prefilling(table0, table1, table', todo - {q}, mover', room, same')
  {
  }

  /** A tick that staged something and harvested it has less left to do. */
  lemma TickGains(table0: map<nat, Slot>, table1: map<nat, Slot>, table: map<nat, Slot>, n: nat)
    requires AllOnward(table0, table1) && AllHarvested(table1, table, {})
    requires Gaining(table0, table1) && table0 != map[]
    requires forall q :: q in table0 ==>
                           q < n && table0[q].patient && Unfinished(table0[q]) && table0[q].req.prompt != []
    requires forall q :: q in table0 && !table0[q].primed ==> table0[q].pending != []
    ensures Load(table, n) < Load(table0, n)
  {
    OnwardFacts(table0, table1);
    forall q | q in table0 ensures Onward(table0[q], table1[q]) {
    }
    forall q | q in table ensures Rest(table[q]) <= Rest(table0[q]) {
      assert Onward(table0[q], table1[q]);
      assert Harvested(table1[q], table[q]);
    }
    assert table0.Keys != {};
    var q :| q in table1 && q in table0 && (|table1[q].pending| < |table0[q].pending| || table1[q].hasLogits);
    assert Onward(table0[q], table1[q]);
    if q in table {
      assert Harvested(table1[q], table[q]);
    }
    LoadShrinks(table0, table, n);
  }

  // ----- Admission as a reservation -----

  /** A request whose prompt and whole output fit the window it was admitted to. */
  predicate Reserved(s: Slot, window: nat) {
    s.req.maxTokens > 0 && |s.req.prompt| + s.req.maxTokens <= window
  }

  ghost predicate AllReserved(table: map<nat, Slot>, window: nat) {
    forall q :: q in table ==> Reserved(table[q], window)
  }

  /** The most cells a reserved stream can hold: its window less one and its drafts; but with a window
      of two there is no token left to draft for, and with less there is no request. */
  function Peak(window: nat, bound: nat): nat {
    if window < 2 then 0 else if window == 2 then 1 else window - 1 + bound
  }

  /** No reserved stream ever holds more. */
  lemma TipFits(s: Slot, m: Model, plain: Decoder, bound: nat, rewinder: bool, q: nat, tip: seq<Token>,
                chain: Chain, ckpt: Option<seq<Token>>, rows: seq<Row>, window: nat)
    requires Decodes(plain, m) && Held(s, plain, bound, rewinder, q, tip, chain, ckpt, rows)
    requires Reserved(s, window)
    ensures |tip| <= Peak(window, bound) && |tip| < window + bound
  {
    Below(s, m, plain);
    if !s.hasLogits {
      if s.primed {
        assert |tip + s.replay + [s.next]| == |s.req.prompt| + s.generated;
      } else {
        assert |tip + s.pending| == |s.req.prompt|;
      }
    }
  }

  /** A running stream has not reached its limit. */
  lemma Below(s: Slot, m: Model, plain: Decoder)
    requires Decodes(plain, m) && Open(s, plain)
    ensures s.req.maxTokens > 0 ==> s.generated < s.req.maxTokens
  {
    assert plain(s.req, s.generated) == Plain(m, s.req, s.generated);
    RunningShape(m, s.req, s.generated);
  }

  /** With a reservation for every stream the pool cannot run out. */
  lemma PoolSuffices(table: map<nat, Slot>, n: nat, m: Model, plain: Decoder, bound: nat, rewinder: bool,
                     tips: seq<seq<Token>>, chains: seq<Chain>, ckpt: seq<Option<seq<Token>>>,
                     rows: seq<Row>, window: nat, pool: nat, perSeq: nat)
    requires |tips| == |chains| == |ckpt| == n && Decodes(plain, m)
    requires AllHeld(table, n, plain, bound, rewinder, tips, chains, ckpt, rows)
    requires forall q :: 0 <= q < n && q !in table ==> tips[q] == []
    requires AllReserved(table, window)
    requires n * Peak(window, bound) <= pool && Peak(window, bound) <= perSeq
    ensures !Overfull(tips, pool, perSeq)
  {
    forall q | 0 <= q < n ensures |tips[q]| <= Peak(window, bound) {
      if q in table {
        TipFits(table[q], m, plain, bound, rewinder, q, tips[q], chains[q], ckpt[q], rows, window);
      }
    }
    CellsBound(tips, n, Peak(window, bound));
  }

  /** Streams that are held and reserved, and sequences that hold nothing. */
  ghost predicate Reserving(table: map<nat, Slot>, n: nat, m: Model, plain: Decoder, bound: nat, rewinder: bool,
                            tips: seq<seq<Token>>, chains: seq<Chain>, ckpt: seq<Option<seq<Token>>>,
                            rows: seq<Row>, window: nat)
  {
    && |tips| == |chains| == |ckpt| == n && Decodes(plain, m)
    && AllHeld(table, n, plain, bound, rewinder, tips, chains, ckpt, rows)
    && (forall q :: 0 <= q < n && q !in table ==> tips[q] == [])
    && AllReserved(table, window)
  }

  /** Whatever the model and however far its streams are, reserved streams never overfill the pool. */
  ghost predicate NeverOverfills(n: nat, bound: nat, window: nat, pool: nat, perSeq: nat) {
    forall table, m, plain, rewinder, tips, chains, ckpt, rows
      {:trigger Reserving(table, n, m, plain, bound, rewinder, tips, chains, ckpt, rows, window)} ::
      Reserving(table, n, m, plain, bound, rewinder, tips, chains, ckpt, rows, window) ==> !Overfull(tips, pool, perSeq)
  }

  /** They never do exactly when the pool holds all of them at their peak, and a sequence one of them. */
  lemma NeverOverfillsWhen(n: nat, bound: nat, window: nat, pool: nat, perSeq: nat)
    requires n > 0
    ensures NeverOverfills(n, bound, window, pool, perSeq) <==>
            n * Peak(window, bound) <= pool && Peak(window, bound) <= perSeq
  {
    if window < 2 {
      NoPeak(n, window, bound);
    }
    if n * Peak(window, bound) <= pool && Peak(window, bound) <= perSeq {
      forall table, m, plain, rewinder, tips, chains, ckpt, rows
        | Reserving(table, n, m, plain, bound, rewinder, tips, chains, ckpt, rows, window)
        ensures !Overfull(tips, pool, perSeq)
      {
        PoolSuffices(table, n, m, plain, bound, rewinder, tips, chains, ckpt, rows, window, pool, perSeq);
      }
    } else {
      var table, m, plain, tips, chains, ckpt, rows := AllAtPeak(n, bound, window, pool, perSeq);
      assert Reserving(table, n, m, plain, bound, false, tips, chains, ckpt, rows, window);
    }
  }

  lemma NoPeak(n: nat, window: nat, bound: nat)
    requires window < 2
    ensures n * Peak(window, bound) == 0
  {
  }

  // ----- Every stream at its peak -----

  /** A model that goes on for ever. */
  function Endless(): Model {
    Model(-1, (att, rec, chain) => Some(0), tok => Some([]))
  }

  /** A request of one prompt token that fills the window. */
  function Filling(window: nat): Request
    requires window >= 2
  {
    Request([0], window - 1, [], 0)
  }

  lemma {:induction false} GoesOn(window: nat, k: nat)
    requires window >= 2 && k < window - 1
    ensures Plain(Endless(), Filling(window), k).status.Running?
    ensures |Plain(Endless(), Filling(window), k).emitted| == k
  {
    if k > 0 {
      GoesOn(window, k - 1);
      RunningShape(Endless(), Filling(window), k - 1);
    }
  }

  /** What it has drafted just before its last token: all it may, if it has drawn a token before. */
  function PeakDraft(window: nat, bound: nat): seq<Token> {
    if window > 2 then seq(bound, i => 0) else []
  }

  /** The stream just before its last token, with its drafts staged. */
  ghost function AtPeak(g: Gen, window: nat, draft: seq<Token>, specIdx: seq<nat>): Slot
    requires window >= 2
  {
    var base := Filling(window).prompt + g.emitted;
    var next := if g.emitted == [] then 0 else g.emitted[|g.emitted| - 1];
    Slot(Filling(window), false, true, [], 0, |base| + |draft|, next, true, |g.emitted|, g.emitted != [], true,
         base[|base| - 1..] + draft, [], |base| - 1, draft, specIdx, g.out.held, g.out.text, Texts(g.sent), false)
  }

  lemma PeakIsReady(window: nat, bound: nat, plain: Decoder, q: nat, specIdx: seq<nat>, rows: seq<Row>)
    requires window >= 2 && Decodes(plain, Endless())
    requires var g := Plain(Endless(), Filling(window), window - 2);
             Rowed(q, Filling(window).prompt + g.emitted, PeakDraft(window, bound), specIdx, rows)
    ensures var g := Plain(Endless(), Filling(window), window - 2);
            var s := AtPeak(g, window, PeakDraft(window, bound), specIdx);
            var tip := Filling(window).prompt + g.emitted + PeakDraft(window, bound);
            Held(s, plain, bound, false, q, tip, g.chain, None, rows)
            && Reserved(s, window) && |tip| == Peak(window, bound)
  {
    var r := Filling(window);
    var g := Plain(Endless(), r, window - 2);
    GoesOn(window, window - 2);
    assert plain(r, window - 2) == g;
    assert g.out == Buffered(g.out.text, g.out.held);
  }

  /** The row of draft `j` of sequence `q`, when each has `width` rows. */
  lemma RowOf(q: nat, j: nat, width: nat, n: nat)
    requires j < width && q < n
    ensures q * width + j < n * width && (q * width + j) / width == q && (q * width + j) % width == j
  {
    Product(q + 1, n, width);
    assert (q + 1) * width == q * width + width;
    Quotient(q, j, width);
  }

  lemma Quotient(q: nat, j: nat, width: nat)
    requires j < width
    ensures (q * width + j) / width == q && (q * width + j) % width == j
  {
    var x, y := (q * width + j) / width, (q * width + j) % width;
    assert q * width + j == x * width + y;
    if x > q {
      Product(q + 1, x, width);
    }
    if x < q {
      Product(x + 1, q, width);
    }
  }

  function PeakRows(n: nat, base: seq<Token>, draft: seq<Token>): seq<Row> {
    var width := |draft| + 1;
    seq(n * width, k requires 0 <= k < n * width =>
      Row(k / width, true, base + draft[..k % width], base + draft[..k % width]))
  }

  function SpecIdx(q: nat, width: nat): seq<nat> {
    seq(width, j requires j >= 0 => q * width + j)
  }

  lemma PeakIsRowed(n: nat, base: seq<Token>, draft: seq<Token>, q: nat)
    requires q < n
    ensures Rowed(q, base, draft, SpecIdx(q, |draft| + 1), PeakRows(n, base, draft))
  {
    var specIdx := SpecIdx(q, |draft| + 1);
    forall j | 0 <= j < |specIdx|
      ensures specIdx[j] < |PeakRows(n, base, draft)|
      ensures PeakRows(n, base, draft)[specIdx[j]] == Row(q, true, base + draft[..j], base + draft[..j])
    {
      RowOf(q, j, |draft| + 1, n);
    }
  }

  ghost function FirstIds(n: nat): (ids: set<nat>)
    ensures |ids| == n && forall q: nat {:trigger q in ids} :: q in ids <==> q < n
  {
    if n == 0 then {} else FirstIds(n - 1) + {n - 1}
  }

  lemma {:induction false} CellsOfEqual(h: seq<seq<Token>>, n: nat, each: nat)
    requires n <= |h| && forall q :: 0 <= q < n ==> |h[q]| == each
    ensures Cells(h, n) == n * each
  {
    if n > 0 {
      CellsOfEqual(h, n - 1, each);
      assert n * each == (n - 1) * each + each;
    }
  }

  ghost function PeakTable(n: nat, window: nat, bound: nat): map<nat, Slot>
    requires window >= 2
  {
    var g, draft := Plain(Endless(), Filling(window), window - 2), PeakDraft(window, bound);
    map q | q in FirstIds(n) :: AtPeak(g, window, draft, SpecIdx(q, |draft| + 1))
  }

  function PeakTip(window: nat, bound: nat): seq<Token>
    requires window >= 2
  {
    Filling(window).prompt + Plain(Endless(), Filling(window), window - 2).emitted + PeakDraft(window, bound)
  }

  lemma OneAtPeak(n: nat, window: nat, bound: nat, plain: Decoder, q: nat)
    requires window >= 2 && q < n && Decodes(plain, Endless())
    ensures var g, draft := Plain(Endless(), Filling(window), window - 2), PeakDraft(window, bound);
            var s := PeakTable(n, window, bound)[q];
            && Held(s, plain, bound, false, q, PeakTip(window, bound), g.chain, None,
                    PeakRows(n, Filling(window).prompt + g.emitted, draft))
            && Reserved(s, window) && |PeakTip(window, bound)| == Peak(window, bound)
            && s.hasLogits && s.generated == s.req.maxTokens - 1 && s.draft == draft
  {
    var g, draft := Plain(Endless(), Filling(window), window - 2), PeakDraft(window, bound);
    var base := Filling(window).prompt + g.emitted;
    GoesOn(window, window - 2);
    PeakIsRowed(n, base, draft, q);
    PeakIsReady(window, bound, plain, q, SpecIdx(q, |draft| + 1), PeakRows(n, base, draft));
  }

  lemma PeakOverfills(n: nat, tip: seq<Token>, pool: nat, perSeq: nat)
    requires n > 0 && (n * |tip| > pool || |tip| > perSeq)
    ensures forall h: seq<seq<Token>> {:trigger Overfull(h, pool, perSeq)} ::
              |h| == n && (forall q :: 0 <= q < n ==> h[q] == tip) ==> Overfull(h, pool, perSeq)
  {
    forall h: seq<seq<Token>> | |h| == n && (forall q :: 0 <= q < n ==> h[q] == tip) ensures Overfull(h, pool, perSeq) {
      CellsOfEqual(h, n, |tip|);
      assert h[0] == tip;
    }
  }

  /** A table in which every stream is at its peak, which overfills any pool that cannot hold them all. */
  lemma AllAtPeak(n: nat, bound: nat, window: nat, pool: nat, perSeq: nat)
    returns (table: map<nat, Slot>, m: Model, plain: Decoder, tips: seq<seq<Token>>, chains: seq<Chain>,
             ckpt: seq<Option<seq<Token>>>, rows: seq<Row>)
    requires n > 0 && window >= 2 && (n * Peak(window, bound) > pool || Peak(window, bound) > perSeq)
    ensures Reserving(table, n, m, plain, bound, false, tips, chains, ckpt, rows, window)
    ensures table.Keys == FirstIds(n)
    ensures forall q :: q in table ==>
                          table[q].hasLogits && table[q].generated == table[q].req.maxTokens - 1
                          && table[q].draft == PeakDraft(window, bound)
    ensures Overfull(tips, pool, perSeq)
  {
    m := Endless();
    plain := (r: Request, k: nat) => Plain(m, r, k);
    table, rows := PeakTable(n, window, bound), PeakRowsOf(n, window, bound);
    tips, chains, ckpt := PeakTips(n, window, bound), PeakChains(n, window), NoSnapshots(n);
    PeakReserves(n, bound, window, plain);
    OneAtPeak(n, window, bound, plain, 0);
    PeakOverfills(n, PeakTip(window, bound), pool, perSeq);
  }

  function PeakTips(n: nat, window: nat, bound: nat): seq<seq<Token>>
    requires window >= 2
  {
    seq(n, q => PeakTip(window, bound))
  }

  function PeakChains(n: nat, window: nat): seq<Chain>
    requires window >= 2
  {
    seq(n, q => Plain(Endless(), Filling(window), window - 2).chain)
  }

  function NoSnapshots(n: nat): seq<Option<seq<Token>>> {
    seq(n, q => None)
  }

  function PeakRowsOf(n: nat, window: nat, bound: nat): seq<Row>
    requires window >= 2
  {
    var g := Plain(Endless(), Filling(window), window - 2);
    PeakRows(n, Filling(window).prompt + g.emitted, PeakDraft(window, bound))
  }

  lemma PeakReserves(n: nat, bound: nat, window: nat, plain: Decoder)
    requires window >= 2 && Decodes(plain, Endless())
    ensures var table := PeakTable(n, window, bound);
            && Reserving(table, n, Endless(), plain, bound, false, PeakTips(n, window, bound), PeakChains(n, window),
                         NoSnapshots(n), PeakRowsOf(n, window, bound), window)
            && forall q :: q in table ==>
                             table[q].hasLogits && table[q].generated == table[q].req.maxTokens - 1
                             && table[q].draft == PeakDraft(window, bound)
  {
    var table := PeakTable(n, window, bound);
    forall q | q in table
      ensures Held(table[q], plain, bound, false, q, PeakTips(n, window, bound)[q], PeakChains(n, window)[q],
                   NoSnapshots(n)[q], PeakRowsOf(n, window, bound))
      ensures Reserved(table[q], window)
      ensures table[q].hasLogits && table[q].generated == table[q].req.maxTokens - 1
      ensures table[q].draft == PeakDraft(window, bound)
    {
      OneAtPeak(n, window, bound, plain, q);
    }
  }

  // ----- A batch the cache refused -----

  ghost predicate AllOpen(table: map<nat, Slot>, plain: Decoder) {
    forall q {:trigger Open(table[q], plain)} :: q in table ==> Open(table[q], plain)
  }

  lemma HeldIsOpen(table: map<nat, Slot>, n: nat, plain: Decoder, bound: nat, rewinder: bool,
                   tips: seq<seq<Token>>, chains: seq<Chain>, ckpt: seq<Option<seq<Token>>>, rows: seq<Row>)
    requires |tips| == |chains| == |ckpt| == n && forall q :: q in table ==> q < n
    requires AllHeld(table, n, plain, bound, rewinder, tips, chains, ckpt, rows)
    ensures AllOpen(table, plain)
  {
    forall q | q in table ensures Open(table[q], plain) {
      assert Held(table[q], plain, bound, rewinder, q, tips[q], chains[q], ckpt[q], rows);
    }
  }

  lemma {:induction false} RowsTag(att: seq<seq<Token>>, batch: seq<Entry>, i: nat)
    requires Within(batch, |att|) && i < |batch|
    ensures exists e :: e in batch && e.seq_ == Rows(att, att, batch)[i].seq_
  {
    if i < |batch| - 1 {
      RowsTag(att, batch[..|batch| - 1], i);
    } else {
      assert batch[i] in batch;
    }
  }

  /** When the batch was refused, a slot still agrees with its cache exactly if it staged nothing. */
  lemma RefusedBatch(s: Slot, plain: Decoder, bound: nat, rewinder: bool, q: nat, att: seq<seq<Token>>,
                     batch: seq<Entry>, chain: Chain, ckpt: Option<seq<Token>>)
    requires Within(batch, |att|) && Placed(att, batch) && q < |att|
    requires Held(s, plain, bound, rewinder, q, Feed(att, batch)[q], chain, ckpt, Rows(att, att, batch))
    ensures Idle(s, plain, bound, att[q], chain) <==> forall e :: e in batch ==> e.seq_ != q
  {
    FeedExtends(att, batch, q);
    if forall e :: e in batch ==> e.seq_ != q {
      FeedApart(att, batch, q, att[q]);
      assert att[q := att[q]] == att;
      if s.hasLogits {
        RowsTag(att, batch, s.specIdx[0]);
      }
    }
  }

  /** Two prompts of one token staged for a pool of one cell: the cache refuses, one stream is evicted,
      and the other's slot says it holds a token that was never cached. */
  lemma RefusedPrompt(s: Slot, m: Model, plain: Decoder, chain: Chain, params: Sampling, q: nat)
    requires Decodes(plain, m) && q < 2
    requires s == WithPrefill(NewSlot(Request([7], 1, [], params), false, true), 1, q)
    ensures var empty: seq<seq<Token>> := [[], []];
            var batch := [Entry(7, 0, 0, true), Entry(7, 0, 1, true)];
            && Within(batch, 2) && Placed(empty, batch) && Overfull(Feed(empty, batch), 1, 1)
            && Held(s, plain, 0, false, q, Feed(empty, batch)[q], chain, None, Rows(empty, empty, batch))
            && !Idle(s, plain, 0, empty[1 - q := []][q], chain)
  {
    var empty: seq<seq<Token>> := [[], []];
    var one, batch := [Entry(7, 0, 0, true)], [Entry(7, 0, 0, true), Entry(7, 0, 1, true)];
    assert batch[..1] == one && one[..0] == [];
    assert Feed(empty, []) == empty && Rows(empty, empty, []) == [];
    assert empty[0] + [7] == [7] && empty[1] + [7] == [7];
    assert Feed(empty, one) == empty[0 := empty[0] + [7]] == [[7], []];
    assert Feed(empty, batch) == Feed(empty, one)[1 := Feed(empty, one)[1] + [7]] == [[7], [7]];
    assert Rows(empty, empty, one) == [Row(0, true, [7], [7])];
    assert Rows(empty, empty, batch) == [Row(0, true, [7], [7]), Row(1, true, [7], [7])];
    assert Cells([[7], [7]], 1) == 1 && Cells([[7], [7]], 2) == 2;
    PromptHeld(s, m, plain, chain, params, q, Rows(empty, empty, batch));
  }

  lemma PromptHeld(s: Slot, m: Model, plain: Decoder, chain: Chain, params: Sampling, q: nat, rows: seq<Row>)
    requires Decodes(plain, m) && s == WithPrefill(NewSlot(Request([7], 1, [], params), false, true), 1, q)
    requires q < |rows| && rows[q] == Row(q, true, [7], [7])
    ensures Held(s, plain, 0, false, q, [7], chain, None, rows) && !Idle(s, plain, 0, [], chain)
  {
    var start := NewSlot(Request([7], 1, [], params), false, true);
    DecoderSteps(plain, m, start.req, 0);
    WaitingIsIdle(start, m, plain, 0, chain);
    assert [] + start.pending[..1] == [7];
    PrefillHeld(start, plain, 0, false, q, [], [7], chain, None, rows, 1, q);
  }

  lemma FinalLater(over: seq<Outcome>, plain: Decoder, window: nat, fate: Fate, fate': Fate)
    requires AllFinal(over, plain, window, fate) && Later(fate, fate')
    ensures AllFinal(over, plain, window, fate')
  {
    forall i | 0 <= i < |over| ensures Final(over[i], plain, window, fate') {
      assert Final(over[i], plain, window, fate);
    }
  }

  lemma IdleFacts(table: map<nat, Slot>, n: nat, m: Model, plain: Decoder, bound: nat,
                  att: seq<seq<Token>>, chains: seq<Chain>)
    requires |att| == |chains| == n && Decodes(plain, m) && forall q :: q in table ==> q < n
    requires AllIdle(table, {}, n, plain, bound, att, chains)
    ensures AllOpen(table, plain)
    ensures forall q :: q in table ==>
                          && table[q].req.prompt != []
                          && (table[q].req.maxTokens > 0 ==> Unfinished(table[q]))
                          && (!table[q].primed ==> table[q].pending != [])
  {
    forall q | q in table
      ensures Open(table[q], plain) && table[q].req.prompt != []
      ensures table[q].req.maxTokens > 0 ==> Unfinished(table[q])
      ensures !table[q].primed ==> table[q].pending != []
    {
      assert Idle(table[q], plain, bound, att[q], chains[q]);
      Below(table[q], m, plain);
    }
  }

  /** The streams of `table` are some of those of `table0`. */
  ghost predicate Fewer(table0: map<nat, Slot>, table: map<nat, Slot>) {
    && table.Keys <= table0.Keys
    && forall q :: q in table ==> table[q].req == table0[q].req && table[q].patient == table0[q].patient
  }

  lemma TickKeeps(table0: map<nat, Slot>, table1: map<nat, Slot>, table: map<nat, Slot>)
    requires AllOnward(table0, table1) && AllHarvested(table1, table, {})
    ensures Fewer(table0, table)
  {
    forall q | q in table
      ensures table[q].req == table0[q].req && table[q].patient == table0[q].patient
    {
      assert Onward(table0[q], table1[q]);
      assert Harvested(table1[q], table[q]);
    }
  }

  // ----- Which streams ended -----

  predicate SameAsk(s: Slot, s': Slot) {
    s.req == s'.req && s.patient == s'.patient
  }

  ghost predicate FromTable(o: Outcome, table: map<nat, Slot>) {
    exists q :: q in table && SameAsk(o.last, table[q])
  }

  /** `over` continues `over0` with streams of `table` only. */
  ghost predicate NewFrom(table: map<nat, Slot>, over0: seq<Outcome>, over: seq<Outcome>) {
    && over0 <= over
    && forall i {:trigger FromTable(over[i], table)} :: |over0| <= i < |over| ==> FromTable(over[i], table)
  }

  lemma NewFromChain(table0: map<nat, Slot>, table1: map<nat, Slot>,
                     over0: seq<Outcome>, over1: seq<Outcome>, over: seq<Outcome>)
    requires NewFrom(table0, over0, over1) && NewFrom(table1, over1, over)
    requires forall q :: q in table1 ==> q in table0 && SameAsk(table1[q], table0[q])
    ensures NewFrom(table0, over0, over)
  {
    forall i | |over0| <= i < |over| ensures FromTable(over[i], table0) {
      if i < |over1| {
        assert FromTable(over1[i], table0);
      } else {
        assert FromTable(over[i], table1);
      }
    }
  }

  lemma HarvestedAsk(table0: map<nat, Slot>, table: map<nat, Slot>, todo: set<nat>)
    requires AllHarvested(table0, table, todo)
    ensures forall q :: q in table ==> q in table0 && SameAsk(table[q], table0[q])
  {
    forall q | q in table ensures SameAsk(table[q], table0[q]) {
      if q !in todo {
        assert Harvested(table0[q], table[q]);
      }
    }
  }

  // ----- Who asked -----

  /** What tells one request from another, as far as its caller can see. */
  datatype Ask = Ask(req: Request, patient: bool)

  function AskOf(s: Slot): Ask {
    Ask(s.req, s.patient)
  }

  function QueuedAsks(queue: seq<Slot>): seq<Ask> {
    seq(|queue|, i requires 0 <= i < |queue| => AskOf(queue[i]))
  }

  function EndedAsks(over: seq<Outcome>): seq<Ask> {
    seq(|over|, i requires 0 <= i < |over| => AskOf(over[i].last))
  }

  ghost function RunningAsks(table: map<nat, Slot>, n: nat): multiset<Ask> {
    if n == 0 then multiset{}
    else RunningAsks(table, n - 1) + AskAt(table, n - 1)
  }

  /** Everyone who ever asked: those that run, those that wait, and those that are over. */
  ghost function Everyone(n: nat, table: map<nat, Slot>, queue: seq<Slot>, over: seq<Outcome>): multiset<Ask> {
    RunningAsks(table, n) + multiset(QueuedAsks(queue)) + multiset(EndedAsks(over))
  }

  /** The same as a value, so that the invariant carries it without its sums. */
  type Census = (map<nat, Slot>, seq<Slot>, seq<Outcome>) -> multiset<Ask>

  ghost predicate Counts(census: Census, n: nat) {
    forall table, queue, over {:trigger Everyone(n, table, queue, over)} ::
      census(table, queue, over) == Everyone(n, table, queue, over)
  }

  lemma {:induction false} RunningSame(table: map<nat, Slot>, table': map<nat, Slot>, n: nat)
    requires table'.Keys == table.Keys && forall q :: q in table ==> SameAsk(table'[q], table[q])
    ensures RunningAsks(table', n) == RunningAsks(table, n)
  {
    if n > 0 {
      RunningSame(table, table', n - 1);
      assert AskAt(table', n - 1) == AskAt(table, n - 1);
    }
  }

  /** What one sequence adds to the count. */
  ghost function AskAt(table: map<nat, Slot>, q: nat): multiset<Ask> {
    if q in table then multiset{AskOf(table[q])} else multiset{}
  }

  /** `less` is the table without sequence `q`. */
  ghost predicate Lacks(less: map<nat, Slot>, table: map<nat, Slot>, q: nat) {
    && AskAt(less, q) == multiset{}
    && forall p: nat {:trigger AskAt(less, p)} :: p != q ==> AskAt(less, p) == AskAt(table, p)
  }

  lemma {:induction false} CountBelow(table: map<nat, Slot>, less: map<nat, Slot>, q: nat, n: nat)
    requires Lacks(less, table, q) && n <= q
    ensures RunningAsks(table, n) == RunningAsks(less, n)
  {
    if n > 0 {
      CountBelow(table, less, q, n - 1);
      assert AskAt(less, n - 1) == AskAt(table, n - 1);
    }
  }

  lemma {:induction false} CountBeyond(table: map<nat, Slot>, less: map<nat, Slot>, q: nat, n: nat)
    requires Lacks(less, table, q) && q < n
    ensures RunningAsks(table, n) == RunningAsks(less, n) + AskAt(table, q)
  {
    if n - 1 == q {
      CountBelow(table, less, q, q);
    } else {
      CountBeyond(table, less, q, n - 1);
      assert AskAt(less, n - 1) == AskAt(table, n - 1);
      Swap(RunningAsks(less, n - 1), AskAt(table, q), AskAt(table, n - 1));
    }
  }

  lemma Swap<T>(a: multiset<T>, b: multiset<T>, c: multiset<T>)
    ensures a + b + c == a + c + b
  {
  }

  lemma RunningWithout(table: map<nat, Slot>, less: map<nat, Slot>, q: nat, n: nat)
    requires q in table && less == table - {q}
    ensures RunningAsks(table, n) == RunningAsks(less, n) + if q < n then AskAt(table, q) else multiset{}
  {
    forall p: nat | p != q ensures AskAt(less, p) == AskAt(table, p) {
      assert p in less <==> p in table;
    }
    if q < n {
      CountBeyond(table, less, q, n);
    } else {
      CountBelow(table, less, q, n);
    }
  }

  lemma CensusSame(census: Census, n: nat, table: map<nat, Slot>, table': map<nat, Slot>, queue: seq<Slot>,
                   over: seq<Outcome>)
    requires Counts(census, n)
    requires table'.Keys == table.Keys && forall q :: q in table ==> SameAsk(table'[q], table[q])
    ensures census(table', queue, over) == census(table, queue, over)
  {
    RunningSame(table, table', n);
    assert census(table, queue, over) == Everyone(n, table, queue, over);
    assert census(table', queue, over) == Everyone(n, table', queue, over);
  }

  lemma CensusPut(census: Census, n: nat, table: map<nat, Slot>, q: nat, s: Slot, queue: seq<Slot>, over: seq<Outcome>)
    requires Counts(census, n) && q in table && SameAsk(s, table[q])
    ensures census(table[q := s], queue, over) == census(table, queue, over)
  {
    CensusSame(census, n, table, table[q := s], queue, over);
  }

  lemma EndedMore(over: seq<Outcome>, o: Outcome)
    ensures EndedAsks(over + [o]) == EndedAsks(over) + [AskOf(o.last)]
  {
  }

  /** A stream that ends is over and no longer runs. */
  lemma CensusEnded(census: Census, n: nat, table: map<nat, Slot>, q: nat, queue: seq<Slot>,
                    over: seq<Outcome>, o: Outcome)
    requires Counts(census, n) && q in table && q < n && SameAsk(o.last, table[q])
    ensures census(table - {q}, queue, over + [o]) == census(table, queue, over)
  {
    RunningWithout(table, table - {q}, q, n);
    EndedMore(over, o);
    assert census(table, queue, over) == Everyone(n, table, queue, over);
    assert census(table - {q}, queue, over + [o]) == Everyone(n, table - {q}, queue, over + [o]);
  }

  lemma QueuedHead(queue: seq<Slot>)
    requires queue != []
    ensures QueuedAsks(queue) == [AskOf(queue[0])] + QueuedAsks(queue[1..])
  {
  }

  lemma RunningWith(table: map<nat, Slot>, q: nat, s: Slot, n: nat)
    requires q !in table && q < n
    ensures RunningAsks(table[q := s], n) == RunningAsks(table, n) + multiset{AskOf(s)}
  {
    assert table == table[q := s] - {q};
    RunningWithout(table[q := s], table, q, n);
    assert AskAt(table[q := s], q) == multiset{AskOf(s)};
  }

  lemma QueuedWithout(queue: seq<Slot>)
    requires queue != []
    ensures multiset(QueuedAsks(queue)) == multiset{AskOf(queue[0])} + multiset(QueuedAsks(queue[1..]))
  {
    QueuedHead(queue);
  }

  /** A request given a sequence runs and no longer waits. */
  lemma CensusAdmitted(census: Census, n: nat, table: map<nat, Slot>, q: nat, queue: seq<Slot>, over: seq<Outcome>)
    requires Counts(census, n) && q !in table && q < n && queue != []
    ensures census(table[q := queue[0]], queue[1..], over) == census(table, queue, over)
  {
    QueuedWithout(queue);
    RunningWith(table, q, queue[0], n);
    assert census(table, queue, over) == Everyone(n, table, queue, over);
    assert census(table[q := queue[0]], queue[1..], over) == Everyone(n, table[q := queue[0]], queue[1..], over);
  }

  /** A request that is told it will not run is over and no longer waits. */
  lemma CensusGone(census: Census, n: nat, table: map<nat, Slot>, queue: seq<Slot>, over: seq<Outcome>, o: Outcome)
    requires Counts(census, n) && queue != [] && SameAsk(o.last, queue[0])
    ensures census(table, queue[1..], over + [o]) == census(table, queue, over)
  {
    QueuedHead(queue);
    EndedMore(over, o);
    assert census(table, queue, over) == Everyone(n, table, queue, over);
    assert census(table, queue[1..], over + [o]) == Everyone(n, table, queue[1..], over + [o]);
  }

  lemma CensusQueued(census: Census, n: nat, table: map<nat, Slot>, queue: seq<Slot>, over: seq<Outcome>, s: Slot)
    requires Counts(census, n)
    ensures census(table, queue + [s], over) == census(table, queue, over) + multiset{AskOf(s)}
  {
    assert QueuedAsks(queue + [s]) == QueuedAsks(queue) + [AskOf(s)];
    assert census(table, queue, over) == Everyone(n, table, queue, over);
    assert census(table, queue + [s], over) == Everyone(n, table, queue + [s], over);
  }

  lemma {:induction false} NoneRunning(n: nat)
    ensures RunningAsks(map[], n) == multiset{}
  {
    if n > 0 {
      NoneRunning(n - 1);
    }
  }

  lemma EndedSplit(over: seq<Outcome>, over': seq<Outcome>)
    requires over <= over'
    ensures multiset(EndedAsks(over')) == multiset(EndedAsks(over)) + multiset(EndedAsks(over'[|over|..]))
    ensures |multiset(EndedAsks(over'))| == |over'|
  {
    assert EndedAsks(over') == EndedAsks(over) + EndedAsks(over'[|over|..]);
  }

  /** When nothing runs or waits any more, those that ended since are those that ran or waited then. */
  lemma AllEnded(census: Census, n: nat, table: map<nat, Slot>, queue: seq<Slot>, over: seq<Outcome>,
                 over': seq<Outcome>)
    requires Counts(census, n) && over <= over' && census(map[], [], over') == census(table, queue, over)
    ensures multiset(EndedAsks(over'[|over|..])) == RunningAsks(table, n) + multiset(QueuedAsks(queue))
    ensures |over'| == |census(table, queue, over)|
  {
    EndedSplit(over, over');
    NobodyLeft(census, n, over');
    assert census(table, queue, over) == Everyone(n, table, queue, over);
    Cancel(multiset(EndedAsks(over)), multiset(EndedAsks(over'[|over|..])),
           RunningAsks(table, n) + multiset(QueuedAsks(queue)));
  }

  lemma Cancel<T>(a: multiset<T>, b: multiset<T>, c: multiset<T>)
    requires a + b == a + c
    ensures b == c
  {
    assert b == (a + b) - a && c == (a + c) - a;
  }

  lemma NobodyLeft(census: Census, n: nat, over: seq<Outcome>)
    requires Counts(census, n)
    ensures census(map[], [], over) == multiset(EndedAsks(over))
  {
    NoneRunning(n);
    assert QueuedAsks([]) == [];
    assert census(map[], [], over) == Everyone(n, map[], [], over);
  }

  // ----- Admission -----

  ghost predicate AllWaiting(queue: seq<Slot>) {
    forall i {:trigger Waiting(queue[i])} :: 0 <= i < |queue| ==> Waiting(queue[i])
  }

  lemma WaitingTail(queue: seq<Slot>)
    requires AllWaiting(queue) && queue != []
    ensures Waiting(queue[0]) && AllWaiting(queue[1..])
  {
    forall i | 0 <= i < |queue| - 1 ensures Waiting(queue[1..][i]) {
      assert Waiting(queue[i + 1]);
    }
  }

  lemma WaitingMore(queue: seq<Slot>, s: Slot)
    requires AllWaiting(queue) && Waiting(s)
    ensures AllWaiting(queue + [s])
  {
    forall i | 0 <= i < |queue| + 1 ensures Waiting((queue + [s])[i]) {
      assert i < |queue| ==> Waiting(queue[i]);
    }
  }

  /** A stream that has just been given an empty sequence. */
  lemma WaitingIsIdle(s: Slot, m: Model, plain: Decoder, bound: nat, chain: Chain)
    requires Decodes(plain, m) && Waiting(s)
    ensures Idle(s, plain, bound, [], chain)
  {
    DecoderSteps(plain, m, s.req, 0);
    assert [] + s.pending == s.req.prompt;
    assert s.cancelled || s.events == Texts(plain(s.req, 0).sent);
  }

  lemma IdleOne(table: map<nat, Slot>, s: Slot, q: nat, n: nat, plain: Decoder, bound: nat,
                att: seq<seq<Token>>, chains: seq<Chain>)
    requires |att| == |chains| == n && q < n && q !in table
    requires AllIdle(table, {}, n, plain, bound, att, chains)
    requires Idle(s, plain, bound, att[q], chains[q])
    ensures AllIdle(table[q := s], {}, n, plain, bound, att, chains)
  {
    forall p | p in table && p < n ensures Idle(table[q := s][p], plain, bound, att[p], chains[p]) {
      assert Idle(table[p], plain, bound, att[p], chains[p]);
    }
  }

  function QueueLoad(queue: seq<Slot>): nat {
    if queue == [] then 0 else Rest(queue[0]) + QueueLoad(queue[1..])
  }

  lemma {:induction false} LoadOfOne(table: map<nat, Slot>, s: Slot, q: nat, n: nat)
    requires q !in table
    ensures Load(table[q := s], n) == Load(table, n) + if q < n then Rest(s) else 0
  {
    if n > 0 {
      LoadOfOne(table, s, q, n - 1);
    }
  }

  lemma {:induction false} QueueLoadSplit(queue: seq<Slot>)
    requires queue != []
    ensures QueueLoad(queue) == Rest(queue[0]) + QueueLoad(queue[1..])
  {
  }

  // ----- Streams that are served to the end -----

  /** The caller stays, and a reservation was made. */
  predicate Tame(s: Slot, window: nat) {
    s.patient && Reserved(s, window)
  }

  ghost predicate AllTame(table: map<nat, Slot>, window: nat) {
    forall q {:trigger Tame(table[q], window)} :: q in table ==> Tame(table[q], window)
  }

  ghost predicate QueueTame(queue: seq<Slot>, window: nat) {
    forall s {:trigger Tame(s, window)} :: s in queue ==> Tame(s, window)
  }

  ghost predicate AllTameOver(over: seq<Outcome>, from: nat, window: nat) {
    forall i {:trigger Tame(over[i].last, window)} :: from <= i < |over| ==> Tame(over[i].last, window)
  }

  lemma TameFacts(table: map<nat, Slot>, window: nat)
    requires AllTame(table, window)
    ensures AllReserved(table, window)
    ensures forall q :: q in table ==> table[q].patient && table[q].req.maxTokens > 0
  {
    forall q | q in table ensures Reserved(table[q], window) && table[q].patient {
      assert Tame(table[q], window);
    }
  }

  lemma FewerTame(table0: map<nat, Slot>, table: map<nat, Slot>, window: nat)
    requires AllTame(table0, window) && Fewer(table0, table)
    ensures AllTame(table, window)
  {
    forall q | q in table ensures Tame(table[q], window) {
      assert Tame(table0[q], window);
    }
  }

  lemma TameOne(table: map<nat, Slot>, s: Slot, q: nat, window: nat)
    requires AllTame(table, window) && Tame(s, window)
    ensures AllTame(table[q := s], window)
  {
    var table' := table[q := s];
    forall p | p in table' ensures Tame(table'[p], window) {
      assert p != q ==> Tame(table[p], window);
    }
  }

  lemma NewFromTame(table: map<nat, Slot>, over0: seq<Outcome>, over: seq<Outcome>, from: nat, window: nat)
    requires NewFrom(table, over0, over) && AllTame(table, window) && from <= |over0|
    requires AllTameOver(over0, from, window)
    ensures AllTameOver(over, from, window)
  {
    forall i | from <= i < |over| ensures Tame(over[i].last, window) {
      if i < |over0| {
        assert Tame(over0[i].last, window);
      } else {
        assert FromTable(over[i], table);
        var q :| q in table && SameAsk(over[i].last, table[q]);
        assert Tame(table[q], window);
      }
    }
  }

  /** How a stream that came to the end of plain decoding is reported. */
  function Report(status: Status): Ending
    requires !status.Running?
  {
    match status
    case Ended(reason) => Stopped(reason)
    case Broken => Failed
  }

  /** A channel that carried an answer: its text in pieces, none of them empty, and then how it ended. */
  ghost predicate Carries(events: seq<Event>, m: Model, r: Request, tokens: seq<Token>, how: Status,
                          sent: seq<seq<Byte>>)
  {
    && Answer(m, r, tokens, how) && !how.Running?
    && Joined(sent) + HeldOf(m, tokens) == Rendered(m, tokens) && Joined(sent) == TextOf(m, tokens)
    && (forall i :: 0 <= i < |sent| ==> sent[i] != [])
    && |events| == |sent| + 1
    && (forall i :: 0 <= i < |sent| ==> events[i] == Text(sent[i]))
    && match how
       case Ended(reason) => events[|sent|] == Done(Stopped(reason))
       case _ => events[|sent|] == Done(Failed)
  }

  /** The caller received exactly what plain decoding of its own prompt yields, all of it, in order,
      and the reason it ended: the one answer the model has to its request. */
  ghost predicate InFull(o: Outcome, m: Model) {
    var g := Plain(m, o.last.req, o.steps);
    && !o.cancelled && !g.status.Running?
    && o.events == Texts(g.sent) + [Done(Report(g.status))]
    && Carries(o.events, m, o.last.req, g.emitted, g.status, g.sent)
  }

  /** The caller received a beginning of what plain decoding yields, and an explicit error. */
  ghost predicate CutShort(o: Outcome, m: Model) {
    && !o.cancelled
    && exists k: nat :: BeginningOf(o.events, m, o.last.req, Plain(m, o.last.req, k))
  }

  ghost predicate BeginningOf(events: seq<Event>, m: Model, r: Request, g: Gen) {
    && events == Texts(g.sent) + [Done(Failed)]
    && Chosen(m, r, g.emitted) && WentOn(m, r, g.emitted)
    && Joined(g.sent) + HeldOf(m, g.emitted) == Rendered(m, g.emitted) && Joined(g.sent) == TextOf(m, g.emitted)
  }

  /** A reserved stream whose caller stayed, in an engine that neither stopped nor evicted. */
  lemma FinalIsServed(o: Outcome, m: Model, plain: Decoder, perSeq: nat, window: nat, fate: Fate)
    requires Decodes(plain, m) && Final(o, plain, perSeq, fate)
    requires Tame(o.last, window) && window <= perSeq && !fate.stopping && !fate.evicted
    ensures InFull(o, m) || (fate.fallible && CutShort(o, m))
  {
    var s := o.last;
    assert plain(s.req, o.steps) == Plain(m, s.req, o.steps);
    assert plain(s.req, s.generated) == Plain(m, s.req, s.generated);
    if Open(s, plain) {
      Below(s, m, plain);
    }
    PlainIsTheAnswer(m, s.req, o.steps);
    if o.ending.Failed? && fate.fallible && Open(s, plain) {
      PlainIsTheAnswer(m, s.req, s.generated);
      assert BeginningOf(o.events, m, s.req, Plain(m, s.req, s.generated));
    }
  }
}
