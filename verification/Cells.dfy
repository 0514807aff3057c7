/** The positional cache as it is kept: cells, each tagged with the sequences it belongs to.

    Lending a prefix tags the lender's cells and copies nothing; a sequence that ends takes only its
    own tag away.  The scheduler is proved against histories held separately for each sequence, and
    here the tagged cells are proved to be just that, whatever is written, lent, cut and dropped. */
module TaggedCells {
  import opened Sequences
  import opened Decoding
  import opened Backends

  datatype Cell = Cell(tok: Token, pos: nat, tags: set<nat>)

  /** What the scheduler does to the positional cache. */
  datatype Op =
    | Write(q: nat, tok: Token, pos: nat)
    | Lend(src: nat, dst: nat, n: nat)
    | Trim(q: nat, from: nat)
    | Drop(q: nat)

  // ----- What is kept -----

  function LentCell(c: Cell, src: nat, dst: nat, n: nat): Cell {
    if src in c.tags && c.pos < n then c.(tags := c.tags + {dst}) else c
  }

  function TrimmedCell(c: Cell, q: nat, from: nat): Cell {
    if c.pos >= from then c.(tags := c.tags - {q}) else c
  }

  function Apply(cells: seq<Cell>, op: Op): seq<Cell> {
    match op
    case Write(q, tok, pos) => cells + [Cell(tok, pos, {q})]
    case Lend(src, dst, n) => seq(|cells|, i requires 0 <= i < |cells| => LentCell(cells[i], src, dst, n))
    case Trim(q, from) => seq(|cells|, i requires 0 <= i < |cells| => TrimmedCell(cells[i], q, from))
    case Drop(q) => seq(|cells|, i requires 0 <= i < |cells| => TrimmedCell(cells[i], q, 0))
  }

  // ----- What it is to mean -----

  /** A step the scheduler takes: it writes at the end, and lends only to a sequence that is empty. */
  predicate Allowed(h: seq<seq<Token>>, op: Op) {
    match op
    case Write(q, _, pos) => q < |h| && pos == |h[q]|
    case Lend(src, dst, n) => src < |h| && dst < |h| && src != dst && h[dst] == [] && n <= |h[src]|
    case Trim(q, from) => q < |h| && from <= |h[q]|
    case Drop(q) => q < |h|
  }

  function Meant(h: seq<seq<Token>>, op: Op): (h': seq<seq<Token>>)
    requires Allowed(h, op)
    ensures |h'| == |h|
  {
    match op
    case Write(q, tok, _) => h[q := h[q] + [tok]]
    case Lend(src, dst, n) => h[dst := h[src][..n]]
    case Trim(q, from) => h[q := h[q][..from]]
    case Drop(q) => h[q := []]
  }

  predicate Tags(c: Cell, q: nat) {
    q in c.tags
  }

  /** Sequence `q` has one cell for each position of its history, holding that token, and no others. */
  ghost predicate Shows(cells: seq<Cell>, q: nat, h: seq<Token>) {
    && (forall c {:trigger Tags(cells[c], q)} :: 0 <= c < |cells| && Tags(cells[c], q) ==>
                                                   cells[c].pos < |h| && cells[c].tok == h[cells[c].pos])
    && (forall c, d {:trigger Tags(cells[c], q), Tags(cells[d], q)} ::
          0 <= c < d < |cells| && Tags(cells[c], q) && Tags(cells[d], q) ==> cells[c].pos != cells[d].pos)
    && (forall i {:trigger HasCell(cells, q, i)} :: 0 <= i < |h| ==> HasCell(cells, q, i))
  }

  ghost predicate HasCell(cells: seq<Cell>, q: nat, i: int) {
    exists c {:trigger Tags(cells[c], q)} :: 0 <= c < |cells| && Tags(cells[c], q) && cells[c].pos == i
  }

  ghost predicate Refines(cells: seq<Cell>, h: seq<seq<Token>>) {
    && (forall q {:trigger Shows(cells, q, h[q])} :: 0 <= q < |h| ==> Shows(cells, q, h[q]))
    && (forall c, q: nat {:trigger Tags(cells[c], q)} :: 0 <= c < |cells| && Tags(cells[c], q) ==> q < |h|)
  }

  // ----- One step -----

  /** The cells of a sequence that the step does not touch. */
  lemma Untouched(cells: seq<Cell>, cells': seq<Cell>, q: nat, h: seq<Token>)
    requires Shows(cells, q, h) && |cells'| >= |cells|
    requires forall c :: 0 <= c < |cells| ==>
                           cells'[c].tok == cells[c].tok && cells'[c].pos == cells[c].pos
                           && (Tags(cells'[c], q) <==> Tags(cells[c], q))
    requires forall c :: |cells| <= c < |cells'| ==> !Tags(cells'[c], q)
    ensures Shows(cells', q, h)
  {
    forall i | 0 <= i < |h| ensures HasCell(cells', q, i) {
      assert HasCell(cells, q, i);
      var c :| 0 <= c < |cells| && Tags(cells[c], q) && cells[c].pos == i;
      assert Tags(cells'[c], q);
    }
  }

  lemma WriteShows(cells: seq<Cell>, q: nat, h: seq<Token>, tok: Token)
    requires Shows(cells, q, h)
    ensures Shows(cells + [Cell(tok, |h|, {q})], q, h + [tok])
  {
    var more := cells + [Cell(tok, |h|, {q})];
    assert forall c :: 0 <= c < |cells| ==> more[c] == cells[c];
    forall i | 0 <= i < |h| + 1 ensures HasCell(more, q, i) {
      if i < |h| {
        assert HasCell(cells, q, i);
        var c :| 0 <= c < |cells| && Tags(cells[c], q) && cells[c].pos == i;
        assert Tags(more[c], q);
      } else {
        assert Tags(more[|cells|], q);
      }
    }
  }

  lemma LendShows(cells: seq<Cell>, src: nat, dst: nat, n: nat, h: seq<Token>)
    requires Shows(cells, src, h) && Shows(cells, dst, []) && n <= |h| && src != dst
    ensures Shows(Apply(cells, Lend(src, dst, n)), dst, h[..n])
  {
    var next := Apply(cells, Lend(src, dst, n));
    forall c | 0 <= c < |cells|
      ensures Tags(next[c], dst) <==> Tags(cells[c], src) && cells[c].pos < n
    {
      assert !Tags(cells[c], dst);
    }
    forall i | 0 <= i < n ensures HasCell(next, dst, i) {
      assert HasCell(cells, src, i);
      var c :| 0 <= c < |cells| && Tags(cells[c], src) && cells[c].pos == i;
      assert Tags(next[c], dst);
    }
  }

  lemma TrimShows(cells: seq<Cell>, q: nat, from: nat, h: seq<Token>)
    requires Shows(cells, q, h) && from <= |h|
    ensures Shows(Apply(cells, Trim(q, from)), q, h[..from])
  {
    var next := Apply(cells, Trim(q, from));
    forall c | 0 <= c < |cells| ensures Tags(next[c], q) <==> Tags(cells[c], q) && cells[c].pos < from {
    }
    forall i | 0 <= i < from ensures HasCell(next, q, i) {
      assert HasCell(cells, q, i);
      var c :| 0 <= c < |cells| && Tags(cells[c], q) && cells[c].pos == i;
      assert Tags(next[c], q);
    }
  }

  /** The sequence a step is about. */
  function Subject(op: Op): nat {
    match op
    case Write(q, _, _) => q
    case Lend(_, dst, _) => dst
    case Trim(q, _) => q
    case Drop(q) => q
  }

  lemma OthersUntouched(cells: seq<Cell>, h: seq<seq<Token>>, op: Op, q: nat)
    requires Refines(cells, h) && Allowed(h, op) && q < |h| && q != Subject(op)
    ensures Shows(Apply(cells, op), q, Meant(h, op)[q])
  {
    assert Shows(cells, q, h[q]);
    Untouched(cells, Apply(cells, op), q, h[q]);
  }

  lemma SubjectShows(cells: seq<Cell>, h: seq<seq<Token>>, op: Op)
    requires Refines(cells, h) && Allowed(h, op)
    ensures Shows(Apply(cells, op), Subject(op), Meant(h, op)[Subject(op)])
  {
    var q := Subject(op);
    assert Shows(cells, q, h[q]);
    match op
    case Write(_, tok, _) => WriteShows(cells, q, h[q], tok);
    case Lend(src, _, n) =>
      assert Shows(cells, src, h[src]);
      LendShows(cells, src, q, n, h[src]);
    case Trim(_, from) => TrimShows(cells, q, from, h[q]);
    case Drop(_) =>
      TrimShows(cells, q, 0, h[q]);
      assert h[q][..0] == [];
  }

  lemma StepRefines(cells: seq<Cell>, h: seq<seq<Token>>, op: Op)
    requires Refines(cells, h) && Allowed(h, op)
    ensures Refines(Apply(cells, op), Meant(h, op))
  {
    var cells', h' := Apply(cells, op), Meant(h, op);
    forall q | 0 <= q < |h'| ensures Shows(cells', q, h'[q]) {
      if q == Subject(op) {
        SubjectShows(cells, h, op);
      } else {
        OthersUntouched(cells, h, op, q);
      }
    }
    forall c, q: nat | 0 <= c < |cells'| && Tags(cells'[c], q) ensures q < |h'| {
      if c < |cells| && q != Subject(op) {
        assert Tags(cells[c], q);
      }
    }
  }

  // ----- Whole runs -----

  ghost predicate AllAllowed(h: seq<seq<Token>>, ops: seq<Op>)
    decreases |ops|
  {
    ops == [] || (Allowed(h, ops[0]) && AllAllowed(Meant(h, ops[0]), ops[1..]))
  }

  function ApplyAll(cells: seq<Cell>, ops: seq<Op>): seq<Cell>
    decreases |ops|
  {
    if ops == [] then cells else ApplyAll(Apply(cells, ops[0]), ops[1..])
  }

  ghost function MeantAll(h: seq<seq<Token>>, ops: seq<Op>): seq<seq<Token>>
    requires AllAllowed(h, ops)
    decreases |ops|
  {
    if ops == [] then h else MeantAll(Meant(h, ops[0]), ops[1..])
  }

  /** Whatever was lent to whom, borrowed on, and dropped since: every sequence still holds exactly the
      tokens it would hold had it computed them all itself. */
  lemma {:induction false} SharingIsTransparent(cells: seq<Cell>, h: seq<seq<Token>>, ops: seq<Op>)
    requires Refines(cells, h) && AllAllowed(h, ops)
    ensures Refines(ApplyAll(cells, ops), MeantAll(h, ops))
    decreases |ops|
  {
    if ops != [] {
      StepRefines(cells, h, ops[0]);
      SharingIsTransparent(Apply(cells, ops[0]), Meant(h, ops[0]), ops[1..]);
    }
  }

  // ----- What it costs -----

  ghost function InUse(cells: seq<Cell>): set<nat> {
    set c: nat | c < |cells| && cells[c].tags != {}
  }

  ghost function Below(cells: seq<Cell>, q: nat, k: nat): set<nat> {
    set c: nat | c < |cells| && Tags(cells[c], q) && cells[c].pos < k
  }

  lemma {:induction false} OneCellEach(cells: seq<Cell>, q: nat, h: seq<Token>, k: nat)
    requires Shows(cells, q, h) && k <= |h|
    ensures |Below(cells, q, k)| == k
  {
    if k == 0 {
      assert Below(cells, q, 0) == {};
    } else {
      OneCellEach(cells, q, h, k - 1);
      var c := OneMoreBelow(cells, q, h, k - 1);
    }
  }

  lemma OneMoreBelow(cells: seq<Cell>, q: nat, h: seq<Token>, k: nat) returns (c: nat)
    requires Shows(cells, q, h) && k < |h|
    ensures c !in Below(cells, q, k) && Below(cells, q, k + 1) == Below(cells, q, k) + {c}
  {
    assert HasCell(cells, q, k);
    c :| c < |cells| && Tags(cells[c], q) && cells[c].pos == k;
    forall d | d in Below(cells, q, k + 1) ensures d in Below(cells, q, k) || d == c {
      assert Tags(cells[d], q) && cells[d].pos <= k;
    }
  }

  ghost function UsedBelow(cells: seq<Cell>, n: nat): set<nat> {
    set c: nat, q: nat | c < |cells| && q < n && Tags(cells[c], q) :: c
  }

  lemma {:induction false} UsedIsFewer(cells: seq<Cell>, h: seq<seq<Token>>, n: nat)
    requires Refines(cells, h) && n <= |h|
    ensures |UsedBelow(cells, n)| <= Cells(h, n)
  {
    if n == 0 {
      assert UsedBelow(cells, 0) == {};
    } else {
      UsedIsFewer(cells, h, n - 1);
      var last := Below(cells, n - 1, |h[n - 1]|);
      assert Shows(cells, n - 1, h[n - 1]);
      OneCellEach(cells, n - 1, h[n - 1], |h[n - 1]|);
      assert UsedBelow(cells, n) <= UsedBelow(cells, n - 1) + last;
      Sizes(UsedBelow(cells, n), UsedBelow(cells, n - 1), last);
    }
  }

  lemma Sizes(a: set<nat>, b: set<nat>, c: set<nat>)
    requires a <= b + c
    ensures |a| <= |b| + |c|
  {
    assert |b + c| == |b| + |c - b|;
    SubsetSize(a, b + c);
    SubsetSize(c - b, c);
  }

  /** The scheduler counts each history in full, so it never counts fewer cells than are in use: a pool
      that suffices by its count suffices. */
  lemma CountedInFull(cells: seq<Cell>, h: seq<seq<Token>>)
    requires Refines(cells, h)
    ensures |InUse(cells)| <= Cells(h, |h|)
  {
    UsedIsFewer(cells, h, |h|);
    forall c: nat | c in InUse(cells) ensures c in UsedBelow(cells, |h|) {
      var q :| q in cells[c].tags;
      assert Tags(cells[c], q);
    }
    SubsetSize(InUse(cells), UsedBelow(cells, |h|));
  }

  // ----- The steps are the backend's -----

  lemma {:induction false} OneOpMore(h: seq<seq<Token>>, ops: seq<Op>, op: Op)
    requires AllAllowed(h, ops) && Allowed(MeantAll(h, ops), op)
    ensures AllAllowed(h, ops + [op]) && MeantAll(h, ops + [op]) == Meant(MeantAll(h, ops), op)
    decreases |ops|
  {
    var all := ops + [op];
    if ops == [] {
      assert all[1..] == [];
    } else {
      assert all[0] == ops[0] && all[1..] == ops[1..] + [op];
      OneOpMore(Meant(h, ops[0]), ops[1..], op);
    }
  }

  function Writes(batch: seq<Entry>): seq<Op>
    requires forall e :: e in batch ==> e.pos >= 0
  {
    if batch == [] then []
    else
      var e := batch[|batch| - 1];
      Writes(batch[..|batch| - 1]) + [Write(e.seq_, e.tok, e.pos)]
  }

  /** A pass that is decoded writes its entries one after another. */
  lemma {:induction false} DecodingWrites(h: seq<seq<Token>>, batch: seq<Entry>)
    requires Within(batch, |h|) && Placed(h, batch)
    ensures forall e :: e in batch ==> e.pos >= 0
    ensures AllAllowed(h, Writes(batch)) && MeantAll(h, Writes(batch)) == Feed(h, batch)
  {
    if batch != [] {
      var n := |batch| - 1;
      var e := batch[n];
      DecodingWrites(h, batch[..n]);
      assert batch == batch[..n] + [e];
      OneOpMore(h, Writes(batch[..n]), Write(e.seq_, e.tok, e.pos));
    }
  }

  /** Decoding a pass keeps the cells and the histories in step. */
  method Decode(be: Backend, ghost cells: seq<Cell>) returns (status: DecodeStatus, ghost after: seq<Cell>)
    requires be.Valid() && Placed(be.att, be.batch) && Refines(cells, be.att)
    modifies be`att, be`rec, be`rows
    ensures be.Valid() && Refines(after, be.att)
    ensures status.Decoded? ==> (forall e :: e in be.batch ==> e.pos >= 0) && after == ApplyAll(cells, Writes(be.batch))
    ensures !status.Decoded? ==> after == cells
  {
    DecodingWrites(be.att, be.batch);
    SharingIsTransparent(cells, be.att, Writes(be.batch));
    status := be.Decode();
    after := if status.Decoded? then ApplyAll(cells, Writes(be.batch)) else cells;
  }

  /** So does lending, whether the backend refuses, does nothing, or does it. */
  method LendPrefix(be: Backend, ghost cells: seq<Cell>, src: nat, dst: nat, n: nat)
    returns (ok: bool, ghost after: seq<Cell>)
    requires be.Valid() && Refines(cells, be.att) && src < be.nSeqMax && dst < be.nSeqMax && src != dst
    requires be.att[dst] == [] && n <= |be.att[src]| && n <= |be.rec[src]|
    modifies be`att, be`rec
    ensures be.Valid() && Refines(after, be.att)
    ensures after == cells || (ok && after == Apply(cells, Lend(src, dst, n)))
  {
    ghost var h := be.att;
    StepRefines(cells, h, Lend(src, dst, n));
    ok := be.SharePrefix(src, dst, n);
    after := if be.att == h then cells else Apply(cells, Lend(src, dst, n));
  }

  /** And taking back a tail. */
  method TrimTail(be: Backend, ghost cells: seq<Cell>, q: nat, from: nat) returns (ok: bool, ghost after: seq<Cell>)
    requires be.Valid() && Refines(cells, be.att) && q < be.nSeqMax && from <= |be.att[q]| && from <= |be.rec[q]|
    modifies be`att, be`rec
    ensures be.Valid() && Refines(after, be.att)
    ensures after == if ok then Apply(cells, Trim(q, from)) else cells
  {
    StepRefines(cells, be.att, Trim(q, from));
    ok := be.TrimSeq(q, from);
    after := if ok then Apply(cells, Trim(q, from)) else cells;
  }

  /** And the end of a sequence, lender or borrower. */
  method DropAll(be: Backend, ghost cells: seq<Cell>, q: nat) returns (ghost after: seq<Cell>)
    requires be.Valid() && Refines(cells, be.att) && q < be.nSeqMax
    modifies be`att, be`rec, be`chains
    ensures be.Valid() && Refines(after, be.att) && after == Apply(cells, Drop(q))
  {
    StepRefines(cells, be.att, Drop(q));
    be.FreeSeq(q);
    after := Apply(cells, Drop(q));
  }
}
