/** The model-facing surface of the scheduler, as the contract its callers rely on.

    Each sequence has two parts of state: the positional cache (`att`), which can be cut back to a
    position, and the state carried forward in place (`rec`), which cannot.  A backend whose cache
    is positional carries nothing in the second part; there it mirrors the first. */
module Backends {
  import opened Options
  import opened Decoding

  datatype Entry = Entry(tok: Token, pos: int, seq_: nat, logits: bool)

  /** What the forward pass saw when it reached one entry of the batch. */
  datatype Row = Row(seq_: nat, logits: bool, att: seq<Token>, rec: seq<Token>)

  datatype DecodeStatus = Decoded | NoSlot | Fault

  predicate Within(batch: seq<Entry>, n: nat) {
    forall e :: e in batch ==> e.seq_ < n
  }

  /** One part of every sequence's state after the batch has been absorbed. */
  function Feed(h: seq<seq<Token>>, batch: seq<Entry>): (h': seq<seq<Token>>)
    requires Within(batch, |h|)
    ensures |h'| == |h|
  {
    if batch == [] then h
    else
      var e := batch[|batch| - 1];
      var front := Feed(h, batch[..|batch| - 1]);
      front[e.seq_ := front[e.seq_] + [e.tok]]
  }

  /** Every entry continues its sequence at the next free position. */
  predicate Placed(h: seq<seq<Token>>, batch: seq<Entry>)
    requires Within(batch, |h|)
  {
    batch == [] ||
    var e := batch[|batch| - 1];
    var front := batch[..|batch| - 1];
    Placed(h, front) && e.pos == |Feed(h, front)[e.seq_]|
  }

  function Rows(att: seq<seq<Token>>, rec: seq<seq<Token>>, batch: seq<Entry>): (rows: seq<Row>)
    requires |att| == |rec| && Within(batch, |att|)
    ensures |rows| == |batch|
  {
    if batch == [] then []
    else
      var e := batch[|batch| - 1];
      Rows(att, rec, batch[..|batch| - 1])
      + [Row(e.seq_, e.logits, Feed(att, batch)[e.seq_], Feed(rec, batch)[e.seq_])]
  }

  /** Absorbing a batch only adds to what is held. */
  lemma {:induction false} FeedExtends(h: seq<seq<Token>>, batch: seq<Entry>, q: nat)
    requires Within(batch, |h|) && q < |h|
    ensures h[q] <= Feed(h, batch)[q]
    ensures (exists e :: e in batch && e.seq_ == q) ==> |h[q]| < |Feed(h, batch)[q]|
  {
    if batch != [] {
      FeedExtends(h, batch[..|batch| - 1], q);
    }
  }

  /** The batch says nothing of a sequence it has no entry for. */
  lemma {:induction false} FeedApart(h: seq<seq<Token>>, batch: seq<Entry>, q: nat, x: seq<Token>)
    requires Within(batch, |h|) && q < |h| && Placed(h, batch)
    requires forall e :: e in batch ==> e.seq_ != q
    ensures Feed(h[q := x], batch) == Feed(h, batch)[q := x]
    ensures Placed(h[q := x], batch)
  {
    if batch != [] {
      FeedApart(h, batch[..|batch| - 1], q, x);
    }
  }

  lemma {:induction false} RowsApart(h: seq<seq<Token>>, batch: seq<Entry>, q: nat, x: seq<Token>)
    requires Within(batch, |h|) && q < |h| && Placed(h, batch)
    requires forall e :: e in batch ==> e.seq_ != q
    ensures Rows(h[q := x], h[q := x], batch) == Rows(h, h, batch)
  {
    if batch != [] {
      RowsApart(h, batch[..|batch| - 1], q, x);
      FeedApart(h, batch, q, x);
    }
  }

  /** Cells held by the first `n` sequences. */
  function Cells(h: seq<seq<Token>>, n: nat): nat
    requires n <= |h|
  {
    if n == 0 then 0 else Cells(h, n - 1) + |h[n - 1]|
  }

  lemma {:induction false} CellsBound(h: seq<seq<Token>>, n: nat, each: nat)
    requires n <= |h|
    requires forall q :: 0 <= q < n ==> |h[q]| <= each
    ensures Cells(h, n) <= n * each
  {
    if n > 0 {
      CellsBound(h, n - 1, each);
      assert n * each == (n - 1) * each + each;
    }
  }

  /** The cache cannot hold these histories: the shared pool is short, or one sequence's window. */
  predicate Overfull(h: seq<seq<Token>>, pool: nat, window: nat) {
    Cells(h, |h|) > pool || exists q :: 0 <= q < |h| && |h[q]| > window
  }

  class Backend {
    const m: Model
    const nSeqMax: nat
    const nCtx: nat
    const nCtxSeq: nat
    const batchCap: int
    /** The cache can be rewound by position alone. */
    const positional: bool
    /** Prefix sharing and checkpointing are optional capabilities. */
    const shares: bool
    const rewinds: bool
    /** A snapshot that was taken can always be restored. */
    const restores: bool
    /** Forward passes fail only for want of cache cells, and samplers can always be configured. */
    const faultless: bool

    var att: seq<seq<Token>>
    var rec: seq<seq<Token>>
    var ckpt: seq<Option<seq<Token>>>
    var chains: seq<Chain>
    var batch: seq<Entry>
    var rows: seq<Row>

    ghost predicate Valid()
      reads this
    {
      && |att| == |rec| == |ckpt| == |chains| == nSeqMax
      && Within(batch, nSeqMax)
    }

    /** Both parts of every sequence have absorbed the same tokens. */
    ghost predicate InStep()
      reads this
    {
      Valid() && att == rec
    }

    /** The positional caches once the staged batch is decoded. */
    ghost function Tips(): (tips: seq<seq<Token>>)
      requires Valid()
      reads this
      ensures |tips| == nSeqMax
    {
      Feed(att, batch)
    }

    ghost function StagedRows(): seq<Row>
      requires Valid()
      reads this
    {
      Rows(att, rec, batch)
    }

    method BatchClear()
      requires Valid()
      modifies this`batch
      ensures Valid() && batch == []
    {
      batch := [];
    }

    method BatchAdd(tok: Token, pos: int, q: nat, logits: bool) returns (ok: bool)
      requires Valid() && q < nSeqMax
      modifies this`batch
      ensures Valid()
      ensures ok <==> old(|batch|) < batchCap
      ensures batch == if ok then old(batch) + [Entry(tok, pos, q, logits)] else old(batch)
      ensures ok ==> Tips() == old(Tips())[q := old(Tips())[q] + [tok]]
      ensures ok && att == rec ==>
                StagedRows() == old(StagedRows()) + [Row(q, logits, Tips()[q], Tips()[q])]
      ensures ok && old(Placed(att, batch)) && pos == old(|Tips()[q]|) ==> Placed(att, batch)
    {
      ok := |batch| < batchCap;
      if ok {
        batch := batch + [Entry(tok, pos, q, logits)];
        assert batch[..|batch| - 1] == old(batch);
      }
    }

    /** Stages one token for its effect on the state alone. */
    method AddForState(tok: Token, pos: nat, q: nat)
      requires Valid() && q < nSeqMax && Placed(att, batch)
      requires |batch| < batchCap && pos == |Tips()[q]|
      modifies this`batch
      ensures Valid() && Placed(att, batch) && |batch| == old(|batch|) + 1
      ensures Tips() == old(Tips())[q := old(Tips())[q] + [tok]]
      ensures att == rec ==> old(StagedRows()) <= StagedRows()
    {
      var ok := BatchAdd(tok, pos, q, false);
    }

    /** Stages tokens of one sequence, in order, for their effect on the state alone. */
    method BatchAddAll(toks: seq<Token>, pos: nat, q: nat) returns (pos': nat)
      requires Valid() && q < nSeqMax && Placed(att, batch)
      requires |batch| + |toks| <= batchCap && pos == |Tips()[q]|
      modifies this`batch
      ensures Valid() && Placed(att, batch)
      ensures |batch| == old(|batch|) + |toks|
      ensures Tips() == old(Tips())[q := old(Tips())[q] + toks]
      ensures pos' == pos + |toks|
      ensures att == rec ==> old(StagedRows()) <= StagedRows()
    {
      pos' := pos;
      ghost var base := Tips()[q];
      assert base + toks[..0] == base && Tips() == Tips()[q := base];
      for i := 0 to |toks|
        invariant Valid() && Placed(att, batch)
        invariant |batch| == old(|batch|) + i
        invariant Tips() == old(Tips())[q := base + toks[..i]]
        invariant pos' == pos + i
        invariant att == rec ==> old(StagedRows()) <= StagedRows()
      {
        AddForState(toks[i], pos', q);
        assert base + toks[..i + 1] == (base + toks[..i]) + [toks[i]];
        pos' := pos' + 1;
      }
      assert toks[..|toks|] == toks;
    }

    /** One forward pass over the staged batch. */
    method Decode() returns (status: DecodeStatus)
      requires Valid() && Placed(att, batch)
      modifies this`att, this`rec, this`rows
      ensures Valid()
      ensures status.Decoded? ==>
                && att == old(Feed(att, batch)) && rec == old(Feed(rec, batch))
                && rows == old(StagedRows())
      ensures !status.Decoded? ==> att == old(att) && rec == old(rec)
      ensures status.NoSlot? ==> Overfull(Feed(att, batch), nCtx, nCtxSeq)
      ensures status.Fault? ==> !faultless
    {
      var refused, faulty := *, *;
      if refused && Overfull(Feed(att, batch), nCtx, nCtxSeq) {
        status := NoSlot;
      } else if faulty && !faultless {
        status := Fault;
      } else {
        rows := Rows(att, rec, batch);
        att, rec := Feed(att, batch), Feed(rec, batch);
        status := Decoded;
      }
    }

    /** Draws from the logits at batch index `i`; only a row that asked for logits has any. */
    method SampleAt(q: nat, i: nat) returns (r: Option<Token>)
      requires Valid() && i < |rows| && rows[i].seq_ == q && rows[i].logits && q < nSeqMax
      modifies this`chains
      ensures Valid()
      ensures r == m.draw(rows[i].att, rows[i].rec, old(chains[q]))
      ensures chains == if r.Some?
                        then old(chains)[q := Chain(old(chains[q]).params, old(chains[q]).drawn + [r.value])]
                        else old(chains)
    {
      r := m.draw(rows[i].att, rows[i].rec, chains[q]);
      if r.Some? {
        chains := chains[q := Chain(chains[q].params, chains[q].drawn + [r.value])];
      }
    }

    method SetSampling(q: nat, params: Sampling) returns (ok: bool)
      requires Valid() && q < nSeqMax
      modifies this`chains
      ensures Valid()
      ensures chains == if ok then old(chains)[q := Chain(params, [])] else old(chains)
      ensures faultless ==> ok
    {
      var refused := *;
      ok := faultless || !refused;
      if ok {
        chains := chains[q := Chain(params, [])];
      }
    }

    /** Takes back a sequence's tail, and says whether it could. */
    method TrimSeq(q: nat, from: nat) returns (ok: bool)
      requires Valid() && q < nSeqMax && from <= |att[q]| && from <= |rec[q]|
      modifies this`att, this`rec
      ensures Valid()
      ensures positional ==> ok
      ensures att == if ok then old(att)[q := old(att[q])[..from]] else old(att)
      ensures rec == if ok then old(rec)[q := old(rec[q])[..from]] else old(rec)
    {
      var able := *;
      ok := positional || able;
      if ok {
        att, rec := att[q := att[q][..from]], rec[q := rec[q][..from]];
      }
    }

    /** Snapshots the part of a sequence's state that has no positions. */
    method Checkpoint(q: nat) returns (ok: bool)
      requires Valid() && q < nSeqMax
      modifies this`ckpt
      ensures Valid()
      ensures ckpt == if ok then old(ckpt)[q := Some(rec[q])] else old(ckpt)[q := None]
    {
      ok := *;
      ckpt := if ok then ckpt[q := Some(rec[q])] else ckpt[q := None];
    }

    /** Restores the snapshot, if there is one, and cuts the positional cache back to `to`. */
    method Rollback(q: nat, to: nat) returns (ok: bool)
      requires Valid() && q < nSeqMax && to <= |att[q]|
      modifies this`att, this`rec
      ensures Valid()
      ensures att == if ok then old(att)[q := old(att[q])[..to]] else old(att)
      ensures rec == if ok && ckpt[q].Some? then old(rec)[q := ckpt[q].value] else old(rec)
      ensures restores ==> ok
    {
      var able := *;
      ok := restores || able;
      if ok {
        att := att[q := att[q][..to]];
        if ckpt[q].Some? {
          rec := rec[q := ckpt[q].value];
        }
      }
    }

    method DropCheckpoint(q: nat)
      requires Valid() && q < nSeqMax
      modifies this`ckpt
      ensures Valid() && ckpt == old(ckpt)[q := None]
    {
      ckpt := ckpt[q := None];
    }

    /** Drops everything a sequence holds and clears its sampler. */
    method FreeSeq(q: nat)
      requires Valid() && q < nSeqMax
      modifies this`att, this`rec, this`chains
      ensures Valid()
      ensures att == old(att)[q := []] && rec == old(rec)[q := []]
      ensures chains == old(chains)[q := Chain(old(chains[q]).params, [])]
    {
      att, rec := att[q := []], rec[q := []];
      chains := chains[q := Chain(chains[q].params, [])];
    }

    /** Gives `dst` the cells `src` holds below `n`.  It may refuse, and it may report success and
        do nothing.  State without positions cannot be shared in part: all of it is handed over. */
    method SharePrefix(src: nat, dst: nat, n: nat) returns (ok: bool)
      requires Valid() && src < nSeqMax && dst < nSeqMax && src != dst
      requires att[dst] == [] && n <= |att[src]| && n <= |rec[src]|
      modifies this`att, this`rec
      ensures Valid()
      ensures !ok ==> att == old(att) && rec == old(rec)
      ensures || (att == old(att) && rec == old(rec))
              || (att == old(att)[dst := old(att[src])[..n]]
                  && rec == old(rec)[dst := if positional then old(rec[src])[..n] else old(rec[src])])
    {
      ok := *;
      var silent := *;
      if ok && !silent {
        att := att[dst := att[src][..n]];
        rec := rec[dst := if positional then rec[src][..n] else rec[src]];
      }
    }

    /** The highest position a sequence holds, or -1. */
    function CachedThrough(q: nat): int
      requires Valid() && q < nSeqMax
      reads this
    {
      |att[q]| - 1
    }
  }
}
