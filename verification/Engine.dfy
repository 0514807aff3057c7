/** The decode-loop scheduler: one loop owns the slot table and is the only user of the backend.

    Each tick stages one shared batch (replays, next tokens, drafts, then prefill), decodes it,
    verifies the drafts, and takes back what the model did not choose. */
module Engines {
  import opened Options
  import opened Decoding
  import opened Backends
  import opened Slots
  import opened Tables

  const UINT32: int := 0x1_0000_0000
  const DEFAULT_OUTPUT_RESERVE: int := 512
  const MIN_SHARED_PREFIX: nat := 256

  datatype SubmitResult = Accepted | EmptyPrompt | OverBudget | EngineClosed | QueueFull

  datatype TickResult = Ticked | Evicted | DecodeFault | NoCapacity

  /** What the drafts of one step came to. */
  datatype Verdict = Continue | Stop(reason: Reason) | Failure

  /** What the engine asks of others in passing: `n` proposals after a token, or a donor's first `n` cells. */
  datatype Question = Proposals(q: nat, next: Token, pos: nat, n: nat) | Prefix(donor: nat, q: nat, n: nat)

  class Engine {
    const be: Backend
    const maxWait: int
    const admitCtx: nat
    /** Drafts at most this many tokens at once; 0 when no drafter was configured. */
    const maxDraft: nat
    /** The drafter never proposes more than it was asked for. */
    const honest: bool
    const rewinder: bool
    const outputEverywhere: bool

    /** What plain decoding with this model yields: the specification. */
    ghost const plain: Decoder

    var queue: seq<Slot>
    var free: seq<nat>
    /** The slot table. */
    var active: map<nat, Slot>
    /** A drafter is configured and has not been dropped. */
    var drafting: bool
    var speculationUnusable: bool
    var checkpointFailed: bool
    var closed: bool

    ghost var fate: Fate
    /** Everything asked so far of the drafter, and of the backend about prefixes. */
    ghost var asked: seq<Question>
    /** The requests that were ever accepted. */
    ghost var ever: multiset<Ask>
    /** Counts the requests of a slot table, a queue and the streams that are over. */
    ghost const census: Census

    /** The streams that are over. */
    ghost var over: seq<Outcome>

    /** No step ever drafts more than this. */
    function DraftBound(): nat {
      if maxDraft == 0 || honest then maxDraft else if be.batchCap > 0 then be.batchCap else 0
    }

    /** Drafts can always be taken back: by position, because there are none, or from a snapshot. */
    predicate TakesBack() {
      be.positional || maxDraft == 0 || (rewinder && be.restores)
    }

    // ----- Invariants -----

    /** Slot conservation, and what is true of the streams that are over or not begun. */
    ghost predicate Table()
      reads this
    {
      && (be.shares ==> be.positional)
      && (rewinder ==> be.rewinds)
      && Partition(be.nSeqMax, free, active.Keys)
      && AllWaiting(queue)
      && AllFinal(over, plain, be.nCtxSeq, fate)
      && (fate.fallible <==> !(be.faultless && TakesBack()))
      && Counts(census, be.nSeqMax) && ever == census(active, queue, over)
    }

    ghost predicate Wired()
      reads this, be
    {
      be.Valid() && Table()
    }

    /** Unused sequences hold nothing. */
    ghost predicate Vacant()
      requires be.Valid()
      reads this, be
    {
      forall q :: 0 <= q < be.nSeqMax && q !in active ==> be.att[q] == []
    }

    /** Between ticks. */
    ghost predicate AtRest()
      reads this, be
    {
      && Wired() && be.InStep() && Vacant()
      && AllIdle(active, {}, be.nSeqMax, plain, DraftBound(), be.att, be.chains)
    }

    /** What is known of the slots, given what their sequences will hold and the rows staged. */
    ghost predicate Known(table: map<nat, Slot>, tips: seq<seq<Token>>,
                          ckpt: seq<Option<seq<Token>>>, rows: seq<Row>)
      reads this, be`att, be`rec, be`chains
    {
      && Table()
      && be.att == be.rec
      && |tips| == |ckpt| == |be.att| == |be.chains| == be.nSeqMax
      && (forall q :: 0 <= q < be.nSeqMax && q !in active ==> be.att[q] == [] && tips[q] == [])
      && AllHeld(table, be.nSeqMax, plain, DraftBound(), rewinder, tips, be.chains, ckpt, rows)
    }

    /** While the batch is being staged. */
    ghost predicate Staging()
      reads this, be
    {
      && be.Valid() && Placed(be.att, be.batch)
      && Known(active, be.Tips(), be.ckpt, be.StagedRows())
    }

    constructor (be: Backend, maxWait: int, admitCtx: nat, maxDraft: nat, honest: bool,
                 needsRewind: bool, outputEverywhere: bool)
      requires be.Valid() && be.att == be.rec && forall q :: 0 <= q < be.nSeqMax ==> be.att[q] == []
      requires be.shares ==> be.positional
      ensures this.be == be && over == [] && AtRest() && Decodes(plain, be.m)
      ensures this.admitCtx == admitCtx && this.maxDraft == maxDraft && this.maxWait == maxWait
    {
      this.be := be;
      plain := (r: Request, n: nat) => Plain(be.m, r, n);
      this.maxWait, this.admitCtx := maxWait, admitCtx;
      this.maxDraft, this.honest := maxDraft, honest;
      this.outputEverywhere := outputEverywhere;
      rewinder := maxDraft > 0 && needsRewind && be.rewinds;
      drafting := maxDraft > 0;
      speculationUnusable, checkpointFailed, closed := false, false, false;
      queue, active := [], map[];
      free := seq(be.nSeqMax, i => i);
      over := [];
      fate := Fate(false, false,
                   !(be.faultless && (be.positional || maxDraft == 0 || (needsRewind && be.rewinds && be.restores))));
      census := (table: map<nat, Slot>, queue: seq<Slot>, over: seq<Outcome>) =>
          Everyone(be.nSeqMax, table, queue, over);
      ever := multiset{};
      new;
      NoneRunning(be.nSeqMax);
      assert census(map[], [], []) == Everyone(be.nSeqMax, map[], [], []);
      forall q | 0 <= q < be.nSeqMax ensures Spare(free, q) {
        assert free[q] == q;
      }
    }

    // ----- Ending a stream -----

    /** Drops what the backend keeps for a sequence.  A snapshot belongs to the request that took it. */
    method Forget(q: nat)
      requires be.Valid() && q < be.nSeqMax
      modifies be`ckpt, be`att, be`rec, be`chains
      ensures be.Valid()
      ensures be.att == old(be.att)[q := []] && be.rec == old(be.rec)[q := []]
      ensures forall p :: 0 <= p < be.nSeqMax && p != q ==>
                            be.chains[p] == old(be.chains[p]) && be.ckpt[p] == old(be.ckpt[p])
    {
      if rewinder {
        be.DropCheckpoint(q);
      }
      be.FreeSeq(q);
    }

    /** Releases a slot's sequence and closes its stream. */
    method Finish(q: nat, s: Slot, ghost steps: nat, ending: Ending)
      requires Wired() && q in active
      requires s.patient ==> !s.cancelled
      requires Justified(s, plain, steps, be.nCtxSeq, fate, ending) && SameAsk(s, active[q])
      modifies this`active, this`free, this`over, be`ckpt, be`att, be`rec, be`chains
      ensures Wired()
      ensures active == old(active) - {q} && free == old(free) + [q]
      ensures NewFrom(map[q := s], old(over), over)
      ensures |over| == |old(over)| + 1 && over[|old(over)|].last == s && over[|old(over)|].ending == ending
      ensures be.att == old(be.att)[q := []] && be.rec == old(be.rec)[q := []]
      ensures forall p :: 0 <= p < be.nSeqMax && p != q ==>
                            be.chains[p] == old(be.chains[p]) && be.ckpt[p] == old(be.ckpt[p])
    {
      ReleaseId(be.nSeqMax, free, active.Keys, q);
      var sent := Send(s, Done(ending));
      var o := Outcome(s, steps, sent.events, sent.cancelled, ending);
      CensusEnded(census, be.nSeqMax, active, q, queue, over, o);
      active := active - {q};
      free := free + [q];
      Forget(q);
      over := over + [o];
      assert FromTable(over[|over| - 1], map[q := s]) by {
        assert SameAsk(s, map[q := s][q]);
      }
    }

    // ----- Staging the batch -----

    /** What the slot of one sequence says of its entries. */
    lemma Look(q: nat)
      requires Staging() && q in active
      ensures q < be.nSeqMax
      ensures Held(active[q], plain, DraftBound(), rewinder, q, be.Tips()[q], be.chains[q], be.ckpt[q],
                   be.StagedRows())
    {
    }

    /** Entries of sequence `q` alone have been staged, and they are what slot `s` says. */
    ghost predicate Advanced(q: nat, s: Slot, tips: seq<seq<Token>>, ckpt: seq<Option<seq<Token>>>,
                             rows: seq<Row>)
      reads this, be
    {
      && be.Valid() && Placed(be.att, be.batch)
      && q < be.nSeqMax == |tips| == |ckpt|
      && be.Tips() == tips[q := be.Tips()[q]]
      && be.ckpt == ckpt[q := be.ckpt[q]]
      && rows <= be.StagedRows()
      && Held(s, plain, DraftBound(), rewinder, q, be.Tips()[q], be.chains[q], be.ckpt[q], be.StagedRows())
    }

    /** Stores a slot whose entries have just been staged. */
    method Put(q: nat, s: Slot, ghost tips: seq<seq<Token>>, ghost ckpt: seq<Option<seq<Token>>>,
               ghost rows: seq<Row>)
      requires Known(active, tips, ckpt, rows) && q in active
      requires Advanced(q, s, tips, ckpt, rows) && SameAsk(s, active[q])
      modifies this`active
      ensures Staging()
      ensures active == old(active)[q := s]
    {
      CensusPut(census, be.nSeqMax, active, q, s, queue, over);
      active := active[q := s];
      assert active.Keys == old(active.Keys);
      StagedOne(old(active), active, q, be.nSeqMax, plain, DraftBound(), rewinder,
                tips, be.Tips(), be.chains, ckpt, be.ckpt, rows, be.StagedRows());
    }

    /** Entries of sequence `q` alone have been staged. */
    ghost predicate OnlyFor(q: nat, tips: seq<seq<Token>>, rows: seq<Row>)
      reads be
    {
      && be.Valid() && Placed(be.att, be.batch)
      && q < be.nSeqMax == |tips|
      && be.Tips() == tips[q := be.Tips()[q]]
      && rows <= be.StagedRows()
    }

    /** Stages tokens whose outputs are known and then, if there is room, the token to feed next. */
    method FeedReplay(q: nat, replay: seq<Token>, next: Token, pos: nat) returns (idx: nat, logits: bool)
      requires be.Valid() && be.att == be.rec && Placed(be.att, be.batch) && q < be.nSeqMax
      requires pos == |be.Tips()[q]| && |be.batch| + |replay| <= be.batchCap
      modifies be`batch
      ensures OnlyFor(q, old(be.Tips()), old(be.StagedRows()))
      ensures be.Tips()[q] == old(be.Tips())[q] + replay + if logits then [next] else []
      ensures logits <==> old(|be.batch|) + |replay| < be.batchCap
      ensures |be.batch| == old(|be.batch|) + |replay| + if logits then 1 else 0
      ensures logits ==> idx < |be.batch| && be.StagedRows()[idx] == Row(q, true, be.Tips()[q], be.Tips()[q])
    {
      var pos' := be.BatchAddAll(replay, pos, q);
      idx, logits := |be.batch|, be.batchCap - |be.batch| >= 1;
      if logits {
        var ok := be.BatchAdd(next, pos', q, true);
      }
    }

    /** Whatever the drafter proposes to follow the token at `pos`; nothing when it fails. */
    method Propose(q: nat, next: Token, pos: nat, n: nat) returns (proposed: seq<Token>)
      modifies this`asked
      ensures honest ==> |proposed| <= n
      ensures asked == old(asked) + [Proposals(q, next, pos, n)]
    {
      asked := asked + [Proposals(q, next, pos, n)];
      proposed := *;
      if honest && |proposed| > n {
        proposed := proposed[..n];
      }
    }

    /** Stages one proposal, if the batch takes it. */
    method FeedProposal(q: nat, tok: Token, pos: nat, ghost base: seq<Token>, ghost draft: seq<Token>,
                        ghost specIdx: seq<nat>)
      returns (ok: bool, idx: nat)
      requires be.Valid() && be.att == be.rec && Placed(be.att, be.batch) && q < be.nSeqMax
      requires pos == |be.Tips()[q]| && be.Tips()[q] == base + draft && |be.batch| <= be.batchCap
      requires Rowed(q, base, draft, specIdx, be.StagedRows())
      modifies be`batch
      ensures OnlyFor(q, old(be.Tips()), old(be.StagedRows()))
      ensures ok <==> old(|be.batch|) < be.batchCap
      ensures |be.batch| == old(|be.batch|) + if ok then 1 else 0
      ensures be.Tips()[q] == base + if ok then draft + [tok] else draft
      ensures if ok then Rowed(q, base, draft + [tok], specIdx + [idx], be.StagedRows())
              else Rowed(q, base, draft, specIdx, be.StagedRows())
    {
      idx := |be.batch|;
      ghost var rows := be.StagedRows();
      ok := be.BatchAdd(tok, pos, q, true);
      if ok {
        assert be.Tips()[q] == base + (draft + [tok]);
        RowedMore(q, base, draft, specIdx, rows, tok, be.StagedRows()[|rows|]);
      }
    }

    /** Stages proposals until the batch refuses one. */
    method FeedProposals(q: nat, proposed: seq<Token>, pos: nat, first: nat)
      returns (draft: seq<Token>, specIdx: seq<nat>)
      requires be.Valid() && be.att == be.rec && Placed(be.att, be.batch) && q < be.nSeqMax
      requires pos == |be.Tips()[q]| && |be.batch| <= be.batchCap
      requires Rowed(q, be.Tips()[q], [], [first], be.StagedRows())
      modifies be`batch
      ensures OnlyFor(q, old(be.Tips()), old(be.StagedRows()))
      ensures be.Tips()[q] == old(be.Tips())[q] + draft
      ensures Rowed(q, old(be.Tips())[q], draft, specIdx, be.StagedRows())
      ensures |draft| <= |proposed| && |be.batch| == old(|be.batch|) + |draft| <= be.batchCap
      ensures draft == proposed[..|draft|] && (|draft| < |proposed| ==> |be.batch| == be.batchCap)
    {
      ghost var base := be.Tips()[q];
      draft, specIdx := [], [first];
      assert base + [] == base;
      while |draft| < |proposed|
        invariant |draft| <= |proposed| && draft == proposed[..|draft|]
        invariant OnlyFor(q, old(be.Tips()), old(be.StagedRows()))
        invariant be.Tips()[q] == base + draft
        invariant Rowed(q, base, draft, specIdx, be.StagedRows())
        invariant |be.batch| == old(|be.batch|) + |draft| <= be.batchCap
      {
        var ok, idx := FeedProposal(q, proposed[|draft|], pos + |draft|, base, draft, specIdx);
        if !ok {
          break;
        }
        draft, specIdx := draft + [proposed[|draft|]], specIdx + [idx];
      }
    }

    /** Feeds the next token, for its logits. */
    method FeedNext(q: nat, next: Token, pos: nat) returns (idx: nat)
      requires be.Valid() && be.att == be.rec && Placed(be.att, be.batch) && q < be.nSeqMax
      requires pos == |be.Tips()[q]| && |be.batch| < be.batchCap
      modifies be`batch
      ensures OnlyFor(q, old(be.Tips()), old(be.StagedRows()))
      ensures be.Tips()[q] == old(be.Tips())[q] + [next] && |be.batch| == old(|be.batch|) + 1
      ensures Rowed(q, be.Tips()[q], [], [idx], be.StagedRows())
    {
      idx := |be.batch|;
      var ok := be.BatchAdd(next, pos, q, true);
      RowedFirst(q, be.Tips()[q], idx, be.StagedRows());
    }

    /** What is asked of the drafter about a token staged at `pos` as entry `entries` of the batch. */
    function Wanted(q: nat, next: Token, pos: nat, entries: nat): Question
      requires entries < be.batchCap
    {
      var room := be.batchCap - entries - 1;
      Proposals(q, next, pos, if maxDraft < room then maxDraft else room)
    }

    /** Feeds the next token, snapshots the state if it will have to be restored, and stages drafts. */
    method FeedDrafts(q: nat, next: Token, pos: nat, speculate: bool)
      returns (draft: seq<Token>, specIdx: seq<nat>)
      requires be.Valid() && be.att == be.rec && Placed(be.att, be.batch) && q < be.nSeqMax
      requires pos == |be.Tips()[q]| && |be.batch| < be.batchCap
      modifies be`batch, be`ckpt, this`checkpointFailed, this`asked
      ensures OnlyFor(q, old(be.Tips()), old(be.StagedRows()))
      ensures be.ckpt == old(be.ckpt)[q := be.ckpt[q]]
      ensures draft != [] && rewinder ==> be.ckpt[q] == Some(be.att[q])
      ensures be.Tips()[q] == old(be.Tips())[q] + [next] + draft
      ensures Rowed(q, old(be.Tips())[q] + [next], draft, specIdx, be.StagedRows())
      ensures asked == old(asked) + [Wanted(q, next, pos, old(|be.batch|))] || (asked == old(asked) && draft == [])
      ensures asked != old(asked) ==> drafting && speculate
      ensures drafting && speculate && Wanted(q, next, pos, old(|be.batch|)).n > 0 ==>
                asked != old(asked) || (rewinder && checkpointFailed)
      ensures |draft| <= DraftBound() && |be.batch| == old(|be.batch|) + 1 + |draft| <= be.batchCap
    {
      var idx := FeedNext(q, next, pos);
      draft, specIdx := [], [idx];
      if drafting && speculate {
        var n := DraftRoom();
        if n > 0 {
          var taken := Snapshot(q);
          if !taken {
            return;
          }
          var proposed := Propose(q, next, pos, n);
          draft, specIdx := FeedProposals(q, proposed, pos + 1, idx);
        }
      }
    }

    /** How many proposals may be staged now. */
    method DraftRoom() returns (n: nat)
      requires |be.batch| <= be.batchCap
      ensures n <= maxDraft && |be.batch| + n <= be.batchCap
      ensures n == maxDraft || |be.batch| + n == be.batchCap
    {
      var room := be.batchCap - |be.batch|;
      n := if maxDraft < room then maxDraft else room;
    }

    /** Before drafts are staged, the state that could not be taken back is kept. */
    method Snapshot(q: nat) returns (taken: bool)
      requires be.Valid() && q < be.nSeqMax
      modifies be`ckpt, this`checkpointFailed
      ensures be.Valid() && be.ckpt == old(be.ckpt)[q := be.ckpt[q]]
      ensures taken && rewinder ==> be.ckpt[q] == Some(be.rec[q])
      ensures !taken ==> rewinder && checkpointFailed
    {
      taken := true;
      if rewinder {
        taken := be.Checkpoint(q);
        if !taken {
          checkpointFailed := true;
        }
      }
    }

    /** The drafter was asked once for a stream that had nothing to replay and may be drafted for, if there
        was room and a way back, and not otherwise. */
    ghost predicate Consulted(q: nat, s: Slot, entries: nat, asked0: seq<Question>)
      requires entries < be.batchCap
      reads this
    {
      var wanted := Wanted(q, s.next, s.pos, entries);
      && (asked == asked0 + [wanted] || asked == asked0)
      && (asked != asked0 ==> s.replay == [] && drafting && !s.noSpeculate)
      && (s.replay == [] && drafting && !s.noSpeculate && wanted.n > 0 ==>
            asked != asked0 || (rewinder && checkpointFailed))
    }

    /** Stages a stream that is past its prompt: its replay if it has one, and otherwise its next
        token and the drafts that follow it. */
    method StageSlot(q: nat, s: Slot) returns (s': Slot)
      requires be.Valid() && be.att == be.rec && Placed(be.att, be.batch) && q < be.nSeqMax
      requires Idle(s, plain, DraftBound(), be.Tips()[q], be.chains[q])
      requires s.primed && !s.hasLogits && be.Tips()[q] == be.att[q]
      requires |be.batch| < be.batchCap
      modifies this`checkpointFailed, this`asked, be`batch, be`ckpt
      ensures OnlyFor(q, old(be.Tips()), old(be.StagedRows()))
      ensures be.ckpt == old(be.ckpt)[q := be.ckpt[q]]
      ensures Held(s', plain, DraftBound(), rewinder, q, be.Tips()[q], be.chains[q], be.ckpt[q], be.StagedRows())
      ensures SameStream(s, s') && s'.pending == s.pending && s'.primed
      ensures s'.hasLogits <==> old(|be.batch|) + |s.replay| < be.batchCap
      ensures s'.replay == if old(|be.batch|) + |s.replay| <= be.batchCap then [] else s.replay
      ensures Consulted(q, s, old(|be.batch|), old(asked))
      ensures old(|be.batch|) <= |be.batch| <= old(|be.batch|) + DraftBound() + 1
      ensures old(|be.batch|) + DraftBound() + 1 <= be.batchCap ==> s'.hasLogits
    {
      ghost var tip := be.Tips()[q];
      if |s.replay| == 0 {
        var draft, specIdx := FeedDrafts(q, s.next, s.pos, !s.noSpeculate);
        s' := WithDrafts(s, draft, specIdx);
        DraftsHeld(s, plain, DraftBound(), rewinder, q, tip, be.Tips()[q], be.chains[q],
                   be.ckpt[q], be.StagedRows(), draft, specIdx);
      } else if be.batchCap - |be.batch| >= |s.replay| {
        var idx, logits := FeedReplay(q, s.replay, s.next, s.pos);
        s' := WithReplay(s, idx, logits);
        ReplayHeld(s, plain, DraftBound(), rewinder, q, tip, be.Tips()[q], be.chains[q],
                   be.ckpt[q], be.StagedRows(), idx, logits);
      } else {
        // No room for all of the replay: the slot waits for a pass that can take it.
        s' := s.(draft := [], specIdx := []);
      }
    }

    method StageStream(q: nat)
      requires Staging() && q in active
      requires active[q].primed && !active[q].hasLogits && be.Tips()[q] == be.att[q]
      requires |be.batch| < be.batchCap
      modifies this`active, this`checkpointFailed, this`asked, be`batch, be`ckpt
      ensures Staging()
      ensures q in active && active == old(active)[q := active[q]]
      ensures be.Tips() == old(be.Tips())[q := be.Tips()[q]]
      ensures SameStream(old(active)[q], active[q])
      ensures active[q].pending == old(active)[q].pending && active[q].primed
      ensures active[q].hasLogits <==> old(|be.batch|) + |old(active)[q].replay| < be.batchCap
      ensures Consulted(q, old(active)[q], old(|be.batch|), old(asked))
      ensures old(|be.batch|) <= |be.batch| <= old(|be.batch|) + DraftBound() + 1
      ensures old(|be.batch|) + DraftBound() + 1 <= be.batchCap ==> active[q].hasLogits
    {
      ghost var tips, rows, ckpt := be.Tips(), be.StagedRows(), be.ckpt;
      assert Known(active, tips, ckpt, rows);
      Look(q);
      var s' := StageSlot(q, active[q]);
      Put(q, s', tips, ckpt, rows);
    }

    /** Stages one token for which there is room. */
    method FeedOne(q: nat, tok: Token, pos: nat, logits: bool)
      requires be.Valid() && be.att == be.rec && Placed(be.att, be.batch) && q < be.nSeqMax
      requires pos == |be.Tips()[q]| && |be.batch| < be.batchCap
      modifies be`batch
      ensures OnlyFor(q, old(be.Tips()), old(be.StagedRows()))
      ensures be.Tips()[q] == old(be.Tips())[q] + [tok]
      ensures |be.batch| == old(|be.batch|) + 1
      ensures |be.StagedRows()| == |be.batch|
      ensures be.StagedRows()[old(|be.batch|)] == Row(q, logits, be.Tips()[q], be.Tips()[q])
    {
      var ok := be.BatchAdd(tok, pos, q, logits);
    }

    /** Stages prompt tokens until they run out or the batch is full. */
    method FeedPrompt(q: nat, pending: seq<Token>, pos: nat) returns (n: nat, idx: nat)
      requires be.Valid() && be.att == be.rec && Placed(be.att, be.batch) && q < be.nSeqMax
      requires pos == |be.Tips()[q]| && pending != []
      modifies be`batch
      ensures OnlyFor(q, old(be.Tips()), old(be.StagedRows()))
      ensures n <= |pending| && be.Tips()[q] == old(be.Tips())[q] + pending[..n]
      ensures n < |pending| ==> |be.batch| >= be.batchCap
      ensures |be.batch| == old(|be.batch|) + n && (n > 0 ==> |be.batch| <= be.batchCap)
      ensures n == |pending| ==>
                idx < |be.batch| && be.StagedRows()[idx] == Row(q, true, be.Tips()[q], be.Tips()[q])
    {
      n, idx := 0, 0;
      ghost var tips, rows := be.Tips(), be.StagedRows();
      while n < |pending| && |be.batch| < be.batchCap
        invariant n <= |pending|
        invariant OnlyFor(q, tips, rows)
        invariant be.Tips()[q] == tips[q] + pending[..n]
        invariant |be.batch| == old(|be.batch|) + n && (n > 0 ==> |be.batch| <= be.batchCap)
        invariant n == |pending| ==>
                    idx < |be.batch| && be.StagedRows()[idx] == Row(q, true, be.Tips()[q], be.Tips()[q])
      {
        idx := |be.batch|;
        FeedOne(q, pending[n], pos + n, n + 1 == |pending| || outputEverywhere);
        assert pending[..n + 1] == pending[..n] + [pending[n]];
        n := n + 1;
      }
    }

    method PrefillSlot(q: nat, s: Slot) returns (s': Slot)
      requires be.Valid() && be.att == be.rec && Placed(be.att, be.batch) && q < be.nSeqMax
      requires Idle(s, plain, DraftBound(), be.Tips()[q], be.chains[q])
      requires !s.primed && !s.hasLogits && plain(s.req, 0) == Fresh(s.req)
      modifies be`batch
      ensures OnlyFor(q, old(be.Tips()), old(be.StagedRows()))
      ensures Held(s', plain, DraftBound(), rewinder, q, be.Tips()[q], be.chains[q], be.ckpt[q], be.StagedRows())
      ensures SameStream(s, s') && |s'.pending| <= |s.pending|
      ensures s'.pending != [] ==> |be.batch| >= be.batchCap
      ensures old(|be.batch|) < be.batchCap ==> |s'.pending| < |s.pending| && |be.batch| <= be.batchCap
      ensures old(|be.batch|) >= be.batchCap ==> |be.batch| == old(|be.batch|)
    {
      ghost var tip := be.Tips()[q];
      var n, idx := FeedPrompt(q, s.pending, s.pos);
      s' := WithPrefill(s, n, idx);
      PrefillHeld(s, plain, DraftBound(), rewinder, q, tip, be.Tips()[q], be.chains[q],
                  be.ckpt[q], be.StagedRows(), n, idx);
    }

    /** Prefills one stream with whatever budget is left. */
    method PrefillStream(q: nat)
      requires Staging() && q in active && plain(active[q].req, 0) == Fresh(active[q].req)
      requires !active[q].primed && !active[q].hasLogits
      modifies this`active, be`batch
      ensures Staging()
      ensures q in active && active == old(active)[q := active[q]]
      ensures SameStream(old(active)[q], active[q])
      ensures |active[q].pending| <= |old(active)[q].pending|
      ensures active[q].pending != [] ==> |be.batch| >= be.batchCap
      ensures old(|be.batch|) < be.batchCap ==>
                |active[q].pending| < |old(active)[q].pending| && |be.batch| <= be.batchCap
      ensures old(|be.batch|) >= be.batchCap ==> |be.batch| == old(|be.batch|)
    {
      ghost var tips, rows := be.Tips(), be.StagedRows();
      assert Known(active, tips, be.ckpt, rows);
      Look(q);
      var s' := PrefillSlot(q, active[q]);
      Put(q, s', tips, be.ckpt, rows);
    }

    /** Reads one request's context while the batch is being staged. */
    method PollSlot(q: nat) returns (ended: bool)
      requires Staging() && q in active
      modifies this`active
      ensures Staging()
      ensures active == old(active)[q := old(active)[q].(cancelled := ended)]
      ensures old(active)[q].cancelled ==> ended
      ensures old(active)[q].patient ==> !ended
    {
      var s := active[q];
      assert Known(active, be.Tips(), be.ckpt, be.StagedRows());
      Look(q);
      var s' := Poll(s);
      AbandonedHeld(s, s', plain, DraftBound(), rewinder, q, be.Tips()[q], be.chains[q], be.ckpt[q],
                    be.StagedRows());
      Put(q, s', be.Tips(), be.ckpt, be.StagedRows());
      ended := s'.cancelled;
    }

    // ----- Sharing cached prefixes -----

    /** Asks the backend for the first `n` cells of a donor, and says whether they arrived. */
    method Borrow(q: nat, donor: nat, n: nat) returns (shared: bool)
      requires be.Valid() && be.att == be.rec && be.positional && Placed(be.att, be.batch)
      requires q < be.nSeqMax && donor < be.nSeqMax && donor != q
      requires be.att[q] == [] == be.Tips()[q] && 0 < n <= |be.att[donor]|
      modifies be`att, be`rec, this`asked
      ensures be.Valid() && be.att == be.rec && Placed(be.att, be.batch)
      ensures be.att == if shared then old(be.att)[q := old(be.att)[donor][..n]] else old(be.att)
      ensures be.Tips() == if shared then old(be.Tips())[q := be.att[q]] else old(be.Tips())
      ensures asked == old(asked) + [Prefix(donor, q, n)]
      ensures be.StagedRows() == old(be.StagedRows())
    {
      asked := asked + [Prefix(donor, q, n)];
      ghost var att := be.att;
      FeedExtends(be.att, be.batch, q);
      shared := be.SharePrefix(donor, q, n);
      // The call may report success and do nothing, so what is cached decides.
      shared := shared && be.CachedThrough(q) == n - 1;
      if shared {
        FeedApart(att, be.batch, q, att[donor][..n]);
        RowsApart(att, be.batch, q, att[donor][..n]);
      }
    }

    /** The donor's cells are the borrower's own tokens. */
    lemma DonorCached(table0: map<nat, Slot>, q: nat, donor: nat, n: nat)
      requires Staging() && AllSteady(table0, active, be.att, be.Tips()) && q in active && donor in active
      requires n == Lendable(active[q], active[donor]) > 0
      ensures donor < be.nSeqMax && n <= |be.att[donor]| && be.att[donor][..n] == active[q].req.prompt[..n]
    {
      Look(donor);
      assert Steady(table0[donor], active[donor], be.att[donor], be.Tips()[donor]);
      FeedExtends(be.att, be.batch, donor);
      DonorHolds(active[donor], plain, DraftBound(), rewinder, donor, be.Tips()[donor], be.chains[donor],
                 be.ckpt[donor], be.StagedRows(), be.att[donor], n);
    }

    /** Takes over a prefix the cache now holds. */
    method Adopt(q: nat, n: nat, ghost tips: seq<seq<Token>>)
      requires be.Valid() && Known(active, tips, be.ckpt, be.StagedRows()) && q in active
      requires var s := active[q]; !s.primed && !s.hasLogits && s.pos == 0 && n < |s.req.prompt|
      requires OnlyFor(q, tips, be.StagedRows()) && be.Tips()[q] == active[q].req.prompt[..n]
      modifies this`active
      ensures Staging()
      ensures n <= |old(active)[q].pending| && active == old(active)[q := WithPrefix(old(active)[q], n)]
    {
      assert Held(active[q], plain, DraftBound(), rewinder, q, tips[q], be.chains[q], be.ckpt[q],
                  be.StagedRows());
      PrefixHeld(active[q], plain, DraftBound(), rewinder, q, tips[q], be.chains[q], be.ckpt[q],
                 be.StagedRows(), n);
      Put(q, WithPrefix(active[q], n), tips, be.ckpt, be.StagedRows());
    }

    /** Shares a donor's first `n` cells, which are the borrower's own tokens. */
    method ShareFrom(q: nat, donor: nat, n: nat, ghost table0: map<nat, Slot>)
      requires Staging() && AllSteady(table0, active, be.att, be.Tips()) && q in active && be.shares
      requires !active[q].primed && active[q].pos == 0 && 0 < n < |active[q].req.prompt|
      requires donor < be.nSeqMax && donor != q
      requires n <= |be.att[donor]| && be.att[donor][..n] == active[q].req.prompt[..n]
      modifies this`active, be`att, be`rec, this`asked
      ensures Staging() && AllSteady(table0, active, be.att, be.Tips())
      ensures n <= |old(active)[q].pending|
      ensures active == old(active) || active == old(active)[q := WithPrefix(old(active)[q], n)]
      ensures asked == old(asked) + [Prefix(donor, q, n)]
    {
      ghost var tips, att := be.Tips(), be.att;
      assert Known(active, tips, be.ckpt, be.StagedRows());
      Look(q);
      assert Steady(table0[q], active[q], be.att[q], be.Tips()[q]);
      var shared := Borrow(q, donor, n);
      if shared {
        Adopt(q, n, tips);
        SteadyOne(table0, old(active), active, q, att, be.att, tips, be.Tips());
      }
    }

    /** Lends a fresh slot the longest prefix some live sequence already holds. */
    method ShareInto(q: nat, ghost table0: map<nat, Slot>)
      requires Staging() && AllSteady(table0, active, be.att, be.Tips()) && q in active && be.shares
      requires !active[q].primed && active[q].pos == 0
      modifies this`active, be`att, be`rec, this`asked
      ensures Staging() && AllSteady(table0, active, be.att, be.Tips())
      ensures active == old(active)
              || exists n: nat ::
                n <= |old(active)[q].pending| && active == old(active)[q := WithPrefix(old(active)[q], n)]
      ensures asked == old(asked) || exists donor, n :: BestLoan(old(active), q, donor, n)
                                                        && asked == old(asked) + [Prefix(donor, q, n)]
      ensures (exists d :: LendsEnough(old(active), q, d)) ==> asked != old(asked)
    {
      var donor, n := BestDonor(be.nSeqMax, active, q);
      if n >= MIN_SHARED_PREFIX {
        DonorCached(table0, q, donor, n);
        ShareFrom(q, donor, n, table0);
      }
    }

    // ----- Verifying the drafts -----

    /** One draw: what the sampler chose, handed to the caller unless it ends the stream. */
    method DrawOne(q: nat, idx: nat, s: Slot) returns (s': Slot, verdict: Verdict, ghost steps: nat)
      requires be.Valid() && q < be.nSeqMax && Decodes(plain, be.m) && Open(s, plain)
      requires be.chains[q] == plain(s.req, s.generated).chain
      requires idx < |be.rows| && be.rows[idx] == Row(q, true, Base(s, plain), Base(s, plain))
      modifies be`chains
      ensures be.Valid() && be.chains == old(be.chains)[q := be.chains[q]]
      ensures s' == s.(next := s'.next, generated := s'.generated, buf := s'.buf, text := s'.text,
                    events := s'.events, cancelled := s'.cancelled)
      ensures s.cancelled ==> s'.cancelled
      ensures verdict.Continue? ==>
                && Open(s', plain) && s'.generated == s.generated + 1
                && plain(s.req, s'.generated).emitted == plain(s.req, s.generated).emitted + [s'.next]
                && be.chains[q] == plain(s.req, s'.generated).chain
                && s'.next == plain(s.req, s'.generated).emitted[s'.generated - 1]
                && !HitStop(s'.text, s'.req.stop) && !LimitReached(s'.req, s'.generated)
      ensures !verdict.Continue? ==>
                && Complete(s', plain, steps) && steps == s.generated + 1
                && plain(s.req, s.generated).emitted <= plain(s.req, steps).emitted
                && (verdict.Failure? ==> plain(s.req, steps).status.Broken?)
                && (verdict.Stop? ==>
                      && plain(s.req, steps).status == Ended(verdict.reason)
                      && verdict.reason in {EndOfText, Length, StopSequence})
    {
      DecoderSteps(plain, be.m, s.req, s.generated);
      ghost var g := plain(s.req, s.generated);
      s', steps := s, s.generated + 1;
      var drawn := be.SampleAt(q, idx);
      if drawn.None? {
        return s', Failure, steps;
      }
      var tok := drawn.value;
      if be.m.eos >= 0 && tok == be.m.eos {
        return s', Stop(EndOfText), steps;
      }
      var piece := be.m.piece(tok);
      if piece.None? {
        return s', Failure, steps;
      }
      s' := AcceptToken(s, tok, piece.value, g);
      var hit := StopHit(s');
      if hit {
        return s', Stop(StopSequence), steps;
      }
      if s'.req.maxTokens > 0 && s'.generated >= s'.req.maxTokens {
        return s', Stop(Length), steps;
      }
      verdict := Continue;
    }

    /** Drawing tells the caller more and changes nothing else. */
    ghost predicate OnlyTold(s: Slot, s': Slot) {
      && s' == s.(next := s'.next, generated := s'.generated, buf := s'.buf, text := s'.text,
               events := s'.events, cancelled := s'.cancelled)
      && (s.cancelled ==> s'.cancelled)
    }

    /** Samples each staged position in order and accepts the longest run of drafts the model agrees
        with.  The token at a divergence is the model's own choice. */
    method Verify(q: nat, s: Slot) returns (s': Slot, accepted: nat, verdict: Verdict, ghost steps: nat)
      requires be.Valid() && q < be.nSeqMax && Decodes(plain, be.m) && Open(s, plain)
      requires be.chains[q] == plain(s.req, s.generated).chain
      requires Rowed(q, Base(s, plain), s.draft, s.specIdx, be.rows)
      modifies be`chains
      ensures be.Valid() && be.chains == old(be.chains)[q := be.chains[q]]
      ensures OnlyTold(s, s') && accepted <= |s.draft|
      ensures verdict.Continue? ==>
                && WentFar(s, s')
                && Open(s', plain) && s'.generated == s.generated + accepted + 1
                && Base(s', plain) == Base(s, plain) + s.draft[..accepted] + [s'.next]
                && be.chains[q] == plain(s.req, s'.generated).chain
                && s'.next == plain(s.req, s'.generated).emitted[s'.generated - 1]
                && !HitStop(s'.text, s'.req.stop) && !LimitReached(s'.req, s'.generated)
      ensures !verdict.Continue? ==>
                && Complete(s', plain, steps) && steps == s.generated + accepted + 1
                && plain(s.req, s.generated).emitted + s.draft[..accepted] <= plain(s.req, steps).emitted
                && (verdict.Failure? ==> plain(s.req, steps).status.Broken?)
                && (verdict.Stop? ==>
                      && plain(s.req, steps).status == Ended(verdict.reason)
                      && verdict.reason in {EndOfText, Length, StopSequence})
    {
      s', accepted, verdict, steps := s, 0, Continue, 0;
      ghost var base := Base(s, plain);
      assert base + s.draft[..0] == base;
      while true
        invariant be.Valid() && be.chains == old(be.chains)[q := be.chains[q]]
        invariant Agreed(q, s, s', accepted, base)
        decreases |s.draft| - accepted
      {
        var agrees;
        s', verdict, steps, agrees := VerifyNext(q, s, s', accepted, base);
        if !agrees {
          return;
        }
        accepted := accepted + 1;
      }
    }

    /** The model has chosen `accepted` of the drafts, and the stream goes on. */
    ghost predicate Agreed(q: nat, s: Slot, s': Slot, accepted: nat, base: seq<Token>)
      requires be.Valid() && q < be.nSeqMax
      reads this, be
    {
      && accepted <= |s.draft| && OnlyTold(s, s')
      && Open(s', plain) && s'.generated == s.generated + accepted
      && Base(s', plain) == base + s.draft[..accepted]
      && be.chains[q] == plain(s.req, s'.generated).chain
    }

    lemma SameEmitted(prompt: seq<Token>, emitted: seq<Token>, more: seq<Token>, emitted': seq<Token>)
      requires prompt + emitted' == prompt + emitted + more
      ensures emitted' == emitted + more
    {
      assert (prompt + emitted')[|prompt|..] == emitted';
      assert (prompt + emitted + more)[|prompt|..] == emitted + more;
    }

    /** Draws after the drafts agreed on; says whether the draw is the next draft. */
    method VerifyNext(q: nat, s: Slot, s0: Slot, accepted: nat, ghost base: seq<Token>)
      returns (s': Slot, verdict: Verdict, ghost steps: nat, agrees: bool)
      requires be.Valid() && q < be.nSeqMax && Decodes(plain, be.m) && Agreed(q, s, s0, accepted, base)
      requires base == Base(s, plain) && Rowed(q, base, s.draft, s.specIdx, be.rows)
      modifies be`chains
      ensures be.Valid() && be.chains == old(be.chains)[q := be.chains[q]]
      ensures OnlyTold(s, s')
      ensures verdict.Continue? ==>
                && Open(s', plain) && s'.generated == s.generated + accepted + 1
                && Base(s', plain) == base + s.draft[..accepted] + [s'.next]
                && be.chains[q] == plain(s.req, s'.generated).chain
                && s'.next == plain(s.req, s'.generated).emitted[s'.generated - 1]
                && !HitStop(s'.text, s'.req.stop) && !LimitReached(s'.req, s'.generated)
      ensures !verdict.Continue? ==>
                && Complete(s', plain, steps) && steps == s.generated + accepted + 1
                && plain(s.req, s.generated).emitted + s.draft[..accepted] <= plain(s.req, steps).emitted
                && (verdict.Failure? ==> plain(s.req, steps).status.Broken?)
                && (verdict.Stop? ==>
                      && plain(s.req, steps).status == Ended(verdict.reason)
                      && verdict.reason in {EndOfText, Length, StopSequence})
      ensures verdict.Continue? && !agrees ==> WentFar(s, s')
      ensures agrees <==> verdict.Continue? && accepted < |s.draft| && s.draft[accepted] == s'.next
      ensures agrees ==> Agreed(q, s, s', accepted + 1, base)
    {
      SameEmitted(s.req.prompt, plain(s.req, s.generated).emitted, s.draft[..accepted],
                  plain(s.req, s0.generated).emitted);
      s', verdict, steps := DrawOne(q, s.specIdx[accepted], s0);
      agrees := verdict.Continue? && accepted < |s.draft| && s.draft[accepted] == s'.next;
      assert agrees ==> s.draft[..accepted + 1] == s.draft[..accepted] + [s'.next];
    }

    /** Takes back the positions the model did not choose.  State without positions can only be
        restored to where the step began, so what was kept of the step is left to be replayed. */
    method TakeBack(q: nat, s: Slot, kept: nat, ghost base: seq<Token>) returns (s': Slot, ok: bool)
      requires be.Valid() && be.att == be.rec && q < be.nSeqMax
      requires 0 < kept <= |s.draft| && s.replay == []
      requires be.att[q] == base + s.draft && s.pos == |be.att[q]| && |s.specIdx| == |s.draft| + 1
      requires Rewindable(s, rewinder, base, be.ckpt[q])
      modifies be`att, be`rec, this`speculationUnusable, this`drafting
      ensures be.Valid() && be.att == be.rec
      ensures be.att == old(be.att)[q := be.att[q]]
      ensures s' == s.(pos := s'.pos, replay := s'.replay)
      ensures ok ==>
                && s'.pos == |be.att[q]| >= |base| - 1
                && |s'.replay| <= kept
                && be.att[q] + s'.replay == base + s.draft[..kept - 1]
      ensures be.positional || (rewinder && be.restores) ==> ok
    {
      s' := s.(pos := s.pos - (|s.specIdx| - kept));
      assert (base + s.draft)[..|base| - 1] == base[..|base| - 1];
      assert (base + s.draft)[..s'.pos] == base + s.draft[..kept - 1];
      assert base[..|base| - 1] + s.committed[..kept] == base + s.draft[..kept - 1] by {
        assert s.committed[..kept] == s.committed[..1] + s.draft[..kept - 1];
        assert base == base[..|base| - 1] + base[|base| - 1..];
      }
      var rolledBack := false;
      if rewinder {
        rolledBack := be.Rollback(q, s.replayFrom);
        if rolledBack {
          s' := s'.(replay := s.committed[..kept], pos := s.replayFrom);
        }
      }
      ok := rolledBack;
      if !rolledBack {
        ok := be.TrimSeq(q, s'.pos);
        if !ok {
          speculationUnusable := true;
          drafting := false;
        }
      }
    }

    /** Configures the sampler before the first draw of a stream. */
    method EnsureSampling(q: nat, s: Slot) returns (s': Slot, ok: bool)
      requires be.Valid() && q < be.nSeqMax && Decodes(plain, be.m) && Open(s, plain)
      requires s.sampledOnce <==> s.generated > 0
      requires s.sampledOnce ==> be.chains[q] == plain(s.req, s.generated).chain
      modifies be`chains
      ensures be.Valid() && be.chains == old(be.chains)[q := be.chains[q]]
      ensures s' == s.(sampledOnce := s'.sampledOnce)
      ensures ok ==> s'.sampledOnce && be.chains[q] == plain(s.req, s.generated).chain
      ensures be.faultless ==> ok
    {
      s', ok := s, true;
      if !s.sampledOnce {
        DecoderSteps(plain, be.m, s.req, 0);
        ok := be.SetSampling(q, s.req.sampling);
        if ok {
          s' := s.(sampledOnce := true);
        }
      }
    }

    /** Takes back what was staged past the drafts that were accepted, if anything was. */
    method Retract(q: nat, s: Slot, accepted: nat, ghost base: seq<Token>) returns (s': Slot, ok: bool)
      requires be.Valid() && be.att == be.rec && q < be.nSeqMax && accepted <= |s.draft| <= DraftBound()
      requires be.att[q] == base + s.draft && s.pos == |be.att[q]| && |s.specIdx| == |s.draft| + 1 && s.replay == []
      requires Rewindable(s, rewinder, base, be.ckpt[q])
      modifies be`att, be`rec, this`speculationUnusable, this`drafting
      ensures be.Valid() && be.att == be.rec
      ensures be.att == old(be.att)[q := be.att[q]]
      ensures s' == s.(pos := s'.pos, replay := s'.replay)
      ensures ok ==>
                && s'.pos == |be.att[q]| && (s.draft != [] ==> |be.att[q]| >= |base| - 1)
                && (s.draft == [] ==> be.att[q] == base)
                && |s'.replay| <= DraftBound()
                && be.att[q] + s'.replay == base + s.draft[..accepted]
      ensures TakesBack() ==> ok
    {
      s', ok := s, true;
      if accepted + 1 < |s.specIdx| {
        s', ok := TakeBack(q, s, accepted + 1, base);
      } else {
        assert s.draft[..accepted] == s.draft;
      }
    }

    /** A stream that goes on gives up its rejected drafts and is idle again. */
    method GoOn(q: nat, s: Slot, s0: Slot, accepted: nat) returns (s': Slot, ok: bool)
      requires be.Valid() && be.att == be.rec && q < be.nSeqMax && OnlyTold(s, s0)
      requires Open(s, plain) && s.primed && s.sampledOnce && s.pending == [] && s.replay == []
      requires s.pos == |be.att[q]| && be.att[q] == Base(s, plain) + s.draft && |s.draft| <= DraftBound()
      requires s.draft != [] ==> s.generated > 0
      requires Rewindable(s, rewinder, Base(s, plain), be.ckpt[q]) && |s.specIdx| == |s.draft| + 1
      requires accepted <= |s.draft| && s0.generated == s.generated + accepted + 1 && Open(s0, plain)
      requires Base(s0, plain) == Base(s, plain) + s.draft[..accepted] + [s0.next]
      requires be.chains[q] == plain(s.req, s0.generated).chain
      requires s0.next == plain(s.req, s0.generated).emitted[s0.generated - 1]
      modifies be`att, be`rec, this`speculationUnusable, this`drafting
      ensures be.Valid() && be.att == be.rec && be.att == old(be.att)[q := be.att[q]]
      ensures s' == s0.(pos := s'.pos, replay := s'.replay) && Open(s', plain)
      ensures ok ==> Idle(s', plain, DraftBound(), be.att[q], be.chains[q])
      ensures TakesBack() ==> ok
    {
      s', ok := Retract(q, s0, accepted, Base(s, plain));
      if ok {
        VerifiedIdle(s, s', plain, DraftBound(), be.att[q], be.chains[q], accepted);
      }
    }

    /** Verifies what one slot staged and takes back what the model did not choose. */
    method Advance(q: nat, s: Slot) returns (s': Slot, verdict: Verdict, ghost steps: nat)
      requires be.Valid() && be.att == be.rec && q < be.nSeqMax && Decodes(plain, be.m)
      requires Open(s, plain) && s.primed && s.sampledOnce && s.pending == [] && s.replay == []
      requires be.chains[q] == plain(s.req, s.generated).chain
      requires s.pos == |be.att[q]| && be.att[q] == Base(s, plain) + s.draft && |s.draft| <= DraftBound()
      requires s.draft != [] ==> s.generated > 0
      requires Rewindable(s, rewinder, Base(s, plain), be.ckpt[q])
      requires Rowed(q, Base(s, plain), s.draft, s.specIdx, be.rows)
      modifies be`att, be`rec, be`chains, this`speculationUnusable, this`drafting
      ensures be.Valid() && be.att == be.rec
      ensures be.att == old(be.att)[q := be.att[q]] && be.chains == old(be.chains)[q := be.chains[q]]
      ensures s'.req == s.req && s'.patient == s.patient && s'.pending == s.pending
      ensures s'.patient ==> !s'.cancelled
      ensures verdict.Failure? ==>
                || (Complete(s', plain, steps) && plain(s'.req, steps).status.Broken?)
                || (!TakesBack() && (Open(s', plain) || Complete(s', plain, steps)))
      ensures verdict.Stop? ==>
                && Complete(s', plain, steps)
                && plain(s.req, steps).status == Ended(verdict.reason)
                && verdict.reason in {EndOfText, Length, StopSequence}
      ensures verdict.Continue? ==>
                && Idle(s', plain, DraftBound(), be.att[q], be.chains[q])
                && s'.primed && s'.generated > s.generated && WentFar(s, s')
                && !HitStop(s'.text, s'.req.stop) && !LimitReached(s'.req, s'.generated)
    {
      var accepted;
      s', accepted, verdict, steps := Verify(q, s);
      if verdict.Failure? {
        return;
      }
      var ok;
      if verdict.Continue? {
        s', ok := GoOn(q, s, s', accepted);
      } else {
        s', ok := Retract(q, s', accepted, Base(s, plain));
      }
      if !ok {
        verdict := Failure;
      }
    }

    /** Samples one slot that produced logits: the slot as it goes on, or how it ended. */
    method JudgeSlot(q: nat, s: Slot) returns (s': Slot, ending: Option<Ending>, ghost steps: nat)
      requires be.Valid() && be.att == be.rec && q < be.nSeqMax && Decodes(plain, be.m)
      requires Ready(s, plain, DraftBound(), rewinder, q, be.att[q], be.chains[q], be.ckpt[q], be.rows)
      requires fate.fallible <==> !(be.faultless && TakesBack())
      modifies be`att, be`rec, be`chains, this`speculationUnusable, this`drafting
      ensures be.Valid() && be.att == be.rec
      ensures be.att == old(be.att)[q := be.att[q]] && be.chains == old(be.chains)[q := be.chains[q]]
      ensures s'.req == s.req && s'.patient == s.patient && s'.pending == s.pending
      ensures s'.patient ==> !s'.cancelled
      ensures ending.Some? ==> Justified(s', plain, steps, be.nCtxSeq, fate, ending.value)
      ensures ending.None? ==>
                && Idle(s', plain, DraftBound(), be.att[q], be.chains[q]) && s'.primed && s'.generated > s.generated
                && s'.pos < be.nCtxSeq && WentFar(s, s')
    {
      ending, steps := None, s.generated;
      s' := Poll(s);
      if s'.cancelled {
        return s', Some(Stopped(Cancelled)), steps;
      }
      var ok;
      s', ok := EnsureSampling(q, s');
      if !ok {
        return s', Some(Failed), steps;
      }
      var verdict;
      s', verdict, steps := Advance(q, s');
      match verdict
      case Failure => ending := Some(Failed);
      case Stop(reason) => ending := Some(Stopped(reason));
      case Continue =>
        var hit := StopHit(s');
        if hit {
          ending := Some(Stopped(StopSequence));
        } else if s'.req.maxTokens > 0 && s'.generated >= s'.req.maxTokens {
          ending := Some(Stopped(Length));
        } else if s'.pos >= be.nCtxSeq {
          ending := Some(Stopped(ContextExhausted));
        }
    }

    ghost predicate Harvesting(todo: set<nat>)
      reads this, be
    {
      && Wired() && be.att == be.rec && Vacant()
      && HarvestedSoFar(active, todo, be.nSeqMax, plain, DraftBound(), rewinder, be.att, be.chains, be.ckpt, be.rows)
    }

    /** What is known of the slots when sequence `q` alone has moved on. */
    ghost predicate Judged(q: nat, todo: set<nat>, att: seq<seq<Token>>, chains: seq<Chain>)
      reads this, be
    {
      && Wired() && be.att == be.rec && Vacant() && q in active
      && |att| == |chains| == be.nSeqMax
      && be.att == att[q := be.att[q]] && be.chains == chains[q := be.chains[q]]
      && HarvestedSoFar(active, todo, be.nSeqMax, plain, DraftBound(), rewinder, att, chains, be.ckpt, be.rows)
    }

    /** Stores a slot that goes on. */
    method Keep(q: nat, s: Slot, ghost todo: set<nat>, ghost att: seq<seq<Token>>, ghost chains: seq<Chain>)
      requires Judged(q, todo, att, chains)
      requires Idle(s, plain, DraftBound(), be.att[q], be.chains[q]) && SameAsk(s, active[q])
      modifies this`active
      ensures Harvesting(todo - {q})
      ensures active == old(active)[q := s]
    {
      CensusPut(census, be.nSeqMax, active, q, s, queue, over);
      active := active[q := s];
      assert active.Keys == old(active.Keys);
      SampledOne(old(active), active, todo, q, be.nSeqMax, plain, DraftBound(), rewinder,
                 att, be.att, chains, be.chains, be.ckpt, be.ckpt, be.rows);
    }

    /** Ends a stream whose slot has been looked at. */
    method End(q: nat, s: Slot, ghost steps: nat, ending: Ending, ghost todo: set<nat>,
               ghost att: seq<seq<Token>>, ghost chains: seq<Chain>)
      requires Judged(q, todo, att, chains)
      requires (s.patient ==> !s.cancelled) && Justified(s, plain, steps, be.nCtxSeq, fate, ending)
      requires SameAsk(s, active[q])
      modifies this`active, this`free, this`over, be`ckpt, be`att, be`rec, be`chains
      ensures Harvesting(todo - {q})
      ensures active == old(active) - {q} && NewFrom(map[q := s], old(over), over)
    {
      ghost var ckpt := be.ckpt;
      Finish(q, s, steps, ending);
      SampledOne(old(active), active, todo, q, be.nSeqMax, plain, DraftBound(), rewinder,
                 att, be.att, chains, be.chains, ckpt, be.ckpt, be.rows);
    }

    /** Samples one slot, if it has logits, and emits or ends its stream. */
    method HarvestSlot(q: nat, ghost todo: set<nat>)
      requires Harvesting(todo) && q in todo && q in active && Decodes(plain, be.m)
      modifies this`active, this`free, this`over, this`speculationUnusable, this`drafting
      modifies be`att, be`rec, be`chains, be`ckpt
      ensures Harvesting(todo - {q})
      ensures active == old(active) - {q} || (q in active && active == old(active)[q := active[q]])
      ensures q in active ==> Harvested(old(active)[q], active[q])
      ensures q in active && old(active)[q].hasLogits ==>
                active[q].pos < be.nCtxSeq && WentFar(old(active)[q], active[q])
      ensures NewFrom(old(active), old(over), over)
    {
      ghost var att, chains := be.att, be.chains;
      var s := active[q];
      assert Held(s, plain, DraftBound(), rewinder, q, be.att[q], be.chains[q], be.ckpt[q], be.rows);
      if !s.hasLogits {
        SampledOne(active, active, todo, q, be.nSeqMax, plain, DraftBound(), rewinder,
                   att, att, chains, chains, be.ckpt, be.ckpt, be.rows);
        return;
      }
      SampleSlot(q, s, todo);
    }

    /** Samples a slot that has rows, and goes on with it or ends it. */
    method SampleSlot(q: nat, s: Slot, ghost todo: set<nat>)
      requires Harvesting(todo) && q in todo && q in active && active[q] == s && s.hasLogits && Decodes(plain, be.m)
      requires Held(s, plain, DraftBound(), rewinder, q, be.att[q], be.chains[q], be.ckpt[q], be.rows)
      modifies this`active, this`free, this`over, this`speculationUnusable, this`drafting
      modifies be`att, be`rec, be`chains, be`ckpt
      ensures Harvesting(todo - {q})
      ensures active == old(active) - {q} || (q in active && active == old(active)[q := active[q]])
      ensures q in active ==>
                Harvested(s, active[q]) && active[q].pos < be.nCtxSeq && WentFar(s, active[q])
      ensures NewFrom(old(active), old(over), over)
    {
      ghost var att, chains := be.att, be.chains;
      var s', ending, steps := JudgeSlot(q, s);
      if ending.Some? {
        End(q, s', steps, ending.value, todo, att, chains);
        NewFromChain(old(active), map[q := s'], old(over), old(over), over);
      } else {
        Keep(q, s', todo, att, chains);
      }
    }

    /** Samples every slot that produced logits, in any order. */
    method Harvest()
      requires Harvesting(active.Keys) && Decodes(plain, be.m)
      modifies this`active, this`free, this`over, this`speculationUnusable, this`drafting
      modifies be`att, be`rec, be`chains, be`ckpt
      ensures Harvesting({}) && AllHarvested(old(active), active, {})
      ensures NewFrom(old(active), old(over), over)
    {
      ghost var table0 := active;
      var todo := active.Keys;
      while todo != {}
        invariant Harvesting(todo) && AllHarvested(table0, active, todo)
        invariant NewFrom(table0, old(over), over)
      {
        var q :| q in todo;
        ghost var table, before := active, over;
        HarvestSlot(q, todo);
        HarvestedOne(table0, table, active, todo, q);
        HarvestedAsk(table0, table, todo);
        NewFromChain(table0, table, old(over), before, over);
        todo := todo - {q};
      }
    }

    // ----- One tick -----

    /** The batch has room for every stream to feed a token and draft in full. */
    predicate Ample() {
      Share(be.nSeqMax) <= be.batchCap
    }

    /** The entries that `k` streams may stage among them. */
    function Share(k: nat): nat {
      k * (DraftBound() + 1)
    }

    /** Until every stream has staged its share there is room for one more. */
    lemma RoomForOne(staged: set<nat>, q: nat)
      requires Partition(be.nSeqMax, free, active.Keys)
      requires staged <= active.Keys && q in active && q !in staged
      ensures Share(|staged + {q}|) == Share(|staged|) + DraftBound() + 1
      ensures Ample() ==> Share(|staged|) + DraftBound() + 1 <= be.batchCap
    {
      IdCount(staged + {q}, be.nSeqMax);
      Product(|staged| + 1, be.nSeqMax, DraftBound() + 1);
    }

    /** Empties the batch and forgets the last tick's logits. */
    method BeginTick()
      requires AtRest()
      modifies this`active, be`batch
      ensures Staging() && be.batch == []
      ensures AllSteady(old(active), active, be.att, be.Tips())
      ensures AllUnvisited(active, active.Keys, be.att, be.Tips())
    {
      be.BatchClear();
      ghost var table := active;
      active := map q | q in active :: active[q].(hasLogits := false);
      CensusSame(census, be.nSeqMax, table, active, queue, over);
      assert active.Keys == old(active.Keys);
      FlagsCleared(old(active), active, be.nSeqMax, plain, DraftBound(), rewinder, be.att, be.chains,
                   be.ckpt, []);
    }

    /** Pass 1 under way. */
    ghost predicate Visiting(table0: map<nat, Slot>, todo: set<nat>)
      reads this, be
    {
      && Staging()
      && AllSteady(table0, active, be.att, be.Tips())
      && AllUnvisited(active, todo, be.att, be.Tips())
    }

    /** Stages one stream of pass 1 and keeps what is known of the others. */
    method StageVisited(q: nat, ghost todo: set<nat>, ghost table0: map<nat, Slot>)
      requires Visiting(table0, todo) && q in active && active[q].primed && !active[q].hasLogits
      requires be.Tips()[q] == be.att[q] && |be.batch| < be.batchCap && q !in todo
      modifies this`active, this`checkpointFailed, this`asked, be`batch, be`ckpt
      ensures Visiting(table0, todo)
      ensures active.Keys == old(active.Keys) && active[q].primed
      ensures forall p :: p in active && p != q ==> active[p] == old(active)[p]
      ensures |be.batch| <= old(|be.batch|) + DraftBound() + 1
      ensures old(|be.batch|) + DraftBound() + 1 <= be.batchCap ==> active[q].hasLogits
    {
      ghost var table, tips := active, be.Tips();
      StageStream(q);
      SteadyOne(table0, table, active, q, be.att, be.att, tips, be.Tips());
      UnvisitedOne(table, active, todo, q, be.att, tips, be.Tips());
      assert todo - {q} == todo;
    }

    /** Visits one stream of pass 1; says whether the batch is full. */
    method VisitStream(q: nat, ghost todo: set<nat>, ghost table0: map<nat, Slot>) returns (full: bool)
      requires Visiting(table0, todo) && q in todo && active[q].primed
      modifies this`active, this`checkpointFailed, this`asked, be`batch, be`ckpt
      ensures Visiting(table0, todo - {q})
      ensures active.Keys == old(active.Keys) && active[q].primed
      ensures forall p :: p in active && p != q ==> active[p] == old(active)[p]
      ensures full ==> |be.batch| >= be.batchCap
      ensures |be.batch| <= old(|be.batch|) + DraftBound() + 1
      ensures old(|be.batch|) + DraftBound() + 1 <= be.batchCap ==>
                !full && (active[q].hasLogits || !active[q].patient)
    {
      ghost var table, tips := active, be.Tips();
      assert Unvisited(active[q], be.att[q], be.Tips()[q]);
      var ended := PollSlot(q);
      SteadyOne(table0, table, active, q, be.att, be.att, tips, tips);
      UnvisitedOne(table, active, todo, q, be.att, tips, tips);
      full := !ended && |be.batch| >= be.batchCap;
      if !ended && !full {
        StageVisited(q, todo - {q}, table0);
      }
    }

    /** Pass 1 so far: of the streams visited, `staged` were past their prompts, and if the batch has
        room for all each of them has fed its token. */
    ghost predicate StagedSoFar(table0: map<nat, Slot>, todo: set<nat>, staged: set<nat>)
      reads this, be
    {
      Visiting(table0, todo) && |be.batch| <= Share(|staged|) && Fed(active, todo, staged, Ample())
    }

    method StageNext(q: nat, ghost table0: map<nat, Slot>, ghost todo: set<nat>, ghost staged0: set<nat>)
      returns (full: bool, ghost staged: set<nat>)
      requires StagedSoFar(table0, todo, staged0) && q in todo
      modifies this`active, this`checkpointFailed, this`asked, be`batch, be`ckpt
      ensures Staging() && AllSteady(table0, active, be.att, be.Tips())
      ensures active.Keys == old(active.Keys)
      ensures !full ==> StagedSoFar(table0, todo - {q}, staged)
      ensures full ==> !Ample()
    {
      full, staged := false, staged0;
      ghost var table := active;
      if active[q].primed {
        RoomForOne(staged, q);
        full := VisitStream(q, todo, table0);
        staged := staged + {q};
      }
      if !full {
        FedMore(table, active, todo, staged0, staged, q, Ample());
      }
    }

    /** Pass 1: the streams that are past their prompts, in any order. */
    method StageStreams(ghost table0: map<nat, Slot>)
      requires Visiting(table0, active.Keys) && be.batch == []
      modifies this`active, this`checkpointFailed, this`asked, be`batch, be`ckpt
      ensures Staging() && AllSteady(table0, active, be.att, be.Tips())
      ensures Ample() ==>
                && Prompt(active)
                && ((exists q :: q in active && !active[q].primed) ==> |be.batch| < be.batchCap)
    {
      var todo := active.Keys;
      ghost var staged: set<nat> := {};
      while todo != {}
        invariant StagedSoFar(table0, todo, staged)
      {
        var q :| q in todo;
        var full;
        full, staged := StageNext(q, table0, todo, staged);
        if full {
          return;
        }
        todo := todo - {q};
      }
      if q :| q in active && !active[q].primed {
        RoomForOne(staged, q);
      }
    }

    /** Lends one fresh slot a prefix, if there is one to lend. */
    method ShareOne(q: nat, ghost table0: map<nat, Slot>)
      requires Staging() && AllSteady(table0, active, be.att, be.Tips()) && q in active && be.shares
      modifies this`active, be`att, be`rec, this`asked
      ensures Staging() && AllSteady(table0, active, be.att, be.Tips())
      ensures active.Keys == old(active.Keys)
      ensures forall p :: p in active && (p != q || old(active)[p].primed) ==> active[p] == old(active)[p]
    {
      if active[q].primed || active[q].pos != 0 {
        return;
      }
      ghost var table := active;
      var ended := PollSlot(q);
      SteadyOne(table0, table, active, q, be.att, be.att, be.Tips(), be.Tips());
      if !ended {
        ShareInto(q, table0);
      }
    }

    /** Between the passes: fresh slots adopt prefixes other live sequences hold. */
    method SharePrefixes(ghost table0: map<nat, Slot>)
      requires Staging() && AllSteady(table0, active, be.att, be.Tips())
      modifies this`active, be`att, be`rec, this`asked
      ensures Staging() && AllSteady(table0, active, be.att, be.Tips())
      ensures active.Keys == old(active.Keys)
      ensures forall p :: p in active && old(active)[p].primed ==> active[p] == old(active)[p]
    {
      if !be.shares {
        return;
      }
      var todo := active.Keys;
      while todo != {}
        invariant Staging() && AllSteady(table0, active, be.att, be.Tips())
        invariant todo <= active.Keys == old(active.Keys)
        invariant forall p :: p in active && old(active)[p].primed ==> active[p] == old(active)[p]
      {
        var q :| q in todo;
        todo := todo - {q};
        ShareOne(q, table0);
      }
    }

    /** Prefills one stream whose caller is still there. */
    method PrefillPolled(q: nat, ghost table0: map<nat, Slot>)
      requires Staging() && AllOnward(table0, active) && q in active && Decodes(plain, be.m)
      requires !active[q].primed && !active[q].hasLogits
      modifies this`active, be`batch
      ensures Staging() && AllOnward(table0, active)
      ensures q in active && active == old(active)[q := active[q]] && Onward(old(active)[q], active[q])
      ensures old(|be.batch|) < be.batchCap ==> |active[q].pending| < |old(active)[q].pending|
    {
      ghost var table := active;
      DecoderSteps(plain, be.m, active[q].req, 0);
      PrefillStream(q);
      OnwardOne(table0, table, active, q);
    }

    /** Prefills one stream, unless its caller is gone. */
    method PrefillOne(q: nat, ghost table0: map<nat, Slot>)
      requires Staging() && AllOnward(table0, active) && q in active && Decodes(plain, be.m)
      requires !active[q].primed && !active[q].hasLogits
      modifies this`active, be`batch
      ensures Staging() && AllOnward(table0, active)
      ensures q in active && active == old(active)[q := active[q]] && Onward(old(active)[q], active[q])
      ensures old(|be.batch|) < be.batchCap ==>
                || |active[q].pending| < |old(active)[q].pending|
                || (|be.batch| == old(|be.batch|) && !active[q].patient)
    {
      var ended := PollOnward(q, table0);
      if !ended {
        PrefillPolled(q, table0);
      }
    }

    method PollOnward(q: nat, ghost table0: map<nat, Slot>) returns (ended: bool)
      requires Staging() && AllOnward(table0, active) && q in active
      modifies this`active
      ensures Staging() && AllOnward(table0, active)
      ensures active == old(active)[q := old(active)[q].(cancelled := ended)]
      ensures old(active)[q].cancelled ==> ended
      ensures old(active)[q].patient ==> !ended
    {
      ghost var table := active;
      ended := PollSlot(q);
      OnwardOne(table0, table, active, q);
    }

    /** Pass 2 so far: streams past their prompts are as they were in `table1`, and as long as none was
        fed, `mover` being one that was, the batch still has `staged` entries. */
    ghost predicate PrefilledSoFar(table0: map<nat, Slot>, table1: map<nat, Slot>, todo: set<nat>, staged: nat,
                                   mover: int)
      reads this, be
    {
      && Staging() && AllOnward(table0, active)
      && Prefilling(table0, table1, active, todo, mover, staged < be.batchCap, |be.batch| == staged)
    }

    method PrefillNext(q: nat, ghost table0: map<nat, Slot>, ghost table1: map<nat, Slot>, ghost todo: set<nat>,
                       ghost staged: nat, ghost mover0: int) returns (ghost mover: int)
      requires PrefilledSoFar(table0, table1, todo, staged, mover0) && q in todo && Decodes(plain, be.m)
      modifies this`active, be`batch
      ensures PrefilledSoFar(table0, table1, todo - {q}, staged, mover)
    {
      ghost var table, before := active, |be.batch|;
      assert Onward(table0[q], active[q]);
      if !active[q].primed {
        PrefillOne(q, table0);
      }
      mover := if |active[q].pending| < |table0[q].pending| then q else mover0;
      PrefillingMore(table0, table1, table, active, todo, q, mover0, mover, staged < be.batchCap,
                     before == staged, |be.batch| == staged);
    }

    /** Pass 2: prefill, in any order, chunked into whatever budget is left. */
    method PrefillStreams(ghost table0: map<nat, Slot>)
      requires Staging() && AllOnward(table0, active) && Decodes(plain, be.m)
      requires forall q :: q in active ==> active[q].primed || !active[q].hasLogits
      modifies this`active, be`batch
      ensures Staging() && AllOnward(table0, active)
      ensures forall p :: p in active && old(active)[p].primed ==> active[p] == old(active)[p]
      ensures old(|be.batch|) < be.batchCap ==>
                || (exists q :: q in active && |active[q].pending| < |table0[q].pending|)
                || (forall q :: q in active ==> old(active)[q].primed || !active[q].patient)
    {
      var todo := active.Keys;
      ghost var mover, table1, staged := -1, active, |be.batch|;
      while todo != {}
        invariant PrefilledSoFar(table0, table1, todo, staged, mover)
      {
        var q :| q in todo;
        mover := PrefillNext(q, table0, table1, todo, staged, mover);
        todo := todo - {q};
      }
    }

    /** The streams that are past their prompts, after the batch was emptied. */
    method FirstPass()
      requires AtRest()
      modifies this`active, this`checkpointFailed, this`asked, be`batch, be`ckpt
      ensures Staging() && AllSteady(old(active), active, be.att, be.Tips())
      ensures AllOnward(old(active), active) && (Ample() ==> Prompt(active))
      ensures Ample() && (exists q :: q in active && !active[q].primed) ==> |be.batch| < be.batchCap
    {
      ghost var table0 := active;
      BeginTick();
      StageStreams(table0);
      SteadyFacts(table0, active, be.att, be.Tips());
    }

    /** The fresh streams, with what is left of the batch. */
    method SecondPass(ghost table0: map<nat, Slot>)
      requires Staging() && AllSteady(table0, active, be.att, be.Tips()) && Decodes(plain, be.m)
      modifies this`active, be`batch, be`att, be`rec, this`asked
      ensures Staging() && AllOnward(table0, active)
      ensures forall q :: q in active && old(active)[q].primed ==> active[q] == old(active)[q]
      ensures old(|be.batch|) < be.batchCap ==>
                || (exists q :: q in active && |active[q].pending| < |table0[q].pending|)
                || (forall q :: q in active ==> old(active)[q].primed || !active[q].patient)
    {
      SteadyFacts(table0, active, be.att, be.Tips());
      SharePrefixes(table0);
      SteadyFacts(table0, active, be.att, be.Tips());
      PrefillStreams(table0);
    }

    /** Both passes: one shared batch, decode tokens first. */
    method StageBatch()
      requires AtRest() && Decodes(plain, be.m)
      modifies this`active, this`checkpointFailed, this`asked, be`batch, be`ckpt, be`att, be`rec
      ensures Staging() && AllOnward(old(active), active)
      ensures Ample() ==> Gaining(old(active), active)
    {
      ghost var table0 := active;
      FirstPass();
      ghost var table1 := active;
      SecondPass(table0);
      OnwardFacts(table0, table1);
      OnwardFacts(table0, active);
      if Ample() {
        GainingHolds(table0, table1, active);
      }
    }

    /** A pass with nothing staged: no slot has logits. */
    lemma NothingStaged()
      requires Staging() && be.batch == []
      ensures Harvesting(active.Keys)
    {
      forall q | q in active
        ensures Held(active[q], plain, DraftBound(), rewinder, q, be.att[q], be.chains[q], be.ckpt[q], be.rows)
      {
        Look(q);
      }
    }

    /** Ends the stream that has generated the most; its cells are the largest single reclaim. */
    method EvictOne()
      requires Wired() && fate.evicted && AllOpen(active, plain)
      modifies this`active, this`free, this`over, be`ckpt, be`att, be`rec, be`chains
      ensures Wired() && old(over) <= over
      ensures old(active) == map[] ==> active == map[] && over == old(over)
      ensures active == old(active) == map[] ||
              exists q :: q in old(active) && active == old(active) - {q}
                          && be.att == old(be.att)[q := []]
                          && (forall p :: p in old(active) ==> old(active)[p].generated <= old(active)[q].generated)
                          && (forall p :: p in active ==>
                                            be.chains[p] == old(be.chains)[p] && be.ckpt[p] == old(be.ckpt)[p])
                          && |over| == |old(over)| + 1 && SameAsk(over[|old(over)|].last, old(active)[q])
                          && over[|old(over)|].ending == Stopped(ContextExhausted)
    {
      if active == map[] {
        return;
      }
      var todo := active.Keys;
      var victim :| victim in todo;
      todo := todo - {victim};
      while todo != {}
        invariant todo <= active.Keys && victim in active
        invariant forall p :: p in active && p !in todo ==> active[p].generated <= active[victim].generated
      {
        var q :| q in todo;
        todo := todo - {q};
        if active[q].generated > active[victim].generated {
          victim := q;
        }
      }
      assert Open(active[victim], plain);
      Finish(victim, active[victim], active[victim].generated, Stopped(ContextExhausted));
    }

    /** Which slots still agree with their caches after the batch was refused. */
    ghost predicate SoundSlot(q: nat)
      requires be.Valid() && q in active && q < be.nSeqMax
      reads this, be
    {
      Idle(active[q], plain, DraftBound(), be.att[q], be.chains[q])
    }

    ghost predicate OnlyIdleOnesSound()
      requires be.Valid()
      reads this, be
    {
      forall q :: q in active && q < be.nSeqMax ==>
                    (SoundSlot(q) <==> forall e :: e in be.batch ==> e.seq_ != q)
    }

    lemma Refused()
      requires Staging()
      ensures AllOpen(active, plain) && OnlyIdleOnesSound()
    {
      assert Known(active, be.Tips(), be.ckpt, be.StagedRows());
      HeldIsOpen(active, be.nSeqMax, plain, DraftBound(), rewinder, be.Tips(), be.chains, be.ckpt, be.StagedRows());
      forall q | q in active ensures SoundSlot(q) <==> forall e :: e in be.batch ==> e.seq_ != q {
        Look(q);
        RefusedBatch(active[q], plain, DraftBound(), rewinder, q, be.att, be.batch, be.chains[q], be.ckpt[q]);
      }
    }

    /** The cache is full: one stream makes way.  The others keep what they staged on their books
        although it was never decoded, so exactly those that staged nothing are still in order. */
    method OnFullCache()
      requires Staging()
      modifies this`active, this`free, this`over, this`fate, be`ckpt, be`att, be`rec, be`chains
      ensures Wired() && AllOpen(active, plain) && old(over) <= over
      ensures OnlyIdleOnesSound()
    {
      NoteEviction();
      Refused();
      EvictSound();
    }

    /** Evicts one stream of those refused. */
    method EvictSound()
      requires Wired() && fate.evicted && AllOpen(active, plain) && OnlyIdleOnesSound()
      modifies this`active, this`free, this`over, be`ckpt, be`att, be`rec, be`chains
      ensures Wired() && AllOpen(active, plain) && old(over) <= over
      ensures OnlyIdleOnesSound()
    {
      ghost var table := active;
      label Before:
      EvictOne();
      StillOpen(table);
      StillSound@Before();
    }

    /** Evicting one stream leaves the others as they were. */
    twostate lemma StillSound()
      requires old(Wired()) && Wired() && old(OnlyIdleOnesSound()) && be.batch == old(be.batch)
      requires active == old(active) == map[] ||
               exists q :: q in old(active) && active == old(active) - {q} && be.att == old(be.att)[q := []]
                           && forall p :: p in active ==> be.chains[p] == old(be.chains)[p]
      ensures OnlyIdleOnesSound()
    {
      forall p | p in active && p < be.nSeqMax
        ensures SoundSlot(p) <==> forall e :: e in be.batch ==> e.seq_ != p
      {
        assert old(SoundSlot(p)) <==> forall e :: e in be.batch ==> e.seq_ != p;
      }
    }

    method NoteEviction()
      requires Staging()
      modifies this`fate
      ensures Staging() && fate.evicted
    {
      assert Known(active, be.Tips(), be.ckpt, be.StagedRows());
      var fate' := fate.(evicted := true);
      FinalLater(over, plain, be.nCtxSeq, fate, fate');
      fate := fate';
      assert Known(active, be.Tips(), be.ckpt, be.StagedRows());
    }

    lemma StillOpen(table: map<nat, Slot>)
      requires AllOpen(table, plain) && forall q :: q in active ==> q in table && active[q] == table[q]
      ensures AllOpen(active, plain)
    {
      forall q | q in active ensures Open(active[q], plain) {
        assert Open(table[q], plain);
      }
    }

    /** Every stream may fill the window it is admitted to, and draft, without the pool running out. */
    predicate Provisioned() {
      && 0 < Window() <= be.nCtxSeq
      && be.nSeqMax * Peak(Window(), DraftBound()) <= be.nCtx
      && Peak(Window(), DraftBound()) <= be.nCtxSeq
    }

    /** The tokens one request may occupy, prompt and output together. */
    function Window(): (tokens: nat)
      ensures tokens <= if be.nCtxSeq > 0 then be.nCtxSeq else be.nCtx
      ensures admitCtx > 0 ==> tokens <= admitCtx
      ensures tokens == (if be.nCtxSeq > 0 then be.nCtxSeq else be.nCtx) || 0 < tokens == admitCtx
    {
      var context := if be.nCtxSeq == 0 then be.nCtx else be.nCtxSeq;
      if 0 < admitCtx < context then admitCtx else context
    }

    lemma NeverFull()
      requires Staging() && Decodes(plain, be.m) && Provisioned() && AllReserved(active, Window())
      ensures !Overfull(be.Tips(), be.nCtx, be.nCtxSeq)
    {
      assert Known(active, be.Tips(), be.ckpt, be.StagedRows());
      PoolSuffices(active, be.nSeqMax, be.m, plain, DraftBound(), rewinder, be.Tips(), be.chains, be.ckpt,
                   be.StagedRows(), Window(), be.nCtx, be.nCtxSeq);
    }

    /** Runs the pass and gives every slot its rows. */
    method DecodeBatch() returns (status: DecodeStatus)
      requires Staging() && Decodes(plain, be.m)
      modifies be`att, be`rec, be`rows
      ensures status.Decoded? ==> Harvesting(active.Keys)
      ensures !status.Decoded? ==> Staging()
      ensures Provisioned() && AllReserved(active, Window()) ==> !status.NoSlot?
      ensures status.Fault? ==> !be.faultless
    {
      assert Known(active, be.Tips(), be.ckpt, be.StagedRows());
      if Provisioned() && AllReserved(active, Window()) {
        NeverFull();
      }
      status := be.Decode();
    }

    /** The first half of a tick: builds one batch and decodes it. */
    method Pass() returns (r: TickResult)
      requires AtRest() && Decodes(plain, be.m) && be.batchCap > 0
      modifies this`active, this`free, this`over, this`fate, this`checkpointFailed, this`asked, be
      ensures r.Ticked? ==>
                && Harvesting(active.Keys) && AllOnward(old(active), active)
                && (Ample() ==> Gaining(old(active), active))
                && fate == old(fate) && over == old(over)
      ensures !r.Ticked? ==> Wired() && AllOpen(active, plain)
      ensures r.Evicted? ==> OnlyIdleOnesSound()
      ensures r.DecodeFault? ==> !be.faultless
      ensures Provisioned() && AllReserved(old(active), Window()) ==> !r.Evicted?
      ensures old(over) <= over && !r.NoCapacity?
    {
      StageBatch();
      OnwardFacts(old(active), active);
      if |be.batch| == 0 {
        NothingStaged();
        return Ticked;
      }
      var status := DecodeBatch();
      if status.NoSlot? {
        OnFullCache();
        return Evicted;
      }
      if status.Fault? {
        assert Known(active, be.Tips(), be.ckpt, be.StagedRows());
        HeldIsOpen(active, be.nSeqMax, plain, DraftBound(), rewinder, be.Tips(), be.chains, be.ckpt, be.StagedRows());
        return DecodeFault;
      }
      r := Ticked;
    }

    /** Builds one batch, decodes it, and routes the results. */
    method Tick() returns (r: TickResult)
      requires AtRest() && Decodes(plain, be.m)
      modifies this`active, this`free, this`over, this`fate, this`checkpointFailed, this`asked,
               this`speculationUnusable, this`drafting, be
      ensures Wired() && AllOpen(active, plain) && old(over) <= over
      ensures r.NoCapacity? <==> be.batchCap <= 0
      ensures r.Ticked? || r.NoCapacity? ==>
                && AtRest() && Fewer(old(active), active) && fate == old(fate)
                && NewFrom(old(active), old(over), over)
      ensures r.Evicted? ==> OnlyIdleOnesSound()
      ensures r.DecodeFault? ==> !be.faultless
      ensures Provisioned() && AllReserved(old(active), Window()) ==> !r.Evicted?
      ensures r.Ticked? && Ample() && old(active) != map[]
              && (forall q :: q in old(active) ==> old(active)[q].patient && old(active)[q].req.maxTokens > 0)
              ==> Load(active, be.nSeqMax) < Load(old(active), be.nSeqMax)
    {
      IdleFacts(active, be.nSeqMax, be.m, plain, DraftBound(), be.att, be.chains);
      if be.batchCap <= 0 {
        return NoCapacity;
      }
      ghost var table0 := active;
      r := Pass();
      if r.Ticked? {
        ghost var table1 := active;
        Harvest();
        TickKeeps(table0, table1, active);
        OnwardFacts(table0, table1);
        NewFromChain(table0, table1, old(over), old(over), over);
        IdleFacts(active, be.nSeqMax, be.m, plain, DraftBound(), be.att, be.chains);
        if Ample() && table0 != map[] && forall q :: q in table0 ==> table0[q].patient && table0[q].req.maxTokens > 0 {
          TickGains(table0, table1, active, be.nSeqMax);
        }
      }
    }

    // ----- Admission -----

    /** How many prompt tokens a request may have, so that its output fits as well.  The arithmetic
        is that of 32-bit unsigned integers. */
    function PromptBudget(maxTokens: int): (budget: int)
      ensures maxTokens <= 0 ==> budget == if 512 < Window() then Window() - 512 else 0
      ensures 0 < maxTokens < 0x1_0000_0000 ==>
                budget == if maxTokens < Window() then Window() - maxTokens else 0
    {
      var reserve := if maxTokens > 0 then maxTokens % UINT32 else DEFAULT_OUTPUT_RESERVE;
      if reserve >= Window() then 0 else Window() - reserve
    }

    /** Prompt and output fit the window together, with both numbers as 32 bits hold them. */
    predicate FitsWindow(req: Request) {
      var prompt := |req.prompt| % UINT32;
      prompt == 0 || prompt + (if req.maxTokens > 0 then req.maxTokens % UINT32 else 512) <= Window()
    }

    predicate RoomInQueue()
      reads this
    {
      maxWait <= 0 || |queue| < maxWait
    }

    /** Queues a request, or says why not. */
    method Submit(req: Request, noSpeculate: bool, patient: bool) returns (r: SubmitResult)
      requires AtRest()
      modifies this`queue, this`ever
      ensures AtRest()
      ensures r.EmptyPrompt? <==> req.prompt == []
      ensures r.OverBudget? <==> req.prompt != [] && !FitsWindow(req)
      ensures r.EngineClosed? <==> req.prompt != [] && FitsWindow(req) && closed
      ensures r.QueueFull? <==> req.prompt != [] && FitsWindow(req) && !closed && !old(RoomInQueue())
      ensures 0 < req.maxTokens < 0x1_0000_0000 && |req.prompt| < 0x1_0000_0000 ==>
                (r.Accepted? <==> && req.prompt != [] && |req.prompt| + req.maxTokens <= Window()
                                  && !closed && old(RoomInQueue()))
      ensures req.maxTokens <= 0 && |req.prompt| < 0x1_0000_0000 ==>
                (r.Accepted? <==> && req.prompt != [] && |req.prompt| + 512 <= Window()
                                  && !closed && old(RoomInQueue()))
      ensures queue == if r.Accepted? then old(queue) + [NewSlot(req, noSpeculate, patient)] else old(queue)
      ensures ever == if r.Accepted? then old(ever) + multiset{Ask(req, patient)} else old(ever)
      ensures r.Accepted? && 0 < req.maxTokens < UINT32 && |req.prompt| < UINT32 ==>
                Reserved(NewSlot(req, noSpeculate, patient), Window())
    {
      if req.prompt == [] {
        return EmptyPrompt;
      }
      if |req.prompt| % UINT32 > PromptBudget(req.maxTokens) {
        return OverBudget;
      }
      if closed {
        return EngineClosed;
      }
      if maxWait > 0 && |queue| >= maxWait {
        return QueueFull;
      }
      var s := NewSlot(req, noSpeculate, patient);
      WaitingMore(queue, s);
      CensusQueued(census, be.nSeqMax, active, queue, over, s);
      queue := queue + [s];
      ever := ever + multiset{AskOf(s)};
      r := Accepted;
    }

    /** Gives the longest waiting request the first free sequence, or closes it if its caller has gone. */
    method AdmitOne()
      requires AtRest() && Decodes(plain, be.m) && free != [] && queue != []
      modifies this`queue, this`free, this`active, this`over
      ensures AtRest() && |queue| < |old(queue)|
      ensures queue == old(queue)[1..]
      ensures || (over == old(over) && old(free) != [] && old(free)[0] !in old(active) && old(free)[0] < be.nSeqMax
                  && free == old(free)[1..] && active == old(active)[old(free)[0] := old(queue)[0]])
              || (active == old(active) && free == old(free) && !old(queue)[0].patient
                  && |over| == |old(over)| + 1 && old(over) < over && SameAsk(over[|old(over)|].last, old(queue)[0])
                  && over[|old(over)|].cancelled && over[|old(over)|].events == [])
    {
      var s := queue[0];
      WaitingTail(queue);
      var s' := Poll(s);
      if s'.cancelled {
        DecoderSteps(plain, be.m, s.req, 0);
        var o := Outcome(s', 0, s'.events, true, Stopped(Cancelled));
        CensusGone(census, be.nSeqMax, active, queue, over, o);
        queue := queue[1..];
        over := over + [o];
        WaitingIsIdle(s', be.m, plain, DraftBound(), Chain(0, []));
        assert Final(over[|over| - 1], plain, be.nCtxSeq, fate);
      } else {
        TakeId(be.nSeqMax, free, active.Keys);
        var q := free[0];
        WaitingIsIdle(s, be.m, plain, DraftBound(), be.chains[q]);
        IdleOne(active, s, q, be.nSeqMax, plain, DraftBound(), be.att, be.chains);
        CensusAdmitted(census, be.nSeqMax, active, q, queue, over);
        queue := queue[1..];
        free := free[1..];
        active := active[q := s];
        assert active.Keys == old(active.Keys) + {q};
      }
    }

    /** Moves queued requests into free sequences. */
    method Admit()
      requires AtRest() && Decodes(plain, be.m)
      modifies this`queue, this`free, this`active, this`over
      ensures AtRest() && (free == [] || queue == []) && old(over) <= over
      ensures QueueTame(old(queue), Window()) && AllTame(old(active), Window()) ==>
                && over == old(over) && AllTame(active, Window()) && QueueTame(queue, Window())
                && |active.Keys| + |queue| == old(|active.Keys| + |queue|)
                && Load(active, be.nSeqMax) + QueueLoad(queue)
                   == Load(old(active), be.nSeqMax) + QueueLoad(old(queue))
    {
      ghost var tame := QueueTame(queue, Window()) && AllTame(active, Window());
      ghost var total := Load(active, be.nSeqMax) + QueueLoad(queue);
      while free != [] && queue != []
        invariant AtRest() && old(over) <= over
        invariant tame ==> over == old(over) && AllTame(active, Window()) && QueueTame(queue, Window())
        invariant tame ==> Load(active, be.nSeqMax) + QueueLoad(queue) == total
        invariant tame ==> |active.Keys| + |queue| == old(|active.Keys| + |queue|)
        decreases |queue|
      {
        ghost var table, s, q := active, queue[0], free[0];
        QueueLoadSplit(queue);
        AdmitOne();
        if tame {
          assert Tame(s, Window());
          assert active.Keys == table.Keys + {q};
          LoadOfOne(table, s, q, be.nSeqMax);
          TameOne(table, s, q, Window());
        }
      }
    }

    /** Requests are reserved, callers patient, and nothing is in the way of serving them. */
    ghost predicate Tranquil()
      reads this, be
    {
      && AtRest() && Decodes(plain, be.m)
      && be.nSeqMax > 0 && be.faultless && Ample() && Provisioned()
      && !fate.stopping && !fate.evicted
      && QueueTame(queue, Window()) && AllTame(active, Window())
    }

    /** What streams may still do in all. */
    ghost function Work(): nat
      reads this
    {
      Load(active, be.nSeqMax) + QueueLoad(queue)
    }

    /** A tick while nothing is in the way. */
    method ServingTick(ghost from: nat)
      requires Tranquil() && active != map[] && from <= |over| && AllTameOver(over, from, Window())
      modifies this`active, this`free, this`over, this`fate, this`checkpointFailed, this`asked,
               this`speculationUnusable, this`drafting, be
      ensures Tranquil() && Work() < old(Work())
      ensures old(over) <= over && AllTameOver(over, from, Window())
    {
      TameFacts(active, Window());
      ghost var table, before := active, over;
      var r := Tick();
      FewerTame(table, active, Window());
      NewFromTame(table, before, over, from, Window());
    }

    /** One turn of the loop: admit, then tick. */
    method Round(ghost from: nat)
      requires Tranquil() && (active != map[] || queue != []) && from <= |over| && AllTameOver(over, from, Window())
      modifies this`queue, this`free, this`active, this`over, this`fate, this`checkpointFailed, this`asked,
               this`speculationUnusable, this`drafting, be
      ensures Tranquil() && Work() < old(Work())
      ensures old(over) <= over && AllTameOver(over, from, Window())
    {
      Admit();
      SomeActive();
      ServingTick(from);
    }

    /** While any stream waits or runs: admit, then tick.  With every request reserved, every caller
        patient and room in the batch, all of them are served, and each as plain decoding would. */
    method RunToIdle()
      requires Tranquil()
      modifies this`queue, this`free, this`active, this`over, this`fate, this`checkpointFailed, this`asked,
               this`speculationUnusable, this`drafting, be
      ensures AtRest() && active == map[] && queue == []
      ensures old(over) <= over && |over| == |ever|
      ensures multiset(EndedAsks(over[|old(over)|..]))
           == old(RunningAsks(active, be.nSeqMax)) + multiset(QueuedAsks(old(queue)))
      ensures forall i :: |old(over)| <= i < |over| ==>
                            InFull(over[i], be.m) || (!TakesBack() && CutShort(over[i], be.m))
    {
      while active != map[] || queue != []
        invariant Tranquil() && old(over) <= over && AllTameOver(over, |old(over)|, Window())
        decreases Work()
      {
        Round(|old(over)|);
      }
      AllEnded(census, be.nSeqMax, old(active), old(queue), old(over), over);
      forall i | |old(over)| <= i < |over|
        ensures InFull(over[i], be.m) || (!TakesBack() && CutShort(over[i], be.m))
      {
        assert Final(over[i], plain, be.nCtxSeq, fate);
        assert Tame(over[i].last, Window());
        FinalIsServed(over[i], be.m, plain, be.nCtxSeq, Window(), fate);
      }
    }

    /** If no sequence is free, some stream is running. */
    lemma SomeActive()
      requires Wired() && be.nSeqMax > 0 && (free == [] || queue == [])
      ensures active != map[] || queue == []
    {
      assert Spare(free, 0) || 0 in active.Keys;
    }

    /** Ends every active and queued stream. */
    method Drain()
      requires Wired() && AllOpen(active, plain) && Decodes(plain, be.m)
      modifies this`queue, this`free, this`active, this`over, this`fate, this`closed
      modifies be`ckpt, be`att, be`rec, be`chains
      ensures Wired() && active == map[] && queue == [] && closed
      ensures old(over) <= over && |over| == |ever|
      ensures multiset(EndedAsks(over[|old(over)|..]))
           == old(RunningAsks(active, be.nSeqMax)) + multiset(QueuedAsks(old(queue)))
    {
      ghost var fate' := fate.(stopping := true);
      FinalLater(over, plain, be.nCtxSeq, fate, fate');
      fate := fate';
      while active != map[]
        invariant Wired() && AllOpen(active, plain) && fate.stopping && old(over) <= over
        decreases |active.Keys|
      {
        assert active.Keys != {};
        var q :| q in active;
        ghost var table := active;
        assert Open(active[q], plain);
        Finish(q, active[q], active[q].generated, Stopped(Cancelled));
        forall p | p in active ensures Open(active[p], plain) {
          assert Open(table[p], plain);
        }
      }
      while queue != []
        invariant Wired() && active == map[] && fate.stopping && old(over) <= over
        decreases |queue|
      {
        DropQueued();
      }
      AllEnded(census, be.nSeqMax, old(active), old(queue), old(over), over);
      closed := true;
    }

    /** Tells one queued request that it will not run. */
    method DropQueued()
      requires Wired() && fate.stopping && queue != [] && Decodes(plain, be.m)
      modifies this`queue, this`over
      ensures Wired() && queue == old(queue)[1..] && |over| == |old(over)| + 1 && old(over) <= over
      ensures SameAsk(over[|old(over)|].last, old(queue)[0]) && over[|old(over)|].ending == Stopped(Cancelled)
    {
      var s := queue[0];
      WaitingTail(queue);
      WaitingIsIdle(s, be.m, plain, DraftBound(), Chain(0, []));
      var sent := Send(s, Done(Stopped(Cancelled)));
      var o := Outcome(s, 0, sent.events, sent.cancelled, Stopped(Cancelled));
      CensusGone(census, be.nSeqMax, active, queue, over, o);
      queue := queue[1..];
      over := over + [o];
      assert Final(over[|over| - 1], plain, be.nCtxSeq, fate);
    }
  }
}
