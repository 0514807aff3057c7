/** One in-flight generation, occupying a sequence of the context. */
module Slots {
  import opened Options
  import opened Sequences
  import opened Utf8
  import opened Decoding
  import opened Backends

  /** How a stream ended: with a reason, or with an error. */
  datatype Ending = Stopped(reason: Reason) | Failed

  /** One item of a stream's output. */
  datatype Event = Text(text: seq<Byte>) | Done(ending: Ending)

  function Texts(sent: seq<seq<Byte>>): (events: seq<Event>)
    ensures |events| == |sent|
    ensures forall i :: 0 <= i < |sent| ==> events[i] == Text(sent[i])
  {
    seq(|sent|, i requires 0 <= i < |sent| => Text(sent[i]))
  }

  /** One entry of the slot table.

      `noSpeculate`: the request asked not to be drafted for.  `patient`: its caller never abandons
      it.  `committed` is what this step staged, `replayFrom` where the step began, and `replay` what
      a rollback threw away.  `events` is what was sent on the stream's channel. */
  datatype Slot = Slot(
    req: Request, noSpeculate: bool, patient: bool,
    pending: seq<Token>, sharedPrefix: nat, pos: nat, next: Token, primed: bool,
    generated: nat, sampledOnce: bool, hasLogits: bool,
    committed: seq<Token>, replay: seq<Token>, replayFrom: nat,
    draft: seq<Token>, specIdx: seq<nat>,
    buf: seq<Byte>, text: seq<Byte>,
    events: seq<Event>, cancelled: bool)

  function NewSlot(req: Request, noSpeculate: bool, patient: bool): Slot {
    Slot(req, noSpeculate, patient, req.prompt, 0, 0, 0, false, 0, false, false,
         [], [], 0, [], [], [], [], [], false)
  }

  /** The fields that carry output are those of the plain decoding `g`. */
  ghost predicate Shows(s: Slot, g: Gen) {
    && s.generated == |g.emitted|
    && g.out == Buffered(s.text, s.buf)
    && (s.patient ==> !s.cancelled)
  }

  /** An open stream: its output so far is the plain decoding after `generated` steps. */
  ghost predicate Open(s: Slot, plain: Decoder) {
    var g := plain(s.req, s.generated);
    && s.req.prompt != []
    && Shows(s, g) && g.status.Running?
    && (s.cancelled || s.events == Texts(g.sent))
  }

  /** Waiting for a sequence. */
  predicate Waiting(s: Slot) {
    && s == NewSlot(s.req, s.noSpeculate, s.patient).(cancelled := s.cancelled)
    && s.req.prompt != []
    && (s.patient ==> !s.cancelled)
  }

  /** Nothing of this slot awaits the sampler.  `tip` is what its sequence holds: the prompt so far,
      or everything emitted except what must be replayed and the token to feed next. */
  ghost predicate Idle(s: Slot, plain: Decoder, bound: nat, tip: seq<Token>, chain: Chain) {
    && Open(s, plain)
    && s.pos == |tip|
    && (s.sampledOnce <==> s.primed) && (s.primed <==> s.generated > 0)
    && (s.primed ==>
          var g := plain(s.req, s.generated);
          && s.pending == []
          && chain == g.chain
          && s.next == g.emitted[s.generated - 1]
          && |s.replay| <= bound
          && |tip| >= |s.req.prompt|
          && tip + s.replay + [s.next] == s.req.prompt + g.emitted)
    && (!s.primed ==> Unprimed(s) && tip + s.pending == s.req.prompt)
  }

  predicate Unprimed(s: Slot) {
    s.pending != [] && s.replay == [] && s.draft == []
  }

  /** Everything the model has been given or has chosen, as the plain decoding has it. */
  ghost function Base(s: Slot, plain: Decoder): seq<Token> {
    s.req.prompt + plain(s.req, s.generated).emitted
  }

  /** Row `specIdx[j]` follows the whole history and the first `j` drafts, in both parts of the
      state. */
  predicate Rowed(q: nat, base: seq<Token>, draft: seq<Token>, specIdx: seq<nat>, rows: seq<Row>) {
    && |specIdx| == |draft| + 1
    && forall j :: 0 <= j < |specIdx| ==>
                     && specIdx[j] < |rows|
                     && rows[specIdx[j]] == Row(q, true, base + draft[..j], base + draft[..j])
  }

  lemma RowedFirst(q: nat, base: seq<Token>, idx: nat, rows: seq<Row>)
    requires idx < |rows| && rows[idx] == Row(q, true, base, base)
    ensures Rowed(q, base, [], [idx], rows)
  {
    var none: seq<Token> := [];
    assert base + none[..0] == base;
  }

  lemma RowedMore(q: nat, base: seq<Token>, draft: seq<Token>, specIdx: seq<nat>, rows: seq<Row>,
                  tok: Token, row: Row)
    requires Rowed(q, base, draft, specIdx, rows)
    requires row == Row(q, true, base + (draft + [tok]), base + (draft + [tok]))
    ensures Rowed(q, base, draft + [tok], specIdx + [|rows|], rows + [row])
  {
    forall j | 0 <= j < |specIdx| + 1
      ensures (rows + [row])[(specIdx + [|rows|])[j]]
           == Row(q, true, base + (draft + [tok])[..j], base + (draft + [tok])[..j])
    {
      if j < |specIdx| {
        assert (draft + [tok])[..j] == draft[..j];
      } else {
        assert (draft + [tok])[..j] == draft + [tok];
      }
    }
  }

  /** A pass went as far as the drafts agreed with the model: its last token is no draft unless there was none
      left, and each of those before it was. */
  predicate WentFar(s: Slot, s': Slot) {
    var agreed := s'.generated - s.generated - 1;
    0 <= agreed <= |s.draft| && (agreed < |s.draft| ==> s.draft[agreed] != s'.next)
  }

  /** Enough was kept to take every draft back. */
  predicate Rewindable(s: Slot, rewinder: bool, base: seq<Token>, ckpt: Option<seq<Token>>) {
    s.draft != [] ==>
      && s.sampledOnce
      && base != []
      && s.committed == base[|base| - 1..] + s.draft
      && s.replayFrom == |base| - 1
      && (rewinder ==> ckpt == Some(base[..|base| - 1]))
  }

  /** Logits were requested. */
  ghost predicate Ready(s: Slot, plain: Decoder, bound: nat, rewinder: bool, q: nat,
                        tip: seq<Token>, chain: Chain, ckpt: Option<seq<Token>>, rows: seq<Row>) {
    && Open(s, plain)
    && s.primed && s.pending == [] && s.replay == []
    && s.pos == |tip| && tip == Base(s, plain) + s.draft
    && (s.sampledOnce <==> s.generated > 0)
    && (s.sampledOnce ==>
          && chain == plain(s.req, s.generated).chain
          && s.next == plain(s.req, s.generated).emitted[s.generated - 1])
    && |s.draft| <= bound
    && Rewindable(s, rewinder, Base(s, plain), ckpt)
    && Rowed(q, Base(s, plain), s.draft, s.specIdx, rows)
  }

  ghost predicate Held(s: Slot, plain: Decoder, bound: nat, rewinder: bool, q: nat,
                       tip: seq<Token>, chain: Chain, ckpt: Option<seq<Token>>, rows: seq<Row>) {
    if s.hasLogits then Ready(s, plain, bound, rewinder, q, tip, chain, ckpt, rows)
    else Idle(s, plain, bound, tip, chain)
  }

  lemma HeldGrows(s: Slot, plain: Decoder, bound: nat, rewinder: bool, q: nat, tip: seq<Token>,
                  chain: Chain, ckpt: Option<seq<Token>>, rows: seq<Row>, more: seq<Row>)
    requires Held(s, plain, bound, rewinder, q, tip, chain, ckpt, rows)
    requires rows <= more
    ensures Held(s, plain, bound, rewinder, q, tip, chain, ckpt, more)
  {
    assert forall i :: 0 <= i < |rows| ==> rows[i] == more[i];
  }

  /** The plain decoding has come to its end after `steps` steps, and all of it was handed over. */
  ghost predicate Complete(s: Slot, plain: Decoder, steps: nat) {
    var g := plain(s.req, steps);
    && !g.status.Running?
    && Shows(s, g)
    && (s.cancelled || s.events == Texts(g.sent))
  }

  /** What can cut a stream short: the engine is shutting down, it has had to evict, or its backend
      may refuse to configure a sampler or to take back a draft. */
  datatype Fate = Fate(stopping: bool, evicted: bool, fallible: bool)

  predicate Later(f: Fate, f': Fate) {
    (f.stopping ==> f'.stopping) && (f.evicted ==> f'.evicted) && (f.fallible ==> f'.fallible)
  }

  /** The reason given is the true one: the output is the whole plain decoding when the stream ran
      to its end, and otherwise what the plain decoding had produced when it was cut short.
      `steps` counts the draws made, the last of which may have yielded no text. */
  ghost predicate Justified(s: Slot, plain: Decoder, steps: nat, window: nat, fate: Fate, how: Ending) {
    match how
    case Stopped(Cancelled) => Open(s, plain) && (s.cancelled || fate.stopping)
    case Stopped(ContextExhausted) =>
      Open(s, plain) && (fate.evicted || window <= s.pos < |s.req.prompt| + s.generated)
    case Stopped(reason) => Complete(s, plain, steps) && plain(s.req, steps).status == Ended(reason)
    case Failed =>
      || (Complete(s, plain, steps) && plain(s.req, steps).status.Broken?)
      || (fate.fallible && (Open(s, plain) || Complete(s, plain, steps)))
  }

  /** A stream that is over: the slot as it was, the draws it made, what its channel carried in all,
      and the ending. */
  datatype Outcome = Outcome(last: Slot, steps: nat, events: seq<Event>, cancelled: bool, ending: Ending)

  ghost predicate Final(o: Outcome, plain: Decoder, window: nat, fate: Fate) {
    && Justified(o.last, plain, o.steps, window, fate, o.ending)
    && (o.last.cancelled ==> o.cancelled)
    && (o.last.patient ==> !o.cancelled)
    && (o.cancelled || o.events == o.last.events + [Done(o.ending)])
  }

  /** Steps a stream may still take: prompt tokens to feed and tokens to generate. */
  function Rest(s: Slot): nat {
    |s.pending| + if s.req.maxTokens > s.generated then s.req.maxTokens - s.generated else 0
  }

  // ----- Staging: how a slot's fields follow its entries -----

  function WithReplay(s: Slot, idx: nat, logits: bool): Slot {
    s.(replay := [], draft := [], hasLogits := logits, specIdx := if logits then [idx] else [],
    pos := s.pos + |s.replay| + if logits then 1 else 0)
  }

  lemma ReplayHeld(s: Slot, plain: Decoder, bound: nat, rewinder: bool, q: nat,
                   tip: seq<Token>, tip': seq<Token>, chain: Chain, ckpt: Option<seq<Token>>,
                   rows: seq<Row>, idx: nat, logits: bool)
    requires Idle(s, plain, bound, tip, chain) && s.primed
    requires tip' == tip + s.replay + if logits then [s.next] else []
    requires logits ==> idx < |rows| && rows[idx] == Row(q, true, tip', tip')
    ensures Held(WithReplay(s, idx, logits), plain, bound, rewinder, q, tip', chain, ckpt, rows)
  {
    if logits {
      RowedFirst(q, Base(s, plain), idx, rows);
    } else {
      assert tip' + [] + [s.next] == tip + s.replay + [s.next];
    }
  }

  function WithDrafts(s: Slot, draft: seq<Token>, specIdx: seq<nat>): Slot {
    s.(replayFrom := s.pos, committed := [s.next] + draft, draft := draft, specIdx := specIdx,
    hasLogits := true, pos := s.pos + 1 + |draft|)
  }

  lemma DraftsHeld(s: Slot, plain: Decoder, bound: nat, rewinder: bool, q: nat,
                   tip: seq<Token>, tip': seq<Token>, chain: Chain, ckpt: Option<seq<Token>>,
                   rows: seq<Row>, draft: seq<Token>, specIdx: seq<nat>)
    requires Idle(s, plain, bound, tip, chain) && s.primed && s.replay == []
    requires tip' == tip + [s.next] + draft && |draft| <= bound
    requires Rowed(q, tip + [s.next], draft, specIdx, rows)
    requires draft != [] && rewinder ==> ckpt == Some(tip)
    ensures Held(WithDrafts(s, draft, specIdx), plain, bound, rewinder, q, tip', chain, ckpt, rows)
  {
    var base := Base(s, plain);
    assert tip + [] + [s.next] == tip + [s.next] == base;
    assert base[..|base| - 1] == tip && base[|base| - 1..] == [s.next];
  }

  function WithPrefill(s: Slot, n: nat, idx: nat): Slot
    requires n <= |s.pending|
  {
    if n == |s.pending|
    then s.(pending := [], pos := s.pos + n, hasLogits := true, primed := true, specIdx := [idx])
    else s.(pending := s.pending[n..], pos := s.pos + n)
  }

  lemma PrefillHeld(s: Slot, plain: Decoder, bound: nat, rewinder: bool, q: nat,
                    tip: seq<Token>, tip': seq<Token>, chain: Chain, ckpt: Option<seq<Token>>,
                    rows: seq<Row>, n: nat, idx: nat)
    requires Idle(s, plain, bound, tip, chain) && !s.primed && !s.hasLogits && n <= |s.pending|
    requires plain(s.req, 0) == Fresh(s.req)
    requires tip' == tip + s.pending[..n]
    requires n == |s.pending| ==> idx < |rows| && rows[idx] == Row(q, true, tip', tip')
    ensures Held(WithPrefill(s, n, idx), plain, bound, rewinder, q, tip', chain, ckpt, rows)
  {
    assert tip' + s.pending[n..] == tip + s.pending;
    if n == |s.pending| {
      assert s.req.prompt + [] == s.req.prompt == tip';
      RowedFirst(q, Base(s, plain), idx, rows);
    }
  }

  /** A slot that took over the first `n` tokens of its prompt instead of computing them. */
  function WithPrefix(s: Slot, n: nat): Slot
    requires n <= |s.pending|
  {
    s.(pos := n, pending := s.pending[n..], sharedPrefix := n)
  }

  lemma PrefixHeld(s: Slot, plain: Decoder, bound: nat, rewinder: bool, q: nat, tip: seq<Token>,
                   chain: Chain, ckpt: Option<seq<Token>>, rows: seq<Row>, n: nat)
    requires Idle(s, plain, bound, tip, chain) && !s.primed && !s.hasLogits && s.pos == 0
    requires n < |s.req.prompt|
    ensures n < |s.pending|
    ensures Held(WithPrefix(s, n), plain, bound, rewinder, q, s.req.prompt[..n], chain, ckpt, rows)
  {
    assert tip == [] && s.pending == s.req.prompt;
    assert s.req.prompt[..n] + s.pending[n..] == s.req.prompt;
  }

  /** A donor's cache begins with its prompt, as far as it reaches. */
  lemma DonorHolds(d: Slot, plain: Decoder, bound: nat, rewinder: bool, q: nat, tip: seq<Token>,
                   chain: Chain, ckpt: Option<seq<Token>>, rows: seq<Row>, att: seq<Token>, n: nat)
    requires Held(d, plain, bound, rewinder, q, tip, chain, ckpt, rows)
    requires att <= tip && n <= d.pos && n <= |d.req.prompt|
    requires if d.primed then |att| >= |d.req.prompt| else att == tip
    ensures n <= |att| && att[..n] == d.req.prompt[..n]
  {
    var p := d.req.prompt;
    var g := plain(d.req, d.generated).emitted;
    if d.primed {
      if d.hasLogits {
        assert tip[..|p|] == p;
      } else {
        assert (tip + d.replay + [d.next])[..|p|] == (p + g)[..|p|] == p;
        assert tip[..|p|] == (tip + d.replay + [d.next])[..|p|];
      }
      assert att[..|p|] == tip[..|p|];
      assert att[..n] == att[..|p|][..n];
    } else if !d.hasLogits {
      assert p[..n] == (tip + d.pending)[..n] == tip[..n];
    }
  }

  /** Being abandoned by its caller changes nothing else about a slot. */
  lemma AbandonedHeld(s: Slot, s': Slot, plain: Decoder, bound: nat, rewinder: bool, q: nat,
                      tip: seq<Token>, chain: Chain, ckpt: Option<seq<Token>>, rows: seq<Row>)
    requires Held(s, plain, bound, rewinder, q, tip, chain, ckpt, rows)
    requires s' == s.(cancelled := s'.cancelled)
    requires (s.cancelled ==> s'.cancelled) && (s.patient ==> !s'.cancelled)
    ensures Held(s', plain, bound, rewinder, q, tip, chain, ckpt, rows)
  {
  }

  /** A slot whose draws were verified and whose rejected drafts are gone is idle again. */
  lemma VerifiedIdle(s: Slot, s': Slot, plain: Decoder, bound: nat, tip: seq<Token>, chain: Chain, accepted: nat)
    requires Open(s, plain) && Open(s', plain) && s'.req == s.req && accepted <= |s.draft|
    requires s'.generated == s.generated + accepted + 1
    requires Base(s', plain) == Base(s, plain) + s.draft[..accepted] + [s'.next]
    requires chain == plain(s.req, s'.generated).chain
    requires s'.next == plain(s.req, s'.generated).emitted[s'.generated - 1]
    requires s'.primed && s'.sampledOnce && s'.pending == []
    requires s'.pos == |tip| && tip + s'.replay == Base(s, plain) + s.draft[..accepted]
    requires |s'.replay| <= bound && |tip| >= |s.req.prompt|
    ensures Idle(s', plain, bound, tip, chain)
  {
  }

  // ----- What a slot does -----

  /** Reads the request's context, which its caller may end at any moment. */
  method Poll(s: Slot) returns (s': Slot)
    requires s.patient ==> !s.cancelled
    ensures s' == s.(cancelled := s'.cancelled)
    ensures s.cancelled ==> s'.cancelled
    ensures s.patient ==> !s'.cancelled
  {
    var abandon := *;
    s' := if abandon && !s.patient then s.(cancelled := true) else s;
  }

  /** Reads another request's context in passing. */
  method Gone(s: Slot) returns (gone: bool)
    ensures s.cancelled ==> gone
    ensures s.patient && !s.cancelled ==> !gone
  {
    var abandon := *;
    gone := s.cancelled || (abandon && !s.patient);
  }

  /** Sends one event, unless the caller has gone. */
  method Send(s: Slot, ev: Event) returns (s': Slot)
    requires s.patient ==> !s.cancelled
    ensures s' == s.(cancelled := s'.cancelled, events := s'.events)
    ensures s.cancelled ==> s'.cancelled
    ensures s.patient ==> !s'.cancelled
    ensures s'.cancelled || s'.events == s.events + [ev]
  {
    s' := Poll(s);
    var raced := *;
    if !s'.cancelled || raced {
      s' := s'.(events := s'.events + [ev]);
    }
  }

  /** Buffers one piece and returns the text it completes. */
  method ConsumePiece(s: Slot, piece: seq<Byte>) returns (s': Slot, released: seq<seq<Byte>>)
    ensures s' == s.(buf := s'.buf, text := s'.text)
    ensures Buffered(s'.text, s'.buf) == Utf8.Consume(Buffered(s.text, s.buf), piece)
    ensures released == Released(Buffered(s.text, s.buf), piece)
  {
    var buf := s.buf + piece;
    var cut := CompleteUtf8(buf);
    if cut == 0 {
      assert buf[..0] == [] && s.text + [] == s.text && buf[0..] == buf;
      return s.(buf := buf), [];
    }
    return s.(text := s.text + buf[..cut], buf := buf[cut..]), [buf[..cut]];
  }

  method StopHit(s: Slot) returns (hit: bool)
    ensures hit <==> HitStop(s.text, s.req.stop)
  {
    for i := 0 to |s.req.stop|
      invariant forall k :: 0 <= k < i ==> !(s.req.stop[k] != [] && EndsWith(s.text, s.req.stop[k]))
    {
      var stop := s.req.stop[i];
      if stop != [] && |s.text| >= |stop| && s.text[|s.text| - |stop|..] == stop {
        return true;
      }
    }
    return false;
  }

  lemma Outgoing(sent: seq<seq<Byte>>, released: seq<seq<Byte>>)
    requires |released| <= 1
    ensures Texts(sent + released) == Texts(sent) + if released == [] then [] else [Text(released[0])]
  {
  }

  /** Emits one token the sampler drew: the fields advance as the plain decoding does. */
  method AcceptToken(s: Slot, tok: Token, piece: seq<Byte>, ghost g: Gen) returns (s': Slot)
    requires Shows(s, g) && (s.cancelled || s.events == Texts(g.sent))
    ensures var g' := Emit(s.req, g, tok, piece);
            Shows(s', g') && (s'.cancelled || s'.events == Texts(g'.sent))
    ensures s' == s.(next := tok, generated := s.generated + 1, buf := s'.buf, text := s'.text,
                  events := s'.events, cancelled := s'.cancelled)
    ensures s.cancelled ==> s'.cancelled
  {
    s' := s.(next := tok, generated := s.generated + 1);
    var released;
    s', released := ConsumePiece(s', piece);
    Outgoing(g.sent, released);
    if |released| > 0 {
      s' := Send(s', Text(released[0]));
    }
  }
}
