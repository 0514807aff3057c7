/** Plain autoregressive decoding: what one stream's output is supposed to be.

    This is the specification the scheduler is held to.  It knows nothing of slots, batches, drafts
    or caches: it draws one token from the whole history, appends it, and asks whether to stop. */
module Decoding {
  import opened Options
  import opened Sequences
  import opened Utf8

  type Token = int

  /** Names one sampling configuration. */
  type Sampling = nat

  /** A sampler chain's state: how it was configured and what it has drawn since it was reset.
      Chains are seeded and deterministic, so this determines the next draw. */
  datatype Chain = Chain(params: Sampling, drawn: seq<Token>)

  /** The model.  `draw` reads the two parts of a sequence's state separately, the positional cache
      and the state that has no positions, because nothing forces them to agree.  Both functions may
      fail; a negative `eos` means the model has no end-of-text token. */
  datatype Model = Model(
    eos: Token,
    draw: (seq<Token>, seq<Token>, Chain) -> Option<Token>,
    piece: Token -> Option<seq<Byte>>)

  datatype Request = Request(
    prompt: seq<Token>,
    maxTokens: int,
    stop: seq<seq<Byte>>,
    sampling: Sampling)

  datatype Reason = EndOfText | Length | StopSequence | ContextExhausted | Cancelled

  datatype Status = Running | Ended(reason: Reason) | Broken

  /** A generation in progress: the tokens emitted, the chain, the text with its UTF-8 buffer, the
      pieces of text handed out, and whether it goes on. */
  datatype Gen = Gen(
    emitted: seq<Token>,
    chain: Chain,
    out: Buffered,
    sent: seq<seq<Byte>>,
    status: Status)

  predicate HitStop(text: seq<Byte>, stop: seq<seq<Byte>>) {
    exists i :: 0 <= i < |stop| && stop[i] != [] && EndsWith(text, stop[i])
  }

  predicate LimitReached(r: Request, generated: nat) {
    r.maxTokens > 0 && generated >= r.maxTokens
  }

  function Fresh(r: Request): Gen {
    Gen([], Chain(r.sampling, []), Buffered([], []), [], Running)
  }

  /** Text released by one more piece: nothing at all when no character was completed. */
  function Released(before: Buffered, piece: seq<Byte>): seq<seq<Byte>> {
    var cut := Cut(before.held + piece);
    if cut == 0 then [] else [(before.held + piece)[..cut]]
  }

  /** Emits one drawn token that has a rendering. */
  function Emit(r: Request, g: Gen, tok: Token, piece: seq<Byte>): Gen {
    var out := Consume(g.out, piece);
    var emitted := g.emitted + [tok];
    Gen(emitted, Chain(g.chain.params, g.chain.drawn + [tok]), out, g.sent + Released(g.out, piece),
        if HitStop(out.text, r.stop) then Ended(StopSequence)
        else if LimitReached(r, |emitted|) then Ended(Length)
        else Running)
  }

  /** One step: one forward pass over the whole history, one draw. */
  function Step(m: Model, r: Request, g: Gen): Gen {
    if !g.status.Running? then g
    else
      var history := r.prompt + g.emitted;
      match m.draw(history, history, g.chain)
      case None => g.(status := Broken)
      case Some(tok) =>
        var chain := Chain(g.chain.params, g.chain.drawn + [tok]);
        if m.eos >= 0 && tok == m.eos then g.(chain := chain, status := Ended(EndOfText))
        else
          match m.piece(tok)
          case None => g.(chain := chain, status := Broken)
          case Some(piece) => Emit(r, g, tok, piece)
  }

  /** The generation after `steps` steps. */
  function Plain(m: Model, r: Request, steps: nat): Gen
    decreases steps, 1
  {
    if steps == 0 then Fresh(r) else After(m, r, steps - 1)
  }

  /** One step more. */
  function After(m: Model, r: Request, steps: nat): Gen
    decreases steps + 1, 0
  {
    Step(m, r, Plain(m, r, steps))
  }

  /** Plain decoding with one model, as a value: the generation of a request after some steps. */
  type Decoder = (Request, nat) -> Gen

  ghost predicate Decodes(plain: Decoder, m: Model) {
    forall r, n {:trigger Plain(m, r, n)} :: plain(r, n) == Plain(m, r, n)
  }

  lemma DecoderSteps(plain: Decoder, m: Model, r: Request, n: nat)
    requires Decodes(plain, m)
    ensures plain(r, 0) == Fresh(r)
    ensures plain(r, n + 1) == Step(m, r, plain(r, n))
  {
    assert plain(r, 0) == Plain(m, r, 0);
    assert plain(r, n) == Plain(m, r, n);
    assert plain(r, n + 1) == Plain(m, r, n + 1);
  }

  /** A running generation has drawn exactly the tokens it emitted, one draw each, and stays below
      its token limit. */
  lemma {:induction false} RunningShape(m: Model, r: Request, steps: nat)
    requires Plain(m, r, steps).status.Running?
    ensures var g := Plain(m, r, steps);
            && |g.emitted| == steps
            && g.chain == Chain(r.sampling, g.emitted)
            && (steps > 0 ==> !LimitReached(r, steps) && !HitStop(g.out.text, r.stop))
  {
    if steps > 0 {
      RunningShape(m, r, steps - 1);
    }
  }

  /** Once ended, a generation never changes: its result does not depend on how long one watches. */
  lemma {:induction false} EndedIsFinal(m: Model, r: Request, steps: nat, more: nat)
    requires !Plain(m, r, steps).status.Running?
    ensures Plain(m, r, steps + more) == Plain(m, r, steps)
  {
    if more > 0 {
      EndedIsFinal(m, r, steps, more - 1);
    }
  }

  /** A shorter run is a prefix of a longer one, in tokens, in text and in pieces handed out. */
  lemma {:induction false} PlainGrows(m: Model, r: Request, steps: nat, more: nat)
    ensures var g, g' := Plain(m, r, steps), Plain(m, r, steps + more);
            g.emitted <= g'.emitted && g.out.text <= g'.out.text && g.sent <= g'.sent
  {
    if more > 0 {
      PlainGrows(m, r, steps, more - 1);
    }
  }

  /** The pieces handed out are together exactly the text released. */
  lemma {:induction false} SentIsText(m: Model, r: Request, steps: nat)
    ensures Joined(Plain(m, r, steps).sent) == Plain(m, r, steps).out.text
  {
    if steps > 0 {
      SentIsText(m, r, steps - 1);
      var g := Plain(m, r, steps - 1);
      var history := r.prompt + g.emitted;
      if g.status.Running? && Step(m, r, g).sent != g.sent {
        var tok := m.draw(history, history, g.chain).value;
        var piece := m.piece(tok).value;
        assert Step(m, r, g) == Emit(r, g, tok, piece);
        JoinedReleased(g.sent, g.out, piece);
      }
    }
  }

  lemma JoinedReleased(sent: seq<seq<Byte>>, out: Buffered, piece: seq<Byte>)
    ensures Joined(sent + Released(out, piece))
         == Joined(sent) + (out.held + piece)[..Cut(out.held + piece)]
  {
    var more := Released(out, piece);
    if more != [] {
      assert (sent + more)[..|sent + more| - 1] == sent;
    } else {
      assert sent + more == sent;
    }
  }

  // ----- What plain decoding is, without the steps -----

  /** The bytes of some tokens, one rendering after another. */
  function Rendered(m: Model, tokens: seq<Token>): seq<Byte> {
    if tokens == [] then []
    else
      var n := |tokens| - 1;
      Rendered(m, tokens[..n]) + if m.piece(tokens[n]).Some? then m.piece(tokens[n]).value else []
  }

  function PiecesOf(m: Model, tokens: seq<Token>): seq<seq<Byte>> {
    if tokens == [] then []
    else
      var n := |tokens| - 1;
      PiecesOf(m, tokens[..n]) + [if m.piece(tokens[n]).Some? then m.piece(tokens[n]).value else []]
  }

  /** The characters completed by some tokens, and the bytes that wait for more. */
  function TextOf(m: Model, tokens: seq<Token>): seq<Byte> {
    ConsumeAll(PiecesOf(m, tokens)).text
  }

  function HeldOf(m: Model, tokens: seq<Token>): seq<Byte> {
    ConsumeAll(PiecesOf(m, tokens)).held
  }

  /** What the model draws after the prompt and some tokens, having drawn just those. */
  function NextDraw(m: Model, r: Request, tokens: seq<Token>): Option<Token> {
    m.draw(r.prompt + tokens, r.prompt + tokens, Chain(r.sampling, tokens))
  }

  predicate IsEnd(m: Model, tok: Token) {
    m.eos >= 0 && tok == m.eos
  }

  ghost predicate ChosenAt(m: Model, r: Request, tokens: seq<Token>, i: nat)
    requires i < |tokens|
  {
    NextDraw(m, r, tokens[..i]) == Some(tokens[i]) && !IsEnd(m, tokens[i]) && m.piece(tokens[i]).Some?
  }

  /** Every token is the one the model draws after those before it. */
  ghost predicate Chosen(m: Model, r: Request, tokens: seq<Token>) {
    forall i: nat {:trigger ChosenAt(m, r, tokens, i)} :: i < |tokens| ==> ChosenAt(m, r, tokens, i)
  }

  ghost predicate EndsIn(text: seq<Byte>, stop: seq<seq<Byte>>) {
    exists i :: 0 <= i < |stop| && 0 < |stop[i]| <= |text| && text[|text| - |stop[i]|..] == stop[i]
  }

  /** Some tokens after which neither a stop sequence nor the limit has been reached. */
  ghost predicate GoesOnAfter(m: Model, r: Request, tokens: seq<Token>) {
    tokens != [] ==> !(r.maxTokens > 0 && |tokens| >= r.maxTokens) && !EndsIn(TextOf(m, tokens), r.stop)
  }

  ghost predicate WentOn(m: Model, r: Request, tokens: seq<Token>) {
    forall i: nat {:trigger GoesOnAfter(m, r, tokens[..i])} :: i < |tokens| ==> GoesOnAfter(m, r, tokens[..i])
  }

  /** Why a generation stands where it does. */
  ghost predicate Because(m: Model, r: Request, tokens: seq<Token>, how: Status) {
    match how
    case Running => GoesOnAfter(m, r, tokens)
    case Ended(EndOfText) =>
      GoesOnAfter(m, r, tokens) && NextDraw(m, r, tokens).Some? && IsEnd(m, NextDraw(m, r, tokens).value)
    case Ended(StopSequence) => tokens != [] && EndsIn(TextOf(m, tokens), r.stop)
    case Ended(Length) => tokens != [] && !EndsIn(TextOf(m, tokens), r.stop) && 0 < r.maxTokens <= |tokens|
    case Ended(_) => false
    case Broken =>
      && GoesOnAfter(m, r, tokens)
      && (NextDraw(m, r, tokens).Some? ==>
            !IsEnd(m, NextDraw(m, r, tokens).value) && m.piece(NextDraw(m, r, tokens).value).None?)
  }

  /** These tokens, and then this, is what the model has to say to a request. */
  ghost predicate Answer(m: Model, r: Request, tokens: seq<Token>, how: Status) {
    Chosen(m, r, tokens) && WentOn(m, r, tokens) && Because(m, r, tokens, how)
  }

  /** What is known of a generation in progress. */
  ghost predicate Speaks(m: Model, r: Request, g: Gen) {
    && Answer(m, r, g.emitted, g.status)
    && g.out == ConsumeAll(PiecesOf(m, g.emitted))
    && (g.status.Running? ==> g.chain == Chain(r.sampling, g.emitted))
    && forall i :: 0 <= i < |g.sent| ==> g.sent[i] != []
  }

  lemma {:induction false} RenderedIsJoined(m: Model, tokens: seq<Token>)
    ensures Joined(PiecesOf(m, tokens)) == Rendered(m, tokens)
  {
    if tokens != [] {
      var n := |tokens| - 1;
      RenderedIsJoined(m, tokens[..n]);
      assert PiecesOf(m, tokens)[..|PiecesOf(m, tokens)| - 1] == PiecesOf(m, tokens[..n]);
    }
  }

  lemma PiecesMore(m: Model, tokens: seq<Token>, tok: Token, piece: seq<Byte>)
    requires m.piece(tok) == Some(piece)
    ensures ConsumeAll(PiecesOf(m, tokens + [tok])) == Consume(ConsumeAll(PiecesOf(m, tokens)), piece)
  {
    assert (tokens + [tok])[..|tokens|] == tokens;
    var pieces := PiecesOf(m, tokens);
    assert (pieces + [piece])[..|pieces|] == pieces;
  }

  lemma ChosenMore(m: Model, r: Request, tokens: seq<Token>, tok: Token)
    requires Chosen(m, r, tokens) && WentOn(m, r, tokens) && GoesOnAfter(m, r, tokens)
    requires NextDraw(m, r, tokens) == Some(tok) && !IsEnd(m, tok) && m.piece(tok).Some?
    ensures Chosen(m, r, tokens + [tok]) && WentOn(m, r, tokens + [tok])
  {
    var more := tokens + [tok];
    forall i: nat | i < |more| ensures ChosenAt(m, r, more, i) && GoesOnAfter(m, r, more[..i]) {
      assert more[..i] == if i < |tokens| then tokens[..i] else tokens;
      if i < |tokens| {
        assert ChosenAt(m, r, tokens, i) && GoesOnAfter(m, r, tokens[..i]);
      }
    }
  }

  lemma HitIsEndsIn(text: seq<Byte>, stop: seq<seq<Byte>>)
    ensures HitStop(text, stop) <==> EndsIn(text, stop)
  {
    if HitStop(text, stop) {
      var i :| 0 <= i < |stop| && stop[i] != [] && EndsWith(text, stop[i]);
      assert 0 < |stop[i]| <= |text| && text[|text| - |stop[i]|..] == stop[i];
    }
    if EndsIn(text, stop) {
      var i :| 0 <= i < |stop| && 0 < |stop[i]| <= |text| && text[|text| - |stop[i]|..] == stop[i];
      assert stop[i] != [] && EndsWith(text, stop[i]);
    }
  }

  lemma EmitSpeaks(m: Model, r: Request, g: Gen, tok: Token, piece: seq<Byte>)
    requires Speaks(m, r, g) && g.status.Running?
    requires NextDraw(m, r, g.emitted) == Some(tok) && !IsEnd(m, tok) && m.piece(tok) == Some(piece)
    ensures Speaks(m, r, Emit(r, g, tok, piece))
  {
    PiecesMore(m, g.emitted, tok, piece);
    ChosenMore(m, r, g.emitted, tok);
    HitIsEndsIn(TextOf(m, g.emitted + [tok]), r.stop);
  }

  lemma StepSpeaks(m: Model, r: Request, g: Gen)
    requires Speaks(m, r, g)
    ensures Speaks(m, r, Step(m, r, g))
  {
    if g.status.Running? {
      var drawn := NextDraw(m, r, g.emitted);
      if drawn.Some? && !IsEnd(m, drawn.value) && m.piece(drawn.value).Some? {
        EmitSpeaks(m, r, g, drawn.value, m.piece(drawn.value).value);
      }
    }
  }

  /** Plain decoding says exactly what the model has to say: the tokens it draws, one after another, up
      to the first at which it stops, for the reason it stops; their text is their renderings in order,
      but for the bytes of a character not yet complete; and that is what is handed out. */
  lemma {:induction false} PlainIsTheAnswer(m: Model, r: Request, steps: nat)
    ensures var g := Plain(m, r, steps);
            && Speaks(m, r, g)
            && g.out.text + g.out.held == Rendered(m, g.emitted)
            && Joined(g.sent) == g.out.text
  {
    if steps > 0 {
      PlainIsTheAnswer(m, r, steps - 1);
      StepSpeaks(m, r, Plain(m, r, steps - 1));
    }
    var g := Plain(m, r, steps);
    NothingLost(PiecesOf(m, g.emitted));
    RenderedIsJoined(m, g.emitted);
    SentIsText(m, r, steps);
  }

  lemma {:induction false} SameChoices(m: Model, r: Request, a: seq<Token>, b: seq<Token>, n: nat)
    requires Chosen(m, r, a) && Chosen(m, r, b) && n <= |a| && n <= |b|
    ensures a[..n] == b[..n]
  {
    if n > 0 {
      SameChoices(m, r, a, b, n - 1);
      assert ChosenAt(m, r, a, n - 1) && ChosenAt(m, r, b, n - 1);
      assert a[..n] == a[..n - 1] + [a[n - 1]] && b[..n] == b[..n - 1] + [b[n - 1]];
    }
  }

  /** There is one answer to a request, if there is one. */
  lemma OneAnswer(m: Model, r: Request, a: seq<Token>, how: Status, b: seq<Token>, how': Status)
    requires Answer(m, r, a, how) && Answer(m, r, b, how') && !how.Running? && !how'.Running?
    ensures a == b && how == how'
  {
    if |a| < |b| {
      NoFurther(m, r, a, how, b);
    }
    if |b| < |a| {
      NoFurther(m, r, b, how', a);
    }
    SameChoices(m, r, a, b, |a|);
    assert a[..|a|] == a && b[..|b|] == b;
  }

  lemma NoFurther(m: Model, r: Request, a: seq<Token>, how: Status, b: seq<Token>)
    requires Answer(m, r, a, how) && Chosen(m, r, b) && WentOn(m, r, b) && !how.Running?
    ensures |b| <= |a|
  {
    if |a| < |b| {
      StepBeyond(m, r, a, b);
    }
  }

  /** Where a longer choice went on, nothing ended the shorter one. */
  lemma StepBeyond(m: Model, r: Request, a: seq<Token>, b: seq<Token>)
    requires Chosen(m, r, a) && Chosen(m, r, b) && WentOn(m, r, b) && |a| < |b|
    ensures GoesOnAfter(m, r, a) && NextDraw(m, r, a).Some?
    ensures !IsEnd(m, NextDraw(m, r, a).value) && m.piece(NextDraw(m, r, a).value).Some?
  {
    SameChoices(m, r, a, b, |a|);
    assert b[..|a|] == a;
    assert ChosenAt(m, r, b, |a|) && GoesOnAfter(m, r, b[..|a|]);
  }
}
