// The prompt-lookup drafter: proposals copied from earlier in the stream.
module Lookups {
  import opened Decoding

  type SeqId = nat

  // The last `most` of a history; all of it when there is no bound.
  function Tail(h: seq<Token>, most: nat): seq<Token> {
    if most > 0 && |h| > most then h[|h| - most..] else h
  }

  // It ends where the history does, keeps within the bound, and is cut only to do so.
  lemma TailIsTheEnd(h: seq<Token>, most: nat)
    ensures var t := Tail(h, most);
            && |t| <= |h| && t == h[|h| - |t|..]
            && (most > 0 ==> |t| <= most) && (|t| < |h| ==> most > 0 && |t| == most)
  {
  }

  // Trimming as one goes is trimming at the end.
  lemma TailOfTail(a: seq<Token>, b: seq<Token>, most: nat)
    ensures Tail(Tail(a, most) + b, most) == Tail(a + b, most)
  {
    if most > 0 && |a| > most {
      assert a + b == a[..|a| - most] + (Tail(a, most) + b);
    }
  }

  ghost predicate Occurs(h: seq<Token>, n: nat, i: int) {
    0 <= i && i + n <= |h| && h[i..i + n] == h[|h| - n..]
  }

  // The pattern's most recent occurrence before its own.
  ghost predicate MostRecent(h: seq<Token>, n: nat, i: int) {
    i < |h| - n && Occurs(h, n, i) && forall k {:trigger Occurs(h, n, k)} :: i < k < |h| - n ==> !Occurs(h, n, k)
  }

  // What a proposal of at most `room` tokens has to be: what followed the most recent earlier
  // occurrence of the last n tokens, or nothing when there is none.
  ghost predicate Proposes(h: seq<Token>, n: nat, room: int, out: seq<Token>) {
    if out == [] then room < 1 || |h| < n + 1 || forall k {:trigger Occurs(h, n, k)} ::
                        0 <= k < |h| - n ==> !Occurs(h, n, k)
    else room >= 1 && |h| >= n + 1 && exists i :: MostRecent(h, n, i) && Continues(h, i + n, room, out)
  }

  // What stands at `start`, as far as there is room and history.
  ghost predicate Continues(h: seq<Token>, start: int, room: int, out: seq<Token>) {
    && 0 <= start && start + |out| <= |h| && out == h[start..start + |out|]
    && |out| <= room && (|out| == room || start + |out| == |h|)
  }

  // Where the last n tokens last occurred before, or -1.
  method Recent(h: seq<Token>, n: nat) returns (i: int)
    requires |h| >= n + 1
    ensures i >= 0 ==> MostRecent(h, n, i)
    ensures i < 0 ==> forall k {:trigger Occurs(h, n, k)} :: 0 <= k < |h| - n ==> !Occurs(h, n, k)
  {
    var pattern := h[|h| - n..];
    i := |h| - n - 1;
    while i >= 0
      invariant -1 <= i < |h| - n
      invariant forall k {:trigger Occurs(h, n, k)} :: i < k < |h| - n ==> !Occurs(h, n, k)
    {
      if h[i..i + n] == pattern {
        assert Occurs(h, n, i);
        return;
      }
      assert !Occurs(h, n, i);
      i := i - 1;
    }
  }

  class Lookup {
    const n: nat
    const max: int
    const maxHistory: nat
    var hist: map<SeqId, seq<Token>>
    var last: map<SeqId, seq<Token>>

    // A missing key reads as an empty history.
    function History(s: SeqId): seq<Token>
      reads this
    {
      if s in hist then hist[s] else []
    }

    function Last(s: SeqId): seq<Token>
      reads this
    {
      if s in last then last[s] else []
    }

    // The other streams' histories and proposals are as they were.
    twostate predicate OthersKept(s: SeqId)
      reads this
    {
      forall t: SeqId {:trigger History(t)} {:trigger Last(t)} ::
        t != s ==> History(t) == old(History(t)) && Last(t) == old(Last(t))
    }

    // A pattern given in the manifest replaces the default of three.
    constructor (max: int, pattern: int)
      ensures n == (if pattern > 0 then pattern else 3)
      ensures this.max == (if max < 1 then 4 else max) && maxHistory == 0x10_0000
      ensures hist == map[] && last == map[]
    {
      n := if pattern > 0 then pattern else 3;
      this.max, maxHistory := if max < 1 then 4 else max, 0x10_0000;
      hist, last := map[], map[];
    }

    method Seed(s: SeqId, tokens: seq<Token>)
      modifies this
      ensures History(s) == Tail(tokens, maxHistory) && Last(s) == [] && OthersKept(s)
    {
      hist := hist[s := Tail(tokens, maxHistory)];
      last := last - {s};
    }

    method Release(s: SeqId)
      modifies this
      ensures History(s) == [] && Last(s) == [] && OthersKept(s)
    {
      hist := hist - {s};
      last := last - {s};
    }

    method Draft(s: SeqId, token: Token, room: int) returns (out: seq<Token>)
      modifies this
      ensures History(s) == Tail(old(History(s)) + [token], maxHistory) && OthersKept(s)
      ensures Proposes(History(s), n, if room > max then max else room, out)
      ensures Last(s) == if out != [] then out
                         else if room < 1 || max < 1 || |History(s)| < n + 1 then old(Last(s)) else []
    {
      hist := hist[s := Tail(History(s) + [token], maxHistory)];
      var h := hist[s];
      var most := if room > max then max else room;
      if most < 1 || |h| < n + 1 {
        return [];
      }
      var i := Recent(h, n);
      if i < 0 {
        last := last[s := []];
        return [];
      }
      out := h[i + n..if i + n + most > |h| then |h| else i + n + most];
      assert MostRecent(h, n, i) && Continues(h, i + n, most, out);
      last := last[s := out];
    }

    method Accept(s: SeqId, accepted: nat)
      modifies this
      ensures Last(s) == [] && OthersKept(s)
      ensures History(s) == if 0 < accepted <= |old(Last(s))|
                            then Tail(old(History(s)) + old(Last(s))[..accepted], maxHistory)
                            else old(History(s))
    {
      if 0 < accepted <= |Last(s)| {
        hist := hist[s := Tail(History(s) + Last(s)[..accepted], maxHistory)];
      }
      last := last[s := []];
    }
  }

  // One pass of the engine over a stream: how much room there was, how many proposals were staged, how
  // many of those the target kept, and the token it chose after them.
  datatype Pass = Pass(room: int, staged: nat, accepted: nat, chosen: Token)

  // What a pass did: the token in hand, whether the drafter was asked, and the proposals kept.
  datatype Turn = Turn(hand: Token, asked: bool, kept: seq<Token>)

  // Emitted before the token in hand after these turns.
  function Emitted(turns: seq<Turn>): seq<Token> {
    if turns == [] then []
    else
      var last := turns[|turns| - 1];
      Emitted(turns[..|turns| - 1]) + ([last.hand] + last.kept)
  }

  // What the drafter was told of that: nothing of a turn in which it was not asked.
  function Told(turns: seq<Turn>): seq<Token> {
    if turns == [] then []
    else
      var last := turns[|turns| - 1];
      Told(turns[..|turns| - 1]) + if last.asked then [last.hand] + last.kept else []
  }

  function Room(max: int, p: Pass): int {
    if p.room > max then max else p.room
  }

  // The drafter is asked exactly when there is room for a proposal, and nothing is kept otherwise.
  ghost predicate Follow(max: int, passes: seq<Pass>, turns: seq<Turn>) {
    && |turns| == |passes|
    && forall i :: 0 <= i < |turns| ==>
                     (turns[i].asked <==> Room(max, passes[i]) >= 1) && (!turns[i].asked ==> turns[i].kept == [])
  }

  // The engine driving the drafter through one stream: every pass drafts on the token in hand if there
  // is room, reports what was kept when anything was staged, and takes the chosen token in hand.
  method Drive(l: Lookup, s: SeqId, prompt: seq<Token>, first: Token, passes: seq<Pass>)
    returns (emitted: seq<Token>, ghost turns: seq<Turn>)
    modifies l
    ensures Follow(l.max, passes, turns) && |emitted| >= 1 && emitted[0] == first
    ensures emitted[..|emitted| - 1] == Emitted(turns)
    ensures l.History(s) == Tail(prompt + Told(turns), l.maxHistory) && l.OthersKept(s)
  {
    l.Seed(s, prompt);
    emitted, turns := [first], [];
    assert prompt + [] == prompt;
    for i := 0 to |passes|
      invariant Follow(l.max, passes[..i], turns) && |emitted| >= 1 && emitted[0] == first
      invariant emitted[..|emitted| - 1] == Emitted(turns)
      invariant l.History(s) == Tail(prompt + Told(turns), l.maxHistory) && l.OthersKept(s)
    {
      ghost var turn;
      emitted, turn := OnePass(l, s, prompt, turns, emitted, passes[i]);
      assert (turns + [turn])[..|turns|] == turns;
      turns := turns + [turn];
    }
    assert passes[..|passes|] == passes;
  }

  // What is kept of the proposals: no more than were staged, and of those no more than were proposed.
  function KeptOf(out: seq<Token>, p: Pass): (kept: seq<Token>)
    ensures kept <= out && |kept| <= p.accepted && |kept| <= p.staged
    ensures |kept| == p.accepted || |kept| == p.staged || kept == out
  {
    var staged := if p.staged <= |out| then p.staged else |out|;
    out[..if p.accepted <= staged then p.accepted else staged]
  }

  // Asks the drafter if there is room, and reports what was kept.
  method Consult(l: Lookup, s: SeqId, ghost told: seq<Token>, hand: Token, p: Pass)
    returns (asked: bool, kept: seq<Token>)
    requires l.History(s) == Tail(told, l.maxHistory)
    modifies l
    ensures (asked <==> Room(l.max, p) >= 1) && (!asked ==> kept == []) && l.OthersKept(s)
    ensures l.History(s) == Tail(told + if asked then [hand] + kept else [], l.maxHistory)
  {
    var n := if p.room > l.max then l.max else p.room;
    if n <= 0 {
      assert told + [] == told;
      return false, [];
    }
    var out := l.Draft(s, hand, n);
    TailOfTail(told, [hand], l.maxHistory);
    kept := Report(l, s, told + [hand], out, p);
    asked := true;
    assert told + ([hand] + kept) == told + [hand] + kept;
  }

  // Tells the drafter what was kept, when anything of its proposal was staged.
  method Report(l: Lookup, s: SeqId, ghost told: seq<Token>, out: seq<Token>, p: Pass) returns (kept: seq<Token>)
    requires l.History(s) == Tail(told, l.maxHistory) && (out != [] ==> l.Last(s) == out)
    modifies l
    ensures kept == KeptOf(out, p) && l.OthersKept(s)
    ensures l.History(s) == Tail(told + kept, l.maxHistory)
  {
    kept := KeptOf(out, p);
    assert kept == [] ==> told + kept == told;
    if out != [] && p.staged > 0 {
      TailOfTail(told, kept, l.maxHistory);
      l.Accept(s, |kept|);
    }
  }

  method OnePass(l: Lookup, s: SeqId, ghost prompt: seq<Token>, ghost turns: seq<Turn>, emitted0: seq<Token>, p: Pass)
    returns (emitted: seq<Token>, ghost turn: Turn)
    requires |emitted0| >= 1 && emitted0[..|emitted0| - 1] == Emitted(turns)
    requires l.History(s) == Tail(prompt + Told(turns), l.maxHistory)
    modifies l
    ensures emitted0 < emitted && emitted[..|emitted| - 1] == Emitted(turns + [turn])
    ensures (turn.asked <==> Room(l.max, p) >= 1) && (!turn.asked ==> turn.kept == [])
    ensures l.History(s) == Tail(prompt + Told(turns + [turn]), l.maxHistory) && l.OthersKept(s)
  {
    var hand := emitted0[|emitted0| - 1];
    var asked, kept := Consult(l, s, prompt + Told(turns), hand, p);
    emitted := emitted0 + kept + [p.chosen];
    turn := Turn(hand, asked, kept);
    assert (turns + [turn])[..|turns|] == turns;
    assert emitted[..|emitted| - 1] == emitted0[..|emitted0| - 1] + ([hand] + kept);
    assert prompt + Told(turns + [turn]) == prompt + Told(turns) + if asked then [hand] + kept else [];
  }

  // Every token of an unasked turn is missing, for good.
  lemma {:induction false} ToldIsLess(max: int, passes: seq<Pass>, turns: seq<Turn>)
    requires Follow(max, passes, turns)
    ensures |Told(turns)| <= |Emitted(turns)|
    ensures Told(turns) == Emitted(turns) <==> forall i :: 0 <= i < |passes| ==> Room(max, passes[i]) >= 1
    ensures |Told(turns)| == |Emitted(turns)| ==> Told(turns) == Emitted(turns)
  {
    if turns != [] {
      var n := |turns| - 1;
      ToldIsLess(max, passes[..n], turns[..n]);
      assert passes[..n] + [passes[n]] == passes;
      assert turns[n].asked <==> Room(max, passes[n]) >= 1;
    }
  }

  // History is the prompt and all that was emitted before the token in hand exactly when every pass had
  // room for a proposal, as long as nothing had to be trimmed; and if every pass had room it is so
  // whatever was trimmed.
  lemma HistoryIsExactWhen(max: int, prompt: seq<Token>, passes: seq<Pass>, turns: seq<Turn>, most: nat)
    requires Follow(max, passes, turns)
    ensures var all := forall i :: 0 <= i < |passes| ==> Room(max, passes[i]) >= 1;
            var exact := Tail(prompt + Told(turns), most) == Tail(prompt + Emitted(turns), most);
            (all ==> exact) && (most == 0 || |prompt| + |Emitted(turns)| <= most ==> (exact <==> all))
  {
    ToldIsLess(max, passes, turns);
    var told, emitted := prompt + Told(turns), prompt + Emitted(turns);
    if told == emitted {
      assert told[|prompt|..] == Told(turns) && emitted[|prompt|..] == Emitted(turns);
    }
  }

  // One pass with a full batch: the token in hand goes out and the drafter never hears of it.
  lemma NoRoomLosesAToken(max: int, chosen: Token)
    ensures var turns := [Turn(5, false, [])];
            Follow(max, [Pass(0, 0, 0, chosen)], turns) && Emitted(turns) == [5] && Told(turns) == []
            && Tail([1, 2] + Told(turns), 0) == [1, 2] && Tail([1, 2] + Emitted(turns), 0) == [1, 2, 5]
  {
    var turns := [Turn(5, false, [])];
    assert turns[..0] == [];
    assert Emitted([]) == [] && Told([]) == [];
  }
}
