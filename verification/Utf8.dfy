/** Streaming UTF-8 reassembly: the byte buffer that every stream keeps between tokens.

    A token may end in the middle of a character, so a piece is appended to a buffer and only the
    bytes up to the last character boundary are released.  Well-formedness is the one of section 4
    of RFC 3629. */
module Utf8 {

  type Byte = b: int | 0 <= b < 256

  predicate Continuation(c: Byte) { 0x80 <= c < 0xC0 }

  /** Bytes in the character that the lead byte `c` opens, judged by its high bits alone;
      0 for a continuation byte and for the bit patterns that open nothing. */
  function Announced(c: Byte): nat {
    if c < 0x80 then 1
    else if c < 0xC0 then 0
    else if c < 0xE0 then 2
    else if c < 0xF0 then 3
    else if c < 0xF8 then 4
    else 0
  }

  // ----- What the code computes -----

  /** The walk back from the end: `i` bytes back is the next byte to look at. */
  function CutFrom(b: seq<Byte>, i: nat): (cut: nat)
    requires 1 <= i
    ensures cut <= |b|
    decreases 5 - i
  {
    if i > 4 || i > |b| then |b|
    else
      var c := b[|b| - i];
      if Continuation(c) then CutFrom(b, i + 1)
      else if Announced(c) == 0 then CutFrom(b, i + 1)
      else if i >= Announced(c) then |b|
      else |b| - i
  }

  /** Length of the part of `b` that may be released. */
  function Cut(b: seq<Byte>): (cut: nat)
    ensures cut <= |b|
  {
    if b == [] then 0 else CutFrom(b, 1)
  }

  method CompleteUtf8(b: seq<Byte>) returns (cut: nat)
    ensures cut == Cut(b)
  {
    if |b| == 0 {
      return 0;
    }
    var i := 1;
    while i <= 4 && i <= |b|
      invariant 1 <= i <= 5
      invariant CutFrom(b, i) == CutFrom(b, 1)
    {
      var c := b[|b| - i];
      if c < 0x80 {
        return |b|;
      } else if Continuation(c) {
        // keep walking back
      } else if c < 0xE0 {
        return if i >= 2 then |b| else |b| - i;
      } else if c < 0xF0 {
        return if i >= 3 then |b| else |b| - i;
      } else if c < 0xF8 {
        return if i >= 4 then |b| else |b| - i;
      }
      i := i + 1;
    }
    return |b|;
  }

  // ----- What it means: RFC 3629, section 4 -----

  /** One well-formed character. */
  predicate Char(s: seq<Byte>) {
    match |s|
    case 1 => s[0] < 0x80
    case 2 => 0xC2 <= s[0] < 0xE0 && Continuation(s[1])
    case 3 =>
      && 0xE0 <= s[0] < 0xF0 && Continuation(s[1]) && Continuation(s[2])
      && (s[0] == 0xE0 ==> s[1] >= 0xA0)
      && (s[0] == 0xED ==> s[1] < 0xA0)
    case 4 =>
      && 0xF0 <= s[0] < 0xF5 && Continuation(s[1]) && Continuation(s[2]) && Continuation(s[3])
      && (s[0] == 0xF0 ==> s[1] >= 0x90)
      && (s[0] == 0xF4 ==> s[1] < 0x90)
    case _ => false
  }

  /** Length of the character that `s` starts with, or 0 when it starts with none. */
  function CharLen(s: seq<Byte>): (n: nat)
    ensures n <= |s|
    ensures n > 0 ==> Char(s[..n])
  {
    if s == [] then 0
    else
      var n := Announced(s[0]);
      if 0 < n <= |s| && Char(s[..n]) then n else 0
  }

  /** A sequence of whole characters. */
  predicate WellFormed(s: seq<Byte>)
    decreases |s|
  {
    s == [] || (CharLen(s) > 0 && WellFormed(s[CharLen(s)..]))
  }

  /** A character that has begun and not ended: what may have to wait in the buffer. */
  ghost predicate Unfinished(s: seq<Byte>) {
    exists c: seq<Byte> :: Char(c) && s < c
  }

  lemma CharFacts(c: seq<Byte>)
    requires Char(c)
    ensures 1 <= |c| <= 4 && |c| == Announced(c[0])
    ensures forall k :: 1 <= k < |c| ==> Continuation(c[k])
  {
  }

  /** No well-formed character is a proper prefix of another. */
  lemma CharLenOfChar(c: seq<Byte>, rest: seq<Byte>)
    requires Char(c)
    ensures CharLen(c + rest) == |c|
  {
    CharFacts(c);
    assert (c + rest)[..|c|] == c;
  }

  lemma {:induction false} WellFormedConcat(a: seq<Byte>, b: seq<Byte>)
    requires WellFormed(a)
    ensures WellFormed(a + b) <==> WellFormed(b)
    decreases |a|
  {
    if a == [] {
      assert a + b == b;
    } else {
      var n := CharLen(a);
      assert a + b == a[..n] + (a[n..] + b);
      CharLenOfChar(a[..n], a[n..] + b);
      assert (a + b)[n..] == a[n..] + b;
      WellFormedConcat(a[n..], b);
    }
  }

  /** Any prefix of a well-formed text is whole characters followed by an unfinished one. */
  lemma {:induction false} PrefixSplits(b: seq<Byte>, w: seq<Byte>) returns (k: nat)
    requires WellFormed(w) && b <= w
    ensures k <= |b| && WellFormed(b[..k])
    ensures b[k..] != [] ==> Unfinished(b[k..])
    decreases |w|
  {
    if b == [] {
      k := 0;
    } else {
      var n := CharLen(w);
      assert Char(w[..n]);
      if |b| < n {
        k := 0;
        assert b[0..] == b && b < w[..n];
      } else {
        var j := PrefixSplits(b[n..], w[n..]);
        k := n + j;
        assert b[..n] == w[..n];
        assert b[..k] == b[..n] + b[n..][..j];
        assert b[k..] == b[n..][j..];
        CharIsWellFormed(b[..n]);
        WellFormedConcat(b[..n], b[n..][..j]);
      }
    }
  }

  lemma CharIsWellFormed(c: seq<Byte>)
    requires Char(c)
    ensures WellFormed(c)
  {
    CharLenOfChar(c, []);
    assert c + [] == c;
    assert c[|c|..] == [];
  }

  /** The last character of a non-empty well-formed text. */
  lemma {:induction false} LastChar(a: seq<Byte>) returns (front: seq<Byte>, c: seq<Byte>)
    requires WellFormed(a) && a != []
    ensures a == front + c && Char(c)
    decreases |a|
  {
    var m := CharLen(a);
    if m == |a| {
      front, c := [], a;
      assert a[..m] == a;
    } else {
      front, c := LastChar(a[m..]);
      front := a[..m] + front;
    }
  }

  /** The walk back stops at the lead byte of the last character, whole or not. */
  lemma CutAtLead(front: seq<Byte>, last: seq<Byte>)
    requires 1 <= |last| <= 4 && Announced(last[0]) > 0
    requires forall k :: 1 <= k < |last| ==> Continuation(last[k])
    ensures Cut(front + last) == |front| + if |last| >= Announced(last[0]) then |last| else 0
  {
    var b := front + last;
    var i := 1;
    while i < |last|
      invariant 1 <= i <= |last|
      invariant CutFrom(b, i) == CutFrom(b, 1)
    {
      assert b[|b| - i] == last[|last| - i];
      i := i + 1;
    }
    assert b[|b| - i] == last[0];
  }

  /** The cut is exact: for anything that may still become well-formed text, what is released is
      whole characters and what is held back is the one unfinished character, if any. */
  lemma CutIsExact(b: seq<Byte>, w: seq<Byte>)
    requires WellFormed(w) && b <= w
    ensures WellFormed(b[..Cut(b)])
    ensures b[Cut(b)..] != [] ==> Unfinished(b[Cut(b)..])
    ensures |b| - Cut(b) <= 3
    ensures WellFormed(b) <==> Cut(b) == |b|
  {
    var k := PrefixSplits(b, w);
    if k < |b| {
      CutKeepsWhole(b[..k], b[k..]);
      assert b == b[..k] + b[k..];
    } else {
      assert b[..k] == b;
      if b != [] {
        CutReleasesAll(b);
      }
      assert b[..Cut(b)] == b;
    }
  }

  lemma CutKeepsWhole(front: seq<Byte>, held: seq<Byte>)
    requires WellFormed(front) && held != [] && Unfinished(held)
    ensures Cut(front + held) == |front|
    ensures !WellFormed(front + held)
    ensures |held| <= 3
  {
    var c :| Char(c) && held < c;
    CharFacts(c);
    assert forall i :: 0 <= i < |held| ==> held[i] == c[i];
    CutAtLead(front, held);
    UnfinishedIsNotWellFormed(held);
    WellFormedConcat(front, held);
  }

  lemma CutReleasesAll(b: seq<Byte>)
    requires WellFormed(b) && b != []
    ensures Cut(b) == |b|
  {
    var front, c := LastChar(b);
    CharFacts(c);
    CutAtLead(front, c);
  }

  lemma UnfinishedIsNotWellFormed(s: seq<Byte>)
    requires Unfinished(s) && s != []
    ensures !WellFormed(s)
    ensures |s| <= 3
  {
    var c :| Char(c) && s < c;
    CharFacts(c);
    assert s[0] == c[0];
  }

  // ----- The buffer over a whole stream -----

  /** Bytes released so far and bytes held back. */
  datatype Buffered = Buffered(text: seq<Byte>, held: seq<Byte>)

  function Consume(s: Buffered, piece: seq<Byte>): Buffered {
    var b := s.held + piece;
    Buffered(s.text + b[..Cut(b)], b[Cut(b)..])
  }

  function ConsumeAll(pieces: seq<seq<Byte>>): Buffered {
    if pieces == [] then Buffered([], [])
    else Consume(ConsumeAll(pieces[..|pieces| - 1]), pieces[|pieces| - 1])
  }

  function Joined(pieces: seq<seq<Byte>>): seq<Byte> {
    if pieces == [] then [] else Joined(pieces[..|pieces| - 1]) + pieces[|pieces| - 1]
  }

  /** No byte is lost, duplicated or reordered, whatever the bytes are. */
  lemma {:induction false} NothingLost(pieces: seq<seq<Byte>>)
    ensures ConsumeAll(pieces).text + ConsumeAll(pieces).held == Joined(pieces)
  {
    if pieces != [] {
      var front, p := pieces[..|pieces| - 1], pieces[|pieces| - 1];
      NothingLost(front);
      var s := ConsumeAll(front);
      var b := s.held + p;
      assert b == b[..Cut(b)] + b[Cut(b)..];
      assert s.text + b[..Cut(b)] + b[Cut(b)..] == s.text + b == (s.text + s.held) + p;
    }
  }

  /** However a well-formed text is split into pieces, everything released is whole characters, at
      most three bytes wait, they are the unfinished character at the end, and nothing waits exactly
      when the bytes received so far are themselves well-formed. */
  lemma {:induction false} StreamingIsExact(pieces: seq<seq<Byte>>, w: seq<Byte>)
    requires WellFormed(w) && Joined(pieces) <= w
    ensures var s := ConsumeAll(pieces);
            && s.text + s.held == Joined(pieces)
            && WellFormed(s.text)
            && |s.held| <= 3
            && (s.held != [] ==> Unfinished(s.held))
            && (s.held == [] <==> WellFormed(Joined(pieces)))
  {
    NothingLost(pieces);
    if pieces != [] {
      var front, p := pieces[..|pieces| - 1], pieces[|pieces| - 1];
      assert Joined(front) <= w by {
        assert Joined(front) <= Joined(pieces);
      }
      StreamingIsExact(front, w);
      OnePiece(ConsumeAll(front), p, w);
    }
  }

  lemma OnePiece(s: Buffered, p: seq<Byte>, w: seq<Byte>)
    requires WellFormed(w) && WellFormed(s.text) && s.text + s.held + p <= w
    ensures var s' := Consume(s, p);
            && WellFormed(s'.text)
            && |s'.held| <= 3
            && (s'.held != [] ==> Unfinished(s'.held))
            && (s'.held == [] <==> WellFormed(s.text + s.held + p))
  {
    var b := s.held + p;
    var rest := w[|s.text|..];
    assert s.text + b == s.text + s.held + p;
    assert w == s.text + rest;
    WellFormedConcat(s.text, rest);
    assert b <= rest by {
      assert w[..|s.text + b|] == s.text + b;
      assert rest[..|b|] == w[|s.text|..|s.text| + |b|];
    }
    CutIsExact(b, rest);
    WellFormedConcat(s.text, b[..Cut(b)]);
    WellFormedConcat(s.text, b);
  }
}
