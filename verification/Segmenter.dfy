// Dividing chunks into candidate spans at paragraph and sentence ends, with exact offsets.
module Segments {
  import opened Sequences
  import opened Splitting
  import opened Spans

  datatype Piece = Piece(start: nat, end: nat)

  // ----- pieces of a text -----

  ghost predicate InPiece(out: seq<Piece>, i: nat) {
    exists k :: 0 <= k < |out| && out[k].start <= i < out[k].end
  }

  // Pieces in order inside s, none of them empty, with only `gap` between, before and after them.
  ghost predicate Pieces(s: string, out: seq<Piece>, upto: nat, gap: char -> bool) {
    && upto <= |s|
    && (forall k :: 0 <= k < |out| ==> out[k].start < out[k].end <= upto)
    && (forall k :: 0 < k < |out| ==> out[k - 1].end <= out[k].start)
    && (forall i: nat {:trigger InPiece(out, i)} :: i < upto && !gap(s[i]) ==> InPiece(out, i))
  }

  function With(out: seq<Piece>, start: nat, end: nat): seq<Piece> {
    if end > start then out + [Piece(start, end)] else out
  }

  lemma OneMorePiece(s: string, out: seq<Piece>, upto: nat, gap: char -> bool, end: nat, next: nat)
    requires Pieces(s, out, upto, gap) && upto <= end <= next <= |s|
    requires forall i :: end <= i < next ==> gap(s[i])
    ensures Pieces(s, With(out, upto, end), next, gap)
  {
    var all := With(out, upto, end);
    forall i: nat | i < next && !gap(s[i]) ensures InPiece(all, i) {
      if i < upto {
        assert InPiece(out, i);
        var k :| 0 <= k < |out| && out[k].start <= i < out[k].end;
        assert all[k].start <= i < all[k].end;
      } else {
        assert all[|out|].start <= i < all[|out|].end;
      }
    }
  }

  predicate BlankLineAt(s: string, i: int) {
    0 <= i && i + 2 <= |s| && s[i] == '\n' && s[i + 1] == '\n'
  }

  // A paragraph may begin here.
  predicate Opens(s: string, start: nat) {
    start == 0 || BlankLineAt(s, start - 2)
  }

  // From the start or a blank line to the next blank line or the end.
  ghost predicate Paragraph(s: string, p: Piece) {
    && p.start < p.end <= |s| && Opens(s, p.start) && (p.end == |s| || BlankLineAt(s, p.end))
    && forall i {:trigger BlankLineAt(s, i)} :: p.start <= i && i + 2 <= p.end ==> !BlankLineAt(s, i)
  }

  // The first blank line of s[start..], or none.
  method NextBlank(s: string, start: nat) returns (i: int)
    requires start <= |s|
    ensures i == -1 || (start <= i && BlankLineAt(s, i))
    ensures forall k {:trigger BlankLineAt(s, k)} :: start <= k && (i == -1 || k < i) ==> !BlankLineAt(s, k)
  {
    i := start;
    while i + 2 <= |s| && s[i..i + 2] != "\n\n"
      invariant start <= i <= |s|
      invariant forall k {:trigger BlankLineAt(s, k)} :: start <= k < i ==> !BlankLineAt(s, k)
    {
      assert s[i..i + 2][0] == s[i] && s[i..i + 2][1] == s[i + 1];
      assert s[i..i + 2] == [s[i], s[i + 1]];
      i := i + 1;
    }
    if i + 2 > |s| {
      i := -1;
    }
  }

  ghost predicate AllParagraphs(s: string, out: seq<Piece>) {
    forall k {:trigger Paragraph(s, out[k])} :: 0 <= k < |out| ==> Paragraph(s, out[k])
  }

  lemma OneMoreParagraph(s: string, out: seq<Piece>, start: nat, end: nat)
    requires AllParagraphs(s, out) && (end > start ==> Paragraph(s, Piece(start, end)))
    ensures AllParagraphs(s, With(out, start, end))
  {
    var all := With(out, start, end);
    forall k | 0 <= k < |all| ensures Paragraph(s, all[k]) {
      assert k < |out| ==> Paragraph(s, out[k]);
    }
  }

  // The next paragraph, and where the one after it begins.
  method TakeParagraph(s: string, start: nat, out0: seq<Piece>) returns (out: seq<Piece>, next: nat)
    requires start <= |s| && Opens(s, start) && Pieces(s, out0, start, NewLine) && AllParagraphs(s, out0)
    ensures next <= |s| && Pieces(s, out, next, NewLine) && AllParagraphs(s, out)
    ensures next < |s| ==> start < next && Opens(s, next)
  {
    out := out0;
    var end := NextBlank(s, start);
    if end < 0 {
      OneMorePiece(s, out, start, NewLine, |s|, |s|);
      OneMoreParagraph(s, out, start, |s|);
      if start < |s| {
        out := out + [Piece(start, |s|)];
      }
      return out, |s|;
    }
    OneMorePiece(s, out, start, NewLine, end, end + 2);
    OneMoreParagraph(s, out, start, end);
    if end > start {
      out := out + [Piece(start, end)];
    }
    next := end + 2;
  }

  // Paragraphs with their positions: everything but new lines is in one.
  method SplitKeepingOffsets(s: string) returns (out: seq<Piece>)
    ensures Pieces(s, out, |s|, NewLine) && AllParagraphs(s, out)
  {
    out := [];
    var start := 0;
    while true
      invariant start <= |s| && Opens(s, start) && Pieces(s, out, start, NewLine) && AllParagraphs(s, out)
      decreases |s| - start
    {
      out, start := TakeParagraph(s, start, out);
      if start >= |s| {
        return;
      }
    }
  }

  function Gap(c: char): bool {
    c == ' ' || c == '\n' || c == '\t'
  }

  // A terminator with white space or the end after it.
  predicate Ends(s: string, i: nat)
    requires i < |s|
  {
    (s[i] == '.' || s[i] == '!' || s[i] == '?') && (i + 1 == |s| || Gap(s[i + 1]))
  }

  // A sentence ends where it may and nowhere before, and none ends inside it.
  ghost predicate Whole(s: string, p: Piece) {
    p.start < p.end <= |s| && (Ends(s, p.end - 1) || p.end == |s|) && forall i ::
      p.start <= i < p.end - 1 ==> !Ends(s, i)
  }

  // Past the white space from i on.
  method PastGap(s: string, i: nat) returns (next: nat)
    requires i <= |s|
    ensures i <= next <= |s| && forall k :: i <= k < next ==> Gap(s[k])
  {
    next := i;
    while next < |s| && (s[next] == ' ' || s[next] == '\n' || s[next] == '\t')
      invariant i <= next <= |s| && forall k :: i <= k < next ==> Gap(s[k])
    {
      next := next + 1;
    }
  }

  ghost predicate AllWhole(s: string, out: seq<Piece>) {
    forall k {:trigger Whole(s, out[k])} :: 0 <= k < |out| ==> Whole(s, out[k])
  }

  lemma OneMoreWhole(s: string, out: seq<Piece>, start: nat, end: nat)
    requires AllWhole(s, out) && (end > start ==> Whole(s, Piece(start, end)))
    ensures AllWhole(s, With(out, start, end))
  {
    var all := With(out, start, end);
    forall k | 0 <= k < |all| ensures Whole(s, all[k]) {
      if k < |out| { assert Whole(s, out[k]); }
    }
  }

  // Sentences: everything but white space is in one, and each runs to its first terminator.
  method SplitSentences(s: string) returns (out: seq<Piece>)
    ensures Pieces(s, out, |s|, Gap) && AllWhole(s, out)
  {
    out := [];
    var start, i := 0, 0;
    while i < |s|
      invariant start <= i <= |s| && Pieces(s, out, start, Gap) && AllWhole(s, out)
      invariant forall k :: start <= k < i ==> !Ends(s, k)
    {
      if (s[i] == '.' || s[i] == '!' || s[i] == '?')
         && !(i + 1 < |s| && s[i + 1] != ' ' && s[i + 1] != '\n' && s[i + 1] != '\t') {
        var end := i + 1;
        var next := PastGap(s, end);
        OneMorePiece(s, out, start, Gap, end, next);
        OneMoreWhole(s, out, start, end);
        if end > start {
          out := out + [Piece(start, end)];
        }
        start, i := next, next;
      } else {
        i := i + 1;
      }
    }
    OneMorePiece(s, out, start, Gap, |s|, |s|);
    OneMoreWhole(s, out, start, |s|);
    if start < |s| {
      out := out + [Piece(start, |s|)];
    }
  }

  // ----- spans of a chunk -----

  // A paragraph of the chunk that fits the limit, or a sentence of one that does not.
  ghost predicate Drawn(c: Chunk, source: string, most: int, count: Counter, s: Span, para: Piece)
    requires 0 <= c.start <= c.end <= |source|
  {
    && Paragraph(source[c.start..c.end], para) && c.start + para.end <= |source|
    && var a, b := c.start + para.start, c.start + para.end;
    if count(source[a..b]) <= most then s.start == a && s.end == b
    else exists q {:trigger Whole(source[a..b], q)} ::
           Whole(source[a..b], q) && s.start == a + q.start && s.end == a + q.end
  }

  // A span of the chunk, not blank: one of its paragraphs, or a sentence of a paragraph over the limit.
  ghost predicate SpanOf(c: Chunk, source: string, most: int, count: Counter, blank: Blank, s: Span) {
    && c.start <= s.start < s.end <= c.end <= |source| && s.chunk == c.index && !blank(source[s.start..s.end])
    && exists para {:trigger Drawn(c, source, most, count, s, para)} :: Drawn(c, source, most, count, s, para)
  }

  // The spans of a chunk are in order, and end by upto.
  ghost predicate SpansTo(c: Chunk, source: string, most: int, count: Counter, blank: Blank, out: seq<Span>,
                          upto: int) {
    && (forall k {:trigger SpanOf(c, source, most, count, blank, out[k])} ::
          0 <= k < |out| ==> SpanOf(c, source, most, count, blank, out[k]))
    && (forall k :: 0 < k < |out| ==> out[k - 1].end <= out[k].start)
    && (out != [] ==> out[|out| - 1].end <= upto)
  }

  // Part of a stretch that is blank as a whole.
  ghost predicate InBlank(source: string, blank: Blank, i: int) {
    exists a, b :: 0 <= a <= i < b <= |source| && blank(source[a..b])
  }

  ghost predicate Seen(source: string, blank: Blank, out: seq<Span>, i: int) {
    Covers(out, i) || InBlank(source, blank, i)
  }

  // Of the bytes from a to b, all but white space and blank stretches are in a span.
  ghost predicate AllSeen(source: string, blank: Blank, out: seq<Span>, a: int, b: int) {
    forall i {:trigger Seen(source, blank, out, i)} ::
      a <= i < b && 0 <= i < |source| && !Gap(source[i]) ==> Seen(source, blank, out, i)
  }

  lemma SeenMore(source: string, blank: Blank, out: seq<Span>, more: seq<Span>, a: int, b: int)
    requires AllSeen(source, blank, out, a, b) && out <= more
    ensures AllSeen(source, blank, more, a, b)
  {
    forall i | a <= i < b && 0 <= i < |source| && !Gap(source[i]) ensures Seen(source, blank, more, i) {
      assert Seen(source, blank, out, i);
      if Covers(out, i) {
        var k :| 0 <= k < |out| && out[k].start <= i < out[k].end;
        assert more[k].start <= i < more[k].end;
      }
    }
  }

  lemma SpanSees(source: string, blank: Blank, out: seq<Span>, s: Span)
    ensures AllSeen(source, blank, out + [s], s.start, s.end)
  {
    forall i | s.start <= i < s.end ensures Seen(source, blank, out + [s], i) {
      assert (out + [s])[|out|].start <= i < (out + [s])[|out|].end;
    }
  }

  lemma BlankSees(source: string, blank: Blank, out: seq<Span>, a: nat, b: nat)
    requires a <= b <= |source| && blank(source[a..b])
    ensures AllSeen(source, blank, out, a, b)
  {
    forall i | a <= i < b ensures Seen(source, blank, out, i) {
      assert InBlank(source, blank, i);
    }
  }

  // The stretch that a piece of source[base..] covers.
  ghost predicate PieceSeen(source: string, blank: Blank, out: seq<Span>, base: nat, p: Piece) {
    AllSeen(source, blank, out, base + p.start, base + p.end)
  }

  ghost predicate PiecesSeen(source: string, blank: Blank, out: seq<Span>, base: nat, pieces: seq<Piece>, n: nat) {
    forall k {:trigger PieceSeen(source, blank, out, base, pieces[k])} ::
      0 <= k < n && k < |pieces| ==> PieceSeen(source, blank, out, base, pieces[k])
  }

  lemma PiecesSeenMore(source: string, blank: Blank, out: seq<Span>, more: seq<Span>, base: nat, pieces: seq<Piece>,
                       n: nat)
    requires PiecesSeen(source, blank, out, base, pieces, n) && out <= more && n < |pieces|
    requires PieceSeen(source, blank, more, base, pieces[n])
    ensures PiecesSeen(source, blank, more, base, pieces, n + 1)
  {
    forall k | 0 <= k < n + 1 ensures PieceSeen(source, blank, more, base, pieces[k]) {
      if k < n {
        assert PieceSeen(source, blank, out, base, pieces[k]);
        SeenMore(source, blank, out, more, base + pieces[k].start, base + pieces[k].end);
      }
    }
  }

  // A stretch is seen once its pieces are.
  lemma WholeSeen(source: string, blank: Blank, out: seq<Span>, base: nat, end: nat, pieces: seq<Piece>,
                  gap: char -> bool)
    requires base <= end <= |source| && Pieces(source[base..end], pieces, end - base, gap)
    requires forall ch :: gap(ch) ==> Gap(ch)
    requires PiecesSeen(source, blank, out, base, pieces, |pieces|)
    ensures AllSeen(source, blank, out, base, end)
  {
    forall i | base <= i < end && !Gap(source[i]) ensures Seen(source, blank, out, i) {
      assert source[base..end][i - base] == source[i];
      assert InPiece(pieces, i - base);
      var k :| 0 <= k < |pieces| && pieces[k].start <= i - base < pieces[k].end;
      assert PieceSeen(source, blank, out, base, pieces[k]);
    }
  }

  lemma OneMoreSpan(c: Chunk, source: string, most: int, count: Counter, blank: Blank, out: seq<Span>, upto: int,
                    s: Span)
    requires SpansTo(c, source, most, count, blank, out, upto) && SpanOf(c, source, most, count, blank, s)
             && upto <= s.start
    ensures SpansTo(c, source, most, count, blank, out + [s], s.end)
  {
    forall k | 0 <= k < |out| + 1 ensures SpanOf(c, source, most, count, blank, (out + [s])[k]) {
      if k < |out| { assert SpanOf(c, source, most, count, blank, out[k]); }
    }
  }

  // A paragraph over the limit.
  ghost predicate TooLong(c: Chunk, source: string, most: int, count: Counter, para: Piece) {
    && c.start <= c.end <= |source| && Paragraph(source[c.start..c.end], para)
    && count(source[c.start + para.start..c.start + para.end]) > most
  }

  // One sentence kept, unless it is blank.
  method AddSentence(c: Chunk, source: string, most: int, count: Counter, blank: Blank, ghost para: Piece, base: nat,
                     end: nat, sent: Piece, out0: seq<Span>)
    returns (out: seq<Span>)
    requires TooLong(c, source, most, count, para) && base == c.start + para.start && end == c.start + para.end
    requires sent.end <= end - base && Whole(source[base..end], sent)
    requires SpansTo(c, source, most, count, blank, out0, base + sent.start)
    ensures out0 <= out && SpansTo(c, source, most, count, blank, out, base + sent.end)
            && PieceSeen(source, blank, out, base, sent)
  {
    if blank(source[base + sent.start..base + sent.end]) {
      BlankSees(source, blank, out0, base + sent.start, base + sent.end);
      return out0;
    }
    var s := Span(base + sent.start, base + sent.end, c.index, "", 0.0);
    assert Drawn(c, source, most, count, s, para);
    OneMoreSpan(c, source, most, count, blank, out0, base + sent.start, s);
    SpanSees(source, blank, out0, s);
    out := out0 + [s];
  }

  method AddSentences(c: Chunk, source: string, most: int, count: Counter, blank: Blank, ghost para: Piece, base: nat,
                      end: nat, out0: seq<Span>) returns (out: seq<Span>)
    requires TooLong(c, source, most, count, para) && base == c.start + para.start && end == c.start + para.end
    requires SpansTo(c, source, most, count, blank, out0, base)
    ensures out0 <= out && SpansTo(c, source, most, count, blank, out, end) && AllSeen(source, blank, out, base, end)
  {
    out := out0;
    var sentences := SplitSentences(source[base..end]);
    ghost var upto: int := base;
    for k := 0 to |sentences|
      invariant out0 <= out && upto <= end && SpansTo(c, source, most, count, blank, out, upto)
      invariant k < |sentences| ==> upto <= base + sentences[k].start
      invariant PiecesSeen(source, blank, out, base, sentences, k)
    {
      assert Whole(source[base..end], sentences[k]);
      ghost var before := out;
      out := AddSentence(c, source, most, count, blank, para, base, end, sentences[k], out);
      PiecesSeenMore(source, blank, before, out, base, sentences, k);
      upto := base + sentences[k].end;
    }
    WholeSeen(source, blank, out, base, end, sentences, Gap);
  }

  // A paragraph kept whole, or by its sentences when it is too large, unless it is blank.
  method AddParagraph(c: Chunk, source: string, most: int, count: Counter, blank: Blank, para: Piece,
                      out0: seq<Span>) returns (out: seq<Span>)
    requires c.start <= c.end <= |source| && Paragraph(source[c.start..c.end], para)
    requires SpansTo(c, source, most, count, blank, out0, c.start + para.start)
    ensures out0 <= out && SpansTo(c, source, most, count, blank, out, c.start + para.end)
            && PieceSeen(source, blank, out, c.start, para)
  {
    var a, b := c.start + para.start, c.start + para.end;
    if blank(source[a..b]) {
      BlankSees(source, blank, out0, a, b);
      return out0;
    }
    if count(source[a..b]) <= most {
      var s := Span(a, b, c.index, "", 0.0);
      assert Drawn(c, source, most, count, s, para);
      OneMoreSpan(c, source, most, count, blank, out0, a, s);
      SpanSees(source, blank, out0, s);
      return out0 + [s];
    }
    out := AddSentences(c, source, most, count, blank, para, a, b, out0);
  }

  function Most(maxTokens: int): int {
    if maxTokens < 1 then 256 else maxTokens
  }

  ghost predicate Inside(c: Chunk, source: string) {
    c.start < c.end <= |source|
  }

  // Paragraphs, or the sentences of a paragraph that is too large: all of the chunk but white space.
  method Segment(c: Chunk, source: string, maxTokens: int, count: Counter, blank: Blank) returns (out: seq<Span>)
    ensures SpansTo(c, source, Most(maxTokens), count, blank, out, |source|)
    ensures if Inside(c, source) then AllSeen(source, blank, out, c.start, c.end) else out == []
  {
    out := [];
    if c.end <= c.start || c.end > |source| {
      return;
    }
    var most := if maxTokens < 1 then 256 else maxTokens;
    var paras := SplitKeepingOffsets(source[c.start..c.end]);
    ghost var upto: int := c.start;
    for k := 0 to |paras|
      invariant upto <= c.end && SpansTo(c, source, most, count, blank, out, upto)
      invariant k < |paras| ==> upto <= c.start + paras[k].start
      invariant PiecesSeen(source, blank, out, c.start, paras, k)
    {
      ghost var before := out;
      assert Paragraph(source[c.start..c.end], paras[k]);
      out := AddParagraph(c, source, most, count, blank, paras[k], out);
      PiecesSeenMore(source, blank, before, out, c.start, paras, k);
      upto := c.start + paras[k].end;
    }
    WholeSeen(source, blank, out, c.start, c.end, paras, NewLine);
  }

  ghost predicate ChunkSeen(c: Chunk, source: string, blank: Blank, out: seq<Span>) {
    Inside(c, source) ==> AllSeen(source, blank, out, c.start, c.end)
  }

  ghost predicate ChunksSeen(chunks: seq<Chunk>, source: string, blank: Blank, out: seq<Span>, n: nat) {
    forall j {:trigger ChunkSeen(chunks[j], source, blank, out)} ::
      0 <= j < n && j < |chunks| ==> ChunkSeen(chunks[j], source, blank, out)
  }

  lemma ChunksSeenMore(chunks: seq<Chunk>, source: string, blank: Blank, out: seq<Span>, more: seq<Span>, n: nat)
    requires ChunksSeen(chunks, source, blank, out, n) && n < |chunks|
    requires Inside(chunks[n], source) ==> AllSeen(source, blank, more, chunks[n].start, chunks[n].end)
    ensures ChunksSeen(chunks, source, blank, out + more, n + 1)
  {
    forall j | 0 <= j < n + 1 ensures ChunkSeen(chunks[j], source, blank, out + more) {
      if j < n {
        assert ChunkSeen(chunks[j], source, blank, out);
      }
      if Inside(chunks[j], source) {
        if j < n {
          SeenMore(source, blank, out, out + more, chunks[j].start, chunks[j].end);
        } else {
          SeenLater(source, blank, out, more, chunks[j].start, chunks[j].end);
        }
      }
    }
  }

  lemma SeenLater(source: string, blank: Blank, out: seq<Span>, more: seq<Span>, a: int, b: int)
    requires AllSeen(source, blank, more, a, b)
    ensures AllSeen(source, blank, out + more, a, b)
  {
    forall i | a <= i < b && 0 <= i < |source| && !Gap(source[i]) ensures Seen(source, blank, out + more, i) {
      assert Seen(source, blank, more, i);
      if Covers(more, i) {
        var k :| 0 <= k < |more| && more[k].start <= i < more[k].end;
        assert (out + more)[|out| + k].start <= i < (out + more)[|out| + k].end;
      }
    }
  }

  lemma SeenAfterSort(chunks: seq<Chunk>, source: string, blank: Blank, all: seq<Span>, sorted: seq<Span>)
    requires ChunksSeen(chunks, source, blank, all, |chunks|) && forall i :: Covers(sorted, i) <==> Covers(all, i)
    ensures ChunksSeen(chunks, source, blank, sorted, |chunks|)
  {
    forall j | 0 <= j < |chunks| ensures ChunkSeen(chunks[j], source, blank, sorted) {
      assert ChunkSeen(chunks[j], source, blank, all);
      if Inside(chunks[j], source) {
        forall i | chunks[j].start <= i < chunks[j].end && !Gap(source[i]) ensures Seen(source, blank, sorted, i) {
          assert Seen(source, blank, all, i);
        }
      }
    }
  }

  // Every chunk indexed, in document order, overlaps merged: an index that is valid for its source and
  // leaves out nothing of its chunks but white space.
  method SegmentAll(chunks: seq<Chunk>, source: string, maxTokens: int, count: Counter, blank: Blank)
    returns (ix: Index)
    ensures fresh(ix) && fresh(ix.spans) && ix.Valid() && Separated(ix.Contents())
    ensures forall k :: 0 <= k < ix.used ==> 0 <= ix.Contents()[k].start < ix.Contents()[k].end <= |source|
    ensures ChunksSeen(chunks, source, blank, ix.Contents(), |chunks|)
  {
    var all: seq<Span> := [];
    for i := 0 to |chunks|
      invariant forall k :: 0 <= k < |all| ==> 0 <= all[k].start < all[k].end <= |source|
      invariant ChunksSeen(chunks, source, blank, all, i)
    {
      var more := Segment(chunks[i], source, maxTokens, count, blank);
      forall k | 0 <= k < |more| ensures 0 <= more[k].start < more[k].end <= |source| {
        assert SpanOf(chunks[i], source, Most(maxTokens), count, blank, more[k]);
      }
      ChunksSeenMore(chunks, source, blank, all, more, i);
      all := all + more;
    }
    ix := new Index("", all);
    ix.Sort();
    ghost var sorted :| InOrder(sorted) && multiset(sorted) == multiset(all) && Merged(sorted, ix.Contents());
    SortKeepsTheDocument(all, sorted, ix.Contents(), |source|);
    SeenAfterSort(chunks, source, blank, all, ix.Contents());
  }
}
