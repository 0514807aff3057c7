// Tool calls written as XML by the model's own template, read back out of a completion.
module ToolXml {
  import opened Options
  import opened Sequences

  // White space, whatever the library takes it to be, and which texts are well-formed JSON.
  type Space = char -> bool
  type Json = string -> bool

  datatype Arg = Plain(text: string) | Decoded(json: string)

  datatype Call = Call(name: string, args: map<string, Arg>)

  // The tags of the form. The proofs use of them only what Distinguishable says.
  datatype Tags = Tags(open: string, close: string, fn: string, parameter: string, endParameter: string, endFn: string)

  const TEMPLATE := Tags("<tool_call>", "</tool_call>", "<function=", "<parameter=", "</parameter>", "</function>")

  // ----- searching -----

  // The first position of p in s, or -1.
  function Find(s: string, p: string): (i: int)
    ensures -1 <= i && (i >= 0 ==> i + |p| <= |s|)
  {
    if |s| < |p| then -1
    else if s[..|p|] == p then 0
    else if s == "" then -1
    else
      var i := Find(s[1..], p);
      if i < 0 then -1 else i + 1
  }

  // c is not among the characters of p from place i on.
  predicate Lacks(p: string, i: nat, c: char) {
    forall k :: i <= k < |p| ==> p[k] != c
  }

  // b cannot finish what a starts of p: its first character, or a's last, is in the wrong place for it.
  ghost predicate Apart(a: string, b: string, p: string)
    requires |p| > 0
  {
    (b != "" && Lacks(p, 1, b[0])) || (a != "" && Lacks(p[..|p| - 1], 0, a[|a| - 1]))
  }

  lemma {:induction false} NotAcross(a: string, b: string, p: string)
    requires 0 < |a| && 0 < |p| && Apart(a, b, p)
    ensures |a| < |p| <= |a + b| ==> (a + b)[..|p|] != p
  {
    if |a| < |p| <= |a + b| {
      assert p[..|p| - 1][|a| - 1] == p[|a| - 1];
      assert (a + b)[..|p|][|a|] == b[0] && (a + b)[..|p|][|a| - 1] == a[|a| - 1];
    }
  }

  // Past a stretch with no p in it the search is the search of the rest.
  lemma {:induction false} FindPast(a: string, b: string, p: string)
    requires |p| > 0 && Find(a, p) < 0 && (a == "" || b == "" || Apart(a, b, p))
    ensures Find(a + b, p) == if Find(b, p) < 0 then -1 else |a| + Find(b, p)
  {
    if a == "" {
      assert a + b == b;
    } else if b == "" {
      assert a + b == a;
    } else {
      assert (a + b)[1..] == a[1..] + b;
      NotAcross(a, b, p);
      if |a| >= |p| {
        assert (a + b)[..|p|] == a[..|p|];
      }
      FindLess(a, p);
      if a[1..] != "" { assert a[1..][|a[1..]| - 1] == a[|a| - 1]; }
      FindPast(a[1..], b, p);
      FindShort(a + b, p);
    }
  }

  lemma {:induction false} FindLess(a: string, p: string)
    requires |p| > 0 && a != "" && Find(a, p) < 0
    ensures Find(a[1..], p) < 0
  {}

  lemma {:induction false} FindShort(s: string, p: string)
    requires |p| > 0 && s != "" && !(|s| >= |p| && s[..|p|] == p)
    ensures Find(s, p) == if Find(s[1..], p) < 0 then -1 else 1 + Find(s[1..], p)
  {}

  lemma {:induction false} FindHere(p: string, b: string)
    ensures Find(p + b, p) == 0
  {
    assert (p + b)[..|p|] == p;
  }

  // A stretch without the first character of p has no p in it.
  lemma {:induction false} NoFirst(a: string, p: string)
    requires |p| > 0 && Lacks(a, 0, p[0])
    ensures Find(a, p) < 0
  {
    if |a| >= |p| {
      assert a[..|p|][0] == a[0];
      NoFirst(a[1..], p);
    }
  }

  lemma {:induction false} FoundAt(s: string, p: string)
    requires Find(s, p) >= 0
    ensures s[Find(s, p)..][..|p|] == p
  {
    if s[..|p|] != p {
      FoundAt(s[1..], p);
    }
  }

  // ----- trimming -----

  function TrimLeft(space: Space, s: string): (r: string)
    ensures |r| <= |s|
  {
    if s != "" && space(s[0]) then TrimLeft(space, s[1..]) else s
  }

  function TrimRight(space: Space, s: string): (r: string)
    ensures |r| <= |s|
  {
    if s != "" && space(s[|s| - 1]) then TrimRight(space, s[..|s| - 1]) else s
  }

  function Trim(space: Space, s: string): string {
    TrimRight(space, TrimLeft(space, s))
  }

  // ----- the tags -----

  // A tag starts with the one opening bracket in it and has no new line.
  predicate IsTag(p: string) {
    |p| > 1 && p[0] == '<' && Lacks(p, 1, '<') && Lacks(p, 0, '\n')
  }

  // No tag hides in another, and none can start where another ends.
  ghost predicate Distinguishable(t: Tags) {
    && IsTag(t.open) && IsTag(t.close) && IsTag(t.fn) && IsTag(t.parameter) && IsTag(t.endParameter) && IsTag(t.endFn)
    && Lacks(t.fn, 0, '>') && Lacks(t.parameter, 0, '>')
    && Lacks(t.close[..|t.close| - 1], 0, t.open[|t.open| - 1]) && |t.open| < |t.close|
    && Find(t.fn, t.close) < 0 && Find(t.parameter, t.close) < 0
    && Find(t.endParameter, t.close) < 0 && Find(t.endFn, t.close) < 0
    && Find(t.endFn, t.parameter) < 0
    && t.close[|t.close| - 1] == '>' && Lacks(t.close, 0, t.fn[|t.fn| - 1])
    && Lacks(t.close, 0, t.parameter[|t.parameter| - 1])
  }

  // One tag is not in another from which it differs at place k.
  lemma {:induction false} NotInside(s: string, p: string, k: nat)
    requires IsTag(s) && |p| > 1 && p[0] == '<' && k < |s| && k < |p| && s[k] != p[k]
    ensures Find(s, p) < 0
  {
    assert |s| >= |p| ==> s[..|p|][k] == s[k];
    assert Lacks(s[1..], 0, '<');
    NoFirst(s[1..], p);
  }

  lemma {:induction false} TemplateTags()
    ensures IsTag("<tool_call>") && IsTag("</tool_call>") && IsTag("<function=")
    ensures IsTag("<parameter=") && IsTag("</parameter>") && IsTag("</function>")
    ensures Lacks("<function=", 0, '>') && Lacks("<parameter=", 0, '>')
    ensures Lacks("</tool_call>", 0, '=') && Lacks("</tool_call>"[..|"</tool_call>"| - 1], 0, '>')
  {}

  lemma {:induction false} TemplateIsDistinguishable()
    ensures Distinguishable(TEMPLATE)
  {
    TemplateTags();
    NotInside("<function=", "</tool_call>", 1);
    NotInside("<parameter=", "</tool_call>", 1);
    NotInside("</parameter>", "</tool_call>", 2);
    NotInside("</function>", "</tool_call>", 2);
    NotInside("</function>", "<parameter=", 1);
  }

  // A tag without a closing bracket in it, found, is closed only after it.
  lemma {:induction false} TagEnds(rest: string, tag: string)
    requires IsTag(tag) && '>' !in tag && Find(rest, tag) >= 0
    ensures var s := rest[Find(rest, tag)..]; Find(s, ">") >= 0 ==> Find(s, ">") >= |tag|
  {
    FoundAt(rest, tag);
    var s := rest[Find(rest, tag)..];
    NoFirst(tag, ">");
    assert s == tag + s[|tag|..];
    FindPast(tag, s[|tag|..], ">");
  }

  // The closing tag is not found inside the opening one.
  lemma {:induction false} CloseIsAfterOpen(rest: string, t: Tags)
    requires Distinguishable(t) && Find(rest, t.open) >= 0
    ensures var s := rest[Find(rest, t.open)..]; Find(s, t.close) >= 0 ==> Find(s, t.close) >= |t.open|
  {
    FoundAt(rest, t.open);
    var s := rest[Find(rest, t.open)..];
    assert s == t.open + s[|t.open|..];
    FindPast(t.open, s[|t.open|..], t.close);
  }

  // ----- what the text means -----

  // What a tag like <function=NAME> names, trimmed, and the text from its bracket on.
  datatype Named = Named(name: string, rest: string)

  function TagPart(space: Space, tag: string, rest: string): (r: Option<Named>)
    requires IsTag(tag) && Lacks(tag, 0, '>')
    ensures r.Some? ==> 0 < |r.value.rest| < |rest|
  {
    var at := Find(rest, tag);
    if at < 0 then None
    else
      var end := Find(rest[at..], ">");
      TagEnds(rest, tag);
      if end < 0 then None else Some(Named(Trim(space, rest[at + |tag|..at + end]), rest[at + end..]))
  }

  // A parameter taken off the front of a block and what follows it.
  datatype Taken = Taken(key: string, value: string, rest: string)

  function NextParam(t: Tags, space: Space, rest: string): (r: Option<Taken>)
    requires Distinguishable(t)
    ensures r.Some? ==> |r.value.rest| < |rest|
  {
    var key := TagPart(space, t.parameter, rest);
    if key.None? then None
    else
      var after := key.value.rest[1..];
      var vEnd := Find(after, t.endParameter);
      if vEnd < 0 then None
      else Some(Taken(key.value.name, Trim(NewLine, after[..vEnd]), after[vEnd + |t.endParameter|..]))
  }

  // One step of reading, as a function value, so that the loops carry it without its searches.
  type Reader<T> = string -> Option<T>

  ghost predicate Shrinks(next: Reader<Taken>) {
    forall s {:trigger next(s)} :: next(s).Some? ==> |next(s).value.rest| < |s|
  }

  ghost predicate ReadsParams(t: Tags, space: Space, next: Reader<Taken>)
    requires Distinguishable(t)
  {
    Shrinks(next) && forall s {:trigger NextParam(t, space, s)} :: next(s) == NextParam(t, space, s)
  }

  function ParamReader(t: Tags, space: Space): (next: Reader<Taken>)
    requires Distinguishable(t)
    ensures ReadsParams(t, space, next)
  {
    s => NextParam(t, space, s)
  }

  // The parameters of a block, in order; one with no key is passed over.
  function Params(next: Reader<Taken>, rest: string): seq<(string, string)>
    requires Shrinks(next)
    decreases |rest|
  {
    var p := next(rest);
    if p.None? then []
    else (if p.value.key != "" then [(p.value.key, p.value.value)] else []) + Params(next, p.value.rest)
  }

  // A value that looks like a JSON object or list and is well formed is structure, and any other is text.
  function ArgOf(json: Json, value: string): Arg {
    if value != "" && (value[0] == '{' || value[0] == '[') && json(value) then Decoded(value) else Plain(value)
  }

  function ArgsOf(json: Json, params: seq<(string, string)>): map<string, Arg> {
    if params == [] then map[]
    else
      var n := |params| - 1;
      ArgsOf(json, params[..n])[params[n].0 := ArgOf(json, params[n].1)]
  }

  function Block(t: Tags, space: Space, json: Json, body: string): Option<Call>
    requires Distinguishable(t)
  {
    var n := TagPart(space, t.fn, body);
    if n.None? || n.value.name == "" then None
    else Some(Call(n.value.name, ArgsOf(json, Params(ParamReader(t, space), n.value.rest))))
  }

  // A block found in a text: what stands before it, that with the block, its inside, the rest.
  datatype Found = Found(before: string, whole: string, body: string, rest: string)

  function NextBlock(t: Tags, rest: string): (r: Option<Found>)
    requires Distinguishable(t)
    ensures r.Some? ==> |r.value.rest| < |rest| && rest == r.value.whole + r.value.rest
  {
    var open := Find(rest, t.open);
    if open < 0 then None
    else
      var closeAt := Find(rest[open..], t.close);
      CloseIsAfterOpen(rest, t);
      if closeAt < 0 then None
      else Some(BlockAt(t, rest, open, closeAt))
  }

  // The block that opens at `open` and is closed `closeAt` further on.
  function BlockAt(t: Tags, rest: string, open: nat, closeAt: nat): (f: Found)
    requires 0 < |t.open| <= closeAt && open + closeAt + |t.close| <= |rest|
    ensures |f.rest| < |rest| && rest == f.whole + f.rest
  {
    var end := open + closeAt + |t.close|;
    Found(rest[..open], rest[..end], rest[open + |t.open|..open + closeAt], rest[end..])
  }

  ghost predicate Consumes(next: Reader<Found>) {
    forall s {:trigger next(s)} ::
      next(s).Some? ==> |next(s).value.rest| < |s| && s == next(s).value.whole + next(s).value.rest
  }

  ghost predicate ReadsBlocks(t: Tags, next: Reader<Found>)
    requires Distinguishable(t)
  {
    Consumes(next) && forall s {:trigger NextBlock(t, s)} :: next(s) == NextBlock(t, s)
  }

  function BlockReader(t: Tags): (next: Reader<Found>)
    requires Distinguishable(t)
    ensures ReadsBlocks(t, next)
  {
    s => NextBlock(t, s)
  }

  // Which blocks are calls.
  type Meaning = string -> Option<Call>

  // The calls of a text, in order...
  function Calls(next: Reader<Found>, means: Meaning, rest: string): seq<Call>
    requires Consumes(next)
    decreases |rest|
  {
    var f := next(rest);
    if f.None? then []
    else
      var c := means(f.value.body);
      (if c.Some? then [c.value] else []) + Calls(next, means, f.value.rest)
  }

  // ...and the text without their blocks; a block that is no call stays.
  function Kept(next: Reader<Found>, means: Meaning, rest: string): string
    requires Consumes(next)
    decreases |rest|
  {
    var f := next(rest);
    if f.None? then rest
    else (if means(f.value.body).Some? then f.value.before else f.value.whole) + Kept(next, means, f.value.rest)
  }

  ghost predicate Means(t: Tags, space: Space, json: Json, means: Meaning)
    requires Distinguishable(t)
  {
    forall body {:trigger Block(t, space, json, body)} :: means(body) == Block(t, space, json, body)
  }

  function BlockMeaning(t: Tags, space: Space, json: Json): (means: Meaning)
    requires Distinguishable(t)
    ensures Means(t, space, json, means)
  {
    body => Block(t, space, json, body)
  }

  // ----- the parser -----

  lemma {:induction false} ArgsConcat(json: Json, params: seq<(string, string)>, k: string, v: string)
    ensures ArgsOf(json, params + [(k, v)]) == ArgsOf(json, params)[k := ArgOf(json, v)]
  {
    assert (params + [(k, v)])[..|params|] == params;
  }

  lemma {:induction false} Glue<T>(a: seq<T>, b: seq<T>, c: seq<T>)
    ensures (a + b) + c == a + (b + c)
  {}

  method ReadTag(space: Space, tag: string, rest: string) returns (r: Option<Named>)
    requires IsTag(tag) && Lacks(tag, 0, '>')
    ensures r == TagPart(space, tag, rest)
  {
    var at := Find(rest, tag);
    if at < 0 {
      return None;
    }
    var end := Find(rest[at..], ">");
    TagEnds(rest, tag);
    if end < 0 {
      return None;
    }
    r := Some(Named(Trim(space, rest[at + |tag|..at + end]), rest[at + end..]));
  }

  method ReadParam(t: Tags, space: Space, rest: string) returns (r: Option<Taken>)
    requires Distinguishable(t)
    ensures r == NextParam(t, space, rest)
  {
    var key := ReadTag(space, t.parameter, rest);
    if key.None? {
      return None;
    }
    var after := key.value.rest[1..];
    var vEnd := Find(after, t.endParameter);
    if vEnd < 0 {
      return None;
    }
    r := Some(Taken(key.value.name, Trim(NewLine, after[..vEnd]), after[vEnd + |t.endParameter|..]));
  }

  method ReadParams(t: Tags, space: Space, json: Json, ghost next: Reader<Taken>, text: string)
    returns (args: map<string, Arg>)
    requires Distinguishable(t) && ReadsParams(t, space, next)
    ensures args == ArgsOf(json, Params(next, text))
  {
    args := map[];
    var rest := text;
    ghost var done: seq<(string, string)> := [];
    while true
      invariant Params(next, text) == done + Params(next, rest) && args == ArgsOf(json, done)
      decreases |rest|
    {
      var p := ReadParam(t, space, rest);
      assert next(rest) == p;
      if p.None? {
        break;
      }
      ghost var one := if p.value.key != "" then [(p.value.key, p.value.value)] else [];
      Glue(done, one, Params(next, p.value.rest));
      if p.value.key != "" {
        args := args[p.value.key := ArgOf(json, p.value.value)];
        ArgsConcat(json, done, p.value.key, p.value.value);
      } else {
        assert done + one == done;
      }
      done := done + one;
      rest := p.value.rest;
    }
    assert done + [] == done;
  }

  method ParseFunctionBlock(t: Tags, space: Space, json: Json, body: string) returns (r: Option<Call>)
    requires Distinguishable(t)
    ensures r == Block(t, space, json, body)
  {
    var name := ReadTag(space, t.fn, body);
    if name.None? {
      return None;
    }
    if name.value.name == "" {
      return None;
    }
    var args := ReadParams(t, space, json, ParamReader(t, space), name.value.rest);
    r := Some(Call(name.value.name, args));
  }

  method ReadBlock(t: Tags, rest: string) returns (r: Option<Found>)
    requires Distinguishable(t)
    ensures r == NextBlock(t, rest)
  {
    var open := Find(rest, t.open);
    if open < 0 {
      return None;
    }
    var closeAt := Find(rest[open..], t.close);
    CloseIsAfterOpen(rest, t);
    if closeAt < 0 {
      return None;
    }
    r := Some(BlockAt(t, rest, open, closeAt));
  }

  method ReadBlocks(t: Tags, space: Space, json: Json, ghost next: Reader<Found>, ghost means: Meaning, text: string)
    returns (calls: seq<Call>, kept: string)
    requires Distinguishable(t) && ReadsBlocks(t, next) && Means(t, space, json, means)
    ensures calls == Calls(next, means, text) && kept == Kept(next, means, text)
  {
    var rest := text;
    calls, kept := [], "";
    while true
      invariant Calls(next, means, text) == calls + Calls(next, means, rest)
      invariant Kept(next, means, text) == kept + Kept(next, means, rest)
      decreases |rest|
    {
      var f := ReadBlock(t, rest);
      assert next(rest) == f;
      if f.None? {
        break;
      }
      var c := ParseFunctionBlock(t, space, json, f.value.body);
      assert means(f.value.body) == c;
      var stays := if c.Some? then f.value.before else f.value.whole;
      var found := if c.Some? then [c.value] else [];
      Glue(kept, stays, Kept(next, means, f.value.rest));
      Glue(calls, found, Calls(next, means, f.value.rest));
      kept, calls, rest := kept + stays, calls + found, f.value.rest;
    }
    kept := kept + rest;
    assert calls + [] == calls;
  }

  method ParseToolXml(space: Space, json: Json, text: string) returns (calls: seq<Call>, content: string)
    ensures Distinguishable(TEMPLATE)
    ensures calls == Calls(BlockReader(TEMPLATE), BlockMeaning(TEMPLATE, space, json), text)
    ensures content == Trim(space, Kept(BlockReader(TEMPLATE), BlockMeaning(TEMPLATE, space, json), text))
  {
    TemplateIsDistinguishable();
    var kept;
    calls, kept := ReadBlocks(TEMPLATE, space, json, BlockReader(TEMPLATE), BlockMeaning(TEMPLATE, space, json), text);
    content := Trim(space, kept);
  }

  // A text with no call in it is left alone.
  lemma {:induction false} NoCallsNoChange(next: Reader<Found>, means: Meaning, text: string)
    requires Consumes(next)
    ensures Calls(next, means, text) == [] ==> Kept(next, means, text) == text
    decreases |text|
  {
    var f := next(text);
    if f.Some? {
      NoCallsNoChange(next, means, f.value.rest);
    }
  }

  // ----- the template form -----

  // A call as the model says it: parameters in the order it writes them.
  datatype Spoken = Spoken(name: string, params: seq<(string, string)>)

  function RenderParam(t: Tags, k: string, v: string, more: string): string {
    t.parameter + (k + (">" + ("\n" + (v + ("\n" + (t.endParameter + more))))))
  }

  function RenderParams(t: Tags, params: seq<(string, string)>): string {
    if params == [] then t.endFn + "\n"
    else RenderParam(t, params[0].0, params[0].1, "\n" + RenderParams(t, params[1..]))
  }

  function RenderBody(t: Tags, c: Spoken): string {
    "\n" + (t.fn + (c.name + (">" + ("\n" + RenderParams(t, c.params)))))
  }

  function RenderCall(t: Tags, c: Spoken, more: string): string {
    t.open + (RenderBody(t, c) + (t.close + more))
  }

  // Prose and calls by turns, ending in prose.
  function Render(t: Tags, prose: seq<string>, calls: seq<Spoken>): string
    requires |prose| == |calls| + 1
  {
    if calls == [] then prose[0]
    else prose[0] + RenderCall(t, calls[0], Render(t, prose[1..], calls[1..]))
  }

  // A name or a key the template can carry: trimmed, not empty, no closing bracket, and not ending in
  // all of a closing tag but the bracket that follows it.
  ghost predicate Carried(t: Tags, space: Space, s: string)
    requires |t.close| > 0
  {
    s != "" && Trim(space, s) == s && Lacks(s, 0, '>') && !EndsWith(s, t.close[..|t.close| - 1])
  }

  // A value that comes back as it went: free of the closing tags and not edged with new lines.
  ghost predicate CarriedValue(t: Tags, v: string) {
    && Find(v, t.endParameter) < 0 && Find(v, t.close) < 0
    && (v != "" ==> v[0] != '\n' && v[|v| - 1] != '\n')
  }

  ghost predicate CarriedParams(t: Tags, space: Space, params: seq<(string, string)>)
    requires |t.close| > 0
  {
    params == [] || (Carried(t, space, params[0].0) && CarriedValue(t, params[0].1)
                     && CarriedParams(t, space, params[1..]))
  }

  ghost predicate Sayable(t: Tags, space: Space, c: Spoken)
    requires |t.close| > 0
  {
    Carried(t, space, c.name) && CarriedParams(t, space, c.params)
  }

  // What the template writes as JSON: an object or a list.
  predicate Structured(json: Json, v: string) {
    ("{" <= v || "[" <= v) && json(v)
  }

  // The arguments a caller should see: structure where it was written as such, and text elsewhere; of two
  // parameters of one key the later.
  function Said(json: Json, params: seq<(string, string)>): map<string, Arg> {
    if params == [] then map[]
    else
      var n := |params| - 1;
      var v := params[n].1;
      Said(json, params[..n])[params[n].0 := if Structured(json, v) then Decoded(v) else Plain(v)]
  }

  function Meant(json: Json, c: Spoken): Call {
    Call(c.name, Said(json, c.params))
  }

  // ----- the way back -----

  lemma {:induction false} TrimEdges(v: string)
    requires v != "" ==> v[0] != '\n' && v[|v| - 1] != '\n'
    ensures Trim(NewLine, "\n" + (v + "\n")) == v
  {
    var s := v + "\n";
    assert ("\n" + s)[1..] == s;
    if v == "" {
      assert s == "\n" && s[1..] == "";
      assert TrimLeft(NewLine, s) == "";
    } else {
      assert s[0] == v[0];
      assert TrimLeft(NewLine, "\n" + s) == s;
      assert s[..|s| - 1] == v && s[|s| - 1] == '\n';
      assert TrimRight(NewLine, v) == v;
    }
  }

  // A new line on either side of a cut keeps a tag from lying across it.
  lemma {:induction false} PastNewLine(b: string, p: string)
    requires IsTag(p)
    ensures Find("\n" + b, p) == if Find(b, p) < 0 then -1 else 1 + Find(b, p)
  {
    NoFirst("\n", p);
    assert Lacks(p[..|p| - 1], 0, '\n');
    FindPast("\n", b, p);
  }

  lemma {:induction false} UpToNewLine(a: string, b: string, p: string)
    requires IsTag(p) && Find(a, p) < 0
    ensures Find(a + ("\n" + b), p) == if Find("\n" + b, p) < 0 then -1 else |a| + Find("\n" + b, p)
  {
    assert ("\n" + b)[0] == '\n' && Lacks(p, 1, '\n');
    FindPast(a, "\n" + b, p);
  }

  // The first bracket after a tag and a name without one.
  lemma {:induction false} BracketAfter(tag: string, name: string, more: string)
    requires Lacks(tag, 0, '>') && Lacks(name, 0, '>')
    ensures Find(tag + (name + (">" + more)), ">") == |tag| + |name|
  {
    NoFirst(tag, ">");
    NoFirst(name, ">");
    FindHere(">", more);
    FindPast(name, ">" + more, ">");
    FindPast(tag, name + (">" + more), ">");
  }

  lemma {:induction false} ValueBack(t: Tags, v: string, more: string)
    requires Distinguishable(t) && Find(v, t.endParameter) < 0
    ensures Find("\n" + (v + ("\n" + (t.endParameter + more))), t.endParameter) == |v| + 2
  {
    var p := t.endParameter;
    FindHere(p, more);
    PastNewLine(p + more, p);
    UpToNewLine(v, p + more, p);
    PastNewLine(v + ("\n" + (p + more)), p);
  }

  lemma {:induction false} TagAfter(pre: string, tag: string, more: string)
    requires IsTag(tag) && Lacks(pre, 0, '<')
    ensures Find(pre + (tag + more), tag) == |pre|
  {
    NoFirst(pre, tag);
    FindHere(tag, more);
    assert (tag + more)[0] == '<';
    FindPast(pre, tag + more, tag);
  }

  // A name rendered after a tag is read back.
  lemma {:induction false} NameBack(space: Space, pre: string, tag: string, name: string, more: string)
    requires IsTag(tag) && Lacks(tag, 0, '>') && Lacks(pre, 0, '<') && Lacks(name, 0, '>') && Trim(space, name) == name
    ensures var r := TagPart(space, tag, pre + (tag + (name + (">" + more))));
            r.Some? && r.value.name == name && r.value.rest == ">" + more
  {
    TagAfter(pre, tag, name + (">" + more));
    BracketAfter(tag, name, more);
    Slices(pre, tag, name, ">" + more);
  }

  lemma {:induction false} Slices(pre: string, tag: string, name: string, tail: string)
    ensures var rest := pre + (tag + (name + tail));
            && rest[|pre|..] == tag + (name + tail) && rest[|pre| + |tag|..|pre| + |tag| + |name|] == name
            && rest[|pre| + |tag| + |name|..] == tail
  {}

  // The first parameter of what was rendered is read back.
  lemma {:induction false} ParamBack(t: Tags, space: Space, pre: string, k: string, v: string, more: string)
    requires Distinguishable(t) && Lacks(pre, 0, '<') && Lacks(k, 0, '>') && Trim(space, k) == k
    requires Find(v, t.endParameter) < 0 && (v != "" ==> v[0] != '\n' && v[|v| - 1] != '\n')
    ensures var r := NextParam(t, space, pre + RenderParam(t, k, v, more));
            r.Some? && r.value.key == k && r.value.value == v && r.value.rest == more
  {
    var after := "\n" + (v + ("\n" + (t.endParameter + more)));
    NameBack(space, pre, t.parameter, k, after);
    assert (">" + after)[1..] == after;
    ValueBack(t, v, more);
    SliceValue(v, t.endParameter, more);
    TrimEdges(v);
  }

  lemma {:induction false} SliceValue(v: string, tag: string, more: string)
    ensures var after := "\n" + (v + ("\n" + (tag + more)));
            after[..|v| + 2] == "\n" + (v + "\n") && after[|v| + 2 + |tag|..] == more
  {}

  // After the last parameter there is no other.
  lemma {:induction false} ParamsEnd(t: Tags, space: Space, pre: string)
    requires Distinguishable(t) && Lacks(pre, 0, '<')
    ensures NextParam(t, space, pre + (t.endFn + "\n")).None?
  {
    NoFirst("\n", t.parameter);
    UpToNewLine(t.endFn, "", t.parameter);
    assert "\n" + "" == "\n";
    NoFirst(pre, t.parameter);
    assert (t.endFn + "\n")[0] == '<';
    FindPast(pre, t.endFn + "\n", t.parameter);
  }

  lemma {:induction false} ParamsStep(next: Reader<Taken>, rest: string, key: string, value: string, more: string)
    requires Shrinks(next) && next(rest).Some? && key != ""
    requires next(rest).value.key == key && next(rest).value.value == value && next(rest).value.rest == more
    ensures Params(next, rest) == [(key, value)] + Params(next, more)
  {}

  lemma {:induction false} FirstBack(t: Tags, space: Space, next: Reader<Taken>, pre: string,
                                     params: seq<(string, string)>)
    requires Distinguishable(t) && ReadsParams(t, space, next) && Lacks(pre, 0, '<')
    requires CarriedParams(t, space, params) && params != []
    ensures var rest := pre + RenderParams(t, params);
            params[0].0 != "" && next(rest).Some? && next(rest).value.key == params[0].0
            && next(rest).value.value == params[0].1 && next(rest).value.rest == "\n" + RenderParams(t, params[1..])
  {
    var rest := pre + RenderParams(t, params);
    assert next(rest) == NextParam(t, space, rest);
    ParamBack(t, space, pre, params[0].0, params[0].1, "\n" + RenderParams(t, params[1..]));
  }

  lemma {:induction false} ParamsBack(t: Tags, space: Space, next: Reader<Taken>, pre: string,
                                      params: seq<(string, string)>)
    requires Distinguishable(t) && ReadsParams(t, space, next) && Lacks(pre, 0, '<')
             && CarriedParams(t, space, params)
    ensures Params(next, pre + RenderParams(t, params)) == params
    decreases |params|
  {
    var rest := pre + RenderParams(t, params);
    if params == [] {
      assert next(rest) == NextParam(t, space, rest);
      ParamsEnd(t, space, pre);
    } else {
      FirstBack(t, space, next, pre, params);
      ParamsBack(t, space, next, "\n", params[1..]);
      ParamsStep(next, rest, params[0].0, params[0].1, "\n" + RenderParams(t, params[1..]));
      assert params == [params[0]] + params[1..];
    }
  }

  lemma {:induction false} ArgsBack(json: Json, params: seq<(string, string)>)
    ensures ArgsOf(json, params) == Said(json, params)
  {
    if params != [] {
      ArgsBack(json, params[..|params| - 1]);
    }
  }

  // The body of a rendered call means the call.
  lemma {:induction false} BodyBack(t: Tags, space: Space, json: Json, c: Spoken)
    requires Distinguishable(t) && Sayable(t, space, c)
    ensures Block(t, space, json, RenderBody(t, c)) == Some(Meant(json, c))
  {
    BodyName(t, space, c);
    BodyParams(t, space, c.params);
    ArgsBack(json, c.params);
  }

  lemma {:induction false} BodyName(t: Tags, space: Space, c: Spoken)
    requires Distinguishable(t) && Carried(t, space, c.name)
    ensures var n := TagPart(space, t.fn, RenderBody(t, c));
            c.name != "" && n.Some? && n.value.name == c.name
            && n.value.rest == ">" + ("\n" + RenderParams(t, c.params))
  {
    NameBack(space, "\n", t.fn, c.name, "\n" + RenderParams(t, c.params));
  }

  lemma {:induction false} BodyParams(t: Tags, space: Space, params: seq<(string, string)>)
    requires Distinguishable(t) && CarriedParams(t, space, params)
    ensures Params(ParamReader(t, space), ">" + ("\n" + RenderParams(t, params))) == params
  {
    Join(">", "\n", RenderParams(t, params));
    ParamsBack(t, space, ParamReader(t, space), ">" + "\n", params);
  }

  lemma Join(a: string, b: string, c: string)
    ensures a + (b + c) == a + b + c
  {}

  lemma {:induction false} EndsWithMore(s: string, p: string)
    requires s != ""
    ensures EndsWith(s[1..], p) ==> EndsWith(s, p)
  {
    if |s| > |p| { assert s[|s| - |p|..] == s[1..][|s| - 1 - |p|..]; }
  }

  // A name that does not end in p short of its bracket does not spell p with the bracket after it.
  lemma {:induction false} BracketClear(name: string, p: string)
    requires |p| > 1 && p[|p| - 1] == '>' && Lacks(name, 0, '>') && !EndsWith(name, p[..|p| - 1])
    ensures Find(name + ">", p) < 0
  {
    var s := name + ">";
    if |s| > |p| { assert s[..|p|][|p| - 1] == name[|p| - 1]; }
    if |s| == |p| { assert s[..|p|][..|p| - 1] == name && name[0..] == name; }
    if |s| >= |p| {
      EndsWithMore(name, p[..|p| - 1]);
      BracketClear(name[1..], p);
      assert s[1..] == name[1..] + ">";
    }
  }

  // A tag ending in a character the closing tag lacks, a carried name, its bracket and a new line: no
  // closing tag in them, nor across their end.
  lemma {:induction false} HeadClear(t: Tags, space: Space, tag: string, name: string, more: string)
    requires Distinguishable(t) && IsTag(tag) && Find(tag, t.close) < 0 && Lacks(t.close, 0, tag[|tag| - 1])
    requires Carried(t, space, name) && Find(more, t.close) < 0
    ensures Find(tag + (name + (">" + ("\n" + more))), t.close) < 0
  {
    NameClear(t, space, name, more);
    assert Lacks(t.close[..|t.close| - 1], 0, tag[|tag| - 1]);
    FindPast(tag, name + (">" + ("\n" + more)), t.close);
  }

  lemma {:induction false} NameClear(t: Tags, space: Space, name: string, more: string)
    requires Distinguishable(t) && Carried(t, space, name) && Find(more, t.close) < 0
    ensures Find(name + (">" + ("\n" + more)), t.close) < 0
  {
    BracketClear(name, t.close);
    PastNewLine(more, t.close);
    UpToNewLine(name + ">", more, t.close);
    assert (name + ">") + ("\n" + more) == name + (">" + ("\n" + more));
  }

  lemma {:induction false} ParamsClear(t: Tags, space: Space, params: seq<(string, string)>)
    requires Distinguishable(t) && CarriedParams(t, space, params)
    ensures Find(RenderParams(t, params), t.close) < 0
  {
    if params == [] {
      NoFirst("\n", t.close);
      UpToNewLine(t.endFn, "", t.close);
      assert "\n" + "" == "\n";
    } else {
      var k, v, rest := params[0].0, params[0].1, RenderParams(t, params[1..]);
      ParamsClear(t, space, params[1..]);
      PastNewLine(rest, t.close);
      UpToNewLine(t.endParameter, rest, t.close);
      PastNewLine(t.endParameter + ("\n" + rest), t.close);
      UpToNewLine(v, t.endParameter + ("\n" + rest), t.close);
      HeadClear(t, space, t.parameter, k, v + ("\n" + (t.endParameter + ("\n" + rest))));
    }
  }

  lemma {:induction false} BodyClear(t: Tags, space: Space, c: Spoken)
    requires Distinguishable(t) && Sayable(t, space, c)
    ensures Find(RenderBody(t, c), t.close) < 0
  {
    ParamsClear(t, space, c.params);
    HeadClear(t, space, t.fn, c.name, RenderParams(t, c.params));
    PastNewLine(t.fn + (c.name + (">" + ("\n" + RenderParams(t, c.params)))), t.close);
  }

  lemma {:induction false} CloseBack(t: Tags, body: string, more: string)
    requires Distinguishable(t) && Find(body, t.close) < 0
    ensures Find(t.open + (body + (t.close + more)), t.close) == |t.open| + |body|
  {
    FindHere(t.close, more);
    assert (t.close + more)[0] == '<';
    FindPast(body, t.close + more, t.close);
    FindPast(t.open, body + (t.close + more), t.close);
  }

  lemma {:induction false} OpenBack(t: Tags, prose: string, inner: string)
    requires Distinguishable(t) && Find(prose, t.open) < 0
    ensures Find(prose + (t.open + inner), t.open) == |prose| && (prose + (t.open + inner))[|prose|..] == t.open + inner
  {
    FindHere(t.open, inner);
    assert (t.open + inner)[0] == '<';
    FindPast(prose, t.open + inner, t.open);
  }

  // A rendered call after some prose is the next block, with its body and what follows it.
  lemma {:induction false} CallBack(t: Tags, prose: string, body: string, more: string)
    requires Distinguishable(t) && Find(prose, t.open) < 0 && Find(body, t.close) < 0
    ensures var r := NextBlock(t, prose + (t.open + (body + (t.close + more))));
            r.Some? && r.value.before == prose && r.value.body == body && r.value.rest == more
  {
    OpenBack(t, prose, body + (t.close + more));
    CloseBack(t, body, more);
    BlockFound(t, prose + (t.open + (body + (t.close + more))), |prose|, |t.open| + |body|);
    CallSlices(prose, t.open, body, t.close, more);
  }

  lemma BlockFound(t: Tags, rest: string, open: nat, closeAt: nat)
    requires Distinguishable(t) && Find(rest, t.open) == open <= |rest| && Find(rest[open..], t.close) == closeAt
    requires |t.open| <= closeAt && open + closeAt + |t.close| <= |rest|
    ensures NextBlock(t, rest) == Some(BlockAt(t, rest, open, closeAt))
  {
  }

  lemma {:induction false} CallSlices(prose: string, open: string, body: string, close: string, more: string)
    ensures var s := prose + (open + (body + (close + more)));
            && s[..|prose|] == prose && s[|prose| + |open|..|prose| + |open| + |body|] == body
            && s[|prose| + |open| + |body| + |close|..] == more
  {}

  function Joined(prose: seq<string>): string {
    if prose == [] then "" else prose[0] + Joined(prose[1..])
  }

  function Meanings(json: Json, calls: seq<Spoken>): seq<Call> {
    if calls == [] then [] else [Meant(json, calls[0])] + Meanings(json, calls[1..])
  }

  ghost predicate AllSayable(t: Tags, space: Space, calls: seq<Spoken>)
    requires |t.close| > 0
  {
    calls == [] || (Sayable(t, space, calls[0]) && AllSayable(t, space, calls[1..]))
  }

  ghost predicate NoneOpens(t: Tags, prose: seq<string>) {
    prose == [] || (Find(prose[0], t.open) < 0 && NoneOpens(t, prose[1..]))
  }

  // Printing any prose and calls in the template form and reading the text gives back the same calls
  // in the same order, and the prose.
  lemma {:induction false} RoundTrip(t: Tags, space: Space, json: Json, next: Reader<Found>, means: Meaning,
                                     prose: seq<string>, calls: seq<Spoken>)
    requires Distinguishable(t) && ReadsBlocks(t, next) && Means(t, space, json, means)
    requires |prose| == |calls| + 1 && NoneOpens(t, prose) && AllSayable(t, space, calls)
    ensures Calls(next, means, Render(t, prose, calls)) == Meanings(json, calls)
    ensures Kept(next, means, Render(t, prose, calls)) == Joined(prose)
    decreases |calls|
  {
    var text := Render(t, prose, calls);
    assert next(text) == NextBlock(t, text);
    if calls == [] {
      assert prose[1..] == [] && Joined(prose) == prose[0] + "";
    } else {
      var body := RenderBody(t, calls[0]);
      BodyClear(t, space, calls[0]);
      CallBack(t, prose[0], body, Render(t, prose[1..], calls[1..]));
      BodyBack(t, space, json, calls[0]);
      assert means(body) == Block(t, space, json, body);
      RoundTrip(t, space, json, next, means, prose[1..], calls[1..]);
    }
  }

  // ----- the names that cut their own call short -----

  // Trimmed, not empty and without a bracket: what a name or a key should be.
  ghost predicate Nameable(space: Space, s: string) {
    s != "" && Trim(space, s) == s && Lacks(s, 0, '>')
  }

  ghost predicate NameableParams(t: Tags, space: Space, params: seq<(string, string)>) {
    params == [] || (Nameable(space, params[0].0) && CarriedValue(t, params[0].1)
                     && NameableParams(t, space, params[1..]))
  }

  lemma {:induction false} FoundInside(a: string, p: string, b: string)
    requires |p| > 0
    ensures Find(a + (p + b), p) >= 0
  {
    if a == "" {
      assert a + (p + b) == p + b;
      FindHere(p, b);
    } else {
      FoundInside(a[1..], p, b);
      assert (a + (p + b))[1..] == a[1..] + (p + b);
    }
  }

  lemma {:induction false} ClearSuffix(a: string, b: string, p: string)
    requires |p| > 0 && Find(a + b, p) < 0
    ensures Find(b, p) < 0
  {
    if a == "" {
      assert a + b == b;
    } else {
      FindLess(a + b, p);
      assert (a + b)[1..] == a[1..] + b;
      ClearSuffix(a[1..], b, p);
    }
  }

  // After a tag: a name that ends in all of the closing tag but its bracket spells it.
  lemma {:induction false} SpellsClose(t: Tags, tag: string, name: string, more: string)
    requires Distinguishable(t) && Find(tag + (name + (">" + more)), t.close) < 0
    ensures !EndsWith(name, t.close[..|t.close| - 1])
  {
    var q := t.close[..|t.close| - 1];
    if EndsWith(name, q) {
      var a := name[..|name| - |q|];
      assert name == a + q;
      assert q + ">" == t.close;
      assert tag + (name + (">" + more)) == (tag + a) + (t.close + more);
      FoundInside(tag + a, t.close, more);
    }
  }

  lemma {:induction false} ClearParamsAreCarried(t: Tags, space: Space, params: seq<(string, string)>)
    requires Distinguishable(t) && NameableParams(t, space, params) && Find(RenderParams(t, params), t.close) < 0
    ensures CarriedParams(t, space, params)
    decreases |params|
  {
    if params != [] {
      var k, v, rest := params[0].0, params[0].1, "\n" + RenderParams(t, params[1..]);
      var x := "\n" + (v + ("\n" + (t.endParameter + rest)));
      SpellsClose(t, t.parameter, k, x);
      assert RenderParams(t, params) ==
             (t.parameter + k + ">\n" + v + "\n" + t.endParameter + "\n") + RenderParams(t, params[1..]);
      ClearSuffix(t.parameter + k + ">\n" + v + "\n" + t.endParameter + "\n", RenderParams(t, params[1..]), t.close);
      ClearParamsAreCarried(t, space, params[1..]);
    }
  }

  // Of calls with proper names, keys and values, the parser sees the whole body exactly when no name
  // or key ends in "</tool_call".
  lemma {:induction false} WholeBodyWhen(t: Tags, space: Space, prose: string, c: Spoken, more: string)
    requires Distinguishable(t) && Nameable(space, c.name) && NameableParams(t, space, c.params)
             && Find(prose, t.open) < 0
    ensures var r := NextBlock(t, prose + RenderCall(t, c, more));
            r.Some? && r.value.body == RenderBody(t, c) <==> Sayable(t, space, c)
  {
    var body := RenderBody(t, c);
    if Sayable(t, space, c) {
      BodyClear(t, space, c);
      CallBack(t, prose, body, more);
    }
    if Find(body, t.close) < 0 {
      ClearBodyIsSayable(t, space, c);
    } else {
      CutShort(t, prose, body, more);
    }
  }

  lemma {:induction false} ClearBodyIsSayable(t: Tags, space: Space, c: Spoken)
    requires Distinguishable(t) && Nameable(space, c.name) && NameableParams(t, space, c.params)
    requires Find(RenderBody(t, c), t.close) < 0
    ensures Sayable(t, space, c)
  {
    var params := RenderParams(t, c.params);
    var named := c.name + (">" + ("\n" + params));
    ClearSuffix("\n", t.fn + named, t.close);
    SpellsClose(t, t.fn, c.name, "\n" + params);
    ClearSuffix(t.fn, named, t.close);
    ClearSuffix(c.name, ">" + ("\n" + params), t.close);
    ClearSuffix(">", "\n" + params, t.close);
    ClearSuffix("\n", params, t.close);
    ClearParamsAreCarried(t, space, c.params);
  }

  lemma {:induction false} FindEarlier(a: string, b: string, p: string)
    requires |p| > 0 && Find(a, p) >= 0
    ensures Find(a + b, p) == Find(a, p)
  {
    if a[..|p|] == p {
      assert (a + b)[..|p|] == p;
    } else {
      assert (a + b)[..|p|] == a[..|p|] && (a + b)[1..] == a[1..] + b;
      FindEarlier(a[1..], b, p);
    }
  }

  // A body with the closing tag in it is cut there, and more is left over than followed it.
  lemma {:induction false} CutShort(t: Tags, prose: string, body: string, more: string)
    requires Distinguishable(t) && Find(prose, t.open) < 0 && Find(body, t.close) >= 0
    ensures var r := NextBlock(t, prose + (t.open + (body + (t.close + more))));
            r.Some? && |r.value.body| < |body| && r.value.before == prose && |r.value.rest| > |more|
            && OpensAt(t, r.value.whole, |prose|)
  {
    var after := body + (t.close + more);
    OpenBack(t, prose, after);
    FindEarlier(body, t.close + more, t.close);
    FindPast(t.open, after, t.close);
    FoundWithin(t, prose, after);
  }

  ghost predicate OpensAt(t: Tags, s: string, i: nat) {
    i + |t.open| <= |s| && s[i..i + |t.open|] == t.open
  }

  lemma {:induction false} FoundWithin(t: Tags, prose: string, after: string)
    requires Distinguishable(t) && Find(after, t.close) >= 0
    requires Find(prose + (t.open + after), t.open) == |prose|
    requires (prose + (t.open + after))[|prose|..] == t.open + after
    requires Find(t.open + after, t.close) == |t.open| + Find(after, t.close)
    ensures var r := NextBlock(t, prose + (t.open + after));
            r.Some? && |r.value.body| == Find(after, t.close) && r.value.before == prose
            && |r.value.rest| == |after| - Find(after, t.close) - |t.close| && OpensAt(t, r.value.whole, |prose|)
  {
    WholeOpens(t, prose, after, |t.open| + Find(after, t.close));
  }

  lemma WholeOpens(t: Tags, prose: string, after: string, closeAt: nat)
    requires 0 < |t.open| <= closeAt && closeAt + |t.close| <= |t.open| + |after|
    ensures OpensAt(t, BlockAt(t, prose + (t.open + after), |prose|, closeAt).whole, |prose|)
    ensures BlockAt(t, prose + (t.open + after), |prose|, closeAt).before == prose
  {}

  lemma OpensStill(t: Tags, s: string, more: string, i: nat)
    requires OpensAt(t, s, i)
    ensures OpensAt(t, s + more, i)
  {
    assert (s + more)[i..i + |t.open|] == s[i..i + |t.open|];
  }

  // Prose that opens nothing cannot be what a kept block begins.
  lemma NotProse(t: Tags, p0: string, p1: string, kept: string)
    requires |t.open| > 0 && Find(p1, t.open) < 0 && OpensAt(t, kept, |p0|)
    ensures kept != p0 + p1
  {}

  // Of a call with a proper name, keys and values, printed between any prose, exactly the call and the
  // prose come back if and only if neither the name nor a key ends in "</tool_call".
  lemma {:induction false} ComesBackWhen(t: Tags, space: Space, json: Json, next: Reader<Found>, means: Meaning,
                                         p0: string, c: Spoken, p1: string)
    requires Distinguishable(t) && ReadsBlocks(t, next) && Means(t, space, json, means)
    requires Nameable(space, c.name) && NameableParams(t, space, c.params)
    requires Find(p0, t.open) < 0 && Find(p1, t.open) < 0
    ensures var text := p0 + RenderCall(t, c, p1);
            Calls(next, means, text) == [Meant(json, c)] && Kept(next, means, text) == p0 + p1 <==> Sayable(t, space, c)
  {
    var text := p0 + RenderCall(t, c, p1);
    WholeBodyWhen(t, space, p0, c, p1);
    if Sayable(t, space, c) {
      SaidComesBack(t, space, json, next, means, p0, c, p1);
    } else {
      UnsaidIsLost(t, space, json, next, means, p0, c, p1);
    }
  }

  lemma {:induction false} SaidComesBack(t: Tags, space: Space, json: Json, next: Reader<Found>, means: Meaning,
                                         p0: string, c: Spoken, p1: string)
    requires Distinguishable(t) && ReadsBlocks(t, next) && Means(t, space, json, means)
    requires Sayable(t, space, c) && Find(p0, t.open) < 0 && Find(p1, t.open) < 0
    ensures var text := p0 + RenderCall(t, c, p1);
            Calls(next, means, text) == [Meant(json, c)] && Kept(next, means, text) == p0 + p1
  {
    var body := RenderBody(t, c);
    BodyClear(t, space, c);
    CallBack(t, p0, body, p1);
    BodyBack(t, space, json, c);
    assert means(body) == Block(t, space, json, body);
    assert next(p0 + RenderCall(t, c, p1)) == NextBlock(t, p0 + RenderCall(t, c, p1));
    assert next(p1) == NextBlock(t, p1);
  }

  lemma {:induction false} UnsaidIsLost(t: Tags, space: Space, json: Json, next: Reader<Found>, means: Meaning,
                                        p0: string, c: Spoken, p1: string)
    requires Distinguishable(t) && ReadsBlocks(t, next) && Find(p0, t.open) < 0 && Find(p1, t.open) < 0
    requires Nameable(space, c.name) && NameableParams(t, space, c.params) && !Sayable(t, space, c)
    ensures var text := p0 + RenderCall(t, c, p1);
            !(Calls(next, means, text) == [Meant(json, c)] && Kept(next, means, text) == p0 + p1)
  {
    if Find(RenderBody(t, c), t.close) < 0 {
      ClearBodyIsSayable(t, space, c);
    }
    CutShort(t, p0, RenderBody(t, c), p1);
    var text := p0 + RenderCall(t, c, p1);
    assert next(text) == NextBlock(t, text);
    LostAfterCut(t, next, means, text, p0, p1, [Meant(json, c)]);
  }

  lemma {:induction false} LostAfterCut(t: Tags, next: Reader<Found>, means: Meaning, text: string, p0: string,
                                        p1: string, one: seq<Call>)
    requires Distinguishable(t) && Consumes(next) && Find(p1, t.open) < 0 && |one| == 1
    requires next(text).Some? && next(text).value.before == p0 && |next(text).value.rest| > |p1|
    requires OpensAt(t, next(text).value.whole, |p0|)
    ensures !(Calls(next, means, text) == one && Kept(next, means, text) == p0 + p1)
  {
    var f := next(text).value;
    NoCallsNoChange(next, means, f.rest);
    if means(f.body).None? {
      OpensStill(t, f.whole, Kept(next, means, f.rest), |p0|);
      NotProse(t, p0, p1, f.whole + Kept(next, means, f.rest));
    }
  }

  // A call of a tool named "a</tool_call" does not come back.
  lemma NameEndingInTheTag(space: Space, json: Json, next: Reader<Found>, means: Meaning, c: Spoken)
    requires Distinguishable(TEMPLATE) && ReadsBlocks(TEMPLATE, next) && Means(TEMPLATE, space, json, means)
    requires c == Spoken("a</tool_call", []) && !space('a') && !space('l')
    ensures Nameable(space, c.name) && !Sayable(TEMPLATE, space, c)
    ensures var text := "" + RenderCall(TEMPLATE, c, "");
            !(Calls(next, means, text) == [Meant(json, c)] && Kept(next, means, text) == "" + "")
  {
    EndingName(space, c.name);
    assert Find("", TEMPLATE.open) < 0;
    UnsaidIsLost(TEMPLATE, space, json, next, means, "", c, "");
  }

  lemma EndingName(space: Space, name: string)
    requires name == "a</tool_call" && !space('a') && !space('l')
    ensures Nameable(space, name) && EndsWith(name, TEMPLATE.close[..|TEMPLATE.close| - 1])
  {
    assert name[|name| - 1] == 'l' && name[0] == 'a';
    assert TrimLeft(space, name) == name && TrimRight(space, name) == name;
    assert name[1..] == TEMPLATE.close[..11];
  }
}
