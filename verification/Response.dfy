// to_anthropic_response, and its agreement with the streamed translation of
// the same message.
module Response {
  import opened StreamTypes
  import opened Whitespace
  import opened Tags
  import opened Splitter
  import opened BlockWriter
  import opened ToolCalls
  import opened Conservation
  import opened Meaning
  import opened SplitInvariance

  // ----- the non-streaming translation -----

  datatype Requested = Requested(id: string, name: string, args: string)

  /** choices[0] of an OpenAI response; "" and [] where absent or null. */
  datatype OpenAIMessage = OpenAIMessage(reasoning: string, content: string, calls: seq<Requested>, finish: string)

  /** A content block of the response; a tool's arguments are parsed JSON. */
  datatype Shown<J> = ShownThinking(text: string) | ShownText(text: string) | ShownTool(id: string, name: string, input: J)

  /** First occurrence of `pat`, up to letter case, at or after `k`; |s| if none. */
  function Seek(s: string, k: nat, pat: string): (r: nat)
    requires k <= |s|
    ensures k <= r <= |s|
    decreases |s| - k
  {
    if k == |s| || HasAt(s, k, pat) then k else Seek(s, k + 1, pat)
  }

  /** The name of the opening tag at `i`: the back-reference of the pattern. */
  function NameOf(s: string, i: nat): string {
    if HeadAt(s, i, "<think") then "think"
    else if HeadAt(s, i, "<thinking") then "thinking"
    else if HeadAt(s, i, "<thought") then "thought"
    else if HeadAt(s, i, "<thoughts") then "thoughts"
    else "thinking_process"
  }

  /** Where the text enclosed by the opening tag at `i` ends: its own bare closing tag, or |s|. */
  function Partner(s: string, i: nat): nat
    requires TagAt(s, i, false)
  {
    Seek(s, TagEnd(s, i), "</" + NameOf(s, i) + ">")
  }

  /** First opening tag at or after `k` that has a partner; |s| if none. */
  function FindPaired(s: string, k: nat): (r: nat)
    requires k <= |s|
    ensures k <= r <= |s|
    ensures r < |s| ==> TagAt(s, r, false) && Partner(s, r) < |s|
    decreases |s| - k
  {
    if k == |s| || (TagAt(s, k, false) && Partner(s, k) < |s|) then k else FindPaired(s, k + 1)
  }

  function StrippedThinking(text: string): seq<Block> {
    if Strip(text) == "" then [] else [Block(ThinkingHead, Strip(text))]
  }

  /** The content string: one complete tag pair, else one unclosed tag, else plain text. */
  function ContentBlocks(s: string): seq<Block> {
    if s == "" then []
    else
      var i := FindPaired(s, 0);
      if i < |s| then
        var c := Partner(s, i);
        var after := c + |NameOf(s, i)| + 3;
        Visible(s[..i]) + StrippedThinking(if TagEnd(s, i) <= c then s[TagEnd(s, i)..c] else "")
        + Visible(Strip(if after <= |s| then s[after..] else ""))
      else
        var j := Find(s, 0, false);
        if j < |s| then
          Visible(s[..j]) + StrippedThinking(if TagEnd(s, j) <= |s| then s[TagEnd(s, j)..] else "")
        else
          [Block(TextHead, s)]
  }

  function CallBlocks(calls: seq<Requested>): seq<Block> {
    seq(|calls|, k requires 0 <= k < |calls| => Block(ToolHead(calls[k].id, calls[k].name), calls[k].args))
  }

  function ReasoningBlocks(text: string): seq<Block> {
    if text == "" then [] else [Block(ThinkingHead, text)]
  }

  /** What a client shows of one block; unparsable arguments become `empty`. */
  function Show<J>(b: Block, loads: string -> Option<J>, empty: J): Shown<J> {
    match b.head
    case TextHead => ShownText(b.text)
    case ThinkingHead => ShownThinking(b.text)
    case ToolHead(id, name) => ShownTool(id, name, match loads(b.text) case Some(j) => j case None => empty)
  }

  function ShowAll<J>(bs: seq<Block>, loads: string -> Option<J>, empty: J): seq<Shown<J>> {
    seq(|bs|, k requires 0 <= k < |bs| => Show(bs[k], loads, empty))
  }

  function ResponseBlocks(m: OpenAIMessage, show: bool): seq<Block> {
    ReasoningBlocks(if show then m.reasoning else "") + ContentBlocks(m.content) + CallBlocks(m.calls)
  }

  lemma ShowAppend<J>(a: seq<Block>, b: seq<Block>, loads: string -> Option<J>, empty: J)
    ensures ShowAll(a + b, loads, empty) == ShowAll(a, loads, empty) + ShowAll(b, loads, empty)
  {
    hide Show;
  }

  /** Visible text, thinking and more text as they are shown. */
  lemma ShowPieces<J>(before: seq<Shown<J>>, front: string, inner: string, rest: string, loads: string -> Option<J>, empty: J)
    ensures before + (if front == "" then [] else [ShownText(front)])
            + (if Strip(inner) == "" then [] else [ShownThinking(Strip(inner))]) + (if rest == "" then [] else [ShownText(rest)])
         == before + ShowAll(Visible(front) + StrippedThinking(inner) + Visible(rest), loads, empty)
  {
    hide Strip;
    var t := if Strip(inner) == "" then [] else [ShownThinking(Strip(inner))];
    assert ShowAll(Visible(front), loads, empty) == if front == "" then [] else [ShownText(front)];
    assert ShowAll(StrippedThinking(inner), loads, empty) == t;
    assert ShowAll(Visible(rest), loads, empty) == if rest == "" then [] else [ShownText(rest)];
    hide ShowAll, Visible, StrippedThinking;
    ShowAppend(Visible(front) + StrippedThinking(inner), Visible(rest), loads, empty);
    ShowAppend(Visible(front), StrippedThinking(inner), loads, empty);
  }

  lemma ContentPieces(s: string)
    ensures s == "" ==> ContentBlocks(s) == Visible("") + StrippedThinking("") + Visible("")
    ensures FindPaired(s, 0) == |s| && Find(s, 0, false) == |s| ==> ContentBlocks(s) == Visible(s) + StrippedThinking("") + Visible("")
    ensures forall front: string, inner: string ::
              Visible(front) + StrippedThinking(inner) + Visible("") == Visible(front) + StrippedThinking(inner)
  {
    assert Strip("") == "";
    hide Strip, FindPaired, Find;
  }

  /** The part of to_anthropic_response that adds the content string. */
  method AppendContent<J>(before: seq<Shown<J>>, s: string, loads: string -> Option<J>, empty: J) returns (content: seq<Shown<J>>)
    ensures content == before + ShowAll(ContentBlocks(s), loads, empty)
  {
    hide ShowAll, Strip, TagAt, TagEnd, Find, FindPaired, Partner, NameOf, Visible, StrippedThinking;
    content := before;
    var front, inner, rest := s, "", "";
    ContentPieces(s);
    if s != "" {
      var i := FindPaired(s, 0);
      if i < |s| {
        var c := Partner(s, i);
        var after := c + |NameOf(s, i)| + 3;
        front, inner := s[..i], if TagEnd(s, i) <= c then s[TagEnd(s, i)..c] else "";
        rest := Strip(if after <= |s| then s[after..] else "");
      } else {
        var j := Find(s, 0, false);
        if j < |s| {
          front, inner := s[..j], if TagEnd(s, j) <= |s| then s[TagEnd(s, j)..] else "";
        }
      }
    }
    assert ContentBlocks(s) == Visible(front) + StrippedThinking(inner) + Visible(rest);
    hide ContentBlocks;
    ShowPieces(before, front, inner, rest, loads, empty);
    if front != "" {
      content := content + [ShownText(front)];
    }
    var reasoning := Strip(inner);
    if reasoning != "" {
      content := content + [ShownThinking(reasoning)];
    }
    if rest != "" {
      content := content + [ShownText(rest)];
    }
  }

  /** The `content` list of to_anthropic_response, built step by step, and its stop reason. */
  method ToAnthropicContent<J>(m: OpenAIMessage, show: bool, loads: string -> Option<J>, empty: J)
    returns (content: seq<Shown<J>>, stopReason: string)
    ensures content == ShowAll(ResponseBlocks(m, show), loads, empty) && stopReason == StopReason(m.finish)
  {
    hide ShowAll, ContentBlocks;
    ghost var reasoning, text := ReasoningBlocks(if show then m.reasoning else ""), ContentBlocks(m.content);
    content := ShowAll([], loads, empty);
    if m.reasoning != "" && show {
      content := ShowAll([Block(ThinkingHead, m.reasoning)], loads, empty);
    }
    content := AppendContent(content, m.content, loads, empty);
    ShowAppend(reasoning, text, loads, empty);
    ghost var front := reasoning + text;
    assert front + CallBlocks(m.calls[..0]) == front;
    for k := 0 to |m.calls|
      invariant content == ShowAll(front + CallBlocks(m.calls[..k]), loads, empty)
    {
      var call := Block(ToolHead(m.calls[k].id, m.calls[k].name), m.calls[k].args);
      content := content + ShowAll([call], loads, empty);
      ShowAppend(front + CallBlocks(m.calls[..k]), [call], loads, empty);
      assert CallBlocks(m.calls[..k + 1]) == CallBlocks(m.calls[..k]) + [call];
      Assoc(front, CallBlocks(m.calls[..k]), [call]);
    }
    assert m.calls[..|m.calls|] == m.calls;
    stopReason := StopReason(m.finish);
  }

  /** The tool calls come last in the content list, with their arguments parsed, or {}. */
  lemma CallsShown<J>(m: OpenAIMessage, show: bool, loads: string -> Option<J>, empty: J, k: nat)
    requires k < |m.calls|
    ensures var content := ShowAll(ResponseBlocks(m, show), loads, empty);
            |content| >= |m.calls| &&
            var b := content[|content| - |m.calls| + k];
            && b.ShownTool? && b.id == m.calls[k].id && b.name == m.calls[k].name
            && (forall j | loads(m.calls[k].args) == Some(j) :: b.input == j)
            && (loads(m.calls[k].args) == None ==> b.input == empty)
  {
    hide ContentBlocks;
  }

  // ----- agreement with the streamed translation -----

  /** Reasoning first, then content, then tool calls; `phase` is how far the stream has got. */
  predicate InOrder(show: bool, phase: nat, chunks: seq<Chunk>)
    decreases |chunks|
  {
    chunks == [] ||
    (var c := chunks[0];
     && (c.Choice? ==> (c.reasoning != "" && show ==> phase == 0) && (c.content != "" ==> phase <= 1))
     && InOrder(show, PhaseAfter(phase, c), chunks[1..]))
  }

  function PhaseAfter(phase: nat, c: Chunk): nat {
    if c.NoChoice? then phase
    else if c.tools != [] then 2
    else if c.content != "" && phase == 0 then 1
    else phase
  }

  function Rank3(act: Act): nat {
    match act
    case Reason(_) => 0
    case Say(_, _) => 1
    case _ => 2
  }

  /** Decisions come in rank order, starting no lower than `phase`. */
  predicate Ranked(phase: nat, acts: seq<Act>)
    decreases |acts|
  {
    acts == [] || (phase <= Rank3(acts[0]) && Ranked(Rank3(acts[0]), acts[1..]))
  }

  predicate Within(phase: nat, acts: seq<Act>) {
    forall act | act in acts :: Rank3(act) <= phase
  }

  lemma {:induction false} RankedAppend(p: nat, a: seq<Act>, q: nat, b: seq<Act>)
    requires Ranked(p, a) && Within(q, a) && Ranked(q, b) && p <= q
    ensures Ranked(p, a + b)
    decreases |a|
  {
    if a == [] {
      assert a + b == b;
      RankedLower(p, q, b);
    } else {
      assert (a + b)[0] == a[0] && (a + b)[1..] == a[1..] + b;
      RankedAppend(Rank3(a[0]), a[1..], q, b);
    }
  }

  lemma RankedLower(p: nat, q: nat, b: seq<Act>)
    requires p <= q && Ranked(q, b)
    ensures Ranked(p, b)
  {
  }

  lemma {:induction false} OneRank(p: nat, acts: seq<Act>)
    requires forall act | act in acts :: Rank3(act) == p
    ensures Ranked(p, acts) && Within(p, acts)
    decreases |acts|
  {
    if acts != [] { OneRank(p, acts[1..]); }
  }

  /** A non-empty piece of reasoning or text. */
  predicate Solid(act: Act) {
    match act
    case Reason(t) => t != ""
    case Say(_, t) => t != ""
    case _ => true
  }

  lemma TagFreeSays(u: string)
    requires TagFree(u)
    ensures var d := Drain(u, false);
            (forall act | act in d.acts :: Rank3(act) == 1 && Solid(act)) && (u == "" ==> d.acts == [] && d.buffer == "")
  {
    hide Find;
    assert TagFree(u) ==> Find(u, 0, false) == |u|;
    DrainHold(u, false);
  }

  lemma ContentRanks(buffer: string, c: Chunk)
    requires c.Choice? && TagFree(buffer + c.content)
    ensures var b := FeedContent(buffer, false, c.content);
            var d := BeforeTools(b.buffer, b.inside, c.tools);
            && (forall act | act in b.acts + d.acts :: Rank3(act) == 1 && Solid(act))
            && (b.acts + d.acts != [] ==> buffer != "" || c.content != "")
            && (c.tools != [] ==> d.buffer == "")
            && (buffer == "" && c.content == "" ==> d.buffer == "")
  {
    hide Drain, TagFree;
    TagFreeSays(buffer + c.content);
    assert buffer + "" == buffer;
  }

  lemma RankedChunk(show: bool, phase: nat, buffer: string, c: Chunk)
    requires phase <= 2 && (phase != 1 ==> buffer == "")
    requires InOrder(show, phase, [c]) && TagFree(buffer + ContentOf(c))
    ensures var r := FeedChunk(show, buffer, false, c); var q := PhaseAfter(phase, c);
            && Ranked(phase, r.acts) && Within(q, r.acts) && phase <= q <= 2
            && (q != 1 ==> r.buffer == "")
            && forall act | act in r.acts :: Solid(act)
  {
    hide FeedContent, BeforeTools, TagFree, Ranked, Within, Solid, Rank3;
    if c.Choice? {
      var a := if c.reasoning != "" && show then [Reason(c.reasoning)] else [];
      var b := FeedContent(buffer, false, c.content);
      var d := BeforeTools(b.buffer, b.inside, c.tools);
      ContentRanks(buffer, c);
      ReasonRank(c.reasoning);
      OneRank(1, b.acts + d.acts);
      CallRanks(c.tools);
      Assoc(a, b.acts, d.acts);
      JoinRanks(phase, PhaseAfter(phase, c), a, b.acts + d.acts, Calls(c.tools));
    } else {
      NoRank(phase);
    }
  }

  lemma NoRank(phase: nat)
    ensures Ranked(phase, []) && Within(phase, [])
  {
  }

  lemma ReasonRank(text: string)
    ensures Ranked(0, [Reason(text)]) && Within(0, [Reason(text)]) && (text != "" ==> Solid(Reason(text)))
    ensures Ranked(0, []) && Within(0, [])
  {
    OneRank(0, [Reason(text)]);
  }

  lemma CallRanks(tools: seq<ToolDelta>)
    ensures Ranked(2, Calls(tools)) && Within(2, Calls(tools)) && forall act | act in Calls(tools) :: Solid(act)
  {
    OneRank(2, Calls(tools));
  }

  lemma JoinRanks(phase: nat, q: nat, a: seq<Act>, b: seq<Act>, c: seq<Act>)
    requires phase <= q && (b != [] ==> 1 <= q) && (c != [] ==> 2 <= q)
    requires Ranked(0, a) && Within(0, a) && (a != [] ==> phase == 0)
    requires Ranked(1, b) && Within(1, b) && (b != [] ==> phase <= 1)
    requires Ranked(2, c) && Within(2, c) && phase <= 2
    ensures Ranked(phase, (a + b) + c) && Within(q, (a + b) + c)
  {
    if b == [] {
      assert a + b == a;
      if a != [] {
        RankedAppend(0, a, 2, c);
      } else {
        assert a + c == c;
        RankedLower(phase, 2, c);
      }
    } else {
      RankedAppend(1, b, 2, c);
      Assoc(a, b, c);
      if a != [] {
        RankedAppend(0, a, 1, b + c);
      } else {
        assert a + (b + c) == b + c;
        RankedLower(phase, 1, b + c);
      }
    }
  }

  lemma {:induction false} RankedStream(show: bool, phase: nat, buffer: string, chunks: seq<Chunk>)
    requires phase <= 2 && (phase != 1 ==> buffer == "")
    requires InOrder(show, phase, chunks) && TagFree(buffer + Content(chunks))
    ensures var r := FeedAll(show, buffer, false, chunks);
            var acts := r.acts + Spoken(r.inside, r.buffer);
            Ranked(phase, acts) && forall act | act in acts :: Solid(act)
    decreases |chunks|
  {
    hide FeedChunk, TagFree, ContentOf, Rank3, Solid, Ranked, Within;
    if chunks == [] {
      FlushRanked(phase, buffer);
    } else {
      var c, rest := chunks[0], Content(chunks[1..]);
      assert TagFree(buffer + ContentOf(c)) by {
        Assoc(buffer, ContentOf(c), rest);
        assert "" + (buffer + ContentOf(c)) == buffer + ContentOf(c);
        TagFreePart("", buffer + ContentOf(c), rest);
      }
      assert InOrder(show, phase, [c]) by { assert [c][1..] == []; }
      RankedChunk(show, phase, buffer, c);
      TagFreeChunk(show, buffer, c, rest);
      var a := FeedChunk(show, buffer, false, c);
      RankedStream(show, PhaseAfter(phase, c), a.buffer, chunks[1..]);
      var b := FeedAll(show, a.buffer, a.inside, chunks[1..]);
      RankedAppend(phase, a.acts, PhaseAfter(phase, c), b.acts + Spoken(b.inside, b.buffer));
      Assoc(a.acts, b.acts, Spoken(b.inside, b.buffer));
    }
  }

  lemma FlushRanked(phase: nat, buffer: string)
    requires phase != 1 ==> buffer == ""
    ensures Ranked(phase, [] + Spoken(false, buffer)) && forall act | act in [] + Spoken(false, buffer) :: Solid(act)
  {
    assert [] + Spoken(false, buffer) == Spoken(false, buffer);
    OneRank(1, Spoken(false, buffer));
  }

  function ProseBlocks(r: string, c: string): seq<Block> {
    ReasoningBlocks(r) + Visible(c)
  }

  /** The view after the reasoning `r` and the content `c`, and any tool calls in phase 2. */
  ghost predicate Shape(v: View, phase: nat, r: string, c: string) {
    var p := ProseBlocks(r, c);
    && (phase == 0 ==> c == "" && v.tools == map[] && v.blocks == p && v.cur == (if r == "" then Closed else Prose(true, 0)))
    && (phase == 1 ==> c != "" && v.tools == map[] && v.blocks == p && v.cur == Prose(false, |p| - 1))
    && (phase >= 2 ==> p <= v.blocks && forall k | |p| <= k < |v.blocks| :: v.blocks[k].head.ToolHead?)
  }

  lemma ShapeReason(v: View, r: string, t: string)
    requires Shape(v, 0, r, "") && t != ""
    ensures Shape(SpeakV(v, true, t), 0, r + t, "")
  {
    assert "" + t == t;
  }

  lemma ShapeSay(v: View, phase: nat, r: string, c: string, t: string)
    requires Shape(v, phase, r, c) && phase <= 1 && t != ""
    ensures Shape(SpeakV(v, false, t), 1, r, c + t)
  {
    assert "" + t == t;
  }

  lemma ShapeStep(v: View, phase: nat, r: string, c: string, act: Act)
    requires Sane(v) && Shape(v, phase, r, c) && phase <= Rank3(act) <= 2 && Plain(act) && Solid(act)
    ensures Shape(ApplyV(v, act), Rank3(act),
                  r + (if act.Reason? then act.text else ""), c + Source(act))
  {
    hide SpeakV, CallV, Sane;
    assert r + "" == r && c + "" == c;
    if act.Reason? { assert c == "" by { ShapeStart(v, r, c); } }
    hide Shape;
    match act
    case Reason(t) => ShapeReason(v, r, t);
    case Say(_, t) => ShapeSay(v, phase, r, c, t);
    case Call(d) => ShapeCall(v, phase, r, c, d);
  }

  lemma ShapeStart(v: View, r: string, c: string)
    requires Shape(v, 0, r, c)
    ensures c == ""
  {
  }

  /** `bs` starts with the blocks `p`; what follows are tool blocks. */
  ghost predicate CallsAfter(p: seq<Block>, bs: seq<Block>) {
    p <= bs && forall k | |p| <= k < |bs| :: bs[k].head.ToolHead?
  }

  lemma ShapeIsCallsAfter(v: View, phase: nat, r: string, c: string)
    requires Shape(v, phase, r, c) && phase <= 2
    ensures CallsAfter(ProseBlocks(r, c), v.blocks)
  {
    hide ProseBlocks;
  }

  lemma SelectAfter(p: seq<Block>, v: View, d: ToolDelta)
    requires CallsAfter(p, v.blocks)
    ensures CallsAfter(p, SelectV(v, d).blocks) && d.index in SelectV(v, d).tools
  {
  }

  lemma GrowAfter(p: seq<Block>, bs: seq<Block>, i: nat, text: string)
    requires CallsAfter(p, bs) && i < |bs| && bs[i].head.ToolHead?
    requires forall k | 0 <= k < |p| :: !p[k].head.ToolHead?
    ensures CallsAfter(p, Grow(bs, i, text))
  {
    assert forall k | 0 <= k < |p| :: p[k] == bs[k] && k != i;
  }

  lemma SlotIsTool(v: View, tool: int)
    requires Sane(v) && tool in v.tools
    ensures var b := v.tools[tool].block; b < |v.blocks| && v.blocks[b].head.ToolHead?
  {
  }

  lemma ShapeCall(v: View, phase: nat, r: string, c: string, d: ToolDelta)
    requires Sane(v) && Shape(v, phase, r, c) && phase <= 2
    ensures Shape(CallV(v, d), 2, r, c)
  {
    hide ProseBlocks, Sane, SelectV, CallsAfter, Grow;
    var p, s := ProseBlocks(r, c), SelectV(v, d);
    ProseHeads(r, c);
    ShapeIsCallsAfter(v, phase, r, c);
    SelectAfter(p, v, d);
    SaneSelect(v, d);
    SlotIsTool(s, d.index);
    GrowAfter(p, s.blocks, s.tools[d.index].block, d.args);
    AfterIsShape(CallV(v, d), r, c);
  }

  lemma AfterIsShape(v: View, r: string, c: string)
    requires CallsAfter(ProseBlocks(r, c), v.blocks)
    ensures Shape(v, 2, r, c)
  {
    hide ProseBlocks;
  }

  lemma ProseHeads(r: string, c: string)
    ensures forall k | 0 <= k < |ProseBlocks(r, c)| :: !ProseBlocks(r, c)[k].head.ToolHead?
  {
  }

  lemma {:induction false} ShapeAll(v: View, phase: nat, r: string, c: string, acts: seq<Act>)
    requires Sane(v) && Shape(v, phase, r, c) && Ranked(phase, acts)
    requires forall act | act in acts :: Plain(act) && Solid(act)
    ensures exists q: nat :: Shape(ApplyAllV(v, acts), q, r + ReasonsIn(acts), c + Weave(acts))
    decreases |acts|
  {
    hide ApplyV, Sane, Shape, Plain, Solid, Source;
    if acts == [] {
      assert r + "" == r && c + "" == c;
      assert Shape(ApplyAllV(v, acts), phase, r + ReasonsIn(acts), c + Weave(acts));
    } else {
      var act := acts[0];
      var r' := r + (if act.Reason? then act.text else "");
      ShapeStep(v, phase, r, c, act);
      SaneApply(v, act);
      ShapeAll(ApplyV(v, act), Rank3(act), r', c + Source(act), acts[1..]);
      Assoc(r, if act.Reason? then act.text else "", ReasonsIn(acts[1..]));
      Assoc(c, Source(act), Weave(acts[1..]));
      var q: nat :| Shape(ApplyAllV(ApplyV(v, act), acts[1..]), q, r' + ReasonsIn(acts[1..]), (c + Source(act)) + Weave(acts[1..]));
      assert Shape(ApplyAllV(v, acts), q, r + ReasonsIn(acts), c + Weave(acts));
    }
  }

  lemma {:induction false} ProseThenTools(p: seq<Block>, bs: seq<Block>)
    requires p <= bs
    requires forall k | 0 <= k < |p| :: !p[k].head.ToolHead?
    requires forall k | |p| <= k < |bs| :: bs[k].head.ToolHead?
    ensures bs == p + ToolBlocks(bs)
    decreases |bs|
  {
    if bs != [] {
      var n := |bs| - 1;
      if n < |p| {
        assert bs == p;
        if n > 0 { ProseThenTools(p[..n], bs[..n]); }
        assert bs[..n] == p[..n] + ToolBlocks(bs[..n]);
        assert ToolBlocks(bs[..n]) == [];
      } else {
        ProseThenTools(p, bs[..n]);
        assert bs == bs[..n] + [bs[n]];
        Assoc(p, ToolBlocks(bs[..n]), [bs[n]]);
      }
    }
  }

  lemma ShapeBlocks(v: View, q: nat, r: string, c: string)
    requires Shape(v, q, r, c)
    ensures v.blocks == ProseBlocks(r, c) + ToolBlocks(v.blocks)
  {
    hide ToolBlocks, ProseBlocks;
    ProseHeads(r, c);
    ProseThenTools(ProseBlocks(r, c), v.blocks);
  }

  /** The calls a chunk stream spells out. */
  function CallsSpelled(ds: seq<ToolDelta>): seq<Requested> {
    var o := Order(ds);
    seq(|o|, k requires 0 <= k < |o| => Requested(HeadId(ds, o[k]), HeadName(ds, o[k]), ArgsFor(ds, o[k])))
  }

  function HeadId(ds: seq<ToolDelta>, i: int): string {
    var h := HeadFor(ds, i);
    if h.ToolHead? then h.id else ""
  }

  lemma {:induction false} HeadsAreTools(ds: seq<ToolDelta>, i: int)
    ensures HeadFor(ds, i).ToolHead?
    decreases |ds|
  {
    if ds != [] { HeadsAreTools(ds[..|ds| - 1], i); }
  }

  /** The blocks of a stream that sends reasoning, then tag-free content, then tool calls. */
  lemma OrderedBlocks(show: bool, chunks: seq<Chunk>)
    requires InOrder(show, 0, chunks) && TagFree(Content(chunks))
    ensures Blocks(EventsOf(show, chunks))
         == ReasoningBlocks(if show then Reasoning(chunks) else "") + Visible(Content(chunks))
            + CallBlocks(CallsSpelled(DeltasIn(chunks)))
  {
    hide Blocks, EventsOf, FeedAll, ApplyAllV, TagFree, Content, Reasoning, ReasonsIn, Weave, Shape, Ranked, Plain, Solid,
         DeltasIn, Order, ArgsFor, HeadFor, ToolBlocks, Spoken, InOrder, Sane;
    var acts := ActsOf(show, chunks);
    var r := FeedAll(show, "", false, chunks);
    assert "" + Content(chunks) == Content(chunks);
    RankedStream(show, 0, "", chunks);
    TagFreeActs(show, chunks);
    StreamReasons(show, "", false, chunks);
    ReasonsAppend(r.acts, Spoken(r.inside, r.buffer));
    SpokenFacts(r.inside, r.buffer);
    assert ReasonsIn(r.acts) + "" == ReasonsIn(r.acts);
    var reason := if show then Reasoning(chunks) else "";
    assert "" + reason == reason;
    StartShape();
    ShapeAll(START_VIEW, 0, "", "", acts);
    EventBlocks(show, chunks);
    var v := ApplyAllV(START_VIEW, acts);
    var q: nat :| Shape(v, q, "" + ReasonsIn(acts), "" + Weave(acts));
    ShapeBlocks(v, q, reason, Content(chunks));
    ToolArgumentsConserved(show, chunks);
    var ds := DeltasIn(chunks);
    forall k | 0 <= k < |Order(ds)|
      ensures CallBlocks(CallsSpelled(ds))[k] == ToolBlocks(v.blocks)[k]
    {
      HeadsAreTools(ds, Order(ds)[k]);
    }
    assert CallBlocks(CallsSpelled(ds)) == ToolBlocks(v.blocks);
  }

  lemma StartShape()
    ensures Shape(START_VIEW, 0, "", "") && Sane(START_VIEW)
  {
  }

  lemma PlainContent(s: string)
    requires TagFree(s)
    ensures ContentBlocks(s) == Visible(s)
  {
    hide Partner, TagEnd, TagAt;
    FindFirst(s, 0, false);
  }

  /** The stop reason a client is told: that of the last message_delta. */
  function ToldStop(events: seq<Event>): Option<string>
    decreases |events|
  {
    if events == [] then None
    else
      var e := events[|events| - 1];
      if e.MessageDelta? then Some(e.stopReason) else ToldStop(events[..|events| - 1])
  }

  lemma FinishTold(w: Writer, finish: string, tokens: nat)
    ensures ToldStop(Finish(w, finish, tokens)) == Some(StopReason(finish))
  {
    hide StopCurrent, StopReason;
    var out := StopCurrent(w).out;
    var last := [MessageDelta(StopReason(finish), tokens), MessageStop];
    assert (out + last)[..|out| + 1] == out + [last[0]];
  }

  /** What a client is told for each finish reason. */
  lemma StopToldExactly(show: bool, chunks: seq<Chunk>)
    ensures var finish := FinishOf("stop", chunks);
            ToldStop(EventsOf(show, chunks)) ==
            Some(if finish == "tool_calls" then "tool_use" else if finish == "length" then "max_tokens" else "end_turn")
  {
    hide ToldStop, Finish, ApplyAll, ActsOf;
    FinishTold(ApplyAll(START, ActsOf(show, chunks)), FinishOf("stop", chunks), Tokens(show, 0, chunks));
  }

  /** Chunks with reasoning only, then with content only, then with tool calls only, are in order. */
  lemma PhasesInOrder(show: bool, a: seq<Chunk>, b: seq<Chunk>, c: seq<Chunk>)
    requires forall x | x in a && x.Choice? :: x.content == "" && x.tools == []
    requires forall x | x in b && x.Choice? :: x.reasoning == "" && x.tools == []
    requires forall x | x in c && x.Choice? :: x.reasoning == "" && x.content == ""
    ensures InOrder(show, 0, a + (b + c))
  {
    InOrderLate(show, 0, c);
    InOrderLate(show, 1, c);
    InOrderMiddle(show, 0, b, c);
    InOrderFirst(show, a, b + c);
  }

  lemma {:induction false} InOrderLate(show: bool, phase: nat, c: seq<Chunk>)
    requires forall x | x in c && x.Choice? :: x.reasoning == "" && x.content == ""
    ensures InOrder(show, phase, c)
    decreases |c|
  {
    if c != [] { InOrderLate(show, PhaseAfter(phase, c[0]), c[1..]); }
  }

  lemma {:induction false} InOrderMiddle(show: bool, phase: nat, b: seq<Chunk>, c: seq<Chunk>)
    requires phase <= 1 && InOrder(show, 0, c) && InOrder(show, 1, c)
    requires forall x | x in b && x.Choice? :: x.reasoning == "" && x.tools == []
    ensures InOrder(show, phase, b + c)
    decreases |b|
  {
    if b == [] {
      assert b + c == c;
    } else {
      assert (b + c)[0] == b[0] && (b + c)[1..] == b[1..] + c && b[0] in b;
      InOrderMiddle(show, PhaseAfter(phase, b[0]), b[1..], c);
    }
  }

  lemma {:induction false} InOrderFirst(show: bool, a: seq<Chunk>, rest: seq<Chunk>)
    requires InOrder(show, 0, rest) && forall x | x in a && x.Choice? :: x.content == "" && x.tools == []
    ensures InOrder(show, 0, a + rest)
    decreases |a|
  {
    if a == [] {
      assert a + rest == rest;
    } else {
      assert (a + rest)[0] == a[0] && (a + rest)[1..] == a[1..] + rest && a[0] in a;
      InOrderFirst(show, a[1..], rest);
    }
  }

  /**
   * Cut one message -- reasoning, then tag-free content, then tool calls,
   * their fragments interleaved or not -- into chunks in any way: the
   * assembled stream shows what the non-streaming response shows, and tells
   * the same stop reason.
   */
  lemma StreamingAgrees<J>(show: bool, m: OpenAIMessage, chunks: seq<Chunk>, loads: string -> Option<J>, empty: J)
    requires InOrder(show, 0, chunks) && TagFree(m.content)
    requires Reasoning(chunks) == m.reasoning && Content(chunks) == m.content
    requires CallsSpelled(DeltasIn(chunks)) == m.calls
    requires FinishOf("stop", chunks) == if m.finish == "" then "stop" else m.finish
    ensures ShowAll(Blocks(EventsOf(show, chunks)), loads, empty) == ShowAll(ResponseBlocks(m, show), loads, empty)
    ensures ToldStop(EventsOf(show, chunks)) == Some(StopReason(m.finish))
  {
    hide Blocks, TagFree, Content, Reasoning, DeltasIn, ContentBlocks, CallsSpelled, ShowAll, InOrder, Finish, FinishOf, ToldStop;
    OrderedBlocks(show, chunks);
    PlainContent(m.content);
    FinishTold(ApplyAll(START, ActsOf(show, chunks)), FinishOf("stop", chunks), Tokens(show, 0, chunks));
  }

  // ----- content with tags -----

  /** What follows an opening tag: text without outer white space, then nothing, or that tag's bare closing tag and tag-free text without outer white space. */
  predicate OneThought(t: string, name: string) {
    var c := Find(t, 0, true);
    t[..c] != "" && Bare(t[..c]) &&
    (c < |t| ==>
       HasAt(t, c, "</" + name + ">") && TagEnd(t, c) <= |t| && TagFree(t[TagEnd(t, c)..]) && Bare(t[TagEnd(t, c)..]))
  }

  /** No opening tag, or one with one thought. */
  predicate Plainly(s: string) {
    var j := Find(s, 0, false);
    j < |s| ==> TagEnd(s, j) <= |s| && OneThought(s[TagEnd(s, j)..], NameOf(s, j))
  }

  /** Where the first opening tag of `s` stands, and the text after it. */
  ghost predicate Opens(s: string, j: nat, t: string) {
    j == Find(s, 0, false) < |s| && j + 7 <= TagEnd(s, j) <= |s| && t == s[TagEnd(s, j)..] && TagAt(s, j, false)
  }

  lemma NamedTag(s: string, j: nat)
    requires TagAt(s, j, false)
    ensures NameOf(s, j) in NAMES
  {
    hide HeadAt, FirstGt, NameOf, NAMES;
    var name :| name in NAMES && HeadAt(s, j, Head(false, name));
    assert Head(false, name) == "<" + name;
    NameFits(s, j, name);
  }

  /** An own closing tag lies behind the first opening tag and is a closing tag there. */
  lemma PartnerBehind(s: string, j: nat, t: string, i: nat)
    requires Opens(s, j, t) && i < |s| && TagAt(s, i, false) && Partner(s, i) < |s|
    ensures var p, e := Partner(s, i), TagEnd(s, j);
            j <= i && e <= p && TagAt(t, p - e, true) && TagEnd(t, p - e) == p - e + |NameOf(s, i)| + 3
  {
    hide TagAt, TagEnd, Find, NameOf, HasAt;
    FindFirst(s, 0, false);
    NamedTag(s, i);
    var p, e, name := Partner(s, i), TagEnd(s, j), NameOf(s, i);
    SeekHas(s, TagEnd(s, i), "</" + name + ">");
    BareClose(s, p, name);
    LaterEnd(s, j, i);
    assert s == s[..e] + t;
    TagShift(s[..e], t, p - e, true);
  }

  lemma LaterEnd(s: string, j: nat, i: nat)
    requires j <= i < |s|
    ensures TagEnd(s, j) <= TagEnd(s, i)
  {
  }

  lemma {:induction false} SeekHas(s: string, k: nat, pat: string)
    requires k <= |s|
    ensures var r := Seek(s, k, pat); (r < |s| ==> HasAt(s, r, pat)) && forall m | k <= m < r :: !HasAt(s, m, pat)
    decreases |s| - k
  {
    hide HasAt;
    if k < |s| && !HasAt(s, k, pat) { SeekHas(s, k + 1, pat); }
  }

  /** If the first closing tag is the opening tag's own, the pair is found. */
  lemma OwnClosing(s: string, j: nat, t: string)
    requires Opens(s, j, t) && Find(t, 0, true) < |t| && HasAt(t, Find(t, 0, true), "</" + NameOf(s, j) + ">")
    ensures FindPaired(s, 0) == j && Partner(s, j) == TagEnd(s, j) + Find(t, 0, true)
  {
    hide TagAt, TagEnd, Find, NameOf, HasAt, FindPaired;
    var c, e, close := Find(t, 0, true), TagEnd(s, j), "</" + NameOf(s, j) + ">";
    assert s == s[..e] + t;
    HasShift(s[..e], t, c, close);
    SeekHas(s, e, close);
    FindFirst(s, 0, false);
    if Partner(s, j) < |s| {
      PartnerBehind(s, j, t, j);
      FindFirst(t, 0, true);
    }
    PairedIs(s, 0, j);
  }

  /** The pair found is the first opening tag's with the first closing tag, or not that. */
  lemma PairFound(s: string, j: nat, t: string)
    requires Opens(s, j, t)
    ensures var i, c, e := FindPaired(s, 0), Find(t, 0, true), TagEnd(s, j);
            && j <= i
            && (i < |s| ==> c < |t|)
            && (i == j ==> e + c <= Partner(s, j) < |s|)
            && (i == j && Partner(s, j) == e + c ==> HasAt(t, c, "</" + NameOf(s, j) + ">") && TagEnd(t, c) == c + |NameOf(s, j)| + 3)
  {
    hide TagAt, TagEnd, Find, NameOf, HasAt, FindPaired;
    var i, c, e := FindPaired(s, 0), Find(t, 0, true), TagEnd(s, j);
    if i < |s| {
      PartnerBehind(s, j, t, i);
      FindFirst(t, 0, true);
      if i == j && Partner(s, j) == e + c { OwnThere(s, e, t, c, "</" + NameOf(s, j) + ">"); }
    }
  }

  lemma OwnThere(s: string, e: nat, t: string, c: nat, close: string)
    requires e <= |s| && t == s[e..] && Seek(s, e, close) == e + c < |s|
    ensures HasAt(t, c, close)
  {
    hide HasAt, Seek;
    SeekHas(s, e, close);
    HasDrop(s, e, c, close);
  }

  lemma HasDrop(s: string, e: nat, c: nat, pat: string)
    requires e <= |s| && HasAt(s, e + c, pat)
    ensures HasAt(s[e..], c, pat)
  {
    forall m | c <= m < c + |pat| ensures Fold(s[e..][m]) == pat[m - c] {
      assert s[e..][m] == s[e + m];
    }
  }

  // ----- comparing the two block lists -----

  lemma CancelFront(v: seq<Block>, a: seq<Block>, b: seq<Block>)
    ensures v + a == v + b <==> a == b
  {
    assert (v + a)[|v|..] == a && (v + b)[|v|..] == b;
  }

  /** One stretch of thinking, alike. */
  lemma LoneThought(t: string)
    ensures [Block(ThinkingHead, t)] == StrippedThinking(t) <==> t != "" && Bare(t)
  {
    hide Strip;
    StripBare(t);
  }

  /** Thinking cut short of what the other list has. */
  lemma ThoughtDiffers(t: string, c: nat, inner: string, a: seq<Block>, b: seq<Block>)
    requires c < |inner| <= |t| && inner == t[..|inner|] && t[c] == '<'
    requires b == [] || b[0].head == TextHead
    ensures [Block(ThinkingHead, t[..c])] + a != StrippedThinking(inner) + b
  {
    hide Strip;
    StripKeeps(inner, c);
    assert inner[..c] == t[..c];
    assert ([Block(ThinkingHead, t[..c])] + a)[0] == Block(ThinkingHead, t[..c]);
    if Strip(inner) != "" { assert (StrippedThinking(inner) + b)[0] == Block(ThinkingHead, Strip(inner)); }
  }

  /** What follows a pair is shown alike. */
  lemma RestAlike(post: string)
    ensures TextBlocks(post) == Visible(Strip(post)) <==> TagFree(post) && Bare(post)
  {
    hide Strip, Find, TagEnd, ThinkingBlocks, TextBlocks;
    StripBare(post);
    var i := Find(post, 0, false);
    if i < |post| {
      WholeMatch(post, false);
      FirstThinking(post[TagEnd(post, i)..]);
      var n := |Visible(post[..i])|;
      assert TextBlocks(post)[n].head == ThinkingHead;
    } else {
      WholePlain(post, false);
    }
  }

  lemma PairAlike(x: string, rest: seq<Block>, y: string)
    ensures [Block(ThinkingHead, x)] + rest == StrippedThinking(x) + Visible(y) <==> x != "" && Bare(x) && rest == Visible(y)
  {
    hide Strip;
    StripBare(x);
    var a, b := [Block(ThinkingHead, x)] + rest, StrippedThinking(x) + Visible(y);
    assert a[0] == Block(ThinkingHead, x) && a[1..] == rest;
    if Strip(x) == "" {
      assert b == Visible(y);
    } else {
      assert b[0] == Block(ThinkingHead, Strip(x)) && b[1..] == Visible(y);
    }
  }

  /** Text up to a later opening tag is longer than the streamed first block. */
  lemma LateDiffers(s: string, j: nat, i: nat, a: seq<Block>, b: seq<Block>)
    requires j < i <= |s| && a != [] && a[0].head == ThinkingHead
    ensures Visible(s[..j]) + a != Visible(s[..i]) + b
  {
    assert (Visible(s[..i]) + b)[0] == Block(TextHead, s[..i]);
    assert (Visible(s[..j]) + a)[0] == if j > 0 then Block(TextHead, s[..j]) else a[0];
  }

  /** The content list, when the first opening tag has no pair, or is the pair's. */
  lemma ContentCases(s: string, j: nat, t: string)
    requires Opens(s, j, t)
    ensures var i, e := FindPaired(s, 0), TagEnd(s, j);
            && (i == |s| ==> ContentBlocks(s) == Visible(s[..j]) + StrippedThinking(t))
            && (j < i < |s| ==> exists b :: ContentBlocks(s) == Visible(s[..i]) + b)
            && (i == j && e <= Partner(s, j) ==>
                  var c := Partner(s, j); var after := c + |NameOf(s, j)| + 3;
                  ContentBlocks(s) == Visible(s[..j]) + (StrippedThinking(s[e..c]) + Visible(Strip(if after <= |s| then s[after..] else ""))))
  {
    hide TagAt, TagEnd, Find, NameOf, FindPaired, Partner, Strip, Visible, StrippedThinking;
    var i, e := FindPaired(s, 0), TagEnd(s, j);
    if i < |s| {
      var c := Partner(s, i);
      var after := c + |NameOf(s, i)| + 3;
      var inner, rest := if TagEnd(s, i) <= c then s[TagEnd(s, i)..c] else "", Strip(if after <= |s| then s[after..] else "");
      Assoc(Visible(s[..i]), StrippedThinking(inner), Visible(rest));
      assert ContentBlocks(s) == Visible(s[..i]) + (StrippedThinking(inner) + Visible(rest));
    }
  }

  lemma ClosingLt(t: string)
    requires Find(t, 0, true) < |t|
    ensures t[Find(t, 0, true)] == '<'
  {
    hide TagAt, Find, TagEnd;
    FindFirst(t, 0, true);
    TagSpan(t, Find(t, 0, true), true);
  }

  /** The pair is that of the first closing tag. */
  lemma OwnPair(s: string, j: nat, t: string)
    requires Opens(s, j, t) && FindPaired(s, 0) == j && Partner(s, j) == TagEnd(s, j) + Find(t, 0, true)
    requires Find(t, 0, true) < |t|
    ensures TextBlocks(s) == ContentBlocks(s) <==> OneThought(t, NameOf(s, j))
  {
    hide TagAt, TagEnd, Find, NameOf, FindPaired, Partner, Strip, Visible, StrippedThinking, ContentBlocks, TextBlocks, ThinkingBlocks, HasAt, TagFree, Bare;
    var c, e := Find(t, 0, true), TagEnd(s, j);
    PairFound(s, j, t);
    ContentCases(s, j, t);
    WholeMatch(s, false);
    WholeMatch(t, true);
    var post := t[TagEnd(t, c)..];
    assert s[e..e + c] == t[..c] && s[e + TagEnd(t, c)..] == post;
    CancelFront(Visible(s[..j]), ThinkingBlocks(t), StrippedThinking(t[..c]) + Visible(Strip(post)));
    PairAlike(t[..c], TextBlocks(post), Strip(post));
    RestAlike(post);
  }

  /** There is a closing tag, but the first one does not end the pair. */
  lemma OtherPair(s: string, j: nat, t: string)
    requires Opens(s, j, t) && Find(t, 0, true) < |t|
    requires !(FindPaired(s, 0) == j && Partner(s, j) == TagEnd(s, j) + Find(t, 0, true))
    ensures TextBlocks(s) != ContentBlocks(s)
  {
    hide TagAt, TagEnd, Find, NameOf, FindPaired, Partner, Strip, Visible, StrippedThinking, ContentBlocks, TextBlocks, ThinkingBlocks, HasAt;
    var c, e, i := Find(t, 0, true), TagEnd(s, j), FindPaired(s, 0);
    PairFound(s, j, t);
    ContentCases(s, j, t);
    WholeMatch(s, false);
    WholeMatch(t, true);
    ClosingLt(t);
    var a := TextBlocks(t[TagEnd(t, c)..]);
    assert ThinkingBlocks(t) == [Block(ThinkingHead, t[..c])] + a;
    if i == |s| {
      CancelFront(Visible(s[..j]), ThinkingBlocks(t), StrippedThinking(t));
      ThoughtDiffers(t, c, t, a, []);
      assert StrippedThinking(t) + [] == StrippedThinking(t);
    } else if i > j {
      var b :| ContentBlocks(s) == Visible(s[..i]) + b;
      FirstThinking(t);
      LateDiffers(s, j, i, ThinkingBlocks(t), b);
    } else {
      LongerPair(s, j, t, a);
    }
  }

  lemma LongerPair(s: string, j: nat, t: string, a: seq<Block>)
    requires Opens(s, j, t) && FindPaired(s, 0) == j && Find(t, 0, true) < |t| && t[Find(t, 0, true)] == '<'
    requires TagEnd(s, j) + Find(t, 0, true) < Partner(s, j) <= |s|
    requires TextBlocks(s) == Visible(s[..j]) + ([Block(ThinkingHead, t[..Find(t, 0, true)])] + a)
    ensures TextBlocks(s) != ContentBlocks(s)
  {
    hide TagAt, TagEnd, Find, NameOf, FindPaired, Partner, Strip, StrippedThinking, ContentBlocks, TextBlocks, HasAt, Visible;
    var c, e, p := Find(t, 0, true), TagEnd(s, j), Partner(s, j);
    ContentCases(s, j, t);
    var after := p + |NameOf(s, j)| + 3;
    var rest := Strip(if after <= |s| then s[after..] else "");
    LongerThought(Visible(s[..j]), s, e, p, t, c, a, rest);
  }

  lemma LongerThought(v: seq<Block>, s: string, e: nat, p: nat, t: string, c: nat, a: seq<Block>, rest: string)
    requires e + c < p <= |s| && t == s[e..] && t[c] == '<'
    ensures v + ([Block(ThinkingHead, t[..c])] + a) != v + (StrippedThinking(s[e..p]) + Visible(rest))
  {
    hide Strip, StrippedThinking;
    assert s[e..p] == t[..p - e];
    ThoughtDiffers(t, c, t[..p - e], a, Visible(rest));
    CancelFront(v, [Block(ThinkingHead, t[..c])] + a, StrippedThinking(s[e..p]) + Visible(rest));
  }

  /** For every content string: the one-pass split is the non-streamed translation exactly when the string has no opening tag, or one with one thought. */
  lemma SplitIsContentExactly(s: string)
    ensures TextBlocks(s) == ContentBlocks(s) <==> Plainly(s)
  {
    hide TagAt, TagEnd, Find, NameOf, FindPaired, Partner, Visible, StrippedThinking, ContentBlocks, TextBlocks, ThinkingBlocks, HasAt, OneThought, TagFree;
    var j := Find(s, 0, false);
    if j == |s| {
      assert TagFree(s) by { NoOpening(s); }
      PlainContent(s);
      WholePlain(s, false);
    } else {
      FindFirst(s, 0, false);
      TagSpan(s, j, false);
      var t := s[TagEnd(s, j)..];
      if Find(t, 0, true) == |t| {
        Unclosed(s, j, t);
      } else if FindPaired(s, 0) == j && Partner(s, j) == TagEnd(s, j) + Find(t, 0, true) {
        OwnPair(s, j, t);
      } else {
        OtherPair(s, j, t);
        if OneThought(t, NameOf(s, j)) { OwnOfThought(s, j, t); }
      }
    }
  }

  lemma OwnOfThought(s: string, j: nat, t: string)
    requires Opens(s, j, t) && Find(t, 0, true) < |t| && OneThought(t, NameOf(s, j))
    ensures FindPaired(s, 0) == j && Partner(s, j) == TagEnd(s, j) + Find(t, 0, true)
  {
    hide TagAt, TagEnd, Find, NameOf, FindPaired, Partner, HasAt, TagFree;
    OwnClosing(s, j, t);
  }

  lemma NoOpening(s: string)
    requires Find(s, 0, false) == |s|
    ensures TagFree(s)
  {
  }

  /** An opening tag and no closing tag behind it. */
  lemma Unclosed(s: string, j: nat, t: string)
    requires Opens(s, j, t) && Find(t, 0, true) == |t|
    ensures TextBlocks(s) == ContentBlocks(s) <==> OneThought(t, NameOf(s, j))
  {
    hide TagAt, TagEnd, Find, NameOf, FindPaired, Partner, Strip, Visible, StrippedThinking, ContentBlocks, TextBlocks, ThinkingBlocks, HasAt, TagFree;
    PairFound(s, j, t);
    ContentCases(s, j, t);
    WholeMatch(s, false);
    WholePlain(t, true);
    CancelFront(Visible(s[..j]), ThinkingBlocks(t), StrippedThinking(t));
    LoneThought(t);
    assert t[..|t|] == t;
  }

  /**
   * However the content is cut into chunks, the streamed blocks are those of
   * the non-streamed translation -- exactly when no consumed tag is longer
   * than 21 characters and the content is tag-free or one plain thought.
   */
  lemma ResponseAgreesExactly(show: bool, s: string)
    ensures (forall chunks | ContentOnly(show, chunks) && Content(chunks) == s :: Blocks(EventsOf(show, chunks)) == ContentBlocks(s))
            <==> Fits(s, false) && Plainly(s)
  {
    hide ContentOnly, Content, Plainly, ContentBlocks, TextBlocks, Blocks, EventsOf, Fits;
    SplitIsContentExactly(s);
    SplitInvariantExactly(show, s);
    var once := AtOnce(show, s);
    if forall chunks | ContentOnly(show, chunks) && Content(chunks) == s :: Blocks(EventsOf(show, chunks)) == ContentBlocks(s) {
      assert Blocks(EventsOf(show, once)) == ContentBlocks(s);
    }
  }

  lemma {:induction false} PairedIs(s: string, k: nat, r: nat)
    requires k <= r < |s| && TagAt(s, r, false) && Partner(s, r) < |s|
    requires forall j | k <= j < r :: !TagAt(s, j, false)
    ensures FindPaired(s, k) == r
    decreases |s| - k
  {
    hide TagAt, Partner;
    if k < r { PairedIs(s, k + 1, r); }
  }

  lemma NameFits(s: string, i: nat, name: string)
    requires name in NAMES && HeadAt(s, i, "<" + name)
    ensures NameOf(s, i) in NAMES && HeadAt(s, i, "<" + NameOf(s, i))
  {
    hide HeadAt;
    assert "<" + "think" == "<think" && "<" + "thinking" == "<thinking" && "<" + "thought" == "<thought";
    assert "<" + "thoughts" == "<thoughts" && "<" + "thinking_process" == "<thinking_process";
  }

  /** A bare closing tag is a closing tag. */
  lemma BareClose(s: string, j: nat, name: string)
    requires name in NAMES && HasAt(s, j, "</" + name + ">")
    ensures TagAt(s, j, true) && TagEnd(s, j) == j + |name| + 3
  {
    var close, h := "</" + name + ">", Head(true, name);
    var e := j + |h|;
    assert h == "</" + name && close == h + [">"[0]];
    HeadChars(true, name);
    assert Fold(s[e]) == close[|h|] == '>';
    forall m | j <= m < e ensures Fold(s[m]) == h[m - j] {
      assert Fold(s[m]) == close[m - j];
    }
    assert HeadAt(s, j, h);
    HeadBeforeGt(s, j, true, name);
    FirstGtIs(s, j, e);
  }

  lemma HasShift(x: string, y: string, j: nat, pat: string)
    requires HasAt(y, j, pat)
    ensures HasAt(x + y, |x| + j, pat)
  {
    forall m | |x| + j <= m < |x| + j + |pat| ensures Fold((x + y)[m]) == pat[m - (|x| + j)] {
      assert (x + y)[m] == y[m - |x|];
    }
  }
}
