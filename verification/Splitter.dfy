// What stream_as_anthropic decides to write, before block indices come in:
// the hold-back buffer, the in-thinking flag and the tag loop.
module Splitter {
  import opened StreamTypes
  import opened Tags

  /** Characters held back in case they begin a tag. */
  const HOLD: nat := 20

  /**
   * A writing decision. `Reason` comes from delta.reasoning_content, `Say`
   * from delta.content; `Enter` and `Leave` remember the tag they consumed,
   * which is not written anywhere.
   */
  datatype Act =
    | Reason(text: string)
    | Say(thinking: bool, text: string)
    | Enter(tag: string)
    | Leave(tag: string)
    | Call(delta: ToolDelta)

  /** Decisions so far and the splitter's state after them. */
  datatype Split = Split(acts: seq<Act>, buffer: string, inside: bool)

  function Spoken(thinking: bool, text: string): seq<Act> {
    if text == "" then [] else [Say(thinking, text)]
  }

  function Toggle(inside: bool, tag: string): Act {
    if inside then Leave(tag) else Enter(tag)
  }

  /** The tag loop: consume every complete tag, then release all but HOLD characters. */
  function Drain(buffer: string, inside: bool): (r: Split)
    decreases |buffer|
  {
    var i := Find(buffer, 0, inside);
    if i < |buffer| then
      FindFirst(buffer, 0, inside);
      TagSpan(buffer, i, inside);
      var e := TagEnd(buffer, i);
      var rest := Drain(buffer[e..], !inside);
      Split(Spoken(inside, buffer[..i]) + [Toggle(inside, buffer[i..e])] + rest.acts, rest.buffer, rest.inside)
    else if |buffer| > HOLD then
      Split([Say(inside, buffer[..|buffer| - HOLD])], buffer[|buffer| - HOLD..], inside)
    else
      Split([], buffer, inside)
  }

  lemma DrainMatch(buffer: string, inside: bool)
    requires Find(buffer, 0, inside) < |buffer|
    ensures var i := Find(buffer, 0, inside); var e := TagEnd(buffer, i);
            && i + 7 <= e <= |buffer|
            && Drain(buffer, inside) == (
              var rest := Drain(buffer[e..], !inside);
              Split(Spoken(inside, buffer[..i]) + [Toggle(inside, buffer[i..e])] + rest.acts, rest.buffer, rest.inside))
  {
    hide TagAt, FirstGt;
    FindFirst(buffer, 0, inside);
    TagSpan(buffer, Find(buffer, 0, inside), inside);
  }

  lemma DrainHold(buffer: string, inside: bool)
    requires Find(buffer, 0, inside) == |buffer|
    ensures Drain(buffer, inside) ==
            if |buffer| > HOLD then Split([Say(inside, buffer[..|buffer| - HOLD])], buffer[|buffer| - HOLD..], inside)
            else Split([], buffer, inside)
  {
    hide TagAt, FirstGt, Find;
  }

  /** One chunk's content. */
  function FeedContent(buffer: string, inside: bool, text: string): Split {
    if text == "" then Split([], buffer, inside) else Drain(buffer + text, inside)
  }

  /** Tool calls in a chunk first release whatever is held back. */
  function BeforeTools(buffer: string, inside: bool, tools: seq<ToolDelta>): Split {
    if tools != [] && buffer != "" then Split([Say(inside, buffer)], "", false)
    else Split([], buffer, inside)
  }

  function Calls(tools: seq<ToolDelta>): (r: seq<Act>)
    ensures |r| == |tools| && forall k | 0 <= k < |r| :: r[k] == Call(tools[k])
  {
    seq(|tools|, k requires 0 <= k < |tools| => Call(tools[k]))
  }

  /** One whole chunk; `show` is SHOW_REASONING. */
  function FeedChunk(show: bool, buffer: string, inside: bool, c: Chunk): Split {
    if c.NoChoice? then
      Split([], buffer, inside)
    else
      var a := if c.reasoning != "" && show then [Reason(c.reasoning)] else [];
      var b := FeedContent(buffer, inside, c.content);
      var d := BeforeTools(b.buffer, b.inside, c.tools);
      Split(a + b.acts + d.acts + Calls(c.tools), d.buffer, d.inside)
  }

  function FeedAll(show: bool, buffer: string, inside: bool, chunks: seq<Chunk>): Split
    decreases |chunks|
  {
    if chunks == [] then
      Split([], buffer, inside)
    else
      var a := FeedChunk(show, buffer, inside, chunks[0]);
      var b := FeedAll(show, a.buffer, a.inside, chunks[1..]);
      Split(a.acts + b.acts, b.buffer, b.inside)
  }

  /** Every decision of a whole stream, the final flush included. */
  function ActsOf(show: bool, chunks: seq<Chunk>): seq<Act> {
    var r := FeedAll(show, "", false, chunks);
    r.acts + Spoken(r.inside, r.buffer)
  }

  lemma {:induction false} FeedAllAppend(show: bool, buffer: string, inside: bool, a: seq<Chunk>, b: seq<Chunk>)
    ensures var r := FeedAll(show, buffer, inside, a);
            var t := FeedAll(show, r.buffer, r.inside, b);
            FeedAll(show, buffer, inside, a + b) == Split(r.acts + t.acts, t.buffer, t.inside)
    decreases |a|
  {
    hide FeedChunk;
    if a == [] {
      assert a + b == b;
    } else {
      var h := FeedChunk(show, buffer, inside, a[0]);
      assert (a + b)[0] == a[0] && (a + b)[1..] == a[1..] + b;
      FeedAllAppend(show, h.buffer, h.inside, a[1..], b);
    }
  }

  lemma {:induction false} DrainProse(buffer: string, inside: bool)
    ensures forall act | act in Drain(buffer, inside).acts :: !act.Call?
    ensures buffer != "" && Drain(buffer, inside).acts == [] ==> Drain(buffer, inside).buffer != ""
    decreases |buffer|
  {
    hide Drain, TagEnd, Find;
    var i := Find(buffer, 0, inside);
    if i < |buffer| {
      DrainMatch(buffer, inside);
      DrainProse(buffer[TagEnd(buffer, i)..], !inside);
    } else {
      DrainHold(buffer, inside);
    }
  }

  /** The part of a chunk before its tool calls. */
  function ProsePart(show: bool, buffer: string, inside: bool, c: Chunk): Split
    requires c.Choice?
  {
    var a := if c.reasoning != "" && show then [Reason(c.reasoning)] else [];
    var b := FeedContent(buffer, inside, c.content);
    var d := BeforeTools(b.buffer, b.inside, c.tools);
    Split(a + b.acts + d.acts, d.buffer, d.inside)
  }

  lemma ProseThenCalls(show: bool, buffer: string, inside: bool, c: Chunk)
    requires c.Choice?
    ensures var p := ProsePart(show, buffer, inside, c);
            && FeedChunk(show, buffer, inside, c) == Split(p.acts + Calls(c.tools), p.buffer, p.inside)
            && forall act | act in p.acts :: !act.Call?
  {
    hide Drain;
    if c.content != "" {
      DrainProse(buffer + c.content, inside);
    }
  }

  // ----- conservation: nothing of the content is lost, doubled or moved -----

  /** The content characters a decision accounts for: written text or removed tag. */
  function Source(act: Act): string {
    match act
    case Reason(_) => ""
    case Say(_, t) => t
    case Enter(tag) => tag
    case Leave(tag) => tag
    case Call(_) => ""
  }

  function Weave(acts: seq<Act>): string {
    if acts == [] then "" else Source(acts[0]) + Weave(acts[1..])
  }

  /** Consumed tags really are tags, and released text is never empty. */
  predicate Genuine(act: Act) {
    match act
    case Enter(tag) => TagAt(tag, 0, false) && TagEnd(tag, 0) == |tag|
    case Leave(tag) => TagAt(tag, 0, true) && TagEnd(tag, 0) == |tag|
    case Say(_, t) => t != ""
    case _ => true
  }

  function ContentOf(c: Chunk): string {
    if c.NoChoice? then "" else c.content
  }

  function Content(chunks: seq<Chunk>): string {
    if chunks == [] then "" else ContentOf(chunks[0]) + Content(chunks[1..])
  }

  lemma {:induction false} WeaveAppend(a: seq<Act>, b: seq<Act>)
    ensures Weave(a + b) == Weave(a) + Weave(b)
  {
    if a == [] {
      assert a + b == b;
    } else {
      assert (a + b)[1..] == a[1..] + b;
      WeaveAppend(a[1..], b);
    }
  }

  lemma CutTag(s: string, i: nat, close: bool)
    requires TagAt(s, i, close)
    ensures i < TagEnd(s, i) <= |s|
    ensures var tag := s[i..TagEnd(s, i)]; TagAt(tag, 0, close) && TagEnd(tag, 0) == |tag|
  {
    hide TagAt, TagEnd;
    TagSpan(s, i, close);
    var e := TagEnd(s, i);
    assert s == s[..i] + s[i..] && s[i..] == s[i..e] + s[e..];
    TagShift(s[..i], s[i..], 0, close);
    TagGrow(s[i..e], s[e..], 0, close);
  }

  /** Weaving in front of a remainder. */
  function Woven(acts: seq<Act>, tail: string): string {
    Weave(acts) + tail
  }

  lemma WovenAppend(a: seq<Act>, b: seq<Act>, tail: string)
    ensures Woven(a + b, tail) == Woven(a, Woven(b, tail))
  {
    WeaveAppend(a, b);
    Assoc(Weave(a), Weave(b), tail);
  }

  lemma WovenOne(act: Act, tail: string)
    ensures Woven([act], tail) == Source(act) + tail
  {
    assert Weave([act]) == Source(act) + Weave([act][1..]);
  }

  lemma WovenSpoken(thinking: bool, text: string, tail: string)
    ensures Woven(Spoken(thinking, text), tail) == text + tail
  {
    if text != "" { WovenOne(Say(thinking, text), tail); }
  }

  lemma {:induction false} DrainWeave(buffer: string, inside: bool)
    ensures var r := Drain(buffer, inside); Woven(r.acts, r.buffer) == buffer
    decreases |buffer|
  {
    hide Drain, TagEnd, Find, Woven, Weave, Source, Spoken;
    var i := Find(buffer, 0, inside);
    if i < |buffer| {
      DrainMatch(buffer, inside);
      var e := TagEnd(buffer, i);
      var rest := Drain(buffer[e..], !inside);
      var pre, tag := Spoken(inside, buffer[..i]), Toggle(inside, buffer[i..e]);
      DrainWeave(buffer[e..], !inside);
      WovenAppend(pre + [tag], rest.acts, rest.buffer);
      WovenAppend(pre, [tag], buffer[e..]);
      WovenOne(tag, buffer[e..]);
      WovenSpoken(inside, buffer[..i], buffer[i..e] + buffer[e..]);
      Cut(buffer, i, e);
      TagSource(inside, buffer[i..e]);
    } else {
      DrainHold(buffer, inside);
      var n := if |buffer| > HOLD then |buffer| - HOLD else 0;
      HoldWoven(inside, buffer[..n], buffer[n..]);
      Cut(buffer, n, n);
    }
  }

  lemma TagSource(inside: bool, tag: string)
    ensures Source(Toggle(inside, tag)) == tag
  {
  }

  lemma HoldWoven(inside: bool, said: string, held: string)
    ensures Woven([Say(inside, said)], held) == said + held
    ensures Woven([], held) == held
  {
    WovenOne(Say(inside, said), held);
    assert "" + held == held;
  }

  lemma {:induction false} DrainGenuine(buffer: string, inside: bool)
    ensures forall a | a in Drain(buffer, inside).acts :: Genuine(a)
    decreases |buffer|
  {
    hide TagAt, TagEnd, Find;
    var i := Find(buffer, 0, inside);
    if i < |buffer| {
      FindFirst(buffer, 0, inside);
      CutTag(buffer, i, inside);
      DrainGenuine(buffer[TagEnd(buffer, i)..], !inside);
    }
  }

  lemma {:induction false} CallsWeave(tools: seq<ToolDelta>)
    ensures Weave(Calls(tools)) == ""
  {
    if tools != [] {
      CallsWeave(tools[1..]);
      assert Calls(tools)[1..] == Calls(tools[1..]);
    }
  }

  lemma ChunkGenuine(show: bool, buffer: string, inside: bool, c: Chunk)
    ensures forall act | act in FeedChunk(show, buffer, inside, c).acts :: Genuine(act)
  {
    hide Drain, FeedContent, TagAt, TagEnd, Find;
    if c.Choice? {
      FeedContentWeave(buffer, inside, c.content);
      var b := FeedContent(buffer, inside, c.content);
      assert forall act | act in BeforeTools(b.buffer, b.inside, c.tools).acts :: Genuine(act);
      assert forall act | act in Calls(c.tools) :: Genuine(act);
    }
  }

  lemma FeedContentWeave(buffer: string, inside: bool, text: string)
    ensures var r := FeedContent(buffer, inside, text);
            Woven(r.acts, r.buffer) == buffer + text && forall act | act in r.acts :: Genuine(act)
  {
    hide Drain, Genuine;
    if text == "" {
      assert "" + buffer == buffer == buffer + text;
    } else {
      DrainWeave(buffer + text, inside);
      DrainGenuine(buffer + text, inside);
    }
  }

  lemma ChunkWeave(show: bool, buffer: string, inside: bool, c: Chunk)
    ensures var r := FeedChunk(show, buffer, inside, c); Woven(r.acts, r.buffer) == buffer + ContentOf(c)
  {
    hide FeedContent, Woven, Genuine;
    if c.Choice? {
      var a := if c.reasoning != "" && show then [Reason(c.reasoning)] else [];
      var b := FeedContent(buffer, inside, c.content);
      var d := BeforeTools(b.buffer, b.inside, c.tools);
      FeedContentWeave(buffer, inside, c.content);
      CallsWoven(c.tools, d.buffer);
      WovenAppend(a + b.acts + d.acts, Calls(c.tools), d.buffer);
      WovenAppend(a + b.acts, d.acts, d.buffer);
      HoldWoven(b.inside, b.buffer, d.buffer);
      WovenAppend(a, b.acts, b.buffer);
      ReasonWoven(c.reasoning, buffer + c.content);
      assert b.buffer + "" == b.buffer;
    } else {
      HoldWoven(inside, "", buffer);
      assert buffer + "" == buffer;
    }
  }

  lemma ReasonWoven(text: string, tail: string)
    ensures Woven([Reason(text)], tail) == tail && Woven([], tail) == tail
  {
    WovenOne(Reason(text), tail);
    assert "" + tail == tail;
  }

  lemma CallsWoven(tools: seq<ToolDelta>, tail: string)
    ensures Woven(Calls(tools), tail) == tail
  {
    CallsWeave(tools);
    assert "" + tail == tail;
  }

  /**
   * Whatever the chunks are, the content received so far is, in order, the
   * text written or held back and the tags removed.
   */
  lemma {:induction false} StreamWeave(show: bool, buffer: string, inside: bool, chunks: seq<Chunk>)
    ensures var r := FeedAll(show, buffer, inside, chunks);
            Woven(r.acts, r.buffer) == buffer + Content(chunks) && forall act | act in r.acts :: Genuine(act)
    decreases |chunks|
  {
    hide FeedChunk, ContentOf, Genuine, Woven;
    if chunks == [] {
      HoldWoven(inside, "", buffer);
    } else {
      var a := FeedChunk(show, buffer, inside, chunks[0]);
      ChunkWeave(show, buffer, inside, chunks[0]);
      ChunkGenuine(show, buffer, inside, chunks[0]);
      StreamWeave(show, a.buffer, a.inside, chunks[1..]);
      var b := FeedAll(show, a.buffer, a.inside, chunks[1..]);
      WovenAppend(a.acts, b.acts, b.buffer);
      WovenTail(a.acts, a.buffer, Content(chunks[1..]));
      Assoc(buffer, ContentOf(chunks[0]), Content(chunks[1..]));
    }
  }

  lemma WovenTail(acts: seq<Act>, a: string, b: string)
    ensures Woven(acts, a + b) == Woven(acts, a) + b
  {
    Assoc(Weave(acts), a, b);
  }
}
