// What a stream means to an OpenAI client, before and after the detour
// through Anthropic events.
module Meaning {
  import opened StreamTypes
  import opened Tags
  import opened Splitter
  import opened BlockWriter
  import opened ToolCalls
  import opened Pipeline

  // ----- aggregating the chunks directly -----

  lemma {:induction false} AggToolsAppend(calls: map<int, ToolCall>, a: seq<ToolDelta>, b: seq<ToolDelta>)
    ensures AggTools(calls, a + b) == AggTools(AggTools(calls, a), b)
    decreases |b|
  {
    if b == [] {
      assert a + b == a;
    } else {
      var n := |b| - 1;
      assert (a + b)[..|a + b| - 1] == a + b[..n] && (a + b)[|a + b| - 1] == b[n];
      AggToolsAppend(calls, a, b[..n]);
    }
  }

  lemma {:induction false} AggAppend(a: Agg, chunks: seq<Chunk>, c: Chunk)
    ensures Content(chunks + [c]) == Content(chunks) + ContentOf(c)
    ensures DeltasIn(chunks + [c]) == DeltasIn(chunks) + (if c.Choice? then c.tools else [])
    decreases |chunks|
  {
    if chunks == [] {
      assert [c][1..] == [] && [] + [c] == [c];
      assert ContentOf(c) + "" == ContentOf(c);
      var t := if c.Choice? then c.tools else [];
      assert t + [] == t && [] + t == t;
    } else {
      assert (chunks + [c])[0] == chunks[0] && (chunks + [c])[1..] == chunks[1..] + [c];
      AggAppend(a, chunks[1..], c);
      Assoc(ContentOf(chunks[0]), Content(chunks[1..]), ContentOf(c));
      Assoc(if chunks[0].Choice? then chunks[0].tools else [], DeltasIn(chunks[1..]), if c.Choice? then c.tools else []);
    }
  }

  lemma {:induction false} AggDirect(chunks: seq<Chunk>)
    ensures AggAll(chunks) == Agg(Content(chunks), AggTools(map[], DeltasIn(chunks)), FinishOf("stop", chunks))
    decreases |chunks|
  {
    hide AggTools;
    if chunks == [] {
      NoTools();
    } else {
      var n := |chunks| - 1;
      var c := chunks[n];
      assert chunks == chunks[..n] + [c];
      AggDirect(chunks[..n]);
      AggAppend(AggAll(chunks[..n]), chunks[..n], c);
      FinishAppend("stop", chunks[..n], c);
      AggToolsAppend(map[], DeltasIn(chunks[..n]), if c.Choice? then c.tools else []);
      assert DeltasIn(chunks[..n]) + [] == DeltasIn(chunks[..n]);
      assert Content(chunks[..n]) + "" == Content(chunks[..n]);
    }
  }

  lemma NoTools()
    ensures AggTools(map[], []) == map[]
  {
  }

  lemma {:induction false} FinishAppend(finish: string, chunks: seq<Chunk>, c: Chunk)
    ensures FinishOf(finish, chunks + [c]) == if c.Choice? && c.finish != "" then c.finish else FinishOf(finish, chunks)
    decreases |chunks|
  {
    if chunks == [] {
      assert ([] + [c])[1..] == [];
    } else {
      assert (chunks + [c])[1..] == chunks[1..] + [c];
      FinishAppend(if chunks[0].Choice? && chunks[0].finish != "" then chunks[0].finish else finish, chunks[1..], c);
    }
  }

  /** The delta opening a call carries its id and whole name; later ones do not change them. */
  predicate WholeHeads(ds: seq<ToolDelta>)
    decreases |ds|
  {
    ds == [] ||
    (var rest, d := ds[..|ds| - 1], ds[|ds| - 1];
     && WholeHeads(rest)
     && (if d.index in Order(rest)
         then d.name == "" && (d.id.None? || d.id.value == "" || HeadFor(rest, d.index) == ToolHead(d.id.value, HeadName(rest, d.index)))
         else d.id.Some?))
  }

  function HeadName(ds: seq<ToolDelta>, i: int): string {
    var h := HeadFor(ds, i);
    if h.ToolHead? then h.name else ""
  }

  /** The aggregated calls are the table of tool blocks. */
  ghost predicate Agrees(calls: map<int, ToolCall>, ds: seq<ToolDelta>) {
    && (forall i :: i in calls <==> i in Order(ds))
    && (forall i | i in calls :: HeadFor(ds, i).ToolHead? && calls[i] == CallOf(Block(HeadFor(ds, i), ArgsFor(ds, i))))
  }

  lemma AgreesStep(calls: map<int, ToolCall>, ds: seq<ToolDelta>, d: ToolDelta)
    requires Agrees(calls, ds) && WholeHeads(ds + [d])
    ensures Agrees(AggTool(calls, d), ds + [d])
  {
    hide Order, HeadFor, ArgsFor;
    assert (ds + [d])[..|ds|] == ds;
    OrderSnoc(ds, d, d.index);
    if d.index in calls {
      assert calls[d.index].name + "" == calls[d.index].name;
    } else {
      NoArgsYet(ds, d.index);
      assert "" + d.args == d.args && "" + d.name == d.name;
    }
    forall i | i in calls && i != d.index
      ensures i in Order(ds + [d]) && HeadFor(ds + [d], i) == HeadFor(ds, i) && ArgsFor(ds + [d], i) == ArgsFor(ds, i)
    {
      OrderSnoc(ds, d, i);
      assert ArgsFor(ds, i) + "" == ArgsFor(ds, i);
    }
  }

  lemma {:induction false} AggAgrees(ds: seq<ToolDelta>)
    requires WholeHeads(ds)
    ensures Agrees(AggTools(map[], ds), ds)
    decreases |ds|
  {
    hide AggTool, Agrees;
    if ds == [] {
      NoneAgree();
    } else {
      var n := |ds| - 1;
      assert ds == ds[..n] + [ds[n]];
      AggAgrees(ds[..n]);
      AgreesStep(AggTools(map[], ds[..n]), ds[..n], ds[n]);
    }
  }

  lemma NoneAgree()
    ensures Agrees(map[], [])
  {
  }

  // ----- tag-free content passes through unchanged -----

  /** A decision that cannot hide content. */
  predicate Plain(act: Act) {
    match act
    case Say(thinking, _) => !thinking
    case Enter(_) => false
    case Leave(_) => false
    case _ => true
  }

  lemma PlainStep(v: View, act: Act)
    requires Sane(v) && Plain(act)
    ensures TextOf(ApplyV(v, act).blocks) == TextOf(v.blocks) + Source(act)
  {
    hide TextOf, ToolBlocks;
    assert TextOf(v.blocks) + "" == TextOf(v.blocks);
    match act
    case Reason(t) => SpeakText(v, true, t);
    case Say(_, t) => SpeakText(v, false, t);
    case Call(d) =>
      var slot := SlotFor(d, |v.blocks|);
      BlocksAppend(v.blocks, Block(ToolHead(slot.id, slot.name), ""));
      SaneSelect(v, d);
      var s := SelectV(v, d);
      if d.args != "" { GrowTool(s.blocks, s.tools[d.index].block, d.args); }
  }

  lemma SpeakText(v: View, thinking: bool, t: string)
    requires Sane(v)
    ensures TextOf(SpeakV(v, thinking, t).blocks) == TextOf(v.blocks) + (if thinking then "" else t)
  {
    hide TextOf, ToolBlocks;
    assert TextOf(v.blocks) + "" == TextOf(v.blocks);
    BlocksAppend(v.blocks, Block(ProseHead(thinking), t));
    if v.blocks != [] && !v.blocks[|v.blocks| - 1].head.ToolHead? {
      GrowLast(v.blocks, t);
    }
  }

  lemma {:induction false} PlainText(v: View, acts: seq<Act>)
    requires Sane(v) && forall act | act in acts :: Plain(act)
    ensures TextOf(ApplyAllV(v, acts).blocks) == TextOf(v.blocks) + Weave(acts)
    decreases |acts|
  {
    hide TextOf, Sane, ApplyV, Plain, Source;
    if acts == [] {
      assert TextOf(v.blocks) + "" == TextOf(v.blocks);
    } else {
      PlainStep(v, acts[0]);
      SaneApply(v, acts[0]);
      PlainText(ApplyV(v, acts[0]), acts[1..]);
      Assoc(TextOf(v.blocks), Source(acts[0]), Weave(acts[1..]));
    }
  }

  /** No opening tag anywhere in `s`. */
  predicate TagFree(s: string) {
    Find(s, 0, false) == |s|
  }

  lemma TagFreePart(x: string, y: string, z: string)
    requires TagFree((x + y) + z)
    ensures TagFree(y)
  {
    NoTagInside(x, y, z, false);
  }

  lemma TagFreeChunk(show: bool, buffer: string, c: Chunk, rest: string)
    requires TagFree(buffer + (ContentOf(c) + rest))
    ensures var r := FeedChunk(show, buffer, false, c);
            && (forall act | act in r.acts :: Plain(act))
            && !r.inside
            && TagFree(r.buffer + rest)
  {
    hide Drain, Find, TagFree;
    Assoc(buffer, ContentOf(c), rest);
    var u := buffer + ContentOf(c);
    assert "" + u == u;
    TagFreePart("", u, rest);
    TagFreeHold(u);
    var b := FeedContent(buffer, false, ContentOf(c));
    assert ContentOf(c) == "" ==> u == buffer;
    var n := |u| - |b.buffer|;
    assert (u[..n] + (b.buffer + rest)) + "" == u + rest;
    TagFreePart(u[..n], b.buffer + rest, "");
    assert (b.buffer + rest) + "" == b.buffer + rest;
    TagFreePart(b.buffer, rest, "");
    assert "" + rest == rest;
  }

  lemma TagFreeHold(u: string)
    requires TagFree(u)
    ensures var d := Drain(u, false);
            && (forall act | act in d.acts :: Plain(act)) && !d.inside
            && |d.buffer| <= |u| && d.buffer == u[|u| - |d.buffer|..]
  {
    DrainHold(u, false);
  }

  lemma {:induction false} TagFreeStream(show: bool, buffer: string, chunks: seq<Chunk>)
    requires TagFree(buffer + Content(chunks))
    ensures var r := FeedAll(show, buffer, false, chunks);
            (forall act | act in r.acts :: Plain(act)) && !r.inside
    decreases |chunks|
  {
    hide FeedChunk, TagFree, Plain, ContentOf;
    if chunks != [] {
      TagFreeChunk(show, buffer, chunks[0], Content(chunks[1..]));
      var a := FeedChunk(show, buffer, false, chunks[0]);
      TagFreeStream(show, a.buffer, chunks[1..]);
    }
  }

  lemma TagFreeActs(show: bool, chunks: seq<Chunk>)
    requires TagFree(Content(chunks))
    ensures forall act | act in ActsOf(show, chunks) :: Plain(act)
    ensures Weave(ActsOf(show, chunks)) == Content(chunks)
  {
    hide FeedAll, TagFree, Content, Weave, Genuine;
    assert "" + Content(chunks) == Content(chunks);
    TagFreeStream(show, "", chunks);
    StreamWeave(show, "", false, chunks);
    var r := FeedAll(show, "", false, chunks);
    WeaveAppend(r.acts, Spoken(r.inside, r.buffer));
    SpokenWeave(r.inside, r.buffer);
  }

  lemma SpokenWeave(thinking: bool, text: string)
    ensures Weave(Spoken(thinking, text)) == text
  {
    if text != "" { assert Weave([Say(thinking, text)]) == text + Weave([Say(thinking, text)][1..]); }
  }

  /** Tag-free content comes out as the text blocks, whatever else the chunks carry. */
  lemma TextPreserved(show: bool, chunks: seq<Chunk>)
    requires TagFree(Content(chunks))
    ensures TextOf(Blocks(EventsOf(show, chunks))) == Content(chunks)
  {
    hide ActsOf, TagFree, Content, Weave, Plain, TextOf, ApplyAllV, Blocks, EventsOf, Sane;
    TagFreeActs(show, chunks);
    StartView();
    PlainText(START_VIEW, ActsOf(show, chunks));
    EventBlocks(show, chunks);
    NoText();
    assert "" + Content(chunks) == Content(chunks);
  }

  lemma NoText()
    ensures TextOf([]) == ""
  {
  }

  // ----- the two messages -----

  lemma SameCalls(ds: seq<ToolDelta>, calls: map<int, ToolCall>, t: seq<Block>)
    requires Agrees(calls, ds) && Ascending(Order(ds))
    requires |t| == |Order(ds)|
    requires forall k | 0 <= k < |t| :: t[k] == Block(HeadFor(ds, Order(ds)[k]), ArgsFor(ds, Order(ds)[k]))
    ensures Sorted(calls.Keys) == Order(ds)
    ensures forall k | 0 <= k < |t| :: Order(ds)[k] in calls && CallOf(t[k]) == calls[Order(ds)[k]]
    ensures |calls| > 0 <==> t != []
  {
    hide Order, HeadFor, ArgsFor, Sorted, CallOf;
    var o := Order(ds);
    forall i ensures i in calls.Keys <==> i in Elements(o) {
      assert i in calls <==> i in o;
    }
    assert calls.Keys == Elements(o);
    SortedIs(o);
    if t != [] {
      assert o[0] in calls;
    } else {
      assert calls.Keys == {};
    }
  }

  /**
   * Tag-free content, whole ids and names in a call's first delta, indices
   * appearing in ascending order: the message rebuilt after the detour is
   * the message rebuilt without it -- interleaved tool deltas included --
   * exactly when there is a tool call or the finish reason is one that both
   * protocols can express.
   */
  lemma MeaningPreserved(show: bool, chunks: seq<Chunk>)
    requires TagFree(Content(chunks))
    requires WholeHeads(DeltasIn(chunks)) && Ascending(Order(DeltasIn(chunks)))
    ensures MessageOf(AggAll(ConvertAll(EventsOf(show, chunks)).chunks)) == MessageOf(AggAll(chunks))
            <==> DeltasIn(chunks) != [] || FinishOf("stop", chunks) in {"stop", "length", "tool_calls"}
  {
    hide Blocks, EventsOf, AggAll, ConvertAll, ToolBlocks, TextOf, Sorted, Order, HeadFor, ArgsFor, DeltasIn, Content,
         WholeHeads, TagFree, AggTools, Agrees, CallOf, FinishOf;
    var ds, bs := DeltasIn(chunks), Blocks(EventsOf(show, chunks));
    ThereAndBack(show, chunks);
    AggDirect(chunks);
    AggAgrees(ds);
    TextPreserved(show, chunks);
    ToolArgumentsConserved(show, chunks);
    SameCalls(ds, AggTools(map[], ds), ToolBlocks(bs));
    OrderEmpty(ds);
    var a, f := AggAll(chunks), FinishOf("stop", chunks);
    assert MessageOf(a).calls == Rebuilt(bs, f).calls;
  }

  lemma OrderEmpty(ds: seq<ToolDelta>)
    ensures Order(ds) == [] <==> ds == []
  {
  }
}
