// The way back: Anthropic events to OpenAI chunks, OpenAI chunks to one
// message, and what survives the round trip.
module Pipeline {
  import opened StreamTypes
  import opened Splitter
  import opened BlockWriter
  import opened ToolCalls

  // ----- make_anthropic_to_openai_stream_converter -----

  function MapStopReason(stop: string): string {
    if stop == "max_tokens" then "length" else if stop == "tool_use" then "tool_calls" else "stop"
  }

  /** Chunks forwarded so far and the OpenAI index given to each tool block. */
  datatype Converted = Converted(chunks: seq<Chunk>, index: map<nat, nat>)

  function ContentDelta(t: string): Chunk { Choice("", t, [], "", 0) }
  function ToolChunk(d: ToolDelta): Chunk { Choice("", "", [d], "", 0) }

  function ForwardOf(index: map<nat, nat>, e: Event): Option<Chunk> {
    match e
    case MessageStart => Some(ContentDelta(""))
    case BlockStart(_, ToolHead(id, name)) => Some(ToolChunk(ToolDelta(|index|, Some(id), "", name, "")))
    case BlockDelta(_, Text, t) => Some(ContentDelta(t))
    case BlockDelta(i, ToolUse, t) => if i in index then Some(ToolChunk(ToolDelta(index[i], None, "", "", t))) else None
    case BlockDelta(_, Thinking, t) => Some(Choice(t, "", [], "", 0))
    case MessageDelta(stop, _) => if stop != "" then Some(Choice("", "", [], MapStopReason(stop), 0)) else None
    case _ => None
  }

  function IndexAfter(index: map<nat, nat>, e: Event): map<nat, nat> {
    if e.BlockStart? && e.head.ToolHead? then index[e.index := |index|] else index
  }

  function ConvertAll(events: seq<Event>): Converted
    decreases |events|
  {
    if events == [] then Converted([], map[])
    else
      var c := ConvertAll(events[..|events| - 1]);
      var e := events[|events| - 1];
      var f := ForwardOf(c.index, e);
      Converted(if f.Some? then c.chunks + [f.value] else c.chunks, IndexAfter(c.index, e))
  }

  class Converter {
    var toolIndexByBlock: map<nat, nat>

    constructor ()
      ensures toolIndexByBlock == map[]
    {
      toolIndexByBlock := map[];
    }

    method Convert(e: Event) returns (r: Option<Chunk>)
      modifies this
      ensures r == ForwardOf(old(toolIndexByBlock), e)
      ensures toolIndexByBlock == IndexAfter(old(toolIndexByBlock), e)
    {
      match e {
        case MessageStart => return Some(ContentDelta(""));
        case BlockStart(i, head) =>
          if head.ToolHead? {
            var openaiIdx := |toolIndexByBlock|;
            toolIndexByBlock := toolIndexByBlock[i := openaiIdx];
            return Some(ToolChunk(ToolDelta(openaiIdx, Some(head.id), "", head.name, "")));
          }
          return None;
        case BlockDelta(i, kind, t) =>
          match kind {
            case Text => return Some(ContentDelta(t));
            case ToolUse =>
              if i !in toolIndexByBlock { return None; }
              return Some(ToolChunk(ToolDelta(toolIndexByBlock[i], None, "", "", t)));
            case Thinking => return Some(Choice(t, "", [], "", 0));
          }
        case MessageDelta(stop, _) =>
          if stop != "" { return Some(Choice("", "", [], MapStopReason(stop), 0)); }
          return None;
        case _ => return None;
      }
    }

    /** A whole stream through one converter. */
    method ConvertStream(events: seq<Event>) returns (chunks: seq<Chunk>)
      requires toolIndexByBlock == map[]
      modifies this
      ensures Converted(chunks, toolIndexByBlock) == ConvertAll(events)
    {
      chunks := [];
      for n := 0 to |events|
        invariant Converted(chunks, toolIndexByBlock) == ConvertAll(events[..n])
      {
        assert events[..n + 1] == events[..n] + [events[n]];
        ConvertSnoc(events[..n], events[n]);
        var r := Convert(events[n]);
        if r.Some? { chunks := chunks + [r.value]; }
      }
      assert events[..|events|] == events;
    }
  }

  lemma ConvertSnoc(events: seq<Event>, e: Event)
    ensures var c := ConvertAll(events); var f := ForwardOf(c.index, e);
            ConvertAll(events + [e]) == Converted(if f.Some? then c.chunks + [f.value] else c.chunks, IndexAfter(c.index, e))
  {
    assert (events + [e])[..|events|] == events;
  }

  // ----- _aggregate_openai_sse -----

  datatype ToolCall = ToolCall(id: Option<string>, name: string, args: string)

  /** The accumulators of the aggregation loop. */
  datatype Agg = Agg(content: string, calls: map<int, ToolCall>, finish: string)

  /** The rebuilt message; empty content stands for null. */
  datatype Message = Message(content: string, calls: seq<ToolCall>, finish: string)

  function AggTool(calls: map<int, ToolCall>, d: ToolDelta): map<int, ToolCall> {
    var slot := if d.index in calls then calls[d.index] else ToolCall(d.id, "", "");
    var id := if d.id.Some? && d.id.value != "" then d.id else slot.id;
    calls[d.index := ToolCall(id, slot.name + d.name, slot.args + d.args)]
  }

  function AggTools(calls: map<int, ToolCall>, tools: seq<ToolDelta>): map<int, ToolCall>
    decreases |tools|
  {
    if tools == [] then calls else AggTool(AggTools(calls, tools[..|tools| - 1]), tools[|tools| - 1])
  }

  function AggStep(a: Agg, c: Chunk): Agg {
    if c.NoChoice? then a
    else Agg(a.content + c.content, AggTools(a.calls, c.tools), if c.finish != "" then c.finish else a.finish)
  }

  function AggAll(chunks: seq<Chunk>): Agg
    decreases |chunks|
  {
    if chunks == [] then Agg("", map[], "stop") else AggStep(AggAll(chunks[..|chunks| - 1]), chunks[|chunks| - 1])
  }

  lemma EmptyIf(s: set<int>)
    ensures (forall y :: y !in s) ==> s == {}
  {
    if forall y :: y !in s { assert s == {}; }
  }

  lemma {:induction false} LeastExists(s: set<int>)
    requires s != {}
    ensures exists m :: m in s && forall x | x in s :: m <= x
    decreases s
  {
    EmptyIf(s);
    var y :| y in s;
    var t := s - {y};
    if t == {} {
      forall x | x in s ensures y <= x { assert x !in t; }
    } else {
      LeastExists(t);
      var m :| m in t && forall x | x in t :: m <= x;
      var n := if m < y then m else y;
      forall x | x in s ensures n <= x { assert x == y || x in t; }
      assert n in s;
    }
  }

  function Least(s: set<int>): (m: int)
    requires s != {}
    ensures m in s && forall x | x in s :: m <= x
  {
    LeastExists(s);
    var m :| m in s && forall x | x in s :: m <= x;
    m
  }

  /** Python's `sorted` of a set of indices. */
  function Sorted(s: set<int>): seq<int>
    decreases s
  {
    if s == {} then [] else
      var m := Least(s);
      [m] + Sorted(s - {m})
  }

  ghost predicate Ascending(q: seq<int>) {
    forall i, j | 0 <= i < j < |q| :: q[i] < q[j]
  }

  function Elements(q: seq<int>): set<int> {
    set x | x in q
  }

  /** An ascending enumeration of a set is its sorted sequence. */
  lemma {:induction false} SortedIs(q: seq<int>)
    requires Ascending(q)
    ensures Sorted(Elements(q)) == q
    decreases |q|
  {
    var s := Elements(q);
    if q != [] {
      assert q[0] in s;
      var m := Least(s);
      assert m in q;
      assert m == q[0];
      var rest := q[1..];
      assert Elements(rest) == s - {m} by {
        forall x | x in s - {m} ensures x in Elements(rest) {
          var k :| 0 <= k < |q| && q[k] == x;
          assert rest[k - 1] == x;
        }
      }
      SortedIs(rest);
    }
  }

  function MessageOf(a: Agg): Message {
    var keys := Sorted(a.calls.Keys);
    SortedMembers(a.calls.Keys);
    Message(a.content, seq(|keys|, k requires 0 <= k < |keys| => a.calls[keys[k]]),
            if |a.calls| > 0 then "tool_calls" else a.finish)
  }

  lemma {:induction false} SortedMembers(s: set<int>)
    ensures forall k | 0 <= k < |Sorted(s)| :: Sorted(s)[k] in s
    decreases s
  {
    if s != {} { SortedMembers(s - {Least(s)}); }
  }

  /** `_aggregate_openai_sse` over the parsed data lines. */
  method AggregateSse(chunks: seq<Chunk>) returns (m: Message)
    ensures m == MessageOf(AggAll(chunks))
  {
    var content, finish := "", "stop";
    var calls: map<int, ToolCall> := map[];
    for n := 0 to |chunks|
      invariant Agg(content, calls, finish) == AggAll(chunks[..n])
    {
      assert chunks[..n + 1][..n] == chunks[..n];
      var c := chunks[n];
      if c.Choice? {
        ghost var before := calls;
        if c.finish != "" { finish := c.finish; }
        content := content + c.content;
        for k := 0 to |c.tools|
          invariant calls == AggTools(before, c.tools[..k])
        {
          assert c.tools[..k + 1][..k] == c.tools[..k];
          var d := c.tools[k];
          var slot := if d.index in calls then calls[d.index] else ToolCall(d.id, "", "");
          var id := if d.id.Some? && d.id.value != "" then d.id else slot.id;
          calls := calls[d.index := ToolCall(id, slot.name + d.name, slot.args + d.args)];
        }
        assert c.tools[..|c.tools|] == c.tools;
      }
    }
    assert chunks[..|chunks|] == chunks;
    m := MessageOf(Agg(content, calls, finish));
  }

  lemma AggSnoc(chunks: seq<Chunk>, c: Chunk)
    ensures AggAll(chunks + [c]) == AggStep(AggAll(chunks), c)
  {
    assert (chunks + [c])[..|chunks|] == chunks;
  }

  /** All names sent for call `i`, one after the other. */
  function NamesFor(ds: seq<ToolDelta>, i: int): string
    decreases |ds|
  {
    if ds == [] then "" else NamesFor(ds[..|ds| - 1], i) + if ds[|ds| - 1].index == i then ds[|ds| - 1].name else ""
  }

  predicate NoId(d: ToolDelta) {
    d.id.None? || d.id.value == ""
  }

  /** `id` is the last non-empty id sent for call `i`; without one, the id of its first delta. */
  ghost predicate IsIdFor(ds: seq<ToolDelta>, i: int, id: Option<string>) {
    exists k | 0 <= k < |ds| :: ds[k].index == i && ds[k].id == id && (LastNamed(ds, i, k) || FirstOfNone(ds, i, k))
  }

  predicate LastNamed(ds: seq<ToolDelta>, i: int, k: nat)
    requires k < |ds|
  {
    !NoId(ds[k]) && forall j | k < j < |ds| && ds[j].index == i :: NoId(ds[j])
  }

  predicate FirstOfNone(ds: seq<ToolDelta>, i: int, k: nat)
    requires k < |ds|
  {
    (forall j | 0 <= j < k :: ds[j].index != i) && forall j | 0 <= j < |ds| && ds[j].index == i :: NoId(ds[j])
  }

  /**
   * Aggregating any tool deltas, in whatever pieces: each index that occurs
   * has one call with all its names and arguments joined and its last id.
   */
  lemma {:induction false} CallsAggregated(ds: seq<ToolDelta>, i: int)
    ensures var calls := AggTools(map[], ds);
            && (i in calls <==> exists k | 0 <= k < |ds| :: ds[k].index == i)
            && (i in calls ==> calls[i].name == NamesFor(ds, i) && calls[i].args == ArgsFor(ds, i) && IsIdFor(ds, i, calls[i].id))
            && (i !in calls ==> NamesFor(ds, i) == "" && ArgsFor(ds, i) == "")
    decreases |ds|
  {
    hide IsIdFor;
    if ds != [] {
      var n := |ds| - 1;
      var less, d, before := ds[..n], ds[n], AggTools(map[], ds[..n]);
      CallsAggregated(less, i);
      assert ds == less + [d];
      assert AggTools(map[], ds) == AggTool(before, d);
      assert "" + d.name == d.name && "" + d.args == d.args;
      if d.index == i {
        if i in before { IdStep(less, d, i, before[i].id); } else { IdFirst(less, d, i); }
      } else if i in before {
        IdKept(less, d, i, before[i].id);
        assert before[i].name + "" == before[i].name && before[i].args + "" == before[i].args;
      } else {
        assert NamesFor(ds, i) == NamesFor(less, i) + "" && ArgsFor(ds, i) == ArgsFor(less, i) + "";
      }
    }
  }

  lemma IdKept(less: seq<ToolDelta>, d: ToolDelta, i: int, id: Option<string>)
    requires d.index != i && IsIdFor(less, i, id)
    ensures IsIdFor(less + [d], i, id)
  {
    var ds := less + [d];
    assert forall k | 0 <= k < |less| :: ds[k] == less[k];
    var k :| 0 <= k < |less| && less[k].index == i && less[k].id == id && (LastNamed(less, i, k) || FirstOfNone(less, i, k));
    assert ds[k].index == i && (LastNamed(ds, i, k) || FirstOfNone(ds, i, k));
  }

  lemma IdStep(less: seq<ToolDelta>, d: ToolDelta, i: int, id: Option<string>)
    requires d.index == i && IsIdFor(less, i, id)
    ensures IsIdFor(less + [d], i, if d.id.Some? && d.id.value != "" then d.id else id)
  {
    var ds := less + [d];
    assert forall k | 0 <= k < |less| :: ds[k] == less[k];
    if NoId(d) {
      var k :| 0 <= k < |less| && less[k].index == i && less[k].id == id && (LastNamed(less, i, k) || FirstOfNone(less, i, k));
      assert ds[k].index == i && (LastNamed(ds, i, k) || FirstOfNone(ds, i, k));
    } else {
      assert ds[|less|].index == i && LastNamed(ds, i, |less|);
    }
  }

  lemma IdFirst(less: seq<ToolDelta>, d: ToolDelta, i: int)
    requires d.index == i && forall k | 0 <= k < |less| :: less[k].index != i
    ensures IsIdFor(less + [d], i, d.id)
  {
    var ds := less + [d];
    assert forall k | 0 <= k < |less| :: ds[k] == less[k];
    assert ds[|less|].index == i && (if NoId(d) then FirstOfNone(ds, i, |less|) else LastNamed(ds, i, |less|));
  }

  /** Each event is forwarded as a chunk of its own that carries one thing and no usage; a stop reason becomes the finish reason. */
  lemma ForwardsOneThing(index: map<nat, nat>, e: Event)
    ensures var f := ForwardOf(index, e);
            && (f.Some? ==> f.value.Choice? && f.value.completion == 0)
            && (f.Some? && f.value.tools != [] ==>
                  && |f.value.tools| == 1 && f.value.reasoning == "" && f.value.content == "" && f.value.finish == ""
                  && (e.BlockDelta? ==> f.value.tools[0].name == "" && f.value.tools[0].id == None && f.value.tools[0].args == e.text)
                  && (e.BlockStart? ==> f.value.tools[0].args == "" && e.head == ToolHead(f.value.tools[0].id.value, f.value.tools[0].name)))
            && (e.MessageDelta? ==>
                  if e.stopReason == "" then f == None
                  else f == Some(Choice("", "", [], if e.stopReason == "max_tokens" then "length"
                                                    else if e.stopReason == "tool_use" then "tool_calls" else "stop", 0)))
            && (f.Some? && !e.MessageDelta? ==> f.value.finish == "")
  {
  }

  // ----- converting then aggregating reads off the blocks -----

  function CallOf(b: Block): ToolCall {
    if b.head.ToolHead? then ToolCall(Some(b.head.id), b.head.name, b.text) else ToolCall(None, "", "")
  }

  /** What the far end has gathered is what the blocks so far say. */
  ghost predicate Meant(events: seq<Event>) {
    var c, bs := ConvertAll(events), Blocks(events);
    Gathered(AggAll(c.chunks), bs) && Indexed(c.index, bs)
  }

  ghost predicate Gathered(a: Agg, bs: seq<Block>) {
    var t := ToolBlocks(bs);
    && a.finish == "stop"
    && a.content == TextOf(bs)
    && (forall k :: k in a.calls <==> 0 <= k < |t|)
    && (forall k | 0 <= k < |t| :: a.calls[k] == CallOf(t[k]))
  }

  ghost predicate Indexed(index: map<nat, nat>, bs: seq<Block>) {
    && |index| == |ToolBlocks(bs)|
    && (forall b: nat :: b in index <==> b < |bs| && bs[b].head.ToolHead?)
    && (forall b | b in index :: b <= |bs| && index[b] == Rank(bs, b))
  }

  /** Events that only ever address the block they should. */
  predicate Aimed(bs: seq<Block>, e: Event) {
    match e
    case BlockStart(i, _) => i == |bs|
    case BlockDelta(i, Text, _) => i + 1 == |bs| && bs[i].head.TextHead?
    case BlockDelta(i, Thinking, _) => i + 1 == |bs| && bs[i].head.ThinkingHead?
    case BlockDelta(i, ToolUse, _) => i < |bs| && bs[i].head.ToolHead?
    case MessageDelta(_, _) => false
    case _ => true
  }

  lemma OneTool(calls: map<int, ToolCall>, d: ToolDelta)
    ensures AggTools(calls, [d]) == AggTool(calls, d) && AggTools(calls, []) == calls
  {
    assert [d][..0] == [];
  }

  lemma StartIndexed(index: map<nat, nat>, bs: seq<Block>, head: BlockHead)
    requires Indexed(index, bs)
    ensures Indexed(IndexAfter(index, BlockStart(|bs|, head)), bs + [Block(head, "")])
  {
    hide ToolBlocks, TextOf, Rank;
    BlocksAppend(bs, Block(head, ""));
    forall b: nat | b <= |bs| ensures Rank(bs + [Block(head, "")], b) == Rank(bs, b) {
      RankAppend(bs, Block(head, ""), b);
    }
  }

  lemma StartMeant(a: Agg, index: map<nat, nat>, bs: seq<Block>, head: BlockHead)
    requires Gathered(a, bs) && |index| == |ToolBlocks(bs)|
    ensures var f := ForwardOf(index, BlockStart(|bs|, head));
            Gathered(if f.Some? then AggStep(a, f.value) else a, bs + [Block(head, "")])
  {
    hide ToolBlocks, TextOf, Rank, AggStep;
    BlocksAppend(bs, Block(head, ""));
    assert TextOf(bs) + "" == TextOf(bs);
    if head.ToolHead? {
      NewCall(a, |index|, head);
    }
  }

  lemma NewCall(a: Agg, i: int, head: BlockHead)
    requires head.ToolHead? && i !in a.calls
    ensures AggStep(a, ToolChunk(ToolDelta(i, Some(head.id), "", head.name, "")))
         == a.(calls := a.calls[i := ToolCall(Some(head.id), head.name, "")])
  {
    var d := ToolDelta(i, Some(head.id), "", head.name, "");
    OneTool(a.calls, d);
    assert "" + head.name == head.name && "" + "" == "" && a.content + "" == a.content;
  }

  lemma MoreArgs(a: Agg, i: int, t: string)
    requires i in a.calls
    ensures var c := a.calls[i];
            AggStep(a, ToolChunk(ToolDelta(i, None, "", "", t))) == a.(calls := a.calls[i := ToolCall(c.id, c.name, c.args + t)])
  {
    var d, c := ToolDelta(i, None, "", "", t), a.calls[i];
    OneTool(a.calls, d);
    assert c.name + "" == c.name && a.content + "" == a.content;
  }

  lemma MoreText(a: Agg, t: string)
    ensures AggStep(a, ContentDelta(t)) == a.(content := a.content + t)
  {
    OneTool(a.calls, ToolDelta(0, None, "", "", ""));
  }

  lemma GrowMeant(a: Agg, index: map<nat, nat>, bs: seq<Block>, e: Event)
    requires Gathered(a, bs) && Indexed(index, bs)
    requires e.BlockDelta? && Aimed(bs, e)
    ensures var f := ForwardOf(index, e);
            && Gathered(if f.Some? then AggStep(a, f.value) else a, Grow(bs, e.index, e.text))
            && Indexed(index, Grow(bs, e.index, e.text))
  {
    if e.kind == ToolUse {
      hide Grow;
      GrowCall(a, index, bs, e.index, e.text);
      GrowIndexed(index, bs, e.index, e.text);
    } else {
      GrowPiece(a, bs, e.index, e.text);
      MoreText(a, e.text);
      OneTool(a.calls, ToolDelta(0, None, "", "", ""));
      assert a.content + "" == a.content;
      GrowIndexed(index, bs, e.index, e.text);
    }
  }

  lemma GrowIndexed(index: map<nat, nat>, bs: seq<Block>, i: nat, t: string)
    requires Indexed(index, bs) && i < |bs|
    ensures Indexed(index, Grow(bs, i, t))
  {
    hide ToolBlocks, Rank;
    var gs := Grow(bs, i, t);
    forall b: nat | b <= |bs| ensures Rank(gs, b) == Rank(bs, b) {
      GrowRank(bs, i, t, b);
    }
    if bs[i].head.ToolHead? { GrowTool(bs, i, t); } else { GrowProse(bs, i, t); }
  }

  lemma GrowCall(a: Agg, index: map<nat, nat>, bs: seq<Block>, i: nat, t: string)
    requires Gathered(a, bs) && Indexed(index, bs) && i < |bs| && bs[i].head.ToolHead?
    ensures i in index && Gathered(AggStep(a, ToolChunk(ToolDelta(index[i], None, "", "", t))), Grow(bs, i, t))
  {
    hide ToolBlocks, TextOf, Rank, AggStep;
    GrowTool(bs, i, t);
    MoreArgs(a, index[i], t);
  }

  lemma GrowPiece(a: Agg, bs: seq<Block>, i: nat, t: string)
    requires Gathered(a, bs) && i + 1 == |bs| && !bs[i].head.ToolHead?
    ensures Gathered(if bs[i].head.TextHead? then a.(content := a.content + t) else a, Grow(bs, i, t))
  {
    hide ToolBlocks, TextOf;
    GrowProse(bs, i, t);
    GrowLast(bs, t);
    assert a.content + "" == a.content;
  }

  lemma IndexedSize(index: map<nat, nat>, bs: seq<Block>)
    requires Indexed(index, bs)
    ensures |index| == |ToolBlocks(bs)|
  {
  }

  lemma EventMeant(events: seq<Event>, e: Event)
    requires Meant(events) && Aimed(Blocks(events), e)
    ensures Meant(events + [e])
  {
    hide Blocks, ConvertAll, AggAll, Gathered, Indexed;
    var c, bs := ConvertAll(events), Blocks(events);
    ConvertSnoc(events, e);
    BlocksSnoc(events, e);
    var f := ForwardOf(c.index, e);
    if f.Some? { AggSnoc(c.chunks, f.value); }
    match e
    case BlockStart(i, head) =>
      StartIndexed(c.index, bs, head);
      assert |c.index| == |ToolBlocks(bs)| by { IndexedSize(c.index, bs); }
      StartMeant(AggAll(c.chunks), c.index, bs, head);
    case BlockDelta(_, _, _) => GrowMeant(AggAll(c.chunks), c.index, bs, e);
    case MessageStart => EmptyDelta(AggAll(c.chunks));
    case _ =>
  }

  lemma EmptyDelta(a: Agg)
    ensures AggStep(a, ContentDelta("")) == a
  {
    assert a.content + "" == a.content;
  }

  lemma StopMeant(w: Writer)
    requires Meant(w.out)
    ensures Meant(StopCurrent(w).out) && Blocks(StopCurrent(w).out) == Blocks(w.out)
  {
    hide Blocks, Meant;
    StopView(w);
    if !w.cur.Closed? { EventMeant(w.out, BlockStop(w.cur.index)); }
  }

  lemma OpenMeant(w: Writer, thinking: bool)
    requires Meant(w.out) && |Blocks(w.out)| == w.next
    ensures Meant(OpenProse(w, thinking).out)
    ensures Blocks(OpenProse(w, thinking).out) == Blocks(w.out) + [Block(ProseHead(thinking), "")]
  {
    hide Blocks, Meant;
    OpenView(w, thinking);
    EventMeant(w.out, BlockStart(w.next, ProseHead(thinking)));
  }

  lemma SpeakMeant(w: Writer, thinking: bool, text: string)
    requires Meant(w.out) && Good(w)
    ensures Meant(Speak(w, thinking, text).out)
  {
    hide Blocks, Meant;
    StopMeant(w);
    OpenMeant(StopCurrent(w), thinking);
    var v := Ensure(w, thinking);
    EventMeant(v.out, BlockDelta(v.cur.index, ProseKind(thinking), text));
  }

  lemma CallMeant(w: Writer, d: ToolDelta)
    requires Meant(w.out) && Good(w)
    ensures Meant(CallTool(w, d).out)
  {
    hide Blocks, Meant;
    StopMeant(w);
    var u := StopCurrent(w);
    var slot := SlotFor(d, u.next);
    EventMeant(u.out, BlockStart(u.next, ToolHead(slot.id, slot.name)));
    SelectView(w, d);
    SaneSelect(ViewOf(w), d);
    var v := Select(w, d);
    assert Meant(v.out);
    hide Select, SelectV;
    if d.args != "" {
      EventMeant(v.out, BlockDelta(v.tools[d.index].block, ToolUse, d.args));
    }
  }

  lemma {:induction false} AllMeant(w: Writer, acts: seq<Act>)
    requires Meant(w.out) && Good(w)
    ensures Meant(ApplyAll(w, acts).out)
    decreases |acts|
  {
    hide Blocks, Meant, Good, Speak, CallTool, ViewOf, ApplyV;
    if acts != [] {
      ApplyView(w, acts[0]);
      StepMeant(w, acts[0]);
      AllMeant(Apply(w, acts[0]), acts[1..]);
    }
  }

  lemma StepMeant(w: Writer, act: Act)
    requires Meant(w.out) && Good(w)
    ensures Meant(Apply(w, act).out)
  {
    hide Blocks, Meant, Speak, CallTool, Sane;
    match act
    case Reason(t) => SpeakMeant(w, true, t);
    case Say(thinking, t) => SpeakMeant(w, thinking, t);
    case Enter(_) => StopMeant(w); OpenMeant(StopCurrent(w), true);
    case Leave(_) => StopMeant(w);
    case Call(d) => CallMeant(w, d);
  }

  lemma GreetingMeant()
    ensures Meant(START.out)
  {
    assert [MessageStart, Ping] == [] + [MessageStart] + [Ping];
    assert Meant([]);
    EventMeant([], MessageStart);
    BlocksSnoc([], MessageStart);
    EventMeant([] + [MessageStart], Ping);
  }

  /** The message the far end rebuilds from a block list. */
  function Rebuilt(bs: seq<Block>, finish: string): Message {
    var t := ToolBlocks(bs);
    Message(TextOf(bs), seq(|t|, k requires 0 <= k < |t| => CallOf(t[k])), if t != [] then "tool_calls" else finish)
  }

  lemma GatheredMessage(a: Agg, bs: seq<Block>, finish: string)
    requires Gathered(a, bs)
    ensures MessageOf(a.(finish := finish)) == Rebuilt(bs, finish)
  {
    hide ToolBlocks, TextOf, Sorted;
    var t := ToolBlocks(bs);
    var q := seq(|t|, k => k);
    assert a.calls.Keys == Elements(q) by {
      forall k | k in a.calls ensures k in Elements(q) { assert q[k] == k; }
    }
    SortedIs(q);
    if t != [] { assert 0 in a.calls; }
  }

  /**
   * For every chunk stream: translating to Anthropic events, converting those
   * back to OpenAI chunks and aggregating gives the text of the text blocks,
   * the tool blocks as calls, and the finish reason both sides can express.
   */
  lemma ThereAndBack(show: bool, chunks: seq<Chunk>)
    ensures var events := EventsOf(show, chunks);
            MessageOf(AggAll(ConvertAll(events).chunks))
            == Rebuilt(Blocks(events), MapStopReason(StopReason(FinishOf("stop", chunks))))
  {
    hide Blocks, Meant, Good, ApplyAll, ActsOf, AggAll, ConvertAll, MessageOf, Rebuilt, ToolBlocks, TextOf, ViewOf, ApplyAllV, Sane;
    var w := ApplyAll(START, ActsOf(show, chunks));
    GreetingMeant();
    StartGood();
    AllMeant(START, ActsOf(show, chunks));
    BackFinish(w, FinishOf("stop", chunks), Tokens(show, 0, chunks));
  }

  lemma StartGood()
    ensures Good(START)
  {
    StartView();
  }

  lemma BackFinish(w: Writer, finish: string, tokens: nat)
    requires Meant(w.out)
    ensures var events := Finish(w, finish, tokens);
            MessageOf(AggAll(ConvertAll(events).chunks)) == Rebuilt(Blocks(events), MapStopReason(StopReason(finish)))
  {
    hide Blocks, ConvertAll, AggAll, MessageOf, Rebuilt, Gathered, Indexed;
    StopMeant(w);
    var v := StopCurrent(w);
    var m := MessageDelta(StopReason(finish), tokens);
    assert Finish(w, finish, tokens) == v.out + [m] + [MessageStop];
    ConvertSnoc(v.out, m);
    ConvertSnoc(v.out + [m], MessageStop);
    FinishView(w, finish, tokens);
    var c := ConvertAll(v.out);
    AggSnoc(c.chunks, Choice("", "", [], MapStopReason(StopReason(finish)), 0));
    var a := AggAll(c.chunks);
    OneTool(a.calls, ToolDelta(0, None, "", "", ""));
    assert a.content + "" == a.content;
    GatheredMessage(a, Blocks(w.out), MapStopReason(StopReason(finish)));
  }
}
