// How writing decisions become Anthropic events: at most one block open,
// indices handed out in order, tool calls remembered by their OpenAI index.
module BlockWriter {
  import opened StreamTypes
  import opened Splitter

  /** `current` of the source: the block presently open, if any. */
  datatype Cursor =
    | Closed
    | Prose(thinking: bool, index: nat)
    | OnTool(index: nat, tool: int)

  /** A remembered tool call. */
  datatype Slot = Slot(id: string, name: string, block: nat)

  datatype Writer = Writer(cur: Cursor, next: nat, tools: map<int, Slot>, out: seq<Event>)

  const START: Writer := Writer(Closed, 0, map[], [MessageStart, Ping])

  function StopCurrent(w: Writer): Writer {
    if w.cur.Closed? then w else Writer(Closed, w.next, w.tools, w.out + [BlockStop(w.cur.index)])
  }

  function OpenProse(w: Writer, thinking: bool): Writer {
    Writer(Prose(thinking, w.next), w.next + 1, w.tools, w.out + [BlockStart(w.next, ProseHead(thinking))])
  }

  /** Make sure a prose block of the wanted kind is the open one. */
  function Ensure(w: Writer, thinking: bool): (r: Writer)
    ensures r.cur.Prose? && r.cur.thinking == thinking
  {
    if w.cur.Prose? && w.cur.thinking == thinking then w else OpenProse(StopCurrent(w), thinking)
  }

  function ProseKind(thinking: bool): Kind {
    if thinking then Thinking else Text
  }

  function Speak(w: Writer, thinking: bool, text: string): Writer {
    var v := Ensure(w, thinking);
    v.(out := v.out + [BlockDelta(v.cur.index, ProseKind(thinking), text)])
  }

  function SlotFor(d: ToolDelta, block: nat): Slot {
    Slot(if d.id.Some? then d.id.value else d.drawn, d.name, block)
  }

  /** Turn to the tool call `d.index`, opening its block on first sight. */
  function Select(w: Writer, d: ToolDelta): (r: Writer)
    ensures d.index in r.tools
  {
    if d.index in w.tools && w.cur.OnTool? && w.cur.tool == d.index then
      w
    else
      var v := StopCurrent(w);
      if d.index in v.tools then
        v.(cur := OnTool(v.tools[d.index].block, d.index))
      else
        var slot := SlotFor(d, v.next);
        Writer(OnTool(v.next, d.index), v.next + 1, v.tools[d.index := slot],
               v.out + [BlockStart(v.next, ToolHead(slot.id, slot.name))])
  }

  function CallTool(w: Writer, d: ToolDelta): Writer {
    var v := Select(w, d);
    if d.args == "" then v
    else v.(out := v.out + [BlockDelta(v.tools[d.index].block, ToolUse, d.args)])
  }

  function Apply(w: Writer, act: Act): Writer {
    match act
    case Reason(t) => Speak(w, true, t)
    case Say(thinking, t) => Speak(w, thinking, t)
    case Enter(_) => OpenProse(StopCurrent(w), true)
    case Leave(_) => StopCurrent(w)
    case Call(d) => CallTool(w, d)
  }

  function ApplyAll(w: Writer, acts: seq<Act>): Writer
    decreases |acts|
  {
    if acts == [] then w else ApplyAll(Apply(w, acts[0]), acts[1..])
  }

  lemma {:induction false} ApplyAppend(w: Writer, a: seq<Act>, b: seq<Act>)
    ensures ApplyAll(w, a + b) == ApplyAll(ApplyAll(w, a), b)
    decreases |a|
  {
    hide Apply;
    if a == [] {
      assert a + b == b;
    } else {
      assert (a + b)[0] == a[0] && (a + b)[1..] == a[1..] + b;
      ApplyAppend(Apply(w, a[0]), a[1..], b);
    }
  }

  function StopReason(finish: string): string {
    if finish == "tool_calls" then "tool_use" else if finish == "length" then "max_tokens" else "end_turn"
  }

  /** The closing events of a stream. */
  function Finish(w: Writer, finish: string, tokens: nat): seq<Event> {
    StopCurrent(w).out + [MessageDelta(StopReason(finish), tokens), MessageStop]
  }

  // ----- finish reason and output token counter -----

  function FinishOf(finish: string, chunks: seq<Chunk>): string
    decreases |chunks|
  {
    if chunks == [] then finish
    else FinishOf(if chunks[0].Choice? && chunks[0].finish != "" then chunks[0].finish else finish, chunks[1..])
  }

  function CountArgs(tools: seq<ToolDelta>): nat {
    if tools == [] then 0 else (if tools[0].args != "" then 1 else 0) + CountArgs(tools[1..])
  }

  function ChunkTokens(show: bool, tokens: nat, c: Chunk): nat {
    var t := if c.completion != 0 then c.completion else tokens;
    if c.NoChoice? then t
    else t + (if c.reasoning != "" && show then 1 else 0) + CountArgs(c.tools)
  }

  function Tokens(show: bool, tokens: nat, chunks: seq<Chunk>): nat
    decreases |chunks|
  {
    if chunks == [] then tokens else Tokens(show, ChunkTokens(show, tokens, chunks[0]), chunks[1..])
  }

  /** The whole event stream for a chunk stream. */
  function EventsOf(show: bool, chunks: seq<Chunk>): seq<Event> {
    Finish(ApplyAll(START, ActsOf(show, chunks)), FinishOf("stop", chunks), Tokens(show, 0, chunks))
  }

  // ----- the blocks a client assembles -----

  function Blocks(events: seq<Event>): (r: seq<Block>)
    decreases |events|
  {
    if events == [] then []
    else
      var bs := Blocks(events[..|events| - 1]);
      BlocksStep(bs, events[|events| - 1])
  }

  function BlocksStep(bs: seq<Block>, e: Event): seq<Block> {
    match e
    case BlockStart(_, head) => bs + [Block(head, "")]
    case BlockDelta(i, _, t) => if i < |bs| then bs[i := Block(bs[i].head, bs[i].text + t)] else bs
    case _ => bs
  }

  lemma BlocksSnoc(events: seq<Event>, e: Event)
    ensures Blocks(events + [e]) == BlocksStep(Blocks(events), e)
  {
    assert (events + [e])[..|events|] == events;
  }

  /** What matters of a writer: its cursor, its tool map and the blocks it wrote. */
  datatype View = View(cur: Cursor, tools: map<int, Slot>, blocks: seq<Block>)

  function ViewOf(w: Writer): View {
    View(w.cur, w.tools, Blocks(w.out))
  }

  /** Blocks, cursor and tool map agree with one another. */
  ghost predicate Sane(v: View) {
    && (v.cur.Prose? ==> v.cur.index + 1 == |v.blocks| && v.blocks[v.cur.index].head == ProseHead(v.cur.thinking))
    && (v.cur.OnTool? ==> v.cur.tool in v.tools && v.cur.index == v.tools[v.cur.tool].block)
    && (forall i | i in v.tools ::
          v.tools[i].block < |v.blocks| && v.blocks[v.tools[i].block].head == ToolHead(v.tools[i].id, v.tools[i].name))
    && (forall i, j | i in v.tools && j in v.tools && i != j :: v.tools[i].block != v.tools[j].block)
    && (forall b | 0 <= b < |v.blocks| && v.blocks[b].head.ToolHead? :: exists i :: i in v.tools && v.tools[i].block == b)
  }

  function Grow(bs: seq<Block>, i: nat, text: string): seq<Block>
    requires i < |bs|
  {
    bs[i := Block(bs[i].head, bs[i].text + text)]
  }

  function SpeakV(v: View, thinking: bool, text: string): View {
    if v.cur.Prose? && v.cur.thinking == thinking && v.cur.index < |v.blocks| then
      v.(blocks := Grow(v.blocks, v.cur.index, text))
    else
      View(Prose(thinking, |v.blocks|), v.tools, v.blocks + [Block(ProseHead(thinking), text)])
  }

  function SelectV(v: View, d: ToolDelta): View {
    if d.index in v.tools then
      v.(cur := OnTool(v.tools[d.index].block, d.index))
    else
      var slot := SlotFor(d, |v.blocks|);
      View(OnTool(|v.blocks|, d.index), v.tools[d.index := slot], v.blocks + [Block(ToolHead(slot.id, slot.name), "")])
  }

  function CallV(v: View, d: ToolDelta): View {
    var s := SelectV(v, d);
    if d.args != "" && d.index in s.tools && s.tools[d.index].block < |s.blocks| then
      s.(blocks := Grow(s.blocks, s.tools[d.index].block, d.args))
    else s
  }

  /** The writer's effect on its view, free of events. */
  function ApplyV(v: View, act: Act): View {
    match act
    case Reason(t) => SpeakV(v, true, t)
    case Say(thinking, t) => SpeakV(v, thinking, t)
    case Enter(_) => View(Prose(true, |v.blocks|), v.tools, v.blocks + [Block(ThinkingHead, "")])
    case Leave(_) => v.(cur := Closed)
    case Call(d) => CallV(v, d)
  }

  function ApplyAllV(v: View, acts: seq<Act>): View
    decreases |acts|
  {
    if acts == [] then v else ApplyAllV(ApplyV(v, acts[0]), acts[1..])
  }

  lemma {:induction false} ApplyAppendV(v: View, a: seq<Act>, b: seq<Act>)
    ensures ApplyAllV(v, a + b) == ApplyAllV(ApplyAllV(v, a), b)
    decreases |a|
  {
    hide ApplyV;
    if a == [] {
      assert a + b == b;
    } else {
      assert (a + b)[0] == a[0] && (a + b)[1..] == a[1..] + b;
      ApplyAppendV(ApplyV(v, a[0]), a[1..], b);
    }
  }

  const START_VIEW: View := View(Closed, map[], [])

  lemma StartView()
    ensures ViewOf(START) == START_VIEW && Sane(START_VIEW) && |Blocks(START.out)| == START.next
  {
    assert [MessageStart, Ping] == [MessageStart] + [Ping];
    BlocksSnoc([MessageStart], Ping);
    assert [MessageStart] == [] + [MessageStart];
    BlocksSnoc([], MessageStart);
  }

  /** A writer whose view is sane and whose next index counts its blocks. */
  ghost predicate Good(w: Writer) {
    Sane(ViewOf(w)) && |Blocks(w.out)| == w.next
  }

  lemma StopView(w: Writer)
    ensures Blocks(StopCurrent(w).out) == Blocks(w.out)
  {
    if !w.cur.Closed? {
      BlocksSnoc(w.out, BlockStop(w.cur.index));
    }
  }

  lemma OpenView(w: Writer, thinking: bool)
    requires |Blocks(w.out)| == w.next
    ensures Blocks(OpenProse(w, thinking).out) == Blocks(w.out) + [Block(ProseHead(thinking), "")]
  {
    BlocksSnoc(w.out, BlockStart(w.next, ProseHead(thinking)));
  }

  lemma SpeakView(w: Writer, thinking: bool, text: string)
    requires Good(w)
    ensures ViewOf(Speak(w, thinking, text)) == SpeakV(ViewOf(w), thinking, text)
    ensures |Blocks(Speak(w, thinking, text).out)| == Speak(w, thinking, text).next
  {
    hide Blocks;
    var e := Ensure(w, thinking);
    StopView(w);
    OpenView(StopCurrent(w), thinking);
    BlocksSnoc(e.out, BlockDelta(e.cur.index, ProseKind(thinking), text));
    assert "" + text == text;
  }

  lemma SelectView(w: Writer, d: ToolDelta)
    requires Good(w)
    ensures ViewOf(Select(w, d)) == SelectV(ViewOf(w), d)
    ensures |Blocks(Select(w, d).out)| == Select(w, d).next
  {
    hide Blocks;
    StopView(w);
    var v := StopCurrent(w);
    var slot := SlotFor(d, v.next);
    BlocksSnoc(v.out, BlockStart(v.next, ToolHead(slot.id, slot.name)));
  }

  lemma CallView(w: Writer, d: ToolDelta)
    requires Good(w)
    ensures ViewOf(CallTool(w, d)) == CallV(ViewOf(w), d)
    ensures |Blocks(CallTool(w, d).out)| == CallTool(w, d).next
  {
    hide Blocks, Select;
    SelectView(w, d);
    var v := Select(w, d);
    BlocksSnoc(v.out, BlockDelta(v.tools[d.index].block, ToolUse, d.args));
  }

  lemma SaneSpeak(v: View, thinking: bool, text: string)
    requires Sane(v)
    ensures Sane(SpeakV(v, thinking, text))
  {
    var r := SpeakV(v, thinking, text);
    forall b | 0 <= b < |r.blocks| && r.blocks[b].head.ToolHead?
      ensures exists i :: i in r.tools && r.tools[i].block == b
    {
      assert b < |v.blocks| && v.blocks[b].head.ToolHead?;
    }
  }

  lemma SaneSelect(v: View, d: ToolDelta)
    requires Sane(v)
    ensures Sane(SelectV(v, d))
  {
    var r := SelectV(v, d);
    forall b | 0 <= b < |r.blocks| && r.blocks[b].head.ToolHead?
      ensures exists i :: i in r.tools && r.tools[i].block == b
    {
      if b < |v.blocks| {
        var i :| i in v.tools && v.tools[i].block == b;
        assert i in r.tools && r.tools[i].block == b;
      } else {
        assert d.index in r.tools && r.tools[d.index].block == b;
      }
    }
  }

  lemma SaneCall(v: View, d: ToolDelta)
    requires Sane(v)
    ensures Sane(CallV(v, d))
  {
    hide SelectV;
    SaneSelect(v, d);
    var s := SelectV(v, d);
    var r := CallV(v, d);
    forall b | 0 <= b < |r.blocks| && r.blocks[b].head.ToolHead?
      ensures exists i :: i in r.tools && r.tools[i].block == b
    {
      assert s.blocks[b].head.ToolHead?;
    }
  }

  lemma SaneApply(v: View, act: Act)
    requires Sane(v)
    ensures Sane(ApplyV(v, act))
  {
    match act
    case Reason(t) => SaneSpeak(v, true, t);
    case Say(thinking, t) => SaneSpeak(v, thinking, t);
    case Enter(_) =>
      var r := ApplyV(v, act);
      forall b | 0 <= b < |r.blocks| && r.blocks[b].head.ToolHead?
        ensures exists i :: i in r.tools && r.tools[i].block == b
      {
        assert b < |v.blocks| && v.blocks[b].head.ToolHead?;
      }
    case Leave(_) =>
    case Call(d) => SaneCall(v, d);
  }

  lemma ApplyView(w: Writer, act: Act)
    requires Good(w)
    ensures ViewOf(Apply(w, act)) == ApplyV(ViewOf(w), act) && Good(Apply(w, act))
  {
    hide Blocks, Sane, Speak, SpeakV, CallTool, CallV;
    SaneApply(ViewOf(w), act);
    match act
    case Reason(t) => SpeakView(w, true, t);
    case Say(thinking, t) => SpeakView(w, thinking, t);
    case Enter(_) => StopView(w); OpenView(StopCurrent(w), true);
    case Leave(_) => StopView(w);
    case Call(d) => CallView(w, d);
  }

  /** The events, read back as blocks, are what the abstract writer says. */
  lemma {:induction false} ApplyAllView(w: Writer, acts: seq<Act>)
    requires Good(w)
    ensures ViewOf(ApplyAll(w, acts)) == ApplyAllV(ViewOf(w), acts) && Good(ApplyAll(w, acts))
    decreases |acts|
  {
    hide Apply, ApplyV, ViewOf, Good;
    if acts != [] {
      ApplyView(w, acts[0]);
      ApplyAllView(Apply(w, acts[0]), acts[1..]);
    }
  }

  lemma FinishView(w: Writer, finish: string, tokens: nat)
    ensures Blocks(Finish(w, finish, tokens)) == Blocks(w.out)
  {
    hide Blocks, StopReason;
    StopView(w);
    var v := StopCurrent(w);
    var m := MessageDelta(StopReason(finish), tokens);
    assert Finish(w, finish, tokens) == v.out + [m] + [MessageStop];
    BlocksSnoc(v.out + [m], MessageStop);
    BlocksSnoc(v.out, m);
  }

  /** The blocks of a whole stream. */
  lemma EventBlocks(show: bool, chunks: seq<Chunk>)
    ensures var v := ApplyAllV(START_VIEW, ActsOf(show, chunks));
            Blocks(EventsOf(show, chunks)) == v.blocks && Sane(v)
  {
    hide Blocks, ActsOf, ApplyAll, ApplyAllV, Finish, Sane;
    var acts := ActsOf(show, chunks);
    StartView();
    ApplyAllView(START, acts);
    FinishView(ApplyAll(START, acts), FinishOf("stop", chunks), Tokens(show, 0, chunks));
  }
}
