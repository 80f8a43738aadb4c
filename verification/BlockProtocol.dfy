// The Anthropic block protocol as an automaton, and exactly when the
// translator's output follows it.
module BlockProtocol {
  import opened StreamTypes
  import opened Splitter
  import opened BlockWriter

  /** Where a well-formed event stream stands. */
  datatype Phase =
    | Fresh                                        // nothing sent
    | Greeted                                      // message_start sent
    | Between(next: nat)                           // no block open, `next` is the next index
    | Inside(index: nat, kind: Kind, next: nat)    // block `index` open
    | Summed                                       // message_delta sent
    | Ended                                        // message_stop sent
    | Broken

  function Step(p: Phase, e: Event): Phase {
    match (p, e)
    case (Fresh, MessageStart) => Greeted
    case (Greeted, Ping) => Between(0)
    case (Between(n), BlockStart(i, head)) => if i == n then Inside(i, KindOf(head), n + 1) else Broken
    case (Inside(i, k, n), BlockDelta(j, kind, _)) => if j == i && kind == k then p else Broken
    case (Inside(i, k, n), BlockStop(j)) => if j == i then Between(n) else Broken
    case (Between(n), MessageDelta(_, _)) => Summed
    case (Summed, MessageStop) => Ended
    case _ => Broken
  }

  function Run(events: seq<Event>): Phase
    decreases |events|
  {
    if events == [] then Fresh else Step(Run(events[..|events| - 1]), events[|events| - 1])
  }

  lemma RunSnoc(events: seq<Event>, e: Event)
    ensures Run(events + [e]) == Step(Run(events), e)
  {
    assert (events + [e])[..|events|] == events;
  }

  /** A stream that is fine up to its end was fine at every moment before. */
  lemma {:induction false} PrefixFine(events: seq<Event>, k: nat)
    requires k <= |events| && !Run(events).Broken?
    ensures !Run(events[..k]).Broken?
    decreases |events|
  {
    if k < |events| {
      var shorter := events[..|events| - 1];
      PrefixFine(shorter, k);
      assert shorter[..k] == events[..k];
    } else {
      assert events[..k] == events;
    }
  }

  /** The phase a writer believes it is in. */
  function Believed(w: Writer): Phase {
    match w.cur
    case Closed => Between(w.next)
    case Prose(thinking, i) => Inside(i, ProseKind(thinking), w.next)
    case OnTool(i, _) => Inside(i, ToolUse, w.next)
  }

  ghost predicate InSync(w: Writer) {
    && Run(w.out) == Believed(w)
    && (w.cur.OnTool? ==> w.cur.tool in w.tools && w.cur.index == w.tools[w.cur.tool].block)
  }

  /** The writer points at a block that was already stopped, or has already erred. */
  ghost predicate Doomed(w: Writer) {
    || Run(w.out) == Broken
    || (w.cur.OnTool? && w.cur.tool in w.tools && w.cur.index == w.tools[w.cur.tool].block && Run(w.out) == Between(w.next))
  }

  /** `act` turns back to a tool call whose block is not the open one. */
  predicate Returns(w: Writer, act: Act) {
    act.Call? && act.delta.index in w.tools && !(w.cur.OnTool? && w.cur.tool == act.delta.index)
  }

  lemma StopStep(w: Writer)
    ensures var p := Run(StopCurrent(w).out);
            && (Run(w.out) == Believed(w) ==> p == Between(w.next))
            && (Doomed(w) ==> p == Broken)
  {
    hide Run;
    if !w.cur.Closed? {
      RunSnoc(w.out, BlockStop(w.cur.index));
    }
  }

  lemma OpenStep(w: Writer, thinking: bool)
    ensures var v := OpenProse(w, thinking);
            && (Run(w.out) == Between(w.next) ==> Run(v.out) == Believed(v))
            && (Run(w.out) == Broken ==> Run(v.out) == Broken)
  {
    hide Run;
    RunSnoc(w.out, BlockStart(w.next, ProseHead(thinking)));
  }

  lemma SpeakStep(w: Writer, thinking: bool, text: string)
    ensures var v := Speak(w, thinking, text);
            && (InSync(w) ==> InSync(v))
            && (Doomed(w) ==> Run(v.out) == Broken)
  {
    hide Run;
    StopStep(w);
    OpenStep(StopCurrent(w), thinking);
    var v := Ensure(w, thinking);
    RunSnoc(v.out, BlockDelta(v.cur.index, ProseKind(thinking), text));
  }

  lemma SelectStep(w: Writer, d: ToolDelta)
    ensures var v := Select(w, d);
            && (InSync(w) && !Returns(w, Call(d)) ==> InSync(v) && v.cur.OnTool? && v.cur.tool == d.index)
            && (InSync(w) && Returns(w, Call(d)) ==> Doomed(v) && v.cur.OnTool? && v.cur.tool == d.index)
            && (Doomed(w) ==> Doomed(v) && (Run(v.out) != Broken ==> v.cur.OnTool? && v.cur.tool == d.index))
  {
    hide Run;
    StopStep(w);
    var v := StopCurrent(w);
    var slot := SlotFor(d, v.next);
    RunSnoc(v.out, BlockStart(v.next, ToolHead(slot.id, slot.name)));
  }

  lemma CallStep(w: Writer, d: ToolDelta)
    ensures var v := CallTool(w, d);
            && (InSync(w) && !Returns(w, Call(d)) ==> InSync(v))
            && (InSync(w) && Returns(w, Call(d)) ==> Doomed(v))
            && (Doomed(w) ==> Doomed(v))
  {
    hide Run, Select;
    SelectStep(w, d);
    var v := Select(w, d);
    RunSnoc(v.out, BlockDelta(v.tools[d.index].block, ToolUse, d.args));
  }

  lemma ApplyStep(w: Writer, act: Act)
    ensures InSync(w) && !Returns(w, act) ==> InSync(Apply(w, act))
    ensures InSync(w) && Returns(w, act) ==> Doomed(Apply(w, act))
    ensures Doomed(w) ==> Doomed(Apply(w, act))
  {
    hide Run, Speak, CallTool;
    match act
    case Reason(t) => SpeakStep(w, true, t);
    case Say(thinking, t) => SpeakStep(w, thinking, t);
    case Enter(_) => StopStep(w); OpenStep(StopCurrent(w), true);
    case Leave(_) => StopStep(w);
    case Call(d) => CallStep(w, d);
  }

  /** No decision in the list turns back to a tool call left before. */
  predicate Forward(w: Writer, acts: seq<Act>)
    decreases |acts|
  {
    acts == [] || (!Returns(w, acts[0]) && Forward(Apply(w, acts[0]), acts[1..]))
  }

  lemma {:induction false} ActsProtocol(w: Writer, acts: seq<Act>)
    ensures InSync(w) && Forward(w, acts) ==> InSync(ApplyAll(w, acts))
    ensures InSync(w) && !Forward(w, acts) ==> Doomed(ApplyAll(w, acts))
    ensures Doomed(w) ==> Doomed(ApplyAll(w, acts))
    decreases |acts|
  {
    hide InSync, Doomed, Apply, Returns;
    if acts != [] {
      ApplyStep(w, acts[0]);
      ActsProtocol(Apply(w, acts[0]), acts[1..]);
    }
  }

  lemma FinishStep(w: Writer, finish: string, tokens: nat)
    ensures InSync(w) ==> Run(Finish(w, finish, tokens)) == Ended
    ensures Doomed(w) ==> Run(Finish(w, finish, tokens)) == Broken
  {
    hide Run, StopCurrent, StopReason;
    StopStep(w);
    var v := StopCurrent(w);
    var m := MessageDelta(StopReason(finish), tokens);
    assert Finish(w, finish, tokens) == v.out + [m] + [MessageStop];
    RunSnoc(v.out + [m], MessageStop);
    RunSnoc(v.out, m);
  }

  // ----- the condition, read off the input chunks -----

  /** Each index in `tools` is new or the one seen last. */
  predicate ToolsForward(seen: set<int>, last: Option<int>, tools: seq<ToolDelta>)
    decreases |tools|
  {
    tools == [] ||
    ((tools[0].index in seen ==> last == Some(tools[0].index))
     && ToolsForward(seen + {tools[0].index}, Some(tools[0].index), tools[1..]))
  }

  function Indices(tools: seq<ToolDelta>): set<int> {
    set k | 0 <= k < |tools| :: tools[k].index
  }

  function LastTool(last: Option<int>, tools: seq<ToolDelta>): Option<int> {
    if tools == [] then last else Some(tools[|tools| - 1].index)
  }

  /** The chunk carries something other than tool calls that the client sees. */
  predicate Interrupts(show: bool, c: Chunk) {
    c.Choice? && ((c.reasoning != "" && show) || c.content != "")
  }

  /**
   * A tool index never comes back once content, shown reasoning or another
   * tool index has come between.
   */
  predicate NoReturn(show: bool, seen: set<int>, last: Option<int>, chunks: seq<Chunk>)
    decreases |chunks|
  {
    chunks == [] ||
    (var c := chunks[0];
     var before := if Interrupts(show, c) then None else last;
     var tools := if c.Choice? then c.tools else [];
     && ToolsForward(seen, before, tools)
     && NoReturn(show, seen + Indices(tools), LastTool(before, tools), chunks[1..]))
  }

  /** What the input has shown so far, as the writer and the buffer reflect it. */
  ghost predicate Link(w: Writer, buffer: string, seen: set<int>, last: Option<int>) {
    && w.tools.Keys == seen
    && (last.Some? ==> w.cur.OnTool? && w.cur.tool == last.value && buffer == "")
    && (last.None? ==> !w.cur.OnTool? || buffer != "")
  }

  lemma {:induction false} ForwardAppend(w: Writer, a: seq<Act>, b: seq<Act>)
    ensures Forward(w, a + b) == (Forward(w, a) && Forward(ApplyAll(w, a), b))
    decreases |a|
  {
    hide Apply, Returns;
    if a == [] {
      assert a + b == b;
    } else {
      assert (a + b)[0] == a[0] && (a + b)[1..] == a[1..] + b;
      ForwardAppend(Apply(w, a[0]), a[1..], b);
    }
  }

  lemma {:induction false} ProseActs(w: Writer, acts: seq<Act>)
    requires forall act | act in acts :: !act.Call?
    ensures Forward(w, acts)
    ensures ApplyAll(w, acts).tools == w.tools
    ensures acts != [] ==> !ApplyAll(w, acts).cur.OnTool?
    decreases |acts|
  {
    if acts != [] {
      ProseActs(Apply(w, acts[0]), acts[1..]);
    }
  }

  lemma {:induction false} CallsForward(w: Writer, tools: seq<ToolDelta>, seen: set<int>, last: Option<int>)
    requires Link(w, "", seen, last)
    ensures Forward(w, Calls(tools)) == ToolsForward(seen, last, tools)
    ensures Link(ApplyAll(w, Calls(tools)), "", seen + Indices(tools), LastTool(last, tools))
    decreases |tools|
  {
    if tools != [] {
      var d := tools[0];
      var v := Apply(w, Call(d));
      assert Calls(tools)[0] == Call(d) && Calls(tools)[1..] == Calls(tools[1..]);
      assert v.tools.Keys == seen + {d.index};
      CallsForward(v, tools[1..], seen + {d.index}, Some(d.index));
      IndicesSplit(tools);
      assert seen + {d.index} + Indices(tools[1..]) == seen + Indices(tools);
    }
  }

  lemma IndicesSplit(tools: seq<ToolDelta>)
    requires tools != []
    ensures Indices(tools) == {tools[0].index} + Indices(tools[1..])
  {
    forall x | x in Indices(tools) ensures x in {tools[0].index} + Indices(tools[1..]) {
      var k :| 0 <= k < |tools| && tools[k].index == x;
      if k > 0 { assert tools[1..][k - 1].index == x; }
    }
    forall x | x in Indices(tools[1..]) ensures x in Indices(tools) {
      var k :| 0 <= k < |tools[1..]| && tools[1..][k].index == x;
      assert tools[k + 1].index == x;
    }
  }

  lemma ProsePartFacts(show: bool, buffer: string, inside: bool, c: Chunk)
    requires c.Choice?
    ensures var p := ProsePart(show, buffer, inside, c);
            && (forall act | act in p.acts :: !act.Call?)
            && (c.tools != [] ==> p.buffer == "")
            && (!Interrupts(show, c) && buffer == "" ==> p.acts == [] && p.buffer == "")
            && (Interrupts(show, c) || buffer != "" ==> p.acts != [] || p.buffer != "")
  {
    hide Drain;
    if c.content != "" {
      DrainProse(buffer + c.content, inside);
    }
  }

  lemma ProseForward(show: bool, w: Writer, buffer: string, inside: bool, c: Chunk, seen: set<int>, last: Option<int>)
    requires c.Choice? && Link(w, buffer, seen, last)
    ensures var p := ProsePart(show, buffer, inside, c);
            var before := if Interrupts(show, c) then None else last;
            && Forward(w, p.acts)
            && Link(ApplyAll(w, p.acts), p.buffer, seen, before)
  {
    hide ProsePart, Interrupts, Apply, Returns, Forward;
    ProsePartFacts(show, buffer, inside, c);
    ProseActs(w, ProsePart(show, buffer, inside, c).acts);
  }

  lemma ChunkForward(show: bool, w: Writer, buffer: string, inside: bool, c: Chunk, seen: set<int>, last: Option<int>)
    requires Link(w, buffer, seen, last)
    ensures var r := FeedChunk(show, buffer, inside, c);
            var before := if Interrupts(show, c) then None else last;
            var tools := if c.Choice? then c.tools else [];
            && Forward(w, r.acts) == ToolsForward(seen, before, tools)
            && Link(ApplyAll(w, r.acts), r.buffer, seen + Indices(tools), LastTool(before, tools))
  {
    hide FeedContent, BeforeTools, Apply, Returns, Forward, Link;
    if c.Choice? {
      var p := ProsePart(show, buffer, inside, c);
      var before := if Interrupts(show, c) then None else last;
      ProsePartFacts(show, buffer, inside, c);
      ProseForward(show, w, buffer, inside, c, seen, last);
      ForwardAppend(w, p.acts, Calls(c.tools));
      ApplyAppend(w, p.acts, Calls(c.tools));
      if c.tools != [] {
        CallsForward(ApplyAll(w, p.acts), c.tools, seen, before);
      } else {
        NoCalls(p.acts, ApplyAll(w, p.acts), seen);
      }
    } else {
      NoCalls([], w, seen);
    }
  }

  lemma NoCalls(acts: seq<Act>, w: Writer, seen: set<int>)
    ensures Calls([]) == [] && Indices([]) == {} && seen + {} == seen && acts + [] == acts && Forward(w, [])
  {
  }

  /** Every decision moves forward exactly when no tool index returns. */
  lemma {:induction false} StreamForward(show: bool, w: Writer, buffer: string, inside: bool, chunks: seq<Chunk>,
                                         seen: set<int>, last: Option<int>)
    requires Link(w, buffer, seen, last)
    ensures var r := FeedAll(show, buffer, inside, chunks);
            Forward(w, r.acts + Spoken(r.inside, r.buffer)) == NoReturn(show, seen, last, chunks)
    decreases |chunks|
  {
    hide FeedChunk, Apply, Returns, Link, Spoken, Forward, Interrupts, ToolsForward;
    if chunks == [] {
      FlushForward(w, buffer, inside);
    } else {
      var c := chunks[0];
      var before := if Interrupts(show, c) then None else last;
      var tools := if c.Choice? then c.tools else [];
      var a := FeedChunk(show, buffer, inside, c);
      var b := FeedAll(show, a.buffer, a.inside, chunks[1..]);
      ChunkForward(show, w, buffer, inside, c, seen, last);
      StreamForward(show, ApplyAll(w, a.acts), a.buffer, a.inside, chunks[1..], seen + Indices(tools), LastTool(before, tools));
      Assoc(a.acts, b.acts, Spoken(b.inside, b.buffer));
      ForwardAppend(w, a.acts, b.acts + Spoken(b.inside, b.buffer));
    }
  }

  lemma FlushForward(w: Writer, buffer: string, inside: bool)
    ensures Forward(w, [] + Spoken(inside, buffer))
  {
    ProseActs(w, Spoken(inside, buffer));
    assert [] + Spoken(inside, buffer) == Spoken(inside, buffer);
  }

  lemma StartInSync()
    ensures InSync(START) && Link(START, "", {}, None)
  {
    assert [MessageStart, Ping] == [] + [MessageStart] + [Ping];
    RunSnoc([] + [MessageStart], Ping);
    RunSnoc([], MessageStart);
  }

  /**
   * The output of a finished stream follows the block protocol exactly when
   * no tool index returns after something else intervened.
   */
  lemma ProtocolExactly(show: bool, chunks: seq<Chunk>)
    ensures Run(EventsOf(show, chunks)) == (if NoReturn(show, {}, None, chunks) then Ended else Broken)
  {
    hide Run, FeedAll, Finish, ApplyAll, InSync, Doomed, Forward, Link, NoReturn, FinishOf, Tokens;
    var acts := ActsOf(show, chunks);
    StartInSync();
    StreamForward(show, START, "", false, chunks, {}, None);
    ActsProtocol(START, acts);
    FinishStep(ApplyAll(START, acts), FinishOf("stop", chunks), Tokens(show, 0, chunks));
  }

  lemma StepExtends(w: Writer, act: Act)
    ensures w.out <= Apply(w, act).out
  {
    if act.Call? {
      assert w.out <= Select(w, act.delta).out;
    }
  }

  lemma {:induction false} ApplyExtends(w: Writer, acts: seq<Act>)
    ensures w.out <= ApplyAll(w, acts).out
    decreases |acts|
  {
    hide Apply;
    if acts != [] {
      StepExtends(w, acts[0]);
      ApplyExtends(Apply(w, acts[0]), acts[1..]);
    }
  }

  /** Everything sent after the given chunks, the stream still going on. */
  function SentAfter(show: bool, chunks: seq<Chunk>): seq<Event> {
    ApplyAll(START, FeedAll(show, "", false, chunks).acts).out
  }

  /** Every beginning of `events` is the beginning of a legal stream. */
  predicate AlwaysLegal(events: seq<Event>) {
    forall m | 0 <= m <= |events| :: !Run(events[..m]).Broken?
  }

  /**
   * Cut off anywhere -- by a client that leaves or an upstream that fails
   * after `k` chunks -- what was sent is still a legal beginning.
   */
  lemma EveryPrefixLegal(show: bool, chunks: seq<Chunk>)
    requires NoReturn(show, {}, None, chunks)
    ensures AlwaysLegal(EventsOf(show, chunks))
    ensures forall k | 0 <= k <= |chunks| :: AlwaysLegal(SentAfter(show, chunks[..k]))
  {
    hide Run, NoReturn, SentAfter, EventsOf;
    ProtocolExactly(show, chunks);
    forall m | 0 <= m <= |EventsOf(show, chunks)| ensures !Run(EventsOf(show, chunks)[..m]).Broken? {
      PrefixFine(EventsOf(show, chunks), m);
    }
    forall k | 0 <= k <= |chunks| ensures AlwaysLegal(SentAfter(show, chunks[..k])) {
      forall m | 0 <= m <= |SentAfter(show, chunks[..k])| ensures !Run(SentAfter(show, chunks[..k])[..m]).Broken? {
        PrefixLegal(show, chunks, k, m);
      }
    }
  }

  lemma PrefixLegal(show: bool, chunks: seq<Chunk>, k: nat, m: nat)
    requires NoReturn(show, {}, None, chunks)
    requires k <= |chunks| && m <= |SentAfter(show, chunks[..k])|
    ensures !Run(SentAfter(show, chunks[..k])[..m]).Broken?
  {
    hide Run, ApplyAll, NoReturn, Finish, FeedAll, StopCurrent;
    ProtocolExactly(show, chunks);
    var all := EventsOf(show, chunks);
    var r := FeedAll(show, "", false, chunks[..k]);
    var t := FeedAll(show, r.buffer, r.inside, chunks[k..]);
    var w := ApplyAll(START, r.acts);
    FeedAllAppend(show, "", false, chunks[..k], chunks[k..]);
    assert chunks == chunks[..k] + chunks[k..];
    Assoc(r.acts, t.acts, Spoken(t.inside, t.buffer));
    ApplyAppend(START, r.acts, t.acts + Spoken(t.inside, t.buffer));
    ApplyExtends(w, t.acts + Spoken(t.inside, t.buffer));
    var full := ApplyAll(START, ActsOf(show, chunks));
    FinishExtends(full, FinishOf("stop", chunks), Tokens(show, 0, chunks));
    assert w.out <= all;
    PrefixFine(all, m);
    assert all[..m] == w.out[..m];
  }

  lemma FinishExtends(w: Writer, finish: string, tokens: nat)
    ensures w.out <= Finish(w, finish, tokens)
  {
  }
}
