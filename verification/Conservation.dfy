// Nothing of the upstream text is lost, doubled or reordered.
module Conservation {
  import opened StreamTypes
  import opened Tags
  import opened Splitter
  import opened BlockWriter
  import opened ToolCalls
  import opened Pipeline

  datatype Piece = Piece(kind: Kind, text: string)

  /** The deltas of an event stream, in order, each with its channel. */
  function Deltas(events: seq<Event>): seq<Piece>
    decreases |events|
  {
    if events == [] then []
    else
      var e := events[|events| - 1];
      Deltas(events[..|events| - 1]) + (if e.BlockDelta? then [Piece(e.kind, e.text)] else [])
  }

  /** The delta a decision puts on the wire. */
  function Emitted(acts: seq<Act>): seq<Piece> {
    if acts == [] then [] else EmittedBy(acts[0]) + Emitted(acts[1..])
  }

  function EmittedBy(act: Act): seq<Piece> {
    match act
    case Reason(t) => [Piece(Thinking, t)]
    case Say(thinking, t) => [Piece(ProseKind(thinking), t)]
    case Call(d) => if d.args == "" then [] else [Piece(ToolUse, d.args)]
    case _ => []
  }

  /** Reasoning among decisions, and in chunks. */
  function ReasonsIn(acts: seq<Act>): string {
    if acts == [] then "" else (if acts[0].Reason? then acts[0].text else "") + ReasonsIn(acts[1..])
  }

  function Reasoning(chunks: seq<Chunk>): string {
    if chunks == [] then "" else (if chunks[0].Choice? then chunks[0].reasoning else "") + Reasoning(chunks[1..])
  }

  lemma DeltasSnoc(events: seq<Event>, e: Event)
    ensures Deltas(events + [e]) == Deltas(events) + (if e.BlockDelta? then [Piece(e.kind, e.text)] else [])
  {
    assert (events + [e])[..|events|] == events;
  }

  lemma StopDeltas(w: Writer)
    ensures Deltas(StopCurrent(w).out) == Deltas(w.out)
  {
    hide Deltas;
    if !w.cur.Closed? { DeltasSnoc(w.out, BlockStop(w.cur.index)); }
  }

  lemma OpenDeltas(w: Writer, thinking: bool)
    ensures Deltas(OpenProse(w, thinking).out) == Deltas(w.out)
  {
    hide Deltas;
    DeltasSnoc(w.out, BlockStart(w.next, ProseHead(thinking)));
  }

  lemma SpeakDeltas(w: Writer, thinking: bool, text: string)
    ensures Deltas(Speak(w, thinking, text).out) == Deltas(w.out) + [Piece(ProseKind(thinking), text)]
  {
    hide Deltas;
    StopDeltas(w);
    OpenDeltas(StopCurrent(w), thinking);
    var e := Ensure(w, thinking);
    DeltasSnoc(e.out, BlockDelta(e.cur.index, ProseKind(thinking), text));
  }

  lemma CallDeltas(w: Writer, d: ToolDelta)
    ensures Deltas(CallTool(w, d).out) == Deltas(w.out) + EmittedBy(Call(d))
  {
    hide Deltas;
    StopDeltas(w);
    var v := StopCurrent(w);
    var slot := SlotFor(d, v.next);
    DeltasSnoc(v.out, BlockStart(v.next, ToolHead(slot.id, slot.name)));
    var s := Select(w, d);
    assert Deltas(s.out) == Deltas(w.out);
    DeltasSnoc(s.out, BlockDelta(s.tools[d.index].block, ToolUse, d.args));
  }

  lemma ApplyDeltas(w: Writer, act: Act)
    ensures Deltas(Apply(w, act).out) == Deltas(w.out) + EmittedBy(act)
  {
    hide Deltas, Speak, CallTool;
    match act
    case Reason(t) => SpeakDeltas(w, true, t);
    case Say(thinking, t) => SpeakDeltas(w, thinking, t);
    case Enter(_) => StopDeltas(w); OpenDeltas(StopCurrent(w), true);
    case Leave(_) => StopDeltas(w);
    case Call(d) => CallDeltas(w, d);
  }

  lemma {:induction false} AllDeltas(w: Writer, acts: seq<Act>)
    ensures Deltas(ApplyAll(w, acts).out) == Deltas(w.out) + Emitted(acts)
    decreases |acts|
  {
    hide Deltas, Apply, EmittedBy;
    if acts == [] {
      assert Deltas(w.out) + [] == Deltas(w.out);
    } else {
      ApplyDeltas(w, acts[0]);
      AllDeltas(Apply(w, acts[0]), acts[1..]);
      Assoc(Deltas(w.out), EmittedBy(acts[0]), Emitted(acts[1..]));
    }
  }

  lemma FinishDeltas(w: Writer, finish: string, tokens: nat)
    ensures Deltas(Finish(w, finish, tokens)) == Deltas(w.out)
  {
    hide Deltas, StopReason;
    StopDeltas(w);
    var v := StopCurrent(w);
    var m := MessageDelta(StopReason(finish), tokens);
    assert Finish(w, finish, tokens) == v.out + [m] + [MessageStop];
    DeltasSnoc(v.out + [m], MessageStop);
    DeltasSnoc(v.out, m);
  }

  lemma StartDeltas()
    ensures Deltas(START.out) == []
  {
    assert [MessageStart, Ping] == [] + [MessageStart] + [Ping];
    DeltasSnoc([] + [MessageStart], Ping);
    DeltasSnoc([], MessageStart);
  }

  lemma {:induction false} ReasonsAppend(a: seq<Act>, b: seq<Act>)
    ensures ReasonsIn(a + b) == ReasonsIn(a) + ReasonsIn(b)
  {
    if a == [] {
      assert a + b == b;
    } else {
      assert (a + b)[0] == a[0] && (a + b)[1..] == a[1..] + b;
      ReasonsAppend(a[1..], b);
      Assoc(if a[0].Reason? then a[0].text else "", ReasonsIn(a[1..]), ReasonsIn(b));
    }
  }

  lemma {:induction false} NoReasons(acts: seq<Act>)
    requires forall act | act in acts :: !act.Reason?
    ensures ReasonsIn(acts) == ""
  {
    if acts != [] { NoReasons(acts[1..]); }
  }

  lemma {:induction false} DrainNoReasons(buffer: string, inside: bool)
    ensures forall act | act in Drain(buffer, inside).acts :: !act.Reason?
    decreases |buffer|
  {
    hide Tags.Find, Tags.TagEnd, Drain;
    var i := Tags.Find(buffer, 0, inside);
    if i < |buffer| {
      DrainMatch(buffer, inside);
      DrainNoReasons(buffer[Tags.TagEnd(buffer, i)..], !inside);
    } else {
      DrainHold(buffer, inside);
    }
  }

  lemma ChunkReasons(show: bool, buffer: string, inside: bool, c: Chunk)
    ensures ReasonsIn(FeedChunk(show, buffer, inside, c).acts) == if c.Choice? && show then c.reasoning else ""
  {
    hide FeedContent, BeforeTools, ReasonsIn, Calls;
    NoReasons([]);
    if c.Choice? {
      var a := if c.reasoning != "" && show then [Reason(c.reasoning)] else [];
      var b := FeedContent(buffer, inside, c.content);
      var d := BeforeTools(b.buffer, b.inside, c.tools);
      var rest := b.acts + d.acts + Calls(c.tools);
      RestNoReasons(buffer, inside, c);
      NoReasons(rest);
      assert a + b.acts + d.acts + Calls(c.tools) == a + rest;
      ReasonsAppend(a, rest);
      OneReason(c.reasoning);
      assert c.reasoning + "" == c.reasoning && "" + "" == "";
    }
  }

  lemma OneReason(text: string)
    ensures ReasonsIn([Reason(text)]) == text
  {
    assert ReasonsIn([]) == "" && text + "" == text;
  }

  lemma RestNoReasons(buffer: string, inside: bool, c: Chunk)
    requires c.Choice?
    ensures var b := FeedContent(buffer, inside, c.content);
            var d := BeforeTools(b.buffer, b.inside, c.tools);
            forall act | act in b.acts + d.acts + Calls(c.tools) :: !act.Reason?
  {
    hide Drain;
    DrainNoReasons(buffer + c.content, inside);
  }

  lemma {:induction false} StreamReasons(show: bool, buffer: string, inside: bool, chunks: seq<Chunk>)
    ensures ReasonsIn(FeedAll(show, buffer, inside, chunks).acts) == if show then Reasoning(chunks) else ""
    decreases |chunks|
  {
    hide FeedChunk;
    if chunks != [] {
      var a := FeedChunk(show, buffer, inside, chunks[0]);
      ChunkReasons(show, buffer, inside, chunks[0]);
      StreamReasons(show, a.buffer, a.inside, chunks[1..]);
      ReasonsAppend(a.acts, FeedAll(show, a.buffer, a.inside, chunks[1..]).acts);
    }
  }

  /**
   * For every chunk stream, however tags and tool calls fall: what is sent
   * splits into content, reasoning and tool arguments such that the content
   * pieces and the removed tags, in order, are exactly the upstream content;
   * the reasoning pieces are exactly the upstream reasoning (when shown);
   * and the argument pieces are those of the upstream deltas, in order.
   */
  lemma ContentConserved(show: bool, chunks: seq<Chunk>)
    ensures exists acts: seq<Act> ::
              && Deltas(EventsOf(show, chunks)) == Emitted(acts)
              && Weave(acts) == Content(chunks)
              && (forall act | act in acts :: Genuine(act))
              && ReasonsIn(acts) == (if show then Reasoning(chunks) else "")
              && CallsIn(acts) == DeltasIn(chunks)
  {
    hide FeedAll, ApplyAll, Finish, Deltas, Emitted, Weave, Content, Genuine, ReasonsIn, CallsIn, DeltasIn, Spoken, Reasoning;
    var acts := ActsOf(show, chunks);
    var r := FeedAll(show, "", false, chunks);
    var last := Spoken(r.inside, r.buffer);
    StartDeltas();
    AllDeltas(START, acts);
    FinishDeltas(ApplyAll(START, acts), FinishOf("stop", chunks), Tokens(show, 0, chunks));
    StreamWeave(show, "", false, chunks);
    WeaveAppend(r.acts, last);
    SpokenFacts(r.inside, r.buffer);
    StreamReasons(show, "", false, chunks);
    ReasonsAppend(r.acts, last);
    StreamCalls(show, "", false, chunks);
    CallsInAppend(r.acts, last);
    assert [] + Emitted(acts) == Emitted(acts);
    assert "" + Content(chunks) == Content(chunks);
    assert ReasonsIn(r.acts) + "" == ReasonsIn(r.acts) && CallsIn(r.acts) + [] == CallsIn(r.acts);
  }

  lemma SpokenFacts(thinking: bool, text: string)
    ensures var s := Spoken(thinking, text);
            Weave(s) == text && ReasonsIn(s) == "" && CallsIn(s) == [] && forall act | act in s :: Genuine(act)
  {
    NoReasons(Spoken(thinking, text));
    CallsInProse(Spoken(thinking, text));
    if text != "" { assert Weave([Say(thinking, text)]) == text + Weave([Say(thinking, text)][1..]); }
  }

  // ----- output tokens -----

  /** Decisions that count as an output token when upstream reports no usage: reasoning deltas and pieces of arguments. */
  function Counted(acts: seq<Act>): nat {
    if acts == [] then 0
    else (if acts[0].Reason? || (acts[0].Call? && acts[0].delta.args != "") then 1 else 0) + Counted(acts[1..])
  }

  lemma {:induction false} CountedAppend(a: seq<Act>, b: seq<Act>)
    ensures Counted(a + b) == Counted(a) + Counted(b)
    decreases |a|
  {
    if a == [] {
      assert a + b == b;
    } else {
      assert (a + b)[0] == a[0] && (a + b)[1..] == a[1..] + b;
      CountedAppend(a[1..], b);
    }
  }

  lemma {:induction false} CallsCounted(tools: seq<ToolDelta>)
    ensures Counted(Calls(tools)) == CountArgs(tools)
  {
    if tools == [] {
      assert Calls(tools) == [];
    } else {
      assert Calls(tools)[0] == Act.Call(tools[0]) && Calls(tools)[1..] == Calls(tools[1..]);
      CallsCounted(tools[1..]);
    }
  }

  lemma {:induction false} DrainUncounted(u: string, inside: bool)
    ensures Counted(Drain(u, inside).acts) == 0
    decreases |u|
  {
    hide Find, TagEnd, Drain;
    var i := Find(u, 0, inside);
    if i < |u| {
      DrainMatch(u, inside);
      var e := TagEnd(u, i);
      DrainUncounted(u[e..], !inside);
      var head := Spoken(inside, u[..i]) + [Toggle(inside, u[i..e])];
      CountedAppend(Spoken(inside, u[..i]), [Toggle(inside, u[i..e])]);
      CountedAppend(head, Drain(u[e..], !inside).acts);
    } else {
      DrainHold(u, inside);
    }
  }

  lemma ChunkCounted(show: bool, buffer: string, inside: bool, c: Chunk)
    ensures Counted(FeedChunk(show, buffer, inside, c).acts) ==
            if c.NoChoice? then 0 else (if c.reasoning != "" && show then 1 else 0) + CountArgs(c.tools)
  {
    hide Drain, Calls;
    if c.Choice? {
      var a := if c.reasoning != "" && show then [Reason(c.reasoning)] else [];
      var b := FeedContent(buffer, inside, c.content);
      var d := BeforeTools(b.buffer, b.inside, c.tools);
      if c.content != "" { DrainUncounted(buffer + c.content, inside); }
      CountedAppend(a + b.acts + d.acts, Calls(c.tools));
      CountedAppend(a + b.acts, d.acts);
      CountedAppend(a, b.acts);
      CallsCounted(c.tools);
    }
  }

  lemma {:induction false} UnreportedTokens(show: bool, tokens: nat, buffer: string, inside: bool, chunks: seq<Chunk>)
    requires forall c | c in chunks :: c.completion == 0
    ensures Tokens(show, tokens, chunks) == tokens + Counted(FeedAll(show, buffer, inside, chunks).acts)
    decreases |chunks|
  {
    hide FeedChunk;
    if chunks != [] {
      var a := FeedChunk(show, buffer, inside, chunks[0]);
      ChunkCounted(show, buffer, inside, chunks[0]);
      UnreportedTokens(show, ChunkTokens(show, tokens, chunks[0]), a.buffer, a.inside, chunks[1..]);
      CountedAppend(a.acts, FeedAll(show, a.buffer, a.inside, chunks[1..]).acts);
    }
  }

  lemma {:induction false} TokensFrom(show: bool, tokens: nat, chunks: seq<Chunk>, k: nat)
    requires k < |chunks| && chunks[k].completion != 0
    ensures Tokens(show, tokens, chunks) == Tokens(show, 0, chunks[k..])
    decreases k
  {
    if k == 0 {
      assert chunks[0..] == chunks;
    } else {
      assert chunks[1..][k - 1] == chunks[k] && chunks[1..][k - 1..] == chunks[k..];
      TokensFrom(show, ChunkTokens(show, tokens, chunks[0]), chunks[1..], k - 1);
    }
  }

  /** The output tokens a client is told. */
  function ToldTokens(events: seq<Event>): nat
    decreases |events|
  {
    if events == [] then 0
    else
      var e := events[|events| - 1];
      if e.MessageDelta? then e.outputTokens else ToldTokens(events[..|events| - 1])
  }

  /**
   * The client is told the last number upstream reported plus one for every
   * reasoning delta and piece of arguments from that chunk on; without a
   * report, the number of all of these.
   */
  lemma TokensTold(show: bool, chunks: seq<Chunk>, k: nat)
    requires k <= |chunks| && (k < |chunks| ==> chunks[k].completion != 0)
    requires forall j | 0 <= j < |chunks| && (k == |chunks| || j > k) :: chunks[j].completion == 0
    ensures ToldTokens(EventsOf(show, chunks)) ==
            if k < |chunks| then chunks[k].completion + Counted(FeedAll(show, "", false, chunks[k..]).acts)
            else Counted(ActsOf(show, chunks))
  {
    hide FeedAll, ApplyAll, StopCurrent, StopReason, Counted, FinishOf, FeedChunk;
    var w := StopCurrent(ApplyAll(START, ActsOf(show, chunks)));
    LastTold(w.out, StopReason(FinishOf("stop", chunks)), Tokens(show, 0, chunks));
    if k < |chunks| {
      TokensFrom(show, 0, chunks, k);
      Reported(show, chunks[k..]);
    } else {
      var r := FeedAll(show, "", false, chunks);
      UnreportedTokens(show, 0, "", false, chunks);
      CountedAppend(r.acts, Spoken(r.inside, r.buffer));
      SpokenUncounted(r.inside, r.buffer);
    }
  }

  lemma SpokenUncounted(inside: bool, text: string)
    ensures Counted(Spoken(inside, text)) == 0
  {
  }

  lemma LastTold(out: seq<Event>, stop: string, tokens: nat)
    ensures ToldTokens(out + [MessageDelta(stop, tokens), MessageStop]) == tokens
  {
    var all := out + [MessageDelta(stop, tokens), MessageStop];
    assert all[..|all| - 1] == out + [MessageDelta(stop, tokens)];
  }

  lemma Reported(show: bool, chunks: seq<Chunk>)
    requires chunks != [] && chunks[0].completion != 0 && forall j | 0 < j < |chunks| :: chunks[j].completion == 0
    ensures Tokens(show, 0, chunks) == chunks[0].completion + Counted(FeedAll(show, "", false, chunks).acts)
  {
    hide FeedChunk;
    var c, rest := chunks[0], chunks[1..];
    var a := FeedChunk(show, "", false, c);
    ChunkCounted(show, "", false, c);
    forall x | x in rest ensures x.completion == 0 {
      var j :| 0 <= j < |rest| && rest[j] == x;
      assert x == chunks[j + 1];
    }
    UnreportedTokens(show, ChunkTokens(show, 0, c), a.buffer, a.inside, rest);
    CountedAppend(a.acts, FeedAll(show, a.buffer, a.inside, rest).acts);
  }

  // ----- the channels on the way back -----

  /** The text of one channel. */
  function Channel(ds: seq<Piece>, kind: Kind): string
    decreases |ds|
  {
    if ds == [] then ""
    else Channel(ds[..|ds| - 1], kind) + if ds[|ds| - 1].kind == kind then ds[|ds| - 1].text else ""
  }

  lemma {:induction false} TextsSnoc(chunks: seq<Chunk>, c: Chunk)
    ensures Content(chunks + [c]) == Content(chunks) + ContentOf(c)
    ensures Reasoning(chunks + [c]) == Reasoning(chunks) + if c.Choice? then c.reasoning else ""
    decreases |chunks|
  {
    var r := if c.Choice? then c.reasoning else "";
    if chunks == [] {
      assert [] + [c] == [c] && [c][1..] == [];
      assert ContentOf(c) + "" == ContentOf(c) && r + "" == r;
    } else {
      assert (chunks + [c])[0] == chunks[0] && (chunks + [c])[1..] == chunks[1..] + [c];
      TextsSnoc(chunks[1..], c);
      Assoc(ContentOf(chunks[0]), Content(chunks[1..]), ContentOf(c));
      Assoc(if chunks[0].Choice? then chunks[0].reasoning else "", Reasoning(chunks[1..]), r);
    }
  }

  /** Converting any event stream back to OpenAI chunks forwards its text as content and its thinking as reasoning. */
  lemma {:induction false} ChannelsForwarded(events: seq<Event>)
    ensures Content(ConvertAll(events).chunks) == Channel(Deltas(events), Text)
    ensures Reasoning(ConvertAll(events).chunks) == Channel(Deltas(events), Thinking)
    decreases |events|
  {
    hide Content, Reasoning, ConvertAll, Deltas;
    if events == [] {
      NothingForwarded();
    } else {
      var less, e := events[..|events| - 1], events[|events| - 1];
      assert events == less + [e];
      ChannelsForwarded(less);
      ConvertSnoc(less, e);
      DeltasSnoc(less, e);
      var c := ConvertAll(less);
      var f := ForwardOf(c.index, e);
      if f.Some? { TextsSnoc(c.chunks, f.value); }
      ChannelSnoc(Deltas(less), e);
      ForwardTexts(c.index, e);
      assert Content(c.chunks) + "" == Content(c.chunks) && Reasoning(c.chunks) + "" == Reasoning(c.chunks);
    }
  }

  lemma NothingForwarded()
    ensures Content(ConvertAll([]).chunks) == "" && Reasoning(ConvertAll([]).chunks) == "" && Deltas([]) == []
  {
  }

  lemma ForwardTexts(index: map<nat, nat>, e: Event)
    ensures var f := ForwardOf(index, e);
            && (if f.Some? then ContentOf(f.value) else "") == (if e.BlockDelta? && e.kind == Text then e.text else "")
            && (if f.Some? && f.value.Choice? then f.value.reasoning else "") == (if e.BlockDelta? && e.kind == Thinking then e.text else "")
  {
  }

  lemma ChannelSnoc(ds: seq<Piece>, e: Event)
    ensures forall kind: Kind ::
              Channel(ds + (if e.BlockDelta? then [Piece(e.kind, e.text)] else []), kind)
              == Channel(ds, kind) + (if e.BlockDelta? && e.kind == kind then e.text else "")
  {
    forall kind: Kind
      ensures Channel(ds + (if e.BlockDelta? then [Piece(e.kind, e.text)] else []), kind)
              == Channel(ds, kind) + (if e.BlockDelta? && e.kind == kind then e.text else "")
    {
      assert Channel(ds, kind) + "" == Channel(ds, kind);
      if e.BlockDelta? {
        assert (ds + [Piece(e.kind, e.text)])[..|ds|] == ds;
      } else {
        assert ds + [] == ds;
      }
    }
  }
}
