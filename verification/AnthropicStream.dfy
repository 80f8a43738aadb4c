// stream_as_anthropic as the source runs it: a generator that updates its
// state in place. `out` collects what it has yielded.
module AnthropicStream {
  import opened StreamTypes
  import opened Tags
  import opened Splitter
  import opened BlockWriter
  import opened BlockProtocol

  /** One line of the upstream response. */
  datatype Line =
    | Data(chunk: Chunk)
    | Failure          // an `error` event, or data that is not JSON
    | Done             // [DONE]
    | Noise            // no `data: ` prefix, or a null `error`

  /** Chunks up to [DONE], a failure or the end. */
  datatype Tail = Tail(chunks: seq<Chunk>, failed: bool)

  function ReadTail(lines: seq<Line>): Tail {
    if lines == [] || lines[0].Done? then Tail([], false)
    else if lines[0].Failure? then Tail([], true)
    else
      var t := ReadTail(lines[1..]);
      if lines[0].Data? then Tail([lines[0].chunk] + t.chunks, t.failed) else t
  }

  /** What a stream yields and whether it ended without an exception. */
  datatype Outcome = Outcome(events: seq<Event>, ok: bool)

  /**
   * The search for a first chunk before anything is sent. A [DONE] met here
   * is dropped and the rest is still read. `bareError`: the unframed lines
   * together are a JSON error body.
   */
  function Translated(show: bool, lines: seq<Line>, bareError: bool): Outcome {
    if lines == [] then
      if bareError then Outcome([], false) else Outcome(EventsOf(show, []), true)
    else match lines[0]
      case Noise => Translated(show, lines[1..], bareError)
      case Failure => Outcome([], false)
      case Done => if bareError then Outcome([], false) else Sent(show, ReadTail(lines[1..]))
      case Data(c) => Sent(show, ReadTail(lines))
  }

  function Sent(show: bool, t: Tail): Outcome {
    if t.failed then Outcome(ApplyAll(START, FeedAll(show, "", false, t.chunks).acts).out, false)
    else Outcome(EventsOf(show, t.chunks), true)
  }

  class Translator {
    const show: bool
    var current: Cursor
    var toolCalls: map<int, Slot>
    var nextBlock: nat
    var finishReason: string
    var outputTokens: nat
    var textBuffer: string
    var inTextThinking: bool
    var out: seq<Event>

    ghost function State(): Writer
      reads this
    {
      Writer(current, nextBlock, toolCalls, out)
    }

    constructor (showReasoning: bool)
      ensures show == showReasoning
      ensures State() == Writer(Closed, 0, map[], [])
      ensures finishReason == "stop" && outputTokens == 0 && textBuffer == "" && !inTextThinking
    {
      show := showReasoning;
      current, toolCalls, nextBlock, out := Closed, map[], 0, [];
      finishReason, outputTokens := "stop", 0;
      textBuffer, inTextThinking := "", false;
    }

    method Yield(e: Event)
      modifies this`out
      ensures out == old(out) + [e]
    {
      out := out + [e];
    }

    method Stop()
      modifies this`current, this`out
      ensures State() == StopCurrent(old(State()))
    {
      if current != Closed {
        var i := current.index;
        current := Closed;
        Yield(BlockStop(i));
      }
    }

    method Open(thinking: bool)
      modifies this`current, this`nextBlock, this`out
      ensures State() == OpenProse(old(State()), thinking)
    {
      var i := nextBlock;
      nextBlock := nextBlock + 1;
      current := Prose(thinking, i);
      Yield(BlockStart(i, ProseHead(thinking)));
    }

    /** The repeated "open one if needed, then send a delta" of the source. */
    method Say(thinking: bool, text: string)
      modifies this`current, this`nextBlock, this`out
      ensures State() == Speak(old(State()), thinking, text)
    {
      if !(current.Prose? && current.thinking == thinking) {
        Stop();
        Open(thinking);
      }
      Yield(BlockDelta(current.index, ProseKind(thinking), text));
    }

    /** The tag loop. */
    method DrainBuffer()
      modifies this`current, this`nextBlock, this`out, this`textBuffer, this`inTextThinking
      ensures var d := Drain(old(textBuffer), old(inTextThinking));
              State() == ApplyAll(old(State()), d.acts) && textBuffer == d.buffer && inTextThinking == d.inside
    {
      hide Drain, ApplyAll, Apply, Find, TagEnd, Toggle, Spoken, Speak, StopCurrent, OpenProse;
      ghost var goal := Drain(textBuffer, inTextThinking);
      ghost var end := ApplyAll(State(), goal.acts);
      while true
        invariant var d := Drain(textBuffer, inTextThinking);
                  ApplyAll(State(), d.acts) == end && d.buffer == goal.buffer && d.inside == goal.inside
        invariant toolCalls == old(toolCalls)
        decreases |textBuffer|
      {
        ghost var w := State();
        var i := Find(textBuffer, 0, inTextThinking);
        if i < |textBuffer| {
          DrainMatch(textBuffer, inTextThinking);
          var e := TagEnd(textBuffer, i);
          ghost var tag := Toggle(inTextThinking, textBuffer[i..e]);
          var pre := textBuffer[..i];
          if pre != "" {
            Say(inTextThinking, pre);
          }
          SpokenStep(w, inTextThinking, pre, tag, Drain(textBuffer[e..], !inTextThinking).acts);
          Stop();
          if !inTextThinking {
            Open(true);
          }
          ToggleStep(w, inTextThinking, pre, textBuffer[i..e]);
          inTextThinking := !inTextThinking;
          textBuffer := textBuffer[e..];
        } else {
          DrainHold(textBuffer, inTextThinking);
          if |textBuffer| > HOLD {
            var safe := textBuffer[..|textBuffer| - HOLD];
            textBuffer := textBuffer[|textBuffer| - HOLD..];
            Say(inTextThinking, safe);
            SayStep(w, inTextThinking, safe);
          } else {
            NoStep(w);
          }
          break;
        }
      }
    }

    method CallDelta(d: ToolDelta)
      modifies this`current, this`nextBlock, this`out, this`toolCalls, this`outputTokens
      ensures State() == CallTool(old(State()), d)
      ensures outputTokens == old(outputTokens) + if d.args != "" then 1 else 0
    {
      if d.index !in toolCalls || !current.OnTool? || current.tool != d.index {
        Stop();
        if d.index !in toolCalls {
          var i := nextBlock;
          nextBlock := nextBlock + 1;
          toolCalls := toolCalls[d.index := SlotFor(d, i)];
          current := OnTool(i, d.index);
          Yield(BlockStart(i, ToolHead(toolCalls[d.index].id, toolCalls[d.index].name)));
        } else {
          current := OnTool(toolCalls[d.index].block, d.index);
        }
      }
      if d.args != "" {
        outputTokens := outputTokens + 1;
        Yield(BlockDelta(toolCalls[d.index].block, ToolUse, d.args));
      }
    }

    /** The `for tc_delta in tc_deltas` loop. */
    method CallDeltas(tools: seq<ToolDelta>)
      modifies this`current, this`nextBlock, this`out, this`toolCalls, this`outputTokens
      ensures State() == ApplyAll(old(State()), Calls(tools))
      ensures outputTokens == old(outputTokens) + CountArgs(tools)
    {
      NoStep(State());
      for k := 0 to |tools|
        invariant State() == ApplyAll(old(State()), Calls(tools[..k]))
        invariant outputTokens == old(outputTokens) + CountArgs(tools[..k])
      {
        hide ApplyAll, CountArgs;
        CallsSnoc(tools, k);
        ghost var w := State();
        CallDelta(tools[k]);
        OneStep(w, Call(tools[k]));
        ApplyAppend(old(State()), Calls(tools[..k]), [Call(tools[k])]);
      }
      assert tools[..|tools|] == tools;
    }

    /** delta.reasoning_content */
    method Reasoning(text: string)
      modifies this`current, this`nextBlock, this`out, this`outputTokens
      ensures State() == ApplyAll(old(State()), if text != "" && show then [Reason(text)] else [])
      ensures outputTokens == old(outputTokens) + if text != "" && show then 1 else 0
    {
      hide ApplyAll, Speak;
      NoStep(State());
      if text != "" && show {
        OneStep(State(), Reason(text));
        Say(true, text);
        outputTokens := outputTokens + 1;
      }
    }

    /** delta.content */
    method Content(text: string)
      modifies this`current, this`nextBlock, this`out, this`textBuffer, this`inTextThinking
      ensures var b := FeedContent(old(textBuffer), old(inTextThinking), text);
              State() == ApplyAll(old(State()), b.acts) && textBuffer == b.buffer && inTextThinking == b.inside
    {
      hide ApplyAll, Drain;
      NoStep(State());
      if text != "" {
        textBuffer := textBuffer + text;
        DrainBuffer();
      }
    }

    /** Tool calls end whatever text was in progress, the held-back part included. */
    method Release(tools: seq<ToolDelta>)
      modifies this`current, this`nextBlock, this`out, this`textBuffer, this`inTextThinking
      ensures var d := BeforeTools(old(textBuffer), old(inTextThinking), tools);
              State() == ApplyAll(old(State()), d.acts) && textBuffer == d.buffer && inTextThinking == d.inside
    {
      hide ApplyAll, Speak;
      NoStep(State());
      if tools != [] && textBuffer != "" {
        OneStep(State(), Act.Say(inTextThinking, textBuffer));
        Say(inTextThinking, textBuffer);
        textBuffer, inTextThinking := "", false;
      }
    }

    /** One chunk of the main loop. */
    method Chunk(c: Chunk)
      modifies this
      ensures var r := FeedChunk(show, old(textBuffer), old(inTextThinking), c);
              State() == ApplyAll(old(State()), r.acts) && textBuffer == r.buffer && inTextThinking == r.inside
      ensures finishReason == FinishOf(old(finishReason), [c])
      ensures outputTokens == ChunkTokens(show, old(outputTokens), c)
    {
      hide ApplyAll, FeedContent, BeforeTools, Calls, FeedChunk, FinishOf;
      OneFinish(finishReason, c);
      if c.completion != 0 {
        outputTokens := c.completion;
      }
      if c.NoChoice? {
        NoStep(State());
        EmptyChunk(show, textBuffer, inTextThinking, c);
      } else {
        ChunkParts(show, State(), textBuffer, inTextThinking, c);
        if c.finish != "" {
          finishReason := c.finish;
        }
        Reasoning(c.reasoning);
        Content(c.content);
        Release(c.tools);
        CallDeltas(c.tools);
      }
    }

    /** The flush and the closing events. */
    method Close()
      modifies this
      ensures out == Finish(ApplyAll(old(State()), Spoken(old(inTextThinking), old(textBuffer))),
                            old(finishReason), old(outputTokens))
    {
      hide ApplyAll;
      NoStep(State());
      if textBuffer != "" {
        OneStep(State(), Act.Say(inTextThinking, textBuffer));
        Say(inTextThinking, textBuffer);
      }
      Stop();
      Yield(MessageDelta(StopReason(finishReason), outputTokens));
      Yield(MessageStop);
    }

    /** The whole generator, fed the upstream lines one by one. */
    method Run(lines: seq<Line>, bareError: bool) returns (ok: bool)
      requires State() == Writer(Closed, 0, map[], []) && finishReason == "stop" && outputTokens == 0
      requires textBuffer == "" && !inTextThinking
      modifies this
      ensures Outcome(out, ok) == Translated(show, lines, bareError)
    {
      hide EventsOf, ApplyAll, FeedAll;
      // look for a first chunk before sending anything
      var n := 0;
      var first := false;
      while n < |lines| && !first
        invariant n <= |lines|
        invariant !first ==> Translated(show, lines, bareError) == Translated(show, lines[n..], bareError)
        invariant first ==> bareError || Translated(show, lines, bareError) == Sent(show, ReadTail(lines[n..]))
        invariant first && bareError ==>
                    n < |lines| && lines[n].Data? && Translated(show, lines, bareError) == Sent(show, ReadTail(lines[n..]))
        decreases |lines| - n, !first
      {
        if lines[n].Failure? {
          return false;
        }
        if lines[n].Data? {
          first := true;
        } else {
          if lines[n].Done? {
            if bareError { return false; }
            first := true;
          }
          n := n + 1;
          assert lines[n - 1..][1..] == lines[n..];
        }
      }
      if !first && bareError {
        return false;
      }
      assert Translated(show, lines, bareError) == Sent(show, ReadTail(lines[n..])) by {
        NothingSent(show);
      }
      ok := Pump(lines[n..]);
    }

    /** message_start, ping, then every chunk up to [DONE]. */
    method Pump(lines: seq<Line>) returns (ok: bool)
      requires State() == Writer(Closed, 0, map[], []) && finishReason == "stop" && outputTokens == 0
      requires textBuffer == "" && !inTextThinking
      modifies this
      ensures Outcome(out, ok) == Sent(show, ReadTail(lines))
    {
      hide EventsOf, ApplyAll, FeedAll, FeedChunk, FinishOf, Tokens, ChunkTokens;
      Yield(MessageStart);
      Yield(Ping);
      ghost var chunks: seq<Chunk> := [];
      ghost var all := ReadTail(lines);
      NothingFed(show);
      var n := 0;
      while n < |lines| && !lines[n].Done?
        invariant n <= |lines|
        invariant Fed(show, chunks, State(), textBuffer, inTextThinking, finishReason, outputTokens)
        invariant all == Tail(chunks + ReadTail(lines[n..]).chunks, ReadTail(lines[n..]).failed)
      {
        if lines[n].Failure? {
          assert chunks + [] == chunks;
          return false;
        }
        assert lines[n..][1..] == lines[n + 1..];
        if lines[n].Data? {
          FedSnoc(show, chunks, lines[n].chunk, State(), textBuffer, inTextThinking, finishReason, outputTokens);
          Chunk(lines[n].chunk);
          Assoc(chunks, [lines[n].chunk], ReadTail(lines[n + 1..]).chunks);
          chunks := chunks + [lines[n].chunk];
        }
        n := n + 1;
      }
      assert chunks + [] == chunks;
      FedAll(show, chunks, State(), textBuffer, inTextThinking, finishReason, outputTokens);
      Close();
      ok := true;
    }
  }

  // ----- steps of the proofs above -----

  lemma NoStep(w: Writer)
    ensures ApplyAll(w, []) == w
  {
  }

  lemma OneStep(w: Writer, act: Act)
    ensures ApplyAll(w, [act]) == Apply(w, act)
  {
    hide Apply;
    NoStep(Apply(w, act));
    assert [act][1..] == [];
  }

  lemma SayStep(w: Writer, thinking: bool, text: string)
    ensures ApplyAll(w, [Act.Say(thinking, text)]) == Speak(w, thinking, text)
  {
    hide ApplyAll, Speak;
    OneStep(w, Act.Say(thinking, text));
  }

  lemma SpokenStep(w: Writer, thinking: bool, text: string, tag: Act, acts: seq<Act>)
    ensures ApplyAll(w, Spoken(thinking, text) + [tag] + acts)
         == ApplyAll(Apply(if text == "" then w else Speak(w, thinking, text), tag), acts)
  {
    hide ApplyAll;
    ApplyAppend(w, Spoken(thinking, text) + [tag], acts);
    ApplyAppend(w, Spoken(thinking, text), [tag]);
    NoStep(w);
    OneStep(w, Act.Say(thinking, text));
    OneStep(if text == "" then w else Speak(w, thinking, text), tag);
  }

  lemma ToggleStep(w: Writer, inside: bool, text: string, tag: string)
    ensures var v := if text == "" then w else Speak(w, inside, text);
            Apply(v, Toggle(inside, tag)) == if inside then StopCurrent(v) else OpenProse(StopCurrent(v), true)
  {
  }

  lemma CallsSnoc(tools: seq<ToolDelta>, k: nat)
    requires k < |tools|
    ensures Calls(tools[..k + 1]) == Calls(tools[..k]) + [Call(tools[k])]
    ensures CountArgs(tools[..k + 1]) == CountArgs(tools[..k]) + if tools[k].args != "" then 1 else 0
  {
    assert tools[..k + 1] == tools[..k] + [tools[k]];
    CountSnoc(tools[..k], tools[k]);
  }

  lemma {:induction false} CountSnoc(tools: seq<ToolDelta>, d: ToolDelta)
    ensures CountArgs(tools + [d]) == CountArgs(tools) + if d.args != "" then 1 else 0
  {
    if tools != [] {
      assert (tools + [d])[1..] == tools[1..] + [d];
      CountSnoc(tools[1..], d);
    }
  }

  lemma EmptyChunk(show: bool, buffer: string, inside: bool, c: Chunk)
    requires c.NoChoice?
    ensures FeedChunk(show, buffer, inside, c) == Split([], buffer, inside)
  {
  }

  lemma OneFinish(finish: string, c: Chunk)
    ensures FinishOf(finish, [c]) == if c.Choice? && c.finish != "" then c.finish else finish
  {
    assert [c][1..] == [];
  }

  lemma ChunkParts(show: bool, w: Writer, buffer: string, inside: bool, c: Chunk)
    requires c.Choice?
    ensures var a := if c.reasoning != "" && show then [Reason(c.reasoning)] else [];
            var b := FeedContent(buffer, inside, c.content);
            var d := BeforeTools(b.buffer, b.inside, c.tools);
            var r := FeedChunk(show, buffer, inside, c);
            && ApplyAll(w, r.acts) == ApplyAll(ApplyAll(ApplyAll(ApplyAll(w, a), b.acts), d.acts), Calls(c.tools))
            && r.buffer == d.buffer && r.inside == d.inside
  {
    hide ApplyAll, FeedContent, BeforeTools, Calls;
    var a := if c.reasoning != "" && show then [Reason(c.reasoning)] else [];
    var b := FeedContent(buffer, inside, c.content);
    var d := BeforeTools(b.buffer, b.inside, c.tools);
    FourSteps(w, a, b.acts, d.acts, Calls(c.tools));
  }

  lemma FourSteps(w: Writer, a: seq<Act>, b: seq<Act>, c: seq<Act>, d: seq<Act>)
    ensures ApplyAll(w, a + b + c + d) == ApplyAll(ApplyAll(ApplyAll(ApplyAll(w, a), b), c), d)
  {
    hide ApplyAll;
    ApplyAppend(w, a + b + c, d);
    ApplyAppend(w, a + b, c);
    ApplyAppend(w, a, b);
  }

  lemma NothingSent(show: bool)
    ensures Sent(show, ReadTail([])) == Outcome(EventsOf(show, []), true)
  {
  }

  /** The translator's fields after the chunks seen so far. */
  ghost predicate Fed(show: bool, chunks: seq<Chunk>, w: Writer, buffer: string, inside: bool, finish: string, tokens: nat) {
    var r := FeedAll(show, "", false, chunks);
    && w == ApplyAll(START, r.acts) && buffer == r.buffer && inside == r.inside
    && finish == FinishOf("stop", chunks) && tokens == Tokens(show, 0, chunks)
  }

  lemma NothingFed(show: bool)
    ensures Fed(show, [], START, "", false, "stop", 0)
  {
  }

  lemma FedSnoc(show: bool, chunks: seq<Chunk>, c: Chunk, w: Writer, buffer: string, inside: bool, finish: string, tokens: nat)
    requires Fed(show, chunks, w, buffer, inside, finish, tokens)
    ensures var r := FeedChunk(show, buffer, inside, c);
            Fed(show, chunks + [c], ApplyAll(w, r.acts), r.buffer, r.inside, FinishOf(finish, [c]), ChunkTokens(show, tokens, c))
  {
    hide ApplyAll, FeedChunk, FinishOf, Tokens, ChunkTokens;
    FeedAllAppend(show, "", false, chunks, [c]);
    var r := FeedChunk(show, buffer, inside, c);
    OneFed(show, buffer, inside, c);
    ApplyAppend(START, FeedAll(show, "", false, chunks).acts, r.acts);
    FinishSnoc("stop", chunks, c);
    TokensSnoc(show, 0, chunks, c);
  }

  lemma OneFed(show: bool, buffer: string, inside: bool, c: Chunk)
    ensures FeedAll(show, buffer, inside, [c]) == FeedChunk(show, buffer, inside, c)
  {
    hide FeedChunk;
    var a := FeedChunk(show, buffer, inside, c);
    assert [c][1..] == [] && a.acts + [] == a.acts;
  }

  lemma {:induction false} FinishSnoc(finish: string, chunks: seq<Chunk>, c: Chunk)
    ensures FinishOf(finish, chunks + [c]) == FinishOf(FinishOf(finish, chunks), [c])
    decreases |chunks|
  {
    if chunks == [] {
      assert [] + [c] == [c];
    } else {
      assert (chunks + [c])[1..] == chunks[1..] + [c];
      FinishSnoc(if chunks[0].Choice? && chunks[0].finish != "" then chunks[0].finish else finish, chunks[1..], c);
    }
  }

  lemma {:induction false} TokensSnoc(show: bool, tokens: nat, chunks: seq<Chunk>, c: Chunk)
    ensures Tokens(show, tokens, chunks + [c]) == ChunkTokens(show, Tokens(show, tokens, chunks), c)
    decreases |chunks|
  {
    hide ChunkTokens;
    if chunks == [] {
      assert ([] + [c])[1..] == [];
    } else {
      assert (chunks + [c])[1..] == chunks[1..] + [c];
      TokensSnoc(show, ChunkTokens(show, tokens, chunks[0]), chunks[1..], c);
    }
  }

  lemma FedAll(show: bool, chunks: seq<Chunk>, w: Writer, buffer: string, inside: bool, finish: string, tokens: nat)
    requires Fed(show, chunks, w, buffer, inside, finish, tokens)
    ensures EventsOf(show, chunks) == Finish(ApplyAll(w, Spoken(inside, buffer)), finish, tokens)
  {
    hide FeedAll, ApplyAll;
    var r := FeedAll(show, "", false, chunks);
    ApplyAppend(START, r.acts, Spoken(r.inside, r.buffer));
  }

  // ----- which lines become which stream -----

  /** The chunks among these lines. */
  function DataIn(lines: seq<Line>): seq<Chunk> {
    if lines == [] then [] else (if lines[0].Data? then [lines[0].chunk] else []) + DataIn(lines[1..])
  }

  /** Neither [DONE] nor a failure among them. */
  predicate Running(lines: seq<Line>) {
    forall k | 0 <= k < |lines| :: lines[k].Data? || lines[k].Noise?
  }

  lemma {:induction false} ReadRunning(lines: seq<Line>, rest: seq<Line>)
    requires Running(lines) && (rest == [] || rest[0].Done? || rest[0].Failure?)
    ensures ReadTail(lines + rest) == Tail(DataIn(lines), rest != [] && rest[0].Failure?)
    decreases |lines|
  {
    if lines == [] {
      assert lines + rest == rest;
    } else {
      assert (lines + rest)[0] == lines[0] && (lines + rest)[1..] == lines[1..] + rest;
      ReadRunning(lines[1..], rest);
    }
  }

  /** Lines that say nothing are skipped. */
  lemma {:induction false} NoiseSkipped(show: bool, lines: seq<Line>, rest: seq<Line>, bareError: bool)
    requires Running(lines)
    ensures Translated(show, lines + rest, bareError) ==
            if DataIn(lines) == [] then Translated(show, rest, bareError) else Sent(show, ReadTail(lines + rest))
    decreases |lines|
  {
    hide Sent, EventsOf;
    if lines == [] {
      assert lines + rest == rest;
    } else {
      assert (lines + rest)[0] == lines[0] && (lines + rest)[1..] == lines[1..] + rest;
      if lines[0].Noise? {
        NoiseSkipped(show, lines[1..], rest, bareError);
        assert [] + DataIn(lines[1..]) == DataIn(lines[1..]);
      }
    }
  }

  /**
   * Upstream lines with at least one chunk before the end, [DONE] or a
   * failure, whatever lies between them and after: the stream is that of all
   * the chunks, or breaks off where they leave it.
   */
  lemma ChunksStreamed(show: bool, lines: seq<Line>, rest: seq<Line>, bareError: bool)
    requires Running(lines) && DataIn(lines) != [] && (rest == [] || rest[0].Done? || rest[0].Failure?)
    ensures Translated(show, lines + rest, bareError) ==
            if rest != [] && rest[0].Failure? then Outcome(SentAfter(show, DataIn(lines)), false)
            else Outcome(EventsOf(show, DataIn(lines)), true)
  {
    hide EventsOf, FeedAll, ApplyAll, Translated, ReadTail;
    NoiseSkipped(show, lines, rest, bareError);
    ReadRunning(lines, rest);
  }

  /** Without a chunk before it, a failure sends nothing; nor does a bare error body, whether [DONE] or the end comes first. */
  lemma NothingBeforeFailure(show: bool, lines: seq<Line>, rest: seq<Line>, bareError: bool)
    requires Running(lines) && DataIn(lines) == []
    requires (rest != [] && rest[0].Failure?) || (bareError && (rest == [] || rest[0].Done?))
    ensures Translated(show, lines + rest, bareError) == Outcome([], false)
  {
    hide EventsOf, Sent;
    NoiseSkipped(show, lines, rest, bareError);
  }

  /** Without a chunk, an error or a body that is one, the empty message is sent; after an early [DONE] the rest is still read. */
  lemma EarlyDone(show: bool, lines: seq<Line>, more: seq<Line>, rest: seq<Line>)
    requires Running(lines) && DataIn(lines) == [] && Running(more) && (rest == [] || rest[0].Done? || rest[0].Failure?)
    ensures Translated(show, lines, false) == Outcome(EventsOf(show, []), true)
    ensures Translated(show, lines + ([Line.Done] + (more + rest)), false) ==
            if rest != [] && rest[0].Failure? then Outcome(SentAfter(show, DataIn(more)), false)
            else Outcome(EventsOf(show, DataIn(more)), true)
  {
    hide EventsOf, FeedAll, ApplyAll;
    NoiseSkipped(show, lines, [], false);
    assert lines + [] == lines;
    var all := [Line.Done] + (more + rest);
    NoiseSkipped(show, lines, all, false);
    assert all[1..] == more + rest;
    ReadRunning(more, rest);
  }

  /**
   * The whole stream goes on from what a broken one has sent with the held-back
   * text at most, one stop and the two closing events.
   */
  lemma BrokenLacksClosing(show: bool, chunks: seq<Chunk>)
    ensures var sent, all := SentAfter(show, chunks), EventsOf(show, chunks);
            sent <= all && |all| <= |sent| + 6
  {
    hide FeedAll, ApplyAll, StopReason, Speak;
    var r := FeedAll(show, "", false, chunks);
    var w := ApplyAll(START, r.acts);
    ApplyAppend(START, r.acts, Spoken(r.inside, r.buffer));
    var v := ApplyAll(w, Spoken(r.inside, r.buffer));
    NoStep(w);
    if r.buffer != "" {
      OneStep(w, Act.Say(r.inside, r.buffer));
      SpeakAdds(w, r.inside, r.buffer);
    }
    StopAdds(v);
  }

  lemma SpeakAdds(w: Writer, thinking: bool, text: string)
    ensures var v := Speak(w, thinking, text); w.out <= v.out && |v.out| <= |w.out| + 3
  {
  }

  lemma StopAdds(w: Writer)
    ensures var v := StopCurrent(w); w.out <= v.out && |v.out| <= |w.out| + 1
  {
  }
}
