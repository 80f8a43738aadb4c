// However content is cut into chunks, the blocks are those of a one-pass
// split of the whole text -- exactly when no consumed tag is longer than the
// held-back tail plus one character.
module SplitInvariance {
  import opened StreamTypes
  import opened Tags
  import opened Splitter
  import opened BlockWriter

  // ----- the one-pass reference -----

  /** Blocks of `s` read as visible text; an empty stretch of text is no block. */
  function TextBlocks(s: string): seq<Block>
    decreases |s|
  {
    var i := Find(s, 0, false);
    if i < |s| then
      FindFirst(s, 0, false);
      TagSpan(s, i, false);
      Visible(s[..i]) + ThinkingBlocks(s[TagEnd(s, i)..])
    else
      Visible(s)
  }

  /** Blocks of `s` read from just after an opening tag. */
  function ThinkingBlocks(s: string): seq<Block>
    decreases |s|
  {
    var i := Find(s, 0, true);
    if i < |s| then
      FindFirst(s, 0, true);
      TagSpan(s, i, true);
      [Block(ThinkingHead, s[..i])] + TextBlocks(s[TagEnd(s, i)..])
    else
      [Block(ThinkingHead, s)]
  }

  function Visible(text: string): seq<Block> {
    if text == "" then [] else [Block(TextHead, text)]
  }

  /** No tag the one-pass split consumes is longer than HOLD + 1. */
  predicate Fits(s: string, inside: bool)
    decreases |s|
  {
    var i := Find(s, 0, inside);
    if i < |s| then
      FindFirst(s, 0, inside);
      TagSpan(s, i, inside);
      TagEnd(s, i) - i <= HOLD + 1 && Fits(s[TagEnd(s, i)..], !inside)
    else
      true
  }

  /** Chunks that show the client nothing but content. */
  predicate ContentOnly(show: bool, chunks: seq<Chunk>) {
    forall c | c in chunks :: c.NoChoice? || (c.tools == [] && (c.reasoning == "" || !show))
  }

  /** The decisions of a translator that had the whole text at once. */
  function WholeActs(s: string, inside: bool): seq<Act>
    decreases |s|
  {
    var i := Find(s, 0, inside);
    if i < |s| then
      FindFirst(s, 0, inside);
      TagSpan(s, i, inside);
      var e := TagEnd(s, i);
      Spoken(inside, s[..i]) + [Toggle(inside, s[i..e])] + WholeActs(s[e..], !inside)
    else
      Spoken(inside, s)
  }

  lemma WholeMatch(s: string, inside: bool)
    requires Find(s, 0, inside) < |s|
    ensures var i := Find(s, 0, inside); var e := TagEnd(s, i);
            && i + 7 <= e <= |s|
            && WholeActs(s, inside) == Spoken(inside, s[..i]) + [Toggle(inside, s[i..e])] + WholeActs(s[e..], !inside)
            && Fits(s, inside) == (e - i <= HOLD + 1 && Fits(s[e..], !inside))
            && (inside ==> ThinkingBlocks(s) == [Block(ThinkingHead, s[..i])] + TextBlocks(s[e..]))
            && (!inside ==> TextBlocks(s) == Visible(s[..i]) + ThinkingBlocks(s[e..]))
  {
    hide TagAt, FirstGt;
    FindFirst(s, 0, inside);
    TagSpan(s, Find(s, 0, inside), inside);
  }

  lemma WholePlain(s: string, inside: bool)
    requires Find(s, 0, inside) == |s|
    ensures WholeActs(s, inside) == Spoken(inside, s) && Fits(s, inside)
    ensures inside ==> ThinkingBlocks(s) == [Block(ThinkingHead, s)]
    ensures !inside ==> TextBlocks(s) == Visible(s)
  {
    hide TagAt, FirstGt, Find;
  }

  // ----- cutting does not matter when tags fit -----

  lemma SpokenSplit(v: View, thinking: bool, x: string, z: string)
    requires x != ""
    ensures ApplyAllV(v, Spoken(thinking, x + z)) == ApplyAllV(ApplyAllV(v, [Say(thinking, x)]), Spoken(thinking, z))
  {
    var u := SpeakV(v, thinking, x);
    assert ApplyAllV(v, [Say(thinking, x)]) == u;
    assert ApplyAllV(v, Spoken(thinking, x + z)) == SpeakV(v, thinking, x + z);
    if z == "" {
      assert x + z == x;
    } else {
      assert ApplyAllV(u, Spoken(thinking, z)) == SpeakV(u, thinking, z);
      SpeakTwice(v, thinking, x, z);
    }
  }

  lemma SpeakTwice(v: View, thinking: bool, x: string, z: string)
    ensures SpeakV(SpeakV(v, thinking, x), thinking, z) == SpeakV(v, thinking, x + z)
  {
    if v.cur.Prose? && v.cur.thinking == thinking && v.cur.index < |v.blocks| {
      Assoc(v.blocks[v.cur.index].text, x, z);
    }
  }

  lemma SpokenBefore(v: View, thinking: bool, x: string, z: string, a: seq<Act>, b: seq<Act>)
    requires x != ""
    ensures ApplyAllV(v, Spoken(thinking, x + z) + a + b)
         == ApplyAllV(ApplyAllV(v, [Say(thinking, x)]), Spoken(thinking, z) + a + b)
  {
    hide Spoken, ApplyAllV;
    Assoc(Spoken(thinking, x + z), a, b);
    Assoc(Spoken(thinking, z), a, b);
    ApplyAppendV(v, Spoken(thinking, x + z), a + b);
    ApplyAppendV(ApplyAllV(v, [Say(thinking, x)]), Spoken(thinking, z), a + b);
    SpokenSplit(v, thinking, x, z);
  }

  /** Where the tail is released early, nothing a fitting tag needs is lost. */
  lemma HoldAgrees(v: View, x: string, y: string, rest: string, inside: bool)
    requires x != "" && |y| == HOLD
    requires Find(x + y, 0, inside) == |x + y|
    requires Fits((x + y) + rest, inside)
    ensures ApplyAllV(v, WholeActs((x + y) + rest, inside))
         == ApplyAllV(ApplyAllV(v, [Say(inside, x)]), WholeActs(y + rest, inside))
    ensures Fits(y + rest, inside)
  {
    hide Find, TagEnd, WholeActs, Fits, ApplyAllV, TagAt;
    Assoc(x, y, rest);
    var s := (x + y) + rest;
    var i := Find(s, 0, inside);
    if i < |s| {
      WholeMatch(s, inside);
      LateMatch(x + y, rest, inside);
    }
    FrontAgrees(v, x, y + rest, inside);
  }

  /** Text in front of the first tag may be written early. */
  lemma FrontAgrees(v: View, x: string, t: string, inside: bool)
    requires x != "" && |x| <= Find(x + t, 0, inside)
    ensures ApplyAllV(v, WholeActs(x + t, inside)) == ApplyAllV(ApplyAllV(v, [Say(inside, x)]), WholeActs(t, inside))
    ensures Fits(t, inside) == Fits(x + t, inside)
  {
    hide Find, TagEnd, WholeActs, Fits, ApplyAllV, Spoken;
    var s := x + t;
    FindDrop(x, t, inside);
    var j := Find(t, 0, inside);
    if j < |t| {
      WholeMatch(s, inside);
      WholeMatch(t, inside);
      var f := TagEnd(t, j);
      assert s[..|x| + j] == x + t[..j] && s[|x| + j..|x| + f] == t[j..f] && s[|x| + f..] == t[f..];
      SpokenBefore(v, inside, x, t[..j], [Toggle(inside, t[j..f])], WholeActs(t[f..], !inside));
    } else {
      WholePlain(s, inside);
      WholePlain(t, inside);
      SpokenSplit(v, inside, x, t);
    }
  }

  /** A tag completed only by later input ends after what is already there. */
  lemma LateMatch(u: string, rest: string, inside: bool)
    requires Find(u, 0, inside) == |u| && Find(u + rest, 0, inside) < |u + rest|
    ensures TagEnd(u + rest, Find(u + rest, 0, inside)) > |u|
  {
    hide FirstGt, TagAt, Find;
    var i := Find(u + rest, 0, inside);
    FindFirst(u + rest, 0, inside);
    FindFirst(u, 0, inside);
    TagSpan(u + rest, i, inside);
    if TagEnd(u + rest, i) <= |u| {
      TagGrow(u, rest, i, inside);
    }
  }

  lemma {:induction false} DrainAgrees(v: View, u: string, rest: string, inside: bool)
    requires Fits(u + rest, inside)
    ensures var d := Drain(u, inside);
            && ApplyAllV(v, WholeActs(u + rest, inside)) == ApplyAllV(ApplyAllV(v, d.acts), WholeActs(d.buffer + rest, d.inside))
            && Fits(d.buffer + rest, d.inside)
            && Find(d.buffer, 0, d.inside) == |d.buffer|
    decreases |u|
  {
    hide Find, TagEnd, WholeActs, Fits, ApplyV, ApplyAllV, Spoken, Drain;
    var i := Find(u, 0, inside);
    if i < |u| {
      DrainMatch(u, inside);
      FindGrow(u, rest, inside);
      var s := u + rest;
      WholeMatch(s, inside);
      var e := TagEnd(u, i);
      assert s[..i] == u[..i] && s[i..e] == u[i..e] && s[e..] == u[e..] + rest;
      var d := Drain(u[e..], !inside);
      var head := Spoken(inside, u[..i]) + [Toggle(inside, u[i..e])];
      var v' := ApplyAllV(v, head);
      DrainAgrees(v', u[e..], rest, !inside);
      ApplyAppendV(v, head, WholeActs(s[e..], !inside));
      ApplyAppendV(v, head, d.acts);
    } else {
      DrainHold(u, inside);
      if |u| > HOLD {
        var n := |u| - HOLD;
        Cut(u, n, n);
        HoldAgrees(v, u[..n], u[n..], rest, inside);
        FindDrop(u[..n], u[n..], inside);
      } else {
        NoActs(v);
      }
    }
  }

  lemma NoActs(v: View)
    ensures ApplyAllV(v, []) == v
  {
  }

  lemma ContentChunk(show: bool, buffer: string, inside: bool, c: Chunk)
    requires ContentOnly(show, [c])
    ensures FeedChunk(show, buffer, inside, c) == FeedContent(buffer, inside, ContentOf(c))
  {
    hide Drain;
    assert c in [c];
    if c.Choice? {
      var b := FeedContent(buffer, inside, c.content);
      assert [] + b.acts + [] + Calls([]) == b.acts;
    }
  }

  lemma {:induction false} StreamAgrees(show: bool, v: View, buffer: string, inside: bool, chunks: seq<Chunk>)
    requires ContentOnly(show, chunks)
    requires Find(buffer, 0, inside) == |buffer|
    requires Fits(buffer + Content(chunks), inside)
    ensures var r := FeedAll(show, buffer, inside, chunks);
            ApplyAllV(v, r.acts + Spoken(r.inside, r.buffer)) == ApplyAllV(v, WholeActs(buffer + Content(chunks), inside))
    decreases |chunks|
  {
    hide Find, WholeActs, Fits, ApplyAllV, Spoken, Drain, FeedChunk, ContentOf;
    if chunks == [] {
      assert [] + Spoken(inside, buffer) == Spoken(inside, buffer) && buffer + "" == buffer;
      WholePlain(buffer, inside);
    } else {
      var c, rest := chunks[0], Content(chunks[1..]);
      var a := FeedChunk(show, buffer, inside, c);
      var b := FeedAll(show, a.buffer, a.inside, chunks[1..]);
      ContentChunk(show, buffer, inside, c);
      Assoc(buffer, ContentOf(c), rest);
      Assoc(a.acts, b.acts, Spoken(b.inside, b.buffer));
      ApplyAppendV(v, a.acts, b.acts + Spoken(b.inside, b.buffer));
      if ContentOf(c) == "" {
        assert buffer + ContentOf(c) == buffer;
        NoActs(v);
      } else {
        DrainAgrees(v, buffer + ContentOf(c), rest, inside);
      }
      StreamAgrees(show, ApplyAllV(v, a.acts), a.buffer, a.inside, chunks[1..]);
    }
  }

  // ----- the writer's blocks are the reference blocks -----

  /** The writer stands at the start of a stretch of the given kind. */
  predicate At(v: View, inside: bool) {
    if inside then
      v.blocks != [] && v.blocks[|v.blocks| - 1] == Block(ThinkingHead, "") && v.cur == Prose(true, |v.blocks| - 1)
    else
      v.cur == Closed
  }

  /** What the finished list will be if `s` is still to come. */
  function Total(v: View, s: string, inside: bool): seq<Block>
    requires At(v, inside)
  {
    if inside then v.blocks[..|v.blocks| - 1] + ThinkingBlocks(s) else v.blocks + TextBlocks(s)
  }

  lemma StretchStep(v: View, inside: bool, text: string, tag: string)
    requires At(v, inside)
    ensures var v' := ApplyAllV(v, Spoken(inside, text) + [Toggle(inside, tag)]);
            && At(v', !inside)
            && v'.blocks == (if inside then v.blocks[..|v.blocks| - 1] + [Block(ThinkingHead, text)]
                             else v.blocks + Visible(text) + [Block(ThinkingHead, "")])
  {
    ApplyAppendV(v, Spoken(inside, text), [Toggle(inside, tag)]);
    var u := ApplyAllV(v, Spoken(inside, text));
    StretchSpoken(v, inside, text);
    assert ApplyAllV(u, [Toggle(inside, tag)]) == ApplyV(u, Toggle(inside, tag));
  }

  lemma StretchSpoken(v: View, inside: bool, text: string)
    requires At(v, inside)
    ensures ApplyAllV(v, Spoken(inside, text)).blocks
         == (if inside then v.blocks[..|v.blocks| - 1] + [Block(ThinkingHead, text)] else v.blocks + Visible(text))
  {
    if text != "" {
      SpokenOnce(v, inside, text);
      hide ApplyAllV, Spoken;
      assert "" + text == text;
    }
  }

  lemma SpokenOnce(v: View, inside: bool, text: string)
    requires text != ""
    ensures ApplyAllV(v, Spoken(inside, text)) == SpeakV(v, inside, text)
  {
    hide SpeakV;
  }

  lemma {:induction false} WholeBlocks(v: View, s: string, inside: bool)
    requires At(v, inside)
    ensures ApplyAllV(v, WholeActs(s, inside)).blocks == Total(v, s, inside)
    decreases |s|
  {
    hide Find, TagEnd, WholeActs, ApplyAllV, Spoken, TextBlocks, ThinkingBlocks, Visible, Toggle;
    var i := Find(s, 0, inside);
    if i < |s| {
      WholeMatch(s, inside);
      var e := TagEnd(s, i);
      var head := Spoken(inside, s[..i]) + [Toggle(inside, s[i..e])];
      StretchStep(v, inside, s[..i], s[i..e]);
      var v' := ApplyAllV(v, head);
      ApplyAppendV(v, head, WholeActs(s[e..], !inside));
      WholeBlocks(v', s[e..], !inside);
      TotalStep(v, v', s, i, e, inside);
    } else {
      WholePlain(s, inside);
      StretchSpoken(v, inside, s);
    }
  }

  lemma TotalStep(v: View, v': View, s: string, i: nat, e: nat, inside: bool)
    requires At(v, inside) && At(v', !inside) && i <= e <= |s|
    requires v'.blocks == (if inside then v.blocks[..|v.blocks| - 1] + [Block(ThinkingHead, s[..i])]
                           else v.blocks + Visible(s[..i]) + [Block(ThinkingHead, "")])
    requires inside ==> ThinkingBlocks(s) == [Block(ThinkingHead, s[..i])] + TextBlocks(s[e..])
    requires !inside ==> TextBlocks(s) == Visible(s[..i]) + ThinkingBlocks(s[e..])
    ensures Total(v', s[e..], !inside) == Total(v, s, inside)
  {
    hide TextBlocks, ThinkingBlocks, Visible;
    if inside {
      Assoc(v.blocks[..|v.blocks| - 1], [Block(ThinkingHead, s[..i])], TextBlocks(s[e..]));
    } else {
      assert v'.blocks[..|v'.blocks| - 1] == v.blocks + Visible(s[..i]);
      Assoc(v.blocks, Visible(s[..i]), ThinkingBlocks(s[e..]));
    }
  }

  // ----- a tag that does not fit can be torn -----

  /** `bs` has a block that the list `ref` can never be: extra, of another kind, or longer. */
  ghost predicate Overshoots(bs: seq<Block>, ref: seq<Block>) {
    exists k | 0 <= k < |bs| :: k >= |ref| || bs[k].head != ref[k].head || |bs[k].text| > |ref[k].text|
  }

  /** Blocks keep their heads and only grow. */
  ghost predicate Extends(bs: seq<Block>, cs: seq<Block>) {
    |bs| <= |cs| && forall k | 0 <= k < |bs| :: bs[k].head == cs[k].head && |bs[k].text| <= |cs[k].text|
  }

  lemma {:induction false} ApplyExtendsV(v: View, acts: seq<Act>)
    ensures Extends(v.blocks, ApplyAllV(v, acts).blocks)
    decreases |acts|
  {
    hide ApplyV;
    if acts != [] {
      StepExtendsV(v, acts[0]);
      ApplyExtendsV(ApplyV(v, acts[0]), acts[1..]);
    }
  }

  lemma StepExtendsV(v: View, act: Act)
    ensures Extends(v.blocks, ApplyV(v, act).blocks)
  {
  }

  /** The cut just before the `>` of the first tag that does not fit. */
  function TearAt(s: string, inside: bool): (c: nat)
    requires !Fits(s, inside)
    ensures c <= |s|
    decreases |s|
  {
    var i := Find(s, 0, inside);
    FindFirst(s, 0, inside);
    TagSpan(s, i, inside);
    var e := TagEnd(s, i);
    if e - i > HOLD + 1 then e - 1 else e + TearAt(s[e..], !inside)
  }

  lemma {:induction false} TornOvershoots(v: View, s: string, inside: bool)
    requires At(v, inside) && !Fits(s, inside)
    ensures Overshoots(ApplyAllV(v, Drain(s[..TearAt(s, inside)], inside).acts).blocks, Total(v, s, inside))
    decreases |s|
  {
    hide Find, TagEnd, TagAt, ApplyAllV, Spoken, TextBlocks, ThinkingBlocks, Visible, Toggle, Drain, Fits;
    var i := Find(s, 0, inside);
    if i == |s| { WholePlain(s, inside); }
    WholeMatch(s, inside);
    var e := TagEnd(s, i);
    if e - i > HOLD + 1 {
      LongTagTorn(v, s, inside);
    } else {
      TearStep(s, inside);
      var c := TearAt(s[e..], !inside);
      var u := s[..e + c];
      assert s == u + s[e + c..];
      ShortTagSeen(u, s[e + c..], inside);
      DrainMatch(u, inside);
      assert u[..i] == s[..i] && u[i..e] == s[i..e] && u[e..] == s[e..][..c];
      var head := Spoken(inside, s[..i]) + [Toggle(inside, s[i..e])];
      StretchStep(v, inside, s[..i], s[i..e]);
      var v' := ApplyAllV(v, head);
      TornOvershoots(v', s[e..], !inside);
      ApplyAppendV(v, head, Drain(u[e..], !inside).acts);
      TotalStep(v, v', s, i, e, inside);
    }
  }

  lemma TearStep(s: string, inside: bool)
    requires Find(s, 0, inside) < |s|
    requires !Fits(s, inside)
    ensures var i := Find(s, 0, inside); var e := TagEnd(s, i);
            i + 7 <= e <= |s| &&
            if e - i > HOLD + 1 then TearAt(s, inside) == e - 1
            else !Fits(s[e..], !inside) && TearAt(s, inside) == e + TearAt(s[e..], !inside)
  {
    hide TagAt, FirstGt;
    WholeMatch(s, inside);
  }

  lemma ShortTagSeen(u: string, rest: string, inside: bool)
    requires Find(u + rest, 0, inside) < |u + rest|
    requires TagEnd(u + rest, Find(u + rest, 0, inside)) <= |u|
    ensures Find(u, 0, inside) == Find(u + rest, 0, inside) < |u|
    ensures TagEnd(u, Find(u, 0, inside)) == TagEnd(u + rest, Find(u, 0, inside))
  {
    hide Find, TagAt, FirstGt;
    var i := Find(u + rest, 0, inside);
    FindFirst(u + rest, 0, inside);
    FindFirst(u, 0, inside);
    TagSpan(u + rest, i, inside);
    TagGrow(u, rest, i, inside);
    if Find(u, 0, inside) < |u| { FindGrow(u, rest, inside); }
  }

  lemma LongTagTorn(v: View, s: string, inside: bool)
    requires At(v, inside) && Find(s, 0, inside) < |s|
    requires TagEnd(s, Find(s, 0, inside)) - Find(s, 0, inside) > HOLD + 1 && !Fits(s, inside)
    ensures Overshoots(ApplyAllV(v, Drain(s[..TearAt(s, inside)], inside).acts).blocks, Total(v, s, inside))
  {
    hide Find, TagEnd, TagAt, TextBlocks, ThinkingBlocks, Drain, Fits, TearAt;
    WholeMatch(s, inside);
    TearStep(s, inside);
    var i := Find(s, 0, inside);
    var e := TagEnd(s, i);
    var u := s[..e - 1];
    assert s == u + s[e - 1..];
    if Find(u, 0, inside) < |u| {
      FindGrow(u, s[e - 1..], inside);
      DrainMatch(u, inside);
    }
    DrainHold(u, inside);
    var said := u[..|u| - HOLD];
    assert |said| > i;
    var v' := ApplyAllV(v, [Say(inside, said)]);
    assert Spoken(inside, said) == [Say(inside, said)];
    StretchSpoken(v, inside, said);
    var k := if inside then |v.blocks| - 1 else |v.blocks|;
    assert v'.blocks[k].text == said;
    FirstThinking(s[e..]);
    assert Total(v, s, inside)[k] == if inside || i > 0 then Block(ProseHead(inside), s[..i]) else ThinkingBlocks(s[e..])[0];
  }

  lemma FirstThinking(s: string)
    ensures ThinkingBlocks(s) != [] && ThinkingBlocks(s)[0].head == ThinkingHead
  {
    hide Find, TagAt, TextBlocks;
  }

  function ContentChunkOf(text: string): Chunk {
    Choice("", text, [], "", 0)
  }

  /** The two chunks that tear the first unfitting tag. */
  function Torn(s: string): seq<Chunk>
    requires !Fits(s, false)
  {
    var c := TearAt(s, false);
    [ContentChunkOf(s[..c]), ContentChunkOf(s[c..])]
  }

  lemma TornChunks(show: bool, s: string)
    requires !Fits(s, false)
    ensures ContentOnly(show, Torn(s)) && Content(Torn(s)) == s
    ensures Blocks(EventsOf(show, Torn(s))) != TextBlocks(s)
  {
    hide Find, TagAt, Drain, Fits, TearAt, Blocks, EventsOf, TextBlocks, ApplyAllV, ActsOf, Extends, Overshoots, Spoken;
    var c := TearAt(s, false);
    var chunks := Torn(s);
    var one, two := chunks[..1], chunks[1..];
    TornContent(s, c);
    TearPositive(s);
    var a := FeedAll(show, "", false, one);
    var b := FeedAll(show, a.buffer, a.inside, two);
    TornFirst(show, s[..c]);
    FeedAllAppend(show, "", false, one, two);
    assert chunks == one + two;
    TornActs(show, chunks, a, b);
    Assoc(a.acts, b.acts, Spoken(b.inside, b.buffer));
    var v := ApplyAllV(START_VIEW, a.acts);
    ApplyAppendV(START_VIEW, a.acts, b.acts + Spoken(b.inside, b.buffer));
    TornOvershoots(START_VIEW, s, false);
    ApplyExtendsV(v, b.acts + Spoken(b.inside, b.buffer));
    EventBlocks(show, chunks);
    assert Total(START_VIEW, s, false) == TextBlocks(s);
    StillOvershoots(v.blocks, ApplyAllV(v, b.acts + Spoken(b.inside, b.buffer)).blocks, TextBlocks(s));
  }

  lemma TornContent(s: string, c: nat)
    requires c <= |s|
    ensures Content([ContentChunkOf(s[..c]), ContentChunkOf(s[c..])]) == s
  {
    var chunks := [ContentChunkOf(s[..c]), ContentChunkOf(s[c..])];
    var last := [ContentChunkOf(s[c..])];
    assert chunks[1..] == last && last[1..] == [];
    assert Content(last) == s[c..] + Content(last[1..]) == s[c..];
    assert Content(chunks) == s[..c] + Content(chunks[1..]);
  }

  lemma TornFirst(show: bool, text: string)
    requires text != ""
    ensures FeedAll(show, "", false, [ContentChunkOf(text)]) == Drain(text, false)
  {
    hide Drain;
    var c := ContentChunkOf(text);
    ContentChunk(show, "", false, c);
    assert "" + text == text;
    assert [c][1..] == [];
    var d := Drain(text, false);
    assert d.acts + [] == d.acts;
  }

  lemma TornActs(show: bool, chunks: seq<Chunk>, a: Split, b: Split)
    requires FeedAll(show, "", false, chunks) == Split(a.acts + b.acts, b.buffer, b.inside)
    ensures ActsOf(show, chunks) == a.acts + b.acts + Spoken(b.inside, b.buffer)
  {
  }

  lemma TearPositive(s: string)
    requires !Fits(s, false)
    ensures TearAt(s, false) > 0
  {
    hide Find, TagAt;
    if Find(s, 0, false) == |s| { WholePlain(s, false); }
    TearStep(s, false);
  }

  lemma StillOvershoots(bs: seq<Block>, cs: seq<Block>, ref: seq<Block>)
    requires Overshoots(bs, ref) && Extends(bs, cs)
    ensures cs != ref
  {
  }

  /** One chunk: what is drained and then flushed is the one-pass split. */
  lemma {:induction false} DrainedWhole(v: View, u: string, inside: bool)
    ensures var d := Drain(u, inside); ApplyAllV(v, d.acts + Spoken(d.inside, d.buffer)) == ApplyAllV(v, WholeActs(u, inside))
    decreases |u|
  {
    hide Find, TagEnd, WholeActs, ApplyAllV, Spoken, Drain;
    var i := Find(u, 0, inside);
    if i < |u| {
      DrainMatch(u, inside);
      WholeMatch(u, inside);
      var e := TagEnd(u, i);
      var d := Drain(u[e..], !inside);
      var head := Spoken(inside, u[..i]) + [Toggle(inside, u[i..e])];
      DrainedWhole(ApplyAllV(v, head), u[e..], !inside);
      Assoc(head, d.acts, Spoken(d.inside, d.buffer));
      ApplyAppendV(v, head, WholeActs(u[e..], !inside));
      ApplyAppendV(v, head, d.acts + Spoken(d.inside, d.buffer));
    } else {
      DrainHold(u, inside);
      WholePlain(u, inside);
      if |u| > HOLD {
        var n := |u| - HOLD;
        assert u == u[..n] + u[n..];
        SpokenSplit(v, inside, u[..n], u[n..]);
        ApplyAppendV(v, [Say(inside, u[..n])], Spoken(inside, u[n..]));
      } else {
        assert [] + Spoken(inside, u) == Spoken(inside, u);
      }
    }
  }

  lemma OneChunk(show: bool, s: string)
    requires s != ""
    ensures var chunks := [ContentChunkOf(s)];
            ContentOnly(show, chunks) && Content(chunks) == s && Blocks(EventsOf(show, chunks)) == TextBlocks(s)
  {
    hide Find, WholeActs, ApplyAllV, Spoken, Drain, FeedAll, Blocks, EventsOf, TextBlocks;
    var chunks := [ContentChunkOf(s)];
    assert chunks[1..] == [] && s + "" == s;
    TornFirst(show, s);
    DrainedWhole(START_VIEW, s, false);
    WholeBlocks(START_VIEW, s, false);
    assert [] + TextBlocks(s) == TextBlocks(s);
    EventBlocks(show, chunks);
  }

  /** Content that arrives in one piece becomes the one-pass blocks, whatever its tags. */
  lemma AtOnce(show: bool, s: string) returns (chunks: seq<Chunk>)
    ensures ContentOnly(show, chunks) && Content(chunks) == s && Blocks(EventsOf(show, chunks)) == TextBlocks(s)
  {
    hide Blocks, EventsOf, TextBlocks, Fits;
    if s == "" {
      chunks := [];
      EmptyFind();
      WholePlain("", false);
      WholeStream(show, []);
    } else {
      chunks := [ContentChunkOf(s)];
      OneChunk(show, s);
    }
  }

  lemma WholeStream(show: bool, chunks: seq<Chunk>)
    requires ContentOnly(show, chunks) && Fits(Content(chunks), false)
    ensures Blocks(EventsOf(show, chunks)) == TextBlocks(Content(chunks))
  {
    hide Find, WholeActs, Fits, ApplyAllV, Spoken, FeedAll, Blocks, EventsOf, TextBlocks;
    var s := Content(chunks);
    assert "" + s == s;
    EmptyFind();
    StreamAgrees(show, START_VIEW, "", false, chunks);
    WholeBlocks(START_VIEW, s, false);
    assert [] + TextBlocks(s) == TextBlocks(s);
    EventBlocks(show, chunks);
  }

  lemma EmptyFind()
    ensures Find("", 0, false) == 0
  {
  }

  /**
   * The blocks do not depend on how content is cut into chunks exactly when
   * every tag of the one-pass split has at most 21 characters.
   */
  lemma SplitInvariantExactly(show: bool, s: string)
    ensures Fits(s, false) <==>
            forall chunks | ContentOnly(show, chunks) && Content(chunks) == s :: Blocks(EventsOf(show, chunks)) == TextBlocks(s)
  {
    hide Fits, ContentOnly, Content, Blocks, EventsOf, TextBlocks;
    if Fits(s, false) {
      forall chunks | ContentOnly(show, chunks) && Content(chunks) == s
        ensures Blocks(EventsOf(show, chunks)) == TextBlocks(s)
      {
        WholeStream(show, chunks);
      }
    } else {
      TornChunks(show, s);
    }
  }

  /** A tag of 21 characters is not torn. */
  lemma FittingTagExample()
    ensures Fits("<think 4567890123456>", false)
  {
    var s := "<think 4567890123456>";
    hide Fits;
    assert Head(false, "think") == "<think";
    assert HasAt(s, 0, "<think");
    assert HeadAt(s, 0, Head(false, "think"));
    FirstGtIs(s, 0, 20);
    FindIs(s, 0, false, 0);
    WholeMatch(s, false);
    assert s[21..] == "";
    WholePlain("", true);
  }

  /** A 22-character tag, torn before its last character. */
  lemma LongTagExample()
    ensures !Fits("<think 45678901234567>", false)
  {
    hide Fits;
    var s := "<think 45678901234567>";
    assert Head(false, "think") == "<think";
    assert HasAt(s, 0, "<think");
    assert HeadAt(s, 0, Head(false, "think"));
    FirstGtIs(s, 0, 21);
    FindIs(s, 0, false, 0);
    WholeMatch(s, false);
  }
}
