// Tool calls of a stream: which delta opens a call, what its arguments add
// up to, and the tool blocks that come out.
module ToolCalls {
  import opened StreamTypes
  import opened Splitter
  import opened BlockWriter

  /** All tool deltas of a chunk stream, in order. */
  function DeltasIn(chunks: seq<Chunk>): seq<ToolDelta> {
    if chunks == [] then []
    else (if chunks[0].Choice? then chunks[0].tools else []) + DeltasIn(chunks[1..])
  }

  /** The tool deltas among writing decisions. */
  function CallsIn(acts: seq<Act>): seq<ToolDelta> {
    if acts == [] then []
    else (if acts[0].Call? then [acts[0].delta] else []) + CallsIn(acts[1..])
  }

  /** Distinct call indices by first appearance. */
  function Order(ds: seq<ToolDelta>): (r: seq<int>)
    ensures forall k, m | 0 <= k < m < |r| :: r[k] != r[m]
    decreases |ds|
  {
    if ds == [] then []
    else
      var o := Order(ds[..|ds| - 1]);
      var i := ds[|ds| - 1].index;
      if i in o then o else o + [i]
  }

  /** Everything sent as arguments of call `i`. */
  function ArgsFor(ds: seq<ToolDelta>, i: int): string
    decreases |ds|
  {
    if ds == [] then ""
    else
      var d := ds[|ds| - 1];
      ArgsFor(ds[..|ds| - 1], i) + (if d.index == i then d.args else "")
  }

  /** Head of the block opened for call `i`: the first delta's id and name. */
  function HeadFor(ds: seq<ToolDelta>, i: int): BlockHead
    decreases |ds|
  {
    if ds == [] then ToolHead("", "")
    else
      var rest := ds[..|ds| - 1];
      var d := ds[|ds| - 1];
      if i in Order(rest) || d.index != i then HeadFor(rest, i)
      else ToolHead(SlotFor(d, 0).id, SlotFor(d, 0).name)
  }

  /** The tool blocks in a block list. */
  function ToolBlocks(bs: seq<Block>): (r: seq<Block>)
    ensures |r| <= |bs|
    ensures forall k | 0 <= k < |r| :: r[k].head.ToolHead?
    decreases |bs|
  {
    if bs == [] then []
    else
      var b := bs[|bs| - 1];
      ToolBlocks(bs[..|bs| - 1]) + (if b.head.ToolHead? then [b] else [])
  }

  /** How many tool blocks come before position `b`. */
  function Rank(bs: seq<Block>, b: nat): nat
    requires b <= |bs|
  {
    |ToolBlocks(bs[..b])|
  }

  /** The text a client shows: all text blocks, in order. */
  function TextOf(bs: seq<Block>): string
    decreases |bs|
  {
    if bs == [] then ""
    else
      var b := bs[|bs| - 1];
      TextOf(bs[..|bs| - 1]) + (if b.head.TextHead? then b.text else "")
  }

  lemma BlocksAppend(bs: seq<Block>, b: Block)
    ensures ToolBlocks(bs + [b]) == ToolBlocks(bs) + (if b.head.ToolHead? then [b] else [])
    ensures TextOf(bs + [b]) == TextOf(bs) + (if b.head.TextHead? then b.text else "")
    ensures Rank(bs + [b], |bs|) == |ToolBlocks(bs)|
  {
    assert (bs + [b])[..|bs|] == bs;
  }

  lemma RankAppend(bs: seq<Block>, b: Block, k: nat)
    requires k <= |bs|
    ensures Rank(bs + [b], k) == Rank(bs, k)
  {
    assert (bs + [b])[..k] == bs[..k];
  }

  /** Growing a prose block leaves the tool blocks alone. */
  lemma {:induction false} GrowProse(bs: seq<Block>, i: nat, text: string)
    requires i < |bs| && !bs[i].head.ToolHead?
    ensures ToolBlocks(Grow(bs, i, text)) == ToolBlocks(bs)
    decreases |bs|
  {
    var n := |bs| - 1;
    var gs := Grow(bs, i, text);
    if i < n {
      assert gs[..n] == Grow(bs[..n], i, text);
      GrowProse(bs[..n], i, text);
    } else {
      assert gs[..n] == bs[..n];
    }
  }

  /** Growing a tool block grows exactly its entry among the tool blocks. */
  lemma {:induction false} GrowTool(bs: seq<Block>, i: nat, text: string)
    requires i < |bs| && bs[i].head.ToolHead?
    ensures Rank(bs, i) < |ToolBlocks(bs)|
    ensures ToolBlocks(Grow(bs, i, text)) == Grow(ToolBlocks(bs), Rank(bs, i), text)
    ensures TextOf(Grow(bs, i, text)) == TextOf(bs)
    decreases |bs|
  {
    var n := |bs| - 1;
    var gs := Grow(bs, i, text);
    if i < n {
      assert gs[..n] == Grow(bs[..n], i, text);
      assert bs[..n][..i] == bs[..i];
      GrowTool(bs[..n], i, text);
    } else {
      assert gs[..n] == bs[..n];
    }
  }

  lemma {:induction false} GrowRank(bs: seq<Block>, i: nat, text: string, k: nat)
    requires i < |bs| && k <= |bs|
    ensures Rank(Grow(bs, i, text), k) == Rank(bs, k)
  {
    if i < k {
      assert Grow(bs, i, text)[..k] == Grow(bs[..k], i, text);
      if bs[i].head.ToolHead? { GrowTool(bs[..k], i, text); } else { GrowProse(bs[..k], i, text); }
    } else {
      assert Grow(bs, i, text)[..k] == bs[..k];
    }
  }

  /** Text and thinking only ever grow at the end of the list. */
  lemma GrowLast(bs: seq<Block>, text: string)
    requires bs != [] && !bs[|bs| - 1].head.ToolHead?
    ensures TextOf(Grow(bs, |bs| - 1, text)) == TextOf(bs) + (if bs[|bs| - 1].head.TextHead? then text else "")
  {
    var n := |bs| - 1;
    assert Grow(bs, n, text)[..n] == bs[..n];
    Assoc(TextOf(bs[..n]), bs[n].text, text);
  }

  lemma OrderSnoc(ds: seq<ToolDelta>, d: ToolDelta, i: int)
    ensures Order(ds + [d]) == (if d.index in Order(ds) then Order(ds) else Order(ds) + [d.index])
    ensures ArgsFor(ds + [d], i) == ArgsFor(ds, i) + (if d.index == i then d.args else "")
    ensures HeadFor(ds + [d], i) == (if i in Order(ds) || d.index != i then HeadFor(ds, i)
                                     else ToolHead(SlotFor(d, 0).id, SlotFor(d, 0).name))
  {
    assert (ds + [d])[..|ds|] == ds;
  }

  /** The tool blocks of a view are those of the deltas seen, one per call, in order of appearance. */
  ghost predicate Tabled(v: View, ds: seq<ToolDelta>) {
    var o, t := Order(ds), ToolBlocks(v.blocks);
    && |t| == |o|
    && (forall i :: i in v.tools <==> i in o)
    && (forall k | 0 <= k < |o| :: t[k] == Block(HeadFor(ds, o[k]), ArgsFor(ds, o[k])))
    && (forall k | 0 <= k < |o| ::
          var b := v.tools[o[k]].block; b < |v.blocks| && v.blocks[b].head.ToolHead? && Rank(v.blocks, b) == k)
  }

  lemma TabledProse(v: View, w: View, ds: seq<ToolDelta>)
    requires Tabled(v, ds) && w.tools == v.tools
    requires |v.blocks| <= |w.blocks| && ToolBlocks(w.blocks) == ToolBlocks(v.blocks)
    requires forall k | 0 <= k < |v.blocks| :: w.blocks[k].head == v.blocks[k].head && Rank(w.blocks, k) == Rank(v.blocks, k)
    ensures Tabled(w, ds)
  {
    hide ToolBlocks, Order, HeadFor, ArgsFor, Rank;
  }

  lemma TabledSpeak(v: View, ds: seq<ToolDelta>, thinking: bool, text: string)
    requires Sane(v) && Tabled(v, ds)
    ensures Tabled(SpeakV(v, thinking, text), ds)
  {
    hide ToolBlocks, Order, HeadFor, ArgsFor, Rank, Tabled;
    var w := SpeakV(v, thinking, text);
    if v.cur.Prose? && v.cur.thinking == thinking {
      GrowProse(v.blocks, v.cur.index, text);
      forall k | 0 <= k < |v.blocks| ensures Rank(w.blocks, k) == Rank(v.blocks, k) {
        GrowRank(v.blocks, v.cur.index, text, k);
      }
    } else {
      ProseAppended(v.blocks, Block(ProseHead(thinking), text));
    }
    TabledProse(v, w, ds);
  }

  lemma ProseAppended(bs: seq<Block>, b: Block)
    requires !b.head.ToolHead?
    ensures ToolBlocks(bs + [b]) == ToolBlocks(bs)
    ensures forall k | 0 <= k < |bs| :: Rank(bs + [b], k) == Rank(bs, k)
  {
    hide ToolBlocks, Rank;
    BlocksAppend(bs, b);
    forall k | 0 <= k < |bs| ensures Rank(bs + [b], k) == Rank(bs, k) {
      RankAppend(bs, b, k);
    }
  }

  lemma NewBlocks(v: View, ds: seq<ToolDelta>, d: ToolDelta)
    requires d.index !in v.tools
    ensures var slot := SlotFor(d, |v.blocks|); var b := Block(ToolHead(slot.id, slot.name), d.args);
            && CallV(v, d).blocks == v.blocks + [b]
            && CallV(v, d).tools == v.tools[d.index := slot]
            && ToolBlocks(v.blocks + [b]) == ToolBlocks(v.blocks) + [b]
            && Rank(v.blocks + [b], |v.blocks|) == |ToolBlocks(v.blocks)|
  {
    hide ToolBlocks, Rank;
    var slot := SlotFor(d, |v.blocks|);
    assert "" + d.args == d.args;
    BlocksAppend(v.blocks, Block(ToolHead(slot.id, slot.name), d.args));
  }

  lemma NewRowKeeps(v: View, ds: seq<ToolDelta>, d: ToolDelta, k: nat)
    requires Tabled(v, ds) && d.index !in v.tools && k < |Order(ds)|
    ensures var w := CallV(v, d); var i := Order(ds)[k]; var b := w.tools[i].block;
            && ToolBlocks(w.blocks)[k] == Block(HeadFor(ds + [d], i), ArgsFor(ds + [d], i))
            && b < |w.blocks| && w.blocks[b].head.ToolHead? && Rank(w.blocks, b) == k
  {
    hide ToolBlocks, Order, HeadFor, ArgsFor, Rank, CallV;
    var i := Order(ds)[k];
    NewBlocks(v, ds, d);
    OrderSnoc(ds, d, i);
    assert i in Order(ds);
    var slot := SlotFor(d, |v.blocks|);
    RankAppend(v.blocks, Block(ToolHead(slot.id, slot.name), d.args), v.tools[i].block);
    assert ArgsFor(ds, i) + "" == ArgsFor(ds, i);
  }

  lemma NewRow(v: View, ds: seq<ToolDelta>, d: ToolDelta)
    requires Tabled(v, ds) && d.index !in v.tools
    ensures Tabled(CallV(v, d), ds + [d])
  {
    hide ToolBlocks, Order, HeadFor, ArgsFor, Rank, CallV;
    var w, o := CallV(v, d), Order(ds);
    NewBlocks(v, ds, d);
    OrderSnoc(ds, d, d.index);
    NoArgsYet(ds, d.index);
    assert "" + d.args == d.args;
    forall k | 0 <= k < |o|
      ensures ToolBlocks(w.blocks)[k] == Block(HeadFor(ds + [d], o[k]), ArgsFor(ds + [d], o[k]))
      ensures w.tools[o[k]].block < |w.blocks| && w.blocks[w.tools[o[k]].block].head.ToolHead?
      ensures Rank(w.blocks, w.tools[o[k]].block) == k
    {
      NewRowKeeps(v, ds, d, k);
    }
  }

  lemma {:induction false} NoArgsYet(ds: seq<ToolDelta>, i: int)
    requires i !in Order(ds)
    ensures ArgsFor(ds, i) == ""
    decreases |ds|
  {
    if ds != [] {
      NoArgsYet(ds[..|ds| - 1], i);
    }
  }

  lemma OldRow(v: View, ds: seq<ToolDelta>, d: ToolDelta)
    requires Tabled(v, ds) && d.index in v.tools
    ensures Tabled(CallV(v, d), ds + [d])
  {
    hide ToolBlocks, Order, HeadFor, ArgsFor, Rank;
    var o := Order(ds);
    var j :| 0 <= j < |o| && o[j] == d.index;
    var b := v.tools[d.index].block;
    var w := CallV(v, d);
    assert d.args == "" ==> Grow(v.blocks, b, d.args) == v.blocks by {
      assert v.blocks[b].text + "" == v.blocks[b].text;
    }
    assert w.blocks == Grow(v.blocks, b, d.args) && w.tools == v.tools;
    GrowTool(v.blocks, b, d.args);
    OrderSnoc(ds, d, d.index);
    forall k | 0 <= k < |o|
      ensures ToolBlocks(w.blocks)[k] == Block(HeadFor(ds + [d], o[k]), ArgsFor(ds + [d], o[k]))
           && (var i := w.tools[o[k]].block; i < |w.blocks| && w.blocks[i].head.ToolHead? && Rank(w.blocks, i) == k)
    {
      OrderSnoc(ds, d, o[k]);
      GrowRank(v.blocks, b, d.args, v.tools[o[k]].block);
      assert o[k] == o[j] <==> k == j;
      assert ArgsFor(ds, o[k]) + "" == ArgsFor(ds, o[k]);
    }
  }

  lemma TabledStep(v: View, ds: seq<ToolDelta>, act: Act)
    requires Sane(v) && Tabled(v, ds)
    ensures Tabled(ApplyV(v, act), if act.Call? then ds + [act.delta] else ds)
  {
    hide ToolBlocks, Order, HeadFor, ArgsFor, Rank, SpeakV, CallV, Tabled, Sane;
    match act
    case Reason(t) => TabledSpeak(v, ds, true, t);
    case Say(thinking, t) => TabledSpeak(v, ds, thinking, t);
    case Enter(_) =>
      ProseAppended(v.blocks, Block(ThinkingHead, ""));
      TabledProse(v, ApplyV(v, act), ds);
    case Leave(_) => TabledProse(v, ApplyV(v, act), ds);
    case Call(d) => if d.index in v.tools { OldRow(v, ds, d); } else { NewRow(v, ds, d); }
  }

  lemma {:induction false} TabledAll(v: View, ds: seq<ToolDelta>, acts: seq<Act>)
    requires Sane(v) && Tabled(v, ds)
    ensures Tabled(ApplyAllV(v, acts), ds + CallsIn(acts))
    decreases |acts|
  {
    hide ApplyV, Tabled, Sane;
    if acts == [] {
      assert ds + [] == ds;
    } else {
      SaneApply(v, acts[0]);
      TabledStep(v, ds, acts[0]);
      var more := if acts[0].Call? then [acts[0].delta] else [];
      assert ds + [] == ds;
      TabledAll(ApplyV(v, acts[0]), ds + more, acts[1..]);
      Assoc(ds, more, CallsIn(acts[1..]));
    }
  }

  // ----- decisions carry exactly the tool deltas of the chunks -----

  lemma {:induction false} CallsInAppend(a: seq<Act>, b: seq<Act>)
    ensures CallsIn(a + b) == CallsIn(a) + CallsIn(b)
  {
    if a == [] {
      assert a + b == b;
    } else {
      assert (a + b)[0] == a[0] && (a + b)[1..] == a[1..] + b;
      CallsInAppend(a[1..], b);
      Assoc(if a[0].Call? then [a[0].delta] else [], CallsIn(a[1..]), CallsIn(b));
    }
  }

  lemma {:induction false} CallsInProse(acts: seq<Act>)
    requires forall act | act in acts :: !act.Call?
    ensures CallsIn(acts) == []
  {
    if acts != [] {
      CallsInProse(acts[1..]);
    }
  }

  lemma {:induction false} CallsInCalls(tools: seq<ToolDelta>)
    ensures CallsIn(Calls(tools)) == tools
  {
    if tools != [] {
      assert Calls(tools)[1..] == Calls(tools[1..]);
      CallsInCalls(tools[1..]);
    }
  }

  lemma ChunkCalls(show: bool, buffer: string, inside: bool, c: Chunk)
    ensures CallsIn(FeedChunk(show, buffer, inside, c).acts) == if c.Choice? then c.tools else []
  {
    hide ProsePart, CallsIn, Calls;
    if c.Choice? {
      var p := ProsePart(show, buffer, inside, c);
      ProseThenCalls(show, buffer, inside, c);
      hide FeedChunk;
      CallsInProse(p.acts);
      CallsInAppend(p.acts, Calls(c.tools));
      CallsInCalls(c.tools);
      assert [] + c.tools == c.tools;
    } else {
      CallsInProse([]);
    }
  }

  lemma {:induction false} StreamCalls(show: bool, buffer: string, inside: bool, chunks: seq<Chunk>)
    ensures CallsIn(FeedAll(show, buffer, inside, chunks).acts) == DeltasIn(chunks)
    decreases |chunks|
  {
    hide FeedChunk;
    if chunks != [] {
      var a := FeedChunk(show, buffer, inside, chunks[0]);
      ChunkCalls(show, buffer, inside, chunks[0]);
      StreamCalls(show, a.buffer, a.inside, chunks[1..]);
      CallsInAppend(a.acts, FeedAll(show, a.buffer, a.inside, chunks[1..]).acts);
    }
  }

  /**
   * One tool block per call index, in order of first appearance, headed by
   * the first delta's id and name, holding every argument fragment sent for
   * that index -- however the deltas interleave.
   */
  lemma ToolArgumentsConserved(show: bool, chunks: seq<Chunk>)
    ensures var ds := DeltasIn(chunks); var t := ToolBlocks(Blocks(EventsOf(show, chunks)));
            && |t| == |Order(ds)|
            && forall k | 0 <= k < |t| :: t[k] == Block(HeadFor(ds, Order(ds)[k]), ArgsFor(ds, Order(ds)[k]))
  {
    hide FeedAll, ApplyAllV, Order, HeadFor, ArgsFor, ToolBlocks, Rank, EventsOf, Blocks, Spoken, CallsIn;
    var r := FeedAll(show, "", false, chunks);
    EventBlocks(show, chunks);
    StartView();
    StartTabled();
    TabledAll(START_VIEW, [], ActsOf(show, chunks));
    CallsInAppend(r.acts, Spoken(r.inside, r.buffer));
    SpokenCalls(r.inside, r.buffer);
    StreamCalls(show, "", false, chunks);
    assert [] + (DeltasIn(chunks) + []) == DeltasIn(chunks);
  }

  lemma SpokenCalls(thinking: bool, text: string)
    ensures CallsIn(Spoken(thinking, text)) == []
  {
    CallsInProse(Spoken(thinking, text));
  }

  lemma StartTabled()
    ensures Tabled(START_VIEW, [])
  {
  }
}
