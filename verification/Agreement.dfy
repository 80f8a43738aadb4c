// Two implementations of tag removal -- the stripper and the streaming
// translator -- show the same text.
module Agreement {
  import opened StreamTypes
  import opened Tags
  import opened Splitter
  import opened BlockWriter
  import opened ToolCalls
  import opened SplitInvariance
  import opened SteadyReplies
  import opened Stripper

  lemma {:induction false} TextAppend(a: seq<Block>, b: seq<Block>)
    ensures TextOf(a + b) == TextOf(a) + TextOf(b)
    decreases |b|
  {
    if b == [] {
      assert a + b == a;
      assert TextOf(a) + "" == TextOf(a);
    } else {
      var n := |b| - 1;
      assert (a + b)[..|a + b| - 1] == a + b[..n] && (a + b)[|a + b| - 1] == b[n];
      TextAppend(a, b[..n]);
      Assoc(TextOf(a), TextOf(b[..n]), if b[n].head.TextHead? then b[n].text else "");
    }
  }

  lemma OneText(head: BlockHead, text: string)
    ensures TextOf([Block(head, text)]) == if head.TextHead? then text else ""
    ensures TextOf(Visible(text)) == text
  {
    assert [Block(head, text)][..0] == [];
    if text != "" { assert [Block(TextHead, text)][..0] == []; }
  }

  /** What the stripper leaves of a whole reply is the text blocks of its one-pass split. */
  lemma {:induction false} SeenIsText(s: string, inside: bool)
    ensures Seen(s, inside) == TextOf(if inside then ThinkingBlocks(s) else TextBlocks(s))
    decreases |s|
  {
    hide Find, TagEnd, Seen, TextOf, TextBlocks, ThinkingBlocks, Visible;
    var i := Find(s, 0, inside);
    if i < |s| {
      WholeMatch(s, inside);
      SeenMatch(s, inside);
      var e := TagEnd(s, i);
      SeenIsText(s[e..], !inside);
      OneText(ThinkingHead, s[..i]);
      if inside {
        TextAppend([Block(ThinkingHead, s[..i])], TextBlocks(s[e..]));
      } else {
        TextAppend(Visible(s[..i]), ThinkingBlocks(s[e..]));
      }
    } else {
      WholePlain(s, inside);
      SeenPlain(s, inside);
      OneText(ThinkingHead, s);
    }
  }

  /** Every tag the scan of `s` consumes is bare. */
  ghost predicate BareTags(s: string, inside: bool)
    decreases |s|
  {
    var i := Find(s, 0, inside);
    if i < |s| then
      FindFirst(s, 0, inside);
      TagSpan(s, i, inside);
      BareAt(s, i, inside) && BareTags(s[TagEnd(s, i)..], !inside)
    else
      true
  }

  lemma BareSize(s: string, i: nat, close: bool)
    requires BareAt(s, i, close)
    ensures i < |s| && TagEnd(s, i) - i <= HOLD - 1
  {
    hide HasAt;
    var name := BareName(s, i, close);
    HeadChars(close, name);
    assert FirstGt(s, i) <= i + |Head(close, name)|;
  }

  /** Bare tags fit the translator's hold-back and survive the stripper's. */
  lemma {:induction false} BareIsFine(s: string, inside: bool)
    requires BareTags(s, inside)
    ensures Fits(s, inside) && Clean(s, inside)
    decreases |s|
  {
    hide Find, TagEnd, TagAt, BareAt, Fits, Clean;
    var i := Find(s, 0, inside);
    if i < |s| {
      WholeMatch(s, inside);
      CleanMatch(s, inside);
      BareSize(s, i, inside);
      BareIsFine(s[TagEnd(s, i)..], !inside);
      assert inside ==> EndsBare(s, i);
    } else {
      WholePlain(s, inside);
      CleanPlain(s, inside);
    }
  }

  /**
   * The same content, cut one way for the Playground and another way for an
   * Anthropic client: the stripper shows exactly the client's text blocks, as
   * soon as neither implementation trips over a cut tag.
   */
  lemma BothShowTheSame(show: bool, parts: seq<string>, chunks: seq<Chunk>)
    requires ContentOnly(show, chunks) && Content(chunks) == Join(parts)
    requires Steady(Join(parts), false) && Fits(Join(parts), false)
    ensures Streamed(parts) == TextOf(Blocks(EventsOf(show, chunks)))
  {
    hide ContentOnly, Content, Join, Streamed, TextOf, Blocks, EventsOf, Steady, Fits, TextBlocks, Seen, Whole;
    AnyCutExactly(Join(parts));
    SeenIsWhole(Join(parts));
    SeenIsText(Join(parts), false);
    WholeStream(show, chunks);
  }

  /** Whatever the two cuts of this content, both show the same text. */
  ghost predicate AlwaysAgree(show: bool, s: string) {
    forall parts: seq<string>, chunks: seq<Chunk> |
      Join(parts) == s && ContentOnly(show, chunks) && Content(chunks) == s ::
      Streamed(parts) == TextOf(Blocks(EventsOf(show, chunks)))
  }

  /**
   * They agree for all cuts only on steady content, and exactly there as long
   * as no tag is too long for the translator.
   */
  lemma AgreeExactly(show: bool, s: string)
    ensures AlwaysAgree(show, s) ==> Steady(s, false)
    ensures Fits(s, false) ==> (AlwaysAgree(show, s) <==> Steady(s, false))
  {
    hide ContentOnly, Content, Join, Streamed, TextOf, Blocks, EventsOf, Steady, Fits, TextBlocks, Seen, Whole;
    if AlwaysAgree(show, s) {
      var once := AtOnce(show, s);
      SeenIsWhole(s);
      SeenIsText(s, false);
      AnyCutExactly(s);
      forall parts: seq<string> | Join(parts) == s ensures Streamed(parts) == Whole(s) {
        assert Streamed(parts) == TextOf(Blocks(EventsOf(show, once)));
      }
    }
    if Fits(s, false) && Steady(s, false) {
      forall parts: seq<string>, chunks: seq<Chunk> |
        Join(parts) == s && ContentOnly(show, chunks) && Content(chunks) == s
        ensures Streamed(parts) == TextOf(Blocks(EventsOf(show, chunks)))
      {
        BothShowTheSame(show, parts, chunks);
      }
    }
  }

  /** In particular with bare tags. */
  lemma BareTagsAgree(show: bool, parts: seq<string>, chunks: seq<Chunk>)
    requires ContentOnly(show, chunks) && Content(chunks) == Join(parts)
    requires BareTags(Join(parts), false)
    ensures Streamed(parts) == TextOf(Blocks(EventsOf(show, chunks)))
  {
    hide ContentOnly, Content, Join, BareTags, Streamed, TextOf, Blocks, EventsOf, Clean, Steady, Fits;
    BareIsFine(Join(parts), false);
    CleanIsSteady(Join(parts), false);
    BothShowTheSame(show, parts, chunks);
  }
}
