// _ThinkingStripper: hiding tagged reasoning from a Playground reply that
// arrives in pieces.
module Stripper {
  import opened StreamTypes
  import opened Tags
  import opened Splitter
  import opened BlockWriter
  import opened ToolCalls
  import opened SplitInvariance

  /** The last `n` characters of `value` begin some tag (without its `>`). */
  predicate TailFits(value: string, n: nat, close: bool) {
    n <= |value| && exists name | name in NAMES :: n <= |Head(close, name)| && HasAt(value, |value| - n, Head(close, name)[..n])
  }

  /** The longest such tail of at most `n` characters. */
  function TailUpTo(value: string, n: nat, close: bool): (r: nat)
    requires n <= |value|
    ensures r <= n
  {
    if n == 0 || TailFits(value, n, close) then n else TailUpTo(value, n - 1, close)
  }

  /** `_partial_tag_tail_length` */
  function TailLength(value: string, close: bool): (r: nat)
    ensures r <= |value|
  {
    TailUpTo(value, |value|, close)
  }

  /** What one call of `feed` shows, and the state it leaves. */
  datatype Fed = Fed(visible: string, buffer: string, inside: bool)

  function Feed(buffer: string, inside: bool, final: bool): Fed
    decreases |buffer|
  {
    var i := Find(buffer, 0, inside);
    if i < |buffer| then
      FindFirst(buffer, 0, inside);
      TagSpan(buffer, i, inside);
      var rest := Feed(buffer[TagEnd(buffer, i)..], !inside, final);
      Fed((if inside then "" else buffer[..i]) + rest.visible, rest.buffer, rest.inside)
    else
      var n := if final then 0 else TailLength(buffer, inside);
      Fed(if inside then "" else buffer[..|buffer| - n], buffer[|buffer| - n..], inside)
  }

  /** Successive calls without `final`. */
  function FeedParts(buffer: string, inside: bool, parts: seq<string>): Fed
    decreases |parts|
  {
    if parts == [] then Fed("", buffer, inside)
    else
      var a := Feed(buffer + parts[0], inside, false);
      var b := FeedParts(a.buffer, a.inside, parts[1..]);
      Fed(a.visible + b.visible, b.buffer, b.inside)
  }

  /** A streamed reply: its pieces, then the flush at [DONE]. */
  function Streamed(parts: seq<string>): string {
    var f := FeedParts("", false, parts);
    f.visible + Feed(f.buffer, f.inside, true).visible
  }

  /** A reply that arrives whole. */
  function Whole(s: string): string {
    Feed(s, false, true).visible
  }

  class ThinkingStripper {
    var buffer: string
    var inside: bool

    constructor ()
      ensures buffer == "" && !inside
    {
      buffer, inside := "", false;
    }

    method Push(text: string, final: bool) returns (visible: string)
      modifies this
      ensures Fed(visible, buffer, inside) == Feed(old(buffer) + text, old(inside), final)
    {
      hide Find, TagEnd, TailLength;
      buffer := buffer + text;
      ghost var goal := Feed(buffer, inside, final);
      visible := "";
      while buffer != ""
        invariant var f := Feed(buffer, inside, final); goal == Fed(visible + f.visible, f.buffer, f.inside)
        decreases |buffer|
      {
        var i := Find(buffer, 0, inside);
        if i < |buffer| {
          FeedMatch(buffer, inside, final);
          var e := TagEnd(buffer, i);
          Assoc(visible, if inside then "" else buffer[..i], Feed(buffer[e..], !inside, final).visible);
          if !inside {
            visible := visible + buffer[..i];
          } else {
            assert visible + "" == visible;
          }
          buffer := buffer[e..];
          inside := !inside;
        } else {
          FeedHold(buffer, inside, final);
          var n := if final then 0 else TailLength(buffer, inside);
          if inside {
            assert visible + "" == visible;
          } else {
            visible := visible + buffer[..|buffer| - n];
          }
          buffer := buffer[|buffer| - n..];
          return;
        }
      }
      FeedNothing(inside, final);
      assert visible + "" == visible;
    }

    /** A whole reply through one stripper. */
    method Relay(parts: seq<string>) returns (shown: string)
      requires buffer == "" && !inside
      modifies this
      ensures shown == Streamed(parts)
    {
      hide Feed;
      shown := "";
      assert parts[0..] == parts;
      for k := 0 to |parts|
        invariant var f := FeedParts(buffer, inside, parts[k..]);
                  FeedParts("", false, parts) == Fed(shown + f.visible, f.buffer, f.inside)
      {
        ghost var before, flag := buffer, inside;
        var v := Push(parts[k], false);
        assert parts[k..][1..] == parts[k + 1..];
        Assoc(shown, v, FeedParts(buffer, inside, parts[k + 1..]).visible);
        shown := shown + v;
      }
      assert parts[|parts|..] == [];
      assert shown + "" == shown && buffer + "" == buffer;
      var last := Push("", true);
      shown := shown + last;
    }
  }

  lemma FeedMatch(buffer: string, inside: bool, final: bool)
    requires Find(buffer, 0, inside) < |buffer|
    ensures var i := Find(buffer, 0, inside); var e := TagEnd(buffer, i);
            && i + 7 <= e <= |buffer|
            && Feed(buffer, inside, final) == (
              var rest := Feed(buffer[e..], !inside, final);
              Fed((if inside then "" else buffer[..i]) + rest.visible, rest.buffer, rest.inside))
  {
    hide TagAt, FirstGt, TailLength;
    FindFirst(buffer, 0, inside);
    TagSpan(buffer, Find(buffer, 0, inside), inside);
  }

  lemma FeedHold(buffer: string, inside: bool, final: bool)
    requires Find(buffer, 0, inside) == |buffer|
    ensures Feed(buffer, inside, final) == (
              var n := if final then 0 else TailLength(buffer, inside);
              Fed(if inside then "" else buffer[..|buffer| - n], buffer[|buffer| - n..], inside))
  {
    hide TagAt, FirstGt, TailLength, Find;
  }

  lemma FeedNothing(inside: bool, final: bool)
    ensures Feed("", inside, final) == Fed("", "", inside)
  {
    EmptyFinds(inside);
    FeedHold("", inside, final);
  }

  lemma EmptyFinds(close: bool)
    ensures Find("", 0, close) == 0
  {
  }

  // ----- the retained tail covers every straddling bare tag -----

  lemma {:induction false} TailLongest(value: string, n: nat, close: bool, m: nat)
    requires m <= n <= |value| && TailFits(value, m, close)
    ensures TailUpTo(value, n, close) >= m
  {
    hide TailFits;
    if m < n && !TailFits(value, n, close) { TailLongest(value, n - 1, close, m); }
  }

  lemma {:induction false} TailIsTail(value: string, n: nat, close: bool)
    requires n <= |value|
    ensures var r := TailUpTo(value, n, close); r == 0 || TailFits(value, r, close)
  {
    hide TailFits;
    if n > 0 && !TailFits(value, n, close) { TailIsTail(value, n - 1, close); }
  }

  /** A bare tag of u + rest that is not complete in u lies in the retained tail. */
  lemma BareRetained(u: string, rest: string, j: nat, close: bool)
    requires j < |u| && BareAt(u + rest, j, close) && TagEnd(u + rest, j) > |u|
    ensures TailLength(u, close) >= |u| - j
  {
    var s := u + rest;
    var name :| name in NAMES && HeadAt(s, j, Head(close, name)) && s[j + |Head(close, name)|] == '>';
    assert TailFits(u, |u| - j, close) by { NameRetained(u, rest, j, close, name); }
    hide TailFits;
    TailLongest(u, |u|, close, |u| - j);
  }

  lemma NameRetained(u: string, rest: string, j: nat, close: bool, name: string)
    requires j < |u| && name in NAMES && TagEnd(u + rest, j) > |u|
    requires HeadAt(u + rest, j, Head(close, name)) && (u + rest)[j + |Head(close, name)|] == '>'
    ensures TailFits(u, |u| - j, close)
  {
    hide FirstGt;
    var h := Head(close, name);
    assert FirstGt(u + rest, j) <= j + |h|;
    PartialHead(u, rest, j, h);
    hide HasAt;
    assert |u| - (|u| - j) == j;
  }

  lemma PartialHead(u: string, rest: string, j: nat, h: string)
    requires j < |u| && |u| - j <= |h| && HasAt(u + rest, j, h)
    ensures HasAt(u, j, h[..|u| - j])
  {
    forall m | j <= m < |u| ensures Fold(u[m]) == h[..|u| - j][m - j] {
      assert (u + rest)[m] == u[m];
      assert Fold((u + rest)[m]) == h[m - j];
    }
  }

  /** The tag at `i` ends with a bare closing tag (possibly itself). */
  ghost predicate EndsBare(s: string, i: nat) {
    i < |s| && exists j | i <= j < |s| :: BareAt(s, j, true) && TagEnd(s, j) == TagEnd(s, i)
  }

  /**
   * What `s` must look like: opening tags the scan consumes carry nothing but
   * their name; closing ones end in a bare closing tag, or end the text.
   */
  ghost predicate Clean(s: string, inside: bool)
    decreases |s|
  {
    var i := Find(s, 0, inside);
    if i < |s| then
      FindFirst(s, 0, inside);
      TagSpan(s, i, inside);
      var e := TagEnd(s, i);
      if inside then e == |s| || (EndsBare(s, i) && Clean(s[e..], false))
      else BareAt(s, i, false) && Clean(s[e..], true)
    else
      true
  }

  lemma CleanMatch(s: string, inside: bool)
    requires Find(s, 0, inside) < |s|
    ensures var i := Find(s, 0, inside); var e := TagEnd(s, i);
            && i + 7 <= e <= |s|
            && Clean(s, inside) == (if inside then e == |s| || (EndsBare(s, i) && Clean(s[e..], false))
                                    else BareAt(s, i, false) && Clean(s[e..], true))
  {
    hide TagAt, FirstGt, EndsBare, BareAt;
    FindFirst(s, 0, inside);
    TagSpan(s, Find(s, 0, inside), inside);
  }

  lemma CleanPlain(s: string, inside: bool)
    requires Find(s, 0, inside) == |s|
    ensures Clean(s, inside)
  {
    hide TagAt, FirstGt, EndsBare, BareAt, Find;
  }

  /** What is visible of `s` when nothing more comes. */
  function Seen(s: string, inside: bool): string {
    Feed(s, inside, true).visible
  }

  lemma SeenMatch(s: string, inside: bool)
    requires Find(s, 0, inside) < |s|
    ensures var i := Find(s, 0, inside); var e := TagEnd(s, i);
            && i + 7 <= e <= |s|
            && Seen(s, inside) == (if inside then "" else s[..i]) + Seen(s[e..], !inside)
  {
    hide Feed, Find, TagEnd;
    FeedMatch(s, inside, true);
  }

  lemma SeenPlain(s: string, inside: bool)
    requires Find(s, 0, inside) == |s|
    ensures Seen(s, inside) == if inside then "" else s
  {
    hide Feed, Find;
    FeedHold(s, inside, true);
    assert s[..|s| - 0] == s;
  }

  /** Two matches, the later one starting before the earlier one ends, end together. */
  lemma SameEnd(s: string, i: nat, j: nat)
    requires Find(s, 0, true) == i < |s| && TagAt(s, j, true)
    requires j < TagEnd(s, i)
    ensures i <= j && TagEnd(s, j) == TagEnd(s, i)
  {
    hide Find, TagAt;
    if j < i { NotBefore(s, j, true); }
    TagSpan2(s, j);
  }

  lemma TagSpan2(s: string, j: nat)
    requires TagAt(s, j, true)
    ensures j < |s|
  {
  }

  /** Being clean is inherited by every beginning of the text. */
  lemma {:induction false} CleanPrefix(u: string, r: string, inside: bool)
    requires Clean(u + r, inside)
    ensures Clean(u, inside)
    decreases |u|
  {
    hide Find, TagEnd, Clean, TagAt, BareAt;
    var s := u + r;
    var i := Find(u, 0, inside);
    if i == |u| {
      CleanPlain(u, inside);
    } else {
      FindGrow(u, r, inside);
      CleanMatch(s, inside);
      CleanMatch(u, inside);
      var e := TagEnd(u, i);
      assert s[e..] == u[e..] + r;
      FindFirst(u, 0, inside);
      if inside && e < |u| {
        EndsBareShrinks(u, r, i);
        CleanPrefix(u[e..], r, !inside);
      } else if !inside {
        BareGrow(u, r, i, false);
        CleanPrefix(u[e..], r, !inside);
      }
    }
  }

  lemma EndsBareShrinks(u: string, r: string, i: nat)
    requires i < |u| && EndsBare(u + r, i) && TagEnd(u + r, i) == TagEnd(u, i) <= |u|
    ensures EndsBare(u, i)
  {
    hide BareAt, FirstGt;
    var s := u + r;
    var j :| i <= j < |s| && BareAt(s, j, true) && TagEnd(s, j) == TagEnd(s, i);
    BareGrow(u, r, j, true);
    GtGrow(u, r, j);
  }

  // ----- text that is not clean can be cut so that the reply changes -----

  /** Two pieces and the flush. */
  function Shown(u: string, w: string, inside: bool): string {
    var f := Feed(u, inside, false);
    var g := Feed(f.buffer + w, f.inside, false);
    f.visible + (g.visible + Feed(g.buffer, g.inside, true).visible)
  }

  /** The first consumed tag already breaks cleanness. */
  ghost predicate Flawed(s: string, inside: bool)
    requires Find(s, 0, inside) < |s|
  {
    var i := Find(s, 0, inside);
    if inside then TagEnd(s, i) != |s| && !EndsBare(s, i) else !BareAt(s, i, false)
  }

  /** End of the first flawed tag. */
  ghost function FlawEnd(s: string, inside: bool): (e: nat)
    requires !Clean(s, inside)
    ensures 7 <= e <= |s|
    decreases |s|
  {
    var i := Find(s, 0, inside);
    FindFirst(s, 0, inside);
    TagSpan(s, i, inside);
    var e := TagEnd(s, i);
    if Flawed(s, inside) then e else e + FlawEnd(s[e..], !inside)
  }

  /** Where to stop listening: after the tag, and one character more if it closes. */
  ghost function FlawStop(s: string, inside: bool): (k: nat)
    requires !Clean(s, inside)
    ensures FlawEnd(s, inside) <= k <= |s|
    decreases |s|
  {
    var i := Find(s, 0, inside);
    FindFirst(s, 0, inside);
    TagSpan(s, i, inside);
    var e := TagEnd(s, i);
    if !Flawed(s, inside) then e + FlawStop(s[e..], !inside)
    else if inside then e + 1 else e
  }

  lemma FlawStep(s: string, inside: bool)
    requires !Clean(s, inside)
    ensures var i := Find(s, 0, inside);
            i < |s| &&
            var e := TagEnd(s, i);
            i + 7 <= e <= |s| &&
            if Flawed(s, inside) then FlawEnd(s, inside) == e && FlawStop(s, inside) == (if inside then e + 1 else e) && (inside ==> e < |s|)
            else !Clean(s[e..], !inside) && FlawEnd(s, inside) == e + FlawEnd(s[e..], !inside)
                 && FlawStop(s, inside) == e + FlawStop(s[e..], !inside)
  {
    hide TagAt, FirstGt, BareAt, EndsBare;
    if Find(s, 0, inside) == |s| { CleanPlain(s, inside); }
    CleanMatch(s, inside);
  }

  lemma {:induction false} FlawShows(s: string, inside: bool)
    requires !Clean(s, inside)
    ensures var e, k := FlawEnd(s, inside), FlawStop(s, inside);
            Shown(s[..e - 1], s[e - 1..k], inside) != Seen(s[..k], inside)
    decreases |s|
  {
    hide Find, TagEnd, TagAt, Clean, Seen, Feed, Flawed, Shown;
    FlawStep(s, inside);
    var i := Find(s, 0, inside);
    var e0 := TagEnd(s, i);
    if Flawed(s, inside) {
      FlawHere(s, inside);
    } else {
      var e, k := FlawEnd(s[e0..], !inside), FlawStop(s[e0..], !inside);
      FlawShows(s[e0..], !inside);
      FlawLater(s, inside, e, k);
    }
  }

  lemma FlawLater(s: string, inside: bool, e: nat, k: nat)
    requires Find(s, 0, inside) < |s|
    requires var e0 := TagEnd(s, Find(s, 0, inside));
             && Find(s, 0, inside) <= e0 <= |s| && 1 <= e <= k <= |s| - e0
             && Shown(s[e0..][..e - 1], s[e0..][e - 1..k], !inside) != Seen(s[e0..][..k], !inside)
    ensures var e0 := TagEnd(s, Find(s, 0, inside));
            Shown(s[..e0 + e - 1], s[e0 + e - 1..e0 + k], inside) != Seen(s[..e0 + k], inside)
  {
    hide Find, TagEnd, TagAt, Seen, Feed, Shown;
    var i := Find(s, 0, inside);
    var e0 := TagEnd(s, i);
    var u, w := s[..e0 + e - 1], s[e0 + e - 1..e0 + k];
    var p := s[..e0 + k];
    assert s == u + s[e0 + e - 1..] && s == p + s[e0 + k..];
    ShortTagSeen(u, s[e0 + e - 1..], inside);
    ShortTagSeen(p, s[e0 + k..], inside);
    FeedMatch(u, inside, false);
    SeenMatch(p, inside);
    assert u[e0..] == s[e0..][..e - 1] && w == s[e0..][e - 1..k] && p[e0..] == s[e0..][..k];
    assert u[..i] == p[..i];
    var pre := if inside then "" else u[..i];
    ShownMatch(u, w, inside, pre, u[e0..]);
    Cancel(pre, Shown(u[e0..], w, !inside), Seen(p[e0..], !inside));
  }

  lemma FlawHere(s: string, inside: bool)
    requires Find(s, 0, inside) < |s| && Flawed(s, inside)
    ensures var e := TagEnd(s, Find(s, 0, inside)); var k := if inside then e + 1 else e;
            && 7 <= e <= k <= |s| && Shown(s[..e - 1], s[e - 1..k], inside) != Seen(s[..k], inside)
  {
    hide Find, TagEnd, TagAt, Seen, Shown, EndsBare, BareAt;
    NotYet(s, inside);
    if inside { CloseFlaw(s); } else { OpenFlaw(s); }
  }

  lemma ShownMatch(u: string, w: string, inside: bool, pre: string, v: string)
    requires var r := Feed(v, !inside, false); Feed(u, inside, false) == Fed(pre + r.visible, r.buffer, r.inside)
    ensures Shown(u, w, inside) == pre + Shown(v, w, !inside)
  {
    hide Feed;
    var r := Feed(v, !inside, false);
    var g := Feed(r.buffer + w, r.inside, false);
    Assoc(pre, r.visible, g.visible + Feed(g.buffer, g.inside, true).visible);
  }

  lemma Cancel(pre: string, a: string, b: string)
    ensures pre + a == pre + b ==> a == b
  {
    assert a == (pre + a)[|pre|..] && b == (pre + b)[|pre|..];
  }

  /** Just before its `>`, a tag is not yet a match. */
  lemma NotYet(s: string, inside: bool)
    requires Find(s, 0, inside) < |s|
    ensures var i := Find(s, 0, inside); var e := TagEnd(s, i); i + 7 <= e <= |s| && Find(s[..e - 1], 0, inside) == e - 1
  {
    hide Find, TagAt, TagEnd;
    var i := Find(s, 0, inside);
    FindFirst(s, 0, inside);
    TagSpan(s, i, inside);
    var e := TagEnd(s, i);
    var u := s[..e - 1];
    assert s == u + s[e - 1..];
    if Find(u, 0, inside) < |u| {
      FindGrow(u, s[e - 1..], inside);
      FindFirst(u, 0, inside);
      TagSpan(u, Find(u, 0, inside), inside);
    }
  }

  /** Cut just before its `>`, an opening tag that has gone past its name leaks. */
  lemma OpenLeaks(s: string)
    requires Find(s, 0, false) < |s| && !BareAt(s, Find(s, 0, false), false)
    ensures var e := TagEnd(s, Find(s, 0, false));
            7 <= e <= |s| && Find(s, 0, false) < |Feed(s[..e - 1], false, false).visible|
  {
    hide Find, TagEnd, TagAt, Feed, TailLength, BareAt;
    var i := Find(s, 0, false);
    NotYet(s, false);
    FindFirst(s, 0, false);
    FeedHold(s[..TagEnd(s, i) - 1], false, false);
    TailMisses(s, i);
  }

  lemma OpenFlaw(s: string)
    requires Find(s, 0, false) < |s| && !BareAt(s, Find(s, 0, false), false)
    ensures var e := TagEnd(s, Find(s, 0, false));
            7 <= e <= |s| && Shown(s[..e - 1], s[e - 1..e], false) != Seen(s[..e], false)
  {
    hide Find, TagEnd, Seen, Feed, BareAt, Shown;
    OpenLeaks(s);
    UpToTag(s);
    var e := TagEnd(s, Find(s, 0, false));
    ShownLonger(s[..e - 1], s[e - 1..e], false);
    assert |Seen(s[..e], false)| == Find(s, 0, false);
  }

  /** Of the text up to its first opening tag, what stands before it is seen. */
  lemma UpToTag(s: string)
    requires Find(s, 0, false) < |s|
    ensures var i := Find(s, 0, false); var e := TagEnd(s, i); i + 7 <= e <= |s| && Seen(s[..e], false) == s[..i]
  {
    hide Find, TagEnd, TagAt, Seen;
    var i := Find(s, 0, false);
    NotYet(s, false);
    var e := TagEnd(s, i);
    var p := s[..e];
    assert s == p + s[e..];
    ShortTagSeen(p, s[e..], false);
    SeenMatch(p, false);
    assert p[e..] == "" && p[..i] == s[..i];
    EmptyFinds(true);
    SeenPlain("", true);
    assert p[..i] + "" == p[..i];
  }

  lemma ShownLonger(u: string, w: string, inside: bool)
    ensures |Shown(u, w, inside)| >= |Feed(u, inside, false).visible|
  {
    hide Feed;
  }

  /** Past its first characters a retained tail is all word characters. */
  lemma TailChars(u: string, n: nat, close: bool)
    requires TailFits(u, n, close)
    ensures forall m | |u| - n < m < |u| :: u[m] != '<' && (!close || |u| - n + 1 < m ==> IsWord(u[m]))
  {
    var name :| name in NAMES && n <= |Head(close, name)| && HasAt(u, |u| - n, Head(close, name)[..n]);
    var h := Head(close, name);
    HeadChars(close, name);
    forall m | |u| - n < m < |u| ensures u[m] != '<' && (!close || |u| - n + 1 < m ==> IsWord(u[m])) {
      assert Fold(u[m]) == h[..n][m - (|u| - n)];
    }
  }

  /** The tail rule lets go of an opening tag that has gone past its name. */
  lemma TailMisses(s: string, i: nat)
    requires TagAt(s, i, false) && !BareAt(s, i, false)
    ensures i + 7 <= TagEnd(s, i) <= |s|
    ensures var u := s[..TagEnd(s, i) - 1]; i + TailLength(u, false) < |u|
  {
    hide TagAt, BareAt, TagEnd, TailFits;
    TagSpan(s, i, false);
    var b := PastName(s, i, false);
    var u := s[..TagEnd(s, i) - 1];
    TailIsTail(u, |u|, false);
    var n := TailLength(u, false);
    if n > 0 {
      TailChars(u, n, false);
      assert u[i] == '<' && !IsWord(u[b]);
    }
  }

  /** The lost closing tag: nothing more is shown. */
  lemma CloseLost(s: string, i: nat)
    requires i == Find(s, 0, true) < |s| && i + 7 <= TagEnd(s, i) < |s| && !EndsBare(s, i)
    ensures var e := TagEnd(s, i); Shown(s[..e - 1], s[e - 1..e + 1], true) == ""
  {
    hide Find, TagEnd, TagAt, Feed, TailLength, EndsBare;
    NotYet(s, true);
    var e := TagEnd(s, i);
    var u, w := s[..e - 1], s[e - 1..e + 1];
    var n := TailLength(u, true);
    FeedHold(u, true, false);
    StillInside(s, i, n);
    TailSlices(s, e, n);
    QuietPart(u[|u| - n..] + w);
  }

  /** Hidden text without a closing tag stays hidden to the end. */
  lemma QuietPart(q: string)
    requires Find(q, 0, true) == |q|
    ensures var g := Feed(q, true, false); g.visible == "" && Feed(g.buffer, g.inside, true).visible == ""
  {
    hide Find, Feed, TailLength;
    FeedHold(q, true, false);
    var g := Feed(q, true, false);
    PartPlain(q, |g.buffer|);
    FeedHold(g.buffer, true, true);
  }

  lemma CloseFlaw(s: string)
    requires Find(s, 0, true) < |s| && TagEnd(s, Find(s, 0, true)) < |s| && !EndsBare(s, Find(s, 0, true))
    ensures var e := TagEnd(s, Find(s, 0, true));
            7 <= e < |s| && Shown(s[..e - 1], s[e - 1..e + 1], true) != Seen(s[..e + 1], true)
  {
    hide Find, TagEnd, TagAt, Seen, Shown, EndsBare;
    var i := Find(s, 0, true);
    NotYet(s, true);
    var e := TagEnd(s, i);
    CloseLost(s, i);
    var p := s[..e + 1];
    assert s == p + s[e + 1..];
    ShortTagSeen(p, s[e + 1..], true);
    SeenMatch(p, true);
    assert p[e..] == [s[e]];
    OneChar(s[e]);
  }

  lemma PartPlain(s: string, n: nat)
    requires Find(s, 0, true) == |s| && n <= |s|
    ensures Find(s[|s| - n..], 0, true) == n
  {
    Cut(s, |s| - n, |s| - n);
    FindDrop(s[..|s| - n], s[|s| - n..], true);
  }

  lemma OneChar(c: char)
    ensures Seen([c], false) == [c]
  {
    hide Find, TagEnd, TagAt, Seen;
    FindFirst([c], 0, false);
    if Find([c], 0, false) == 0 { TagSpan([c], 0, false); }
    SeenPlain([c], false);
  }

  /** Past its first two characters, the front of `q` is all word characters. */
  predicate WordTail(q: string, n: nat) {
    n <= |q| && forall m | 0 < m < n :: q[m] != '<' && (1 < m ==> IsWord(q[m]))
  }

  /** A match inside a retained tail followed by `>` is the whole tail. */
  lemma TailMatch(q: string, n: nat, k: nat)
    requires |q| == n + 2 && q[n] == '>' && TagAt(q, k, true)
    requires WordTail(q, n)
    ensures k == 0 && BareAt(q, 0, true)
  {
    hide HasAt, FirstGt;
    TagSpan(q, k, true);
    var name :| name in NAMES && HeadAt(q, k, Head(true, name));
    HeadChars(true, name);
    HeadBeforeGt(q, k, true, name);
    assert FirstGt(q, k) <= n by { GtBound(q, k, n); }
  }

  lemma GtBound(s: string, i: nat, g: nat)
    requires i <= g < |s| && s[g] == '>'
    ensures FirstGt(s, i) <= g
  {
  }

  lemma BareStays(s: string, a: nat, q: string)
    requires a <= |s| && q <= s[a..] && q != "" && BareAt(q, 0, true)
    ensures BareAt(s, a, true)
  {
    hide BareAt;
    var r := s[a + |q|..];
    assert s[a..] == q + r && s == s[..a] + (q + r);
    BareGrow(q, r, 0, true);
    BareShift(s[..a], q + r, 0, true);
  }

  lemma MatchInTail(s: string, i: nat, n: nat, k: nat)
    requires i == Find(s, 0, true) < |s| && i + 7 <= TagEnd(s, i) < |s|
    requires n <= TagEnd(s, i) - 1 && k < n + 2
    requires WordTail(s[TagEnd(s, i) - 1 - n..TagEnd(s, i) + 1], n)
    ensures TagAt(s[TagEnd(s, i) - 1 - n..TagEnd(s, i) + 1], k, true) ==> EndsBare(s, i)
  {
    hide Find, TagAt, BareAt;
    var e := TagEnd(s, i);
    var q, a := s[e - 1 - n..e + 1], e - 1 - n;
    assert s[e - 1] == '>' by { EndsInGt(s, i); }
    if TagAt(q, k, true) {
      TailMatch(q, n, k);
      assert q <= s[a..];
      BareStays(s, a, q);
      BareIsTag(s, a, true);
      if a < i { NotBefore(s, a, true); }
      SameEnd(s, i, a);
      assert BareAt(s, a, true) && TagEnd(s, a) == TagEnd(s, i);
    }
  }

  lemma EndsInGt(s: string, i: nat)
    requires i < |s| && TagEnd(s, i) <= |s|
    ensures s[TagEnd(s, i) - 1] == '>'
  {
  }

  lemma TailSlices(s: string, e: nat, n: nat)
    requires n < e < |s|
    ensures s[..e - 1][e - 1 - n..] + s[e - 1..e + 1] == s[e - 1 - n..e + 1]
  {
  }

  lemma TailLetters(u: string, w: string, n: nat)
    requires n == TailLength(u, true)
    ensures WordTail(u[|u| - n..] + w, n)
  {
    hide TailFits;
    TailIsTail(u, |u|, true);
    if n > 0 { TailChars(u, n, true); }
    var q := u[|u| - n..] + w;
    forall m | 0 < m < n ensures q[m] != '<' && (1 < m ==> IsWord(q[m])) {
      assert q[m] == u[|u| - n + m];
    }
  }

  /** What the tail rule kept of a closing tag that does not end bare does not close it. */
  lemma StillInside(s: string, i: nat, n: nat)
    requires i == Find(s, 0, true) < |s| && i + 7 <= TagEnd(s, i) < |s| && !EndsBare(s, i)
    requires n == TailLength(s[..TagEnd(s, i) - 1], true)
    ensures var e := TagEnd(s, i); n <= e - 1 && Find(s[e - 1 - n..e + 1], 0, true) == n + 2
  {
    hide Find, TagAt, EndsBare, TailLength, TagEnd, WordTail;
    var e := TagEnd(s, i);
    var q := s[e - 1 - n..e + 1];
    TailSlices(s, e, n);
    var u := s[..e - 1];
    assert q == u[|u| - n..] + s[e - 1..e + 1];
    TailLetters(u, s[e - 1..e + 1], n);
    forall k | 0 <= k < |q| ensures !TagAt(q, k, true) {
      MatchInTail(s, i, n, k);
    }
    FindIs(q, 0, true, |q|);
  }

  lemma SeenIsWhole(s: string)
    ensures Seen(s, false) == Whole(s)
  {
  }
}
