// When a whole Playground reply shows the same however it is cut: the exact
// condition on its text.
module SteadyReplies {
  import opened StreamTypes
  import opened Tags
  import opened Splitter
  import opened BlockWriter
  import opened SplitInvariance
  import opened Stripper

  /** Nothing that is shown follows before the next opening tag. */
  predicate Idle(rest: string) {
    rest == "" || Find(rest, 0, false) == 0
  }

  /**
   * Opening tags the scan consumes are bare. A closing tag ends bare, or ends
   * the text, or an opening tag follows at once.
   */
  ghost predicate Steady(s: string, inside: bool)
    decreases |s|
  {
    var i := Find(s, 0, inside);
    if i < |s| then
      FindFirst(s, 0, inside);
      TagSpan(s, i, inside);
      var rest := s[TagEnd(s, i)..];
      if inside then Steady(rest, false) && (EndsBare(s, i) || Idle(rest))
      else BareAt(s, i, false) && Steady(rest, true)
    else
      true
  }

  lemma SteadyMatch(s: string, inside: bool)
    requires Find(s, 0, inside) < |s|
    ensures var i := Find(s, 0, inside); var e := TagEnd(s, i);
            && i + 7 <= e <= |s|
            && Steady(s, inside) ==
               (if inside then Steady(s[e..], false) && (EndsBare(s, i) || Idle(s[e..]))
                else BareAt(s, i, false) && Steady(s[e..], true))
  {
    hide TagAt, FirstGt, EndsBare, BareAt, Seen;
    FindFirst(s, 0, inside);
    TagSpan(s, Find(s, 0, inside), inside);
  }

  lemma SteadyPlain(s: string, inside: bool)
    requires Find(s, 0, inside) == |s|
    ensures Steady(s, inside)
  {
    hide TagAt, FirstGt, EndsBare, BareAt, Find, Seen;
  }

  // ----- text before the first match -----

  lemma EndsBareShift(p: string, r: string, k: nat)
    ensures EndsBare(p + r, |p| + k) == EndsBare(r, k)
  {
    hide BareAt, TagEnd;
    var s := p + r;
    if EndsBare(s, |p| + k) {
      var j :| |p| + k <= j < |s| && BareAt(s, j, true) && TagEnd(s, j) == TagEnd(s, |p| + k);
      BareShift(p, r, j - |p|, true);
      EndShift(p, r, j - |p|);
      EndShift(p, r, k);
    }
    if EndsBare(r, k) {
      var j :| k <= j < |r| && BareAt(r, j, true) && TagEnd(r, j) == TagEnd(r, k);
      BareShift(p, r, j, true);
      EndShift(p, r, j);
      EndShift(p, r, k);
    }
  }

  lemma EndShift(p: string, r: string, k: nat)
    ensures k < |r| ==> TagEnd(p + r, |p| + k) == |p| + TagEnd(r, k)
  {
    TagShift(p, r, k, true);
  }

  /** Text in front of the first match is shown outside, hidden inside, and changes nothing else. */
  lemma Ahead(p: string, r: string, inside: bool)
    requires |p| <= Find(p + r, 0, inside)
    ensures Seen(p + r, inside) == (if inside then "" else p) + Seen(r, inside)
    ensures Steady(p + r, inside) == Steady(r, inside)
  {
    hide Find, TagEnd, Seen, Steady, BareAt, EndsBare;
    var s := p + r;
    FindDrop(p, r, inside);
    var i, k := Find(s, 0, inside), Find(r, 0, inside);
    if k < |r| {
      SeenMatch(s, inside);
      SeenMatch(r, inside);
      SteadyMatch(s, inside);
      SteadyMatch(r, inside);
      assert s[..i] == p + r[..k] && s[TagEnd(s, i)..] == r[TagEnd(r, k)..];
      Assoc(p, r[..k], Seen(r[TagEnd(r, k)..], true));
      BareShift(p, r, k, false);
      EndsBareShift(p, r, k);
    } else {
      SeenPlain(s, inside);
      SeenPlain(r, inside);
      SteadyPlain(s, inside);
      SteadyPlain(r, inside);
    }
  }

  // ----- reading the same text from inside and from outside -----

  /** A bare tag has no `<` but its own. */
  lemma BareHasOneLt(s: string, i: nat, close: bool)
    requires BareAt(s, i, close)
    ensures i < TagEnd(s, i) <= |s| && s[i] == '<' && forall k | i < k < TagEnd(s, i) :: s[k] != '<'
    ensures i + 1 < |s| && (close <==> s[i + 1] == '/')
  {
    hide HasAt;
    var name := BareName(s, i, close);
    HeadChars(close, name);
    BareLetters(s, i, close, name);
  }

  lemma BareLetters(s: string, i: nat, close: bool, name: string)
    requires name in NAMES && i + |Head(close, name)| < |s| && HeadAt(s, i, Head(close, name)) && s[i + |Head(close, name)|] == '>'
    ensures s[i] == '<' && TagEnd(s, i) == i + |Head(close, name)| + 1
    ensures forall k | i < k < i + |Head(close, name)| :: s[k] != '<'
    ensures close <==> s[i + 1] == '/'
  {
    var h := Head(close, name);
    HeadChars(close, name);
    HeadBeforeGt(s, i, close, name);
    forall k | i <= k < i + |h| ensures Fold(s[k]) == h[k - i] && (i < k ==> s[k] != '<') {
      assert Fold(s[k]) == h[k - i];
    }
    FirstGtIs(s, i, i + |h|);
  }

  /** A tag that starts inside another one ends where that one ends. */
  lemma InnerEnd(s: string, c: nat, o: nat)
    requires c <= o < |s| && o < TagEnd(s, c) <= |s| && s[o] != '>'
    ensures TagEnd(s, o) == TagEnd(s, c)
  {
    FirstGtIs(s, o, TagEnd(s, c) - 1);
  }

  /** A closing tag that ends in a bare opening one does not end in a bare closing one. */
  lemma NotBoth(s: string, c: nat, o: nat)
    requires c <= o < |s| && BareAt(s, o, false) && TagEnd(s, o) == TagEnd(s, c)
    ensures !EndsBare(s, c)
  {
    hide BareAt, TagEnd;
    BareHasOneLt(s, o, false);
    forall j | c <= j < |s| && BareAt(s, j, true) ensures TagEnd(s, j) != TagEnd(s, c) {
      BareHasOneLt(s, j, true);
    }
  }

  lemma ClosingStart(s: string, c: nat)
    requires TagAt(s, c, true)
    ensures c + 1 < |s| && s[c] == '<' && s[c + 1] == '/'
  {
    var name :| name in NAMES && HeadAt(s, c, Head(true, name));
    HeadChars(true, name);
    HeadBeforeGt(s, c, true, name);
    assert Fold(s[c + 1]) == Head(true, name)[1];
  }

  /** With an opening tag at once, reading from inside passes it and shows the same. */
  lemma OpensAtOnce(r: string)
    requires Steady(r, false) && Find(r, 0, false) == 0 < |r|
    ensures Seen(r, true) == Seen(r, false) && Steady(r, true)
  {
    hide Find, TagEnd, Seen, Steady, BareAt, EndsBare, TagAt, Idle;
    SteadyMatch(r, false);
    SeenMatch(r, false);
    BareHasOneLt(r, 0, false);
    var c, g := Find(r, 0, true), TagEnd(r, 0);
    if c < |r| {
      FindFirst(r, 0, true);
      ClosingStart(r, c);
    }
    assert r == r[..g] + r[g..] && r[..0] == "";
    assert g <= c;
    Ahead(r[..g], r[g..], true);
    assert "" + Seen(r[g..], true) == Seen(r[g..], true);
  }

  lemma EmptySteady()
    ensures Steady("", true) && Steady("", false) && Seen("", true) == Seen("", false)
  {
    EmptyFinds(true);
    EmptyFinds(false);
    SteadyPlain("", true);
    SteadyPlain("", false);
    SeenPlain("", true);
    SeenPlain("", false);
  }

  lemma JoinOne(a: string)
    ensures Join([a]) == a
  {
    assert [a][1..] == [] && a + "" == a;
  }

  lemma IdleSame(r: string)
    requires Steady(r, false) && Idle(r)
    ensures Steady(r, true) && Seen(r, true) == Seen(r, false)
  {
    hide Find, Seen, Steady;
    if r == "" { EmptySteady(); } else { OpensAtOnce(r); }
  }

  lemma NotIdle(r: string)
    requires !Idle(r)
    ensures r != "" && Find(r, 0, false) > 0
  {
  }

  /** Read steadily both ways, a text shows no less from outside than from inside; more, unless nothing shown is in front. */
  lemma OutsideShowsMore(r: string)
    requires Steady(r, true) && Steady(r, false)
    ensures |Seen(r, true)| <= |Seen(r, false)| && (!Idle(r) ==> |Seen(r, true)| < |Seen(r, false)|)
  {
    hide Find, TagEnd, Seen, Steady, BareAt, EndsBare, TagAt, Idle;
    var c, o := Find(r, 0, true), Find(r, 0, false);
    if Idle(r) {
      IdleSame(r);
    } else {
      NotIdle(r);
      if c == |r| {
        SeenPlain(r, true);
        if o == |r| { SeenPlain(r, false); } else { SeenMatch(r, false); }
      } else {
        ClosedEarlier(r, c, o);
      }
    }
  }

  lemma ClosedEarlier(r: string, c: nat, o: nat)
    requires Steady(r, true) && Steady(r, false)
    requires c == Find(r, 0, true) < |r| && 0 < o == Find(r, 0, false)
    ensures |Seen(r, true)| < |Seen(r, false)|
  {
    hide Find, TagEnd, Seen, Steady, BareAt, EndsBare, TagAt, Idle;
    SeenMatch(r, true);
    SteadyMatch(r, true);
    FindFirst(r, 0, true);
    ClosingStart(r, c);
    var f := TagEnd(r, c);
    if o >= f {
      assert r == r[..f] + r[f..];
      Ahead(r[..f], r[f..], false);
    } else {
      SeenMatch(r, false);
      SteadyMatch(r, false);
      BareHasOneLt(r, o, false);
      var g := TagEnd(r, o);
      if o < c {
        assert r == r[..g] + r[g..];
        Ahead(r[..g], r[g..], true);
      } else {
        InnerEnd(r, c, o);
        NotBoth(r, c, o);
        IdleSame(r[f..]);
      }
    }
  }

  /**
   * Losing a closing tag is harmless -- what follows reads steadily and alike
   * from inside and from outside -- exactly when it ends the text or an
   * opening tag follows at once.
   */
  lemma LostCloseExactly(r: string)
    requires Steady(r, false)
    ensures Steady(r, true) && Seen(r, true) == Seen(r, false) <==> Idle(r)
  {
    hide Find, Seen, Steady, Idle;
    if Idle(r) { IdleSame(r); }
    if Steady(r, true) { OutsideShowsMore(r); }
  }

  // ----- steady text shows the same however it is cut -----

  lemma OutsideSteady(x: string, y: string, rest: string)
    requires Find(x + y, 0, false) == |x + y| && |y| == TailLength(x + y, false)
    requires Steady((x + y) + rest, false)
    ensures Seen((x + y) + rest, false) == x + Seen(y + rest, false)
    ensures Steady(y + rest, false)
  {
    hide Find, TagEnd, Steady, Seen, BareAt, TailLength;
    var s := (x + y) + rest;
    Assoc(x, y, rest);
    var i := Find(s, 0, false);
    if i < |s| {
      SteadyMatch(s, false);
      LateMatch(x + y, rest, false);
      if i < |x + y| { BareRetained(x + y, rest, i, false); }
    }
    Ahead(x, y + rest, false);
  }

  /** A bare closing tag that ends in `rest` lies beyond what was let go. */
  lemma BareBeyond(x: string, y: string, rest: string, i: nat)
    requires |y| == TailLength(x + y, true)
    requires i < |(x + y) + rest| && |x + y| < TagEnd((x + y) + rest, i) && EndsBare((x + y) + rest, i)
    ensures exists j | i <= j < |(x + y) + rest| ::
              |x| <= j && BareAt((x + y) + rest, j, true) && TagEnd((x + y) + rest, j) == TagEnd((x + y) + rest, i)
  {
    hide BareAt, TagEnd, TailLength;
    var s := (x + y) + rest;
    var j :| i <= j < |s| && BareAt(s, j, true) && TagEnd(s, j) == TagEnd(s, i);
    if j < |x + y| { BareRetained(x + y, rest, j, true); }
  }

  lemma InsideSteady(x: string, y: string, rest: string)
    requires Find(x + y, 0, true) == |x + y| && |y| == TailLength(x + y, true)
    requires Steady((x + y) + rest, true)
    ensures Seen((x + y) + rest, true) == Seen(y + rest, true)
    ensures Steady(y + rest, true)
  {
    hide Find, TagEnd, Steady, Seen, EndsBare, TailLength, TagAt, BareAt;
    var s, t := (x + y) + rest, y + rest;
    Assoc(x, y, rest);
    var i := Find(s, 0, true);
    if i == |s| {
      Ahead(x, t, true);
    } else {
      SteadyMatch(s, true);
      SeenMatch(s, true);
      LateMatch(x + y, rest, true);
      var e := TagEnd(s, i);
      var k := Find(t, 0, true);
      if k < e - |x| {
        SameClose(x, t, i);
        SeenMatch(t, true);
        SteadyMatch(t, true);
        assert t[TagEnd(t, k)..] == s[e..];
        if EndsBare(s, i) { BareStaysLast(x, y, rest, i, k); }
      } else {
        NoBareLost(x, y, rest, i);
        IdleSame(s[e..]);
        var p := t[..e - |x|];
        assert t == p + s[e..];
        Ahead(p, s[e..], true);
      }
    }
  }

  /** The first closing tag of the remainder, if it starts early enough, ends where the first of the whole ends. */
  lemma SameClose(x: string, t: string, i: nat)
    requires i == Find(x + t, 0, true) < |x + t| && |x| + Find(t, 0, true) < TagEnd(x + t, i) <= |x + t|
    ensures var k := Find(t, 0, true); k < |t| && |x| + TagEnd(t, k) == TagEnd(x + t, i) && i <= |x| + k
  {
    hide Find, TagEnd, TagAt;
    var k := Find(t, 0, true);
    FindFirst(t, 0, true);
    TagShift(x, t, k, true);
    SameEnd(x + t, i, |x| + k);
  }

  lemma BareStaysLast(x: string, y: string, rest: string, i: nat, k: nat)
    requires var s, t := (x + y) + rest, y + rest;
             && i == Find(s, 0, true) < |s| && k == Find(t, 0, true) < |t| && |x| + TagEnd(t, k) == TagEnd(s, i)
             && |x + y| < TagEnd(s, i) && EndsBare(s, i)
    requires |y| == TailLength(x + y, true)
    ensures EndsBare(y + rest, k)
  {
    hide Find, TagEnd, TagAt, BareAt, TailLength;
    var s, t := (x + y) + rest, y + rest;
    Assoc(x, y, rest);
    BareBeyond(x, y, rest, i);
    var j :| i <= j < |s| && |x| <= j && BareAt(s, j, true) && TagEnd(s, j) == TagEnd(s, i);
    BareShift(x, t, j - |x|, true);
    EndShift(x, t, j - |x|);
    BareIsTag(t, j - |x|, true);
    if j - |x| < k { NotBefore(t, j - |x|, true); }
  }

  lemma NoBareLost(x: string, y: string, rest: string, i: nat)
    requires var s, t := (x + y) + rest, y + rest;
             i == Find(s, 0, true) < |s| && |x + y| < TagEnd(s, i) <= |s| && TagEnd(s, i) - |x| <= Find(t, 0, true)
    requires |y| == TailLength(x + y, true)
    ensures !EndsBare((x + y) + rest, i)
  {
    hide Find, TagEnd, TagAt, BareAt, TailLength;
    var s, t := (x + y) + rest, y + rest;
    Assoc(x, y, rest);
    if EndsBare(s, i) {
      BareBeyond(x, y, rest, i);
      var j :| i <= j < |s| && |x| <= j && BareAt(s, j, true) && TagEnd(s, j) == TagEnd(s, i);
      BareIsTag(s, j, true);
      TagSpan(s, j, true);
      TagShift(x, t, j - |x|, true);
      NotBefore(t, j - |x|, true);
    }
  }

  lemma {:induction false} FeedSteady(u: string, rest: string, inside: bool)
    requires Steady(u + rest, inside)
    ensures var f := Feed(u, inside, false);
            && Seen(u + rest, inside) == f.visible + Seen(f.buffer + rest, f.inside)
            && Steady(f.buffer + rest, f.inside)
    decreases |u|
  {
    hide Find, TagEnd, Steady, Seen, Feed, EndsBare, BareAt, TailLength;
    var i := Find(u, 0, inside);
    if i < |u| {
      var s := u + rest;
      FeedMatch(u, inside, false);
      FindGrow(u, rest, inside);
      SteadyMatch(s, inside);
      SeenMatch(s, inside);
      var e := TagEnd(u, i);
      assert s[..i] == u[..i] && s[e..] == u[e..] + rest;
      var f := Feed(u[e..], !inside, false);
      FeedSteady(u[e..], rest, !inside);
      Assoc(if inside then "" else u[..i], f.visible, Seen(f.buffer + rest, f.inside));
    } else {
      FeedHold(u, inside, false);
      var n := TailLength(u, inside);
      Cut(u, |u| - n, |u| - n);
      var x, y := u[..|u| - n], u[|u| - n..];
      if inside {
        InsideSteady(x, y, rest);
        assert "" + Seen(y + rest, true) == Seen(y + rest, true);
      } else {
        OutsideSteady(x, y, rest);
      }
    }
  }

  /** What pieces show, the flush included, from either mode. */
  function StreamFrom(buffer: string, inside: bool, parts: seq<string>): string {
    var f := FeedParts(buffer, inside, parts);
    f.visible + Seen(f.buffer, f.inside)
  }

  lemma StreamCons(buffer: string, inside: bool, part: string, parts: seq<string>)
    ensures var a := Feed(buffer + part, inside, false);
            StreamFrom(buffer, inside, [part] + parts) == a.visible + StreamFrom(a.buffer, a.inside, parts)
  {
    hide Feed, Seen;
    assert ([part] + parts)[1..] == parts;
    var a := Feed(buffer + part, inside, false);
    var b := FeedParts(a.buffer, a.inside, parts);
    Assoc(a.visible, b.visible, Seen(b.buffer, b.inside));
  }

  lemma {:induction false} PartsSteady(buffer: string, inside: bool, parts: seq<string>)
    requires Steady(buffer + Join(parts), inside)
    ensures StreamFrom(buffer, inside, parts) == Seen(buffer + Join(parts), inside)
    decreases |parts|
  {
    hide Steady, Seen, Feed;
    if parts == [] {
      assert buffer + "" == buffer && "" + Seen(buffer, inside) == Seen(buffer, inside);
    } else {
      Assoc(buffer, parts[0], Join(parts[1..]));
      FeedSteady(buffer + parts[0], Join(parts[1..]), inside);
      var a := Feed(buffer + parts[0], inside, false);
      PartsSteady(a.buffer, a.inside, parts[1..]);
      assert parts == [parts[0]] + parts[1..];
      StreamCons(buffer, inside, parts[0], parts[1..]);
    }
  }

  // ----- text that is not steady can be cut so that the reply changes -----

  /** One piece and the flush show what the whole shows. */
  lemma {:induction false} OneShot(s: string, inside: bool)
    ensures StreamFrom("", inside, [s]) == Seen(s, inside)
    decreases |s|
  {
    hide Find, TagEnd, Feed, Seen, TailLength;
    StreamCons("", inside, s, []);
    assert [s] + [] == [s] && "" + s == s;
    FedThenFlushed(s, inside);
    var f := Feed(s, inside, false);
    assert "" + Seen(f.buffer, f.inside) == Seen(f.buffer, f.inside);
  }

  lemma {:induction false} FedThenFlushed(s: string, inside: bool)
    ensures var f := Feed(s, inside, false); f.visible + Seen(f.buffer, f.inside) == Seen(s, inside)
    decreases |s|
  {
    hide Find, TagEnd, Feed, Seen, TailLength;
    var i := Find(s, 0, inside);
    if i < |s| {
      FeedMatch(s, inside, false);
      SeenMatch(s, inside);
      var rest := s[TagEnd(s, i)..];
      FedThenFlushed(rest, !inside);
      var f := Feed(rest, !inside, false);
      Assoc(if inside then "" else s[..i], f.visible, Seen(f.buffer, f.inside));
    } else {
      FeedHold(s, inside, false);
      var n := TailLength(s, inside);
      var x, y := s[..|s| - n], s[|s| - n..];
      assert s == x + y;
      FindDrop(x, y, inside);
      SeenPlain(s, inside);
      SeenPlain(y, inside);
    }
  }

  /** After a piece that ends with the first tag, the stream goes on in the other mode. */
  lemma TagPiece(s: string, inside: bool, parts: seq<string>)
    requires Find(s, 0, inside) < |s|
    ensures var i := Find(s, 0, inside); var e := TagEnd(s, i);
            && i + 7 <= e <= |s|
            && StreamFrom("", inside, [s[..e]] + parts) == (if inside then "" else s[..i]) + StreamFrom("", !inside, parts)
  {
    hide Find, TagEnd, Feed, StreamFrom;
    NotYet(s, inside);
    var i := Find(s, 0, inside);
    var e := TagEnd(s, i);
    var p := s[..e];
    assert s == p + s[e..];
    ShortTagSeen(p, s[e..], inside);
    FeedMatch(p, inside, false);
    assert p[e..] == "" && p[..i] == s[..i] && "" + p == p;
    FeedNothing(!inside, false);
    StreamCons("", inside, p, parts);
    assert (if inside then "" else s[..i]) + "" == if inside then "" else s[..i];
  }

  /** Nothing that ends with `>` begins a tag. */
  lemma NoTail(v: string, close: bool)
    ensures TailLength(v + ">", close) == 0
  {
    hide HasAt;
    TailIsTail(v + ">", |v + ">"|, close);
    var n := TailLength(v + ">", close);
    if n > 0 { TailHasNoGt(v + ">", n, close); }
  }

  lemma TailHasNoGt(u: string, n: nat, close: bool)
    requires 0 < n && TailFits(u, n, close)
    ensures n <= |u| && u[|u| - 1] != '>'
  {
    var name :| name in NAMES && n <= |Head(close, name)| && HasAt(u, |u| - n, Head(close, name)[..n]);
    HeadChars(close, name);
    assert Fold(u[|u| - 1]) == Head(close, name)[..n][n - 1];
  }

  /** A piece that completes no tag shows all but the tail it leaves. */
  lemma HeldPiece(buffer: string, inside: bool, part: string, parts: seq<string>)
    requires Find(buffer + part, 0, inside) == |buffer + part|
    ensures var v := buffer + part; var n := TailLength(v, inside);
            StreamFrom(buffer, inside, [part] + parts) ==
              (if inside then "" else v[..|v| - n]) + StreamFrom(v[|v| - n..], inside, parts)
  {
    hide Find, Feed, StreamFrom, TailLength;
    FeedHold(buffer + part, inside, false);
    StreamCons(buffer, inside, part, parts);
  }

  /** A piece `>` that completes no tag leaves nothing. */
  lemma HeldGt(buffer: string, inside: bool, parts: seq<string>)
    requires Find(buffer + ">", 0, inside) == |buffer + ">"|
    ensures StreamFrom(buffer, inside, [">"] + parts) == (if inside then "" else buffer + ">") + StreamFrom("", inside, parts)
  {
    hide Find, StreamFrom, TailLength;
    NoTail(buffer, inside);
    HeldPiece(buffer, inside, ">", parts);
    var v := buffer + ">";
    assert v[|v|..] == "" && v[..|v|] == v;
  }

  /** A piece up to just before `>`, then `>`: what is left of the second piece if it holds no tag. */
  lemma TwoPieces(u: string, inside: bool, parts: seq<string>)
    requires Find(u, 0, inside) == |u|
    requires var y := u[|u| - TailLength(u, inside)..]; Find(y + ">", 0, inside) == |y + ">"|
    ensures StreamFrom("", inside, [u, ">"] + parts) == (if inside then "" else u + ">") + StreamFrom("", inside, parts)
  {
    hide Find, StreamFrom, TailLength;
    var n := TailLength(u, inside);
    var x, y, rest := u[..|u| - n], u[|u| - n..], StreamFrom("", inside, parts);
    HeldFirst(u, inside, [">"] + parts);
    HeldGt(y, inside, parts);
    PieceList(u, parts);
    Assoc(if inside then "" else x, if inside then "" else y + ">", rest);
    SplitGt(x, y, u);
  }

  /** A first piece that completes no tag. */
  lemma HeldFirst(u: string, inside: bool, parts: seq<string>)
    requires Find(u, 0, inside) == |u|
    ensures var n := TailLength(u, inside);
            StreamFrom("", inside, [u] + parts) == (if inside then "" else u[..|u| - n]) + StreamFrom(u[|u| - n..], inside, parts)
  {
    hide Find, StreamFrom, TailLength;
    assert "" + u == u;
    HeldPiece("", inside, u, parts);
  }

  lemma PieceList(u: string, parts: seq<string>)
    ensures [u, ">"] + parts == [u] + ([">"] + parts)
  {
  }

  lemma SplitGt(x: string, y: string, u: string)
    requires x + y == u
    ensures x + (y + ">") == u + ">" && "" + "" == ""
  {
    Assoc(x, y, ">");
  }

  lemma CutSlices(s: string, e: nat, n: nat)
    requires n < e < |s| && s[e - 1] == '>'
    ensures var u := s[..e - 1];
            && s[e - 1 - n..e + 1] == ("" + (u[|u| - n..] + ">")) + [s[e]]
            && u[|u| - n..] + ">" == "" + (u[|u| - n..] + ">") && s == (u + ">") + s[e..]
  {
    var u := s[..e - 1];
    assert s[e - 1 - n..e + 1] == u[|u| - n..] + ['>'] + [s[e]];
  }

  /** Cut there, a closing tag that does not end bare is lost. */
  lemma CloseCut(s: string, parts: seq<string>)
    requires Find(s, 0, true) < |s| && TagEnd(s, Find(s, 0, true)) < |s| && !EndsBare(s, Find(s, 0, true))
    ensures var e := TagEnd(s, Find(s, 0, true));
            && 7 <= e && StreamFrom("", true, [s[..e - 1], ">"] + parts) == StreamFrom("", true, parts)
            && s == (s[..e - 1] + ">") + s[e..]
  {
    hide Find, TagEnd, StreamFrom, TailLength, EndsBare;
    NotYet(s, true);
    var i := Find(s, 0, true);
    var e := TagEnd(s, i);
    var u := s[..e - 1];
    var n := TailLength(u, true);
    StillInside(s, i, n);
    EndsInGt(s, i);
    CutSlices(s, e, n);
    NoTagInside("", u[|u| - n..] + ">", [s[e]], true);
    TwoPieces(u, true, parts);
    assert "" + StreamFrom("", true, parts) == StreamFrom("", true, parts);
  }

  /** Where an opening tag that is not bare is cut. */
  lemma OpenShape(s: string)
    requires Find(s, 0, false) < |s| && !BareAt(s, Find(s, 0, false), false)
    ensures var i := Find(s, 0, false); var e := TagEnd(s, i);
            && i + 7 <= e <= |s|
            && var u := s[..e - 1];
               Find(u, 0, false) == |u| && i + TailLength(u, false) < |u| && s == (u + ">") + s[e..] && s[..e] == u + ">"
  {
    hide Find, TagEnd, TailLength, BareAt;
    NotYet(s, false);
    var i := Find(s, 0, false);
    FindFirst(s, 0, false);
    TailMisses(s, i);
    OpenEndsInGt(s, i);
  }

  lemma OpenEndsInGt(s: string, i: nat)
    requires i < |s| && TagEnd(s, i) <= |s|
    ensures s[TagEnd(s, i) - 1] == '>'
  {
  }

  /** The tail kept of `u`, with `>`, is an opening tag. */
  predicate KeptIsTag(u: string) {
    var v := u[|u| - TailLength(u, false)..] + ">";
    Find(v, 0, false) < |v|
  }

  /** If the kept tail and `>` are a tag, the stream is inside afterwards. */
  lemma LeakedPart(u: string, parts: seq<string>) returns (w: string)
    requires Find(u, 0, false) == |u| && KeptIsTag(u)
    ensures |w| >= |u| - TailLength(u, false)
    ensures StreamFrom("", false, [u, ">"] + parts) == w + StreamFrom("", true, parts)
  {
    hide Find, Feed, StreamFrom, TailLength, TagEnd;
    var n := TailLength(u, false);
    var x, y := u[..|u| - n], u[|u| - n..];
    var v := y + ">";
    assert "" + u == u && x + y == u;
    FeedHold(u, false, false);
    StreamCons("", false, u, [">"] + parts);
    assert [u, ">"] + parts == [u] + ([">"] + parts);
    var k := Find(v, 0, false);
    FindDrop(x, y, false);
    KeptTagEnds(y, k);
    FeedMatch(v, false, false);
    assert v[TagEnd(v, k)..] == "";
    FeedNothing(true, false);
    StreamCons(y, false, ">", parts);
    assert v[..k] + "" == v[..k];
    w := x + v[..k];
    Assoc(x, v[..k], StreamFrom("", true, parts));
  }

  /** A match in text without an earlier `>` ends at its end. */
  lemma KeptTagEnds(y: string, k: nat)
    requires k == Find(y + ">", 0, false) < |y + ">"| && Find(y, 0, false) == |y|
    ensures TagEnd(y + ">", k) == |y + ">"|
  {
    hide Find, TagEnd;
    FindFirst(y + ">", 0, false);
    TagSpan(y + ">", k, false);
    LateMatch(y, ">", false);
  }

  // ----- the whole reply -----

  lemma JoinCons(a: string, parts: seq<string>)
    ensures Join([a] + parts) == a + Join(parts)
  {
    assert ([a] + parts)[1..] == parts;
  }

  /** Pieces that do not show what the text shows at once. */
  lemma {:induction false} Unsteady(s: string, inside: bool) returns (parts: seq<string>)
    requires !Steady(s, inside)
    ensures Join(parts) == s && StreamFrom("", inside, parts) != Seen(s, inside)
    decreases |s|
  {
    hide Find, TagEnd, Seen, Steady, BareAt, EndsBare, StreamFrom, Join;
    var i := Find(s, 0, inside);
    if i == |s| { SteadyPlain(s, inside); }
    SteadyMatch(s, inside);
    SeenMatch(s, inside);
    var e := TagEnd(s, i);
    var rest := s[e..];
    if !Steady(rest, !inside) {
      var p := Unsteady(rest, !inside);
      parts := [s[..e]] + p;
      TagPiece(s, inside, p);
      JoinCons(s[..e], p);
      assert s[..e] + rest == s;
      Cancel(if inside then "" else s[..i], StreamFrom("", !inside, p), Seen(rest, !inside));
    } else if inside {
      parts := UnsteadyClose(s);
    } else {
      parts := UnsteadyOpen(s);
    }
  }

  lemma JoinTwo(u: string, parts: seq<string>)
    ensures Join([u, ">"] + parts) == (u + ">") + Join(parts)
  {
    hide Join;
    assert [u, ">"] + parts == [u] + ([">"] + parts);
    JoinCons(">", parts);
    JoinCons(u, [">"] + parts);
    Assoc(u, ">", Join(parts));
  }

  lemma UnsteadyClose(s: string) returns (parts: seq<string>)
    requires Find(s, 0, true) < |s| && Find(s, 0, true) + 7 <= TagEnd(s, Find(s, 0, true)) <= |s|
    requires var i := Find(s, 0, true); var rest := s[TagEnd(s, i)..];
             !EndsBare(s, i) && Steady(rest, false) && !Idle(rest)
    ensures Join(parts) == s && StreamFrom("", true, parts) != Seen(s, true)
    decreases |s|, 0
  {
    hide Find, TagEnd, Seen, Steady, EndsBare, StreamFrom, Join;
    var e := TagEnd(s, Find(s, 0, true));
    var rest := s[e..];
    SeenMatch(s, true);
    LostCloseExactly(rest);
    var p := [rest];
    if Seen(rest, true) == Seen(rest, false) {
      p := Unsteady(rest, true);
    } else {
      OneShot(rest, true);
      JoinOne(rest);
    }
    CloseCut(s, p);
    JoinTwo(s[..e - 1], p);
    parts := [s[..e - 1], ">"] + p;
  }

  lemma UnsteadyOpen(s: string) returns (parts: seq<string>)
    requires Find(s, 0, false) < |s| && Find(s, 0, false) + 7 <= TagEnd(s, Find(s, 0, false)) <= |s|
    requires var i := Find(s, 0, false); !BareAt(s, i, false) && Steady(s[TagEnd(s, i)..], true)
    ensures Join(parts) == s && StreamFrom("", false, parts) != Seen(s, false)
    decreases |s|, 0
  {
    hide Find, TagEnd, Seen, Steady, BareAt, StreamFrom, Join, KeptIsTag, TailLength;
    var i := Find(s, 0, false);
    var e := TagEnd(s, i);
    var u, rest := s[..e - 1], s[e..];
    OpenShape(s);
    SeenMatch(s, false);
    var once := [u, ">"] + [rest];
    JoinTwo(u, [rest]);
    JoinOne(rest);
    if KeptIsTag(u) {
      var w := LeakedPart(u, [rest]);
      OneShot(rest, true);
      parts := once;
    } else {
      NotKept(u, [rest]);
      OneShot(rest, false);
      if Steady(rest, false) {
        OutsideShowsMore(rest);
        parts := once;
      } else {
        var p := Unsteady(rest, false);
        NotKept(u, p);
        JoinTwo(u, p);
        Cancel(u + ">", StreamFrom("", false, p), Seen(rest, false));
        parts := if StreamFrom("", false, once) != Seen(s, false) then once else [u, ">"] + p;
      }
    }
  }

  lemma NotKept(u: string, parts: seq<string>)
    requires Find(u, 0, false) == |u| && !KeptIsTag(u)
    ensures StreamFrom("", false, [u, ">"] + parts) == (u + ">") + StreamFrom("", false, parts)
  {
    hide Find, StreamFrom, TailLength;
    TwoPieces(u, false, parts);
  }

  /** However the whole reply is cut, streaming it shows what it shows at once. */
  ghost predicate AnyCut(s: string) {
    forall parts: seq<string> | Join(parts) == s :: Streamed(parts) == Whole(s)
  }

  lemma StreamedIs(parts: seq<string>)
    ensures Streamed(parts) == StreamFrom("", false, parts)
  {
    hide Feed, FeedParts;
  }

  /** A whole reply shows the same for every cut exactly when its text is steady. */
  lemma AnyCutExactly(s: string)
    ensures AnyCut(s) <==> Steady(s, false)
  {
    hide Steady, Seen, StreamFrom, Streamed, Whole, Join;
    SeenIsWhole(s);
    if Steady(s, false) {
      forall parts: seq<string> | Join(parts) == s ensures Streamed(parts) == Whole(s) {
        assert "" + Join(parts) == s;
        PartsSteady("", false, parts);
        StreamedIs(parts);
      }
    } else {
      var parts := Unsteady(s, false);
      StreamedIs(parts);
    }
  }

  // ----- every moment of the reply -----

  /** Clean text is steady. */
  lemma {:induction false} CleanIsSteady(s: string, inside: bool)
    requires Clean(s, inside)
    ensures Steady(s, inside)
    decreases |s|
  {
    hide Find, TagEnd, Clean, Steady, Seen, EndsBare, BareAt;
    var i := Find(s, 0, inside);
    if i == |s| {
      SteadyPlain(s, inside);
    } else {
      CleanMatch(s, inside);
      SteadyMatch(s, inside);
      var rest := s[TagEnd(s, i)..];
      if rest == "" {
        EmptySteady();
      } else {
        CleanIsSteady(rest, !inside);
      }
    }
  }

  /** Clean text shows the same however it is cut. */
  lemma CleanStreamed(parts: seq<string>)
    requires Clean(Join(parts), false)
    ensures Streamed(parts) == Whole(Join(parts))
  {
    hide Clean, Steady, Streamed, Whole;
    CleanIsSteady(Join(parts), false);
    AnyCutExactly(Join(parts));
  }

  /** Wherever a reply is broken off, streaming it shows what the part received so far shows when it arrives whole. */
  ghost predicate CutProof(s: string) {
    forall k, parts: seq<string> | 0 <= k <= |s| && Join(parts) == s[..k] :: Streamed(parts) == Whole(s[..k])
  }

  lemma TwoParts(u: string, w: string)
    ensures Streamed([u, w]) == Shown(u, w, false) && Join([u, w]) == u + w
  {
    hide Feed;
    assert [u, w][1..] == [w] && [w][1..] == [];
    assert "" + u == u && w + "" == w;
    var f := Feed(u, false, false);
    var g := Feed(f.buffer + w, f.inside, false);
    assert FeedParts(f.buffer, f.inside, [w]) == Fed(g.visible + "", g.buffer, g.inside);
    assert g.visible + "" == g.visible && g.buffer + "" == g.buffer;
    Assoc(f.visible, g.visible, Feed(g.buffer, g.inside, true).visible);
    assert Join([w]) == w + Join([w][1..]);
  }

  /**
   * The stripper's output is independent of how the reply is cut, at every
   * moment of the stream, exactly when the reply is clean.
   */
  lemma CutProofExactly(s: string)
    ensures CutProof(s) <==> Clean(s, false)
  {
    hide Clean, Streamed, Whole, Join, FlawEnd, FlawStop, Shown, Seen;
    if Clean(s, false) {
      forall k, parts: seq<string> | 0 <= k <= |s| && Join(parts) == s[..k] ensures Streamed(parts) == Whole(s[..k]) {
        assert s == s[..k] + s[k..];
        CleanPrefix(s[..k], s[k..], false);
        CleanStreamed(parts);
      }
    } else {
      var e, k := FlawEnd(s, false), FlawStop(s, false);
      FlawShows(s, false);
      TwoParts(s[..e - 1], s[e - 1..k]);
      assert s[..e - 1] + s[e - 1..k] == s[..k];
      SeenIsWhole(s[..k]);
      assert Join([s[..e - 1], s[e - 1..k]]) == s[..k];
      assert Streamed([s[..e - 1], s[e - 1..k]]) != Whole(s[..k]);
    }
  }
}
