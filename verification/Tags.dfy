// The reasoning-tag matcher shared by the streaming translator and the
// Playground stripper:
//
//   <(think|thinking|thought|thoughts|thinking_process)\b[^>]*>      opening
//   </(think|thinking|thought|thoughts|thinking_process)\b[^>]*>     closing
//
// searched case-insensitively, leftmost first.
module Tags {

  const NAMES: set<string> := {"think", "thinking", "thought", "thoughts", "thinking_process"}

  /** Case folding of the matcher, on ASCII letters. */
  function Fold(c: char): char {
    if 'A' <= c <= 'Z' then (c as int + 32) as char else c
  }

  /** The word characters of `\b`, on ASCII. */
  predicate IsWord(c: char) {
    'a' <= c <= 'z' || 'A' <= c <= 'Z' || '0' <= c <= '9' || c == '_'
  }

  /** `<name` or `</name`: what a tag starts with. */
  function Head(close: bool, name: string): string {
    (if close then "</" else "<") + name
  }

  /** `head` stands at position `i` of `s`, up to letter case. */
  predicate HasAt(s: string, i: nat, head: string) {
    i + |head| <= |s| && forall m | i <= m < i + |head| :: Fold(s[m]) == head[m - i]
  }

  /** `head` stands at `i` and the next character ends the word. */
  predicate HeadAt(s: string, i: nat, head: string) {
    HasAt(s, i, head) && i + |head| < |s| && !IsWord(s[i + |head|])
  }

  /** Position of the first `>` at or after `i`, or |s|. */
  function FirstGt(s: string, i: nat): (r: nat)
    requires i <= |s|
    ensures i <= r <= |s|
    ensures r < |s| ==> s[r] == '>'
    ensures forall k | i <= k < r :: s[k] != '>'
    decreases |s| - i
  {
    if i == |s| || s[i] == '>' then i else FirstGt(s, i + 1)
  }

  /** The pattern matches at position `i`. */
  predicate TagAt(s: string, i: nat, close: bool) {
    && i < |s|
    && (exists name | name in NAMES :: HeadAt(s, i, Head(close, name)))
    && FirstGt(s, i) < |s|
  }

  /** End of the match at `i`. */
  function TagEnd(s: string, i: nat): nat
    requires i < |s|
  {
    FirstGt(s, i) + 1
  }

  /** `re.search` from position `k`: leftmost match, or |s| if there is none. */
  function Find(s: string, k: nat, close: bool): (r: nat)
    requires k <= |s|
    ensures k <= r <= |s|
    decreases |s| - k
  {
    if k == |s| || TagAt(s, k, close) then k else Find(s, k + 1, close)
  }

  lemma {:induction false} FindFirst(s: string, k: nat, close: bool)
    requires k <= |s|
    ensures var r := Find(s, k, close);
            (r < |s| ==> TagAt(s, r, close)) && forall j | k <= j < r :: !TagAt(s, j, close)
    decreases |s| - k
  {
    hide TagAt;
    if k < |s| && !TagAt(s, k, close) {
      FindFirst(s, k + 1, close);
    }
  }

  /** A tag without attributes: `<name>` or `</name>`. */
  predicate BareAt(s: string, i: nat, close: bool) {
    exists name | name in NAMES :: HeadAt(s, i, Head(close, name)) && s[i + |Head(close, name)|] == '>'
  }

  // ----- what a match is, character by character -----

  /** `c` is the lower-case letter `l` or its capital, or the same character. */
  predicate SameLetter(c: char, l: char) {
    c == l || ('a' <= l <= 'z' && c as int + 32 == l as int)
  }

  /** A letter of either case, a digit or `_`. */
  predicate WordLike(c: char) {
    c == '_' || '0' <= c <= '9' || 'a' <= c <= 'z' || 'a' as int <= c as int + 32 <= 'z' as int
  }

  /** `<` or `</`, the name in any letter case, and then no word character: at `i`, up to `j`. */
  predicate Names(s: string, i: nat, close: bool, name: string, j: nat) {
    var h := i + if close then 2 else 1;
    && h <= j < |s| && s[i] == '<' && (close ==> s[i + 1] == '/')
    && j == h + |name| && (forall k | 0 <= k < |name| :: SameLetter(s[h + k], name[k]))
    && !WordLike(s[j])
  }

  lemma FoldIs(c: char, l: char)
    requires 'a' <= l <= 'z' || l in "_</"
    ensures Fold(c) == l <==> SameLetter(c, l)
  {
  }

  lemma WordIs(c: char)
    ensures IsWord(c) <==> WordLike(c)
  {
  }

  lemma NameLetters(name: string, k: nat)
    requires name in NAMES && k < |name|
    ensures 'a' <= name[k] <= 'z' || name[k] == '_'
  {
  }

  lemma HeadNames(s: string, i: nat, close: bool, name: string)
    requires name in NAMES
    ensures HeadAt(s, i, Head(close, name)) <==> Names(s, i, close, name, i + |Head(close, name)|)
  {
    hide IsWord, Fold, SameLetter, NAMES, WordLike, HasAt;
    var j := i + |Head(close, name)|;
    if j < |s| {
      WordIs(s[j]);
      LettersMatch(s, i, close, name);
    }
  }

  lemma LettersMatch(s: string, i: nat, close: bool, name: string)
    requires name in NAMES && i + |Head(close, name)| <= |s|
    ensures var h := i + if close then 2 else 1;
            HasAt(s, i, Head(close, name)) <==>
            s[i] == '<' && (close ==> s[i + 1] == '/') && forall k | 0 <= k < |name| :: SameLetter(s[h + k], name[k])
  {
    hide Fold, SameLetter, NAMES, HasAt;
    var head, h := Head(close, name), i + if close then 2 else 1;
    assert |head| == h - i + |name| && forall k | 0 <= k < |name| :: head[h - i + k] == name[k];
    FoldMark(s[i], '<');
    if close { FoldMark(s[i + 1], '/'); }
    forall k | 0 <= k < |name| ensures Fold(s[h + k]) == name[k] <==> SameLetter(s[h + k], name[k]) {
      NameLetters(name, k);
      FoldIs(s[h + k], name[k]);
    }
    SplitHead(s, i, head, name, h);
    assert close ==> head[1] == '/';
    assert head[0] == '<';
  }

  /** Matching a head is matching its marks and then its name. */
  lemma SplitHead(s: string, i: nat, head: string, name: string, h: nat)
    requires i < h <= i + 2 && |head| == h - i + |name| && i + |head| <= |s|
    requires forall k | 0 <= k < |name| :: head[h - i + k] == name[k]
    ensures HasAt(s, i, head) <==>
            && Fold(s[i]) == head[0] && (h == i + 2 ==> Fold(s[i + 1]) == head[1])
            && forall k | 0 <= k < |name| :: Fold(s[h + k]) == name[k]
  {
    hide Fold;
    if HasAt(s, i, head) {
      forall k | 0 <= k < |name| ensures Fold(s[h + k]) == name[k] { assert Fold(s[h + k]) == head[h + k - i]; }
    }
    if Fold(s[i]) == head[0] && (h == i + 2 ==> Fold(s[i + 1]) == head[1]) && forall k | 0 <= k < |name| :: Fold(s[h + k]) == name[k] {
      forall m | i <= m < i + |head| ensures Fold(s[m]) == head[m - i] {
        if m >= h { assert Fold(s[h + (m - h)]) == name[m - h]; }
      }
    }
  }

  lemma FoldMark(c: char, l: char)
    requires l in "</"
    ensures Fold(c) == l <==> c == l
  {
  }

  /** A match is one of the five names in any letter case, ended by a character that is no letter, digit or `_`, and runs to the first `>`. */
  lemma TagExactly(s: string, i: nat, close: bool)
    ensures TagAt(s, i, close) <==>
            exists name: string, e: nat ::
              && name in {"think", "thinking", "thought", "thoughts", "thinking_process"} && i <= e < |s|
              && Names(s, i, close, name, i + |name| + if close then 2 else 1) && s[e] == '>' && '>' !in s[i..e]
    ensures TagAt(s, i, close) ==> i < TagEnd(s, i) <= |s| && s[TagEnd(s, i) - 1] == '>' && '>' !in s[i..TagEnd(s, i) - 1]
  {
    hide HeadAt, Names;
    forall name | name in NAMES ensures HeadAt(s, i, Head(close, name)) <==> Names(s, i, close, name, i + |name| + if close then 2 else 1) {
      HeadNames(s, i, close, name);
    }
    if TagAt(s, i, close) {
      var name :| name in NAMES && HeadAt(s, i, Head(close, name));
      var e := FirstGt(s, i);
      assert forall k | 0 <= k < e - i :: s[i..e][k] == s[i + k];
      assert Names(s, i, close, name, i + |name| + if close then 2 else 1) && s[e] == '>' && '>' !in s[i..e];
    }
    forall name: string, e: nat |
      && name in NAMES && i <= e < |s|
      && Names(s, i, close, name, i + |name| + if close then 2 else 1) && s[e] == '>' && '>' !in s[i..e]
      ensures TagAt(s, i, close)
    {
      assert FirstGt(s, i) <= e;
    }
  }

  // ----- how matches survive cutting and gluing -----

  lemma FirstGtIs(s: string, i: nat, r: nat)
    requires i <= r <= |s|
    requires r < |s| ==> s[r] == '>'
    requires forall k | i <= k < r :: s[k] != '>'
    ensures FirstGt(s, i) == r
  {
  }

  lemma NotBefore(s: string, i: nat, close: bool)
    requires i < Find(s, 0, close)
    ensures !TagAt(s, i, close)
  {
    FindFirst(s, 0, close);
  }

  lemma FindIs(s: string, k: nat, close: bool, r: nat)
    requires k <= r <= |s|
    requires r < |s| ==> TagAt(s, r, close)
    requires forall j | k <= j < r :: !TagAt(s, j, close)
    ensures Find(s, k, close) == r
  {
    hide TagAt;
    FindFirst(s, k, close);
  }

  /** The characters of a head are word characters, `<` and `/`; never `>`. */
  lemma HeadChars(close: bool, name: string)
    requires name in NAMES
    ensures var h := Head(close, name);
      && 6 <= |h| <= 18
      && h[0] == '<'
      && (close ==> h[1] == '/')
      && (!close ==> IsWord(h[1]))
      && (forall k | (if close then 2 else 1) <= k < |h| :: IsWord(h[k]))
  {
  }

  /** No `>` inside a head, so a match ends past its own head. */
  lemma HeadBeforeGt(s: string, i: nat, close: bool, name: string)
    requires name in NAMES && HeadAt(s, i, Head(close, name))
    ensures s[i] == '<' && i + |Head(close, name)| <= FirstGt(s, i)
  {
    var h := Head(close, name);
    HeadChars(close, name);
    assert Fold(s[i]) == h[0];
    forall m | i <= m < i + |h| ensures s[m] != '>' {
      assert Fold(s[m]) == h[m - i];
    }
  }

  /** A match is at least seven characters long. */
  lemma TagSpan(s: string, i: nat, close: bool)
    requires TagAt(s, i, close)
    ensures s[i] == '<' && i + 7 <= TagEnd(s, i) <= |s|
  {
    var name :| name in NAMES && HeadAt(s, i, Head(close, name));
    HeadChars(close, name);
    HeadBeforeGt(s, i, close, name);
  }

  lemma HeadShift(x: string, y: string, j: nat, head: string)
    ensures HeadAt(x + y, |x| + j, head) == HeadAt(y, j, head)
  {
    var s := x + y;
    if j + |head| < |y| {
      assert forall m | |x| <= m < |s| :: s[m] == y[m - |x|];
      if HasAt(s, |x| + j, head) {
        forall m | j <= m < j + |head| ensures Fold(y[m]) == head[m - j] {
          assert Fold(s[|x| + m]) == head[m - j];
        }
      }
    }
  }

  /** Matching looks only to the right: dropping a prefix shifts matches. */
  lemma TagShift(x: string, y: string, j: nat, close: bool)
    ensures TagAt(x + y, |x| + j, close) == TagAt(y, j, close)
    ensures j < |y| ==> TagEnd(x + y, |x| + j) == |x| + TagEnd(y, j)
  {
    var s := x + y;
    if j < |y| {
      var g := FirstGt(y, j);
      assert forall k | |x| <= k < |s| :: s[k] == y[k - |x|];
      FirstGtIs(s, |x| + j, |x| + g);
      forall name | name in NAMES
        ensures HeadAt(s, |x| + j, Head(close, name)) == HeadAt(y, j, Head(close, name))
      {
        HeadShift(x, y, j, Head(close, name));
      }
    }
  }

  lemma GtGrow(u: string, r: string, i: nat)
    requires i <= |u|
    ensures FirstGt(u, i) < |u| ==> FirstGt(u + r, i) == FirstGt(u, i)
    ensures FirstGt(u + r, i) < |u| ==> FirstGt(u, i) == FirstGt(u + r, i)
  {
    if FirstGt(u + r, i) < |u| {
      assert u[FirstGt(u + r, i)] == '>';
    }
    if FirstGt(u, i) < |u| {
      FirstGtIs(u + r, i, FirstGt(u, i));
    }
  }

  lemma HeadGrow(u: string, r: string, i: nat, head: string)
    requires i + |head| < |u|
    ensures HeadAt(u + r, i, head) == HeadAt(u, i, head)
  {
    assert forall m | 0 <= m < |u| :: (u + r)[m] == u[m];
  }

  /** A match depends only on the characters up to its end. */
  lemma TagGrow(u: string, r: string, i: nat, close: bool)
    requires i < |u|
    ensures TagAt(u, i, close) ==> TagAt(u + r, i, close) && TagEnd(u + r, i) == TagEnd(u, i)
    ensures TagAt(u + r, i, close) && TagEnd(u + r, i) <= |u| ==> TagAt(u, i, close)
  {
    hide HasAt, FirstGt, HeadAt;
    GtGrow(u, r, i);
    if TagAt(u, i, close) {
      var name :| name in NAMES && HeadAt(u, i, Head(close, name));
      HeadBeforeGt(u, i, close, name);
      HeadGrow(u, r, i, Head(close, name));
    }
    if TagAt(u + r, i, close) && FirstGt(u + r, i) < |u| {
      var name :| name in NAMES && HeadAt(u + r, i, Head(close, name));
      HeadBeforeGt(u + r, i, close, name);
      HeadGrow(u, r, i, Head(close, name));
    }
  }

  /** A match that starts before a known `>` was already complete there. */
  lemma EarlierTag(u: string, r: string, j: nat, g: nat, close: bool)
    requires j <= g < |u| && u[g] == '>'
    ensures TagAt(u + r, j, close) == TagAt(u, j, close)
  {
    assert (u + r)[g] == '>';
    assert FirstGt(u + r, j) <= g;
    TagGrow(u, r, j, close);
  }

  /** Searching a longer text finds the same first match. */
  lemma FindGrow(u: string, r: string, close: bool)
    requires Find(u, 0, close) < |u|
    ensures Find(u + r, 0, close) == Find(u, 0, close)
    ensures TagEnd(u + r, Find(u, 0, close)) == TagEnd(u, Find(u, 0, close))
  {
    hide TagAt, Find, FirstGt;
    var i := Find(u, 0, close);
    var g := FirstGt(u, i);
    FindFirst(u, 0, close);
    TagSpan(u, i, close);
    TagGrow(u, r, i, close);
    forall j | 0 <= j < i ensures !TagAt(u + r, j, close) {
      EarlierTag(u, r, j, g, close);
    }
    FindIs(u + r, 0, close, i);
  }

  /** A first match that starts at or after |x| is the first match of the rest. */
  lemma FindDrop(x: string, y: string, close: bool)
    requires |x| <= Find(x + y, 0, close)
    ensures Find(y, 0, close) == Find(x + y, 0, close) - |x|
    ensures Find(y, 0, close) < |y| ==> TagEnd(x + y, Find(x + y, 0, close)) == |x| + TagEnd(y, Find(y, 0, close))
  {
    hide TagAt, Find, FirstGt, TagEnd;
    FindFirst(x + y, 0, close);
    var i := Find(x + y, 0, close) - |x|;
    forall j | 0 <= j <= i ensures TagAt(y, j, close) == TagAt(x + y, |x| + j, close) {
      TagShift(x, y, j, close);
    }
    FindIs(y, 0, close, i);
    if i < |y| { TagShift(x, y, i, close); }
  }

  /** A text without a match has none in any part of it. */
  lemma NoTagInside(x: string, y: string, z: string, close: bool)
    requires Find((x + y) + z, 0, close) == |(x + y) + z|
    ensures Find(y, 0, close) == |y|
  {
    hide TagAt, Find, FirstGt, TagEnd;
    var i := Find(y, 0, close);
    FindFirst(y, 0, close);
    FindFirst((x + y) + z, 0, close);
    if i < |y| {
      TagShift(x, y, i, close);
      TagGrow(x + y, z, |x| + i, close);
    }
  }

  // ----- bare tags -----

  lemma BareIsTag(s: string, j: nat, close: bool)
    requires BareAt(s, j, close)
    ensures TagAt(s, j, close)
  {
    hide HasAt;
    var name :| name in NAMES && HeadAt(s, j, Head(close, name)) && s[j + |Head(close, name)|] == '>';
    assert FirstGt(s, j) <= j + |Head(close, name)|;
  }

  lemma BareShift(x: string, y: string, j: nat, close: bool)
    ensures BareAt(x + y, |x| + j, close) == BareAt(y, j, close)
  {
    hide HeadAt;
    forall name | name in NAMES
      ensures HeadAt(x + y, |x| + j, Head(close, name)) == HeadAt(y, j, Head(close, name))
    {
      HeadShift(x, y, j, Head(close, name));
    }
    BareMoved(x, y, j, close);
  }

  lemma BareMoved(x: string, y: string, j: nat, close: bool)
    requires forall name | name in NAMES :: HeadAt(x + y, |x| + j, Head(close, name)) == HeadAt(y, j, Head(close, name))
    ensures BareAt(x + y, |x| + j, close) == BareAt(y, j, close)
  {
    hide HasAt;
    forall name | name in NAMES && HeadAt(y, j, Head(close, name))
      ensures (x + y)[|x| + j + |Head(close, name)|] == y[j + |Head(close, name)|]
    {
    }
  }

  lemma BareGrow(u: string, r: string, j: nat, close: bool)
    requires j < |u|
    ensures BareAt(u, j, close) ==> BareAt(u + r, j, close)
    ensures BareAt(u + r, j, close) && TagEnd(u + r, j) <= |u| ==> BareAt(u, j, close)
  {
    hide HeadAt, FirstGt, BareAt;
    if BareAt(u, j, close) {
      var name := BareName(u, j, close);
      HeadGrowUp(u, r, j, Head(close, name));
      NameBare(u + r, j, close, name);
    }
    if BareAt(u + r, j, close) && TagEnd(u + r, j) <= |u| {
      var name := BareName(u + r, j, close);
      HeadBeforeGt(u + r, j, close, name);
      HeadGrow(u, r, j, Head(close, name));
      NameBare(u, j, close, name);
    }
  }

  lemma BareName(s: string, j: nat, close: bool) returns (name: string)
    requires BareAt(s, j, close)
    ensures name in NAMES && HeadAt(s, j, Head(close, name)) && j + |Head(close, name)| < |s| && s[j + |Head(close, name)|] == '>'
  {
    hide HasAt;
    name :| name in NAMES && HeadAt(s, j, Head(close, name)) && s[j + |Head(close, name)|] == '>';
  }

  lemma NameBare(s: string, j: nat, close: bool, name: string)
    requires name in NAMES && j + |Head(close, name)| < |s|
    requires HeadAt(s, j, Head(close, name)) && s[j + |Head(close, name)|] == '>'
    ensures BareAt(s, j, close)
  {
    hide HasAt;
  }

  lemma HeadGrowUp(u: string, r: string, i: nat, head: string)
    requires HeadAt(u, i, head)
    ensures HeadAt(u + r, i, head) && (u + r)[i + |head|] == u[i + |head|]
  {
    HeadGrow(u, r, i, head);
  }

  /** A tag that is not bare has something after its name. */
  lemma PastName(s: string, i: nat, close: bool) returns (b: nat)
    requires TagAt(s, i, close) && !BareAt(s, i, close)
    ensures i + 6 <= b < TagEnd(s, i) - 1 <= |s| && !IsWord(s[b]) && s[i] == '<'
  {
    hide HasAt, FirstGt;
    var name :| name in NAMES && HeadAt(s, i, Head(close, name));
    HeadBeforeGt(s, i, close, name);
    HeadChars(close, name);
    b := i + |Head(close, name)|;
    assert s[b] == '>' ==> BareAt(s, i, close);
  }
}
