// The preflight of an upstream stream that answered 200: find an error event early, lose no byte.
module Priming {
  import opened StreamTypes
  import opened Whitespace

  /** What the JSON after `data:` turns out to be; an error's own status, if it is a number. */
  datatype Parsed = Unreadable | Plain | Error(status: Option<int>)

  /** What one line says: nothing yet, a real event, or an error reply. */
  datatype Verdict = Undecided | Clean | Fault(status: int)

  function Normal(status: Option<int>): int {
    if status.None? || status.value < 400 || status.value > 599 then 502 else status.value
  }

  function Judge(raw: string, parse: string -> Parsed): Verdict {
    var line := Strip(raw);
    if !("data:" <= line) then Undecided
    else
      var data := Strip(line[5..]);
      if data == "" || data == "[DONE]" then Clean
      else
        match parse(data)
        case Unreadable => Undecided
        case Plain => Clean
        case Error(status) => Fault(Normal(status))
  }

  /** Position of the first line end, |s| if there is none. */
  function LineEnd(s: string): (i: nat)
    ensures i <= |s| && (i < |s| ==> s[i] == '\n') && forall k | 0 <= k < i :: s[k] != '\n'
  {
    if s == "" || s[0] == '\n' then 0 else 1 + LineEnd(s[1..])
  }

  /** The first complete line of `s` that decides. */
  function First(s: string, parse: string -> Parsed): Verdict
    decreases |s|
  {
    var i := LineEnd(s);
    if i == |s| then Undecided
    else if Judge(s[..i], parse) != Undecided then Judge(s[..i], parse)
    else First(s[i + 1..], parse)
  }

  /** What follows the last complete line. */
  function Tail(s: string): string
    decreases |s|
  {
    var i := LineEnd(s);
    if i == |s| then s else Tail(s[i + 1..])
  }

  /** It is the end of the text, and has no line end. */
  lemma {:induction false} TailExactly(s: string)
    ensures '\n' !in Tail(s) && exists k | 0 <= k <= |s| :: Tail(s) == s[k..] && (k > 0 ==> s[k - 1] == '\n')
    decreases |s|
  {
    hide LineEnd;
    var i := LineEnd(s);
    if i < |s| {
      var rest := s[i + 1..];
      TailExactly(rest);
      var k :| 0 <= k <= |rest| && Tail(rest) == rest[k..] && (k > 0 ==> rest[k - 1] == '\n');
      Further(s, i, k);
    } else {
      assert s[0..] == s;
    }
  }

  lemma Further(s: string, i: nat, k: nat)
    requires i < |s| && s[i] == '\n' && k <= |s[i + 1..]| && (k > 0 ==> s[i + 1..][k - 1] == '\n')
    ensures s[i + 1..][k..] == s[i + 1 + k..] && s[i + k] == '\n'
  {
  }

  function Text(chunks: seq<string>): string {
    if chunks == [] then "" else Text(chunks[..|chunks| - 1]) + chunks[|chunks| - 1]
  }

  // ----- what decides -----

  /** What follows `data:` on a line. */
  function DataOn(line: string): Option<string> {
    if "data:" <= Strip(line) then Some(Strip(Strip(line)[5..])) else None
  }

  /** The line reports an error with its own status if that is an HTTP error, else 502. */
  predicate Reports(line: string, parse: string -> Parsed, status: int) {
    var d := DataOn(line);
    && d.Some? && d.value !in {"", "[DONE]"} && parse(d.value).Error?
    && var own := parse(d.value).status;
       (if own.Some? && 400 <= own.value <= 599 then own == Some(status) else status == 502)
  }

  /** A real event: empty data, [DONE], or JSON without an error object. */
  predicate Real(line: string, parse: string -> Parsed) {
    var d := DataOn(line); d.Some? && (d.value in {"", "[DONE]"} || parse(d.value) == Plain)
  }

  /** A comment, a ping, or data that is not readable. */
  predicate Silent(line: string, parse: string -> Parsed) {
    var d := DataOn(line); d.None? || (d.value !in {"", "[DONE]"} && parse(d.value) == Unreadable)
  }

  /** The characters from `a` up to the line end at `b` are a line of `s`. */
  predicate LineAt(s: string, a: nat, b: nat) {
    a <= b < |s| && s[b] == '\n' && (a == 0 || s[a - 1] == '\n') && '\n' !in s[a..b]
  }

  /** The verdict on `s`: that of its first complete line that is not silent. */
  predicate Tells(s: string, parse: string -> Parsed, v: Verdict) {
    match v
    case Undecided => forall a, b | 0 <= a <= b < |s| && LineAt(s, a, b) :: Silent(s[a..b], parse)
    case Clean => exists a, b | 0 <= a <= b < |s| && FirstLoud(s, parse, a, b) :: Real(s[a..b], parse)
    case Fault(status) => exists a, b | 0 <= a <= b < |s| && FirstLoud(s, parse, a, b) :: Reports(s[a..b], parse, status)
  }

  predicate FirstLoud(s: string, parse: string -> Parsed, a: nat, b: nat) {
    LineAt(s, a, b) && forall x, y | 0 <= x <= y < a && LineAt(s, x, y) :: Silent(s[x..y], parse)
  }

  lemma JudgeSays(line: string, parse: string -> Parsed)
    ensures var v := Judge(line, parse);
            && (v == Undecided <==> Silent(line, parse)) && (v == Clean <==> Real(line, parse))
            && forall status :: v == Fault(status) <==> Reports(line, parse, status)
  {
    hide Strip;
  }

  lemma LineMoves(s: string, e: nat, a: nat, b: nat)
    requires e < |s| && s[e] == '\n' && a <= b
    ensures b < |s[e + 1..]| ==> s[e + 1..][a..b] == s[e + 1 + a..e + 1 + b]
    ensures LineAt(s[e + 1..], a, b) <==> LineAt(s, e + 1 + a, e + 1 + b)
  {
    var t := s[e + 1..];
    if b < |t| {
      assert t[b] == s[e + 1 + b] && (a > 0 ==> t[a - 1] == s[e + a]);
    }
  }

  /** Every line is the first one, or one of what follows. */
  lemma FirstLine(s: string, a: nat, b: nat)
    requires LineAt(s, a, b)
    ensures LineEnd(s) < |s| && (if a <= LineEnd(s) then a == 0 && b == LineEnd(s) else true)
  {
    var e := LineEnd(s);
    assert forall k | a <= k < b :: s[k] != '\n' by {
      forall k | a <= k < b ensures s[k] != '\n' { assert s[k] == s[a..b][k - a]; }
    }
  }

  /** The verdict is the one told by the first complete line that is not silent. */
  lemma {:induction false} FirstTells(s: string, parse: string -> Parsed)
    ensures Tells(s, parse, First(s, parse))
    decreases |s|
  {
    hide Judge, Silent, Real, Reports, Strip, LineAt;
    var e := LineEnd(s);
    if e == |s| {
      forall a, b | 0 <= a <= b < |s| && LineAt(s, a, b) ensures false { FirstLine(s, a, b); }
    } else {
      JudgeSays(s[..e], parse);
      assert s[0..e] == s[..e];
      IsFirstLine(s);
      if Judge(s[..e], parse) == Undecided {
        FirstTells(s[e + 1..], parse);
        TellsOn(s, parse, First(s[e + 1..], parse));
      } else {
        assert FirstLoud(s, parse, 0, e);
      }
    }
  }

  lemma IsFirstLine(s: string)
    requires LineEnd(s) < |s|
    ensures LineAt(s, 0, LineEnd(s))
  {
    var e := LineEnd(s);
    assert forall k | 0 <= k < e :: s[0..e][k] != '\n';
  }

  /** After a silent first line the rest tells the verdict. */
  lemma TellsOn(s: string, parse: string -> Parsed, v: Verdict)
    requires LineEnd(s) < |s| && Silent(s[..LineEnd(s)], parse) && Tells(s[LineEnd(s) + 1..], parse, v)
    ensures Tells(s, parse, v)
  {
    hide Silent, Real, Reports, LineAt, FirstLoud;
    var e := LineEnd(s);
    var t := s[e + 1..];
    assert s[0..e] == s[..e];
    match v
    case Undecided =>
      forall a, b | 0 <= a <= b < |s| && LineAt(s, a, b) ensures Silent(s[a..b], parse) { SilentBefore(s, parse, a, b, |t|); }
    case Clean =>
      var a, b :| 0 <= a <= b < |t| && FirstLoud(t, parse, a, b) && Real(t[a..b], parse);
      LoudOn(s, parse, a, b);
    case Fault(status) =>
      var a, b :| 0 <= a <= b < |t| && FirstLoud(t, parse, a, b) && Reports(t[a..b], parse, status);
      LoudOn(s, parse, a, b);
  }

  lemma LoudOn(s: string, parse: string -> Parsed, a: nat, b: nat)
    requires LineEnd(s) < |s| && Silent(s[0..LineEnd(s)], parse)
    requires a <= b < |s[LineEnd(s) + 1..]| && FirstLoud(s[LineEnd(s) + 1..], parse, a, b)
    ensures var e := LineEnd(s);
            FirstLoud(s, parse, e + 1 + a, e + 1 + b) && s[e + 1 + a..e + 1 + b] == s[e + 1..][a..b]
  {
    hide Silent, LineAt;
    var e := LineEnd(s);
    LineMoves(s, e, a, b);
    forall x, y | 0 <= x <= y < e + 1 + a && LineAt(s, x, y) ensures Silent(s[x..y], parse) { SilentBefore(s, parse, x, y, a); }
  }

  lemma SilentBefore(s: string, parse: string -> Parsed, a: nat, b: nat, end: nat)
    requires LineEnd(s) < |s| && Silent(s[0..LineEnd(s)], parse)
    requires var t := s[LineEnd(s) + 1..];
             end <= |t| && forall x, y | 0 <= x <= y < end && LineAt(t, x, y) :: Silent(t[x..y], parse)
    requires a <= b < LineEnd(s) + 1 + end && LineAt(s, a, b)
    ensures Silent(s[a..b], parse)
  {
    hide Silent, LineAt;
    FirstLine(s, a, b);
    var e := LineEnd(s);
    if e < a { LineMoves(s, e, a - e - 1, b - e - 1); }
  }

  /** Nothing but that verdict is told. */
  lemma VerdictExactly(s: string, parse: string -> Parsed, v: Verdict)
    ensures First(s, parse) == v <==> Tells(s, parse, v)
  {
    hide First, Tells;
    FirstTells(s, parse);
    if Tells(s, parse, v) { OneVerdict(s, parse, v, First(s, parse)); }
  }

  lemma OneVerdict(s: string, parse: string -> Parsed, v: Verdict, w: Verdict)
    requires Tells(s, parse, v) && Tells(s, parse, w)
    ensures v == w
  {
    hide Silent, Real, Reports, LineAt;
    if v != Undecided && w != Undecided {
      var a, b :| 0 <= a <= b < |s| && FirstLoud(s, parse, a, b) && Says(s[a..b], parse, v);
      var x, y :| 0 <= x <= y < |s| && FirstLoud(s, parse, x, y) && Says(s[x..y], parse, w);
      OneKind(s[a..b], parse, v);
      OneKind(s[x..y], parse, w);
      LinesApart(s, a, b, x, y);
      LinesApart(s, x, y, a, b);
    } else if v != Undecided {
      var a, b :| 0 <= a <= b < |s| && FirstLoud(s, parse, a, b) && Says(s[a..b], parse, v);
      OneKind(s[a..b], parse, v);
    } else if w != Undecided {
      var a, b :| 0 <= a <= b < |s| && FirstLoud(s, parse, a, b) && Says(s[a..b], parse, w);
      OneKind(s[a..b], parse, w);
    }
  }

  predicate Says(line: string, parse: string -> Parsed, v: Verdict) {
    (v == Clean ==> Real(line, parse)) && (v.Fault? ==> Reports(line, parse, v.status))
  }

  lemma OneKind(line: string, parse: string -> Parsed, v: Verdict)
    requires v != Undecided && Says(line, parse, v)
    ensures !Silent(line, parse) && forall w | w != Undecided && Says(line, parse, w) :: w == v
  {
    hide DataOn;
  }

  /** Lines do not overlap. */
  lemma LinesApart(s: string, a: nat, b: nat, x: nat, y: nat)
    requires LineAt(s, a, b) && LineAt(s, x, y)
    ensures a < x ==> b < x
    ensures a == x ==> b == y
  {
    assert forall k | a <= k < b :: s[a..b][k - a] == s[k];
    assert forall k | x <= k < y :: s[x..y][k - x] == s[k];
  }

  /** The complete lines of `buffer`, until one decides. */
  method JudgeLines(buffer: string, parse: string -> Parsed) returns (rest: string, verdict: Verdict)
    ensures verdict == First(buffer, parse) && (verdict == Undecided ==> rest == Tail(buffer))
  {
    hide Judge;
    rest := buffer;
    while LineEnd(rest) < |rest|
      invariant First(rest, parse) == First(buffer, parse) && Tail(rest) == Tail(buffer)
      decreases |rest|
    {
      var i := LineEnd(rest);
      verdict := Judge(rest[..i], parse);
      rest := rest[i + 1..];
      if verdict != Undecided { return; }
    }
    verdict := Undecided;
  }

  /** No prefix of at most `k` chunks decides. */
  predicate Quiet(chunks: seq<string>, parse: string -> Parsed, k: nat)
    requires k <= |chunks|
  {
    forall j | 0 <= j <= k :: First(Text(chunks[..j]), parse) == Undecided
  }

  /**
   * `_prime_openai_stream`: the chunks read, to be replayed before the rest,
   * and the verdict. It stops at the first chunk that brings a decision, and
   * reads no more than four.
   */
  method Prime(chunks: seq<string>, parse: string -> Parsed) returns (prefetched: seq<string>, verdict: Verdict)
    ensures prefetched <= chunks && |prefetched| <= 4 && verdict == First(Text(prefetched), parse)
    ensures verdict == First(Text(Window(chunks)), parse) && Tells(Text(Window(chunks)), parse, verdict)
    ensures if verdict == Undecided then |prefetched| == 4 || prefetched == chunks
            else prefetched != [] && Quiet(chunks, parse, |prefetched| - 1)
  {
    hide First, Tail, Text, Tells;
    FirstTells(Text(Window(chunks)), parse);
    prefetched := [];
    var buffer := "";
    NothingYet(chunks, parse);
    var k := 0;
    while k < 4 && k < |chunks|
      invariant k <= 4 && k <= |chunks| && prefetched == chunks[..k]
      invariant Quiet(chunks, parse, k) && buffer == Tail(Text(chunks[..k]))
      decreases 4 - k
    {
      var chunk := chunks[k];
      prefetched := prefetched + [chunk];
      assert prefetched == chunks[..k + 1] && prefetched[..k] == chunks[..k];
      TextSnoc(chunks[..k], chunk);
      FirstAcross(Text(chunks[..k]), chunk, parse);
      buffer, verdict := JudgeLines(buffer + chunk, parse);
      assert First(Text(chunks[..k]), parse) == Undecided;
      if verdict != Undecided {
        StopsEarly(chunks, k + 1, parse);
        return;
      }
      k := k + 1;
    }
    assert chunks[..|chunks|] == chunks;
    assert First(Text(chunks[..k]), parse) == Undecided;
    StopsEarly(chunks, k, parse);
    verdict := Undecided;
  }

  lemma TextSnoc(chunks: seq<string>, chunk: string)
    ensures Text(chunks + [chunk]) == Text(chunks) + chunk
  {
    assert (chunks + [chunk])[..|chunks|] == chunks;
  }

  lemma NothingYet(chunks: seq<string>, parse: string -> Parsed)
    ensures Quiet(chunks, parse, 0) && Tail(Text(chunks[..0])) == ""
  {
    assert chunks[..0] == [];
  }

  lemma LineEndIs(s: string, i: nat)
    requires i <= |s| && (i < |s| ==> s[i] == '\n') && forall k | 0 <= k < i :: s[k] != '\n'
    ensures LineEnd(s) == i
  {
  }

  /** A verdict stands whatever follows; otherwise reading goes on from the unfinished line. */
  lemma {:induction false} FirstAcross(a: string, b: string, parse: string -> Parsed)
    ensures First(a + b, parse) == if First(a, parse) != Undecided then First(a, parse) else First(Tail(a) + b, parse)
    ensures Tail(a + b) == Tail(Tail(a) + b)
    decreases |a|
  {
    hide Judge;
    var i := LineEnd(a);
    if i < |a| {
      assert (a + b)[..i] == a[..i];
      LineEndIs(a + b, i);
      assert (a + b)[i + 1..] == a[i + 1..] + b;
      FirstAcross(a[i + 1..], b, parse);
    }
  }

  /** How much of `s` must be read to decide: up to the end of the first deciding line; |s| + 1 if none decides. */
  function DecidedAt(s: string, parse: string -> Parsed): (d: nat)
    decreases |s|
  {
    var i := LineEnd(s);
    if i == |s| || Judge(s[..i], parse) != Undecided then i + 1 else i + 1 + DecidedAt(s[i + 1..], parse)
  }

  /** A beginning of a stream decides, as the whole does, exactly when it reaches that far. */
  lemma {:induction false} FirstOfPrefix(a: string, b: string, parse: string -> Parsed)
    ensures First(a, parse) == if DecidedAt(a + b, parse) <= |a| then First(a + b, parse) else Undecided
    decreases |a|
  {
    hide Judge, LineEnd;
    var i := LineEnd(a);
    if i < |a| {
      LineEndIs(a + b, i);
      assert (a + b)[..i] == a[..i] && (a + b)[i + 1..] == a[i + 1..] + b;
      FirstOfPrefix(a[i + 1..], b, parse);
    } else {
      assert LineEnd(a + b) >= |a| by { LineEndLater(a, b); }
    }
  }

  lemma LineEndLater(a: string, b: string)
    requires LineEnd(a) == |a|
    ensures LineEnd(a + b) >= |a|
  {
    var e := LineEnd(a + b);
    assert forall k | 0 <= k < |a| :: (a + b)[k] == a[k];
  }

  /** The chunks the preflight may look at. */
  function Window(chunks: seq<string>): seq<string> {
    if |chunks| <= 4 then chunks else chunks[..4]
  }

  predicate Reaches(chunks: seq<string>, parse: string -> Parsed) {
    DecidedAt(Text(chunks), parse) <= |Text(Window(chunks))|
  }

  lemma WindowVerdict(chunks: seq<string>, parse: string -> Parsed)
    ensures First(Text(Window(chunks)), parse) == if Reaches(chunks, parse) then First(Text(chunks), parse) else Undecided
    ensures Reaches(chunks, parse) ==> First(Text(Window(chunks)), parse) != Undecided
  {
    hide First, DecidedAt, Text;
    var k := if |chunks| <= 4 then |chunks| else 4;
    assert chunks[..|chunks|] == chunks;
    TextSplit(chunks, k);
    FirstOfPrefix(Text(chunks[..k]), Text(chunks[k..]), parse);
    assert Window(chunks) == chunks[..k];
    assert Reaches(chunks, parse) ==> First(Text(chunks), parse) != Undecided by {
      TextLonger(chunks, k);
      DecidedInside(Text(chunks), parse);
    }
  }

  lemma TextLonger(chunks: seq<string>, k: nat)
    requires k <= |chunks|
    ensures |Text(chunks[..k])| <= |Text(chunks)|
  {
    TextSplit(chunks, k);
  }

  lemma {:induction false} DecidedInside(s: string, parse: string -> Parsed)
    ensures First(s, parse) != Undecided <==> DecidedAt(s, parse) <= |s|
    decreases |s|
  {
    hide Judge;
    var i := LineEnd(s);
    if i < |s| && Judge(s[..i], parse) == Undecided { DecidedInside(s[i + 1..], parse); }
  }

  /**
   * Two cuts of one stream into chunks get the same verdict exactly when the
   * deciding line ends within the first four chunks of both or of neither.
   */
  lemma CutsAgree(chunks: seq<string>, others: seq<string>, parse: string -> Parsed)
    requires Text(chunks) == Text(others)
    ensures First(Text(Window(chunks)), parse) == First(Text(Window(others)), parse) <==>
            (Reaches(chunks, parse) <==> Reaches(others, parse))
  {
    hide First, Window, Reaches, Text;
    WindowVerdict(chunks, parse);
    WindowVerdict(others, parse);
  }

  /** What the preflight stops at is the verdict of all it may look at. */
  lemma StopsEarly(chunks: seq<string>, k: nat, parse: string -> Parsed)
    requires k <= |Window(chunks)| && (First(Text(chunks[..k]), parse) != Undecided || k == |Window(chunks)|)
    ensures First(Text(chunks[..k]), parse) == First(Text(Window(chunks)), parse)
  {
    hide First, Text;
    assert Window(chunks)[..k] == chunks[..k];
    if First(Text(chunks[..k]), parse) != Undecided {
      VerdictStands(Window(chunks), k, parse);
    } else {
      assert Window(chunks) == chunks[..k];
    }
  }

  lemma VerdictStands(chunks: seq<string>, k: nat, parse: string -> Parsed)
    requires k <= |chunks| && First(Text(chunks[..k]), parse) != Undecided
    ensures First(Text(chunks), parse) == First(Text(chunks[..k]), parse)
  {
    hide First;
    TextSplit(chunks, k);
    FirstAcross(Text(chunks[..k]), Text(chunks[k..]), parse);
  }

  lemma {:induction false} TextSplit(chunks: seq<string>, k: nat)
    requires k <= |chunks|
    ensures Text(chunks) == Text(chunks[..k]) + Text(chunks[k..])
    decreases |chunks|
  {
    if k == |chunks| {
      assert chunks[..k] == chunks && chunks[k..] == [];
    } else {
      var n := |chunks| - 1;
      TextSplit(chunks[..n], k);
      assert chunks[..n][..k] == chunks[..k] && chunks[k..][..n - k] == chunks[..n][k..];
      assert chunks[k..][n - k] == chunks[n];
      Assoc(Text(chunks[..k]), Text(chunks[..n][k..]), chunks[n]);
    }
  }
}
