// Chat history to Anthropic's shape and back again.
module Messages {
  import opened StreamTypes

  // ----- OpenAI side -----

  /** An entry of a content list. */
  datatype Part = TextPart(text: string) | ImagePart(url: string) | Bare(text: string) | Unknown

  datatype Content = Null | Str(s: string) | Parts(parts: seq<Part>)

  /** A requested call; `args` is the JSON text of its arguments. */
  datatype Call = Call(id: string, name: string, args: string)

  /** An assistant's null content is ""; an absent tool_calls key is []. */
  datatype OMsg =
    | OSystem(content: Content)
    | OUser(content: Content)
    | OAssistant(text: string, calls: seq<Call>)
    | OTool(callId: string, content: Content)
    | OUnknown(role: string)

  // ----- Anthropic side -----

  datatype ABlock<J> =
    | AText(text: string)
    | AImage(media: string, data: string)
    | AToolUse(id: string, name: string, input: J)
    | AToolResult(id: string, content: Content)

  datatype AContent<J> = AStr(s: string) | ABlocks(blocks: seq<ABlock<J>>)

  datatype AMsg<J> = AUser(content: AContent<J>) | AAssistant(content: AContent<J>)

  /** JSON as the code uses it: `loads` of an object, `dumps`, and `{}`. */
  datatype Json<!J> = Json(loads: string -> Option<J>, dumps: J -> string, empty: J)
  {
    /** Parsed arguments; anything but a JSON object counts as `{}`. */
    function Parse(text: string): J {
      match loads(text)
      case Some(j) => j
      case None => empty
    }
  }

  // ----- strings -----

  function IndexOf(s: string, c: char): (r: nat)
    ensures r <= |s| && (r < |s| ==> s[r] == c) && c !in s[..r]
  {
    if s == "" || s[0] == c then 0
    else
      var r := IndexOf(s[1..], c) + 1;
      assert s[..r] == [s[0]] + s[1..][..r - 1];
      r
  }

  const DATA := "data:"

  /** `replace("data:", "")` */
  function RemoveData(s: string): (r: string)
    ensures |r| <= |s|
    ensures forall c | c in r :: c in s
  {
    if DATA <= s then RemoveData(s[5..])
    else if s == "" then ""
    else [s[0]] + RemoveData(s[1..])
  }

  /** "data:" occurs nowhere. */
  predicate DataFree(s: string) {
    forall i | 0 <= i <= |s| :: !(DATA <= s[i..])
  }

  /** One removal of "data:" leaves a text alone exactly when it does not occur. */
  lemma {:induction false} RemovedExactly(s: string)
    ensures RemoveData(s) == s <==> DataFree(s)
  {
    if DATA <= s {
      assert s[0..] == s;
    } else if s != "" {
      RemovedExactly(s[1..]);
      assert s == [s[0]] + s[1..] && s[0..] == s;
      assert forall i | 1 <= i <= |s| :: s[i..] == s[1..][i - 1..];
    }
  }

  function JoinWith(sep: string, parts: seq<string>): string {
    if parts == [] then "" else if |parts| == 1 then parts[0] else parts[0] + sep + JoinWith(sep, parts[1..])
  }

  function PartText(p: Part): string {
    match p
    case TextPart(t) => t
    case Bare(t) => t
    case _ => ""
  }

  function NonEmptyTexts(parts: seq<Part>): seq<string> {
    if parts == [] then []
    else (if PartText(parts[0]) == "" then [] else [PartText(parts[0])]) + NonEmptyTexts(parts[1..])
  }

  /** `flatten_content` */
  function Flatten(c: Content): string {
    match c
    case Null => ""
    case Str(s) => s
    case Parts(ps) => JoinWith("\n", NonEmptyTexts(ps))
  }

  function AllTexts(parts: seq<Part>): seq<string> {
    seq(|parts|, k requires 0 <= k < |parts| => PartText(parts[k]))
  }

  function SystemText(c: Content): string
    requires !c.Null?
  {
    match c
    case Str(s) => s
    case Parts(ps) => JoinWith(" ", AllTexts(ps))
  }

  // ----- openai_to_anthropic_messages -----

  /** Media type and data of a data URL with a comma; None otherwise. */
  function ParseDataUrl(url: string): Option<(string, string)> {
    if !(DATA <= url) then None
    else
      var c := IndexOf(url, ',');
      if c == |url| then None
      else Some((RemoveData(url[..c][..IndexOf(url[..c], ';')]), url[c + 1..]))
  }

  function PartBlocks<J>(p: Part): seq<ABlock<J>> {
    match p
    case TextPart(t) => [AText(t)]
    case Bare(t) => [AText(t)]
    case ImagePart(url) =>
      (match ParseDataUrl(url) case Some(md) => [AImage(md.0, md.1)] case None => [])
    case Unknown => []
  }

  function UserBlocks<J>(ps: seq<Part>): seq<ABlock<J>> {
    if ps == [] then [] else PartBlocks(ps[0]) + UserBlocks(ps[1..])
  }

  function CallBlocks<J>(json: Json<J>, calls: seq<Call>): seq<ABlock<J>> {
    seq(|calls|, k requires 0 <= k < |calls| => AToolUse(calls[k].id, calls[k].name, json.Parse(calls[k].args)))
  }

  function TextBlock<J>(text: string): seq<ABlock<J>> {
    if text == "" then [] else [AText(text)]
  }

  /** The accumulators of the conversion loop. */
  datatype Conv<J> = Conv(system: Option<string>, out: seq<AMsg<J>>, pending: seq<ABlock<J>>)

  /** Adjacent tool results become one user turn. */
  function Flush<J>(c: Conv<J>): Conv<J> {
    if c.pending == [] then c else Conv(c.system, c.out + [AUser(ABlocks(c.pending))], [])
  }

  function AssistantTurn<J>(json: Json<J>, text: string, calls: seq<Call>): AMsg<J> {
    if calls == [] then AAssistant(AStr(text)) else AAssistant(ABlocks(TextBlock(text) + CallBlocks(json, calls)))
  }

  /** A user's null content makes no turn. */
  function UserTurns<J>(content: Content): seq<AMsg<J>> {
    match content
    case Null => []
    case Str(s) => [AUser(AStr(s))]
    case Parts(ps) => [AUser(if UserBlocks<J>(ps) == [] then AStr("") else ABlocks(UserBlocks(ps)))]
  }

  /** Null content leaves the system prompt as it was. */
  function SystemAfter(system: Option<string>, m: OMsg): Option<string> {
    if m.OSystem? && !m.content.Null? then Some(SystemText(m.content)) else system
  }

  function ConvStep<J>(json: Json<J>, c: Conv<J>, m: OMsg): Conv<J> {
    match m
    case OSystem(_) => Flush(c).(system := SystemAfter(c.system, m))
    case OUser(content) => var f := Flush(c); f.(out := f.out + UserTurns(content))
    case OAssistant(text, calls) => var f := Flush(c); f.(out := f.out + [AssistantTurn(json, text, calls)])
    case OTool(id, content) => c.(pending := c.pending + [AToolResult(id, content)])
    case OUnknown(_) => c
  }

  function ConvAll<J>(json: Json<J>, ms: seq<OMsg>): Conv<J>
    decreases |ms|
  {
    if ms == [] then Conv(None, [], []) else ConvStep(json, ConvAll(json, ms[..|ms| - 1]), ms[|ms| - 1])
  }

  method ToAnthropicMessages<J>(json: Json<J>, ms: seq<OMsg>) returns (system: Option<string>, out: seq<AMsg<J>>)
    ensures var c := Flush(ConvAll(json, ms)); system == c.system && out == c.out
  {
    system, out := None, [];
    var pending: seq<ABlock<J>> := [];
    for n := 0 to |ms|
      invariant Conv(system, out, pending) == ConvAll(json, ms[..n])
    {
      assert ms[..n + 1][..n] == ms[..n];
      match ms[n] {
        case OUnknown(_) =>
        case OTool(id, content) => pending := pending + [AToolResult(id, content)];
        case OSystem(content) =>
          if pending != [] { out, pending := out + [AUser(ABlocks(pending))], []; }
          if !content.Null? { system := Some(SystemText(content)); }
        case OUser(content) =>
          if pending != [] { out, pending := out + [AUser(ABlocks(pending))], []; }
          out := out + UserTurns(content);
        case OAssistant(text, calls) =>
          if pending != [] { out, pending := out + [AUser(ABlocks(pending))], []; }
          out := out + [AssistantTurn(json, text, calls)];
      }
    }
    assert ms[..|ms|] == ms;
    if pending != [] { out := out + [AUser(ABlocks(pending))]; }
  }

  // ----- to_openai_messages -----

  function ToolCalls<J>(json: Json<J>, bs: seq<ABlock<J>>): seq<Call> {
    if bs == [] then []
    else (if bs[0].AToolUse? then [Call(bs[0].id, bs[0].name, json.dumps(bs[0].input))] else []) + ToolCalls(json, bs[1..])
  }

  function BlockTexts<J>(bs: seq<ABlock<J>>): seq<string> {
    if bs == [] then []
    else (if bs[0].AText? && bs[0].text != "" then [bs[0].text] else []) + BlockTexts(bs[1..])
  }

  function ToolResults<J>(bs: seq<ABlock<J>>): seq<OMsg> {
    if bs == [] then []
    else (if bs[0].AToolResult? then [OTool(bs[0].id, Str(Flatten(bs[0].content)))] else []) + ToolResults(bs[1..])
  }

  function DataUrl(media: string, data: string): string {
    DATA + media + ";base64," + data
  }

  function FinalParts<J>(bs: seq<ABlock<J>>): seq<Part> {
    if bs == [] then []
    else (match bs[0]
          case AText(t) => if t == "" then [] else [TextPart(t)]
          case AImage(media, data) => [ImagePart(DataUrl(media, data))]
          case _ => []) + FinalParts(bs[1..])
  }

  /** `flatten_content` of a block list. */
  function FlattenBlocks<J>(bs: seq<ABlock<J>>): string {
    JoinWith("\n", BlockTexts(bs))
  }

  function BackOne<J>(json: Json<J>, m: AMsg<J>): seq<OMsg> {
    match m
    case AAssistant(AStr(s)) => [OAssistant(s, [])]
    case AAssistant(ABlocks(bs)) =>
      var calls := ToolCalls(json, bs);
      if calls == [] then [OAssistant(FlattenBlocks(bs), [])] else [OAssistant(JoinWith(" ", BlockTexts(bs)), calls)]
    case AUser(AStr(s)) => [OUser(Str(s))]
    case AUser(ABlocks(bs)) =>
      var results, final := ToolResults(bs), FinalParts(bs);
      if results != [] then results + (if final == [] then [] else [OUser(Parts(final))])
      else if final != [] then [OUser(Parts(final))]
      else [OUser(Str(FlattenBlocks(bs)))]
  }

  function BackAll<J>(json: Json<J>, ms: seq<AMsg<J>>): seq<OMsg> {
    if ms == [] then [] else BackOne(json, ms[0]) + BackAll(json, ms[1..])
  }

  function SystemMsgs(system: Option<string>): seq<OMsg> {
    if system.Some? && system.value != "" then [OSystem(Str(system.value))] else []
  }

  method ToOpenAIMessages<J>(json: Json<J>, system: Option<string>, ms: seq<AMsg<J>>) returns (out: seq<OMsg>)
    ensures out == SystemMsgs(system) + BackAll(json, ms)
  {
    hide BackOne;
    out := SystemMsgs(system);
    assert ms[..0] == [] && SystemMsgs(system) + [] == SystemMsgs(system);
    for n := 0 to |ms|
      invariant out == SystemMsgs(system) + BackAll(json, ms[..n])
    {
      assert ms[..n + 1] == ms[..n] + [ms[n]];
      BackAppend(json, ms[..n], [ms[n]]);
      assert [ms[n]][1..] == [] && BackOne(json, ms[n]) + [] == BackOne(json, ms[n]);
      Assoc(SystemMsgs(system), BackAll(json, ms[..n]), BackOne(json, ms[n]));
      out := out + BackOne(json, ms[n]);
    }
    assert ms[..|ms|] == ms;
  }

  lemma {:induction false} BackAppend<J>(json: Json<J>, a: seq<AMsg<J>>, b: seq<AMsg<J>>)
    ensures BackAll(json, a + b) == BackAll(json, a) + BackAll(json, b)
  {
    hide BackOne;
    if a == [] {
      assert a + b == b;
    } else {
      assert (a + b)[0] == a[0] && (a + b)[1..] == a[1..] + b;
      BackAppend(json, a[1..], b);
      Assoc(BackOne(json, a[0]), BackAll(json, a[1..]), BackAll(json, b));
    }
  }

  /** The round trip of a whole history. */
  function RoundTrip<J>(json: Json<J>, ms: seq<OMsg>): seq<OMsg> {
    var c := Flush(ConvAll(json, ms));
    SystemMsgs(c.system) + BackAll(json, c.out)
  }

  // ----- what the round trip does to each message -----

  function NormalParts(ps: seq<Part>): seq<Part> {
    if ps == [] then [] else NormalPart(ps[0]) + NormalParts(ps[1..])
  }

  function NormalPart(p: Part): seq<Part> {
    match p
    case Unknown => []
    case ImagePart(url) => (match ParseDataUrl(url) case Some(md) => [ImagePart(DataUrl(md.0, md.1))] case None => [])
    case _ => if PartText(p) == "" then [] else [TextPart(PartText(p))]
  }

  function NormalCalls<J>(json: Json<J>, calls: seq<Call>): seq<Call> {
    seq(|calls|, k requires 0 <= k < |calls| => Call(calls[k].id, calls[k].name, json.dumps(json.Parse(calls[k].args))))
  }

  function NormalUser(c: Content): Content {
    if c.Parts? then (if NormalParts(c.parts) == [] then Str("") else Parts(NormalParts(c.parts))) else c
  }

  /** One message after the round trip; system messages, unknown roles and null user messages leave the list. */
  function Normal<J>(json: Json<J>, m: OMsg): seq<OMsg> {
    match m
    case OUser(c) => if c.Null? then [] else [OUser(NormalUser(c))]
    case OAssistant(text, calls) => [OAssistant(text, NormalCalls(json, calls))]
    case OTool(id, c) => [OTool(id, Str(Flatten(c)))]
    case _ => []
  }

  function NormalAll<J>(json: Json<J>, ms: seq<OMsg>): seq<OMsg>
    decreases |ms|
  {
    if ms == [] then [] else NormalAll(json, ms[..|ms| - 1]) + Normal(json, ms[|ms| - 1])
  }

  function LastSystem(ms: seq<OMsg>): Option<string>
    decreases |ms|
  {
    if ms == [] then None else SystemAfter(LastSystem(ms[..|ms| - 1]), ms[|ms| - 1])
  }

  lemma {:induction false} UserParts<J>(ps: seq<Part>)
    ensures FinalParts<J>(UserBlocks(ps)) == NormalParts(ps)
    ensures ToolResults<J>(UserBlocks(ps)) == []
    ensures NormalParts(ps) == [] ==> BlockTexts<J>(UserBlocks(ps)) == []
  {
    if ps != [] {
      UserParts<J>(ps[1..]);
      var b, rest := PartBlocks<J>(ps[0]), UserBlocks<J>(ps[1..]);
      assert b != [] ==> (b + rest)[0] == b[0] && (b + rest)[1..] == rest;
      assert b == [] ==> b + rest == rest;
    }
  }

  lemma UserBack<J>(json: Json<J>, c: Content)
    requires !c.Null?
    ensures BackOne(json, UserTurns(c)[0]) == [OUser(NormalUser(c))]
  {
    hide FinalParts, UserBlocks, NormalParts, ToolResults, BlockTexts;
    if c.Parts? {
      UserParts<J>(c.parts);
      NoBlocks<J>();
    }
  }

  lemma NoBlocks<J>()
    ensures FinalParts<J>([]) == [] && JoinWith("\n", []) == ""
  {
  }

  lemma CallsCons<J>(json: Json<J>, call: Call, rest: seq<Call>)
    ensures CallBlocks(json, [call] + rest) == [AToolUse(call.id, call.name, json.Parse(call.args))] + CallBlocks(json, rest)
    ensures NormalCalls(json, [call] + rest) == NormalCalls(json, [call]) + NormalCalls(json, rest)
  {
    assert ([call] + rest)[1..] == rest;
    assert NormalCalls(json, []) == [];
  }

  lemma ToolUseCons<J>(json: Json<J>, id: string, name: string, input: J, rest: seq<ABlock<J>>)
    ensures var bs := [AToolUse(id, name, input)] + rest;
            ToolCalls(json, bs) == [Call(id, name, json.dumps(input))] + ToolCalls(json, rest) && BlockTexts(bs) == BlockTexts(rest)
  {
    assert ([AToolUse(id, name, input)] + rest)[1..] == rest;
  }

  lemma {:induction false} CallsBack<J>(json: Json<J>, calls: seq<Call>)
    ensures ToolCalls(json, CallBlocks(json, calls)) == NormalCalls(json, calls)
    ensures BlockTexts(CallBlocks(json, calls)) == []
  {
    if calls != [] {
      var call, rest := calls[0], calls[1..];
      assert calls == [call] + rest;
      CallsBack(json, rest);
      CallsCons(json, call, rest);
      ToolUseCons(json, call.id, call.name, json.Parse(call.args), CallBlocks(json, rest));
      OneNormalCall(json, call);
    }
  }

  lemma OneNormalCall<J>(json: Json<J>, call: Call)
    ensures NormalCalls(json, [call]) == [Call(call.id, call.name, json.dumps(json.Parse(call.args)))]
  {
  }

  lemma AssistantBack<J>(json: Json<J>, text: string, calls: seq<Call>)
    ensures BackOne(json, AssistantTurn(json, text, calls)) == [OAssistant(text, NormalCalls(json, calls))]
  {
    if calls == [] {
      assert NormalCalls(json, calls) == [];
    } else {
      CallsBack(json, calls);
      var cs := CallBlocks(json, calls);
      var t := TextBlock<J>(text);
      assert text == "" ==> t + cs == cs;
      assert text != "" ==> (t + cs)[0] == AText(text) && (t + cs)[1..] == cs;
      assert text != "" ==> [text] + [] == [text];
      assert |NormalCalls(json, calls)| > 0;
      assert [] + NormalCalls(json, calls) == NormalCalls(json, calls);
    }
  }

  /** Held tool results, as they will be ungrouped. */
  predicate OnlyResults<J>(bs: seq<ABlock<J>>) {
    forall k | 0 <= k < |bs| :: bs[k].AToolResult?
  }

  lemma {:induction false} ResultsOnly<J>(bs: seq<ABlock<J>>)
    requires OnlyResults(bs)
    ensures FinalParts(bs) == [] && |ToolResults(bs)| == |bs|
  {
    if bs != [] { ResultsOnly(bs[1..]); }
  }

  lemma {:induction false} ResultsSnoc<J>(bs: seq<ABlock<J>>, b: ABlock<J>)
    requires b.AToolResult?
    ensures ToolResults(bs + [b]) == ToolResults(bs) + [OTool(b.id, Str(Flatten(b.content)))]
  {
    if bs == [] {
      assert [] + [b] == [b] && [b][1..] == [];
    } else {
      assert (bs + [b])[0] == bs[0] && (bs + [b])[1..] == bs[1..] + [b];
      ResultsSnoc(bs[1..], b);
    }
  }

  /** What has been converted so far, converted back. */
  function Returned<J>(json: Json<J>, c: Conv<J>): seq<OMsg> {
    BackAll(json, c.out) + ToolResults(c.pending)
  }

  lemma FlushReturned<J>(json: Json<J>, c: Conv<J>)
    requires OnlyResults(c.pending)
    ensures BackAll(json, Flush(c).out) == Returned(json, c) && Flush(c).pending == []
    ensures Returned(json, Flush(c)) == Returned(json, c)
  {
    hide BackAll, ToolResults, FinalParts;
    NoResults<J>();
    if c.pending != [] {
      ResultsOnly(c.pending);
      var turn := AUser(ABlocks(c.pending));
      BackAppend(json, c.out, [turn]);
      OneBack(json, turn);
      assert ToolResults(c.pending) + [] == ToolResults(c.pending);
    }
    assert BackAll(json, Flush(c).out) + [] == BackAll(json, Flush(c).out);
  }

  lemma NoResults<J>()
    ensures ToolResults<J>([]) == []
  {
  }

  lemma OneBack<J>(json: Json<J>, m: AMsg<J>)
    ensures BackAll(json, [m]) == BackOne(json, m)
  {
    hide BackOne;
    assert [m][1..] == [] && BackOne(json, m) + [] == BackOne(json, m);
  }

  lemma TurnReturned<J>(json: Json<J>, c: Conv<J>, turn: AMsg<J>)
    requires OnlyResults(c.pending)
    ensures var f := Flush(c); Returned(json, f.(out := f.out + [turn])) == Returned(json, c) + BackOne(json, turn)
  {
    hide BackAll, ToolResults, BackOne, Flush;
    FlushReturned(json, c);
    NoResults<J>();
    var f := Flush(c);
    BackAppend(json, f.out, [turn]);
    OneBack(json, turn);
    assert BackAll(json, f.out) + [] == BackAll(json, f.out);
    assert BackAll(json, f.out + [turn]) + [] == BackAll(json, f.out + [turn]);
  }

  lemma StepReturned<J>(json: Json<J>, c: Conv<J>, m: OMsg)
    requires OnlyResults(c.pending)
    ensures Returned(json, ConvStep(json, c, m)) == Returned(json, c) + Normal(json, m)
    ensures OnlyResults(ConvStep(json, c, m).pending)
    ensures ConvStep(json, c, m).system == SystemAfter(c.system, m)
  {
    hide BackAll, ToolResults, BackOne, NormalUser, NormalCalls, AssistantTurn, SystemText;
    assert Returned(json, c) + [] == Returned(json, c);
    match m
    case OSystem(_) => FlushReturned(json, c);
    case OUser(content) =>
      if content.Null? {
        FlushReturned(json, c);
        assert Flush(c).out + UserTurns(content) == Flush(c).out;
      } else {
        TurnReturned(json, c, UserTurns(content)[0]);
        UserBack(json, content);
      }
    case OAssistant(text, calls) => TurnReturned(json, c, AssistantTurn(json, text, calls)); AssistantBack(json, text, calls);
    case OTool(id, content) =>
      var b: ABlock<J> := AToolResult(id, content);
      ResultsSnoc(c.pending, b);
      Assoc(BackAll(json, c.out), ToolResults(c.pending), [OTool(id, Str(Flatten(content)))]);
    case OUnknown(_) =>
  }

  lemma {:induction false} AllReturned<J>(json: Json<J>, ms: seq<OMsg>)
    ensures var c := ConvAll(json, ms);
            Returned(json, c) == NormalAll(json, ms) && OnlyResults(c.pending) && c.system == LastSystem(ms)
    decreases |ms|
  {
    hide ConvStep, Normal;
    if ms == [] {
      assert Returned(json, Conv(None, [], [])) == [];
    } else {
      AllReturned(json, ms[..|ms| - 1]);
      StepReturned(json, ConvAll(json, ms[..|ms| - 1]), ms[|ms| - 1]);
    }
  }

  /**
   * For every history: the last system text moves to the front, every other
   * message comes back in place and in normal form, runs of tool messages --
   * grouped into one user turn on the way -- one by one and in order.
   */
  lemma RoundTripNormalises<J>(json: Json<J>, ms: seq<OMsg>)
    ensures RoundTrip(json, ms) == SystemMsgs(LastSystem(ms)) + NormalAll(json, ms)
  {
    hide BackAll, ToolResults, NormalAll, ConvAll, LastSystem, SystemMsgs;
    AllReturned(json, ms);
    FlushReturned(json, ConvAll(json, ms));
  }

  // ----- exactly which histories survive unchanged -----

  /** A media type the data-URL code reads back. */
  predicate PlainMedia(media: string) {
    ',' !in media && ';' !in media && DataFree(media)
  }

  /** `data:<media>;base64,<data>`: a data URL as in section 3 of RFC 2397, without parameters. */
  ghost predicate CanonicalUrl(url: string) {
    exists media: string, data: string {:trigger DataUrl(media, data)} :: PlainMedia(media) && url == DataUrl(media, data)
  }

  predicate KeptPart(p: Part) {
    match p
    case TextPart(t) => t != ""
    case ImagePart(url) => NormalPart(p) == [p]
    case _ => false
  }

  lemma RemovePrefix(media: string)
    ensures RemoveData(DATA + media) == RemoveData(media)
  {
    assert (DATA + media)[5..] == media;
  }

  lemma {:induction false} IndexIs(s: string, c: char, k: nat)
    requires k < |s| && s[k] == c && forall j | 0 <= j < k :: s[j] != c
    ensures IndexOf(s, c) == k
  {
    if k > 0 {
      IndexIs(s[1..], c, k - 1);
    }
  }

  lemma DataSlices(media: string, data: string)
    ensures var front := DATA + media + ";base64"; var url := DataUrl(media, data);
            && url == front + "," + data
            && DATA <= url && url[..|front|] == front && url[|front| + 1..] == data
            && front[..5 + |media|] == DATA + media
  {
    var front := DATA + media + ";base64";
    assert DataUrl(media, data) == front + "," + data;
  }

  /** A data URL without parameters, parsed. */
  lemma ParsedAs(media: string, data: string)
    requires ',' !in media && ';' !in media
    ensures ParseDataUrl(DataUrl(media, data)) == Some((RemoveData(media), data))
  {
    hide RemoveData, IndexOf, DataUrl;
    var front := DATA + media + ";base64";
    DataSlices(media, data);
    FrontEnds(media, data, front, DataUrl(media, data));
    RemovePrefix(media);
  }

  lemma FrontEnds(media: string, data: string, front: string, url: string)
    requires ',' !in media && ';' !in media
    requires front == DATA + media + ";base64" && url == front + "," + data
    ensures IndexOf(url, ',') == |front| && IndexOf(front, ';') == 5 + |media|
  {
    hide IndexOf;
    forall j | 0 <= j < |front| ensures front[j] != ',' && url[j] == front[j] {
      if 5 <= j < 5 + |media| { assert front[j] == media[j - 5]; }
    }
    IndexIs(url, ',', |front|);
    forall j | 0 <= j < 5 + |media| ensures front[j] != ';' {
      if 5 <= j { assert front[j] == media[j - 5]; }
    }
    IndexIs(front, ';', 5 + |media|);
  }

  lemma ParsedMediaPlain(url: string)
    requires ParseDataUrl(url).Some?
    ensures var m := ParseDataUrl(url).value.0; ',' !in m && ';' !in m
  {
    var c := IndexOf(url, ',');
    var front := url[..c];
    var head := front[..IndexOf(front, ';')];
    assert ',' !in head;
    assert forall x | x in RemoveData(head) :: x in head;
  }

  lemma DataUrlInjective(a: string, b: string, data: string)
    ensures DataUrl(a, data) == DataUrl(b, data) <==> a == b
  {
    if DataUrl(a, data) == DataUrl(b, data) {
      DataSlices(a, data);
      DataSlices(b, data);
      assert a == DataUrl(a, data)[5..5 + |a|] && b == DataUrl(b, data)[5..5 + |b|];
    }
  }

  /** The image URLs that survive are exactly the canonical ones. */
  lemma UrlKeptExactly(url: string)
    ensures NormalPart(ImagePart(url)) == [ImagePart(url)] <==> CanonicalUrl(url)
  {
    hide ParseDataUrl, RemoveData, DataFree, DataUrl;
    if CanonicalUrl(url) {
      var media: string, data: string :| PlainMedia(media) && url == DataUrl(media, data);
      ParsedAs(media, data);
      RemovedExactly(media);
    }
    if NormalPart(ImagePart(url)) == [ImagePart(url)] {
      var md := ParseDataUrl(url).value;
      ParsedMediaPlain(url);
      ParsedAs(md.0, md.1);
      DataUrlInjective(RemoveData(md.0), md.0, md.1);
      RemovedExactly(md.0);
      assert PlainMedia(md.0) && url == DataUrl(md.0, md.1);
    }
  }

  /** One message that the round trip leaves alone. */
  predicate Kept<J>(json: Json<J>, m: OMsg) {
    match m
    case OUser(Str(_)) => true
    case OUser(Parts(ps)) => ps != [] && forall k | 0 <= k < |ps| :: KeptPart(ps[k])
    case OAssistant(_, calls) => forall k | 0 <= k < |calls| :: json.dumps(json.Parse(calls[k].args)) == calls[k].args
    case OTool(_, c) => c.Str?
    case _ => false
  }

  /** At most one leading non-empty system string, then kept messages only. */
  predicate Normalised<J>(json: Json<J>, ms: seq<OMsg>) {
    var body := if ms != [] && ms[0].OSystem? then ms[1..] else ms;
    && (ms != [] && ms[0].OSystem? ==> ms[0].content.Str? && ms[0].content.s != "")
    && EachKept(json, body)
  }

  predicate EachKept<J>(json: Json<J>, ms: seq<OMsg>) {
    forall k | 0 <= k < |ms| :: Kept(json, ms[k])
  }

  lemma {:induction false} PartsKept(ps: seq<Part>)
    ensures |NormalParts(ps)| <= |ps|
    ensures NormalParts(ps) == ps <==> forall k | 0 <= k < |ps| :: KeptPart(ps[k])
  {
    if ps != [] {
      hide NormalPart, KeptPart;
      var h, t := NormalPart(ps[0]), NormalParts(ps[1..]);
      PartsKept(ps[1..]);
      PartKept(ps[0]);
      ConsKept(h, t, ps);
      assert forall k | 0 <= k < |ps[1..]| :: ps[1..][k] == ps[k + 1];
      assert (forall k | 0 <= k < |ps| :: KeptPart(ps[k])) <==>
             KeptPart(ps[0]) && forall k | 0 <= k < |ps[1..]| :: KeptPart(ps[1..][k]) by { KeptCons(ps); }
    }
  }

  lemma PartKept(p: Part)
    ensures |NormalPart(p)| <= 1 && (NormalPart(p) == [p] <==> KeptPart(p))
  {
    hide ParseDataUrl, DataUrl;
  }

  lemma KeptCons(ps: seq<Part>)
    requires ps != []
    ensures (forall k | 0 <= k < |ps| :: KeptPart(ps[k])) <==>
            KeptPart(ps[0]) && forall k | 0 <= k < |ps[1..]| :: KeptPart(ps[1..][k])
  {
    hide KeptPart;
    if KeptPart(ps[0]) && forall k | 0 <= k < |ps[1..]| :: KeptPart(ps[1..][k]) {
      forall k | 0 <= k < |ps| ensures KeptPart(ps[k]) {
        if k > 0 { assert ps[1..][k - 1] == ps[k]; }
      }
    }
  }

  lemma ConsKept<T>(h: seq<T>, t: seq<T>, all: seq<T>)
    requires all != [] && |h| <= 1 && |t| <= |all| - 1
    ensures h + t == all <==> h == [all[0]] && t == all[1..]
  {
    if h + t == all {
      assert |h| == 1 && (h + t)[0] == h[0] && (h + t)[1..] == t;
    }
    assert all == [all[0]] + all[1..];
  }

  lemma OneKept<J>(json: Json<J>, m: OMsg)
    ensures Normal(json, m) == [m] <==> Kept(json, m)
  {
    hide NormalParts, KeptPart;
    match m
    case OUser(Parts(ps)) => PartsKept(ps);
    case OAssistant(_, calls) =>
      if NormalCalls(json, calls) == calls {
        forall k | 0 <= k < |calls| ensures json.dumps(json.Parse(calls[k].args)) == calls[k].args {
          assert NormalCalls(json, calls)[k] == calls[k];
        }
      }
    case _ =>
  }

  lemma {:induction false} NormalLength<J>(json: Json<J>, ms: seq<OMsg>)
    ensures |NormalAll(json, ms)| <= |ms|
    ensures |NormalAll(json, ms)| == |ms| ==> forall k | 0 <= k < |ms| :: !ms[k].OSystem? && !ms[k].OUnknown?
    ensures forall m | m in NormalAll(json, ms) :: !m.OSystem?
    decreases |ms|
  {
    hide Normal;
    if ms != [] {
      NormalLength(json, ms[..|ms| - 1]);
      NormalShort(json, ms[|ms| - 1]);
    }
  }

  lemma {:induction false} AllKept<J>(json: Json<J>, ms: seq<OMsg>)
    ensures NormalAll(json, ms) == ms <==> EachKept(json, ms)
    decreases |ms|
  {
    hide Kept, Normal;
    if ms != [] {
      var n := |ms| - 1;
      AllKept(json, ms[..n]);
      OneKept(json, ms[n]);
      NormalLength(json, ms[..n]);
      NormalShort(json, ms[n]);
      LastKept(ms, NormalAll(json, ms[..n]), Normal(json, ms[n]));
      assert forall k | 0 <= k < n :: ms[..n][k] == ms[k];
    }
  }

  lemma NormalShort<J>(json: Json<J>, m: OMsg)
    ensures var n := Normal(json, m);
            |n| <= 1 && (m.OSystem? || m.OUnknown? ==> n == []) && forall x | x in n :: !x.OSystem?
  {
    hide NormalUser, NormalCalls, Flatten;
  }

  lemma LastKept<T>(ms: seq<T>, h: seq<T>, t: seq<T>)
    requires ms != [] && |h| <= |ms| - 1 && |t| <= 1
    ensures h + t == ms <==> h == ms[..|ms| - 1] && t == [ms[|ms| - 1]]
  {
    var n := |ms| - 1;
    assert ms == ms[..n] + [ms[n]];
    if h + t == ms {
      assert h == (h + t)[..n] && t == (h + t)[n..];
    }
  }

  lemma {:induction false} NoSystem(ms: seq<OMsg>)
    requires forall k | 0 <= k < |ms| :: !ms[k].OSystem?
    ensures LastSystem(ms) == None
    decreases |ms|
  {
    if ms != [] { NoSystem(ms[..|ms| - 1]); }
  }

  lemma {:induction false} LeadingSystem(s: OMsg, ms: seq<OMsg>)
    requires s.OSystem? && forall k | 0 <= k < |ms| :: !ms[k].OSystem?
    ensures LastSystem([s] + ms) == SystemAfter(None, s)
    decreases |ms|
  {
    var all := [s] + ms;
    if ms == [] {
      assert all == [s];
    } else {
      var n := |ms| - 1;
      assert all[..|all| - 1] == [s] + ms[..n] && all[|all| - 1] == ms[n];
      LeadingSystem(s, ms[..n]);
    }
  }

  lemma {:induction false} SystemDropped<J>(json: Json<J>, s: OMsg, ms: seq<OMsg>)
    requires s.OSystem?
    ensures NormalAll(json, [s] + ms) == NormalAll(json, ms)
    decreases |ms|
  {
    hide Normal;
    var all := [s] + ms;
    if ms == [] {
      assert all == [s] && [s][..0] == [];
      assert Normal(json, s) == [] by { SystemGone(json, s); }
    } else {
      var n := |ms| - 1;
      assert all[..|all| - 1] == [s] + ms[..n] && all[|all| - 1] == ms[n];
      SystemDropped(json, s, ms[..n]);
    }
  }

  lemma SystemGone<J>(json: Json<J>, s: OMsg)
    requires s.OSystem?
    ensures Normal(json, s) == []
  {
  }

  /** The round trip is the identity exactly on normalised histories. */
  lemma RoundTripIdentityExactly<J>(json: Json<J>, ms: seq<OMsg>)
    ensures RoundTrip(json, ms) == ms <==> Normalised(json, ms)
  {
    hide NormalAll, LastSystem, EachKept, SystemText, RoundTrip;
    RoundTripNormalises(json, ms);
    NormalLength(json, ms);
    var out := NormalAll(json, ms);
    if ms != [] && ms[0].OSystem? {
      var body := ms[1..];
      assert ms == [ms[0]] + body;
      NormalLength(json, body);
      AllKept(json, body);
      LeadingBack(json, ms[0], body);
    } else {
      AllKept(json, ms);
      PlainBack(json, ms);
      assert RoundTrip(json, ms) == ms <==> out == ms;
    }
  }

  lemma PlainBack<J>(json: Json<J>, ms: seq<OMsg>)
    requires ms != [] ==> !ms[0].OSystem?
    ensures SystemMsgs(LastSystem(ms)) + NormalAll(json, ms) == ms <==> NormalAll(json, ms) == ms
  {
    hide NormalAll, LastSystem;
    NormalLength(json, ms);
    var sys, out := SystemMsgs(LastSystem(ms)), NormalAll(json, ms);
    assert sys != [] ==> (sys + out)[0] == sys[0];
    if out == ms {
      forall k | 0 <= k < |ms| ensures !ms[k].OSystem? { assert ms[k] in out; }
      NoSystem(ms);
    }
    assert [] + out == out;
  }

  lemma LeadingBack<J>(json: Json<J>, s: OMsg, body: seq<OMsg>)
    requires s.OSystem?
    ensures var ms := [s] + body;
            SystemMsgs(LastSystem(ms)) + NormalAll(json, ms) == ms
            <==> s.content.Str? && s.content.s != "" && NormalAll(json, body) == body
  {
    hide NormalAll, LastSystem;
    var ms := [s] + body;
    SystemDropped(json, s, body);
    NormalLength(json, body);
    var sys, out := SystemMsgs(LastSystem(ms)), NormalAll(json, body);
    assert [] + out == out;
    if sys + out == ms {
      SystemFirst(sys, out, ms);
    }
    if out == body {
      forall k | 0 <= k < |body| ensures !body[k].OSystem? { assert body[k] in out; }
      LeadingSystem(s, body);
      assert sys != [] && sys[0] == s ==> sys + out == ms;
    }
  }

  lemma NoSystemHead(out: seq<OMsg>)
    requires forall m | m in out :: !m.OSystem?
    ensures out != [] ==> !out[0].OSystem?
  {
  }

  lemma SystemFirst(sys: seq<OMsg>, out: seq<OMsg>, ms: seq<OMsg>)
    requires ms != [] && ms[0].OSystem? && sys + out == ms && |sys| <= 1
    requires forall m | m in out :: !m.OSystem?
    ensures sys == [ms[0]] && out == ms[1..]
  {
    assert [] + out == out;
    if sys == [] {
      NoSystemHead(out);
    }
  }

  // ----- what becomes of a message, part by part -----

  lemma {:induction false} JoinExactly(sep: string, parts: seq<string>)
    ensures |parts| == 0 ==> JoinWith(sep, parts) == ""
    ensures |parts| == 1 ==> JoinWith(sep, parts) == parts[0]
    ensures var n := |parts| - 1; n > 0 ==> JoinWith(sep, parts) == JoinWith(sep, parts[..n]) + sep + parts[n]
  {
    if |parts| > 1 {
      var n, rest := |parts| - 1, parts[1..];
      JoinExactly(sep, rest);
      if n == 1 {
        assert parts[..1] == [parts[0]];
      } else {
        assert parts[..n][1..] == rest[..n - 1];
        var x := JoinWith(sep, rest[..n - 1]);
        assert (parts[0] + sep) + (x + sep + parts[n]) == ((parts[0] + sep) + x) + sep + parts[n];
      }
    }
  }

  lemma {:induction false} TextsAppend(a: seq<Part>, b: seq<Part>)
    ensures NonEmptyTexts(a + b) == NonEmptyTexts(a) + NonEmptyTexts(b)
  {
    hide PartText;
    if a == [] {
      assert a + b == b;
    } else {
      assert (a + b)[0] == a[0] && (a + b)[1..] == a[1..] + b;
      TextsAppend(a[1..], b);
    }
  }

  lemma TextsExactly(ps: seq<Part>, p: Part)
    ensures NonEmptyTexts([]) == [] && AllTexts([]) == []
    ensures NonEmptyTexts(ps + [p]) == NonEmptyTexts(ps) + (if (p.TextPart? || p.Bare?) && p.text != "" then [p.text] else [])
    ensures AllTexts(ps + [p]) == AllTexts(ps) + [if p.TextPart? || p.Bare? then p.text else ""]
  {
    OneText(p);
    hide NonEmptyTexts, PartText;
    TextsAppend(ps, [p]);
  }

  lemma OneText(p: Part)
    ensures NonEmptyTexts([p]) == (if (p.TextPart? || p.Bare?) && p.text != "" then [p.text] else []) && NonEmptyTexts([]) == []
    ensures PartText(p) == if p.TextPart? || p.Bare? then p.text else ""
  {
    assert [p][1..] == [];
  }

  /** Tool contents and system contents as text: parts on lines of their own without the empty ones; parts between blanks. */
  lemma ContentsAsText(ps: seq<Part>, p: Part)
    requires p.TextPart? || p.Bare?
    ensures Flatten(Null) == ""
    ensures Flatten(Parts(ps + [p])) ==
            if p.text == "" then Flatten(Parts(ps)) else if NonEmptyTexts(ps) == [] then p.text else Flatten(Parts(ps)) + "\n" + p.text
    ensures ps != [] ==> SystemText(Parts(ps + [p])) == SystemText(Parts(ps)) + " " + p.text
  {
    TextsExactly(ps, p);
    var a, b := NonEmptyTexts(ps), AllTexts(ps);
    JoinExactly("\n", a + [p.text]);
    JoinExactly(" ", b + [p.text]);
    assert (a + [p.text])[..|a|] == a && (b + [p.text])[..|b|] == b;
    assert a + [] == a;
  }

  /** An image is kept exactly when its URL starts with `data:` and has a comma. */
  lemma DataUrlExactly(url: string)
    ensures ParseDataUrl(url).Some? <==> "data:" <= url && ',' in url
  {
    hide RemoveData;
    var c := IndexOf(url, ',');
    assert url == url[..c] + url[c..];
  }

  /** The data is what follows the first comma. */
  lemma DataAfterComma(front: string, data: string)
    requires ',' !in front && "data:" <= front + "," + data
    ensures ParseDataUrl(front + "," + data).Some? && ParseDataUrl(front + "," + data).value.1 == data
  {
    hide RemoveData, IndexOf;
    IndexIs(front + "," + data, ',', |front|);
  }

  /** Up to the first semicolon or the comma, the media type without `data:`. */
  lemma MediaExactly(media: string, params: string, data: string)
    requires ',' !in media && ';' !in media && ',' !in params && (params != "" ==> params[0] == ';')
    ensures ParseDataUrl("data:" + media + params + "," + data) == Some((RemoveData(media), data))
  {
    hide RemoveData, IndexOf, ParseDataUrl;
    var head := DATA + media;
    assert ',' !in head && ';' !in head;
    MediaParsed(head, params, data);
    RemovePrefix(media);
    assert "data:" + media + params + "," + data == head + params + "," + data;
  }

  lemma MediaParsed(head: string, params: string, data: string)
    requires DATA <= head && ',' !in head && ';' !in head && ',' !in params && (params != "" ==> params[0] == ';')
    ensures ParseDataUrl(head + params + "," + data) == Some((RemoveData(head), data))
  {
    hide RemoveData, IndexOf;
    var front := head + params;
    var url := front + "," + data;
    IndexIs(url, ',', |front|);
    assert url[..|front|] == front && url[|front| + 1..] == data;
    if params == "" {
      assert front == head;
      SemicolonLast(front);
      assert front[..|front|] == head;
    } else {
      IndexIs(front, ';', |head|);
      assert front[..|head|] == head;
    }
  }

  lemma SemicolonLast(s: string)
    requires ';' !in s
    ensures IndexOf(s, ';') == |s|
  {
  }

  lemma {:induction false} BlocksAppendParts<J>(a: seq<Part>, b: seq<Part>)
    ensures UserBlocks<J>(a + b) == UserBlocks<J>(a) + UserBlocks<J>(b)
  {
    hide PartBlocks;
    if a == [] {
      assert a + b == b;
    } else {
      assert (a + b)[0] == a[0] && (a + b)[1..] == a[1..] + b;
      BlocksAppendParts<J>(a[1..], b);
      Assoc(PartBlocks<J>(a[0]), UserBlocks<J>(a[1..]), UserBlocks<J>(b));
    }
  }

  /** A user's list becomes one block per text, plain string and data image, in order; if nothing remains, empty text. */
  lemma UserBecomes<J>(ps: seq<Part>, p: Part)
    ensures UserBlocks<J>([]) == [] && UserTurns<J>(Null) == []
    ensures UserBlocks<J>(ps + [p]) == UserBlocks<J>(ps) +
            (if p.TextPart? || p.Bare? then [AText(p.text)]
             else if p.ImagePart? && ParseDataUrl(p.url).Some? then [AImage(ParseDataUrl(p.url).value.0, ParseDataUrl(p.url).value.1)]
             else [])
    ensures |UserTurns<J>(Parts(ps))| == 1 && UserTurns<J>(Parts(ps))[0].AUser?
    ensures UserTurns<J>(Parts(ps))[0].content == if UserBlocks<J>(ps) == [] then AStr("") else ABlocks(UserBlocks(ps))
  {
    hide ParseDataUrl;
    BlocksAppendParts<J>(ps, [p]);
    assert [p][1..] == [] && PartBlocks<J>(p) + [] == PartBlocks<J>(p);
  }

  /** What a block other than a tool result leaves in a user message. */
  function FinalPart<J>(b: ABlock<J>): seq<Part> {
    if b.AText? && b.text != "" then [TextPart(b.text)]
    else if b.AImage? then [ImagePart("data:" + b.media + ";base64," + b.data)]
    else []
  }

  lemma {:induction false} CallsBackSnoc<J>(json: Json<J>, bs: seq<ABlock<J>>, b: ABlock<J>)
    ensures ToolCalls(json, bs + [b]) == ToolCalls(json, bs) + (if b.AToolUse? then [Call(b.id, b.name, json.dumps(b.input))] else [])
  {
    if bs == [] {
      assert bs + [b] == [b] && [b][1..] == [];
    } else {
      assert (bs + [b])[0] == bs[0] && (bs + [b])[1..] == bs[1..] + [b];
      CallsBackSnoc(json, bs[1..], b);
    }
  }

  lemma TextsBackSnoc<J>(bs: seq<ABlock<J>>, b: ABlock<J>)
    ensures BlockTexts(bs + [b]) == BlockTexts(bs) + (if b.AText? && b.text != "" then [b.text] else [])
  {
    OneBlockText(b);
    hide BlockTexts;
    TextsBackAppend(bs, [b]);
  }

  lemma OneBlockText<J>(b: ABlock<J>)
    ensures BlockTexts([b]) == if b.AText? && b.text != "" then [b.text] else []
  {
    assert [b][1..] == [];
  }

  lemma {:induction false} TextsBackAppend<J>(a: seq<ABlock<J>>, b: seq<ABlock<J>>)
    ensures BlockTexts(a + b) == BlockTexts(a) + BlockTexts(b)
  {
    if a == [] {
      assert a + b == b;
    } else {
      assert (a + b)[0] == a[0] && (a + b)[1..] == a[1..] + b;
      TextsBackAppend(a[1..], b);
    }
  }

  lemma {:induction false} ResultsBackSnoc<J>(bs: seq<ABlock<J>>, b: ABlock<J>)
    ensures ToolResults(bs + [b]) == ToolResults(bs) + (if b.AToolResult? then [OTool(b.id, Str(Flatten(b.content)))] else [])
  {
    hide Flatten;
    if bs == [] {
      assert bs + [b] == [b] && [b][1..] == [];
    } else {
      assert (bs + [b])[0] == bs[0] && (bs + [b])[1..] == bs[1..] + [b];
      ResultsBackSnoc(bs[1..], b);
    }
  }

  lemma FinalStep<J>(bs: seq<ABlock<J>>)
    requires bs != []
    ensures FinalParts(bs) == FinalPart(bs[0]) + FinalParts(bs[1..])
  {
  }

  lemma {:induction false} PartsBackSnoc<J>(bs: seq<ABlock<J>>, b: ABlock<J>)
    ensures FinalParts(bs + [b]) == FinalParts(bs) + FinalPart(b)
  {
    hide FinalPart, FinalParts;
    if bs == [] {
      assert bs + [b] == [b] && [b][1..] == [];
      FinalStep([b]);
      NoBlocks<J>();
      assert FinalPart(b) + [] == FinalPart(b) && [] + FinalPart(b) == FinalPart(b);
    } else {
      assert (bs + [b])[0] == bs[0] && (bs + [b])[1..] == bs[1..] + [b];
      PartsBackSnoc(bs[1..], b);
      FinalStep(bs);
      FinalStep(bs + [b]);
      Assoc(FinalPart(bs[0]), FinalParts(bs[1..]), FinalPart(b));
    }
  }

  /** On the way back: the calls, texts, tool results and other parts of a block list, block by block. */
  lemma BlocksBack<J>(json: Json<J>, bs: seq<ABlock<J>>, b: ABlock<J>)
    ensures ToolCalls(json, bs + [b]) == ToolCalls(json, bs) + (if b.AToolUse? then [Call(b.id, b.name, json.dumps(b.input))] else [])
    ensures BlockTexts(bs + [b]) == BlockTexts(bs) + (if b.AText? && b.text != "" then [b.text] else [])
    ensures ToolResults(bs + [b]) == ToolResults(bs) + (if b.AToolResult? then [OTool(b.id, Str(Flatten(b.content)))] else [])
    ensures FinalParts(bs + [b]) == FinalParts(bs) + FinalPart(b)
  {
    hide ToolCalls, BlockTexts, ToolResults, FinalParts, FinalPart, Flatten;
    CallsBackSnoc(json, bs, b);
    TextsBackSnoc(bs, b);
    ResultsBackSnoc(bs, b);
    PartsBackSnoc(bs, b);
  }

  /**
   * An assistant's turn comes back as one message: its calls, and its texts
   * joined by blanks when there are calls, by line ends otherwise. A user's
   * turn comes back as one message per tool result and, if anything else
   * remains or there is no result, one user message after them.
   */
  lemma TurnsBack<J>(json: Json<J>, bs: seq<ABlock<J>>)
    ensures var back := BackOne(json, AAssistant(ABlocks(bs)));
            && |back| == 1 && back[0].OAssistant? && back[0].calls == ToolCalls(json, bs)
            && back[0].text == JoinWith(if exists b | b in bs :: b.AToolUse? then " " else "\n", BlockTexts(bs))
    ensures var back, n := BackOne(json, AUser(ABlocks(bs))), |ToolResults(bs)|;
            && back[..n] == ToolResults(bs)
            && (if FinalParts(bs) != [] then back[n..] == [OUser(Parts(FinalParts(bs)))]
                else if exists b | b in bs :: b.AToolResult? then |back| == n
                else back == [OUser(Str(JoinWith("\n", BlockTexts(bs))))])
  {
    UsesThere(json, bs);
  }

  lemma {:induction false} UsesThere<J>(json: Json<J>, bs: seq<ABlock<J>>)
    ensures ToolCalls(json, bs) != [] <==> exists b | b in bs :: b.AToolUse?
    ensures ToolResults(bs) != [] <==> exists b | b in bs :: b.AToolResult?
  {
    hide Flatten;
    if bs != [] { UsesThere(json, bs[1..]); }
  }

  // ----- tool inputs -----

  function Turns<J>(json: Json<J>, ms: seq<OMsg>): seq<AMsg<J>> {
    Flush(ConvAll(json, ms)).out
  }

  /** Every call becomes a tool_use block, after the text if there is one, whose input is the parsed arguments, or {}. */
  lemma ToolInputs<J>(json: Json<J>, text: string, calls: seq<Call>)
    requires calls != []
    ensures var turns := Turns(json, [OAssistant(text, calls)]);
            && |turns| == 1 && turns[0].AAssistant? && turns[0].content.ABlocks?
            && var bs := turns[0].content.blocks;
               var n := if text == "" then 0 else 1;
               && |bs| == n + |calls| && (text != "" ==> bs[0] == AText(text))
               && forall k | 0 <= k < |calls| ::
                    && bs[n + k].AToolUse? && bs[n + k].id == calls[k].id && bs[n + k].name == calls[k].name
                    && (forall j | json.loads(calls[k].args) == Some(j) :: bs[n + k].input == j)
                    && (json.loads(calls[k].args) == None ==> bs[n + k].input == json.empty)
  {
    OneTurn(json, text, calls);
    hide Turns;
  }

  lemma OneTurn<J>(json: Json<J>, text: string, calls: seq<Call>)
    ensures Turns(json, [OAssistant(text, calls)]) == [AssistantTurn(json, text, calls)]
  {
    hide AssistantTurn;
    var ms := [OAssistant(text, calls)];
    assert ms[..0] == [] && ConvAll(json, ms[..0]) == Conv(None, [], []);
    assert ConvAll(json, ms).out == [] + [AssistantTurn(json, text, calls)];
  }

  /** Serialised objects parse back. */
  ghost predicate ParsesBack<J(!new)>(json: Json<J>) {
    forall j: J :: json.loads(json.dumps(j)) == Some(j)
  }

  /** Calls whose arguments are serialised objects come back from the round trip as they were. */
  lemma CallsComeBack<J(!new)>(json: Json<J>, ms: seq<OMsg>, m: OMsg, inputs: seq<J>)
    requires ParsesBack(json) && m in ms && m.OAssistant? && |inputs| == |m.calls|
    requires forall k | 0 <= k < |inputs| :: m.calls[k].args == json.dumps(inputs[k])
    ensures m in RoundTrip(json, ms)
  {
    hide NormalAll, RoundTrip;
    RoundTripNormalises(json, ms);
    forall k | 0 <= k < |m.calls| ensures json.dumps(json.Parse(m.calls[k].args)) == m.calls[k].args {
      assert json.loads(json.dumps(inputs[k])) == Some(inputs[k]);
    }
    OneKept(json, m);
    assert m in Normal(json, m);
    NormalIn(json, ms, m);
  }

  lemma {:induction false} NormalIn<J>(json: Json<J>, ms: seq<OMsg>, m: OMsg)
    requires m in ms
    ensures forall n | n in Normal(json, m) :: n in NormalAll(json, ms)
    decreases |ms|
  {
    hide Normal;
    if ms[|ms| - 1] != m { NormalIn(json, ms[..|ms| - 1], m); }
  }

  // ----- doing the round trip twice -----

  /** A second round trip leaves what the first made of this message alone. */
  predicate Settles<J>(json: Json<J>, m: OMsg) {
    match m
    case OUser(Parts(ps)) => forall k | 0 <= k < |ps| :: SettledPart(ps[k])
    case OAssistant(_, calls) =>
      forall k | 0 <= k < |calls| ::
        var once := json.dumps(json.Parse(calls[k].args)); json.dumps(json.Parse(once)) == once
    case _ => true
  }

  /** The media type read from a data URL has no "data:" left in it. */
  predicate SettledPart(p: Part) {
    p.ImagePart? && ParseDataUrl(p.url).Some? ==> DataFree(ParseDataUrl(p.url).value.0)
  }

  /** The normal form of an image is kept exactly when its media type has settled. */
  lemma ImageSettles(url: string, media: string, data: string)
    requires ParseDataUrl(url) == Some((media, data))
    ensures NormalPart(ImagePart(url)) == [ImagePart(DataUrl(media, data))]
    ensures KeptPart(ImagePart(DataUrl(media, data))) <==> DataFree(media)
  {
    hide ParseDataUrl, RemoveData, DataUrl, DataFree;
    RemovedExactly(media);
    ParsedMediaPlain(url);
    ParsedAs(media, data);
    DataUrlInjective(RemoveData(media), media, data);
  }

  /** The normal form of a part is kept exactly when the part settles. */
  lemma PartSettles(p: Part)
    ensures (forall q | q in NormalPart(p) :: KeptPart(q)) <==> SettledPart(p)
  {
    hide ParseDataUrl, RemoveData, DataUrl, DataFree;
    if p.ImagePart? && ParseDataUrl(p.url).Some? {
      var md := ParseDataUrl(p.url).value;
      ImageSettles(p.url, md.0, md.1);
      hide NormalPart, KeptPart;
      assert ImagePart(DataUrl(md.0, md.1)) in NormalPart(p);
    }
  }

  lemma {:induction false} PartsSettle(ps: seq<Part>)
    ensures (forall q | q in NormalParts(ps) :: KeptPart(q)) <==> forall k | 0 <= k < |ps| :: SettledPart(ps[k])
  {
    if ps != [] {
      hide KeptPart, SettledPart, NormalPart;
      PartsSettle(ps[1..]);
      PartSettles(ps[0]);
      assert forall k | 0 <= k < |ps[1..]| :: ps[1..][k] == ps[k + 1];
      assert forall q :: q in NormalParts(ps) <==> q in NormalPart(ps[0]) || q in NormalParts(ps[1..]);
    }
  }

  lemma CallsSettle<J>(json: Json<J>, text: string, calls: seq<Call>)
    ensures Kept(json, OAssistant(text, NormalCalls(json, calls))) <==> Settles(json, OAssistant(text, calls))
  {
    var n := NormalCalls(json, calls);
    assert |n| == |calls| && forall k | 0 <= k < |n| :: n[k].args == json.dumps(json.Parse(calls[k].args));
  }

  lemma UserSettles<J>(json: Json<J>, ps: seq<Part>)
    ensures Kept(json, OUser(NormalUser(Parts(ps)))) <==> Settles(json, OUser(Parts(ps)))
  {
    hide KeptPart, SettledPart, NormalParts;
    PartsSettle(ps);
    var q := NormalParts(ps);
    assert (forall p | p in q :: KeptPart(p)) <==> forall k | 0 <= k < |q| :: KeptPart(q[k]);
  }

  lemma OneSettles<J>(json: Json<J>, m: OMsg)
    ensures (forall n | n in Normal(json, m) :: Kept(json, n)) <==> Settles(json, m)
  {
    match m
    case OUser(Parts(ps)) =>
      UserSettles(json, ps);
      hide Kept, Settles, NormalUser;
      assert Normal(json, m) == [OUser(NormalUser(Parts(ps)))];
      assert OUser(NormalUser(Parts(ps))) in Normal(json, m);
    case OAssistant(text, calls) =>
      CallsSettle(json, text, calls);
      hide Kept, Settles, NormalCalls;
      assert Normal(json, m) == [OAssistant(text, NormalCalls(json, calls))];
      assert OAssistant(text, NormalCalls(json, calls)) in Normal(json, m);
    case _ =>
  }

  lemma {:induction false} AllSettle<J>(json: Json<J>, ms: seq<OMsg>)
    ensures EachKept(json, NormalAll(json, ms)) <==> EachSettles(json, ms)
    decreases |ms|
  {
    hide Kept, Settles, Normal, EachSettles;
    if ms == [] {
      assert EachSettles(json, []) by { NoneSettle(json); }
    } else {
      var less, m := ms[..|ms| - 1], ms[|ms| - 1];
      AllSettle(json, less);
      OneSettles(json, m);
      KeptAppend(json, NormalAll(json, less), Normal(json, m));
      assert ms == less + [m];
      SettlesSnoc(json, less, m);
    }
  }

  predicate EachSettles<J>(json: Json<J>, ms: seq<OMsg>) {
    forall k | 0 <= k < |ms| :: Settles(json, ms[k])
  }

  lemma NoneSettle<J>(json: Json<J>)
    ensures EachSettles(json, [])
  {
  }

  lemma SettlesSnoc<J>(json: Json<J>, ms: seq<OMsg>, m: OMsg)
    ensures EachSettles(json, ms + [m]) <==> EachSettles(json, ms) && Settles(json, m)
  {
    hide Settles;
    assert (ms + [m])[|ms|] == m && forall k | 0 <= k < |ms| :: (ms + [m])[k] == ms[k];
  }

  lemma KeptAppend<J>(json: Json<J>, a: seq<OMsg>, b: seq<OMsg>)
    ensures EachKept(json, a + b) <==> EachKept(json, a) && forall m | m in b :: Kept(json, m)
  {
    hide Kept;
    var all := a + b;
    assert forall k | 0 <= k < |a| :: all[k] == a[k];
    assert forall k | 0 <= k < |b| :: all[|a| + k] == b[k];
  }

  /**
   * Doing the round trip twice is doing it once exactly when every media type
   * read from a data URL is free of "data:" and every re-serialised argument
   * text serialises to itself.
   */
  lemma TwiceExactly<J>(json: Json<J>, ms: seq<OMsg>)
    ensures var once := RoundTrip(json, ms);
            RoundTrip(json, once) == once <==> EachSettles(json, ms)
  {
    hide RoundTrip, Settles, NormalAll, EachKept, LastSystem, EachSettles;
    var once, body := RoundTrip(json, ms), NormalAll(json, ms);
    RoundTripNormalises(json, ms);
    RoundTripIdentityExactly(json, once);
    NormalLength(json, ms);
    AllSettle(json, ms);
    NoSystemHead(body);
    var sys := SystemMsgs(LastSystem(ms));
    assert sys != [] ==> once[0] == sys[0] && once[1..] == body;
    assert sys == [] ==> once == body;
  }

  predicate MediaSettled(ms: seq<OMsg>) {
    forall m | m in ms && m.OUser? && m.content.Parts? :: forall k | 0 <= k < |m.content.parts| :: SettledPart(m.content.parts[k])
  }

  /** Then doing the round trip twice is doing it once exactly when no media type read from a data URL has a "data:" in it. */
  lemma OnlyMediaUnsettled<J(!new)>(json: Json<J>, ms: seq<OMsg>)
    requires ParsesBack(json)
    ensures var once := RoundTrip(json, ms);
            RoundTrip(json, once) == once <==> MediaSettled(ms)
  {
    hide RoundTrip, SettledPart;
    TwiceExactly(json, ms);
    if MediaSettled(ms) {
      forall k | 0 <= k < |ms| ensures Settles(json, ms[k]) { assert ms[k] in ms; }
    }
    forall m | EachSettles(json, ms) && m in ms && m.OUser? && m.content.Parts?
      ensures forall k | 0 <= k < |m.content.parts| :: SettledPart(m.content.parts[k])
    {
      assert Settles(json, m);
    }
  }

  const STUBBORN_URL: string := DataUrl("dadata:ta:", "AA")
  const STUBBORN: OMsg := OUser(Parts([ImagePart(STUBBORN_URL)]))

  lemma RemoveCons(c: char, rest: string)
    ensures !(DATA <= [c] + rest) ==> RemoveData([c] + rest) == [c] + RemoveData(rest)
  {
    assert ([c] + rest)[1..] == rest;
  }

  lemma RemovedOnce()
    ensures RemoveData("dadata:ta:") == "data:" && RemoveData("data:") == ""
  {
    hide RemoveData;
    NothingRemoved();
    RemoveCons(':', "");
    assert RemoveData(":") == ":" by { assert [':'] + "" == ":"; }
    RemoveCons('a', ":");
    assert RemoveData("a:") == "a:" by { assert ['a'] + ":" == "a:"; }
    RemoveCons('t', "a:");
    assert RemoveData("ta:") == "ta:" by { assert ['t'] + "a:" == "ta:"; }
    RemovePrefix("ta:");
    assert DATA + "ta:" == "data:ta:";
    RemoveCons('a', "data:ta:");
    assert RemoveData("adata:ta:") == "ata:" by {
      assert ['a'] + "data:ta:" == "adata:ta:" && ['a'] + "ta:" == "ata:" && "adata:ta:"[0] != DATA[0];
    }
    RemoveCons('d', "adata:ta:");
    assert ['d'] + "adata:ta:" == "dadata:ta:" && ['d'] + "ata:" == "data:";
    assert "dadata:ta:"[2] != DATA[2];
    RemovePrefix("");
    assert DATA + "" == "data:";
  }

  lemma NothingRemoved()
    ensures RemoveData("") == ""
  {
  }

  /** A media type from which one removal of "data:" leaves "data:". */
  lemma StubbornMedia<J>(json: Json<J>)
    ensures !Settles(json, STUBBORN)
    ensures RoundTrip(json, RoundTrip(json, [STUBBORN])) != RoundTrip(json, [STUBBORN])
  {
    hide DataUrl, RoundTrip, RemoveData, ParseDataUrl, STUBBORN_URL, DataFree;
    assert STUBBORN_URL == DataUrl("dadata:ta:", "AA") by { StubbornUrl(); }
    ParsedAs("dadata:ta:", "AA");
    RemovedOnce();
    RemovedExactly("data:");
    assert STUBBORN.content.parts[0] == ImagePart(STUBBORN_URL);
    TwiceExactly(json, [STUBBORN]);
    assert [STUBBORN][0] == STUBBORN;
  }

  lemma StubbornUrl()
    ensures STUBBORN_URL == DataUrl("dadata:ta:", "AA")
  {
  }

  // ----- grouping -----

  /** A message that ends a run of tool results. */
  predicate Speaks(m: OMsg) {
    m.OSystem? || m.OUser? || m.OAssistant?
  }

  function Results<J>(ms: seq<OMsg>): seq<ABlock<J>>
    requires forall k | 0 <= k < |ms| :: ms[k].OTool?
    decreases |ms|
  {
    if ms == [] then []
    else var m := ms[|ms| - 1]; Results(ms[..|ms| - 1]) + [AToolResult(m.callId, m.content)]
  }

  lemma ConvSnoc<J>(json: Json<J>, ms: seq<OMsg>, m: OMsg)
    ensures ConvAll(json, ms + [m]) == ConvStep(json, ConvAll(json, ms), m)
  {
    assert (ms + [m])[..|ms|] == ms;
  }

  /** A message that speaks flushes, then adds its own turn. */
  lemma SpeakStep<J>(json: Json<J>, c: Conv<J>, d: Conv<J>, m: OMsg)
    requires Speaks(m) && d.pending == []
    ensures ConvStep(json, c, m).out == Flush(c).out + ConvStep(json, d, m).out[|d.out|..] && ConvStep(json, c, m).pending == []
    ensures d.out <= ConvStep(json, d, m).out && ConvStep(json, d, m).pending == []
  {
    hide SystemText, UserTurns, AssistantTurn;
  }

  /** Behind a common history, the same steps. */
  lemma SameStep<J>(json: Json<J>, front: seq<AMsg<J>>, c: Conv<J>, d: Conv<J>, m: OMsg)
    requires c.out == front + d.out && c.pending == d.pending
    ensures ConvStep(json, c, m).out == front + ConvStep(json, d, m).out
    ensures ConvStep(json, c, m).pending == ConvStep(json, d, m).pending
  {
    hide SystemText, UserTurns, AssistantTurn;
  }

  /** From a message that speaks on, the conversion starts afresh. */
  lemma {:induction false} FreshStart<J>(json: Json<J>, a: seq<OMsg>, b: seq<OMsg>)
    requires b != [] && Speaks(b[0])
    ensures ConvAll(json, a + b).out == Turns(json, a) + ConvAll(json, b).out
    ensures ConvAll(json, a + b).pending == ConvAll(json, b).pending
    decreases |b|
  {
    hide ConvAll, ConvStep, Flush;
    var less, m := b[..|b| - 1], b[|b| - 1];
    assert b == less + [m] && a + b == (a + less) + [m];
    ConvSnoc(json, a + less, m);
    ConvSnoc(json, less, m);
    if less == [] {
      assert a + less == a;
      NothingConverted(json);
      SpeakStep(json, ConvAll(json, a), ConvAll(json, []), m);
    } else {
      FreshStart(json, a, less);
      SameStep(json, Turns(json, a), ConvAll(json, a + less), ConvAll(json, less), m);
    }
  }

  lemma NothingConverted<J>(json: Json<J>)
    ensures ConvAll(json, []) == Conv(None, [], [])
  {
  }

  lemma {:induction false} RunPending<J>(json: Json<J>, a: seq<OMsg>, run: seq<OMsg>)
    requires forall k | 0 <= k < |run| :: run[k].OTool?
    requires ConvAll(json, a).pending == []
    ensures ConvAll(json, a + run) == ConvAll(json, a).(pending := Results(run))
    decreases |run|
  {
    hide ConvAll;
    if run == [] {
      assert a + run == a;
    } else {
      var less, m := run[..|run| - 1], run[|run| - 1];
      assert a + run == (a + less) + [m];
      RunPending(json, a, less);
      ConvSnoc(json, a + less, m);
    }
  }

  lemma TurnsFresh<J>(json: Json<J>, a: seq<OMsg>, b: seq<OMsg>)
    requires b != [] ==> Speaks(b[0])
    ensures Turns(json, a + b) == Turns(json, a) + Turns(json, b)
  {
    hide ConvAll;
    if b == [] {
      assert a + b == a;
      NothingConverted(json);
    } else {
      FreshStart(json, a, b);
    }
  }

  lemma TurnsOfRun<J>(json: Json<J>, a: seq<OMsg>, run: seq<OMsg>)
    requires a != [] ==> Speaks(a[|a| - 1])
    requires run != [] && forall k | 0 <= k < |run| :: run[k].OTool?
    ensures Turns(json, a + run) == Turns(json, a) + [AUser(ABlocks(Results(run)))]
  {
    hide ConvAll;
    SpokenSettled(json, a);
    RunPending(json, a, run);
    ResultsThere<J>(run);
  }

  /**
   * A run of adjacent tool messages, wherever it stands, becomes exactly one
   * user turn holding their results in order; what is before and after it is
   * converted on its own.
   */
  lemma RunsGrouped<J>(json: Json<J>, before: seq<OMsg>, run: seq<OMsg>, after: seq<OMsg>)
    requires run != [] && forall k | 0 <= k < |run| :: run[k].OTool?
    requires before != [] ==> Speaks(before[|before| - 1])
    requires after != [] ==> Speaks(after[0])
    ensures Turns(json, before + run + after) == Turns(json, before) + [AUser(ABlocks(Results(run)))] + Turns(json, after)
  {
    hide Turns, Results;
    TurnsOfRun(json, before, run);
    TurnsFresh(json, before + run, after);
  }

  lemma SpokenSettled<J>(json: Json<J>, ms: seq<OMsg>)
    requires ms != [] ==> Speaks(ms[|ms| - 1])
    ensures ConvAll(json, ms).pending == []
  {
    if ms != [] {
      assert ms == ms[..|ms| - 1] + [ms[|ms| - 1]];
    }
  }

  lemma ResultsThere<J>(run: seq<OMsg>)
    requires run != [] && forall k | 0 <= k < |run| :: run[k].OTool?
    ensures Results<J>(run) != []
  {
  }
}
