// Values that travel through the streaming translators.
module StreamTypes {

  datatype Option<+T> = None | Some(value: T)

  /**
   * One entry of an OpenAI `delta.tool_calls` array. A missing `id` key is
   * None; `drawn` is the random id the translator would then generate.
   */
  datatype ToolDelta = ToolDelta(index: int, id: Option<string>, drawn: string, name: string, args: string)

  /**
   * One parsed OpenAI chunk. Absent, null and empty strings are the same to
   * the code (it tests truthiness) and are "" here; `completion` is
   * usage.completion_tokens, 0 when absent.
   */
  datatype Chunk =
    | NoChoice(completion: nat)
    | Choice(reasoning: string, content: string, tools: seq<ToolDelta>, finish: string, completion: nat)

  datatype Kind = Text | Thinking | ToolUse

  datatype BlockHead = TextHead | ThinkingHead | ToolHead(id: string, name: string)

  /** The Anthropic stream events the translator yields. */
  datatype Event =
    | MessageStart
    | Ping
    | BlockStart(index: nat, head: BlockHead)
    | BlockDelta(index: nat, kind: Kind, text: string)
    | BlockStop(index: nat)
    | MessageDelta(stopReason: string, outputTokens: nat)
    | MessageStop

  /** A content block as a client assembles it. */
  datatype Block = Block(head: BlockHead, text: string)

  function KindOf(head: BlockHead): Kind {
    match head
    case TextHead => Text
    case ThinkingHead => Thinking
    case ToolHead(_, _) => ToolUse
  }

  function ProseHead(thinking: bool): BlockHead {
    if thinking then ThinkingHead else TextHead
  }

  /** Concatenation of a list of strings. */
  function Join(parts: seq<string>): string {
    if parts == [] then "" else parts[0] + Join(parts[1..])
  }

  lemma Assoc<T>(a: seq<T>, b: seq<T>, c: seq<T>)
    ensures (a + b) + c == a + (b + c)
  {
  }

  lemma Cut<T>(s: seq<T>, i: nat, e: nat)
    requires i <= e <= |s|
    ensures s[..i] + (s[i..e] + s[e..]) == s
    ensures s[..i] + s[i..] == s
  {
  }
}
