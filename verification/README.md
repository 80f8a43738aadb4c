# Proofs about the router's core

A Dafny model of the parts of the router whose behaviour is hardest to see from one function, and
statements about them with their proofs. `dafny verify dfyconfig.toml` checks everything.

Code that updates state in place is modelled by classes and loops (`Translator`, `Converter`,
`ThinkingStripper`, `LogStore`, `QcPool`, `CustomKeys`, `RouteHealth`, and the methods of `Compaction`, `Messages`,
`Response`, `Priming` and `KeyPolicy`). Each is proved to do exactly what a pure specification function says; the
theorems are about those functions. What the functions decide at the bottom -- which lines become a stream, what a tag is,
what a column holds, what a refusal means, what a key may call -- is stated once more in terms of the input alone
(`ChunksStreamed`, `TagExactly`, `RowExactly`, `QuotaExactly`, `PermittedExactly`, `VerdictExactly` and others).

1. **The streaming translator** (`Tags`, `Splitter`, `BlockWriter`, `AnthropicStream`). Content passes a
   splitter that recognises reasoning tags with 20 characters held back; its decisions drive a block writer.
   `BlockProtocol` gives an automaton for the event protocol, `SplitInvariance` a one-pass reference split,
   `Conservation` and `ToolCalls` say that nothing is lost, `Pipeline` and `Meaning` follow a stream to Anthropic
   events and back, `Response` compares it with the non-streamed translation, and `Stripper`, `SteadyReplies` and
   `Agreement` treat the Playground's independent implementation and compare the two.
2. **Message lists** (`Compaction`, `Messages`): shortening a conversation without separating tool results from
   their calls, and the round trip between the two message formats.
3. **Request logging** (`RequestLog`): any number of workers that may stop anywhere, over a Redis stream with a
   consumer group and an idempotent insert, as a step relation over all interleavings.
4. **Keys and routes** (`QcKeys`, `QcFailover`, `QcRaces`, `CustomPool`, `Priming`, `RouteBreaker`, `KeyPolicy`):
   per-model key selection and failover, alone and among other requests, the dispatch loop over a custom pool with other requests
   rotating it, the preflight of a stream, model routes with circuit breakers, and the settings of a router key.

The main results, hardest first: `ProtocolExactly` and `EveryPrefixLegal`, `SplitInvariantExactly`, `MeaningPreserved`,
`AnyCutExactly` and `CutProofExactly`, `BothShowTheSame`, `ContentConserved` and `ToolArgumentsConserved`,
`CompactMessages` with `GreatestExactly` and `CompactTwice`, `ExactlyOnce`, `AckMeansRowExactly`, `LostExactly` and
`TotalsExactly`, `FailoverInOrder`, `MissedWasUnusable` and `MarksExactly`, `CursorExactly`, `RoundTripIdentityExactly`
and `TwiceExactly`, `ResponseAgreesExactly` and `StreamingAgrees`, `SkipBound` and `AttemptsExactly`,
`ListedResolvesExactly` and `RoutesFlatExactly`.

What the code does not guarantee is part of the result:

- A reasoning tag longer than 21 characters is not recognised if it arrives in two chunks (`SplitInvariantExactly`),
  and a returning tool index breaks the block protocol (`ProtocolExactly`).
- The Playground's stripper lets go of a tag with attributes that is cut after its name. For a closing tag that is
  harmless only at the end or right before an opening tag (`AnyCutExactly`, `CutProofExactly`).
- Without a database pool the log worker acknowledges entries it never wrote (`AckMeansRowExactly`, `SilentLoss`);
  a trimmed entry is lost for good exactly when it has no row and no worker holds it (`LostExactly`, `TrimLoses`), and
  with it its share of the totals (`TotalsExactly`).
- With a finish reason other than stop, length or tool_calls and no tool call, translating a stream and back changes
  the finish reason (`MeaningPreserved`).
- The key settings say that routes cannot point to routes; a route name typed with surrounding blanks defeats the
  check, because candidates are compared with the names as typed but stored stripped (`RoutesFlatExactly`). An allowed
  model with a comma in its name is not allowed by its own list (`AllowlistExactly`). A rename can lead a listed name
  to a model the key may not call (`ListedResolvesExactly`), or a route to another model than its candidate
  (`CandidateRunsExactly`); `ListedAstray` and `CandidateAstray` give accepted settings that do.
- When a call id is used twice, compaction can keep more than the greatest closed cut would: exactly when such a cut lies
  between a result and the first of its calls (`GreatestExactly`, `DuplicateIds`).
- The message round trip is not idempotent for a media type from which one removal of "data:" leaves another
  (`TwiceExactly`, `OnlyMediaUnsettled`, `StubbornMedia`).
- The streamed and the non-streamed translation of one message differ when its content has two thoughts, a closing tag
  of another name, or white space around a thought (`ResponseAgreesExactly`).
- A request can give up with a key untried that was usable before and after, when another request exhausts it in between
  (`MissedWasUnusable`, `RaceMisses`).
- Where the comments of app/translator.py say that a stopped index is never reused (lines 444-446), lines 701-711
  reuse it; the model follows the code.

## Model

| member | source | states |
|---|---|---|
| AnthropicStream.Translator.constructor | app/translator.py:457-463 | A translator starts with no open block, no tool calls, index 0, finish reason "stop" and an empty hold-back buffer. |
| AnthropicStream.Translator.Stop | app/translator.py:465-471 | Closing the open block, if any, is the pure `StopCurrent` step. |
| AnthropicStream.Translator.Open | app/translator.py:473-478 | Opening a block takes the next index and puts it on the cursor. |
| AnthropicStream.Translator.Say | app/translator.py:591-597 | The repeated "right kind of block open? else close and open one, then send a delta". |
| AnthropicStream.Translator.DrainBuffer | app/translator.py:580-659 | The tag loop leaves exactly the writer, buffer and in-thinking flag of `Splitter.Drain`: every complete tag consumed, all but 20 characters released. |
| AnthropicStream.Translator.Reasoning | app/translator.py:565-575 | reasoning_content is one thinking delta and one token when reasoning is shown, nothing otherwise. |
| AnthropicStream.Translator.Content | app/translator.py:577-659 | Content is added to the buffer and run through the tag loop; empty content changes nothing. |
| AnthropicStream.Translator.Release | app/translator.py:661-682 | A chunk with tool calls first writes out whatever is held back and leaves thinking mode. |
| AnthropicStream.Translator.CallDelta | app/translator.py:684-716 | One tool delta: new index opens a block, a known one is turned back to, arguments are sent to the block of that index; the token count grows by one per argument fragment. |
| AnthropicStream.Translator.CallDeltas | app/translator.py:684-716 | All tool deltas of a chunk, in order, as `ApplyAll` of their decisions. |
| AnthropicStream.Translator.Chunk | app/translator.py:549-716 | One whole chunk refines `FeedChunk`, `FinishOf` and `ChunkTokens`. |
| AnthropicStream.Translator.Close | app/translator.py:718-745 | The final flush, the last stop, message_delta and message_stop. |
| AnthropicStream.Translator.Pump | app/translator.py:523-745 | message_start, ping and every chunk up to [DONE]; an upstream error ends the stream without closing events. |
| AnthropicStream.Translator.Run | app/translator.py:483-745 | The generator on any list of upstream lines yields exactly `Translated`: unframed error bodies, errors before and after the first chunk, and a [DONE] met too early included. |
| AnthropicStream.ChunksStreamed | app/translator.py:483-548 | Lines with at least one chunk before the end, [DONE] or a failure, whatever noise lies between and whatever follows, give the finished stream of exactly those chunks; after a failure, what those chunks put on the wire, and an exception. |
| AnthropicStream.NothingBeforeFailure | app/translator.py:488-521 | A failure before any chunk sends nothing; nor does a bare error body, whether [DONE] or the end comes first. |
| AnthropicStream.EarlyDone | app/translator.py:497-498 | Without a chunk the empty message is sent; after a [DONE] met before the first chunk the rest is still read. |
| AnthropicStream.BrokenLacksClosing | app/translator.py:718-745 | What a broken stream has sent is the beginning of the finished one, which goes on for six events at most. |
| Splitter.DrainMatch | app/translator.py:581-607 | With a complete tag in the buffer, the text before it is written, the tag is dropped, and the loop goes on in the other mode. |
| Splitter.DrainHold | app/translator.py:608-620 | Without one, all but the last 20 characters are written. |
| Splitter.FeedAllAppend | app/translator.py:549-681 | Feeding two runs of chunks is feeding their concatenation. |
| Splitter.StreamWeave | app/translator.py:577-682 | After any chunks, the content received is, in order, the text written or held back and the tags removed; each removed tag is a tag. |
| BlockWriter.ApplyAllView | app/translator.py:465-481 | The events, assembled into blocks as a client would, are what the event-free writer says, and cursor, tool map and blocks agree. |
| BlockWriter.EventBlocks | app/translator.py:549-745 | The block list of a whole stream is that of its writing decisions. |
| BlockProtocol.ProtocolExactly | app/translator.py:443-456 | The events of a finished stream are message_start, ping, blocks 0, 1, 2, … each opened, extended by deltas of its kind and stopped, never two open, message_delta, message_stop -- exactly when no tool index returns after content, shown reasoning or another index. |
| BlockProtocol.EveryPrefixLegal | app/translator.py:523-745 | Under the same condition every prefix of the output, at every moment, is a prefix of a legal stream. |
| BlockProtocol.StreamForward | app/translator.py:701-711 | The writer turns back to a stopped tool block exactly when the input has a returning tool index. |
| SplitInvariance.SplitInvariantExactly | app/translator.py:577-659 | For content-only streams, the blocks equal the one-pass split of the concatenated content for every cut into chunks exactly when every tag the split consumes has at most 21 characters. |
| SplitInvariance.WholeStream | app/translator.py:718-740 | The direction used by clients: fitting tags, any cut, same blocks. |
| SplitInvariance.TornChunks | app/translator.py:608-620 | For every text with a longer tag, two chunks whose blocks differ from the one-pass split. |
| SplitInvariance.AtOnce | app/translator.py:577-659 | Content that arrives in one chunk becomes the one-pass blocks, whatever its tags. |
| SplitInvariance.LongTagExample | app/translator.py:609-612 | A 22-character tag does not fit. |
| SplitInvariance.FittingTagExample | app/translator.py:609-612 | A 21-character tag does. |
| ToolCalls.ToolArgumentsConserved | app/translator.py:684-716 | One tool block per call index, in order of first appearance, headed by the first delta's id and name, holding every argument fragment sent for that index, however deltas interleave. |
| ToolCalls.StreamCalls | app/translator.py:661-684 | The tool deltas decided on are those received, in order. |
| Conservation.ContentConserved | app/translator.py:565-735 | For every chunk stream, the deltas sent split into content, reasoning and arguments such that content pieces and removed tags weave to the upstream content, and reasoning and tool deltas are those received. |
| Conservation.TokensTold | app/translator.py:551-574 | The client is told the last completion count upstream reported plus one for each reasoning delta and piece of arguments from that chunk on; without a report, the number of all of these. |
| Conservation.ChannelsForwarded | app/translator_openai.py:294-362 | Converting any event stream back to OpenAI chunks forwards its text as content and its thinking as reasoning, complete and in order. |
| Tags.FindFirst | app/translator.py:583-583 | The search finds the leftmost match. |
| Tags.TagExactly | app/translator.py:583-583 | A match is one of the five names in any letter case after < or </, ended by a character that is no letter, digit or underscore, and runs to the first >. |
| Tags.TagGrow | app/translator.py:583-586 | A match depends only on the characters up to its end. |
| Tags.TagShift | app/translator.py:583-607 | Matching looks only to the right, so cutting a consumed prefix moves matches along. |
| Tags.FindGrow | app/translator.py:581-607 | The first match of a buffer stays the first match as more text arrives. |
| Pipeline.Converter.Convert | app/translator_openai.py:265-388 | One Anthropic event becomes at most one OpenAI chunk, and the block-to-index map changes only on a tool block's start. |
| Pipeline.Converter.ConvertStream | app/translator_openai.py:263-390 | A stream of events through one converter is `ConvertAll`. |
| Pipeline.AggregateSse | app/routers/proxy.py:1695-1776 | Aggregating an OpenAI stream: content joined, calls by index with names and arguments joined, sorted, last finish reason, "tool_calls" when there are calls. |
| Pipeline.CallsAggregated | app/routers/proxy.py:1736-1746 | Aggregating any tool deltas, in whatever pieces: each index has one call with all its names and arguments joined and its last non-empty id, or that of the first delta without one. |
| Pipeline.ForwardsOneThing | app/translator_openai.py:268-388 | Each forwarded chunk carries one thing and no usage; stop reasons become length, tool_calls or stop, an empty one nothing. |
| Pipeline.SortedIs | app/routers/proxy.py:1753-1753 | Sorting a set of indices is its ascending enumeration. |
| Pipeline.ThereAndBack | app/translator_openai.py:244-390 | For every chunk stream, translating to Anthropic events, converting back and aggregating gives the text of the text blocks, the tool blocks as calls and the finish reason both stop-reason maps leave. |
| Meaning.TextPreserved | app/translator.py:577-735 | Tag-free content comes out as the concatenated text blocks, whatever else the chunks carry. |
| Meaning.MeaningPreserved | app/routers/proxy.py:1706-1754 | Tag-free content, whole ids and names in a call's first delta, ascending first indices: the message aggregated after the detour equals the one aggregated without it exactly when there are tool calls or the finish reason is stop, length or tool_calls. |
| Meaning.AggDirect | app/routers/proxy.py:1713-1746 | The aggregation is content, argument tables and last finish reason of the chunk list. |
| Response.AppendContent | app/translator.py:208-234 | The content string adds, step by step, the text before one tag pair, the stripped reasoning and the stripped rest; or, without a pair, the text before an unclosed tag and the reasoning; or the text as it is. |
| Response.ToAnthropicContent | app/translator.py:199-253 | The content list of a non-streamed reply, built step by step: reasoning, the content string, then the tool calls with parsed arguments; and the mapped stop reason. |
| Response.OrderedBlocks | app/translator.py:549-745 | Reasoning, then tag-free content, then tool calls, cut in any way: the streamed blocks are one thinking block, one text block and one block per call. |
| Response.StreamingAgrees | app/translator.py:193-266 | Cutting one tag-free message into chunks in any way and assembling the stream shows the same content list and stop reason as the non-streamed translation of it. |
| Response.StopToldExactly | app/translator.py:742-743 | tool_calls is told as tool_use, length as max_tokens, everything else as end_turn. |
| Response.CallsShown | app/translator.py:236-246 | The tool calls come last in a non-streamed reply, each with its id, name and parsed arguments, or {} when they do not parse. |
| Response.PhasesInOrder | app/translator.py:549-716 | Any chunks with reasoning only, then with content only, then with tool calls only meet the order that `StreamingAgrees` asks for. |
| Response.SplitIsContentExactly | app/translator.py:208-234 | For every content string the one-pass split is the non-streamed translation exactly when there is no opening tag, or the text after the first one is non-empty without outer white space up to the first closing tag, which, if there is one, is the bare one of the same name and followed by tag-free text without outer white space. |
| Response.ResponseAgreesExactly | app/translator.py:549-745 | However the content is cut into chunks the streamed blocks are those of the non-streamed translation, exactly when that holds and no consumed tag has more than 21 characters. |
| Stripper.ThinkingStripper.constructor | app/routers/playground.py:33-35 | Starts outside, with nothing held back. |
| Stripper.ThinkingStripper.Push | app/routers/playground.py:37-74 | `feed` on any state, piece and flag is `Feed`: tags and hidden text dropped, only the longest partial tag held back. |
| Stripper.ThinkingStripper.Relay | app/routers/playground.py:130-173 | A streamed reply shows what its pieces show, then the flush at [DONE]. |
| Stripper.TailLongest | app/routers/playground.py:23-27 | The retained tail is at least as long as every tail that could begin a tag. |
| Stripper.TailIsTail | app/routers/playground.py:23-27 | And it is itself such a tail. |
| Stripper.BareRetained | app/routers/playground.py:50-68 | A bare tag that is not complete yet lies within the retained tail. |
| SteadyReplies.AnyCutExactly | app/routers/playground.py:37-74 | A whole reply shows the same for every cut into pieces exactly when its text is steady: consumed opening tags are bare; each consumed closing tag ends bare, ends the text, or is followed at once by an opening tag. |
| SteadyReplies.LostCloseExactly | app/routers/playground.py:41-65 | Losing a closing tag before steady text changes nothing -- that text reads alike from inside and outside, and steadily -- exactly when the text is empty or begins with an opening tag. |
| SteadyReplies.OutsideShowsMore | app/routers/playground.py:41-65 | Text that is steady both ways shows no less when read from outside hidden reasoning than from inside, and more unless it is empty or begins with an opening tag. |
| SteadyReplies.CleanStreamed | app/routers/playground.py:37-74 | A clean reply shows the same however it is cut into pieces. |
| SteadyReplies.CutProofExactly | app/routers/playground.py:111-127 | Streaming shows what the part received so far would show as a whole reply, at every moment and for every cut, exactly when consumed opening tags are bare and closing ones end in a bare closing tag or end the text. |
| Agreement.SeenIsText | app/routers/playground.py:56-64 | What the stripper leaves of a whole text is the text blocks of its one-pass split. |
| Agreement.BothShowTheSame | app/routers/playground.py:30-74 | For independent cuts of the same content the Playground text equals the text blocks an Anthropic client gets, as soon as the text is steady for the one and its tags fit the hold-back of the other. |
| Agreement.AgreeExactly | app/routers/playground.py:30-74 | The two agree for all pairs of cuts only on steady content, and when no tag has more than 21 characters exactly there. |
| Agreement.BareTagsAgree | app/routers/playground.py:30-74 | In particular with bare tags. |
| Compaction.FindCaller | app/translator.py:801-807 | The first assistant that made the call; none exactly when no assistant did. |
| Compaction.ActiveIds | app/translator.py:791-795 | Exactly the ids called in the kept part. |
| Compaction.DropOrphans | app/translator.py:787-823 | The orphan loop terminates by (cut point, kept length) and keeps the conversation from where the cut settles -- moved back to the first caller of the first result whose call is cut off, until there is none -- without results whose call exists nowhere; for every input, duplicate ids included. |
| Compaction.CompactMessages | app/translator.py:750-827 | Short inputs come back as they are; otherwise the system messages, then the conversation from where the cut settles, without results whose call exists nowhere. |
| Compaction.SettledClosed | app/translator.py:787-823 | The cut settles at a closed one, and at the initial one whenever that is closed. |
| Compaction.GreatestWhenUnique | app/translator.py:801-814 | With unique call ids the cut settles at the greatest closed cut at or below the initial one. |
| Compaction.GreatestExactly | app/translator.py:787-823 | From every cut of a conversation the code settles at the greatest closed cut at or below it, exactly when no tool result whose calls all come before it has a closed cut between its first call and itself. |
| Compaction.DuplicateIds | app/translator.py:801-814 | A list with a call id used twice, of which keeping one message keeps all three; the greatest closed cut would keep two. |
| Compaction.NoOrphans | app/translator.py:787-788 | No kept tool result with an id lacks its call. |
| Compaction.NothingOrphaned | app/translator.py:750-827 | In every shortened conversation each kept tool result with an id has a kept assistant that made the call, and behind the cut only results are dropped whose call no assistant ever made. |
| Compaction.InitialCutExactly | app/translator.py:769-785 | The cut starts at the first user message among the last keep_last; without one there, at the first user message of all; without any, at the last keep_last messages. |
| Compaction.UserCutClosed | app/translator.py:753-754 | When the user never speaks between a call and its result, cutting at a user message is closed. |
| Compaction.SizeBound | app/translator.py:778-785 | Then, with a user message among the last keep_last, at most keep_last conversation messages are kept. |
| Compaction.CompactTwice | app/translator.py:750-827 | When every tool result has a caller, compacting twice is compacting once -- with duplicate ids too. |
| Messages.ToAnthropicMessages | app/translator_openai.py:10-134 | The loop with its pending tool results is `ConvAll` followed by a flush. |
| Messages.ToOpenAIMessages | app/translator.py:31-108 | The way back is the system message and `BackAll`. |
| Messages.RunsGrouped | app/translator_openai.py:19-30 | A run of adjacent tool messages, wherever it stands, becomes exactly one user turn with the results in order; the rest is converted as if it were not there. |
| Messages.RoundTripNormalises | app/translator.py:67-103 | For every history, there and back moves the last non-null system text to the front, drops unknown roles and null user messages, and puts every other message in normal form in place; grouped tool results are ungrouped in order. |
| Messages.RoundTripIdentityExactly | app/translator_openai.py:10-134 | The round trip is the identity exactly on normalised histories. |
| Messages.TwiceExactly | app/translator_openai.py:10-134 | Doing the round trip twice is doing it once exactly when no media type read from a data URL has a "data:" in it and every re-serialised argument text serialises to itself. |
| Messages.OnlyMediaUnsettled | app/translator_openai.py:10-134 | When serialised objects parse back, exactly when no media type read from a data URL has a "data:" in it. |
| Messages.RemovedExactly | app/translator_openai.py:117-117 | Removing "data:" leaves a text alone exactly when it does not occur in it. |
| Messages.StubbornMedia | app/translator_openai.py:112-118 | The media type `dadata:ta:`, for which it is not. |
| Messages.UrlKeptExactly | app/translator_openai.py:112-124 | An image URL survives exactly when it is a base64 data URL without parameters whose media type has no "data:" in it (section 3 of RFC 2397). |
| Messages.ToolInputs | app/translator_openai.py:50-75 | The calls of an assistant become, after the text if any, one tool_use block each with its id, name and parsed arguments, or {} when they do not parse. |
| Messages.CallsComeBack | app/translator.py:44-55 | When serialised objects parse back, an assistant message whose arguments are serialised objects comes back from the round trip unchanged, wherever it stands. |
| Messages.ContentsAsText | app/translator.py:6-11 | Lists are flattened part by part: non-empty texts on lines of their own, system texts between blanks. |
| Messages.DataUrlExactly | app/translator_openai.py:112-118 | An image is kept exactly when its URL starts with data: and has a comma. |
| Messages.DataAfterComma | app/translator_openai.py:114-122 | The data is what follows the first comma. |
| Messages.MediaExactly | app/translator_openai.py:117-117 | The media type is what stands before the first semicolon or the comma. |
| Messages.UserBecomes | app/translator_openai.py:96-130 | The list of a user becomes one block per text, plain string and data image, in order, and empty text if nothing remains. |
| Messages.BlocksBack | app/translator.py:44-95 | The calls, texts, tool results and other parts of a block list, block by block. |
| Messages.TurnsBack | app/translator.py:43-105 | An assistant turn comes back as one message, its texts joined by blanks beside calls and by line ends otherwise; a user turn as its tool results and then one message with what remains. |
| RequestLog.Decode | app/request_log_worker.py:39-65 | Rows of the well-formed entries and the ids of all of them, in order. |
| RequestLog.RowExactly | app/request_log_worker.py:44-62 | A payload has a row exactly when its five required keys are there and its numbers are readable; every column is the value under the key of its name, 0 or empty where it may be absent. |
| RequestLog.RowComesBack | app/config.py:223-234 | The payload enqueued for a request decodes to the row of that request. |
| RequestLog.LogStore.Enqueue | app/redis_store.py:214-221 | A payload is appended. |
| RequestLog.LogStore.ReadBatch | app/redis_store.py:224-232 | Delivers at most `count` new entries and makes them pending for this consumer. |
| RequestLog.LogStore.ClaimStale | app/redis_store.py:235-246 | Takes over pending entries; trimmed ones leave the pending list. |
| RequestLog.DeliveredTo | app/redis_store.py:224-232 | After a read each new entry that is still there belongs to the reader, every other pending one to its owner. |
| RequestLog.ClaimedBy | app/redis_store.py:235-246 | A claim moves the claimed entries that are still there, drops the trimmed ones and leaves the others. |
| RequestLog.InsertInterrupted | app/database.py:100-109 | A worker may stop in its insert after any number of rows. |
| RequestLog.DirectWritten | app/config.py:223-234 | When Redis is down the row of a request is written directly and without an entry id, if there is a pool. |
| RequestLog.LogStore.PersistBatch | app/database.py:81-109 | Inserts the rows in order, skipping known event ids; does nothing without a pool. |
| RequestLog.LogStore.Acknowledge | app/redis_store.py:249-256 | Pending ids become acknowledged; others are ignored. |
| RequestLog.LogStore.Handle | app/request_log_worker.py:86-89 | One undisturbed pass: decode, persist, acknowledge. |
| RequestLog.InsertAllKeeps | app/database.py:100-109 | Inserting decodings of entries keeps one row per entry, loses no row and leaves every one of them present. |
| RequestLog.StepKeeps | app/request_log_worker.py:68-100 | Every step of any worker, crashes and partial inserts included, keeps the invariant. |
| RequestLog.RunsKeep | app/request_log_worker.py:68-100 | It holds after every run. |
| RequestLog.AtMostOnce | app/database.py:84-85 | After any run no entry has two rows and every streamed row is the decoding of its entry. |
| RequestLog.ExactlyOnce | app/request_log_worker.py:76-89 | With a pool, an acknowledged well-formed entry -- so every one that was delivered, is not pending and was not trimmed -- has exactly one row, its decoding; a malformed one never has a row. |
| RequestLog.NothingForgotten | app/redis_store.py:224-256 | Every entry is undelivered, pending, acknowledged or trimmed; the first three exclude one another. |
| RequestLog.AckMeansRowExactly | app/database.py:87-88 | In every run an acknowledged well-formed entry has a row -- exactly when there is a connection pool. |
| RequestLog.SilentLoss | app/database.py:87-88 | The run without a pool that acknowledges an entry and writes nothing. |
| RequestLog.LostExactly | app/redis_store.py:216-221 | With a pool, from any reachable state: no continuation ever writes the row of a well-formed entry exactly when the entry was trimmed, has no row, and no worker holds it. |
| RequestLog.CarefulTrimsLoseNothing | app/redis_store.py:216-221 | When every trim drops only acknowledged entries, no well-formed entry is ever lost, and each one delivered and no longer pending has its row. |
| RequestLog.TrimLoses | app/redis_store.py:216-221 | The run in which trimming an undelivered entry loses it for good, as an instance. |
| RequestLog.TotalsAlways | app/database.py:111-129 | At every moment of every run with a pool, totals recomputed from the table are those of the entries with a row plus the direct writes; they are those of all well-formed entries ever enqueued exactly when each has its row. |
| RequestLog.TotalsCountEach | app/database.py:121-126 | Each row adds one request, the sum of its input and output tokens, and one rotation if it was rotated. |
| RequestLog.TotalsExactly | app/database.py:111-129 | Whenever nothing is undelivered or pending, for any history of redeliveries, crashes and trims, the totals are conserved exactly when every trimmed well-formed entry has its row. |
| RequestLog.TotalsConserved | app/database.py:111-129 | So with trims that drop only acknowledged entries they are always conserved. |
| QcKeys.ScanFirst | app/config.py:544-549 | The scan stops at the first usable key of the ring. |
| QcKeys.WrapIsModulo | app/config.py:545-545 | Positions wrap as the remainder does. |
| QcKeys.QcPool.GetCurrent | app/config.py:535-550 | Selection refines `Current`. |
| QcKeys.QcPool.Rotate | app/config.py:553-580 | Rotation refines `Rotated`, counter and unchanged pool on failure included. |
| QcKeys.QcPool.MarkExhausted | app/config.py:583-591 | Marks the key for this model. |
| QcKeys.QcPool.MarkInvalid | app/config.py:599-609 | Quarantines a key of the pool; other keys are ignored. |
| QcKeys.QcPool.Reset | app/config.py:622-629 | Clears the marks and restarts the cursors that were on the key. |
| QcFailover.MarkedUsable | app/config.py:583-619 | After the marks of one answer a key is usable for a model exactly when it was, unless it is the key that answered and was refused as invalid, or for quota on this model. |
| QcKeys.UsableExactly | app/config.py:545-549 | A key is out for a model exactly when it is quarantined or marked for that model. |
| QcKeys.QuotaExactly | app/routers/proxy.py:78-92 | A refusal counts as quota exactly for status 402 or 429, or a body with one of the quota terms in it. |
| QcKeys.InvalidExactly | app/routers/proxy.py:95-106 | A refusal counts as an invalid key exactly for status 401 or 403 with one of the terms in the body. |
| QcFailover.StrangerIgnored | app/config.py:599-609 | Reporting a key that is not in the pool as invalid changes nothing. |
| QcKeys.QcPool.RotateAfterFailure | app/routers/proxy.py:107-112 | Marks by status and body, then rotates past the failed key. |
| QcKeys.QcPool.Serve | app/routers/proxy.py:2128-2251 | Whatever other requests do to marks and cursors while it waits, the retry loop refines `Raced`: which keys, which marks, which reply. |
| QcFailover.SelectionIsFirst | app/config.py:535-550 | Selection gives "" exactly when no key is usable, else the first usable key from the cursor, where the cursor stays; other cursors do not move. |
| QcFailover.RotationLands | app/config.py:553-580 | Rotation finds a key exactly when one is usable, and puts the cursor on the next one, the failed one last. |
| QcFailover.RotateTwiceExactly | app/config.py:563-566 | Reporting the same failed key twice moves the cursor no further than once, exactly when the key is in the pool or at most one key is usable. |
| QcRaces.AloneIsAttempts | app/routers/proxy.py:2128-2251 | Without other requests the loop is `Attempts`, which the next theorems are about. |
| QcRaces.RotationsHarmless | app/config.py:563-572 | However often other requests move cursors meanwhile, a request tries the keys it would try alone, leaves the same marks and gives the same reply. |
| QcRaces.MissedWasUnusable | app/routers/proxy.py:2128-2251 | Whatever other requests mark, reset and rotate meanwhile, a request that gives up has missed a key only if that key was unusable at one of its selections. |
| QcRaces.RaceMisses | app/routers/proxy.py:2128-2251 | A key that is usable before and after can be missed when another request exhausts it in between. |
| QcFailover.FailoverInOrder | app/routers/proxy.py:2128-2251 | Whatever upstream answers, the keys tried are the keys usable at the start in ring order, each once before any repeats, and the loop does not give up before all were tried. |
| QcFailover.EveryKeyTried | app/routers/proxy.py:2128-2251 | If the loop gives up, every key usable at the start was tried. |
| QcFailover.LastAnswerReplies | app/routers/proxy.py:2128-2251 | The reply is that of the last attempt, 500 for an exception; all attempts before it were refused with a retryable status, and it was too only at the end of the pool. |
| QcFailover.OrderHas | app/config.py:544-549 | That order names exactly the usable keys. |
| QcFailover.MarksExactly | app/routers/proxy.py:78-112 | After a request a key stays usable for a model unless a retried attempt with it was refused as invalid, or -- for the requested model only -- for quota. |
| QcFailover.FailoverStaysLocal | app/config.py:538-539 | Unless upstream called a key invalid, a request leaves every other model's selection as it was. |
| QcFailover.ResetRestores | app/config.py:622-629 | A reset makes the key usable for every model unless quarantined, changes no other key, and restarts exactly the cursors that were on it. |
| CustomPool.CustomKeys.GetCurrent | app/config.py:667-672 | The key under the cursor, "" for an empty pool. |
| CustomPool.CustomKeys.Rotate | app/config.py:692-705 | One step on, except in pools of one key. |
| CustomPool.CustomKeys.Dispatch | app/routers/proxy.py:812-876 | The dispatch loop refines `Dispatched`, whatever other requests do to the cursor between attempts. |
| CustomPool.TriesAPrefix | app/routers/proxy.py:829-876 | The keys tried are a prefix of the snapshot; all but the last attempt were refused with a retryable answer; the last one was a success, a final refusal or the end of the snapshot, and decides the reply. |
| CustomPool.RetriesExactly | app/routers/proxy.py:58-75 | Another key is tried exactly for the nine retryable statuses, and for a 400 whose first 4096 characters name a spent quota. |
| CustomPool.NoKeys | app/routers/proxy.py:815-817 | A provider without keys sends nothing and gets a 500. |
| CustomPool.TurnedRecords | app/config.py:692-705 | A rotation marks the key it lands on as active and counts; nothing else changes, and nothing at all in a pool of one key. |
| CustomPool.RingGoesAround | app/routers/proxy.py:621-626 | The snapshot is the pool once around from the current key. |
| CustomPool.NoKeyTwice | app/routers/proxy.py:829-876 | One request never repeats a key, however often others rotate the pool meanwhile. |
| CustomPool.CursorExactly | app/routers/proxy.py:868-874 | The shared cursor is on the key in use, at every attempt and at the end, exactly when the others' rotations so far are a number of full turns -- always, without others. |
| CustomPool.CursorTurned | app/config.py:692-705 | Any number of rotations moves the cursor by that many positions. |
| Priming.JudgeLines | app/routers/proxy.py:783-808 | The complete lines of the buffer, up to the first that decides. |
| Priming.TailExactly | app/routers/proxy.py:782-783 | What is kept of the buffer is what follows its last line end. |
| Priming.Prime | app/routers/proxy.py:761-809 | Reads the shortest prefix of at most four chunks that brings a decision, with the verdict of all it may look at: that of the first complete line which is not silent; the chunks read are handed on for replay. |
| Priming.VerdictExactly | app/routers/proxy.py:783-807 | A text is a fault exactly when its first complete line that is not silent holds a JSON error object, with its status if that lies in 400 to 599 and 502 otherwise; clean exactly when that line holds empty data, [DONE] or other JSON; comments, pings and unreadable data never decide. |
| Priming.FirstAcross | app/routers/proxy.py:782-784 | A verdict stands whatever follows; otherwise reading goes on from the unfinished line. |
| Priming.WindowVerdict | app/routers/proxy.py:774-809 | The verdict on the first four chunks is that of the whole stream if its first deciding line ends within them, and open otherwise. |
| Priming.CutsAgree | app/routers/proxy.py:761-809 | Two cuts of one stream get the same verdict exactly when that line ends within the first four chunks of both or of neither. |
| RouteBreaker.RouteHealth.constructor | app/redis_store.py:25-27 | The cap is the configured one, at least 10 seconds. |
| RouteBreaker.RouteHealth.FilterHealthy | app/redis_store.py:282-294 | Keeps the candidates with a closed breaker in their order; all of them when Redis is down. |
| RouteBreaker.RouteHealth.Record | app/redis_store.py:297-318 | Success closes the breaker, upstream failures open it for longer, other statuses do nothing. |
| RouteBreaker.RecordExactly | app/redis_store.py:297-318 | A success closes the breaker, one of eleven statuses opens it from now on for the cooldown of the failures in its running window, other statuses and other candidates change nothing. |
| RouteBreaker.RouteHealth.RunRoute | app/routers/proxy.py:437-464 | The route loop refines `Tried` on the healthy candidates, or on all when none is. |
| RouteBreaker.CooldownGrows | app/redis_store.py:313-314 | Cooldowns never shrink with further failures and lie between 10 seconds and the cap. |
| RouteBreaker.CooldownDoubles | app/redis_store.py:313-314 | 10 seconds for the first failure, twice the last for each further one up to the ninth, within the cap. |
| RouteBreaker.HealthyExactly | app/redis_store.py:282-294 | The filter keeps exactly the candidates whose breaker is closed, in order. |
| RouteBreaker.SkipBound | app/redis_store.py:297-318 | After any timed run a candidate is skipped for at least 10 seconds after its last failure, at most for the cooldown of its failures since the last success, which is at most the cap, and for exactly that when failures came less than 10 seconds apart. |
| RouteBreaker.AttemptsExactly | app/routers/proxy.py:437-464 | Attempts are a prefix of the healthy candidates (of all when none is healthy or Redis is down), ending at the first status below 400; each result is recorded once; 503 only without candidates. |
| RouteBreaker.Recovers | app/routers/proxy.py:441-446 | A candidate whose last failure is at least the cap ago is back in the pool of every route naming it. |
| KeyPolicy.ParseAliases | app/routers/admin.py:946-968 | Renames are accepted exactly when, blanks left out, they are distinct, short, for allowed models and not the name of another renamed model; then they are stored stripped. |
| KeyPolicy.RenamesAcceptedExactly | app/routers/admin.py:946-968 | In terms of the object given: accepted exactly when each rename that is not blank is for an allowed model, has at most 100 characters and is not the name of another renamed model, and no two are equal once stripped. |
| KeyPolicy.RenamesExactly | app/routers/admin.py:951-968 | The stored renames are the given ones that are not blank, stripped. |
| KeyPolicy.ParseCandidates | app/routers/admin.py:992-1005 | Candidates are accepted exactly when none is too long, the route itself or a route name as typed, and between 1 and 24 remain once stripped and deduplicated. |
| KeyPolicy.ParseRoutes | app/routers/admin.py:970-1010 | Routes are accepted exactly when at most 20, each validly named, free and with acceptable candidates; a name that strips to an earlier one replaces it. |
| KeyPolicy.RoutesAcceptedExactly | app/routers/admin.py:979-1009 | In terms of the object given: accepted exactly when there are at most 20, each name is a free route name once stripped, no candidate is over 200 characters, the route itself or a name as given, and 1 to 24 different ones remain. |
| KeyPolicy.RouteNameExactly | app/routers/admin.py:980-984 | A route name has 1 to 100 letters, digits, dots, underscores, colons, slashes and hyphens, the first a letter or digit. |
| KeyPolicy.KeyModelRoutes | app/routers/proxy.py:302-326 | The proxy's reading of any stored routes is `RoutesRead`. |
| KeyPolicy.ReadsExactly | app/routers/proxy.py:316-326 | Whatever is stored, a name is a route exactly when it has a candidate that is not blank; at most the first 24, stripped, are read. |
| KeyPolicy.ResolveAlias | app/routers/proxy.py:386-401 | The first model renamed to the requested name, else the name. |
| KeyPolicy.ReaderExact | app/routers/proxy.py:316-326 | For accepted settings the proxy reads back exactly the stored routes. |
| KeyPolicy.ListedResolvesExactly | app/routers/proxy.py:1050-1079 | For accepted settings, every name list_models gives a key resolves to a route or catalog model it may call, exactly when no rename covers another visible id with a model that does not. |
| KeyPolicy.ListedAstray | app/routers/proxy.py:1061-1079 | Accepted settings under which a listed name resolves to a model the key may not call. |
| KeyPolicy.CandidateOnlyInside | app/routers/proxy.py:341-364 | A route candidate that is no route itself is let through exactly inside the clone made for it. |
| KeyPolicy.PermittedExactly | app/routers/proxy.py:329-368 | For accepted settings without commas a request goes through exactly for a route name, for a candidate inside its own clone, and otherwise for a listed model or without a list. |
| KeyPolicy.CandidateRunsExactly | app/routers/proxy.py:404-427 | That clone runs the candidate itself exactly when no other model is renamed to it. |
| KeyPolicy.CandidateAstray | app/routers/proxy.py:404-427 | Accepted settings under which the clone for a candidate runs another model. |
| KeyPolicy.RoutesFlatExactly | app/routers/admin.py:970-1010 | Accepted routes cannot target routes, whatever the candidates, exactly when there are more than 20 names, so that none are accepted, or no padded name hides a route from the check against the names as typed. |
| KeyPolicy.PaddedExample | app/routers/admin.py:1000-1001 | Accepted routes of which one, as stored, targets the other. |
| KeyPolicy.AllowlistExactly | app/routers/admin.py:1012-1012 | The comma-joined allowlist reads back as the same set exactly when no allowed model has a comma in its name. |
| Whitespace.StripBare | app/routers/admin.py:926-926 | Stripping leaves exactly strings without outer white space alone, so twice is once. |
| Whitespace.StripExactly | app/routers/admin.py:926-926 | Stripping cuts ten white-space characters off both ends and nothing else. |

## Left out

- Unicode: case folding, the word boundary and white space are modelled on ASCII characters; the few other characters
  Python folds or strips (such as the long s) are not.
- JSON text, SSE framing bytes and UTF-8 decoding: streams are parsed chunks or decoded characters; `json.loads` is a
  parameter where its result matters.
- stream_anthropic_filter, filter_anthropic_response, build_openai_request, tool and tool-choice conversion, token estimates.
- Response.ToAnthropicContent: images in a response and the usage numbers.
- Pipeline.AggregateSse: the reply's id, time, model name and usage, and the None returned when no data line was seen.
- Pipeline.Converter.Convert: ids, times and the role of the first chunk.
- Messages.ToAnthropicMessages: an assistant's list content is not modelled (its tool-call branch puts the list into a
  text block as it is); arguments are JSON text.
- Messages.ToOpenAIMessages: URL image sources and messages of roles the forward direction never produces.
- Stripper.ThinkingStripper.Relay: one choice per event; a stream that ends without [DONE] is not flushed by the source
  either, and the theorems are about streams with it.
- Compaction.CompactMessages: with keep_last 0 and no user message everything is kept, as the slice `[-0:]` does.
- RequestLog.Decode: numbers given as strings (which `int` would parse) and floats; text columns keep the value they print.
- RequestLog.StepKeeps: an insert that fails part-way may have written any prefix of its rows; Postgres keeps none, so
  this allows more runs than there are.
- RequestLog.LogStore.ClaimStale: a claim may take any pending entries, whatever their number and idle time.
- Timeouts, back-off sleeps, heartbeats and the hourly rollups of the log worker.
- QcKeys.QcPool.Serve: billing, logging and dashboards. The same loop in the messages endpoint differs only in the reply
  it gives at the end; the context-window compaction around that loop is not modelled. Keys are neither added nor removed
  while a request waits.
- QcFailover.FailoverInOrder: keys are assumed distinct and non-empty, as adding a key ensures (app/config.py:944-949).
- The built-in provider pools, the legacy whole-key rotation, removing keys and providers, auto_reset_limited_keys.
- CustomPool.CustomKeys.Dispatch: the Anthropic-format variant has the same retry skeleton; headers, conversion and
  relaying of the reply are not modelled.
- Priming.Prime: decoding each chunk with errors ignored; a last line without a line end is not looked at, as in the source.
- RouteBreaker.RouteHealth.Record: increment and expiry are one step; in Redis a crash between them would leave a breaker
  that never expires.
- KeyPolicy.ParseRoutes: non-string names and values, expiry, quota and model prompts; stored routes are a map, so the
  order in which list_models appends them is not modelled.
- The relay of OpenAI streams with its own per-chunk removal of `<thinking>`, multimodal endpoints, login, sessions,
  the dashboard, schema migrations, metrics and tracing.
