# Savvagent streaming core: a verified model

Savvagent talks to language-model vendors through adapters. Each adapter turns the bytes of a vendor's stream
into events of the Savvagent Provider Protocol (SPP) and, at the same time, builds one final reply. This project
models that pipeline and four pieces beside it, and proves what they keep over every input and every run:

- **Fence parser** (`Fence.dfy`, `Canvas.dfy`, `FenceExamples.dfy`): the push-based transducer that cuts streamed text into Text and Html chunks.
- **Events** (`Spp.dfy`): the protocol, with `Replay`, an independent client that rebuilds every block from the
  events alone, keeps what it is told of the message, and rejects an event list that breaks the protocol.
- **Adapters** (`Ollama.dfy`, `OpenAi.dfy`, `Gemini.dfy`, `Anthropic.dfy`): the four accumulators as classes. Each
  driver method states, for all inputs, that the replay of the emitted events is the final reply and that this
  reply is what the input says. `OllamaIds.dfy`, `OpenAiCalls.dfy` and `AnthropicTools.dfy` say what the tool
  calls of a reply are, `AnthropicTexts.dfy` what a text-only message is; `Arrivals.dfy`, `GeminiArrivals.dfy`,
  `AnthropicMessages.dfy` and `Summaries.dfy` tell the reply from the chunks alone, without the functions the
  accumulators are proved against; `SameReply.dfy` relates the four adapters.
- **Decoders** (`Utf8.dfy`, `Ndjson.dfy`, `Sse.dfy`, `OpenAiSse.dfy`): what the parser sees does not depend on how the
  network cuts the body. `SseRoundTrip.dfy` and `ProviderRelay.dfy` read back what was written for each vendor;
  `WholeReply.dfy` joins decoders and accumulators.
- **Schema rewriter** (`Schema.dfy`, `SchemaMeaning.dfy`, `SchemaKeeps.dfy`, `SchemaExact.dfy`, `SchemaClean.dfy`,
  `SchemaRewriter.dfy`): the JSON-Schema rewriting for Gemini as functions, what it relaxes, what it keeps and its
  normal form, and the in-place code proved equal to them.
- **Permission rules** (`Permissions.dfy`, `PermissionReach.dfy`), the **lazy bash server** (`LazyBash.dfy`), **query strings** (`Query.dfy`)
  and **tool names sent back to Gemini** (`GeminiHistory.dfy`).

`dafny verify dfyconfig.toml` checks everything. Code that works in place is a class or a method with loops, proved
against a specification function; the properties are then lemmas about that function, or clauses of a driver
method that runs the whole machine and changes nothing else. JSON parsing is a function parameter everywhere, so
what is proved holds for every parser.

Two reading aids. In the fence and adapter files output is described by tagged characters (`Sym`, `Glyph`): one per
emitted character, with the kind of its chunk; `Fence.RunsUnique` shows that this determines a chunk list up to
joining neighbours of one kind. `hide` statements only keep definitions away from the solver where a proof does not
need them.

## Where the code and the documentation differ

The model follows the code.

- The documentation of the fence parser speaks of a closing line that is exactly three backticks; the code also
  accepts leading white space and trailing carriage returns.
- Fence markers are described as anchored to whole lines. After an eager flush the parser no longer knows that it
  is inside a line, so the cut of the input can turn the rest of a line into a marker; `FenceExamples.CutMatters` is an
  example and `Fence.CutIndependence` the exact condition under which this cannot happen.
- The Gemini adapter is described as sending only a start for a function call; the code also sends the stop at once.
- The Ollama adapter is described as closing the block when `done` arrives; the code closes it at flush.
- `permissions.toml` is documented as an ordered first-match list; saving splits it into allow and deny rules, and
  loading puts all allow rules first. `Permissions.ReloadChangesDecision` says exactly when that matters.

## Behaviour that may surprise

Each of these fails for the input named and has its exact condition or its example in the model.

- Even the whole text pushed at once can miss a marker on a last line without newline (`Fence.OneShotExact`,
  `FenceExamples.CarriageReturnMisses`).
- Two Ollama chunks that call one tool at the same position give one id twice (`OllamaIds.IdsInOneReply`,
  `OllamaIds.RepeatedChunk`).
- An Anthropic tool block that starts with a non-empty input and whose input deltas are empty or missing shows the
  client that input, while the final reply holds an empty one (`AnthropicTools.ToolInputs`, `AnthropicTools.InputLost`).
- A Gemini stream can end without telling the client that a call was the reason (`Gemini.ReasonIsTold`,
  `Gemini.SilentCall`).
- The fence parser starts afresh with every Anthropic text block (`AnthropicTexts.BlocksMatter`).
- Enum values and property names that read like keywords are rewritten (`SchemaRewriter.EnumValuesMatter`,
  `SchemaRewriter.PropertyNamesMatter`), and a `type` list keeps one type (`SchemaMeaning.TypeCollapseExact`).
- A tool result that begins with an empty text block loses the newline behind it (`GeminiHistory.JoinedExactly`,
  `GeminiHistory.EmptyTextFirst`).

## Model

| member | source | states |
|---|---|---|
| `Fence.CutIndependence` | crates/savvagent-fence/src/lib.rs:65-103 | for every text: all cuts into fragments, joined chunk by chunk, give the same output and the same `unclosed_fence` as the line-by-line reference parse if and only if `CutSafe(text)`, a condition read off the lines alone |
| `Fence.BadCut` | crates/savvagent-fence/src/lib.rs:65-182 | for every text that is not cut safe, a cut is constructed whose output or fence state differs from the reference |
| `FenceExamples.CutMatters` | crates/savvagent-fence/src/lib.rs:156-182 | cut independence is false as coded: `a` then an opener line opens a fence, the two in one piece do not |
| `Fence.PlainTextIsSafe` | crates/savvagent-fence/src/lib.rs:156-182 | a text without `\r`, with no white space but space, tab and newline, and with no content line ending in its marker is cut safe |
| `Fence.SafeRun` | crates/savvagent-fence/src/lib.rs:65-103 | from any held carry-over and mode, a safe rest of the text in any fragments gives the reference parse of carry-over plus rest |
| `Fence.SafeRest` | crates/savvagent-fence/src/lib.rs:65-103 | the same from the middle of a released line |
| `Fence.OneShot` | crates/savvagent-fence/src/lib.rs:65-103 | pushing the whole text at once and finishing is the reference parse, or differs from it in the final fence state with no less emitted |
| `Fence.OneShotExact` | crates/savvagent-fence/src/lib.rs:65-103 | from either mode it is the reference parse if and only if the last line has its newline, is held, or is no marker of its mode (`LastLineKept`) |
| `Fence.WholeTextExact` | crates/savvagent-fence/src/lib.rs:65-103 | the same for a fresh parser given everything in one fragment |
| `FenceExamples.CarriageReturnMisses` | crates/savvagent-fence/src/lib.rs:65-103 | an opener with a `\r` and no newline behind it, pushed at once, is not parsed as the reference does |
| `Fence.HeldMayBecomeMarker` | crates/savvagent-fence/src/lib.rs:156-182 | a tail is held if and only if some further text completes it to the marker of the mode behind blanks |
| `Fence.HeldPrefix` | crates/savvagent-fence/src/lib.rs:156-182 | every prefix of a held partial line is held, so what has been released stays released |
| `Fence.Conservation` | crates/savvagent-fence/src/lib.rs:65-125 | for every fragment sequence: emitted payloads and held buffer are the input with only marker segments left out, these alternate opener and closer, the held buffer has no newline and can still become the marker of the mode |
| `Fence.FeedConserves` | crates/savvagent-fence/src/lib.rs:65-90 | the same for one push |
| `Fence.MarkersDiffer` | crates/savvagent-fence/src/lib.rs:108-121 | no line is both opener and closer, so a marker line never changes meaning with the mode |
| `Fence.MarkerLines` | crates/savvagent-fence/src/lib.rs:105-121 | a line is a marker if and only if it is white space, then the literal marker of the mode, then any number of `\r` and `\n` characters |
| `Canvas.CanvasComesOut` | crates/savvagent-fence/src/lib.rs:65-125 | text, an opener line, a body, a closer line and more text, the three without backticks, come out as text, html and text, and the fence lines vanish |
| `Fence.RunsUnique` | crates/savvagent-fence/src/lib.rs:128-142 | a chunk list with no empty chunk and no equal neighbours is determined by its tagged characters |
| `Fence.RunsFlat` | crates/savvagent-fence/src/lib.rs:128-142 | the maximal same-kind runs say the same characters and are canonical |
| `Fence.AppendFlat` | crates/savvagent-fence/src/lib.rs:128-142 | appending text or html adds exactly its tagged characters |
| `Fence.AppendCanonical` | crates/savvagent-fence/src/lib.rs:128-142 | appending a non-empty text or html keeps the list free of empty chunks and equal neighbours |
| `Fence.SplitSafeFlush` | crates/savvagent-fence/src/lib.rs:156-182 | the two parts join to the tail; the tail is held as a whole exactly when it can still become a marker, and released as a whole otherwise |
| `Fence.FenceParser.Push` | crates/savvagent-fence/src/lib.rs:65-90 | buffer, mode and emitted characters are those of the specification `Feed` on carry-over plus fragment; chunks are canonical |
| `Fence.FenceParser.ConsumeLine` | crates/savvagent-fence/src/lib.rs:105-125 | a marker of the current mode toggles it and emits nothing, any other line is emitted whole in its kind |
| `Fence.FenceParser.Finish` | crates/savvagent-fence/src/lib.rs:93-103 | the carry-over is treated as a last line and the fence state is reported |
| `Fence.FenceParser.constructor` | crates/savvagent-fence/src/lib.rs:52-56 | a parser starts outside the canvas with nothing held |
| `Fence.ParseFragments` | crates/savvagent-fence/src/lib.rs:65-103 | a whole run of the parser: canonical runs of `Run`, hence of the reference parse when the text is cut safe |
| `Spp.ReplayJoin` | crates/savvagent-protocol/src/stream.rs:22-83 | reading an event list is reading its parts one after the other, and fails where a part fails |
| `Spp.StopsExact` | crates/savvagent-protocol/src/stream.rs:34-56 | in every accepted event list each block was stopped at most once and exactly the closed blocks were |
| `Spp.AssembleText` | crates/provider-local/src/stream.rs:193-251 | appending a run of one kind extends the last block of that kind or starts a new one, as the adapters do with text and html deltas |
| `Spp.AssembleRuns` | crates/provider-local/src/stream.rs:186-251 | assembling tagged characters delta by delta gives one block for every maximal same-kind run |
| `Ollama.ConsumeNdjson` | crates/provider-local/src/stream.rs:32-50 | for every chunk sequence: the emitted events replay strictly (one block open at a time, indices 0,1,2,…, every block stopped, in order), the final content is block by block the replay and is the assembly of what the chunks say, and the client is told the id, model, stop reason and output tokens of the reply; the reply in full: model of the first chunk, reason and usage of the last that is `done`, and an error exactly for an empty stream |
| `Ollama.Accumulator.ConsumeChunk` | crates/provider-local/src/stream.rs:89-150 | events of one chunk continue the client view, and what is said grows by the chunk text through the fence and then its tool calls |
| `Ollama.Accumulator.EmitBlockChunk` | crates/provider-local/src/stream.rs:193-236 | a delta on the open block of its kind, else the open block is closed and a new one opened at the next index |
| `Ollama.Accumulator.CloseCurrentBlock` | crates/provider-local/src/stream.rs:238-251 | the open block, if any, is stopped and recorded |
| `Ollama.Accumulator.EmitToolCalls` | crates/provider-local/src/stream.rs:115-141 | each tool call is a started and stopped block at the next free index, after the open text is closed |
| `OllamaIds.IdsInOneReply` | crates/provider-local/src/stream.rs:115-131 | the tool-call ids of a reply are distinct if and only if no two of its calls clash: equal ids of their own, or equal name and position within the chunk without one, or an own id that reads like a made-up one |
| `OllamaIds.RepeatedChunk` | crates/provider-local/src/stream.rs:115-131 | distinctness fails: any chunk with a call, received twice, gives the same id twice |
| `Base.DecimalValue` | crates/provider-local/src/stream.rs:115-131 | the index in a made-up id is the number in decimal digits without leading zeros |
| `OllamaIds.CallsArrive` | crates/provider-local/src/stream.rs:115-141 | every call of every chunk is in the reply, in order, with its own name, arguments and id, or an id made up from name and position |
| `Arrivals.OllamaTextArrives` | crates/provider-local/src/stream.rs:89-141 | whatever calls come in between, the characters of all text and html blocks are what one fence parser makes of all message texts |
| `Arrivals.OllamaInOrder` | crates/provider-local/src/stream.rs:89-141 | when no chunk text holds a backtick or ends in white space, the reply is the texts and the calls in the order in which they came, each text before the calls of its chunk |
| `Summaries.OllamaSummary` | crates/provider-local/src/stream.rs:89-150 | for every chunk sequence: the model of the first chunk; stop reason and counts of the last chunk flagged `done`, whichever that is, by a table of reasons; without one, end of turn and no counts |
| `Ollama.Accumulator.EmitFenceChunks` | crates/provider-local/src/stream.rs:186-191 | a list of fence chunks is emitted in order |
| `Ollama.Accumulator.Flush` | crates/provider-local/src/stream.rs:152-180 | the carry-over comes out, the open block is closed, the message ends |
| `Ollama.Accumulator.Finish` | crates/provider-local/src/stream.rs:253-270 | the reply holds the recorded blocks; an error when nothing started |
| `Ollama.Accumulator.constructor` | crates/provider-local/src/stream.rs:52-87 | the client has seen nothing |
| `OpenAi.ConsumeSse` | crates/provider-openai/src/stream.rs:36-58 | for every chunk sequence with interleaved text and parallel tool calls: every event targets a started, not yet stopped block of its kind, each index is stopped exactly once, `content[i]` is the replay of index `i` with the tool input parsed from the joined fragments, and the client is told the id, model, stop reason and output tokens of the reply; the reply in full: the content of what was heard, id and model of the first chunk, the last reason and usage |
| `OpenAi.CallsDoNotDisturbText` | crates/provider-openai/src/stream.rs:163-212 | tool-call deltas leave the text blocks as if they had not been there |
| `OpenAiCalls.CallsInClosedForm` | crates/provider-openai/src/stream.rs:163-212 | for every interleaving: the calls have pairwise distinct upstream indices, in the order of their first deltas; each has id and name of its first delta and the arguments of all deltas with its index, joined in order |
| `Arrivals.OpenAiCallsArrive` | crates/provider-openai/src/stream.rs:163-296 | told from the chunks alone: one call for every upstream index in first-seen order; id and name of the first delta with that index, and the parse of all its argument pieces joined, or the empty object |
| `Arrivals.OpenAiTextArrives` | crates/provider-openai/src/stream.rs:139-215 | whatever calls come in between, the text and html blocks are what one fence parser makes of all contents |
| `Arrivals.OpenAiInOrder` | crates/provider-openai/src/stream.rs:139-215 | when no content holds a backtick or ends in white space, text and call deltas are heard in the order in which they came |
| `Summaries.OpenAiSummary` | crates/provider-openai/src/stream.rs:119-296 | for every chunk sequence: identity of the first chunk, the last finish reason by a table of reasons, the last usage field by field; defaults exactly when none was reported |
| `OpenAi.Accumulator.ConsumeChunk` | crates/provider-openai/src/stream.rs:119-215 | events of one chunk continue the client view; text is heard before calls |
| `OpenAi.Accumulator.EmitStreamChunk` | crates/provider-openai/src/stream.rs:315-369 | a delta on the open text or html block, else that block is stopped and a new one started |
| `OpenAi.Accumulator.SwitchStreamBlock` | crates/provider-openai/src/stream.rs:315-352 | the open block is stopped and a block of the other kind started at a new index |
| `OpenAi.Accumulator.CloseStreamBlock` | crates/provider-openai/src/stream.rs:371-375 | the open text or html block, if any, is stopped |
| `OpenAi.Accumulator.AllocBlock` | crates/provider-openai/src/stream.rs:298-303 | the next index is taken and the state recorded there |
| `OpenAi.Accumulator.EmitToolDelta` | crates/provider-openai/src/stream.rs:163-212 | a delta goes to the block of its upstream index, started if it is new; distinct upstream indices have distinct blocks |
| `OpenAi.Accumulator.StartTool` | crates/provider-openai/src/stream.rs:163-196 | a new upstream index starts a tool block at the next index and is mapped to it |
| `OpenAi.Accumulator.AppendArgs` | crates/provider-openai/src/stream.rs:197-212 | argument text extends the call on both sides of the wire and leaves the index map right |
| `OpenAi.Accumulator.Begin` | crates/provider-openai/src/stream.rs:119-137 | the first chunk starts the message |
| `OpenAi.Accumulator.ConsumeText` | crates/provider-openai/src/stream.rs:144-161 | text goes through the fence to the open block |
| `OpenAi.Accumulator.ConsumeChoice` | crates/provider-openai/src/stream.rs:139-215 | what a choice says is its text through the fence, then its call deltas in order |
| `OpenAi.Accumulator.EndMessage` | crates/provider-openai/src/stream.rs:250-264 | the message delta and the message stop end the client view |
| `OpenAi.Accumulator.CloseTools` | crates/provider-openai/src/stream.rs:236-248 | every tool block is stopped, each once |
| `OpenAi.Accumulator.Flush` | crates/provider-openai/src/stream.rs:217-264 | carry-over, stops of the open stream block and of all tools, message end |
| `OpenAi.Accumulator.Finish` | crates/provider-openai/src/stream.rs:266-296 | the reply holds the blocks in index order |
| `Gemini.ConsumeSse` | crates/provider-gemini/src/stream.rs:36-66 | for every part sequence, however spread over chunks: the events replay, every start has one stop, the content lists the replayed blocks in the order of their stops, the announced output tokens cover the final count, with equality exactly when no reported count goes down, and the client is told the stop reason of the reply if and only if calls are announced; the reply in full, its stop reason being tool use exactly when a function call was seen |
| `Gemini.AnnouncedCovers` | crates/provider-gemini/src/stream.rs:165-185 | announced increases sum to at least the last count, and to exactly it if and only if the counts never decrease |
| `Gemini.ReasonIsTold` | crates/provider-gemini/src/stream.rs:160-185 | the last stop reason told to the client is that of the reply if and only if no call was seen, or a chunk with or after the first call reports a count or a finish reason |
| `Gemini.SilentCall` | crates/provider-gemini/src/stream.rs:160-185 | a stream of one chunk with a call, no counts and no finish reason fails this: the reply says tool use, the client hears no reason |
| `GeminiArrivals.EverythingArrives` | crates/provider-gemini/src/stream.rs:192-269 | told from the parts alone, for every part sequence: the calls in order with their names and arguments, the pictures in order with data and media type, all thought text and the last signature, and the text that one fence parser makes of all plain text |
| `GeminiArrivals.InOrder` | crates/provider-gemini/src/stream.rs:192-269 | when no plain text holds a backtick or ends in white space, parts are heard in order, a call before a picture before text |
| `Summaries.GeminiSummary` | crates/provider-gemini/src/stream.rs:118-188 | for every chunk sequence: identity of the first chunk; tool use if and only if some part has a call, else the last finish reason by a table; the last output and cache counts, and the largest prompt count |
| `Gemini.StopReasonFromGemini` | crates/provider-gemini/src/translate.rs:120-136 | which finish reasons mean end of turn, token limit and refusal, exactly; every other is Other, and none is tool use |
| `Gemini.Accumulator.ConsumePart` | crates/provider-gemini/src/stream.rs:192-269 | a part is a call, else inline data, else a thought, else text through the fence; a call does not close the open text block |
| `Gemini.Accumulator.ConsumeChunk` | crates/provider-gemini/src/stream.rs:118-188 | a chunk adds what its first candidate says; identity, usage and stop reason are updated |
| `Gemini.Accumulator.Conclude` | crates/provider-gemini/src/stream.rs:147-185 | the finish reason and the counts of a chunk are taken over, after its parts |
| `Gemini.Accumulator.LastOpenBlock` | crates/provider-gemini/src/stream.rs:389-405 | the one open slot between parts, if there is one |
| `Gemini.Accumulator.CloseBlock` | crates/provider-gemini/src/stream.rs:416-437 | the slot is emptied and its block becomes the next final block |
| `Gemini.Accumulator.CloseLastOpen` | crates/provider-gemini/src/stream.rs:407-414 | afterwards no slot is open |
| `Gemini.Accumulator.OpenBlock` | crates/provider-gemini/src/stream.rs:273-334 | the growing block is closed and a new one opened in a new slot |
| `Gemini.Accumulator.Grow` | crates/provider-gemini/src/stream.rs:273-387 | one delta extends the open block on both sides of the wire |
| `Gemini.Accumulator.EmitStreamChunk` | crates/provider-gemini/src/stream.rs:273-334 | text or html extends the open block of its kind or opens one |
| `Gemini.Accumulator.EmitThinkingFragment` | crates/provider-gemini/src/stream.rs:338-387 | a thought extends the open thinking block, signature first, or opens one |
| `Gemini.Accumulator.EmitWhole` | crates/provider-gemini/src/stream.rs:194-245 | a call or picture is started, stopped and recorded next to the growing block |
| `Gemini.Accumulator.CoerceToolUseStopReason` | crates/provider-gemini/src/stream.rs:495-509 | a seen function call forces the stop reason |
| `Gemini.Accumulator.Begin` | crates/provider-gemini/src/stream.rs:121-145 | message start, identity and input usage |
| `Gemini.Accumulator.Report` | crates/provider-gemini/src/stream.rs:165-185 | the output count is the last reported one, and only its increase is announced |
| `Gemini.Accumulator.Flush` | crates/provider-gemini/src/stream.rs:443-472 | carry-over, closing of what is open, message end |
| `Gemini.Accumulator.CloseAll` | crates/provider-gemini/src/stream.rs:443-472 | every slot is empty and every block final |
| `Gemini.Accumulator.Finish` | crates/provider-gemini/src/stream.rs:474-486 | the reply, or an error when there was no chunk |
| `Anthropic.ConsumeSse` | crates/provider-anthropic/src/stream.rs:23-57 | for every well-formed upstream run: the events are strictly bracketed with start indices 0,1,2,…; the replay with empty text placeholders dropped, adjacent text or html merged and tool input parsed from the joined deltas is the assembly of what was said; the client is told id, model, reasons and tokens as reported, which are those of the reply; and the reply in full: an error without a message start, else that content, or when it is empty what was told of each upstream block, with the id, model and input usage of the message start, the last reported reasons, and output tokens saturating at 32 bits |
| `Anthropic.SingleText` | crates/provider-anthropic/src/stream.rs:335-388 | a run with one text block at index 0 whose fence output is empty falls back to its raw text |
| `Anthropic.ReasonReported` | crates/provider-anthropic/src/stream.rs:308-326 | the stop reason means the last `stop_reason` reported, by a table of reasons, and there is none exactly when none was reported |
| `AnthropicMessages.MessageArrives` | crates/provider-anthropic/src/stream.rs:130-333 | for every message of any blocks with any deltas: what is said is block by block the fence output of the text deltas, the tool use with its joined input parsed, the thought with all its text and its last signature, and nothing for an image; the reply is that unless it is empty |
| `AnthropicMessages.CutOff` | crates/provider-anthropic/src/stream.rs:335-388 | a message that breaks off inside its only block is completed from it: text, thought or call with its joined input, behind an empty text per skipped index; an error exactly when the input does not parse |
| `Summaries.AnthropicSummary` | crates/provider-anthropic/src/stream.rs:308-388 | identity and input counts of the message start, the last reason and the last stop sequence reported, and the output tokens announced up to 4294967295 |
| `Anthropic.AllToldSnoc` | crates/provider-anthropic/src/stream.rs:123-282 | the upstream slots after one more event: a start sets up its slot and pads skipped indices with empty texts, a delta changes its own slot only |
| `Anthropic.ConsumeAll` | crates/provider-anthropic/src/stream.rs:23-57 | a run of events on the accumulator is the upstream reading, and the slots are what was told of each index |
| `AnthropicTools.ToolsAreTold` | crates/provider-anthropic/src/stream.rs:161-282 | the tools of every well-formed run are its tool starts in order, each with all input deltas of its index, joined |
| `AnthropicTools.ToolInputs` | crates/provider-anthropic/src/stream.rs:161-282 | for every well-formed complete run: the client has the tool uses of the reply if and only if every tool was started with no input or an empty one, or the deltas for its input join to something; what each side has is given |
| `AnthropicTools.ReplyTools` | crates/provider-anthropic/src/stream.rs:335-388 | the tool uses of the reply are those said, in the fallback too, which then holds none |
| `AnthropicTools.InputLost` | crates/provider-anthropic/src/stream.rs:161-282 | a run with the input `{"a":null}` at the start and one empty delta: the client is shown that input, the reply holds `{}` |
| `AnthropicTexts.TextsContent` | crates/provider-anthropic/src/stream.rs:410-496 | a complete text-only message of any number of blocks, among any other events: the content is the runs of the fence output of each block |
| `AnthropicTexts.BlocksMatter` | crates/provider-anthropic/src/stream.rs:286-307 | a text cut into two blocks is not the same message: an opener at the end of the first opens nothing in the second |
| `AnthropicTexts.RawIsTold` | crates/provider-anthropic/src/stream.rs:123-242 | in a text-only run the slot of every started index holds its initial text and all its deltas, joined |
| `Anthropic.Accumulator.Consume` | crates/provider-anthropic/src/stream.rs:130-333 | one upstream event continues the client view and the upstream reading |
| `Anthropic.Accumulator.StartBlock` | crates/provider-anthropic/src/stream.rs:144-227 | a block start: text waits for its deltas, any other block starts at once |
| `Anthropic.Accumulator.DeltaArrives` | crates/provider-anthropic/src/stream.rs:228-285 | a delta: text through the fence, any other to its block |
| `Anthropic.Accumulator.PassOn` | crates/provider-anthropic/src/stream.rs:327-331 | the message stop, pings and errors are passed on and change no block |
| `Anthropic.Accumulator.StartText` | crates/provider-anthropic/src/stream.rs:144-160 | a text start allocates no local block yet |
| `Anthropic.Accumulator.StartOther` | crates/provider-anthropic/src/stream.rs:161-227 | tool, thinking and image starts close the open stream block and take the next local index; the map of indices stays injective and below the next index |
| `Anthropic.Accumulator.TextArrives` | crates/provider-anthropic/src/stream.rs:231-242 | text goes through the fence to local blocks |
| `Anthropic.Accumulator.RecordText` | crates/provider-anthropic/src/stream.rs:231-242 | the raw text of the upstream block grows |
| `Anthropic.Accumulator.RecordOther` | crates/provider-anthropic/src/stream.rs:243-282 | the slot of the upstream index grows by the delta |
| `Anthropic.Accumulator.OtherArrives` | crates/provider-anthropic/src/stream.rs:243-282 | tool input and thinking deltas reach the local block of their upstream index |
| `Anthropic.Accumulator.StopText` | crates/provider-anthropic/src/stream.rs:286-307 | a text stop flushes the fence and closes the open block |
| `Anthropic.Accumulator.DrainText` | crates/provider-anthropic/src/stream.rs:286-307 | what the fence parser holds back is emitted and the parser reset |
| `Anthropic.Accumulator.StopOther` | crates/provider-anthropic/src/stream.rs:286-307 | another stop finishes the local block and records it |
| `Anthropic.Accumulator.StopBlock` | crates/provider-anthropic/src/stream.rs:286-307 | either of the two |
| `Anthropic.Accumulator.EnsureBlock` | crates/provider-anthropic/src/stream.rs:123-128 | the state of an upstream index is created, earlier states kept |
| `Anthropic.Accumulator.AllocLocal` | crates/provider-anthropic/src/stream.rs:392-397 | the next local index is taken, and mapped unless the upstream index has one already |
| `Anthropic.Accumulator.AllocLocalUnmapped` | crates/provider-anthropic/src/stream.rs:402-406 | the next local index is taken |
| `Anthropic.Accumulator.ReverseLookup` | crates/provider-anthropic/src/stream.rs:520-524 | the upstream index of a local one, unique if it exists |
| `Anthropic.Accumulator.CloseCurrentStreamingBlock` | crates/provider-anthropic/src/stream.rs:502-568 | the open block is stopped, and tools and thoughts become final |
| `Anthropic.Accumulator.EmitStreamChunk` | crates/provider-anthropic/src/stream.rs:410-496 | text or html extends the open block of its kind, else a new block is opened |
| `Anthropic.Accumulator.OpenWith` | crates/provider-anthropic/src/stream.rs:417-496 | a new local block with its first delta |
| `Anthropic.Accumulator.ExtendCurrent` | crates/provider-anthropic/src/stream.rs:417-496 | one more delta on the open block |
| `Anthropic.Accumulator.BeginMessage` | crates/provider-anthropic/src/stream.rs:132-143 | message start and initial usage |
| `Anthropic.Accumulator.UpdateMessage` | crates/provider-anthropic/src/stream.rs:308-326 | stop reason, sequence and output tokens are taken over |
| `Anthropic.Accumulator.Finish` | crates/provider-anthropic/src/stream.rs:335-388 | final blocks, or the fallback on raw block states, or an error |
| `SameReply.Everywhere` | crates/provider-anthropic/src/stream.rs:410-496 | any text-only cut-safe reply gives the same content in all four adapters however its deltas are cut, namely the runs of the reference parse; for Anthropic, with one text block at any index and any message events, pings and errors around it, exactly when that is not empty |
| `SameReply.OllamaContent` | crates/provider-local/src/stream.rs:186-251 | a text-only run assembles the fence output of its deltas |
| `SameReply.OpenAiContent` | crates/provider-openai/src/stream.rs:308-375 | the same for OpenAI |
| `SameReply.GeminiContent` | crates/provider-gemini/src/stream.rs:273-334 | the same for Gemini |
| `SameReply.AnthropicContent` | crates/provider-anthropic/src/stream.rs:410-496 | every complete message with one text block says the fence output of its deltas; when that is nothing the reply is the raw text, initial text included, behind an empty text for each index skipped |
| `SameReply.FromOllama` | crates/provider-local/src/stream.rs:32-50 | the Ollama adapter gives the reference parse of a cut-safe text |
| `SameReply.FromOpenAi` | crates/provider-openai/src/stream.rs:36-58 | so does the OpenAI adapter |
| `SameReply.FromGemini` | crates/provider-gemini/src/stream.rs:36-66 | so does the Gemini adapter |
| `SameReply.FromAnthropic` | crates/provider-anthropic/src/stream.rs:23-57 | so does the Anthropic adapter, with the raw text instead of an empty parse |
| `Ndjson.ReadAll` | crates/provider-local/src/stream.rs:298-352 | for every cut of every valid UTF-8 body, inside characters too, the parser sees exactly the non-empty trimmed lines of the body in order, a last line without newline included, up to the first that does not parse |
| `Ndjson.NdjsonDecoder.Next` | crates/provider-local/src/stream.rs:298-352 | the next line of what is still to come, however it arrives |
| `Ndjson.NdjsonDecoder.PopLineAhead` | crates/provider-local/src/stream.rs:298-312 | a popped line is the first line still to come; none means no newline in the buffer |
| `Ndjson.NdjsonDecoder.PopLine` | crates/provider-local/src/stream.rs:354-359 | the bytes up to the first newline leave the buffer and are decoded and trimmed |
| `Ndjson.NdjsonDecoder.Drain` | crates/provider-local/src/stream.rs:324-349 | at the end the buffer is one last line |
| `Ndjson.LinesSplit` | crates/provider-local/src/stream.rs:298-359 | lines of a text are those before any newline and those after it |
| `Ndjson.LinesAreTrimmed` | crates/provider-local/src/stream.rs:354-359 | no line handed on is empty or has white space at an end |
| `Ndjson.TrimExact` | crates/provider-local/src/stream.rs:354-359 | a trimmed line is the stretch between its outer white space, and nothing else is |
| `ProviderRelay.OllamaRelay` | crates/provider-local/src/stream.rs:298-359 | any payloads sent as lines, with white space around them and empty lines between, are read as exactly the chunks they parse to, for every cut of the body |
| `Ndjson.FirstLineOf` | crates/provider-local/src/stream.rs:354-359 | cutting valid bytes after their first newline cuts the decoded text after its first newline |
| `Utf8.DecodeCut` | crates/provider-local/src/stream.rs:354-359 | valid bytes cut before an ASCII byte are valid on both sides and decode piecewise |
| `Utf8.DecodeEncode` | crates/provider-local/src/stream.rs:354-359 | decoding inverts UTF-8 encoding |
| `Utf8.DecodeExact` | crates/provider-local/src/stream.rs:354-359 | bytes decode to a string if and only if they are its UTF-8 encoding, so overlong forms, surrogates and values past the last code point are refused |
| `Sse.ReadAll` | crates/provider-anthropic/src/stream.rs:708-773 | for every cut of every body whose complete frames are valid UTF-8, the frames handed on are those of the whole body in order, stray separators skipped, an unfinished frame at the end dropped |
| `Sse.SseBuffer.Next` | crates/provider-anthropic/src/stream.rs:708-726 | the next frame of what is still to come, however it arrives |
| `Sse.SseBuffer.TryPopFields` | crates/provider-anthropic/src/stream.rs:728-773 | the first frame that is not stray; none means that the buffer holds no complete frame |
| `Sse.SseBuffer.FindEnd` | crates/provider-gemini/src/stream.rs:561-583 | the scan finds the end of the first frame |
| `Sse.ReadLines` | crates/provider-anthropic/src/stream.rs:752-763 | the last `event:` name and all `data:` payloads of a frame in order |
| `Sse.FrameEndIsFirst` | crates/provider-anthropic/src/stream.rs:728-749 | a frame ends with the earliest `\n\n` or `\r\n\r\n`, and nothing before holds one |
| `Sse.FrameEndExtends` | crates/provider-anthropic/src/stream.rs:728-750 | a frame that has ended stays as it is whatever arrives later, cuts inside `\r\n\r\n` included |
| `Sse.FramesJoin` | crates/provider-anthropic/src/stream.rs:708-773 | the frames of a first part stand, and its leftover is where the next begin |
| `Sse.FramesConserve` | crates/provider-anthropic/src/stream.rs:728-750 | frames and leftover are the body, and the leftover holds no separator |
| `OpenAiSse.ReadAll` | crates/provider-openai/src/stream.rs:418-511 | for every cut of such a body, the chunks and the way it ends are those of the whole body |
| `OpenAiSse.OutcomeMeaning` | crates/provider-openai/src/stream.rs:418-511 | the first `[DONE]` ends the body whatever follows; without one the end is clean exactly when no bytes are left over, and every parseable chunk counts |
| `OpenAiSse.TryPop` | crates/provider-openai/src/stream.rs:452-511 | frames without data and unparseable frames are skipped, `[DONE]` ends |
| `OpenAiSse.Next` | crates/provider-openai/src/stream.rs:418-450 | the next item, or the truncation error exactly when bytes are left |
| `SseRoundTrip.RoundTrip` | crates/provider-anthropic/src/stream.rs:728-773 | any frames of `data:` lines, with or without a space, event lines and other lines are read back as what they say, whether event names are read or ignored, with `\n` or `\r\n` line ends and nothing left over |
| `SseRoundTrip.Relay` | crates/provider-anthropic/src/stream.rs:708-773 | the same through the decoder for every cut |
| `ProviderRelay.OpenAiRelay` | crates/provider-openai/src/stream.rs:418-511 | chunk frames followed by `[DONE]`, whatever comment, event or other lines stand between, are read as exactly those chunks and a clean end, for every cut of the body |
| `ProviderRelay.GeminiRelay` | crates/provider-gemini/src/stream.rs:534-598 | frames that carry chunks are read as exactly those chunks, for every cut of the body |
| `ProviderRelay.AnthropicRelay` | crates/provider-anthropic/src/stream.rs:708-773 | frames that carry events are read as exactly those events, pings left out, for every cut of the body |
| `WholeReply.OllamaReply` | crates/provider-local/src/stream.rs:32-50 | from bytes to the reply in full: it depends on the body, not on its cuts; an error exactly when a line does not parse or none is there |
| `WholeReply.OpenAiReply` | crates/provider-openai/src/stream.rs:36-58 | the same for OpenAI, with an error for a truncated body |
| `WholeReply.GeminiReply` | crates/provider-gemini/src/stream.rs:36-66 | the same for Gemini, unparseable frames skipped |
| `WholeReply.AnthropicReply` | crates/provider-anthropic/src/stream.rs:23-57 | the same for Anthropic, pings and unparseable frames skipped; the reply in full as for `Anthropic.ConsumeSse`: content, fallback, id, model, usage, reasons |
| `WholeReply.OllamaText` | crates/provider-local/src/stream.rs:32-50 | a body whose lines say a cut-safe text ends as the reference parse of that text |
| `WholeReply.OpenAiText` | crates/provider-openai/src/stream.rs:36-58 | the same for OpenAI |
| `WholeReply.GeminiText` | crates/provider-gemini/src/stream.rs:36-66 | the same for Gemini |
| `WholeReply.AnthropicText` | crates/provider-anthropic/src/stream.rs:23-57 | the same for Anthropic and every body that says one text block, with the raw text instead of an empty parse |
| `WholeReply.SameFromBytes` | crates/provider-gemini/src/stream.rs:36-66 | one text-only cut-safe reply in whatever deltas, frames and network chunks ends as the same content in all four adapters, namely the reference parse; only Anthropic falls back to the raw text when that is empty |
| `SchemaMeaning.SanitizeRelaxes` | crates/provider-gemini/src/schema.rs:43-54 | on the fragment described under "Left out", every instance the input schema accepts is accepted by the output, `nullable` read as accepting null |
| `SchemaMeaning.WalkRelaxes` | crates/provider-gemini/src/schema.rs:74-147 | the same for a sub-schema at any depth, references unfolded |
| `SchemaMeaning.LiftedAccepts` | crates/provider-gemini/src/schema.rs:155-200 | lifting null out of `anyOf` loses no instance |
| `SchemaMeaning.TypeCollapseExact` | crates/provider-gemini/src/schema.rs:202-227 | `{"type": [..]}` loses no instance when sanitised if and only if the first type other than `null` covers all the others |
| `SchemaMeaning.StandingRelaxes` | crates/provider-gemini/src/schema.rs:118-144 | the schema of a property called `type`, which is copied as it is, still accepts every instance when it is read as output |
| `SchemaKeeps.SanitizeKeeps` | crates/provider-gemini/src/schema.rs:43-147 | the converse: whatever the output accepts, the input accepts when `oneOf` is read as `anyOf`, closing keywords are ignored, and null passes where the schema mentions it; on the fragment described under "Left out" |
| `SchemaKeeps.WalkKeeps` | crates/provider-gemini/src/schema.rs:74-147 | the same for a sub-schema at any depth, references unfolded |
| `SchemaKeeps.AcceptsIsLoose` | crates/provider-gemini/src/schema.rs:118-144 | that reading is looser than the plain one for every schema, so the output stands between the two |
| `SchemaExact.SanitizeExact` | crates/provider-gemini/src/schema.rs:43-147 | without references, `oneOf`, closing keywords, type lists and null types the output accepts exactly what the input accepts |
| `SchemaExact.OneOfExact` | crates/provider-gemini/src/schema.rs:137-139 | a `oneOf` of two clean members or more, none a bare null, is rewritten to accept exactly what some member accepts |
| `SchemaExact.ReferencesResolve` | crates/provider-gemini/src/schema.rs:85-116 | `#/$defs/` and `#/definitions/` name the same definitions, and no other reference resolves |
| `SchemaExact.CleanMentions` | crates/provider-gemini/src/schema.rs:118-144 | the eleven keys that must go occur nowhere in a clean value |
| `SchemaExact.CapExact` | crates/provider-gemini/src/schema.rs:74-83 | nested `items` survive if and only if they are at most 32 deep |
| `SchemaMeaning.WalkedNullable` | crates/provider-gemini/src/schema.rs:155-227 | a `nullable` in the output is always `true` |
| `SchemaClean.SanitizedIsClean` | crates/provider-gemini/src/schema.rs:43-54 | on clean inputs the output has no forbidden key and no array-valued `type` at any depth, and `anyOf` has two members or more, none of them a bare null |
| `SchemaClean.SanitizeIdempotent` | crates/provider-gemini/src/schema.rs:43-54 | a second pass changes nothing, under a condition on the input: nothing the first pass adds (`nullable`, the list around a constant) comes to stand below the depth cap; the cap itself may be reached |
| `SchemaClean.WalkClean` | crates/provider-gemini/src/schema.rs:74-147 | cleanliness at any depth, cyclic definitions included |
| `SchemaClean.CleanWalksToItself` | crates/provider-gemini/src/schema.rs:74-147 | a clean schema within the cap is a fixed point |
| `SchemaClean.LiftedClean` | crates/provider-gemini/src/schema.rs:155-200 | lifting leaves no one-member `anyOf` and no bare null |
| `SchemaRewriter.Sanitize` | crates/provider-gemini/src/schema.rs:43-54 | the in-place rewriter computes `Sanitized`, terminating on every input, so what is proved about that function holds of it |
| `SchemaRewriter.ExtractDefs` | crates/provider-gemini/src/schema.rs:56-72 | a name stands for its last entry in `$defs`, and only without one for its entry in `definitions` |
| `SchemaRewriter.InsertEach` | crates/provider-gemini/src/schema.rs:61-65 | under every key the last value inserted counts, keys come out distinct, and a list of distinct keys is unchanged |
| `SchemaRewriter.AddMissing` | crates/provider-gemini/src/schema.rs:66-70 | only absent keys are added |
| `SchemaRewriter.Walk` | crates/provider-gemini/src/schema.rs:74-83 | the recursion with its depth cap |
| `SchemaRewriter.WalkObject` | crates/provider-gemini/src/schema.rs:85-147 | references are inlined, unresolved ones dropped, keywords rewritten |
| `SchemaRewriter.WalkEntries` | crates/provider-gemini/src/schema.rs:118-144 | the keyword loop |
| `SchemaRewriter.LiftNullFromAnyOf` | crates/provider-gemini/src/schema.rs:155-200 | the in-place edit computes `Lifted` |
| `SchemaRewriter.Retain` | crates/provider-gemini/src/schema.rs:163-170 | bare nulls are dropped, the order of the rest kept |
| `SchemaRewriter.RewriteType` | crates/provider-gemini/src/schema.rs:202-227 | the first type that is not null, and the null flag |
| `SchemaRewriter.PropertyNamesMatter` | crates/provider-gemini/src/schema.rs:118-144 | relaxation fails outside the fragment: a property called `const` is taken for the keyword, and an accepted instance is rejected |
| `SchemaRewriter.EnumValuesMatter` | crates/provider-gemini/src/schema.rs:118-144 | nor may an enum value look like a schema: of `{"enum": [{"const": null}]}` the only instance is lost |
| `Permissions.ReloadChangesDecision` | crates/savvagent-host/src/permissions.rs:220-269 | for every rule list and call: saving and reloading changes the decision exactly when the first match is a deny rule and an allow rule matches too |
| `Permissions.ReloadedDecision` | crates/savvagent-host/src/permissions.rs:248-269 | after a reload any matching allow rule wins |
| `Permissions.ReloadIsStablePartition` | crates/savvagent-host/src/permissions.rs:248-269 | a reload is the stable partition allows then denies, a permutation, and idempotent |
| `Permissions.DenyAboveAllowIsLost` | crates/savvagent-host/src/permissions.rs:220-269 | a concrete deny above a broader allow that a reload turns into allow |
| `Permissions.RuleRoundTrip` | crates/savvagent-host/src/permissions.rs:220-246 | a rule survives serialisation; an entry does unless it names a path and a command |
| `Permissions.RulesFromPermissions` | crates/savvagent-host/src/permissions.rs:248-257 | allow entries then deny entries |
| `Permissions.PermissionsFromRules` | crates/savvagent-host/src/permissions.rs:259-269 | the rules of each decision in order |
| `Permissions.SaveAndReload` | crates/savvagent-host/src/permissions.rs:248-269 | both loops together are `Reloaded` |
| `Permissions.RecordedPatternMatches` | crates/savvagent-host/src/permissions.rs:133-168 | the pattern recorded for a call matches that call |
| `PermissionReach.RecordedReach` | crates/savvagent-host/src/permissions.rs:133-168 | for every two calls: a decision recorded for one matches the other exactly when the tools agree and, for `run` with a first word, the words agree, for a path tool with a path, the path of the other leads there or into it name by name, and otherwise always |
| `PermissionReach.PatternReach` | crates/savvagent-host/src/permissions.rs:133-168 | what each pattern matches, in terms of words and names |
| `PermissionReach.EntryReach` | crates/savvagent-host/src/permissions.rs:220-246 | what an entry on disk reaches: its path, without one its command, without both every call of its tool |
| `PermissionReach.FirstWordExact` | crates/savvagent-host/src/permissions.rs:133-168 | the first word is the stretch without white space behind the leading white space, and there is none exactly in blank lines |
| `PermissionReach.ComponentsExact` | crates/savvagent-host/src/permissions.rs:133-168 | the components of a path are its non-empty names between slashes, `.` counting only at the front, behind the root if there is one |
| `PermissionReach.Neighbours` | crates/savvagent-host/src/permissions.rs:133-168 | `/p/xy` and `p/x` are not under `/p/x`, and `/p//x/./y` is |
| `Permissions.RecordingTakesEffect` | crates/savvagent-host/src/permissions.rs:473-490 | a recorded decision governs its own call if and only if the other rules are silent on it or agree |
| `Permissions.RecordedJoin` | crates/savvagent-host/src/permissions.rs:473-490 | two runs of recordings are the joined run |
| `Permissions.RecordedDistinct` | crates/savvagent-host/src/permissions.rs:473-490 | any run keeps distinct keys distinct |
| `Permissions.LastRecordingCounts` | crates/savvagent-host/src/permissions.rs:473-490 | after any run every key has its last recorded decision, unrecorded keys their old one |
| `Permissions.PermissionPolicy.AddRule` | crates/savvagent-host/src/permissions.rs:473-502 | rules with the key are dropped, the new one appended, and the file written from the result |
| `Permissions.PermissionPolicy.Retain` | crates/savvagent-host/src/permissions.rs:487-487 | exactly the rules with the key go |
| `Permissions.PermissionPolicy.ResolveBashNetwork` | crates/savvagent-host/src/permissions.rs:368-399 | answer, prompt and session cache for each policy and choice |
| `Permissions.PermissionPolicy.constructor` | crates/savvagent-host/src/permissions.rs:305-321 | a session starts with the rules on disk and no cached answer |
| `Permissions.RecordAll` | crates/savvagent-host/src/permissions.rs:473-502 | for every run of recordings: the rules are untouched ones then the last recording of each key, and the next session starts with their reload if the last write went through |
| `Permissions.ResolveAll` | crates/savvagent-host/src/permissions.rs:368-399 | for every sequence of answers the user is asked up to the first lasting one and never again, and that one stands |
| `LazyBash.EveryCall` | crates/savvagent-host/src/tools.rs:777-876 | in every session each call is refused and leaves the slot alone, or reaches the server of the slot, whose key is the resolved `allow_net`; the policy is asked exactly for calls without override |
| `LazyBash.SessionIsGood` | crates/savvagent-host/src/tools.rs:811-866 | at every moment of every session: at most two servers run, never none once one is up, a server is cancelled only while its successor runs, and calls go to the only one running |
| `LazyBash.SpawnsAreRuns` | crates/savvagent-host/src/tools.rs:805-866 | servers spawned are the maximal runs of equal keys among served calls, whatever spawns fail |
| `LazyBash.NoFailures` | crates/savvagent-host/src/tools.rs:805-866 | without failures they are the maximal runs of all resolved keys |
| `LazyBash.BashServer.Dispatch` | crates/savvagent-host/src/tools.rs:777-876 | one call, step by step, is `Handled` |
| `LazyBash.BashServer.Resolve` | crates/savvagent-host/src/tools.rs:171-177 | forced overrides never ask the policy |
| `LazyBash.BashServer.Shutdown` | crates/savvagent-host/src/tools.rs:722-739 | the slot is emptied and its server cancelled |
| `LazyBash.RunSession` | crates/savvagent-host/src/tools.rs:722-739 | a whole session does what `Session` says and leaves nothing running |
| `Query.QueryRoundTrip` | crates/savvagent-canvas/src/interceptor.rs:220-246 | every list of byte-string pairs is recovered from its query string by splitting and decoding |
| `Query.QueryInjective` | crates/savvagent-canvas/src/interceptor.rs:220-226 | two lists have the same query string only if they are equal |
| `Query.DecodeEncoded` | crates/savvagent-canvas/src/interceptor.rs:231-246 | percent decoding inverts percent encoding on all bytes |
| `Query.EncodedIsSafe` | crates/savvagent-canvas/src/interceptor.rs:231-246 | only unreserved characters of section 2.3 of RFC 3986, `+` and `%` come out |
| `Query.EncodedLength` | crates/savvagent-canvas/src/interceptor.rs:231-246 | exactly the bytes that are no letter, digit, `-_.~` or space grow, to three characters; where none does each byte stands for itself and a space for `+` |
| `Query.PercentEncode` | crates/savvagent-canvas/src/interceptor.rs:231-246 | the byte loop computes `Encoded` |
| `Query.EncodeQuery` | crates/savvagent-canvas/src/interceptor.rs:220-226 | pairs joined with `&` |
| `GeminiHistory.IdDetermines` | crates/provider-gemini/src/translate.rs:138-140 | `gemini-<name>-<index>` determines name and index, whatever dashes and digits the name has |
| `GeminiHistory.IdsInOneReply` | crates/provider-gemini/src/stream.rs:194-219 | within any reply all call ids differ and carry their names |
| `GeminiHistory.LookupIsRight` | crates/provider-gemini/src/translate.rs:142-158 | the lookup gives every call its own name if and only if no id stands for two names |
| `GeminiHistory.SynthesizedFindTheirNames` | crates/provider-gemini/src/translate.rs:142-158 | in every history of synthesized ids, reused across turns, every call finds its own name |
| `GeminiHistory.RepliesAreSynthesized` | crates/provider-gemini/src/translate.rs:138-158 | histories built from replies of this adapter have such ids |
| `GeminiHistory.BuildToolIdLookup` | crates/provider-gemini/src/translate.rs:142-158 | assistant tool uses, the last one under an id |
| `GeminiHistory.RequestContents` | crates/provider-gemini/src/translate.rs:26-33 | each message in its place; each result of a call is sent under the name of its own call if and only if no id stands for two names, which holds of synthesized ids; results of no call as `unknown_tool` |
| `GeminiHistory.MessageToGemini` | crates/provider-gemini/src/translate.rs:160-233 | the parts of a message in order, and never none |
| `GeminiHistory.SentAsSaid` | crates/provider-gemini/src/translate.rs:160-233 | a reply is sent back block by block: its text and html as text, its thoughts with their signatures, its calls with their input, its pictures with their data and a mime type that reads back as their media type |
| `GeminiHistory.FlattenToolResultText` | crates/provider-gemini/src/translate.rs:235-246 | the text blocks joined by newlines, empty ones at the front left out |
| `GeminiHistory.TextsAreJoined` | crates/provider-gemini/src/translate.rs:235-246 | what the loop builds is the join of the texts without the empty ones at the front |
| `GeminiHistory.JoinedExactly` | crates/provider-gemini/src/translate.rs:235-246 | it is the join of all texts if and only if there is at most one or the first is not empty |
| `GeminiHistory.EmptyTextFirst` | crates/provider-gemini/src/translate.rs:235-246 | with an empty text before another the newline between them is missing |

## Left out

- Async scheduling, channels, failing event emitters, tracing and network errors: an accumulator is a machine that
  returns its events, a decoder is given the chunks it will receive.
- JSON, TOML and YAML parsing and serialisation: function parameters or in-memory values; JSON numbers are reals.
- HTTP clients, MCP wrappers, model listing, error-status tables, prompt building, configuration, plugin discovery,
  and the capability tables: plumbing or single-branch maps.
- Rendering, hit-testing and DOM mutation of the canvas, OS sandboxes, keyring and WASM: foreign code.
- Integer widths: block indices and u32 counters are unbounded, except Anthropic's output tokens, which saturate at
  32 bits as in the code.
- The field `state` of an Html block, which the adapters always leave empty.
- Invalid UTF-8 in decoders: the code drops or empties such a frame or line and may then read on at a different
  place, so the decoder theorems are stated for bodies whose complete frames (or lines) are valid.
- Frame boundaries other than `\n\n` and `\r\n\r\n`: section 9.2.6 of the WHATWG HTML Standard also ends lines with a
  lone `\r` and allows mixed endings; the decoders do not, and neither does the model.
- The interleaving of Ping and Warning events with block events in the Anthropic and Gemini drivers:
  `WholeReply` speaks of the final reply only.
- Ollama `message_text`: the text of a message is an input; the extraction from content blocks is not modelled.
- Gemini non-streaming responses and generation settings: easy beside the streaming path.
- Gemini.Accumulator.CloseBlock: block states are modelled by the content blocks they become.
- SameReply.Everywhere: its Anthropic leg is a message of one text block that has been stopped;
  `AnthropicTexts.TextsContent` describes several blocks. Input and cache token counts told to the client before the
  end are not compared with the reply, where later chunks may change them.
- Anthropic.ConsumeSse: upstream runs that open a block inside another, repeat an index or send a delta of another
  kind are excluded by its precondition; a non-empty initial text of a text block is allowed and, as in the code,
  not sent.
- SchemaMeaning.SanitizeRelaxes: the other direction is `SchemaKeeps.SanitizeKeeps`. Its fragment is
  type, enum, const, properties, required, items, anyOf, oneOf and `$ref`, with other keywords passed through. Values
  that are walked without being schemas (members of `enum`, other keywords, a `const` or a closing keyword beside a
  resolvable `$ref`) must be clean, that is, be left alone by the walk; `SchemaRewriter.EnumValuesMatter` shows why.
  No `nullable` in the input; in a `type` list the first type other than `null` covers the others; no `oneOf` beside
  a resolvable `$ref`; no property called `const` or `oneOf` (`SchemaRewriter.PropertyNamesMatter` shows why), and the
  schema of a property called `type` holds no `$ref` and no `oneOf`; references unfolded within the depth cap.
- SchemaKeeps.SanitizeKeeps: the converse holds in a looser reading only, since the rewriting is meant to accept more:
  `oneOf` counts as `anyOf`, closing keywords say nothing, a list of alternatives that are all the type null says
  nothing, null passes wherever the schema mentions it, and a keyword beside a resolvable `$ref` counts where the
  target cannot have it. On the fragment above, and where keywords do not get in each other's way: keys are distinct
  after `const` and `oneOf` are renamed; no `nullable` beside a `type` list; `type` lists hold strings; definitions
  referred to are objects; alternatives are objects or `true`; and a list that may shrink to one alternative shares
  no keyword but notes with the object it stands in. `SchemaExact.SanitizeExact` names schemas on which it is exact.
- SchemaClean.SanitizedIsClean: `$ref` is a string, no rewritten keyword beside a resolvable `$ref` (at the root the
  five stripped keys may stand there), property names avoid the keywords, `type` is a string or a list of strings,
  a `const` is scalar, and enum values are inputs of the same kind.
- Schema.Remove: keeps the order of the remaining entries, where the map type of the code may move its last entry
  into the gap; the theorems hold for every order of entries.
- The sensitive-path floor, front-matter layering and default verdicts of `evaluate`: settled by one branch each.
- Paths are compared as on Unix; the file system and the file format of `permissions.toml` are a value and a flag
  that says whether a write went through.
- LazyBash.BashServer.Dispatch: the resolver's answer and the outcome of a spawn are given with the call; locks are
  not modelled, calls are one after the other; an error when cancelling an old server is ignored as in the code.
- Summaries.AnthropicSummary: for runs with a message start; the sum of announced tokens is `Anthropic.Announced`.
- AnthropicMessages.CutOff: one block; of several blocks cut before anything is said the fallback holds each slot,
  by `Anthropic.AllToldSnoc`.
- Query.EncodeQuery: takes names and values as byte strings; collecting the form fields from the document is not
  modelled.
