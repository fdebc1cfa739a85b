# Verified model of the translation core of chatgpt-codex-proxy

The proxy translates between public LLM APIs and one private upstream. This project models the logic
of that translation in Dafny and proves what its design relies on. It verifies with
`dafny verify dfyconfig.toml`.

## What is modelled

- **Streaming translation.** `ToolCalls`, `ToolCallLaws`, `Metadata`, `Responses`: the accumulator
  folds an arbitrary upstream event sequence into tool calls, aliases and output items. `Encoder`,
  `Messages`, `EncoderGrammar`, `EncoderRuns`, `EncoderTools`, `EncoderInput`: the encoder turns the
  same sequence into content-block events; `EncoderContent` and `EncoderOrder` say what a client
  reads in them. `ToolCallValues`: what a call holds, told from all that was said about it.
  `EncoderCalls`, `EncoderCoverage`, `EncoderRenames`, `EncoderStuck`: how many blocks each call
  gets when upstream renames calls, with `EncoderResend` and `EncoderRenameCases` for the ways it
  goes wrong. These modules state both on values, and prove them over all runs. `Accumulator`,
  `StreamEncoding` and `Streaming` are the objects of the source, whose tool calls are shared and
  written through from two sides; their methods are proved to do what the value level says, up to a
  loop that serves a whole run. `ChatTools` and `ChatRuns` stream the same calls to Chat Completions
  clients.
- **Schemas and values.** `Schemas` gives JSON Schema a meaning (JSON Schema Core 2020-12: `$ref`
  section 8.2.3.1, `anyOf` 10.2.1.2, `prefixItems` 10.3.1.1, `items` 10.3.1.2, `properties`
  10.3.2.1, `additionalProperties` 10.3.2.3). `StrictSchemas` and `StrictCleaning`: the strict form
  for the upstream and the removal of its nulls, with `StrictExceptions` and `StrictRecords` for
  where that fails, and `StrictCompiles` for which schemas have such a form. `SchemaRefs`,
  `SchemaRefsLeft`, `SchemaWalk`: local references inlined, in the order of the source, which
  resolves the definitions in place on the way. `SchemaLeft`: which references stay.
  `SchemaSiblings`, `SchemaClosing`, `SchemaMeaning`: keywords beside references, object nodes
  closed, and what is accepted in the end. `Tuples` and `TupleUnions`: tuples as objects and back.
- **Names and messages.** `ToolNames`: an injection into 64-byte names. `Normalize` and
  `NormalizeSays`: client messages become upstream input. `Sse`: frames written and read (WHATWG
  HTML section 9.2.6, with the trimming of this code).
- **Replay.** `ReplayApply`, `ReplayLaws`, `ReplayPlaces`, `ReplaySplice`: a remembered turn is
  spliced into a request. `ReplayCache`: the bounded cache, against the cache it would be without
  bounds.
- **Accounts and continuation.** `Accounts`, `AccountService`: eligibility over time, rotation, and
  the service. `Failover`, `Delivery`: opening a stream. `Session`: matching a request with a stored
  turn.

`Text` and `Json` hold the library functions and accessors the rest needs. One `char` is one byte of a
Go string.

Where a promise does not hold of the code, the code is modelled as it is, a member gives the input, and
another the exact condition:

- one block for each tool call: `SentTwice`, `SentUnderBothIDs`, `NeverSent`; `OneBlockEachWhenRenamedHarmlessly`
- no tool event forwarded as it came: `AnnouncedThreeTimes`; `ForwardsNoToolEvent`
- names come back: `CutAtSpaceDoesNotComeBack`; `NewNameLeadsBack`
- one number for each call streamed to Chat Completions clients: `RenamedIsAnnouncedAgain`; `OneNumberExactly`
- cleaned values are accepted: `EnumeratedObjectFails`, `AlternativeBesideArrayFails`; `EnumerationExactly`, `BesideArrayExactly`, `BesideExactly`
- no reference is left: `PlaceDecides`, `AliasIsLeft`; `LeavesExactly`
- siblings add to a definition: `SiblingReplaces`; `MeaningExactly`
- a tuple comes back from any alternative: `ObjectBecomesList`; `UnionExactly`
- closing object nodes only takes away: `OneOfWidens`; `OneOfExactly`, `SafeExactly`
- a replayed turn is the assistant's: `UserGetsReasoning`; `RolesExactly`
- what is remembered stays: `RememberedAndGone`; `NewestStays`
- the least used account: `UsageCanCycle`; `OrderableExactly`
- what was received of a text is read: `UnfinishedLineIsLost`; `LastLineExactly`

## Assumptions

- The Go map of used tool names has fewer than 2^63 - 1 entries (a third of that for listed names).
- The clock does not run backwards (`ReplayCache`).
- Functions that are left open are parameters: shortenCallID, signature validity, normalizedOutputText,
  conversation.Derive, the blocks and texts of the finished message, the upstream of the failover loop.
- Enumerations, patterns, formats and numeric bounds are opaque assertions about a value.

## Model

| member | source | states |
|---|---|---|
| ToolNames.SearchBound | internal/turn/tool_names.go:49-55 | the numbered candidates are pairwise different, so a run of n taken ones needs n entries in `used`: the search ends within one more try than there are used names |
| ToolNames.SuffixedInjective | internal/turn/tool_names.go:49-55 | different suffix numbers give different strings, even where the base has to be cut to make room |
| ToolNames.SuffixedKeepsBase | internal/turn/tool_names.go:49-54 | a numbered candidate is the number behind as much of the base as there is room for |
| ToolNames.LongServerName | internal/turn/tool_names.go:73-85 | of a name that is too long, the name of the server goes: what is tried first is `mcp__` and what follows the last two underscores, up to the limit |
| ToolNames.LongName | internal/turn/tool_names.go:73-87 | of any other such name, its first 64 bytes |
| ToolNames.ShortenKeepsBijection | internal/turn/tool_names.go:37-64 | one call keeps originals and short names in bijection, at most 64 bytes each, and never changes a name issued before |
| ToolNames.AnyRunIsBijective | internal/turn/tool_names.go:17-64 | after construction and any further calls the maps are a bijection, every non-blank name seen has a short name, and a listed name that fits is its own |
| ToolNames.RestoreInvertsShorten | internal/turn/tool_names.go:89-94 | restoring an issued name gives the original back if and only if the issued name has no white space at its ends |
| ToolNames.NewNameLeadsBack | internal/turn/tool_names.go:37-94 | told beforehand: a name shortened for the first time comes back if and only if its candidate has no white space at its ends, or is taken and so gets a numbered suffix |
| ToolNames.CutAtSpaceDoesNotComeBack | internal/turn/tool_names.go:73-94 | a listed name for which it has: the cut falls after a space, and the original does not come back |
| ToolNames.UpstreamToolName | internal/turn/tool_names.go:96-104 | in whatever order the aliases are visited, the result is an alias of the trimmed name when there is one, and the name itself otherwise |
| ToolNames.UpstreamInvertsRestore | internal/turn/tool_names.go:89-104 | sending a restored name upstream yields the very name that was issued |
| ToolNames.ToolNamesMap.constructor | internal/turn/tool_names.go:17-35 | the three maps are those of the specification, listed names being reserved before any is shortened, and they form a bijection |
| ToolNames.ToolNamesMap.Shorten | internal/turn/tool_names.go:37-64 | the search loop terminates and leaves the maps and the answer of the specification, whose candidate is the first free one |
| ToolCallLaws.ApplyKeeps | internal/turn/accumulator.go:64-81 | one event of any kind keeps the whole invariant (usable trimmed ids, distinct call ids, aliases in range, indices below the next, items keyed one to one) and moves every call by a legal step: ids freeze once they differ, a new call id was nobody's alias |
| ToolCallLaws.EveryRunIsSound | internal/turn/accumulator.go:64-81 | the invariant holds after every run from a new accumulator, and any later part of a run is a legal step from any earlier one |
| ToolCallLaws.EnsureCallKeeps | internal/turn/accumulator_tools.go:46-99 | finding or creating the call of an event keeps the invariant, whatever the two ids and the index |
| ToolCallLaws.CaptureOutputItemKeeps | internal/turn/accumulator.go:300-351 | capturing an item keeps the bijection between keys and output items as well as the laws of ids and indices |
| ToolCallLaws.AutomaticIndexIsNew | internal/turn/accumulator.go:605-615 | an automatic output index is carried by no call and no item, and the next one is higher |
| ToolCallLaws.WrittenCallIsFound | internal/turn/accumulator_tools.go:9-44 | right after a plain argument event, looking its call up gives the call that was written if and only if one of the ids it came with is trimmed |
| ToolCallLaws.CapturedCallIsFound | internal/turn/accumulator_tools.go:101-129 | after an item event whose call id is trimmed, what is found is the very call the item was captured into; when a call is found at all, Responses.FoundExactly says |
| ToolCallLaws.ArgumentsAccumulate | internal/turn/accumulator_tools.go:24-43 | any number of argument deltas leaves the arguments followed by all the deltas in order, and nothing else changed |
| ToolCallLaws.InputAccumulates | internal/turn/accumulator_tools.go:24-43 | likewise for the input of a custom tool |
| ToolCallValues.CallsAreWhatWasSaid | internal/turn/accumulator_tools.go:9-44 | on every run, of every call: its name is the last one said, its value the last whole value with the pieces that followed, its type and its status the last ones, among all that was written to it |
| ToolCallValues.WritesSay | internal/turn/accumulator.go:300-334 | the same for any list of argument events and items written to one call |
| Accumulator.ToolCallState.TakeIDs | internal/turn/accumulator_tools.go:66-75 | placeholder ids are replaced and ids that differ are kept, as the specification of merging says |
| Accumulator.AccumulatorState.constructor | internal/turn/accumulator.go:56-62 | a new accumulator stands for the empty registry |
| Accumulator.AccumulatorState.EnsureToolCallState | internal/turn/accumulator_tools.go:46-90 | the object found or appended is the one at the position the specification names, shared by the list and the alias map; old objects stay in place |
| Accumulator.AccumulatorState.RegisterToolCallAliases | internal/turn/accumulator_tools.go:92-99 | every non-blank id leads to the call afterwards and no other alias moves |
| Accumulator.AccumulatorState.ApplyToolArgumentEvent | internal/turn/accumulator_tools.go:9-44 | writing through the shared object changes exactly the one call of the registry |
| Accumulator.AccumulatorState.CaptureOutputItem | internal/turn/accumulator.go:300-351 | tool items go to their call, other items to the keyed list, as specified |
| Accumulator.AccumulatorState.ReplaceOutputItems | internal/turn/accumulator.go:353-359 | the loop captures every item under its position after clearing the list |
| Accumulator.AccumulatorState.Apply | internal/turn/accumulator.go:64-81 | the whole state after an event, registry and metadata, is the specified function of the state before it |
| Accumulator.AccumulatorState.ToolCallStateForEvent | internal/turn/accumulator_tools.go:101-129 | the object returned is the one at the position the specification finds, or none |
| Accumulator.AccumulatorState.ResponsesStreamEventsForEvent | internal/turn/accumulator.go:245-284 | events and flags are those of the Responses specification |
| Accumulator.AccumulatorState.PendingResponseToolCallCompletionEvents | internal/turn/accumulator.go:208-298 | the final loop closes the calls the specification closes, in their order, for a response that is incomplete by its terminal event or its status |
| Metadata.TextOnlyGrows | internal/turn/accumulator.go:116-156 | over any run, text and reasoning are only ever added to |
| Metadata.ReasoningIsTheSummary | internal/turn/accumulator.go:122-125 | on every run the reasoning is the deltas of the summary, all of them in order |
| Metadata.TextIsTheAnswer | internal/turn/accumulator.go:116-156 | on every run the text begins with what the first event that has any says, and goes on with exactly the text deltas behind it |
| Metadata.IdentityOfRun | internal/turn/accumulator.go:83-114 | on every run: the id and the model are those of the last response that says them, or else of the first event that does; the status is the last one; the end is that of the last terminal event |
| Metadata.IncompleteExactly | internal/turn/accumulator.go:208-210 | a run is incomplete if and only if its last terminal event says so or the last status that any event gives |
| Responses.EveryStreamFollowsProtocol | internal/turn/accumulator.go:245-298 | on every run the accumulator announces each call at most once and before anything it says about it, and closes it at most once, right after its final value; the flags agree with what was sent |
| Responses.RespondSays | internal/turn/accumulator_tools.go:131-183 | whatever is sent for an event says what the accumulator has: announcements and ends under the index and item id of the call, pieces that are the event's own, and as the value all of it |
| Responses.FoundExactly | internal/turn/accumulator_tools.go:101-129 | right after any event that speaks of a tool call, its call is found if and only if one of the ids the event carries is trimmed and not empty (for an item without ids: if the event names a known item) |
| Responses.ForwardsNoToolEvent | internal/server/responses_websocket.go:234-281 | the server forwards what the accumulator does not handle; nothing that speaks of a tool call is forwarded, besides what the protocol says, if and only if every such event carries a usable id |
| Responses.AnnouncedThreeTimes | internal/server/responses_websocket.go:249-281 | otherwise, whatever the untrimmed id: a call announced twice by upstream reaches the client twice as it came, and once more from the accumulator |
| Responses.TerminalClosesCalls | internal/turn/accumulator.go:208-298 | after the final flush every call is closed, except that for a response that is incomplete by its terminal event or its status exactly those are that were closed before or report themselves completed |
| Responses.PendingLinked | internal/turn/accumulator_tools.go:131-183 | the flush from any call on continues a legal trace legally and leaves earlier calls alone |
| Messages.ReadIsWhole | internal/anthropic/stream.go:48-146 | a stream a client reads to its end is one message start, blocks numbered 0, 1, 2, ... each started, filled and stopped in turn, a message delta and a stop |
| EncoderGrammar.DispatchInStep | internal/anthropic/stream.go:48-146 | every event but the terminal one takes a client from a legal reading to a legal reading that agrees with the encoder on the open block and the next index |
| EncoderGrammar.CloseInStep | internal/anthropic/stream.go:227-234 | stopping the open block, if any, leaves a client with the same blocks and none open |
| EncoderGrammar.FinishInStep | internal/anthropic/stream.go:126-143 | the terminal event completes any legal reading, whatever is buffered, open or still to hydrate |
| EncoderGrammar.HydrateTerminalInStep | internal/anthropic/stream.go:258-315 | hydration sends whole blocks only |
| EncoderRuns.EveryRunIsWholeMessage | internal/anthropic/stream.go:48-424 | whatever upstream sends before its terminal event, the client receives exactly one well-formed message |
| EncoderRuns.OnlyTextStaysOpen | internal/anthropic/stream.go:48-146 | between two events no block is open but a text block |
| EncoderContent.ContentOfMessage | internal/anthropic/stream.go:48-146 | on every complete run the client reads, told from the events: the text offered first and the deltas behind it, in text blocks; the first signed thinking with what was streamed of it; every search once; and the ids and the end of the first and the last view |
| EncoderContent.ContentSoFar | internal/anthropic/stream.go:66-96 | the same between any two events |
| EncoderContent.TextOfDeltas | internal/anthropic/stream.go:72-77 | without a response schema that text is all the text deltas, when no whole text was offered before the first |
| EncoderContent.TextOfSchema | internal/anthropic/stream.go:78-86 | with a schema it is one normalized whole |
| EncoderContent.OneThought | internal/anthropic/stream.go:197-214 | at most one thinking block is read, and it has a signature |
| EncoderContent.ToolBlocksNameTheirCalls | internal/anthropic/stream.go:216-225 | on every run, whatever is renamed: each tool block that an event adds has the shortened id and the name of a call the accumulator has then |
| EncoderOrder.TextStaysInOneBlock | internal/anthropic/stream.go:169-181 | on every run: while a block is open, a text delta goes into it and nothing else is sent |
| EncoderOrder.NothingOpenAfterText | internal/anthropic/stream.go:78-90 | on every run: the end of a text leaves no block open |
| EncoderOrder.HydratedInOrder | internal/anthropic/stream.go:258-315 | the blocks of the terminal event begin in this order: thinking, searches, text; and all tools before them if some had been started, behind them otherwise |
| EncoderOrder.ExecutableExactly | internal/anthropic/response.go:428-440 | a call may be run if and only if it is completed, or neither it nor the response is incomplete, failed or cancelled; in any case and with white space around |
| EncoderOrder.SearchExactly | internal/anthropic/response.go:158-191 | a search is shown if and only if it has no other status than completed and its id, the first there is, shortens to something; with the first query there is |
| EncoderOrder.SummarySignatureIsFirst | internal/anthropic/stream.go:60-70 | the signature of a summary is the first there is of the three places it may be in |
| EncoderTools.PiecesAreTheValue | internal/anthropic/stream.go:412-420 | the pieces of a tool block put together are the value of the call if and only if what was buffered is a prefix of it (for a call whose id has changed: if nothing was buffered) |
| EncoderTools.EmitMarksSent | internal/anthropic/stream.go:216-225 | a tool just sent is marked as sent under the id it is filed under if and only if that is still its call id or something was buffered for it |
| EncoderTools.ToolsInOrderAtMostOnce | internal/anthropic/stream.go:385-424 | while no call is renamed that the encoder has filed, the tool blocks sent are a duplicate-free prefix of the tools in the order of first registration |
| EncoderCalls.FlushAccounts | internal/anthropic/stream.go:398-424 | whatever ids calls have left behind: a flush adds exactly the calls it sends to those that have blocks, and sends a second block exactly when it gets to a tool whose call has one |
| EncoderCoverage.AtMostOneBlockPerCall | internal/anthropic/stream.go:385-424 | on every run: each tool block belongs to one call, blocks with the same id to the same call, and no call has two blocks if and only if no event makes the encoder get to a tool whose call has one |
| EncoderCoverage.BlocksOfTheMessage | internal/anthropic/stream.go:258-424 | the same accounting for the whole message, terminal event included |
| EncoderCoverage.MessageCovers | internal/anthropic/stream.go:258-424 | executable or not: a terminal event that can flush leaves every executable call with exactly one block and gives none to another if and only if no call had two before, and the last flush of the settled tools gets to the executable calls without a block and to no others |
| EncoderCoverage.ExactlyOneBlockEach | internal/anthropic/stream.go:258-424 | a message whose calls are all executable has exactly one block for each call if and only if no call had two before the terminal event, and every id left behind by then is either sent along with the call id, or done with neither sent |
| EncoderRenames.OneBlockEachWhenRenamedHarmlessly | internal/anthropic/stream.go:258-424 | the condition on the events: such a message has exactly one block for each call if and only if every event that renames a filed call finds its tool done and unsent, and finds deltas buffered for it unless the encoder gets to it no more before the terminal event |
| EncoderRenames.OneBlockEachWithoutRenames | internal/anthropic/stream.go:258-424 | so such a message has exactly one block for each call whenever no event renames a filed call |
| EncoderResend.SentTwice | internal/anthropic/stream.go:216-225 | renamed when done and unsent without deltas, and flushed before the end: for any two different ids, a complete run whose one call gets two blocks under the new id |
| EncoderRenameCases.SentUnderBothIDs | internal/anthropic/stream.go:398-424 | renamed after it was sent: for any two different ids, a complete run whose one call gets a block under each |
| EncoderRenameCases.NeverSent | internal/anthropic/stream.go:398-411 | renamed before it was done: for any two different ids, a complete run whose one call, executable as it is, gets none |
| EncoderStuck.RenamedTooEarly | internal/anthropic/stream.go:398-411 | once that has happened, neither that call nor any call filed after it is ever sent, whatever upstream sends and whether or not they are executable |
| EncoderRuns.TextIsShown | internal/anthropic/stream.go:72-96 | on every run a block is open between two events only when text has been sent; what text, EncoderContent.ContentSoFar says |
| EncoderTools.TerminalFlushesExactly | internal/anthropic/stream.go:258-315 | on every run the terminal event gets to flush the tools if and only if no block is open on arrival, or no tool was streamed and the finished message has a signed thinking block or a web search that was not |
| EncoderTools.SettledFlush | internal/anthropic/stream.go:262-279 | after settling, a flush sends what is left of the order, and exactly the executable calls remain filed |
| EncoderTools.TerminalEventCoversTools | internal/anthropic/stream.go:258-315 | when no filed call is renamed, a terminal event that flushes leaves every executable call with one block and adds none for a call that is not executable; one that does not flush adds nothing |
| EncoderTools.EveryExecutableCallHasOneBlock | internal/anthropic/stream.go:258-315 | in particular, every executable call has exactly one block when no block is open on arrival of the terminal event |
| EncoderInput.EveryToolBlockIsComplete | internal/anthropic/stream.go:97-107 | when every value extends what was streamed for it and no filed call is renamed, each tool block sent carries pieces that together are the accumulator's value at that moment |
| EncoderInput.EveryToolBlockHoldsTheFinalValue | internal/anthropic/stream.go:97-107 | and when no event changes a call after its block was sent, every tool block of the whole message carries the final value of its call |
| EncoderInput.RunInvariants | internal/anthropic/stream.go:97-107 | over every such run the buffer of an unsent tool holds exactly what was streamed for it |
| StreamEncoding.StreamEncoder.OpenAs | internal/anthropic/stream.go:169-195 | an open block of the kind is kept, any other is stopped before the next index is started |
| StreamEncoding.StreamEncoder.CompleteThinking | internal/anthropic/stream.go:197-214 | buffered deltas or the given text, the signature, and the end of the block, once |
| StreamEncoding.StreamEncoder.CompleteWebSearch | internal/anthropic/stream.go:331-383 | two whole blocks under two fresh indices, once per search |
| StreamEncoding.StreamEncoder.RegisterTool | internal/anthropic/stream.go:385-390 | the tool is filed under its call id and keeps its place in the order |
| StreamEncoding.StreamEncoder.EmitTool | internal/anthropic/stream.go:410-421 | one whole tool block, with the sent marks the specification gives |
| StreamEncoding.StreamEncoder.FlushTools | internal/anthropic/stream.go:398-424 | the loop sends the tools in order up to the first unfinished one, or nothing while a block is open |
| StreamEncoding.StreamEncoder.SettleTools | internal/anthropic/stream.go:262-269 | the loop files the executable calls as done and drops the others |
| StreamEncoding.StreamEncoder.FlushTerminalTools | internal/anthropic/stream.go:270-278 | an open tool block is completed and closed before the flush |
| StreamEncoding.StreamEncoder.HydrateTerminal | internal/anthropic/stream.go:258-315 | tools first when any was streamed, then thinking, searches and text that were not, then the tools |
| StreamEncoding.StreamEncoder.Events | internal/anthropic/stream.go:48-146 | events sent and state left are those of the specification, for an encoder that holds the accumulator's own objects |
| Streaming.Serve | internal/anthropic/stream.go:48-146 | the loop around the two objects sends exactly what the specification of runs sends, so a complete run is one well-formed message |
| ChatTools.WriteReassembles | internal/server/stream_chat_tools.go:20-81 | a chunk write keeps the protocol, disturbs no other call, and leaves the client with exactly the current value if and only if what it had was a prefix of it |
| ChatTools.AccumulatorRunReassembles | internal/server/stream_chat_tools.go:20-81 | over a run of the accumulator that takes back no value, the client has for every announced call the value of the last event about it, a beginning of the final one |
| ChatRuns.ArgumentsArriveExactly | internal/server/stream_chat_tools.go:20-81 | it has all of the final value if and only if every event that changed the call is about it or is followed by one that is |
| ChatRuns.OneNumberExactly | internal/server/stream_chat_tools.go:30-80 | on every run of the accumulator, a call is announced at most once if and only if no event gives it another id between two events that show it with a name |
| ChatRuns.RenamedIsAnnouncedAgain | internal/server/stream_chat_tools.go:30-80 | two events for which it is announced twice: a first piece with the item id alone, and the item with its call id |
| ChatTools.EveryRunIsWellFormed | internal/server/stream_chat_tools.go:30-80 | on every run calls are numbered 0, 1, 2, ..., announced once before any piece, and the sent counts are the lengths received |
| ChatTools.EveryRunTellsNames | internal/server/stream_chat_tools.go:36-56 | on every run a call is announced with the first name it was seen with, once it has one |
| ChatTools.ChatToolCallStreamer.WriteChunk | internal/server/stream_chat_tools.go:20-81 | chunks and maps are those of the specification for the call the event speaks of, and the answer says whether there were any |
| StrictSchemas.StrictIsClosed | internal/anthropic/request.go:469-521 | every object node of a strict schema is closed and requires all of its properties |
| StrictCompiles.CompilesExactly | internal/anthropic/request.go:469-637 | a schema compiles if and only if each node has supported keywords only and every keyword about a kind of value stands where a type it names has values of that kind; items wherever arrays are named, no alternatives where objects are, nothing required that is not declared |
| StrictCompiles.RootExactly | internal/anthropic/request.go:459-467 | the whole schema compiles if and only if it does so and is of type object; it then accepts objects only |
| StrictSchemas.CleanOnlyHelps | internal/anthropic/response.go:244-318 | on every schema and value: what the client's schema accepts stays as it is, and what cleaning changes is accepted afterwards, by the schema or one of its alternatives |
| StrictSchemas.ScalarSame | internal/anthropic/request.go:469-521 | compiling changes nothing about values that are neither objects nor arrays, null among them |
| StrictSchemas.StrictThenClean | internal/anthropic/response.go:244-334 | every value the strict schema accepts is cleaned into one the client's schema accepts |
| StrictSchemas.FillRestores | internal/anthropic/response.go:244-334 | without unions, putting the missing properties back as null restores the strict value: cleaning loses nothing |
| StrictSchemas.FilledIsStrict | internal/anthropic/request.go:469-521 | without unions, every value of the client's schema with declared properties only is accepted by the strict schema once filled |
| StrictExceptions.CleanIsDrop | internal/anthropic/response.go:244-334 | cleaning what the strict schema accepts takes out every null that stands for a missing property, and does nothing else |
| StrictExceptions.EnumeratedObjectFails | internal/anthropic/request.go:523-549 | outside the fragment it fails: an enumeration on an object node accepts a value upstream that cleaning cannot mend |
| StrictExceptions.EnumerationExactly | internal/anthropic/response.go:244-318 | for a node with an enumeration the round trip succeeds on every value if and only if what it lists is closed under dropping the optional nulls |
| StrictRecords.AlternativeBesideArrayFails | internal/anthropic/response.go:248-266 | an alternative beside the type array breaks it as well: it cleans by its own properties, whatever the items of the node ask for |
| StrictExceptions.BesideArrayExactly | internal/anthropic/response.go:248-314 | there it succeeds on a value if and only if the client's schema accepts it as it is, or the items accept what the first alternative that takes it only in strict form drops, or, when there is none, an alternative accepts what the items drop |
| StrictRecords.BesideExactly | internal/anthropic/response.go:248-314 | told from the schema, for lists of records: it succeeds on every value if and only if what the alternative drops is optional in the items, covers what they cannot have as null wherever it drops anything, and what only the items drop is optional in the alternative |
| StrictCleaning.RemoveOptionalNullProperties | internal/anthropic/response.go:244-318 | the loops compute the specified value in any order of the properties, and report a change if and only if the value differs |
| StrictCleaning.CleanProperties | internal/anthropic/response.go:269-296 | the loop over the properties drops and cleans as specified, whatever their order |
| SchemaWalk.InPlaceIsExpansion | internal/openai/schema.go:72-157 | the definitions are resolved in place in the middle of the walk, in an order left open; yet with acyclic definitions a schema whose references have no siblings comes out as if each reference had been replaced by its definition as given |
| SchemaWalk.DefinitionsResolved | internal/openai/schema.go:115-126 | walking through acyclic definitions in any order, with what is resolved showing in them at once, resolves each of them that is not a reference itself |
| SchemaMeaning.WalkSchemaMeans | internal/openai/schema.go:72-157 | the walk does not change which values are accepted relative to the definitions, cyclic ones included, where no sibling of a reference clashes with a keyword of the definition it leads to |
| SchemaMeaning.MeaningExactly | internal/openai/schema.go:87-99 | told by the keywords: a reference with siblings keeps its meaning, whatever stands under the keywords, if and only if no sibling keyword is one of the definition or coupled with one |
| SchemaSiblings.SiblingsExactly | internal/openai/schema.go:93-97 | writing siblings over a definition accepts what both accept, for all schemas with those keywords, values and meanings, if and only if no two of the keywords clash |
| SchemaRefs.SiblingReplaces | internal/openai/schema.go:94-99 | beside a reference this fails: a keyword replaces the one of the definition, and the result accepts what the definition kept out |
| SchemaLeft.LeavesExactly | internal/openai/schema.go:26-36 | with acyclic definitions for all references, NormalizeSchema leaves a reference if and only if one has a sibling that leads back to it: through any definitions at the root and among its properties, which come before the definitions, and at once or through mere references behind them |
| SchemaLeft.PlaceDecides | internal/openai/schema.go:115-157 | the same node keeps a reference under the properties of the root and keeps none under anyOf |
| SchemaLeft.AliasIsLeft | internal/openai/schema.go:115-157 | a sibling that is left under anyOf too: its definition is nothing but a reference to the one beside it |
| SchemaRefs.InjectNarrows | internal/openai/schema.go:38-53 | closing object nodes only takes values away, where it changes no alternative of a oneOf |
| SchemaRefs.OneOfWidens | internal/openai/schema.go:38-53 | under oneOf this fails: closing one of two alternatives lets in what both accepted before |
| SchemaClosing.OneOfExactly | internal/openai/schema.go:38-53 | closing the alternatives of a oneOf lets a value in if and only if several of them accepted it and one of the closed ones still does |
| SchemaClosing.SafeExactly | internal/openai/schema.go:38-53 | an alternative is safe beside every one that loses nothing by closing if and only if it loses nothing itself |
| SchemaClosing.ClosingLosesExactly | internal/openai/schema.go:38-46 | what an object node that says nothing of other properties loses by closing: exactly the objects with a property it does not name |
| SchemaMeaning.NormalizeNarrows | internal/openai/schema.go:26-36 | whatever a normalized schema accepts, the schema with its definitions accepts, told from the schema and the definitions: no sibling clashes with a keyword of its definition, and object nodes under oneOf name their properties and say whether they have others |
| Tuples.ReconvertAccepted | internal/openai/tuple.go:45-113 | every value the prepared schema accepts is reconverted into one the original accepts, through references too; the recursion ends whenever no chain of bare references is cyclic |
| Tuples.EncodeThenReconvert | internal/openai/tuple.go:16-113 | a value with exact tuples, sent as index-keyed objects, comes back unchanged |
| Tuples.EncodedIsAccepted | internal/openai/tuple.go:16-43 | every such value the original accepts can be sent: the prepared schema accepts its encoded form |
| Tuples.PreparedTuple | internal/openai/tuple.go:17-34 | a tuple becomes a closed object that requires exactly the index keys, each with the prepared schema of its position |
| TupleUnions.UnionExactly | internal/openai/tuple.go:99-110 | a tuple among other alternatives: a value that was accepted comes back accepted if and only if it is no object, or the tuple made of it is accepted; so whatever was meant as the tuple does |
| TupleUnions.ObjectBecomesList | internal/openai/tuple.go:99-110 | for the others this fails: an object that a schema of two alternatives accepts comes back as a list of nothing, which it refuses |
| TupleUnions.ObjectOfAnotherFails | internal/openai/tuple.go:53-69 | it fails for every object without one of the index keys whose member has to be something |
| TupleUnions.FirstTupleTaken | internal/openai/tuple.go:99-110 | whatever the value, it is converted by the first alternative with a tuple: of oneOf, of anyOf, of allOf |
| TupleUnions.NoTupleUnchanged | internal/openai/tuple.go:45-113 | a schema without tuples and references leaves every value as it is |
| Tuples.RankedExactly | internal/openai/tuple.go:45-113 | the ranks the recursion needs exist if and only if no chain of bare references goes on forever |
| Tuples.EndlessChainNeverHalts | internal/openai/tuple.go:45-66 | a value that meets such an endless chain is never done, at whatever depth of calls |
| ReplayLaws.SpliceConserves | internal/anthropic/replay.go:187-223 | the blocks afterwards plus those that gave way are the blocks before plus those put back |
| ReplayLaws.EachCallOnce | internal/anthropic/replay.go:168-223 | with distinct remembered calls, every replayed call occurs exactly once afterwards |
| ReplayLaws.CallsBeforeResults | internal/anthropic/replay.go:209-222 | every replayed call stands in a message strictly before the first matching result |
| ReplayLaws.ApplyIsIdempotent | internal/anthropic/replay.go:139-224 | applying the same record again changes nothing |
| ReplayLaws.OrderedBlocks | internal/anthropic/replay.go:369-399 | the ordered turn holds exactly what was there and what is put back |
| ReplayPlaces.TurnIsPlaced | internal/anthropic/replay.go:187-223 | told from the messages: the turn replaces what gives way in the first message that has any, or joins the last answer that shares a text with it, or is a message of the assistant of its own in front of the results; every other message keeps its role and its blocks but for what gives way |
| ReplayPlaces.RolesExactly | internal/anthropic/replay.go:187-223 | what the request did not hold stands in messages of the assistant only, if and only if the first message with a block that gives way, before the results, is not the user's |
| ReplayPlaces.UserGetsReasoning | internal/anthropic/replay.go:213-219 | a request for which it does not: the user's message holds the call and gets the reasoning |
| ReplayPlaces.OrderedInOrder | internal/anthropic/replay.go:369-399 | the ordered turn is a part of what was remembered in its order, all that is put back in it and of each text as many as both had, and then the rest of what was there in its order |
| ReplayPlaces.ReplayedInOrder | internal/anthropic/replay.go:168-185 | what is put back stands in the order it was remembered |
| ReplayPlaces.ApplyExactly | internal/anthropic/replay.go:139-186 | a turn is matched if and only if a result answers one of its calls, and applied if and only if something of the answered part is missing too; afterwards nothing of it is, and otherwise the request is unchanged |
| ReplayLaws.ReasoningFromTurn | internal/anthropic/replay.go:187-207 | under the signatures of the turn, the request carries reasoning of the turn only: whatever stood there before is gone, hidden reasoning too |
| ReplayLaws.SignedWith | internal/anthropic/replay.go:168-168 | a block is signed with its signature, or with its data when that is blank |
| ReplaySplice.OrderedReplayContent | internal/anthropic/replay.go:369-399 | the loops with their used flags compute the specified order |
| ReplaySplice.Splice | internal/anthropic/replay.go:139-224 | the loops of Apply compute the specified splice and outcome; where the turn stands, under which role and in what order, ReplayPlaces says |
| ReplayCache.ReplayManager.Remember | internal/anthropic/replay.go:102-137 | the size bookkeeping and both limits hold; what was remembered before under the key is gone; nothing is evicted while the limits hold, and otherwise a shortest prefix in the order of expiry |
| ReplayCache.ReplayManager.Get | internal/anthropic/replay.go:257-278 | a hit is the last record remembered under the key, and there is one exactly when that has neither expired nor been evicted |
| ReplayCache.ReplayManager.Sweep | internal/anthropic/replay.go:232-241 | exactly the expired records go |
| ReplayCache.ReplayManager.Delete | internal/anthropic/replay.go:226-230 | exactly the one record goes |
| ReplayCache.ReplayManager.EvictLocked | internal/anthropic/replay.go:298-330 | eviction takes a prefix of the records by expiry and stops as soon as both targets are met |
| ReplayCache.ReplayManager.Apply | internal/anthropic/replay.go:139-224 | the splice of the record found, or the request unchanged |
| ReplayCache.EvictionByAge | internal/anthropic/replay.go:298-330 | nothing that stays expires before anything that goes |
| ReplayCache.SizeIsLength | internal/anthropic/replay.go:360-367 | what a turn weighs is the length of its type names and texts together |
| ReplayCache.KeysExactly | internal/anthropic/replay.go:280-289 | for scopes without the separator: two conversations share a key if and only if scope and model are the same, white space at the ends apart |
| ReplayCache.SeparatorInScope | internal/anthropic/replay.go:280-289 | with the separator in a scope, two conversations can share a key |
| ReplayCache.TargetsLeaveRoom | internal/anthropic/replay.go:315-322 | eviction goes below an exceeded limit: by an eighth of the entries, one at least and a batch at most, and by a sixteenth of the bytes |
| ReplayCache.NewestStays | internal/anthropic/replay.go:298-330 | the record that expires last survives an eviction if and only if it alone is within both targets |
| ReplayCache.LargeRecordGoes | internal/anthropic/replay.go:318-329 | whenever it expires, a record above fifteen sixteenths of the byte limit does not survive an eviction for bytes, and takes everything older with it |
| ReplayCache.RememberedAndGone | internal/anthropic/replay.go:118-136 | two turns that each fill the cache, whatever they hold: the second is within the limit, remembered, and gone at once |
| Normalize.NormalizeMessages | internal/anthropic/request.go:110-242 | it succeeds if and only if every block may follow the ones before it, and what it makes of them is all of their pieces in order |
| NormalizeSays.AcceptedExactly | internal/anthropic/request.go:110-242 | told from what is said in the messages: they are accepted if and only if every role is known, everybody says only what they may, completely, and every result comes after its call or its search |
| NormalizeSays.EverythingIsTold | internal/anthropic/request.go:110-242 | kind by kind, the upstream is told exactly what the client said: texts and pictures under their role, calls with their id, name and arguments, results, searches and signed thoughts, in order |
| Normalize.NormalizedIsAnswered | internal/anthropic/request.go:170-183 | every tool output sent upstream is preceded by a call with its id |
| Accounts.RefreshKeepsEligibility | internal/accounts/rotation.go:96-157 | refreshing never changes eligibility, now or at any later time |
| Accounts.RefreshAbsorbs | internal/accounts/service.go:441-471 | refreshing is idempotent, and refreshing again later is, but for the update time, refreshing at the later time only |
| Accounts.EligibleStays | internal/accounts/rotation.go:117-157 | left alone, an eligible account stays eligible |
| Accounts.EventuallyEligible | internal/accounts/rotation.go:117-157 | waiting makes an account eligible if and only if status and token allow it and no closed window lacks a reset time |
| Accounts.EligibleExactly | internal/accounts/rotation.go:117-157 | to the moment: an account is eligible if and only if status and token allow it, nothing stands in the way for good, and the cooldown and every closed window's reset time have come |
| Accounts.RefreshForgets | internal/accounts/rotation.go:96-115 | refreshing opens the windows that have run out and forgets what was used of them, and leaves the others alone |
| Accounts.FirstDifference | internal/accounts/rotation.go:12-12 | ids are in order by their first difference, a beginning before what it begins |
| Accounts.RotationIsFair | internal/accounts/rotation.go:10-15 | any k rounds of consecutive picks from any index select every account exactly k times |
| Accounts.UsageIsAnOrder | internal/accounts/rotation.go:42-73 | where accounts that have used as much agree in which other fields they carry, the comparison is antisymmetric and transitive |
| Accounts.OrderableExactly | internal/accounts/rotation.go:55-70 | accounts that have used as much and carry one or another combination of those fields always compare transitively if and only if the combinations are the same |
| Accounts.UsageCanCycle | internal/accounts/rotation.go:55-70 | otherwise it can go around in a circle |
| AccountService.ListingIsUnique | internal/accounts/rotation.go:10-15 | there is one way to list accounts by id, so the rotation order does not depend on map order |
| AccountService.LowestCompares | internal/accounts/rotation.go:42-73 | told by the fields: an account compares lowest if and only if it has used the least of its primary quota, of those the least of the secondary one, and of those is reset first |
| AccountService.TiedAreLowest | internal/accounts/rotation.go:33-36 | where usage is uniform, the tied run is exactly the accounts with the lowest usage |
| AccountService.SelectRoundRobin | internal/accounts/rotation.go:10-15 | the account at the rotation index in the listing by id |
| AccountService.SelectLeastUsed | internal/accounts/rotation.go:17-40 | where usage is uniform, one of those that have used the least of their primary quota, of those the least of the secondary one, and of those are reset first, in rotation by id; round robin when nobody reports usage |
| AccountService.AcquireRounds | internal/accounts/service.go:320-368 | a run of acquisitions by any strategy, at any times in order, while the choice is left to the rotation and the same accounts rotate (all usable ones, or those tied for the lowest usage): k for each of them select every one exactly k times |
| AccountService.AcquisitionsAreFair | internal/accounts/service.go:338-368 | k rounds of rotating choices among the same accounts use each k times |
| AccountService.RefreshKeepsUsable | internal/accounts/service.go:441-460 | refreshing the table changes no usable account, now or later, where the caller's filter does not look at what it changes |
| AccountService.Service.RefreshAllLocked | internal/accounts/service.go:441-460 | every record is refreshed, and the store is asked to save only when something had run out |
| AccountService.Service.AcquireMatching | internal/accounts/service.go:320-368 | absent store errors a selection succeeds exactly when some account is eligible and allowed; preferred, sticky, round robin and least used in that order, and the index moves only when it is used |
| AccountService.Service.ObserveQuota | internal/accounts/service.go:211-238 | a quota that does not block makes an account eligible unless its status or token forbids it; one that blocks makes it ineligible |
| AccountService.Service.SetCooldown | internal/accounts/service.go:288-304 | an account is not eligible before its cooldown ends, and what else held back is unchanged |
| AccountService.Service.Remove | internal/accounts/service.go:167-179 | the account is gone and never stays the sticky one |
| AccountService.Service.NoteSuccess | internal/accounts/service.go:306-314 | only an existing account becomes sticky |
| Failover.OpenStreamWithFailover | internal/server/public.go:207-237 | the loop ends; no account is tried twice; it goes on only past errors another account may not have; and when no account is left the error of the last one tried is reported |
| Failover.EndsMeans | internal/server/public.go:207-237 | every account given up had been selected with those before it excluded and failed; an opened stream is that of the account selected next, made ready, with a model for it if none was named |
| Failover.ContinuingRepeats | internal/server/public.go:698-712 | with a continuation flag set the same account would be tried again and again |
| Failover.FailoverNeedsNoFlags | internal/server/public.go:173-203 | every resolution resolveSession makes enters the loop with both flags off and then carries the whole conversation, without the turn state and account of a turn that could not be resumed; hosted searches go through a web socket |
| Delivery.PrepareStreamForDelivery | internal/server/public.go:239-264 | a stream is handed on exactly when it shows an event worth delivering before any problem, and buffer and rest together lose nothing but quota notices |
| Delivery.BufferedEventStream.NextEvent | internal/server/public.go:51-63 | events come in order, first from the buffer and then from the stream |
| Session.TrimmedContinuationInput | internal/server/session.go:165-202 | there is something to send if and only if the stored turn is a strict non-empty prefix and every tool output in the rest answers one of its calls; and then both together are the input |
| Session.ResolveSession | internal/server/session.go:21-94 | for every stored turn used, its history followed by what is sent is the whole conversation; an implicit resume happens exactly when a stored turn is chosen; model, account, turn state, aliases and conversation are those of the turn; the flags fit the failover |
| Session.ResolveExplicit | internal/server/session.go:26-55 | a named response: replay is available exactly when it has a history, and both requests get its key, model and aliases |
| Session.ResumesWheneverPossible | internal/server/session.go:122-163 | with response ids free of white space, a request is resumed if and only if some stored turn can be resumed |
| Session.ChosenIsFirst | internal/server/session.go:69-163 | told from the store: the newest turn of the conversation that can be resumed, and when there is none the newest of the others |
| Session.ResumableMeans | internal/server/session.go:96-120 | a turn can be resumed if and only if model and instructions agree but for white space, the input shows an earlier answer, and is the stored turn followed by something in which every tool output answers one of its calls |
| Session.ResumeFirst | internal/server/session.go:70-92 | the first resumable record in the given order is used, with the stated effect |
| Sse.FrameIsRead | internal/server/sse.go:5-12 | whatever one-line name and payload are written, the next frame read has them trimmed, and reading stops right behind it |
| Sse.ReadBackExactly | internal/codex/http_client.go:180-225 | an event is read back as written if and only if name and payload are trimmed and the payload is neither empty nor the closing marker |
| Sse.RoundTrip | internal/codex/http_client.go:180-208 | any list of such events is read back in order, and then the stream ends |
| Sse.FrameOfLines | internal/codex/http_client.go:180-208 | whatever lines a frame is made of, fields in any case and with either line end: it is read as the name said last and all its data under each other, and reading stops behind its blank line |
| Sse.UnfinishedLineIsLost | internal/codex/http_client.go:184-190 | a last line without its line feed makes no difference to what is read from a text |
| Sse.LastLineExactly | internal/codex/http_client.go:184-208 | a last line with data is read if and only if a line feed terminates it |
| Sse.StreamReader.NextEvent | internal/codex/http_client.go:180-208 | the loop yields the frame the specification finds and leaves the rest unread |

## Left out

- EncoderTools.ToolsInOrderAtMostOnce: the order of registration is stated for runs that rename no filed call; how many blocks a call gets when some are renamed is exact in EncoderCoverage.
- EncoderTools.TerminalEventCoversTools: for runs that rename no filed call; EncoderCoverage.MessageCovers is for all runs.
- EncoderRenames.OneBlockEachWhenRenamedHarmlessly: the condition on events is for responses whose calls are all executable; with others the exact condition is on the settled tools, in EncoderCoverage.MessageCovers.
- EncoderInput.EveryToolBlockIsComplete: speaks of the value at the moment the block is sent, for runs that rename no filed call; a value that grows later is not sent again.
- StrictSchemas.StrictThenClean: on the fragment with enumerations only where cleaning changes nothing and no anyOf beside the type array; outside it fails, and EnumerationExactly, BesideArrayExactly and BesideExactly say when, one node at a time.
- StrictRecords.BesideExactly: for lists of flat records of the same properties with one alternative; for other items and alternatives the exact condition is on the value, in StrictExceptions.BesideArrayExactly.
- StrictSchemas.FillRestores: without unions, where the alternative a value came from is not determined.
- SchemaLeft.LeavesExactly: for definitions without siblings and references whose siblings have none in turn; a reference without a definition always stays.
- SchemaMeaning.WalkSchemaMeans: for definitions without siblings and references whose siblings have none in turn.
- SchemaMeaning.NormalizeNarrows: with object nodes under oneOf that say all themselves; what closing does to others is in SchemaClosing.OneOfExactly.
- Tuples.ReconvertAccepted: nodes that are a tuple, an object, an array, a reference or a leaf, each on its own; a tuple among other alternatives is in TupleUnions.UnionExactly.
- TupleUnions.UnionExactly: for one alternative that is a tuple itself, beside others without tuples and references that allow no arrays.
- AccountService.SelectLeastUsed: minimal only where accounts that have used as much carry the same fields (OrderableExactly); otherwise the order of the sort is that of an insertion sort, the source's is unspecified.
- Schema maps are values: what the source resolves in place shows in the definitions of the walk as they are passed on. patternProperties, if/then/else, not, `$defs` below the root and schemas under additionalProperties are not modelled.
- The classification of event types by their names: events carry their kind.
- The oneOf loop of removeOptionalNullProperties, which a strict schema never reaches.
- StrictCompiles.CompilesExactly: which names of formats are supported is left open, as formats are opaque.
- Usage counts, creation times, finish reasons, and the assembly of whole response objects with the sorting of their output items.
- The contents of web search results, and the identifiers made by hashing.
- JSON text encoding and decoding, integers beyond 64 bits in JSON, and white space outside ASCII in trimming and case folding.
- Guards against nil events and receivers.
- Client messages: the conversion of images, tool inputs and tool results, and the text of system reminders, come in converted.
- Accounts: creation from a token, Patch, UpdateAuth, MarkError and the loading of stored records; the index of the rotation does not overflow.
- Sending a request once more without reasoning after an invalid signature, and recording a finished turn for later continuation.
- HTTP, WebSocket, OAuth, handlers, logging, file stores, the model catalog and the heartbeat.
