/** internal/anthropic/stream.go on values: StreamEncoder turns the upstream event sequence, as
    folded by the accumulator, into Anthropic content-block events. */
module Encoder {
  import opened Text
  import opened Json
  import opened ToolCalls

  // ----- what is sent -----

  datatype Head =
    | TextHead
    | ThinkingHead
    | ToolHead(callID: string, id: string, name: string)
    | SearchHead(id: string)
    | SearchResultHead(toolUseID: string)

  datatype Field = TextField | ThinkingField | SignatureField | JsonField

  datatype Out =
    | MessageStart(id: string, model: string)
    | BlockStart(index: nat, head: Head)
    | BlockDelta(index: nat, field: Field, value: string)
    | BlockStop(index: nat)
    | MessageDelta(stopReason: string, stopSequence: string)
    | MessageStop

  // ----- what is read -----

  /** The request's settings and the functions the model leaves open: shouldExposeThinking,
      whether there is a response schema, normalizedOutputText, shortenCallID and
      webSearchStreamFallbackID. */
  datatype Config = Config(
    exposeThinking: bool, hasSchema: bool,
    normalize: string -> string, shorten: string -> string, fallbackID: Event -> string)

  /** A block of the finished message, as responseBlocks lists them. */
  datatype Shown = ShownText(text: string) | ShownThinking(thinking: string, signature: string) | ShownOther

  /** What the encoder reads from the accumulator besides the registry: Text(), ReasoningSummary(),
      the response of the terminal event, responseBlocks, the output items, and the stop reason. */
  datatype View = View(
    messageID: string, model: string, text: string, summary: string, response: Fields,
    blocks: seq<Shown>, output: seq<Fields>, stopReason: string, stopSequence: string)

  // ----- the encoder's state -----

  datatype OpenKind = TextBlock | ThinkingBlock | ToolBlock(callID: string)

  datatype OpenBlock = OpenBlock(index: nat, kind: OpenKind)

  /** toolSent, toolDone, toolStates, toolDeltas and toolOrder. The states are positions in the
      registry, as the Go map holds pointers. */
  datatype Tools = Tools(
    sent: map<string, nat>, done: set<string>, states: map<string, nat>,
    deltas: map<string, seq<string>>, order: seq<string>)

  datatype Enc = Enc(
    started: bool, nextIndex: nat, open: Option<OpenBlock>, textEmitted: bool, thinkEmitted: bool,
    thinkDeltas: seq<string>, tools: Tools, searchDone: set<string>)

  const NEW: Enc := Enc(false, 0, None, false, false, [], Tools(map[], {}, map[], map[], []), {})

  predicate InRange(e: Enc, calls: seq<Call>) {
    forall id | id in e.tools.states :: e.tools.states[id] < |calls|
  }

  // ----- blocks -----

  function CloseBlock(e: Enc): (Enc, seq<Out>) {
    if e.open.None? then (e, []) else (e.(open := None), [BlockStop(e.open.value.index)])
  }

  function StartBlock(e: Enc, kind: OpenKind, head: Head): (Enc, seq<Out>) {
    (e.(nextIndex := e.nextIndex + 1, open := Some(OpenBlock(e.nextIndex, kind))),
     [BlockStart(e.nextIndex, head)])
  }

  function OpenAs(e: Enc, kind: OpenKind, head: Head): (out: (Enc, seq<Out>))
    ensures out.0.open.Some? && out.0.open.value.kind == kind
  {
    if e.open.Some? && e.open.value.kind == kind then (e, [])
    else
      var (e1, closed) := CloseBlock(e);
      var (e2, begun) := StartBlock(e1, kind, head);
      (e2, closed + begun)
  }

  function Delta(e: Enc, field: Field, value: string): Out
    requires e.open.Some?
  {
    BlockDelta(e.open.value.index, field, value)
  }

  function Deltas(e: Enc, field: Field, values: seq<string>): seq<Out>
    requires e.open.Some?
  {
    seq(|values|, i requires 0 <= i < |values| => Delta(e, field, values[i]))
  }

  /** Text into the open text block, begun when there is none. */
  function SendText(e: Enc, text: string): (Enc, seq<Out>) {
    var (e1, begun) := OpenAs(e, TextBlock, TextHead);
    (e1.(textEmitted := true), begun + [Delta(e1, TextField, text)])
  }

  function CompleteThinking(e: Enc, thinking: string, signature: string): (Enc, seq<Out>) {
    if e.thinkEmitted || Blank(signature) then (e, [])
    else
      var (e1, begun) := OpenAs(e, ThinkingBlock, ThinkingHead);
      var texts := if e.thinkDeltas != [] then e.thinkDeltas
                   else if thinking != "" then [thinking] else [];
      var (e2, closed) := CloseBlock(e1);
      (e2.(thinkDeltas := [], thinkEmitted := true),
       begun + Deltas(e1, ThinkingField, texts) + [Delta(e1, SignatureField, signature)] + closed)
  }

  // ----- hosted web search -----

  datatype Search = Search(id: string, query: string)

  /** webSearchResponseBlocks: None when there is nothing to show. */
  function SearchOf(item: Fields, fallbackID: string, shorten: string -> string): Option<Search> {
    var status := TrimSpace(StringValue(item, "status"));
    var id := shorten(FirstNonEmpty([StringValue(item, "id"), StringValue(item, "output_item_id"),
                                     StringValue(item, "call_id"), fallbackID]));
    if (status != "" && status != "completed") || id == "" then None
    else Some(Search(id, FirstNonEmpty([StringValue(OrEmpty(MapValue(item, "action")), "query"),
                                        StringValue(item, "query"),
                                        StringValue(OrEmpty(MapValue(item, "input")), "query")])))
  }

  function CompleteWebSearch(e: Enc, item: Fields, fallbackID: string, shorten: string -> string): (Enc, seq<Out>) {
    var search := SearchOf(item, fallbackID, shorten);
    if search.None? || search.value.id in e.searchDone then (e, [])
    else
      var Search(id, query) := search.value;
      var (e1, closed) := CloseBlock(e.(searchDone := e.searchDone + {id}));
      var n := e1.nextIndex;
      (e1.(nextIndex := n + 2),
       closed
       + [BlockStart(n, SearchHead(id))]
       + (if query != "" then [BlockDelta(n, JsonField, query)] else [])
       + [BlockStop(n), BlockStart(n + 1, SearchResultHead(id)), BlockStop(n + 1)])
  }

  // ----- tools -----

  function RegisterTool(e: Enc, calls: seq<Call>, i: nat): Enc
    requires i < |calls|
  {
    var id := calls[i].callID;
    var t := e.tools;
    e.(tools := t.(order := if id in t.states then t.order else t.order + [id],
                   states := t.states[id := i]))
  }

  function MarkDone(e: Enc, id: string): Enc {
    e.(tools := e.tools.(done := e.tools.done + {id}))
  }

  function LengthOf(parts: seq<string>): nat {
    if parts == [] then 0 else |parts[0]| + LengthOf(parts[1..])
  }

  function BufferedDeltas(e: Enc, id: string): seq<string> {
    if id in e.tools.deltas then e.tools.deltas[id] else []
  }

  /** toolRemainder: what of the value has not been sent, with the call marked as sent in full. */
  function ToolRemainder(e: Enc, c: Call): (Enc, seq<Out>)
    requires e.open.Some?
  {
    var value := ValueOf(c);
    var sent := if c.callID in e.tools.sent then e.tools.sent[c.callID] else 0;
    if sent >= |value| then (e, [])
    else (e.(tools := e.tools.(sent := e.tools.sent[c.callID := |value|])), [Delta(e, JsonField, value[sent..])])
  }

  /** openTool, without an open block. */
  function OpenTool(e: Enc, c: Call, shorten: string -> string): (Enc, seq<Out>) {
    var (e1, begun) := StartBlock(e, ToolBlock(c.callID), ToolHead(c.callID, shorten(c.callID), c.name));
    (e1.(tools := e1.tools.(sent := e1.tools.sent[c.callID := 0])), begun)
  }

  /** One pass of the loop in flushTools: the whole block of the tool filed under id. */
  function EmitTool(e: Enc, id: string, c: Call, shorten: string -> string): (Enc, seq<Out>) {
    var (e1, begun) := OpenTool(e, c, shorten);
    var buffered := BufferedDeltas(e, id);
    var sent := e1.tools.sent;
    var before := if id in sent then sent[id] else 0;
    var e2 := e1.(tools := e1.tools.(
      sent := if buffered == [] then sent else sent[id := before + LengthOf(buffered)],
      deltas := e1.tools.deltas - {id}));
    var (e3, rest) := ToolRemainder(e2, c);
    var (e4, closed) := CloseBlock(e3);
    (e4, begun + Deltas(e1, JsonField, buffered) + rest + closed)
  }

  /** The loop of flushTools from position k of the order. */
  function FlushFrom(e: Enc, calls: seq<Call>, k: nat, shorten: string -> string): (Enc, seq<Out>)
    requires k <= |e.tools.order| && InRange(e, calls)
    decreases |e.tools.order| - k
  {
    if k == |e.tools.order| then (e, [])
    else
      var id := e.tools.order[k];
      if id in e.tools.sent || id !in e.tools.states then FlushFrom(e, calls, k + 1, shorten)
      else if id !in e.tools.done then (e, [])
      else
        var (e1, block) := EmitTool(e, id, calls[e.tools.states[id]], shorten);
        var (e2, rest) := FlushFrom(e1, calls, k + 1, shorten);
        (e2, block + rest)
  }

  function FlushTools(e: Enc, calls: seq<Call>, shorten: string -> string): (Enc, seq<Out>)
    requires InRange(e, calls)
  {
    if e.open.Some? then (e, []) else FlushFrom(e, calls, 0, shorten)
  }

  function CompleteTool(e: Enc, calls: seq<Call>, i: nat, shorten: string -> string): (Enc, seq<Out>)
    requires i < |calls| && InRange(e, calls)
  {
    var e1 := RegisterTool(e, calls, i);
    FlushTools(MarkDone(e1, calls[i].callID), calls, shorten)
  }

  // ----- the terminal event -----

  predicate StoppedShort(status: string) {
    status == "incomplete" || status == "failed" || status == "cancelled"
  }

  /** isExecutableToolState. */
  predicate Executable(c: Call, response: Fields) {
    var status := ToLower(TrimSpace(c.status));
    if status == "completed" then true
    else if StoppedShort(status) then false
    else !StoppedShort(ToLower(TrimSpace(StringValue(response, "status"))))
  }

  predicate ToolOpen(e: Enc) {
    e.open.Some? && e.open.value.kind.ToolBlock?
  }

  predicate ToolStreamStarted(e: Enc) {
    ToolOpen(e) || e.tools.sent != map[] || e.tools.deltas != map[]
  }

  /** The first loop of hydrateTerminal: settle which calls are executable. */
  function Settle(e: Enc, calls: seq<Call>, response: Fields, i: nat): (e': Enc)
    requires i <= |calls| && InRange(e, calls)
    ensures InRange(e', calls)
    decreases |calls| - i
  {
    if i == |calls| then e
    else if !Executable(calls[i], response) then
      Settle(e.(tools := e.tools.(states := e.tools.states - {calls[i].callID})), calls, response, i + 1)
    else Settle(MarkDone(RegisterTool(e, calls, i), calls[i].callID), calls, response, i + 1)
  }

  function FlushTerminalTools(e: Enc, calls: seq<Call>, shorten: string -> string): (Enc, seq<Out>)
    requires InRange(e, calls)
  {
    if ToolOpen(e) then
      var id := e.open.value.kind.callID;
      var (e1, rest) := if id in e.tools.states && id in e.tools.done then ToolRemainder(e, calls[e.tools.states[id]])
                        else (e, []);
      var (e2, closed) := CloseBlock(e1);
      var (e3, flushed) := FlushTools(e2, calls, shorten);
      (e3, rest + closed + flushed)
    else FlushTools(e, calls, shorten)
  }

  /** The first thinking block of the finished message, if none was streamed. */
  function HydrateThinking(e: Enc, blocks: seq<Shown>): (Enc, seq<Out>) {
    if e.thinkEmitted || blocks == [] then (e, [])
    else if blocks[0].ShownThinking? then CompleteThinking(e, blocks[0].thinking, blocks[0].signature)
    else HydrateThinking(e, blocks[1..])
  }

  /** The web searches of the finished message that were not streamed. */
  function HydrateSearches(e: Enc, output: seq<Fields>, k: nat, shorten: string -> string): (Enc, seq<Out>)
    requires k <= |output|
    decreases |output| - k
  {
    if k == |output| then (e, [])
    else if StringValue(output[k], "type") != "web_search_call" then HydrateSearches(e, output, k + 1, shorten)
    else
      var (e1, shown) := CompleteWebSearch(e, output[k], "web_search_" + Itoa(k), shorten);
      var (e2, rest) := HydrateSearches(e1, output, k + 1, shorten);
      (e2, shown + rest)
  }

  /** The first non-empty text of the finished message, if none was streamed. */
  function HydrateText(e: Enc, blocks: seq<Shown>): (Enc, seq<Out>) {
    if e.textEmitted || blocks == [] then (e, [])
    else if blocks[0].ShownText? && blocks[0].text != "" then
      var (e1, sent) := SendText(e, blocks[0].text);
      var (e2, closed) := CloseBlock(e1);
      (e2, sent + closed)
    else HydrateText(e, blocks[1..])
  }

  function HydrateTerminal(e: Enc, calls: seq<Call>, view: View, shorten: string -> string): (Enc, seq<Out>)
    requires InRange(e, calls)
  {
    var streaming := ToolStreamStarted(e);
    var e0 := Settle(e, calls, view.response, 0);
    var (e1, early) := if streaming then FlushTerminalTools(e0, calls, shorten) else (e0, []);
    var (e2, thinking) := HydrateThinking(e1, view.blocks);
    var (e3, searches) := HydrateSearches(e2, view.output, 0, shorten);
    var (e4, text) := HydrateText(e3, view.blocks);
    HydrateKeepsStates(e0, calls, view, shorten, streaming);
    var (e5, late) := if streaming then (e4, []) else FlushTerminalTools(e4, calls, shorten);
    (e5, early + thinking + searches + text + late)
  }

  // ----- one event -----

  function EnsureStarted(e: Enc, view: View): (Enc, seq<Out>) {
    if e.started then (e, []) else (e.(started := true), [MessageStart(view.messageID, view.model)])
  }

  function FinishText(e: Enc, event: Event, view: View, cfg: Config): (Enc, seq<Out>) {
    var text := StringValue(event.raw, "text");
    var whole := Or(text, view.text);
    var (e1, cleaned) := if cfg.hasSchema && !e.textEmitted && whole != "" then SendText(e, cfg.normalize(whole)) else (e, []);
    var (e2, plain) := if !e1.textEmitted && text != "" then SendText(e1, text) else (e1, []);
    var (e3, closed) := if e2.open.Some? && e2.open.value.kind == TextBlock then CloseBlock(e2) else (e2, []);
    (e3, cleaned + plain + closed)
  }

  function ToolDelta(e: Enc, calls: seq<Call>, i: nat, delta: string): Enc
    requires i < |calls|
  {
    var e1 := RegisterTool(e, calls, i);
    var id := calls[i].callID;
    if delta == "" then e1 else e1.(tools := e1.tools.(deltas := e1.tools.deltas[id := BufferedDeltas(e1, id) + [delta]]))
  }

  function ReasoningDone(e: Enc, item: Fields, reasoning: string, cfg: Config): (Enc, seq<Out>) {
    if !cfg.exposeThinking then (e, [])
    else if StringValue(item, "encrypted_content") != "" then
      CompleteThinking(e, reasoning, StringValue(item, "encrypted_content"))
    else (e.(thinkDeltas := []), [])
  }

  /** The signature a summary comes with, under the three names it may have. */
  function SummarySignature(event: Event): string {
    Or(Or(StringValue(event.raw, "signature"), StringValue(event.raw, "encrypted_content")),
       StringValue(OrEmpty(MapValue(event.raw, "item")), "encrypted_content"))
  }

  /** The body of Events' switch, for a registry that has applied the event already. */
  function Dispatch(e: Enc, event: Event, reg: Registry, view: View, reasoning: string, cfg: Config): (Enc, seq<Out>)
    requires Sound(reg) && InRange(e, reg.calls)
  {
    var call := CallForEvent(reg, event);
    match event.kind
    case SummaryDelta =>
      var delta := StringValue(event.raw, "delta");
      (if cfg.exposeThinking && delta != "" then e.(thinkDeltas := e.thinkDeltas + [delta]) else e, [])
    case SummaryDone =>
      if cfg.exposeThinking && SummarySignature(event) != "" then
        CompleteThinking(e, view.summary, SummarySignature(event))
      else (e, [])
    case TextDelta =>
      var delta := StringValue(event.raw, "delta");
      if delta != "" && !cfg.hasSchema then SendText(e, delta) else (e, [])
    case TextDone => FinishText(e, event, view, cfg)
    case ArgumentsDelta => if call.Some? then (ToolDelta(e, reg.calls, call.value, StringValue(event.raw, "delta")), []) else (e, [])
    case InputDelta => if call.Some? then (ToolDelta(e, reg.calls, call.value, StringValue(event.raw, "delta")), []) else (e, [])
    case ArgumentsDone => if call.Some? then CompleteTool(e, reg.calls, call.value, cfg.shorten) else (e, [])
    case InputDone => if call.Some? then CompleteTool(e, reg.calls, call.value, cfg.shorten) else (e, [])
    case ItemDone =>
      var item := OrEmpty(EventItem(event));
      if StringValue(item, "type") == "web_search_call" then
        CompleteWebSearch(e, item, cfg.fallbackID(event), cfg.shorten)
      else if StringValue(item, "type") == "reasoning" then ReasoningDone(e, item, reasoning, cfg)
      else if call.Some? then CompleteTool(e, reg.calls, call.value, cfg.shorten)
      else (e, [])
    case Completed => Finish(e, reg.calls, view, cfg)
    case Incomplete => Finish(e, reg.calls, view, cfg)
    case _ => (e, [])
  }

  function Finish(e: Enc, calls: seq<Call>, view: View, cfg: Config): (Enc, seq<Out>)
    requires InRange(e, calls)
  {
    var (e1, hydrated) := HydrateTerminal(e, calls, view, cfg.shorten);
    var (e2, closed) := CloseBlock(e1);
    (e2, hydrated + closed + [MessageDelta(view.stopReason, view.stopSequence), MessageStop])
  }

  /** StreamEncoder.Events. `reasoning` is the text of the item of a reasoning event. */
  function Events(e: Enc, event: Event, reg: Registry, view: View, reasoning: string, cfg: Config): (Enc, seq<Out>)
    requires Sound(reg) && InRange(e, reg.calls)
  {
    var (e1, start) := EnsureStarted(e, view);
    var (e2, body) := Dispatch(e1, event, reg, view, reasoning, cfg);
    (e2, start + body)
  }

  // ----- the pieces that leave the tool maps alone -----

  lemma ThinkingSameTools(e: Enc, blocks: seq<Shown>)
    ensures HydrateThinking(e, blocks).0.tools == e.tools
  {
    hide OpenAs;
    if blocks != [] && blocks[0].ShownThinking? {
      OpenSameTools(e, ThinkingBlock, ThinkingHead);
    }
  }

  lemma OpenSameTools(e: Enc, kind: OpenKind, head: Head)
    ensures OpenAs(e, kind, head).0.tools == e.tools
  {}

  lemma SearchesSameTools(e: Enc, output: seq<Fields>, k: nat, shorten: string -> string)
    requires k <= |output|
    ensures HydrateSearches(e, output, k, shorten).0.tools == e.tools
    decreases |output| - k
  {
    hide SearchOf;
    if k < |output| && StringValue(output[k], "type") == "web_search_call" {
      SearchesSameTools(CompleteWebSearch(e, output[k], "web_search_" + Itoa(k), shorten).0, output, k + 1, shorten);
    }
  }

  lemma TextSameTools(e: Enc, blocks: seq<Shown>)
    ensures HydrateText(e, blocks).0.tools == e.tools
  {
    hide OpenAs;
    OpenSameTools(e, TextBlock, TextHead);
  }

  lemma {:induction false} FlushKeepsStates(e: Enc, calls: seq<Call>, k: nat, shorten: string -> string)
    requires k <= |e.tools.order| && InRange(e, calls)
    ensures var t := FlushFrom(e, calls, k, shorten).0.tools;
      t.states == e.tools.states && t.order == e.tools.order && t.done == e.tools.done
    decreases |e.tools.order| - k
  {
    if k < |e.tools.order| {
      var id := e.tools.order[k];
      if id in e.tools.sent || id !in e.tools.states {
        FlushKeepsStates(e, calls, k + 1, shorten);
      } else if id in e.tools.done {
        FlushKeepsStates(EmitTool(e, id, calls[e.tools.states[id]], shorten).0, calls, k + 1, shorten);
      }
    }
  }

  lemma TerminalFlushKeepsStates(e: Enc, calls: seq<Call>, shorten: string -> string)
    requires InRange(e, calls)
    ensures FlushTerminalTools(e, calls, shorten).0.tools.states == e.tools.states
  {
    hide FlushFrom;
    FlushKeepsStates(e, calls, 0, shorten);
    if ToolOpen(e) {
      var id := e.open.value.kind.callID;
      var e1 := if id in e.tools.states && id in e.tools.done then ToolRemainder(e, calls[e.tools.states[id]]).0 else e;
      FlushKeepsStates(CloseBlock(e1).0, calls, 0, shorten);
    }
  }

  /** What happens between the two possible flushes does not touch the tool maps. */
  lemma HydrateKeepsStates(e0: Enc, calls: seq<Call>, view: View, shorten: string -> string, streaming: bool)
    requires InRange(e0, calls)
    ensures var e1 := if streaming then FlushTerminalTools(e0, calls, shorten).0 else e0;
      var e4 := HydrateText(HydrateSearches(HydrateThinking(e1, view.blocks).0, view.output, 0, shorten).0, view.blocks).0;
      e4.tools == e1.tools && InRange(e4, calls)
  {
    hide FlushTerminalTools, HydrateThinking, HydrateSearches, HydrateText;
    TerminalFlushKeepsStates(e0, calls, shorten);
    var e1 := if streaming then FlushTerminalTools(e0, calls, shorten).0 else e0;
    var e2 := HydrateThinking(e1, view.blocks).0;
    ThinkingSameTools(e1, view.blocks);
    SearchesSameTools(e2, view.output, 0, shorten);
    TextSameTools(HydrateSearches(e2, view.output, 0, shorten).0, view.blocks);
  }
}
