/** internal/turn/accumulator_tools.go and the output items of accumulator.go, on values: the
    registry of tool calls and output items that an upstream event sequence is folded into.
    A pointer to a tool call is its position in `calls`, a list that only grows. */
module ToolCalls {
  import opened Text
  import opened Json
  import ToolNames

  /** The upstream event types the translation distinguishes. `ArgumentsOther` is any other type
      under the two tool-argument prefixes; the rest is told apart by whether its name has "text" in it. */
  datatype Kind =
    | ArgumentsDelta | ArgumentsDone | InputDelta | InputDone | ArgumentsOther
    | ItemAdded | ItemDone
    | TextDelta | TextDone | SummaryDelta | SummaryDone | PartDone
    | Completed | Incomplete
    | Other(mentionsText: bool)

  datatype Event = Event(kind: Kind, raw: Fields)

  datatype Call = Call(
    itemID: string, callID: string, toolType: string, name: string, input: string,
    arguments: string, outputIndex: int, status: string, added: bool, done: bool)

  /** The streamed value of a call: the input of a custom tool, the arguments of a function. */
  function ValueOf(c: Call): string {
    if c.toolType == "custom" then c.input else c.arguments
  }

  datatype OutputItem = OutputItem(outputIndex: int, item: Fields)

  datatype Registry = Registry(
    calls: seq<Call>, byID: map<string, nat>,
    items: seq<OutputItem>, itemByKey: map<string, nat>, nextIndex: int)

  type Aliases = map<string, string>

  const EMPTY: Registry := Registry([], map[], [], map[], 0)

  // ----- output indices -----

  function ResolvedIndex(nextIndex: int, preferred: int): int {
    if preferred >= 0 then preferred else nextIndex
  }

  /** resolveOutputIndex: the next automatic index lies above every index handed out. */
  function NextIndex(nextIndex: int, preferred: int): int {
    if preferred < 0 then nextIndex + 1
    else if preferred >= nextIndex then preferred + 1
    else nextIndex
  }

  // ----- finding or creating a call -----

  function RegisterAliases(byID: map<string, nat>, call: nat, ids: seq<string>): (r: map<string, nat>)
    ensures forall id | id in byID :: id in r
    ensures forall id | id in r :: (id in ids && r[id] == call && !Blank(id)) || (id in byID && r[id] == byID[id])
    ensures forall id | id in ids && !Blank(id) :: id in r && r[id] == call
  {
    if ids == [] then byID
    else
      var last := ids[|ids| - 1];
      var before := RegisterAliases(byID, call, ids[..|ids| - 1]);
      assert ids == ids[..|ids| - 1] + [last];
      if Blank(last) then before else before[last := call]
  }

  predicate Placeholder(c: Call) {
    c.itemID == c.callID
  }

  /** The two ids of a call after an event names it by itemID and callID. */
  function MergeIDs(c: Call, itemID: string, callID: string): Call {
    var item1 := if c.itemID == "" || Placeholder(c) then FirstNonEmpty([itemID, c.itemID]) else c.itemID;
    var call1 := if c.callID == "" || Placeholder(c) then FirstNonEmpty([callID, c.callID]) else c.callID;
    var item2 := FirstNonEmpty([item1, itemID, call1]);
    c.(itemID := item2, callID := FirstNonEmpty([call1, callID, item2]))
  }

  function FindCall(r: Registry, callID: string, itemID: string): Option<nat> {
    if callID in r.byID then Some(r.byID[callID])
    else if itemID in r.byID then Some(r.byID[itemID])
    else None
  }

  /** The ids an event is taken to mean: trimmed, each standing in for a missing other. */
  function EffectiveItemID(itemID: string, callID: string): string {
    Or(TrimSpace(itemID), TrimSpace(callID))
  }

  function EffectiveCallID(itemID: string, callID: string): string {
    Or(TrimSpace(callID), EffectiveItemID(itemID, callID))
  }

  predicate AliasesInRange(r: Registry) {
    forall id | id in r.byID :: r.byID[id] < |r.calls|
  }

  /** The part of the invariant that keeps every step defined. */
  predicate Sound(r: Registry) {
    && AliasesInRange(r)
    && (forall k | k in r.itemByKey :: r.itemByKey[k] < |r.items|)
    && r.nextIndex >= 0
  }

  /** Call i becomes c and is known by the ids given. */
  function Rebind(r: Registry, i: nat, c: Call, ids: seq<string>, nextIndex: int): (r': Registry)
    requires Sound(r) && i < |r.calls| && nextIndex >= 0
    ensures Sound(r') && |r'.calls| == |r.calls|
  {
    Registry(r.calls[i := c], RegisterAliases(r.byID, i, ids), r.items, r.itemByKey, nextIndex)
  }

  /** The event names a call that is already known. */
  function EnsureExisting(r: Registry, i: nat, itemID: string, callID: string, explicitIndex: int): (r': Registry)
    requires Sound(r) && i < |r.calls|
    ensures Sound(r') && |r'.calls| == |r.calls|
  {
    var c0 := if explicitIndex >= 0 then r.calls[i].(outputIndex := explicitIndex) else r.calls[i];
    var c := MergeIDs(c0, itemID, callID);
    Rebind(r, i, c, [c.callID, c.itemID, callID, itemID],
           if explicitIndex >= 0 then NextIndex(r.nextIndex, explicitIndex) else r.nextIndex)
  }

  function NewCall(itemID: string, callID: string, index: int): Call {
    Call(itemID, callID, "", "", "", "", index, "in_progress", false, false)
  }

  /** The event names a call for the first time. */
  function EnsureNew(r: Registry, itemID: string, callID: string, explicitIndex: int): (r': Registry)
    requires Sound(r)
    ensures Sound(r') && |r'.calls| == |r.calls| + 1
  {
    Registry(r.calls + [NewCall(itemID, callID, ResolvedIndex(r.nextIndex, explicitIndex))],
             RegisterAliases(r.byID, |r.calls|, [callID, itemID]),
             r.items, r.itemByKey, NextIndex(r.nextIndex, explicitIndex))
  }

  /** ensureToolCallState. */
  function EnsureCall(r: Registry, rawItemID: string, rawCallID: string, explicitIndex: int): (out: (Registry, Option<nat>))
    requires Sound(r)
    ensures Sound(out.0)
    ensures out.1.Some? ==> out.1.value < |out.0.calls|
  {
    var itemID, callID := EffectiveItemID(rawItemID, rawCallID), EffectiveCallID(rawItemID, rawCallID);
    if itemID == "" || callID == "" then (r, None)
    else
      var existing := FindCall(r, callID, itemID);
      if existing.Some? then (EnsureExisting(r, existing.value, itemID, callID, explicitIndex), existing)
      else (EnsureNew(r, itemID, callID, explicitIndex), Some(|r.calls|))
  }

  function WriteCall(r: Registry, i: nat, c: Call): (r': Registry)
    requires Sound(r) && i < |r.calls|
    ensures Sound(r')
  {
    r.(calls := r.calls[i := c])
  }

  // ----- argument events -----

  /** The types that name a tool call whose arguments are streamed. */
  predicate IsArgumentEvent(kind: Kind) {
    IsToolArgumentKind(kind) || kind == ArgumentsOther
  }

  predicate IsToolArgumentKind(kind: Kind) {
    kind == ArgumentsDelta || kind == ArgumentsDone || kind == InputDelta || kind == InputDone
  }

  function WithName(c: Call, raw: Fields, aliases: Aliases): Call {
    var name := StringValue(raw, "name");
    if name != "" then c.(name := ToolNames.RestoreToolName(name, aliases)) else c
  }

  /** What an argument event writes into its call. */
  function ArgumentWrite(c: Call, event: Event): Call {
    match event.kind
    case ArgumentsDelta =>
      c.(toolType := "function", arguments := c.arguments + StringValue(event.raw, "delta"))
    case ArgumentsDone =>
      c.(toolType := "function", arguments := Or(StringValue(event.raw, "arguments"), c.arguments), status := "completed")
    case InputDelta =>
      c.(toolType := "custom", input := c.input + StringValue(event.raw, "delta"))
    case InputDone =>
      c.(toolType := "custom", input := Or(StringValue(event.raw, "input"), c.input), status := "completed")
    case _ => c
  }

  /** The item id and the call id of an argument event. */
  function ArgumentIDs(event: Event): (string, string) {
    var itemID := StringValue(event.raw, "item_id");
    (itemID, FirstNonEmpty([StringValue(event.raw, "call_id"), itemID]))
  }

  function ApplyToolArgumentEvent(r: Registry, aliases: Aliases, event: Event): (r': Registry)
    requires Sound(r)
    ensures Sound(r')
  {
    var (itemID, callID) := ArgumentIDs(event);
    var (r1, found) := EnsureCall(r, itemID, callID, OutputIndexOf(event.raw));
    if found.None? then r1
    else WriteCall(r1, found.value, ArgumentWrite(WithName(r1.calls[found.value], event.raw, aliases), event))
  }

  // ----- output items -----

  predicate IsToolItem(item: Fields) {
    StringValue(item, "type") == "function_call" || StringValue(item, "type") == "custom_tool_call"
  }

  /** The item id and the call id of a tool item. */
  function ItemIDs(item: Fields): (string, string) {
    var callID := FirstNonEmpty([StringValue(item, "call_id"), StringValue(item, "id")]);
    (FirstNonEmpty([StringValue(item, "id"), callID]), callID)
  }

  /** What a tool item writes into its call. */
  function ItemWrite(c: Call, item: Fields): Call {
    var c1 := if StringValue(item, "type") == "custom_tool_call"
              then c.(toolType := "custom", input := Or(StringValue(item, "input"), c.input))
              else c.(toolType := "function", arguments := Or(StringValue(item, "arguments"), c.arguments));
    c1.(status := Or(StringValue(item, "status"), c1.status))
  }

  function CaptureTool(r: Registry, aliases: Aliases, item: Fields, explicitIndex: int): (r': Registry)
    requires Sound(r)
    ensures Sound(r')
  {
    var (itemID, callID) := ItemIDs(item);
    var (r1, found) := EnsureCall(r, itemID, callID, explicitIndex);
    if found.None? then r1
    else WriteCall(r1, found.value, ItemWrite(WithName(r1.calls[found.value], item, aliases), item))
  }

  function OutputItemKey(item: Fields, index: nat): string {
    if StringValue(item, "id") != "" then "id:" + StringValue(item, "id") else "index:" + Itoa(index)
  }

  function CaptureOther(r: Registry, item: Fields, explicitIndex: int): (r': Registry)
    requires Sound(r)
    ensures Sound(r')
  {
    var index := ResolvedIndex(r.nextIndex, explicitIndex);
    var next := NextIndex(r.nextIndex, explicitIndex);
    var key := OutputItemKey(item, index);
    if key in r.itemByKey then
      r.(items := r.items[r.itemByKey[key] := OutputItem(index, item)], nextIndex := next)
    else
      r.(items := r.items + [OutputItem(index, item)], itemByKey := r.itemByKey[key := |r.items|],
         nextIndex := next)
  }

  function CaptureOutputItem(r: Registry, aliases: Aliases, item: Fields, explicitIndex: int): (r': Registry)
    requires Sound(r)
    ensures Sound(r')
  {
    if item == map[] then r
    else if IsToolItem(item) then CaptureTool(r, aliases, item, explicitIndex)
    else CaptureOther(r, item, explicitIndex)
  }

  function CaptureAll(r: Registry, aliases: Aliases, items: seq<Fields>, from: nat): (r': Registry)
    requires Sound(r)
    ensures Sound(r')
    decreases |items|
  {
    if items == [] then r
    else CaptureAll(CaptureOutputItem(r, aliases, items[0], from), aliases, items[1..], from + 1)
  }

  /** replaceOutputItems, which its callers skip for an empty list. */
  function ReplaceOutputItems(r: Registry, aliases: Aliases, items: seq<Fields>): (r': Registry)
    requires Sound(r)
    ensures Sound(r')
  {
    if items == [] then r else CaptureAll(r.(items := [], itemByKey := map[]), aliases, items, 0)
  }

  // ----- one event -----

  predicate IsTerminal(event: Event) {
    event.kind == Completed || event.kind == Incomplete
  }

  function EventItem(event: Event): Option<Fields> {
    FirstMap(MapValue(event.raw, "item"), MapValue(event.raw, "output_item"))
  }

  function ResponseOutput(event: Event): seq<Fields> {
    SliceOfMaps(OrEmpty(MapValue(event.raw, "response")), "output")
  }

  function ApplyArguments(r: Registry, aliases: Aliases, event: Event): (r': Registry)
    requires Sound(r)
    ensures Sound(r')
  {
    if IsArgumentEvent(event.kind) then ApplyToolArgumentEvent(r, aliases, event) else r
  }

  function ApplyOutputEvent(r: Registry, aliases: Aliases, event: Event): (r': Registry)
    requires Sound(r)
    ensures Sound(r')
  {
    var item := EventItem(event);
    var r1 := if item.Some? then CaptureOutputItem(r, aliases, item.value, OutputIndexOf(event.raw)) else r;
    ReplaceOutputItems(r1, aliases, SliceOfMaps(event.raw, "output"))
  }

  function ApplyTerminal(r: Registry, aliases: Aliases, event: Event): (r': Registry)
    requires Sound(r)
    ensures Sound(r')
  {
    if IsTerminal(event) then ReplaceOutputItems(r, aliases, ResponseOutput(event)) else r
  }

  /** Everything Accumulator.Apply does to calls and output items, in its order: the metadata of
      the response, tool arguments, output items, and the response again at the end. */
  function Apply(r: Registry, aliases: Aliases, event: Event): (r': Registry)
    requires Sound(r)
    ensures Sound(r')
  {
    var r1 := ReplaceOutputItems(r, aliases, ResponseOutput(event));
    ApplyTerminal(ApplyOutputEvent(ApplyArguments(r1, aliases, event), aliases, event), aliases, event)
  }

  function Run(r: Registry, aliases: Aliases, events: seq<Event>): (r': Registry)
    requires Sound(r)
    ensures Sound(r')
    decreases |events|
  {
    if events == [] then r else Run(Apply(r, aliases, events[0]), aliases, events[1..])
  }

  // ----- the call an event speaks of -----

  /** ToolCallStateForEvent. */
  function CallForEvent(r: Registry, event: Event): (i: Option<nat>)
    requires Sound(r)
    ensures i.Some? ==> i.value < |r.calls|
  {
    if IsToolArgumentKind(event.kind) then
      var (itemID, callID) := ArgumentIDs(event);
      FindCall(r, callID, itemID)
    else if event.kind == ItemAdded || event.kind == ItemDone then
      var item := OrEmpty(EventItem(event));
      if !IsToolItem(item) then None
      else
        var itemID := FirstNonEmpty([StringValue(item, "id"), StringValue(event.raw, "item_id")]);
        FindCall(r, FirstNonEmpty([StringValue(item, "call_id"), itemID]), itemID)
    else None
  }
}
