/** The accumulator as the Go code has it: an object whose tool calls are objects of their own, shared
    between the list and the alias map and written through either. Every method is tied to the
    function of ToolCalls, Responses or this module that says what it computes. */
module Accumulator {
  import opened Text
  import opened Json
  import opened ToolCalls
  import opened ToolCallLaws
  import opened Metadata
  import Responses
  import ToolNames

  // ----- the objects -----

  class ToolCallState {
    /** Where the call is in the accumulator's list: what tells one object from another. */
    const position: nat
    var itemID: string
    var callID: string
    var toolType: string
    var name: string
    var input: string
    var arguments: string
    var outputIndex: int
    var status: string
    var addedEmitted: bool
    var doneEmitted: bool

    function View(): Call
      reads this
    {
      Call(itemID, callID, toolType, name, input, arguments, outputIndex, status, addedEmitted, doneEmitted)
    }

    constructor (position: nat, itemID: string, callID: string, outputIndex: int)
      ensures View() == NewCall(itemID, callID, outputIndex) && this.position == position
    {
      this.position := position;
      this.itemID, this.callID, this.outputIndex := itemID, callID, outputIndex;
      toolType, name, input, arguments := "", "", "", "";
      status, addedEmitted, doneEmitted := "in_progress", false, false;
    }

    /** Takes over the ids of an event where the call still has a placeholder. */
    method TakeIDs(newItemID: string, newCallID: string)
      modifies this
      ensures View() == MergeIDs(old(View()), newItemID, newCallID)
    {
      hide FirstNonEmpty;
      ghost var c := View();
      var hadPlaceholderItemID := itemID == "" || itemID == callID;
      var hadPlaceholderCallID := callID == "" || callID == itemID;
      if hadPlaceholderItemID {
        itemID := FirstNonEmpty([newItemID, itemID]);
      }
      if hadPlaceholderCallID {
        callID := FirstNonEmpty([newCallID, callID]);
      }
      ghost var item1, call1 := itemID, callID;
      assert item1 == if c.itemID == "" || Placeholder(c) then FirstNonEmpty([newItemID, c.itemID]) else c.itemID;
      assert call1 == if c.callID == "" || Placeholder(c) then FirstNonEmpty([newCallID, c.callID]) else c.callID;
      hide Placeholder;
      itemID := FirstNonEmpty([itemID, newItemID, callID]);
      callID := FirstNonEmpty([callID, newCallID, itemID]);
    }

    method TakeName(raw: Fields, aliases: Aliases)
      modifies this`name
      ensures View() == WithName(old(View()), raw, aliases)
    {
      var sent := StringValue(raw, "name");
      if sent != "" {
        name := ToolNames.RestoreToolName(sent, aliases);
      }
    }

    method TakeArguments(event: Event)
      modifies this
      ensures View() == ArgumentWrite(old(View()), event)
    {
      hide StringValue;
      match event.kind
      case ArgumentsDelta =>
        toolType := "function";
        arguments := arguments + StringValue(event.raw, "delta");
      case ArgumentsDone =>
        toolType := "function";
        if StringValue(event.raw, "arguments") != "" {
          arguments := StringValue(event.raw, "arguments");
        }
        status := "completed";
      case InputDelta =>
        toolType := "custom";
        input := input + StringValue(event.raw, "delta");
      case InputDone =>
        toolType := "custom";
        if StringValue(event.raw, "input") != "" {
          input := StringValue(event.raw, "input");
        }
        status := "completed";
      case _ =>
    }

    method TakeItem(item: Fields)
      modifies this
      ensures View() == ItemWrite(old(View()), item)
    {
      hide StringValue;
      if StringValue(item, "type") == "custom_tool_call" {
        toolType := "custom";
        if StringValue(item, "input") != "" {
          input := StringValue(item, "input");
        }
      } else {
        toolType := "function";
        if StringValue(item, "arguments") != "" {
          arguments := StringValue(item, "arguments");
        }
      }
      if StringValue(item, "status") != "" {
        status := StringValue(item, "status");
      }
    }
  }

  ghost predicate InPlace(objects: seq<ToolCallState>) {
    forall i | 0 <= i < |objects| :: objects[i].position == i
  }

  /** The objects are distinct and hold the calls of the registry. */
  ghost predicate Mirrors(objects: seq<ToolCallState>, calls: seq<Call>)
    reads objects
  {
    && |objects| == |calls|
    && InPlace(objects)
    && (forall i | 0 <= i < |objects| :: objects[i].View() == calls[i])
  }

  lemma AddMirrors(objects: seq<ToolCallState>, calls: seq<Call>, call: ToolCallState)
    requires Mirrors(objects, calls) && call.position == |objects|
    ensures Mirrors(objects + [call], calls + [call.View()])
  {
    assert forall i | 0 <= i < |objects| :: objects[i].View() == calls[i];
  }

  lemma WriteMirrors(objects: seq<ToolCallState>, calls: seq<Call>, i: nat)
    requires i < |objects| && InPlace(objects)
    requires |objects| == |calls| && forall j | 0 <= j < |objects| && j != i :: objects[j].View() == calls[j]
    ensures Mirrors(objects, calls[i := objects[i].View()])
  {}

  /** The alias map leads to the objects that the registry's positions stand for. */
  ghost predicate Leads(byID: map<string, ToolCallState>, objects: seq<ToolCallState>, positions: map<string, nat>) {
    && byID.Keys == positions.Keys
    && (forall id | id in positions :: positions[id] < |objects| && byID[id] == objects[positions[id]])
  }

  lemma AliasesStep(positions: map<string, nat>, i: nat, ids: seq<string>, k: nat)
    requires k < |ids|
    ensures RegisterAliases(positions, i, ids[..k + 1])
      == if Blank(ids[k]) then RegisterAliases(positions, i, ids[..k]) else RegisterAliases(positions, i, ids[..k])[ids[k] := i]
  {
    assert ids[..k + 1][..k] == ids[..k];
  }

  lemma LeadsStep(byID: map<string, ToolCallState>, objects: seq<ToolCallState>, positions: map<string, nat>, id: string, i: nat)
    requires Leads(byID, objects, positions) && i < |objects|
    ensures Leads(byID[id := objects[i]], objects, positions[id := i])
  {}

  lemma LeadsLonger(byID: map<string, ToolCallState>, objects: seq<ToolCallState>, positions: map<string, nat>, call: ToolCallState)
    requires Leads(byID, objects, positions)
    ensures Leads(byID, objects + [call], positions)
  {}

  class AccumulatorState {
    const aliases: Aliases
    var responseID: string
    var model: string
    var status: string
    var textBuilder: string
    var reasoningBuilder: string
    var terminalType: Option<Kind>
    var rawFinal: Fields
    var toolCalls: seq<ToolCallState>
    var toolCallByID: map<string, ToolCallState>
    var outputItems: seq<OutputItem>
    var outputItemByKey: map<string, nat>
    var nextOutputIndex: int

    /** The registry these objects stand for. */
    ghost var reg: Registry

    ghost predicate Valid()
      reads this, toolCalls
    {
      && Sound(reg)
      && Mirrors(toolCalls, reg.calls)
      && Leads(toolCallByID, toolCalls, reg.byID)
      && ItemsMatch()
    }

    ghost predicate ItemsMatch()
      reads this
    {
      outputItems == reg.items && outputItemByKey == reg.itemByKey && nextOutputIndex == reg.nextIndex
    }

    ghost function MetaView(): Meta
      reads this
    {
      Meta(responseID, model, status, textBuilder, reasoningBuilder, terminalType, rawFinal)
    }

    lemma Lengths()
      requires Valid()
      ensures Sound(reg) && |toolCalls| == |reg.calls| && InPlace(toolCalls)
    {
      SameLength(toolCalls, reg.calls);
    }

    constructor (aliases: Aliases)
      ensures Valid() && reg == EMPTY && MetaView() == NO_META && this.aliases == aliases
      ensures toolCalls == []
    {
      this.aliases := aliases;
      responseID, model, status, textBuilder, reasoningBuilder := "", "", "", "", "";
      terminalType, rawFinal := None, map[];
      toolCalls, toolCallByID, outputItems, outputItemByKey, nextOutputIndex := [], map[], [], map[], 0;
      reg := EMPTY;
    }

    // ----- finding or creating a call -----

    method RegisterToolCallAliases(call: ToolCallState, ids: seq<string>, ghost positions: map<string, nat>)
      requires Leads(toolCallByID, toolCalls, positions) && OnList(call)
      modifies this`toolCallByID
      ensures Leads(toolCallByID, toolCalls, RegisterAliases(positions, call.position, ids))
    {
      hide TrimSpace, Blank, Leads;
      var k := 0;
      assert ids[..0] == [];
      while k < |ids|
        invariant 0 <= k <= |ids|
        invariant Leads(toolCallByID, toolCalls, RegisterAliases(positions, call.position, ids[..k]))
      {
        AliasesStep(positions, call.position, ids, k);
        if !Blank(ids[k]) {
          LeadsStep(toolCallByID, toolCalls, RegisterAliases(positions, call.position, ids[..k]), ids[k], call.position);
          toolCallByID := toolCallByID[ids[k] := call];
        }
        k := k + 1;
      }
      assert ids[..k] == ids;
    }

    method ResolveOutputIndex(preferred: int) returns (index: int)
      modifies this`nextOutputIndex
      ensures index == ResolvedIndex(old(nextOutputIndex), preferred)
      ensures nextOutputIndex == NextIndex(old(nextOutputIndex), preferred)
    {
      if preferred >= 0 {
        if preferred >= nextOutputIndex {
          nextOutputIndex := preferred + 1;
        }
        return preferred;
      }
      index := nextOutputIndex;
      nextOutputIndex := nextOutputIndex + 1;
    }

    method AddCall(itemID: string, callID: string, explicitIndex: int) returns (call: ToolCallState)
      requires Valid()
      modifies this`toolCalls, this`toolCallByID, this`nextOutputIndex, this`reg
      ensures Valid() && reg == EnsureNew(old(reg), itemID, callID, explicitIndex)
      ensures toolCalls == old(toolCalls) + [call] && fresh(call)
      ensures call.position == |old(toolCalls)| == |old(reg.calls)|
    {
      hide RegisterAliases, NextIndex, Leads, Sound, Mirrors, ResolvedIndex;
      ghost var r := reg;
      SameLength(toolCalls, r.calls);
      var index := ResolveOutputIndex(explicitIndex);
      call := new ToolCallState(|toolCalls|, itemID, callID, index);
      AddMirrors(toolCalls, r.calls, call);
      LeadsLonger(toolCallByID, toolCalls, r.byID, call);
      toolCalls := toolCalls + [call];
      RegisterToolCallAliases(call, [callID, itemID], r.byID);
      reg := EnsureNew(r, itemID, callID, explicitIndex);
    }

    /** The index and the placeholder ids of a known call are updated in place. */
    method UpdateCall(call: ToolCallState, itemID: string, callID: string, explicitIndex: int)
      modifies this`nextOutputIndex, call
      ensures call.View() == MergeIDs(
        if explicitIndex >= 0 then old(call.View()).(outputIndex := explicitIndex) else old(call.View()), itemID, callID)
      ensures nextOutputIndex == if explicitIndex >= 0 then NextIndex(old(nextOutputIndex), explicitIndex) else old(nextOutputIndex)
    {
      hide MergeIDs, NextIndex, ResolvedIndex;
      if explicitIndex >= 0 {
        call.outputIndex := ResolveOutputIndex(explicitIndex);
        ResolvedExplicit(old(nextOutputIndex), explicitIndex);
      }
      call.TakeIDs(itemID, callID);
    }

    /** The event names a known call, which is known by the ids of the event as well afterwards. */
    method MergeInto(call: ToolCallState, itemID: string, callID: string, explicitIndex: int)
      requires Valid() && OnList(call) && |toolCalls| == |reg.calls|
      modifies this`toolCallByID, this`nextOutputIndex, this`reg, call
      ensures Valid() && reg == EnsureExisting(old(reg), call.position, itemID, callID, explicitIndex)
    {
      hide RegisterAliases, MergeIDs, NextIndex, Leads, Sound, ResolvedIndex;
      ghost var r := reg;
      ViewAt(toolCalls, r.calls, call.position);
      UpdateCall(call, itemID, callID, explicitIndex);
      WriteMirrors(toolCalls, r.calls, call.position);
      hide Mirrors, InPlace;
      RegisterToolCallAliases(call, [call.callID, call.itemID, callID, itemID], r.byID);
      reg := EnsureExisting(r, call.position, itemID, callID, explicitIndex);
    }

    /** ensureToolCallState: the call an event names, found or created; null without a usable id. */
    method EnsureToolCallState(rawItemID: string, rawCallID: string, explicitIndex: int)
      returns (call: ToolCallState?)
      requires Valid()
      modifies this`toolCalls, this`toolCallByID, this`nextOutputIndex, this`reg, toolCalls
      ensures Valid() && reg == EnsureCall(old(reg), rawItemID, rawCallID, explicitIndex).0
      ensures EnsureCall(old(reg), rawItemID, rawCallID, explicitIndex).1 == (if call == null then None else Some(call.position))
      ensures call != null ==> OnList(call)
      ensures Grown(old(toolCalls), toolCalls)
    {
      hide TrimSpace, EnsureExisting, EnsureNew, Mirrors, Sound;
      var itemID, callID := TrimSpace(rawItemID), TrimSpace(rawCallID);
      if itemID == "" { itemID := callID; }
      if callID == "" { callID := itemID; }
      if itemID == "" || callID == "" { return null; }

      SameLength(toolCalls, reg.calls);
      var existing: ToolCallState? := if callID in toolCallByID then toolCallByID[callID] else null;
      if existing == null && itemID in toolCallByID {
        existing := toolCallByID[itemID];
      }
      if existing != null {
        MergeInto(existing, itemID, callID, explicitIndex);
        return existing;
      }
      call := AddCall(itemID, callID, explicitIndex);
    }

    ghost predicate OnList(call: ToolCallState)
      reads this
    {
      call.position < |toolCalls| && toolCalls[call.position] == call
    }

    /** A call was written through its object. */
    ghost method Rewritten(call: ToolCallState, before: seq<Call>)
      requires OnList(call) && Sound(reg) && before == reg.calls && |before| == |toolCalls|
      requires InPlace(toolCalls) && Leads(toolCallByID, toolCalls, reg.byID) && ItemsMatch()
      requires forall j | 0 <= j < |toolCalls| && j != call.position :: toolCalls[j].View() == before[j]
      modifies this`reg
      ensures Valid() && reg == WriteCall(old(reg), call.position, call.View())
    {
      hide Leads, Sound;
      WriteMirrors(toolCalls, before, call.position);
      reg := WriteCall(reg, call.position, call.View());
    }

    method ApplyToolArgumentEvent(event: Event)
      requires Valid()
      modifies this`toolCalls, this`toolCallByID, this`nextOutputIndex, this`reg, toolCalls
      ensures Valid() && reg == ToolCalls.ApplyToolArgumentEvent(old(reg), aliases, event)
      ensures Grown(old(toolCalls), toolCalls)
    {
      hide EnsureCall, Sound, Leads, StringValue, FirstNonEmpty, WithName, ArgumentWrite;
      var responseItemID := StringValue(event.raw, "item_id");
      var callID := FirstNonEmpty([StringValue(event.raw, "call_id"), responseItemID]);
      var state := EnsureToolCallState(responseItemID, callID, OutputIndexOf(event.raw));
      if state == null {
        return;
      }
      ViewAt(toolCalls, reg.calls, state.position);
      assert state.position < |old(toolCalls)| ==> state == old(toolCalls)[state.position];
      state.TakeName(event.raw, aliases);
      state.TakeArguments(event);
      Rewritten(state, reg.calls);
    }

    method CaptureTool(item: Fields, explicitIndex: int)
      requires Valid()
      modifies this`toolCalls, this`toolCallByID, this`nextOutputIndex, this`reg, toolCalls
      ensures Valid() && reg == ToolCalls.CaptureTool(old(reg), aliases, item, explicitIndex)
      ensures Grown(old(toolCalls), toolCalls)
    {
      hide EnsureCall, Sound, Leads, StringValue, FirstNonEmpty, WithName, ItemWrite;
      var callID := FirstNonEmpty([StringValue(item, "call_id"), StringValue(item, "id")]);
      var itemID := FirstNonEmpty([StringValue(item, "id"), callID]);
      var state := EnsureToolCallState(itemID, callID, explicitIndex);
      if state == null {
        return;
      }
      ViewAt(toolCalls, reg.calls, state.position);
      assert state.position < |old(toolCalls)| ==> state == old(toolCalls)[state.position];
      state.TakeName(item, aliases);
      state.TakeItem(item);
      Rewritten(state, reg.calls);
    }

    method CaptureOutputItem(item: Fields, explicitIndex: int)
      requires Valid()
      modifies this`toolCalls, this`toolCallByID, this`outputItems, this`outputItemByKey, this`nextOutputIndex, this`reg, toolCalls
      ensures Valid() && reg == ToolCalls.CaptureOutputItem(old(reg), aliases, item, explicitIndex)
      ensures Grown(old(toolCalls), toolCalls)
    {
      hide ToolCalls.CaptureTool, Leads, StringValue, OutputItemKey, Mirrors;
      if |item| == 0 {
        return;
      }
      if StringValue(item, "type") == "function_call" || StringValue(item, "type") == "custom_tool_call" {
        CaptureTool(item, explicitIndex);
        return;
      }
      var index := ResolveOutputIndex(explicitIndex);
      var key := OutputItemKey(item, index);
      reg := CaptureOther(reg, item, explicitIndex);
      if key in outputItemByKey {
        outputItems := outputItems[outputItemByKey[key] := OutputItem(index, item)];
        return;
      }
      outputItemByKey := outputItemByKey[key := |outputItems|];
      outputItems := outputItems + [OutputItem(index, item)];
    }

    method ReplaceOutputItems(items: seq<Fields>)
      requires Valid() && items != []
      modifies this`toolCalls, this`toolCallByID, this`outputItems, this`outputItemByKey, this`nextOutputIndex, this`reg, toolCalls
      ensures Valid() && reg == ToolCalls.ReplaceOutputItems(old(reg), aliases, items)
      ensures Grown(old(toolCalls), toolCalls)
    {
      hide ToolCalls.CaptureOutputItem, Leads, Mirrors;
      outputItems, outputItemByKey := [], map[];
      reg := reg.(items := [], itemByKey := map[]);
      var idx := 0;
      ghost var start := reg;
      while idx < |items|
        invariant 0 <= idx <= |items| && Valid() && Grown(old(toolCalls), toolCalls)
        invariant CaptureAll(start, aliases, items, 0) == CaptureAll(reg, aliases, items[idx..], idx)
      {
        assert forall k | 0 <= k < |old(toolCalls)| :: toolCalls[k] == old(toolCalls)[k];
        CaptureOutputItem(items[idx], idx);
        idx := idx + 1;
      }
    }

    // ----- one event -----

    method ApplyResponseMetadata(response: Option<Fields>, output: seq<Fields>)
      requires Valid()
      modifies this, toolCalls
      ensures Valid() && reg == ToolCalls.ReplaceOutputItems(old(reg), aliases, output)
      ensures MetaView() == ResponseMeta(old(MetaView()), response)
      ensures Grown(old(toolCalls), toolCalls)
    {
      hide ToolCalls.ReplaceOutputItems, Mirrors, Leads, Sound, StringValue;
      if response.Some? {
        var fields := response.value;
        if StringValue(fields, "id") != "" {
          responseID := StringValue(fields, "id");
        }
        if StringValue(fields, "model") != "" {
          model := StringValue(fields, "model");
        }
        if StringValue(fields, "status") != "" {
          status := StringValue(fields, "status");
        }
      } else {
        NoResponse(MetaView());
      }
      ReplaceUnlessEmpty(output);
    }

    method ReplaceUnlessEmpty(output: seq<Fields>)
      requires Valid()
      modifies this`toolCalls, this`toolCallByID, this`outputItems, this`outputItemByKey, this`nextOutputIndex, this`reg, toolCalls
      ensures Valid() && reg == ToolCalls.ReplaceOutputItems(old(reg), aliases, output)
      ensures Grown(old(toolCalls), toolCalls)
    {
      if |output| > 0 {
        ReplaceOutputItems(output);
      }
    }

    method ApplyRootMetadata(raw: Fields)
      requires Valid()
      modifies this`responseID, this`model
      ensures Valid() && MetaView() == RootMeta(old(MetaView()), raw)
    {
      hide StringValue;
      if StringValue(raw, "response_id") != "" && responseID == "" {
        responseID := StringValue(raw, "response_id");
      }
      if StringValue(raw, "model") != "" && model == "" {
        model := StringValue(raw, "model");
      }
    }

    method ApplyTextEvent(event: Event)
      requires Valid()
      modifies this`textBuilder, this`reasoningBuilder
      ensures Valid() && MetaView() == TextEvent(old(MetaView()), event)
    {
      hide StringValue, MapValue;
      match event.kind
      case TextDelta => textBuilder := textBuilder + StringValue(event.raw, "delta");
      case SummaryDelta => reasoningBuilder := reasoningBuilder + StringValue(event.raw, "delta");
      case TextDone =>
        if |textBuilder| == 0 {
          textBuilder := StringValue(event.raw, "text");
        }
      case PartDone =>
        if |textBuilder| == 0 {
          textBuilder := StringValue(OrEmpty(MapValue(event.raw, "part")), "text");
        }
      case Completed => TextOfResponse(event);
      case Incomplete => TextOfResponse(event);
      case _ =>
    }

    method TextOfResponse(event: Event)
      requires IsTerminal(event)
      requires Valid()
      modifies this`textBuilder
      ensures Valid() && MetaView() == TextEvent(old(MetaView()), event)
    {
      hide StringValue, MapValue;
      if |textBuilder| == 0 {
        textBuilder := StringValue(OrEmpty(MapValue(event.raw, "response")), "output_text");
      }
    }

    method ApplyFallbackText(event: Event)
      requires Valid()
      modifies this`textBuilder
      ensures Valid() && MetaView() == FallbackText(old(MetaView()), event)
    {
      hide StringValue, MapValue, FirstNonEmpty;
      if |textBuilder| != 0 || !MentionsText(event.kind) {
        return;
      }
      textBuilder := FirstNonEmpty([StringValue(event.raw, "output_text"),
                                    StringValue(OrEmpty(MapValue(event.raw, "item")), "text")]);
    }

    method ApplyOutputEvent(event: Event)
      requires Valid()
      modifies this`toolCalls, this`toolCallByID, this`outputItems, this`outputItemByKey, this`nextOutputIndex, this`reg, toolCalls
      ensures Valid() && reg == ToolCalls.ApplyOutputEvent(old(reg), aliases, event)
      ensures Grown(old(toolCalls), toolCalls)
    {
      hide ToolCalls.CaptureOutputItem, ToolCalls.ReplaceOutputItems, Sound, Mirrors, Leads, FirstMap, SliceOfMaps;
      var item := EventItem(event);
      if item.Some? {
        CaptureOutputItem(item.value, OutputIndexOf(event.raw));
      }
      assert forall k | 0 <= k < |old(toolCalls)| :: toolCalls[k] == old(toolCalls)[k];
      ReplaceUnlessEmpty(SliceOfMaps(event.raw, "output"));
    }

    method ApplyTerminalEvent(event: Event)
      requires Valid()
      modifies this, toolCalls
      ensures Valid() && reg == ToolCalls.ApplyTerminal(old(reg), aliases, event)
      ensures MetaView() == TerminalMeta(old(MetaView()), event)
      ensures Grown(old(toolCalls), toolCalls)
    {
      hide ToolCalls.ReplaceOutputItems, Sound, Mirrors, Leads, ResponseOutput;
      if !IsTerminal(event) {
        return;
      }
      terminalType, rawFinal := Some(event.kind), event.raw;
      ReplaceUnlessEmpty(ResponseOutput(event));
    }

    /** The metadata and the text of an event. */
    method ApplyTextAndMetadata(event: Event)
      requires Valid()
      modifies this, toolCalls
      ensures Valid() && reg == ToolCalls.ReplaceOutputItems(old(reg), aliases, ResponseOutput(event))
      ensures MetaView() == TextMeta(old(MetaView()), event)
      ensures Grown(old(toolCalls), toolCalls)
    {
      hide ToolCalls.ReplaceOutputItems, Valid, ResponseMeta, RootMeta, TextEvent, FallbackText, ResponseOutput;
      ApplyResponseMetadata(MapValue(event.raw, "response"), ResponseOutput(event));
      ApplyRootMetadata(event.raw);
      ApplyTextEvent(event);
      ApplyFallbackText(event);
    }

    /** The calls and the items of an event. */
    method ApplyCallsAndItems(event: Event)
      requires Valid()
      modifies this, toolCalls
      ensures Valid() && MetaView() == TerminalMeta(old(MetaView()), event) && Grown(old(toolCalls), toolCalls)
      ensures reg == ToolCalls.ApplyTerminal(
        ToolCalls.ApplyOutputEvent(ApplyArguments(old(reg), aliases, event), aliases, event), aliases, event)
    {
      hide ToolCalls.ApplyToolArgumentEvent, ToolCalls.ApplyOutputEvent, ToolCalls.ApplyTerminal, Valid, TerminalMeta;
      if IsArgumentEvent(event.kind) {
        ApplyToolArgumentEvent(event);
      }
      assert forall k | 0 <= k < |old(toolCalls)| :: toolCalls[k] == old(toolCalls)[k];
      ApplyOutputEvent(event);
      assert forall k | 0 <= k < |old(toolCalls)| :: toolCalls[k] == old(toolCalls)[k];
      ApplyTerminalEvent(event);
    }

    /** Apply: the whole state after an event is the specified function of the state before it. */
    method Apply(event: Event)
      requires Valid()
      modifies this, toolCalls
      ensures Valid() && reg == ToolCalls.Apply(old(reg), aliases, event)
      ensures MetaView() == ApplyMeta(old(MetaView()), event)
      ensures Grown(old(toolCalls), toolCalls)
    {
      hide ToolCalls.ReplaceOutputItems, ApplyArguments, ToolCalls.ApplyOutputEvent,
           ToolCalls.ApplyTerminal, Valid, TextMeta, TerminalMeta, ResponseOutput;
      ApplyTextAndMetadata(event);
      assert forall k | 0 <= k < |old(toolCalls)| :: toolCalls[k] == old(toolCalls)[k];
      ApplyCallsAndItems(event);
    }

    // ----- the client's view of an event -----

    /** ToolCallStateForEvent. */
    method ToolCallStateForEvent(event: Event) returns (call: ToolCallState?)
      requires Valid()
      ensures CallForEvent(reg, event) == (if call == null then None else Some(call.position))
      ensures call != null ==> OnList(call)
    {
      hide StringValue, FirstNonEmpty, Mirrors, FirstMap;
      SameLength(toolCalls, reg.calls);
      var callID, itemID;
      if IsToolArgumentKind(event.kind) {
        itemID := StringValue(event.raw, "item_id");
        callID := FirstNonEmpty([StringValue(event.raw, "call_id"), itemID]);
      } else if event.kind == ItemAdded || event.kind == ItemDone {
        var item := OrEmpty(EventItem(event));
        if !IsToolItem(item) {
          return null;
        }
        itemID := FirstNonEmpty([StringValue(item, "id"), StringValue(event.raw, "item_id")]);
        callID := FirstNonEmpty([StringValue(item, "call_id"), itemID]);
      } else {
        return null;
      }
      assert CallForEvent(reg, event) == FindCall(reg, callID, itemID);
      if callID in toolCallByID {
        return toolCallByID[callID];
      }
      if itemID in toolCallByID {
        return toolCallByID[itemID];
      }
      return null;
    }

    method EnsureResponseOutputItemAdded(state: ToolCallState) returns (events: seq<Responses.Out>)
      requires Valid() && OnList(state) && |toolCalls| == |reg.calls|
      modifies this`reg, state
      ensures Valid() && (reg, events) == Responses.EnsureAdded(old(reg), state.position)
    {
      hide Sound, Leads, FirstNonEmpty;
      ViewAt(toolCalls, reg.calls, state.position);
      if state.addedEmitted {
        return [];
      }
      events := [Responses.Added(state.position, state.outputIndex, state.itemID)];
      ghost var calls := reg.calls;
      state.addedEmitted := true;
      state.status := FirstNonEmpty([state.status, "in_progress"]);
      Rewritten(state, calls);
    }

    method EnsureResponseToolCallCompleted(state: ToolCallState) returns (events: seq<Responses.Out>)
      requires Valid() && OnList(state) && |toolCalls| == |reg.calls|
      modifies this`reg, state
      ensures Valid() && (reg, events) == Responses.EnsureCompleted(old(reg), state.position)
    {
      hide Sound, Leads, Responses.EnsureAdded;
      ViewAt(toolCalls, reg.calls, state.position);
      if state.doneEmitted {
        return [];
      }
      events := EnsureResponseOutputItemAdded(state);
      ViewAt(toolCalls, reg.calls, state.position);
      var value := if state.toolType == "custom" then state.input else state.arguments;
      events := events + [Responses.ValueDone(state.position, state.outputIndex, state.itemID, value),
                          Responses.ItemClosed(state.position, state.outputIndex, state.itemID)];
      ghost var calls := reg.calls;
      state.status := "completed";
      state.doneEmitted := true;
      Rewritten(state, calls);
    }

    /** ResponsesStreamEventsForEvent: None when the event is not about a known tool call. */
    method ResponsesStreamEventsForEvent(event: Event) returns (events: Option<seq<Responses.Out>>)
      requires Valid()
      modifies this`reg, toolCalls
      ensures Valid() && (reg, events) == Responses.EventsFor(old(reg), event)
    {
      hide Sound, Leads, CallForEvent, Responses.EnsureAdded, Responses.EnsureCompleted, Mirrors, StringValue;
      var state := ToolCallStateForEvent(event);
      if state == null {
        return None;
      }
      SameLength(toolCalls, reg.calls);
      match event.kind
      case ArgumentsDelta => events := DeltaEvents(state, event);
      case InputDelta => events := DeltaEvents(state, event);
      case ItemAdded =>
        var added := EnsureResponseOutputItemAdded(state);
        events := Some(added);
      case _ =>
        var closed := EnsureResponseToolCallCompleted(state);
        events := Some(closed);
    }

    method DeltaEvents(state: ToolCallState, event: Event) returns (events: Option<seq<Responses.Out>>)
      requires Valid() && OnList(state) && |toolCalls| == |reg.calls|
      modifies this`reg, state
      ensures Valid() && (reg, events) == Responses.DeltaEvents(old(reg), state.position, StringValue(event.raw, "delta"))
    {
      hide Sound, Leads, Responses.EnsureAdded, StringValue;
      var added := EnsureResponseOutputItemAdded(state);
      ViewAt(toolCalls, reg.calls, state.position);
      var delta := StringValue(event.raw, "delta");
      assert added + [] == added;
      if delta != "" {
        added := added + [Responses.ArgDelta(state.position, state.outputIndex, state.itemID, delta)];
      }
      events := Some(added);
    }

    /** IsIncomplete. */
    method EndedShort() returns (incomplete: bool)
      ensures incomplete == IsIncomplete(MetaView())
    {
      hide ToLower, TrimSpace;
      incomplete := terminalType == Some(Incomplete) || ToLower(TrimSpace(status)) == "incomplete";
    }

    /** PendingResponseToolCallCompletionEvents. */
    method PendingResponseToolCallCompletionEvents() returns (events: seq<Responses.Out>)
      requires Valid()
      modifies this`reg, toolCalls
      ensures Valid() && (reg, events) == Responses.Pending(old(reg), IsIncomplete(old(MetaView())), 0)
    {
      var incomplete := EndedShort();
      events := CompletePending(incomplete);
    }

    method CompletePending(incomplete: bool) returns (events: seq<Responses.Out>)
      requires Valid()
      modifies this`reg, toolCalls
      ensures Valid() && (reg, events) == Responses.Pending(old(reg), incomplete, 0)
    {
      hide Sound, Leads, Responses.EnsureCompleted, Responses.Pending, Mirrors, TrimSpace, ToLower;
      events := [];
      SameLength(toolCalls, reg.calls);
      assert [] + Responses.Pending(reg, incomplete, 0).1 == Responses.Pending(reg, incomplete, 0).1;
      var i := 0;
      while i < |toolCalls|
        invariant 0 <= i <= |toolCalls| == |reg.calls| && Valid()
        invariant Responses.Pending(old(reg), incomplete, 0)
          == (Responses.Pending(reg, incomplete, i).0, events + Responses.Pending(reg, incomplete, i).1)
      {
        var state := toolCalls[i];
        ViewAt(toolCalls, reg.calls, i);
        PendingStep(reg, incomplete, i, events);
        if !state.doneEmitted && (!incomplete || ToLower(TrimSpace(state.status)) == "completed") {
          var closed := EnsureResponseToolCallCompleted(state);
          events := events + closed;
        }
        i := i + 1;
      }
      PendingEnds(reg, incomplete, events);
    }
  }

  /** One turn of the final loop. */
  lemma PendingStep(r: Registry, incomplete: bool, i: nat, events: seq<Responses.Out>)
    requires Sound(r) && i < |r.calls|
    ensures var c, before := r.calls[i], events + Responses.Pending(r, incomplete, i).1;
      if !c.done && (!incomplete || ToLower(TrimSpace(c.status)) == "completed") then
        var (r', closed) := Responses.EnsureCompleted(r, i);
        && Responses.Pending(r, incomplete, i).0 == Responses.Pending(r', incomplete, i + 1).0
        && before == events + closed + Responses.Pending(r', incomplete, i + 1).1
      else
        Responses.Pending(r, incomplete, i) == Responses.Pending(r, incomplete, i + 1)
  {
    hide Sound, Responses.EnsureCompleted, TrimSpace, ToLower;
    var c := r.calls[i];
    if !c.done && (!incomplete || ToLower(TrimSpace(c.status)) == "completed") {
      var (r', closed) := Responses.EnsureCompleted(r, i);
      assert events + (closed + Responses.Pending(r', incomplete, i + 1).1)
          == events + closed + Responses.Pending(r', incomplete, i + 1).1;
    }
  }

  lemma PendingEnds(r: Registry, incomplete: bool, events: seq<Responses.Out>)
    requires Sound(r)
    ensures (r, events) == (Responses.Pending(r, incomplete, |r.calls|).0, events + Responses.Pending(r, incomplete, |r.calls|).1)
  {
    assert events + [] == events;
  }

  lemma NoResponse(m: Meta)
    ensures ResponseMeta(m, None) == m
  {}

  /** Calls are only ever appended, as new objects. */
  twostate predicate Grown(before: seq<ToolCallState>, new after: seq<ToolCallState>) {
    before <= after && forall k | |before| <= k < |after| :: fresh(after[k])
  }

  lemma SameLength(objects: seq<ToolCallState>, calls: seq<Call>)
    requires Mirrors(objects, calls)
    ensures |objects| == |calls| && InPlace(objects)
  {}

  lemma ViewAt(objects: seq<ToolCallState>, calls: seq<Call>, i: nat)
    requires Mirrors(objects, calls) && i < |objects|
    ensures |objects| == |calls| && objects[i].View() == calls[i]
  {}

  lemma ResolvedExplicit(nextIndex: int, preferred: int)
    requires preferred >= 0
    ensures ResolvedIndex(nextIndex, preferred) == preferred
  {}
}
