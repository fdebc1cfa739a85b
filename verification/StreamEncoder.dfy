/** internal/anthropic/stream.go as the Go code has it: an encoder object whose fields change with
    every event and whose tool states are the accumulator's own objects. Every method is tied to
    the function of Encoder that says what it sends and what it leaves behind. */
module StreamEncoding {
  import opened Text
  import opened Json
  import opened ToolCalls
  import opened Encoder
  import opened Accumulator

  ghost function Positions(states: map<string, ToolCallState>): map<string, nat> {
    map id | id in states :: states[id].position
  }

  lemma PositionsSet(states: map<string, ToolCallState>, id: string, state: ToolCallState)
    ensures Positions(states[id := state]) == Positions(states)[id := state.position]
  {}

  lemma PositionsDeleted(states: map<string, ToolCallState>, id: string)
    ensures Positions(states - {id}) == Positions(states) - {id}
  {}

  lemma {:induction false} LengthSnoc(parts: seq<string>, k: nat)
    requires k < |parts|
    ensures LengthOf(parts[..k + 1]) == LengthOf(parts[..k]) + |parts[k]|
  {
    if k == 0 {
      assert parts[..1][1..] == [];
    } else {
      LengthSnoc(parts[1..], k - 1);
      assert parts[..k + 1][1..] == parts[1..][..k];
      assert parts[..k][1..] == parts[1..][..k - 1];
    }
  }

  lemma SameDeltas(e: Enc, e': Enc, field: Field, values: seq<string>)
    requires e.open.Some? && e.open == e'.open
    ensures Deltas(e, field, values) == Deltas(e', field, values)
  {
    forall i | 0 <= i < |values| ensures Deltas(e, field, values)[i] == Deltas(e', field, values)[i] {
      assert Deltas(e, field, values)[i] == Delta(e, field, values[i]);
    }
  }

  class StreamEncoder {
    var started: bool
    var nextIndex: nat
    var open: Option<OpenBlock>
    var textEmitted: bool
    var thinkEmitted: bool
    var thinkDeltas: seq<string>
    var toolSent: map<string, nat>
    var toolDone: set<string>
    var toolStates: map<string, ToolCallState>
    var toolDeltas: map<string, seq<string>>
    var toolOrder: seq<string>
    var webSearchDone: set<string>

    ghost function View(): Enc
      reads this
    {
      Enc(started, nextIndex, open, textEmitted, thinkEmitted, thinkDeltas,
          Tools(toolSent, toolDone, Positions(toolStates), toolDeltas, toolOrder), webSearchDone)
    }

    constructor ()
      ensures View() == NEW
    {
      started, nextIndex, open, textEmitted, thinkEmitted, thinkDeltas := false, 0, None, false, false, [];
      toolSent, toolDone, toolStates, toolDeltas, toolOrder, webSearchDone := map[], {}, map[], map[], [], {};
    }

    // ----- blocks -----

    method CloseBlock() returns (events: seq<Out>)
      modifies this`open
      ensures (View(), events) == Encoder.CloseBlock(old(View()))
    {
      if open == None {
        return [];
      }
      var index := open.value.index;
      open := None;
      return [BlockStop(index)];
    }

    method OpenAs(kind: OpenKind, head: Head) returns (events: seq<Out>)
      modifies this`open, this`nextIndex
      ensures (View(), events) == Encoder.OpenAs(old(View()), kind, head)
      ensures open.Some?
    {
      if open.Some? && open.value.kind == kind {
        return [];
      }
      events := CloseBlock();
      var block := OpenBlock(nextIndex, kind);
      nextIndex := nextIndex + 1;
      open := Some(block);
      events := events + [BlockStart(block.index, head)];
    }

    method SendText(text: string) returns (events: seq<Out>)
      modifies this`open, this`nextIndex, this`textEmitted
      ensures (View(), events) == Encoder.SendText(old(View()), text)
    {
      hide Encoder.OpenAs;
      events := OpenAs(TextBlock, TextHead);
      events := events + [BlockDelta(open.value.index, TextField, text)];
      textEmitted := true;
    }

    method CompleteThinking(thinking: string, signature: string) returns (events: seq<Out>)
      modifies this`open, this`nextIndex, this`thinkDeltas, this`thinkEmitted
      ensures (View(), events) == Encoder.CompleteThinking(old(View()), thinking, signature)
    {
      hide Encoder.OpenAs, Blank;
      if thinkEmitted || Blank(signature) {
        return [];
      }
      events := OpenAs(ThinkingBlock, ThinkingHead);
      ghost var e1, begun := View(), events;
      if |thinkDeltas| > 0 {
        var k := 0;
        while k < |thinkDeltas|
          invariant 0 <= k <= |thinkDeltas|
          invariant events == begun + Deltas(e1, ThinkingField, thinkDeltas[..k])
        {
          events := events + [BlockDelta(open.value.index, ThinkingField, thinkDeltas[k])];
          k := k + 1;
        }
        assert thinkDeltas[..k] == thinkDeltas;
      } else if thinking != "" {
        events := events + [BlockDelta(open.value.index, ThinkingField, thinking)];
      }
      ghost var texts := if thinkDeltas != [] then thinkDeltas else if thinking != "" then [thinking] else [];
      assert events == begun + Deltas(e1, ThinkingField, texts);
      events := events + [BlockDelta(open.value.index, SignatureField, signature)];
      var closed := CloseBlock();
      events := events + closed;
      thinkDeltas := [];
      thinkEmitted := true;
    }

    method CompleteWebSearch(item: Fields, fallbackID: string, shorten: string -> string) returns (events: seq<Out>)
      modifies this`open, this`nextIndex, this`webSearchDone
      ensures (View(), events) == Encoder.CompleteWebSearch(old(View()), item, fallbackID, shorten)
    {
      hide SearchOf;
      var search := SearchOf(item, fallbackID, shorten);
      if search == None {
        return [];
      }
      var toolUse := search.value;
      if toolUse.id in webSearchDone {
        return [];
      }
      webSearchDone := webSearchDone + {toolUse.id};
      events := CloseBlock();
      ghost var closed := events;
      var useIndex := nextIndex;
      nextIndex := nextIndex + 1;
      events := events + [BlockStart(useIndex, SearchHead(toolUse.id))];
      if toolUse.query != "" {
        events := events + [BlockDelta(useIndex, JsonField, toolUse.query)];
      }
      events := events + [BlockStop(useIndex)];
      var resultIndex := nextIndex;
      nextIndex := nextIndex + 1;
      events := events + [BlockStart(resultIndex, SearchResultHead(toolUse.id)), BlockStop(resultIndex)];
      assert events == closed + [BlockStart(useIndex, SearchHead(toolUse.id))]
        + (if toolUse.query != "" then [BlockDelta(useIndex, JsonField, toolUse.query)] else [])
        + [BlockStop(useIndex), BlockStart(resultIndex, SearchResultHead(toolUse.id)), BlockStop(resultIndex)];
    }

    // ----- tools -----

    /** The accumulator is sound and every tool state is one of its calls. */
    ghost predicate Follows(acc: AccumulatorState)
      reads this`toolStates, acc, acc.toolCalls
    {
      && acc.Valid()
      && forall id | id in toolStates :: acc.OnList(toolStates[id]) && toolStates[id].position < |acc.reg.calls|
    }

    lemma FollowsInRange(acc: AccumulatorState)
      requires Follows(acc)
      ensures Sound(acc.reg) && InRange(View(), acc.reg.calls)
    {
      hide Mirrors, Leads, Sound;
    }

    method RegisterTool(acc: AccumulatorState, state: ToolCallState)
      requires Follows(acc) && acc.OnList(state) && state.position < |acc.reg.calls|
      modifies this`toolOrder, this`toolStates
      ensures Follows(acc) && View() == Encoder.RegisterTool(old(View()), acc.reg.calls, state.position)
    {
      hide Leads, Sound;
      ViewAt(acc.toolCalls, acc.reg.calls, state.position);
      PositionsSet(toolStates, state.callID, state);
      if state.callID !in toolStates {
        toolOrder := toolOrder + [state.callID];
      }
      toolStates := toolStates[state.callID := state];
    }

    method OpenTool(state: ToolCallState, shorten: string -> string) returns (events: seq<Out>)
      modifies this`nextIndex, this`open, this`toolSent
      ensures (View(), events) == Encoder.OpenTool(old(View()), state.View(), shorten)
      ensures open.Some?
    {
      var block := OpenBlock(nextIndex, ToolBlock(state.callID));
      nextIndex := nextIndex + 1;
      open := Some(block);
      toolSent := toolSent[state.callID := 0];
      return [BlockStart(block.index, ToolHead(state.callID, shorten(state.callID), state.name))];
    }

    method ToolRemainder(state: ToolCallState) returns (events: seq<Out>)
      requires open.Some?
      modifies this`toolSent
      ensures (View(), events) == Encoder.ToolRemainder(old(View()), state.View())
    {
      var value := if state.toolType == "custom" then state.input else state.arguments;
      var sent := if state.callID in toolSent then toolSent[state.callID] else 0;
      if sent >= |value| {
        return [];
      }
      var remainder := value[sent..];
      toolSent := toolSent[state.callID := |value|];
      return [BlockDelta(open.value.index, JsonField, remainder)];
    }

    /** The inner loop of FlushTools: the buffered pieces of a tool. */
    method SendDeltas(callID: string, buffered: seq<string>) returns (events: seq<Out>)
      requires open.Some?
      modifies this`toolSent
      ensures events == Deltas(View(), JsonField, buffered)
      ensures toolSent == if buffered == [] then old(toolSent) else
        old(toolSent)[callID := (if callID in old(toolSent) then old(toolSent)[callID] else 0) + LengthOf(buffered)]
    {
      events := [];
      ghost var sent := toolSent;
      var k := 0;
      while k < |buffered|
        invariant 0 <= k <= |buffered|
        invariant events == Deltas(View(), JsonField, buffered[..k])
        invariant toolSent == if k == 0 then sent
                              else sent[callID := (if callID in sent then sent[callID] else 0) + LengthOf(buffered[..k])]
      {
        events := events + [BlockDelta(open.value.index, JsonField, buffered[k])];
        LengthSnoc(buffered, k);
        toolSent := toolSent[callID := (if callID in toolSent then toolSent[callID] else 0) + |buffered[k]|];
        k := k + 1;
      }
      assert buffered[..k] == buffered;
    }

    /** One pass of the loop in FlushTools. */
    method EmitTool(callID: string, state: ToolCallState, shorten: string -> string) returns (events: seq<Out>)
      modifies this`nextIndex, this`open, this`toolSent, this`toolDeltas
      ensures (View(), events) == Encoder.EmitTool(old(View()), callID, state.View(), shorten)
    {
      hide Encoder.ToolRemainder, LengthOf, Encoder.OpenTool;
      events := OpenTool(state, shorten);
      ghost var e1 := View();
      var buffered := if callID in toolDeltas then toolDeltas[callID] else [];
      var pieces := SendDeltas(callID, buffered);
      SameDeltas(e1, View(), JsonField, buffered);
      toolDeltas := toolDeltas - {callID};
      var rest := ToolRemainder(state);
      var closed := CloseBlock();
      events := events + pieces + rest + closed;
    }

    method FlushTools(acc: AccumulatorState, shorten: string -> string) returns (events: seq<Out>)
      requires Follows(acc)
      modifies this`nextIndex, this`open, this`toolSent, this`toolDeltas
      ensures Follows(acc) && InRange(old(View()), acc.reg.calls)
      ensures (View(), events) == Encoder.FlushTools(old(View()), acc.reg.calls, shorten)
    {
      hide Encoder.EmitTool, Sound, Leads, Mirrors;
      if open.Some? {
        return [];
      }
      events := [];
      ghost var calls, start := acc.reg.calls, View();
      assert [] + FlushFrom(start, calls, 0, shorten).1 == FlushFrom(start, calls, 0, shorten).1;
      var k := 0;
      while k < |toolOrder|
        invariant 0 <= k <= |toolOrder|
        invariant InRange(View(), calls)
        invariant FlushFrom(start, calls, 0, shorten)
          == (FlushFrom(View(), calls, k, shorten).0, events + FlushFrom(View(), calls, k, shorten).1)
      {
        var callID := toolOrder[k];
        if callID !in toolSent && callID in toolStates {
          if callID !in toolDone {
            assert events + [] == events;
            return events;
          }
          ViewAt(acc.toolCalls, calls, toolStates[callID].position);
          ghost var sent := events;
          var block := EmitTool(callID, toolStates[callID], shorten);
          events := events + block;
          assert sent + (block + FlushFrom(View(), calls, k + 1, shorten).1) == events + FlushFrom(View(), calls, k + 1, shorten).1;
        }
        k := k + 1;
      }
      assert events + [] == events;
    }

    method CompleteTool(acc: AccumulatorState, state: ToolCallState, shorten: string -> string) returns (events: seq<Out>)
      requires Follows(acc) && acc.OnList(state) && state.position < |acc.reg.calls|
      modifies this`nextIndex, this`open, this`toolSent, this`toolDeltas, this`toolOrder, this`toolStates, this`toolDone
      ensures Follows(acc) && InRange(old(View()), acc.reg.calls)
      ensures (View(), events) == Encoder.CompleteTool(old(View()), acc.reg.calls, state.position, shorten)
    {
      hide Encoder.FlushTools, Encoder.RegisterTool, Sound, Leads;
      ViewAt(acc.toolCalls, acc.reg.calls, state.position);
      hide Mirrors;
      RegisterTool(acc, state);
      toolDone := toolDone + {state.callID};
      events := FlushTools(acc, shorten);
    }

    // ----- the terminal event -----

    /** Whether a call is executable once the response is over is settled when it ends. */
    method SettleTool(acc: AccumulatorState, state: ToolCallState, response: Fields)
      requires Follows(acc) && acc.OnList(state) && state.position < |acc.reg.calls|
      modifies this`toolOrder, this`toolStates, this`toolDone
      ensures Follows(acc) && acc.reg.calls[state.position] == state.View()
      ensures View() == if Executable(state.View(), response)
        then Encoder.MarkDone(Encoder.RegisterTool(old(View()), acc.reg.calls, state.position), state.callID)
        else old(View()).(tools := old(View()).tools.(states := old(View()).tools.states - {state.callID}))
    {
      hide Encoder.RegisterTool, Sound, Leads, Executable;
      ViewAt(acc.toolCalls, acc.reg.calls, state.position);
      hide Mirrors;
      if !Executable(state.View(), response) {
        PositionsDeleted(toolStates, state.callID);
        toolStates := toolStates - {state.callID};
        return;
      }
      RegisterTool(acc, state);
      toolDone := toolDone + {state.callID};
    }

    /** The first loop of hydrateTerminal. */
    method SettleTools(acc: AccumulatorState, response: Fields)
      requires Follows(acc)
      modifies this`toolOrder, this`toolStates, this`toolDone
      ensures Follows(acc) && InRange(old(View()), acc.reg.calls)
      ensures View() == Settle(old(View()), acc.reg.calls, response, 0)
    {
      hide Encoder.RegisterTool, MarkDone, Sound, Leads, Executable, Mirrors, InRange;
      ghost var calls, start := acc.reg.calls, View();
      FollowsInRange(acc);
      acc.Lengths();
      var i := 0;
      while i < |acc.toolCalls|
        invariant 0 <= i <= |acc.toolCalls| && Follows(acc) && InRange(View(), calls)
        invariant Settle(start, calls, response, 0) == Settle(View(), calls, response, i)
      {
        acc.Lengths();
        SettleTool(acc, acc.toolCalls[i], response);
        FollowsInRange(acc);
        i := i + 1;
      }
    }

    method FlushTerminalTools(acc: AccumulatorState, shorten: string -> string) returns (events: seq<Out>)
      requires Follows(acc)
      modifies this`nextIndex, this`open, this`toolSent, this`toolDeltas
      ensures Follows(acc) && InRange(old(View()), acc.reg.calls)
      ensures (View(), events) == Encoder.FlushTerminalTools(old(View()), acc.reg.calls, shorten)
    {
      hide Encoder.FlushTools, Encoder.ToolRemainder, Sound, Leads, Mirrors;
      events := [];
      if open.Some? && open.value.kind.ToolBlock? {
        var callID := open.value.kind.callID;
        if callID in toolStates && callID in toolDone {
          ViewAt(acc.toolCalls, acc.reg.calls, toolStates[callID].position);
          events := ToolRemainder(toolStates[callID]);
        }
        var closed := CloseBlock();
        events := events + closed;
      }
      var flushed := FlushTools(acc, shorten);
      assert [] + flushed == flushed;
      events := events + flushed;
    }

    /** The first thinking block of the finished message, if none was streamed. */
    method HydrateThinking(blocks: seq<Shown>) returns (events: seq<Out>)
      modifies this`open, this`nextIndex, this`thinkDeltas, this`thinkEmitted
      ensures (View(), events) == Encoder.HydrateThinking(old(View()), blocks)
    {
      hide Encoder.CompleteThinking;
      if thinkEmitted {
        return [];
      }
      var k := 0;
      while k < |blocks|
        invariant 0 <= k <= |blocks| && !thinkEmitted && View() == old(View())
        invariant Encoder.HydrateThinking(View(), blocks) == Encoder.HydrateThinking(View(), blocks[k..])
      {
        if blocks[k].ShownThinking? {
          events := CompleteThinking(blocks[k].thinking, blocks[k].signature);
          return;
        }
        k := k + 1;
      }
      return [];
    }

    /** The web searches of the finished message that were not streamed. */
    method HydrateSearches(output: seq<Fields>, shorten: string -> string) returns (events: seq<Out>)
      modifies this`open, this`nextIndex, this`webSearchDone
      ensures (View(), events) == Encoder.HydrateSearches(old(View()), output, 0, shorten)
    {
      hide Encoder.CompleteWebSearch, Itoa;
      events := [];
      ghost var start := View();
      assert [] + Encoder.HydrateSearches(start, output, 0, shorten).1 == Encoder.HydrateSearches(start, output, 0, shorten).1;
      var k := 0;
      while k < |output|
        invariant 0 <= k <= |output|
        invariant Encoder.HydrateSearches(start, output, 0, shorten)
          == (Encoder.HydrateSearches(View(), output, k, shorten).0, events + Encoder.HydrateSearches(View(), output, k, shorten).1)
      {
        if StringValue(output[k], "type") == "web_search_call" {
          ghost var sent := events;
          var shown := CompleteWebSearch(output[k], "web_search_" + Itoa(k), shorten);
          events := events + shown;
          assert sent + (shown + Encoder.HydrateSearches(View(), output, k + 1, shorten).1)
              == events + Encoder.HydrateSearches(View(), output, k + 1, shorten).1;
        }
        k := k + 1;
      }
      assert events + [] == events;
    }

    /** The first non-empty text of the finished message, if none was streamed. */
    method HydrateText(blocks: seq<Shown>) returns (events: seq<Out>)
      modifies this`open, this`nextIndex, this`textEmitted
      ensures (View(), events) == Encoder.HydrateText(old(View()), blocks)
    {
      hide Encoder.SendText;
      if textEmitted {
        return [];
      }
      var k := 0;
      while k < |blocks|
        invariant 0 <= k <= |blocks| && !textEmitted && View() == old(View())
        invariant Encoder.HydrateText(View(), blocks) == Encoder.HydrateText(View(), blocks[k..])
      {
        if blocks[k].ShownText? && blocks[k].text != "" {
          events := SendText(blocks[k].text);
          var closed := CloseBlock();
          events := events + closed;
          return;
        }
        k := k + 1;
      }
      return [];
    }

    method HydrateTerminal(acc: AccumulatorState, view: Encoder.View, shorten: string -> string) returns (events: seq<Out>)
      requires Follows(acc)
      modifies this
      ensures Follows(acc) && InRange(old(View()), acc.reg.calls)
      ensures (View(), events) == Encoder.HydrateTerminal(old(View()), acc.reg.calls, view, shorten)
    {
      hide Encoder.FlushTerminalTools, Encoder.HydrateText, Encoder.HydrateThinking, Encoder.HydrateSearches, Settle,
           Follows, InRange;
      FollowsInRange(acc);
      var streaming := (open.Some? && open.value.kind.ToolBlock?) || |toolSent| > 0 || |toolDeltas| > 0;
      SettleTools(acc, view.response);
      ghost var e0 := View();
      var early := [];
      if streaming {
        early := FlushTerminalTools(acc, shorten);
      }
      var thinking := HydrateThinking(view.blocks);
      var searches := HydrateSearches(view.output, shorten);
      var text := HydrateText(view.blocks);
      Encoder.HydrateKeepsStates(e0, acc.reg.calls, view, shorten, streaming);
      var late := [];
      if !streaming {
        late := FlushTerminalTools(acc, shorten);
      }
      events := early + thinking + searches + text + late;
    }

    // ----- one event -----

    method EnsureStarted(view: Encoder.View) returns (events: seq<Out>)
      modifies this`started
      ensures (View(), events) == Encoder.EnsureStarted(old(View()), view)
    {
      if started {
        return [];
      }
      started := true;
      return [MessageStart(view.messageID, view.model)];
    }

    method FinishText(event: Event, view: Encoder.View, cfg: Config) returns (events: seq<Out>)
      modifies this`open, this`nextIndex, this`textEmitted
      ensures (View(), events) == Encoder.FinishText(old(View()), event, view, cfg)
    {
      hide Encoder.SendText, StringValue;
      var cleaned, plain, closed := [], [], [];
      if cfg.hasSchema && !textEmitted {
        var text := Or(StringValue(event.raw, "text"), view.text);
        if text != "" {
          cleaned := SendText(cfg.normalize(text));
        }
      }
      if !textEmitted {
        var text := StringValue(event.raw, "text");
        if text != "" {
          plain := SendText(text);
        }
      }
      if open.Some? && open.value.kind == TextBlock {
        closed := CloseBlock();
      }
      events := cleaned + plain + closed;
    }

    method ToolDelta(acc: AccumulatorState, state: ToolCallState, delta: string)
      requires Follows(acc) && acc.OnList(state) && state.position < |acc.reg.calls|
      modifies this`toolOrder, this`toolStates, this`toolDeltas
      ensures Follows(acc) && View() == Encoder.ToolDelta(old(View()), acc.reg.calls, state.position, delta)
    {
      hide Encoder.RegisterTool, Sound, Leads;
      ViewAt(acc.toolCalls, acc.reg.calls, state.position);
      hide Mirrors;
      RegisterTool(acc, state);
      if delta != "" {
        toolDeltas := toolDeltas[state.callID := (if state.callID in toolDeltas then toolDeltas[state.callID] else []) + [delta]];
      }
    }

    method ReasoningDone(item: Fields, reasoning: string, cfg: Config) returns (events: seq<Out>)
      modifies this`open, this`nextIndex, this`thinkDeltas, this`thinkEmitted
      ensures (View(), events) == Encoder.ReasoningDone(old(View()), item, reasoning, cfg)
    {
      hide Encoder.CompleteThinking, StringValue;
      events := [];
      if cfg.exposeThinking {
        var signature := StringValue(item, "encrypted_content");
        if signature != "" {
          events := CompleteThinking(reasoning, signature);
        } else {
          thinkDeltas := [];
        }
      }
    }

    method Finish(acc: AccumulatorState, view: Encoder.View, cfg: Config) returns (events: seq<Out>)
      requires Follows(acc)
      modifies this
      ensures Follows(acc) && InRange(old(View()), acc.reg.calls)
      ensures (View(), events) == Encoder.Finish(old(View()), acc.reg.calls, view, cfg)
    {
      hide Encoder.HydrateTerminal, Sound, Leads, Mirrors;
      events := HydrateTerminal(acc, view, cfg.shorten);
      var closed := CloseBlock();
      events := events + closed + [MessageDelta(view.stopReason, view.stopSequence), MessageStop];
    }

    /** Events: what is sent for one event, after the accumulator has applied it. */
    method Events(event: Event, acc: AccumulatorState, view: Encoder.View, reasoning: string, cfg: Config)
      returns (events: seq<Out>)
      requires Follows(acc)
      modifies this
      ensures Follows(acc) && InRange(old(View()), acc.reg.calls) && Sound(acc.reg)
      ensures (View(), events) == Encoder.Events(old(View()), event, acc.reg, view, reasoning, cfg)
    {
      hide Encoder.Dispatch, Follows, InRange, Sound;
      FollowsInRange(acc);
      events := EnsureStarted(view);
      var body := Dispatch(event, acc, view, reasoning, cfg);
      events := events + body;
    }

    method Dispatch(event: Event, acc: AccumulatorState, view: Encoder.View, reasoning: string, cfg: Config)
      returns (events: seq<Out>)
      requires Follows(acc)
      modifies this
      ensures Follows(acc) && InRange(old(View()), acc.reg.calls) && Sound(acc.reg)
      ensures (View(), events) == Encoder.Dispatch(old(View()), event, acc.reg, view, reasoning, cfg)
    {
      hide Follows, InRange, Sound, Encoder.SendText, Encoder.CompleteThinking, Encoder.FinishText, Encoder.ToolDelta,
           Encoder.CompleteTool, Encoder.CompleteWebSearch, Encoder.ReasoningDone, Encoder.Finish, CallForEvent,
           StringValue, SummarySignature, EventItem;
      FollowsInRange(acc);
      events := [];
      match event.kind
      case SummaryDelta =>
        if cfg.exposeThinking && StringValue(event.raw, "delta") != "" {
          thinkDeltas := thinkDeltas + [StringValue(event.raw, "delta")];
        }
      case SummaryDone =>
        if cfg.exposeThinking && SummarySignature(event) != "" {
          events := CompleteThinking(view.summary, SummarySignature(event));
        }
      case TextDelta =>
        if StringValue(event.raw, "delta") != "" && !cfg.hasSchema {
          events := SendText(StringValue(event.raw, "delta"));
        }
      case TextDone => events := FinishText(event, view, cfg);
      case ArgumentsDelta => DeltaForCall(event, acc);
      case InputDelta => DeltaForCall(event, acc);
      case ArgumentsDone => events := CompleteCall(event, acc, cfg);
      case InputDone => events := CompleteCall(event, acc, cfg);
      case ItemDone =>
        var item := OrEmpty(EventItem(event));
        if StringValue(item, "type") == "web_search_call" {
          events := CompleteWebSearch(item, cfg.fallbackID(event), cfg.shorten);
        } else if StringValue(item, "type") == "reasoning" {
          events := ReasoningDone(item, reasoning, cfg);
        } else {
          events := CompleteCall(event, acc, cfg);
        }
      case Completed => events := Finish(acc, view, cfg);
      case Incomplete => events := Finish(acc, view, cfg);
      case _ =>
    }

    method DeltaForCall(event: Event, acc: AccumulatorState)
      requires Follows(acc)
      modifies this`toolOrder, this`toolStates, this`toolDeltas
      ensures Follows(acc) && Sound(acc.reg)
      ensures var call := CallForEvent(acc.reg, event);
        View() == if call.Some? then Encoder.ToolDelta(old(View()), acc.reg.calls, call.value, StringValue(event.raw, "delta"))
                  else old(View())
    {
      hide InRange, Sound, Encoder.ToolDelta, CallForEvent, StringValue, Mirrors, Leads;
      FollowsInRange(acc);
      acc.Lengths();
      var state := acc.ToolCallStateForEvent(event);
      if state != null {
        ToolDelta(acc, state, StringValue(event.raw, "delta"));
      }
    }

    method CompleteCall(event: Event, acc: AccumulatorState, cfg: Config) returns (events: seq<Out>)
      requires Follows(acc)
      modifies this`nextIndex, this`open, this`toolSent, this`toolDeltas, this`toolOrder, this`toolStates, this`toolDone
      ensures Follows(acc) && InRange(old(View()), acc.reg.calls) && Sound(acc.reg)
      ensures var call := CallForEvent(acc.reg, event);
        (View(), events) == if call.Some? then Encoder.CompleteTool(old(View()), acc.reg.calls, call.value, cfg.shorten)
                            else (old(View()), [])
    {
      hide InRange, Sound, Encoder.CompleteTool, CallForEvent, Mirrors, Leads;
      FollowsInRange(acc);
      acc.Lengths();
      events := [];
      var state := acc.ToolCallStateForEvent(event);
      if state != null {
        events := CompleteTool(acc, state, cfg.shorten);
      }
    }
  }
}
