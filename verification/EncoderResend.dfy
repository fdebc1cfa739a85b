/** A tool call that is sent twice: it is completed under its item id while a text block is open, and
    its call id becomes known only after the text has ended. The encoder files the call under both
    ids, marks only the call id as sent, and sends the call again at the end. */
module EncoderResend {
  import opened Text
  import opened Json
  import opened ToolCalls
  import opened ToolCallLaws
  import opened Encoder
  import opened Messages
  import opened EncoderGrammar
  import opened EncoderRuns
  import opened EncoderTools

  const CFG: Config := Config(false, false, x => x, x => x, (event: Event) => "")
  const VIEW: View := View("", "", "", "", map[], [], [], "", "")

  const TEXT: Event := Event(TextDelta, map["delta" := Str("t")])
  const TEXT_END: Event := Event(TextDone, map["text" := Str("t")])
  const FINAL: Event := Event(Completed, map[])

  /** response.function_call_arguments.done that names its call by the item id alone. */
  function DoneByItem(i: string): Event {
    Event(ArgumentsDone, map["item_id" := Str(i), "arguments" := Str("x")])
  }

  function Item(i: string, c: string): Fields {
    map["type" := Str("function_call"), "id" := Str(i), "call_id" := Str(c)]
  }

  /** response.output_item.done, with both ids. */
  function Named(i: string, c: string): Event {
    Event(ItemDone, map["item" := Obj(Item(i, c))])
  }

  function Sent(event: Event): Input {
    Input(event, VIEW, "")
  }

  function TheRun(i: string, c: string): seq<Input> {
    [Sent(TEXT), Sent(DoneByItem(i)), Sent(TEXT_END), Sent(Named(i, c)), Sent(FINAL)]
  }

  /** The call with its value, under the call id known at the time. */
  function CallOf(i: string, c: string, status: string): Call {
    Call(i, c, "function", "", "", "x", 0, status, false, false)
  }

  /** The call after it is completed. */
  function TheCall(i: string, c: string): Call {
    CallOf(i, c, "completed")
  }

  // ----- the accumulator -----

  /** An event without tool items and without output lists. */
  predicate Silent(event: Event) {
    ResponseOutput(event) == [] && SliceOfMaps(event.raw, "output") == [] && EventItem(event) == None
  }

  lemma NothingElse(event: Event)
    requires "response" !in event.raw && "output" !in event.raw && "item" !in event.raw && "output_item" !in event.raw
    ensures Silent(event)
  {}

  lemma SilentApply(r: Registry, event: Event)
    requires Sound(r) && Silent(event) && !IsArgumentEvent(event.kind)
    ensures Apply(r, map[], event) == r
  {
    hide ResponseOutput, SliceOfMaps, EventItem, CaptureOutputItem, CaptureAll, Sound, OutputIndexOf;
  }

  lemma TextSilent()
    ensures Silent(TEXT)
  {
    assert TEXT.raw.Keys == {"delta"};
    NothingElse(TEXT);
  }

  lemma TextEndSilent()
    ensures Silent(TEXT_END)
  {
    assert TEXT_END.raw.Keys == {"text"};
    NothingElse(TEXT_END);
  }

  lemma FinalSilent()
    ensures Silent(FINAL)
  {
    NothingElse(FINAL);
  }

  lemma DoneByItemSays(i: string)
    ensures var raw := DoneByItem(i).raw;
      && StringValue(raw, "item_id") == i && StringValue(raw, "call_id") == "" && StringValue(raw, "name") == ""
      && StringValue(raw, "arguments") == "x" && OutputIndexOf(raw) == -1
    ensures PlainArguments(DoneByItem(i))
    ensures GoodID(i) ==> ArgumentIDs(DoneByItem(i)) == (i, i)
  {
    var raw := DoneByItem(i).raw;
    assert raw.Keys == {"item_id", "arguments"};
    NothingElse(DoneByItem(i));
    if GoodID(i) {
      assert ["", i][1..] == [i];
      FirstGood([i]);
    }
  }

  lemma OnlyCall(i: string)
    requires GoodID(i)
    ensures EnsureCall(EMPTY, i, i, -1) == (Registry([NewCall(i, i, 0)], map[i := 0], [], map[], 1), Some(0))
  {
    hide Trimmed, RegisterAliases;
    assert TrimSpace(i) == i;
    Aliased(map[], 0, [i, i], {i});
    assert RegisterAliases(map[], 0, [i, i]) == map[i := 0];
    assert EMPTY.calls + [NewCall(i, i, 0)] == [NewCall(i, i, 0)];
    assert FindCall(EMPTY, i, i) == None;
    assert EnsureNew(EMPTY, i, i, -1) == Registry([NewCall(i, i, 0)], map[i := 0], [], map[], 1);
  }

  lemma CompletedUnderItem(i: string)
    requires GoodID(i)
    ensures Apply(EMPTY, map[], DoneByItem(i)) == Registry([TheCall(i, i)], map[i := 0], [], map[], 1)
    ensures CallForEvent(Apply(EMPTY, map[], DoneByItem(i)), DoneByItem(i)) == Some(0)
  {
    hide StringValue, ArgumentIDs, Trimmed, EnsureCall, Apply, OutputIndexOf, GoodID, DoneByItem;
    var event := DoneByItem(i);
    DoneByItemSays(i);
    PlainApply(EMPTY, map[], event);
    OnlyCall(i);
    var r := Registry([NewCall(i, i, 0)], map[i := 0], [], map[], 1);
    IsDone(i);
    var written := ArgumentWrite(WithName(NewCall(i, i, 0), event.raw, map[]), event);
    assert written == TheCall(i, i);
    assert ApplyToolArgumentEvent(EMPTY, map[], event) == WriteCall(r, 0, written);
    assert r.calls[0 := written] == [written];
  }

  lemma IsDone(i: string)
    ensures DoneByItem(i).kind == ArgumentsDone
  {}

  lemma ItemSays(i: string, c: string)
    ensures var item := Item(i, c);
      && StringValue(item, "type") == "function_call" && StringValue(item, "id") == i && StringValue(item, "call_id") == c
      && StringValue(item, "name") == "" && StringValue(item, "arguments") == "" && StringValue(item, "status") == ""
      && item != map[]
  {
    assert Item(i, c).Keys == {"type", "id", "call_id"};
  }

  lemma NamedSays(i: string, c: string)
    ensures EventItem(Named(i, c)) == Some(Item(i, c)) && OutputIndexOf(Named(i, c).raw) == -1
    ensures ResponseOutput(Named(i, c)) == [] && SliceOfMaps(Named(i, c).raw, "output") == []
    ensures Named(i, c).kind == ItemDone && StringValue(Named(i, c).raw, "item_id") == ""
  {
    ItemSays(i, c);
    assert Named(i, c).raw.Keys == {"item"};
  }

  /** The registry before and after the call has got its call id. */
  function Unnamed(i: string, status: string): Registry {
    Registry([CallOf(i, i, status)], map[i := 0], [], map[], 1)
  }

  function RenamedAs(i: string, c: string, status: string): Registry {
    Registry([CallOf(i, c, status)], map[i := 0, c := 0], [], map[], 1)
  }

  function Renamed(i: string, c: string): Registry {
    RenamedAs(i, c, "completed")
  }

  /** The registry of one call, known by those ids. */
  function OneCall(d: Call, byID: map<string, nat>): Registry {
    Registry([d], byID, [], map[], 1)
  }

  lemma Renaming(d: Call, i: string, c: string)
    requires GoodID(i) && GoodID(c) && i != c && d.itemID == d.callID == i
    ensures EnsureCall(OneCall(d, map[i := 0]), i, c, -1) == (OneCall(d.(callID := c), map[i := 0, c := 0]), Some(0))
  {
    hide Trimmed, RegisterAliases, MergeIDs;
    var r := OneCall(d, map[i := 0]);
    assert TrimSpace(i) == i && TrimSpace(c) == c;
    MergeCases(d, i, c);
    Aliased(r.byID, 0, [c, i, c, i], {c, i});
    assert RegisterAliases(r.byID, 0, [c, i, c, i]) == map[i := 0, c := 0];
    assert r.calls[0 := d.(callID := c)] == [d.(callID := c)];
    assert FindCall(r, c, i) == Some(0);
    assert EnsureExisting(r, 0, i, c, -1) == OneCall(d.(callID := c), map[i := 0, c := 0]);
  }

  lemma ItemNames(i: string, c: string)
    requires GoodID(i) && GoodID(c)
    ensures ItemIDs(Item(i, c)) == (i, c) && IsToolItem(Item(i, c))
  {
    hide StringValue, Trimmed;
    ItemSays(i, c);
    FirstGood([c, i]);
    FirstGood([i, c]);
  }

  lemma RenamedCall(d: Call, i: string, c: string)
    requires GoodID(i) && GoodID(c) && i != c && d.itemID == d.callID == i && d.toolType == "function"
    ensures Apply(OneCall(d, map[i := 0]), map[], Named(i, c)) == OneCall(d.(callID := c), map[i := 0, c := 0])
  {
    hide *;
    NamedSays(i, c);
    ItemSays(i, c);
    ItemNames(i, c);
    CapturedCall(d, i, c);
    ItemApplies(OneCall(d, map[i := 0]), Named(i, c), Item(i, c));
  }

  /** An event whose item is a tool item, and that brings nothing else. */
  lemma ItemApplies(r: Registry, event: Event, item: Fields)
    requires Sound(r) && event.kind == ItemDone && EventItem(event) == Some(item) && item != map[] && IsToolItem(item)
    requires ResponseOutput(event) == [] && SliceOfMaps(event.raw, "output") == []
    ensures Apply(r, map[], event) == CaptureTool(r, map[], item, OutputIndexOf(event.raw))
  {
    hide CaptureTool, OutputIndexOf, EventItem, ResponseOutput, SliceOfMaps, IsToolItem, Sound, ApplyToolArgumentEvent;
    assert ApplyArguments(r, map[], event) == r;
    assert ApplyOutputEvent(r, map[], event) == CaptureTool(r, map[], item, OutputIndexOf(event.raw)) by { hide ApplyArguments; }
    hide ApplyOutputEvent, ApplyArguments;
  }

  lemma CapturedCall(d: Call, i: string, c: string)
    requires GoodID(i) && GoodID(c) && i != c && d.itemID == d.callID == i && d.toolType == "function"
    ensures Sound(OneCall(d, map[i := 0]))
    ensures CaptureTool(OneCall(d, map[i := 0]), map[], Item(i, c), -1) == OneCall(d.(callID := c), map[i := 0, c := 0])
  {
    hide StringValue, Trimmed, EnsureCall, GoodID, ItemIDs, Item;
    ItemSays(i, c);
    ItemNames(i, c);
    Renaming(d, i, c);
    var s := OneCall(d.(callID := c), map[i := 0, c := 0]);
    var written := ItemWrite(WithName(d.(callID := c), Item(i, c), map[]), Item(i, c));
    assert written == d.(callID := c);
    assert s.calls[0 := written] == [written];
  }

  lemma RenamedByItem(i: string, c: string, status: string)
    requires GoodID(i) && GoodID(c) && i != c
    ensures Apply(Unnamed(i, status), map[], Named(i, c)) == RenamedAs(i, c, status)
  {
    hide Apply, Named;
    RenamedCall(CallOf(i, i, status), i, c);
  }

  lemma NamedFinds(r: Registry, i: string, c: string)
    requires GoodID(i) && GoodID(c) && Sound(r) && c in r.byID && r.byID[c] == 0
    ensures CallForEvent(r, Named(i, c)) == Some(0)
  {
    hide StringValue, Trimmed, OutputIndexOf, Named, EventItem, Item;
    NamedSays(i, c);
    ItemSays(i, c);
    FirstGood([i, ""]);
    FirstGood([c, i]);
  }

  lemma NamedFindsCall(i: string, c: string, status: string)
    requires GoodID(i) && GoodID(c)
    ensures CallForEvent(RenamedAs(i, c, status), Named(i, c)) == Some(0)
  {
    hide CallForEvent, Named;
    NamedFinds(RenamedAs(i, c, status), i, c);
  }

  // ----- the encoder -----

  function Tools1(i: string): Tools {
    Tools(map[], {i}, map[i := 0], map[], [i])
  }

  function Tools2(i: string, c: string): Tools {
    Tools(map[], {i, c}, map[i := 0, c := 0], map[], [i, c])
  }

  function Tools3(i: string, c: string): Tools {
    Tools2(i, c).(sent := map[c := 1])
  }

  /** Filing and flushing the renamed call sends its block, and leaves the item id unsent. */
  lemma FirstSending(e: Enc, i: string, c: string)
    requires i != c && e.open.None? && (e.tools == Tools2(i, c) || e.tools == Tools3(i, c))
    ensures InRange(e, [TheCall(i, c)])
    ensures IDsOf(FlushBlocks(e, [TheCall(i, c)], 0, CFG.shorten)) == [c]
    ensures FlushFrom(e, [TheCall(i, c)], 0, CFG.shorten).0.tools == Tools3(i, c)
  {
    var call := TheCall(i, c);
    var e1 := EmitTool(e, i, call, CFG.shorten).0;
    Emitting(e, i, c);
    assert FlushFrom(e1, [call], 2, CFG.shorten) == (e1, []);
    assert FlushBlocks(e1, [call], 2, CFG.shorten) == [];
    assert FlushFrom(e1, [call], 1, CFG.shorten) == (e1, []);
    assert FlushBlocks(e1, [call], 1, CFG.shorten) == [];
    assert FlushBlocks(e, [call], 0, CFG.shorten) == [ToolBlockOf(e, i, call, CFG.shorten)] + [];
  }

  lemma Emitting(e: Enc, i: string, c: string)
    requires i != c && (e.tools == Tools2(i, c) || e.tools == Tools3(i, c))
    ensures EmitTool(e, i, TheCall(i, c), CFG.shorten).0.tools == Tools3(i, c)
  {
    var call := TheCall(i, c);
    assert ValueOf(call) == "x";
    var t := EmitTool(e, i, call, CFG.shorten).0.tools;
    assert t.sent == map[c := 1];
    assert t.deltas == map[];
  }

  // ----- the run -----

  /** The encoder after it has sent text: in the text block or past it. */
  predicate AfterText(e: Enc, tools: Tools, inText: bool) {
    && e.started && e.textEmitted && e.tools == tools
    && (if inText then e.open.Some? && e.open.value.kind == TextBlock else e.open == None)
  }

  lemma TextOpens()
    ensures var (e, sent) := Events(NEW, TEXT, EMPTY, VIEW, "", CFG);
      AfterText(e, NEW.tools, true) && EventBlocks(Started(NEW), TEXT, EMPTY, CFG.shorten) == []
  {
    assert StringValue(TEXT.raw, "delta") == "t";
  }

  lemma CompletionWaits(e: Enc, i: string)
    requires AfterText(e, NEW.tools, true)
    ensures var r := Registry([TheCall(i, i)], map[i := 0], [], map[], 1);
      CallForEvent(r, DoneByItem(i)) == Some(0) ==>
      && AfterText(Events(e, DoneByItem(i), r, VIEW, "", CFG).0, Tools1(i), true)
      && EventBlocks(e, DoneByItem(i), r, CFG.shorten) == []
  {
    hide CallForEvent;
    assert RegisterTool(e, [TheCall(i, i)], 0).tools.order == [i];
  }

  lemma TextCloses(e: Enc, tools: Tools, r: Registry)
    requires AfterText(e, tools, true) && Sound(r) && InRange(e, r.calls)
    ensures AfterText(Events(e, TEXT_END, r, VIEW, "", CFG).0, tools, false)
    ensures EventBlocks(e, TEXT_END, r, CFG.shorten) == []
  {
    hide StringValue, SendText, CallForEvent;
  }

  lemma NamedCompletes(e: Enc, i: string, c: string)
    requires GoodID(i) && GoodID(c) && i != c && AfterText(e, Tools1(i), false)
    ensures var (e', sent) := Events(e, Named(i, c), Renamed(i, c), VIEW, "", CFG);
      && e'.tools == Tools3(i, c) && e'.open == None
      && IDsOf(EventBlocks(e, Named(i, c), Renamed(i, c), CFG.shorten)) == [c]
  {
    hide StringValue, CallForEvent, EventItem, FlushFrom, FlushBlocks, Named, Item, Trimmed;
    NamedFindsCall(i, c, "completed");
    NamedSays(i, c);
    ItemSays(i, c);
    var calls := [TheCall(i, c)];
    var e1 := MarkDone(RegisterTool(e, calls, 0), c);
    assert RegisterTool(e, calls, 0).tools.order == [i, c];
    assert e1.tools == Tools2(i, c);
    FirstSending(e1, i, c);
    FlushFromClosed(e1, calls, 0, CFG.shorten);
    assert "function_call" != "web_search_call" && "function_call" != "reasoning";
    assert CompleteTool(e, calls, 0, CFG.shorten) == FlushFrom(e1, calls, 0, CFG.shorten);
  }

  lemma FlushFromClosed(e: Enc, calls: seq<Call>, k: nat, shorten: string -> string)
    requires k <= |e.tools.order| && InRange(e, calls) && e.open == None
    ensures FlushFrom(e, calls, k, shorten).0.open == None
    decreases |e.tools.order| - k
  {
    if k < |e.tools.order| {
      var id := e.tools.order[k];
      if id in e.tools.sent || id !in e.tools.states {
        FlushFromClosed(e, calls, k + 1, shorten);
      } else if id in e.tools.done {
        FlushFromClosed(EmitTool(e, id, calls[e.tools.states[id]], shorten).0, calls, k + 1, shorten);
      }
    }
  }

  lemma FinalResends(e: Enc, i: string, c: string)
    requires i != c && e.tools == Tools3(i, c) && e.open == None
    ensures InRange(e, [TheCall(i, c)])
    ensures IDsOf(TerminalBlocks(e, [TheCall(i, c)], VIEW, CFG.shorten)) == [c]
  {
    hide FlushFrom, FlushBlocks, HydrateThinking, HydrateSearches, HydrateText, FlushTerminalTools;
    var calls := [TheCall(i, c)];
    assert ToolStreamStarted(e) by { assert c in e.tools.sent; }
    CompletedIsExecutable(i, c);
    var e0 := MarkDone(RegisterTool(e, calls, 0), c);
    assert e0.tools == Tools3(i, c);
    assert Settle(e, calls, VIEW.response, 0) == Settle(e0, calls, VIEW.response, 1) == e0;
    FirstSending(e0, i, c);
  }

  lemma CompletedIsExecutable(i: string, c: string)
    ensures Executable(TheCall(i, c), VIEW.response)
  {
    var s := "completed";
    assert Trimmed(s);
    assert ToLower(s) == s by {
      forall k | 0 <= k < |s| ensures LowerChar(s[k]) == s[k] {}
    }
  }

  /** One step of the run, as far as the tool blocks are concerned. */
  lemma RunStep(s: State, g: Reading, event: Event, reg: Registry, blocks: seq<Block>)
    requires Valid(s) && Tracks(s.enc, g) && reg == Apply(s.reg, map[], event)
    requires InRange(Started(s.enc), reg.calls) && blocks == SentBlocks(Started(s.enc), event, reg, VIEW, CFG.shorten)
    ensures var (s', sent) := Next(s, map[], CFG, Sent(event));
      && s'.reg == reg && s'.enc == Events(s.enc, event, reg, VIEW, "", CFG).0
      && IDsRead(Read(g, sent)) == IDsRead(g) + IDsOf(blocks)
      && (!IsTerminal(event) ==> Tracks(s'.enc, Read(g, sent)))
  {
    hide Apply, Events, Tracks, Inv, SentBlocks, IDsOf;
    NextSends(s, map[], CFG, Sent(event), g);
    NextTracks(s, map[], CFG, Sent(event), g);
    IDsOfAppend(ToolsRead(g), blocks);
  }

  /** The events of the run one after the other. */
  lemma EncodeOne(s: State, g: Reading, input: Input, rest: seq<Input>)
    requires Valid(s)
    ensures var (s', sent) := Next(s, map[], CFG, input);
      Read(g, Encode(s, map[], CFG, [input] + rest).1) == Read(Read(g, sent), Encode(s', map[], CFG, rest).1)
  {
    hide Next, Valid;
    var (s', sent) := Next(s, map[], CFG, input);
    assert ([input] + rest)[0] == input && ([input] + rest)[1..] == rest;
    ReadAppend(g, sent, Encode(s', map[], CFG, rest).1);
  }

  function BeforeNaming(i: string): Registry {
    Unnamed(i, "completed")
  }

  /** Where the run has got to: the registry, the tool maps, and whether the text is still open. */
  ghost predicate At(s: State, g: Reading, reg: Registry, tools: Tools, inText: bool) {
    Valid(s) && Tracks(s.enc, g) && s.reg == reg && AfterText(s.enc, tools, inText)
  }

  lemma Step1()
    ensures Valid(START)
    ensures var (s, sent) := Next(START, map[], CFG, Sent(TEXT));
      At(s, Read(Begin, sent), EMPTY, NEW.tools, true) && IDsRead(Read(Begin, sent)) == []
  {
    StartIsValid();
    TextSilent();
    SilentApply(EMPTY, TEXT);
    TextOpens();
    assert IDsRead(Begin) == [] && IDsOf([]) == [];
    assert !IsTerminal(TEXT);
    hide Apply, Events, Tracks, Valid, EventBlocks, IDsRead, IDsOf, Next;
    RunStep(START, Begin, TEXT, EMPTY, []);
  }

  lemma Step2(s: State, g: Reading, i: string)
    requires GoodID(i) && At(s, g, EMPTY, NEW.tools, true)
    ensures var (s', sent) := Next(s, map[], CFG, Sent(DoneByItem(i)));
      At(s', Read(g, sent), BeforeNaming(i), Tools1(i), true) && IDsRead(Read(g, sent)) == IDsRead(g)
  {
    assert IDsOf([]) == [];
    hide Apply, Events, Tracks, Valid, EventBlocks, IDsRead, IDsOf, Next, GoodID, CallForEvent, DoneByItem;
    IsDone(i);
    CompletedUnderItem(i);
    CompletionWaits(s.enc, i);
    assert Started(s.enc) == s.enc;
    RunStep(s, g, DoneByItem(i), BeforeNaming(i), []);
  }

  lemma Step3(s: State, g: Reading, i: string)
    requires GoodID(i) && At(s, g, BeforeNaming(i), Tools1(i), true)
    ensures var (s', sent) := Next(s, map[], CFG, Sent(TEXT_END));
      At(s', Read(g, sent), BeforeNaming(i), Tools1(i), false) && IDsRead(Read(g, sent)) == IDsRead(g)
  {
    assert IDsOf([]) == [];
    TextEndSilent();
    assert !IsTerminal(TEXT_END);
    hide Apply, Events, Tracks, Valid, EventBlocks, IDsRead, IDsOf, Next, GoodID, Silent;
    SilentApply(BeforeNaming(i), TEXT_END);
    TextCloses(s.enc, Tools1(i), BeforeNaming(i));
    assert Started(s.enc) == s.enc;
    RunStep(s, g, TEXT_END, BeforeNaming(i), []);
  }

  lemma Step4(s: State, g: Reading, i: string, c: string)
    requires GoodID(i) && GoodID(c) && i != c && At(s, g, BeforeNaming(i), Tools1(i), false)
    ensures var (s', sent) := Next(s, map[], CFG, Sent(Named(i, c)));
      && Valid(s') && Tracks(s'.enc, Read(g, sent)) && s'.reg == Renamed(i, c)
      && s'.enc.tools == Tools3(i, c) && s'.enc.open == None && IDsRead(Read(g, sent)) == IDsRead(g) + [c]
  {
    hide Apply, Events, Tracks, Valid, EventBlocks, IDsRead, IDsOf, Next, GoodID, Named;
    NamedKind(i, c);
    RenamedByItem(i, c, "completed");
    NamedCompletes(s.enc, i, c);
    assert Started(s.enc) == s.enc;
    RunStep(s, g, Named(i, c), Renamed(i, c), EventBlocks(s.enc, Named(i, c), Renamed(i, c), CFG.shorten));
  }

  lemma Step5(s: State, g: Reading, i: string, c: string)
    requires i != c && Valid(s) && Tracks(s.enc, g) && s.reg == Renamed(i, c)
    requires s.enc.tools == Tools3(i, c) && s.enc.open == None
    ensures IDsRead(Read(g, Next(s, map[], CFG, Sent(FINAL)).1)) == IDsRead(g) + [c]
  {
    FinalSilent();
    assert IsTerminal(FINAL);
    hide Apply, Events, Tracks, Valid, TerminalBlocks, IDsRead, IDsOf, Next, Silent;
    SilentApply(Renamed(i, c), FINAL);
    var e := Started(s.enc);
    assert e.tools == s.enc.tools && e.open == None;
    FinalResends(e, i, c);
    RunStep(s, g, FINAL, Renamed(i, c), TerminalBlocks(e, [TheCall(i, c)], VIEW, CFG.shorten));
  }

  lemma NamedKind(i: string, c: string)
    ensures Named(i, c).kind == ItemDone && !IsTerminal(Named(i, c))
  {}

  lemma EncodeNothing(s: State, g: Reading)
    requires Valid(s)
    ensures Read(g, Encode(s, map[], CFG, []).1) == g
  {}

  // What the rest of the run adds to the tool ids, from the last event back to the first.

  function Rest5(): seq<Input> {
    [Sent(FINAL)] + []
  }

  function Rest4(i: string, c: string): seq<Input> {
    [Sent(Named(i, c))] + Rest5()
  }

  function Rest3(i: string, c: string): seq<Input> {
    [Sent(TEXT_END)] + Rest4(i, c)
  }

  function Rest2(i: string, c: string): seq<Input> {
    [Sent(DoneByItem(i))] + Rest3(i, c)
  }

  function IDsAfter(s: State, g: Reading, inputs: seq<Input>): seq<string>
    requires Valid(s)
  {
    IDsRead(Read(g, Encode(s, map[], CFG, inputs).1))
  }

  lemma From5(s: State, g: Reading, i: string, c: string)
    requires i != c && Valid(s) && Tracks(s.enc, g) && s.reg == Renamed(i, c)
    requires s.enc.tools == Tools3(i, c) && s.enc.open == None
    ensures IDsAfter(s, g, Rest5()) == IDsRead(g) + [c]
  {
    hide Valid, Tracks, Next, Encode, IDsRead, Sent;
    Step5(s, g, i, c);
    EncodeOne(s, g, Sent(FINAL), []);
    EncodeNothing(Next(s, map[], CFG, Sent(FINAL)).0, Read(g, Next(s, map[], CFG, Sent(FINAL)).1));
  }

  lemma From4(s: State, g: Reading, i: string, c: string)
    requires GoodID(i) && GoodID(c) && i != c && At(s, g, BeforeNaming(i), Tools1(i), false)
    ensures IDsAfter(s, g, Rest4(i, c)) == IDsRead(g) + [c, c]
  {
    hide Valid, Tracks, Next, Encode, IDsRead, Sent, Rest5, GoodID, Named;
    Step4(s, g, i, c);
    var (s', sent) := Next(s, map[], CFG, Sent(Named(i, c)));
    EncodeOne(s, g, Sent(Named(i, c)), Rest5());
    From5(s', Read(g, sent), i, c);
    assert IDsRead(g) + [c] + [c] == IDsRead(g) + [c, c];
  }

  lemma From3(s: State, g: Reading, i: string, c: string)
    requires GoodID(i) && GoodID(c) && i != c && At(s, g, BeforeNaming(i), Tools1(i), true)
    ensures IDsAfter(s, g, Rest3(i, c)) == IDsRead(g) + [c, c]
  {
    hide Valid, Tracks, Next, Encode, IDsRead, Sent, Rest4, GoodID;
    Step3(s, g, i);
    EncodeOne(s, g, Sent(TEXT_END), Rest4(i, c));
    From4(Next(s, map[], CFG, Sent(TEXT_END)).0, Read(g, Next(s, map[], CFG, Sent(TEXT_END)).1), i, c);
  }

  lemma From2(s: State, g: Reading, i: string, c: string)
    requires GoodID(i) && GoodID(c) && i != c && At(s, g, EMPTY, NEW.tools, true)
    ensures IDsAfter(s, g, Rest2(i, c)) == IDsRead(g) + [c, c]
  {
    hide Valid, Tracks, Next, Encode, IDsRead, Sent, Rest3, GoodID, DoneByItem;
    Step2(s, g, i);
    EncodeOne(s, g, Sent(DoneByItem(i)), Rest3(i, c));
    From3(Next(s, map[], CFG, Sent(DoneByItem(i))).0, Read(g, Next(s, map[], CFG, Sent(DoneByItem(i))).1), i, c);
  }

  lemma RunShape(i: string, c: string)
    ensures CompleteRun(TheRun(i, c)) && TheRun(i, c) == [Sent(TEXT)] + Rest2(i, c)
  {}

  /** Whatever the two ids are, the run is complete and the one call in it has two blocks: it is
      renamed when it is done and not yet sent, no delta is buffered for it, and the encoder gets to it
      both before and at the terminal event. */
  lemma SentTwice(i: string, c: string)
    requires GoodID(i) && GoodID(c) && i != c
    ensures CompleteRun(TheRun(i, c)) && Valid(START)
    ensures IDsRead(Read(Begin, Encode(START, map[], CFG, TheRun(i, c)).1)) == [c, c]
  {
    RunShape(i, c);
    hide Valid, Tracks, Next, Encode, IDsRead, Sent, Rest2, GoodID, TheRun, CompleteRun;
    Step1();
    EncodeOne(START, Begin, Sent(TEXT), Rest2(i, c));
    From2(Next(START, map[], CFG, Sent(TEXT)).0, Read(Begin, Next(START, map[], CFG, Sent(TEXT)).1), i, c);
    assert [] + [c, c] == [c, c];
  }
}
