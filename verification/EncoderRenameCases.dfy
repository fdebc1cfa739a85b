/** One run for each way in which renaming a filed call goes wrong: the call is sent under both ids, or
    is never sent. The third way, being sent twice under the new id, is EncoderResend.SentTwice. */
module EncoderRenameCases {
  import opened Text
  import opened Json
  import opened ToolCalls
  import opened ToolCallLaws
  import opened Encoder
  import opened Messages
  import opened EncoderGrammar
  import opened EncoderRuns
  import opened EncoderTools
  import opened EncoderCalls
  import opened EncoderResend

  // ----- following a run -----

  /** Where a run has got to, with no block open, and the tool ids sent so far. */
  ghost predicate Reaches(inputs: seq<Input>, reg: Registry, tools: Tools, ids: seq<string>) {
    Valid(START) && var (s, trace) := Encode(START, map[], CFG, inputs);
      && Tracks(s.enc, Read(Begin, trace)) && s.reg == reg && s.enc.tools == tools && s.enc.open == None
      && IDsRead(Read(Begin, trace)) == ids
  }

  /** What one more event does, whatever the rest of the encoder's state is. */
  ghost predicate Leads(tools: Tools, event: Event, reg: Registry, tools': Tools, more: seq<string>) {
    forall e: Enc | e.tools == tools && e.open == None :: LeadsFrom(e, event, reg, tools', more)
  }

  ghost predicate LeadsFrom(e: Enc, event: Event, reg: Registry, tools': Tools, more: seq<string>) {
    && Sound(reg) && InRange(e, reg.calls)
    && Dispatch(e, event, reg, VIEW, "", CFG).0.tools == tools' && Dispatch(e, event, reg, VIEW, "", CFG).0.open == None
    && IDsOf(EventBlocks(e, event, reg, CFG.shorten)) == more
  }

  lemma OneMoreEvent(inputs: seq<Input>, event: Event, reg: Registry, tools: Tools, ids: seq<string>,
                     reg': Registry, tools': Tools, more: seq<string>)
    requires Reaches(inputs, reg, tools, ids) && Sound(reg) && reg' == Apply(reg, map[], event)
    requires !IsTerminal(event) && Leads(tools, event, reg', tools', more)
    ensures Reaches(inputs + [Sent(event)], reg', tools', ids + more)
  {
    hide Apply, Dispatch, EventBlocks, Encode, Next, Tracks, Inv, IDsRead, IDsOf, InRange;
    var (s, trace) := Encode(START, map[], CFG, inputs);
    var g := Read(Begin, trace);
    var e := Started(s.enc);
    assert LeadsFrom(e, event, reg', tools', more);
    EventsStart(s.enc, event, reg');
    RunStep(s, g, event, reg', EventBlocks(e, event, reg', CFG.shorten));
    RunSnoc(START, map[], CFG, inputs, Sent(event));
    ReadAppend(Begin, trace, Next(s, map[], CFG, Sent(event)).1);
  }

  lemma EventsStart(e: Enc, event: Event, reg: Registry)
    requires Sound(reg) && InRange(e, reg.calls)
    ensures InRange(Started(e), reg.calls)
    ensures Events(e, event, reg, VIEW, "", CFG).0 == Dispatch(Started(e), event, reg, VIEW, "", CFG).0
  {
    hide Dispatch;
    StartedIs(e, VIEW);
  }

  /** What the terminal event sends, whatever the rest of the encoder's state is. */
  ghost predicate Ends(tools: Tools, reg: Registry, more: seq<string>) {
    forall e: Enc | e.tools == tools && e.open == None :: EndsFrom(e, reg, more)
  }

  ghost predicate EndsFrom(e: Enc, reg: Registry, more: seq<string>) {
    InRange(e, reg.calls) && IDsOf(TerminalBlocks(e, reg.calls, VIEW, CFG.shorten)) == more
  }

  /** The ids of the whole message, after the terminal event of the run. */
  lemma LastEvent(inputs: seq<Input>, reg: Registry, tools: Tools, ids: seq<string>, more: seq<string>)
    requires Reaches(inputs, reg, tools, ids) && Sound(reg) && Ends(tools, reg, more)
    ensures IDsRead(Read(Begin, Encode(START, map[], CFG, inputs + [Sent(FINAL)]).1)) == ids + more
  {
    hide *;
    FinalApplies(reg);
    ReachedState(inputs, reg, tools, ids);
    var (s, trace) := Encode(START, map[], CFG, inputs);
    var e := Started(s.enc);
    EndsAt(e, tools, reg, more);
    EndedIDs(e, reg);
    RunStep(s, Read(Begin, trace), FINAL, reg, TerminalBlocks(e, reg.calls, VIEW, CFG.shorten));
    RunSnoc(START, map[], CFG, inputs, Sent(FINAL));
    ReadAppend(Begin, trace, Next(s, map[], CFG, Sent(FINAL)).1);
  }

  lemma FinalApplies(reg: Registry)
    requires Sound(reg)
    ensures Apply(reg, map[], FINAL) == reg && IsTerminal(FINAL)
  {
    FinalSilent();
    SilentApply(reg, FINAL);
  }

  lemma ReachedState(inputs: seq<Input>, reg: Registry, tools: Tools, ids: seq<string>)
    requires Reaches(inputs, reg, tools, ids)
    ensures Valid(START)
    ensures var (s, trace) := Encode(START, map[], CFG, inputs);
      && Tracks(s.enc, Read(Begin, trace)) && s.reg == reg && IDsRead(Read(Begin, trace)) == ids
      && Started(s.enc).tools == tools && Started(s.enc).open == None
  {
    hide Valid, Encode, Tracks;
  }

  lemma EndsAt(e: Enc, tools: Tools, reg: Registry, more: seq<string>)
    requires Ends(tools, reg, more) && e.tools == tools && e.open == None
    ensures InRange(e, reg.calls) && IDsOf(TerminalBlocks(e, reg.calls, VIEW, CFG.shorten)) == more
  {
    hide InRange, TerminalBlocks;
    assert EndsFrom(e, reg, more);
  }

  lemma EndedIDs(e: Enc, reg: Registry)
    requires Sound(reg) && InRange(e, reg.calls)
    ensures SentBlocks(e, FINAL, reg, VIEW, CFG.shorten) == TerminalBlocks(e, reg.calls, VIEW, CFG.shorten)
  {
    assert IsTerminal(FINAL);
    hide TerminalBlocks;
  }

  lemma AtStart()
    ensures Reaches([], EMPTY, NEW.tools, [])
  {
    StartIsValid();
    assert IDsRead(Begin) == [];
  }

  /** An event that completes the only call. */
  lemma CompletionLeads(e: Enc, event: Event, reg: Registry, f: Tools, tools': Tools, more: seq<string>)
    requires Sound(reg) && InRange(e, reg.calls) && e.open == None
    requires CompletesTool(event) && CallForEvent(reg, event) == Some(0)
    requires Completing(e, reg.calls, 0).tools == f
    requires forall d: Enc | d.tools == f && d.open == None ::
      InRange(d, reg.calls) && FlushFrom(d, reg.calls, 0, CFG.shorten).0.tools == tools'
      && IDsOf(FlushBlocks(d, reg.calls, 0, CFG.shorten)) == more
    ensures LeadsFrom(e, event, reg, tools', more)
  {
    hide CallForEvent, FlushFrom, FlushBlocks, StringValue, EventItem, IDsOf;
    CompleteToolIs(e, reg.calls, 0, CFG.shorten);
    FlushShown(Completing(e, reg.calls, 0), reg.calls, 0, CFG.shorten);
    assert event.kind == ItemDone || event.kind == ArgumentsDone || event.kind == InputDone;
  }

  // ----- sent under both ids -----

  /** The call is completed under its item id while no text is open, and sent; then it gets its call
      id, and is sent again. */
  function BothRun(i: string, c: string): seq<Input> {
    [] + [Sent(DoneByItem(i))] + [Sent(Named(i, c))] + [Sent(FINAL)]
  }

  function SentOnce(i: string): Tools {
    Tools1(i).(sent := map[i := 1])
  }

  function SentBoth(i: string, c: string): Tools {
    Tools2(i, c).(sent := map[i := 1, c := 1])
  }

  lemma SendsFirst(d: Enc, i: string)
    requires d.tools == Tools1(i) && d.open == None
    ensures var calls := [TheCall(i, i)];
      && InRange(d, calls) && FlushFrom(d, calls, 0, CFG.shorten).0.tools == SentOnce(i)
      && IDsOf(FlushBlocks(d, calls, 0, CFG.shorten)) == [i]
  {
    var call := TheCall(i, i);
    var d1 := EmitTool(d, i, call, CFG.shorten).0;
    assert ValueOf(call) == "x";
    assert d1.tools.sent == map[i := 1] && d1.tools.deltas == map[];
    assert FlushFrom(d1, [call], 1, CFG.shorten) == (d1, []);
    assert FlushBlocks(d1, [call], 1, CFG.shorten) == [];
    assert FlushBlocks(d, [call], 0, CFG.shorten) == [ToolBlockOf(d, i, call, CFG.shorten)] + [];
  }

  lemma SendsSecond(d: Enc, i: string, c: string)
    requires i != c && d.tools == Tools2(i, c).(sent := map[i := 1]) && d.open == None
    ensures var calls := [TheCall(i, c)];
      && InRange(d, calls) && FlushFrom(d, calls, 0, CFG.shorten).0.tools == SentBoth(i, c)
      && IDsOf(FlushBlocks(d, calls, 0, CFG.shorten)) == [c]
  {
    var call := TheCall(i, c);
    var d1 := EmitTool(d, c, call, CFG.shorten).0;
    assert ValueOf(call) == "x";
    assert d1.tools.sent == map[i := 1, c := 1] && d1.tools.deltas == map[];
    assert FlushFrom(d1, [call], 2, CFG.shorten) == (d1, []);
    assert FlushBlocks(d1, [call], 2, CFG.shorten) == [];
    assert FlushBlocks(d, [call], 1, CFG.shorten) == [ToolBlockOf(d, c, call, CFG.shorten)] + [];
    assert FlushFrom(d, [call], 0, CFG.shorten) == FlushFrom(d, [call], 1, CFG.shorten);
  }

  lemma SendsNoMore(d: Enc, i: string, c: string)
    requires i != c && d.tools == SentBoth(i, c)
    ensures InRange(d, [TheCall(i, c)])
    ensures FlushBlocks(d, [TheCall(i, c)], 0, CFG.shorten) == []
  {
    assert FlushBlocks(d, [TheCall(i, c)], 2, CFG.shorten) == [];
    assert FlushBlocks(d, [TheCall(i, c)], 1, CFG.shorten) == [];
  }

  lemma FirstFrom(e: Enc, i: string)
    requires GoodID(i) && e.tools == NEW.tools && e.open == None
    ensures LeadsFrom(e, DoneByItem(i), BeforeNaming(i), SentOnce(i), [i])
  {
    CompletedUnderItem(i);
    IsDone(i);
    var reg := BeforeNaming(i);
    hide DoneByItem, CallForEvent, Apply, IDsOf, GoodID, FlushFrom, FlushBlocks, LeadsFrom;
    forall d: Enc | d.tools == Tools1(i) && d.open == None
      ensures InRange(d, reg.calls) && FlushFrom(d, reg.calls, 0, CFG.shorten).0.tools == SentOnce(i)
        && IDsOf(FlushBlocks(d, reg.calls, 0, CFG.shorten)) == [i]
    {
      SendsFirst(d, i);
    }
    assert RegisterTool(e, reg.calls, 0).tools.order == [i];
    assert Completing(e, reg.calls, 0).tools == Tools1(i);
    CompletionLeads(e, DoneByItem(i), reg, Tools1(i), SentOnce(i), [i]);
  }

  lemma FirstLeads(i: string)
    requires GoodID(i)
    ensures Leads(NEW.tools, DoneByItem(i), BeforeNaming(i), SentOnce(i), [i])
  {
    hide LeadsFrom, GoodID, DoneByItem, BeforeNaming;
    forall e: Enc | e.tools == NEW.tools && e.open == None ensures LeadsFrom(e, DoneByItem(i), BeforeNaming(i), SentOnce(i), [i]) {
      FirstFrom(e, i);
    }
  }

  lemma BothFirst(i: string)
    requires GoodID(i)
    ensures Reaches([] + [Sent(DoneByItem(i))], BeforeNaming(i), SentOnce(i), [i])
  {
    CompletedUnderItem(i);
    IsDone(i);
    assert !IsTerminal(DoneByItem(i)) && Sound(EMPTY);
    hide *;
    AtStart();
    FirstLeads(i);
    OneMoreEvent([], DoneByItem(i), EMPTY, NEW.tools, [], BeforeNaming(i), SentOnce(i), [i]);
    assert [] + [i] == [i];
  }

  lemma NamedCompletesTool(i: string, c: string)
    ensures CompletesTool(Named(i, c)) && !IsTerminal(Named(i, c))
  {
    NamedSays(i, c);
    ItemSays(i, c);
    hide StringValue, EventItem, Named, Item;
    assert "function_call" != "web_search_call" && "function_call" != "reasoning";
  }

  lemma SecondFrom(e: Enc, i: string, c: string)
    requires GoodID(i) && GoodID(c) && i != c && e.tools == SentOnce(i) && e.open == None
    ensures LeadsFrom(e, Named(i, c), Renamed(i, c), SentBoth(i, c), [c])
  {
    NamedFindsCall(i, c, "completed");
    NamedCompletesTool(i, c);
    var reg, f := Renamed(i, c), Tools2(i, c).(sent := map[i := 1]);
    hide Named, CallForEvent, Apply, IDsOf, GoodID, FlushFrom, FlushBlocks, LeadsFrom;
    forall d: Enc | d.tools == f && d.open == None
      ensures InRange(d, reg.calls) && FlushFrom(d, reg.calls, 0, CFG.shorten).0.tools == SentBoth(i, c)
        && IDsOf(FlushBlocks(d, reg.calls, 0, CFG.shorten)) == [c]
    {
      SendsSecond(d, i, c);
    }
    CompletingBoth(e, i, c);
    CompletionLeads(e, Named(i, c), reg, f, SentBoth(i, c), [c]);
  }

  lemma CompletingBoth(e: Enc, i: string, c: string)
    requires i != c && e.tools == SentOnce(i)
    ensures Completing(e, Renamed(i, c).calls, 0).tools == Tools2(i, c).(sent := map[i := 1])
  {
    assert RegisterTool(e, Renamed(i, c).calls, 0).tools.order == [i, c];
  }

  lemma SecondLeads(i: string, c: string)
    requires GoodID(i) && GoodID(c) && i != c
    ensures Leads(SentOnce(i), Named(i, c), Renamed(i, c), SentBoth(i, c), [c])
  {
    hide LeadsFrom, GoodID, Named, Renamed;
    forall e: Enc | e.tools == SentOnce(i) && e.open == None ensures LeadsFrom(e, Named(i, c), Renamed(i, c), SentBoth(i, c), [c]) {
      SecondFrom(e, i, c);
    }
  }

  lemma UnnamedSound(i: string, c: string, status: string)
    ensures Sound(Unnamed(i, status)) && Sound(RenamedAs(i, c, status))
  {}

  lemma Completed(i: string, c: string)
    ensures BeforeNaming(i) == Unnamed(i, "completed") && Renamed(i, c) == RenamedAs(i, c, "completed")
  {}

  lemma BothSecond(inputs: seq<Input>, i: string, c: string)
    requires GoodID(i) && GoodID(c) && i != c && Reaches(inputs, BeforeNaming(i), SentOnce(i), [i])
    ensures Reaches(inputs + [Sent(Named(i, c))], Renamed(i, c), SentBoth(i, c), [i, c])
  {
    hide *;
    UnnamedSound(i, c, "completed");
    RenamedByItem(i, c, "completed");
    Completed(i, c);
    NamedCompletesTool(i, c);
    SecondLeads(i, c);
    OneMoreEvent(inputs, Named(i, c), BeforeNaming(i), SentOnce(i), [i], Renamed(i, c), SentBoth(i, c), [c]);
    assert [i] + [c] == [i, c];
  }

  lemma BothLast(e: Enc, i: string, c: string)
    requires i != c && e.tools == SentBoth(i, c) && e.open == None
    ensures InRange(e, [TheCall(i, c)])
    ensures IDsOf(TerminalBlocks(e, [TheCall(i, c)], VIEW, CFG.shorten)) == []
  {
    hide FlushFrom, FlushBlocks, HydrateThinking, HydrateSearches, HydrateText, FlushTerminalTools;
    var calls := [TheCall(i, c)];
    assert ToolStreamStarted(e) by { assert c in e.tools.sent; }
    CompletedIsExecutable(i, c);
    var e0 := MarkDone(RegisterTool(e, calls, 0), c);
    assert e0.tools == SentBoth(i, c);
    assert Settle(e, calls, VIEW.response, 0) == Settle(e0, calls, VIEW.response, 1) == e0;
    SendsNoMore(e0, i, c);
  }

  lemma BothEnds(i: string, c: string)
    requires i != c
    ensures Ends(SentBoth(i, c), Renamed(i, c), [])
  {
    hide IDsOf, TerminalBlocks, InRange;
    forall e: Enc | e.tools == SentBoth(i, c) && e.open == None ensures EndsFrom(e, Renamed(i, c), []) {
      BothLast(e, i, c);
    }
  }

  lemma BothIsComplete(i: string, c: string)
    ensures CompleteRun(BothRun(i, c))
  {
    IsDone(i);
    NamedKind(i, c);
  }

  /** A call that has been sent under the id it is then renamed from is sent again under the new one,
      whatever the two ids are. */
  lemma SentUnderBothIDs(i: string, c: string)
    requires GoodID(i) && GoodID(c) && i != c
    ensures CompleteRun(BothRun(i, c)) && Valid(START)
    ensures IDsRead(Read(Begin, Encode(START, map[], CFG, BothRun(i, c)).1)) == [i, c]
  {
    UnnamedSound(i, c, "completed");
    assert BothRun(i, c) == [] + [Sent(DoneByItem(i))] + [Sent(Named(i, c))] + [Sent(FINAL)];
    hide *;
    Completed(i, c);
    StartIsValid();
    BothIsComplete(i, c);
    BothFirst(i);
    BothSecond([] + [Sent(DoneByItem(i))], i, c);
    BothEnds(i, c);
    LastEvent([] + [Sent(DoneByItem(i))] + [Sent(Named(i, c))], Renamed(i, c), SentBoth(i, c), [i, c], []);
    assert [i, c] + [] == [i, c];
  }

  // ----- never sent -----

  /** response.function_call_arguments.delta that names its call by the item id alone. */
  function DeltaByItem(i: string): Event {
    Event(ArgumentsDelta, map["item_id" := Str(i), "delta" := Str("x")])
  }

  /** The call streams a delta under its item id, and gets its call id when it is completed. */
  function NeverRun(i: string, c: string): seq<Input> {
    [] + [Sent(DeltaByItem(i))] + [Sent(Named(i, c))] + [Sent(FINAL)]
  }

  function Growing(i: string): Tools {
    Tools(map[], {}, map[i := 0], map[i := ["x"]], [i])
  }

  function Stuck(i: string, c: string): Tools {
    Tools(map[], {c}, map[i := 0, c := 0], map[i := ["x"]], [i, c])
  }

  lemma DeltaByItemSays(i: string)
    ensures var raw := DeltaByItem(i).raw;
      && StringValue(raw, "item_id") == i && StringValue(raw, "call_id") == "" && StringValue(raw, "name") == ""
      && StringValue(raw, "delta") == "x" && OutputIndexOf(raw) == -1
    ensures PlainArguments(DeltaByItem(i)) && DeltaByItem(i).kind == ArgumentsDelta
    ensures GoodID(i) ==> ArgumentIDs(DeltaByItem(i)) == (i, i)
  {
    var raw := DeltaByItem(i).raw;
    assert raw.Keys == {"item_id", "delta"};
    NothingElse(DeltaByItem(i));
    if GoodID(i) {
      assert ["", i][1..] == [i];
      FirstGood([i]);
    }
  }

  lemma GrowsUnderItem(i: string)
    requires GoodID(i)
    ensures Apply(EMPTY, map[], DeltaByItem(i)) == Unnamed(i, "in_progress")
    ensures CallForEvent(Unnamed(i, "in_progress"), DeltaByItem(i)) == Some(0)
  {
    hide StringValue, ArgumentIDs, Trimmed, EnsureCall, Apply, OutputIndexOf, GoodID, DeltaByItem;
    var event := DeltaByItem(i);
    DeltaByItemSays(i);
    PlainApply(EMPTY, map[], event);
    OnlyCall(i);
    var r := Registry([NewCall(i, i, 0)], map[i := 0], [], map[], 1);
    var written := ArgumentWrite(WithName(NewCall(i, i, 0), event.raw, map[]), event);
    assert "" + "x" == "x";
    assert written == CallOf(i, i, "in_progress");
    assert ApplyToolArgumentEvent(EMPTY, map[], event) == WriteCall(r, 0, written);
    assert r.calls[0 := written] == [written];
  }

  lemma GrowingFrom(e: Enc, i: string)
    requires GoodID(i) && e.tools == NEW.tools && e.open == None
    ensures LeadsFrom(e, DeltaByItem(i), Unnamed(i, "in_progress"), Growing(i), [])
  {
    GrowsUnderItem(i);
    DeltaByItemSays(i);
    DeltaKindsDoNotComplete(DeltaByItem(i));
    NoIDs();
    var reg := Unnamed(i, "in_progress");
    hide DeltaByItem, CallForEvent, Apply, IDsOf, GoodID, CompletesTool, StringValue;
    assert RegisterTool(e, reg.calls, 0).tools.order == [i];
    assert BufferedDeltas(RegisterTool(e, reg.calls, 0), i) + ["x"] == ["x"];
    assert ToolDelta(e, reg.calls, 0, "x").tools == Growing(i);
  }

  lemma GrowingLeads(i: string)
    requires GoodID(i)
    ensures Leads(NEW.tools, DeltaByItem(i), Unnamed(i, "in_progress"), Growing(i), [])
  {
    hide LeadsFrom, GoodID, DeltaByItem, Unnamed;
    forall e: Enc | e.tools == NEW.tools && e.open == None ensures LeadsFrom(e, DeltaByItem(i), Unnamed(i, "in_progress"), Growing(i), []) {
      GrowingFrom(e, i);
    }
  }

  lemma NeverFirst(i: string)
    requires GoodID(i)
    ensures Reaches([] + [Sent(DeltaByItem(i))], Unnamed(i, "in_progress"), Growing(i), [])
  {
    GrowsUnderItem(i);
    DeltaByItemSays(i);
    assert !IsTerminal(DeltaByItem(i)) && Sound(EMPTY);
    hide *;
    AtStart();
    GrowingLeads(i);
    var none: seq<string> := [];
    OneMoreEvent([], DeltaByItem(i), EMPTY, NEW.tools, none, Unnamed(i, "in_progress"), Growing(i), none);
    assert none + none == none;
  }

  lemma StuckSendsNothing(d: Enc, i: string, c: string)
    requires i != c && d.tools == Stuck(i, c)
    ensures var calls := [CallOf(i, c, "in_progress")];
      InRange(d, calls) && FlushFrom(d, calls, 0, CFG.shorten) == (d, []) && FlushBlocks(d, calls, 0, CFG.shorten) == []
  {}

  lemma StuckFrom(e: Enc, i: string, c: string)
    requires GoodID(i) && GoodID(c) && i != c && e.tools == Growing(i) && e.open == None
    ensures LeadsFrom(e, Named(i, c), RenamedAs(i, c, "in_progress"), Stuck(i, c), [])
  {
    NamedFindsCall(i, c, "in_progress");
    NamedCompletesTool(i, c);
    NoIDs();
    var reg, f := RenamedAs(i, c, "in_progress"), Stuck(i, c);
    hide Named, CallForEvent, Apply, IDsOf, GoodID, FlushFrom, FlushBlocks, LeadsFrom;
    forall d: Enc | d.tools == f && d.open == None
      ensures InRange(d, reg.calls) && FlushFrom(d, reg.calls, 0, CFG.shorten).0.tools == f
        && IDsOf(FlushBlocks(d, reg.calls, 0, CFG.shorten)) == []
    {
      StuckSendsNothing(d, i, c);
    }
    CompletingStuck(e, i, c);
    CompletionLeads(e, Named(i, c), reg, f, f, []);
  }

  lemma CompletingStuck(e: Enc, i: string, c: string)
    requires i != c && e.tools == Growing(i)
    ensures Completing(e, RenamedAs(i, c, "in_progress").calls, 0).tools == Stuck(i, c)
  {
    assert RegisterTool(e, RenamedAs(i, c, "in_progress").calls, 0).tools.order == [i, c];
  }

  lemma StuckLeads(i: string, c: string)
    requires GoodID(i) && GoodID(c) && i != c
    ensures Leads(Growing(i), Named(i, c), RenamedAs(i, c, "in_progress"), Stuck(i, c), [])
  {
    hide LeadsFrom, GoodID, Named, RenamedAs;
    forall e: Enc | e.tools == Growing(i) && e.open == None
      ensures LeadsFrom(e, Named(i, c), RenamedAs(i, c, "in_progress"), Stuck(i, c), [])
    {
      StuckFrom(e, i, c);
    }
  }

  lemma NeverSecond(inputs: seq<Input>, i: string, c: string)
    requires GoodID(i) && GoodID(c) && i != c && Reaches(inputs, Unnamed(i, "in_progress"), Growing(i), [])
    ensures Reaches(inputs + [Sent(Named(i, c))], RenamedAs(i, c, "in_progress"), Stuck(i, c), [])
  {
    hide *;
    UnnamedSound(i, c, "in_progress");
    RenamedByItem(i, c, "in_progress");
    NamedCompletesTool(i, c);
    StuckLeads(i, c);
    var none: seq<string> := [];
    OneMoreEvent(inputs, Named(i, c), Unnamed(i, "in_progress"), Growing(i), none, RenamedAs(i, c, "in_progress"), Stuck(i, c), none);
    assert none + none == none;
  }

  lemma GrowingIsExecutable(i: string, c: string)
    ensures Executable(CallOf(i, c, "in_progress"), VIEW.response)
  {
    var s := "in_progress";
    assert Trimmed(s) && Trimmed("");
    assert ToLower(s) == s by {
      forall k | 0 <= k < |s| ensures LowerChar(s[k]) == s[k] {}
    }
    assert StringValue(VIEW.response, "status") == "" && ToLower("") == "";
  }

  lemma NeverLast(e: Enc, i: string, c: string)
    requires i != c && e.tools == Stuck(i, c) && e.open == None
    ensures InRange(e, [CallOf(i, c, "in_progress")])
    ensures IDsOf(TerminalBlocks(e, [CallOf(i, c, "in_progress")], VIEW, CFG.shorten)) == []
  {
    hide FlushFrom, FlushBlocks, HydrateThinking, HydrateSearches, HydrateText, FlushTerminalTools;
    var calls := [CallOf(i, c, "in_progress")];
    assert ToolStreamStarted(e) by { assert i in e.tools.deltas; }
    GrowingIsExecutable(i, c);
    var e0 := MarkDone(RegisterTool(e, calls, 0), c);
    assert e0.tools == Stuck(i, c);
    assert Settle(e, calls, VIEW.response, 0) == Settle(e0, calls, VIEW.response, 1) == e0;
    StuckSendsNothing(e0, i, c);
  }

  lemma NeverEnds(i: string, c: string)
    requires i != c
    ensures Ends(Stuck(i, c), RenamedAs(i, c, "in_progress"), [])
  {
    hide IDsOf, TerminalBlocks, InRange;
    forall e: Enc | e.tools == Stuck(i, c) && e.open == None ensures EndsFrom(e, RenamedAs(i, c, "in_progress"), []) {
      NeverLast(e, i, c);
    }
  }

  lemma NeverIsComplete(i: string, c: string)
    ensures CompleteRun(NeverRun(i, c))
  {
    DeltaByItemSays(i);
    NamedKind(i, c);
  }

  /** A call that is renamed while its tool is not done is never sent, although it is completed and
      executable, whatever the two ids are. */
  lemma NeverSent(i: string, c: string)
    requires GoodID(i) && GoodID(c) && i != c
    ensures CompleteRun(NeverRun(i, c)) && Valid(START)
    ensures IDsRead(Read(Begin, Encode(START, map[], CFG, NeverRun(i, c)).1)) == []
    ensures Executable(CallOf(i, c, "in_progress"), VIEW.response)
  {
    assert NeverRun(i, c) == [] + [Sent(DeltaByItem(i))] + [Sent(Named(i, c))] + [Sent(FINAL)];
    hide *;
    GrowingIsExecutable(i, c);
    UnnamedSound(i, c, "in_progress");
    StartIsValid();
    NeverIsComplete(i, c);
    NeverFirst(i);
    NeverSecond([] + [Sent(DeltaByItem(i))], i, c);
    NeverEnds(i, c);
    var none: seq<string> := [];
    LastEvent([] + [Sent(DeltaByItem(i))] + [Sent(Named(i, c))], RenamedAs(i, c, "in_progress"), Stuck(i, c), none, none);
    assert none + none == none;
  }
}
