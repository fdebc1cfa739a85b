/** Whole runs of the accumulator and the stream encoder together: the message a client receives,
    which tool calls it contains, in what order, and with what input. */
module EncoderRuns {
  import opened Text
  import opened Json
  import opened ToolCalls
  import opened ToolCallLaws
  import opened Encoder
  import opened Messages
  import opened EncoderGrammar

  /** One upstream event with what the encoder reads from the accumulator after applying it. */
  datatype Input = Input(event: Event, view: View, reasoning: string)

  datatype State = State(reg: Registry, enc: Enc)

  const START: State := State(EMPTY, NEW)

  ghost predicate Valid(s: State): (ok: bool)
    ensures ok ==> Sound(s.reg)
  {
    Inv(s.reg) && InRange(s.enc, s.reg.calls)
  }

  // ----- stepping -----

  lemma FlushInRange(e: Enc, calls: seq<Call>, shorten: string -> string)
    requires InRange(e, calls)
    ensures InRange(FlushTools(e, calls, shorten).0, calls)
  {
    FlushKeepsStates(e, calls, 0, shorten);
  }

  lemma FinishInRange(e: Enc, calls: seq<Call>, view: View, cfg: Config)
    requires InRange(e, calls)
    ensures InRange(Finish(e, calls, view, cfg).0, calls)
  {
    hide Settle, FlushTerminalTools, HydrateThinking, HydrateSearches, HydrateText;
    var e0 := Settle(e, calls, view.response, 0);
    HydrateKeepsStates(e0, calls, view, cfg.shorten, ToolStreamStarted(e));
    var e4 := Hydrated(e, calls, view, cfg.shorten);
    TerminalFlushKeepsStates(e4, calls, cfg.shorten);
  }

  lemma TextToolsSame(e: Enc, event: Event, view: View, cfg: Config)
    ensures FinishText(e, event, view, cfg).0.tools == e.tools
  {
    hide SendText, StringValue;
    forall f: Enc, text: string ensures SendText(f, text).0.tools == f.tools {
      OpenSameTools(f, TextBlock, TextHead);
      SendTextTools(f, text);
    }
  }

  lemma SendTextTools(e: Enc, text: string)
    ensures SendText(e, text).0.tools == e.tools
  {}

  lemma ThinkingTools(e: Enc, thinking: string, signature: string)
    ensures CompleteThinking(e, thinking, signature).0.tools == e.tools
  {
    hide Blank;
  }

  lemma SearchTools(e: Enc, item: Fields, id: string, shorten: string -> string)
    ensures CompleteWebSearch(e, item, id, shorten).0.tools == e.tools
  {
    hide SearchOf;
  }

  /** What one non-terminal event does to the tool maps: only tool events touch them. */
  function ToolsAfter(e: Enc, event: Event, reg: Registry, shorten: string -> string): Tools
    requires Sound(reg) && InRange(e, reg.calls)
  {
    var call := CallForEvent(reg, event);
    if call.None? then e.tools
    else if event.kind == ArgumentsDelta || event.kind == InputDelta then
      ToolDelta(e, reg.calls, call.value, StringValue(event.raw, "delta")).tools
    else if CompletesTool(event) then CompleteTool(e, reg.calls, call.value, shorten).0.tools
    else e.tools
  }

  lemma DispatchTools(e: Enc, event: Event, reg: Registry, view: View, reasoning: string, cfg: Config)
    requires Sound(reg) && InRange(e, reg.calls) && !IsTerminal(event)
    ensures Dispatch(e, event, reg, view, reasoning, cfg).0.tools == ToolsAfter(e, event, reg, cfg.shorten)
  {
    hide CompleteThinking, CompleteWebSearch, CompleteTool, ToolDelta, SendText, FinishText, StringValue, EventItem, CallForEvent;
    var item := OrEmpty(EventItem(event));
    ThinkingTools(e, view.summary, SummarySignature(event));
    ThinkingTools(e, reasoning, StringValue(item, "encrypted_content"));
    SendTextTools(e, StringValue(event.raw, "delta"));
    TextToolsSame(e, event, view, cfg);
    SearchTools(e, item, cfg.fallbackID(event), cfg.shorten);
    if CallForEvent(reg, event).Some? { OnlyToolEventsHaveCalls(reg, event); }
  }

  lemma OnlyToolEventsHaveCalls(reg: Registry, event: Event)
    requires Sound(reg) && CallForEvent(reg, event).Some?
    ensures IsToolArgumentKind(event.kind) || event.kind == ItemAdded || event.kind == ItemDone
    ensures event.kind == ItemDone ==> !IsSearchItem(event) && !IsReasoningItem(event)
  {
    hide FindCall;
    assert "function_call" != "web_search_call" && "custom_tool_call" != "web_search_call";
    assert "function_call" != "reasoning" && "custom_tool_call" != "reasoning";
  }

  lemma ToolsInRange(e: Enc, event: Event, reg: Registry, shorten: string -> string)
    requires Sound(reg) && InRange(e, reg.calls)
    ensures forall id | id in ToolsAfter(e, event, reg, shorten).states :: ToolsAfter(e, event, reg, shorten).states[id] < |reg.calls|
  {
    hide CallForEvent, FlushTools, StringValue;
    var call := CallForEvent(reg, event);
    if call.Some? {
      var f := MarkDone(RegisterTool(e, reg.calls, call.value), reg.calls[call.value].callID);
      FlushInRange(f, reg.calls, shorten);
    }
  }

  lemma DispatchInRange(e: Enc, event: Event, reg: Registry, view: View, reasoning: string, cfg: Config)
    requires Sound(reg) && InRange(e, reg.calls)
    ensures InRange(Dispatch(e, event, reg, view, reasoning, cfg).0, reg.calls)
  {
    hide ToolsAfter;
    if IsTerminal(event) {
      hide Finish;
      FinishInRange(e, reg.calls, view, cfg);
    } else {
      hide Dispatch;
      DispatchTools(e, event, reg, view, reasoning, cfg);
      ToolsInRange(e, event, reg, cfg.shorten);
    }
  }

  /** Apply the event to the accumulator, then encode it. */
  function Next(s: State, aliases: Aliases, cfg: Config, input: Input): (out: (State, seq<Out>))
    requires Valid(s)
    ensures Valid(out.0) && InRange(s.enc, out.0.reg.calls)
  {
    var reg := Apply(s.reg, aliases, input.event);
    ApplyKeeps(s.reg, aliases, input.event);
    DispatchInRange(EnsureStarted(s.enc, input.view).0, input.event, reg, input.view, input.reasoning, cfg);
    var (e, sent) := Events(s.enc, input.event, reg, input.view, input.reasoning, cfg);
    (State(reg, e), sent)
  }

  function Encode(s: State, aliases: Aliases, cfg: Config, inputs: seq<Input>): (out: (State, seq<Out>))
    requires Valid(s)
    ensures Valid(out.0)
    decreases |inputs|
  {
    if inputs == [] then (s, [])
    else
      var (s1, sent) := Next(s, aliases, cfg, inputs[0]);
      var (s2, rest) := Encode(s1, aliases, cfg, inputs[1..]);
      (s2, sent + rest)
  }

  ghost predicate NoneTerminal(inputs: seq<Input>) {
    forall k | 0 <= k < |inputs| :: !IsTerminal(inputs[k].event)
  }

  /** The upstream runs the server encodes: the terminal event ends the loop. */
  ghost predicate CompleteRun(inputs: seq<Input>) {
    inputs != [] && NoneTerminal(inputs[..|inputs| - 1]) && IsTerminal(inputs[|inputs| - 1].event)
  }

  // ----- the message grammar, on every run -----

  /** The reader agrees with the encoder, which has sent nothing or is between two blocks or in a
      text block. */
  ghost predicate Tracks(e: Enc, g: Reading) {
    && Quiet(e)
    && (if e.started then InStep(e, g) else g == Begin && e.nextIndex == 0 && e.open == None)
  }

  lemma StartTracks(e: Enc, g: Reading, view: View)
    requires Tracks(e, g)
    ensures var (e1, start) := EnsureStarted(e, view);
      && InStep(e1, Read(g, start)) && Quiet(e1) && e1.tools == e.tools && e1.started
      && ToolsRead(Read(g, start)) == ToolsRead(g)
  {
    if !e.started { ReadOne(g, MessageStart(view.messageID, view.model)); }
  }

  /** The tool blocks a reader has seen. */
  function ToolsRead(g: Reading): seq<Block> {
    match g
    case Body(_, blocks, _) => ToolBlocks(blocks)
    case Ending(_, blocks, _) => ToolBlocks(blocks)
    case Whole(_, blocks, _) => ToolBlocks(blocks)
    case _ => []
  }

  /** The tool blocks one event sends. */
  function SentBlocks(e: Enc, event: Event, reg: Registry, view: View, shorten: string -> string): seq<Block>
    requires Sound(reg) && InRange(e, reg.calls)
  {
    if IsTerminal(event) then TerminalBlocks(e, reg.calls, view, shorten)
    else EventBlocks(e, event, reg, shorten)
  }

  /** The encoder once it has sent its message_start. */
  function Started(e: Enc): Enc {
    e.(started := true)
  }

  lemma EventTracks(e: Enc, g: Reading, event: Event, reg: Registry, view: View, reasoning: string, cfg: Config)
    requires Sound(reg) && InRange(e, reg.calls) && Tracks(e, g)
    ensures var (e', sent) := Events(e, event, reg, view, reasoning, cfg);
      && (if IsTerminal(event) then Read(g, sent).Whole? else Tracks(e', Read(g, sent)))
      && ToolsRead(Read(g, sent)) == ToolsRead(g) + SentBlocks(Started(e), event, reg, view, cfg.shorten)
  {
    hide Dispatch, Finish, InStep, EventBlocks, TerminalBlocks, ToolBlocks;
    var (e1, start) := EnsureStarted(e, view);
    StartTracks(e, g, view);
    assert e1 == Started(e);
    var g1 := Read(g, start);
    ReadyInStep(e1, g1);
    var (e2, body) := Dispatch(e1, event, reg, view, reasoning, cfg);
    ReadAppend(g, start, body);
    if IsTerminal(event) {
      FinishInStep(e1, g1, reg.calls, view, cfg);
      TerminalDispatch(e1, event, reg, view, reasoning, cfg);
    } else {
      DispatchInStep(e1, g1, event, reg, view, reasoning, cfg);
      DispatchStarted(e1, event, reg, view, reasoning, cfg);
      ReadyInStep(e2, Read(g1, body));
    }
  }

  lemma NextTracks(s: State, aliases: Aliases, cfg: Config, input: Input, g: Reading)
    requires Valid(s) && Tracks(s.enc, g)
    ensures var (s', sent) := Next(s, aliases, cfg, input);
      if IsTerminal(input.event) then Read(g, sent).Whole? else Tracks(s'.enc, Read(g, sent))
  {
    hide Apply, Events, Tracks, Inv;
    var reg := Apply(s.reg, aliases, input.event);
    assert Next(s, aliases, cfg, input).0.reg == reg;
    EventTracks(s.enc, g, input.event, reg, input.view, input.reasoning, cfg);
  }

  lemma TerminalDispatch(e: Enc, event: Event, reg: Registry, view: View, reasoning: string, cfg: Config)
    requires Sound(reg) && InRange(e, reg.calls) && IsTerminal(event)
    ensures Dispatch(e, event, reg, view, reasoning, cfg) == Finish(e, reg.calls, view, cfg)
  {
    hide Finish, CallForEvent;
  }

  lemma FlushStarted(e: Enc, calls: seq<Call>, k: nat, shorten: string -> string)
    requires k <= |e.tools.order| && InRange(e, calls)
    ensures FlushFrom(e, calls, k, shorten).0.started == e.started
    decreases |e.tools.order| - k
  {
    if k < |e.tools.order| {
      var id := e.tools.order[k];
      if id in e.tools.sent || id !in e.tools.states {
        FlushStarted(e, calls, k + 1, shorten);
      } else if id in e.tools.done {
        FlushStarted(EmitTool(e, id, calls[e.tools.states[id]], shorten).0, calls, k + 1, shorten);
      }
    }
  }

  lemma CompleteStarted(e: Enc, calls: seq<Call>, i: nat, shorten: string -> string)
    requires i < |calls| && InRange(e, calls)
    ensures CompleteTool(e, calls, i, shorten).0.started == e.started
  {
    hide FlushFrom;
    FlushStarted(MarkDone(RegisterTool(e, calls, i), calls[i].callID), calls, 0, shorten);
  }

  lemma BlocksStarted(e: Enc, event: Event, view: View, reasoning: string, cfg: Config)
    ensures CompleteThinking(e, view.summary, SummarySignature(event)).0.started == e.started
    ensures forall text :: SendText(e, text).0.started == e.started
    ensures forall item :: ReasoningDone(e, item, reasoning, cfg).0.started == e.started
    ensures forall item :: CompleteWebSearch(e, item, cfg.fallbackID(event), cfg.shorten).0.started == e.started
  {
    hide SearchOf, Blank, StringValue;
  }

  lemma TextStarted(e: Enc, event: Event, view: View, cfg: Config)
    ensures FinishText(e, event, view, cfg).0.started == e.started
  {
    hide StringValue;
  }

  lemma DispatchStarted(e: Enc, event: Event, reg: Registry, view: View, reasoning: string, cfg: Config)
    requires Sound(reg) && InRange(e, reg.calls) && e.started && !IsTerminal(event)
    ensures Dispatch(e, event, reg, view, reasoning, cfg).0.started
  {
    hide CompleteTool, CompleteThinking, SendText, ReasoningDone, CompleteWebSearch, FinishText, SummarySignature,
         StringValue, CallForEvent, EventItem;
    BlocksStarted(e, event, view, reasoning, cfg);
    TextStarted(e, event, view, cfg);
    var call := CallForEvent(reg, event);
    if call.Some? {
      CompleteStarted(e, reg.calls, call.value, cfg.shorten);
    }
  }

  lemma {:induction false} RunTracks(s: State, aliases: Aliases, cfg: Config, inputs: seq<Input>, g: Reading)
    requires Valid(s) && Tracks(s.enc, g) && NoneTerminal(inputs)
    ensures var (s', sent) := Encode(s, aliases, cfg, inputs); Tracks(s'.enc, Read(g, sent))
    decreases |inputs|
  {
    hide Tracks, Valid, Next;
    if inputs != [] {
      NextTracks(s, aliases, cfg, inputs[0], g);
      var (s1, sent) := Next(s, aliases, cfg, inputs[0]);
      RunTracks(s1, aliases, cfg, inputs[1..], Read(g, sent));
      ReadAppend(g, sent, Encode(s1, aliases, cfg, inputs[1..]).1);
    }
  }

  lemma {:induction false} RunSnoc(s: State, aliases: Aliases, cfg: Config, inputs: seq<Input>, last: Input)
    requires Valid(s)
    ensures var (s1, sent) := Encode(s, aliases, cfg, inputs);
      var (s2, end) := Next(s1, aliases, cfg, last);
      Encode(s, aliases, cfg, inputs + [last]) == (s2, sent + end)
    decreases |inputs|
  {
    hide Valid, Next;
    if inputs == [] {
      assert inputs + [last] == [last];
      assert Encode(Next(s, aliases, cfg, last).0, aliases, cfg, []) == (Next(s, aliases, cfg, last).0, []);
      assert [] + Next(s, aliases, cfg, last).1 == Next(s, aliases, cfg, last).1 == Next(s, aliases, cfg, last).1 + [];
    } else {
      assert (inputs + [last])[0] == inputs[0] && (inputs + [last])[1..] == inputs[1..] + [last];
      var (s1, sent) := Next(s, aliases, cfg, inputs[0]);
      RunSnoc(s1, aliases, cfg, inputs[1..], last);
      var (s2, rest) := Encode(s1, aliases, cfg, inputs[1..]);
      assert sent + (rest + Next(s2, aliases, cfg, last).1) == sent + rest + Next(s2, aliases, cfg, last).1;
    }
  }

  lemma StartIsValid()
    ensures Valid(START) && Tracks(START.enc, Begin)
  {}

  /** Whatever upstream sends before its terminal event and whatever the accumulator makes of it,
      the client receives one well-formed message: a start, blocks numbered 0, 1, 2, ... that are
      opened, filled and closed one after the other, a message delta and a stop. */
  lemma EveryRunIsWholeMessage(aliases: Aliases, cfg: Config, inputs: seq<Input>)
    requires CompleteRun(inputs)
    ensures Valid(START)
    ensures var trace := Encode(START, aliases, cfg, inputs).1;
      Read(Begin, trace).Whole? && WholeMessage(trace, Read(Begin, trace).blocks)
  {
    StartIsValid();
    hide Valid, Tracks, Next, Encode, WholeMessage;
    var before, last := inputs[..|inputs| - 1], inputs[|inputs| - 1];
    assert inputs == before + [last];
    RunTracks(START, aliases, cfg, before, Begin);
    RunSnoc(START, aliases, cfg, before, last);
    var (s1, sent) := Encode(START, aliases, cfg, before);
    NextTracks(s1, aliases, cfg, last, Read(Begin, sent));
    ReadAppend(Begin, sent, Next(s1, aliases, cfg, last).1);
    ReadIsWhole(Encode(START, aliases, cfg, inputs).1);
  }

  /** Between two events the encoder has no open block but a text block. */
  lemma OnlyTextStaysOpen(aliases: Aliases, cfg: Config, inputs: seq<Input>)
    requires NoneTerminal(inputs)
    ensures Valid(START) && Quiet(Encode(START, aliases, cfg, inputs).0.enc)
  {
    StartIsValid();
    hide Valid, Next, Encode, InStep;
    RunTracks(START, aliases, cfg, inputs, Begin);
  }

  // ----- an open text block has been written to -----

  /** A block that is open between two events holds text already. */
  predicate TextShown(e: Enc) {
    e.open.Some? ==> e.textEmitted
  }

  lemma ThinkingShown(e: Enc, thinking: string, signature: string)
    requires TextShown(e)
    ensures TextShown(CompleteThinking(e, thinking, signature).0)
  {
    hide Blank;
  }

  lemma TextDoneShown(e: Enc, event: Event, view: View, cfg: Config)
    requires TextShown(e)
    ensures TextShown(FinishText(e, event, view, cfg).0)
  {
    hide StringValue;
  }

  lemma {:induction false} FlushShown(e: Enc, calls: seq<Call>, k: nat, shorten: string -> string)
    requires k <= |e.tools.order| && InRange(e, calls) && e.open.None?
    ensures FlushFrom(e, calls, k, shorten).0.open.None?
    decreases |e.tools.order| - k
  {
    hide EmitTool;
    if k < |e.tools.order| {
      var id := e.tools.order[k];
      if id in e.tools.sent || id !in e.tools.states {
        FlushShown(e, calls, k + 1, shorten);
      } else if id in e.tools.done {
        EmitOut(e, id, calls[e.tools.states[id]], shorten);
        EmitKeepsOrder(e, id, calls[e.tools.states[id]], shorten);
        FlushShown(EmitTool(e, id, calls[e.tools.states[id]], shorten).0, calls, k + 1, shorten);
      }
    }
  }

  lemma CompleteShown(e: Enc, calls: seq<Call>, i: nat, shorten: string -> string)
    requires i < |calls| && InRange(e, calls) && TextShown(e)
    ensures TextShown(CompleteTool(e, calls, i, shorten).0)
  {
    hide FlushFrom;
    var f := MarkDone(RegisterTool(e, calls, i), calls[i].callID);
    if f.open.None? { FlushShown(f, calls, 0, shorten); }
  }

  lemma DispatchShown(e: Enc, event: Event, reg: Registry, view: View, reasoning: string, cfg: Config)
    requires Sound(reg) && InRange(e, reg.calls) && TextShown(e) && !IsTerminal(event)
    ensures TextShown(Dispatch(e, event, reg, view, reasoning, cfg).0)
  {
    hide CompleteTool, CompleteThinking, SearchOf, FinishText, SummarySignature, StringValue, CallForEvent, EventItem, OpenAs;
    var item := OrEmpty(EventItem(event));
    ThinkingShown(e, view.summary, SummarySignature(event));
    ThinkingShown(e, reasoning, StringValue(item, "encrypted_content"));
    TextDoneShown(e, event, view, cfg);
    var call := CallForEvent(reg, event);
    if call.Some? { CompleteShown(e, reg.calls, call.value, cfg.shorten); }
  }

  lemma NextShown(s: State, aliases: Aliases, cfg: Config, input: Input)
    requires Valid(s) && TextShown(s.enc) && !IsTerminal(input.event)
    ensures TextShown(Next(s, aliases, cfg, input).0.enc)
  {
    hide Apply, Dispatch, Inv;
    var e1 := EnsureStarted(s.enc, input.view).0;
    assert Next(s, aliases, cfg, input).0.reg == Apply(s.reg, aliases, input.event);
    DispatchShown(e1, input.event, Apply(s.reg, aliases, input.event), input.view, input.reasoning, cfg);
  }

  lemma {:induction false} RunShown(s: State, aliases: Aliases, cfg: Config, inputs: seq<Input>)
    requires Valid(s) && TextShown(s.enc) && NoneTerminal(inputs)
    ensures TextShown(Encode(s, aliases, cfg, inputs).0.enc)
    decreases |inputs|
  {
    hide Valid, Next, TextShown;
    if inputs != [] {
      NextShown(s, aliases, cfg, inputs[0]);
      RunShown(Next(s, aliases, cfg, inputs[0]).0, aliases, cfg, inputs[1..]);
    }
  }

  /** On every run, a block that is open between two events is a text block with text in it. */
  lemma TextIsShown(aliases: Aliases, cfg: Config, inputs: seq<Input>)
    requires NoneTerminal(inputs)
    ensures Valid(START) && TextShown(Encode(START, aliases, cfg, inputs).0.enc)
  {
    StartIsValid();
    hide Valid, Encode;
    RunShown(START, aliases, cfg, inputs);
  }
}
