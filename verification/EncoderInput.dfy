/** The input of a streamed tool block: when upstream never contradicts what it has streamed, the
    pieces of every tool block put together are the value the accumulator holds for the call. */
module EncoderInput {
  import opened Text
  import opened Json
  import opened ToolCalls
  import opened ToolCallLaws
  import opened Encoder
  import opened Messages
  import opened EncoderGrammar
  import opened EncoderRuns
  import opened EncoderTools

  /** What upstream has streamed for each call: the concatenation of its deltas. */
  type Streamed = map<nat, string>

  function StreamedFor(st: Streamed, i: nat): string {
    if i in st then st[i] else ""
  }

  function StreamedAfter(st: Streamed, reg: Registry, event: Event): Streamed
    requires Sound(reg)
  {
    var call := CallForEvent(reg, event);
    if (event.kind == ArgumentsDelta || event.kind == InputDelta) && call.Some?
    then st[call.value := StreamedFor(st, call.value) + StringValue(event.raw, "delta")]
    else st
  }

  /** Every accumulated value begins with what has been streamed for the call. */
  ghost predicate Extends(calls: seq<Call>, st: Streamed) {
    forall i | 0 <= i < |calls| :: StreamedFor(st, i) <= ValueOf(calls[i])
  }

  /** Upstream never contradicts what it has streamed: after every event the values extend it. */
  ghost predicate Consistent(reg: Registry, aliases: Aliases, inputs: seq<Input>, st: Streamed)
    requires Sound(reg)
    decreases |inputs|
  {
    inputs != [] ==>
      var reg' := Apply(reg, aliases, inputs[0].event);
      var st' := StreamedAfter(st, reg', inputs[0].event);
      Extends(reg'.calls, st') && Consistent(reg', aliases, inputs[1..], st')
  }

  function StreamedBy(reg: Registry, aliases: Aliases, inputs: seq<Input>, st: Streamed): Streamed
    requires Sound(reg)
    decreases |inputs|
  {
    if inputs == [] then st
    else
      var reg' := Apply(reg, aliases, inputs[0].event);
      StreamedBy(reg', aliases, inputs[1..], StreamedAfter(st, reg', inputs[0].event))
  }

  // ----- the buffer holds what was streamed -----

  /** For a tool that has not been sent the buffer holds what was streamed; nothing was streamed for
      a call that is not filed. */
  ghost predicate Buffers(t: Tools, calls: seq<Call>, st: Streamed) {
    && (forall id | id in t.states && id !in t.sent ::
          Concat(BufferedIn(t, id)) == StreamedFor(st, t.states[id]))
    && (forall i | 0 <= i < |calls| && calls[i].callID !in t.states :: StreamedFor(st, i) == "")
    && (forall i | i in st :: i < |calls|)
    && (forall id | id in t.deltas :: id in t.states)
  }

  function BufferedIn(t: Tools, id: string): seq<string> {
    if id in t.deltas then t.deltas[id] else []
  }

  lemma RegisterBuffers(e: Enc, calls: seq<Call>, i: nat, st: Streamed)
    requires i < |calls| && FiledUnderCallID(e.tools, calls) && CallIDsDistinctIn(calls)
    requires Buffers(e.tools, calls, st)
    ensures Buffers(RegisterTool(e, calls, i).tools, calls, st)
  {
    var t, t' := e.tools, RegisterTool(e, calls, i).tools;
    forall id | id in t'.states && id !in t'.sent
      ensures Concat(BufferedIn(t', id)) == StreamedFor(st, t'.states[id])
    {
      if id == calls[i].callID && id in t.states {
        assert calls[t.states[id]].callID == id;
      }
    }
  }

  lemma SameFilingBuffers(t: Tools, t': Tools, calls: seq<Call>, st: Streamed)
    requires Buffers(t, calls, st) && t'.states == t.states && t'.deltas == t.deltas && t'.sent == t.sent
    ensures Buffers(t', calls, st)
  {
    forall id | id in t'.states && id !in t'.sent
      ensures Concat(BufferedIn(t', id)) == StreamedFor(st, t'.states[id])
    {
      assert BufferedIn(t', id) == BufferedIn(t, id);
    }
  }

  lemma AppendBuffers(t: Tools, calls: seq<Call>, i: nat, delta: string, st: Streamed)
    requires i < |calls| && FiledUnderCallID(t, calls) && Buffers(t, calls, st)
    requires calls[i].callID in t.states && t.states[calls[i].callID] == i
    ensures var own := calls[i].callID;
      Buffers(t.(deltas := t.deltas[own := BufferedIn(t, own) + [delta]]), calls, st[i := StreamedFor(st, i) + delta])
  {
    hide Concat;
    var own := calls[i].callID;
    var st' := st[i := StreamedFor(st, i) + delta];
    var t' := t.(deltas := t.deltas[own := BufferedIn(t, own) + [delta]]);
    ConcatSnoc(BufferedIn(t, own), delta);
    forall id | id in t'.states && id !in t'.sent
      ensures Concat(BufferedIn(t', id)) == StreamedFor(st', t'.states[id])
    {
      if id != own {
        assert calls[t.states[id]].callID == id;
        assert BufferedIn(t', id) == BufferedIn(t, id);
      }
    }
  }

  lemma DeltaBuffers(e: Enc, calls: seq<Call>, i: nat, delta: string, st: Streamed)
    requires i < |calls| && FiledUnderCallID(e.tools, calls) && CallIDsDistinctIn(calls)
    requires Buffers(e.tools, calls, st)
    ensures Buffers(ToolDelta(e, calls, i, delta).tools, calls, st[i := StreamedFor(st, i) + delta])
  {
    RegisterBuffers(e, calls, i, st);
    var r := RegisterTool(e, calls, i).tools;
    RegisterFiled(e, calls, i);
    hide Buffers, FiledUnderCallID, CallIDsDistinctIn;
    if delta == "" {
      assert StreamedFor(st, i) + "" == StreamedFor(st, i);
      SameStreamed(r, calls, st, st[i := StreamedFor(st, i)]);
    } else {
      AppendBuffers(r, calls, i, delta, st);
    }
  }

  lemma RegisterFiled(e: Enc, calls: seq<Call>, i: nat)
    requires i < |calls| && FiledUnderCallID(e.tools, calls)
    ensures FiledUnderCallID(RegisterTool(e, calls, i).tools, calls)
  {}

  lemma SameStreamed(t: Tools, calls: seq<Call>, st: Streamed, st': Streamed)
    requires Buffers(t, calls, st) && (forall i :: StreamedFor(st, i) == StreamedFor(st', i))
    requires forall i | i in st' :: i < |calls|
    ensures Buffers(t, calls, st')
  {}

  lemma SentBuffers(t: Tools, t': Tools, id: string, calls: seq<Call>, st: Streamed)
    requires Buffers(t, calls, st) && t'.states == t.states
    requires t'.sent.Keys == t.sent.Keys + {id} && t'.deltas == t.deltas - {id}
    ensures Buffers(t', calls, st)
  {
    hide Concat;
    forall other | other in t'.states && other !in t'.sent
      ensures Concat(BufferedIn(t', other)) == StreamedFor(st, t'.states[other])
    {
      assert other !in t.sent && other != id;
      assert BufferedIn(t', other) == BufferedIn(t, other);
    }
  }

  lemma EmitBuffers(e: Enc, id: string, calls: seq<Call>, c: Call, shorten: string -> string, st: Streamed)
    requires Buffers(e.tools, calls, st) && c.callID == id
    ensures Buffers(EmitTool(e, id, c, shorten).0.tools, calls, st)
  {
    hide EmitTool, Buffers;
    EmitKeepsOrder(e, id, c, shorten);
    EmitSent(e, id, c, shorten);
    EmitDeltas(e, id, c, shorten);
    SentBuffers(e.tools, EmitTool(e, id, c, shorten).0.tools, id, calls, st);
  }

  // ----- complete blocks -----

  /** The block is the block of one of the calls, and its pieces make up the call's value. */
  ghost predicate CompleteBlock(b: Block, calls: seq<Call>) {
    exists i :: 0 <= i < |calls| && CompleteFor(b, calls[i])
  }

  ghost predicate CompleteFor(b: Block, c: Call) {
    b.head.ToolHead? && b.head.callID == c.callID && Concat(Values(b)) == ValueOf(c)
  }

  lemma ValuesOfPairs(head: Head, field: Field, parts: seq<string>)
    ensures Values(Block(head, Pairs(field, parts))) == parts
  {}

  /** A flush sends complete blocks, and leaves the buffers of the other tools alone. */
  lemma {:induction false} FlushComplete(e: Enc, calls: seq<Call>, k: nat, shorten: string -> string, st: Streamed)
    requires k <= |e.tools.order| && InRange(e, calls) && FiledUnderCallID(e.tools, calls)
    requires Buffers(e.tools, calls, st) && Extends(calls, st)
    ensures forall b | b in FlushBlocks(e, calls, k, shorten) :: CompleteBlock(b, calls)
    ensures Buffers(FlushFrom(e, calls, k, shorten).0.tools, calls, st)
    decreases |e.tools.order| - k
  {
    hide EmitTool, ToolBlockOf, CompleteBlock, ValueOf, Concat;
    if k < |e.tools.order| {
      var id := e.tools.order[k];
      if id in e.tools.sent || id !in e.tools.states {
        FlushComplete(e, calls, k + 1, shorten, st);
      } else if id in e.tools.done {
        var i := e.tools.states[id];
        EmitKeepsOrder(e, id, calls[i], shorten);
        EmitBuffers(e, id, calls, calls[i], shorten, st);
        BlockComplete(e, id, calls, i, shorten, st);
        FlushComplete(EmitTool(e, id, calls[i], shorten).0, calls, k + 1, shorten, st);
      }
    }
  }

  lemma BlockComplete(e: Enc, id: string, calls: seq<Call>, i: nat, shorten: string -> string, st: Streamed)
    requires i < |calls| && calls[i].callID == id
    requires Concat(BufferedIn(e.tools, id)) == StreamedFor(st, i) && Extends(calls, st)
    ensures CompleteBlock(ToolBlockOf(e, id, calls[i], shorten), calls)
  {
    hide Pieces, ValueOf, Concat;
    var b := ToolBlockOf(e, id, calls[i], shorten);
    PiecesAreTheValue(e, id, calls[i]);
    ValuesOfPairs(b.head, JsonField, Pieces(e, id, calls[i]));
    assert CompleteFor(b, calls[i]);
  }

  lemma FlushedComplete(e: Enc, calls: seq<Call>, shorten: string -> string, st: Streamed)
    requires InRange(e, calls) && FiledUnderCallID(e.tools, calls)
    requires Buffers(e.tools, calls, st) && Extends(calls, st)
    ensures forall b | b in FlushedBlocks(e, calls, shorten) :: CompleteBlock(b, calls)
    ensures Buffers(FlushTools(e, calls, shorten).0.tools, calls, st)
  {
    hide FlushFrom, FlushBlocks, Buffers, CompleteBlock;
    FlushComplete(e, calls, 0, shorten, st);
  }

  lemma ToolsBuffers(e: Enc, event: Event, reg: Registry, shorten: string -> string, st: Streamed)
    requires Sound(reg) && InRange(e, reg.calls) && FiledUnderCallID(e.tools, reg.calls) && CallIDsDistinctIn(reg.calls)
    requires Buffers(e.tools, reg.calls, st) && Extends(reg.calls, StreamedAfter(st, reg, event))
    ensures Buffers(ToolsAfter(e, event, reg, shorten), reg.calls, StreamedAfter(st, reg, event))
    ensures forall b | b in EventBlocks(e, event, reg, shorten) :: CompleteBlock(b, reg.calls)
  {
    hide Buffers, Extends, CallForEvent, FlushTools, FlushedBlocks, ToolDelta, CompletesTool, StringValue, CompleteBlock, CallIDsDistinctIn;
    var call := CallForEvent(reg, event);
    DeltaKindsDoNotComplete(event);
    if call.Some? {
      var i := call.value;
      var r := RegisterTool(e, reg.calls, i);
      RegisterBuffers(e, reg.calls, i, st);
      var f := MarkDone(r, reg.calls[i].callID);
      SameFilingBuffers(r.tools, f.tools, reg.calls, st);
      if event.kind == ArgumentsDelta || event.kind == InputDelta {
        DeltaBuffers(e, reg.calls, i, StringValue(event.raw, "delta"), st);
      } else {
        FlushedComplete(f, reg.calls, shorten, st);
      }
    }
  }

  // ----- the terminal event -----

  /** The part of Buffers that the terminal event needs. */
  ghost predicate Unsent(t: Tools, calls: seq<Call>, st: Streamed) {
    && FiledUnderCallID(t, calls)
    && (forall i | 0 <= i < |calls| && calls[i].callID !in t.sent ::
          Concat(BufferedIn(t, calls[i].callID)) == StreamedFor(st, i))
  }

  lemma BuffersUnsent(t: Tools, calls: seq<Call>, st: Streamed)
    requires Buffers(t, calls, st) && FiledUnderCallID(t, calls) && CallIDsDistinctIn(calls)
    ensures Unsent(t, calls, st)
  {
    forall i | 0 <= i < |calls| && calls[i].callID !in t.sent
      ensures Concat(BufferedIn(t, calls[i].callID)) == StreamedFor(st, i)
    {
      var id := calls[i].callID;
      if id in t.states {
        assert calls[t.states[id]].callID == id;
      } else {
        assert BufferedIn(t, id) == [];
      }
    }
  }

  lemma {:induction false} SettleUnsent(e: Enc, calls: seq<Call>, response: Fields, i: nat, st: Streamed)
    requires i <= |calls| && InRange(e, calls) && Unsent(e.tools, calls, st)
    ensures Unsent(Settle(e, calls, response, i).tools, calls, st)
    decreases |calls| - i
  {
    hide Executable, Concat;
    if i < |calls| {
      if !Executable(calls[i], response) {
        SettleUnsent(e.(tools := e.tools.(states := e.tools.states - {calls[i].callID})), calls, response, i + 1, st);
      } else {
        SettleUnsent(MarkDone(RegisterTool(e, calls, i), calls[i].callID), calls, response, i + 1, st);
      }
    }
  }

  lemma {:induction false} UnsentComplete(e: Enc, calls: seq<Call>, k: nat, shorten: string -> string, st: Streamed)
    requires k <= |e.tools.order| && InRange(e, calls) && Unsent(e.tools, calls, st) && Extends(calls, st)
    requires CallIDsDistinctIn(calls)
    ensures forall b | b in FlushBlocks(e, calls, k, shorten) :: CompleteBlock(b, calls)
    decreases |e.tools.order| - k
  {
    hide EmitTool, ToolBlockOf, CompleteBlock, Concat, ValueOf;
    if k < |e.tools.order| {
      var id := e.tools.order[k];
      if id in e.tools.sent || id !in e.tools.states {
        UnsentComplete(e, calls, k + 1, shorten, st);
      } else if id in e.tools.done {
        var i := e.tools.states[id];
        assert calls[i].callID == id;
        EmitKeepsOrder(e, id, calls[i], shorten);
        EmitSent(e, id, calls[i], shorten);
        EmitDeltas(e, id, calls[i], shorten);
        BlockComplete(e, id, calls, i, shorten, st);
        UnsentComplete(EmitTool(e, id, calls[i], shorten).0, calls, k + 1, shorten, st);
      }
    }
  }

  lemma TerminalComplete(e: Enc, calls: seq<Call>, view: View, shorten: string -> string, st: Streamed)
    requires InRange(e, calls) && Buffers(e.tools, calls, st) && FiledUnderCallID(e.tools, calls)
    requires CallIDsDistinctIn(calls) && Extends(calls, st)
    ensures forall b | b in TerminalBlocks(e, calls, view, shorten) :: CompleteBlock(b, calls)
  {
    hide Buffers, Unsent, Extends, CompleteBlock, FlushBlocks, FlushTerminalTools, HydrateThinking, HydrateSearches, HydrateText, ToolStreamStarted, Settle, CallIDsDistinctIn;
    BuffersUnsent(e.tools, calls, st);
    SettleUnsent(e, calls, view.response, 0, st);
    var e0 := Settle(e, calls, view.response, 0);
    HydrateKeepsStates(e0, calls, view, shorten, ToolStreamStarted(e));
    UnsentComplete(if ToolStreamStarted(e) then e0 else Hydrated(e, calls, view, shorten), calls, 0, shorten, st);
  }

  // ----- whole runs -----

  lemma GrowBuffers(t: Tools, r: Registry, s: Registry, st: Streamed)
    requires Buffers(t, r.calls, st) && KeepsFiled(t, r, s) && FiledUnderCallID(t, r.calls) && CallIDsDistinctIn(r.calls)
    ensures Buffers(t, s.calls, st)
  {
    hide Concat;
    forall i | 0 <= i < |s.calls| && s.calls[i].callID !in t.states ensures StreamedFor(st, i) == "" {
      assert i < |r.calls| ==> r.calls[i].callID !in t.states;
    }
  }

  lemma NextBuffers(s: State, aliases: Aliases, cfg: Config, input: Input, g: Reading, st: Streamed)
    requires Valid(s) && Tracks(s.enc, g) && Tidy(s.enc.tools, s.reg.calls, IDsRead(g)) && Buffers(s.enc.tools, s.reg.calls, st)
    requires KeepsFiled(s.enc.tools, s.reg, Apply(s.reg, aliases, input.event))
    requires var reg := Apply(s.reg, aliases, input.event); Extends(reg.calls, StreamedAfter(st, reg, input.event))
    ensures var (s', sent) := Next(s, aliases, cfg, input);
      && InRange(Started(s.enc), s'.reg.calls)
      && (!IsTerminal(input.event) ==> Buffers(s'.enc.tools, s'.reg.calls, StreamedAfter(st, s'.reg, input.event)))
      && (forall b | b in SentBlocks(Started(s.enc), input.event, s'.reg, input.view, cfg.shorten) :: CompleteBlock(b, s'.reg.calls))
  {
    hide Apply, Dispatch, Tidy, ToolsAfter, EventBlocks, TerminalBlocks, KeepsFiled, Tracks, IDsOf, Buffers, Extends, CompleteBlock, Inv, StreamedAfter;
    var reg := Apply(s.reg, aliases, input.event);
    var (s', sent) := Next(s, aliases, cfg, input);
    ApplyKeeps(s.reg, aliases, input.event);
    DistinctIn(reg);
    DistinctIn(s.reg);
    Filed(s.enc.tools, s.reg.calls, IDsRead(g));
    ApplyTidy(s.enc.tools, s.reg, reg, IDsRead(g));
    Filed(s.enc.tools, reg.calls, IDsRead(g));
    GrowBuffers(s.enc.tools, s.reg, reg, st);
    var e1 := Started(s.enc);
    StartedIs(s.enc, input.view);
    if IsTerminal(input.event) {
      TerminalStreams(st, reg, input.event);
      TerminalComplete(e1, reg.calls, input.view, cfg.shorten, st);
    } else {
      ToolsBuffers(e1, input.event, reg, cfg.shorten, st);
      DispatchTools(e1, input.event, reg, input.view, input.reasoning, cfg);
    }
  }

  lemma TerminalStreams(st: Streamed, reg: Registry, event: Event)
    requires Sound(reg) && IsTerminal(event)
    ensures StreamedAfter(st, reg, event) == st
  {
    hide CallForEvent;
  }

  lemma Filed(t: Tools, calls: seq<Call>, sent: seq<string>)
    requires Tidy(t, calls, sent)
    ensures FiledUnderCallID(t, calls)
  {}

  lemma {:induction false} RunBuffers(s: State, aliases: Aliases, cfg: Config, inputs: seq<Input>, g: Reading, st: Streamed)
    requires Valid(s) && Tracks(s.enc, g) && NoneTerminal(inputs)
    requires Tidy(s.enc.tools, s.reg.calls, IDsRead(g)) && Buffers(s.enc.tools, s.reg.calls, st)
    requires RenamesNoFiled(s, aliases, cfg, inputs) && Consistent(s.reg, aliases, inputs, st)
    ensures var s' := Encode(s, aliases, cfg, inputs).0;
      Buffers(s'.enc.tools, s'.reg.calls, StreamedBy(s.reg, aliases, inputs, st))
    decreases |inputs|
  {
    hide Tracks, Valid, Tidy, KeepsFiled, IDsRead, Buffers, Extends, StreamedAfter, CompleteBlock, SentBlocks;
    if inputs != [] {
      NextBuffers(s, aliases, cfg, inputs[0], g, st);
      NextTidy(s, aliases, cfg, inputs[0], g);
      NextTracks(s, aliases, cfg, inputs[0], g);
      NextRegistry(s, aliases, cfg, inputs[0]);
      var (s1, sent) := Next(s, aliases, cfg, inputs[0]);
      RunBuffers(s1, aliases, cfg, inputs[1..], Read(g, sent), StreamedAfter(st, s1.reg, inputs[0].event));
    }
  }

  /** In a run in which no filed call is renamed and upstream never contradicts what it has streamed,
      every tool block sent, whenever it is sent, carries exactly the value accumulated for its
      call: the buffered deltas and the remainder make it up without gap or overlap. */
  lemma EveryToolBlockIsComplete(aliases: Aliases, cfg: Config, before: seq<Input>, next: Input)
    requires Valid(START) && NoneTerminal(before) && RenamesNoFiled(START, aliases, cfg, before + [next])
    requires Consistent(EMPTY, aliases, before + [next], map[])
    ensures var (s, trace) := Encode(START, aliases, cfg, before);
      var (s', end) := Next(s, aliases, cfg, next);
      && InRange(Started(s.enc), s'.reg.calls)
      && ToolsRead(Read(Begin, trace + end))
         == ToolsRead(Read(Begin, trace)) + SentBlocks(Started(s.enc), next.event, s'.reg, next.view, cfg.shorten)
      && (forall b | b in SentBlocks(Started(s.enc), next.event, s'.reg, next.view, cfg.shorten) :: CompleteBlock(b, s'.reg.calls))
  {
    assert Sound(EMPTY) && START.reg == EMPTY;
    hide *;
    StartIsValid();
    RenamesSnoc(START, aliases, cfg, before, next);
    ConsistentSnoc(START, aliases, cfg, before, next, map[]);
    RunInvariants(aliases, cfg, before);
    var (s, trace) := Encode(START, aliases, cfg, before);
    NextBuffers(s, aliases, cfg, next, Read(Begin, trace), StreamedBy(EMPTY, aliases, before, map[]));
    NextSends(s, aliases, cfg, next, Read(Begin, trace));
    ReadAppend(Begin, trace, Next(s, aliases, cfg, next).1);
  }

  lemma {:induction false} ConsistentSnoc(s: State, aliases: Aliases, cfg: Config, inputs: seq<Input>, next: Input, st: Streamed)
    requires Valid(s) && Consistent(s.reg, aliases, inputs + [next], st)
    ensures Consistent(s.reg, aliases, inputs, st)
    ensures var reg := Apply(Encode(s, aliases, cfg, inputs).0.reg, aliases, next.event);
      Extends(reg.calls, StreamedAfter(StreamedBy(s.reg, aliases, inputs, st), reg, next.event))
    decreases |inputs|
  {
    hide Valid, Next, Apply, Extends, StreamedAfter;
    if inputs == [] {
      assert inputs + [next] == [next];
    } else {
      assert (inputs + [next])[0] == inputs[0] && (inputs + [next])[1..] == inputs[1..] + [next];
      NextRegistry(s, aliases, cfg, inputs[0]);
      var s1 := Next(s, aliases, cfg, inputs[0]).0;
      ConsistentSnoc(s1, aliases, cfg, inputs[1..], next, StreamedAfter(st, s1.reg, inputs[0].event));
    }
  }

  lemma RunInvariants(aliases: Aliases, cfg: Config, inputs: seq<Input>)
    requires Valid(START) && NoneTerminal(inputs) && RenamesNoFiled(START, aliases, cfg, inputs)
    requires Consistent(EMPTY, aliases, inputs, map[])
    ensures var (s, trace) := Encode(START, aliases, cfg, inputs);
      && Tracks(s.enc, Read(Begin, trace)) && Tidy(s.enc.tools, s.reg.calls, IDsRead(Read(Begin, trace)))
      && Buffers(s.enc.tools, s.reg.calls, StreamedBy(EMPTY, aliases, inputs, map[]))
  {
    StartIsValid();
    assert Tidy(NEW.tools, [], IDsRead(Begin)) by { assert IDsRead(Begin) == []; }
    assert Buffers(NEW.tools, [], map[]);
    hide Tracks, Inv, Tidy, IDsRead, Encode, RenamesNoFiled, Consistent, Buffers;
    RunBuffers(START, aliases, cfg, inputs, Begin, map[]);
    RunTracks(START, aliases, cfg, inputs, Begin);
    RunTidy(START, aliases, cfg, inputs, Begin);
  }

  // ----- the final value -----

  /** Once the block of a call has been sent, no event changes its call id or its value: what
      upstream says of a call after completing it agrees with what it said before. */
  ghost predicate SettledOnceSent(s: State, aliases: Aliases, cfg: Config, inputs: seq<Input>)
    requires Valid(s)
    decreases |inputs|
  {
    inputs != [] ==>
      && KeepsSentValues(s.enc.tools.sent, s.reg.calls, Apply(s.reg, aliases, inputs[0].event).calls)
      && SettledOnceSent(Next(s, aliases, cfg, inputs[0]).0, aliases, cfg, inputs[1..])
  }

  ghost predicate KeepsSentValues(sent: map<string, nat>, calls: seq<Call>, calls': seq<Call>) {
    && |calls| <= |calls'|
    && forall i | 0 <= i < |calls| && calls[i].callID in sent ::
         calls'[i].callID == calls[i].callID && ValueOf(calls'[i]) == ValueOf(calls[i])
  }

  /** Every one of the tool blocks carries the value its call has now. */
  ghost predicate AllComplete(blocks: seq<Block>, calls: seq<Call>) {
    forall b | b in blocks :: CompleteBlock(b, calls)
  }

  lemma IDAmong(blocks: seq<Block>, b: Block)
    requires b in blocks && b.head.ToolHead?
    ensures b.head.callID in IDsOf(blocks)
  {
    var k :| 0 <= k < |blocks| && blocks[k] == b;
    assert IDsOf(blocks)[k] == b.head.callID;
  }

  lemma StayComplete(t: Tools, g: Reading, calls: seq<Call>, calls': seq<Call>)
    requires AllComplete(ToolsRead(g), calls) && Tidy(t, calls, IDsRead(g)) && KeepsSentValues(t.sent, calls, calls')
    ensures AllComplete(ToolsRead(g), calls')
  {
    hide ValueOf, Concat, IDsOf, ToolsRead, FiledUnderCallID, NoDuplicates;
    forall b | b in ToolsRead(g) ensures CompleteBlock(b, calls') {
      var i :| 0 <= i < |calls| && CompleteFor(b, calls[i]);
      IDAmong(ToolsRead(g), b);
      assert CompleteFor(b, calls'[i]);
    }
  }

  /** One event: the blocks it sends are complete, and those sent before stay so. */
  lemma NextAllComplete(s: State, aliases: Aliases, cfg: Config, input: Input, g: Reading, st: Streamed)
    requires Valid(s) && Tracks(s.enc, g) && Tidy(s.enc.tools, s.reg.calls, IDsRead(g)) && Buffers(s.enc.tools, s.reg.calls, st)
    requires var reg := Apply(s.reg, aliases, input.event);
      && KeepsFiled(s.enc.tools, s.reg, reg) && Extends(reg.calls, StreamedAfter(st, reg, input.event))
      && KeepsSentValues(s.enc.tools.sent, s.reg.calls, reg.calls)
    requires AllComplete(ToolsRead(g), s.reg.calls)
    ensures var (s', sent) := Next(s, aliases, cfg, input); AllComplete(ToolsRead(Read(g, sent)), s'.reg.calls)
  {
    hide *;
    NextBuffers(s, aliases, cfg, input, g, st);
    NextSends(s, aliases, cfg, input, g);
    NextRegistry(s, aliases, cfg, input);
    var (s', sent) := Next(s, aliases, cfg, input);
    StayComplete(s.enc.tools, g, s.reg.calls, s'.reg.calls);
    AllOfBoth(ToolsRead(g), SentBlocks(Started(s.enc), input.event, s'.reg, input.view, cfg.shorten), s'.reg.calls);
  }

  lemma AllOfBoth(a: seq<Block>, b: seq<Block>, calls: seq<Call>)
    requires AllComplete(a, calls) && forall x | x in b :: CompleteBlock(x, calls)
    ensures AllComplete(a + b, calls)
  {
    hide CompleteBlock;
  }

  lemma {:induction false} RunAllComplete(s: State, aliases: Aliases, cfg: Config, inputs: seq<Input>, g: Reading, st: Streamed)
    requires Valid(s) && Tracks(s.enc, g) && NoneTerminal(inputs)
    requires Tidy(s.enc.tools, s.reg.calls, IDsRead(g)) && Buffers(s.enc.tools, s.reg.calls, st)
    requires RenamesNoFiled(s, aliases, cfg, inputs) && Consistent(s.reg, aliases, inputs, st)
    requires SettledOnceSent(s, aliases, cfg, inputs) && AllComplete(ToolsRead(g), s.reg.calls)
    ensures var (s', sent) := Encode(s, aliases, cfg, inputs); AllComplete(ToolsRead(Read(g, sent)), s'.reg.calls)
    decreases |inputs|
  {
    hide Tracks, Valid, Tidy, KeepsFiled, IDsRead, ToolsRead, Buffers, Extends, StreamedAfter, AllComplete, KeepsSentValues, SentBlocks, Next, CompleteBlock;
    if inputs != [] {
      NextAllComplete(s, aliases, cfg, inputs[0], g, st);
      NextBuffers(s, aliases, cfg, inputs[0], g, st);
      NextTidy(s, aliases, cfg, inputs[0], g);
      NextTracks(s, aliases, cfg, inputs[0], g);
      NextRegistry(s, aliases, cfg, inputs[0]);
      var (s1, sent) := Next(s, aliases, cfg, inputs[0]);
      RunAllComplete(s1, aliases, cfg, inputs[1..], Read(g, sent), StreamedAfter(st, s1.reg, inputs[0].event));
      ReadAppend(g, sent, Encode(s1, aliases, cfg, inputs[1..]).1);
    }
  }

  lemma {:induction false} SettledSnoc(s: State, aliases: Aliases, cfg: Config, inputs: seq<Input>, last: Input)
    requires Valid(s) && SettledOnceSent(s, aliases, cfg, inputs + [last])
    ensures SettledOnceSent(s, aliases, cfg, inputs)
    ensures var s' := Encode(s, aliases, cfg, inputs).0;
      KeepsSentValues(s'.enc.tools.sent, s'.reg.calls, Apply(s'.reg, aliases, last.event).calls)
    decreases |inputs|
  {
    hide Valid, Next, KeepsSentValues, Apply;
    if inputs == [] {
      assert inputs + [last] == [last];
    } else {
      assert (inputs + [last])[0] == inputs[0] && (inputs + [last])[1..] == inputs[1..] + [last];
      SettledSnoc(Next(s, aliases, cfg, inputs[0]).0, aliases, cfg, inputs[1..], last);
    }
  }

  /** If, besides, no event changes a call after its block has been sent, every tool block of the
      whole message carries the final value of its call. */
  lemma EveryToolBlockHoldsTheFinalValue(aliases: Aliases, cfg: Config, before: seq<Input>, last: Input)
    requires Valid(START) && NoneTerminal(before) && RenamesNoFiled(START, aliases, cfg, before + [last])
    requires Consistent(EMPTY, aliases, before + [last], map[]) && SettledOnceSent(START, aliases, cfg, before + [last])
    ensures var (s, trace) := Encode(START, aliases, cfg, before + [last]); AllComplete(ToolsRead(Read(Begin, trace)), s.reg.calls)
  {
    assert Sound(EMPTY) && START.reg == EMPTY;
    assert Tidy(NEW.tools, [], IDsRead(Begin)) by { assert IDsRead(Begin) == []; }
    assert Buffers(NEW.tools, [], map[]) && AllComplete(ToolsRead(Begin), []);
    assert START.enc == NEW && EMPTY.calls == [];
    hide *;
    StartIsValid();
    RenamesSnoc(START, aliases, cfg, before, last);
    ConsistentSnoc(START, aliases, cfg, before, last, map[]);
    SettledSnoc(START, aliases, cfg, before, last);
    RunInvariants(aliases, cfg, before);
    RunAllComplete(START, aliases, cfg, before, Begin, map[]);
    var (s, trace) := Encode(START, aliases, cfg, before);
    NextAllComplete(s, aliases, cfg, last, Read(Begin, trace), StreamedBy(EMPTY, aliases, before, map[]));
    ReadAppend(Begin, trace, Next(s, aliases, cfg, last).1);
    RunSnoc(START, aliases, cfg, before, last);
  }
}
