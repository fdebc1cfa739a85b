/** Which tool calls a streamed message contains, in what order, and with what input. */
module EncoderTools {
  import opened Text
  import opened Json
  import opened ToolCalls
  import opened ToolCallLaws
  import opened Encoder
  import opened Messages
  import opened EncoderGrammar
  import opened EncoderRuns

  // ----- one tool block -----

  lemma {:induction false} LengthOfConcat(parts: seq<string>)
    ensures LengthOf(parts) == |Concat(parts)|
  {
    if parts != [] {
      var front, last := parts[..|parts| - 1], parts[|parts| - 1];
      assert parts == front + [last];
      LengthOfSnoc(front, last);
      LengthOfConcat(front);
    }
  }

  lemma {:induction false} LengthOfSnoc(parts: seq<string>, last: string)
    ensures LengthOf(parts + [last]) == LengthOf(parts) + |last|
    decreases |parts|
  {
    if parts == [] {
      assert LengthOf([last]) == |last| + LengthOf([]);
    } else {
      assert (parts + [last])[1..] == parts[1..] + [last];
      LengthOfSnoc(parts[1..], last);
    }
  }

  /** The pieces of a tool block put together are the accumulated value exactly when the buffered
      deltas are a beginning of it; and for a tool filed under an id that is no longer its call
      id, whose buffered deltas are sent besides the whole value, only when those are empty. */
  lemma PiecesAreTheValue(e: Enc, id: string, c: Call)
    ensures Concat(Pieces(e, id, c)) == ValueOf(c)
      <==> if id == c.callID then Concat(BufferedDeltas(e, id)) <= ValueOf(c) else Concat(BufferedDeltas(e, id)) == ""
  {
    hide ValueOf;
    var buffered, value := BufferedDeltas(e, id), ValueOf(c);
    var sent := SentAfterBuffer(e, id, c);
    LengthOfConcat(buffered);
    if sent >= |value| {
      assert buffered + [] == buffered;
    } else {
      ConcatSnoc(buffered, value[sent..]);
    }
  }

  /** After its block is sent, a tool is remembered as sent under the id it is filed under exactly
      when that is still its call id or some of its deltas were buffered. */
  lemma EmitMarksSent(e: Enc, id: string, c: Call, shorten: string -> string)
    requires id !in e.tools.sent
    ensures id in EmitTool(e, id, c, shorten).0.tools.sent
      <==> id == c.callID || BufferedDeltas(e, id) != []
  {
    hide ValueOf;
  }

  // ----- order of first registration -----

  ghost predicate NoDuplicates(ids: seq<string>) {
    forall i, j | 0 <= i < |ids| && 0 <= j < |ids| && ids[i] == ids[j] :: i == j
  }

  /** Every tool is filed under the current call id of its call, the order lists each filed id
      once, and the ids sent so far are a beginning of it. */
  ghost predicate Tidy(t: Tools, calls: seq<Call>, sent: seq<string>) {
    && FiledUnderCallID(t, calls)
    && NoDuplicates(t.order)
    && (forall id :: id in t.order <==> id in t.states)
    && sent <= t.order
    && (forall id :: id in t.sent <==> id in sent)
  }

  ghost predicate FiledUnderCallID(t: Tools, calls: seq<Call>) {
    forall id | id in t.states :: t.states[id] < |calls| && calls[t.states[id]].callID == id
  }

  lemma RegisterTidy(e: Enc, calls: seq<Call>, i: nat, sent: seq<string>)
    requires i < |calls| && Tidy(e.tools, calls, sent)
    ensures Tidy(RegisterTool(e, calls, i).tools, calls, sent)
  {
    var t, t' := e.tools, RegisterTool(e, calls, i).tools;
    var id := calls[i].callID;
    if id !in t.states {
      assert t'.order == t.order + [id];
    }
  }

  /** Marking a tool done and buffering a delta do not disturb the order. */
  lemma SameFilingTidy(t: Tools, t': Tools, calls: seq<Call>, sent: seq<string>)
    requires Tidy(t, calls, sent) && t'.states == t.states && t'.order == t.order && t'.sent == t.sent
    ensures Tidy(t', calls, sent)
  {}

  lemma EmitTidy(e: Enc, calls: seq<Call>, sent: seq<string>, shorten: string -> string)
    requires Tidy(e.tools, calls, sent) && |sent| < |e.tools.order|
    ensures var id := e.tools.order[|sent|];
      && id in e.tools.states && id !in e.tools.sent
      && Tidy(EmitTool(e, id, calls[e.tools.states[id]], shorten).0.tools, calls, sent + [id])
  {
    var id := e.tools.order[|sent|];
    assert id in e.tools.order;
    assert forall k | 0 <= k < |sent| :: sent[k] == e.tools.order[k];
    var c := calls[e.tools.states[id]];
    EmitKeepsOrder(e, id, c, shorten);
    EmitSent(e, id, c, shorten);
    assert e.tools.order[..|sent| + 1] == sent + [id];
  }

  lemma EmitSent(e: Enc, id: string, c: Call, shorten: string -> string)
    requires id == c.callID
    ensures EmitTool(e, id, c, shorten).0.tools.sent.Keys == e.tools.sent.Keys + {id}
  {
    hide ValueOf;
  }

  lemma EmitDeltas(e: Enc, id: string, c: Call, shorten: string -> string)
    ensures EmitTool(e, id, c, shorten).0.tools.deltas == e.tools.deltas - {id}
  {
    hide ValueOf;
  }

  /** A flush sends the tools in the order of their first registration, each at most once. */
  lemma {:induction false} FlushTidy(e: Enc, calls: seq<Call>, k: nat, sent: seq<string>, shorten: string -> string)
    requires InRange(e, calls) && Tidy(e.tools, calls, sent) && k <= |sent|
    ensures Tidy(FlushFrom(e, calls, k, shorten).0.tools, calls, sent + IDsOf(FlushBlocks(e, calls, k, shorten)))
    decreases |e.tools.order| - k
  {
    hide EmitTool, Tidy, ToolBlockOf, IDsOf;
    TidyPrefix(e.tools, calls, sent);
    NoIDs();
    if k < |e.tools.order| {
      var id := e.tools.order[k];
      if k < |sent| {
        FlushTidy(e, calls, k + 1, sent, shorten);
      } else if id in e.tools.done {
        EmitTidy(e, calls, sent, shorten);
        var c := calls[e.tools.states[id]];
        EmitKeepsOrder(e, id, c, shorten);
        var e1 := EmitTool(e, id, c, shorten).0;
        FlushTidy(e1, calls, k + 1, sent + [id], shorten);
        var block, rest := ToolBlockOf(e, id, c, shorten), FlushBlocks(e1, calls, k + 1, shorten);
        assert c.callID == id by { FiledAt(e.tools, calls, sent, id); }
        BlockNamed(e, id, c, shorten);
        OneIDMore(block, rest);
        assert sent + [id] + IDsOf(rest) == sent + ([id] + IDsOf(rest));
      } else {
        EmitTidy(e, calls, sent, shorten);
        assert sent + IDsOf([]) == sent;
      }
    } else {
      assert sent + IDsOf([]) == sent;
    }
  }

  lemma BlockNamed(e: Enc, id: string, c: Call, shorten: string -> string)
    ensures var head := ToolBlockOf(e, id, c, shorten).head; head.ToolHead? && head.callID == c.callID
  {}

  lemma NoIDs()
    ensures IDsOf([]) == []
  {}

  lemma OneIDMore(block: Block, rest: seq<Block>)
    requires block.head.ToolHead?
    ensures IDsOf([block] + rest) == [block.head.callID] + IDsOf(rest)
  {}

  lemma TidyPrefix(t: Tools, calls: seq<Call>, sent: seq<string>)
    requires Tidy(t, calls, sent)
    ensures |sent| <= |t.order| && forall k | 0 <= k < |sent| :: t.order[k] in t.sent
  {
    forall k | 0 <= k < |sent| ensures t.order[k] in t.sent {
      assert t.order[k] == sent[k];
    }
  }

  lemma FiledAt(t: Tools, calls: seq<Call>, sent: seq<string>, id: string)
    requires Tidy(t, calls, sent) && id in t.states && t.states[id] < |calls|
    ensures calls[t.states[id]].callID == id
  {}

  lemma FlushToolsTidy(e: Enc, calls: seq<Call>, sent: seq<string>, shorten: string -> string)
    requires InRange(e, calls) && Tidy(e.tools, calls, sent)
    ensures Tidy(FlushTools(e, calls, shorten).0.tools, calls, sent + IDsOf(FlushedBlocks(e, calls, shorten)))
  {
    hide Tidy, FlushFrom, FlushBlocks;
    FlushTidy(e, calls, 0, sent, shorten);
    assert sent + IDsOf([]) == sent;
  }

  lemma ToolsTidy(e: Enc, event: Event, reg: Registry, sent: seq<string>, shorten: string -> string)
    requires Sound(reg) && InRange(e, reg.calls) && Tidy(e.tools, reg.calls, sent)
    ensures Tidy(ToolsAfter(e, event, reg, shorten), reg.calls, sent + IDsOf(EventBlocks(e, event, reg, shorten)))
  {
    hide Tidy, CallForEvent, FlushTools, FlushedBlocks, ToolDelta, CompletesTool, StringValue;
    assert sent + IDsOf([]) == sent;
    var call := CallForEvent(reg, event);
    if call.Some? {
      var i := call.value;
      var r := RegisterTool(e, reg.calls, i);
      RegisterTidy(e, reg.calls, i, sent);
      var f := MarkDone(r, reg.calls[i].callID);
      SameFilingTidy(r.tools, f.tools, reg.calls, sent);
      var d := ToolDelta(e, reg.calls, i, StringValue(event.raw, "delta"));
      DeltaFiling(e, reg.calls, i, StringValue(event.raw, "delta"));
      SameFilingTidy(r.tools, d.tools, reg.calls, sent);
      FlushToolsTidy(f, reg.calls, sent, shorten);
      DeltaKindsDoNotComplete(event);
    }
  }

  lemma DeltaFiling(e: Enc, calls: seq<Call>, i: nat, delta: string)
    requires i < |calls|
    ensures var r, t := RegisterTool(e, calls, i).tools, ToolDelta(e, calls, i, delta).tools;
      t.states == r.states && t.order == r.order && t.sent == r.sent && t.done == r.done
  {}

  lemma DeltaKindsDoNotComplete(event: Event)
    ensures event.kind == ArgumentsDelta || event.kind == InputDelta ==> !CompletesTool(event)
  {}

  // ----- whole runs in which no filed call is renamed -----

  /** No call that the encoder has filed gets another call id. */
  ghost predicate KeepsFiled(t: Tools, r: Registry, s: Registry) {
    && |r.calls| <= |s.calls|
    && forall id | id in t.states && t.states[id] < |r.calls| :: s.calls[t.states[id]].callID == r.calls[t.states[id]].callID
  }

  /** No event of the run renames a call that the encoder has filed before it. A call may be renamed
      as long as none of its events has reached the encoder. */
  ghost predicate RenamesNoFiled(s: State, aliases: Aliases, cfg: Config, inputs: seq<Input>)
    requires Valid(s)
    decreases |inputs|
  {
    inputs != [] ==>
      && KeepsFiled(s.enc.tools, s.reg, Apply(s.reg, aliases, inputs[0].event))
      && RenamesNoFiled(Next(s, aliases, cfg, inputs[0]).0, aliases, cfg, inputs[1..])
  }

  lemma ApplyTidy(t: Tools, r: Registry, s: Registry, sent: seq<string>)
    requires Tidy(t, r.calls, sent) && KeepsFiled(t, r, s)
    ensures Tidy(t, s.calls, sent)
  {}

  /** The tool ids in what a reader has seen. */
  function IDsRead(g: Reading): seq<string> {
    IDsOf(ToolsRead(g))
  }

  lemma IDsOfAppend(a: seq<Block>, b: seq<Block>)
    ensures IDsOf(a + b) == IDsOf(a) + IDsOf(b)
  {}

  lemma NextTidy(s: State, aliases: Aliases, cfg: Config, input: Input, g: Reading)
    requires Valid(s) && Tracks(s.enc, g) && !IsTerminal(input.event)
    requires Tidy(s.enc.tools, s.reg.calls, IDsRead(g))
    requires KeepsFiled(s.enc.tools, s.reg, Apply(s.reg, aliases, input.event))
    ensures var (s', sent) := Next(s, aliases, cfg, input);
      Tidy(s'.enc.tools, s'.reg.calls, IDsRead(Read(g, sent)))
  {
    hide Inv, Apply, Dispatch, Tidy, ToolsAfter, EventBlocks, KeepsFiled, Tracks, IDsOf;
    var (s', sent) := Next(s, aliases, cfg, input);
    var reg := Apply(s.reg, aliases, input.event);
    EventTracks(s.enc, g, input.event, reg, input.view, input.reasoning, cfg);
    var e1 := EnsureStarted(s.enc, input.view).0;
    ApplyTidy(s.enc.tools, s.reg, reg, IDsRead(g));
    ToolsTidy(e1, input.event, reg, IDsRead(g), cfg.shorten);
    DispatchTools(e1, input.event, reg, input.view, input.reasoning, cfg);
    StartedIs(s.enc, input.view);
    IDsOfAppend(ToolsRead(g), EventBlocks(e1, input.event, reg, cfg.shorten));
  }

  lemma StartedIs(e: Enc, view: View)
    ensures EnsureStarted(e, view).0 == Started(e) && Started(e).tools == e.tools
  {}

  lemma {:induction false} RunTidy(s: State, aliases: Aliases, cfg: Config, inputs: seq<Input>, g: Reading)
    requires Valid(s) && Tracks(s.enc, g) && NoneTerminal(inputs)
    requires Tidy(s.enc.tools, s.reg.calls, IDsRead(g)) && RenamesNoFiled(s, aliases, cfg, inputs)
    ensures var (s', sent) := Encode(s, aliases, cfg, inputs);
      Tidy(s'.enc.tools, s'.reg.calls, IDsRead(Read(g, sent)))
    decreases |inputs|
  {
    hide Tracks, Valid, Tidy, KeepsFiled, IDsRead, Next;
    if inputs != [] {
      NextTidy(s, aliases, cfg, inputs[0], g);
      NextTracks(s, aliases, cfg, inputs[0], g);
      var (s1, sent) := Next(s, aliases, cfg, inputs[0]);
      RunTidy(s1, aliases, cfg, inputs[1..], Read(g, sent));
      ReadAppend(g, sent, Encode(s1, aliases, cfg, inputs[1..]).1);
    }
  }

  /** As long as no filed call is renamed, the tool blocks sent are the first tools registered, in the
      order of their registration and each once. */
  lemma ToolsInOrderAtMostOnce(aliases: Aliases, cfg: Config, inputs: seq<Input>)
    requires Valid(START) && NoneTerminal(inputs) && RenamesNoFiled(START, aliases, cfg, inputs)
    ensures var (s, trace) := Encode(START, aliases, cfg, inputs);
      var ids := IDsRead(Read(Begin, trace));
      ids <= s.enc.tools.order && NoDuplicates(ids) && Tidy(s.enc.tools, s.reg.calls, ids)
  {
    StartIsValid();
    assert Tidy(NEW.tools, [], []);
    assert IDsRead(Begin) == [];
    hide Valid, Tracks, Encode, IDsRead, RenamesNoFiled;
    RunTidy(START, aliases, cfg, inputs, Begin);
    PrefixNoDuplicates(Encode(START, aliases, cfg, inputs).0.enc.tools.order, IDsRead(Read(Begin, Encode(START, aliases, cfg, inputs).1)));
  }

  lemma PrefixNoDuplicates(order: seq<string>, ids: seq<string>)
    requires ids <= order && NoDuplicates(order)
    ensures NoDuplicates(ids)
  {
    forall i, j | 0 <= i < |ids| && 0 <= j < |ids| && ids[i] == ids[j] ensures i == j {
      assert order[i] == ids[i] && order[j] == ids[j];
    }
  }

  // ----- the terminal event -----

  /** The ids of the order from k on that are still filed. */
  function Kept(order: seq<string>, k: nat, states: map<string, nat>): (ids: seq<string>)
    requires k <= |order|
    ensures forall id :: id in ids ==> id in states
    ensures forall p | k <= p < |order| && order[p] in states :: order[p] in ids
    ensures forall id | id in ids :: exists p :: k <= p < |order| && order[p] == id
    decreases |order| - k
  {
    if k == |order| then [] else (if order[k] in states then [order[k]] else []) + Kept(order, k + 1, states)
  }

  /** id is the call id of an executable call among the first i. */
  ghost predicate Ran(calls: seq<Call>, response: Fields, i: nat, id: string)
    requires i <= |calls|
  {
    exists j :: 0 <= j < i && Executable(calls[j], response) && calls[j].callID == id
  }

  /** id is the call id of a call among the first i that is not executable. */
  ghost predicate Stopped(calls: seq<Call>, response: Fields, i: nat, id: string)
    requires i <= |calls|
  {
    exists j :: 0 <= j < i && !Executable(calls[j], response) && calls[j].callID == id
  }

  /** While the first loop of the terminal event runs: executable calls met so far are filed and
      done, the others are not filed, and the order has only grown by executable calls. */
  ghost predicate Settling(t0: Tools, t: Tools, calls: seq<Call>, response: Fields, i: nat)
    requires i <= |calls|
  {
    && FiledUnderCallID(t, calls)
    && NoDuplicates(t.order) && t0.order <= t.order && t.sent == t0.sent
    && (forall id | id in t.states :: id in t.order)
    && (forall id | id in t0.states && id !in t.states :: Stopped(calls, response, i, id))
    && (forall id | Ran(calls, response, i, id) :: id in t.states && id in t.done)
    && (forall id | Stopped(calls, response, i, id) :: id !in t.states)
    && (forall id | id in t.order && id !in t0.order :: Ran(calls, response, i, id))
  }

  ghost predicate CallIDsDistinctIn(calls: seq<Call>) {
    forall i, j | 0 <= i < |calls| && 0 <= j < |calls| && calls[i].callID == calls[j].callID :: i == j
  }

  /** What the i-th call adds to the two sets of ids. */
  lemma OneMore(calls: seq<Call>, response: Fields, i: nat, id: string)
    requires i < |calls|
    ensures Ran(calls, response, i + 1, id)
      <==> Ran(calls, response, i, id) || (Executable(calls[i], response) && calls[i].callID == id)
    ensures Stopped(calls, response, i + 1, id)
      <==> Stopped(calls, response, i, id) || (!Executable(calls[i], response) && calls[i].callID == id)
  {
    hide Executable;
  }

  lemma NotYetMet(calls: seq<Call>, response: Fields, i: nat)
    requires i < |calls| && CallIDsDistinctIn(calls)
    ensures !Ran(calls, response, i, calls[i].callID) && !Stopped(calls, response, i, calls[i].callID)
  {
    hide Executable;
  }

  lemma DropSettling(t0: Tools, t: Tools, calls: seq<Call>, response: Fields, i: nat)
    requires i < |calls| && Settling(t0, t, calls, response, i) && !Executable(calls[i], response)
    requires CallIDsDistinctIn(calls)
    ensures Settling(t0, t.(states := t.states - {calls[i].callID}), calls, response, i + 1)
  {
    hide Executable, Ran, Stopped;
    var t' := t.(states := t.states - {calls[i].callID});
    NotYetMet(calls, response, i);
    forall id ensures Ran(calls, response, i + 1, id) <==> Ran(calls, response, i, id)
              ensures Stopped(calls, response, i + 1, id) <==> Stopped(calls, response, i, id) || calls[i].callID == id
    {
      OneMore(calls, response, i, id);
    }
  }

  lemma NoDuplicatesSnoc(order: seq<string>, id: string)
    requires NoDuplicates(order) && id !in order
    ensures NoDuplicates(order + [id])
  {}

  lemma KeepSettling(t0: Tools, e: Enc, calls: seq<Call>, response: Fields, i: nat)
    requires i < |calls| && Settling(t0, e.tools, calls, response, i) && Executable(calls[i], response)
    requires CallIDsDistinctIn(calls) && (forall id | id in t0.order :: id in t0.states)
    ensures Settling(t0, MarkDone(RegisterTool(e, calls, i), calls[i].callID).tools, calls, response, i + 1)
  {
    hide Executable, Ran, Stopped, NoDuplicates;
    var t, t' := e.tools, MarkDone(RegisterTool(e, calls, i), calls[i].callID).tools;
    var own := calls[i].callID;
    NotYetMet(calls, response, i);
    if own !in t.order { NoDuplicatesSnoc(t.order, own); }
    forall id ensures Ran(calls, response, i + 1, id) <==> Ran(calls, response, i, id) || own == id
              ensures Stopped(calls, response, i + 1, id) <==> Stopped(calls, response, i, id)
    {
      OneMore(calls, response, i, id);
    }
    if own !in t.states {
      assert own !in t0.order && own !in t.order;
      assert t'.order == t.order + [own];
    }
  }

  lemma {:induction false} SettleSettles(t0: Tools, e: Enc, calls: seq<Call>, response: Fields, i: nat)
    requires i <= |calls| && InRange(e, calls) && Settling(t0, e.tools, calls, response, i)
    requires CallIDsDistinctIn(calls) && (forall id | id in t0.order :: id in t0.states)
    ensures Settling(t0, Settle(e, calls, response, i).tools, calls, response, |calls|)
    decreases |calls| - i
  {
    hide Settling, Executable, CallIDsDistinctIn;
    if i < |calls| {
      if !Executable(calls[i], response) {
        DropSettling(t0, e.tools, calls, response, i);
        SettleSettles(t0, e.(tools := e.tools.(states := e.tools.states - {calls[i].callID})), calls, response, i + 1);
      } else {
        KeepSettling(t0, e, calls, response, i);
        SettleSettles(t0, MarkDone(RegisterTool(e, calls, i), calls[i].callID), calls, response, i + 1);
      }
    }
  }

  lemma TidySettling(t: Tools, calls: seq<Call>, sent: seq<string>, response: Fields)
    requires Tidy(t, calls, sent)
    ensures Settling(t, t, calls, response, 0) && forall id | id in t.order :: id in t.states
  {}

  /** Every filed tool is done, and none listed from k on has been sent. */
  ghost predicate ReadyFrom(t: Tools, calls: seq<Call>, k: nat) {
    && FiledUnderCallID(t, calls) && NoDuplicates(t.order)
    && (forall id | id in t.states :: id in t.done)
    && (forall p | k <= p < |t.order| :: t.order[p] !in t.sent)
  }

  lemma EmitReady(e: Enc, calls: seq<Call>, k: nat, id: string, c: Call, shorten: string -> string)
    requires k < |e.tools.order| && ReadyFrom(e.tools, calls, k) && InRange(e, calls)
    requires id == e.tools.order[k] == c.callID
    ensures var e1 := EmitTool(e, id, c, shorten).0;
      ReadyFrom(e1.tools, calls, k + 1) && InRange(e1, calls)
      && e1.tools.order == e.tools.order && e1.tools.states == e.tools.states
  {
    hide EmitTool;
    EmitKeepsOrder(e, id, c, shorten);
    EmitSent(e, id, c, shorten);
  }

  lemma ReadyNext(t: Tools, calls: seq<Call>, k: nat)
    requires k < |t.order| && ReadyFrom(t, calls, k)
    ensures ReadyFrom(t, calls, k + 1)
    ensures var id := t.order[k];
      id in t.states ==> id in t.done && id !in t.sent && t.states[id] < |calls| && calls[t.states[id]].callID == id
  {
    hide NoDuplicates;
  }

  lemma OneBlockID(e: Enc, id: string, c: Call, shorten: string -> string)
    ensures IDsOf([ToolBlockOf(e, id, c, shorten)]) == [c.callID]
  {
    hide Pieces;
  }

  /** When every filed tool is done, a flush sends exactly the filed tools that are left. */
  lemma {:induction false} FlushSendsKept(e: Enc, calls: seq<Call>, k: nat, shorten: string -> string)
    requires k <= |e.tools.order| && InRange(e, calls) && ReadyFrom(e.tools, calls, k)
    ensures IDsOf(FlushBlocks(e, calls, k, shorten)) == Kept(e.tools.order, k, e.tools.states)
    decreases |e.tools.order| - k
  {
    hide EmitTool, ReadyFrom, ToolBlockOf, IDsOf;
    NoIDs();
    if k < |e.tools.order| {
      ReadyNext(e.tools, calls, k);
      var id := e.tools.order[k];
      if id !in e.tools.states {
        FlushSendsKept(e, calls, k + 1, shorten);
      } else {
        var c := calls[e.tools.states[id]];
        EmitReady(e, calls, k, id, c, shorten);
        var e1 := EmitTool(e, id, c, shorten).0;
        FlushSendsKept(e1, calls, k + 1, shorten);
        OneBlockID(e, id, c, shorten);
        IDsOfAppend([ToolBlockOf(e, id, c, shorten)], FlushBlocks(e1, calls, k + 1, shorten));
      }
    }
  }

  lemma {:induction false} FlushSkipsSent(e: Enc, calls: seq<Call>, k: nat, n: nat, shorten: string -> string)
    requires k <= n <= |e.tools.order| && InRange(e, calls)
    requires forall p | k <= p < n :: e.tools.order[p] in e.tools.sent
    ensures FlushBlocks(e, calls, k, shorten) == FlushBlocks(e, calls, n, shorten)
    decreases n - k
  {
    if k < n { FlushSkipsSent(e, calls, k + 1, n, shorten); }
  }

  /** The ids of the tools the terminal event sends when it can: those filed after settling that
      had not been sent. */
  function Remaining(e: Enc, calls: seq<Call>, response: Fields, sent: nat): (ids: seq<string>)
    requires InRange(e, calls) && sent <= |Settle(e, calls, response, 0).tools.order|
  {
    var t := Settle(e, calls, response, 0).tools;
    Kept(t.order, sent, t.states)
  }

  lemma NotAmong(order: seq<string>, sent: seq<string>, p: nat)
    requires NoDuplicates(order) && sent <= order && |sent| <= p < |order|
    ensures order[p] !in sent
  {
    forall q | 0 <= q < |sent| ensures sent[q] != order[p] {
      assert order[q] == sent[q];
    }
  }

  lemma SettledFlush(e: Enc, f: Enc, calls: seq<Call>, response: Fields, sent: seq<string>, shorten: string -> string)
    requires InRange(e, calls) && Tidy(e.tools, calls, sent) && CallIDsDistinctIn(calls)
    requires InRange(f, calls) && f.tools == Settle(e, calls, response, 0).tools
    ensures |sent| <= |f.tools.order| && f.tools.order[..|sent|] == sent && NoDuplicates(f.tools.order)
    ensures IDsOf(FlushBlocks(f, calls, 0, shorten)) == Remaining(e, calls, response, |sent|)
    ensures forall id :: id in f.tools.states ==> Ran(calls, response, |calls|, id)
    ensures forall id :: Ran(calls, response, |calls|, id) ==> id in f.tools.states && id in f.tools.order
  {
    hide Settle, Executable, FlushBlocks, Kept, Ran, Stopped, IDsOf;
    TidySettling(e.tools, calls, sent, response);
    SettleSettles(e.tools, e, calls, response, 0);
    var t := f.tools;
    assert t.order[..|sent|] == sent;
    forall p | |sent| <= p < |t.order| ensures t.order[p] !in t.sent {
      NotAmong(t.order, sent, p);
    }
    forall id | id in t.states ensures Ran(calls, response, |calls|, id) && id in t.done {
      FiledRan(t, calls, response, id);
    }
    forall p | 0 <= p < |sent| ensures t.order[p] in t.sent {
      assert t.order[p] == sent[p];
    }
    FlushSkipsSent(f, calls, 0, |sent|, shorten);
    FlushSendsKept(f, calls, |sent|, shorten);
  }

  lemma FiledRan(t: Tools, calls: seq<Call>, response: Fields, id: string)
    requires FiledUnderCallID(t, calls) && id in t.states && !Stopped(calls, response, |calls|, id)
    ensures Ran(calls, response, |calls|, id)
  {
    hide Executable;
    assert calls[t.states[id]].callID == id;
  }

  /** Extending ids that lie in the first k of the order by what is kept of the rest makes no
      duplicate. */
  lemma {:induction false} KeptNoDuplicates(ids: seq<string>, order: seq<string>, k: nat, states: map<string, nat>)
    requires NoDuplicates(order) && NoDuplicates(ids) && k <= |order|
    requires forall i | 0 <= i < |ids| :: ids[i] in order[..k]
    ensures NoDuplicates(ids + Kept(order, k, states))
    decreases |order| - k
  {
    var kept := Kept(order, k, states);
    if k == |order| {
      assert ids + kept == ids;
    } else {
      var one := if order[k] in states then [order[k]] else [];
      var rest := Kept(order, k + 1, states);
      assert kept == one + rest;
      NotAmong(order, order[..k], k);
      assert order[..k + 1] == order[..k] + [order[k]];
      hide Kept;
      if one == [] {
        assert one + rest == rest;
        KeptNoDuplicates(ids, order, k + 1, states);
      } else {
        AddedApart(ids, order[k]);
        KeptNoDuplicates(ids + one, order, k + 1, states);
        assert ids + one + rest == ids + (one + rest);
      }
    }
  }

  lemma AddedApart(ids: seq<string>, id: string)
    requires NoDuplicates(ids) && id !in ids
    ensures NoDuplicates(ids + [id])
  {}

  /** Whether the terminal event gets to flush the tools: no block is open when it comes to it. */
  predicate Flushes(e: Enc, calls: seq<Call>, view: View, shorten: string -> string)
    requires InRange(e, calls)
  {
    (if ToolStreamStarted(e) then e.open else Hydrated(e, calls, view, shorten).open) == None
  }

  /** The first thinking block of the finished message. */
  function FirstThinking(blocks: seq<Shown>): Option<Shown> {
    if blocks == [] then None
    else if blocks[0].ShownThinking? then Some(blocks[0])
    else FirstThinking(blocks[1..])
  }

  /** The finished message has a signed thinking block, and none was streamed. */
  predicate ThinkingLeft(e: Enc, blocks: seq<Shown>) {
    var first := FirstThinking(blocks);
    !e.thinkEmitted && first.Some? && first.value.ShownThinking? && !Blank(first.value.signature)
  }

  /** The finished message has, from its k-th output item on, a web search that was not streamed. */
  ghost predicate SearchLeft(e: Enc, output: seq<Fields>, k: nat, shorten: string -> string) {
    exists m :: k <= m < |output| && ShowsSearch(e, output[m], m, shorten)
  }

  predicate ShowsSearch(e: Enc, item: Fields, m: nat, shorten: string -> string) {
    var search := SearchOf(item, "web_search_" + Itoa(m), shorten);
    StringValue(item, "type") == "web_search_call" && search.Some? && search.value.id !in e.searchDone
  }

  lemma {:induction false} ThinkingShows(e: Enc, blocks: seq<Shown>)
    ensures HydrateThinking(e, blocks).1 != [] <==> ThinkingLeft(e, blocks)
  {
    hide Blank, OpenAs;
    if blocks != [] && !blocks[0].ShownThinking? { ThinkingShows(e, blocks[1..]); }
  }

  lemma {:induction false} SearchesShow(e: Enc, output: seq<Fields>, k: nat, shorten: string -> string)
    requires k <= |output|
    ensures HydrateSearches(e, output, k, shorten).1 != [] <==> SearchLeft(e, output, k, shorten)
    decreases |output| - k
  {
    hide SearchOf, Itoa, StringValue, CompleteWebSearch, ShowsSearch;
    if k < |output| {
      SearchShows(e, output[k], k, shorten);
      if !ShowsSearch(e, output[k], k, shorten) {
        SearchesShow(e, output, k + 1, shorten);
        assert SearchLeft(e, output, k, shorten) <==> SearchLeft(e, output, k + 1, shorten);
      }
    }
  }

  lemma SearchShows(e: Enc, item: Fields, k: nat, shorten: string -> string)
    ensures var (e', shown) := CompleteWebSearch(e, item, "web_search_" + Itoa(k), shorten);
      && (StringValue(item, "type") == "web_search_call" ==> (shown != [] <==> ShowsSearch(e, item, k, shorten)))
      && (shown == [] ==> e' == e)
      && (ShowsSearch(e, item, k, shorten) ==> StringValue(item, "type") == "web_search_call")
  {
    hide SearchOf, Itoa, StringValue;
  }

  /** That is so when no block was open on arrival, or when no tool has been streamed and a thinking
      block or a web search of the finished message closes the open text. */
  lemma FlushesExactly(e: Enc, g: Reading, calls: seq<Call>, view: View, shorten: string -> string)
    requires InRange(e, calls) && InStep(e, g) && Quiet(e) && TextShown(e)
    ensures Flushes(e, calls, view, shorten)
      <==> || e.open.None?
           || (!ToolStreamStarted(e) && (ThinkingLeft(e, view.blocks) || SearchLeft(e, view.output, 0, shorten)))
  {
    hide InStep, HydrateThinking, HydrateSearches, Settle, FlushTerminalTools, ToolStreamStarted, ThinkingLeft, SearchLeft;
    var e0 := Settle(e, calls, view.response, 0);
    SettleKeepsBlocks(e, calls, view.response, 0);
    assert InStep(e0, g) by { InStepFrom(e, e0, g); }
    HydrateThinkingInStep(e0, g, view.blocks);
    var (e1, thinking) := HydrateThinking(e0, view.blocks);
    HydrateSearchesInStep(e1, Read(g, thinking), view.output, 0, shorten);
    var (e2, searches) := HydrateSearches(e1, view.output, 0, shorten);
    HydrateTextInStep(e2, Read(Read(g, thinking), searches), view.blocks);
    TextStaysEmitted(e0, view.blocks);
    SearchesKeepText(e1, view.output, 0, shorten);
    ThinkingShows(e0, view.blocks);
    SearchesShow(e1, view.output, 0, shorten);
    SameLeft(e, e0, e1, view, shorten);
  }

  lemma SameLeft(e: Enc, e0: Enc, e1: Enc, view: View, shorten: string -> string)
    requires e0.thinkEmitted == e.thinkEmitted && e1.searchDone == e.searchDone
    ensures ThinkingLeft(e0, view.blocks) == ThinkingLeft(e, view.blocks)
    ensures SearchLeft(e1, view.output, 0, shorten) == SearchLeft(e, view.output, 0, shorten)
  {
    hide SearchOf, Itoa, StringValue, FirstThinking, Blank;
    assert forall m | 0 <= m < |view.output| ::
        ShowsSearch(e1, view.output[m], m, shorten) == ShowsSearch(e, view.output[m], m, shorten);
  }

  lemma InStepFrom(e: Enc, f: Enc, g: Reading)
    requires InStep(e, g) && f.open == e.open && f.nextIndex == e.nextIndex
    ensures InStep(f, g)
  {}

  lemma TextStaysEmitted(e: Enc, blocks: seq<Shown>)
    ensures HydrateThinking(e, blocks).0.textEmitted == e.textEmitted
    ensures HydrateThinking(e, blocks).0.searchDone == e.searchDone
  {
    hide Blank;
  }

  lemma SearchesKeepText(e: Enc, output: seq<Fields>, k: nat, shorten: string -> string)
    requires k <= |output|
    ensures HydrateSearches(e, output, k, shorten).0.textEmitted == e.textEmitted
    decreases |output| - k
  {
    hide SearchOf;
    if k < |output| && StringValue(output[k], "type") == "web_search_call" {
      SearchesKeepText(CompleteWebSearch(e, output[k], "web_search_" + Itoa(k), shorten).0, output, k + 1, shorten);
    }
  }

  lemma TerminalBlocksAre(e: Enc, calls: seq<Call>, view: View, shorten: string -> string, sent: seq<string>)
    requires InRange(e, calls) && Tidy(e.tools, calls, sent) && CallIDsDistinctIn(calls)
    ensures |sent| <= |Settle(e, calls, view.response, 0).tools.order|
    ensures var ids := sent + IDsOf(TerminalBlocks(e, calls, view, shorten));
      if !Flushes(e, calls, view, shorten) then ids == sent
      else
        && ids == sent + Remaining(e, calls, view.response, |sent|)
        && NoDuplicates(ids)
        && (forall i | 0 <= i < |calls| && Executable(calls[i], view.response) :: calls[i].callID in ids)
        && (forall i | 0 <= i < |calls| && !Executable(calls[i], view.response) ::
              calls[i].callID in ids ==> calls[i].callID in sent)
  {
    hide Executable, FlushBlocks, Tidy, Kept, FlushTerminalTools, HydrateThinking, HydrateSearches, HydrateText, ToolStreamStarted, Settle;
    var response := view.response;
    var e0 := Settle(e, calls, response, 0);
    SettleKeepsBlocks(e, calls, response, 0);
    HydrateKeepsStates(e0, calls, view, shorten, ToolStreamStarted(e));
    var f := if ToolStreamStarted(e) then e0 else Hydrated(e, calls, view, shorten);
    SettledFlush(e, f, calls, response, sent, shorten);
    if !Flushes(e, calls, view, shorten) {
      assert sent + IDsOf([]) == sent;
    } else {
      CoveredByKept(f.tools, calls, response, sent);
    }
  }

  /** The ids sent before together with what is kept: no duplicate, every executable call, and no
      other call that was not sent before. */
  lemma CoveredByKept(t: Tools, calls: seq<Call>, response: Fields, sent: seq<string>)
    requires |sent| <= |t.order| && t.order[..|sent|] == sent && NoDuplicates(t.order)
    requires forall id :: id in t.states ==> Ran(calls, response, |calls|, id)
    requires forall id :: Ran(calls, response, |calls|, id) ==> id in t.states && id in t.order
    requires CallIDsDistinctIn(calls)
    ensures var ids := sent + Kept(t.order, |sent|, t.states);
      && NoDuplicates(ids)
      && (forall i | 0 <= i < |calls| && Executable(calls[i], response) :: calls[i].callID in ids)
      && (forall i | 0 <= i < |calls| && !Executable(calls[i], response) ::
            calls[i].callID in ids ==> calls[i].callID in sent)
  {
    hide Executable;
    var ids := sent + Kept(t.order, |sent|, t.states);
    PrefixNoDuplicates(t.order, sent);
    KeptNoDuplicates(sent, t.order, |sent|, t.states);
    forall i | 0 <= i < |calls| && Executable(calls[i], response) ensures calls[i].callID in ids {
      assert Ran(calls, response, |calls|, calls[i].callID);
      var p :| 0 <= p < |t.order| && t.order[p] == calls[i].callID;
      if p < |sent| { assert sent[p] == t.order[p]; }
    }
  }

  lemma {:induction false} RenamesSnoc(s: State, aliases: Aliases, cfg: Config, inputs: seq<Input>, last: Input)
    requires Valid(s)
    ensures RenamesNoFiled(s, aliases, cfg, inputs + [last])
      <==> var s' := Encode(s, aliases, cfg, inputs).0;
           RenamesNoFiled(s, aliases, cfg, inputs) && KeepsFiled(s'.enc.tools, s'.reg, Apply(s'.reg, aliases, last.event))
    decreases |inputs|
  {
    hide Valid, Next, KeepsFiled, Apply;
    if inputs == [] {
      assert inputs + [last] == [last] && [last][1..] == [];
    } else {
      assert (inputs + [last])[0] == inputs[0] && (inputs + [last])[1..] == inputs[1..] + [last];
      RenamesSnoc(Next(s, aliases, cfg, inputs[0]).0, aliases, cfg, inputs[1..], last);
    }
  }

  /** Whether the terminal event of a run gets to flush the tools: no block is open when it arrives;
      or the text that is open gives way to a thinking block or a web search of the finished message,
      which come before the tools as long as no tool has been streamed. */
  ghost predicate TerminalFlushes(e: Enc, view: View, shorten: string -> string) {
    || e.open.None?
    || (!ToolStreamStarted(e) && (ThinkingLeft(e, view.blocks) || SearchLeft(e, view.output, 0, shorten)))
  }

  lemma TerminalFlushesExactly(aliases: Aliases, cfg: Config, before: seq<Input>, last: Input)
    requires NoneTerminal(before) && IsTerminal(last.event)
    ensures Valid(START)
    ensures var s := Encode(START, aliases, cfg, before).0;
      var calls := Next(s, aliases, cfg, last).0.reg.calls;
      Flushes(Started(s.enc), calls, last.view, cfg.shorten) <==> TerminalFlushes(s.enc, last.view, cfg.shorten)
  {
    StartIsValid();
    hide Valid, Tracks, Encode, Next, Flushes, ThinkingLeft, SearchLeft, ToolStreamStarted;
    var s := Encode(START, aliases, cfg, before).0;
    RunTracks(START, aliases, cfg, before, Begin);
    TextIsShown(aliases, cfg, before);
    StartedTracks(s.enc, Read(Begin, Encode(START, aliases, cfg, before).1), last.view);
    var g :| InStep(Started(s.enc), g);
    FlushesExactly(Started(s.enc), g, Next(s, aliases, cfg, last).0.reg.calls, last.view, cfg.shorten);
    StartedLeft(s.enc, last.view, cfg.shorten);
  }

  lemma StartedTracks(e: Enc, g: Reading, view: View)
    requires Tracks(e, g)
    ensures Quiet(Started(e)) && exists g' :: InStep(Started(e), g')
  {
    StartTracks(e, g, view);
    StartedIs(e, view);
  }

  lemma StartedLeft(e: Enc, view: View, shorten: string -> string)
    ensures TextShown(Started(e)) == TextShown(e) && ToolStreamStarted(Started(e)) == ToolStreamStarted(e)
    ensures ThinkingLeft(Started(e), view.blocks) == ThinkingLeft(e, view.blocks)
    ensures SearchLeft(Started(e), view.output, 0, shorten) == SearchLeft(e, view.output, 0, shorten)
  {
    SameLeft(e, Started(e), Started(e), view, shorten);
  }

  /** The whole run, when no filed call is renamed: if the terminal event gets to flush the tools,
      every executable call has exactly one block, and a call that is not executable has one only if
      it was completed, and its block sent, before. Otherwise the terminal event adds no tool block
      at all. */
  lemma TerminalEventCoversTools(aliases: Aliases, cfg: Config, before: seq<Input>, last: Input)
    requires NoneTerminal(before) && IsTerminal(last.event)
    requires Valid(START) && RenamesNoFiled(START, aliases, cfg, before + [last])
    ensures var (s, trace) := Encode(START, aliases, cfg, before);
      var (s', end) := Next(s, aliases, cfg, last);
      var calls, ids, all := s'.reg.calls, IDsRead(Read(Begin, trace)), IDsRead(Read(Begin, trace + end));
      if !TerminalFlushes(s.enc, last.view, cfg.shorten) then all == ids
      else
        && NoDuplicates(all) && ids <= all
        && (forall i | 0 <= i < |calls| && Executable(calls[i], last.view.response) :: calls[i].callID in all)
        && (forall i | 0 <= i < |calls| && !Executable(calls[i], last.view.response) ::
              calls[i].callID in all ==> calls[i].callID in ids)
  {
    hide Executable, Flushes, TerminalFlushes, Tidy, Encode, Next, TerminalBlocks, IDsOf, Tracks, Inv, RenamesNoFiled, KeepsFiled, Remaining;
    StartIsValid();
    var (s, trace) := Encode(START, aliases, cfg, before);
    var (s', end) := Next(s, aliases, cfg, last);
    var g := Read(Begin, trace);
    RunTracks(START, aliases, cfg, before, Begin);
    RenamesSnoc(START, aliases, cfg, before, last);
    ToolsInOrderAtMostOnce(aliases, cfg, before);
    TerminalFlushesExactly(aliases, cfg, before, last);
    var ids := IDsRead(g);
    NextRegistry(s, aliases, cfg, last);
    ApplyTidy(s.enc.tools, s.reg, s'.reg, ids);
    NextSends(s, aliases, cfg, last, g);
    StartedIs(s.enc, last.view);
    DistinctIn(s'.reg);
    TerminalBlocksAre(Started(s.enc), s'.reg.calls, last.view, cfg.shorten, ids);
    ReadAppend(Begin, trace, end);
    IDsOfAppend(ToolsRead(g), TerminalBlocks(Started(s.enc), s'.reg.calls, last.view, cfg.shorten));
  }

  /** In particular: when no filed call is renamed and no block is open when the terminal event
      arrives, every executable call has exactly one block. */
  lemma EveryExecutableCallHasOneBlock(aliases: Aliases, cfg: Config, before: seq<Input>, last: Input, i: nat)
    requires NoneTerminal(before) && IsTerminal(last.event)
    requires Valid(START) && RenamesNoFiled(START, aliases, cfg, before + [last])
    requires var s := Encode(START, aliases, cfg, before).0;
      var calls := Next(s, aliases, cfg, last).0.reg.calls;
      s.enc.open == None && i < |calls| && Executable(calls[i], last.view.response)
    ensures var (s, trace) := Encode(START, aliases, cfg, before);
      var (s', end) := Next(s, aliases, cfg, last);
      && Encode(START, aliases, cfg, before + [last]) == (s', trace + end)
      && ExactlyOnce(IDsRead(Read(Begin, trace + end)), s'.reg.calls[i].callID)
  {
    hide *;
    TerminalEventCoversTools(aliases, cfg, before, last);
    RunSnoc(START, aliases, cfg, before, last);
    var (s, trace) := Encode(START, aliases, cfg, before);
    var (s', end) := Next(s, aliases, cfg, last);
    OpenNone(s.enc, last.view, cfg.shorten);
    OnceOf(IDsRead(Read(Begin, trace + end)), s'.reg.calls[i].callID);
  }

  lemma OpenNone(e: Enc, view: View, shorten: string -> string)
    requires e.open == None
    ensures TerminalFlushes(e, view, shorten)
  {}

  ghost predicate ExactlyOnce(ids: seq<string>, id: string) {
    exists k :: 0 <= k < |ids| && ids[k] == id && forall m | 0 <= m < |ids| && ids[m] == id :: m == k
  }

  lemma OnceOf(ids: seq<string>, id: string)
    requires NoDuplicates(ids) && id in ids
    ensures ExactlyOnce(ids, id)
  {
    var k :| 0 <= k < |ids| && ids[k] == id;
    assert forall m | 0 <= m < |ids| && ids[m] == id :: m == k;
  }

  lemma NextRegistry(s: State, aliases: Aliases, cfg: Config, input: Input)
    requires Valid(s)
    ensures Next(s, aliases, cfg, input).0.reg == Apply(s.reg, aliases, input.event)
  {
    hide Apply, Events;
  }

  lemma DistinctIn(r: Registry)
    requires Inv(r)
    ensures CallIDsDistinctIn(r.calls)
  {}

  lemma NextSends(s: State, aliases: Aliases, cfg: Config, input: Input, g: Reading)
    requires Valid(s) && Tracks(s.enc, g)
    ensures var (s', sent) := Next(s, aliases, cfg, input);
      && InRange(Started(s.enc), s'.reg.calls)
      && ToolsRead(Read(g, sent)) == ToolsRead(g) + SentBlocks(Started(s.enc), input.event, s'.reg, input.view, cfg.shorten)
  {
    hide Apply, Events, Tracks, Inv, SentBlocks;
    var reg := Apply(s.reg, aliases, input.event);
    assert Next(s, aliases, cfg, input).0.reg == reg;
    EventTracks(s.enc, g, input.event, reg, input.view, input.reasoning, cfg);
  }
}
