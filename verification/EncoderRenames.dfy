/** Which runs send every tool call exactly one block. The accumulator renames a call when upstream,
    having named it by its item id alone, gives its call id. Whether the message still has one block
    for it depends on how far the encoder had got with the call. */
module EncoderRenames {
  import opened Text
  import opened Json
  import opened ToolCalls
  import opened ToolCallLaws
  import opened Encoder
  import opened Messages
  import opened EncoderGrammar
  import opened EncoderRuns
  import opened EncoderTools
  import opened EncoderCalls
  import opened EncoderCoverage

  // ----- the renames themselves -----

  /** Some deltas are buffered under id. */
  predicate HasBuffer(t: Tools, id: string) {
    id in t.deltas && t.deltas[id] != []
  }

  /** From r to s, the call filed under p as its call id gets another one. */
  predicate RenamedFrom(t: Tools, r: Registry, s: Registry, p: string) {
    p in t.states && !Stale(t, r.calls, p) && Stale(t, s.calls, p)
  }

  /** p is renamed to c when its tool is done and not yet sent, and either some deltas are buffered
      for it or the encoder will not get to it before the terminal event. */
  predicate HarmlessRename(t: Tools, p: string, c: string, end: Tools) {
    p !in t.sent && p in t.done && (HasBuffer(t, p) || c !in end.sent)
  }

  ghost predicate HarmlessStep(t: Tools, r: Registry, s: Registry, end: Tools) {
    forall p | RenamedFrom(t, r, s, p) :: HarmlessRename(t, p, s.calls[t.states[p]].callID, end)
  }

  /** Every event of the run that renames a filed call renames it harmlessly; end is what the tools
      are when the terminal event arrives. */
  ghost predicate RenamesHarmlessly(s: State, aliases: Aliases, cfg: Config, inputs: seq<Input>, end: Tools)
    requires Valid(s)
    decreases |inputs|
  {
    inputs != [] ==>
      && HarmlessStep(s.enc.tools, s.reg, Apply(s.reg, aliases, inputs[0].event), end)
      && RenamesHarmlessly(Next(s, aliases, cfg, inputs[0]).0, aliases, cfg, inputs[1..], end)
  }

  // ----- harmless renames are enough -----

  predicate HarmlessSoFar(t: Tools, c: string, p: string, end: Tools) {
    if p in t.sent then c in t.sent
    else p in t.done && c !in t.sent && (HasBuffer(t, p) || c !in end.sent)
  }

  /** Every id left behind so far was left behind harmlessly. */
  ghost predicate AllHarmless(t: Tools, calls: seq<Call>, end: Tools) {
    forall p | Stale(t, calls, p) :: HarmlessSoFar(t, calls[t.states[p]].callID, p, end)
  }

  lemma HarmlessIsFine(t: Tools, calls: seq<Call>, end: Tools)
    requires AllHarmless(t, calls, end)
    ensures AllFine(t, calls)
  {
    hide HasBuffer;
    forall p | Stale(t, calls, p) ensures Fine(t, calls, p) {
      assert HarmlessSoFar(t, calls[t.states[p]].callID, p, end);
    }
  }

  lemma ApplyHarmless(t: Tools, r: Registry, s: Registry, end: Tools)
    requires Step(r, s) && Filing(t, r) && AllHarmless(t, r.calls, end) && HarmlessStep(t, r, s, end)
    ensures AllHarmless(t, s.calls, end)
  {
    hide Step, Ordered, SentFiled, StaleFirst, WaitingUnsent, HasBuffer;
    forall p | Stale(t, s.calls, p) ensures HarmlessSoFar(t, s.calls[t.states[p]].callID, p, end) {
      if Stale(t, r.calls, p) {
        StaleStays(t, r, s, p);
        assert HarmlessSoFar(t, r.calls[t.states[p]].callID, p, end);
      } else {
        assert RenamedFrom(t, r, s, p);
        assert HarmlessRename(t, p, s.calls[t.states[p]].callID, end);
        NewIDUnsent(t, r, s, t.states[p]);
      }
    }
  }

  lemma NewIDUnsent(t: Tools, r: Registry, s: Registry, i: nat)
    requires Step(r, s) && Known(t, r) && i < |s.calls| && (i < |r.calls| ==> s.calls[i].callID != r.calls[i].callID)
    ensures s.calls[i].callID !in t.sent
  {
    if s.calls[i].callID in t.sent { IDIsKept(r, s, s.calls[i].callID, i); }
  }

  /** The first k tools of the order have been sent. */
  ghost predicate Cleared(t: Tools, k: nat) {
    k <= |t.order| && forall l | 0 <= l < k :: t.order[l] in t.sent
  }

  lemma EmitHarmless(e: Enc, r: Registry, k: nat, end: Tools, shorten: string -> string)
    requires k < |e.tools.order| && Inv(r) && Filing(e.tools, r) && Pending(e.tools, e.tools.order[k])
    requires Cleared(e.tools, k) && AllHarmless(e.tools, r.calls, end)
    requires e.tools.states[e.tools.order[k]] < |r.calls|
    requires var c := r.calls[e.tools.states[e.tools.order[k]]]; c.callID in end.sent
    ensures var t' := EmitTool(e, e.tools.order[k], r.calls[e.tools.states[e.tools.order[k]]], shorten).0.tools;
      AllHarmless(t', r.calls, end) && Cleared(t', k + 1)
  {
    var t, id := e.tools, e.tools.order[k];
    var c := r.calls[t.states[id]];
    var t' := EmitTool(e, id, c, shorten).0.tools;
    EmitEmits(e, id, c, shorten);
    EmitMarksSent(e, id, c, shorten);
    EmitDeltas(e, id, c, shorten);
    hide EmitTool;
    assert Stale(t, r.calls, id) ==> HarmlessSoFar(t, c.callID, id, end);
    assert id in t'.sent;
    EmitsMark(t, t', id, c);
    DistinctCallIDs(r);
    hide Inv, StaleFrozen, SentFiled, WaitingUnsent, Known;
    forall p | Stale(t', r.calls, p) ensures HarmlessSoFar(t', r.calls[t'.states[p]].callID, p, end) {
      assert Stale(t, r.calls, p) && HarmlessSoFar(t, r.calls[t.states[p]].callID, p, end);
      HarmlessAfter(t, t', r, k, p, end);
    }
  }

  lemma HarmlessAfter(t: Tools, t': Tools, r: Registry, k: nat, p: string, end: Tools)
    requires Ordered(t) && Homes(t, r) && StaleFirst(t, r) && CallIDsDistinctIn(r.calls)
    requires k < |t.order| && Pending(t, t.order[k]) && Cleared(t, k)
    requires Emits(t, t', t.order[k], r.calls[t.states[t.order[k]]]) && t'.deltas == t.deltas - {t.order[k]}
    requires t.order[k] in t'.sent
    requires Stale(t, r.calls, p) && HarmlessSoFar(t, r.calls[t.states[p]].callID, p, end)
    ensures HarmlessSoFar(t', r.calls[t.states[p]].callID, p, end)
  {
    var id := t.order[k];
    var c, d := r.calls[t.states[id]], r.calls[t.states[p]];
    EmitsSent(t, t', id, c, p);
    EmitsSent(t, t', id, c, d.callID);
    EmitsSent(t, t', id, c, c.callID);
    if p != id {
      assert p != c.callID;
      if SameCall(t, p, id) {
        var l :| 0 <= l < |t.order| && t.order[l] == p;
        if l > k { assert SameCall(t, id, p); }
        assert l < k && t.order[l] in t.sent;
      }
      assert d.callID == id ==> SameCall(t, p, id);
    }
  }

  lemma {:induction false} FlushHarmless(e: Enc, r: Registry, k: nat, end: Tools, shorten: string -> string)
    requires Inv(r) && InRange(e, r.calls) && Filing(e.tools, r)
    requires Cleared(e.tools, k) && AllHarmless(e.tools, r.calls, end)
    requires k <= |e.tools.order| && forall id | id in FlushFrom(e, r.calls, k, shorten).0.tools.sent :: id in end.sent
    ensures AllHarmless(FlushFrom(e, r.calls, k, shorten).0.tools, r.calls, end)
    decreases |e.tools.order| - k
  {
    hide EmitTool, Inv, Filing, AllHarmless;
    if k < |e.tools.order| {
      var id := e.tools.order[k];
      if id in e.tools.sent || id !in e.tools.states {
        assert id in e.tools.sent by { ListedIsFiled(e.tools, r, id); }
        FlushHarmless(e, r, k + 1, end, shorten);
      } else if id in e.tools.done {
        var c := r.calls[e.tools.states[id]];
        var e1 := EmitTool(e, id, c, shorten).0;
        EmitEmits(e, id, c, shorten);
        EmitsMark(e.tools, e1.tools, id, c);
        FlushMarks(e1, r.calls, k + 1, shorten);
        EmitHarmless(e, r, k, end, shorten);
        EmitFiling(e.tools, e1.tools, r, k);
        FlushHarmless(e1, r, k + 1, end, shorten);
      }
    }
  }

  lemma EmitFiling(t: Tools, t': Tools, r: Registry, k: nat)
    requires Inv(r) && Filing(t, r) && Cleared(t, k) && k < |t.order| && Pending(t, t.order[k])
    requires Emits(t, t', t.order[k], r.calls[t.states[t.order[k]]])
    ensures Filing(t', r)
  {
    ClearedPassed(t, k);
    FilingFlushes(t, r);
    EmitSentFiled(t, t', r, t.order[k]);
    EmitFiles(t, t', r, k);
    hide Inv, Flushable, SentFiled;
  }

  lemma ListedIsFiled(t: Tools, r: Registry, id: string)
    requires Filing(t, r) && id in t.order
    ensures id in t.states
  {}

  lemma ClearedPassed(t: Tools, k: nat)
    requires Cleared(t, k)
    ensures Passed(t, k)
  {}

  lemma CompletingHarmless(e: Enc, r: Registry, i: nat, end: Tools)
    requires i < |r.calls| && Inv(r) && InRange(e, r.calls) && Filing(e.tools, r) && AllHarmless(e.tools, r.calls, end)
    ensures var f := Completing(e, r.calls, i);
      InRange(f, r.calls) && Filing(f.tools, r) && AllHarmless(f.tools, r.calls, end) && Cleared(f.tools, 0)
  {
    SettleOne(e, r, i);
    hide Inv, Filing, RegisterTool;
    var t, f := e.tools, Completing(e, r.calls, i).tools;
    CompletingKeeps(e, r, i);
    forall p | Stale(f, r.calls, p) ensures HarmlessSoFar(f, r.calls[f.states[p]].callID, p, end) {
      assert HarmlessSoFar(t, r.calls[t.states[p]].callID, p, end);
    }
  }

  lemma CompletingKeeps(e: Enc, r: Registry, i: nat)
    requires i < |r.calls|
    ensures var t, f := e.tools, Completing(e, r.calls, i).tools; f.deltas == t.deltas && f.sent == t.sent
  {}

  /** A delta for call i touches nothing that is kept under an id left behind. */
  lemma DeltaKeeps(e: Enc, r: Registry, i: nat, delta: string, p: string)
    requires i < |r.calls| && Filing(e.tools, r) && Stale(e.tools, r.calls, p)
    ensures var t, t' := e.tools, ToolDelta(e, r.calls, i, delta).tools;
      && p in t'.states && t'.states[p] == t.states[p]
      && (HasBuffer(t', p) <==> HasBuffer(t, p))
      && t'.sent == t.sent && t'.done == t.done
  {
    StaleIsNobodys(e.tools, r);
    hide Filing;
  }

  lemma DeltaHarmless(e: Enc, r: Registry, i: nat, delta: string, end: Tools)
    requires i < |r.calls| && Inv(r) && Filing(e.tools, r) && AllHarmless(e.tools, r.calls, end)
    ensures AllHarmless(ToolDelta(e, r.calls, i, delta).tools, r.calls, end)
  {
    RegisterFiles(e, r, i);
    DeltaStates(e, r.calls, i, delta);
    hide Inv, Filing, ToolDelta, HasBuffer;
    var t, t' := e.tools, ToolDelta(e, r.calls, i, delta).tools;
    forall p | Stale(t', r.calls, p) ensures HarmlessSoFar(t', r.calls[t'.states[p]].callID, p, end) {
      assert Stale(RegisterTool(e, r.calls, i).tools, r.calls, p);
      assert HarmlessSoFar(t, r.calls[t.states[p]].callID, p, end);
      DeltaKeeps(e, r, i, delta, p);
    }
  }

  lemma DeltaStates(e: Enc, calls: seq<Call>, i: nat, delta: string)
    requires i < |calls|
    ensures ToolDelta(e, calls, i, delta).tools.states == RegisterTool(e, calls, i).tools.states
  {}

  lemma EventHarmless(e: Enc, event: Event, r: Registry, end: Tools, shorten: string -> string)
    requires Inv(r) && InRange(e, r.calls) && Filing(e.tools, r) && AllHarmless(e.tools, r.calls, end)
    requires forall id | id in ToolsAfter(e, event, r, shorten).sent :: id in end.sent
    ensures AllHarmless(ToolsAfter(e, event, r, shorten), r.calls, end)
    ensures !RepeatsTool(e, event, r)
  {
    hide Inv, Filing, Flushable, AllHarmless, Repeats, CallForEvent, FlushFrom, ToolDelta, CompletesTool, StringValue, Completing;
    DeltaKindsDoNotComplete(event);
    var call := CallForEvent(r, event);
    if call.Some? {
      var i := call.value;
      CompleteToolIs(e, r.calls, i, shorten);
      CompletingHarmless(e, r, i, end);
      var f := Completing(e, r.calls, i);
      HarmlessIsFine(f.tools, r.calls, end);
      FilingFlushes(f.tools, r);
      FineRepeatsNot(f.tools, r);
      if CompletesTool(event) {
        if e.open.None? { FlushHarmless(f, r, 0, end, shorten); }
      } else {
        DeltaHarmless(e, r, i, StringValue(event.raw, "delta"), end);
      }
    }
  }

  lemma GrowsTransitive(t: Tools, t1: Tools, t2: Tools)
    requires Grows(t, t1) && Grows(t1, t2)
    ensures Grows(t, t2)
  {}

  lemma {:induction false} RunGrows(s: State, aliases: Aliases, cfg: Config, inputs: seq<Input>, g: Reading, w: seq<nat>)
    requires Valid(s) && Tracks(s.enc, g) && NoneTerminal(inputs) && Accounted(s, IDsRead(g), w)
    ensures Grows(s.enc.tools, Encode(s, aliases, cfg, inputs).0.enc.tools)
    decreases |inputs|
  {
    hide Tracks, Valid, Accounted, Next, NextCalls, Once, RepeatsTool, IDsRead, Grows;
    if inputs == [] {
      GrowsItself(s.enc.tools);
    } else {
      NextAccounts(s, aliases, cfg, inputs[0], g, w);
      NextTracks(s, aliases, cfg, inputs[0], g);
      var (s1, sent) := Next(s, aliases, cfg, inputs[0]);
      RunGrows(s1, aliases, cfg, inputs[1..], Read(g, sent), w + NextCalls(s, aliases, cfg, inputs[0]));
      GrowsTransitive(s.enc.tools, s1.enc.tools, Encode(s1, aliases, cfg, inputs[1..]).0.enc.tools);
    }
  }

  lemma GrowsItself(t: Tools)
    ensures Grows(t, t)
  {}

  /** One event: the renames it makes are harmless, and so nothing is sent twice. */
  lemma NextHarmless(s: State, aliases: Aliases, cfg: Config, input: Input, g: Reading, w: seq<nat>, end: Tools)
    requires Valid(s) && Tracks(s.enc, g) && !IsTerminal(input.event) && Accounted(s, IDsRead(g), w)
    requires AllHarmless(s.enc.tools, s.reg.calls, end) && HarmlessStep(s.enc.tools, s.reg, Apply(s.reg, aliases, input.event), end)
    requires Grows(Next(s, aliases, cfg, input).0.enc.tools, end)
    ensures var s' := Next(s, aliases, cfg, input).0;
      AllHarmless(s'.enc.tools, s'.reg.calls, end) && !RepeatsTool(Started(s.enc), input.event, s'.reg)
  {
    hide Next, Valid, Inv, Step, Tracks, ToolsAfter, Accounted, Filing, Accounts, BlocksNamed, RepeatsTool, IDsRead, AllHarmless, HarmlessStep, Apply;
    BeforeDispatch(s, aliases, cfg, input, IDsRead(g), w);
    assert Filing(s.enc.tools, s.reg) by { FilingOf(s, IDsRead(g), w); }
    NextTools(s, aliases, cfg, input);
    NextValid(s, aliases, cfg, input);
    var r := Next(s, aliases, cfg, input).0.reg;
    ApplyHarmless(s.enc.tools, s.reg, r, end);
    EventHarmless(Started(s.enc), input.event, r, end, cfg.shorten);
  }

  lemma FilingOf(s: State, ids: seq<string>, w: seq<nat>)
    requires Accounted(s, ids, w)
    ensures Filing(s.enc.tools, s.reg) && Accounts(s.enc.tools, s.reg.calls, w)
  {}

  lemma {:induction false} RunHarmless(s: State, aliases: Aliases, cfg: Config, inputs: seq<Input>, last: Input, g: Reading, w: seq<nat>)
    requires Valid(s) && Tracks(s.enc, g) && NoneTerminal(inputs) && Accounted(s, IDsRead(g), w)
    requires var end := Encode(s, aliases, cfg, inputs).0.enc.tools;
      AllHarmless(s.enc.tools, s.reg.calls, end) && RenamesHarmlessly(s, aliases, cfg, inputs + [last], end)
    ensures NeverRepeats(s, aliases, cfg, inputs)
    ensures var s' := Encode(s, aliases, cfg, inputs).0;
      AllHarmless(s'.enc.tools, Apply(s'.reg, aliases, last.event).calls, s'.enc.tools)
    decreases |inputs|
  {
    hide Tracks, Valid, Inv, Accounted, Next, NextCalls, Once, RepeatsTool, IDsRead, Grows, AllHarmless, HarmlessStep, Step, Filing, Apply;
    if inputs == [] {
      assert inputs + [last] == [last];
      FilingOf(s, IDsRead(g), w);
      assert Inv(s.reg) by { ValidInv(s); }
      ApplyKeeps(s.reg, aliases, last.event);
      ApplyHarmless(s.enc.tools, s.reg, Apply(s.reg, aliases, last.event), s.enc.tools);
    } else {
      assert (inputs + [last])[0] == inputs[0] && (inputs + [last])[1..] == inputs[1..] + [last];
      NextAccounts(s, aliases, cfg, inputs[0], g, w);
      NextTracks(s, aliases, cfg, inputs[0], g);
      var (s1, sent) := Next(s, aliases, cfg, inputs[0]);
      var w1 := w + NextCalls(s, aliases, cfg, inputs[0]);
      RunGrows(s1, aliases, cfg, inputs[1..], Read(g, sent), w1);
      NextHarmless(s, aliases, cfg, inputs[0], g, w, Encode(s, aliases, cfg, inputs).0.enc.tools);
      RunHarmless(s1, aliases, cfg, inputs[1..], last, Read(g, sent), w1);
    }
  }

  lemma ValidInv(s: State)
    requires Valid(s)
    ensures Inv(s.reg) && forall id | id in s.enc.tools.states :: s.enc.tools.states[id] < |s.reg.calls|
  {}

  // ----- harmless renames are needed -----

  /** What happens to an id p that call i, now called c, has left behind while the blocks of the calls
      v are sent: it stays sent, it keeps waiting, without deltas it is never marked as sent; and c is
      marked as sent only with a block of the call. */
  ghost predicate LeftAlone(t: Tools, t': Tools, p: string, i: nat, c: string, v: seq<nat>) {
    && p in t.states && p in t'.states && t'.states[p] == t.states[p] == i
    && (p in t.sent ==> p in t'.sent)
    && (Waiting(t, p) ==> Waiting(t', p))
    && (p !in t.sent && !HasBuffer(t, p) ==> p !in t'.sent && !HasBuffer(t', p))
    && (c in t'.sent ==> c in t.sent || i in v)
  }

  lemma LeftAloneTransitive(t: Tools, t1: Tools, t2: Tools, p: string, i: nat, c: string, v: seq<nat>, v': seq<nat>)
    requires LeftAlone(t, t1, p, i, c, v) && LeftAlone(t1, t2, p, i, c, v')
    ensures LeftAlone(t, t2, p, i, c, v + v')
  {
    hide HasBuffer, Waiting;
  }

  lemma EmitLeaves(e: Enc, r: Registry, id: string, p: string, shorten: string -> string)
    requires Homes(e.tools, r) && CallIDsDistinctIn(r.calls) && Stale(e.tools, r.calls, p) && Pending(e.tools, id)
    ensures e.tools.states[id] < |r.calls|
    ensures var i := e.tools.states[p];
      LeftAlone(e.tools, EmitTool(e, id, r.calls[e.tools.states[id]], shorten).0.tools, p, i, r.calls[i].callID, [e.tools.states[id]])
  {
    var t := e.tools;
    var c := r.calls[t.states[id]];
    var t' := EmitTool(e, id, c, shorten).0.tools;
    var i := t.states[p];
    var d := r.calls[i].callID;
    EmitEmits(e, id, c, shorten);
    EmitMarksSent(e, id, c, shorten);
    EmitDeltas(e, id, c, shorten);
    hide EmitTool;
    EmitsSent(t, t', id, c, p);
    EmitsSent(t, t', id, c, d);
    assert p != c.callID;
    assert d == id ==> t.states[id] == i;
    assert d == c.callID ==> t.states[id] == i;
    assert i == t.states[id] ==> i in [t.states[id]];
  }

  lemma {:induction false} FlushLeaves(e: Enc, r: Registry, k: nat, p: string, shorten: string -> string)
    requires k <= |e.tools.order| && InRange(e, r.calls) && Homes(e.tools, r) && CallIDsDistinctIn(r.calls) && Stale(e.tools, r.calls, p)
    ensures var i := e.tools.states[p];
      LeftAlone(e.tools, FlushFrom(e, r.calls, k, shorten).0.tools, p, i, r.calls[i].callID, FlushCalls(e, r.calls, k, shorten))
    decreases |e.tools.order| - k
  {
    hide EmitTool, HasBuffer;
    if k < |e.tools.order| {
      var id := e.tools.order[k];
      if id in e.tools.sent || id !in e.tools.states {
        FlushLeaves(e, r, k + 1, p, shorten);
      } else if id in e.tools.done {
        var i, j := e.tools.states[p], e.tools.states[id];
        var e1 := EmitTool(e, id, r.calls[j], shorten).0;
        EmitKeepsOrder(e, id, r.calls[j], shorten);
        EmitLeaves(e, r, id, p, shorten);
        SameHomes(e.tools, e1.tools, r);
        FlushLeaves(e1, r, k + 1, p, shorten);
        LeftAloneTransitive(e.tools, e1.tools, FlushFrom(e1, r.calls, k + 1, shorten).0.tools, p, i, r.calls[i].callID,
                            [j], FlushCalls(e1, r.calls, k + 1, shorten));
      }
    }
  }

  lemma LeftAloneItself(t: Tools, p: string, i: nat, c: string)
    requires p in t.states && t.states[p] == i
    ensures LeftAlone(t, t, p, i, c, [])
  {}

  lemma CompletingLeaves(e: Enc, r: Registry, j: nat, p: string)
    requires j < |r.calls| && Inv(r) && InRange(e, r.calls) && Filing(e.tools, r) && Stale(e.tools, r.calls, p)
    ensures var i, f := e.tools.states[p], Completing(e, r.calls, j);
      && InRange(f, r.calls) && Filing(f.tools, r) && Stale(f.tools, r.calls, p)
      && LeftAlone(e.tools, f.tools, p, i, r.calls[i].callID, [])
  {
    SettleOne(e, r, j);
    hide Inv, Filing, RegisterTool;
    CompletingKeeps(e, r, j);
  }

  lemma EventLeaves(e: Enc, event: Event, r: Registry, p: string, shorten: string -> string)
    requires Inv(r) && InRange(e, r.calls) && Filing(e.tools, r) && Stale(e.tools, r.calls, p)
    ensures var i := e.tools.states[p];
      LeftAlone(e.tools, ToolsAfter(e, event, r, shorten), p, i, r.calls[i].callID, EventCalls(e, event, r, shorten))
  {
    var i := e.tools.states[p];
    hide *;
    StaleRange(e.tools, r.calls, p);
    LeftAloneItself(e.tools, p, i, r.calls[i].callID);
    DeltaKindsDoNotComplete(event);
    EventEffect(e, event, r, shorten);
    var call := CallForEvent(r, event);
    if call.Some? {
      var j := call.value;
      CompletingLeaves(e, r, j, p);
      if CompletesTool(event) {
        if e.open.None? { CompletionLeaves(e, r, j, p, shorten); }
      } else {
        DeltaLeaves(e, r, j, StringValue(event.raw, "delta"), p);
      }
    }
  }

  lemma StaleRange(t: Tools, calls: seq<Call>, p: string)
    requires Stale(t, calls, p)
    ensures p in t.states && t.states[p] < |calls|
  {}

  /** What an event does to the tools, and whose blocks it sends. */
  lemma EventEffect(e: Enc, event: Event, r: Registry, shorten: string -> string)
    requires Sound(r) && InRange(e, r.calls)
    ensures var call, t', v := CallForEvent(r, event), ToolsAfter(e, event, r, shorten), EventCalls(e, event, r, shorten);
      if call.Some? && CompletesTool(event) then
        var f := Completing(e, r.calls, call.value);
        && InRange(f, r.calls)
        && (if e.open.None? then t' == FlushFrom(f, r.calls, 0, shorten).0.tools && v == FlushCalls(f, r.calls, 0, shorten)
            else t' == f.tools && v == [])
      else
        && v == []
        && (if call.Some? && (event.kind == ArgumentsDelta || event.kind == InputDelta)
            then t' == ToolDelta(e, r.calls, call.value, StringValue(event.raw, "delta")).tools else t' == e.tools)
  {
    hide CallForEvent, FlushFrom, FlushCalls, ToolDelta, CompletesTool, StringValue, Completing;
    DeltaKindsDoNotComplete(event);
    if CallForEvent(r, event).Some? { CompleteToolIs(e, r.calls, CallForEvent(r, event).value, shorten); }
  }

  lemma CompletionLeaves(e: Enc, r: Registry, j: nat, p: string, shorten: string -> string)
    requires j < |r.calls| && Inv(r) && InRange(e, r.calls) && Filing(e.tools, r) && Stale(e.tools, r.calls, p)
    ensures var i, f := e.tools.states[p], Completing(e, r.calls, j);
      && InRange(f, r.calls)
      && LeftAlone(e.tools, FlushFrom(f, r.calls, 0, shorten).0.tools, p, i, r.calls[i].callID, FlushCalls(f, r.calls, 0, shorten))
  {
    var i := e.tools.states[p];
    var c := r.calls[i].callID;
    DistinctCallIDs(r);
    CompletingLeaves(e, r, j, p);
    hide Inv, Filing, FlushFrom, FlushCalls, Completing, LeftAlone, CallIDsDistinctIn;
    var f := Completing(e, r.calls, j);
    HomesOf(f.tools, r);
    FlushLeaves(f, r, 0, p, shorten);
    LeftIndex(e.tools, f.tools, p, i, c);
    LeftAloneTransitive(e.tools, f.tools, FlushFrom(f, r.calls, 0, shorten).0.tools, p, i, c, [], FlushCalls(f, r.calls, 0, shorten));
    assert [] + FlushCalls(f, r.calls, 0, shorten) == FlushCalls(f, r.calls, 0, shorten);
  }

  lemma LeftIndex(t: Tools, t': Tools, p: string, i: nat, c: string)
    requires LeftAlone(t, t', p, i, c, [])
    ensures p in t'.states && t'.states[p] == i
  {}

  lemma DeltaLeaves(e: Enc, r: Registry, j: nat, delta: string, p: string)
    requires j < |r.calls| && Filing(e.tools, r) && Stale(e.tools, r.calls, p)
    ensures var i := e.tools.states[p]; LeftAlone(e.tools, ToolDelta(e, r.calls, j, delta).tools, p, i, r.calls[i].callID, [])
  {
    DeltaKeeps(e, r, j, delta, p);
    hide Filing, ToolDelta, HasBuffer;
  }

  /** What a run does to an id that was left behind before it. */
  lemma {:induction false} RunLeaves(s: State, aliases: Aliases, cfg: Config, inputs: seq<Input>, p: string, g: Reading, w: seq<nat>)
    requires Valid(s) && Tracks(s.enc, g) && NoneTerminal(inputs) && Accounted(s, IDsRead(g), w)
    requires Stale(s.enc.tools, s.reg.calls, p)
    ensures var s' := Encode(s, aliases, cfg, inputs).0;
      var i := s.enc.tools.states[p];
      && LeftAlone(s.enc.tools, s'.enc.tools, p, i, s.reg.calls[i].callID, SentCalls(s, aliases, cfg, inputs))
      && i < |s'.reg.calls| && s'.reg.calls[i].callID == s.reg.calls[i].callID
    decreases |inputs|
  {
    hide Tracks, Valid, Inv, Accounted, Next, NextCalls, Once, RepeatsTool, IDsRead, Grows, Step, Filing, Apply, LeftAlone, EventCalls;
    var i := s.enc.tools.states[p];
    if inputs == [] {
      LeftAloneItself(s.enc.tools, p, i, s.reg.calls[i].callID);
    } else {
      NextAccounts(s, aliases, cfg, inputs[0], g, w);
      NextTracks(s, aliases, cfg, inputs[0], g);
      var (s1, sent) := Next(s, aliases, cfg, inputs[0]);
      FilingOf(s, IDsRead(g), w);
      BeforeDispatch(s, aliases, cfg, inputs[0], IDsRead(g), w);
      assert StaleFrozen(s.enc.tools, s.reg) by { FrozenOf(s.enc.tools, s.reg); }
      StaleStays(s.enc.tools, s.reg, s1.reg, p);
      NextLeaves(s, aliases, cfg, inputs[0], p, g, w);
      LeftIs(s.enc.tools, s1.enc.tools, p, i, s.reg.calls[i].callID, NextCalls(s, aliases, cfg, inputs[0]));
      RunLeaves(s1, aliases, cfg, inputs[1..], p, Read(g, sent), w + NextCalls(s, aliases, cfg, inputs[0]));
      LeftAloneTransitive(s.enc.tools, s1.enc.tools, Encode(s1, aliases, cfg, inputs[1..]).0.enc.tools, p, i, s.reg.calls[i].callID,
                          NextCalls(s, aliases, cfg, inputs[0]), SentCalls(s1, aliases, cfg, inputs[1..]));
    }
  }

  lemma FrozenOf(t: Tools, r: Registry)
    requires Filing(t, r)
    ensures StaleFrozen(t, r) && Known(t, r)
  {}

  lemma LeftIs(t: Tools, t': Tools, p: string, i: nat, c: string, v: seq<nat>)
    requires LeftAlone(t, t', p, i, c, v)
    ensures p in t.states && p in t'.states && t'.states[p] == t.states[p] == i
  {}

  /** One event, from the tools it found to those it leaves, for an id left behind by then. */
  lemma NextLeaves(s: State, aliases: Aliases, cfg: Config, input: Input, p: string, g: Reading, w: seq<nat>)
    requires Valid(s) && Tracks(s.enc, g) && !IsTerminal(input.event) && Accounted(s, IDsRead(g), w)
    requires var r := Next(s, aliases, cfg, input).0.reg; Stale(s.enc.tools, r.calls, p)
    ensures var s' := Next(s, aliases, cfg, input).0;
      var i := s.enc.tools.states[p];
      && i < |s'.reg.calls|
      && LeftAlone(s.enc.tools, s'.enc.tools, p, i, s'.reg.calls[i].callID, NextCalls(s, aliases, cfg, input))
  {
    hide Next, Valid, Inv, Step, Tracks, ToolsAfter, EventCalls, Accounted, Filing, Accounts, BlocksNamed, IDsRead, LeftAlone;
    BeforeDispatch(s, aliases, cfg, input, IDsRead(g), w);
    NextTools(s, aliases, cfg, input);
    NextValid(s, aliases, cfg, input);
    EventLeaves(Started(s.enc), input.event, Next(s, aliases, cfg, input).0.reg, p, cfg.shorten);
  }

  /** If in the end p is fine, and no call of w + v is listed twice, p was renamed harmlessly. */
  lemma FineMeansHarmless(t: Tools, end: Tools, p: string, i: nat, c: string, w: seq<nat>, v: seq<nat>)
    requires LeftAlone(t, end, p, i, c, v) && Once(w + v) && c !in t.sent && (p in t.sent ==> i in w)
    requires if p in end.sent then c in end.sent else p in end.done && c !in end.sent
    ensures HarmlessRename(t, p, c, end)
  {
    hide HasBuffer;
    if p in t.sent { InBoth(w, v, i); }
  }

  lemma {:induction false} HarmlessNeeded(s: State, aliases: Aliases, cfg: Config, inputs: seq<Input>, last: Input, g: Reading, w: seq<nat>)
    requires Valid(s) && Tracks(s.enc, g) && NoneTerminal(inputs) && Accounted(s, IDsRead(g), w)
    requires Once(w + SentCalls(s, aliases, cfg, inputs))
    requires var s' := Encode(s, aliases, cfg, inputs).0; AllFine(s'.enc.tools, Apply(s'.reg, aliases, last.event).calls)
    ensures RenamesHarmlessly(s, aliases, cfg, inputs + [last], Encode(s, aliases, cfg, inputs).0.enc.tools)
    decreases |inputs|
  {
    hide Tracks, Valid, Inv, Accounted, Next, NextCalls, Once, RepeatsTool, IDsRead, Grows, AllFine, HarmlessStep, Step, Filing, Apply;
    if inputs == [] {
      assert inputs + [last] == [last];
      FilingOf(s, IDsRead(g), w);
      ValidInv(s);
      ApplyKeeps(s.reg, aliases, last.event);
      LastHarmless(s.enc.tools, s.reg, Apply(s.reg, aliases, last.event));
    } else {
      assert (inputs + [last])[0] == inputs[0] && (inputs + [last])[1..] == inputs[1..] + [last];
      NextAccounts(s, aliases, cfg, inputs[0], g, w);
      NextTracks(s, aliases, cfg, inputs[0], g);
      var (s1, sent) := Next(s, aliases, cfg, inputs[0]);
      var now := NextCalls(s, aliases, cfg, inputs[0]);
      assert w + (now + SentCalls(s1, aliases, cfg, inputs[1..])) == w + now + SentCalls(s1, aliases, cfg, inputs[1..]);
      StepHarmlessNeeded(s, aliases, cfg, inputs, last, g, w);
      HarmlessNeeded(s1, aliases, cfg, inputs[1..], last, Read(g, sent), w + now);
    }
  }

  lemma LastHarmless(t: Tools, r: Registry, s: Registry)
    requires Step(r, s) && Filing(t, r) && AllFine(t, s.calls)
    ensures HarmlessStep(t, r, s, t)
  {
    hide Step, Ordered, SentFiled, StaleFirst, WaitingUnsent, StaleFrozen, HasBuffer;
    forall p | RenamedFrom(t, r, s, p) ensures HarmlessRename(t, p, s.calls[t.states[p]].callID, t) {
      assert Fine(t, s.calls, p);
      NewIDUnsent(t, r, s, t.states[p]);
    }
  }

  lemma StepHarmlessNeeded(s: State, aliases: Aliases, cfg: Config, inputs: seq<Input>, last: Input, g: Reading, w: seq<nat>)
    requires Valid(s) && Tracks(s.enc, g) && NoneTerminal(inputs) && Accounted(s, IDsRead(g), w) && inputs != []
    requires Once(w + SentCalls(s, aliases, cfg, inputs))
    requires var s' := Encode(s, aliases, cfg, inputs).0; AllFine(s'.enc.tools, Apply(s'.reg, aliases, last.event).calls)
    ensures HarmlessStep(s.enc.tools, s.reg, Apply(s.reg, aliases, inputs[0].event), Encode(s, aliases, cfg, inputs).0.enc.tools)
  {
    hide Tracks, Valid, Inv, Accounted, Next, NextCalls, Once, IDsRead, AllFine, Step, Filing, Apply, HarmlessRename, LeftAlone, SentCalls, Encode;
    NextRegistry(s, aliases, cfg, inputs[0]);
    FilingOf(s, IDsRead(g), w);
    var t, r := s.enc.tools, Apply(s.reg, aliases, inputs[0].event);
    forall p | RenamedFrom(t, s.reg, r, p)
      ensures HarmlessRename(t, p, r.calls[t.states[p]].callID, Encode(s, aliases, cfg, inputs).0.enc.tools)
    {
      RenameHarmlessNeeded(s, aliases, cfg, inputs, last, p, g, w);
    }
  }

  lemma RenameHarmlessNeeded(s: State, aliases: Aliases, cfg: Config, inputs: seq<Input>, last: Input, p: string, g: Reading, w: seq<nat>)
    requires Valid(s) && Tracks(s.enc, g) && NoneTerminal(inputs) && Accounted(s, IDsRead(g), w) && inputs != []
    requires Once(w + SentCalls(s, aliases, cfg, inputs))
    requires var s' := Encode(s, aliases, cfg, inputs).0; AllFine(s'.enc.tools, Apply(s'.reg, aliases, last.event).calls)
    requires RenamedFrom(s.enc.tools, s.reg, Apply(s.reg, aliases, inputs[0].event), p)
    ensures var i := s.enc.tools.states[p];
      var calls := Apply(s.reg, aliases, inputs[0].event).calls;
      i < |calls| && HarmlessRename(s.enc.tools, p, calls[i].callID, Encode(s, aliases, cfg, inputs).0.enc.tools)
  {
    hide Tracks, Valid, Inv, Accounted, Next, NextCalls, Once, IDsRead, AllFine, Step, Filing, Apply, HarmlessRename, LeftAlone, RepeatsTool, Grows, Accounts;
    var t, i := s.enc.tools, s.enc.tools.states[p];
    var (s1, sent) := Next(s, aliases, cfg, inputs[0]);
    var now, rest := NextCalls(s, aliases, cfg, inputs[0]), SentCalls(Next(s, aliases, cfg, inputs[0]).0, aliases, cfg, inputs[1..]);
    var end := Encode(s, aliases, cfg, inputs).0;
    NextRegistry(s, aliases, cfg, inputs[0]);
    NextAccounts(s, aliases, cfg, inputs[0], g, w);
    NextTracks(s, aliases, cfg, inputs[0], g);
    BeforeDispatch(s, aliases, cfg, inputs[0], IDsRead(g), w);
    FilingOf(s, IDsRead(g), w);
    NextLeaves(s, aliases, cfg, inputs[0], p, g, w);
    var c := s1.reg.calls[i].callID;
    LeftIs(t, s1.enc.tools, p, i, c, now);
    RunLeaves(s1, aliases, cfg, inputs[1..], p, Read(g, sent), w + now);
    LeftAloneTransitive(t, s1.enc.tools, end.enc.tools, p, i, c, now, rest);
    LeftIs(t, end.enc.tools, p, i, c, now + rest);
    FrozenOf(t, s.reg);
    NewIDUnsent(t, s.reg, s1.reg, i);
    if p in t.sent { SentIsListed(t, s.reg, p, w); }
    EndFine(s1, aliases, cfg, inputs[1..], last, p, Read(g, sent), w + now);
    FineMeansHarmless(t, end.enc.tools, p, i, c, w, now + rest);
  }

  lemma SentIsListed(t: Tools, r: Registry, p: string, w: seq<nat>)
    requires Filing(t, r) && Accounts(t, r.calls, w) && p in t.states && p in t.sent
    ensures t.states[p] in w
  {
    SentIsRepresented(t, r, p);
  }

  /** An id left behind stays so up to the terminal event, and is fine then if all are. */
  lemma EndFine(s: State, aliases: Aliases, cfg: Config, inputs: seq<Input>, last: Input, p: string, g: Reading, w: seq<nat>)
    requires Valid(s) && Tracks(s.enc, g) && NoneTerminal(inputs) && Accounted(s, IDsRead(g), w)
    requires Stale(s.enc.tools, s.reg.calls, p)
    requires var s' := Encode(s, aliases, cfg, inputs).0; AllFine(s'.enc.tools, Apply(s'.reg, aliases, last.event).calls)
    ensures var end := Encode(s, aliases, cfg, inputs).0.enc.tools;
      var c := s.reg.calls[s.enc.tools.states[p]].callID;
      if p in end.sent then c in end.sent else p in end.done && c !in end.sent
  {
    hide Tracks, Valid, Inv, Accounted, Next, Once, IDsRead, Step, Filing, Apply, LeftAlone, SentCalls, Encode;
    RunLeaves(s, aliases, cfg, inputs, p, g, w);
    var i := s.enc.tools.states[p];
    var s' := Encode(s, aliases, cfg, inputs).0;
    LeftIs(s.enc.tools, s'.enc.tools, p, i, s.reg.calls[i].callID, SentCalls(s, aliases, cfg, inputs));
    RunAccounts(s, aliases, cfg, inputs, g, w);
    FilingOf(s', IDsRead(Read(g, Encode(s, aliases, cfg, inputs).1)), w + SentCalls(s, aliases, cfg, inputs));
    ValidInv(s');
    ApplyKeeps(s'.reg, aliases, last.event);
    FrozenOf(s'.enc.tools, s'.reg);
    StaleStays(s'.enc.tools, s'.reg, Apply(s'.reg, aliases, last.event), p);
    assert Fine(s'.enc.tools, Apply(s'.reg, aliases, last.event).calls, p);
  }

  /** The exact condition on the renames. The message of a complete run in which every call is
      executable and the tools can be flushed at the end has exactly one block for each call, if and
      only if every event that renames a filed call finds its tool done and not yet sent, and finds
      deltas buffered for it unless the encoder gets to it no more before the terminal event. */
  lemma OneBlockEachWhenRenamedHarmlessly(aliases: Aliases, cfg: Config, before: seq<Input>, last: Input)
    requires Valid(START) && NoneTerminal(before) && IsTerminal(last.event)
    requires var s := Encode(START, aliases, cfg, before).0;
      TerminalFlushes(s.enc, last.view, cfg.shorten)
      && AllExecutable(Next(s, aliases, cfg, last).0.reg.calls, last.view.response)
    ensures var s := Encode(START, aliases, cfg, before).0;
      OneEach(Next(s, aliases, cfg, last).0.reg.calls, SentCalls(START, aliases, cfg, before + [last]))
      <==> RenamesHarmlessly(START, aliases, cfg, before + [last], s.enc.tools)
  {
    StartAccounted();
    var s := Encode(START, aliases, cfg, before).0;
    assert AllHarmless(START.enc.tools, START.reg.calls, s.enc.tools);
    hide *;
    ExactlyOneBlockEach(aliases, cfg, before, last);
    RunAccounts(START, aliases, cfg, before, Begin, []);
    NextRegistry(s, aliases, cfg, last);
    assert [] + SentCalls(START, aliases, cfg, before) == SentCalls(START, aliases, cfg, before);
    if RenamesHarmlessly(START, aliases, cfg, before + [last], s.enc.tools) {
      RunHarmless(START, aliases, cfg, before, last, Begin, []);
      HarmlessIsFine(s.enc.tools, Apply(s.reg, aliases, last.event).calls, s.enc.tools);
    }
    if NeverRepeats(START, aliases, cfg, before) && AllFine(s.enc.tools, Apply(s.reg, aliases, last.event).calls) {
      HarmlessNeeded(START, aliases, cfg, before, last, Begin, []);
    }
  }

  /** When no filed call is renamed, the renames are harmless for sure. */
  lemma {:induction false} NoFiledIsHarmless(s: State, aliases: Aliases, cfg: Config, inputs: seq<Input>, end: Tools)
    requires Valid(s) && RenamesNoFiled(s, aliases, cfg, inputs)
    ensures RenamesHarmlessly(s, aliases, cfg, inputs, end)
    decreases |inputs|
  {
    hide Valid, Next, Apply, KeepsFiled, HarmlessStep;
    if inputs != [] {
      ValidInv(s);
      KeepsIsHarmless(s.enc.tools, s.reg, Apply(s.reg, aliases, inputs[0].event), end);
      NoFiledIsHarmless(Next(s, aliases, cfg, inputs[0]).0, aliases, cfg, inputs[1..], end);
    }
  }

  lemma KeepsIsHarmless(t: Tools, r: Registry, s: Registry, end: Tools)
    requires KeepsFiled(t, r, s) && forall id | id in t.states :: t.states[id] < |r.calls|
    ensures HarmlessStep(t, r, s, end)
  {}

  /** So no call is missing and none is sent twice in a run that renames no filed call. */
  lemma OneBlockEachWithoutRenames(aliases: Aliases, cfg: Config, before: seq<Input>, last: Input)
    requires Valid(START) && NoneTerminal(before) && IsTerminal(last.event)
    requires RenamesNoFiled(START, aliases, cfg, before + [last])
    requires var s := Encode(START, aliases, cfg, before).0;
      TerminalFlushes(s.enc, last.view, cfg.shorten)
      && AllExecutable(Next(s, aliases, cfg, last).0.reg.calls, last.view.response)
    ensures var s := Encode(START, aliases, cfg, before).0;
      OneEach(Next(s, aliases, cfg, last).0.reg.calls, SentCalls(START, aliases, cfg, before + [last]))
  {
    hide *;
    NoFiledIsHarmless(START, aliases, cfg, before + [last], Encode(START, aliases, cfg, before).0.enc.tools);
    OneBlockEachWhenRenamedHarmlessly(aliases, cfg, before, last);
  }
}
