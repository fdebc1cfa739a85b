/** How a renamed call can hold up others: an id that a call has left behind before its tool was done
    is never completed, and a flush goes no further. */
module EncoderStuck {
  import opened Text
  import opened Json
  import opened ToolCalls
  import opened ToolCallLaws
  import opened Encoder
  import opened Messages
  import opened EncoderGrammar
  import opened EncoderRuns
  import opened EncoderTools
  import opened EncoderCalls
  import opened EncoderCoverage
  import opened EncoderRenames

  // ----- tools held back for good -----

  /** The m-th id of the order is waiting, and it is no call's id: nothing will ever complete it. */
  ghost predicate Holds(t: Tools, calls: seq<Call>, m: nat) {
    && m < |t.order| && Waiting(t, t.order[m])
    && forall x | 0 <= x < |calls| :: calls[x].callID != t.order[m]
  }

  /** Call j is neither filed under one of the first m ids of the order nor called by one. */
  ghost predicate Behind(t: Tools, calls: seq<Call>, m: nat, j: nat) {
    && m <= |t.order|
    && (forall l | 0 <= l < m :: !(t.order[l] in t.states && t.states[t.order[l]] == j))
    && (j < |calls| ==> forall l | 0 <= l < m :: t.order[l] != calls[j].callID)
  }

  lemma EmitHolds(e: Enc, calls: seq<Call>, m: nat, j: nat, id: string, shorten: string -> string)
    requires Holds(e.tools, calls, m) && Behind(e.tools, calls, m, j) && Pending(e.tools, id) && e.tools.states[id] < |calls|
    ensures var t' := EmitTool(e, id, calls[e.tools.states[id]], shorten).0.tools;
      Holds(t', calls, m) && Behind(t', calls, m, j)
  {
    var c := calls[e.tools.states[id]];
    EmitEmits(e, id, c, shorten);
    hide EmitTool;
    EmitsSent(e.tools, EmitTool(e, id, c, shorten).0.tools, id, c, e.tools.order[m]);
  }

  lemma {:induction false} FlushHolds(e: Enc, calls: seq<Call>, k: nat, m: nat, j: nat, shorten: string -> string)
    requires k <= m && InRange(e, calls) && Holds(e.tools, calls, m) && Behind(e.tools, calls, m, j)
    ensures j !in FlushCalls(e, calls, k, shorten)
    ensures var t' := FlushFrom(e, calls, k, shorten).0.tools; Holds(t', calls, m) && Behind(t', calls, m, j)
    decreases m - k
  {
    hide EmitTool;
    var id := e.tools.order[k];
    if k < m {
      if id in e.tools.sent || id !in e.tools.states {
        FlushHolds(e, calls, k + 1, m, j, shorten);
      } else if id in e.tools.done {
        EmitHolds(e, calls, m, j, id, shorten);
        EmitKeepsOrder(e, id, calls[e.tools.states[id]], shorten);
        FlushHolds(EmitTool(e, id, calls[e.tools.states[id]], shorten).0, calls, k + 1, m, j, shorten);
      }
    }
  }

  lemma CompletingHolds(e: Enc, calls: seq<Call>, m: nat, j: nat, i: nat)
    requires i < |calls| && InRange(e, calls) && Holds(e.tools, calls, m) && Behind(e.tools, calls, m, j)
    ensures var f := Completing(e, calls, i);
      InRange(f, calls) && Holds(f.tools, calls, m) && Behind(f.tools, calls, m, j)
    ensures var f := RegisterTool(e, calls, i);
      InRange(f, calls) && Holds(f.tools, calls, m) && Behind(f.tools, calls, m, j)
  {
    var t, f := e.tools, Completing(e, calls, i).tools;
    assert t.order <= f.order;
    assert f.order[m] == t.order[m];
    forall l | 0 <= l < m ensures !(f.order[l] in f.states && f.states[f.order[l]] == j) {
      assert f.order[l] == t.order[l];
    }
  }

  lemma EventHolds(e: Enc, event: Event, r: Registry, m: nat, j: nat, shorten: string -> string)
    requires Sound(r) && InRange(e, r.calls) && Holds(e.tools, r.calls, m) && Behind(e.tools, r.calls, m, j)
    ensures j !in EventCalls(e, event, r, shorten)
    ensures var t' := ToolsAfter(e, event, r, shorten); Holds(t', r.calls, m) && Behind(t', r.calls, m, j)
  {
    hide Holds, Behind, CallForEvent, FlushFrom, FlushCalls, ToolDelta, CompletesTool, StringValue, Completing;
    DeltaKindsDoNotComplete(event);
    var call := CallForEvent(r, event);
    if call.Some? {
      var i := call.value;
      CompletingHolds(e, r.calls, m, j, i);
      CompleteToolIs(e, r.calls, i, shorten);
      if CompletesTool(event) {
        if e.open.None? { FlushHolds(Completing(e, r.calls, i), r.calls, 0, m, j, shorten); }
      } else {
        DeltaFiling(e, r.calls, i, StringValue(event.raw, "delta"));
        SameHolds(RegisterTool(e, r.calls, i).tools, ToolDelta(e, r.calls, i, StringValue(event.raw, "delta")).tools, r.calls, m, j);
      }
    }
  }

  lemma SameHolds(t: Tools, t': Tools, calls: seq<Call>, m: nat, j: nat)
    requires Holds(t, calls, m) && Behind(t, calls, m, j)
    requires t'.states == t.states && t'.order == t.order && t'.sent == t.sent && t'.done == t.done
    ensures Holds(t', calls, m) && Behind(t', calls, m, j)
  {}

  lemma {:induction false} SettleHolds(e: Enc, calls: seq<Call>, response: Fields, i: nat, m: nat, j: nat)
    requires i <= |calls| && InRange(e, calls) && Holds(e.tools, calls, m) && Behind(e.tools, calls, m, j)
    ensures var t' := Settle(e, calls, response, i).tools; Holds(t', calls, m) && Behind(t', calls, m, j)
    decreases |calls| - i
  {
    hide Executable, Holds, Behind;
    if i < |calls| {
      if !Executable(calls[i], response) {
        var e1 := e.(tools := e.tools.(states := e.tools.states - {calls[i].callID}));
        DropHolds(e.tools, calls, i, m, j);
        SettleHolds(e1, calls, response, i + 1, m, j);
      } else {
        CompletingHolds(e, calls, m, j, i);
        SettleHolds(Completing(e, calls, i), calls, response, i + 1, m, j);
      }
    }
  }

  lemma DropHolds(t: Tools, calls: seq<Call>, i: nat, m: nat, j: nat)
    requires i < |calls| && Holds(t, calls, m) && Behind(t, calls, m, j)
    ensures var t' := t.(states := t.states - {calls[i].callID}); Holds(t', calls, m) && Behind(t', calls, m, j)
  {}

  lemma TerminalHolds(e: Enc, calls: seq<Call>, view: View, m: nat, j: nat, shorten: string -> string)
    requires InRange(e, calls) && Holds(e.tools, calls, m) && Behind(e.tools, calls, m, j)
    ensures j !in TerminalCalls(e, calls, view, shorten)
  {
    hide Holds, Behind, FlushCalls, HydrateThinking, HydrateSearches, HydrateText, FlushTerminalTools, ToolStreamStarted, Settle;
    SettleHolds(e, calls, view.response, 0, m, j);
    HydrateKeepsStates(Settle(e, calls, view.response, 0), calls, view, shorten, ToolStreamStarted(e));
    var f := AtFlush(e, calls, view, shorten);
    assert f.tools == Settle(e, calls, view.response, 0).tools;
    FlushHolds(f, calls, 0, m, j, shorten);
  }

  /** An id that was left behind while it waits holds up, and call j is filed behind it or not yet. */
  ghost predicate StuckBefore(s: State, m: nat, j: nat) {
    && m < |s.enc.tools.order| && Waiting(s.enc.tools, s.enc.tools.order[m])
    && Stale(s.enc.tools, s.reg.calls, s.enc.tools.order[m])
    && forall l | 0 <= l < m :: !(s.enc.tools.order[l] in s.enc.tools.states && s.enc.tools.states[s.enc.tools.order[l]] == j)
  }

  lemma StuckHolds(t: Tools, r: Registry, s: Registry, m: nat, j: nat)
    requires Filing(t, r) && Step(r, s) && Filing(t, s)
    requires m < |t.order| && Waiting(t, t.order[m]) && Stale(t, r.calls, t.order[m])
    requires forall l | 0 <= l < m :: !(t.order[l] in t.states && t.states[t.order[l]] == j)
    ensures Stale(t, s.calls, t.order[m]) && Holds(t, s.calls, m) && Behind(t, s.calls, m, j)
  {
    StaleStays(t, r, s, t.order[m]);
    StaleIsNobodys(t, s);
    assert Homes(t, s) && Ordered(t);
    hide Step, Filing;
    forall l | 0 <= l < m ensures t.order[l] in t.states {}
  }

  lemma NextStuck(s: State, aliases: Aliases, cfg: Config, input: Input, g: Reading, w: seq<nat>, m: nat, j: nat)
    requires Valid(s) && Tracks(s.enc, g) && Accounted(s, IDsRead(g), w) && StuckBefore(s, m, j)
    ensures j !in NextCalls(s, aliases, cfg, input)
    ensures !IsTerminal(input.event) ==> StuckBefore(Next(s, aliases, cfg, input).0, m, j)
  {
    hide Next, Valid, Inv, Step, Tracks, ToolsAfter, EventCalls, TerminalCalls, Accounted, Filing, Accounts, BlocksNamed, IDsRead, Holds, Behind, Waiting, Stale;
    BeforeDispatch(s, aliases, cfg, input, IDsRead(g), w);
    FilingOf(s, IDsRead(g), w);
    NextValid(s, aliases, cfg, input);
    var e, r, t := Started(s.enc), Next(s, aliases, cfg, input).0.reg, s.enc.tools;
    StuckHolds(t, s.reg, r, m, j);
    if IsTerminal(input.event) {
      TerminalHolds(e, r.calls, input.view, m, j, cfg.shorten);
    } else {
      NextTools(s, aliases, cfg, input);
      EventHolds(e, input.event, r, m, j, cfg.shorten);
      EventMarks(e, input.event, r, cfg.shorten);
      StuckAgain(t, ToolsAfter(e, input.event, r, cfg.shorten), r.calls, m, j);
    }
  }

  lemma StuckAgain(t: Tools, t': Tools, calls: seq<Call>, m: nat, j: nat)
    requires Holds(t', calls, m) && Behind(t', calls, m, j) && Grows(t, t')
    requires m < |t.order| && Stale(t, calls, t.order[m])
    ensures m < |t'.order| && Waiting(t', t'.order[m]) && Stale(t', calls, t'.order[m])
    ensures forall l | 0 <= l < m :: !(t'.order[l] in t'.states && t'.states[t'.order[l]] == j)
  {
    assert t'.order[m] == t.order[m];
  }

  /** Coverage is lost for good: once a filed call has been renamed while its tool was not done, neither
      that call nor any call filed after it is ever sent, whatever comes and whether or not they are
      executable. */
  lemma {:induction false} StuckForGood(s: State, aliases: Aliases, cfg: Config, inputs: seq<Input>, last: Input, g: Reading, w: seq<nat>, m: nat, j: nat)
    requires Valid(s) && Tracks(s.enc, g) && Accounted(s, IDsRead(g), w) && StuckBefore(s, m, j) && NoneTerminal(inputs)
    ensures j !in SentCalls(s, aliases, cfg, inputs + [last])
    decreases |inputs|
  {
    hide Valid, Tracks, Accounted, StuckBefore, Next, NextCalls, IDsRead, Once, RepeatsTool, Grows;
    if inputs == [] {
      assert inputs + [last] == [last];
      NextStuck(s, aliases, cfg, last, g, w, m, j);
      assert SentCalls(Next(s, aliases, cfg, last).0, aliases, cfg, []) == [];
    } else {
      assert (inputs + [last])[0] == inputs[0] && (inputs + [last])[1..] == inputs[1..] + [last];
      NextStuck(s, aliases, cfg, inputs[0], g, w, m, j);
      NextAccounts(s, aliases, cfg, inputs[0], g, w);
      NextTracks(s, aliases, cfg, inputs[0], g);
      var (s1, sent) := Next(s, aliases, cfg, inputs[0]);
      StuckForGood(s1, aliases, cfg, inputs[1..], last, Read(g, sent), w + NextCalls(s, aliases, cfg, inputs[0]), m, j);
    }
  }

  /** The same from the start of the run: a call that has no block by then has none in the end. */
  lemma RenamedTooEarly(aliases: Aliases, cfg: Config, before: seq<Input>, after: seq<Input>, last: Input, m: nat, j: nat)
    requires Valid(START) && NoneTerminal(before) && NoneTerminal(after)
    requires var s := Encode(START, aliases, cfg, before).0; StuckBefore(s, m, j)
    ensures var s := Encode(START, aliases, cfg, before).0;
      && j !in SentCalls(s, aliases, cfg, after + [last])
      && (s.enc.tools.states[s.enc.tools.order[m]] == j ==> j !in SentCalls(START, aliases, cfg, before))
  {
    StartAccounted();
    hide *;
    var (s, trace) := Encode(START, aliases, cfg, before);
    var w := SentCalls(START, aliases, cfg, before);
    RunAccounts(START, aliases, cfg, before, Begin, []);
    assert [] + w == w;
    RunTracks(START, aliases, cfg, before, Begin);
    StuckForGood(s, aliases, cfg, after, last, Read(Begin, trace), w, m, j);
    FilingOf(s, IDsRead(Read(Begin, trace)), w);
    StuckHasNone(s, m, j, w);
  }

  lemma StuckHasNone(s: State, m: nat, j: nat, w: seq<nat>)
    requires Filing(s.enc.tools, s.reg) && Accounts(s.enc.tools, s.reg.calls, w) && StuckBefore(s, m, j)
    ensures s.enc.tools.order[m] in s.enc.tools.states
    ensures s.enc.tools.states[s.enc.tools.order[m]] == j ==> j !in w
  {
    FilingFlushes(s.enc.tools, s.reg);
    hide Filing, Flushable, Represented;
    WaitingHasNone(s.enc.tools, s.reg, s.enc.tools.order[m]);
  }
}
