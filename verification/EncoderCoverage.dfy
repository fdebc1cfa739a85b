/** How many blocks every tool call has in the streamed message, on every run, and exactly when it is
    one: first for the events before the terminal one, then for the whole message. */
module EncoderCoverage {
  import opened Text
  import opened Json
  import opened ToolCalls
  import opened ToolCallLaws
  import opened Encoder
  import opened Messages
  import opened EncoderGrammar
  import opened EncoderRuns
  import opened EncoderTools
  import opened EncoderCalls

  // ----- the calls whose blocks a run sends -----

  /** The encoder when the terminal event comes to flush the tools. */
  function AtFlush(e: Enc, calls: seq<Call>, view: View, shorten: string -> string): (f: Enc)
    requires InRange(e, calls)
    ensures InRange(f, calls)
  {
    if ToolStreamStarted(e) then Settle(e, calls, view.response, 0) else Hydrated(e, calls, view, shorten)
  }

  /** The calls whose blocks the terminal event sends. */
  function TerminalCalls(e: Enc, calls: seq<Call>, view: View, shorten: string -> string): seq<nat>
    requires InRange(e, calls)
  {
    var f := AtFlush(e, calls, view, shorten);
    if f.open.Some? then [] else FlushCalls(f, calls, 0, shorten)
  }

  function NextCalls(s: State, aliases: Aliases, cfg: Config, input: Input): seq<nat>
    requires Valid(s)
  {
    var reg := Next(s, aliases, cfg, input).0.reg;
    if IsTerminal(input.event) then TerminalCalls(Started(s.enc), reg.calls, input.view, cfg.shorten)
    else EventCalls(Started(s.enc), input.event, reg, cfg.shorten)
  }

  /** The call of every tool block of a run, in the order of the blocks. */
  function SentCalls(s: State, aliases: Aliases, cfg: Config, inputs: seq<Input>): seq<nat>
    requires Valid(s)
    decreases |inputs|
  {
    if inputs == [] then []
    else NextCalls(s, aliases, cfg, inputs[0]) + SentCalls(Next(s, aliases, cfg, inputs[0]).0, aliases, cfg, inputs[1..])
  }

  /** No event of the run makes the encoder get to a tool whose call has a block already. */
  ghost predicate NeverRepeats(s: State, aliases: Aliases, cfg: Config, inputs: seq<Input>)
    requires Valid(s)
    decreases |inputs|
  {
    inputs != [] ==>
      var s1 := Next(s, aliases, cfg, inputs[0]).0;
      !RepeatsTool(Started(s.enc), inputs[0].event, s1.reg) && NeverRepeats(s1, aliases, cfg, inputs[1..])
  }

  /** The state of a run and the blocks it has sent: the filing is in order, w lists the calls that
      have blocks, and ids the ids they were sent under. */
  ghost predicate Accounted(s: State, ids: seq<string>, w: seq<nat>) {
    Filing(s.enc.tools, s.reg) && Accounts(s.enc.tools, s.reg.calls, w) && BlocksNamed(s.enc.tools, s.reg.calls, ids, w)
  }

  /** The accumulator applies an event: the accounts stay as they are. */
  lemma ApplyAccounts(t: Tools, r: Registry, s: Registry, ids: seq<string>, w: seq<nat>)
    requires Step(r, s) && Filing(t, r) && Accounts(t, r.calls, w) && BlocksNamed(t, r.calls, ids, w)
    ensures Filing(t, s) && Accounts(t, s.calls, w) && BlocksNamed(t, s.calls, ids, w)
  {
    NamedGrow(t, r, s, ids, w);
    FilingGrow(t, r, s);
    hide Step, Filing, BlocksNamed, Represented;
  }

  /** The tools as the encoder has them when it starts on an event. */
  lemma BeforeDispatch(s: State, aliases: Aliases, cfg: Config, input: Input, ids: seq<string>, w: seq<nat>)
    requires Valid(s) && Accounted(s, ids, w)
    ensures var r := Next(s, aliases, cfg, input).0.reg;
      var t := Started(s.enc).tools;
      && r == Apply(s.reg, aliases, input.event) && Step(s.reg, r) && Inv(r) && t == s.enc.tools
      && Filing(t, r) && Accounts(t, r.calls, w) && BlocksNamed(t, r.calls, ids, w)
  {
    hide Apply, Events, Inv, Step, Filing, Accounts, BlocksNamed;
    NextRegistry(s, aliases, cfg, input);
    ApplyKeeps(s.reg, aliases, input.event);
    ApplyAccounts(s.enc.tools, s.reg, Apply(s.reg, aliases, input.event), ids, w);
  }

  lemma NextTools(s: State, aliases: Aliases, cfg: Config, input: Input)
    requires Valid(s) && !IsTerminal(input.event)
    ensures var s' := Next(s, aliases, cfg, input).0;
      && InRange(Started(s.enc), s'.reg.calls)
      && s'.enc.tools == ToolsAfter(Started(s.enc), input.event, s'.reg, cfg.shorten)
  {
    hide Apply, Dispatch, ToolsAfter, Inv;
    StartedIs(s.enc, input.view);
    var r := Next(s, aliases, cfg, input).0.reg;
    assert r == Apply(s.reg, aliases, input.event);
    DispatchTools(Started(s.enc), input.event, r, input.view, input.reasoning, cfg);
  }

  /** One event before the terminal one. */
  lemma NextAccounts(s: State, aliases: Aliases, cfg: Config, input: Input, g: Reading, w: seq<nat>)
    requires Valid(s) && Tracks(s.enc, g) && !IsTerminal(input.event) && Accounted(s, IDsRead(g), w)
    ensures var (s', sent) := Next(s, aliases, cfg, input);
      var w' := w + NextCalls(s, aliases, cfg, input);
      && Accounted(s', IDsRead(Read(g, sent)), w')
      && Grows(s.enc.tools, s'.enc.tools)
      && (Once(w') <==> Once(w) && !RepeatsTool(Started(s.enc), input.event, s'.reg))
  {
    hide Next, Valid, Inv, Step, Tracks, ToolsAfter, EventCalls, EventBlocks, Filing, Accounts, BlocksNamed, Once, RepeatsTool, Grows, IDsOf, ToolsRead;
    var (s', sent) := Next(s, aliases, cfg, input);
    var e := Started(s.enc);
    BeforeDispatch(s, aliases, cfg, input, IDsRead(g), w);
    NextTools(s, aliases, cfg, input);
    NextValid(s, aliases, cfg, input);
    EventAccounts(e, input.event, s'.reg, w, cfg.shorten);
    EventMarks(e, input.event, s'.reg, cfg.shorten);
    NextSends(s, aliases, cfg, input, g);
    IDsOfAppend(ToolsRead(g), EventBlocks(e, input.event, s'.reg, cfg.shorten));
    NamedMore(s.enc.tools, s'.enc.tools, s'.reg.calls, IDsRead(g), w, EventCalls(e, input.event, s'.reg, cfg.shorten));
  }

  lemma NextValid(s: State, aliases: Aliases, cfg: Config, input: Input)
    requires Valid(s)
    ensures var s' := Next(s, aliases, cfg, input).0;
      Valid(s') && Inv(s'.reg) && Sound(s'.reg) && InRange(Started(s.enc), s'.reg.calls) && Started(s.enc).tools == s.enc.tools
  {
    hide Apply, Events;
  }

  lemma {:induction false} RunAccounts(s: State, aliases: Aliases, cfg: Config, inputs: seq<Input>, g: Reading, w: seq<nat>)
    requires Valid(s) && Tracks(s.enc, g) && NoneTerminal(inputs) && Accounted(s, IDsRead(g), w)
    ensures var (s', sent) := Encode(s, aliases, cfg, inputs);
      var w' := w + SentCalls(s, aliases, cfg, inputs);
      && Accounted(s', IDsRead(Read(g, sent)), w')
      && (Once(w') <==> Once(w) && NeverRepeats(s, aliases, cfg, inputs))
    decreases |inputs|
  {
    hide Tracks, Valid, Accounted, Next, NextCalls, Once, RepeatsTool, IDsRead;
    assert w + [] == w;
    if inputs != [] {
      NextAccounts(s, aliases, cfg, inputs[0], g, w);
      NextTracks(s, aliases, cfg, inputs[0], g);
      var (s1, sent) := Next(s, aliases, cfg, inputs[0]);
      var now := NextCalls(s, aliases, cfg, inputs[0]);
      RunAccounts(s1, aliases, cfg, inputs[1..], Read(g, sent), w + now);
      ReadAppend(g, sent, Encode(s1, aliases, cfg, inputs[1..]).1);
      var rest := SentCalls(s1, aliases, cfg, inputs[1..]);
      assert w + now + rest == w + (now + rest);
    }
  }

  lemma StartAccounted()
    ensures Valid(START) && Accounted(START, [], []) && IDsRead(Begin) == [] && Tracks(START.enc, Begin) && Once([])
  {
    StartIsValid();
  }

  /** Every tool block belongs to one call, and blocks with the same id to the same call; and on any
      run no call has a second block exactly when no event makes the encoder get to a tool whose
      call has a block already. */
  lemma AtMostOneBlockPerCall(aliases: Aliases, cfg: Config, inputs: seq<Input>)
    requires NoneTerminal(inputs)
    ensures Valid(START)
    ensures var (s, trace) := Encode(START, aliases, cfg, inputs);
      var ids, w := IDsRead(Read(Begin, trace)), SentCalls(START, aliases, cfg, inputs);
      && BlocksNamed(s.enc.tools, s.reg.calls, ids, w)
      && (forall a, b | 0 <= a < |ids| && 0 <= b < |ids| && ids[a] == ids[b] :: w[a] == w[b])
      && (Once(w) <==> NeverRepeats(START, aliases, cfg, inputs))
  {
    StartAccounted();
    hide Tracks, Encode, SentCalls, NeverRepeats, BlocksNamed, Filing, Accounts, Once, IDsRead, Inv;
    var w := SentCalls(START, aliases, cfg, inputs);
    RunAccounts(START, aliases, cfg, inputs, Begin, []);
    assert [] + w == w;
    var (s, trace) := Encode(START, aliases, cfg, inputs);
    NamedLengths(s.enc.tools, s.reg.calls, IDsRead(Read(Begin, trace)), w);
    FilingFlushes(s.enc.tools, s.reg);
    IDsTellCalls(s.enc.tools, s.reg, IDsRead(Read(Begin, trace)), w);
  }

  lemma NamedLengths(t: Tools, calls: seq<Call>, ids: seq<string>, w: seq<nat>)
    requires BlocksNamed(t, calls, ids, w)
    ensures |ids| == |w|
  {}

  // ----- the last flush -----

  /** An id p that its call has left behind does no harm in the last flush: its block and that of the
      call id are both marked as sent; or it is done, and its block is the one still to be sent. */
  predicate Fine(t: Tools, calls: seq<Call>, p: string)
    requires p in t.states && t.states[p] < |calls|
  {
    if p in t.sent then calls[t.states[p]].callID in t.sent
    else p in t.done && calls[t.states[p]].callID !in t.sent
  }

  ghost predicate AllFine(t: Tools, calls: seq<Call>) {
    forall p | Stale(t, calls, p) :: Fine(t, calls, p)
  }

  /** Every call has exactly one block. */
  ghost predicate OneEach(calls: seq<Call>, w: seq<nat>) {
    Once(w) && forall i | 0 <= i < |calls| :: i in w
  }

  ghost predicate AllExecutable(calls: seq<Call>, response: Fields) {
    forall i | 0 <= i < |calls| :: Executable(calls[i], response)
  }

  lemma SettleOne(e: Enc, r: Registry, i: nat)
    requires i < |r.calls| && Inv(r) && InRange(e, r.calls) && Filing(e.tools, r)
    ensures var f := Completing(e, r.calls, i);
      && InRange(f, r.calls) && Filing(f.tools, r) && f.tools.sent == e.tools.sent && Grows(e.tools, f.tools)
      && (forall id :: Stale(f.tools, r.calls, id) <==> Stale(e.tools, r.calls, id))
      && (forall id | Stale(e.tools, r.calls, id) :: id in f.tools.done <==> id in e.tools.done)
      && r.calls[i].callID in f.tools.states && r.calls[i].callID in f.tools.done
      && (forall j: nat :: Represented(f.tools, r.calls, j) <==> Represented(e.tools, r.calls, j))
  {
    RegisterFiles(e, r, i);
    RegisterGrows(e, r, i);
    var t := RegisterTool(e, r.calls, i);
    DoneFiles(t.tools, r, r.calls[i].callID);
    FilingFlushes(e.tools, r);
    StaleIsNobodys(e.tools, r);
    hide Inv, Represented, Filing;
  }

  lemma StaleIsNobodys(t: Tools, r: Registry)
    requires Flushable(t, r)
    ensures forall id, j | Stale(t, r.calls, id) && 0 <= j < |r.calls| :: r.calls[j].callID != id
  {
    hide Ordered, StaleFrozen, StaleFirst, Known, SentFiled, WaitingUnsent;
  }

  /** None of the calls from i on has the id. */
  ghost predicate NotFrom(calls: seq<Call>, i: nat, id: string) {
    forall x | i <= x < |calls| :: calls[x].callID != id
  }

  /** Every listed id is filed, but for those of calls among the first i that are not executable. */
  ghost predicate ListedBut(t: Tools, calls: seq<Call>, response: Fields, i: nat)
    requires i <= |calls|
  {
    forall id | id in t.order :: id in t.states || Stopped(calls, response, i, id)
  }

  /** f is t with the executable calls from i on filed under their call ids and done, and the others from
      i on not filed. */
  ghost predicate SettledFrom(t: Tools, f: Tools, r: Registry, response: Fields, i: nat) {
    && Flushable(f, r) && f.sent == t.sent
    && (forall id | NotFrom(r.calls, i, id) ::
          && (id in f.states <==> id in t.states) && (id in f.states ==> f.states[id] == t.states[id])
          && (id in f.done <==> id in t.done))
    && (forall j | i <= j < |r.calls| :: SettledCall(f, r.calls[j], response))
  }

  predicate SettledCall(f: Tools, c: Call, response: Fields) {
    if Executable(c, response) then c.callID in f.states && c.callID in f.done else c.callID !in f.states
  }

  lemma DropFlushable(t: Tools, r: Registry, i: nat)
    requires i < |r.calls| && Flushable(t, r)
    ensures var t' := t.(states := t.states - {r.calls[i].callID});
      && Flushable(t', r)
      && (forall id :: Stale(t', r.calls, id) <==> Stale(t, r.calls, id))
  {
    StaleIsNobodys(t, r);
    var t' := t.(states := t.states - {r.calls[i].callID});
    assert Homes(t', r) && Ordered(t') && Known(t', r);
    hide Ordered, Homes, Known;
    forall a, b | 0 <= a < b < |t'.order| && SameCall(t', t'.order[a], t'.order[b]) ensures !Stale(t', r.calls, t'.order[b]) {
      assert SameCall(t, t.order[a], t.order[b]);
    }
    forall id | Stale(t', r.calls, id)
      ensures !Placeholder(r.calls[t'.states[id]]) && (Waiting(t', id) ==> r.calls[t'.states[id]].callID !in t'.sent)
    {
      assert Stale(t, r.calls, id) && (Waiting(t', id) ==> Waiting(t, id));
    }
  }

  lemma DropRepresents(t: Tools, r: Registry, i: nat)
    requires i < |r.calls| && Homes(t, r)
    ensures var t' := t.(states := t.states - {r.calls[i].callID});
      forall j: nat :: Represented(t', r.calls, j) <==> Represented(t, r.calls, j)
  {
    var t' := t.(states := t.states - {r.calls[i].callID});
    forall j: nat ensures Represented(t', r.calls, j) <==> Represented(t, r.calls, j) {
      assert r.calls[i].callID in t.states ==> t.states[r.calls[i].callID] == i;
      assert forall id | id in t'.states :: t'.states[id] == t.states[id];
    }
  }

  /** From t to t1 nothing changes but what is filed and done under own. */
  ghost predicate OthersKept(t: Tools, t1: Tools, own: string) {
    forall id | id != own ::
      && (id in t1.states <==> id in t.states) && (id in t1.states ==> t1.states[id] == t.states[id])
      && (id in t1.done <==> id in t.done)
  }

  lemma CompletingFlushable(e: Enc, r: Registry, i: nat)
    requires i < |r.calls| && Inv(r) && InRange(e, r.calls) && Flushable(e.tools, r)
    requires r.calls[i].callID in e.tools.order ==> r.calls[i].callID in e.tools.states
    ensures var f := Completing(e, r.calls, i);
      && InRange(f, r.calls) && Flushable(f.tools, r) && f.tools.sent == e.tools.sent
      && OthersKept(e.tools, f.tools, r.calls[i].callID)
      && r.calls[i].callID in f.tools.states && r.calls[i].callID in f.tools.done
      && (forall j: nat :: Represented(f.tools, r.calls, j) <==> Represented(e.tools, r.calls, j))
  {
    hide Inv, Represented, Flushable, RegisterTool, OthersKept, Completing;
    RegisterFlushable(e, r, i);
    CompletingTools(e, r.calls, i);
    DoneFlushable(RegisterTool(e, r.calls, i).tools, r, r.calls[i].callID);
  }

  lemma CompletingTools(e: Enc, calls: seq<Call>, i: nat)
    requires i < |calls| && InRange(e, calls)
    ensures var t, f, own := RegisterTool(e, calls, i).tools, Completing(e, calls, i), calls[i].callID;
      && InRange(f, calls) && f.tools == t.(done := t.done + {own})
      && OthersKept(e.tools, f.tools, own) && own in f.tools.states && own in f.tools.done && f.tools.sent == e.tools.sent
  {}

  lemma CompletingListed(e: Enc, calls: seq<Call>, response: Fields, i: nat)
    requires i < |calls| && ListedBut(e.tools, calls, response, i)
    ensures ListedBut(Completing(e, calls, i).tools, calls, response, i + 1)
  {
    hide Executable, Stopped;
    forall id | id in Completing(e, calls, i).tools.order
      ensures id in Completing(e, calls, i).tools.states || Stopped(calls, response, i + 1, id)
    {
      OneMore(calls, response, i, id);
    }
  }

  lemma DropListed(t: Tools, calls: seq<Call>, response: Fields, i: nat)
    requires i < |calls| && ListedBut(t, calls, response, i) && !Executable(calls[i], response)
    ensures ListedBut(t.(states := t.states - {calls[i].callID}), calls, response, i + 1)
  {
    hide Executable, Stopped;
    forall id | id in t.order && id !in t.states - {calls[i].callID} ensures Stopped(calls, response, i + 1, id) {
      OneMore(calls, response, i, id);
    }
  }

  lemma {:induction false} SettleFiles(e: Enc, r: Registry, response: Fields, i: nat, w: seq<nat>)
    requires i <= |r.calls| && Inv(r) && InRange(e, r.calls) && Flushable(e.tools, r) && Accounts(e.tools, r.calls, w)
    requires ListedBut(e.tools, r.calls, response, i)
    ensures var f := Settle(e, r.calls, response, i).tools;
      SettledFrom(e.tools, f, r, response, i) && Accounts(f, r.calls, w)
    decreases |r.calls| - i
  {
    hide *;
    if i < |r.calls| {
      SettleNext(e, r, response, i, w);
      SettleIs(e, r.calls, response, i);
      var e1 := if Executable(r.calls[i], response) then Completing(e, r.calls, i)
                else e.(tools := e.tools.(states := e.tools.states - {r.calls[i].callID}));
      SettleFiles(e1, r, response, i + 1, w);
      SettledStep(e.tools, e1.tools, Settle(e1, r.calls, response, i + 1).tools, r, response, i);
    } else {
      SettledAtEnd(e, r, response);
    }
  }

  lemma SettledAtEnd(e: Enc, r: Registry, response: Fields)
    requires InRange(e, r.calls) && Flushable(e.tools, r)
    ensures Settle(e, r.calls, response, |r.calls|) == e && SettledFrom(e.tools, e.tools, r, response, |r.calls|)
  {
    hide Flushable;
  }

  lemma SettleIs(e: Enc, calls: seq<Call>, response: Fields, i: nat)
    requires i < |calls| && InRange(e, calls)
    ensures var e1 := if Executable(calls[i], response) then Completing(e, calls, i)
                      else e.(tools := e.tools.(states := e.tools.states - {calls[i].callID}));
      InRange(e1, calls) && Settle(e, calls, response, i) == Settle(e1, calls, response, i + 1)
  {
    hide Executable;
  }

  /** One turn of the loop. */
  lemma SettleNext(e: Enc, r: Registry, response: Fields, i: nat, w: seq<nat>)
    requires i < |r.calls| && Inv(r) && InRange(e, r.calls) && Flushable(e.tools, r) && Accounts(e.tools, r.calls, w)
    requires ListedBut(e.tools, r.calls, response, i)
    ensures var own := r.calls[i].callID;
      var e1 := if Executable(r.calls[i], response) then Completing(e, r.calls, i)
                else e.(tools := e.tools.(states := e.tools.states - {own}));
      && InRange(e1, r.calls) && Flushable(e1.tools, r) && Accounts(e1.tools, r.calls, w)
      && ListedBut(e1.tools, r.calls, response, i + 1) && e1.tools.sent == e.tools.sent
      && SettledCall(e1.tools, r.calls[i], response) && CallIDsDistinctIn(r.calls)
      && OthersKept(e.tools, e1.tools, own)
  {
    DistinctCallIDs(r);
    NotYetMet(r.calls, response, i);
    assert Homes(e.tools, r);
    hide Executable, Inv, Flushable, Represented, Stopped, Homes, CallIDsDistinctIn, RegisterTool;
    if Executable(r.calls[i], response) {
      assert r.calls[i].callID in e.tools.order ==> r.calls[i].callID in e.tools.states;
      hide ListedBut;
      CompletingFlushable(e, r, i);
      CompletingListed(e, r.calls, response, i);
    } else {
      hide ListedBut;
      DropFlushable(e.tools, r, i);
      DropRepresents(e.tools, r, i);
      DropListed(e.tools, r.calls, response, i);
    }
  }

  /** What the loop does to one call lasts. */
  lemma SettledStep(t: Tools, t1: Tools, f: Tools, r: Registry, response: Fields, i: nat)
    requires i < |r.calls| && CallIDsDistinctIn(r.calls) && SettledFrom(t1, f, r, response, i + 1) && t1.sent == t.sent
    requires SettledCall(t1, r.calls[i], response)
    requires OthersKept(t, t1, r.calls[i].callID)
    ensures SettledFrom(t, f, r, response, i)
  {
    hide Executable, Flushable;
    assert NotFrom(r.calls, i + 1, r.calls[i].callID);
    forall id | NotFrom(r.calls, i, id)
      ensures (id in f.states <==> id in t.states) && (id in f.states ==> f.states[id] == t.states[id])
      ensures id in f.done <==> id in t.done
    {
      assert NotFrom(r.calls, i + 1, id) && id != r.calls[i].callID;
    }
  }

  lemma {:induction false} FlushLeavesWaiting(e: Enc, r: Registry, k: nat, q: string, shorten: string -> string)
    requires k <= |e.tools.order| && InRange(e, r.calls) && Homes(e.tools, r) && Stale(e.tools, r.calls, q) && Waiting(e.tools, q)
    ensures Waiting(FlushFrom(e, r.calls, k, shorten).0.tools, q)
    decreases |e.tools.order| - k
  {
    hide EmitTool;
    if k < |e.tools.order| {
      var id := e.tools.order[k];
      if id in e.tools.sent || id !in e.tools.states {
        FlushLeavesWaiting(e, r, k + 1, q, shorten);
      } else if id in e.tools.done {
        var c := r.calls[e.tools.states[id]];
        EmitEmits(e, id, c, shorten);
        var e1 := EmitTool(e, id, c, shorten).0;
        assert q != c.callID;
        EmitsSent(e.tools, e1.tools, id, c, q);
        SameHomes(e.tools, e1.tools, r);
        FlushLeavesWaiting(e1, r, k + 1, q, shorten);
      }
    }
  }

  lemma SameHomes(t: Tools, t': Tools, r: Registry)
    requires Homes(t, r) && t'.states == t.states
    ensures Homes(t', r) && forall id :: Stale(t', r.calls, id) <==> Stale(t, r.calls, id)
  {}

  lemma OneStale(t: Tools, r: Registry, p: string, q: string)
    requires Ordered(t) && StaleFirst(t, r) && Stale(t, r.calls, p) && Stale(t, r.calls, q) && SameCall(t, p, q)
    ensures p == q
  {
    var a :| 0 <= a < |t.order| && t.order[a] == p;
    var b :| 0 <= b < |t.order| && t.order[b] == q;
    assert SameCall(t, q, p);
  }

  /** A call whose left-behind id waits has no block. */
  lemma WaitingHasNone(t: Tools, r: Registry, q: string)
    requires Flushable(t, r) && Stale(t, r.calls, q) && Waiting(t, q)
    ensures !Represented(t, r.calls, t.states[q])
  {
    hide Known, SentFiled, StaleFrozen;
    var i := t.states[q];
    forall id | id in t.states && t.states[id] == i ensures id !in t.sent {
      if id != q && Stale(t, r.calls, id) { OneStale(t, r, id, q); }
    }
  }

  lemma StuckStaysOut(e: Enc, r: Registry, q: string, w: seq<nat>, shorten: string -> string)
    requires Inv(r) && InRange(e, r.calls) && Flushable(e.tools, r) && Accounts(e.tools, r.calls, w)
    requires Stale(e.tools, r.calls, q) && Waiting(e.tools, q)
    ensures e.tools.states[q] !in w + FlushCalls(e, r.calls, 0, shorten)
  {
    hide Inv, Represented, FlushCalls, FlushFrom, Once, Repeats;
    FlushAccounts(e, r, 0, w, shorten);
    FlushMarks(e, r.calls, 0, shorten);
    FlushLeavesWaiting(e, r, 0, q, shorten);
    var t' := FlushFrom(e, r.calls, 0, shorten).0.tools;
    assert Stale(t', r.calls, q);
    WaitingHasNone(t', r, q);
  }

  ghost predicate NoneWaits(t: Tools) {
    forall id :: !Waiting(t, id)
  }

  /** When nothing waits, a flush gets to everything, and every filed call has a block after it. */
  lemma {:induction false} FlushCovers(e: Enc, r: Registry, k: nat, w: seq<nat>, shorten: string -> string)
    requires k <= |e.tools.order| && Inv(r) && InRange(e, r.calls) && Flushable(e.tools, r) && Accounts(e.tools, r.calls, w)
    requires NoneWaits(e.tools)
    ensures forall m | k <= m < |e.tools.order| && e.tools.order[m] in e.tools.states ::
      e.tools.states[e.tools.order[m]] in w + FlushCalls(e, r.calls, k, shorten)
    decreases |e.tools.order| - k
  {
    hide EmitTool, Inv, Flushable, Represented;
    if k < |e.tools.order| {
      var id := e.tools.order[k];
      if id in e.tools.sent || id !in e.tools.states {
        FlushCovers(e, r, k + 1, w, shorten);
        if id in e.tools.states { SentIsRepresented(e.tools, r, id); }
      } else {
        assert !Waiting(e.tools, id);
        var i := e.tools.states[id];
        EmitEmits(e, id, r.calls[i], shorten);
        var e1 := EmitTool(e, id, r.calls[i], shorten).0;
        EmitFilesFrom(e.tools, e1.tools, r, k);
        AccountsMore(e.tools, e1.tools, r, id, w);
        FlushCovers(e1, r, k + 1, w + [i], shorten);
        var rest := FlushCalls(e1, r.calls, k + 1, shorten);
        assert w + [i] + rest == w + ([i] + rest);
        assert i in w + ([i] + rest);
      }
    }
  }

  lemma SentIsRepresented(t: Tools, r: Registry, id: string)
    requires Flushable(t, r) && id in t.states && id in t.sent
    ensures Represented(t, r.calls, t.states[id])
  {
    hide Ordered, StaleFrozen, StaleFirst, Known, SentFiled, WaitingUnsent;
  }

  lemma EmitFilesFrom(t: Tools, t': Tools, r: Registry, k: nat)
    requires Inv(r) && Flushable(t, r) && NoneWaits(t) && k < |t.order| && Pending(t, t.order[k])
    requires Emits(t, t', t.order[k], r.calls[t.states[t.order[k]]])
    ensures Flushable(t', r) && NoneWaits(t')
  {
    var c := r.calls[t.states[t.order[k]]];
    assert Passed(t, k);
    EmitFiles(t, t', r, k);
    hide Flushable, Inv, Emits;
    assert t'.states == t.states && t'.done == t.done by { SameByEmit(t, t', t.order[k], c); }
    forall id ensures !Waiting(t', id) {
      EmitsSent(t, t', t.order[k], c, id);
      assert !Waiting(t, id);
    }
  }

  lemma SameByEmit(t: Tools, t': Tools, id: string, c: Call)
    requires Emits(t, t', id, c)
    ensures t'.states == t.states && t'.done == t.done
  {}

  // ----- exactly one block each -----

  /** Every call is filed under its call id and done. */
  ghost predicate AllDone(t: Tools, calls: seq<Call>) {
    forall j | 0 <= j < |calls| :: calls[j].callID in t.states && calls[j].callID in t.done
  }

  lemma FineNoneWaits(t: Tools, r: Registry)
    requires Flushable(t, r) && AllDone(t, r.calls) && AllFine(t, r.calls)
    ensures NoneWaits(t)
  {
    hide Ordered, StaleFrozen, StaleFirst, Known, SentFiled, WaitingUnsent;
    forall id ensures !Waiting(t, id) {
      if id in t.states && !Stale(t, r.calls, id) {
        assert r.calls[t.states[id]].callID == id;
      }
    }
  }

  lemma FineRepeatsNot(t: Tools, r: Registry)
    requires Flushable(t, r) && AllFine(t, r.calls)
    ensures !Repeats(t, r.calls, 0)
  {
    hide Reached, Represented;
    forall m: nat ensures !RepeatsAt(t, r.calls, 0, m) {
      if Reached(t, 0, m) {
        ReachedRange(t, 0, m);
        assert Pending(t, t.order[m]) by { ReachedPending(t, 0, m); }
        PendingFineHasNone(t, r, t.order[m]);
      }
    }
  }

  lemma ReachedPending(t: Tools, k: nat, m: nat)
    requires Reached(t, k, m)
    ensures m < |t.order| && Pending(t, t.order[m])
  {}

  lemma PendingFineHasNone(t: Tools, r: Registry, id: string)
    requires Flushable(t, r) && AllFine(t, r.calls) && Pending(t, id)
    ensures !Represented(t, r.calls, t.states[id])
  {
    hide Known, SentFiled, StaleFrozen, WaitingUnsent;
    var i := t.states[id];
    assert i < |r.calls|;
    forall q | q in t.states && t.states[q] == i ensures q !in t.sent {
      if Stale(t, r.calls, q) && Stale(t, r.calls, id) { OneStale(t, r, q, id); }
      assert Stale(t, r.calls, q) ==> Fine(t, r.calls, q);
    }
    assert Stale(t, r.calls, id) ==> Fine(t, r.calls, id);
  }

  lemma NoneWaitsReached(t: Tools, id: string)
    requires Ordered(t) && NoneWaits(t) && Pending(t, id)
    ensures exists m: nat :: m < |t.order| && t.order[m] == id && Reached(t, 0, m)
  {
    var m: nat :| m < |t.order| && t.order[m] == id;
    forall l | 0 <= l < m ensures !Blocks(t, 0, l) { assert !Waiting(t, t.order[l]); }
    assert Reached(t, 0, m);
  }

  lemma PendingRepeats(t: Tools, calls: seq<Call>, id: string)
    requires Ordered(t) && NoneWaits(t) && Pending(t, id) && Represented(t, calls, t.states[id])
    ensures Repeats(t, calls, 0)
  {
    NoneWaitsReached(t, id);
    hide Reached, Represented, Ordered;
    var m: nat :| m < |t.order| && t.order[m] == id && Reached(t, 0, m);
    assert RepeatsAt(t, calls, 0, m);
  }

  /** When no filed tool waits and no flush repeats, every id left behind is fine. */
  lemma FineFrom(t: Tools, r: Registry, p: string)
    requires Flushable(t, r) && AllDone(t, r.calls) && NoneWaits(t) && !Repeats(t, r.calls, 0) && Stale(t, r.calls, p)
    ensures Fine(t, r.calls, p)
  {
    hide Repeats, StaleFrozen, StaleFirst, Known, SentFiled, WaitingUnsent;
    assert !Waiting(t, p);
    var c := r.calls[t.states[p]].callID;
    assert t.states[c] == t.states[p];
    if p in t.sent {
      SentIsRepresented(t, r, p);
      if c !in t.sent { PendingRepeats(t, r.calls, c); }
    } else if c in t.sent {
      PendingRepeats(t, r.calls, p);
    }
  }

  lemma AllDoneNoneWaits(t: Tools, r: Registry)
    requires Flushable(t, r) && AllDone(t, r.calls) && forall q | Stale(t, r.calls, q) :: !Waiting(t, q)
    ensures NoneWaits(t)
  {
    hide Ordered, StaleFrozen, StaleFirst, Known, SentFiled, WaitingUnsent;
    forall id ensures !Waiting(t, id) {
      if id in t.states && !Stale(t, r.calls, id) { assert r.calls[t.states[id]].callID == id; }
    }
  }

  /** A flush in which every call is done completes the message, one block for each call, exactly when
      no call had two blocks and every id left behind is fine. */
  lemma OneEachWhenFine(e: Enc, r: Registry, w: seq<nat>, shorten: string -> string)
    requires Inv(r) && InRange(e, r.calls) && Flushable(e.tools, r) && Accounts(e.tools, r.calls, w)
    requires AllDone(e.tools, r.calls)
    ensures OneEach(r.calls, w + FlushCalls(e, r.calls, 0, shorten)) <==> Once(w) && AllFine(e.tools, r.calls)
  {
    var t, sent := e.tools, FlushCalls(e, r.calls, 0, shorten);
    FlushAccounts(e, r, 0, w, shorten);
    hide Inv, FlushCalls, FlushFrom, Once, Repeats, Represented;
    if Once(w) && AllFine(t, r.calls) {
      FineNoneWaits(t, r);
      FineRepeatsNot(t, r);
      FlushCovers(e, r, 0, w, shorten);
      hide AllFine;
      forall i | 0 <= i < |r.calls| ensures i in w + sent { CoveredCall(t, r, i, w + sent); }
    }
    if OneEach(r.calls, w + sent) {
      assert !Repeats(t, r.calls, 0) && Once(w);
      forall q | Stale(t, r.calls, q) ensures !Waiting(t, q) {
        if Waiting(t, q) { StuckStaysOut(e, r, q, w, shorten); }
      }
      AllDoneNoneWaits(t, r);
      hide Flushable;
      forall p | Stale(t, r.calls, p) ensures Fine(t, r.calls, p) { FineFrom(t, r, p); }
    }
  }

  lemma CoveredCall(t: Tools, r: Registry, i: nat, all: seq<nat>)
    requires Flushable(t, r) && AllDone(t, r.calls) && i < |r.calls|
    requires forall m | 0 <= m < |t.order| && t.order[m] in t.states :: t.states[t.order[m]] in all
    ensures i in all
  {
    hide StaleFrozen, StaleFirst, Known, SentFiled, WaitingUnsent;
    var id := r.calls[i].callID;
    assert t.states[id] == i;
    var m :| 0 <= m < |t.order| && t.order[m] == id;
  }

  // ----- the whole message -----

  lemma {:induction false} SentSnoc(s: State, aliases: Aliases, cfg: Config, inputs: seq<Input>, last: Input)
    requires Valid(s)
    ensures SentCalls(s, aliases, cfg, inputs + [last])
      == SentCalls(s, aliases, cfg, inputs) + NextCalls(Encode(s, aliases, cfg, inputs).0, aliases, cfg, last)
    decreases |inputs|
  {
    hide Valid, Next, NextCalls;
    if inputs == [] {
      assert inputs + [last] == [last];
      assert SentCalls(Next(s, aliases, cfg, last).0, aliases, cfg, []) == [];
      assert [] + NextCalls(s, aliases, cfg, last) == NextCalls(s, aliases, cfg, last) == NextCalls(s, aliases, cfg, last) + [];
    } else {
      assert (inputs + [last])[0] == inputs[0] && (inputs + [last])[1..] == inputs[1..] + [last];
      var s1 := Next(s, aliases, cfg, inputs[0]).0;
      SentSnoc(s1, aliases, cfg, inputs[1..], last);
      var a, b, c := NextCalls(s, aliases, cfg, inputs[0]), SentCalls(s1, aliases, cfg, inputs[1..]),
                     NextCalls(Encode(s, aliases, cfg, inputs).0, aliases, cfg, last);
      assert a + (b + c) == a + b + c;
    }
  }

  /** The tools the terminal event flushes are those it has settled. */
  lemma TerminalFlushed(e: Enc, calls: seq<Call>, view: View, shorten: string -> string)
    requires InRange(e, calls) && Flushes(e, calls, view, shorten)
    ensures var f := AtFlush(e, calls, view, shorten);
      && f.tools == Settle(e, calls, view.response, 0).tools
      && TerminalCalls(e, calls, view, shorten) == FlushCalls(f, calls, 0, shorten)
  {
    hide FlushCalls, HydrateThinking, HydrateSearches, HydrateText, FlushTerminalTools, ToolStreamStarted, Settle;
    SettleKeepsBlocks(e, calls, view.response, 0);
    HydrateKeepsStates(Settle(e, calls, view.response, 0), calls, view, shorten, ToolStreamStarted(e));
  }

  /** Settling touches no id that a call has left behind. */
  lemma SettledStale(t: Tools, f: Tools, r: Registry, response: Fields)
    requires SettledFrom(t, f, r, response, 0) && Homes(t, r)
    ensures forall id :: Stale(f, r.calls, id) <==> Stale(t, r.calls, id)
    ensures forall id | Stale(t, r.calls, id) :: id in f.states && f.states[id] == t.states[id] && (id in f.done <==> id in t.done)
  {
    assert Homes(f, r);
    hide Executable, Flushable;
    forall id | Stale(t, r.calls, id) || Stale(f, r.calls, id) ensures NotFrom(r.calls, 0, id) {}
  }

  lemma SettledFine(t: Tools, f: Tools, r: Registry, response: Fields)
    requires SettledFrom(t, f, r, response, 0) && Homes(t, r)
    ensures AllFine(f, r.calls) <==> AllFine(t, r.calls)
  {
    SettledStale(t, f, r, response);
    hide SettledFrom, Homes;
    assert f.sent == t.sent by { SentSame(t, f, r, response); }
    forall p | Stale(t, r.calls, p) ensures Fine(f, r.calls, p) <==> Fine(t, r.calls, p) {}
  }

  lemma SentSame(t: Tools, f: Tools, r: Registry, response: Fields)
    requires SettledFrom(t, f, r, response, 0)
    ensures f.sent == t.sent && Flushable(f, r)
  {}

  lemma SettledDone(t: Tools, f: Tools, r: Registry, response: Fields)
    requires SettledFrom(t, f, r, response, 0) && AllExecutable(r.calls, response)
    ensures AllDone(f, r.calls)
  {
    hide Executable, Flushable;
    forall j | 0 <= j < |r.calls| ensures r.calls[j].callID in f.states && r.calls[j].callID in f.done {
      assert SettledCall(f, r.calls[j], response);
    }
  }

  lemma ListedAtFirst(t: Tools, r: Registry, response: Fields)
    requires Filing(t, r)
    ensures Flushable(t, r) && ListedBut(t, r.calls, response, 0) && Homes(t, r)
  {
    hide Stopped;
  }

  lemma TerminalOneEach(e: Enc, r: Registry, w: seq<nat>, view: View, shorten: string -> string)
    requires Inv(r) && InRange(e, r.calls) && Filing(e.tools, r) && Accounts(e.tools, r.calls, w)
    requires Flushes(e, r.calls, view, shorten) && AllExecutable(r.calls, view.response)
    ensures OneEach(r.calls, w + TerminalCalls(e, r.calls, view, shorten)) <==> Once(w) && AllFine(e.tools, r.calls)
  {
    hide *;
    TerminalFlushed(e, r.calls, view, shorten);
    var f := AtFlush(e, r.calls, view, shorten);
    ListedAtFirst(e.tools, r, view.response);
    SettleFiles(e, r, view.response, 0, w);
    SettledFine(e.tools, f.tools, r, view.response);
    SettledDone(e.tools, f.tools, r, view.response);
    SentSame(e.tools, f.tools, r, view.response);
    OneEachWhenFine(f, r, w, shorten);
  }

  lemma HomesOf(t: Tools, r: Registry)
    requires Filing(t, r)
    ensures Homes(t, r)
  {}

  /** The message of a complete run in which every call is executable and the tools can be flushed at
      the end has exactly one block for each call, if and only if no event made the encoder get to a
      tool whose call had a block, and every id that a call has left behind is fine on arrival. */
  lemma ExactlyOneBlockEach(aliases: Aliases, cfg: Config, before: seq<Input>, last: Input)
    requires Valid(START) && NoneTerminal(before) && IsTerminal(last.event)
    requires var s := Encode(START, aliases, cfg, before).0;
      TerminalFlushes(s.enc, last.view, cfg.shorten)
      && AllExecutable(Next(s, aliases, cfg, last).0.reg.calls, last.view.response)
    ensures var s := Encode(START, aliases, cfg, before).0;
      var calls := Next(s, aliases, cfg, last).0.reg.calls;
      OneEach(calls, SentCalls(START, aliases, cfg, before + [last]))
      <==> NeverRepeats(START, aliases, cfg, before) && AllFine(s.enc.tools, calls)
  {
    StartAccounted();
    hide *;
    var s := Encode(START, aliases, cfg, before).0;
    var w := SentCalls(START, aliases, cfg, before);
    SentSnoc(START, aliases, cfg, before, last);
    RunAccounts(START, aliases, cfg, before, Begin, []);
    assert [] + w == w;
    TerminalFlushesExactly(aliases, cfg, before, last);
    NextValid(s, aliases, cfg, last);
    LastOneEach(s, aliases, cfg, last, IDsRead(Read(Begin, Encode(START, aliases, cfg, before).1)), w);
  }

  lemma LastOneEach(s: State, aliases: Aliases, cfg: Config, last: Input, ids: seq<string>, w: seq<nat>)
    requires Valid(s) && Accounted(s, ids, w) && IsTerminal(last.event)
    requires var calls := Next(s, aliases, cfg, last).0.reg.calls;
      Flushes(Started(s.enc), calls, last.view, cfg.shorten) && AllExecutable(calls, last.view.response)
    ensures var calls := Next(s, aliases, cfg, last).0.reg.calls;
      OneEach(calls, w + NextCalls(s, aliases, cfg, last)) <==> Once(w) && AllFine(s.enc.tools, calls)
  {
    hide Next, Valid, Inv, Step, Filing, Accounts, BlocksNamed, Accounted, OneEach, AllFine, Once, AllExecutable, Flushes, TerminalCalls;
    BeforeDispatch(s, aliases, cfg, last, ids, w);
    NextValid(s, aliases, cfg, last);
    TerminalOneEach(Started(s.enc), Next(s, aliases, cfg, last).0.reg, w, last.view, cfg.shorten);
  }

  /** id is the call id of call i, or the call is filed under it. */
  predicate Owns(t: Tools, calls: seq<Call>, id: string, i: nat) {
    i < |calls| && (calls[i].callID == id || (id in t.states && t.states[id] == i))
  }

  ghost predicate AllOwned(t: Tools, calls: seq<Call>, ids: seq<string>, w: seq<nat>) {
    && |ids| == |w|
    && (forall k | 0 <= k < |w| :: Owns(t, calls, ids[k], w[k]))
    && (forall a, b | 0 <= a < |w| && 0 <= b < |w| && ids[a] == ids[b] :: w[a] == w[b])
  }

  lemma NamedOwned(t: Tools, r: Registry, ids: seq<string>, w: seq<nat>, v: seq<nat>)
    requires Inv(r) && Filing(t, r) && BlocksNamed(t, r.calls, ids, w) && forall i | i in v :: i < |r.calls|
    ensures AllOwned(t, r.calls, ids + IDsNow(r.calls, v), w + v)
  {
    DistinctCallIDs(r);
    hide Inv, Ordered, StaleFrozen, StaleFirst, Known, SentFiled, WaitingUnsent;
    var all, ids' := w + v, ids + IDsNow(r.calls, v);
    forall k | 0 <= k < |all| ensures Owns(t, r.calls, ids'[k], all[k]) {
      if k < |w| {
        assert NamedFor(t, r.calls, ids[k], w[k]);
      } else {
        assert all[k] == v[k - |w|] && all[k] in v;
      }
    }
    forall a, b | 0 <= a < |all| && 0 <= b < |all| && ids'[a] == ids'[b] ensures all[a] == all[b] {
      assert Owns(t, r.calls, ids'[a], all[a]) && Owns(t, r.calls, ids'[b], all[b]);
    }
  }

  lemma TerminalNames(e: Enc, calls: seq<Call>, view: View, shorten: string -> string)
    requires InRange(e, calls)
    ensures var v := TerminalCalls(e, calls, view, shorten);
      (forall i | i in v :: i < |calls|) && IDsOf(TerminalBlocks(e, calls, view, shorten)) == IDsNow(calls, v)
  {
    hide FlushCalls, FlushBlocks, Settle, Hydrated, ToolStreamStarted, IDsOf;
    var f := AtFlush(e, calls, view, shorten);
    FlushCallsName(f, calls, 0, shorten);
    NoIDs();
  }

  /** What the client sees: SentCalls names, block by block, the call that the block's id belongs to,
      and blocks with the same id belong to the same call. */
  lemma BlocksOfTheMessage(aliases: Aliases, cfg: Config, before: seq<Input>, last: Input)
    requires Valid(START) && NoneTerminal(before) && IsTerminal(last.event)
    ensures var s := Encode(START, aliases, cfg, before).0;
      AllOwned(s.enc.tools, Next(s, aliases, cfg, last).0.reg.calls,
               IDsRead(Read(Begin, Encode(START, aliases, cfg, before + [last]).1)),
               SentCalls(START, aliases, cfg, before + [last]))
  {
    StartAccounted();
    hide *;
    var (s, trace) := Encode(START, aliases, cfg, before);
    var w := SentCalls(START, aliases, cfg, before);
    SentSnoc(START, aliases, cfg, before, last);
    RunSnoc(START, aliases, cfg, before, last);
    RunAccounts(START, aliases, cfg, before, Begin, []);
    RunTracks(START, aliases, cfg, before, Begin);
    assert [] + w == w;
    ReadAppend(Begin, trace, Next(s, aliases, cfg, last).1);
    LastBlocks(s, aliases, cfg, last, Read(Begin, trace), w);
  }

  lemma LastBlocks(s: State, aliases: Aliases, cfg: Config, last: Input, g: Reading, w: seq<nat>)
    requires Valid(s) && Tracks(s.enc, g) && Accounted(s, IDsRead(g), w) && IsTerminal(last.event)
    ensures var (s', sent) := Next(s, aliases, cfg, last);
      AllOwned(s.enc.tools, s'.reg.calls, IDsRead(Read(g, sent)), w + NextCalls(s, aliases, cfg, last))
  {
    hide Next, Valid, Inv, Step, Tracks, Accounted, Filing, Accounts, BlocksNamed, TerminalCalls, TerminalBlocks, IDsOf, ToolsRead, AllOwned;
    var (s', sent) := Next(s, aliases, cfg, last);
    BeforeDispatch(s, aliases, cfg, last, IDsRead(g), w);
    NextValid(s, aliases, cfg, last);
    NextSends(s, aliases, cfg, last, g);
    TerminalNames(Started(s.enc), s'.reg.calls, last.view, cfg.shorten);
    IDsOfAppend(ToolsRead(g), TerminalBlocks(Started(s.enc), s'.reg.calls, last.view, cfg.shorten));
    NamedOwned(s.enc.tools, s'.reg, IDsRead(g), w, TerminalCalls(Started(s.enc), s'.reg.calls, last.view, cfg.shorten));
  }

  // ----- whatever is executable -----

  /** A flush that starts at k gets to the m-th tool of the order, which is of call i. */
  ghost predicate ReachedFor(t: Tools, k: nat, m: nat, i: nat) {
    Reached(t, k, m) && t.states[t.order[m]] == i
  }

  ghost predicate GetsTo(t: Tools, k: nat, i: nat) {
    exists m: nat :: ReachedFor(t, k, m, i)
  }

  lemma {:induction false} FlushSendsReached(e: Enc, r: Registry, k: nat, i: nat, shorten: string -> string)
    requires k <= |e.tools.order| && Inv(r) && InRange(e, r.calls) && Flushable(e.tools, r) && Passed(e.tools, k)
    ensures i in FlushCalls(e, r.calls, k, shorten) <==> GetsTo(e.tools, k, i)
    decreases |e.tools.order| - k
  {
    hide EmitTool, Inv, Flushable, Reached, Passed, GetsTo;
    if k == |e.tools.order| {
      NothingReached(e.tools, i);
    } else {
      var id := e.tools.order[k];
      if id in e.tools.sent || id !in e.tools.states {
        PassOne(e.tools, k);
        FlushSendsReached(e, r, k + 1, i, shorten);
        SkipReached(e.tools, k, i);
      } else if id !in e.tools.done {
        StopsReached(e.tools, k, i);
      } else {
        var c := r.calls[e.tools.states[id]];
        var e1 := EmitTool(e, id, c, shorten).0;
        EmitEmits(e, id, c, shorten);
        EmitKeepsOrder(e, id, c, shorten);
        EmitFiles(e.tools, e1.tools, r, k);
        FlushSendsReached(e1, r, k + 1, i, shorten);
        EmitReached(e.tools, e1.tools, r, k, i);
      }
    }
  }

  lemma NothingReached(t: Tools, i: nat)
    ensures !GetsTo(t, |t.order|, i)
  {}

  lemma StopsReached(t: Tools, k: nat, i: nat)
    requires k < |t.order| && Waiting(t, t.order[k])
    ensures !GetsTo(t, k, i)
  {
    assert Blocks(t, k, k);
  }

  lemma SkipReached(t: Tools, k: nat, i: nat)
    requires k < |t.order| && !Waiting(t, t.order[k]) && !Pending(t, t.order[k])
    ensures GetsTo(t, k, i) <==> GetsTo(t, k + 1, i)
  {
    hide Reached;
    var n := k + 1;
    forall m: nat ensures ReachedFor(t, k, m, i) <==> ReachedFor(t, n, m, i) { SkipOne(t, k, m); }
    if GetsTo(t, k, i) {
      var m: nat :| ReachedFor(t, k, m, i);
      assert ReachedFor(t, n, m, i);
    }
    if GetsTo(t, n, i) {
      var m: nat :| ReachedFor(t, n, m, i);
      assert ReachedFor(t, k, m, i);
    }
  }

  lemma EmitReached(t: Tools, t': Tools, r: Registry, k: nat, i: nat)
    requires Inv(r) && Flushable(t, r) && k < |t.order| && Pending(t, t.order[k])
    requires Emits(t, t', t.order[k], r.calls[t.states[t.order[k]]])
    ensures GetsTo(t, k, i) <==> t.states[t.order[k]] == i || GetsTo(t', k + 1, i)
  {
    assert Reached(t, k, k);
    assert t'.states == t.states && t'.order == t.order;
    hide Inv, Flushable, Reached, Emits;
    var n := k + 1;
    assert t.states[t.order[k]] == i ==> ReachedFor(t, k, k, i);
    if GetsTo(t, k, i) && t.states[t.order[k]] != i {
      var m: nat :| ReachedFor(t, k, m, i);
      ReachedRange(t, k, m);
      StillReached(t, t', r, k, m);
      assert ReachedFor(t', n, m, i);
    }
    if GetsTo(t', n, i) && t.states[t.order[k]] != i {
      var m: nat :| ReachedFor(t', n, m, i);
      ReachedRange(t', n, m);
      StillReached(t, t', r, k, m);
      assert ReachedFor(t, k, m, i);
    }
  }

  /** Every executable call has exactly one block, no call has two, and the calls v that have got theirs
      from the terminal event are executable. */
  ghost predicate Covered(calls: seq<Call>, response: Fields, w: seq<nat>, v: seq<nat>) {
    && Once(w + v)
    && (forall i | 0 <= i < |calls| && Executable(calls[i], response) :: i in w + v)
    && (forall i | i in v :: i < |calls| && Executable(calls[i], response))
  }

  /** What the last flush gets to: every executable call that has no block, and no other. */
  ghost predicate ReachesRest(t: Tools, calls: seq<Call>, response: Fields) {
    forall i: nat :: GetsTo(t, 0, i) <==> i < |calls| && Executable(calls[i], response) && !Represented(t, calls, i)
  }

  lemma InBoth(w: seq<nat>, v: seq<nat>, i: nat)
    requires Once(w + v) && i in w
    ensures i !in v
  {
    var a :| 0 <= a < |w| && w[a] == i;
    forall b | 0 <= b < |v| ensures v[b] != i {
      assert (w + v)[a] == i && (w + v)[|w| + b] == v[b];
    }
  }

  lemma OnceApart(w: seq<nat>, v: seq<nat>, i: nat)
    requires Once(w + v) && i in v
    ensures i !in w
  {
    if i in w { InBoth(w, v, i); }
  }

  /** A flush covers the calls exactly when no call had two blocks, and it gets to the executable calls
      without a block and to no others. */
  lemma CoveredWhenReached(e: Enc, r: Registry, response: Fields, w: seq<nat>, shorten: string -> string)
    requires Inv(r) && InRange(e, r.calls) && Flushable(e.tools, r) && Accounts(e.tools, r.calls, w)
    ensures Covered(r.calls, response, w, FlushCalls(e, r.calls, 0, shorten)) <==> Once(w) && ReachesRest(e.tools, r.calls, response)
  {
    var t, v := e.tools, FlushCalls(e, r.calls, 0, shorten);
    FlushAccounts(e, r, 0, w, shorten);
    FlushCallsName(e, r.calls, 0, shorten);
    ReachedNotRepeated(t, r.calls);
    hide Inv, Flushable, FlushCalls, FlushFrom, Once, Repeats, Represented, GetsTo, Executable;
    forall i: nat ensures i in v <==> GetsTo(t, 0, i) { FlushSendsReached(e, r, 0, i, shorten); }
    if Covered(r.calls, response, w, v) {
      forall i: nat | i in v ensures i !in w { OnceApart(w, v, i); }
      assert Once(w);
    }
  }

  lemma ReachedNotRepeated(t: Tools, calls: seq<Call>)
    ensures Repeats(t, calls, 0) <==> exists i: nat :: GetsTo(t, 0, i) && Represented(t, calls, i)
  {
    hide Reached, Represented;
    if Repeats(t, calls, 0) {
      var m: nat :| RepeatsAt(t, calls, 0, m);
      ReachedRange(t, 0, m);
      assert ReachedFor(t, 0, m, t.states[t.order[m]]);
    }
    if i: nat :| GetsTo(t, 0, i) && Represented(t, calls, i) {
      var m: nat :| ReachedFor(t, 0, m, i);
      ReachedRange(t, 0, m);
      assert RepeatsAt(t, calls, 0, m);
    }
  }

  lemma TerminalCovers(e: Enc, r: Registry, w: seq<nat>, view: View, shorten: string -> string)
    requires Inv(r) && InRange(e, r.calls) && Filing(e.tools, r) && Accounts(e.tools, r.calls, w)
    requires Flushes(e, r.calls, view, shorten)
    ensures Covered(r.calls, view.response, w, TerminalCalls(e, r.calls, view, shorten))
      <==> Once(w) && ReachesRest(Settle(e, r.calls, view.response, 0).tools, r.calls, view.response)
  {
    hide *;
    TerminalFlushed(e, r.calls, view, shorten);
    var f := AtFlush(e, r.calls, view, shorten);
    ListedAtFirst(e.tools, r, view.response);
    SettleFiles(e, r, view.response, 0, w);
    SentSame(e.tools, f.tools, r, view.response);
    CoveredWhenReached(f, r, view.response, w, shorten);
  }

  lemma LastCovers(s: State, aliases: Aliases, cfg: Config, last: Input, ids: seq<string>, w: seq<nat>)
    requires Valid(s) && Accounted(s, ids, w) && IsTerminal(last.event)
    requires Flushes(Started(s.enc), Next(s, aliases, cfg, last).0.reg.calls, last.view, cfg.shorten)
    ensures var calls, response := Next(s, aliases, cfg, last).0.reg.calls, last.view.response;
      && InRange(Started(s.enc), calls)
      && (Covered(calls, response, w, NextCalls(s, aliases, cfg, last))
          <==> Once(w) && ReachesRest(Settle(Started(s.enc), calls, response, 0).tools, calls, response))
  {
    hide Next, Valid, Inv, Step, Filing, Accounts, BlocksNamed, Accounted, Once, Flushes, TerminalCalls, Covered, ReachesRest, Settle;
    BeforeDispatch(s, aliases, cfg, last, ids, w);
    NextValid(s, aliases, cfg, last);
    TerminalCovers(Started(s.enc), Next(s, aliases, cfg, last).0.reg, w, last.view, cfg.shorten);
  }

  /** The general form, executable or not: a terminal event that can flush the tools leaves every
      executable call with exactly one block, and gives none to another, if and only if no event made the
      encoder get to a tool whose call had a block, and the last flush, of the tools as settled, gets to
      the executable calls without a block and to no others. */
  lemma MessageCovers(aliases: Aliases, cfg: Config, before: seq<Input>, last: Input)
    requires Valid(START) && NoneTerminal(before) && IsTerminal(last.event)
    requires TerminalFlushes(Encode(START, aliases, cfg, before).0.enc, last.view, cfg.shorten)
    ensures var s := Encode(START, aliases, cfg, before).0;
      var calls, response := Next(s, aliases, cfg, last).0.reg.calls, last.view.response;
      && InRange(Started(s.enc), calls)
      && (Covered(calls, response, SentCalls(START, aliases, cfg, before), NextCalls(s, aliases, cfg, last))
          <==> && NeverRepeats(START, aliases, cfg, before)
               && ReachesRest(Settle(Started(s.enc), calls, response, 0).tools, calls, response))
  {
    StartAccounted();
    hide *;
    var s := Encode(START, aliases, cfg, before).0;
    var w := SentCalls(START, aliases, cfg, before);
    RunAccounts(START, aliases, cfg, before, Begin, []);
    assert [] + w == w;
    TerminalFlushesExactly(aliases, cfg, before, last);
    LastCovers(s, aliases, cfg, last, IDsRead(Read(Begin, Encode(START, aliases, cfg, before).1)), w);
  }
}
