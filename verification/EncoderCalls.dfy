/** How many blocks each tool call has in the streamed message, on every run. A tool is filed under
    the call id its call has at the time. A call that upstream has named by its item id alone may be
    renamed once; when it is filed by then, the old id stays behind, and the call may be sent twice
    or never. */
module EncoderCalls {
  import opened Text
  import opened Json
  import opened ToolCalls
  import opened ToolCallLaws
  import opened Encoder
  import opened Messages
  import opened EncoderGrammar
  import opened EncoderRuns
  import opened EncoderTools

  // ----- the state of the filing -----

  /** The call filed under id has got another call id. */
  predicate Stale(t: Tools, calls: seq<Call>, id: string) {
    id in t.states && t.states[id] < |calls| && calls[t.states[id]].callID != id
  }

  /** Some block of call i is recorded as sent, under its call id or under an id it is filed under. */
  ghost predicate Represented(t: Tools, calls: seq<Call>, i: nat) {
    && i < |calls|
    && (calls[i].callID in t.sent || exists id :: id in t.states && t.states[id] == i && id in t.sent)
  }

  /** The order lists every filed id, and none twice. */
  ghost predicate Ordered(t: Tools) {
    NoDuplicates(t.order) && forall id | id in t.states :: id in t.order
  }

  /** Every id of the order is filed, which is so until the terminal event drops some. */
  ghost predicate AllFiled(t: Tools) {
    forall id | id in t.order :: id in t.states
  }

  /** A filed id is or was the id of the call filed under it, and of no other call. */
  ghost predicate Homes(t: Tools, r: Registry) {
    forall id | id in t.states ::
      && t.states[id] < |r.calls| && id in r.byID
      && forall j | 0 <= j < |r.calls| && r.calls[j].callID == id :: j == t.states[id]
  }

  /** A call that has left a filed id behind keeps the one it has. */
  ghost predicate StaleFrozen(t: Tools, r: Registry) {
    forall id | Stale(t, r.calls, id) :: !Placeholder(r.calls[t.states[id]])
  }

  /** A call is filed under two ids at most, the one it left behind first. */
  ghost predicate StaleFirst(t: Tools, r: Registry) {
    forall a, b | 0 <= a < b < |t.order| && SameCall(t, t.order[a], t.order[b]) :: !Stale(t, r.calls, t.order[b])
  }

  predicate SameCall(t: Tools, a: string, b: string) {
    a in t.states && b in t.states && t.states[a] == t.states[b]
  }

  /** Only known ids are sent. */
  ghost predicate Known(t: Tools, r: Registry) {
    forall id | id in t.sent :: id in r.byID
  }

  /** A call id that is sent without being filed was sent on behalf of the id the call left behind. */
  ghost predicate SentFiled(t: Tools, r: Registry) {
    forall i | 0 <= i < |r.calls| && r.calls[i].callID in t.sent && r.calls[i].callID !in t.states :: !Placeholder(r.calls[i])
  }

  /** The tool filed under id is neither sent nor done: a flush stops here. */
  predicate Waiting(t: Tools, id: string) {
    id in t.states && id !in t.sent && id !in t.done
  }

  /** The tool filed under id is done and not sent. */
  predicate Pending(t: Tools, id: string) {
    id in t.states && id !in t.sent && id in t.done
  }

  /** As long as the id it left behind waits, a call is not sent. */
  ghost predicate WaitingUnsent(t: Tools, r: Registry) {
    forall id | Stale(t, r.calls, id) && Waiting(t, id) :: r.calls[t.states[id]].callID !in t.sent
  }

  /** What a flush relies on. */
  ghost predicate Flushable(t: Tools, r: Registry) {
    Ordered(t) && Homes(t, r) && StaleFrozen(t, r) && StaleFirst(t, r) && Known(t, r) && WaitingUnsent(t, r)
  }

  /** What holds between events. */
  ghost predicate Filing(t: Tools, r: Registry) {
    Flushable(t, r) && AllFiled(t) && SentFiled(t, r)
  }

  // ----- the accumulator applies an event -----

  lemma CallIsKept(r: Registry, s: Registry, i: nat)
    requires Step(r, s) && i < |r.calls|
    ensures i < |s.calls| && CallStep(r, r.calls[i], s.calls[i])
  {
    hide CallStep;
  }

  /** An id in use stays with its call: no other call takes it. */
  lemma IDIsKept(r: Registry, s: Registry, id: string, j: nat)
    requires Step(r, s) && id in r.byID && j < |s.calls| && s.calls[j].callID == id
    ensures j < |r.calls| && r.calls[j].callID == id
  {
    assert j >= |r.calls| ==> NewCallStep(r, s.calls[j]);
    if j < |r.calls| { CallIsKept(r, s, j); }
  }

  lemma StaleStays(t: Tools, r: Registry, s: Registry, id: string)
    requires Step(r, s) && StaleFrozen(t, r) && Stale(t, r.calls, id)
    ensures Stale(t, s.calls, id) && SameIDs(r.calls[t.states[id]], s.calls[t.states[id]])
  {
    CallIsKept(r, s, t.states[id]);
    hide Step;
  }

  lemma HomesGrow(t: Tools, r: Registry, s: Registry)
    requires Step(r, s) && Homes(t, r)
    ensures Homes(t, s)
  {
    forall id | id in t.states
      ensures t.states[id] < |s.calls| && id in s.byID
      ensures forall j | 0 <= j < |s.calls| && s.calls[j].callID == id :: j == t.states[id]
    {
      assert t.states[id] < |r.calls| && id in r.byID;
      forall j | 0 <= j < |s.calls| && s.calls[j].callID == id ensures j == t.states[id] {
        IDIsKept(r, s, id, j);
      }
    }
  }

  lemma FrozenGrow(t: Tools, r: Registry, s: Registry)
    requires Step(r, s) && Homes(t, r) && StaleFrozen(t, r)
    ensures StaleFrozen(t, s)
  {
    forall id | Stale(t, s.calls, id) ensures !Placeholder(s.calls[t.states[id]]) {
      assert t.states[id] < |r.calls|;
      CallIsKept(r, s, t.states[id]);
    }
  }

  lemma FirstGrow(t: Tools, r: Registry, s: Registry)
    requires Step(r, s) && Ordered(t) && Homes(t, r) && StaleFrozen(t, r) && StaleFirst(t, r)
    ensures StaleFirst(t, s)
  {
    hide Step;
    forall a, b | 0 <= a < b < |t.order| && SameCall(t, t.order[a], t.order[b])
      ensures !Stale(t, s.calls, t.order[b])
    {
      assert !Stale(t, r.calls, t.order[b]);
      assert t.order[b] in t.states && t.order[a] != t.order[b];
      StaleStays(t, r, s, t.order[a]);
    }
  }

  lemma SentGrow(t: Tools, r: Registry, s: Registry)
    requires Step(r, s) && Known(t, r) && SentFiled(t, r)
    ensures Known(t, s) && SentFiled(t, s)
  {
    forall i | 0 <= i < |s.calls| && s.calls[i].callID in t.sent && s.calls[i].callID !in t.states
      ensures !Placeholder(s.calls[i])
    {
      IDIsKept(r, s, s.calls[i].callID, i);
      CallIsKept(r, s, i);
    }
  }

  lemma WaitingGrow(t: Tools, r: Registry, s: Registry)
    requires Step(r, s) && Homes(t, r) && StaleFrozen(t, r) && Known(t, r) && WaitingUnsent(t, r)
    ensures WaitingUnsent(t, s)
  {
    forall id | Stale(t, s.calls, id) && Waiting(t, id) ensures s.calls[t.states[id]].callID !in t.sent {
      assert t.states[id] < |r.calls|;
      CallIsKept(r, s, t.states[id]);
      if Stale(t, r.calls, id) { StaleStays(t, r, s, id); }
    }
  }

  lemma RepresentedGrow(t: Tools, r: Registry, s: Registry, i: nat)
    requires Step(r, s) && Homes(t, r) && Known(t, r) && SentFiled(t, r)
    ensures Represented(t, s.calls, i) <==> Represented(t, r.calls, i)
  {
    if i < |r.calls| {
      CallIsKept(r, s, i);
      if r.calls[i].callID in t.sent && s.calls[i].callID != r.calls[i].callID {
        assert r.calls[i].callID in t.states;
        assert t.states[r.calls[i].callID] == i;
      }
    } else if i < |s.calls| {
      assert NewCallStep(r, s.calls[i]);
    }
  }

  /** Whatever an event does to the calls, the filing stays in order, and the same calls have blocks. */
  lemma FilingGrow(t: Tools, r: Registry, s: Registry)
    requires Step(r, s) && Filing(t, r)
    ensures Filing(t, s)
    ensures forall i: nat :: Represented(t, s.calls, i) <==> Represented(t, r.calls, i)
  {
    HomesGrow(t, r, s);
    FrozenGrow(t, r, s);
    FirstGrow(t, r, s);
    SentGrow(t, r, s);
    WaitingGrow(t, r, s);
    hide Step, Ordered, Homes, StaleFrozen, StaleFirst, Known, SentFiled, WaitingUnsent, Represented;
    forall i: nat ensures Represented(t, s.calls, i) <==> Represented(t, r.calls, i) {
      RepresentedGrow(t, r, s, i);
    }
  }

  // ----- filing a tool -----

  lemma RegisterOrdered(t: Tools, t': Tools, id: string, i: nat)
    requires Ordered(t) && (id in t.order ==> id in t.states)
    requires t'.states == t.states[id := i] && t'.order == if id in t.states then t.order else t.order + [id]
    ensures Ordered(t')
  {
    if id !in t.states { NoDuplicatesSnoc(t.order, id); }
  }

  lemma OwnID(r: Registry, i: nat)
    requires Inv(r) && i < |r.calls|
    ensures r.calls[i].callID in r.byID && CallIDsDistinctIn(r.calls)
  {
    assert Usable(r, r.calls[i].callID);
  }

  /** t' is t with call i filed under its call id. */
  predicate Files(t: Tools, t': Tools, id: string, i: nat) {
    t' == t.(states := t.states[id := i], order := if id in t.states then t.order else t.order + [id])
  }

  lemma RegisterHomes(t: Tools, t': Tools, r: Registry, i: nat)
    requires i < |r.calls| && r.calls[i].callID in r.byID && CallIDsDistinctIn(r.calls)
    requires Homes(t, r) && Files(t, t', r.calls[i].callID, i)
    ensures Homes(t', r)
    ensures r.calls[i].callID in t.states ==> t.states[r.calls[i].callID] == i
  {}

  lemma RegisterStale(t: Tools, t': Tools, r: Registry, i: nat)
    requires i < |r.calls| && Files(t, t', r.calls[i].callID, i)
    requires r.calls[i].callID in t.states ==> t.states[r.calls[i].callID] == i
    ensures forall id :: Stale(t', r.calls, id) <==> Stale(t, r.calls, id)
    ensures StaleFrozen(t, r) ==> StaleFrozen(t', r)
  {}

  lemma RegisterRepresents(t: Tools, t': Tools, r: Registry, i: nat)
    requires i < |r.calls| && Files(t, t', r.calls[i].callID, i)
    requires r.calls[i].callID in t.states ==> t.states[r.calls[i].callID] == i
    ensures forall j: nat :: Represented(t', r.calls, j) <==> Represented(t, r.calls, j)
  {}

  lemma RegisterWaits(t: Tools, t': Tools, r: Registry, i: nat)
    requires i < |r.calls| && Files(t, t', r.calls[i].callID, i) && WaitingUnsent(t, r) && Known(t, r)
    requires r.calls[i].callID in t.states ==> t.states[r.calls[i].callID] == i
    ensures WaitingUnsent(t', r) && Known(t', r)
    ensures r.calls[i].callID in t.states ==> t' == t
  {
    forall id | Stale(t', r.calls, id) && Waiting(t', id) ensures r.calls[t'.states[id]].callID !in t'.sent {
      assert Stale(t, r.calls, id) && Waiting(t, id);
    }
  }

  lemma RegisterFlushable(e: Enc, r: Registry, i: nat)
    requires i < |r.calls| && Inv(r) && Flushable(e.tools, r)
    requires r.calls[i].callID in e.tools.order ==> r.calls[i].callID in e.tools.states
    ensures var t' := RegisterTool(e, r.calls, i).tools;
      && Flushable(t', r) && r.calls[i].callID in t'.states && t'.states[r.calls[i].callID] == i
      && t'.sent == e.tools.sent && t'.done == e.tools.done
      && (forall id :: Stale(t', r.calls, id) <==> Stale(e.tools, r.calls, id))
      && (forall j: nat :: Represented(t', r.calls, j) <==> Represented(e.tools, r.calls, j))
      && (r.calls[i].callID in e.tools.states ==> t' == e.tools)
  {
    var t, t' := e.tools, RegisterTool(e, r.calls, i).tools;
    var id := r.calls[i].callID;
    OwnID(r, i);
    RegisterHomes(t, t', r, i);
    RegisterStale(t, t', r, i);
    RegisterRepresents(t, t', r, i);
    RegisterWaits(t, t', r, i);
    RegisterOrdered(t, t', id, i);
    hide Inv, Homes, Ordered, Known, StaleFrozen, WaitingUnsent, Represented, Stale, StaleFirst;
    if id !in t.states { RegisterFirst(t, t', r, id, i); }
  }

  lemma RegisterFiles(e: Enc, r: Registry, i: nat)
    requires i < |r.calls| && Inv(r) && Filing(e.tools, r)
    ensures var t' := RegisterTool(e, r.calls, i).tools;
      && Filing(t', r) && r.calls[i].callID in t'.states && t'.states[r.calls[i].callID] == i
      && t'.sent == e.tools.sent && t'.done == e.tools.done
      && (forall id :: Stale(t', r.calls, id) <==> Stale(e.tools, r.calls, id))
      && (forall j: nat :: Represented(t', r.calls, j) <==> Represented(e.tools, r.calls, j))
  {
    RegisterFlushable(e, r, i);
    hide Inv, Flushable, Represented, Stale;
    var t, t' := e.tools, RegisterTool(e, r.calls, i).tools;
    assert forall id | id in t'.order :: id in t.order || id == r.calls[i].callID;
  }

  lemma RegisterFirst(t: Tools, t': Tools, r: Registry, id: string, i: nat)
    requires Ordered(t) && StaleFirst(t, r) && id !in t.states && id !in t.order && i < |r.calls| && r.calls[i].callID == id
    requires t'.states == t.states[id := i] && t'.order == t.order + [id]
    ensures StaleFirst(t', r)
  {
    forall a, b | 0 <= a < b < |t'.order| && SameCall(t', t'.order[a], t'.order[b])
      ensures !Stale(t', r.calls, t'.order[b])
    {
      if b < |t.order| {
        assert t.order[a] in t.order && t.order[b] in t.order;
        assert SameCall(t, t.order[a], t.order[b]);
      }
    }
  }

  lemma DoneFiles(t: Tools, r: Registry, id: string)
    requires Filing(t, r) && id in t.states
    ensures var t' := t.(done := t.done + {id});
      && Filing(t', r)
      && (forall j: nat :: Represented(t', r.calls, j) <==> Represented(t, r.calls, j))
  {}

  lemma DoneFlushable(t: Tools, r: Registry, id: string)
    requires Flushable(t, r) && id in t.states
    ensures var t' := t.(done := t.done + {id});
      && Flushable(t', r)
      && (forall j: nat :: Represented(t', r.calls, j) <==> Represented(t, r.calls, j))
  {}

  lemma DeltaFiles(t: Tools, t': Tools, r: Registry)
    requires Filing(t, r) && t' == t.(deltas := t'.deltas)
    ensures Filing(t', r)
    ensures forall j: nat :: Represented(t', r.calls, j) <==> Represented(t, r.calls, j)
  {}

  // ----- sending a tool -----

  /** t' is t after the block of the call filed under id was sent: its call id is marked, and id may
      be. */
  ghost predicate Emits(t: Tools, t': Tools, id: string, c: Call) {
    && t'.order == t.order && t'.states == t.states && t'.done == t.done
    && (t'.sent.Keys == t.sent.Keys + {c.callID} || t'.sent.Keys == t.sent.Keys + {c.callID, id})
  }

  lemma EmitEmits(e: Enc, id: string, c: Call, shorten: string -> string)
    ensures Emits(e.tools, EmitTool(e, id, c, shorten).0.tools, id, c)
  {
    hide ValueOf;
  }

  lemma EmitsSent(t: Tools, t': Tools, id: string, c: Call, other: string)
    requires Emits(t, t', id, c)
    ensures other in t'.sent ==> other in t.sent || other == id || other == c.callID
    ensures other in t.sent || other == c.callID ==> other in t'.sent
  {
    assert other in t'.sent <==> other in t'.sent.Keys;
    assert other in t.sent <==> other in t.sent.Keys;
  }

  /** The first k tools of the order do not hold up a flush any more. */
  ghost predicate Passed(t: Tools, k: nat) {
    k <= |t.order| && forall l | 0 <= l < k :: !Waiting(t, t.order[l])
  }

  lemma EmitRepresents(t: Tools, t': Tools, r: Registry, id: string, j: nat)
    requires Inv(r) && Flushable(t, r) && id in t.states && t.states[id] < |r.calls|
    requires Emits(t, t', id, r.calls[t.states[id]])
    ensures Represented(t', r.calls, j) <==> Represented(t, r.calls, j) || j == t.states[id]
  {
    hide Ordered, StaleFrozen, StaleFirst, Known, SentFiled, WaitingUnsent;
    var c := r.calls[t.states[id]];
    EmitsSent(t, t', id, c, c.callID);
    DistinctCallIDs(r);
    hide Inv;
    if j < |r.calls| {
      EmitsSent(t, t', id, c, r.calls[j].callID);
      assert r.calls[j].callID == id ==> j == t.states[id];
      forall p | p in t.states && t.states[p] == j
        ensures p in t.sent ==> p in t'.sent
        ensures p in t'.sent ==> p in t.sent || j == t.states[id]
      {
        EmitsSent(t, t', id, c, p);
        assert p == c.callID ==> t.states[p] == t.states[id];
      }
    }
  }

  lemma DistinctCallIDs(r: Registry)
    requires Inv(r)
    ensures CallIDsDistinctIn(r.calls)
  {}

  lemma EmitFiles(t: Tools, t': Tools, r: Registry, k: nat)
    requires Inv(r) && Flushable(t, r) && Passed(t, k) && k < |t.order| && Pending(t, t.order[k])
    requires Emits(t, t', t.order[k], r.calls[t.states[t.order[k]]])
    ensures Flushable(t', r) && Passed(t', k + 1)
  {
    var id := t.order[k];
    var c := r.calls[t.states[id]];
    assert Homes(t', r) && StaleFrozen(t', r) && StaleFirst(t', r) && Ordered(t') by {
      SameFiling(t, t', r);
    }
    assert Usable(r, c.callID);
    assert Known(t', r) by {
      forall other | other in t'.sent ensures other in r.byID { EmitsSent(t, t', id, c, other); }
    }
    assert WaitingUnsent(t', r) by {
      EmitWaiting(t, t', r, k);
    }
    forall l | 0 <= l < k + 1 ensures !Waiting(t', t.order[l]) {
      EmitsSent(t, t', id, c, t.order[l]);
    }
  }

  lemma SameFiling(t: Tools, t': Tools, r: Registry)
    requires Homes(t, r) && StaleFrozen(t, r) && StaleFirst(t, r) && Ordered(t)
    requires t'.order == t.order && t'.states == t.states
    ensures Homes(t', r) && StaleFrozen(t', r) && StaleFirst(t', r) && Ordered(t')
  {
    forall a, b | 0 <= a < b < |t'.order| && SameCall(t', t'.order[a], t'.order[b])
      ensures !Stale(t', r.calls, t'.order[b])
    {
      assert SameCall(t, t.order[a], t.order[b]);
    }
    forall id | Stale(t', r.calls, id) ensures !Placeholder(r.calls[t'.states[id]]) {
      assert Stale(t, r.calls, id);
    }
  }

  lemma EmitSentFiled(t: Tools, t': Tools, r: Registry, id: string)
    requires Inv(r) && SentFiled(t, r) && StaleFrozen(t, r) && Homes(t, r) && id in t.states
    requires Emits(t, t', id, r.calls[t.states[id]])
    ensures SentFiled(t', r)
  {
    DistinctCallIDs(r);
    hide Inv;
    var c := r.calls[t.states[id]];
    forall i | 0 <= i < |r.calls| && r.calls[i].callID in t'.sent && r.calls[i].callID !in t'.states
      ensures !Placeholder(r.calls[i])
    {
      EmitsSent(t, t', id, c, r.calls[i].callID);
      if r.calls[i].callID == c.callID {
        assert Stale(t, r.calls, id);
      }
    }
  }

  /** The id that a call with a second, pending id left behind comes first and so waits no longer. */
  lemma LeftBehindFirst(t: Tools, r: Registry, k: nat, q: string)
    requires Ordered(t) && Homes(t, r) && StaleFirst(t, r) && Passed(t, k) && k < |t.order| && Pending(t, t.order[k])
    requires Stale(t, r.calls, q) && Waiting(t, q)
    ensures t.states[q] != t.states[t.order[k]] && r.calls[t.states[q]].callID != t.order[k]
  {
    var l :| 0 <= l < |t.order| && t.order[l] == q;
    assert l > k;
    assert !SameCall(t, t.order[k], q);
  }

  lemma EmitWaiting(t: Tools, t': Tools, r: Registry, k: nat)
    requires Inv(r) && Flushable(t, r) && Passed(t, k) && k < |t.order| && Pending(t, t.order[k])
    requires Emits(t, t', t.order[k], r.calls[t.states[t.order[k]]])
    ensures WaitingUnsent(t', r)
  {
    DistinctCallIDs(r);
    hide Inv, StaleFrozen, SentFiled, Known;
    var id := t.order[k];
    var c := r.calls[t.states[id]];
    forall q | Stale(t', r.calls, q) && Waiting(t', q) ensures r.calls[t.states[q]].callID !in t'.sent {
      EmitsSent(t, t', id, c, q);
      assert Stale(t, r.calls, q) && Waiting(t, q);
      LeftBehindFirst(t, r, k, q);
      EmitsSent(t, t', id, c, r.calls[t.states[q]].callID);
    }
  }

  // ----- a flush -----

  /** The calls whose blocks flushTools sends from position k of the order. */
  function FlushCalls(e: Enc, calls: seq<Call>, k: nat, shorten: string -> string): seq<nat>
    requires k <= |e.tools.order| && InRange(e, calls)
    decreases |e.tools.order| - k
  {
    if k == |e.tools.order| then []
    else
      var id := e.tools.order[k];
      if id in e.tools.sent || id !in e.tools.states then FlushCalls(e, calls, k + 1, shorten)
      else if id !in e.tools.done then []
      else
        [e.tools.states[id]]
        + FlushCalls(EmitTool(e, id, calls[e.tools.states[id]], shorten).0, calls, k + 1, shorten)
  }

  /** The call ids that calls have now. */
  function IDsNow(calls: seq<Call>, w: seq<nat>): (ids: seq<string>)
    ensures |ids| == |w|
  {
    seq(|w|, k requires 0 <= k < |w| => if w[k] < |calls| then calls[w[k]].callID else "")
  }

  lemma {:induction false} FlushCallsName(e: Enc, calls: seq<Call>, k: nat, shorten: string -> string)
    requires k <= |e.tools.order| && InRange(e, calls)
    ensures var w := FlushCalls(e, calls, k, shorten);
      (forall m | 0 <= m < |w| :: w[m] < |calls|) && IDsOf(FlushBlocks(e, calls, k, shorten)) == IDsNow(calls, w)
    decreases |e.tools.order| - k
  {
    hide EmitTool, ToolBlockOf, IDsOf;
    NoIDs();
    if k < |e.tools.order| {
      var id := e.tools.order[k];
      if id in e.tools.sent || id !in e.tools.states {
        FlushCallsName(e, calls, k + 1, shorten);
      } else if id in e.tools.done {
        var c := calls[e.tools.states[id]];
        EmitKeepsOrder(e, id, c, shorten);
        var e1 := EmitTool(e, id, c, shorten).0;
        FlushCallsName(e1, calls, k + 1, shorten);
        BlockNamed(e, id, c, shorten);
        OneIDMore(ToolBlockOf(e, id, c, shorten), FlushBlocks(e1, calls, k + 1, shorten));
        var w := FlushCalls(e1, calls, k + 1, shorten);
        assert IDsNow(calls, [e.tools.states[id]] + w) == [c.callID] + IDsNow(calls, w);
      }
    }
  }

  /** The l-th tool of the order holds up a flush that starts at k: it is waiting, and it will not
      have been sent, by the time the flush gets there, under the id its call left behind. */
  ghost predicate Blocks(t: Tools, k: nat, l: nat) {
    && k <= l < |t.order| && Waiting(t, t.order[l])
    && forall m | k <= m < l :: !(Pending(t, t.order[m]) && SameCall(t, t.order[m], t.order[l]))
  }

  /** A flush that starts at k gets to the m-th tool of the order, which is pending. */
  ghost predicate Reached(t: Tools, k: nat, m: nat) {
    && k <= m < |t.order| && Pending(t, t.order[m])
    && forall l | k <= l < m :: !Blocks(t, k, l)
  }

  /** A flush that starts at k gets to the m-th tool, and its call has a block already. */
  ghost predicate RepeatsAt(t: Tools, calls: seq<Call>, k: nat, m: nat) {
    Reached(t, k, m) && Represented(t, calls, t.states[t.order[m]])
  }

  ghost predicate Repeats(t: Tools, calls: seq<Call>, k: nat) {
    exists m: nat :: RepeatsAt(t, calls, k, m)
  }

  ghost predicate Once(w: seq<nat>) {
    forall a, b | 0 <= a < |w| && 0 <= b < |w| && w[a] == w[b] :: a == b
  }

  /** w lists the calls that have blocks. */
  ghost predicate Accounts(t: Tools, calls: seq<Call>, w: seq<nat>) {
    forall i: nat :: i in w <==> Represented(t, calls, i)
  }

  lemma OnceSnoc(w: seq<nat>, i: nat)
    ensures Once(w + [i]) <==> Once(w) && i !in w
  {
    if Once(w + [i]) {
      assert forall a | 0 <= a < |w| :: (w + [i])[a] == w[a];
      assert (w + [i])[|w|] == i;
    }
  }

  lemma SkipOne(t: Tools, k: nat, m: nat)
    requires k < |t.order| && !Waiting(t, t.order[k]) && !Pending(t, t.order[k])
    ensures Reached(t, k, m) <==> Reached(t, k + 1, m)
  {
    var n := k + 1;
    if Reached(t, k, m) {
      forall l | n <= l < m ensures !Blocks(t, n, l) { assert !Blocks(t, k, l); }
    }
    if Reached(t, k + 1, m) {
      forall l | k <= l < m ensures !Blocks(t, k, l) { assert l > k ==> !Blocks(t, k + 1, l); }
    }
  }

  lemma SkipRepeats(t: Tools, calls: seq<Call>, k: nat)
    requires k < |t.order| && !Waiting(t, t.order[k]) && !Pending(t, t.order[k])
    ensures Repeats(t, calls, k) <==> Repeats(t, calls, k + 1)
  {
    hide Reached, Represented;
    forall m: nat ensures RepeatsAt(t, calls, k, m) <==> RepeatsAt(t, calls, k + 1, m) { SkipOne(t, k, m); }
    if Repeats(t, calls, k) {
      var m: nat :| RepeatsAt(t, calls, k, m);
      assert RepeatsAt(t, calls, k + 1, m);
    }
    if Repeats(t, calls, k + 1) {
      var m: nat :| RepeatsAt(t, calls, k + 1, m);
      assert RepeatsAt(t, calls, k, m);
    }
  }

  lemma StopsHere(t: Tools, calls: seq<Call>, k: nat)
    requires k < |t.order| && Waiting(t, t.order[k])
    ensures !Repeats(t, calls, k)
  {
    hide Represented;
    assert Blocks(t, k, k);
    assert forall m: nat :: !Reached(t, k, m);
  }

  /** Sending the k-th tool takes its call off the list of those to come, and nothing else. */
  lemma StillPending(t: Tools, t': Tools, r: Registry, k: nat, l: nat)
    requires Inv(r) && Flushable(t, r) && k < l < |t.order| && Pending(t, t.order[k])
    requires Emits(t, t', t.order[k], r.calls[t.states[t.order[k]]])
    ensures var same := SameCall(t, t.order[k], t.order[l]);
      && (Pending(t', t.order[l]) <==> Pending(t, t.order[l]) && !same)
      && (Waiting(t', t.order[l]) <==> Waiting(t, t.order[l]) && !same)
  {
    hide Inv, StaleFrozen, SentFiled, Known, WaitingUnsent;
    var id, other := t.order[k], t.order[l];
    var c := r.calls[t.states[id]];
    assert id != other;
    EmitsSent(t, t', id, c, other);
    if other in t.states && other == c.callID { assert SameCall(t, id, other); }
    if SameCall(t, id, other) { assert !Stale(t, r.calls, other); }
  }

  lemma StillReached(t: Tools, t': Tools, r: Registry, k: nat, m: nat)
    requires Inv(r) && Flushable(t, r) && k < m < |t.order| && Pending(t, t.order[k])
    requires Emits(t, t', t.order[k], r.calls[t.states[t.order[k]]])
    ensures Reached(t', k + 1, m) <==> Reached(t, k, m) && !SameCall(t, t.order[k], t.order[m])
  {
    hide Inv, Flushable, Blocks;
    assert !Blocks(t, k, k) by { PendingPasses(t, k); }
    StillPending(t, t', r, k, m);
    forall l | k < l < |t.order| ensures Blocks(t', k + 1, l) <==> Blocks(t, k, l) {
      StillBlocks(t, t', r, k, l);
    }
    var n := k + 1;
    if Reached(t, k, m) {
      forall l | n <= l < m ensures !Blocks(t', n, l) { assert !Blocks(t, k, l); }
    }
    if Reached(t', k + 1, m) {
      forall l | k <= l < m ensures !Blocks(t, k, l) { assert l > k ==> !Blocks(t', k + 1, l); }
    }
  }

  lemma PendingPasses(t: Tools, k: nat)
    requires k < |t.order| && Pending(t, t.order[k])
    ensures !Blocks(t, k, k)
  {}

  lemma StillBlocks(t: Tools, t': Tools, r: Registry, k: nat, l: nat)
    requires Inv(r) && Flushable(t, r) && k < l < |t.order| && Pending(t, t.order[k])
    requires Emits(t, t', t.order[k], r.calls[t.states[t.order[k]]])
    ensures Blocks(t', k + 1, l) <==> Blocks(t, k, l)
  {
    hide Inv, Flushable, Pending, Waiting;
    forall m | k < m < |t.order|
      ensures Pending(t', t.order[m]) <==> Pending(t, t.order[m]) && !SameCall(t, t.order[k], t.order[m])
    {
      StillPending(t, t', r, k, m);
    }
    StillPending(t, t', r, k, l);
    assert forall m | k < m < l :: SameCall(t', t.order[m], t.order[l]) <==> SameCall(t, t.order[m], t.order[l]);
  }

  /** Sending the k-th tool repeats exactly when its call had a block, or the rest of the flush does. */
  lemma EmitRepeats(t: Tools, t': Tools, r: Registry, k: nat)
    requires Inv(r) && Flushable(t, r) && k < |t.order| && Pending(t, t.order[k])
    requires Emits(t, t', t.order[k], r.calls[t.states[t.order[k]]])
    ensures Repeats(t, r.calls, k) <==> Represented(t, r.calls, t.states[t.order[k]]) || Repeats(t', r.calls, k + 1)
  {
    assert Reached(t, k, k);
    hide Inv, Flushable, Represented, Reached;
    assert Represented(t, r.calls, t.states[t.order[k]]) ==> RepeatsAt(t, r.calls, k, k);
    if Repeats(t, r.calls, k) && !Represented(t, r.calls, t.states[t.order[k]]) {
      var m: nat :| RepeatsAt(t, r.calls, k, m);
      ReachedRange(t, k, m);
      EmitRepeatsAt(t, t', r, k, m);
    }
    if Repeats(t', r.calls, k + 1) {
      var m: nat :| RepeatsAt(t', r.calls, k + 1, m);
      ReachedRange(t', k + 1, m);
      EmitRepeatsAt(t, t', r, k, m);
    }
  }

  lemma EmitRepeatsAt(t: Tools, t': Tools, r: Registry, k: nat, m: nat)
    requires Inv(r) && Flushable(t, r) && k < m < |t.order| && Pending(t, t.order[k]) && t.order[m] in t.states
    requires Emits(t, t', t.order[k], r.calls[t.states[t.order[k]]])
    ensures RepeatsAt(t, r.calls, k, m) && !SameCall(t, t.order[k], t.order[m]) <==> RepeatsAt(t', r.calls, k + 1, m)
  {
    assert t.states[t.order[k]] < |r.calls| && t.states[t.order[m]] < |r.calls|;
    hide Inv, Flushable, Represented, Reached;
    StillReached(t, t', r, k, m);
    EmitRepresents(t, t', r, t.order[k], t.states[t.order[m]]);
  }

  lemma ReachedRange(t: Tools, k: nat, m: nat)
    requires Reached(t, k, m)
    ensures k <= m < |t.order| && t.order[m] in t.states
  {}

  /** A flush keeps the filing in order. It adds exactly the calls it sends to those that have
      blocks, and gives a call its second block exactly when it gets to a tool whose call has one. */
  lemma {:induction false} FlushAccounts(e: Enc, r: Registry, k: nat, w: seq<nat>, shorten: string -> string)
    requires Inv(r) && InRange(e, r.calls) && Flushable(e.tools, r) && Passed(e.tools, k) && Accounts(e.tools, r.calls, w)
    ensures var w' := w + FlushCalls(e, r.calls, k, shorten);
      var t' := FlushFrom(e, r.calls, k, shorten).0.tools;
      && Flushable(t', r) && Accounts(t', r.calls, w')
      && (Once(w') <==> Once(w) && !Repeats(e.tools, r.calls, k))
    decreases |e.tools.order| - k
  {
    hide EmitTool, Inv, Flushable, Repeats, Represented, Once, Passed;
    assert w + [] == w;
    assert k <= |e.tools.order| by { PassedRange(e.tools, k); }
    if k == |e.tools.order| {
      NothingRepeats(e.tools, r.calls);
    } else {
      var id := e.tools.order[k];
      if id in e.tools.sent || id !in e.tools.states {
        PassOne(e.tools, k);
        SkipRepeats(e.tools, r.calls, k);
        FlushAccounts(e, r, k + 1, w, shorten);
      } else if id !in e.tools.done {
        StopsHere(e.tools, r.calls, k);
      } else {
        var i := e.tools.states[id];
        var e1 := EmitTool(e, id, r.calls[i], shorten).0;
        EmitEmits(e, id, r.calls[i], shorten);
        EmitKeepsOrder(e, id, r.calls[i], shorten);
        EmitFiles(e.tools, e1.tools, r, k);
        EmitRepeats(e.tools, e1.tools, r, k);
        OnceSnoc(w, i);
        AccountsMore(e.tools, e1.tools, r, id, w);
        FlushAccounts(e1, r, k + 1, w + [i], shorten);
        var rest := FlushCalls(e1, r.calls, k + 1, shorten);
        assert w + [i] + rest == w + ([i] + rest);
      }
    }
  }

  lemma FilingFlushes(t: Tools, r: Registry)
    requires Filing(t, r)
    ensures Flushable(t, r)
  {}

  /** Between events nothing is lost either: every listed id stays filed. */
  lemma {:induction false} FlushFiles(e: Enc, r: Registry, k: nat, shorten: string -> string)
    requires k <= |e.tools.order| && Inv(r) && InRange(e, r.calls) && Homes(e.tools, r) && StaleFrozen(e.tools, r)
    requires AllFiled(e.tools) && SentFiled(e.tools, r)
    ensures var t' := FlushFrom(e, r.calls, k, shorten).0.tools; AllFiled(t') && SentFiled(t', r)
    decreases |e.tools.order| - k
  {
    hide EmitTool, Inv, SentFiled;
    if k < |e.tools.order| {
      var id := e.tools.order[k];
      if id in e.tools.sent || id !in e.tools.states {
        FlushFiles(e, r, k + 1, shorten);
      } else if id in e.tools.done {
        var c := r.calls[e.tools.states[id]];
        var e1 := EmitTool(e, id, c, shorten).0;
        EmitEmits(e, id, c, shorten);
        EmitKeepsOrder(e, id, c, shorten);
        EmitSentFiled(e.tools, e1.tools, r, id);
        FlushFiles(e1, r, k + 1, shorten);
      }
    }
  }

  lemma PassedRange(t: Tools, k: nat)
    requires Passed(t, k)
    ensures k <= |t.order|
  {}

  lemma PassOne(t: Tools, k: nat)
    requires Passed(t, k) && k < |t.order| && !Waiting(t, t.order[k])
    ensures Passed(t, k + 1)
  {}

  lemma NothingRepeats(t: Tools, calls: seq<Call>)
    ensures !Repeats(t, calls, |t.order|)
  {}

  lemma AccountsMore(t: Tools, t': Tools, r: Registry, id: string, w: seq<nat>)
    requires Inv(r) && Flushable(t, r) && id in t.states && t.states[id] < |r.calls|
    requires Emits(t, t', id, r.calls[t.states[id]]) && Accounts(t, r.calls, w)
    ensures Accounts(t', r.calls, w + [t.states[id]])
  {
    hide Inv, Flushable, Represented, Emits;
    forall i: nat ensures i in w + [t.states[id]] <==> Represented(t', r.calls, i) {
      EmitRepresents(t, t', r, id, i);
    }
  }

  // ----- one event -----

  /** The encoder with the tool of call i filed and done, as completeTool has it before its flush. */
  function Completing(e: Enc, calls: seq<Call>, i: nat): Enc
    requires i < |calls|
  {
    MarkDone(RegisterTool(e, calls, i), calls[i].callID)
  }

  /** The calls whose blocks an event sends, in the order of the blocks. */
  function EventCalls(e: Enc, event: Event, reg: Registry, shorten: string -> string): seq<nat>
    requires Sound(reg) && InRange(e, reg.calls)
  {
    var call := CallForEvent(reg, event);
    if CompletesTool(event) && call.Some? && e.open.None?
    then FlushCalls(Completing(e, reg.calls, call.value), reg.calls, 0, shorten)
    else []
  }

  /** The event completes a tool while no block is open, and the flush that follows gets to a tool
      whose call has a block already. */
  ghost predicate RepeatsTool(e: Enc, event: Event, reg: Registry)
    requires Sound(reg)
  {
    var call := CallForEvent(reg, event);
    CompletesTool(event) && call.Some? && e.open.None? && Repeats(Completing(e, reg.calls, call.value).tools, reg.calls, 0)
  }

  lemma CompletingFiles(e: Enc, r: Registry, i: nat, w: seq<nat>)
    requires i < |r.calls| && Inv(r) && InRange(e, r.calls) && Filing(e.tools, r) && Accounts(e.tools, r.calls, w)
    ensures var f := Completing(e, r.calls, i);
      && InRange(f, r.calls) && Filing(f.tools, r) && Accounts(f.tools, r.calls, w) && Passed(f.tools, 0)
      && f.tools.sent == e.tools.sent && f.open == e.open
  {
    hide Inv, Filing, Represented;
    var t := RegisterTool(e, r.calls, i);
    RegisterFiles(e, r, i);
    DoneFiles(t.tools, r, r.calls[i].callID);
  }

  lemma DeltaFiling2(e: Enc, r: Registry, i: nat, delta: string)
    requires i < |r.calls| && Inv(r) && Filing(e.tools, r)
    ensures var t' := ToolDelta(e, r.calls, i, delta).tools;
      && Filing(t', r) && t'.sent == e.tools.sent
      && (forall j: nat :: Represented(t', r.calls, j) <==> Represented(e.tools, r.calls, j))
  {
    hide Inv, Filing, Represented;
    RegisterFiles(e, r, i);
    var t := RegisterTool(e, r.calls, i).tools;
    DeltaFiles(t, ToolDelta(e, r.calls, i, delta).tools, r);
  }

  lemma EventAccounts(e: Enc, event: Event, r: Registry, w: seq<nat>, shorten: string -> string)
    requires Inv(r) && InRange(e, r.calls) && Filing(e.tools, r) && Accounts(e.tools, r.calls, w)
    ensures var w' := w + EventCalls(e, event, r, shorten);
      var t' := ToolsAfter(e, event, r, shorten);
      && Filing(t', r) && Accounts(t', r.calls, w')
      && (Once(w') <==> Once(w) && !RepeatsTool(e, event, r))
  {
    hide Inv, Filing, Represented, Once, Repeats, CallForEvent, FlushFrom, FlushCalls, ToolDelta, CompletesTool, StringValue, Completing;
    assert w + [] == w;
    var call := CallForEvent(r, event);
    DeltaKindsDoNotComplete(event);
    if call.Some? {
      var i := call.value;
      CompletingFiles(e, r, i, w);
      CompleteToolIs(e, r.calls, i, shorten);
      if CompletesTool(event) {
        if e.open.None? { CompletedAccounts(Completing(e, r.calls, i), r, w, shorten); }
      } else if event.kind == ArgumentsDelta || event.kind == InputDelta {
        DeltaFiling2(e, r, i, StringValue(event.raw, "delta"));
      }
    }
  }

  lemma CompletedAccounts(f: Enc, r: Registry, w: seq<nat>, shorten: string -> string)
    requires Inv(r) && InRange(f, r.calls) && Filing(f.tools, r) && Passed(f.tools, 0) && Accounts(f.tools, r.calls, w)
    ensures var w' := w + FlushCalls(f, r.calls, 0, shorten);
      var t' := FlushFrom(f, r.calls, 0, shorten).0.tools;
      && Filing(t', r) && Accounts(t', r.calls, w')
      && (Once(w') <==> Once(w) && !Repeats(f.tools, r.calls, 0))
  {
    FilingFlushes(f.tools, r);
    assert Homes(f.tools, r) && StaleFrozen(f.tools, r);
    hide Inv, Homes, StaleFrozen, Represented, Once, Repeats, FlushFrom, FlushCalls;
    FlushAccounts(f, r, 0, w, shorten);
    FlushFiles(f, r, 0, shorten);
  }

  lemma CompleteToolIs(e: Enc, calls: seq<Call>, i: nat, shorten: string -> string)
    requires i < |calls| && InRange(e, calls)
    ensures var f := Completing(e, calls, i);
      && InRange(f, calls) && f.open == e.open
      && CompleteTool(e, calls, i, shorten) == (if e.open.Some? then (f, []) else FlushFrom(f, calls, 0, shorten))
      && CompletedBlocks(e, calls, i, shorten) == (if e.open.Some? then [] else FlushBlocks(f, calls, 0, shorten))
  {
    hide FlushFrom, FlushBlocks;
  }

  // ----- which block is of which call -----

  /** The k-th tool block was sent for call w[k], under an id that is or was its call id. */
  ghost predicate BlocksNamed(t: Tools, calls: seq<Call>, ids: seq<string>, w: seq<nat>) {
    |ids| == |w| && forall k | 0 <= k < |w| :: NamedFor(t, calls, ids[k], w[k])
  }

  ghost predicate NamedFor(t: Tools, calls: seq<Call>, id: string, i: nat) {
    && i < |calls| && id in t.sent
    && (calls[i].callID == id || (id in t.states && t.states[id] == i))
  }

  /** Blocks with the same id are of the same call. */
  lemma IDsTellCalls(t: Tools, r: Registry, ids: seq<string>, w: seq<nat>)
    requires Inv(r) && Flushable(t, r) && BlocksNamed(t, r.calls, ids, w)
    ensures forall a, b | 0 <= a < |ids| && 0 <= b < |ids| && ids[a] == ids[b] :: w[a] == w[b]
    ensures Once(w) ==> NoDuplicates(ids)
  {
    DistinctCallIDs(r);
    hide Inv, Ordered, StaleFrozen, StaleFirst, Known, SentFiled, WaitingUnsent;
    forall a, b | 0 <= a < |ids| && 0 <= b < |ids| && ids[a] == ids[b] ensures w[a] == w[b] {
      assert NamedFor(t, r.calls, ids[a], w[a]) && NamedFor(t, r.calls, ids[b], w[b]);
    }
  }

  lemma NamedGrow(t: Tools, r: Registry, s: Registry, ids: seq<string>, w: seq<nat>)
    requires Step(r, s) && Homes(t, r) && SentFiled(t, r) && BlocksNamed(t, r.calls, ids, w)
    ensures BlocksNamed(t, s.calls, ids, w)
  {
    forall k | 0 <= k < |w| ensures NamedFor(t, s.calls, ids[k], w[k]) {
      assert NamedFor(t, r.calls, ids[k], w[k]);
      CallIsKept(r, s, w[k]);
    }
  }

  /** What is filed or sent stays so. */
  ghost predicate Grows(t: Tools, t': Tools) {
    && (forall id | id in t.states :: id in t'.states && t'.states[id] == t.states[id])
    && (forall id | id in t.sent :: id in t'.sent)
    && (forall id | id in t.done :: id in t'.done)
    && t.order <= t'.order
  }

  lemma {:induction false} FlushMarks(e: Enc, calls: seq<Call>, k: nat, shorten: string -> string)
    requires k <= |e.tools.order| && InRange(e, calls)
    ensures var t' := FlushFrom(e, calls, k, shorten).0.tools;
      && Grows(e.tools, t') && t'.states == e.tools.states && t'.order == e.tools.order && t'.done == e.tools.done
      && (forall i | i in FlushCalls(e, calls, k, shorten) :: i < |calls| && calls[i].callID in t'.sent)
    decreases |e.tools.order| - k
  {
    hide EmitTool;
    if k < |e.tools.order| {
      var id := e.tools.order[k];
      if id in e.tools.sent || id !in e.tools.states {
        FlushMarks(e, calls, k + 1, shorten);
      } else if id in e.tools.done {
        var c := calls[e.tools.states[id]];
        EmitEmits(e, id, c, shorten);
        var e1 := EmitTool(e, id, c, shorten).0;
        EmitsMark(e.tools, e1.tools, id, c);
        FlushMarks(e1, calls, k + 1, shorten);
      }
    }
  }

  lemma EmitsMark(t: Tools, t': Tools, id: string, c: Call)
    requires Emits(t, t', id, c)
    ensures Grows(t, t') && c.callID in t'.sent
  {
    forall other | other in t.sent ensures other in t'.sent { EmitsSent(t, t', id, c, other); }
    EmitsSent(t, t', id, c, c.callID);
  }

  lemma EventMarks(e: Enc, event: Event, r: Registry, shorten: string -> string)
    requires Inv(r) && InRange(e, r.calls) && Filing(e.tools, r)
    ensures Grows(e.tools, ToolsAfter(e, event, r, shorten))
    ensures var w, t' := EventCalls(e, event, r, shorten), ToolsAfter(e, event, r, shorten);
      && (forall i | i in w :: i < |r.calls| && r.calls[i].callID in t'.sent)
      && IDsOf(EventBlocks(e, event, r, shorten)) == IDsNow(r.calls, w)
  {
    hide Inv, Filing, CallForEvent, FlushFrom, FlushCalls, FlushBlocks, CompletesTool, StringValue, CompletedBlocks, IDsOf;
    NoIDs();
    var call := CallForEvent(r, event);
    DeltaKindsDoNotComplete(event);
    if call.Some? {
      var i := call.value;
      RegisterFiles(e, r, i);
      RegisterGrows(e, r, i);
      CompleteToolIs(e, r.calls, i, shorten);
      var f := Completing(e, r.calls, i);
      if CompletesTool(event) && e.open.None? {
        FlushMarks(f, r.calls, 0, shorten);
        FlushCallsName(f, r.calls, 0, shorten);
      }
    }
  }

  lemma RegisterGrows(e: Enc, r: Registry, i: nat)
    requires i < |r.calls| && Filing(e.tools, r)
    ensures Grows(e.tools, RegisterTool(e, r.calls, i).tools)
  {
    hide Ordered, StaleFrozen, StaleFirst, Known, SentFiled, WaitingUnsent;
    assert r.calls[i].callID in e.tools.states ==> e.tools.states[r.calls[i].callID] == i;
  }

  lemma NamedMore(t: Tools, t': Tools, calls: seq<Call>, ids: seq<string>, w: seq<nat>, v: seq<nat>)
    requires BlocksNamed(t, calls, ids, w) && Grows(t, t')
    requires forall i | i in v :: i < |calls| && calls[i].callID in t'.sent
    ensures BlocksNamed(t', calls, ids + IDsNow(calls, v), w + v)
  {
    var all, ids' := w + v, ids + IDsNow(calls, v);
    forall k | 0 <= k < |all| ensures NamedFor(t', calls, ids'[k], all[k]) {
      if k < |w| {
        assert NamedFor(t, calls, ids[k], w[k]);
      } else {
        assert all[k] == v[k - |w|] && all[k] in v;
      }
    }
  }
}
