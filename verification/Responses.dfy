/** The Responses stream: ResponsesStreamEventsForEvent, ensureResponseOutputItemAdded,
    ensureResponseToolCallCompleted and PendingResponseToolCallCompletionEvents of the accumulator, and
    responsesStreamEvents of the server, which forwards the events the accumulator does not handle;
    with the protocol for tool calls that a client relies on. */
module Responses {
  import opened Text
  import opened Json
  import opened ToolCalls
  import opened ToolCallLaws
  import opened Metadata

  /** An event sent to the client: about the call at position `call`, or one of upstream's forwarded
      as it came. */
  datatype Out =
    | Added(call: nat, outputIndex: int, itemID: string)
    | ArgDelta(call: nat, outputIndex: int, itemID: string, delta: string)
    | ValueDone(call: nat, outputIndex: int, itemID: string, value: string)
    | ItemClosed(call: nat, outputIndex: int, itemID: string)
    | Forwarded(event: Event)

  function EnsureAdded(r: Registry, i: nat): (out: (Registry, seq<Out>))
    requires Sound(r) && i < |r.calls|
    ensures Sound(out.0) && |out.0.calls| == |r.calls|
  {
    var c := r.calls[i];
    if c.added then (r, [])
    else (WriteCall(r, i, c.(added := true, status := FirstNonEmpty([c.status, "in_progress"]))),
          [Added(i, c.outputIndex, c.itemID)])
  }

  function EnsureCompleted(r: Registry, i: nat): (out: (Registry, seq<Out>))
    requires Sound(r) && i < |r.calls|
    ensures Sound(out.0) && |out.0.calls| == |r.calls|
  {
    if r.calls[i].done then (r, [])
    else
      var (r1, added) := EnsureAdded(r, i);
      var c := r1.calls[i];
      (WriteCall(r1, i, c.(status := "completed", done := true)),
       added + [ValueDone(i, c.outputIndex, c.itemID, ValueOf(c)), ItemClosed(i, c.outputIndex, c.itemID)])
  }

  /** ResponsesStreamEventsForEvent: None when the event is not about a known tool call. */
  function EventsFor(r: Registry, event: Event): (out: (Registry, Option<seq<Out>>))
    requires Sound(r)
    ensures Sound(out.0) && |out.0.calls| == |r.calls|
  {
    var found := CallForEvent(r, event);
    if found.None? then (r, None)
    else
      var i := found.value;
      match event.kind
      case ArgumentsDelta => DeltaEvents(r, i, StringValue(event.raw, "delta"))
      case InputDelta => DeltaEvents(r, i, StringValue(event.raw, "delta"))
      case ItemAdded => var (r1, out) := EnsureAdded(r, i); (r1, Some(out))
      case _ => var (r1, out) := EnsureCompleted(r, i); (r1, Some(out))
  }

  function DeltaEvents(r: Registry, i: nat, delta: string): (out: (Registry, Option<seq<Out>>))
    requires Sound(r) && i < |r.calls|
    ensures Sound(out.0) && |out.0.calls| == |r.calls|
  {
    var (r1, added) := EnsureAdded(r, i);
    var c := r1.calls[i];
    (r1, Some(added + if delta != "" then [ArgDelta(i, c.outputIndex, c.itemID, delta)] else []))
  }

  predicate CountsAsCompleted(c: Call) {
    ToLower(TrimSpace(c.status)) == "completed"
  }

  /** PendingResponseToolCallCompletionEvents, from call i on. */
  function Pending(r: Registry, incomplete: bool, i: nat): (out: (Registry, seq<Out>))
    requires Sound(r) && i <= |r.calls|
    ensures Sound(out.0) && |out.0.calls| == |r.calls|
    decreases |r.calls| - i
  {
    if i == |r.calls| then (r, [])
    else if r.calls[i].done || (incomplete && !CountsAsCompleted(r.calls[i])) then Pending(r, incomplete, i + 1)
    else
      var (r1, closed) := EnsureCompleted(r, i);
      var (r2, rest) := Pending(r1, incomplete, i + 1);
      (r2, closed + rest)
  }

  /** responsesStreamEvents: what the server sends for one event after the accumulator has applied it,
      to a request without a tuple schema. */
  function Respond(r: Registry, event: Event, incomplete: bool): (out: (Registry, seq<Out>))
    requires Sound(r)
    ensures Sound(out.0)
  {
    var (r1, handled) := EventsFor(r, event);
    if handled.Some? then (r1, handled.value)
    else if IsTerminal(event) then
      var (r2, closed) := Pending(r1, incomplete, 0);
      (r2, closed + [Forwarded(event)])
    else (r1, [Forwarded(event)])
  }

  function Stream(r: Registry, m: Meta, aliases: Aliases, events: seq<Event>): (out: (Registry, seq<Out>))
    requires Sound(r)
    ensures Sound(out.0)
    decreases |events|
  {
    if events == [] then (r, [])
    else
      var m1 := ApplyMeta(m, events[0]);
      var (r1, now) := Respond(Apply(r, aliases, events[0]), events[0], IsIncomplete(m1));
      var (r2, rest) := Stream(r1, m1, aliases, events[1..]);
      (r2, now + rest)
  }

  // ----- what is said about a call -----

  /** The value of a call: the input of a custom tool, the arguments of a function. */
  predicate IsValueOf(value: string, c: Call) {
    if c.toolType == "custom" then value == c.input else value == c.arguments
  }

  /** What is sent for an event is about a call as it is then, under its index and item id: a piece is the
      event's own, and the value is all that the accumulator has. */
  predicate Says(o: Out, calls: seq<Call>, event: Event) {
    match o
    case Added(i, index, itemID) => i < |calls| && index == calls[i].outputIndex && itemID == calls[i].itemID
    case ArgDelta(i, index, itemID, delta) =>
      i < |calls| && index == calls[i].outputIndex && itemID == calls[i].itemID && delta != "" && delta == StringValue(event.raw, "delta")
    case ValueDone(i, index, itemID, value) =>
      i < |calls| && index == calls[i].outputIndex && itemID == calls[i].itemID && IsValueOf(value, calls[i])
    case ItemClosed(i, index, itemID) => i < |calls| && index == calls[i].outputIndex && itemID == calls[i].itemID
    case Forwarded(e) => e == event
  }

  /** The calls but for what has been said about them. */
  predicate SameSaid(c: Call, d: Call) {
    d == c.(added := d.added, done := d.done, status := d.status)
  }

  lemma AnnouncedSays(r: Registry, i: nat, event: Event)
    requires Sound(r) && i < |r.calls|
    ensures forall o | o in EnsureAdded(r, i).1 :: Says(o, r.calls, event)
    ensures forall j | 0 <= j < |r.calls| :: SameSaid(r.calls[j], EnsureAdded(r, i).0.calls[j])
  {
    hide Sound, StringValue, FirstNonEmpty;
  }

  lemma EnsureSays(r: Registry, i: nat, event: Event)
    requires Sound(r) && i < |r.calls|
    ensures forall o | o in EnsureAdded(r, i).1 + EnsureCompleted(r, i).1 :: Says(o, r.calls, event)
    ensures forall j | 0 <= j < |r.calls| :: SameSaid(r.calls[j], EnsureAdded(r, i).0.calls[j]) && SameSaid(r.calls[j], EnsureCompleted(r, i).0.calls[j])
  {
    AnnouncedSays(r, i, event);
    hide Sound, StringValue, EnsureAdded;
    var added := EnsureAdded(r, i).0;
    assert SameSaid(r.calls[i], added.calls[i]);
  }

  lemma SaysOfSame(o: Out, calls: seq<Call>, later: seq<Call>, event: Event)
    requires |later| == |calls| && forall j | 0 <= j < |calls| :: SameSaid(calls[j], later[j])
    ensures Says(o, later, event) ==> Says(o, calls, event)
  {}

  lemma {:induction false} PendingSays(r: Registry, incomplete: bool, i: nat, event: Event)
    requires Sound(r) && i <= |r.calls|
    ensures forall o | o in Pending(r, incomplete, i).1 :: Says(o, r.calls, event)
    decreases |r.calls| - i
  {
    hide Sound, EnsureCompleted, Says, CountsAsCompleted;
    if i < |r.calls| {
      if r.calls[i].done || (incomplete && !CountsAsCompleted(r.calls[i])) {
        PendingSays(r, incomplete, i + 1, event);
      } else {
        var (r1, closed) := EnsureCompleted(r, i);
        EnsureSays(r, i, event);
        PendingSays(r1, incomplete, i + 1, event);
        forall o | o in Pending(r1, incomplete, i + 1).1 ensures Says(o, r.calls, event) { SaysOfSame(o, r.calls, r1.calls, event); }
      }
    }
  }

  /** Whatever is sent for an event says what the accumulator has. */
  lemma RespondSays(r: Registry, event: Event, incomplete: bool)
    requires Sound(r)
    ensures forall o | o in Respond(r, event, incomplete).1 :: Says(o, r.calls, event)
  {
    hide Sound, EnsureAdded, EnsureCompleted, StringValue, Pending, CallForEvent;
    PendingSays(r, incomplete, 0, event);
    var found := CallForEvent(r, event);
    if found.Some? {
      var i := found.value;
      EnsureSays(r, i, event);
      var (r1, added) := EnsureAdded(r, i);
      assert r1.calls[i].outputIndex == r.calls[i].outputIndex && r1.calls[i].itemID == r.calls[i].itemID
        by { assert SameSaid(r.calls[i], r1.calls[i]); }
    }
  }

  // ----- the protocol -----

  ghost predicate Announced(trace: seq<Out>, i: nat) {
    exists p | 0 <= p < |trace| :: trace[p].Added? && trace[p].call == i
  }

  ghost predicate Closed(trace: seq<Out>, i: nat) {
    exists p | 0 <= p < |trace| :: trace[p].ItemClosed? && trace[p].call == i
  }

  /** What may follow a trace: an item is announced once and before anything else about it, and
      closed once, immediately after its final value. */
  ghost predicate Legal(trace: seq<Out>, next: Out) {
    match next
    case Added(i, _, _) => !Announced(trace, i)
    case ArgDelta(i, _, _, _) => Announced(trace, i)
    case ValueDone(i, _, _, _) => Announced(trace, i) && !Closed(trace, i)
    case Forwarded(_) => true
    case ItemClosed(i, _, _) =>
      && Announced(trace, i) && !Closed(trace, i)
      && trace != [] && trace[|trace| - 1].ValueDone? && trace[|trace| - 1].call == i
  }

  ghost predicate Protocol(trace: seq<Out>) {
    forall p | 0 <= p < |trace| :: LegalAt(trace, p)
  }

  ghost predicate LegalAt(trace: seq<Out>, p: nat)
    requires p < |trace|
  {
    Legal(trace[..p], trace[p])
  }

  /** The flags of the calls say exactly what has been sent. */
  ghost predicate Agree(calls: seq<Call>, trace: seq<Out>) {
    && (forall i | 0 <= i < |calls| :: calls[i].added == Announced(trace, i) && calls[i].done == Closed(trace, i))
    && (forall p | 0 <= p < |trace| && !trace[p].Forwarded? :: trace[p].call < |calls|)
  }

  ghost predicate Linked(r: Registry, trace: seq<Out>) {
    Protocol(trace) && Agree(r.calls, trace)
  }

  lemma Append(trace: seq<Out>, next: Out)
    requires Protocol(trace) && Legal(trace, next)
    ensures Protocol(trace + [next])
    ensures forall i: nat :: Announced(trace + [next], i) <==> Announced(trace, i) || (next.Added? && next.call == i)
    ensures forall i: nat :: Closed(trace + [next], i) <==> Closed(trace, i) || (next.ItemClosed? && next.call == i)
  {
    hide Legal;
    var longer := trace + [next];
    forall p | 0 <= p < |longer| ensures LegalAt(longer, p) {
      if p < |trace| {
        assert LegalAt(trace, p);
        assert longer[..p] == trace[..p];
      } else {
        assert longer[..p] == trace;
      }
    }
    forall i: nat ensures Announced(longer, i) <==> Announced(trace, i) || (next.Added? && next.call == i) {
      if Announced(trace, i) {
        var p :| 0 <= p < |trace| && trace[p].Added? && trace[p].call == i;
        assert longer[p].Added?;
      }
      assert longer[|trace|] == next;
    }
    forall i: nat ensures Closed(longer, i) <==> Closed(trace, i) || (next.ItemClosed? && next.call == i) {
      if Closed(trace, i) {
        var p :| 0 <= p < |trace| && trace[p].ItemClosed? && trace[p].call == i;
        assert longer[p].ItemClosed?;
      }
      assert longer[|trace|] == next;
    }
  }

  /** Sending one legal event about a call whose flags are updated accordingly. */
  lemma SendLinked(calls: seq<Call>, calls': seq<Call>, trace: seq<Out>, next: Out)
    requires Agree(calls, trace) && Protocol(trace) && Legal(trace, next)
    requires !next.Forwarded? && next.call < |calls| == |calls'| && calls' == calls[next.call := calls'[next.call]]
    requires calls'[next.call].added == (calls[next.call].added || next.Added?)
    requires calls'[next.call].done == (calls[next.call].done || next.ItemClosed?)
    ensures Agree(calls', trace + [next]) && Protocol(trace + [next])
  {
    hide Protocol, Legal, Announced, Closed;
    Append(trace, next);
    forall i | 0 <= i < |calls'|
      ensures calls'[i].added == Announced(trace + [next], i) && calls'[i].done == Closed(trace + [next], i)
    {
      assert i != next.call ==> calls'[i] == calls[i];
    }
  }

  /** Forwarding an event leaves what was said about the calls in place. */
  lemma ForwardLinked(r: Registry, trace: seq<Out>, event: Event)
    requires Linked(r, trace)
    ensures Linked(r, trace + [Forwarded(event)])
  {
    hide Protocol, Announced, Closed;
    Append(trace, Forwarded(event));
  }

  /** Setting the flags or the status of a call keeps the registry's invariant. */
  lemma FlagKeeps(r: Registry, i: nat, c: Call)
    requires Inv(r) && i < |r.calls|
    requires SameIDs(c, r.calls[i]) && c.outputIndex == r.calls[i].outputIndex
    ensures Inv(WriteCall(r, i, c))
  {
    hide Trimmed, ItemsKeyed;
    var s := WriteCall(r, i, c);
    assert forall j | 0 <= j < |r.calls| :: SameIDs(s.calls[j], r.calls[j]);
    assert IDsUsable(s) by {
      forall j | 0 <= j < |s.calls| ensures Usable(s, s.calls[j].itemID) && Usable(s, s.calls[j].callID) {
        assert Usable(r, r.calls[j].itemID) && Usable(r, r.calls[j].callID);
      }
    }
    ItemsUntouched(r, s);
  }

  lemma AddedLinked(r: Registry, i: nat, trace: seq<Out>)
    requires Inv(r) && i < |r.calls| && Linked(r, trace)
    ensures var (r1, out) := EnsureAdded(r, i);
      && Inv(r1) && Linked(r1, trace + out) && r1.calls[i].added && r1.calls[i].done == r.calls[i].done
      && (forall j | 0 <= j < |r.calls| && j != i :: r1.calls[j] == r.calls[j])
  {
    hide Inv, Protocol, Announced, Closed, FirstNonEmpty, Agree;
    var c := r.calls[i];
    if c.added {
      assert trace + [] == trace;
    } else {
      var c1 := c.(added := true, status := FirstNonEmpty([c.status, "in_progress"]));
      FlagKeeps(r, i, c1);
      NotYet(r.calls, trace, i);
      SendLinked(r.calls, r.calls[i := c1], trace, Added(i, c.outputIndex, c.itemID));
    }
  }

  lemma NotYet(calls: seq<Call>, trace: seq<Out>, i: nat)
    requires Agree(calls, trace) && i < |calls|
    ensures calls[i].added == Announced(trace, i) && calls[i].done == Closed(trace, i)
  {}

  lemma CompletedLinked(r: Registry, i: nat, trace: seq<Out>)
    requires Inv(r) && i < |r.calls| && Linked(r, trace)
    ensures var (r1, out) := EnsureCompleted(r, i);
      && Inv(r1) && Linked(r1, trace + out) && r1.calls[i].done
      && (forall j | 0 <= j < |r.calls| && j != i :: r1.calls[j] == r.calls[j])
  {
    hide Inv, Protocol, Announced, Closed, EnsureAdded, Agree;
    if r.calls[i].done {
      assert trace + [] == trace;
    } else {
      AddedLinked(r, i, trace);
      var (r1, added) := EnsureAdded(r, i);
      var c := r1.calls[i];
      var c1 := c.(status := "completed", done := true);
      var value, close := ValueDone(i, c.outputIndex, c.itemID, ValueOf(c)), ItemClosed(i, c.outputIndex, c.itemID);
      var t1 := trace + added;
      NotYet(r1.calls, t1, i);
      SendLinked(r1.calls, r1.calls, t1, value);
      assert (t1 + [value])[|t1|] == value;
      NotYet(r1.calls, t1 + [value], i);
      SendLinked(r1.calls, r1.calls[i := c1], t1 + [value], close);
      FlagKeeps(r1, i, c1);
      assert trace + (added + [value, close]) == t1 + [value] + [close];
    }
  }

  lemma DeltaLinked(r: Registry, i: nat, delta: string, trace: seq<Out>)
    requires Inv(r) && i < |r.calls| && Linked(r, trace)
    ensures var (r1, out) := DeltaEvents(r, i, delta); Inv(r1) && out.Some? && Linked(r1, trace + out.value)
  {
    hide Inv, Protocol, Announced, Closed, EnsureAdded, Agree;
    AddedLinked(r, i, trace);
    var (r1, added) := EnsureAdded(r, i);
    var c := r1.calls[i];
    NotYet(r1.calls, trace + added, i);
    if delta != "" {
      SendLinked(r1.calls, r1.calls, trace + added, ArgDelta(i, c.outputIndex, c.itemID, delta));
      assert trace + (added + [ArgDelta(i, c.outputIndex, c.itemID, delta)])
          == trace + added + [ArgDelta(i, c.outputIndex, c.itemID, delta)];
    } else {
      assert added + [] == added;
    }
  }

  /** The final flush: a call is closed after it exactly when it was closed before, or the response
      is complete, or the call itself had completed. */
  lemma {:induction false} PendingLinked(r: Registry, incomplete: bool, i: nat, trace: seq<Out>)
    requires Inv(r) && i <= |r.calls| && Linked(r, trace)
    ensures var (r1, out) := Pending(r, incomplete, i);
      && Inv(r1) && Linked(r1, trace + out)
      && (forall j | 0 <= j < i :: r1.calls[j] == r.calls[j])
      && (forall j | i <= j < |r.calls| ::
            r1.calls[j].done <==> r.calls[j].done || !incomplete || CountsAsCompleted(r.calls[j]))
    decreases |r.calls| - i
  {
    hide Inv, Linked, EnsureCompleted, CountsAsCompleted;
    if i == |r.calls| {
      assert trace + [] == trace;
    } else if r.calls[i].done || (incomplete && !CountsAsCompleted(r.calls[i])) {
      PendingLinked(r, incomplete, i + 1, trace);
    } else {
      CompletedLinked(r, i, trace);
      var (r1, closed) := EnsureCompleted(r, i);
      PendingLinked(r1, incomplete, i + 1, trace + closed);
      var (r2, rest) := Pending(r1, incomplete, i + 1);
      assert trace + closed + rest == trace + (closed + rest);
    }
  }

  lemma RespondLinked(r: Registry, event: Event, incomplete: bool, trace: seq<Out>)
    requires Inv(r) && Linked(r, trace)
    ensures var (r1, out) := Respond(r, event, incomplete); Inv(r1) && Linked(r1, trace + out)
  {
    hide Inv, Linked, EnsureCompleted, EnsureAdded, CallForEvent, DeltaEvents, Pending;
    var found := CallForEvent(r, event);
    if found.Some? {
      AddedLinked(r, found.value, trace);
      CompletedLinked(r, found.value, trace);
      DeltaLinked(r, found.value, StringValue(event.raw, "delta"), trace);
    } else if IsTerminal(event) {
      PendingLinked(r, incomplete, 0, trace);
      var (r1, closed) := Pending(r, incomplete, 0);
      ForwardLinked(r1, trace + closed, event);
      assert trace + closed + [Forwarded(event)] == trace + (closed + [Forwarded(event)]);
    } else {
      ForwardLinked(r, trace, event);
    }
  }

  lemma Unheard(trace: seq<Out>, n: nat, i: nat)
    requires n <= i && forall p | 0 <= p < |trace| && !trace[p].Forwarded? :: trace[p].call < n
    ensures !Announced(trace, i) && !Closed(trace, i)
  {}

  /** Applying an event leaves what was said about every call in place. */
  lemma ApplyLinked(r: Registry, aliases: Aliases, event: Event, trace: seq<Out>)
    requires Inv(r) && Linked(r, trace)
    ensures Inv(Apply(r, aliases, event)) && Linked(Apply(r, aliases, event), trace)
  {
    hide Inv, Protocol, Apply, Announced, Closed;
    ApplyKeeps(r, aliases, event);
    var s := Apply(r, aliases, event);
    forall i | 0 <= i < |s.calls|
      ensures s.calls[i].added == Announced(trace, i) && s.calls[i].done == Closed(trace, i)
    {
      if i < |r.calls| {
        assert CallStep(r, r.calls[i], s.calls[i]);
      } else {
        Unheard(trace, |r.calls|, i);
      }
    }
  }

  lemma {:induction false} StreamLinked(r: Registry, m: Meta, aliases: Aliases, events: seq<Event>, trace: seq<Out>)
    requires Inv(r) && Linked(r, trace)
    ensures var (r1, out) := Stream(r, m, aliases, events); Inv(r1) && Linked(r1, trace + out)
    decreases |events|
  {
    hide Inv, Linked, Apply, Respond, ApplyMeta, IsIncomplete;
    if events == [] {
      assert trace + [] == trace;
    } else {
      var event, m1 := events[0], ApplyMeta(m, events[0]);
      ApplyLinked(r, aliases, event, trace);
      RespondLinked(Apply(r, aliases, event), event, IsIncomplete(m1), trace);
      var (r1, now) := Respond(Apply(r, aliases, event), event, IsIncomplete(m1));
      StreamLinked(r1, m1, aliases, events[1..], trace + now);
      var (r2, rest) := Stream(r1, m1, aliases, events[1..]);
      assert trace + now + rest == trace + (now + rest);
    }
  }

  lemma AtStart()
    ensures Inv(EMPTY) && Linked(EMPTY, [])
  {}

  lemma EveryStreamIsLinked(aliases: Aliases, events: seq<Event>)
    ensures var (r, out) := Stream(EMPTY, NO_META, aliases, events); Inv(r) && Linked(r, out)
  {
    AtStart();
    hide Stream, Inv, Linked, NO_META;
    StreamLinked(EMPTY, NO_META, aliases, events, []);
    assert [] + Stream(EMPTY, NO_META, aliases, events).1 == Stream(EMPTY, NO_META, aliases, events).1;
  }

  /** Whatever upstream sends, the accumulator's own events announce each tool call at most once and
      before anything else about it, and close it at most once, right after its final value; and its
      flags agree with what was sent. Events that are forwarded as they came are not covered: which
      of them speak of tool calls, ForwardsNoToolEvent says. */
  lemma EveryStreamFollowsProtocol(aliases: Aliases, events: seq<Event>)
    ensures var (r, out) := Stream(EMPTY, NO_META, aliases, events); Protocol(out) && Linked(r, out)
  {
    hide Stream, Inv, Protocol, Agree, NO_META;
    EveryStreamIsLinked(aliases, events);
  }

  /** At the end of a response every call has been closed, unless the response is incomplete:
      then exactly the calls that were closed already or report themselves completed are. */
  lemma TerminalClosesCalls(aliases: Aliases, events: seq<Event>, last: Event)
    requires IsTerminal(last)
    ensures var (r, out) := Stream(EMPTY, NO_META, aliases, events);
      var incomplete := IsIncomplete(ApplyMeta(RunMeta(NO_META, events), last));
      var s := Apply(r, aliases, last);
      var (t, flush) := Respond(s, last, incomplete);
      && Stream(EMPTY, NO_META, aliases, events + [last]) == (t, out + flush)
      && Protocol(out + flush)
      && (forall i | 0 <= i < |t.calls| ::
            Closed(out + flush, i) <==> s.calls[i].done || !incomplete || CountsAsCompleted(s.calls[i]))
  {
    hide Inv, Linked, Apply, Closed, CountsAsCompleted, Stream, Pending, Respond, Protocol, NO_META, ApplyMeta, RunMeta, IsIncomplete;
    var (r, out) := Stream(EMPTY, NO_META, aliases, events);
    var incomplete := IsIncomplete(ApplyMeta(RunMeta(NO_META, events), last));
    EveryStreamIsLinked(aliases, events);
    StreamSnoc(EMPTY, NO_META, aliases, events, last);
    ApplyLinked(r, aliases, last, out);
    var s := Apply(r, aliases, last);
    TerminalRespond(s, last, incomplete);
    PendingLinked(s, incomplete, 0, out);
    var (t, closed) := Pending(s, incomplete, 0);
    ForwardLinked(t, out + closed, last);
    assert out + closed + [Forwarded(last)] == out + (closed + [Forwarded(last)]);
    FlushAgrees(t, out + (closed + [Forwarded(last)]));
  }

  lemma {:induction false} StreamSnoc(r: Registry, m: Meta, aliases: Aliases, events: seq<Event>, last: Event)
    requires Sound(r)
    ensures var (s, out) := Stream(r, m, aliases, events);
      var (t, end) := Respond(Apply(s, aliases, last), last, IsIncomplete(ApplyMeta(RunMeta(m, events), last)));
      Stream(r, m, aliases, events + [last]) == (t, out + end)
    decreases |events|
  {
    hide Sound, Apply, Respond, ApplyMeta, IsIncomplete;
    if events == [] {
      assert events + [last] == [last];
      var (t, end) := Respond(Apply(r, aliases, last), last, IsIncomplete(ApplyMeta(m, last)));
      assert Stream(t, ApplyMeta(m, last), aliases, []) == (t, []);
      assert [] + end == end == end + [];
    } else {
      assert (events + [last])[0] == events[0] && (events + [last])[1..] == events[1..] + [last];
      var m1 := ApplyMeta(m, events[0]);
      var (r1, now) := Respond(Apply(r, aliases, events[0]), events[0], IsIncomplete(m1));
      StreamSnoc(r1, m1, aliases, events[1..], last);
      var (s, rest) := Stream(r1, m1, aliases, events[1..]);
      var end := Respond(Apply(s, aliases, last), last, IsIncomplete(ApplyMeta(RunMeta(m1, events[1..]), last))).1;
      assert now + (rest + end) == now + rest + end;
    }
  }

  lemma TerminalRespond(r: Registry, event: Event, incomplete: bool)
    requires Sound(r) && IsTerminal(event)
    ensures var (t, closed) := Pending(r, incomplete, 0); Respond(r, event, incomplete) == (t, closed + [Forwarded(event)])
  {
    hide Pending;
  }

  lemma FlushAgrees(r: Registry, trace: seq<Out>)
    requires Linked(r, trace)
    ensures Protocol(trace) && forall i | 0 <= i < |r.calls| :: r.calls[i].done <==> Closed(trace, i)
  {
    hide Protocol, Closed, Announced;
  }

  // ----- which events are forwarded -----

  /** The event is one that announces, fills or closes a tool call. */
  predicate SpeaksOfTool(event: Event) {
    || IsToolArgumentKind(event.kind)
    || ((event.kind == ItemAdded || event.kind == ItemDone) && IsToolItem(OrEmpty(EventItem(event))))
  }

  /** The ids that an event about a tool call carries lead to a call: one of them is trimmed and not
      empty. An item without ids of its own is known by the event's item id, if that is in use. */
  predicate CarriesUsableID(event: Event, known: map<string, nat>) {
    if IsToolArgumentKind(event.kind) then
      var (itemID, callID) := ArgumentIDs(event);
      Clean(callID) || Clean(itemID)
    else
      var item := OrEmpty(EventItem(event));
      || Clean(ItemIDs(item).1) || Clean(StringValue(item, "id"))
      || (Blank(StringValue(item, "id")) && !Blank(StringValue(event.raw, "item_id")) && StringValue(event.raw, "item_id") in known)
  }

  predicate Clean(id: string) {
    id != "" && Trimmed(id)
  }

  lemma CleanIsEffective(itemID: string, callID: string)
    ensures Clean(callID) ==> EffectiveCallID(itemID, callID) == callID && EffectiveItemID(itemID, callID) != ""
    ensures Clean(itemID) ==> EffectiveItemID(itemID, callID) == itemID
    ensures Clean(callID) ==> !Blank(callID)
    ensures Clean(itemID) ==> !Blank(itemID)
  {
    hide TrimSpace;
    assert Trimmed(callID) ==> TrimSpace(callID) == callID;
    assert Trimmed(itemID) ==> TrimSpace(itemID) == itemID;
  }

  /** An untrimmed id, or an empty one, is never known. */
  lemma KnownIsClean(r: Registry, id: string)
    requires Inv(r) && id in r.byID
    ensures Clean(id)
  {
    hide Trimmed, ItemsKeyed;
  }

  /** Naming a call by its ids makes those that are clean known. */
  lemma CleanGetsKnown(r: Registry, itemID: string, callID: string, index: int)
    requires Inv(r)
    ensures var s := EnsureCall(r, itemID, callID, index).0;
      && (Clean(callID) ==> callID in s.byID) && (Clean(itemID) ==> itemID in s.byID)
  {
    hide EnsureCall, Inv, Step, EffectiveCallID, EffectiveItemID, Blank, Clean;
    EnsureCallKeeps(r, itemID, callID, index);
    CleanIsEffective(itemID, callID);
  }

  lemma StaysKnown(r: Registry, s: Registry, id: string)
    requires Step(r, s) && id in r.byID
    ensures id in s.byID
  {}

  lemma ArgumentIDsKnown(r: Registry, aliases: Aliases, event: Event)
    requires Inv(r) && IsToolArgumentKind(event.kind)
    ensures var (itemID, callID) := ArgumentIDs(event);
      var s := Apply(r, aliases, event);
      && (Clean(callID) ==> callID in s.byID) && (Clean(itemID) ==> itemID in s.byID)
  {
    hide Inv, Step, EnsureCall, ReplaceOutputItems, ApplyOutputEvent, ArgumentIDs, Clean, ArgumentWrite, WithName;
    var (itemID, callID) := ArgumentIDs(event);
    var r1 := ReplaceOutputItems(r, aliases, ResponseOutput(event));
    ReplaceKeeps(r, aliases, ResponseOutput(event));
    var r2 := ApplyArguments(r1, aliases, event);
    CleanGetsKnown(r1, itemID, callID, OutputIndexOf(event.raw));
    ApplyArgumentsKeeps(r1, aliases, event);
    LaterSteps(r2, aliases, event);
    var s := Apply(r, aliases, event);
    if Clean(callID) { StaysKnown(r2, s, callID); }
    if Clean(itemID) { StaysKnown(r2, s, itemID); }
  }

  /** The steps of Apply after the tool arguments. */
  lemma LaterSteps(r: Registry, aliases: Aliases, event: Event)
    requires Inv(r)
    ensures Step(r, ApplyTerminal(ApplyOutputEvent(r, aliases, event), aliases, event))
  {
    hide Inv, Step, ReplaceOutputItems, ApplyOutputEvent;
    OutputEventKeeps(r, aliases, event);
    var r1 := ApplyOutputEvent(r, aliases, event);
    ReplaceKeeps(r1, aliases, ResponseOutput(event));
    if IsTerminal(event) { StepTransitive(r, r1, ReplaceOutputItems(r1, aliases, ResponseOutput(event))); }
  }

  lemma ItemIDsKnown(r: Registry, aliases: Aliases, event: Event, item: Fields)
    requires Inv(r) && (event.kind == ItemAdded || event.kind == ItemDone) && EventItem(event) == Some(item) && IsToolItem(item)
    ensures var (itemID, callID) := ItemIDs(item);
      var s := Apply(r, aliases, event);
      && (Clean(callID) ==> callID in s.byID) && (Clean(itemID) ==> itemID in s.byID)
  {
    hide Inv, Step, EnsureCall, ReplaceOutputItems, ItemIDs, Clean, ItemWrite, WithName, EventItem, CaptureOutputItem, IsToolItem;
    var (itemID, callID) := ItemIDs(item);
    var r1 := ReplaceOutputItems(r, aliases, ResponseOutput(event));
    ReplaceKeeps(r, aliases, ResponseOutput(event));
    assert ApplyArguments(r1, aliases, event) == r1;
    var index := OutputIndexOf(event.raw);
    CleanGetsKnown(r1, itemID, callID, index);
    CaptureOutputItemKeeps(r1, aliases, item, index);
    assert item != map[] by { ItemIsNotEmpty(event, item); }
    CapturedIDs(r1, aliases, item, index);
    var r2 := CaptureOutputItem(r1, aliases, item, index);
    ReplaceKeeps(r2, aliases, SliceOfMaps(event.raw, "output"));
    var s := Apply(r, aliases, event);
    assert s == ReplaceOutputItems(r2, aliases, SliceOfMaps(event.raw, "output"));
    if Clean(callID) { StaysKnown(r2, s, callID); }
    if Clean(itemID) { StaysKnown(r2, s, itemID); }
  }

  lemma ItemIsNotEmpty(event: Event, item: Fields)
    requires EventItem(event) == Some(item)
    ensures item != map[]
  {}

  lemma CapturedIDs(r: Registry, aliases: Aliases, item: Fields, index: int)
    requires Sound(r) && IsToolItem(item) && item != map[]
    ensures CaptureOutputItem(r, aliases, item, index).byID == EnsureCall(r, ItemIDs(item).0, ItemIDs(item).1, index).0.byID
  {
    hide EnsureCall, ItemIDs, ItemWrite, WithName, IsToolItem;
  }

  lemma FirstOfTwo(a: string, b: string)
    ensures FirstNonEmpty([a, b]) == if !Blank(a) then a else if !Blank(b) then b else ""
  {
    hide Blank;
    assert [a, b][1..] == [b] && [b][1..] == [];
  }

  lemma CleanIsNotBlank(id: string)
    ensures Clean(id) ==> !Blank(id)
    ensures Blank("") && !Clean("")
  {
    CleanIsEffective(id, id);
    assert TrimSpace("") == "";
  }

  /** Right after an event that speaks of a tool call, the call is found exactly when one of the ids the
      event carries is usable. */
  lemma FoundExactly(r: Registry, aliases: Aliases, event: Event)
    requires Inv(r) && SpeaksOfTool(event)
    ensures var s := Apply(r, aliases, event);
      CallForEvent(s, event).Some? <==> CarriesUsableID(event, s.byID)
  {
    var s := Apply(r, aliases, event);
    ApplyKeeps(r, aliases, event);
    hide Inv, Apply, Clean, Blank, Step, StringValue, ItemIDs;
    if IsToolArgumentKind(event.kind) {
      ArgumentIDsKnown(r, aliases, event);
      var (itemID, callID) := ArgumentIDs(event);
      if callID in s.byID { KnownIsClean(s, callID); }
      if itemID in s.byID { KnownIsClean(s, itemID); }
    } else {
      hide EventItem, IsToolItem;
      var item := OrEmpty(EventItem(event));
      assert EventItem(event) == Some(item) by { NoItemIsNoTool(event); }
      ItemIDsKnown(r, aliases, event, item);
      LookedUp(s, event, item);
    }
  }

  lemma NoItemIsNoTool(event: Event)
    ensures IsToolItem(OrEmpty(EventItem(event))) ==> EventItem(event).Some?
  {
    hide EventItem;
    assert "" != "function_call" && "" != "custom_tool_call";
  }

  /** The ids that are looked up against those that were filed. */
  lemma LookedUp(s: Registry, event: Event, item: Fields)
    requires Inv(s) && (event.kind == ItemAdded || event.kind == ItemDone) && EventItem(event) == Some(item) && IsToolItem(item)
    requires var (itemID, callID) := ItemIDs(item);
      (Clean(callID) ==> callID in s.byID) && (Clean(itemID) ==> itemID in s.byID)
    ensures CallForEvent(s, event).Some? <==> CarriesUsableID(event, s.byID)
  {
    hide Inv, Clean, Blank, StringValue, EventItem, IsToolItem, FirstNonEmpty;
    var a, b, d := StringValue(item, "call_id"), StringValue(item, "id"), StringValue(event.raw, "item_id");
    FirstOfTwo(a, b);
    FirstOfTwo(b, FirstNonEmpty([a, b]));
    FirstOfTwo(b, d);
    FirstOfTwo(a, FirstNonEmpty([b, d]));
    CleanIsNotBlank(a);
    CleanIsNotBlank(b);
    if a in s.byID { KnownIsClean(s, a); }
    if b in s.byID { KnownIsClean(s, b); }
    if d in s.byID { KnownIsClean(s, d); }
    if "" in s.byID { KnownIsClean(s, ""); }
  }

  /** Among what is forwarded nothing speaks of a tool call. */
  ghost predicate NoToolForwarded(trace: seq<Out>) {
    forall p | 0 <= p < |trace| && trace[p].Forwarded? :: !SpeaksOfTool(trace[p].event)
  }

  /** Every event of the run that speaks of a tool call carries a usable id. */
  ghost predicate AllUsable(r: Registry, m: Meta, aliases: Aliases, events: seq<Event>)
    requires Sound(r)
    decreases |events|
  {
    events != [] ==>
      var s, m1 := Apply(r, aliases, events[0]), ApplyMeta(m, events[0]);
      && (SpeaksOfTool(events[0]) ==> CarriesUsableID(events[0], s.byID))
      && AllUsable(Respond(s, events[0], IsIncomplete(m1)).0, m1, aliases, events[1..])
  }

  lemma CompletedForwardsNone(r: Registry, i: nat)
    requires Sound(r) && i < |r.calls|
    ensures NoToolForwarded(EnsureAdded(r, i).1) && NoToolForwarded(EnsureCompleted(r, i).1)
  {
    hide SpeaksOfTool, FirstNonEmpty, ValueOf;
  }

  lemma DeltaForwardsNone(r: Registry, i: nat, delta: string)
    requires Sound(r) && i < |r.calls|
    ensures DeltaEvents(r, i, delta).1.Some? && NoToolForwarded(DeltaEvents(r, i, delta).1.value)
  {
    hide SpeaksOfTool, FirstNonEmpty;
  }

  lemma {:induction false} PendingForwardsNone(r: Registry, incomplete: bool, i: nat)
    requires Sound(r) && i <= |r.calls|
    ensures NoToolForwarded(Pending(r, incomplete, i).1)
    decreases |r.calls| - i
  {
    hide CountsAsCompleted, NoToolForwarded, EnsureCompleted;
    NothingForwarded();
    if i < |r.calls| {
      PendingForwardsNone(r, incomplete, i + 1);
      CompletedForwardsNone(r, i);
      PendingForwardsNone(EnsureCompleted(r, i).0, incomplete, i + 1);
      Joined(EnsureCompleted(r, i).1, Pending(EnsureCompleted(r, i).0, incomplete, i + 1).1);
    }
  }

  /** One event is forwarded, as far as tool calls go, exactly when its call is not found. */
  lemma RespondForwards(r: Registry, event: Event, incomplete: bool)
    requires Sound(r)
    ensures NoToolForwarded(Respond(r, event, incomplete).1) <==> (SpeaksOfTool(event) ==> CallForEvent(r, event).Some?)
  {
    hide CallForEvent, Pending, StringValue, SpeaksOfTool, NoToolForwarded, EnsureAdded, EnsureCompleted, DeltaEvents;
    var call := CallForEvent(r, event);
    OneForwarded(event);
    if call.None? {
      if IsTerminal(event) {
        PendingForwardsNone(r, incomplete, 0);
        TerminalIsNoTool(event);
        Joined(Pending(r, incomplete, 0).1, [Forwarded(event)]);
      }
    } else {
      CompletedForwardsNone(r, call.value);
      DeltaForwardsNone(r, call.value, StringValue(event.raw, "delta"));
    }
  }

  lemma OneForwarded(event: Event)
    ensures NoToolForwarded([Forwarded(event)]) <==> !SpeaksOfTool(event)
  {
    hide SpeaksOfTool;
    assert [Forwarded(event)][0] == Forwarded(event);
  }

  lemma TerminalIsNoTool(event: Event)
    ensures IsTerminal(event) ==> !SpeaksOfTool(event)
  {
    hide EventItem, IsToolItem;
  }

  lemma Joined(a: seq<Out>, b: seq<Out>)
    ensures NoToolForwarded(a + b) <==> NoToolForwarded(a) && NoToolForwarded(b)
  {
    hide SpeaksOfTool;
    if NoToolForwarded(a + b) {
      assert forall p | 0 <= p < |a| :: (a + b)[p] == a[p];
      assert forall p | 0 <= p < |b| :: (a + b)[|a| + p] == b[p];
    }
  }

  lemma {:induction false} StreamForwards(r: Registry, m: Meta, aliases: Aliases, events: seq<Event>, trace: seq<Out>)
    requires Inv(r) && Linked(r, trace)
    ensures NoToolForwarded(Stream(r, m, aliases, events).1) <==> AllUsable(r, m, aliases, events)
    decreases |events|
  {
    hide Inv, Linked, Apply, Respond, ApplyMeta, IsIncomplete, NoToolForwarded, SpeaksOfTool, CarriesUsableID, CallForEvent;
    if events == [] {
      NothingForwarded();
    } else {
      var event, m1 := events[0], ApplyMeta(m, events[0]);
      var s := Apply(r, aliases, event);
      ApplyLinked(r, aliases, event, trace);
      RespondLinked(s, event, IsIncomplete(m1), trace);
      var (r1, now) := Respond(s, event, IsIncomplete(m1));
      StreamForwards(r1, m1, aliases, events[1..], trace + now);
      RespondForwards(s, event, IsIncomplete(m1));
      if SpeaksOfTool(event) { FoundExactly(r, aliases, event); }
      Joined(now, Stream(r1, m1, aliases, events[1..]).1);
    }
  }

  lemma NothingForwarded()
    ensures NoToolForwarded([])
  {}

  /** What the client sees of tool calls follows the protocol as a whole exactly when every event that
      speaks of a tool call carries a usable id; otherwise the event reaches the client as upstream
      sent it, besides what the accumulator says about the call. */
  lemma ForwardsNoToolEvent(aliases: Aliases, events: seq<Event>)
    ensures NoToolForwarded(Stream(EMPTY, NO_META, aliases, events).1) <==> AllUsable(EMPTY, NO_META, aliases, events)
  {
    AtStart();
    hide Inv, Linked, Stream, AllUsable, NO_META, NoToolForwarded;
    StreamForwards(EMPTY, NO_META, aliases, events, []);
  }

  // ----- a call announced three times -----

  /** response.output_item.added for a function call whose call id is u. */
  function AddedAs(u: string): Event {
    Event(ItemAdded, map["item" := Obj(map["type" := Str("function_call"), "call_id" := Str(u)])])
  }

  const FINISHED: Event := Event(Completed, map[])

  lemma AddedSays(u: string)
    ensures var item: Fields := map["type" := Str("function_call"), "call_id" := Str(u)];
      && EventItem(AddedAs(u)) == Some(item) && IsToolItem(item)
      && StringValue(item, "call_id") == u && StringValue(item, "id") == "" && StringValue(AddedAs(u).raw, "item_id") == ""
      && MapValue(AddedAs(u).raw, "response") == None && StringValue(AddedAs(u).raw, "response_id") == ""
      && ResponseOutput(AddedAs(u)) == []
  {
    var item: Fields := map["type" := Str("function_call"), "call_id" := Str(u)];
    assert item.Keys == {"type", "call_id"};
    assert AddedAs(u).raw.Keys == {"item"};
    assert "type" in item;
  }

  lemma AddedUnusable(u: string, known: map<string, nat>)
    requires !Clean(u)
    ensures SpeaksOfTool(AddedAs(u)) && !IsTerminal(AddedAs(u)) && !CarriesUsableID(AddedAs(u), known)
  {
    AddedSays(u);
    hide StringValue, EventItem, IsToolItem, FirstNonEmpty, Clean, Blank;
    FirstOfTwo(u, "");
    CleanIsNotBlank("");
  }

  lemma AddedShape(u: string)
    ensures EventItem(AddedAs(u)).Some? && ResponseOutput(AddedAs(u)) == [] && SliceOfMaps(AddedAs(u).raw, "output") == []
    ensures AddedAs(u).kind == ItemAdded && OutputIndexOf(AddedAs(u).raw) == -1
    ensures EventItem(AddedAs(u)).value != map[] && IsToolItem(EventItem(AddedAs(u)).value)
  {
    AddedSays(u);
    assert AddedAs(u).raw.Keys == {"item"};
    ItemIsNotEmpty(AddedAs(u), EventItem(AddedAs(u)).value);
  }

  /** All that such an event does to the registry is to name the call. */
  lemma AddedApply(r: Registry, u: string)
    requires Sound(r)
    ensures EventItem(AddedAs(u)).Some?
    ensures Apply(r, map[], AddedAs(u)) == CaptureTool(r, map[], EventItem(AddedAs(u)).value, -1)
  {
    AddedShape(u);
    hide *;
    OneToolItem(r, AddedAs(u), EventItem(AddedAs(u)).value);
  }

  lemma OneToolItem(r: Registry, event: Event, item: Fields)
    requires Sound(r) && event.kind == ItemAdded && EventItem(event) == Some(item) && item != map[] && IsToolItem(item)
    requires ResponseOutput(event) == [] && SliceOfMaps(event.raw, "output") == []
    ensures Apply(r, map[], event) == CaptureTool(r, map[], item, OutputIndexOf(event.raw))
  {
    hide EventItem, IsToolItem, CaptureTool, ResponseOutput, SliceOfMaps, OutputIndexOf, Sound, CaptureAll, ApplyToolArgumentEvent, CaptureOther;
    assert ReplaceOutputItems(r, map[], []) == r;
    assert CaptureOutputItem(r, map[], item, OutputIndexOf(event.raw)) == CaptureTool(r, map[], item, OutputIndexOf(event.raw));
    var s := CaptureTool(r, map[], item, OutputIndexOf(event.raw));
    assert ReplaceOutputItems(s, map[], []) == s;
    hide ReplaceOutputItems, CaptureOutputItem;
  }

  lemma CaptureCreates(r: Registry, item: Fields, u: string)
    requires Inv(r) && ItemIDs(item) == (u, u) && !Blank(u)
    ensures |CaptureTool(r, map[], item, -1).calls| > 0
  {
    hide Inv, Step, Blank, EnsureCall, ItemIDs, ItemWrite, WithName;
    EnsureCallKeeps(r, u, u, -1);
  }

  lemma AddedIDs(u: string)
    requires !Blank(u)
    ensures EventItem(AddedAs(u)).Some? && ItemIDs(EventItem(AddedAs(u)).value) == (u, u)
  {
    AddedSays(u);
    hide EventItem, StringValue, Blank, FirstNonEmpty;
    CleanIsNotBlank("");
    FirstOfTwo(u, "");
    FirstOfTwo("", u);
  }

  lemma AddedCreates(r: Registry, u: string)
    requires Inv(r) && !Blank(u)
    ensures |Apply(r, map[], AddedAs(u)).calls| > 0
  {
    hide *;
    InvSound(r);
    AddedApply(r, u);
    AddedIDs(u);
    CaptureCreates(r, EventItem(AddedAs(u)).value, u);
  }

  lemma InvSound(r: Registry)
    requires Inv(r)
    ensures Sound(r)
  {}

  lemma MoreCalls(r: Registry, s: Registry)
    requires Step(r, s)
    ensures |r.calls| <= |s.calls|
  {}

  lemma AddedStatus(m: Meta, u: string)
    requires m.status == "" && m.terminalType == None
    ensures ApplyMeta(m, AddedAs(u)).status == "" && ApplyMeta(m, AddedAs(u)).terminalType == None
  {
    AddedSays(u);
    hide EventItem, IsToolItem, ResponseOutput, FirstNonEmpty, MentionsText;
    assert StringValue(map[], "status") == "";
  }

  lemma FinishedStatus(m: Meta)
    requires m.status == "" && m.terminalType == None
    ensures !IsIncomplete(ApplyMeta(m, FINISHED)) && IsTerminal(FINISHED)
  {
    assert MapValue(FINISHED.raw, "response") == None;
    assert StringValue(map[], "status") == "";
    hide FirstNonEmpty, MentionsText;
    assert TrimSpace("") == "" && ToLower("") == "";
  }

  /** The event is forwarded, and the call it names is neither announced nor closed. */
  lemma AddedForwards(r: Registry, m: Meta, u: string, rest: seq<Event>)
    requires Inv(r) && !Clean(u)
    ensures var s := Apply(r, map[], AddedAs(u));
      && Inv(s)
      && Stream(r, m, map[], [AddedAs(u)] + rest)
         == (Stream(s, ApplyMeta(m, AddedAs(u)), map[], rest).0,
             [Forwarded(AddedAs(u))] + Stream(s, ApplyMeta(m, AddedAs(u)), map[], rest).1)
  {
    hide Inv, Apply, ApplyMeta, IsIncomplete, CallForEvent, Pending, CarriesUsableID, SpeaksOfTool, AddedAs, Step, Clean;
    var event := AddedAs(u);
    var s := Apply(r, map[], event);
    ApplyKeeps(r, map[], event);
    AddedUnusable(u, s.byID);
    FoundExactly(r, map[], event);
    assert ([event] + rest)[0] == event && ([event] + rest)[1..] == rest;
  }

  lemma TwoForwarded(u: string)
    requires !Clean(u) && !Blank(u)
    ensures var e := AddedAs(u);
      var (r, out) := Stream(EMPTY, NO_META, map[], [e, e]);
      && out == [Forwarded(e), Forwarded(e)] && Inv(r) && |r.calls| > 0
  {
    hide *;
    AtStart();
    var e := AddedAs(u);
    var r1, m1 := Apply(EMPTY, map[], e), ApplyMeta(NO_META, e);
    AddedForwards(EMPTY, NO_META, u, [e]);
    AddedForwards(r1, m1, u, []);
    AddedCreates(r1, u);
    StreamEnds(Apply(r1, map[], e), ApplyMeta(m1, e));
    assert [e] + [e] == [e, e] && [e] + [] == [e];
    assert [Forwarded(e)] + ([Forwarded(e)] + []) == [Forwarded(e), Forwarded(e)];
  }

  lemma TwoStatus(u: string)
    ensures !IsIncomplete(ApplyMeta(RunMeta(NO_META, [AddedAs(u), AddedAs(u)]), FINISHED)) && IsTerminal(FINISHED)
  {
    assert NO_META.status == "" && NO_META.terminalType == None;
    hide *;
    RunMetaTwo(NO_META, AddedAs(u));
    AddedStatus(NO_META, u);
    AddedStatus(ApplyMeta(NO_META, AddedAs(u)), u);
    FinishedStatus(ApplyMeta(ApplyMeta(NO_META, AddedAs(u)), AddedAs(u)));
  }

  /** An example, whatever the untrimmed id: a call announced twice by upstream under it. The client
      gets both of upstream's announcements, and at the end a third from the accumulator, which knows
      the call under the trimmed id. */
  lemma AnnouncedThreeTimes(u: string)
    requires !Clean(u) && !Blank(u)
    ensures var trace := Stream(EMPTY, NO_META, map[], [AddedAs(u), AddedAs(u), FINISHED]).1;
      && |trace| >= 2 && trace[0] == trace[1] == Forwarded(AddedAs(u))
      && Announced(trace, 0) && Closed(trace, 0)
  {
    hide *;
    AtStart();
    var e := AddedAs(u);
    TwoForwarded(u);
    TwoStatus(u);
    assert [e, e] + [FINISHED] == [e, e, FINISHED];
    TerminalClosesCalls(map[], [e, e], FINISHED);
    var (r, out) := Stream(EMPTY, NO_META, map[], [e, e]);
    RespondKeepsCalls(r);
    var flush := Respond(Apply(r, map[], FINISHED), FINISHED, false).1;
    ClosedIsAnnounced(out + flush, 0);
    assert (out + flush)[0] == Forwarded(e) && (out + flush)[1] == Forwarded(e);
  }

  lemma StreamEnds(r: Registry, m: Meta)
    requires Inv(r)
    ensures Sound(r) && Stream(r, m, map[], []) == (r, [])
  {}

  lemma RunMetaTwo(m: Meta, e: Event)
    ensures RunMeta(m, [e, e]) == ApplyMeta(ApplyMeta(m, e), e)
  {
    hide ApplyMeta;
    assert [e, e][1..] == [e] && [e][1..] == [];
    var m1 := ApplyMeta(m, e);
    assert RunMeta(m, [e, e]) == RunMeta(m1, [e]) == RunMeta(ApplyMeta(m1, e), []);
  }

  lemma RespondKeepsCalls(r: Registry)
    requires Inv(r) && |r.calls| > 0
    ensures Sound(Apply(r, map[], FINISHED)) && |Respond(Apply(r, map[], FINISHED), FINISHED, false).0.calls| > 0
  {
    assert IsTerminal(FINISHED);
    hide Inv, Apply, Pending, Step;
    ApplyKeeps(r, map[], FINISHED);
    MoreCalls(r, Apply(r, map[], FINISHED));
    TerminalRespond(Apply(r, map[], FINISHED), FINISHED, false);
  }

  lemma ClosedIsAnnounced(trace: seq<Out>, i: nat)
    requires Protocol(trace) && Closed(trace, i)
    ensures Announced(trace, i)
  {
    var p :| 0 <= p < |trace| && trace[p].ItemClosed? && trace[p].call == i;
    assert LegalAt(trace, p);
    var q :| 0 <= q < p && trace[..p][q].Added? && trace[..p][q].call == i;
    assert trace[q] == trace[..p][q];
  }
}
