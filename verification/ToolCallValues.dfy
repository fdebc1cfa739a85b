/** What the accumulator has for a tool call (internal/turn/accumulator_tools.go and accumulator.go), told
    from everything upstream said about it: its name, its value, its type and its status. */
module ToolCallValues {
  import opened Text
  import opened Json
  import ToolNames
  import opened ToolCalls

  /** Something said about a call: an event that streams its arguments or its input, or an item. */
  datatype Write = Streamed(event: Event) | Listed(item: Fields)

  const NOTHING: Call := NewCall("", "", 0)

  function Wrote(c: Call, w: Write, aliases: Aliases): Call {
    match w
    case Streamed(event) => ArgumentWrite(WithName(c, event.raw, aliases), event)
    case Listed(item) => ItemWrite(WithName(c, item, aliases), item)
  }

  function WroteAll(writes: seq<Write>, aliases: Aliases): Call {
    if writes == [] then NOTHING else Wrote(WroteAll(writes[..|writes| - 1], aliases), writes[|writes| - 1], aliases)
  }

  // ----- the value of a list of writes -----

  function Said(w: Write, key: string): string {
    StringValue(if w.Streamed? then w.event.raw else w.item, key)
  }

  predicate IsDone(w: Write) {
    w.Streamed? && (w.event.kind == ArgumentsDone || w.event.kind == InputDone)
  }

  /** The writes about a custom tool, and those about a function. */
  predicate OfCustom(w: Write) {
    if w.Streamed? then w.event.kind == InputDelta || w.event.kind == InputDone
    else StringValue(w.item, "type") == "custom_tool_call"
  }

  predicate OfFunction(w: Write) {
    if w.Streamed? then w.event.kind == ArgumentsDelta || w.event.kind == ArgumentsDone
    else StringValue(w.item, "type") != "custom_tool_call"
  }

  /** A piece is added to what there is; anything else replaces it. */
  predicate IsPiece(w: Write) {
    w.Streamed? && (w.event.kind == ArgumentsDelta || w.event.kind == InputDelta)
  }

  /** The last whole value said about the custom tool, or about the function, and the pieces behind it. */
  function ValueSaid(writes: seq<Write>, custom: bool): string {
    if writes == [] then ""
    else
      var before, w := ValueSaid(writes[..|writes| - 1], custom), writes[|writes| - 1];
      if !(if custom then OfCustom(w) else OfFunction(w)) then before
      else if IsPiece(w) then before + Said(w, "delta")
      else Or(Said(w, if custom then "input" else "arguments"), before)
  }

  /** The last name said. */
  function NameSaid(writes: seq<Write>): string {
    if writes == [] then "" else Or(Said(writes[|writes| - 1], "name"), NameSaid(writes[..|writes| - 1]))
  }

  /** The last status said; that a value is done says it is completed. */
  function StatusSaid(writes: seq<Write>): string {
    if writes == [] then "in_progress"
    else
      var w := writes[|writes| - 1];
      Or(if IsDone(w) then "completed" else if w.Listed? then Said(w, "status") else "", StatusSaid(writes[..|writes| - 1]))
  }

  /** Custom or function, whichever was said last. */
  function TypeSaid(writes: seq<Write>): string {
    if writes == [] then ""
    else
      var w := writes[|writes| - 1];
      if OfCustom(w) then "custom" else if OfFunction(w) then "function" else TypeSaid(writes[..|writes| - 1])
  }

  function Restored(name: string, aliases: Aliases): string {
    if name == "" then "" else ToolNames.RestoreToolName(name, aliases)
  }

  lemma OneWrite(c: Call, w: Write, aliases: Aliases)
    ensures var d := Wrote(c, w, aliases);
      && d.name == (if Said(w, "name") != "" then ToolNames.RestoreToolName(Said(w, "name"), aliases) else c.name)
      && d.status == Or(if IsDone(w) then "completed" else if w.Listed? then Said(w, "status") else "", c.status)
      && d.toolType == (if OfCustom(w) then "custom" else if OfFunction(w) then "function" else c.toolType)
      && d.arguments == (if !OfFunction(w) then c.arguments
                         else if IsPiece(w) then c.arguments + Said(w, "delta") else Or(Said(w, "arguments"), c.arguments))
      && d.input == (if !OfCustom(w) then c.input
                     else if IsPiece(w) then c.input + Said(w, "delta") else Or(Said(w, "input"), c.input))
  {
    hide StringValue, ToolNames.RestoreToolName;
  }

  /** What a list of writes leaves: the last name, the last whole value with the pieces behind it, the last
      type and the last status. */
  lemma {:induction false} WritesSay(writes: seq<Write>, aliases: Aliases)
    ensures var c := WroteAll(writes, aliases);
      && c.name == Restored(NameSaid(writes), aliases) && c.status == StatusSaid(writes) && c.toolType == TypeSaid(writes)
      && c.arguments == ValueSaid(writes, false) && c.input == ValueSaid(writes, true)
  {
    hide Wrote, Said, IsDone, OfCustom, OfFunction, IsPiece, ToolNames.RestoreToolName;
    if writes != [] {
      WritesSay(writes[..|writes| - 1], aliases);
      OneWrite(WroteAll(writes[..|writes| - 1], aliases), writes[|writes| - 1], aliases);
    }
  }

  // ----- over a run -----

  /** What has been said about each call, in order. */
  type Histories = seq<seq<Write>>

  predicate SameContent(c: Call, d: Call) {
    c.name == d.name && c.toolType == d.toolType && c.input == d.input && c.arguments == d.arguments && c.status == d.status
  }

  /** Every call is what was said about it. */
  ghost predicate Told(r: Registry, h: Histories, aliases: Aliases) {
    |h| == |r.calls| && forall i | 0 <= i < |r.calls| :: SameContent(r.calls[i], WroteAll(h[i], aliases))
  }

  /** One more thing is said about the call found, or about a new one. */
  function Note(h: Histories, found: Option<nat>, w: Write): Histories {
    if found.None? then h
    else if found.value < |h| then h[found.value := h[found.value] + [w]]
    else h + [[w]]
  }

  function NoteArguments(r: Registry, h: Histories, event: Event): Histories
    requires Sound(r)
  {
    var (itemID, callID) := ArgumentIDs(event);
    Note(h, EnsureCall(r, itemID, callID, OutputIndexOf(event.raw)).1, Streamed(event))
  }

  function NoteItem(r: Registry, h: Histories, item: Fields, index: int): Histories
    requires Sound(r)
  {
    var (itemID, callID) := ItemIDs(item);
    if item == map[] || !IsToolItem(item) then h else Note(h, EnsureCall(r, itemID, callID, index).1, Listed(item))
  }

  function NoteAll(r: Registry, h: Histories, aliases: Aliases, items: seq<Fields>, from: nat): Histories
    requires Sound(r)
    decreases |items|
  {
    if items == [] then h
    else NoteAll(CaptureOutputItem(r, aliases, items[0], from), NoteItem(r, h, items[0], from), aliases, items[1..], from + 1)
  }

  function NoteList(r: Registry, h: Histories, aliases: Aliases, items: seq<Fields>): Histories
    requires Sound(r)
  {
    if items == [] then h else NoteAll(r.(items := [], itemByKey := map[]), h, aliases, items, 0)
  }

  /** What an event says about the calls: the items its response lists, a piece or the whole of a value,
      its own item, the items it lists itself; and in the end those of the response once more. */
  function NoteEvent(r: Registry, h: Histories, aliases: Aliases, event: Event): Histories
    requires Sound(r)
  {
    var r1 := ReplaceOutputItems(r, aliases, ResponseOutput(event));
    var h1 := NoteList(r, h, aliases, ResponseOutput(event));
    var r2 := ApplyArguments(r1, aliases, event);
    var h2 := if IsArgumentEvent(event.kind) then NoteArguments(r1, h1, event) else h1;
    var item := EventItem(event);
    var r3 := if item.Some? then CaptureOutputItem(r2, aliases, item.value, OutputIndexOf(event.raw)) else r2;
    var h3 := if item.Some? then NoteItem(r2, h2, item.value, OutputIndexOf(event.raw)) else h2;
    var r4 := ReplaceOutputItems(r3, aliases, SliceOfMaps(event.raw, "output"));
    var h4 := NoteList(r3, h3, aliases, SliceOfMaps(event.raw, "output"));
    if IsTerminal(event) then NoteList(r4, h4, aliases, ResponseOutput(event)) else h4
  }

  function NoteRun(r: Registry, h: Histories, aliases: Aliases, events: seq<Event>): Histories
    requires Sound(r)
    decreases |events|
  {
    if events == [] then h
    else NoteRun(Apply(r, aliases, events[0]), NoteEvent(r, h, aliases, events[0]), aliases, events[1..])
  }

  /** Finding a call changes its ids and its index only; a new one is blank. */
  lemma FoundSame(r: Registry, itemID: string, callID: string, index: int)
    requires Sound(r)
    ensures var (s, found) := EnsureCall(r, itemID, callID, index);
      && |r.calls| <= |s.calls| && (forall j | 0 <= j < |r.calls| :: SameContent(s.calls[j], r.calls[j]))
      && (found.None? ==> |s.calls| == |r.calls|)
      && (found.Some? && found.value < |r.calls| ==> |s.calls| == |r.calls|)
      && (found.Some? && found.value >= |r.calls| ==>
            found.value == |r.calls| && |s.calls| == |r.calls| + 1 && SameContent(s.calls[found.value], NOTHING))
  {
    hide TrimSpace, RegisterAliases, FirstNonEmpty;
  }

  lemma WroteSame(c: Call, d: Call, w: Write, aliases: Aliases)
    requires SameContent(c, d)
    ensures SameContent(Wrote(c, w, aliases), Wrote(d, w, aliases))
  {
    OneWrite(c, w, aliases);
    OneWrite(d, w, aliases);
    hide Wrote, Said, IsDone, OfCustom, OfFunction, IsPiece, ToolNames.RestoreToolName;
  }

  lemma WroteOne(w: Write, aliases: Aliases)
    ensures WroteAll([w], aliases) == Wrote(NOTHING, w, aliases)
  {
    hide Wrote;
    assert [w][..0] == [];
  }

  lemma WroteMore(writes: seq<Write>, w: Write, aliases: Aliases)
    ensures WroteAll(writes + [w], aliases) == Wrote(WroteAll(writes, aliases), w, aliases)
  {
    hide Wrote;
    assert (writes + [w])[..|writes|] == writes;
  }

  /** Writing to the call that was found. */
  lemma NotedIsTold(r: Registry, s: Registry, h: Histories, found: nat, c: Call, w: Write, aliases: Aliases)
    requires Told(r, h, aliases) && |r.calls| <= |s.calls| && (forall j | 0 <= j < |r.calls| :: SameContent(s.calls[j], r.calls[j]))
    requires if found < |r.calls| then |s.calls| == |r.calls|
             else found == |r.calls| && |s.calls| == |r.calls| + 1 && SameContent(s.calls[found], NOTHING)
    requires c == Wrote(s.calls[found], w, aliases)
    ensures Told(s.(calls := s.calls[found := c]), Note(h, Some(found), w), aliases)
  {
    hide Wrote, WroteAll, SameContent;
    if found < |r.calls| {
      SameThrough(s.calls[found], r.calls[found], WroteAll(h[found], aliases));
      WroteSame(s.calls[found], WroteAll(h[found], aliases), w, aliases);
      WroteMore(h[found], w, aliases);
    } else {
      WroteSame(s.calls[found], NOTHING, w, aliases);
      WroteOne(w, aliases);
    }
    forall j | 0 <= j < |r.calls| ensures SameContent(s.calls[j], WroteAll(h[j], aliases)) {
      SameThrough(s.calls[j], r.calls[j], WroteAll(h[j], aliases));
    }
  }

  lemma SameThrough(a: Call, b: Call, c: Call)
    requires SameContent(a, b) && SameContent(b, c)
    ensures SameContent(a, c)
  {}

  lemma NothingNoted(r: Registry, s: Registry, h: Histories, aliases: Aliases)
    requires Told(r, h, aliases) && |s.calls| == |r.calls| && forall j | 0 <= j < |r.calls| :: SameContent(s.calls[j], r.calls[j])
    ensures Told(s, h, aliases)
  {
    hide WroteAll;
  }

  lemma ArgumentsTold(r: Registry, h: Histories, aliases: Aliases, event: Event)
    requires Sound(r) && Told(r, h, aliases)
    ensures Told(ApplyToolArgumentEvent(r, aliases, event), NoteArguments(r, h, event), aliases)
  {
    var (itemID, callID) := ArgumentIDs(event);
    var (s, found) := EnsureCall(r, itemID, callID, OutputIndexOf(event.raw));
    FoundSame(r, itemID, callID, OutputIndexOf(event.raw));
    hide ArgumentIDs, EnsureCall, ArgumentWrite, WithName, WroteAll, SameContent, Sound;
    if found.None? {
      NothingNoted(r, s, h, aliases);
    } else {
      NotedIsTold(r, s, h, found.value, Wrote(s.calls[found.value], Streamed(event), aliases), Streamed(event), aliases);
    }
  }

  lemma ItemTold(r: Registry, h: Histories, aliases: Aliases, item: Fields, index: int)
    requires Sound(r) && Told(r, h, aliases)
    ensures Told(CaptureOutputItem(r, aliases, item, index), NoteItem(r, h, item, index), aliases)
  {
    if item != map[] && IsToolItem(item) {
      var (itemID, callID) := ItemIDs(item);
      var (s, found) := EnsureCall(r, itemID, callID, index);
      FoundSame(r, itemID, callID, index);
      hide ItemIDs, EnsureCall, ItemWrite, WithName, WroteAll, SameContent, Sound, IsToolItem;
      if found.None? {
        NothingNoted(r, s, h, aliases);
      } else {
        NotedIsTold(r, s, h, found.value, Wrote(s.calls[found.value], Listed(item), aliases), Listed(item), aliases);
      }
    } else {
      hide WroteAll, IsToolItem, OutputItemKey, CaptureTool;
    }
  }

  lemma {:induction false} AllTold(r: Registry, h: Histories, aliases: Aliases, items: seq<Fields>, from: nat)
    requires Sound(r) && Told(r, h, aliases)
    ensures Told(CaptureAll(r, aliases, items, from), NoteAll(r, h, aliases, items, from), aliases)
    decreases |items|
  {
    hide CaptureOutputItem, NoteItem, Told, Sound;
    if items != [] {
      ItemTold(r, h, aliases, items[0], from);
      AllTold(CaptureOutputItem(r, aliases, items[0], from), NoteItem(r, h, items[0], from), aliases, items[1..], from + 1);
    }
  }

  lemma ListTold(r: Registry, h: Histories, aliases: Aliases, items: seq<Fields>)
    requires Sound(r) && Told(r, h, aliases)
    ensures Told(ReplaceOutputItems(r, aliases, items), NoteList(r, h, aliases, items), aliases)
  {
    hide CaptureAll, NoteAll, WroteAll;
    if items != [] {
      assert Told(r.(items := [], itemByKey := map[]), h, aliases);
      AllTold(r.(items := [], itemByKey := map[]), h, aliases, items, 0);
    }
  }

  lemma EventTold(r: Registry, h: Histories, aliases: Aliases, event: Event)
    requires Sound(r) && Told(r, h, aliases)
    ensures Told(Apply(r, aliases, event), NoteEvent(r, h, aliases, event), aliases)
  {
    hide ReplaceOutputItems, NoteList, ApplyToolArgumentEvent, NoteArguments, CaptureOutputItem, NoteItem, Told, Sound,
         ResponseOutput, EventItem, SliceOfMaps, OutputIndexOf;
    var r1, h1 := ReplaceOutputItems(r, aliases, ResponseOutput(event)), NoteList(r, h, aliases, ResponseOutput(event));
    ListTold(r, h, aliases, ResponseOutput(event));
    var r2 := ApplyArguments(r1, aliases, event);
    var h2 := if IsArgumentEvent(event.kind) then NoteArguments(r1, h1, event) else h1;
    ArgumentsTold(r1, h1, aliases, event);
    var item := EventItem(event);
    var r3 := if item.Some? then CaptureOutputItem(r2, aliases, item.value, OutputIndexOf(event.raw)) else r2;
    var h3 := if item.Some? then NoteItem(r2, h2, item.value, OutputIndexOf(event.raw)) else h2;
    if item.Some? { ItemTold(r2, h2, aliases, item.value, OutputIndexOf(event.raw)); }
    var r4, h4 := ReplaceOutputItems(r3, aliases, SliceOfMaps(event.raw, "output")), NoteList(r3, h3, aliases, SliceOfMaps(event.raw, "output"));
    ListTold(r3, h3, aliases, SliceOfMaps(event.raw, "output"));
    ListTold(r4, h4, aliases, ResponseOutput(event));
  }

  lemma {:induction false} RunTold(r: Registry, h: Histories, aliases: Aliases, events: seq<Event>)
    requires Sound(r) && Told(r, h, aliases)
    ensures Told(Run(r, aliases, events), NoteRun(r, h, aliases, events), aliases)
    decreases |events|
  {
    hide Told, Sound, Apply, NoteEvent;
    if events != [] {
      EventTold(r, h, aliases, events[0]);
      RunTold(Apply(r, aliases, events[0]), NoteEvent(r, h, aliases, events[0]), aliases, events[1..]);
    }
  }

  /** Over every run: what the accumulator has for a call is what was said about it. Its name is the last
      one said, restored; its arguments or its input are the last whole value said and the pieces behind
      it; and so its type and its status are the last ones said. */
  lemma CallsAreWhatWasSaid(aliases: Aliases, events: seq<Event>)
    ensures Sound(EMPTY)
    ensures var r, h := Run(EMPTY, aliases, events), NoteRun(EMPTY, [], aliases, events);
      && |h| == |r.calls|
      && forall i | 0 <= i < |r.calls| ::
           && r.calls[i].name == Restored(NameSaid(h[i]), aliases)
           && r.calls[i].arguments == ValueSaid(h[i], false) && r.calls[i].input == ValueSaid(h[i], true)
           && r.calls[i].toolType == TypeSaid(h[i]) && r.calls[i].status == StatusSaid(h[i])
  {
    hide Run, NoteRun, WroteAll, NameSaid, ValueSaid, TypeSaid, StatusSaid, Restored;
    RunTold(EMPTY, [], aliases, events);
    var h := NoteRun(EMPTY, [], aliases, events);
    forall i | 0 <= i < |h| ensures var c := WroteAll(h[i], aliases);
      && c.name == Restored(NameSaid(h[i]), aliases) && c.status == StatusSaid(h[i]) && c.toolType == TypeSaid(h[i])
      && c.arguments == ValueSaid(h[i], false) && c.input == ValueSaid(h[i], true)
    {
      WritesSay(h[i], aliases);
    }
  }
}
