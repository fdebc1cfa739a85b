/** In what order the encoder of internal/anthropic/stream.go shows what the terminal event brings, when
    text shares a block, and what its helpers take from an item. */
module EncoderOrder {
  import opened Text
  import opened Json
  import opened ToolCalls
  import opened ToolCallLaws
  import opened Encoder
  import opened Messages
  import opened EncoderGrammar
  import opened EncoderRuns

  // ----- the order of the terminal event -----

  /** Thinking, searches, text; and all tools before them or all behind. */
  function Place(head: Head, toolsFirst: bool): nat {
    match head
    case ToolHead(_, _, _) => if toolsFirst then 0 else 4
    case ThinkingHead => 1
    case SearchHead(_) => 2
    case SearchResultHead(_) => 2
    case TextHead => 3
  }

  /** All blocks that begin have the place. */
  predicate AllAt(out: seq<Out>, place: nat, toolsFirst: bool) {
    forall o | o in out && o.BlockStart? :: Place(o.head, toolsFirst) == place
  }

  /** All blocks that begin have a place up to the bound. */
  predicate UpTo(out: seq<Out>, bound: nat, toolsFirst: bool) {
    forall o | o in out && o.BlockStart? :: Place(o.head, toolsFirst) <= bound
  }

  predicate InPlaces(out: seq<Out>, toolsFirst: bool) {
    forall p, q | 0 <= p < q < |out| && out[p].BlockStart? && out[q].BlockStart? ::
      Place(out[p].head, toolsFirst) <= Place(out[q].head, toolsFirst)
  }

  lemma PlacesAppend(a: seq<Out>, b: seq<Out>, bound: nat, place: nat, toolsFirst: bool)
    requires InPlaces(a, toolsFirst) && UpTo(a, bound, toolsFirst) && AllAt(b, place, toolsFirst) && bound <= place
    ensures InPlaces(a + b, toolsFirst) && UpTo(a + b, place, toolsFirst)
  {
    var all := a + b;
    hide Place;
    forall p, q | 0 <= p < q < |all| && all[p].BlockStart? && all[q].BlockStart?
      ensures Place(all[p].head, toolsFirst) <= Place(all[q].head, toolsFirst)
    {
      assert all[p] in a || all[p] in b;
      assert q < |a| || all[q] in b;
    }
  }

  lemma ClosingBegins(e: Enc, place: nat, toolsFirst: bool)
    ensures AllAt(CloseBlock(e).1, place, toolsFirst)
  {}

  lemma ThinkingBegins(e: Enc, blocks: seq<Shown>, toolsFirst: bool)
    ensures AllAt(HydrateThinking(e, blocks).1, 1, toolsFirst)
    decreases |blocks|
  {
    if !e.thinkEmitted && blocks != [] {
      if blocks[0].ShownThinking? {
        hide Blank;
      } else {
        ThinkingBegins(e, blocks[1..], toolsFirst);
      }
    }
  }

  lemma OneSearchBegins(e: Enc, item: Fields, fallbackID: string, shorten: string -> string, toolsFirst: bool)
    ensures AllAt(CompleteWebSearch(e, item, fallbackID, shorten).1, 2, toolsFirst)
  {
    hide SearchOf;
  }

  lemma {:induction false} SearchesBegin(e: Enc, output: seq<Fields>, k: nat, shorten: string -> string, toolsFirst: bool)
    requires k <= |output|
    ensures AllAt(HydrateSearches(e, output, k, shorten).1, 2, toolsFirst)
    decreases |output| - k
  {
    hide CompleteWebSearch, Place, StringValue;
    if k < |output| {
      if StringValue(output[k], "type") != "web_search_call" {
        SearchesBegin(e, output, k + 1, shorten, toolsFirst);
      } else {
        OneSearchBegins(e, output[k], "web_search_" + Itoa(k), shorten, toolsFirst);
        SearchesBegin(CompleteWebSearch(e, output[k], "web_search_" + Itoa(k), shorten).0, output, k + 1, shorten, toolsFirst);
      }
    }
  }

  lemma {:induction false} TextBegins(e: Enc, blocks: seq<Shown>, toolsFirst: bool)
    ensures AllAt(HydrateText(e, blocks).1, 3, toolsFirst)
    decreases |blocks|
  {
    if !e.textEmitted && blocks != [] && !(blocks[0].ShownText? && blocks[0].text != "") { TextBegins(e, blocks[1..], toolsFirst); }
  }

  lemma EmitBegins(e: Enc, id: string, c: Call, shorten: string -> string, toolsFirst: bool)
    ensures AllAt(EmitTool(e, id, c, shorten).1, if toolsFirst then 0 else 4, toolsFirst)
  {
    hide ValueOf, LengthOf, BufferedDeltas;
  }

  lemma {:induction false} FlushBegins(e: Enc, calls: seq<Call>, k: nat, shorten: string -> string, toolsFirst: bool)
    requires k <= |e.tools.order| && InRange(e, calls)
    ensures AllAt(FlushFrom(e, calls, k, shorten).1, if toolsFirst then 0 else 4, toolsFirst)
    decreases |e.tools.order| - k
  {
    hide EmitTool, Place;
    if k < |e.tools.order| {
      var id := e.tools.order[k];
      if id in e.tools.sent || id !in e.tools.states {
        FlushBegins(e, calls, k + 1, shorten, toolsFirst);
      } else if id in e.tools.done {
        var c := calls[e.tools.states[id]];
        EmitBegins(e, id, c, shorten, toolsFirst);
        EmitKeeps(e, id, c, shorten);
        FlushBegins(EmitTool(e, id, c, shorten).0, calls, k + 1, shorten, toolsFirst);
      }
    }
  }

  lemma EmitKeeps(e: Enc, id: string, c: Call, shorten: string -> string)
    ensures EmitTool(e, id, c, shorten).0.tools.order == e.tools.order && EmitTool(e, id, c, shorten).0.tools.states == e.tools.states
  {
    hide ValueOf;
  }

  lemma TerminalFlushBegins(e: Enc, calls: seq<Call>, shorten: string -> string, toolsFirst: bool)
    requires InRange(e, calls)
    ensures AllAt(FlushTerminalTools(e, calls, shorten).1, if toolsFirst then 0 else 4, toolsFirst)
  {
    hide FlushFrom, Place;
    FlushBegins(e, calls, 0, shorten, toolsFirst);
    if ToolOpen(e) {
      var id := e.open.value.kind.callID;
      var e1 := if id in e.tools.states && id in e.tools.done then ToolRemainder(e, calls[e.tools.states[id]]).0 else e;
      FlushBegins(CloseBlock(e1).0, calls, 0, shorten, toolsFirst);
    }
  }

  lemma HydratedPlaces(early: seq<Out>, thinking: seq<Out>, searches: seq<Out>, text: seq<Out>, late: seq<Out>, toolsFirst: bool)
    requires AllAt(early, 0, toolsFirst) && AllAt(thinking, 1, toolsFirst) && AllAt(searches, 2, toolsFirst)
    requires AllAt(text, 3, toolsFirst) && AllAt(late, 4, toolsFirst)
    ensures InPlaces(early + thinking + searches + text + late, toolsFirst)
    ensures UpTo(early + thinking + searches + text + late, 4, toolsFirst)
  {
    hide Place;
    PlacesAppend(early, thinking, 0, 1, toolsFirst);
    PlacesAppend(early + thinking, searches, 1, 2, toolsFirst);
    PlacesAppend(early + thinking + searches, text, 2, 3, toolsFirst);
    PlacesAppend(early + thinking + searches + text, late, 3, 4, toolsFirst);
  }

  /** The blocks of the terminal event begin in this order: thinking, searches, text; and the tools before
      all of them when some had been started, behind all of them otherwise. */
  lemma HydratedInOrder(e: Enc, calls: seq<Call>, view: View, cfg: Config)
    requires InRange(e, calls)
    ensures InPlaces(Finish(e, calls, view, cfg).1, ToolStreamStarted(e))
  {
    hide FlushTerminalTools, HydrateThinking, HydrateSearches, HydrateText, Settle, ToolStreamStarted, InPlaces, AllAt, UpTo, CloseBlock;
    var streaming := ToolStreamStarted(e);
    var e0 := Settle(e, calls, view.response, 0);
    HydrateKeepsStates(e0, calls, view, cfg.shorten, streaming);
    TerminalFlushBegins(e0, calls, cfg.shorten, streaming);
    var (e1, early) := if streaming then FlushTerminalTools(e0, calls, cfg.shorten) else (e0, []);
    ThinkingBegins(e1, view.blocks, streaming);
    var (e2, thinking) := HydrateThinking(e1, view.blocks);
    SearchesBegin(e2, view.output, 0, cfg.shorten, streaming);
    var (e3, searches) := HydrateSearches(e2, view.output, 0, cfg.shorten);
    TextBegins(e3, view.blocks, streaming);
    var (e4, text) := HydrateText(e3, view.blocks);
    TerminalFlushBegins(e4, calls, cfg.shorten, streaming);
    var (e5, late) := if streaming then (e4, []) else FlushTerminalTools(e4, calls, cfg.shorten);
    NothingAt(streaming);
    HydratedPlaces(early, thinking, searches, text, late, streaming);
    ClosingBegins(e5, 4, streaming);
    EndsAt(CloseBlock(e5).1, view, streaming);
    var hydrated := early + thinking + searches + text + late;
    PlacesAppend(hydrated, CloseBlock(e5).1 + [MessageDelta(view.stopReason, view.stopSequence), MessageStop], 4, 4, streaming);
    assert hydrated + CloseBlock(e5).1 + [MessageDelta(view.stopReason, view.stopSequence), MessageStop]
      == hydrated + (CloseBlock(e5).1 + [MessageDelta(view.stopReason, view.stopSequence), MessageStop]);
  }

  lemma NothingAt(toolsFirst: bool)
    ensures forall place :: AllAt([], place, toolsFirst)
    ensures InPlaces([], toolsFirst) && UpTo([], 0, toolsFirst)
    ensures forall out: seq<Out> :: AllAt(out, 0, toolsFirst) ==> InPlaces(out, toolsFirst) && UpTo(out, 0, toolsFirst)
  {
    forall out: seq<Out> | AllAt(out, 0, toolsFirst) ensures InPlaces(out, toolsFirst) {
      forall p, q | 0 <= p < q < |out| && out[p].BlockStart? && out[q].BlockStart?
        ensures Place(out[p].head, toolsFirst) <= Place(out[q].head, toolsFirst)
      {
        assert out[p] in out && out[q] in out;
      }
    }
  }

  lemma EndsAt(closed: seq<Out>, view: View, toolsFirst: bool)
    requires AllAt(closed, 4, toolsFirst)
    ensures AllAt(closed + [MessageDelta(view.stopReason, view.stopSequence), MessageStop], 4, toolsFirst)
  {
    hide Place;
  }

  // ----- when text shares a block -----

  /** While a block is open, which is then a text block, a piece of text goes into it. */
  lemma TextStaysInOneBlock(aliases: Aliases, cfg: Config, before: seq<Input>, last: Input)
    requires NoneTerminal(before) && last.event.kind == TextDelta && !cfg.hasSchema && StringValue(last.event.raw, "delta") != ""
    ensures Valid(START)
    ensures var s := Encode(START, aliases, cfg, before).0;
      s.enc.open.Some? ==>
        Next(s, aliases, cfg, last).1 == [BlockDelta(s.enc.open.value.index, TextField, StringValue(last.event.raw, "delta"))]
  {
    StartIsValid();
    hide *;
    RunTracks(START, aliases, cfg, before, Begin);
    var (s, trace) := Encode(START, aliases, cfg, before);
    if s.enc.open.Some? {
      OpenIsText(s.enc, Read(Begin, trace));
      NextTakesDelta(s, aliases, cfg, last);
    }
  }

  lemma NextTakesDelta(s: State, aliases: Aliases, cfg: Config, last: Input)
    requires Valid(s) && s.enc.started && s.enc.open.Some? && s.enc.open.value.kind == TextBlock
    requires last.event.kind == TextDelta && !cfg.hasSchema && StringValue(last.event.raw, "delta") != ""
    ensures Next(s, aliases, cfg, last).1 == [BlockDelta(s.enc.open.value.index, TextField, StringValue(last.event.raw, "delta"))]
  {
    hide Inv, Apply, StringValue, CallForEvent, SendText, InRange;
    ApplyKeeps(s.reg, aliases, last.event);
    SendsInto(s.enc, StringValue(last.event.raw, "delta"));
  }

  lemma SendsInto(e: Enc, text: string)
    requires e.open.Some? && e.open.value.kind == TextBlock
    ensures SendText(e, text).1 == [BlockDelta(e.open.value.index, TextField, text)]
    ensures [] + SendText(e, text).1 == SendText(e, text).1
  {}

  lemma OpenIsText(e: Enc, g: Reading)
    requires Tracks(e, g) && e.open.Some?
    ensures e.started && e.open.value.kind == TextBlock
  {}

  /** The end of a text ends its block: nothing is open behind it. */
  lemma NothingOpenAfterText(aliases: Aliases, cfg: Config, before: seq<Input>, last: Input)
    requires NoneTerminal(before) && last.event.kind == TextDone
    ensures Valid(START) && Encode(START, aliases, cfg, before + [last]).0.enc.open == None
  {
    StartIsValid();
    hide *;
    RunTracks(START, aliases, cfg, before, Begin);
    RunSnoc(START, aliases, cfg, before, last);
    var (s, trace) := Encode(START, aliases, cfg, before);
    TracksQuiet(s.enc, Read(Begin, trace));
    NextClosesText(s, aliases, cfg, last);
  }

  lemma TracksQuiet(e: Enc, g: Reading)
    requires Tracks(e, g)
    ensures Quiet(e)
  {}

  lemma NextClosesText(s: State, aliases: Aliases, cfg: Config, last: Input)
    requires Valid(s) && Quiet(s.enc) && last.event.kind == TextDone
    ensures Next(s, aliases, cfg, last).0.enc.open == None
  {
    hide Inv, Apply, CallForEvent, FinishText, InRange;
    ApplyKeeps(s.reg, aliases, last.event);
    TextDoneCloses(Started(s.enc), last.event, last.view, cfg);
  }

  lemma TextDoneCloses(e: Enc, event: Event, view: View, cfg: Config)
    requires Quiet(e)
    ensures FinishText(e, event, view, cfg).0.open == None
  {
    hide StringValue;
  }

  // ----- what is taken from an item -----

  const SHORT := {"incomplete", "failed", "cancelled"}

  /** A call may be run when it says so, or when neither it nor the response says that it stopped short;
      in any case and with white space around. */
  lemma ExecutableExactly(c: Call, response: Fields)
    ensures Executable(c, response)
      <==> var own, all := ToLower(TrimSpace(c.status)), ToLower(TrimSpace(StringValue(response, "status")));
           own == "completed" || (own !in SHORT && all !in SHORT)
  {
    hide ToLower, TrimSpace, StringValue;
    assert "completed" !in SHORT;
  }

  /** The names under which an item may say its id, with the one that is made up if it does not. */
  function IDsOf(item: Fields, fallbackID: string): seq<string> {
    [StringValue(item, "id"), StringValue(item, "output_item_id"), StringValue(item, "call_id"), fallbackID]
  }

  function QueriesOf(item: Fields): seq<string> {
    [StringValue(OrEmpty(MapValue(item, "action")), "query"), StringValue(item, "query"), StringValue(OrEmpty(MapValue(item, "input")), "query")]
  }

  /** The first of the values that is not blank. */
  predicate IsFirst(value: string, values: seq<string>) {
    if forall v | v in values :: Blank(v) then value == ""
    else exists k :: 0 <= k < |values| && values[k] == value && !Blank(value) && forall j | 0 <= j < k :: Blank(values[j])
  }

  lemma {:induction false} FirstIsFirst(values: seq<string>)
    ensures IsFirst(FirstNonEmpty(values), values)
  {
    hide Blank;
    if !(forall v | v in values :: Blank(v)) {
      var k := FirstNotBlank(values);
      FirstNonEmptyIsFirst(values, k);
    }
  }

  lemma {:induction false} FirstNotBlank(values: seq<string>) returns (k: nat)
    requires exists v | v in values :: !Blank(v)
    ensures k < |values| && !Blank(values[k]) && forall j | 0 <= j < k :: Blank(values[j])
  {
    hide Blank;
    k := 0;
    if Blank(values[0]) {
      assert values == [values[0]] + values[1..];
      k := FirstNotBlank(values[1..]);
      k := k + 1;
      assert forall j | 1 <= j < k :: values[j] == values[1..][j - 1];
    }
  }

  /** Which searches are shown, and with what id and query. */
  lemma SearchExactly(item: Fields, fallbackID: string, shorten: string -> string) returns (id: string)
    ensures IsFirst(id, IDsOf(item, fallbackID))
    ensures SearchOf(item, fallbackID, shorten).Some?
      <==> shorten(id) != "" && TrimSpace(StringValue(item, "status")) in {"", "completed"}
    ensures SearchOf(item, fallbackID, shorten).Some? ==>
      SearchOf(item, fallbackID, shorten).value.id == shorten(id) && IsFirst(SearchOf(item, fallbackID, shorten).value.query, QueriesOf(item))
  {
    FirstIsFirst(IDsOf(item, fallbackID));
    FirstIsFirst(QueriesOf(item));
    hide TrimSpace, FirstNonEmpty, StringValue, IsFirst, OrEmpty, MapValue;
    id := FirstNonEmpty(IDsOf(item, fallbackID));
  }

  /** The places where the signature of a summary may be. */
  function SignaturesOf(event: Event): seq<string> {
    [StringValue(event.raw, "signature"), StringValue(event.raw, "encrypted_content"),
     StringValue(OrEmpty(MapValue(event.raw, "item")), "encrypted_content")]
  }

  /** The signature is the first of them that there is. */
  lemma SummarySignatureIsFirst(event: Event)
    ensures forall k | 0 <= k < 3 && SignaturesOf(event)[k] != "" && (forall j | 0 <= j < k :: SignaturesOf(event)[j] == "") ::
      SummarySignature(event) == SignaturesOf(event)[k]
    ensures SummarySignature(event) == "" <==> forall k | 0 <= k < 3 :: SignaturesOf(event)[k] == ""
  {
    hide StringValue, OrEmpty, MapValue;
    var s := SignaturesOf(event);
    assert SummarySignature(event) == if s[0] != "" then s[0] else if s[1] != "" then s[1] else s[2];
  }
}
