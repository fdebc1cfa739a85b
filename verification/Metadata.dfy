/** What the accumulator keeps besides calls and output items (internal/turn/accumulator.go): the
    identity and status of the response, its text, and how it ended. */
module Metadata {
  import opened Text
  import opened Json
  import opened ToolCalls

  datatype Meta = Meta(
    responseID: string, model: string, status: string, text: string, reasoning: string,
    terminalType: Option<Kind>, rawFinal: Fields)

  const NO_META: Meta := Meta("", "", "", "", "", None, map[])

  function ResponseMeta(m: Meta, response: Option<Fields>): Meta {
    var fields := OrEmpty(response);
    m.(responseID := Or(StringValue(fields, "id"), m.responseID),
       model := Or(StringValue(fields, "model"), m.model),
       status := Or(StringValue(fields, "status"), m.status))
  }

  function RootMeta(m: Meta, raw: Fields): Meta {
    m.(responseID := Or(m.responseID, StringValue(raw, "response_id")),
       model := Or(m.model, StringValue(raw, "model")))
  }

  function TextEvent(m: Meta, event: Event): Meta {
    match event.kind
    case TextDelta => m.(text := m.text + StringValue(event.raw, "delta"))
    case SummaryDelta => m.(reasoning := m.reasoning + StringValue(event.raw, "delta"))
    case TextDone => m.(text := Or(m.text, StringValue(event.raw, "text")))
    case PartDone => m.(text := Or(m.text, StringValue(OrEmpty(MapValue(event.raw, "part")), "text")))
    case Completed => m.(text := Or(m.text, StringValue(OrEmpty(MapValue(event.raw, "response")), "output_text")))
    case Incomplete => m.(text := Or(m.text, StringValue(OrEmpty(MapValue(event.raw, "response")), "output_text")))
    case _ => m
  }

  predicate MentionsText(kind: Kind) {
    kind == TextDelta || kind == TextDone || kind == SummaryDelta || kind == SummaryDone
    || (kind.Other? && kind.mentionsText)
  }

  function FallbackText(m: Meta, event: Event): Meta {
    if m.text != "" || !MentionsText(event.kind) then m
    else m.(text := FirstNonEmpty([StringValue(event.raw, "output_text"),
                                   StringValue(OrEmpty(MapValue(event.raw, "item")), "text")]))
  }

  function TextMeta(m: Meta, event: Event): Meta {
    FallbackText(TextEvent(RootMeta(ResponseMeta(m, MapValue(event.raw, "response")), event.raw), event), event)
  }

  function TerminalMeta(m: Meta, event: Event): Meta {
    if IsTerminal(event) then m.(terminalType := Some(event.kind), rawFinal := event.raw) else m
  }

  function ApplyMeta(m: Meta, event: Event): Meta {
    TerminalMeta(TextMeta(m, event), event)
  }

  function RunMeta(m: Meta, events: seq<Event>): Meta
    decreases |events|
  {
    if events == [] then m else RunMeta(ApplyMeta(m, events[0]), events[1..])
  }

  lemma MetaGrows(m: Meta, event: Event)
    ensures m.text <= ApplyMeta(m, event).text && m.reasoning <= ApplyMeta(m, event).reasoning
  {
    hide StringValue, FirstNonEmpty, MentionsText, OrEmpty, MapValue;
    var m1 := RootMeta(ResponseMeta(m, MapValue(event.raw, "response")), event.raw);
    assert m1.text == m.text && m1.reasoning == m.reasoning;
    var m2 := TextEvent(m1, event);
    assert m1.text <= m2.text && m1.reasoning <= m2.reasoning;
  }

  /** Text that has been accumulated is never taken back or changed, only added to. */
  lemma {:induction false} TextOnlyGrows(m: Meta, events: seq<Event>)
    ensures m.text <= RunMeta(m, events).text && m.reasoning <= RunMeta(m, events).reasoning
    decreases |events|
  {
    hide ApplyMeta;
    if events != [] {
      MetaGrows(m, events[0]);
      TextOnlyGrows(ApplyMeta(m, events[0]), events[1..]);
    }
  }

  // ----- what has been accumulated -----

  /** The deltas of the events of a kind, in order. */
  function DeltasOf(events: seq<Event>, kind: Kind): string {
    if events == [] then ""
    else (if events[0].kind == kind then StringValue(events[0].raw, "delta") else "") + DeltasOf(events[1..], kind)
  }

  /** The reasoning is what the summary deltas say, and nothing else. */
  lemma {:induction false} ReasoningIsTheSummary(m: Meta, events: seq<Event>)
    ensures RunMeta(m, events).reasoning == m.reasoning + DeltasOf(events, SummaryDelta)
    decreases |events|
  {
    hide ApplyMeta, StringValue;
    if events != [] {
      OneReasoning(m, events[0]);
      ReasoningIsTheSummary(ApplyMeta(m, events[0]), events[1..]);
    }
  }

  lemma OneReasoning(m: Meta, event: Event)
    ensures ApplyMeta(m, event).reasoning
      == if event.kind == SummaryDelta then m.reasoning + StringValue(event.raw, "delta") else m.reasoning
  {
    hide StringValue, FirstNonEmpty, MentionsText, OrEmpty, MapValue;
  }

  /** Where an event of each kind carries text. */
  function OwnText(event: Event): string {
    if event.kind == TextDelta then StringValue(event.raw, "delta")
    else if event.kind == TextDone then StringValue(event.raw, "text")
    else if event.kind == PartDone then StringValue(OrEmpty(MapValue(event.raw, "part")), "text")
    else if IsTerminal(event) then StringValue(OrEmpty(MapValue(event.raw, "response")), "output_text")
    else ""
  }

  /** The text an event can begin the answer with: its own, or what stands beside it in an event that is
      about text. */
  function FirstText(event: Event): string {
    if OwnText(event) != "" then OwnText(event)
    else if !MentionsText(event.kind) then ""
    else Or(Unblank(StringValue(event.raw, "output_text")), Unblank(StringValue(OrEmpty(MapValue(event.raw, "item")), "text")))
  }

  function Unblank(s: string): string {
    if Blank(s) then "" else s
  }

  /** The answer begins with the first event that has text, and goes on with the deltas behind it. */
  function Answer(events: seq<Event>): string {
    if events == [] then ""
    else if FirstText(events[0]) == "" then Answer(events[1..])
    else FirstText(events[0]) + DeltasOf(events[1..], TextDelta)
  }

  lemma FirstOfTwo(a: string, b: string)
    ensures FirstNonEmpty([a, b]) == Or(Unblank(a), Unblank(b))
  {
    assert Blank("");
    hide Blank;
    assert [a, b][1..] == [b] && [b][1..] == [];
  }

  lemma OwnTextTaken(m: Meta, event: Event)
    ensures TextEvent(m, event).text
      == if m.text == "" then OwnText(event)
         else if event.kind == TextDelta then m.text + StringValue(event.raw, "delta") else m.text
  {
    hide StringValue, OrEmpty, MapValue;
    assert "" + OwnText(event) == OwnText(event);
  }

  lemma FallbackTaken(m: Meta, event: Event)
    ensures FallbackText(m, event).text
      == if m.text != "" || !MentionsText(event.kind) then m.text
         else Or(Unblank(StringValue(event.raw, "output_text")), Unblank(StringValue(OrEmpty(MapValue(event.raw, "item")), "text")))
  {
    FirstOfTwo(StringValue(event.raw, "output_text"), StringValue(OrEmpty(MapValue(event.raw, "item")), "text"));
    hide StringValue, FirstNonEmpty, MentionsText, OrEmpty, MapValue, Unblank;
  }

  lemma OneText(m: Meta, event: Event)
    ensures ApplyMeta(m, event).text
      == if m.text == "" then FirstText(event)
         else if event.kind == TextDelta then m.text + StringValue(event.raw, "delta") else m.text
  {
    hide StringValue, FirstNonEmpty, MentionsText, OrEmpty, MapValue, Unblank, OwnText, TextEvent, FallbackText;
    var m1 := RootMeta(ResponseMeta(m, MapValue(event.raw, "response")), event.raw);
    OwnTextTaken(m1, event);
    FallbackTaken(TextEvent(m1, event), event);
  }

  /** Once there is text, exactly the text deltas are added to it. */
  lemma {:induction false} TextGoesOn(m: Meta, events: seq<Event>)
    requires m.text != ""
    ensures RunMeta(m, events).text == m.text + DeltasOf(events, TextDelta)
    decreases |events|
  {
    hide ApplyMeta, StringValue, FirstText;
    if events != [] {
      OneText(m, events[0]);
      TextGoesOn(ApplyMeta(m, events[0]), events[1..]);
    }
  }

  /** The text of every run: the first event with text supplies the beginning. */
  lemma {:induction false} TextIsTheAnswer(m: Meta, events: seq<Event>)
    requires m.text == ""
    ensures RunMeta(m, events).text == Answer(events)
    decreases |events|
  {
    hide ApplyMeta, StringValue, FirstText;
    if events != [] {
      OneText(m, events[0]);
      if FirstText(events[0]) == "" {
        TextIsTheAnswer(ApplyMeta(m, events[0]), events[1..]);
      } else {
        TextGoesOn(ApplyMeta(m, events[0]), events[1..]);
      }
    }
  }

  /** In particular, the answer is the text deltas and nothing else when no event before the first of
      them has text. */
  lemma {:induction false} AnswerOfDeltas(events: seq<Event>, n: nat)
    requires n < |events| && events[n].kind == TextDelta && StringValue(events[n].raw, "delta") != ""
    requires forall k | 0 <= k < n :: FirstText(events[k]) == ""
    ensures Answer(events) == DeltasOf(events, TextDelta)
  {
    if n > 0 {
      assert FirstText(events[0]) == "";
      hide StringValue;
      forall k | 0 <= k < n - 1 ensures FirstText(events[1..][k]) == "" { assert events[1..][k] == events[k + 1]; }
      AnswerOfDeltas(events[1..], n - 1);
    }
  }

  // ----- what the response is called, and how it ended -----

  /** The last that the responses of the events say under the key. */
  function LastGiven(events: seq<Event>, key: string): string {
    if events == [] then ""
    else Or(StringValue(OrEmpty(MapValue(events[|events| - 1].raw, "response")), key), LastGiven(events[..|events| - 1], key))
  }

  /** The first that the events themselves say. */
  function FirstAtRoot(events: seq<Event>, key: string): string {
    if events == [] then "" else Or(FirstAtRoot(events[..|events| - 1], key), StringValue(events[|events| - 1].raw, key))
  }

  /** The kind and the data of the last terminal event. */
  function LastTerminal(events: seq<Event>): Option<Event> {
    if events == [] then None
    else if IsTerminal(events[|events| - 1]) then Some(events[|events| - 1])
    else LastTerminal(events[..|events| - 1])
  }

  lemma {:induction false} RunMetaSnoc(m: Meta, events: seq<Event>, e: Event)
    ensures RunMeta(m, events + [e]) == ApplyMeta(RunMeta(m, events), e)
    decreases |events|
  {
    hide ApplyMeta;
    if events == [] {
      assert ([] + [e])[1..] == [];
    } else {
      assert (events + [e])[1..] == events[1..] + [e];
      RunMetaSnoc(ApplyMeta(m, events[0]), events[1..], e);
    }
  }

  lemma OneIdentity(m: Meta, event: Event)
    ensures var r, s := OrEmpty(MapValue(event.raw, "response")), ApplyMeta(m, event);
      && s.responseID == Or(Or(StringValue(r, "id"), m.responseID), StringValue(event.raw, "response_id"))
      && s.model == Or(Or(StringValue(r, "model"), m.model), StringValue(event.raw, "model"))
      && s.status == Or(StringValue(r, "status"), m.status)
      && s.terminalType == (if IsTerminal(event) then Some(event.kind) else m.terminalType)
      && s.rawFinal == (if IsTerminal(event) then event.raw else m.rawFinal)
  {
    hide StringValue, FirstNonEmpty, MentionsText, OrEmpty, MapValue;
  }

  /** Ids and models that responses carry take precedence, the last of them; the status is the last one
      given; and the end is that of the last terminal event. */
  lemma {:induction false} IdentityOfRun(events: seq<Event>)
    ensures var m := RunMeta(NO_META, events);
      && m.responseID == Or(LastGiven(events, "id"), FirstAtRoot(events, "response_id"))
      && m.model == Or(LastGiven(events, "model"), FirstAtRoot(events, "model"))
      && m.status == LastGiven(events, "status")
      && (match LastTerminal(events)
          case None => m.terminalType == None && m.rawFinal == map[]
          case Some(e) => m.terminalType == Some(e.kind) && m.rawFinal == e.raw)
  {
    hide ApplyMeta, StringValue, MapValue, OrEmpty;
    if events != [] {
      var n := |events| - 1;
      IdentityOfRun(events[..n]);
      assert events[..n] + [events[n]] == events;
      RunMetaSnoc(NO_META, events[..n], events[n]);
      OneIdentity(RunMeta(NO_META, events[..n]), events[n]);
    }
  }

  /** Accumulator.IsIncomplete: the terminal event or the last status said so. */
  predicate IsIncomplete(m: Meta) {
    m.terminalType == Some(Incomplete) || ToLower(TrimSpace(m.status)) == "incomplete"
  }

  /** When a run is incomplete, told from its events: the last terminal event says so, or the last status
      any of them gives. */
  lemma IncompleteExactly(events: seq<Event>)
    ensures IsIncomplete(RunMeta(NO_META, events))
      <==> || (LastTerminal(events).Some? && LastTerminal(events).value.kind == Incomplete)
           || ToLower(TrimSpace(LastGiven(events, "status"))) == "incomplete"
  {
    IdentityOfRun(events);
    hide TrimSpace, LastGiven, RunMeta;
  }
}
