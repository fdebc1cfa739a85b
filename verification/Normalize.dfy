/** normalizeMessages (internal/anthropic/request.go): the messages of a client become the input items
    of the upstream, and a tool result is refused unless the call it answers came before it. */
module Normalize {
  import opened Text

  datatype Role = System | User | Assistant | UnknownRole

  /** A content block. The pictures, inputs and results that other functions convert are given as
      converted, None where the conversion fails. */
  datatype Block =
    | TextBlock(text: string)
    | Image(url: Option<string>)
    | ToolUse(id: string, name: string, arguments: Option<string>)
    | ToolResult(callID: string, output: Option<string>)
    | SearchUse(id: string, name: string, arguments: Option<string>)
    | SearchResult(callID: string)
    | Thinking(signature: string, summary: string)
    | OtherBlock

  /** `reminder` is the text of a system message. */
  datatype Message = Message(role: Role, reminder: string, content: seq<Block>)

  datatype Part = Text(text: string) | Picture(url: string)

  datatype Item =
    | Content(role: Role, parts: seq<Part>)
    | Call(callID: string, name: string, arguments: string)
    | Output(callID: string, text: string)
    | Search(id: string)
    | Reasoning(signature: string, summary: string)

  /** What the model leaves open: shortenCallID, the aliasing of tool names, and
      IsValidCodexReasoningSignature. */
  datatype Rules = Rules(shortenID: string -> string, alias: string -> string, valid: string -> bool)

  /** The calls and the hosted searches that have been made so far. */
  datatype Known = Known(calls: set<string>, searches: set<string>)

  // ----- what may come -----

  /** A block that may follow what is known, in a message of the role. */
  predicate Permitted(b: Block, role: Role, known: Known) {
    match b
    case TextBlock(_) => true
    case Image(url) => role == User && url.Some?
    case ToolUse(id, name, arguments) => role == Assistant && !Blank(id) && !Blank(name) && arguments.Some?
    case ToolResult(callID, output) => role == User && !Blank(callID) && TrimSpace(callID) in known.calls && output.Some?
    case SearchUse(id, name, arguments) => role == Assistant && !Blank(id) && TrimSpace(name) == "web_search" && arguments.Some?
    case SearchResult(callID) => role == Assistant && !Blank(callID) && TrimSpace(callID) in known.searches
    case Thinking(_, _) => role == Assistant
    case OtherBlock => false
  }

  function Learn(b: Block, known: Known): Known {
    match b
    case ToolUse(id, _, _) => known.(calls := known.calls + {TrimSpace(id)})
    case SearchUse(id, _, _) => known.(searches := known.searches + {TrimSpace(id)})
    case _ => known
  }

  function LearnAll(content: seq<Block>, known: Known): Known
    decreases |content|
  {
    if content == [] then known else LearnAll(content[1..], Learn(content[0], known))
  }

  predicate AllPermitted(content: seq<Block>, role: Role, known: Known)
    decreases |content|
  {
    content == [] || (Permitted(content[0], role, known) && AllPermitted(content[1..], role, Learn(content[0], known)))
  }

  /** Every role is known, and every block may follow the ones before it. System messages count for
      nothing. */
  predicate Acceptable(messages: seq<Message>, known: Known)
    decreases |messages|
  {
    messages == []
    || (messages[0].role == System && Acceptable(messages[1..], known))
    || (messages[0].role != System && messages[0].role != UnknownRole
        && AllPermitted(messages[0].content, messages[0].role, known)
        && Acceptable(messages[1..], LearnAll(messages[0].content, known)))
  }

  // ----- what is sent -----

  /** A piece of input: a part of a message, or an item of its own. */
  datatype Piece = PartOf(role: Role, part: Part) | Whole(item: Item)

  /** What a permitted block becomes. */
  function PieceOf(b: Block, role: Role, rules: Rules): seq<Piece> {
    match b
    case TextBlock(text) => [PartOf(role, Text(text))]
    case Image(url) => if url.Some? then [PartOf(role, Picture(url.value))] else []
    case ToolUse(id, name, arguments) =>
      if arguments.Some? then [Whole(Call(rules.shortenID(TrimSpace(id)), rules.alias(name), arguments.value))] else []
    case ToolResult(callID, output) =>
      if output.Some? then [Whole(Output(rules.shortenID(TrimSpace(callID)), output.value))] else []
    case SearchUse(id, _, _) => [Whole(Search(rules.shortenID(TrimSpace(id))))]
    case Thinking(signature, summary) =>
      if rules.valid(TrimSpace(signature)) then [Whole(Reasoning(TrimSpace(signature), TrimSpace(summary)))] else []
    case _ => []
  }

  function PiecesOf(content: seq<Block>, role: Role, rules: Rules): seq<Piece> {
    if content == [] then [] else PieceOf(content[0], role, rules) + PiecesOf(content[1..], role, rules)
  }

  function AllPieces(messages: seq<Message>, rules: Rules): seq<Piece> {
    if messages == [] then []
    else (if messages[0].role == System then
            (if messages[0].reminder != "" then [PartOf(User, Text(messages[0].reminder))] else [])
          else PiecesOf(messages[0].content, messages[0].role, rules))
         + AllPieces(messages[1..], rules)
  }

  function PartsOf(role: Role, parts: seq<Part>): seq<Piece> {
    seq(|parts|, i requires 0 <= i < |parts| => PartOf(role, parts[i]))
  }

  /** The pieces that input items are made of. */
  function Flatten(items: seq<Item>): seq<Piece> {
    if items == [] then []
    else
      var last := items[|items| - 1];
      Flatten(items[..|items| - 1]) + if last.Content? then PartsOf(last.role, last.parts) else [Whole(last)]
  }

  lemma FlattenSnoc(items: seq<Item>, item: Item)
    ensures Flatten(items + [item]) == Flatten(items) + if item.Content? then PartsOf(item.role, item.parts) else [Whole(item)]
  {
    assert (items + [item])[..|items|] == items;
  }

  /** No message without content. */
  predicate NoneEmpty(items: seq<Item>) {
    forall item | item in items && item.Content? :: item.parts != []
  }

  // ----- the loops -----

  /** The blocks of one message. */
  method NormalizeContent(content: seq<Block>, role: Role, start: Known, before: seq<Item>, rules: Rules)
    returns (items: Option<seq<Item>>, known: Known)
    requires NoneEmpty(before)
    ensures items.Some? <==> AllPermitted(content, role, start)
    ensures items.Some? ==> known == LearnAll(content, start) && NoneEmpty(items.value)
    ensures items.Some? ==> Flatten(items.value) == Flatten(before) + PiecesOf(content, role, rules)
  {
    hide Permitted, Learn, PieceOf, Flatten;
    known := start;
    var result, parts := before, [];
    var k := 0;
    assert content[0..] == content && Flatten(before) + PartsOf(role, []) + PiecesOf(content, role, rules)
      == Flatten(before) + PiecesOf(content, role, rules);
    while k < |content|
      invariant 0 <= k <= |content| && NoneEmpty(result)
      invariant AllPermitted(content, role, start) == AllPermitted(content[k..], role, known)
      invariant LearnAll(content, start) == LearnAll(content[k..], known)
      invariant Flatten(result) + PartsOf(role, parts) + PiecesOf(content[k..], role, rules)
        == Flatten(before) + PiecesOf(content, role, rules)
    {
      var b := content[k];
      assert content[k..][1..] == content[k + 1..];
      if !Permitted(b, role, known) {
        return None, known;
      }
      known := Learn(b, known);
      ghost var oldResult, oldParts := result, parts;
      result, parts := Place(b, role, result, parts, rules);
      Regroup(Flatten(oldResult) + PartsOf(role, oldParts), PieceOf(b, role, rules), PiecesOf(content[k + 1..], role, rules));
      k := k + 1;
    }
    result, parts := FlushContent(role, result, parts);
    assert content[k..] == [];
    items := Some(result);
  }

  lemma Regroup(a: seq<Piece>, b: seq<Piece>, c: seq<Piece>)
    ensures a + (b + c) == a + b + c
  {}

  /** flushContent: the parts collected so far become a message. */
  method FlushContent(role: Role, items: seq<Item>, parts: seq<Part>) returns (result: seq<Item>, rest: seq<Part>)
    requires NoneEmpty(items)
    ensures rest == [] && NoneEmpty(result) && Flatten(result) == Flatten(items) + PartsOf(role, parts)
  {
    if |parts| == 0 {
      return items, [];
    }
    FlattenSnoc(items, Content(role, parts));
    return items + [Content(role, parts)], [];
  }

  /** One permitted block: into the open message, or after it as an item of its own. */
  method Place(b: Block, role: Role, items: seq<Item>, parts: seq<Part>, rules: Rules)
    returns (result: seq<Item>, rest: seq<Part>)
    requires NoneEmpty(items)
    ensures NoneEmpty(result)
    ensures Flatten(result) + PartsOf(role, rest) == Flatten(items) + PartsOf(role, parts) + PieceOf(b, role, rules)
  {
    hide Flatten;
    var pieces := PieceOf(b, role, rules);
    assert |pieces| <= 1;
    if |pieces| == 0 {
      return items, parts;
    }
    if pieces[0].PartOf? {
      assert PartsOf(role, parts + [pieces[0].part]) == PartsOf(role, parts) + pieces;
      return items, parts + [pieces[0].part];
    }
    result, rest := FlushContent(role, items, parts);
    FlattenSnoc(result, pieces[0].item);
    assert pieces == [Whole(pieces[0].item)];
    result := result + [pieces[0].item];
  }

  /** normalizeMessages: it succeeds exactly on acceptable messages, and what it makes of them is
      all of their pieces, in their order. */
  method NormalizeMessages(messages: seq<Message>, rules: Rules) returns (items: Option<seq<Item>>)
    ensures items.Some? <==> Acceptable(messages, Known({}, {}))
    ensures items.Some? ==> NoneEmpty(items.value) && Flatten(items.value) == AllPieces(messages, rules)
  {
    hide AllPermitted, LearnAll, PiecesOf, Flatten;
    var known := Known({}, {});
    var result: seq<Item> := [];
    var k := 0;
    NothingFlat();
    assert messages[0..] == messages && [] + AllPieces(messages, rules) == AllPieces(messages, rules);
    while k < |messages|
      invariant 0 <= k <= |messages| && NoneEmpty(result)
      invariant Acceptable(messages, Known({}, {})) == Acceptable(messages[k..], known)
      invariant Flatten(result) + AllPieces(messages[k..], rules) == AllPieces(messages, rules)
    {
      var m := messages[k];
      ghost var before := result;
      assert messages[k..][1..] == messages[k + 1..];
      if m.role == UnknownRole {
        return None;
      }
      if m.role == System {
        if m.reminder != "" {
          FlattenSnoc(result, Content(User, [Text(m.reminder)]));
          assert PartsOf(User, [Text(m.reminder)]) == [PartOf(User, Text(m.reminder))];
          result := result + [Content(User, [Text(m.reminder)])];
          Regroup(Flatten(before), [PartOf(User, Text(m.reminder))], AllPieces(messages[k + 1..], rules));
        } else {
          assert [] + AllPieces(messages[k + 1..], rules) == AllPieces(messages[k + 1..], rules);
        }
      } else {
        var added, learned := NormalizeContent(m.content, m.role, known, result, rules);
        if added == None {
          return None;
        }
        result, known := added.value, learned;
        Regroup(Flatten(before), PiecesOf(m.content, m.role, rules), AllPieces(messages[k + 1..], rules));
      }
      k := k + 1;
    }
    assert messages[k..] == [] && Flatten(result) + [] == Flatten(result);
    items := Some(result);
  }

  lemma NothingFlat()
    ensures Flatten([]) == []
  {}

  // ----- calls come before their results -----

  /** Every output is preceded by its call. */
  predicate Answered(pieces: seq<Piece>, rules: Rules) {
    forall p | 0 <= p < |pieces| && pieces[p].Whole? && pieces[p].item.Output? ::
      exists q :: 0 <= q < p && IsCall(pieces[q], pieces[p].item.callID)
  }

  predicate IsCall(piece: Piece, callID: string) {
    piece.Whole? && piece.item.Call? && piece.item.callID == callID
  }

  /** The known calls have been sent. */
  predicate KnownSent(known: Known, sent: seq<Piece>, rules: Rules) {
    forall id | id in known.calls :: exists q :: 0 <= q < |sent| && IsCall(sent[q], rules.shortenID(id))
  }

  lemma SentStays(sent: seq<Piece>, more: seq<Piece>, callID: string)
    requires exists q :: 0 <= q < |sent| && IsCall(sent[q], callID)
    ensures exists q :: 0 <= q < |sent + more| && IsCall((sent + more)[q], callID)
  {
    var q :| 0 <= q < |sent| && IsCall(sent[q], callID);
    assert IsCall((sent + more)[q], callID);
  }

  lemma BlockAnswered(b: Block, role: Role, known: Known, sent: seq<Piece>, rules: Rules)
    requires Permitted(b, role, known) && Answered(sent, rules) && KnownSent(known, sent, rules)
    ensures var longer := sent + PieceOf(b, role, rules);
      Answered(longer, rules) && KnownSent(Learn(b, known), longer, rules)
  {
    var more := PieceOf(b, role, rules);
    var longer := sent + more;
    assert |more| <= 1;
    forall id | id in Learn(b, known).calls ensures exists q :: 0 <= q < |longer| && IsCall(longer[q], rules.shortenID(id)) {
      if id in known.calls {
        SentStays(sent, more, rules.shortenID(id));
      } else {
        assert IsCall(longer[|sent|], rules.shortenID(id));
      }
    }
    forall p | 0 <= p < |longer| && longer[p].Whole? && longer[p].item.Output?
      ensures exists q :: 0 <= q < p && IsCall(longer[q], longer[p].item.callID)
    {
      if p < |sent| {
        var q :| 0 <= q < p && IsCall(sent[q], sent[p].item.callID);
        assert IsCall(longer[q], longer[p].item.callID);
      } else {
        var id := TrimSpace(b.callID);
        var q :| 0 <= q < |sent| && IsCall(sent[q], rules.shortenID(id));
        assert IsCall(longer[q], longer[p].item.callID);
      }
    }
  }

  lemma {:induction false} ContentAnswered(content: seq<Block>, role: Role, known: Known, sent: seq<Piece>, rules: Rules)
    requires AllPermitted(content, role, known) && Answered(sent, rules) && KnownSent(known, sent, rules)
    ensures var longer := sent + PiecesOf(content, role, rules);
      Answered(longer, rules) && KnownSent(LearnAll(content, known), longer, rules)
    decreases |content|
  {
    hide Permitted, Learn, PieceOf, Answered, KnownSent;
    if content == [] {
      assert sent + [] == sent;
    } else {
      BlockAnswered(content[0], role, known, sent, rules);
      var next := sent + PieceOf(content[0], role, rules);
      ContentAnswered(content[1..], role, Learn(content[0], known), next, rules);
      Regroup(sent, PieceOf(content[0], role, rules), PiecesOf(content[1..], role, rules));
    }
  }

  /** In whatever is sent upstream, every tool output comes after a call with its id. */
  lemma {:induction false} OutputsFollowCalls(messages: seq<Message>, known: Known, sent: seq<Piece>, rules: Rules)
    requires Acceptable(messages, known) && Answered(sent, rules) && KnownSent(known, sent, rules)
    ensures Answered(sent + AllPieces(messages, rules), rules)
    decreases |messages|
  {
    hide AllPermitted, LearnAll, PiecesOf, Answered, KnownSent;
    if messages == [] {
      assert sent + [] == sent;
    } else {
      var m, rest := messages[0], AllPieces(messages[1..], rules);
      var pieces := if m.role == System then (if m.reminder != "" then [PartOf(User, Text(m.reminder))] else [])
                    else PiecesOf(m.content, m.role, rules);
      if m.role == System {
        ReminderAnswered(known, sent, pieces, rules);
        OutputsFollowCalls(messages[1..], known, sent + pieces, rules);
      } else {
        ContentAnswered(m.content, m.role, known, sent, rules);
        OutputsFollowCalls(messages[1..], LearnAll(m.content, known), sent + pieces, rules);
      }
      Regroup(sent, pieces, rest);
    }
  }

  lemma ReminderAnswered(known: Known, sent: seq<Piece>, more: seq<Piece>, rules: Rules)
    requires Answered(sent, rules) && KnownSent(known, sent, rules) && forall p | p in more :: p.PartOf?
    ensures Answered(sent + more, rules) && KnownSent(known, sent + more, rules)
  {
    var longer := sent + more;
    assert forall p | |sent| <= p < |longer| :: longer[p] in more;
    forall id | id in known.calls ensures exists q :: 0 <= q < |longer| && IsCall(longer[q], rules.shortenID(id)) {
      SentStays(sent, more, rules.shortenID(id));
    }
    forall p | 0 <= p < |longer| && longer[p].Whole? && longer[p].item.Output?
      ensures exists q :: 0 <= q < p && IsCall(longer[q], longer[p].item.callID)
    {
      var q :| 0 <= q < p && IsCall(sent[q], sent[p].item.callID);
      assert IsCall(longer[q], longer[p].item.callID);
    }
  }

  /** What normalizeMessages sends answers nothing that was not asked. */
  lemma NormalizedIsAnswered(messages: seq<Message>, rules: Rules)
    requires Acceptable(messages, Known({}, {}))
    ensures Answered(AllPieces(messages, rules), rules)
  {
    OutputsFollowCalls(messages, Known({}, {}), [], rules);
    assert [] + AllPieces(messages, rules) == AllPieces(messages, rules);
  }
}
