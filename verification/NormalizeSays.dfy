/** What the upstream is told of each kind of block by normalizeMessages (internal/anthropic/request.go):
    everything of a kind, in the order of the client, with nothing else of that kind between. */
module NormalizeSays {
  import opened Text
  import opened Normalize

  /** A block with the role of its message. A system message is a text of the user. */
  datatype Said = Said(role: Role, block: Block)

  function SaidIn(content: seq<Block>, role: Role): seq<Said> {
    if content == [] then [] else [Said(role, content[0])] + SaidIn(content[1..], role)
  }

  function AllSaid(messages: seq<Message>): seq<Said> {
    if messages == [] then []
    else
      (if messages[0].role != System then SaidIn(messages[0].content, messages[0].role)
       else if messages[0].reminder != "" then [Said(User, TextBlock(messages[0].reminder))] else [])
      + AllSaid(messages[1..])
  }

  function PiecesSaid(said: seq<Said>, rules: Rules): seq<Piece> {
    if said == [] then [] else PieceOf(said[0].block, said[0].role, rules) + PiecesSaid(said[1..], rules)
  }

  lemma {:induction false} PiecesAppend(a: seq<Said>, b: seq<Said>, rules: Rules)
    ensures PiecesSaid(a + b, rules) == PiecesSaid(a, rules) + PiecesSaid(b, rules)
  {
    hide PieceOf;
    if a == [] {
      assert a + b == b;
    } else {
      assert (a + b)[0] == a[0] && (a + b)[1..] == a[1..] + b;
      PiecesAppend(a[1..], b, rules);
    }
  }

  lemma {:induction false} PiecesOfContent(content: seq<Block>, role: Role, rules: Rules)
    ensures PiecesOf(content, role, rules) == PiecesSaid(SaidIn(content, role), rules)
  {
    hide PieceOf;
    if content != [] {
      PiecesOfContent(content[1..], role, rules);
      assert SaidIn(content, role)[1..] == SaidIn(content[1..], role);
    }
  }

  lemma {:induction false} AllPiecesSaid(messages: seq<Message>, rules: Rules)
    ensures AllPieces(messages, rules) == PiecesSaid(AllSaid(messages), rules)
  {
    if messages != [] {
      var m := messages[0];
      AllPiecesSaid(messages[1..], rules);
      PiecesOfContent(m.content, m.role, rules);
      var first := if m.role != System then SaidIn(m.content, m.role)
                   else if m.reminder != "" then [Said(User, TextBlock(m.reminder))] else [];
      PiecesAppend(first, AllSaid(messages[1..]), rules);
      if m.role == System && m.reminder != "" {
        assert first[1..] == [];
        assert PiecesSaid(first, rules) == [PartOf(User, Text(m.reminder))] + [];
      }
    }
  }

  // ----- kind by kind -----

  datatype Kind = Texts | Pictures | Calls | Outputs | Searches | Thoughts

  predicate BlockOf(b: Block, kind: Kind, rules: Rules) {
    match kind
    case Texts => b.TextBlock?
    case Pictures => b.Image? && b.url.Some?
    case Calls => b.ToolUse? && b.arguments.Some?
    case Outputs => b.ToolResult? && b.output.Some?
    case Searches => b.SearchUse?
    case Thoughts => b.Thinking? && rules.valid(TrimSpace(b.signature))
  }

  predicate IsPiece(p: Piece, kind: Kind) {
    match kind
    case Texts => p.PartOf? && p.part.Text?
    case Pictures => p.PartOf? && p.part.Picture?
    case Calls => p.Whole? && p.item.Call?
    case Outputs => p.Whole? && p.item.Output?
    case Searches => p.Whole? && p.item.Search?
    case Thoughts => p.Whole? && p.item.Reasoning?
  }

  /** The piece tells what the block of the role says. */
  predicate Tells(p: Piece, said: Said, kind: Kind, rules: Rules) {
    && IsPiece(p, kind) && BlockOf(said.block, kind, rules)
    && (match kind
        case Texts => p.role == said.role && p.part.text == said.block.text
        case Pictures => p.role == said.role && p.part.url == said.block.url.value
        case Calls =>
          && p.item.callID == rules.shortenID(TrimSpace(said.block.id)) && p.item.name == rules.alias(said.block.name)
          && p.item.arguments == said.block.arguments.value
        case Outputs => p.item.callID == rules.shortenID(TrimSpace(said.block.callID)) && p.item.text == said.block.output.value
        case Searches => p.item.id == rules.shortenID(TrimSpace(said.block.id))
        case Thoughts => p.item.signature == TrimSpace(said.block.signature) && p.item.summary == TrimSpace(said.block.summary))
  }

  function OnlySaid(said: seq<Said>, kind: Kind, rules: Rules): seq<Said> {
    if said == [] then [] else (if BlockOf(said[0].block, kind, rules) then [said[0]] else []) + OnlySaid(said[1..], kind, rules)
  }

  function OnlyPieces(pieces: seq<Piece>, kind: Kind): seq<Piece> {
    if pieces == [] then [] else (if IsPiece(pieces[0], kind) then [pieces[0]] else []) + OnlyPieces(pieces[1..], kind)
  }

  /** One after the other, the pieces tell what the blocks say. */
  ghost predicate AllTell(pieces: seq<Piece>, said: seq<Said>, kind: Kind, rules: Rules) {
    |pieces| == |said| && forall k | 0 <= k < |said| :: Tells(pieces[k], said[k], kind, rules)
  }

  lemma OnePiece(said: Said, kind: Kind, rules: Rules)
    ensures AllTell(OnlyPieces(PieceOf(said.block, said.role, rules), kind), OnlySaid([said], kind, rules), kind, rules)
  {
    var pieces := PieceOf(said.block, said.role, rules);
    assert [said][1..] == [];
    assert |pieces| <= 1;
    if |pieces| == 1 { assert pieces[1..] == []; }
  }

  lemma {:induction false} OnlyAppend(a: seq<Piece>, b: seq<Piece>, kind: Kind)
    ensures OnlyPieces(a + b, kind) == OnlyPieces(a, kind) + OnlyPieces(b, kind)
  {
    hide IsPiece;
    if a == [] {
      assert a + b == b;
    } else {
      assert (a + b)[0] == a[0] && (a + b)[1..] == a[1..] + b;
      OnlyAppend(a[1..], b, kind);
    }
  }

  lemma {:induction false} SaidIsTold(said: seq<Said>, kind: Kind, rules: Rules)
    ensures AllTell(OnlyPieces(PiecesSaid(said, rules), kind), OnlySaid(said, kind, rules), kind, rules)
  {
    if said != [] {
      var first, rest := PieceOf(said[0].block, said[0].role, rules), PiecesSaid(said[1..], rules);
      SaidIsTold(said[1..], kind, rules);
      OnePiece(said[0], kind, rules);
      OnlyAppend(first, rest, kind);
      FirstSaid(said, kind, rules);
      hide PieceOf, AllTell, OnlySaid, OnlyPieces;
      TellOn(OnlyPieces(first, kind), OnlyPieces(rest, kind), OnlySaid([said[0]], kind, rules), OnlySaid(said[1..], kind, rules), kind, rules);
    }
  }

  lemma FirstSaid(said: seq<Said>, kind: Kind, rules: Rules)
    requires said != []
    ensures OnlySaid(said, kind, rules) == OnlySaid([said[0]], kind, rules) + OnlySaid(said[1..], kind, rules)
  {
    hide BlockOf;
    assert [said[0]][1..] == [];
  }

  lemma TellOn(a: seq<Piece>, b: seq<Piece>, p: seq<Said>, q: seq<Said>, kind: Kind, rules: Rules)
    requires AllTell(a, p, kind, rules) && AllTell(b, q, kind, rules)
    ensures AllTell(a + b, p + q, kind, rules)
  {
    hide Tells;
  }

  /** Of every kind, the upstream is told exactly what the client said, in its order. */
  lemma EverythingIsTold(messages: seq<Message>, items: seq<Item>, kind: Kind, rules: Rules)
    requires Flatten(items) == AllPieces(messages, rules)
    ensures AllTell(OnlyPieces(Flatten(items), kind), OnlySaid(AllSaid(messages), kind, rules), kind, rules)
  {
    AllPiecesSaid(messages, rules);
    SaidIsTold(AllSaid(messages), kind, rules);
  }

  // ----- what is accepted -----

  /** Who may say what. */
  predicate MaySay(role: Role, b: Block) {
    match role
    case User => b.TextBlock? || b.Image? || b.ToolResult?
    case Assistant => b.TextBlock? || b.ToolUse? || b.SearchUse? || b.SearchResult? || b.Thinking?
    case _ => false
  }

  /** Nothing of the block is missing, and what it holds could be converted. */
  predicate Complete(b: Block) {
    match b
    case Image(url) => url.Some?
    case ToolUse(id, name, arguments) => !Blank(id) && !Blank(name) && arguments.Some?
    case ToolResult(callID, output) => !Blank(callID) && output.Some?
    case SearchUse(id, name, arguments) => !Blank(id) && TrimSpace(name) == "web_search" && arguments.Some?
    case SearchResult(callID) => !Blank(callID)
    case _ => true
  }

  /** A result says what it answers. */
  predicate Asks(b: Block, answer: Block) {
    || (answer.ToolResult? && b.ToolUse? && TrimSpace(b.id) == TrimSpace(answer.callID))
    || (answer.SearchResult? && b.SearchUse? && TrimSpace(b.id) == TrimSpace(answer.callID))
  }

  /** What is said at p may be said there: a result needs its call, or its search, before it. */
  ghost predicate Fits(said: seq<Said>, p: nat)
    requires p < |said|
  {
    var b := said[p].block;
    && MaySay(said[p].role, b) && Complete(b)
    && (b.ToolResult? || b.SearchResult? ==> exists q :: 0 <= q < p && Asks(said[q].block, b))
  }

  ghost predicate AllFit(said: seq<Said>, from: nat) {
    forall p | from <= p < |said| :: Fits(said, p)
  }

  function KnownFrom(said: seq<Said>): Known {
    if said == [] then Known({}, {}) else Learn(said[|said| - 1].block, KnownFrom(said[..|said| - 1]))
  }

  lemma {:induction false} KnownExactly(said: seq<Said>)
    ensures forall id :: (id in KnownFrom(said).calls <==> exists q :: 0 <= q < |said| && said[q].block.ToolUse? && TrimSpace(said[q].block.id) == id)
    ensures forall id :: (id in KnownFrom(said).searches <==> exists q :: 0 <= q < |said| && said[q].block.SearchUse? && TrimSpace(said[q].block.id) == id)
  {
    hide TrimSpace;
    if said != [] {
      var n := |said| - 1;
      KnownExactly(said[..n]);
      assert forall q | 0 <= q < n :: said[..n][q] == said[q];
    }
  }

  /** What the answer asks for is known. */
  ghost predicate IsAsked(said: seq<Said>, answer: Block) {
    exists q :: 0 <= q < |said| && Asks(said[q].block, answer)
  }

  lemma AskedExactly(before: seq<Said>, b: Block)
    ensures b.ToolResult? ==> (TrimSpace(b.callID) in KnownFrom(before).calls <==> IsAsked(before, b))
    ensures b.SearchResult? ==> (TrimSpace(b.callID) in KnownFrom(before).searches <==> IsAsked(before, b))
  {
    KnownExactly(before);
    hide TrimSpace, KnownFrom;
    if b.ToolResult? {
      assert forall q | 0 <= q < |before| :: Asks(before[q].block, b) <==> before[q].block.ToolUse? && TrimSpace(before[q].block.id) == TrimSpace(b.callID);
    }
    if b.SearchResult? {
      assert forall q | 0 <= q < |before| :: Asks(before[q].block, b) <==> before[q].block.SearchUse? && TrimSpace(before[q].block.id) == TrimSpace(b.callID);
    }
  }

  lemma FitsLast(before: seq<Said>, s: Said)
    ensures Fits(before + [s], |before|)
      <==> MaySay(s.role, s.block) && Complete(s.block) && (s.block.ToolResult? || s.block.SearchResult? ==> IsAsked(before, s.block))
  {
    var more := before + [s];
    hide MaySay, Complete, Asks;
    assert more[|before|] == s && forall q | 0 <= q < |before| :: more[q] == before[q];
  }

  lemma OneFits(before: seq<Said>, s: Said)
    requires s.role == User || s.role == Assistant
    ensures Permitted(s.block, s.role, KnownFrom(before)) <==> Fits(before + [s], |before|)
    ensures KnownFrom(before + [s]) == Learn(s.block, KnownFrom(before))
  {
    AskedExactly(before, s.block);
    FitsLast(before, s);
    assert (before + [s])[..|before|] == before;
    hide TrimSpace, Blank, Fits, IsAsked, Learn;
  }

  lemma FitsFromHere(before: seq<Said>, rest: seq<Said>)
    requires rest != []
    ensures var more := before + [rest[0]];
      && more + rest[1..] == before + rest
      && (AllFit(before + rest, |before|) <==> Fits(more, |before|) && AllFit(more + rest[1..], |more|))
  {
    var more, all := before + [rest[0]], before + rest;
    assert more + rest[1..] == all;
    assert forall q | 0 <= q <= |before| :: more[q] == all[q];
    assert Fits(more, |before|) <==> Fits(all, |before|) by { hide MaySay, Complete, Asks; }
    hide Fits;
  }

  lemma {:induction false} ContentFits(before: seq<Said>, content: seq<Block>, role: Role)
    requires role == User || role == Assistant
    ensures AllPermitted(content, role, KnownFrom(before)) <==> AllFit(before + SaidIn(content, role), |before|)
    ensures LearnAll(content, KnownFrom(before)) == KnownFrom(before + SaidIn(content, role))
    decreases |content|
  {
    hide Permitted, Learn, KnownFrom, Fits;
    var said := SaidIn(content, role);
    if content == [] {
      assert before + said == before;
    } else {
      assert said == [Said(role, content[0])] + SaidIn(content[1..], role) && said[1..] == SaidIn(content[1..], role);
      OneFits(before, said[0]);
      FitsFromHere(before, said);
      ContentFits(before + [said[0]], content[1..], role);
    }
  }

  lemma AppendFits(before: seq<Said>, a: seq<Said>, b: seq<Said>)
    ensures before + a + b == before + (a + b)
    ensures AllFit(before + (a + b), |before|) <==> AllFit(before + a, |before|) && AllFit(before + a + b, |before + a|)
  {
    var all, part := before + (a + b), before + a;
    assert before + a + b == all;
    forall p | |before| <= p < |part| ensures Fits(part, p) <==> Fits(all, p) {
      assert forall q | 0 <= q <= p :: part[q] == all[q];
      hide MaySay, Complete, Asks;
    }
    hide Fits;
  }

  lemma {:induction false} MessagesFit(before: seq<Said>, messages: seq<Message>)
    ensures Acceptable(messages, KnownFrom(before))
      <==> (forall m | m in messages :: m.role != UnknownRole) && AllFit(before + AllSaid(messages), |before|)
    decreases |messages|
  {
    hide AllPermitted, LearnAll, KnownFrom, Fits, SaidIn;
    if messages == [] {
      assert before + [] == before;
    } else {
      var m, rest := messages[0], messages[1..];
      assert messages == [m] + rest;
      var first := if m.role != System then SaidIn(m.content, m.role)
                   else if m.reminder != "" then [Said(User, TextBlock(m.reminder))] else [];
      assert AllSaid(messages) == first + AllSaid(rest);
      AppendFits(before, first, AllSaid(rest));
      MessagesFit(before + first, rest);
      if m.role == System {
        ReminderFits(before, first);
      } else if m.role != UnknownRole {
        ContentFits(before, m.content, m.role);
      }
    }
  }

  lemma ReminderFits(before: seq<Said>, first: seq<Said>)
    requires first == [] || (|first| == 1 && first[0].role == User && first[0].block.TextBlock?)
    ensures AllFit(before + first, |before|) && KnownFrom(before + first) == KnownFrom(before)
  {
    if first == [] {
      assert before + first == before;
    } else {
      assert first == [first[0]];
      OneFits(before, first[0]);
    }
  }

  /** Which requests are accepted, told from what is said in them: by whom, how completely, and after what. */
  lemma AcceptedExactly(messages: seq<Message>)
    ensures Acceptable(messages, Known({}, {}))
      <==> (forall m | m in messages :: m.role != UnknownRole) && AllFit(AllSaid(messages), 0)
  {
    MessagesFit([], messages);
    assert [] + AllSaid(messages) == AllSaid(messages);
  }
}
