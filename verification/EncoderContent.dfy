/** What a client reads in the blocks of a streamed message (internal/anthropic/stream.go), told from the
    events: the text, the thinking with its signature, the searches, and whose tool blocks they are. */
module EncoderContent {
  import opened Text
  import opened Json
  import opened ToolCalls
  import opened ToolCallLaws
  import opened Encoder
  import opened Messages
  import opened EncoderGrammar
  import opened EncoderRuns
  import Metadata

  // ----- what is in the blocks -----

  function Joined(b: seq<(Field, string)>): string {
    if b == [] then "" else Joined(b[..|b| - 1]) + b[|b| - 1].1
  }

  /** The text of all text blocks, joined. */
  function TextsIn(blocks: seq<Block>): string {
    if blocks == [] then ""
    else
      var last := blocks[|blocks| - 1];
      TextsIn(blocks[..|blocks| - 1]) + if last.head.TextHead? then Joined(last.deltas) else ""
  }

  datatype Sort = Thoughts | Searches

  predicate OfSort(b: Block, sort: Sort) {
    if sort.Thoughts? then b.head.ThinkingHead? else b.head.SearchHead? || b.head.SearchResultHead?
  }

  /** The blocks of a sort, in order. */
  function Only(blocks: seq<Block>, sort: Sort): seq<Block> {
    if blocks == [] then []
    else
      var last := blocks[|blocks| - 1];
      Only(blocks[..|blocks| - 1], sort) + if OfSort(last, sort) then [last] else []
  }

  /** Text blocks hold text and tool blocks hold JSON. */
  predicate RightFields(b: Block) {
    && (b.head.TextHead? ==> forall k | 0 <= k < |b.deltas| :: b.deltas[k].0 == TextField)
    && (b.head.ToolHead? ==> forall k | 0 <= k < |b.deltas| :: b.deltas[k].0 == JsonField)
  }

  predicate AllRight(blocks: seq<Block>) {
    forall b | b in blocks :: RightFields(b)
  }

  lemma JoinedSnoc(deltas: seq<(Field, string)>, d: (Field, string))
    ensures Joined(deltas + [d]) == Joined(deltas) + d.1
  {
    assert (deltas + [d])[..|deltas|] == deltas;
  }

  lemma OneMoreBlock(blocks: seq<Block>, b: Block)
    ensures TextsIn(blocks + [b]) == TextsIn(blocks) + if b.head.TextHead? then Joined(b.deltas) else ""
    ensures forall sort :: Only(blocks + [b], sort) == Only(blocks, sort) + if OfSort(b, sort) then [b] else []
    ensures AllRight(blocks) && RightFields(b) ==> AllRight(blocks + [b])
  {
    assert (blocks + [b])[..|blocks|] == blocks;
  }

  /** From g to g', some text and some blocks of each sort have been added. */
  ghost predicate Gains(g: Reading, g': Reading, text: string, thoughts: seq<Block>, searches: seq<Block>) {
    && g.Body? && g'.Body? && g'.first == g.first
    && TextsIn(g'.blocks) == TextsIn(g.blocks) + text
    && Only(g'.blocks, Thoughts) == Only(g.blocks, Thoughts) + thoughts
    && Only(g'.blocks, Searches) == Only(g.blocks, Searches) + searches
    && (AllRight(g.blocks) ==> AllRight(g'.blocks))
  }

  lemma GainsNothing(g: Reading)
    requires g.Body?
    ensures Gains(g, g, "", [], [])
  {
    assert TextsIn(g.blocks) + "" == TextsIn(g.blocks);
  }

  lemma GainsBoth(a: Reading, b: Reading, c: Reading, t: string, u: string, p: seq<Block>, q: seq<Block>, x: seq<Block>, y: seq<Block>)
    requires Gains(a, b, t, p, x) && Gains(b, c, u, q, y)
    ensures Gains(a, c, t + u, p + q, x + y)
  {
    hide TextsIn, Only, AllRight;
    assert TextsIn(a.blocks) + t + u == TextsIn(a.blocks) + (t + u);
    assert Only(a.blocks, Thoughts) + p + q == Only(a.blocks, Thoughts) + (p + q);
    assert Only(a.blocks, Searches) + x + y == Only(a.blocks, Searches) + (x + y);
  }

  lemma Empties(text: string, blocks: seq<Block>)
    ensures "" + text == text == text + "" && [] + blocks == blocks == blocks + []
  {}

  // ----- one operation after the other -----

  lemma CloseGains(e: Enc, g: Reading)
    requires InStep(e, g)
    ensures Gains(g, Read(g, CloseBlock(e).1), "", [], [])
  {
    CloseInStep(e, g);
    hide TextsIn, Only, AllRight, CloseBlock, Read, InStep;
    assert TextsIn(g.blocks) + "" == TextsIn(g.blocks);
    assert g.Body? by { ReadyInStep(e, g); }
  }

  lemma SendTextGains(e: Enc, g: Reading, text: string)
    requires InStep(e, g)
    ensures Gains(g, Read(g, SendText(e, text).1), text, [], [])
  {
    var (e1, begun) := OpenAs(e, TextBlock, TextHead);
    OpenInStep(e, g, TextBlock, TextHead);
    var g1 := Read(g, begun);
    DeltaInStep(e1, g1, TextField, text);
    ReadAppend(g, begun, [Delta(e1, TextField, text)]);
    OpenTextGains(e, g);
    hide Gains, OpenAs, Read;
    assert g1.Body? && g1.blocks != [] && g1.blocks[|g1.blocks| - 1].head.TextHead?;
    MoreText(g1, text);
    GainsBoth(g, g1, Read(g1, [Delta(e1, TextField, text)]), "", text, [], [], [], []);
    assert "" + text == text;
  }

  lemma LastGrows(front: seq<Block>, last: Block, text: string)
    requires last.head.TextHead?
    ensures var more := Block(last.head, last.deltas + [(TextField, text)]);
      && TextsIn(front + [more]) == TextsIn(front + [last]) + text
      && (forall sort :: Only(front + [more], sort) == Only(front + [last], sort))
      && (AllRight(front + [last]) ==> AllRight(front + [more]))
  {
    var more := Block(last.head, last.deltas + [(TextField, text)]);
    JoinedSnoc(last.deltas, (TextField, text));
    OneMoreBlock(front, last);
    OneMoreBlock(front, more);
    if AllRight(front + [last]) { TextStaysRight(front, last, text); }
    hide TextsIn, Only, Joined, AllRight, RightFields;
    assert TextsIn(front) + Joined(last.deltas) + text == TextsIn(front) + (Joined(last.deltas) + text);
  }

  lemma MoreText(g: Reading, text: string)
    requires g.Body? && g.blocks != [] && g.blocks[|g.blocks| - 1].head.TextHead?
    ensures Gains(g, Body(g.first, AddDeltas(g.blocks, [(TextField, text)]), true), text, [], [])
  {
    var front, last := g.blocks[..|g.blocks| - 1], g.blocks[|g.blocks| - 1];
    assert g.blocks == front + [last];
    LastGrows(front, last, text);
    hide TextsIn, Only, AllRight;
  }

  lemma TextStaysRight(front: seq<Block>, last: Block, text: string)
    requires last.head.TextHead? && AllRight(front + [last])
    ensures AllRight(front) && RightFields(Block(last.head, last.deltas + [(TextField, text)]))
  {
    assert last in front + [last];
    assert RightFields(last);
    forall b | b in front ensures RightFields(b) { assert b in front + [last]; }
    hide AllRight;
  }

  lemma OpenTextGains(e: Enc, g: Reading)
    requires InStep(e, g)
    ensures Gains(g, Read(g, OpenAs(e, TextBlock, TextHead).1), "", [], [])
  {
    if e.open.Some? && e.open.value.kind == TextBlock {
      GainsNothing(g);
    } else {
      var (e1, closed) := CloseBlock(e);
      CloseInStep(e, g);
      CloseGains(e, g);
      var g1 := Read(g, closed);
      StartInStep(e1, g1, TextBlock, TextHead);
      var begun := StartBlock(e1, TextBlock, TextHead).1;
      ReadAppend(g, closed, begun);
      NewBlockGains(g1, Block(TextHead, []), true);
      hide Gains, Read;
      GainsBoth(g, g1, Read(g1, begun), "", "", [], [], [], []);
    }
  }

  lemma NewBlockGains(g: Reading, b: Block, open: bool)
    requires g.Body? && RightFields(b)
    ensures Gains(g, Body(g.first, g.blocks + [b], open), if b.head.TextHead? then Joined(b.deltas) else "",
                  if OfSort(b, Thoughts) then [b] else [], if OfSort(b, Searches) then [b] else [])
  {
    OneMoreBlock(g.blocks, b);
    hide TextsIn, Only, Joined, RightFields;
  }

  /** The block of thinking that CompleteThinking sends. */
  function ThoughtBlock(pieces: seq<string>, signature: string): Block {
    Block(ThinkingHead, Pairs(ThinkingField, pieces) + [(SignatureField, signature)])
  }

  function PiecesOr(pieces: seq<string>, whole: string): seq<string> {
    if pieces != [] then pieces else if whole != "" then [whole] else []
  }

  lemma ThinkingGains(e: Enc, g: Reading, thinking: string, signature: string)
    requires InStep(e, g) && Quiet(e)
    ensures Gains(g, Read(g, CompleteThinking(e, thinking, signature).1), "",
                  if e.thinkEmitted || Blank(signature) then [] else [ThoughtBlock(PiecesOr(e.thinkDeltas, thinking), signature)], [])
  {
    hide Blank;
    if e.thinkEmitted || Blank(signature) {
      GainsNothing(g);
    } else {
      var (e1, closed) := CloseBlock(e);
      CloseInStep(e, g);
      CloseGains(e, g);
      var g1 := Read(g, closed);
      StartInStep(e1, g1, ThinkingBlock, ThinkingHead);
      var (e2, begun) := StartBlock(e1, ThinkingBlock, ThinkingHead);
      var g2 := Read(g1, begun);
      var texts := PiecesOr(e.thinkDeltas, thinking);
      var told, signed := Deltas(e2, ThinkingField, texts), [Delta(e2, SignatureField, signature)];
      DeltasInStep(e2, g2, ThinkingField, texts);
      var g3 := Read(g2, told);
      DeltaInStep(e2, g3, SignatureField, signature);
      var g4 := Read(g3, signed);
      CloseInStep(e2, g4);
      AddTwice(g2.blocks, Pairs(ThinkingField, texts), [(SignatureField, signature)]);
      var b := ThoughtBlock(texts, signature);
      AddToNew(g1.blocks, ThinkingHead, b.deltas);
      assert Read(g4, CloseBlock(e2).1) == Body(g1.first, g1.blocks + [b], false);
      ReadAppend(g, closed, begun);
      ReadAppend(g, closed + begun, told);
      ReadAppend(g, closed + begun + told, signed);
      ReadAppend(g, closed + begun + told + signed, CloseBlock(e2).1);
      NewBlockGains(g1, b, false);
      hide Gains, Read;
      GainsBoth(g, g1, Body(g1.first, g1.blocks + [b], false), "", "", [], [b], [], []);
      assert CompleteThinking(e, thinking, signature).1 == closed + begun + told + signed + CloseBlock(e2).1;
    }
  }

  /** The two blocks of a search. */
  function SearchBlocks(search: Search): (found: seq<Block>)
    ensures |found| == 2
  {
    [Block(SearchHead(search.id), if search.query != "" then [(JsonField, search.query)] else []),
     Block(SearchResultHead(search.id), [])]
  }

  lemma WholeBlockIs(g: Reading, head: Head, query: string)
    requires g.Body? && !g.open
    ensures var n := |g.blocks|;
      Read(g, [BlockStart(n, head)] + (if query != "" then [BlockDelta(n, JsonField, query)] else []) + [BlockStop(n)])
      == Body(g.first, g.blocks + [Block(head, if query != "" then [(JsonField, query)] else [])], false)
  {
    var n := |g.blocks|;
    ReadOne(g, BlockStart(n, head));
    var g1 := Body(g.first, g.blocks + [Block(head, [])], true);
    var middle := if query != "" then [BlockDelta(n, JsonField, query)] else [];
    if query != "" {
      ReadOne(g1, BlockDelta(n, JsonField, query));
      AddToNew(g.blocks, head, [(JsonField, query)]);
    }
    var g2 := Read(g1, middle);
    ReadOne(g2, BlockStop(n));
    ReadAppend(g, [BlockStart(n, head)], middle);
    ReadAppend(g, [BlockStart(n, head)] + middle, [BlockStop(n)]);
  }

  function Asking(n: nat, search: Search): seq<Out> {
    [BlockStart(n, SearchHead(search.id))] + (if search.query != "" then [BlockDelta(n, JsonField, search.query)] else []) + [BlockStop(n)]
  }

  function Answering(n: nat, id: string): seq<Out> {
    [BlockStart(n, SearchResultHead(id)), BlockStop(n)]
  }

  lemma AskingGains(g: Reading, search: Search)
    requires g.Body? && !g.open
    ensures var g' := Read(g, Asking(|g.blocks|, search));
      g'.Body? && !g'.open && |g'.blocks| == |g.blocks| + 1 && Gains(g, g', "", [], [SearchBlocks(search)[0]])
  {
    WholeBlockIs(g, SearchHead(search.id), search.query);
    NewBlockGains(g, SearchBlocks(search)[0], false);
    hide Gains, Read;
  }

  lemma AnsweringGains(g: Reading, search: Search)
    requires g.Body? && !g.open
    ensures Gains(g, Read(g, Answering(|g.blocks|, search.id)), "", [], [SearchBlocks(search)[1]])
  {
    WholeBlockIs(g, SearchResultHead(search.id), "");
    NewBlockGains(g, SearchBlocks(search)[1], false);
    hide Gains, Read;
    assert Answering(|g.blocks|, search.id)
      == [BlockStart(|g.blocks|, SearchResultHead(search.id))] + [] + [BlockStop(|g.blocks|)];
  }

  lemma SearchSends(e: Enc, item: Fields, fallbackID: string, shorten: string -> string)
    requires var search := SearchOf(item, fallbackID, shorten); search.Some? && search.value.id !in e.searchDone
    ensures var search, n := SearchOf(item, fallbackID, shorten).value, e.nextIndex;
      CompleteWebSearch(e, item, fallbackID, shorten).1
      == CloseBlock(e).1 + Asking(n, search) + Answering(n + 1, search.id)
  {
    hide SearchOf;
  }

  lemma SearchGains(e: Enc, g: Reading, item: Fields, fallbackID: string, shorten: string -> string)
    requires InStep(e, g)
    ensures var search := SearchOf(item, fallbackID, shorten);
      Gains(g, Read(g, CompleteWebSearch(e, item, fallbackID, shorten).1), "", [],
            if search.None? || search.value.id in e.searchDone then [] else SearchBlocks(search.value))
  {
    hide SearchOf;
    var search := SearchOf(item, fallbackID, shorten);
    if search.None? || search.value.id in e.searchDone {
      GainsNothing(g);
    } else {
      SearchSends(e, item, fallbackID, shorten);
      CloseInStep(e, g);
      CloseGains(e, g);
      var closed, n := CloseBlock(e).1, e.nextIndex;
      var g1 := Read(g, closed);
      assert !g1.open && |g1.blocks| == n;
      hide Gains, Read, CompleteWebSearch, CloseBlock, Asking, Answering, InStep, SearchBlocks;
      AskingGains(g1, search.value);
      var g2 := Read(g1, Asking(n, search.value));
      AnsweringGains(g2, search.value);
      var g3 := Read(g2, Answering(n + 1, search.value.id));
      ReadAppend(g, closed, Asking(n, search.value));
      ReadAppend(g, closed + Asking(n, search.value), Answering(n + 1, search.value.id));
      GainsBoth(g, g1, g2, "", "", [], [], [], [SearchBlocks(search.value)[0]]);
      GainsBoth(g, g2, g3, "", "", [], [], [SearchBlocks(search.value)[0]], [SearchBlocks(search.value)[1]]);
      TwoBlocks(search.value);
    }
  }

  lemma TwoBlocks(search: Search)
    ensures var found := SearchBlocks(search); [] + [found[0]] + [found[1]] == found
  {}

  lemma {:induction false} ToolsGain(g: Reading, tools: seq<Block>, open: bool)
    requires g.Body? && forall b | b in tools :: b.head.ToolHead? && RightFields(b)
    ensures Gains(g, Body(g.first, g.blocks + tools, open), "", [], [])
    decreases |tools|
  {
    hide RightFields;
    if tools == [] {
      assert g.blocks + [] == g.blocks;
      assert TextsIn(g.blocks) + "" == TextsIn(g.blocks);
    } else {
      var front, last := tools[..|tools| - 1], tools[|tools| - 1];
      ToolsGain(g, front, open);
      var g1 := Body(g.first, g.blocks + front, open);
      NewBlockGains(g1, last, open);
      assert g.blocks + front + [last] == g.blocks + tools;
      hide Gains;
      GainsBoth(g, g1, Body(g.first, g.blocks + tools, open), "", "", [], [], [], []);
    }
  }

  lemma {:induction false} FlushedAreTools(e: Enc, calls: seq<Call>, k: nat, shorten: string -> string)
    requires k <= |e.tools.order| && InRange(e, calls)
    ensures forall b | b in FlushBlocks(e, calls, k, shorten) :: b.head.ToolHead? && RightFields(b)
    decreases |e.tools.order| - k
  {
    hide EmitTool, Pieces;
    if k < |e.tools.order| {
      var id := e.tools.order[k];
      if id in e.tools.sent || id !in e.tools.states {
        FlushedAreTools(e, calls, k + 1, shorten);
      } else if id in e.tools.done {
        EmitKeepsOrder(e, id, calls[e.tools.states[id]], shorten);
        FlushedAreTools(EmitTool(e, id, calls[e.tools.states[id]], shorten).0, calls, k + 1, shorten);
      }
    }
  }

  lemma FlushGains(e: Enc, g: Reading, calls: seq<Call>, shorten: string -> string)
    requires InRange(e, calls) && InStep(e, g)
    ensures Gains(g, Read(g, FlushTools(e, calls, shorten).1), "", [], [])
  {
    FlushInStep(e, g, calls, shorten);
    FlushedAreTools(e, calls, 0, shorten);
    hide FlushBlocks, RightFields, Gains, Read, FlushTools;
    ToolsGain(g, FlushedBlocks(e, calls, shorten), g.open);
  }

  // ----- the terminal event -----

  /** The first thinking block of the finished message. */
  function FirstThinking(blocks: seq<Shown>): Option<(string, string)> {
    if blocks == [] then None
    else if blocks[0].ShownThinking? then Some((blocks[0].thinking, blocks[0].signature))
    else FirstThinking(blocks[1..])
  }

  /** The first text of the finished message that is not empty. */
  function FirstShown(blocks: seq<Shown>): Option<string> {
    if blocks == [] then None
    else if blocks[0].ShownText? && blocks[0].text != "" then Some(blocks[0].text)
    else FirstShown(blocks[1..])
  }

  /** The thinking that a signature with its text makes a block of, when none has been sent. */
  function Thought(emitted: bool, pieces: seq<string>, signed: Option<(string, string)>): seq<Block> {
    if emitted || signed.None? || Blank(signed.value.1) then []
    else [ThoughtBlock(PiecesOr(pieces, signed.value.0), signed.value.1)]
  }

  lemma {:induction false} HydrateThinkingGains(e: Enc, g: Reading, blocks: seq<Shown>)
    requires InStep(e, g) && Quiet(e)
    ensures Gains(g, Read(g, HydrateThinking(e, blocks).1), "", Thought(e.thinkEmitted, e.thinkDeltas, FirstThinking(blocks)), [])
    ensures HydrateThinking(e, blocks).0.textEmitted == e.textEmitted && HydrateThinking(e, blocks).0.searchDone == e.searchDone
  {
    hide Blank, ThoughtBlock, Gains, InStep, Read;
    ReadyInStep(e, g);
    GainsNothing(g);
    assert Read(g, []) == g by { NothingRead(g); }
    if !e.thinkEmitted && blocks != [] {
      if blocks[0].ShownThinking? {
        ThinkingGains(e, g, blocks[0].thinking, blocks[0].signature);
        ThinkingKeeps(e, blocks[0].thinking, blocks[0].signature);
      } else {
        HydrateThinkingGains(e, g, blocks[1..]);
      }
    }
  }

  lemma NothingRead(g: Reading)
    ensures Read(g, []) == g
  {}

  lemma ThinkingKeeps(e: Enc, thinking: string, signature: string)
    ensures var e' := CompleteThinking(e, thinking, signature).0;
      && e'.textEmitted == e.textEmitted && e'.searchDone == e.searchDone
      && e'.thinkEmitted == (e.thinkEmitted || !Blank(signature))
      && (!e'.thinkEmitted ==> e'.thinkDeltas == e.thinkDeltas)
  {
    hide Blank;
  }

  /** The searches of a list of items that are shown, each once, when those of done have been. */
  function ShownSearches(output: seq<Fields>, k: nat, done: set<string>, shorten: string -> string): seq<Search>
    requires k <= |output|
    decreases |output| - k
  {
    if k == |output| then []
    else
      var found := if StringValue(output[k], "type") == "web_search_call" then SearchOf(output[k], "web_search_" + Itoa(k), shorten) else None;
      if found.None? || found.value.id in done then ShownSearches(output, k + 1, done, shorten)
      else [found.value] + ShownSearches(output, k + 1, done + {found.value.id}, shorten)
  }

  function BlocksOf(searches: seq<Search>): seq<Block> {
    if searches == [] then [] else SearchBlocks(searches[0]) + BlocksOf(searches[1..])
  }

  lemma SearchKeeps(e: Enc, item: Fields, fallbackID: string, shorten: string -> string)
    ensures var e' := CompleteWebSearch(e, item, fallbackID, shorten).0;
      var found := SearchOf(item, fallbackID, shorten);
      && e'.textEmitted == e.textEmitted && e'.thinkEmitted == e.thinkEmitted && e'.thinkDeltas == e.thinkDeltas
      && e'.searchDone == (if found.Some? then e.searchDone + {found.value.id} else e.searchDone)
  {
    hide SearchOf;
  }

  lemma {:induction false} HydrateSearchesGains(e: Enc, g: Reading, output: seq<Fields>, k: nat, shorten: string -> string)
    requires k <= |output| && InStep(e, g) && Quiet(e)
    ensures Gains(g, Read(g, HydrateSearches(e, output, k, shorten).1), "", [], BlocksOf(ShownSearches(output, k, e.searchDone, shorten)))
    ensures HydrateSearches(e, output, k, shorten).0.textEmitted == e.textEmitted
    decreases |output| - k
  {
    hide SearchOf, StringValue, Itoa, Gains, InStep, Read, CompleteWebSearch, SearchBlocks;
    ReadyInStep(e, g);
    GainsNothing(g);
    NothingRead(g);
    if k < |output| {
      if StringValue(output[k], "type") != "web_search_call" {
        HydrateSearchesGains(e, g, output, k + 1, shorten);
      } else {
        var fallback := "web_search_" + Itoa(k);
        SearchGains(e, g, output[k], fallback, shorten);
        SearchKeeps(e, output[k], fallback, shorten);
        SearchInStep(e, g, output[k], fallback, shorten);
        var (e1, sent) := CompleteWebSearch(e, output[k], fallback, shorten);
        var g1 := Read(g, sent);
        HydrateSearchesGains(e1, g1, output, k + 1, shorten);
        var rest := HydrateSearches(e1, output, k + 1, shorten).1;
        ReadAppend(g, sent, rest);
        var found := SearchOf(output[k], fallback, shorten);
        var now := if found.None? || found.value.id in e.searchDone then [] else SearchBlocks(found.value);
        GainsBoth(g, g1, Read(g1, rest), "", "", [], [], now, BlocksOf(ShownSearches(output, k + 1, e1.searchDone, shorten)));
        if found.Some? && found.value.id in e.searchDone { assert e1.searchDone == e.searchDone; }
        Empties("", BlocksOf(ShownSearches(output, k + 1, e1.searchDone, shorten)));
        Empties("", []);
      }
    }
  }

  lemma {:induction false} HydrateTextGains(e: Enc, g: Reading, blocks: seq<Shown>)
    requires InStep(e, g) && Quiet(e)
    ensures Gains(g, Read(g, HydrateText(e, blocks).1),
                  if e.textEmitted || FirstShown(blocks).None? then "" else FirstShown(blocks).value, [], [])
  {
    hide SendText, Gains, InStep, Read, CloseBlock;
    ReadyInStep(e, g);
    GainsNothing(g);
    NothingRead(g);
    if !e.textEmitted && blocks != [] {
      if blocks[0].ShownText? && blocks[0].text != "" {
        var text := blocks[0].text;
        SendTextGains(e, g, text);
        SendTextInStep(e, g, text);
        var (e1, sent) := SendText(e, text);
        CloseGains(e1, Read(g, sent));
        ReadAppend(g, sent, CloseBlock(e1).1);
        GainsBoth(g, Read(g, sent), Read(Read(g, sent), CloseBlock(e1).1), text, "", [], [], [], []);
        Empties(text, []);
      } else {
        HydrateTextGains(e, g, blocks[1..]);
      }
    }
  }

  /** What the encoder remembers of what it has shown. */
  predicate SameShown(e: Enc, f: Enc) {
    && f.textEmitted == e.textEmitted && f.thinkEmitted == e.thinkEmitted
    && f.thinkDeltas == e.thinkDeltas && f.searchDone == e.searchDone
  }

  lemma EmitKeepsShown(e: Enc, id: string, c: Call, shorten: string -> string)
    ensures SameShown(e, EmitTool(e, id, c, shorten).0)
  {
    hide ValueOf;
  }

  lemma {:induction false} FlushKeepsShown(e: Enc, calls: seq<Call>, k: nat, shorten: string -> string)
    requires k <= |e.tools.order| && InRange(e, calls)
    ensures SameShown(e, FlushFrom(e, calls, k, shorten).0)
    decreases |e.tools.order| - k
  {
    if k < |e.tools.order| {
      var id := e.tools.order[k];
      if id in e.tools.sent || id !in e.tools.states {
        FlushKeepsShown(e, calls, k + 1, shorten);
      } else if id in e.tools.done {
        var c := calls[e.tools.states[id]];
        EmitKeepsShown(e, id, c, shorten);
        EmitKeepsOrder(e, id, c, shorten);
        hide EmitTool;
        FlushKeepsShown(EmitTool(e, id, c, shorten).0, calls, k + 1, shorten);
      }
    }
  }

  lemma {:induction false} SettleKeepsShown(e: Enc, calls: seq<Call>, response: Fields, i: nat)
    requires i <= |calls| && InRange(e, calls)
    ensures SameShown(e, Settle(e, calls, response, i))
    decreases |calls| - i
  {
    hide Executable;
    if i < |calls| {
      if !Executable(calls[i], response) {
        SettleKeepsShown(e.(tools := e.tools.(states := e.tools.states - {calls[i].callID})), calls, response, i + 1);
      } else {
        SettleKeepsShown(MarkDone(RegisterTool(e, calls, i), calls[i].callID), calls, response, i + 1);
      }
    }
  }

  lemma TerminalFlushGains(e: Enc, g: Reading, calls: seq<Call>, shorten: string -> string)
    requires InRange(e, calls) && InStep(e, g) && Quiet(e)
    ensures Gains(g, Read(g, FlushTerminalTools(e, calls, shorten).1), "", [], [])
    ensures SameShown(e, FlushTerminalTools(e, calls, shorten).0)
  {
    hide FlushFrom, Gains, InStep, Read;
    FlushGains(e, g, calls, shorten);
    FlushKeepsShown(e, calls, 0, shorten);
  }

  /** What the terminal event adds. */
  function TextAtEnd(e: Enc, view: View): string {
    if e.textEmitted || FirstShown(view.blocks).None? then "" else FirstShown(view.blocks).value
  }

  function ThoughtAtEnd(e: Enc, view: View): seq<Block> {
    Thought(e.thinkEmitted, e.thinkDeltas, FirstThinking(view.blocks))
  }

  function SearchesAtEnd(e: Enc, view: View, shorten: string -> string): seq<Block> {
    BlocksOf(ShownSearches(view.output, 0, e.searchDone, shorten))
  }

  lemma MiddleGains(e: Enc, g: Reading, view: View, shorten: string -> string)
    requires InStep(e, g) && Quiet(e)
    ensures var (e2, thinking) := HydrateThinking(e, view.blocks);
      var (e3, searches) := HydrateSearches(e2, view.output, 0, shorten);
      var (e4, text) := HydrateText(e3, view.blocks);
      && InStep(e4, Read(g, thinking + searches + text)) && Quiet(e4)
      && Gains(g, Read(g, thinking + searches + text), TextAtEnd(e, view), ThoughtAtEnd(e, view), SearchesAtEnd(e, view, shorten))
  {
    hide InStep, Read, HydrateThinking, HydrateSearches, HydrateText, Gains, Thought, BlocksOf, ShownSearches;
    HydrateThinkingInStep(e, g, view.blocks);
    HydrateThinkingGains(e, g, view.blocks);
    var (e2, thinking) := HydrateThinking(e, view.blocks);
    var g2 := Read(g, thinking);
    HydrateSearchesInStep(e2, g2, view.output, 0, shorten);
    HydrateSearchesGains(e2, g2, view.output, 0, shorten);
    var (e3, searches) := HydrateSearches(e2, view.output, 0, shorten);
    var g3 := Read(g2, searches);
    HydrateTextInStep(e3, g3, view.blocks);
    HydrateTextGains(e3, g3, view.blocks);
    var (e4, text) := HydrateText(e3, view.blocks);
    ReadAppend(g, thinking, searches);
    ReadAppend(g, thinking + searches, text);
    Empties(TextAtEnd(e, view), ThoughtAtEnd(e, view));
    Empties("", SearchesAtEnd(e, view, shorten));
    GainsBoth(g, g2, g3, "", "", ThoughtAtEnd(e, view), [], [], SearchesAtEnd(e, view, shorten));
    GainsBoth(g, g3, Read(g3, text), "", TextAtEnd(e, view), ThoughtAtEnd(e, view), [], SearchesAtEnd(e, view, shorten), []);
  }

  lemma FlushIfGains(e: Enc, g: Reading, calls: seq<Call>, shorten: string -> string, flushes: bool)
    requires InRange(e, calls) && InStep(e, g) && Quiet(e)
    ensures var (e', out) := if flushes then FlushTerminalTools(e, calls, shorten) else (e, []);
      InStep(e', Read(g, out)) && Quiet(e') && Gains(g, Read(g, out), "", [], []) && SameShown(e, e')
  {
    hide FlushTerminalTools, InStep, Read, Gains;
    ReadyInStep(e, g);
    GainsNothing(g);
    NothingRead(g);
    TerminalFlushInStep(e, g, calls, shorten);
    TerminalFlushGains(e, g, calls, shorten);
  }

  lemma SameAtEnd(e: Enc, f: Enc, view: View, shorten: string -> string)
    requires SameShown(e, f)
    ensures TextAtEnd(e, view) == TextAtEnd(f, view) && ThoughtAtEnd(e, view) == ThoughtAtEnd(f, view)
    ensures SearchesAtEnd(e, view, shorten) == SearchesAtEnd(f, view, shorten)
  {
    hide Thought, BlocksOf, ShownSearches, FirstShown;
  }

  lemma HydrateTerminalGains(e: Enc, g: Reading, calls: seq<Call>, view: View, shorten: string -> string)
    requires InRange(e, calls) && InStep(e, g) && Quiet(e)
    ensures Gains(g, Read(g, HydrateTerminal(e, calls, view, shorten).1),
                  TextAtEnd(e, view), ThoughtAtEnd(e, view), SearchesAtEnd(e, view, shorten))
  {
    hide FlushTerminalTools, HydrateThinking, HydrateSearches, HydrateText, Settle, ToolStreamStarted, InStep, Read, Gains,
         TextAtEnd, ThoughtAtEnd, SearchesAtEnd, Quiet, SameShown;
    var streaming := ToolStreamStarted(e);
    var e0 := Settle(e, calls, view.response, 0);
    SettleKeepsBlocks(e, calls, view.response, 0);
    SettleKeepsShown(e, calls, view.response, 0);
    SettleInStep(e, e0, g);
    FlushIfGains(e0, g, calls, shorten, streaming);
    var (e1, early) := if streaming then FlushTerminalTools(e0, calls, shorten) else (e0, []);
    SameAtEnd(e, e0, view, shorten);
    SameAtEnd(e0, e1, view, shorten);
    var g1 := Read(g, early);
    MiddleGains(e1, g1, view, shorten);
    var (e2, thinking) := HydrateThinking(e1, view.blocks);
    var (e3, searches) := HydrateSearches(e2, view.output, 0, shorten);
    var (e4, text) := HydrateText(e3, view.blocks);
    var middle := thinking + searches + text;
    var g4 := Read(g1, middle);
    HydrateKeepsStates(e0, calls, view, shorten, streaming);
    FlushIfGains(e4, g4, calls, shorten, !streaming);
    var late := if streaming then [] else FlushTerminalTools(e4, calls, shorten).1;
    ReadAppend(g, early, middle);
    ReadAppend(g, early + middle, late);
    ThreeParts(e, calls, view, shorten);
    var t, p, q := TextAtEnd(e, view), ThoughtAtEnd(e, view), SearchesAtEnd(e, view, shorten);
    Empties(t, p);
    Empties(t, q);
    GainsBoth(g, g1, g4, "", t, [], p, [], q);
    GainsBoth(g, g4, Read(g4, late), t, "", p, [], q, []);
  }

  lemma ThreeParts(e: Enc, calls: seq<Call>, view: View, shorten: string -> string)
    requires InRange(e, calls)
    ensures var streaming := ToolStreamStarted(e);
      var e0 := Settle(e, calls, view.response, 0);
      var (e1, early) := if streaming then FlushTerminalTools(e0, calls, shorten) else (e0, []);
      var (e2, thinking) := HydrateThinking(e1, view.blocks);
      var (e3, searches) := HydrateSearches(e2, view.output, 0, shorten);
      var (e4, text) := HydrateText(e3, view.blocks);
      && InRange(e4, calls)
      && HydrateTerminal(e, calls, view, shorten).1
         == early + (thinking + searches + text) + if streaming then [] else FlushTerminalTools(e4, calls, shorten).1
  {
    hide FlushTerminalTools, HydrateThinking, HydrateSearches, HydrateText, Settle, ToolStreamStarted;
    var streaming := ToolStreamStarted(e);
    var e0 := Settle(e, calls, view.response, 0);
    HydrateKeepsStates(e0, calls, view, shorten, streaming);
    var (e1, early) := if streaming then FlushTerminalTools(e0, calls, shorten) else (e0, []);
    var (e2, thinking) := HydrateThinking(e1, view.blocks);
    var (e3, searches) := HydrateSearches(e2, view.output, 0, shorten);
    var (e4, text) := HydrateText(e3, view.blocks);
    Regrouped(early, thinking, searches, text, if streaming then [] else FlushTerminalTools(e4, calls, shorten).1);
  }

  lemma Regrouped(a: seq<Out>, b: seq<Out>, c: seq<Out>, d: seq<Out>, f: seq<Out>)
    ensures a + b + c + d + f == a + (b + c + d) + f
  {}

  lemma SettleInStep(e: Enc, e0: Enc, g: Reading)
    requires InStep(e, g) && Quiet(e) && e0.open == e.open && e0.nextIndex == e.nextIndex
    ensures InStep(e0, g) && Quiet(e0)
  {}

  /** The whole message with what the terminal event adds. */
  ghost predicate Ends(g: Reading, g': Reading, text: string, thoughts: seq<Block>, searches: seq<Block>, view: View) {
    && g'.Whole? && Gains(g, Body(g'.first, g'.blocks, false), text, thoughts, searches)
    && g'.end == MessageDelta(view.stopReason, view.stopSequence)
  }

  lemma FinishGains(e: Enc, g: Reading, calls: seq<Call>, view: View, cfg: Config)
    requires InRange(e, calls) && InStep(e, g) && Quiet(e)
    ensures Ends(g, Read(g, Finish(e, calls, view, cfg).1), TextAtEnd(e, view), ThoughtAtEnd(e, view), SearchesAtEnd(e, view, cfg.shorten), view)
  {
    hide HydrateTerminal, TextAtEnd, ThoughtAtEnd, SearchesAtEnd, Gains, Read, CloseBlock;
    var (e1, hydrated) := HydrateTerminal(e, calls, view, cfg.shorten);
    HydrateTerminalInStep(e, g, calls, view, cfg.shorten);
    HydrateTerminalGains(e, g, calls, view, cfg.shorten);
    var g1 := Read(g, hydrated);
    CloseInStep(e1, g1);
    CloseGains(e1, g1);
    var closed := CloseBlock(e1).1;
    var g2 := Read(g1, closed);
    var end := MessageDelta(view.stopReason, view.stopSequence);
    ReadOne(g2, end);
    ReadOne(Advance(g2, end), MessageStop);
    assert [end, MessageStop] == [end] + [MessageStop];
    ReadAppend(g2, [end], [MessageStop]);
    ReadAppend(g, hydrated, closed);
    ReadAppend(g, hydrated + closed, [end, MessageStop]);
    var t, p, q := TextAtEnd(e, view), ThoughtAtEnd(e, view), SearchesAtEnd(e, view, cfg.shorten);
    GainsBoth(g, g1, g2, t, "", p, [], q, []);
    Empties(t, p);
    Empties(t, q);
    assert Read(g, Finish(e, calls, view, cfg).1) == Whole(g2.first, g2.blocks, end);
  }

  // ----- what an event says -----

  function DeltaOf(input: Input): string {
    if input.event.kind == TextDelta then StringValue(input.event.raw, "delta") else ""
  }

  /** The text an event offers as long as there is none: a delta, where no schema is asked for; the whole
      text when it is done, normalized if a schema is; and at the end the text of the finished message. */
  function Offered(cfg: Config, input: Input): Option<string> {
    var event := input.event;
    if event.kind == TextDelta then
      if cfg.hasSchema || DeltaOf(input) == "" then None else Some(DeltaOf(input))
    else if event.kind == TextDone then
      var text := StringValue(event.raw, "text");
      var whole := if cfg.hasSchema then Or(text, input.view.text) else text;
      if whole == "" then None else Some(if cfg.hasSchema then cfg.normalize(whole) else whole)
    else if IsTerminal(event) then FirstShown(input.view.blocks)
    else None
  }

  predicate IsReasoning(input: Input) {
    input.event.kind == ItemDone && IsReasoningItem(input.event)
  }

  function EncryptedOf(input: Input): string {
    StringValue(OrEmpty(EventItem(input.event)), "encrypted_content")
  }

  /** A signature, with the thinking it is for if none has been streamed. */
  function SignedBy(cfg: Config, input: Input): Option<(string, string)> {
    if IsTerminal(input.event) then FirstThinking(input.view.blocks)
    else if !cfg.exposeThinking then None
    else if input.event.kind == SummaryDone && SummarySignature(input.event) != "" then
      Some((input.view.summary, SummarySignature(input.event)))
    else if IsReasoning(input) && EncryptedOf(input) != "" then Some((input.reasoning, EncryptedOf(input)))
    else None
  }

  predicate Signs(cfg: Config, input: Input) {
    SignedBy(cfg, input).Some? && !Blank(SignedBy(cfg, input).value.1)
  }

  /** The pieces of thinking held back after an event. */
  function Held(cfg: Config, input: Input, pieces: seq<string>): seq<string> {
    var delta := StringValue(input.event.raw, "delta");
    if !cfg.exposeThinking then pieces
    else if input.event.kind == SummaryDelta then if delta == "" then pieces else pieces + [delta]
    else if IsReasoning(input) && EncryptedOf(input) == "" then []
    else pieces
  }

  /** The search an event completes. */
  function Found(cfg: Config, input: Input): Option<Search> {
    if input.event.kind == ItemDone && IsSearchItem(input.event) then
      SearchOf(OrEmpty(EventItem(input.event)), cfg.fallbackID(input.event), cfg.shorten)
    else None
  }

  /** What an event adds to the text. */
  function TextNow(emitted: bool, cfg: Config, input: Input): string {
    if emitted then if cfg.hasSchema then "" else DeltaOf(input)
    else if Offered(cfg, input).Some? then Offered(cfg, input).value else ""
  }

  function SearchesNow(done: set<string>, cfg: Config, input: Input): seq<Block> {
    var found := Found(cfg, input);
    if found.None? || found.value.id in done then [] else SearchBlocks(found.value)
  }

  /** What the encoder remembers after an event that is not the last. */
  predicate Remembers(e: Enc, e': Enc, cfg: Config, input: Input) {
    && e'.textEmitted == (e.textEmitted || Offered(cfg, input).Some?)
    && e'.thinkEmitted == (e.thinkEmitted || Signs(cfg, input))
    && (!e'.thinkEmitted ==> e'.thinkDeltas == Held(cfg, input, e.thinkDeltas))
    && e'.searchDone == e.searchDone + (if Found(cfg, input).Some? then {Found(cfg, input).value.id} else {})
  }

  lemma SendTextKeeps(e: Enc, text: string)
    ensures var e' := SendText(e, text).0;
      e'.textEmitted && e'.thinkEmitted == e.thinkEmitted && e'.thinkDeltas == e.thinkDeltas && e'.searchDone == e.searchDone
  {}

  lemma FinishTextGains(e: Enc, g: Reading, input: Input, cfg: Config)
    requires InStep(e, g) && Quiet(e) && input.event.kind == TextDone
    ensures var (e', out) := FinishText(e, input.event, input.view, cfg);
      && Gains(g, Read(g, out), TextNow(e.textEmitted, cfg, input), [], [])
      && e'.textEmitted == (e.textEmitted || Offered(cfg, input).Some?)
      && e'.thinkEmitted == e.thinkEmitted && e'.thinkDeltas == e.thinkDeltas && e'.searchDone == e.searchDone
  {
    hide SendText, InStep, StringValue, Gains, Read, CloseBlock;
    ReadyInStep(e, g);
    GainsNothing(g);
    NothingRead(g);
    var offered := Offered(cfg, input);
    var event := input.event;
    var (e2, sent) := if e.textEmitted || offered.None? then (e, []) else SendText(e, offered.value);
    if !e.textEmitted && offered.Some? {
      SendTextInStep(e, g, offered.value);
      SendTextGains(e, g, offered.value);
      SendTextKeeps(e, offered.value);
    }
    var g2 := Read(g, sent);
    var (e3, closed) := if e2.open.Some? && e2.open.value.kind == TextBlock then CloseBlock(e2) else (e2, []);
    ReadyInStep(e2, g2);
    GainsNothing(g2);
    NothingRead(g2);
    CloseGains(e2, g2);
    ReadAppend(g, sent, closed);
    var t := TextNow(e.textEmitted, cfg, input);
    GainsBoth(g, g2, Read(g2, closed), t, "", [], [], [], []);
    Empties(t, []);
    FinishTextIs(e, input, cfg);
    assert e3.textEmitted == e2.textEmitted && e3.thinkEmitted == e2.thinkEmitted && e3.thinkDeltas == e2.thinkDeltas
      && e3.searchDone == e2.searchDone by { CloseKeeps(e2); }
  }

  lemma CloseKeeps(e: Enc)
    ensures SameShown(e, CloseBlock(e).0)
  {}

  lemma FinishTextIs(e: Enc, input: Input, cfg: Config)
    requires input.event.kind == TextDone
    ensures var offered := Offered(cfg, input);
      var (e2, sent) := if e.textEmitted || offered.None? then (e, []) else SendText(e, offered.value);
      var (e3, closed) := if e2.open.Some? && e2.open.value.kind == TextBlock then CloseBlock(e2) else (e2, []);
      FinishText(e, input.event, input.view, cfg) == (e3, sent + closed)
  {
    hide StringValue, SendText;
    var text := StringValue(input.event.raw, "text");
    var whole := Or(text, input.view.text);
    SendTextKeeps(e, cfg.normalize(whole));
    var (e1, cleaned) := if cfg.hasSchema && !e.textEmitted && whole != "" then SendText(e, cfg.normalize(whole)) else (e, []);
    var (e2, plain) := if !e1.textEmitted && text != "" then SendText(e1, text) else (e1, []);
    assert cleaned + plain == if cleaned == [] then plain else cleaned by { assert e1.textEmitted ==> plain == []; }
    assert IsTerminal(input.event) == false;
  }

  lemma CompleteGains(e: Enc, g: Reading, calls: seq<Call>, i: nat, shorten: string -> string)
    requires InStep(e, g) && Quiet(e) && i < |calls| && InRange(e, calls)
    ensures Gains(g, Read(g, CompleteTool(e, calls, i, shorten).1), "", [], [])
    ensures SameShown(e, CompleteTool(e, calls, i, shorten).0)
  {
    hide FlushFrom, Gains, Read;
    var f := MarkDone(RegisterTool(e, calls, i), calls[i].callID);
    RegisterInStep(e, g, calls, i);
    FlushGains(f, g, calls, shorten);
    FlushKeepsShown(f, calls, 0, shorten);
  }

  /** What a non-terminal event adds. */
  ghost predicate Adds(e: Enc, g: Reading, e': Enc, out: seq<Out>, cfg: Config, input: Input) {
    && Gains(g, Read(g, out), TextNow(e.textEmitted, cfg, input), Thought(e.thinkEmitted, e.thinkDeltas, SignedBy(cfg, input)),
             SearchesNow(e.searchDone, cfg, input))
    && Remembers(e, e', cfg, input)
  }

  lemma AddsNothing(e: Enc, g: Reading, e': Enc, out: seq<Out>, cfg: Config, input: Input)
    requires Gains(g, Read(g, out), "", [], []) && SameShown(e, e')
    requires Offered(cfg, input).None? && DeltaOf(input) == "" && SignedBy(cfg, input).None? && Found(cfg, input).None?
    requires Held(cfg, input, e.thinkDeltas) == e.thinkDeltas
    ensures Adds(e, g, e', out, cfg, input)
  {
    hide Offered, DeltaOf, SignedBy, Found, Held, Gains, Read;
  }

  lemma SummaryDoneAdds(e: Enc, g: Reading, reg: Registry, input: Input, cfg: Config)
    requires Sound(reg) && InRange(e, reg.calls) && InStep(e, g) && Quiet(e) && input.event.kind == SummaryDone
    ensures var (e', out) := Dispatch(e, input.event, reg, input.view, input.reasoning, cfg); Adds(e, g, e', out, cfg, input)
  {
    hide CompleteThinking, CallForEvent, InStep, Gains, Read, SummarySignature, StringValue, Blank;
    ReadyInStep(e, g);
    GainsNothing(g);
    NothingRead(g);
    ThinkingGains(e, g, input.view.summary, SummarySignature(input.event));
    ThinkingKeeps(e, input.view.summary, SummarySignature(input.event));
  }

  lemma ReasoningDoneAdds(e: Enc, g: Reading, reg: Registry, input: Input, cfg: Config)
    requires Sound(reg) && InRange(e, reg.calls) && InStep(e, g) && Quiet(e)
    requires input.event.kind == ItemDone && !IsSearchItem(input.event) && IsReasoningItem(input.event)
    ensures var (e', out) := Dispatch(e, input.event, reg, input.view, input.reasoning, cfg); Adds(e, g, e', out, cfg, input)
  {
    hide CompleteThinking, CallForEvent, InStep, Gains, Read, StringValue, Blank, EventItem;
    ReadyInStep(e, g);
    GainsNothing(g);
    NothingRead(g);
    ThinkingGains(e, g, input.reasoning, EncryptedOf(input));
    ThinkingKeeps(e, input.reasoning, EncryptedOf(input));
  }

  lemma SearchDoneAdds(e: Enc, g: Reading, reg: Registry, input: Input, cfg: Config)
    requires Sound(reg) && InRange(e, reg.calls) && InStep(e, g) && Quiet(e)
    requires input.event.kind == ItemDone && IsSearchItem(input.event)
    ensures var (e', out) := Dispatch(e, input.event, reg, input.view, input.reasoning, cfg); Adds(e, g, e', out, cfg, input)
  {
    hide CompleteWebSearch, CallForEvent, InStep, Gains, Read, StringValue, Blank, EventItem, SearchOf;
    assert "web_search_call" != "reasoning";
    SearchGains(e, g, OrEmpty(EventItem(input.event)), cfg.fallbackID(input.event), cfg.shorten);
    SearchKeeps(e, OrEmpty(EventItem(input.event)), cfg.fallbackID(input.event), cfg.shorten);
  }

  lemma ToolEventAdds(e: Enc, g: Reading, reg: Registry, input: Input, cfg: Config)
    requires Sound(reg) && InRange(e, reg.calls) && InStep(e, g) && Quiet(e)
    requires CompletesTool(input.event) || input.event.kind == ArgumentsDelta || input.event.kind == InputDelta
    ensures var (e', out) := Dispatch(e, input.event, reg, input.view, input.reasoning, cfg); Adds(e, g, e', out, cfg, input)
  {
    hide CompleteTool, CallForEvent, InStep, Gains, Read, StringValue, EventItem, Adds;
    var event := input.event;
    ReadyInStep(e, g);
    GainsNothing(g);
    NothingRead(g);
    var (e', out) := Dispatch(e, event, reg, input.view, input.reasoning, cfg);
    var call := CallForEvent(reg, event);
    if call.Some? && CompletesTool(event) { CompleteGains(e, g, reg.calls, call.value, cfg.shorten); }
    AddsNothing(e, g, e', out, cfg, input);
  }

  lemma TextDeltaAdds(e: Enc, g: Reading, reg: Registry, input: Input, cfg: Config)
    requires Sound(reg) && InRange(e, reg.calls) && InStep(e, g) && Quiet(e) && input.event.kind == TextDelta
    ensures var (e', out) := Dispatch(e, input.event, reg, input.view, input.reasoning, cfg); Adds(e, g, e', out, cfg, input)
  {
    hide SendText, CallForEvent, InStep, Gains, Read, StringValue;
    ReadyInStep(e, g);
    GainsNothing(g);
    NothingRead(g);
    SendTextGains(e, g, DeltaOf(input));
    SendTextKeeps(e, DeltaOf(input));
  }

  lemma DispatchAdds(e: Enc, g: Reading, reg: Registry, input: Input, cfg: Config)
    requires Sound(reg) && InRange(e, reg.calls) && InStep(e, g) && Quiet(e) && !IsTerminal(input.event)
    ensures var (e', out) := Dispatch(e, input.event, reg, input.view, input.reasoning, cfg); Adds(e, g, e', out, cfg, input)
  {
    var event := input.event;
    if event.kind == SummaryDone {
      SummaryDoneAdds(e, g, reg, input, cfg);
    } else if event.kind == ItemDone && IsSearchItem(event) {
      SearchDoneAdds(e, g, reg, input, cfg);
    } else if event.kind == ItemDone && IsReasoningItem(event) {
      ReasoningDoneAdds(e, g, reg, input, cfg);
    } else if CompletesTool(event) || event.kind == ArgumentsDelta || event.kind == InputDelta {
      ToolEventAdds(e, g, reg, input, cfg);
    } else if event.kind == TextDelta {
      TextDeltaAdds(e, g, reg, input, cfg);
    } else {
      OtherEventAdds(e, g, reg, input, cfg);
    }
  }

  lemma OtherEventAdds(e: Enc, g: Reading, reg: Registry, input: Input, cfg: Config)
    requires Sound(reg) && InRange(e, reg.calls) && InStep(e, g) && Quiet(e) && !IsTerminal(input.event)
    requires !CompletesTool(input.event) && input.event.kind != ItemDone && input.event.kind != SummaryDone
    requires input.event.kind != ArgumentsDelta && input.event.kind != InputDelta && input.event.kind != TextDelta
    ensures var (e', out) := Dispatch(e, input.event, reg, input.view, input.reasoning, cfg); Adds(e, g, e', out, cfg, input)
  {
    hide FinishText, CallForEvent, InStep, Gains, Read, StringValue, Blank;
    ReadyInStep(e, g);
    GainsNothing(g);
    NothingRead(g);
    if input.event.kind == TextDone { FinishTextGains(e, g, input, cfg); }
  }

  // ----- what the client reads, told from the events -----

  function EventsOf(inputs: seq<Input>): seq<Event> {
    seq(|inputs|, i requires 0 <= i < |inputs| => inputs[i].event)
  }

  /** All text deltas. */
  function DeltaText(inputs: seq<Input>): string {
    Metadata.DeltasOf(EventsOf(inputs), TextDelta)
  }

  /** The text begins with the first that is offered. Without a schema the deltas behind it follow. */
  function ClientText(cfg: Config, inputs: seq<Input>): string {
    if inputs == [] then ""
    else if Offered(cfg, inputs[0]).None? then ClientText(cfg, inputs[1..])
    else Offered(cfg, inputs[0]).value + if cfg.hasSchema then "" else DeltaText(inputs[1..])
  }

  ghost predicate Emitted(cfg: Config, inputs: seq<Input>) {
    exists k :: 0 <= k < |inputs| && Offered(cfg, inputs[k]).Some?
  }

  /** The thinking streamed since the last item of reasoning without a signature. */
  function ThinkingPieces(cfg: Config, inputs: seq<Input>): seq<string> {
    if inputs == [] then [] else Held(cfg, inputs[|inputs| - 1], ThinkingPieces(cfg, inputs[..|inputs| - 1]))
  }

  /** The first signature makes a block of what has been streamed, or of the text that comes with it. */
  function ClientThinking(cfg: Config, inputs: seq<Input>): seq<Block> {
    if inputs == [] then []
    else
      var before, last := inputs[..|inputs| - 1], inputs[|inputs| - 1];
      ClientThinking(cfg, before) + Thought(ClientThinking(cfg, before) != [], ThinkingPieces(cfg, before), SignedBy(cfg, last))
  }

  function FoundIDs(cfg: Config, inputs: seq<Input>): set<string> {
    set i | 0 <= i < |inputs| && Found(cfg, inputs[i]).Some? :: Found(cfg, inputs[i]).value.id
  }

  /** Every search once, in the order they are completed, and then those of the finished message. */
  function ClientSearches(cfg: Config, inputs: seq<Input>): seq<Block> {
    if inputs == [] then []
    else
      var before, last := inputs[..|inputs| - 1], inputs[|inputs| - 1];
      ClientSearches(cfg, before)
      + if IsTerminal(last.event) then BlocksOf(ShownSearches(last.view.output, 0, FoundIDs(cfg, before), cfg.shorten))
        else SearchesNow(FoundIDs(cfg, before), cfg, last)
  }

  lemma {:induction false} DeltasSnoc(events: seq<Event>, e: Event, kind: Kind)
    ensures Metadata.DeltasOf(events + [e], kind)
      == Metadata.DeltasOf(events, kind) + if e.kind == kind then StringValue(e.raw, "delta") else ""
  {
    hide StringValue;
    if events == [] {
      assert ([] + [e])[1..] == [];
      assert Metadata.DeltasOf([], kind) == "";
    } else {
      assert (events + [e])[0] == events[0] && (events + [e])[1..] == events[1..] + [e];
      DeltasSnoc(events[1..], e, kind);
    }
  }

  lemma DeltaTextSnoc(inputs: seq<Input>, last: Input)
    ensures DeltaText(inputs + [last]) == DeltaText(inputs) + DeltaOf(last)
  {
    DeltasSnoc(EventsOf(inputs), last.event, TextDelta);
    assert EventsOf(inputs + [last]) == EventsOf(inputs) + [last.event];
  }

  lemma EmittedSnoc(cfg: Config, inputs: seq<Input>, last: Input)
    ensures Emitted(cfg, inputs + [last]) <==> Emitted(cfg, inputs) || Offered(cfg, last).Some?
  {
    hide Offered;
    var more := inputs + [last];
    if Emitted(cfg, inputs) {
      var k :| 0 <= k < |inputs| && Offered(cfg, inputs[k]).Some?;
      assert more[k] == inputs[k];
    }
    assert more[|inputs|] == last;
  }

  lemma {:induction false} ClientTextSnoc(cfg: Config, inputs: seq<Input>, last: Input)
    ensures ClientText(cfg, inputs + [last]) == ClientText(cfg, inputs) + TextNow(Emitted(cfg, inputs), cfg, last)
  {
    hide Offered, DeltaOf, DeltaText;
    var more := inputs + [last];
    if inputs == [] {
      assert more[1..] == [];
      assert DeltaText([]) == "" by { NoDeltas(); }
      assert ClientText(cfg, []) == "";
    } else {
      assert more[0] == inputs[0] && more[1..] == inputs[1..] + [last];
      if Offered(cfg, inputs[0]).None? {
        ClientTextSnoc(cfg, inputs[1..], last);
        assert Emitted(cfg, inputs) <==> Emitted(cfg, inputs[1..]) by { EmittedTail(cfg, inputs); }
      } else {
        DeltaTextSnoc(inputs[1..], last);
        assert Emitted(cfg, inputs);
      }
    }
  }

  lemma NoDeltas()
    ensures DeltaText([]) == ""
  {}

  lemma EmittedTail(cfg: Config, inputs: seq<Input>)
    requires inputs != [] && Offered(cfg, inputs[0]).None?
    ensures Emitted(cfg, inputs) <==> Emitted(cfg, inputs[1..])
  {
    hide Offered;
    if Emitted(cfg, inputs) {
      var k :| 0 <= k < |inputs| && Offered(cfg, inputs[k]).Some?;
      assert inputs[1..][k - 1] == inputs[k];
    }
  }

  // ----- over a run -----

  ghost predicate Knows(e: Enc, cfg: Config, inputs: seq<Input>) {
    && e.textEmitted == Emitted(cfg, inputs)
    && e.thinkEmitted == (ClientThinking(cfg, inputs) != [])
    && (!e.thinkEmitted ==> e.thinkDeltas == ThinkingPieces(cfg, inputs))
    && e.searchDone == FoundIDs(cfg, inputs)
  }

  /** The client reads what the events say. */
  ghost predicate ReadsContent(blocks: seq<Block>, cfg: Config, inputs: seq<Input>) {
    && TextsIn(blocks) == ClientText(cfg, inputs)
    && Only(blocks, Thoughts) == ClientThinking(cfg, inputs)
    && Only(blocks, Searches) == ClientSearches(cfg, inputs)
    && AllRight(blocks)
  }

  lemma KnowsMore(e: Enc, e': Enc, cfg: Config, inputs: seq<Input>, last: Input)
    requires Knows(e, cfg, inputs) && Remembers(e, e', cfg, last) && !IsTerminal(last.event)
    ensures Knows(e', cfg, inputs + [last])
  {
    var more := inputs + [last];
    assert more[..|inputs|] == inputs;
    EmittedSnoc(cfg, inputs, last);
    FoundSnoc(cfg, inputs, last);
    hide Emitted, Offered, SignedBy, Held, Found, FoundIDs, ThoughtBlock, Blank;
  }

  lemma FoundSnoc(cfg: Config, inputs: seq<Input>, last: Input)
    ensures FoundIDs(cfg, inputs + [last]) == FoundIDs(cfg, inputs) + if Found(cfg, last).Some? then {Found(cfg, last).value.id} else {}
  {
    hide Found;
    var more := inputs + [last];
    forall id ensures id in FoundIDs(cfg, more)
      <==> id in FoundIDs(cfg, inputs) || (Found(cfg, last).Some? && id == Found(cfg, last).value.id)
    {
      if id in FoundIDs(cfg, inputs) {
        var i :| 0 <= i < |inputs| && Found(cfg, inputs[i]).Some? && id == Found(cfg, inputs[i]).value.id;
        assert more[i] == inputs[i];
      }
      assert more[|inputs|] == last;
    }
  }

  lemma ReadsMore(g: Reading, g': Reading, e: Enc, cfg: Config, inputs: seq<Input>, last: Input)
    requires g.Body? && ReadsContent(g.blocks, cfg, inputs) && Knows(e, cfg, inputs)
    requires Gains(g, g', TextNow(e.textEmitted, cfg, last), Thought(e.thinkEmitted, e.thinkDeltas, SignedBy(cfg, last)),
                   if IsTerminal(last.event) then BlocksOf(ShownSearches(last.view.output, 0, e.searchDone, cfg.shorten))
                   else SearchesNow(e.searchDone, cfg, last))
    ensures ReadsContent(g'.blocks, cfg, inputs + [last])
  {
    var more := inputs + [last];
    assert more[..|inputs|] == inputs && more[|inputs|] == last;
    ClientTextSnoc(cfg, inputs, last);
    hide Emitted, TextNow, SignedBy, FoundIDs, ClientText, TextsIn, Only, AllRight, SearchesNow, BlocksOf, ShownSearches, ThinkingPieces;
    assert ClientThinking(cfg, more)
      == ClientThinking(cfg, inputs) + Thought(ClientThinking(cfg, inputs) != [], ThinkingPieces(cfg, inputs), SignedBy(cfg, last));
    assert Thought(e.thinkEmitted, e.thinkDeltas, SignedBy(cfg, last))
      == Thought(ClientThinking(cfg, inputs) != [], ThinkingPieces(cfg, inputs), SignedBy(cfg, last));
  }

  /** The reading of a run so far. */
  ghost predicate ReadSoFar(s: State, g: Reading, cfg: Config, inputs: seq<Input>) {
    && Tracks(s.enc, g) && Knows(s.enc, cfg, inputs) && (s.enc.started <==> inputs != [])
    && (inputs != [] ==>
          && g.Body? && g.first == MessageStart(inputs[0].view.messageID, inputs[0].view.model)
          && ReadsContent(g.blocks, cfg, inputs))
  }

  lemma NothingSoFar(cfg: Config)
    ensures Valid(START) && ReadSoFar(START, Begin, cfg, [])
  {
    StartIsValid();
    hide Tracks, Valid;
    assert FoundIDs(cfg, []) == {};
  }

  /** The start of the message, if it has not been sent. */
  lemma Begins(e: Enc, g: Reading, cfg: Config, inputs: seq<Input>, input: Input, s: State)
    requires s.enc == e && ReadSoFar(s, g, cfg, inputs)
    ensures var (e1, start) := EnsureStarted(e, input.view);
      var g1 := Read(g, start);
      && InStep(e1, g1) && Quiet(e1) && Knows(e1, cfg, inputs) && ReadsContent(g1.blocks, cfg, inputs)
      && e1.tools == e.tools && e1.started
      && g1.Body? && g1.first == MessageStart((inputs + [input])[0].view.messageID, (inputs + [input])[0].view.model)
  {
    StartTracks(e, g, input.view);
    if inputs == [] {
      ReadOne(Begin, MessageStart(input.view.messageID, input.view.model));
      assert TextsIn([]) == "" && Only([], Thoughts) == [] && Only([], Searches) == [] && AllRight([]);
    } else {
      NothingRead(g);
      hide Knows, ReadsContent;
      assert (inputs + [input])[0] == inputs[0];
    }
  }

  lemma EventReads(s: State, aliases: Aliases, cfg: Config, inputs: seq<Input>, input: Input, g: Reading)
    requires Valid(s) && ReadSoFar(s, g, cfg, inputs) && !IsTerminal(input.event)
    ensures var (s', sent) := Next(s, aliases, cfg, input); ReadSoFar(s', Read(g, sent), cfg, inputs + [input])
  {
    var reg := Apply(s.reg, aliases, input.event);
    ApplyKeeps(s.reg, aliases, input.event);
    Begins(s.enc, g, cfg, inputs, input, s);
    NextTracks(s, aliases, cfg, input, g);
    hide Dispatch, Read, InStep, Knows, ReadsContent, Gains, Apply, Inv, Tracks, Remembers;
    var (e1, start) := EnsureStarted(s.enc, input.view);
    var g1 := Read(g, start);
    DispatchAdds(e1, g1, reg, input, cfg);
    DispatchStarted(e1, input.event, reg, input.view, input.reasoning, cfg);
    var (e2, body) := Dispatch(e1, input.event, reg, input.view, input.reasoning, cfg);
    ReadAppend(g, start, body);
    KnowsMore(e1, e2, cfg, inputs, input);
    ReadsMore(g1, Read(g1, body), e1, cfg, inputs, input);
    assert Next(s, aliases, cfg, input) == (State(reg, e2), start + body);
    GainsFirst(g1, Read(g1, body), TextNow(e1.textEmitted, cfg, input), Thought(e1.thinkEmitted, e1.thinkDeltas, SignedBy(cfg, input)),
               SearchesNow(e1.searchDone, cfg, input));
  }

  lemma GainsFirst(g: Reading, g': Reading, text: string, thoughts: seq<Block>, searches: seq<Block>)
    requires Gains(g, g', text, thoughts, searches)
    ensures g'.Body? && g'.first == g.first
  {
    hide TextsIn, Only, AllRight;
  }

  lemma {:induction false} RunReads(aliases: Aliases, cfg: Config, inputs: seq<Input>)
    requires NoneTerminal(inputs)
    ensures Valid(START)
    ensures var (s, trace) := Encode(START, aliases, cfg, inputs); ReadSoFar(s, Read(Begin, trace), cfg, inputs)
    decreases |inputs|
  {
    hide ReadSoFar, Next, Valid;
    NothingSoFar(cfg);
    if inputs == [] {
      NothingRead(Begin);
    } else {
      var before, last := inputs[..|inputs| - 1], inputs[|inputs| - 1];
      assert before + [last] == inputs;
      RunReads(aliases, cfg, before);
      RunSnoc(START, aliases, cfg, before, last);
      var (s, trace) := Encode(START, aliases, cfg, before);
      EventReads(s, aliases, cfg, before, last, Read(Begin, trace));
      ReadAppend(Begin, trace, Next(s, aliases, cfg, last).1);
    }
  }

  lemma LastReads(s: State, aliases: Aliases, cfg: Config, inputs: seq<Input>, last: Input, g: Reading)
    requires Valid(s) && ReadSoFar(s, g, cfg, inputs) && IsTerminal(last.event)
    ensures var g' := Read(g, Next(s, aliases, cfg, last).1); ReadsMessage(g', cfg, inputs + [last])
  {
    var reg := Apply(s.reg, aliases, last.event);
    ApplyKeeps(s.reg, aliases, last.event);
    Begins(s.enc, g, cfg, inputs, last, s);
    hide Dispatch, Finish, Read, InStep, Knows, ReadsContent, Gains, Apply, Inv, Tracks, TextAtEnd, ThoughtAtEnd, SearchesAtEnd;
    var (e1, start) := EnsureStarted(s.enc, last.view);
    var g1 := Read(g, start);
    TerminalDispatch(e1, last.event, reg, last.view, last.reasoning, cfg);
    FinishGains(e1, g1, reg.calls, last.view, cfg);
    var body := Finish(e1, reg.calls, last.view, cfg).1;
    ReadAppend(g, start, body);
    var g' := Read(g1, body);
    AtEnd(e1, last, cfg);
    ReadsMore(g1, Body(g'.first, g'.blocks, false), e1, cfg, inputs, last);
    GainsFirst(g1, Body(g'.first, g'.blocks, false), TextAtEnd(e1, last.view), ThoughtAtEnd(e1, last.view), SearchesAtEnd(e1, last.view, cfg.shorten));
    assert Next(s, aliases, cfg, last).1 == start + body;
    assert (inputs + [last])[|inputs|] == last;
  }

  lemma AtEnd(e: Enc, last: Input, cfg: Config)
    requires IsTerminal(last.event)
    ensures TextAtEnd(e, last.view) == TextNow(e.textEmitted, cfg, last)
    ensures ThoughtAtEnd(e, last.view) == Thought(e.thinkEmitted, e.thinkDeltas, SignedBy(cfg, last))
  {
    hide FirstShown, FirstThinking, Thought;
  }

  /** A whole message, from the first event to the last, with what the events say in its blocks. */
  ghost predicate ReadsMessage(g: Reading, cfg: Config, inputs: seq<Input>)
    requires inputs != []
  {
    var first, last := inputs[0].view, inputs[|inputs| - 1].view;
    && g.Whole? && g.first == MessageStart(first.messageID, first.model)
    && g.end == MessageDelta(last.stopReason, last.stopSequence) && ReadsContent(g.blocks, cfg, inputs)
  }

  /** Over every run, between any two events, the client has read exactly what the events before say: the
      text, at most one block of thinking, and each search once. */
  lemma ContentSoFar(aliases: Aliases, cfg: Config, inputs: seq<Input>)
    requires NoneTerminal(inputs) && inputs != []
    ensures Valid(START)
    ensures var g := Read(Begin, Encode(START, aliases, cfg, inputs).1); g.Body? && ReadsContent(g.blocks, cfg, inputs)
  {
    hide Encode, Tracks, Knows, ReadsContent, Read;
    RunReads(aliases, cfg, inputs);
  }

  /** And in the end the whole message. */
  lemma ContentOfMessage(aliases: Aliases, cfg: Config, inputs: seq<Input>)
    requires CompleteRun(inputs)
    ensures Valid(START) && ReadsMessage(Read(Begin, Encode(START, aliases, cfg, inputs).1), cfg, inputs)
  {
    hide Encode, Next, ReadSoFar, ReadsMessage, Valid;
    var before, last := inputs[..|inputs| - 1], inputs[|inputs| - 1];
    assert before + [last] == inputs;
    RunReads(aliases, cfg, before);
    RunSnoc(START, aliases, cfg, before, last);
    var (s, trace) := Encode(START, aliases, cfg, before);
    LastReads(s, aliases, cfg, before, last, Read(Begin, trace));
    ReadAppend(Begin, trace, Next(s, aliases, cfg, last).1);
  }

  // ----- what that comes to -----

  /** Without a schema the text is all the deltas, when no whole text was offered before the first. */
  lemma {:induction false} TextOfDeltas(cfg: Config, inputs: seq<Input>, n: nat)
    requires !cfg.hasSchema && n < |inputs| && inputs[n].event.kind == TextDelta && DeltaOf(inputs[n]) != ""
    requires forall k | 0 <= k < n :: Offered(cfg, inputs[k]).None?
    ensures ClientText(cfg, inputs) == DeltaText(inputs)
    decreases n
  {
    hide StringValue, FirstShown;
    assert EventsOf(inputs)[0] == inputs[0].event && EventsOf(inputs)[1..] == EventsOf(inputs[1..]);
    if n > 0 {
      assert Offered(cfg, inputs[0]).None?;
      assert DeltaOf(inputs[0]) == "";
      hide Offered;
      forall k | 0 <= k < n - 1 ensures Offered(cfg, inputs[1..][k]).None? { assert inputs[1..][k] == inputs[k + 1]; }
      TextOfDeltas(cfg, inputs[1..], n - 1);
    }
  }

  /** With a schema it is one normalized whole. */
  lemma {:induction false} TextOfSchema(cfg: Config, inputs: seq<Input>, n: nat)
    requires cfg.hasSchema && n < |inputs| && Offered(cfg, inputs[n]).Some? && forall k | 0 <= k < n :: Offered(cfg, inputs[k]).None?
    ensures ClientText(cfg, inputs) == Offered(cfg, inputs[n]).value
    decreases n
  {
    hide Offered, DeltaText;
    if n > 0 {
      forall k | 0 <= k < n - 1 ensures Offered(cfg, inputs[1..][k]).None? { assert inputs[1..][k] == inputs[k + 1]; }
      TextOfSchema(cfg, inputs[1..], n - 1);
    }
  }

  /** At most one block of thinking is ever read, and it has a signature. */
  lemma {:induction false} OneThought(cfg: Config, inputs: seq<Input>)
    ensures |ClientThinking(cfg, inputs)| <= 1
    ensures forall b | b in ClientThinking(cfg, inputs) ::
      exists pieces, signature :: b == ThoughtBlock(pieces, signature) && !Blank(signature)
  {
    hide ThoughtBlock, Blank, SignedBy, ThinkingPieces;
    if inputs != [] { OneThought(cfg, inputs[..|inputs| - 1]); }
  }

  // ----- whose tool blocks they are -----

  /** The block says which of the calls it is: its id, shortened, and its name. */
  ghost predicate NamesCall(b: Block, calls: seq<Call>, shorten: string -> string) {
    exists i :: 0 <= i < |calls| && NamesIt(b, calls[i], shorten)
  }

  predicate NamesIt(b: Block, c: Call, shorten: string -> string) {
    b.head.ToolHead? && b.head.callID == c.callID && b.head.id == shorten(c.callID) && b.head.name == c.name
  }

  lemma {:induction false} FlushedNameCalls(e: Enc, calls: seq<Call>, k: nat, shorten: string -> string)
    requires k <= |e.tools.order| && InRange(e, calls)
    ensures forall b | b in FlushBlocks(e, calls, k, shorten) :: NamesCall(b, calls, shorten)
    decreases |e.tools.order| - k
  {
    hide EmitTool, Pieces, NamesCall;
    if k < |e.tools.order| {
      var id := e.tools.order[k];
      if id in e.tools.sent || id !in e.tools.states {
        FlushedNameCalls(e, calls, k + 1, shorten);
      } else if id in e.tools.done {
        var i := e.tools.states[id];
        ItNamesCall(e, id, calls, i, shorten);
        EmitKeepsOrder(e, id, calls[i], shorten);
        FlushedNameCalls(EmitTool(e, id, calls[i], shorten).0, calls, k + 1, shorten);
      }
    }
  }

  lemma ItNamesCall(e: Enc, id: string, calls: seq<Call>, i: nat, shorten: string -> string)
    requires i < |calls|
    ensures NamesCall(ToolBlockOf(e, id, calls[i], shorten), calls, shorten)
  {
    hide Pieces;
    assert NamesIt(ToolBlockOf(e, id, calls[i], shorten), calls[i], shorten);
  }

  lemma SentNameCalls(e: Enc, event: Event, reg: Registry, view: View, shorten: string -> string)
    requires Sound(reg) && InRange(e, reg.calls)
    ensures forall b | b in SentBlocks(e, event, reg, view, shorten) :: NamesCall(b, reg.calls, shorten)
  {
    hide FlushBlocks, NamesCall, CallForEvent, Hydrated, Settle, ToolStreamStarted;
    if IsTerminal(event) {
      FlushedNameCalls(if ToolStreamStarted(e) then Settle(e, reg.calls, view.response, 0) else Hydrated(e, reg.calls, view, shorten), reg.calls, 0, shorten);
    } else if CallForEvent(reg, event).Some? {
      var i := CallForEvent(reg, event).value;
      FlushedNameCalls(MarkDone(RegisterTool(e, reg.calls, i), reg.calls[i].callID), reg.calls, 0, shorten);
    }
  }

  /** On every run, whatever is renamed: each tool block that an event adds names one of the calls the
      accumulator has then. */
  lemma ToolBlocksNameTheirCalls(aliases: Aliases, cfg: Config, before: seq<Input>, next: Input)
    requires Valid(START) && NoneTerminal(before)
    ensures var (s, trace) := Encode(START, aliases, cfg, before);
      var (s', end) := Next(s, aliases, cfg, next);
      && InRange(Started(s.enc), s'.reg.calls)
      && ToolsRead(Read(Begin, trace + end))
         == ToolsRead(Read(Begin, trace)) + SentBlocks(Started(s.enc), next.event, s'.reg, next.view, cfg.shorten)
      && (forall b | b in SentBlocks(Started(s.enc), next.event, s'.reg, next.view, cfg.shorten) :: NamesCall(b, s'.reg.calls, cfg.shorten))
  {
    hide *;
    StartIsValid();
    RunTracks(START, aliases, cfg, before, Begin);
    var (s, trace) := Encode(START, aliases, cfg, before);
    NextSendsTools(s, aliases, cfg, next, Read(Begin, trace));
    ReadAppend(Begin, trace, Next(s, aliases, cfg, next).1);
  }

  lemma NextSendsTools(s: State, aliases: Aliases, cfg: Config, next: Input, g: Reading)
    requires Valid(s) && Tracks(s.enc, g)
    ensures var (s', sent) := Next(s, aliases, cfg, next);
      && InRange(Started(s.enc), s'.reg.calls)
      && ToolsRead(Read(g, sent)) == ToolsRead(g) + SentBlocks(Started(s.enc), next.event, s'.reg, next.view, cfg.shorten)
      && (forall b | b in SentBlocks(Started(s.enc), next.event, s'.reg, next.view, cfg.shorten) :: NamesCall(b, s'.reg.calls, cfg.shorten))
  {
    hide Events, Tracks, Inv, Apply, SentBlocks, NamesCall;
    var reg := Apply(s.reg, aliases, next.event);
    ApplyKeeps(s.reg, aliases, next.event);
    assert Next(s, aliases, cfg, next).0.reg == reg;
    EventTracks(s.enc, g, next.event, reg, next.view, next.reasoning, cfg);
    SentNameCalls(Started(s.enc), next.event, reg, next.view, cfg.shorten);
  }
}
