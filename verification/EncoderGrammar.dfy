/** Every run of the stream encoder produces a well-formed message: each operation of the encoder
    keeps a reader of its output in step with its state. */
module EncoderGrammar {
  import opened Text
  import opened Json
  import opened ToolCalls
  import ToolCallLaws
  import opened Encoder
  import opened Messages

  predicate HeadFits(kind: OpenKind, head: Head) {
    match kind
    case TextBlock => head.TextHead?
    case ThinkingBlock => head.ThinkingHead?
    case ToolBlock(id) => head.ToolHead? && head.callID == id
  }

  /** The reader of the output agrees with the started encoder: as many blocks as indices handed
      out, and the open block is the last one. */
  ghost predicate InStep(e: Enc, g: Reading) {
    && g.Body? && |g.blocks| == e.nextIndex && g.open == e.open.Some?
    && (e.open.Some? ==>
          && g.blocks != [] && e.open.value.index == |g.blocks| - 1
          && HeadFits(e.open.value.kind, g.blocks[|g.blocks| - 1].head))
  }

  /** The tool blocks read so far are the same. */
  ghost predicate SameToolBlocks(g: Reading, g': Reading) {
    g.Body? && g'.Body? && ToolBlocks(g'.blocks) == ToolBlocks(g.blocks)
  }

  lemma Snoc(blocks: seq<Block>, b: Block)
    ensures ToolBlocks(blocks + [b]) == ToolBlocks(blocks) + if b.head.ToolHead? then [b] else []
  {
    assert (blocks + [b])[..|blocks|] == blocks;
  }

  lemma SnocOther(blocks: seq<Block>, b: Block)
    requires !b.head.ToolHead?
    ensures ToolBlocks(blocks + [b]) == ToolBlocks(blocks)
  {
    Snoc(blocks, b);
  }

  lemma LastSplits(blocks: seq<Block>, more: seq<(Field, string)>)
    requires blocks != []
    ensures var front, last := blocks[..|blocks| - 1], blocks[|blocks| - 1];
      blocks == front + [last] && AddDeltas(blocks, more) == front + [Block(last.head, last.deltas + more)]
  {}

  /** Deltas in a block that is not a tool's leave the tool blocks alone. */
  lemma AddOther(blocks: seq<Block>, more: seq<(Field, string)>)
    requires blocks != [] && !blocks[|blocks| - 1].head.ToolHead?
    ensures ToolBlocks(AddDeltas(blocks, more)) == ToolBlocks(blocks)
  {
    LastSplits(blocks, more);
    hide *;
    var front, last := blocks[..|blocks| - 1], blocks[|blocks| - 1];
    SnocOther(front, last);
    SnocOther(front, Block(last.head, last.deltas + more));
  }

  lemma AddTwice(blocks: seq<Block>, a: seq<(Field, string)>, b: seq<(Field, string)>)
    requires blocks != []
    ensures AddDeltas(AddDeltas(blocks, a), b) == AddDeltas(blocks, a + b)
  {
    var once := AddDeltas(blocks, a);
    assert once[..|once| - 1] == blocks[..|blocks| - 1];
    assert blocks[|blocks| - 1].deltas + a + b == blocks[|blocks| - 1].deltas + (a + b);
  }

  // ----- one operation after the other -----

  lemma CloseInStep(e: Enc, g: Reading)
    requires InStep(e, g)
    ensures var (e', out) := CloseBlock(e);
      InStep(e', Read(g, out)) && Read(g, out) == Body(g.first, g.blocks, false)
  {
    if e.open.Some? { ReadOne(g, BlockStop(e.open.value.index)); }
  }

  lemma StartInStep(e: Enc, g: Reading, kind: OpenKind, head: Head)
    requires InStep(e, g) && e.open.None? && HeadFits(kind, head)
    ensures var (e', out) := StartBlock(e, kind, head);
      InStep(e', Read(g, out)) && Read(g, out) == Body(g.first, g.blocks + [Block(head, [])], true)
  {
    ReadOne(g, BlockStart(e.nextIndex, head));
  }

  lemma OpenInStep(e: Enc, g: Reading, kind: OpenKind, head: Head)
    requires InStep(e, g) && HeadFits(kind, head) && !kind.ToolBlock?
    ensures var (e', out) := OpenAs(e, kind, head);
      InStep(e', Read(g, out)) && SameToolBlocks(g, Read(g, out))
  {
    if !(e.open.Some? && e.open.value.kind == kind) {
      var (e1, closed) := CloseBlock(e);
      CloseInStep(e, g);
      var g1 := Read(g, closed);
      StartInStep(e1, g1, kind, head);
      Snoc(g1.blocks, Block(head, []));
      ReadAppend(g, closed, StartBlock(e1, kind, head).1);
    }
  }

  function Pairs(field: Field, values: seq<string>): seq<(Field, string)> {
    seq(|values|, i requires 0 <= i < |values| => (field, values[i]))
  }

  lemma {:induction false} DeltasInStep(e: Enc, g: Reading, field: Field, values: seq<string>)
    requires InStep(e, g) && e.open.Some?
    ensures Read(g, Deltas(e, field, values)) == Body(g.first, AddDeltas(g.blocks, Pairs(field, values)), true)
    ensures InStep(e, Read(g, Deltas(e, field, values)))
    decreases |values|
  {
    if values == [] {
      var last := g.blocks[|g.blocks| - 1];
      assert last.deltas + [] == last.deltas;
      assert AddDeltas(g.blocks, []) == g.blocks;
    } else {
      var g1 := Advance(g, Delta(e, field, values[0]));
      assert Deltas(e, field, values)[1..] == Deltas(e, field, values[1..]);
      DeltasInStep(e, g1, field, values[1..]);
      AddTwice(g.blocks, [(field, values[0])], Pairs(field, values[1..]));
      assert [(field, values[0])] + Pairs(field, values[1..]) == Pairs(field, values);
    }
  }

  lemma DeltaInStep(e: Enc, g: Reading, field: Field, value: string)
    requires InStep(e, g) && e.open.Some?
    ensures Read(g, [Delta(e, field, value)]) == Body(g.first, AddDeltas(g.blocks, [(field, value)]), true)
    ensures InStep(e, Read(g, [Delta(e, field, value)]))
  {
    ReadOne(g, Delta(e, field, value));
  }

  lemma SendTextInStep(e: Enc, g: Reading, text: string)
    requires InStep(e, g)
    ensures var (e', out) := SendText(e, text);
      InStep(e', Read(g, out)) && SameToolBlocks(g, Read(g, out)) && e'.open.Some? && e'.open.value.kind == TextBlock
  {
    hide AddDeltas, ToolBlocks;
    var (e1, begun) := OpenAs(e, TextBlock, TextHead);
    OpenInStep(e, g, TextBlock, TextHead);
    var g1 := Read(g, begun);
    DeltaInStep(e1, g1, TextField, text);
    AddOther(g1.blocks, [(TextField, text)]);
    ReadAppend(g, begun, [Delta(e1, TextField, text)]);
  }

  lemma ThinkingInStep(e: Enc, g: Reading, thinking: string, signature: string)
    requires InStep(e, g)
    ensures var (e', out) := CompleteThinking(e, thinking, signature);
      && InStep(e', Read(g, out)) && SameToolBlocks(g, Read(g, out))
      && (out == [] ==> e'.open == e.open) && (out != [] ==> e'.open == None)
  {
    hide AddDeltas, ToolBlocks, Blank;
    if !(e.thinkEmitted || Blank(signature)) {
      var (e1, begun) := OpenAs(e, ThinkingBlock, ThinkingHead);
      OpenInStep(e, g, ThinkingBlock, ThinkingHead);
      var g1 := Read(g, begun);
      var texts := if e.thinkDeltas != [] then e.thinkDeltas else if thinking != "" then [thinking] else [];
      var told := Deltas(e1, ThinkingField, texts);
      DeltasInStep(e1, g1, ThinkingField, texts);
      AddOther(g1.blocks, Pairs(ThinkingField, texts));
      var g2 := Read(g1, told);
      DeltaInStep(e1, g2, SignatureField, signature);
      AddOther(g2.blocks, [(SignatureField, signature)]);
      var g3 := Read(g2, [Delta(e1, SignatureField, signature)]);
      CloseInStep(e1, g3);
      ReadAppend(g, begun, told);
      ReadAppend(g, begun + told, [Delta(e1, SignatureField, signature)]);
      ReadAppend(g, begun + told + [Delta(e1, SignatureField, signature)], CloseBlock(e1).1);
    }
  }

  /** One block that is started, given its deltas and stopped, all at once. */
  lemma WholeBlock(g: Reading, head: Head, query: string)
    requires g.Body? && !g.open && !head.ToolHead?
    ensures var n := |g.blocks|;
      var g' := Read(g, [BlockStart(n, head)] + (if query != "" then [BlockDelta(n, JsonField, query)] else []) + [BlockStop(n)]);
      && g'.Body? && !g'.open && |g'.blocks| == n + 1 && g'.first == g.first
      && SameToolBlocks(g, g')
  {
    var n := |g.blocks|;
    var b := g.blocks + [Block(head, [])];
    Snoc(g.blocks, Block(head, []));
    ReadOne(g, BlockStart(n, head));
    var g1 := Body(g.first, b, true);
    var middle := if query != "" then [BlockDelta(n, JsonField, query)] else [];
    if query != "" {
      ReadOne(g1, BlockDelta(n, JsonField, query));
      AddOther(b, [(JsonField, query)]);
    }
    var g2 := Read(g1, middle);
    ReadOne(g2, BlockStop(n));
    ReadAppend(g, [BlockStart(n, head)], middle);
    ReadAppend(g, [BlockStart(n, head)] + middle, [BlockStop(n)]);
  }

  lemma SearchInStep(e: Enc, g: Reading, item: Fields, fallbackID: string, shorten: string -> string)
    requires InStep(e, g)
    ensures var (e', out) := CompleteWebSearch(e, item, fallbackID, shorten);
      && InStep(e', Read(g, out)) && SameToolBlocks(g, Read(g, out))
      && (out == [] ==> e'.open == e.open) && (out != [] ==> e'.open == None)
  {
    hide SearchOf, ToolBlocks, AddDeltas;
    var search := SearchOf(item, fallbackID, shorten);
    if !(search.None? || search.value.id in e.searchDone) {
      var Search(id, query) := search.value;
      var e0 := e.(searchDone := e.searchDone + {id});
      var (e1, closed) := CloseBlock(e0);
      CloseInStep(e0, g);
      var g1 := Read(g, closed);
      var n := e1.nextIndex;
      var a := [BlockStart(n, SearchHead(id))] + (if query != "" then [BlockDelta(n, JsonField, query)] else []) + [BlockStop(n)];
      var b := [BlockStart(n + 1, SearchResultHead(id))] + [] + [BlockStop(n + 1)];
      WholeBlock(g1, SearchHead(id), query);
      WholeBlock(Read(g1, a), SearchResultHead(id), "");
      ReadAppend(g, closed, a);
      ReadAppend(g, closed + a, b);
      assert CompleteWebSearch(e, item, fallbackID, shorten).1 == closed + a + b;
    }
  }

  // ----- tool blocks -----

  /** How much of the value counts as sent once the buffered deltas are out. */
  function SentAfterBuffer(e: Enc, id: string, c: Call): nat {
    if id == c.callID then LengthOf(BufferedDeltas(e, id)) else 0
  }

  /** The pieces of JSON in the block of the tool filed under id: the buffered deltas, then what is
      left of the accumulated value. */
  function Pieces(e: Enc, id: string, c: Call): seq<string> {
    var sent := SentAfterBuffer(e, id, c);
    BufferedDeltas(e, id) + if sent >= |ValueOf(c)| then [] else [ValueOf(c)[sent..]]
  }

  function ToolBlockOf(e: Enc, id: string, c: Call, shorten: string -> string): Block {
    Block(ToolHead(c.callID, shorten(c.callID), c.name), Pairs(JsonField, Pieces(e, id, c)))
  }

  lemma EmitInStep(e: Enc, g: Reading, id: string, c: Call, shorten: string -> string)
    requires InStep(e, g) && e.open.None?
    ensures var (e', out) := EmitTool(e, id, c, shorten);
      && InStep(e', Read(g, out)) && e'.open.None?
      && Read(g, out) == Body(g.first, g.blocks + [ToolBlockOf(e, id, c, shorten)], false)
      && ToolBlocks(Read(g, out).blocks) == ToolBlocks(g.blocks) + [ToolBlockOf(e, id, c, shorten)]
  {
    hide ToolBlocks, AddDeltas, ValueOf;
    var head := ToolHead(c.callID, shorten(c.callID), c.name);
    var (e1, begun) := OpenTool(e, c, shorten);
    StartInStep(e, g, ToolBlock(c.callID), head);
    var g1 := Read(g, begun);
    var buffered := BufferedDeltas(e, id);
    DeltasInStep(e1, g1, JsonField, buffered);
    var told := Deltas(e1, JsonField, buffered);
    var g2 := Read(g1, told);
    var sent := SentAfterBuffer(e, id, c);
    var last := if sent >= |ValueOf(c)| then [] else [ValueOf(c)[sent..]];
    var rest := Deltas(e1, JsonField, last);
    DeltasInStep(e1, g2, JsonField, last);
    var g3 := Read(g2, rest);
    CloseInStep(e1, g3);
    EmitOut(e, id, c, shorten);
    ReadAppend(g, begun, told);
    ReadAppend(g, begun + told, rest);
    ReadAppend(g, begun + told + rest, CloseBlock(e1).1);
    AddTwice(g1.blocks, Pairs(JsonField, buffered), Pairs(JsonField, last));
    assert Pairs(JsonField, buffered) + Pairs(JsonField, last) == Pairs(JsonField, Pieces(e, id, c));
    assert AddDeltas(g1.blocks, Pairs(JsonField, Pieces(e, id, c))) == g.blocks + [ToolBlockOf(e, id, c, shorten)] by {
      AddToNew(g.blocks, head, Pairs(JsonField, Pieces(e, id, c)));
    }
    Snoc(g.blocks, ToolBlockOf(e, id, c, shorten));
  }

  lemma AddToNew(blocks: seq<Block>, head: Head, more: seq<(Field, string)>)
    ensures AddDeltas(blocks + [Block(head, [])], more) == blocks + [Block(head, more)]
  {
    assert [] + more == more;
    assert (blocks + [Block(head, [])])[..|blocks|] == blocks;
  }

  /** What EmitTool sends and leaves behind. */
  lemma EmitOut(e: Enc, id: string, c: Call, shorten: string -> string)
    requires e.open.None?
    ensures var (e1, begun) := OpenTool(e, c, shorten);
      var (e', out) := EmitTool(e, id, c, shorten);
      var sent := SentAfterBuffer(e, id, c);
      var last := if sent >= |ValueOf(c)| then [] else [ValueOf(c)[sent..]];
      && out == begun + Deltas(e1, JsonField, BufferedDeltas(e, id)) + Deltas(e1, JsonField, last) + CloseBlock(e1).1
      && e'.nextIndex == e1.nextIndex && e'.open == None && e'.started == e.started
  {
    hide ValueOf, Deltas;
    var (e1, begun) := OpenTool(e, c, shorten);
    var value, sent := ValueOf(c), SentAfterBuffer(e, id, c);
    assert LengthOf([]) == 0;
    if sent < |value| {
      FewDeltas(e1, JsonField, value[sent..]);
    } else {
      FewDeltas(e1, JsonField, "");
    }
  }

  lemma FewDeltas(e: Enc, field: Field, value: string)
    requires e.open.Some?
    ensures Deltas(e, field, []) == [] && Deltas(e, field, [value]) == [Delta(e, field, value)]
  {}

  /** The tool blocks that flushTools sends from position k of the order. */
  function FlushBlocks(e: Enc, calls: seq<Call>, k: nat, shorten: string -> string): seq<Block>
    requires k <= |e.tools.order| && InRange(e, calls)
    decreases |e.tools.order| - k
  {
    if k == |e.tools.order| then []
    else
      var id := e.tools.order[k];
      if id in e.tools.sent || id !in e.tools.states then FlushBlocks(e, calls, k + 1, shorten)
      else if id !in e.tools.done then []
      else
        [ToolBlockOf(e, id, calls[e.tools.states[id]], shorten)]
        + FlushBlocks(EmitTool(e, id, calls[e.tools.states[id]], shorten).0, calls, k + 1, shorten)
  }

  function FlushedBlocks(e: Enc, calls: seq<Call>, shorten: string -> string): seq<Block>
    requires InRange(e, calls)
  {
    if e.open.Some? then [] else FlushBlocks(e, calls, 0, shorten)
  }

  lemma {:induction false} FlushFromInStep(e: Enc, g: Reading, calls: seq<Call>, k: nat, shorten: string -> string)
    requires k <= |e.tools.order| && InRange(e, calls) && InStep(e, g) && e.open.None?
    ensures var (e', out) := FlushFrom(e, calls, k, shorten);
      && InStep(e', Read(g, out)) && e'.open.None?
      && Read(g, out) == Body(g.first, g.blocks + FlushBlocks(e, calls, k, shorten), false)
      && ToolBlocks(Read(g, out).blocks) == ToolBlocks(g.blocks) + FlushBlocks(e, calls, k, shorten)
    decreases |e.tools.order| - k
  {
    hide EmitTool, ToolBlockOf, ToolBlocks;
    if k < |e.tools.order| {
      var id := e.tools.order[k];
      if id in e.tools.sent || id !in e.tools.states {
        FlushFromInStep(e, g, calls, k + 1, shorten);
      } else if id in e.tools.done {
        var c := calls[e.tools.states[id]];
        EmitInStep(e, g, id, c, shorten);
        EmitKeepsOrder(e, id, c, shorten);
        var (e1, block) := EmitTool(e, id, c, shorten);
        FlushFromInStep(e1, Read(g, block), calls, k + 1, shorten);
        ReadAppend(g, block, FlushFrom(e1, calls, k + 1, shorten).1);
        assert g.blocks + FlushBlocks(e, calls, k, shorten)
          == g.blocks + [ToolBlockOf(e, id, c, shorten)] + FlushBlocks(e1, calls, k + 1, shorten);
      }
    }
  }

  lemma EmitKeepsOrder(e: Enc, id: string, c: Call, shorten: string -> string)
    ensures var t := EmitTool(e, id, c, shorten).0.tools;
      t.order == e.tools.order && t.states == e.tools.states && t.done == e.tools.done
  {}

  lemma FlushInStep(e: Enc, g: Reading, calls: seq<Call>, shorten: string -> string)
    requires InRange(e, calls) && InStep(e, g)
    ensures var (e', out) := FlushTools(e, calls, shorten);
      && InStep(e', Read(g, out)) && e'.open == e.open
      && Read(g, out) == Body(g.first, g.blocks + FlushedBlocks(e, calls, shorten), g.open)
      && ToolBlocks(Read(g, out).blocks) == ToolBlocks(g.blocks) + FlushedBlocks(e, calls, shorten)
  {
    hide FlushFrom, FlushBlocks, ToolBlocks;
    if e.open.None? { FlushFromInStep(e, g, calls, 0, shorten); }
  }

  // ----- the terminal event -----

  /** Between two events the open block is a text block or there is none. */
  predicate Quiet(e: Enc) {
    e.open.Some? ==> e.open.value.kind == TextBlock
  }

  lemma {:induction false} SettleKeepsBlocks(e: Enc, calls: seq<Call>, response: Fields, i: nat)
    requires i <= |calls| && InRange(e, calls)
    ensures var e' := Settle(e, calls, response, i);
      && e'.open == e.open && e'.nextIndex == e.nextIndex && e'.started == e.started
      && e'.textEmitted == e.textEmitted && e'.thinkEmitted == e.thinkEmitted && e'.searchDone == e.searchDone
    decreases |calls| - i
  {
    if i < |calls| {
      if !Executable(calls[i], response) {
        SettleKeepsBlocks(e.(tools := e.tools.(states := e.tools.states - {calls[i].callID})), calls, response, i + 1);
      } else {
        SettleKeepsBlocks(MarkDone(RegisterTool(e, calls, i), calls[i].callID), calls, response, i + 1);
      }
    }
  }

  lemma HydrateThinkingInStep(e: Enc, g: Reading, blocks: seq<Shown>)
    requires InStep(e, g) && Quiet(e)
    ensures var (e', out) := HydrateThinking(e, blocks);
      && InStep(e', Read(g, out)) && SameToolBlocks(g, Read(g, out)) && Quiet(e')
      && (out == [] ==> e'.open == e.open) && (out != [] ==> e'.open == None)
  {
    hide CompleteThinking, ToolBlocks, InStep;
    if blocks != [] && blocks[0].ShownThinking? {
      ThinkingInStep(e, g, blocks[0].thinking, blocks[0].signature);
    }
    ReadyInStep(e, g);
  }

  lemma ReadyInStep(e: Enc, g: Reading)
    requires InStep(e, g)
    ensures g.Body? && SameToolBlocks(g, g)
  {}

  lemma {:induction false} HydrateSearchesInStep(e: Enc, g: Reading, output: seq<Fields>, k: nat, shorten: string -> string)
    requires k <= |output| && InStep(e, g) && Quiet(e)
    ensures var (e', out) := HydrateSearches(e, output, k, shorten);
      && InStep(e', Read(g, out)) && SameToolBlocks(g, Read(g, out)) && Quiet(e')
      && (out == [] ==> e'.open == e.open) && (out != [] ==> e'.open == None)
    decreases |output| - k
  {
    hide CompleteWebSearch, ToolBlocks, InStep, Itoa, StringValue;
    ReadyInStep(e, g);
    if k < |output| {
      if StringValue(output[k], "type") != "web_search_call" {
        HydrateSearchesInStep(e, g, output, k + 1, shorten);
      } else {
        var fallback := "web_search_" + Itoa(k);
        SearchInStep(e, g, output[k], fallback, shorten);
        var (e1, shown) := CompleteWebSearch(e, output[k], fallback, shorten);
        HydrateSearchesInStep(e1, Read(g, shown), output, k + 1, shorten);
        ReadAppend(g, shown, HydrateSearches(e1, output, k + 1, shorten).1);
      }
    }
  }

  lemma {:induction false} HydrateTextInStep(e: Enc, g: Reading, blocks: seq<Shown>)
    requires InStep(e, g) && Quiet(e)
    ensures var (e', out) := HydrateText(e, blocks);
      && InStep(e', Read(g, out)) && SameToolBlocks(g, Read(g, out)) && Quiet(e')
      && (out == [] ==> e'.open == e.open) && (out != [] ==> e'.open == None)
  {
    hide SendText, ToolBlocks, InStep;
    ReadyInStep(e, g);
    if !(e.textEmitted || blocks == []) {
      if blocks[0].ShownText? && blocks[0].text != "" {
        SendTextInStep(e, g, blocks[0].text);
        var (e1, sent) := SendText(e, blocks[0].text);
        CloseInStep(e1, Read(g, sent));
        ReadAppend(g, sent, CloseBlock(e1).1);
        SentSomething(e, blocks[0].text);
      } else {
        HydrateTextInStep(e, g, blocks[1..]);
      }
    }
  }

  lemma SentSomething(e: Enc, text: string)
    ensures SendText(e, text).1 != []
  {}

  /** The encoder just before the last flush of the terminal event. */
  function Hydrated(e: Enc, calls: seq<Call>, view: View, shorten: string -> string): (e': Enc)
    requires InRange(e, calls)
    ensures InRange(e', calls)
  {
    var e0 := Settle(e, calls, view.response, 0);
    var e1 := if ToolStreamStarted(e) then FlushTerminalTools(e0, calls, shorten).0 else e0;
    HydrateKeepsStates(e0, calls, view, shorten, ToolStreamStarted(e));
    HydrateText(HydrateSearches(HydrateThinking(e1, view.blocks).0, view.output, 0, shorten).0, view.blocks).0
  }

  /** The tool blocks the terminal event sends: tools are flushed before everything else when the
      tool stream has started, and after it otherwise. */
  function TerminalBlocks(e: Enc, calls: seq<Call>, view: View, shorten: string -> string): seq<Block>
    requires InRange(e, calls)
  {
    FlushedBlocks(if ToolStreamStarted(e) then Settle(e, calls, view.response, 0) else Hydrated(e, calls, view, shorten),
                  calls, shorten)
  }

  lemma TerminalFlushInStep(e: Enc, g: Reading, calls: seq<Call>, shorten: string -> string)
    requires InRange(e, calls) && InStep(e, g) && Quiet(e)
    ensures var (e', out) := FlushTerminalTools(e, calls, shorten);
      && InStep(e', Read(g, out)) && e'.open == e.open
      && ToolBlocks(Read(g, out).blocks) == ToolBlocks(g.blocks) + FlushedBlocks(e, calls, shorten)
  {
    hide InStep, FlushTools, FlushedBlocks, ToolBlocks;
    FlushInStep(e, g, calls, shorten);
  }

  lemma HydrateTerminalInStep(e: Enc, g: Reading, calls: seq<Call>, view: View, shorten: string -> string)
    requires InRange(e, calls) && InStep(e, g) && Quiet(e)
    ensures var (e', out) := HydrateTerminal(e, calls, view, shorten);
      && InStep(e', Read(g, out))
      && ToolBlocks(Read(g, out).blocks) == ToolBlocks(g.blocks) + TerminalBlocks(e, calls, view, shorten)
  {
    hide FlushTerminalTools, HydrateThinking, HydrateSearches, HydrateText, Settle, ToolBlocks, FlushedBlocks, ToolStreamStarted;
    var streaming := ToolStreamStarted(e);
    var e0 := Settle(e, calls, view.response, 0);
    SettleKeepsBlocks(e, calls, view.response, 0);
    var (e1, early) := if streaming then FlushTerminalTools(e0, calls, shorten) else (e0, []);
    TerminalFlushInStep(e0, g, calls, shorten);
    var g1 := Read(g, early);
    HydrateThinkingInStep(e1, g1, view.blocks);
    var (e2, thinking) := HydrateThinking(e1, view.blocks);
    var g2 := Read(g1, thinking);
    HydrateSearchesInStep(e2, g2, view.output, 0, shorten);
    var (e3, searches) := HydrateSearches(e2, view.output, 0, shorten);
    var g3 := Read(g2, searches);
    HydrateTextInStep(e3, g3, view.blocks);
    var (e4, text) := HydrateText(e3, view.blocks);
    var g4 := Read(g3, text);
    HydrateKeepsStates(e0, calls, view, shorten, streaming);
    TerminalFlushInStep(e4, g4, calls, shorten);
    var late := if streaming then [] else FlushTerminalTools(e4, calls, shorten).1;
    ReadAppend(g, early, thinking);
    ReadAppend(g, early + thinking, searches);
    ReadAppend(g, early + thinking + searches, text);
    ReadAppend(g, early + thinking + searches + text, late);
    assert streaming ==> FlushedBlocks(e0, calls, shorten) == TerminalBlocks(e, calls, view, shorten);
  }

  /** The reader has seen a whole message. */
  ghost predicate Finished(g: Reading, tools: seq<Block>) {
    g.Whole? && ToolBlocks(g.blocks) == tools
  }

  lemma FinishInStep(e: Enc, g: Reading, calls: seq<Call>, view: View, cfg: Config)
    requires InRange(e, calls) && InStep(e, g) && Quiet(e)
    ensures Finished(Read(g, Finish(e, calls, view, cfg).1),
                     ToolBlocks(g.blocks) + TerminalBlocks(e, calls, view, cfg.shorten))
  {
    hide HydrateTerminal, TerminalBlocks, ToolBlocks;
    var (e1, hydrated) := HydrateTerminal(e, calls, view, cfg.shorten);
    HydrateTerminalInStep(e, g, calls, view, cfg.shorten);
    var g1 := Read(g, hydrated);
    CloseInStep(e1, g1);
    var (e2, closed) := CloseBlock(e1);
    var g2 := Read(g1, closed);
    var end := MessageDelta(view.stopReason, view.stopSequence);
    ReadOne(g2, end);
    ReadOne(Advance(g2, end), MessageStop);
    assert [end, MessageStop] == [end] + [MessageStop];
    ReadAppend(g2, [end], [MessageStop]);
    ReadAppend(g, hydrated, closed);
    ReadAppend(g, hydrated + closed, [end, MessageStop]);
  }

  // ----- one event -----

  lemma TextDoneInStep(e: Enc, g: Reading, event: Event, view: View, cfg: Config)
    requires InStep(e, g) && Quiet(e)
    ensures var (e', out) := FinishText(e, event, view, cfg);
      InStep(e', Read(g, out)) && SameToolBlocks(g, Read(g, out)) && Quiet(e')
  {
    hide SendText, ToolBlocks, InStep, StringValue;
    ReadyInStep(e, g);
    var text := StringValue(event.raw, "text");
    var whole := Or(text, view.text);
    var (e1, cleaned) := if cfg.hasSchema && !e.textEmitted && whole != "" then SendText(e, cfg.normalize(whole)) else (e, []);
    SendTextInStep(e, g, cfg.normalize(whole));
    var g1 := Read(g, cleaned);
    var (e2, plain) := if !e1.textEmitted && text != "" then SendText(e1, text) else (e1, []);
    SendTextInStep(e1, g1, text);
    var g2 := Read(g1, plain);
    CloseInStep(e2, g2);
    var closed := if e2.open.Some? && e2.open.value.kind == TextBlock then CloseBlock(e2).1 else [];
    ReadAppend(g, cleaned, plain);
    ReadAppend(g, cleaned + plain, closed);
  }

  lemma RegisterInStep(e: Enc, g: Reading, calls: seq<Call>, i: nat)
    requires InStep(e, g) && Quiet(e) && i < |calls|
    ensures InStep(RegisterTool(e, calls, i), g) && Quiet(RegisterTool(e, calls, i))
    ensures forall id :: InStep(MarkDone(RegisterTool(e, calls, i), id), g)
  {}

  /** The tool blocks that CompleteTool sends. */
  function CompletedBlocks(e: Enc, calls: seq<Call>, i: nat, shorten: string -> string): seq<Block>
    requires i < |calls| && InRange(e, calls)
  {
    FlushedBlocks(MarkDone(RegisterTool(e, calls, i), calls[i].callID), calls, shorten)
  }

  lemma CompleteInStep(e: Enc, g: Reading, calls: seq<Call>, i: nat, shorten: string -> string)
    requires InStep(e, g) && Quiet(e) && i < |calls| && InRange(e, calls)
    ensures var (e', out) := CompleteTool(e, calls, i, shorten);
      && InStep(e', Read(g, out)) && Quiet(e')
      && ToolBlocks(Read(g, out).blocks) == ToolBlocks(g.blocks) + CompletedBlocks(e, calls, i, shorten)
  {
    hide FlushTools, FlushedBlocks, ToolBlocks;
    RegisterInStep(e, g, calls, i);
    FlushInStep(MarkDone(RegisterTool(e, calls, i), calls[i].callID), g, calls, shorten);
  }

  lemma DeltaKeepsBlocks(e: Enc, g: Reading, calls: seq<Call>, i: nat, delta: string)
    requires InStep(e, g) && Quiet(e) && i < |calls|
    ensures InStep(ToolDelta(e, calls, i, delta), g) && Quiet(ToolDelta(e, calls, i, delta))
  {}

  predicate IsSearchItem(event: Event) {
    StringValue(OrEmpty(EventItem(event)), "type") == "web_search_call"
  }

  predicate IsReasoningItem(event: Event) {
    StringValue(OrEmpty(EventItem(event)), "type") == "reasoning"
  }

  /** The events that complete a tool call. */
  predicate CompletesTool(event: Event) {
    || event.kind == ArgumentsDone || event.kind == InputDone
    || (event.kind == ItemDone && !IsSearchItem(event) && !IsReasoningItem(event))
  }

  /** The tool blocks a non-terminal event sends. */
  function EventBlocks(e: Enc, event: Event, reg: Registry, shorten: string -> string): seq<Block>
    requires Sound(reg) && InRange(e, reg.calls)
  {
    var call := CallForEvent(reg, event);
    if CompletesTool(event) && call.Some? then CompletedBlocks(e, reg.calls, call.value, shorten) else []
  }

  lemma ItemDoneInStep(e: Enc, g: Reading, event: Event, reg: Registry, view: View, reasoning: string, cfg: Config)
    requires Sound(reg) && InRange(e, reg.calls) && InStep(e, g) && Quiet(e) && event.kind == ItemDone
    ensures var (e', out) := Dispatch(e, event, reg, view, reasoning, cfg);
      && InStep(e', Read(g, out)) && Quiet(e')
      && ToolBlocks(Read(g, out).blocks) == ToolBlocks(g.blocks) + EventBlocks(e, event, reg, cfg.shorten)
  {
    hide CompleteWebSearch, CompleteThinking, CompleteTool, CallForEvent, ToolBlocks, CompletedBlocks, StringValue, EventItem, SearchOf, Blank,
         FirstNonEmpty, TrimSpace;
    var item := OrEmpty(EventItem(event));
    var call := CallForEvent(reg, event);
    SearchInStep(e, g, item, cfg.fallbackID(event), cfg.shorten);
    ThinkingInStep(e, g, reasoning, StringValue(item, "encrypted_content"));
    if call.Some? { CompleteInStep(e, g, reg.calls, call.value, cfg.shorten); }
  }

  lemma DispatchInStep(e: Enc, g: Reading, event: Event, reg: Registry, view: View, reasoning: string, cfg: Config)
    requires Sound(reg) && InRange(e, reg.calls) && InStep(e, g) && Quiet(e) && !IsTerminal(event)
    ensures var (e', out) := Dispatch(e, event, reg, view, reasoning, cfg);
      && InStep(e', Read(g, out)) && Quiet(e')
      && ToolBlocks(Read(g, out).blocks) == ToolBlocks(g.blocks) + EventBlocks(e, event, reg, cfg.shorten)
  {
    hide CompleteThinking, CompleteTool, CallForEvent, ToolBlocks, CompletedBlocks, StringValue, EventItem, SendText, FinishText, ToolDelta;
    var call := CallForEvent(reg, event);
    match event.kind
    case SummaryDone => ThinkingInStep(e, g, view.summary, SummarySignature(event));
    case TextDelta => SendTextInStep(e, g, StringValue(event.raw, "delta"));
    case TextDone => TextDoneInStep(e, g, event, view, cfg);
    case ArgumentsDelta => if call.Some? { DeltaKeepsBlocks(e, g, reg.calls, call.value, StringValue(event.raw, "delta")); }
    case InputDelta => if call.Some? { DeltaKeepsBlocks(e, g, reg.calls, call.value, StringValue(event.raw, "delta")); }
    case ArgumentsDone => if call.Some? { CompleteInStep(e, g, reg.calls, call.value, cfg.shorten); }
    case InputDone => if call.Some? { CompleteInStep(e, g, reg.calls, call.value, cfg.shorten); }
    case ItemDone => ItemDoneInStep(e, g, event, reg, view, reasoning, cfg);
    case _ =>
  }
}
