/** The grammar of a streamed message: what a client may conclude from the events it receives. */
module Messages {
  import opened Text
  import opened Json
  import opened Encoder

  /** A content block with its deltas. */
  datatype Block = Block(head: Head, deltas: seq<(Field, string)>)

  function DeltaAt(index: nat, d: (Field, string)): Out {
    BlockDelta(index, d.0, d.1)
  }

  /** A block as far as it has been sent: started, and the deltas so far. */
  function RenderOpen(index: nat, b: Block): seq<Out> {
    [BlockStart(index, b.head)] + seq(|b.deltas|, k requires 0 <= k < |b.deltas| => DeltaAt(index, b.deltas[k]))
  }

  /** All blocks in order, each started, filled and stopped under its own index 0, 1, 2, ... */
  function Render(blocks: seq<Block>): seq<Out> {
    if blocks == [] then []
    else
      var last := |blocks| - 1;
      Render(blocks[..last]) + RenderOpen(last, blocks[last]) + [BlockStop(last)]
  }

  /** A whole message: one start, the blocks, the message delta and the stop, and nothing else. */
  ghost predicate WholeMessage(trace: seq<Out>, blocks: seq<Block>) {
    && |trace| >= 3
    && trace[0].MessageStart? && trace[|trace| - 2].MessageDelta? && trace[|trace| - 1].MessageStop?
    && trace[1..|trace| - 2] == Render(blocks)
  }

  // ----- reading a stream event by event -----

  datatype Reading =
    | Begin
    | Body(first: Out, blocks: seq<Block>, open: bool)
    | Ending(first: Out, blocks: seq<Block>, end: Out)
    | Whole(first: Out, blocks: seq<Block>, end: Out)
    | Bad

  function Advance(g: Reading, o: Out): Reading {
    match g
    case Begin => if o.MessageStart? then Body(o, [], false) else Bad
    case Body(first, blocks, open) =>
      (match o
       case BlockStart(i, head) =>
         if !open && i == |blocks| then Body(first, blocks + [Block(head, [])], true) else Bad
       case BlockDelta(i, field, value) =>
         if open && blocks != [] && i == |blocks| - 1 then Body(first, AddDeltas(blocks, [(field, value)]), true) else Bad
       case BlockStop(i) =>
         if open && blocks != [] && i == |blocks| - 1 then Body(first, blocks, false) else Bad
       case MessageDelta(_, _) => if !open then Ending(first, blocks, o) else Bad
       case _ => Bad)
    case Ending(first, blocks, end) => if o.MessageStop? then Whole(first, blocks, end) else Bad
    case _ => Bad
  }

  /** The last block takes more deltas. */
  function AddDeltas(blocks: seq<Block>, more: seq<(Field, string)>): (r: seq<Block>)
    requires blocks != []
    ensures |r| == |blocks|
  {
    var last := blocks[|blocks| - 1];
    blocks[..|blocks| - 1] + [Block(last.head, last.deltas + more)]
  }

  function Read(g: Reading, trace: seq<Out>): Reading
    decreases |trace|
  {
    if trace == [] then g else Read(Advance(g, trace[0]), trace[1..])
  }

  lemma {:induction false} ReadAppend(g: Reading, a: seq<Out>, b: seq<Out>)
    ensures Read(g, a + b) == Read(Read(g, a), b)
    decreases |a|
  {
    if a == [] {
      assert a + b == b;
    } else {
      assert (a + b)[0] == a[0] && (a + b)[1..] == a[1..] + b;
      ReadAppend(Advance(g, a[0]), a[1..], b);
    }
  }

  lemma ReadOne(g: Reading, o: Out)
    ensures Read(g, [o]) == Advance(g, o)
  {
    assert [o][1..] == [];
  }

  /** What has been read so far is exactly what the blocks render to. */
  ghost predicate ReadsAs(trace: seq<Out>, g: Reading) {
    match g
    case Begin => trace == []
    case Body(first, blocks, open) =>
      && first.MessageStart? && (open ==> blocks != [])
      && trace == [first] + RenderSoFar(blocks, open)
    case Ending(first, blocks, end) =>
      first.MessageStart? && end.MessageDelta? && trace == [first] + Render(blocks) + [end]
    case Whole(first, blocks, end) =>
      first.MessageStart? && end.MessageDelta? && trace == [first] + Render(blocks) + [end, MessageStop]
    case Bad => true
  }

  function RenderSoFar(blocks: seq<Block>, open: bool): seq<Out>
    requires open ==> blocks != []
  {
    if open then Render(blocks[..|blocks| - 1]) + RenderOpen(|blocks| - 1, blocks[|blocks| - 1])
    else Render(blocks)
  }

  lemma DeltaRenders(blocks: seq<Block>, field: Field, value: string)
    requires blocks != []
    ensures RenderSoFar(AddDeltas(blocks, [(field, value)]), true)
         == RenderSoFar(blocks, true) + [BlockDelta(|blocks| - 1, field, value)]
  {
    hide Render;
    var last := blocks[|blocks| - 1];
    var more := AddDeltas(blocks, [(field, value)]);
    assert more[..|more| - 1] == blocks[..|blocks| - 1];
    assert more[|more| - 1].deltas == last.deltas + [(field, value)];
    assert RenderOpen(|blocks| - 1, more[|more| - 1])
        == RenderOpen(|blocks| - 1, last) + [BlockDelta(|blocks| - 1, field, value)];
  }

  lemma StartRenders(blocks: seq<Block>, head: Head)
    ensures RenderSoFar(blocks + [Block(head, [])], true) == Render(blocks) + [BlockStart(|blocks|, head)]
  {
    hide Render;
    var more := blocks + [Block(head, [])];
    assert more[..|more| - 1] == blocks;
    assert RenderOpen(|blocks|, more[|more| - 1]) == [BlockStart(|blocks|, head)];
  }

  lemma AdvanceReads(trace: seq<Out>, g: Reading, o: Out)
    requires ReadsAs(trace, g)
    ensures ReadsAs(trace + [o], Advance(g, o))
  {
    hide Render, RenderSoFar, AddDeltas;
    if g.Body? && Advance(g, o) != Bad {
      assert trace + [o] == [g.first] + (RenderSoFar(g.blocks, g.open) + [o]);
      if o.BlockStart? {
        StartRenders(g.blocks, o.head);
        ClosedRenders(g.blocks);
      } else if o.BlockDelta? {
        DeltaRenders(g.blocks, o.field, o.value);
      } else if o.BlockStop? {
        StopRenders(g.blocks);
      } else {
        ClosedRenders(g.blocks);
      }
    } else if g.Begin? {
      ClosedRenders([]);
      assert Render([]) == [] by { EmptyRenders(); }
      assert trace + [o] == [o];
    } else if g.Ending? {
      assert trace + [o] == [g.first] + Render(g.blocks) + [g.end, o];
    }
  }

  lemma EmptyRenders()
    ensures Render([]) == []
  {}

  lemma ClosedRenders(blocks: seq<Block>)
    ensures RenderSoFar(blocks, false) == Render(blocks)
  {}

  lemma StopRenders(blocks: seq<Block>)
    requires blocks != []
    ensures RenderSoFar(blocks, false) == RenderSoFar(blocks, true) + [BlockStop(|blocks| - 1)]
  {}

  lemma {:induction false} ReadReads(before: seq<Out>, g: Reading, trace: seq<Out>)
    requires ReadsAs(before, g)
    ensures ReadsAs(before + trace, Read(g, trace))
    decreases |trace|
  {
    if trace == [] {
      assert before + trace == before;
    } else {
      hide ReadsAs;
      AdvanceReads(before, g, trace[0]);
      ReadReads(before + [trace[0]], Advance(g, trace[0]), trace[1..]);
      assert before + [trace[0]] + trace[1..] == before + trace;
    }
  }

  /** A stream read to the end is a whole message with the blocks that were read. */
  lemma ReadIsWhole(trace: seq<Out>)
    requires Read(Begin, trace).Whole?
    ensures WholeMessage(trace, Read(Begin, trace).blocks)
  {
    hide Read, Render;
    ReadReads([], Begin, trace);
    assert [] + trace == trace;
    var g := Read(Begin, trace);
    var middle := Render(g.blocks);
    assert trace == [g.first] + middle + [g.end, MessageStop];
    assert trace[1..|trace| - 2] == middle;
  }

  // ----- the tool blocks of a message -----

  function ToolBlocks(blocks: seq<Block>): seq<Block> {
    if blocks == [] then []
    else
      var last := blocks[|blocks| - 1];
      ToolBlocks(blocks[..|blocks| - 1]) + if last.head.ToolHead? then [last] else []
  }

  /** The call ids of a list of tool blocks. */
  function IDsOf(tools: seq<Block>): (ids: seq<string>)
    ensures |ids| == |tools|
  {
    seq(|tools|, k requires 0 <= k < |tools| => if tools[k].head.ToolHead? then tools[k].head.callID else "")
  }

  /** The values of a block's deltas. */
  function Values(b: Block): seq<string> {
    seq(|b.deltas|, k requires 0 <= k < |b.deltas| => b.deltas[k].1)
  }
}
