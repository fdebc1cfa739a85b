/** The loop of the server around the objects: every upstream event is applied to the accumulator
    and then encoded. What the objects send is what the specification of whole runs says. */
module Streaming {
  import opened Text
  import opened ToolCalls
  import opened ToolCallLaws
  import opened Metadata
  import opened Encoder
  import opened Accumulator
  import opened StreamEncoding
  import Messages
  import EncoderContent
  import opened EncoderRuns

  /** The objects hold what the state of the specification says. */
  ghost predicate Holds(acc: AccumulatorState, enc: StreamEncoder, s: State)
    reads acc, enc, acc.toolCalls
  {
    acc.reg == s.reg && enc.View() == s.enc && enc.Follows(acc)
  }

  method Step(acc: AccumulatorState, enc: StreamEncoder, aliases: Aliases, cfg: Config, input: Input, ghost s: State)
    returns (sent: seq<Out>)
    requires Valid(s) && Holds(acc, enc, s) && acc.aliases == aliases
    modifies acc, acc.toolCalls, enc
    ensures Holds(acc, enc, Next(s, aliases, cfg, input).0) && sent == Next(s, aliases, cfg, input).1
    ensures Grown(old(acc.toolCalls), acc.toolCalls)
  {
    hide Inv, InRange, Mirrors, Leads, Sound, ToolCalls.Apply, Encoder.Events;
    acc.Lengths();
    acc.Apply(input.event);
    acc.Lengths();
    assert forall k | 0 <= k < |old(acc.toolCalls)| :: acc.toolCalls[k] == old(acc.toolCalls)[k];
    sent := enc.Events(input.event, acc, input.view, input.reasoning, cfg);
  }

  method Begin(aliases: Aliases) returns (acc: AccumulatorState, enc: StreamEncoder)
    ensures Holds(acc, enc, START) && acc.aliases == aliases
    ensures fresh(acc) && fresh(enc) && acc.toolCalls == []
  {
    hide NO_META;
    acc := new AccumulatorState(aliases);
    enc := new StreamEncoder();
    assert Positions(enc.toolStates) == enc.View().tools.states == map[];
    assert forall id | id in enc.toolStates :: id in Positions(enc.toolStates);
  }

  lemma EncodeStep(s: State, aliases: Aliases, cfg: Config, inputs: seq<Input>, k: nat, trace: seq<Out>)
    requires Valid(s) && k < |inputs|
    ensures var (s', sent) := Next(s, aliases, cfg, inputs[k]);
      trace + Encode(s, aliases, cfg, inputs[k..]).1 == trace + sent + Encode(s', aliases, cfg, inputs[k + 1..]).1
  {
    hide Valid, Next;
    assert inputs[k..][1..] == inputs[k + 1..];
  }

  lemma EncodeEnds(s: State, aliases: Aliases, cfg: Config)
    requires Valid(s)
    ensures Encode(s, aliases, cfg, []).1 == []
  {}

  lemma NotEmpty(inputs: seq<Input>)
    requires CompleteRun(inputs)
    ensures inputs != []
  {}

  /** Serving a run sends exactly what the specification's run sends, so for a complete run it is one
      well-formed message, in which the client reads what the events say. */
  method Serve(aliases: Aliases, cfg: Config, inputs: seq<Input>) returns (trace: seq<Out>)
    ensures Valid(START) && trace == Encode(START, aliases, cfg, inputs).1
    ensures CompleteRun(inputs) ==>
      Messages.Read(Messages.Begin, trace).Whole?
      && Messages.WholeMessage(trace, Messages.Read(Messages.Begin, trace).blocks)
      && inputs != [] && EncoderContent.ReadsMessage(Messages.Read(Messages.Begin, trace), cfg, inputs)
  {
    StartIsValid();
    hide Valid, Next, Messages.WholeMessage, Messages.Read, Holds, Encode, CompleteRun, EncoderContent.ReadsMessage;
    var acc, enc := Begin(aliases);
    trace := [];
    ghost var s := START;
    var k := 0;
    assert inputs[0..] == inputs;
    while k < |inputs|
      invariant 0 <= k <= |inputs| && acc.aliases == aliases
      invariant fresh(acc) && fresh(enc) && forall j | 0 <= j < |acc.toolCalls| :: fresh(acc.toolCalls[j])
      invariant Valid(s) && Holds(acc, enc, s)
      invariant Encode(START, aliases, cfg, inputs).1 == trace + Encode(s, aliases, cfg, inputs[k..]).1
    {
      EncodeStep(s, aliases, cfg, inputs, k, trace);
      ghost var calls := acc.toolCalls;
      var sent := Step(acc, enc, aliases, cfg, inputs[k], s);
      s := Next(s, aliases, cfg, inputs[k]).0;
      assert forall j | 0 <= j < |calls| :: acc.toolCalls[j] == calls[j];
      trace := trace + sent;
      k := k + 1;
    }
    EncodeEnds(s, aliases, cfg);
    assert inputs[k..] == [] && trace + [] == trace;
    if CompleteRun(inputs) {
      EveryRunIsWholeMessage(aliases, cfg, inputs);
      EncoderContent.ContentOfMessage(aliases, cfg, inputs);
      NotEmpty(inputs);
    }
  }
}
