/** The splice of internal/anthropic/replay.go: the reasoning and tool calls remembered from an
    assistant turn are put back into a request that only carries the results of those calls. */
module ReplayApply {
  import opened Text

  datatype Block =
    | TextBlock(text: string)
    | Thinking(thinking: string, signature: string, data: string)
    | Redacted(thinking: string, signature: string, data: string)
    | ToolUse(id: string, name: string, input: string)
    | ToolResult(toolUseID: string, content: string)
    | Other(tag: string)

  type Content = seq<Block>

  datatype Message = Message(assistant: bool, content: Content)

  /** shortenCallID and IsValidCodexReasoningSignature, which the model leaves open. */
  datatype Rules = Rules(shorten: string -> string, valid: string -> bool)

  // ----- what a request says about the remembered turn -----

  function SignatureOf(b: Block): string
    requires b.Thinking? || b.Redacted?
  {
    TrimSpace(FirstNonEmpty([b.signature, b.data]))
  }

  function AllBlocks(messages: seq<Message>): Content {
    if messages == [] then [] else messages[0].content + AllBlocks(messages[1..])
  }

  predicate IsCallTo(b: Block, ids: set<string>, rules: Rules) {
    b.ToolUse? && rules.shorten(b.id) in ids
  }

  predicate IsResultOf(b: Block, ids: set<string>, rules: Rules) {
    b.ToolResult? && rules.shorten(b.toolUseID) in ids
  }

  function CachedCalls(cached: Content, rules: Rules): set<string> {
    set b | b in cached && b.ToolUse? :: rules.shorten(b.id)
  }

  /** The cached calls the request has a result for. */
  function Targets(messages: seq<Message>, cached: Content, rules: Rules): set<string> {
    set m, b | m in messages && b in m.content && b.ToolResult? && rules.shorten(b.toolUseID) in CachedCalls(cached, rules) ::
      rules.shorten(b.toolUseID)
  }

  /** Reasoning that may be replayed. */
  predicate IsReplayable(b: Block, rules: Rules) {
    b.Thinking? && rules.valid(SignatureOf(b))
  }

  function ReplaySignatures(cached: Content, rules: Rules): set<string> {
    set b | b in cached && IsReplayable(b, rules) :: SignatureOf(b)
  }

  predicate IsReplayed(b: Block, targets: set<string>, rules: Rules) {
    IsReplayable(b, rules) || IsCallTo(b, targets, rules)
  }

  lemma TextIsNotReplayed(b: Block, targets: set<string>, rules: Rules)
    requires b.TextBlock?
    ensures !IsReplayed(b, targets, rules)
  {}

  /** What is put back, in the order it was remembered. */
  function Replayed(cached: Content, targets: set<string>, rules: Rules): Content {
    if cached == [] then []
    else (if IsReplayed(cached[0], targets, rules) then [cached[0]] else []) + Replayed(cached[1..], targets, rules)
  }

  predicate HasCall(messages: seq<Message>, id: string, rules: Rules) {
    exists m, b | m in messages && b in m.content :: b.ToolUse? && rules.shorten(b.id) == id
  }

  predicate HasSignature(messages: seq<Message>, signature: string, rules: Rules) {
    exists m, b | m in messages && b in m.content ::
      (b.Thinking? || b.Redacted?) && rules.valid(SignatureOf(b)) && SignatureOf(b) == signature
  }

  /** Something of the remembered turn is missing from the request. */
  predicate IsMissing(b: Block, messages: seq<Message>, targets: set<string>, rules: Rules) {
    || (IsReplayable(b, rules) && !HasSignature(messages, SignatureOf(b), rules))
    || (IsCallTo(b, targets, rules) && !HasCall(messages, rules.shorten(b.id), rules))
  }

  predicate NeedsReplay(messages: seq<Message>, cached: Content, targets: set<string>, rules: Rules) {
    exists b | b in cached :: IsMissing(b, messages, targets, rules)
  }

  // ----- the splice -----

  /** The blocks that give way to the remembered ones. */
  predicate GivesWay(b: Block, targets: set<string>, signatures: set<string>, rules: Rules) {
    || ((b.Thinking? || b.Redacted?) && SignatureOf(b) in signatures)
    || IsCallTo(b, targets, rules)
  }

  function Kept(content: Content, targets: set<string>, signatures: set<string>, rules: Rules): Content {
    if content == [] then []
    else (if GivesWay(content[0], targets, signatures, rules) then [] else [content[0]])
         + Kept(content[1..], targets, signatures, rules)
  }

  function Cleared(messages: seq<Message>, targets: set<string>, signatures: set<string>, rules: Rules): (r: seq<Message>)
    ensures |r| == |messages|
  {
    seq(|messages|, i requires 0 <= i < |messages| =>
      messages[i].(content := Kept(messages[i].content, targets, signatures, rules)))
  }

  /** The first message from i on with a block that gives way. */
  function FirstCleared(messages: seq<Message>, i: nat, targets: set<string>, signatures: set<string>, rules: Rules): (r: Option<nat>)
    requires i <= |messages|
    ensures r.Some? ==> i <= r.value < |messages|
    decreases |messages| - i
  {
    if i == |messages| then None
    else if exists b | b in messages[i].content :: GivesWay(b, targets, signatures, rules) then Some(i)
    else FirstCleared(messages, i + 1, targets, signatures, rules)
  }

  /** firstToolResultMessage, from message i on. */
  function FirstResult(messages: seq<Message>, i: nat, targets: set<string>, rules: Rules): (r: nat)
    requires i <= |messages|
    ensures i <= r <= |messages|
    ensures forall j | i <= j < r :: forall b | b in messages[j].content :: !IsResultOf(b, targets, rules)
    ensures r < |messages| ==> exists b | b in messages[r].content :: IsResultOf(b, targets, rules)
    decreases |messages| - i
  {
    if i == |messages| then i
    else if exists b | b in messages[i].content :: IsResultOf(b, targets, rules) then i
    else FirstResult(messages, i + 1, targets, rules)
  }

  predicate SharesText(m: Message, cached: Content) {
    m.assistant && exists b | b in m.content :: b.TextBlock? && b in cached
  }

  /** matchingReplayTextMessage: the last assistant message before `before` with a remembered text. */
  function MatchingText(messages: seq<Message>, cached: Content, before: nat): (r: Option<nat>)
    requires before <= |messages|
    ensures r.Some? ==> r.value < before
  {
    if before == 0 then None
    else if SharesText(messages[before - 1], cached) then Some(before - 1)
    else MatchingText(messages, cached, before - 1)
  }

  function IndexOf(content: Content, b: Block): (i: nat)
    ensures i <= |content| && (i < |content| ==> content[i] == b) && b !in content[..i]
    ensures b in content <==> i < |content|
  {
    if content == [] then 0
    else if content[0] == b then 0
    else
      var i := IndexOf(content[1..], b) + 1;
      assert content == [content[0]] + content[1..];
      assert content[..i] == [content[0]] + content[1..][..i - 1];
      i
  }

  function Without(content: Content, i: nat): Content
    requires i < |content|
  {
    content[..i] + content[i + 1..]
  }

  /** orderedReplayContent: the remembered turn in its order, with the existing texts in the places
      of the remembered ones, and then whatever else was there. */
  function Ordered(cached: Content, targets: set<string>, existing: Content, rules: Rules): Content {
    if cached == [] then existing
    else
      var b := cached[0];
      if b.TextBlock? && b in existing then
        [b] + Ordered(cached[1..], targets, Without(existing, IndexOf(existing, b)), rules)
      else if IsReplayed(b, targets, rules) then [b] + Ordered(cached[1..], targets, existing, rules)
      else Ordered(cached[1..], targets, existing, rules)
  }

  function Insert(messages: seq<Message>, at: nat, m: Message): seq<Message>
    requires at <= |messages|
  {
    messages[..at] + [m] + messages[at..]
  }

  function Spliced(messages: seq<Message>, cached: Content, targets: set<string>, rules: Rules): seq<Message> {
    var signatures := ReplaySignatures(cached, rules);
    var cleared := Cleared(messages, targets, signatures, rules);
    var insertAt := FirstResult(cleared, 0, targets, rules);
    var first := FirstCleared(messages, 0, targets, signatures, rules);
    var replaceAt := if first.Some? then first else MatchingText(cleared, cached, insertAt);
    if replaceAt.Some? && replaceAt.value < insertAt then
      var m := cleared[replaceAt.value];
      cleared[replaceAt.value := m.(content := Ordered(cached, targets, m.content, rules))]
    else Insert(cleared, insertAt, Message(true, Replayed(cached, targets, rules)))
  }

  datatype Outcome = Unmatched | Matched | Applied

  /** ReplayManager.Apply for a record that was found. */
  function Apply(messages: seq<Message>, cached: Content, rules: Rules): (seq<Message>, Outcome) {
    var targets := Targets(messages, cached, rules);
    if targets == {} then (messages, Unmatched)
    else if !NeedsReplay(messages, cached, targets, rules) then (messages, Matched)
    else (Spliced(messages, cached, targets, rules), Applied)
  }
}
