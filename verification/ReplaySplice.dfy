/** The loops of ReplayManager.Apply and orderedReplayContent (internal/anthropic/replay.go), proved
    to compute the splice of ReplayApply. */
module ReplaySplice {
  import opened Text
  import opened ReplayApply

  // ----- orderedReplayContent -----

  /** The existing blocks that have not been placed yet. */
  function Unused(existing: Content, used: seq<bool>): Content
    requires |used| == |existing|
  {
    if existing == [] then []
    else (if used[0] then [] else [existing[0]]) + Unused(existing[1..], used[1..])
  }

  lemma {:induction false} UnusedAll(existing: Content, used: seq<bool>)
    requires |used| == |existing| && forall i | 0 <= i < |used| :: !used[i]
    ensures Unused(existing, used) == existing
  {
    if existing != [] {
      UnusedAll(existing[1..], used[1..]);
    }
  }

  lemma {:induction false} NoneUnused(existing: Content, used: seq<bool>, b: Block)
    requires |used| == |existing| && forall j | 0 <= j < |existing| :: used[j] || existing[j] != b
    ensures b !in Unused(existing, used)
  {
    if existing != [] {
      NoneUnused(existing[1..], used[1..], b);
    }
  }

  lemma WithoutShift(h: Block, rest: Content, i: nat)
    requires i < |rest|
    ensures Without([h] + rest, i + 1) == [h] + Without(rest, i)
  {}

  lemma WithoutHead(h: Block, rest: Content, b: Block)
    requires h != b && b in rest
    ensures Without([h] + rest, IndexOf([h] + rest, b)) == [h] + Without(rest, IndexOf(rest, b))
  {
    var all := [h] + rest;
    assert all[1..] == rest;
    assert IndexOf(all, b) == IndexOf(rest, b) + 1;
    hide IndexOf;
    WithoutShift(h, rest, IndexOf(rest, b));
  }

  /** Placing the first unused copy of a block is taking its first copy out of the unused blocks. */
  lemma {:induction false} UseFirst(existing: Content, used: seq<bool>, b: Block, i: nat)
    requires |used| == |existing| && i < |existing| && existing[i] == b && !used[i]
    requires forall j | 0 <= j < i :: used[j] || existing[j] != b
    ensures b in Unused(existing, used)
    ensures Unused(existing, used[i := true]) == Without(Unused(existing, used), IndexOf(Unused(existing, used), b))
  {
    hide Unused, Without, IndexOf;
    var rest := Unused(existing[1..], used[1..]);
    UnusedHead(existing, used);
    UnusedHead(existing, used[i := true]);
    if i == 0 {
      assert used[0 := true][1..] == used[1..];
      WithoutFirst(b, rest);
    } else {
      UseFirst(existing[1..], used[1..], b, i - 1);
      assert used[i := true][1..] == used[1..][i - 1 := true];
      if !used[0] {
        WithoutHead(existing[0], rest, b);
      }
    }
  }

  lemma UnusedHead(existing: Content, used: seq<bool>)
    requires |used| == |existing| && existing != []
    ensures used[0] ==> Unused(existing, used) == Unused(existing[1..], used[1..])
    ensures !used[0] ==> Unused(existing, used) == [existing[0]] + Unused(existing[1..], used[1..])
  {}

  lemma WithoutFirst(b: Block, rest: Content)
    ensures Without([b] + rest, IndexOf([b] + rest, b)) == rest
  {
    assert IndexOf([b] + rest, b) == 0;
    assert ([b] + rest)[1..] == rest && ([b] + rest)[..0] == [];
  }

  method FirstUnused(existing: Content, used: seq<bool>, block: Block) returns (index: nat)
    requires |used| == |existing|
    ensures index <= |existing| && (index < |existing| ==> !used[index] && existing[index] == block)
    ensures forall j | 0 <= j < index :: used[j] || existing[j] != block
  {
    index := 0;
    while index < |existing| && (used[index] || existing[index] != block)
      invariant 0 <= index <= |existing|
      invariant forall j | 0 <= j < index :: used[j] || existing[j] != block
    {
      index := index + 1;
    }
  }

  method OrderedReplayContent(cached: Content, targets: set<string>, existing: Content, rules: Rules) returns (ordered: Content)
    ensures ordered == Ordered(cached, targets, existing, rules)
  {
    hide IsReplayed, Without, IndexOf, Unused;
    var used := seq(|existing|, i => false);
    ordered := [];
    var k := 0;
    UnusedAll(existing, used);
    assert cached[0..] == cached;
    while k < |cached|
      invariant 0 <= k <= |cached| && |used| == |existing|
      invariant Ordered(cached, targets, existing, rules)
        == ordered + Ordered(cached[k..], targets, Unused(existing, used), rules)
    {
      var block := cached[k];
      ghost var unused, before := Unused(existing, used), ordered;
      assert cached[k..][1..] == cached[k + 1..];
      if block.TextBlock? {
        var index := FirstUnused(existing, used, block);
        if index < |existing| {
          UseFirst(existing, used, block, index);
          ordered := ordered + [existing[index]];
          used := used[index := true];
          Regroup(before, [block], Ordered(cached[k + 1..], targets, Unused(existing, used), rules));
        } else {
          NoneUnused(existing, used, block);
          TextIsNotReplayed(block, targets, rules);
        }
      } else if IsReplayed(block, targets, rules) {
        ordered := ordered + [block];
        Regroup(before, [block], Ordered(cached[k + 1..], targets, unused, rules));
      }
      k := k + 1;
    }
    assert cached[k..] == [];
    var rest := TheUnused(existing, used);
    ordered := ordered + rest;
  }

  lemma Regroup(a: Content, b: Content, c: Content)
    ensures a + (b + c) == a + b + c
  {}

  lemma {:induction false} UnusedSnoc(existing: Content, used: seq<bool>, k: nat)
    requires |used| == |existing| && k < |existing|
    ensures Unused(existing[..k + 1], used[..k + 1])
      == Unused(existing[..k], used[..k]) + if used[k] then [] else [existing[k]]
  {
    if k > 0 {
      UnusedSnoc(existing[1..], used[1..], k - 1);
      assert existing[..k + 1][1..] == existing[1..][..k] && used[..k + 1][1..] == used[1..][..k];
      assert existing[..k][1..] == existing[1..][..k - 1] && used[..k][1..] == used[1..][..k - 1];
    }
  }

  method TheUnused(existing: Content, used: seq<bool>) returns (rest: Content)
    requires |used| == |existing|
    ensures rest == Unused(existing, used)
  {
    rest := [];
    var index := 0;
    while index < |existing|
      invariant 0 <= index <= |existing|
      invariant rest == Unused(existing[..index], used[..index])
    {
      UnusedSnoc(existing, used, index);
      if !used[index] {
        rest := rest + [existing[index]];
      }
      index := index + 1;
    }
    assert existing[..index] == existing && used[..index] == used;
  }

  // ----- the loops of Apply -----

  lemma {:induction false} KeptSnoc(content: Content, k: nat, targets: set<string>, signatures: set<string>, rules: Rules)
    requires k < |content|
    ensures Kept(content[..k + 1], targets, signatures, rules)
      == Kept(content[..k], targets, signatures, rules)
         + if GivesWay(content[k], targets, signatures, rules) then [] else [content[k]]
  {
    hide GivesWay;
    if k > 0 {
      KeptSnoc(content[1..], k - 1, targets, signatures, rules);
      assert content[..k + 1][1..] == content[1..][..k];
      assert content[..k][1..] == content[1..][..k - 1];
    }
  }

  /** The blocks of one message that stay, and whether any did not. */
  method FilterContent(content: Content, targets: set<string>, signatures: set<string>, rules: Rules)
    returns (filtered: Content, dropped: bool)
    ensures filtered == Kept(content, targets, signatures, rules)
    ensures dropped == exists b | b in content :: GivesWay(b, targets, signatures, rules)
  {
    hide GivesWay;
    filtered, dropped := [], false;
    var k := 0;
    while k < |content|
      invariant 0 <= k <= |content|
      invariant filtered == Kept(content[..k], targets, signatures, rules)
      invariant dropped == exists b | b in content[..k] :: GivesWay(b, targets, signatures, rules)
    {
      KeptSnoc(content, k, targets, signatures, rules);
      assert content[..k + 1] == content[..k] + [content[k]];
      if GivesWay(content[k], targets, signatures, rules) {
        dropped := true;
      } else {
        filtered := filtered + [content[k]];
      }
      k := k + 1;
    }
    assert content[..k] == content;
  }

  /** The loop that clears the request and finds the first message it takes something from. */
  method ClearMessages(messages: seq<Message>, targets: set<string>, signatures: set<string>, rules: Rules)
    returns (cleared: seq<Message>, replaceAt: Option<nat>)
    ensures cleared == Cleared(messages, targets, signatures, rules)
    ensures replaceAt == FirstCleared(messages, 0, targets, signatures, rules)
  {
    hide GivesWay, Kept;
    cleared, replaceAt := messages, None;
    var i := 0;
    while i < |messages|
      invariant 0 <= i <= |messages| == |cleared|
      invariant forall j | 0 <= j < i :: cleared[j] == Cleared(messages, targets, signatures, rules)[j]
      invariant forall j | i <= j < |messages| :: cleared[j] == messages[j]
      invariant FirstCleared(messages, 0, targets, signatures, rules)
        == if replaceAt.Some? then replaceAt else FirstCleared(messages, i, targets, signatures, rules)
    {
      var filtered, dropped := FilterContent(messages[i].content, targets, signatures, rules);
      if dropped && replaceAt == None {
        replaceAt := Some(i);
      }
      cleared := cleared[i := messages[i].(content := filtered)];
      i := i + 1;
    }
  }

  method FirstToolResultMessage(messages: seq<Message>, targets: set<string>, rules: Rules) returns (index: nat)
    ensures index == FirstResult(messages, 0, targets, rules)
  {
    hide IsResultOf;
    index := 0;
    while index < |messages|
      invariant 0 <= index <= |messages|
      invariant FirstResult(messages, 0, targets, rules) == FirstResult(messages, index, targets, rules)
    {
      if exists b | b in messages[index].content :: IsResultOf(b, targets, rules) {
        return;
      }
      index := index + 1;
    }
  }

  method MatchingReplayTextMessage(messages: seq<Message>, cached: Content, before: nat) returns (index: Option<nat>)
    requires before <= |messages|
    ensures index == MatchingText(messages, cached, before)
  {
    hide SharesText;
    var n := before;
    while n > 0
      invariant 0 <= n <= before
      invariant MatchingText(messages, cached, before) == MatchingText(messages, cached, n)
    {
      if SharesText(messages[n - 1], cached) {
        return Some(n - 1);
      }
      n := n - 1;
    }
    return None;
  }

  lemma {:induction false} ReplayedSnoc(cached: Content, k: nat, targets: set<string>, rules: Rules)
    requires k < |cached|
    ensures Replayed(cached[..k + 1], targets, rules)
      == Replayed(cached[..k], targets, rules) + if IsReplayed(cached[k], targets, rules) then [cached[k]] else []
  {
    hide IsReplayed;
    if k > 0 {
      ReplayedSnoc(cached[1..], k - 1, targets, rules);
      assert cached[..k + 1][1..] == cached[1..][..k];
      assert cached[..k][1..] == cached[1..][..k - 1];
    }
  }

  /** The loop over the remembered blocks. */
  method CollectReplay(messages: seq<Message>, cached: Content, targets: set<string>, rules: Rules)
    returns (replayed: Content, needsReplay: bool)
    ensures replayed == Replayed(cached, targets, rules)
    ensures needsReplay == NeedsReplay(messages, cached, targets, rules)
  {
    hide HasSignature, HasCall, IsReplayable, IsCallTo;
    replayed, needsReplay := [], false;
    var k := 0;
    while k < |cached|
      invariant 0 <= k <= |cached|
      invariant replayed == Replayed(cached[..k], targets, rules)
      invariant needsReplay == exists b | b in cached[..k] :: IsMissing(b, messages, targets, rules)
    {
      ReplayedSnoc(cached, k, targets, rules);
      assert cached[..k + 1] == cached[..k] + [cached[k]];
      if IsReplayed(cached[k], targets, rules) {
        needsReplay := needsReplay || IsMissing(cached[k], messages, targets, rules);
        replayed := replayed + [cached[k]];
      } else {
        OnlyReplayedIsMissing(cached[k], messages, targets, rules);
      }
      k := k + 1;
    }
    assert cached[..k] == cached;
  }

  lemma OnlyReplayedIsMissing(b: Block, messages: seq<Message>, targets: set<string>, rules: Rules)
    requires !IsReplayed(b, targets, rules)
    ensures !IsMissing(b, messages, targets, rules)
  {
    hide HasSignature, HasCall;
  }

  /** Apply, for a record that was found. */
  method Splice(messages: seq<Message>, cached: Content, rules: Rules) returns (result: seq<Message>, outcome: Outcome)
    ensures (result, outcome) == Apply(messages, cached, rules)
  {
    hide Targets, NeedsReplay, FirstResult, FirstCleared, MatchingText, Ordered, Cleared, Replayed, ReplaySignatures;
    var targets := Targets(messages, cached, rules);
    if targets == {} {
      return messages, Unmatched;
    }
    var replayed, needsReplay := CollectReplay(messages, cached, targets, rules);
    if !needsReplay {
      return messages, Matched;
    }
    var cleared, replaceAt := ClearMessages(messages, targets, ReplaySignatures(cached, rules), rules);
    var insertAt := FirstToolResultMessage(cleared, targets, rules);
    if replaceAt == None {
      replaceAt := MatchingReplayTextMessage(cleared, cached, insertAt);
    }
    if replaceAt.Some? && replaceAt.value < insertAt {
      var content := OrderedReplayContent(cached, targets, cleared[replaceAt.value].content, rules);
      result := cleared[replaceAt.value := cleared[replaceAt.value].(content := content)];
    } else {
      result := cleared[..insertAt] + [Message(true, replayed)] + cleared[insertAt..];
    }
    outcome := Applied;
  }
}
