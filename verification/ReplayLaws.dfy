/** What the splice of ReplayApply guarantees: nothing but the replaced blocks is lost, every
    replayed call occurs once and before its result, and a second application changes nothing. */
module ReplayLaws {
  import opened Text
  import opened ReplayApply

  // ----- conservation -----

  /** The blocks of a request that the splice takes out. */
  function Dropped(content: Content, targets: set<string>, signatures: set<string>, rules: Rules): Content {
    if content == [] then []
    else (if GivesWay(content[0], targets, signatures, rules) then [content[0]] else [])
         + Dropped(content[1..], targets, signatures, rules)
  }

  lemma {:induction false} KeptAndDropped(content: Content, targets: set<string>, signatures: set<string>, rules: Rules)
    ensures multiset(content) == multiset(Kept(content, targets, signatures, rules))
                                 + multiset(Dropped(content, targets, signatures, rules))
  {
    hide GivesWay;
    if content != [] {
      KeptAndDropped(content[1..], targets, signatures, rules);
      assert content == [content[0]] + content[1..];
    }
  }

  lemma KeptHead(content: Content, targets: set<string>, signatures: set<string>, rules: Rules)
    ensures content == [] ==> Kept(content, targets, signatures, rules) == []
    ensures content != [] ==>
      Kept(content, targets, signatures, rules)
      == (if GivesWay(content[0], targets, signatures, rules) then [] else [content[0]])
         + Kept(content[1..], targets, signatures, rules)
  {}

  lemma {:induction false} KeptAppend(a: Content, b: Content, targets: set<string>, signatures: set<string>, rules: Rules)
    ensures Kept(a + b, targets, signatures, rules) == Kept(a, targets, signatures, rules) + Kept(b, targets, signatures, rules)
  {
    hide GivesWay;
    if a == [] {
      assert a + b == b;
    } else {
      KeptAppend(a[1..], b, targets, signatures, rules);
      assert (a + b)[0] == a[0] && (a + b)[1..] == a[1..] + b;
      KeptHead(a + b, targets, signatures, rules);
      KeptHead(a, targets, signatures, rules);
      hide Kept;
      Regroup(if GivesWay(a[0], targets, signatures, rules) then [] else [a[0]],
              Kept(a[1..], targets, signatures, rules), Kept(b, targets, signatures, rules));
    }
  }

  lemma {:induction false} ClearedBlocks(messages: seq<Message>, targets: set<string>, signatures: set<string>, rules: Rules)
    ensures AllBlocks(Cleared(messages, targets, signatures, rules))
      == Kept(AllBlocks(messages), targets, signatures, rules)
  {
    hide Kept;
    if messages == [] {
      KeptHead([], targets, signatures, rules);
    } else {
      ClearedBlocks(messages[1..], targets, signatures, rules);
      KeptAppend(messages[0].content, AllBlocks(messages[1..]), targets, signatures, rules);
      assert Cleared(messages, targets, signatures, rules)[1..] == Cleared(messages[1..], targets, signatures, rules);
    }
  }

  lemma Regroup(a: Content, b: Content, c: Content)
    ensures a + (b + c) == a + b + c
  {}

  lemma AllBlocksHead(messages: seq<Message>)
    requires messages != []
    ensures AllBlocks(messages) == messages[0].content + AllBlocks(messages[1..])
  {}

  lemma {:induction false} AllBlocksAppend(a: seq<Message>, b: seq<Message>)
    ensures AllBlocks(a + b) == AllBlocks(a) + AllBlocks(b)
  {
    if a == [] {
      assert a + b == b;
    } else {
      AllBlocksAppend(a[1..], b);
      assert (a + b)[0] == a[0] && (a + b)[1..] == a[1..] + b;
      AllBlocksHead(a + b);
      AllBlocksHead(a);
      hide AllBlocks;
      Regroup(a[0].content, AllBlocks(a[1..]), AllBlocks(b));
    }
  }

  /** All blocks but those of message i. */
  lemma AllBlocksAround(messages: seq<Message>, i: nat)
    requires i < |messages|
    ensures AllBlocks(messages) == AllBlocks(messages[..i]) + messages[i].content + AllBlocks(messages[i + 1..])
  {
    AllBlocksAppend(messages[..i], messages[i..]);
    assert messages == messages[..i] + messages[i..];
    assert messages[i..][1..] == messages[i + 1..];
    assert AllBlocks(messages[i..]) == messages[i].content + AllBlocks(messages[i + 1..]);
    Regroup(AllBlocks(messages[..i]), messages[i].content, AllBlocks(messages[i + 1..]));
  }

  lemma WithoutOne(content: Content, b: Block)
    requires b in content
    ensures multiset(content) == multiset{b} + multiset(Without(content, IndexOf(content, b)))
  {
    SplitAt(content, IndexOf(content, b));
    hide IndexOf;
  }

  lemma SplitAt(content: Content, i: nat)
    requires i < |content|
    ensures multiset(content) == multiset{content[i]} + multiset(Without(content, i))
  {
    var before, after := content[..i], content[i + 1..];
    assert content == before + ([content[i]] + after);
    assert multiset([content[i]] + after) == multiset{content[i]} + multiset(after);
    assert multiset(before + ([content[i]] + after)) == multiset(before) + multiset([content[i]] + after);
  }

  lemma {:induction false} OrderedBlocks(cached: Content, targets: set<string>, existing: Content, rules: Rules)
    ensures multiset(Ordered(cached, targets, existing, rules))
      == multiset(existing) + multiset(Replayed(cached, targets, rules))
    decreases |cached|
  {
    hide IsReplayable, Without;
    if cached != [] {
      var b := cached[0];
      if b.TextBlock? && b in existing {
        WithoutOne(existing, b);
        OrderedBlocks(cached[1..], targets, Without(existing, IndexOf(existing, b)), rules);
        TextIsNotReplayed(b, targets, rules);
      } else {
        OrderedBlocks(cached[1..], targets, existing, rules);
      }
    }
  }

  /** The splice replaces the blocks that give way by the remembered ones and loses nothing else. */
  lemma SpliceConserves(messages: seq<Message>, cached: Content, targets: set<string>, rules: Rules)
    ensures var signatures := ReplaySignatures(cached, rules);
      multiset(AllBlocks(Spliced(messages, cached, targets, rules)))
        + multiset(Dropped(AllBlocks(messages), targets, signatures, rules))
      == multiset(AllBlocks(messages)) + multiset(Replayed(cached, targets, rules))
  {
    SplicedBlocks(messages, cached, targets, rules);
    KeptAndDropped(AllBlocks(messages), targets, ReplaySignatures(cached, rules), rules);
  }

  lemma SplicedBlocks(messages: seq<Message>, cached: Content, targets: set<string>, rules: Rules)
    ensures multiset(AllBlocks(Spliced(messages, cached, targets, rules)))
      == multiset(Kept(AllBlocks(messages), targets, ReplaySignatures(cached, rules), rules))
         + multiset(Replayed(cached, targets, rules))
  {
    hide Kept, Replayed, Ordered, ReplaySignatures, Cleared, AllBlocks, FirstResult, FirstCleared, MatchingText;
    var signatures := ReplaySignatures(cached, rules);
    var cleared := Cleared(messages, targets, signatures, rules);
    ClearedBlocks(messages, targets, signatures, rules);
    var insertAt := FirstResult(cleared, 0, targets, rules);
    var first := FirstCleared(messages, 0, targets, signatures, rules);
    var replaceAt := if first.Some? then first else MatchingText(cleared, cached, insertAt);
    if replaceAt.Some? && replaceAt.value < insertAt {
      OrderedInside(cleared, replaceAt.value, cached, targets, rules);
    } else {
      InsertedBlocks(cleared, insertAt, Message(true, Replayed(cached, targets, rules)));
    }
  }

  lemma OrderedInside(cleared: seq<Message>, i: nat, cached: Content, targets: set<string>, rules: Rules)
    requires i < |cleared|
    ensures var m := cleared[i];
      multiset(AllBlocks(cleared[i := m.(content := Ordered(cached, targets, m.content, rules))]))
      == multiset(AllBlocks(cleared)) + multiset(Replayed(cached, targets, rules))
  {
    hide Ordered, Replayed, AllBlocks;
    var m := cleared[i];
    var after := cleared[i := m.(content := Ordered(cached, targets, m.content, rules))];
    OrderedBlocks(cached, targets, m.content, rules);
    AllBlocksAround(cleared, i);
    AllBlocksAround(after, i);
    assert after[..i] == cleared[..i] && after[i + 1..] == cleared[i + 1..];
  }

  lemma InsertedBlocks(messages: seq<Message>, at: nat, m: Message)
    requires at <= |messages|
    ensures multiset(AllBlocks(Insert(messages, at, m))) == multiset(AllBlocks(messages)) + multiset(m.content)
  {
    AllBlocksAppend(messages[..at] + [m], messages[at..]);
    AllBlocksAppend(messages[..at], [m]);
    AllBlocksAppend(messages[..at], messages[at..]);
    assert messages == messages[..at] + messages[at..];
    assert AllBlocks([m]) == m.content + AllBlocks([m][1..]) == m.content;
  }

  // ----- once, and before the result -----

  /** How often a call occurs. */
  function Calls(content: Content, id: string, rules: Rules): nat {
    if content == [] then 0
    else (if IsCallTo(content[0], {id}, rules) then 1 else 0) + Calls(content[1..], id, rules)
  }

  lemma {:induction false} CallsAppend(a: Content, b: Content, id: string, rules: Rules)
    ensures Calls(a + b, id, rules) == Calls(a, id, rules) + Calls(b, id, rules)
  {
    if a == [] {
      assert a + b == b;
    } else {
      CallsAppend(a[1..], b, id, rules);
      assert (a + b)[0] == a[0] && (a + b)[1..] == a[1..] + b;
    }
  }

  lemma {:induction false} SameCalls(a: Content, b: Content, id: string, rules: Rules)
    requires multiset(a) == multiset(b)
    ensures Calls(a, id, rules) == Calls(b, id, rules)
    decreases |a|
  {
    if a == [] {
      assert |multiset(a)| == 0 && |multiset(b)| == |b|;
    } else {
      assert a[0] in multiset(b);
      var i := IndexOf(b, a[0]);
      var rest := Without(b, i);
      WithoutOne(b, a[0]);
      TailMultiset(a);
      hide Without, IndexOf;
      assert multiset(a[1..]) == multiset(a) - multiset{a[0]} == multiset(rest);
      SameCalls(a[1..], rest, id, rules);
      CallsWithout(b, i, id, rules);
    }
  }

  lemma TailMultiset(a: Content)
    requires a != []
    ensures multiset(a[1..]) == multiset(a) - multiset{a[0]}
  {
    assert a == [a[0]] + a[1..];
  }

  lemma CallsWithout(b: Content, i: nat, id: string, rules: Rules)
    requires i < |b|
    ensures Calls(b, id, rules) == (if IsCallTo(b[i], {id}, rules) then 1 else 0) + Calls(Without(b, i), id, rules)
  {
    assert b == b[..i] + b[i..];
    CallsAppend(b[..i], b[i..], id, rules);
    CallsAppend(b[..i], b[i + 1..], id, rules);
    assert b[i..][1..] == b[i + 1..];
  }

  lemma {:induction false} NoCallKept(content: Content, targets: set<string>, signatures: set<string>, id: string, rules: Rules)
    requires id in targets
    ensures Calls(Kept(content, targets, signatures, rules), id, rules) == 0
  {
    if content != [] {
      NoCallKept(content[1..], targets, signatures, id, rules);
      CallsAppend(if GivesWay(content[0], targets, signatures, rules) then [] else [content[0]],
                  Kept(content[1..], targets, signatures, rules), id, rules);
    }
  }

  /** The remembered calls have ids of their own. */
  predicate DistinctCalls(cached: Content, rules: Rules) {
    forall i, j | 0 <= i < j < |cached| && cached[i].ToolUse? && cached[j].ToolUse? ::
      rules.shorten(cached[i].id) != rules.shorten(cached[j].id)
  }

  lemma {:induction false} CallsReplayed(cached: Content, targets: set<string>, id: string, rules: Rules)
    requires id in targets
    ensures Calls(Replayed(cached, targets, rules), id, rules) == Calls(cached, id, rules)
  {
    hide IsReplayable;
    if cached != [] {
      CallsReplayed(cached[1..], targets, id, rules);
      CallsAppend(if IsReplayed(cached[0], targets, rules) then [cached[0]] else [],
                  Replayed(cached[1..], targets, rules), id, rules);
    }
  }

  lemma {:induction false} CachedOnce(cached: Content, id: string, rules: Rules)
    requires DistinctCalls(cached, rules)
    ensures Calls(cached, id, rules) == if id in CachedCalls(cached, rules) then 1 else 0
  {
    if cached != [] {
      assert forall i | 0 <= i < |cached[1..]| :: cached[1..][i] == cached[i + 1];
      CachedOnce(cached[1..], id, rules);
      assert forall b | b in cached :: b == cached[0] || b in cached[1..];
      assert forall b | b in cached[1..] :: b in cached;
      if IsCallTo(cached[0], {id}, rules) {
        assert id !in CachedCalls(cached[1..], rules) by {
          forall b | b in cached[1..] && b.ToolUse? ensures rules.shorten(b.id) != id {
            var j :| 0 <= j < |cached[1..]| && cached[1..][j] == b;
            assert cached[j + 1] == b;
          }
        }
      }
    }
  }

  lemma TargetsAreCached(messages: seq<Message>, cached: Content, rules: Rules)
    ensures Targets(messages, cached, rules) <= CachedCalls(cached, rules)
  {
    hide CachedCalls;
  }

  /** Every call that is replayed occurs exactly once afterwards. */
  lemma EachCallOnce(messages: seq<Message>, cached: Content, id: string, rules: Rules)
    requires DistinctCalls(cached, rules) && id in Targets(messages, cached, rules)
    ensures Calls(AllBlocks(Spliced(messages, cached, Targets(messages, cached, rules), rules)), id, rules) == 1
  {
    hide Spliced, Kept, Replayed, Targets, CachedCalls, AllBlocks, ReplaySignatures, DistinctCalls;
    var targets, signatures := Targets(messages, cached, rules), ReplaySignatures(cached, rules);
    var kept, replayed := Kept(AllBlocks(messages), targets, signatures, rules), Replayed(cached, targets, rules);
    SplicedBlocks(messages, cached, targets, rules);
    SameCalls(AllBlocks(Spliced(messages, cached, targets, rules)), kept + replayed, id, rules);
    CallsAppend(kept, replayed, id, rules);
    NoCallKept(AllBlocks(messages), targets, signatures, id, rules);
    CallsReplayed(cached, targets, id, rules);
    CachedOnce(cached, id, rules);
    TargetsAreCached(messages, cached, rules);
  }

  lemma {:induction false} KeptMembers(content: Content, targets: set<string>, signatures: set<string>, rules: Rules)
    ensures forall b :: b in Kept(content, targets, signatures, rules) <==> b in content && !GivesWay(b, targets, signatures, rules)
  {
    hide GivesWay;
    if content != [] {
      KeptMembers(content[1..], targets, signatures, rules);
      assert content == [content[0]] + content[1..];
    }
  }

  lemma {:induction false} ReplayedMembers(cached: Content, targets: set<string>, rules: Rules)
    ensures forall b :: b in Replayed(cached, targets, rules) <==> b in cached && IsReplayed(b, targets, rules)
  {
    hide IsReplayed;
    if cached != [] {
      ReplayedMembers(cached[1..], targets, rules);
      assert cached == [cached[0]] + cached[1..];
    }
  }

  lemma OrderedMembers(cached: Content, targets: set<string>, existing: Content, rules: Rules)
    ensures forall b :: (b in Ordered(cached, targets, existing, rules)
                         <==> b in existing || (b in cached && IsReplayed(b, targets, rules)))
  {
    OrderedBlocks(cached, targets, existing, rules);
    ReplayedMembers(cached, targets, rules);
    hide Ordered, Replayed, IsReplayed;
    var o, r := Ordered(cached, targets, existing, rules), Replayed(cached, targets, rules);
    forall b ensures b in o <==> b in existing || b in r {
      assert b in multiset(o) <==> b in multiset(existing) || b in multiset(r);
    }
  }

  /** The splice put the turn into message `at`: it stands before the first result, or in front of the
      message with it, and the other messages are as they were. */
  ghost predicate SplicedAt(
    after: seq<Message>, cleared: seq<Message>, insertAt: nat, at: nat, targets: set<string>, rules: Rules)
  {
    && at < |after| && at <= insertAt <= |cleared|
    && (if at < insertAt then
          |after| == |cleared| && forall j | 0 <= j < |after| && j != at :: after[j] == cleared[j]
        else
          |after| == |cleared| + 1 && forall j | 0 <= j < |after| && j != at :: after[j] == cleared[if j < at then j else j - 1])
    && (forall b | b in after[at].content :: IsReplayed(b, targets, rules) || (at < insertAt && b in cleared[at].content))
  }

  /** What each message of the spliced request can contain. */
  lemma SplicedMessages(messages: seq<Message>, cached: Content, targets: set<string>, rules: Rules) returns (at: nat)
    ensures var cleared := Cleared(messages, targets, ReplaySignatures(cached, rules), rules);
      SplicedAt(Spliced(messages, cached, targets, rules), cleared, FirstResult(cleared, 0, targets, rules), at, targets, rules)
  {
    hide Ordered, ReplaySignatures, Cleared, FirstResult, FirstCleared, MatchingText, Replayed, IsReplayed;
    var signatures := ReplaySignatures(cached, rules);
    var cleared := Cleared(messages, targets, signatures, rules);
    var insertAt := FirstResult(cleared, 0, targets, rules);
    var first := FirstCleared(messages, 0, targets, signatures, rules);
    var replaceAt := if first.Some? then first else MatchingText(cleared, cached, insertAt);
    var after := Spliced(messages, cached, targets, rules);
    if replaceAt.Some? && replaceAt.value < insertAt {
      at := replaceAt.value;
      OrderedMembers(cached, targets, cleared[at].content, rules);
      assert after[at].content == Ordered(cached, targets, cleared[at].content, rules);
    } else {
      at := insertAt;
      ReplayedMembers(cached, targets, rules);
      assert after[at] == Message(true, Replayed(cached, targets, rules));
    }
  }

  /** Every replayed call stands in a message before the first of the results. */
  lemma CallsBeforeResults(messages: seq<Message>, cached: Content, targets: set<string>, rules: Rules)
    ensures var after := Spliced(messages, cached, targets, rules);
      forall j, b | 0 <= j < |after| && b in after[j].content && IsCallTo(b, targets, rules) ::
        j < FirstResult(after, 0, targets, rules)
  {
    hide *;
    var signatures := ReplaySignatures(cached, rules);
    var cleared := Cleared(messages, targets, signatures, rules);
    var insertAt := FirstResult(cleared, 0, targets, rules);
    var after := Spliced(messages, cached, targets, rules);
    var at := SplicedMessages(messages, cached, targets, rules);
    ClearedHasNoCalls(messages, targets, signatures, rules);
    OnlyCallsAt(after, cleared, insertAt, at, targets, rules);
    NoResultUpTo(after, cleared, at, insertAt, targets, rules);
  }

  lemma OnlyCallsAt(
    after: seq<Message>, cleared: seq<Message>, insertAt: nat, at: nat, targets: set<string>, rules: Rules)
    requires SplicedAt(after, cleared, insertAt, at, targets, rules)
    requires forall j, b | 0 <= j < |cleared| && b in cleared[j].content :: !IsCallTo(b, targets, rules)
    ensures forall j, b | 0 <= j < |after| && b in after[j].content && IsCallTo(b, targets, rules) :: j == at
    ensures at < |after|
  {
    hide IsReplayed, IsCallTo;
    forall j | 0 <= j < |after| && j != at
      ensures forall b | b in after[j].content :: !IsCallTo(b, targets, rules)
    {
      var k := if at < insertAt || j < at then j else j - 1;
      assert after[j] == cleared[k];
    }
  }

  lemma ReplayedIsNoResult(targets: set<string>, rules: Rules)
    ensures forall b :: IsReplayed(b, targets, rules) ==> !IsResultOf(b, targets, rules)
  {}

  lemma ClearedHasNoCalls(messages: seq<Message>, targets: set<string>, signatures: set<string>, rules: Rules)
    ensures var cleared := Cleared(messages, targets, signatures, rules);
      forall j, b | 0 <= j < |cleared| && b in cleared[j].content :: !IsCallTo(b, targets, rules)
  {
    hide Kept;
    var cleared := Cleared(messages, targets, signatures, rules);
    forall j, b | 0 <= j < |cleared| && b in cleared[j].content ensures !IsCallTo(b, targets, rules) {
      KeptMembers(messages[j].content, targets, signatures, rules);
      assert b in Kept(messages[j].content, targets, signatures, rules);
    }
  }

  lemma NoResultUpTo(
    after: seq<Message>, cleared: seq<Message>, at: nat, insertAt: nat, targets: set<string>, rules: Rules)
    requires SplicedAt(after, cleared, insertAt, at, targets, rules) && insertAt == FirstResult(cleared, 0, targets, rules)
    ensures at < FirstResult(after, 0, targets, rules)
  {
    ReplayedIsNoResult(targets, rules);
    hide IsResultOf, IsReplayed;
    forall j | 0 <= j <= at ensures forall b | b in after[j].content :: !IsResultOf(b, targets, rules) {
      assert j < at ==> after[j] == cleared[j];
    }
  }

  // ----- a second application -----

  lemma {:induction false} BlocksOf(messages: seq<Message>)
    ensures forall b :: b in AllBlocks(messages) <==> exists m :: m in messages && b in m.content
  {
    if messages != [] {
      BlocksOf(messages[1..]);
      assert messages == [messages[0]] + messages[1..];
    }
  }

  /** The splice takes out no results and adds none. */
  lemma ResultsStay(messages: seq<Message>, cached: Content, targets: set<string>, rules: Rules)
    ensures forall b: Block | b.ToolResult? :: b in AllBlocks(Spliced(messages, cached, targets, rules)) <==> b in AllBlocks(messages)
    ensures forall b | b in Replayed(cached, targets, rules) :: b in AllBlocks(Spliced(messages, cached, targets, rules))
  {
    var signatures := ReplaySignatures(cached, rules);
    SplicedBlocks(messages, cached, targets, rules);
    KeptMembers(AllBlocks(messages), targets, signatures, rules);
    ReplayedMembers(cached, targets, rules);
    ResultsKeepOut(targets, signatures, rules);
    hide Spliced, Kept, Replayed, IsReplayed, GivesWay, ReplaySignatures, AllBlocks;
    var after := AllBlocks(Spliced(messages, cached, targets, rules));
    var kept, replayed := Kept(AllBlocks(messages), targets, signatures, rules), Replayed(cached, targets, rules);
    forall b ensures b in after <==> b in kept || b in replayed {
      assert b in multiset(after) <==> b in multiset(kept) || b in multiset(replayed);
    }
  }

  lemma ResultsKeepOut(targets: set<string>, signatures: set<string>, rules: Rules)
    ensures forall b: Block | b.ToolResult? :: !GivesWay(b, targets, signatures, rules) && !IsReplayed(b, targets, rules)
  {}

  /** Targets looks at the results in the request only. */
  lemma TargetsFromResults(messages: seq<Message>, cached: Content, rules: Rules)
    ensures Targets(messages, cached, rules)
      == set b | b in AllBlocks(messages) && b.ToolResult? && rules.shorten(b.toolUseID) in CachedCalls(cached, rules) ::
           rules.shorten(b.toolUseID)
  {
    hide CachedCalls, AllBlocks;
    BlocksOf(messages);
  }

  lemma SameTargets(messages: seq<Message>, after: seq<Message>, cached: Content, rules: Rules)
    requires forall b: Block | b.ToolResult? :: b in AllBlocks(after) <==> b in AllBlocks(messages)
    ensures Targets(after, cached, rules) == Targets(messages, cached, rules)
  {
    TargetsFromResults(messages, cached, rules);
    TargetsFromResults(after, cached, rules);
    hide CachedCalls, AllBlocks, Targets;
  }

  /** Once everything to replay is there, nothing is missing. */
  lemma NothingMissing(after: seq<Message>, cached: Content, targets: set<string>, rules: Rules)
    requires forall b | b in Replayed(cached, targets, rules) :: b in AllBlocks(after)
    ensures !NeedsReplay(after, cached, targets, rules)
  {
    ReplayedMembers(cached, targets, rules);
    BlocksOf(after);
    hide Replayed, AllBlocks;
    forall b | b in cached ensures !IsMissing(b, after, targets, rules) {
      if IsReplayed(b, targets, rules) {
        assert b in AllBlocks(after);
        var m :| m in after && b in m.content;
        if IsReplayable(b, rules) { assert HasSignature(after, SignatureOf(b), rules); }
        if IsCallTo(b, targets, rules) { assert HasCall(after, rules.shorten(b.id), rules); }
      }
    }
  }

  /** Applying the same record again changes nothing. */
  lemma ApplyIsIdempotent(messages: seq<Message>, cached: Content, rules: Rules)
    ensures var (once, outcome) := Apply(messages, cached, rules);
      Apply(once, cached, rules) == (once, if outcome == Applied then Matched else outcome)
  {
    hide Spliced, Targets, NeedsReplay, AllBlocks, Replayed;
    var targets := Targets(messages, cached, rules);
    if targets != {} && NeedsReplay(messages, cached, targets, rules) {
      var after := Spliced(messages, cached, targets, rules);
      ResultsStay(messages, cached, targets, rules);
      SameTargets(messages, after, cached, rules);
      NothingMissing(after, cached, targets, rules);
    }
  }

  /** What a block is signed with: its signature, or its data when that is blank. */
  lemma SignedWith(b: Block)
    requires b.Thinking? || b.Redacted?
    ensures SignatureOf(b) == TrimSpace(if !Blank(b.signature) then b.signature else if !Blank(b.data) then b.data else "")
  {
    hide TrimSpace, Blank;
    assert [b.signature, b.data][1..] == [b.data] && [b.data][1..] == [];
  }

  lemma ReasoningGivesWay(b: Block, targets: set<string>, signatures: set<string>, rules: Rules)
    requires (b.Thinking? || b.Redacted?) && SignatureOf(b) in signatures
    ensures GivesWay(b, targets, signatures, rules)
  {}

  /** Reasoning of the remembered turn comes from there only: whatever the request carried under one of
      its signatures, hidden or not, is gone. */
  lemma ReasoningFromTurn(messages: seq<Message>, cached: Content, targets: set<string>, b: Block, rules: Rules)
    requires b in AllBlocks(Spliced(messages, cached, targets, rules))
    requires (b.Thinking? || b.Redacted?) && SignatureOf(b) in ReplaySignatures(cached, rules)
    ensures b in cached && IsReplayable(b, rules)
  {
    hide *;
    var signatures := ReplaySignatures(cached, rules);
    var kept, replayed := Kept(AllBlocks(messages), targets, signatures, rules), Replayed(cached, targets, rules);
    SplicedBlocks(messages, cached, targets, rules);
    assert b in multiset(AllBlocks(Spliced(messages, cached, targets, rules)));
    assert b in kept || b in replayed;
    KeptMembers(AllBlocks(messages), targets, signatures, rules);
    ReasoningGivesWay(b, targets, signatures, rules);
    ReplayedMembers(cached, targets, rules);
    ReplayedReasoning(b, targets, rules);
  }

  lemma ReplayedReasoning(b: Block, targets: set<string>, rules: Rules)
    requires IsReplayed(b, targets, rules) && !b.ToolUse?
    ensures IsReplayable(b, rules)
  {}
}
