/** Where the splice of internal/anthropic/replay.go puts the remembered turn, under which role, and in
    what order. */
module ReplayPlaces {
  import opened Text
  import opened ReplayApply
  import opened ReplayLaws

  // ----- order -----

  predicate Subsequence(a: Content, b: Content)
    decreases |b|
  {
    a == [] || (b != [] && (if a[0] == b[0] then Subsequence(a[1..], b[1..]) else Subsequence(a, b[1..])))
  }

  lemma {:induction false} SubsequenceItself(a: Content)
    ensures Subsequence(a, a)
  {
    if a != [] { SubsequenceItself(a[1..]); }
  }

  /** One more in front of the longer list makes no difference. */
  lemma {:induction false} SubsequenceCons(a: Content, b: Content, x: Block)
    requires Subsequence(a, b)
    ensures Subsequence(a, [x] + b)
    decreases |b|, 1
  {
    assert ([x] + b)[1..] == b;
    if a != [] && a[0] == x { SubsequenceTail(a, b); }
  }

  lemma {:induction false} SubsequenceTail(a: Content, b: Content)
    requires a != [] && Subsequence(a, b)
    ensures Subsequence(a[1..], b)
    decreases |b|, 0
  {
    if a[0] == b[0] {
      assert b == [b[0]] + b[1..];
      SubsequenceCons(a[1..], b[1..], b[0]);
    } else {
      SubsequenceTail(a, b[1..]);
      assert b == [b[0]] + b[1..];
      SubsequenceCons(a[1..], b[1..], b[0]);
    }
  }

  lemma {:induction false} SubsequenceWithout(a: Content, b: Content, i: nat)
    requires i < |b| && Subsequence(a, Without(b, i))
    ensures Subsequence(a, b)
    decreases |b|
  {
    assert b == [b[0]] + b[1..];
    if i == 0 {
      assert Without(b, 0) == b[1..];
      SubsequenceCons(a, b[1..], b[0]);
    } else if a != [] {
      assert Without(b, i) == [b[0]] + Without(b[1..], i - 1);
      assert Without(b, i)[1..] == Without(b[1..], i - 1);
      if a[0] == b[0] {
        SubsequenceWithout(a[1..], b[1..], i - 1);
      } else {
        SubsequenceWithout(a, b[1..], i - 1);
      }
    }
  }

  function Least(a: nat, b: nat): nat {
    if a < b then a else b
  }

  /** Of each text as many as both had, and of other blocks all that are put back. */
  ghost predicate Counted(head: Content, cached: Content, targets: set<string>, existing: Content, rules: Rules) {
    forall b :: multiset(head)[b]
      == if b.TextBlock? then Least(multiset(cached)[b], multiset(existing)[b]) else multiset(Replayed(cached, targets, rules))[b]
  }

  /** The ordered turn is a part of what was remembered, in its order, followed by a part of what was
      there, in its order: of each text the first part has as many as both had, and it has all that is
      put back. */
  ghost predicate InOrder(ordered: Content, n: nat, cached: Content, targets: set<string>, existing: Content, rules: Rules) {
    && n <= |ordered| && Subsequence(ordered[..n], cached) && Subsequence(ordered[n..], existing)
    && Counted(ordered[..n], cached, targets, existing, rules)
  }

  lemma HeadCount(a: Content, x: Block, b: Block)
    ensures multiset([x] + a)[b] == multiset(a)[b] + if b == x then 1 else 0
  {}

  lemma CountText(head: Content, b: Block, rest: Content, targets: set<string>, existing: Content, rules: Rules)
    requires b.TextBlock? && b in existing && Counted(head, rest, targets, Without(existing, IndexOf(existing, b)), rules)
    ensures Counted([b] + head, [b] + rest, targets, existing, rules)
  {
    WithoutOne(existing, b);
    TextIsNotReplayed(b, targets, rules);
    assert ([b] + rest)[1..] == rest;
    assert Replayed([b] + rest, targets, rules) == Replayed(rest, targets, rules);
    hide Replayed, Without, IndexOf;
    forall x ensures multiset([b] + head)[x]
      == if x.TextBlock? then Least(multiset([b] + rest)[x], multiset(existing)[x]) else multiset(Replayed(rest, targets, rules))[x]
    {
      HeadCount(head, b, x);
      HeadCount(rest, b, x);
    }
  }

  lemma CountReplayed(head: Content, b: Block, rest: Content, targets: set<string>, existing: Content, rules: Rules)
    requires IsReplayed(b, targets, rules) && Counted(head, rest, targets, existing, rules)
    ensures Counted([b] + head, [b] + rest, targets, existing, rules)
  {
    assert !b.TextBlock? by { if b.TextBlock? { TextIsNotReplayed(b, targets, rules); } }
    assert ([b] + rest)[1..] == rest;
    assert Replayed([b] + rest, targets, rules) == [b] + Replayed(rest, targets, rules);
    hide Replayed, IsReplayed;
    forall x ensures multiset([b] + head)[x]
      == if x.TextBlock? then Least(multiset([b] + rest)[x], multiset(existing)[x])
         else multiset([b] + Replayed(rest, targets, rules))[x]
    {
      HeadCount(head, b, x);
      HeadCount(rest, b, x);
      HeadCount(Replayed(rest, targets, rules), b, x);
    }
  }

  lemma CountSkipped(head: Content, b: Block, rest: Content, targets: set<string>, existing: Content, rules: Rules)
    requires !IsReplayed(b, targets, rules) && (b.TextBlock? ==> b !in existing) && Counted(head, rest, targets, existing, rules)
    ensures Counted(head, [b] + rest, targets, existing, rules)
  {
    assert ([b] + rest)[1..] == rest;
    assert Replayed([b] + rest, targets, rules) == Replayed(rest, targets, rules);
    hide Replayed, IsReplayed;
    forall x ensures multiset(head)[x]
      == if x.TextBlock? then Least(multiset([b] + rest)[x], multiset(existing)[x]) else multiset(Replayed(rest, targets, rules))[x]
    {
      HeadCount(rest, b, x);
    }
  }

  lemma OneMore(o: Content, p: Content, m: nat, b: Block, rest: Content)
    requires o == [b] + p && m <= |p| && Subsequence(p[..m], rest)
    ensures o[..m + 1] == [b] + p[..m] && o[m + 1..] == p[m..]
    ensures Subsequence(o[..m + 1], [b] + rest)
  {
    var q := [b] + p[..m];
    assert q[0] == b && q[1..] == p[..m];
    assert ([b] + rest)[0] == b && ([b] + rest)[1..] == rest;
  }

  lemma {:induction false} OrderedInOrder(cached: Content, targets: set<string>, existing: Content, rules: Rules) returns (n: nat)
    ensures InOrder(Ordered(cached, targets, existing, rules), n, cached, targets, existing, rules)
    decreases |cached|
  {
    var o := Ordered(cached, targets, existing, rules);
    if cached == [] {
      n := 0;
      SubsequenceItself(existing);
      assert o[0..] == existing && o[..0] == [];
    } else {
      var b, rest := cached[0], cached[1..];
      assert cached == [b] + rest;
      hide IsReplayed, Without, Subsequence, Counted;
      if b.TextBlock? && b in existing {
        var i := IndexOf(existing, b);
        var less := Without(existing, i);
        var p := Ordered(rest, targets, less, rules);
        var m := OrderedInOrder(rest, targets, less, rules);
        n := m + 1;
        OneMore(o, p, m, b, rest);
        SubsequenceWithout(o[n..], existing, i);
        CountText(p[..m], b, rest, targets, existing, rules);
      } else {
        var p := Ordered(rest, targets, existing, rules);
        var m := OrderedInOrder(rest, targets, existing, rules);
        if IsReplayed(b, targets, rules) {
          n := m + 1;
          OneMore(o, p, m, b, rest);
          CountReplayed(p[..m], b, rest, targets, existing, rules);
        } else {
          n := m;
          SubsequenceCons(o[..n], rest, b);
          CountSkipped(p[..m], b, rest, targets, existing, rules);
        }
      }
    }
  }

  lemma {:induction false} KeptInOrder(content: Content, targets: set<string>, signatures: set<string>, rules: Rules)
    ensures Subsequence(Kept(content, targets, signatures, rules), content)
  {
    hide GivesWay;
    if content != [] {
      KeptInOrder(content[1..], targets, signatures, rules);
      var rest := Kept(content[1..], targets, signatures, rules);
      assert content == [content[0]] + content[1..];
      SubsequenceCons(rest, content[1..], content[0]);
      assert ([content[0]] + rest)[1..] == rest;
      assert Kept(content, targets, signatures, rules)
        == if GivesWay(content[0], targets, signatures, rules) then rest else [content[0]] + rest;
    }
  }

  // ----- place -----

  predicate HasWay(m: Message, targets: set<string>, signatures: set<string>, rules: Rules) {
    exists b | b in m.content :: GivesWay(b, targets, signatures, rules)
  }

  predicate HasResult(m: Message, targets: set<string>, rules: Rules) {
    exists b | b in m.content :: IsResultOf(b, targets, rules)
  }

  /** The turn replaces what gives way, in the first message that has any, or joins the last answer that
      shares a text with it; both before the first of the results. */
  ghost predicate PlaceToJoin(messages: seq<Message>, cached: Content, at: nat, results: nat, targets: set<string>, signatures: set<string>, rules: Rules)
    requires results <= |messages|
  {
    && at < results
    && (if HasWay(messages[at], targets, signatures, rules) then
          forall j | 0 <= j < at :: !HasWay(messages[j], targets, signatures, rules)
        else
          && (forall j | 0 <= j < |messages| :: !HasWay(messages[j], targets, signatures, rules))
          && SharesText(messages[at], cached) && forall j | at < j < results :: !SharesText(messages[j], cached))
  }

  /** Nothing before the results can be joined. */
  ghost predicate NoneToJoin(messages: seq<Message>, cached: Content, results: nat, targets: set<string>, signatures: set<string>, rules: Rules)
    requires results <= |messages|
  {
    && (forall j | 0 <= j < results :: !HasWay(messages[j], targets, signatures, rules))
    && ((forall j | 0 <= j < |messages| :: !HasWay(messages[j], targets, signatures, rules)) ==>
          forall j | 0 <= j < results :: !SharesText(messages[j], cached))
  }

  /** The message that holds the first of the results, or the length of the request. */
  ghost predicate FirstWithResult(messages: seq<Message>, results: nat, targets: set<string>, rules: Rules) {
    && results <= |messages| && (results < |messages| ==> HasResult(messages[results], targets, rules))
    && forall j | 0 <= j < results :: !HasResult(messages[j], targets, rules)
  }

  lemma ResultsKept(m: Message, targets: set<string>, signatures: set<string>, rules: Rules)
    ensures HasResult(m.(content := Kept(m.content, targets, signatures, rules)), targets, rules) <==> HasResult(m, targets, rules)
  {
    KeptMembers(m.content, targets, signatures, rules);
    hide Kept;
  }

  lemma ResultsFrom(messages: seq<Message>, i: nat, targets: set<string>, rules: Rules)
    requires i <= |messages|
    ensures var r := FirstResult(messages, i, targets, rules);
      (r < |messages| ==> HasResult(messages[r], targets, rules)) && forall j | i <= j < r :: !HasResult(messages[j], targets, rules)
  {
    hide IsResultOf;
  }

  lemma ResultsOf(messages: seq<Message>, targets: set<string>, signatures: set<string>, rules: Rules)
    ensures FirstWithResult(messages, FirstResult(Cleared(messages, targets, signatures, rules), 0, targets, rules), targets, rules)
  {
    var cleared := Cleared(messages, targets, signatures, rules);
    ResultsFrom(cleared, 0, targets, rules);
    forall j | 0 <= j < |messages| ensures HasResult(cleared[j], targets, rules) <==> HasResult(messages[j], targets, rules) {
      ResultsKept(messages[j], targets, signatures, rules);
    }
    hide HasResult, FirstResult, Kept;
  }

  lemma {:induction false} WayFrom(messages: seq<Message>, i: nat, targets: set<string>, signatures: set<string>, rules: Rules)
    requires i <= |messages|
    ensures match FirstCleared(messages, i, targets, signatures, rules)
      case None => forall j | i <= j < |messages| :: !HasWay(messages[j], targets, signatures, rules)
      case Some(r) => HasWay(messages[r], targets, signatures, rules) && forall j | i <= j < r :: !HasWay(messages[j], targets, signatures, rules)
    decreases |messages| - i
  {
    hide GivesWay;
    if i < |messages| && !HasWay(messages[i], targets, signatures, rules) { WayFrom(messages, i + 1, targets, signatures, rules); }
  }

  lemma {:induction false} MatchesFrom(messages: seq<Message>, cached: Content, before: nat)
    requires before <= |messages|
    ensures match MatchingText(messages, cached, before)
      case None => forall j | 0 <= j < before :: !SharesText(messages[j], cached)
      case Some(r) => SharesText(messages[r], cached) && forall j | r < j < before :: !SharesText(messages[j], cached)
  {
    hide SharesText;
    if before > 0 && !SharesText(messages[before - 1], cached) { MatchesFrom(messages, cached, before - 1); }
  }

  lemma {:induction false} KeptWhole(content: Content, targets: set<string>, signatures: set<string>, rules: Rules)
    requires forall b | b in content :: !GivesWay(b, targets, signatures, rules)
    ensures Kept(content, targets, signatures, rules) == content
  {
    hide GivesWay;
    if content != [] {
      assert forall b | b in content[1..] :: b in content;
      KeptWhole(content[1..], targets, signatures, rules);
    }
  }

  lemma NothingCleared(messages: seq<Message>, targets: set<string>, signatures: set<string>, rules: Rules)
    requires forall j | 0 <= j < |messages| :: !HasWay(messages[j], targets, signatures, rules)
    ensures Cleared(messages, targets, signatures, rules) == messages
  {
    hide GivesWay, Kept;
    var cleared := Cleared(messages, targets, signatures, rules);
    forall j | 0 <= j < |messages| ensures cleared[j] == messages[j] {
      assert !HasWay(messages[j], targets, signatures, rules);
      KeptWhole(messages[j].content, targets, signatures, rules);
    }
  }

  /** The turn joins the message at `at`, in its order. */
  ghost predicate Joined(messages: seq<Message>, after: seq<Message>, cached: Content, at: nat, results: nat, targets: set<string>, rules: Rules)
  {
    var signatures := ReplaySignatures(cached, rules);
    var cleared := Cleared(messages, targets, signatures, rules);
    && results <= |messages| && |after| == |messages| && PlaceToJoin(messages, cached, at, results, targets, signatures, rules)
    && (forall j | 0 <= j < |after| && j != at :: after[j] == cleared[j]) && after[at].assistant == messages[at].assistant
    && exists n: nat :: InOrder(after[at].content, n, cached, targets, cleared[at].content, rules)
  }

  /** The turn stands in front of the first results, as a message of the assistant. */
  ghost predicate Inserted(messages: seq<Message>, after: seq<Message>, cached: Content, at: nat, results: nat, targets: set<string>, rules: Rules)
  {
    var signatures := ReplaySignatures(cached, rules);
    var cleared := Cleared(messages, targets, signatures, rules);
    && results <= |messages| && |after| == |messages| + 1 && NoneToJoin(messages, cached, results, targets, signatures, rules) && at == results
    && (forall j | 0 <= j < at :: after[j] == cleared[j]) && (forall j | at < j < |after| :: after[j] == cleared[j - 1])
    && after[at].assistant && after[at].content == Replayed(cached, targets, rules)
  }

  /** What the splice is, told from the messages. All other messages are what they were but for what gives
      way, and no message changes its role. */
  ghost predicate TurnAt(messages: seq<Message>, after: seq<Message>, cached: Content, at: nat, targets: set<string>, rules: Rules) {
    exists results: nat :: FirstWithResult(messages, results, targets, rules)
      && (Joined(messages, after, cached, at, results, targets, rules) || Inserted(messages, after, cached, at, results, targets, rules))
  }

  lemma TurnIsPlaced(messages: seq<Message>, cached: Content, targets: set<string>, rules: Rules) returns (at: nat)
    ensures TurnAt(messages, Spliced(messages, cached, targets, rules), cached, at, targets, rules)
  {
    var signatures := ReplaySignatures(cached, rules);
    hide Ordered, Cleared, FirstResult, FirstCleared, MatchingText, Replayed, HasWay, HasResult, SharesText, Kept, ReplaySignatures, InOrder, FirstWithResult;
    var cleared := Cleared(messages, targets, signatures, rules);
    var insertAt := FirstResult(cleared, 0, targets, rules);
    var first := FirstCleared(messages, 0, targets, signatures, rules);
    ResultsOf(messages, targets, signatures, rules);
    WayFrom(messages, 0, targets, signatures, rules);
    MatchesFrom(cleared, cached, insertAt);
    if first.None? { NothingCleared(messages, targets, signatures, rules); }
    var replaceAt := if first.Some? then first else MatchingText(cleared, cached, insertAt);
    var after := Spliced(messages, cached, targets, rules);
    if replaceAt.Some? && replaceAt.value < insertAt {
      at := replaceAt.value;
      var m := cleared[at];
      var n := OrderedInOrder(cached, targets, m.content, rules);
      assert after[at] == m.(content := Ordered(cached, targets, m.content, rules));
      SameRole(messages, at, targets, signatures, rules);
      assert PlaceToJoin(messages, cached, at, insertAt, targets, signatures, rules);
      assert Joined(messages, after, cached, at, insertAt, targets, rules);
    } else {
      at := insertAt;
      assert |after| == |messages| + 1;
      assert NoneToJoin(messages, cached, insertAt, targets, signatures, rules);
      assert Inserted(messages, after, cached, at, insertAt, targets, rules);
    }
  }

  lemma SameRole(messages: seq<Message>, i: nat, targets: set<string>, signatures: set<string>, rules: Rules)
    requires i < |messages|
    ensures Cleared(messages, targets, signatures, rules)[i].assistant == messages[i].assistant
  {
    hide Kept;
  }

  /** What is put back is what was remembered, in its order, without the rest. */
  lemma {:induction false} ReplayedInOrder(cached: Content, targets: set<string>, rules: Rules)
    ensures Subsequence(Replayed(cached, targets, rules), cached)
    ensures forall b :: multiset(Replayed(cached, targets, rules))[b] == if IsReplayed(b, targets, rules) then multiset(cached)[b] else 0
  {
    hide IsReplayed, Subsequence;
    if cached == [] {
      SubsequenceItself([]);
    } else {
      var x, tail := cached[0], cached[1..];
      ReplayedInOrder(tail, targets, rules);
      var rest := Replayed(tail, targets, rules);
      assert cached == [x] + tail;
      assert Replayed(cached, targets, rules) == if IsReplayed(x, targets, rules) then [x] + rest else rest;
      hide Replayed;
      if IsReplayed(x, targets, rules) {
        OneMore([x] + rest, rest, |rest|, x, tail) by { assert rest[..|rest|] == rest; }
        assert ([x] + rest)[..|rest| + 1] == [x] + rest;
      } else {
        SubsequenceCons(rest, tail, x);
      }
      forall b ensures multiset(Replayed(cached, targets, rules))[b] == if IsReplayed(b, targets, rules) then multiset(cached)[b] else 0 {
        HeadCount(rest, x, b);
        HeadCount(tail, x, b);
      }
    }
  }

  // ----- role -----

  /** A remembered block that is put back and was not in the request. */
  ghost predicate New(b: Block, messages: seq<Message>, cached: Content, targets: set<string>, rules: Rules) {
    b in cached && IsReplayed(b, targets, rules) && b !in AllBlocks(messages)
  }

  /** Every message with such a block is the assistant's. */
  ghost predicate NewOnesAreTheAssistants(messages: seq<Message>, after: seq<Message>, cached: Content, targets: set<string>, rules: Rules) {
    forall j, b | 0 <= j < |after| && b in after[j].content && New(b, messages, cached, targets, rules) :: after[j].assistant
  }

  ghost predicate UserAt(messages: seq<Message>, i: nat, results: nat, targets: set<string>, signatures: set<string>, rules: Rules) {
    && FirstWithResult(messages, results, targets, rules) && i < results <= |messages| && !messages[i].assistant
    && HasWay(messages[i], targets, signatures, rules) && forall j | 0 <= j < i :: !HasWay(messages[j], targets, signatures, rules)
  }

  /** The first message with a block that gives way stands before the results and is the user's. */
  ghost predicate UserGivesWay(messages: seq<Message>, targets: set<string>, signatures: set<string>, rules: Rules) {
    exists i: nat, results: nat :: UserAt(messages, i, results, targets, signatures, rules)
  }

  lemma InCleared(messages: seq<Message>, k: nat, targets: set<string>, signatures: set<string>, rules: Rules)
    requires k < |messages|
    ensures forall b | b in Cleared(messages, targets, signatures, rules)[k].content :: b in AllBlocks(messages)
  {
    BlocksOf(messages);
    KeptMembers(messages[k].content, targets, signatures, rules);
    hide Kept, AllBlocks;
    assert messages[k] in messages;
  }

  lemma InOthers(messages: seq<Message>, after: seq<Message>, cached: Content, at: nat, targets: set<string>, rules: Rules, j: nat)
    requires TurnAt(messages, after, cached, at, targets, rules) && j < |after| && j != at
    ensures forall b | b in after[j].content :: b in AllBlocks(messages)
  {
    hide FirstWithResult, PlaceToJoin, NoneToJoin, InOrder, Replayed, ReplaySignatures, Cleared, AllBlocks;
    InCleared(messages, if |after| == |messages| || j < at then j else j - 1, targets, ReplaySignatures(cached, rules), rules);
  }

  lemma AllInTurn(messages: seq<Message>, after: seq<Message>, cached: Content, at: nat, targets: set<string>, rules: Rules, b: Block)
    requires TurnAt(messages, after, cached, at, targets, rules) && b in cached && IsReplayed(b, targets, rules)
    ensures at < |after| && b in after[at].content
  {
    ReplayedMembers(cached, targets, rules);
    hide FirstWithResult, HasWay, SharesText, NoneToJoin, Replayed, ReplaySignatures, Cleared, IsReplayed, InOrder;
    if |after| == |messages| {
      var existing := Cleared(messages, targets, ReplaySignatures(cached, rules), rules)[at].content;
      var n: nat :| InOrder(after[at].content, n, cached, targets, existing, rules);
      InOrderHas(after[at].content, n, cached, targets, existing, rules, b);
    }
  }

  lemma InOrderHas(ordered: Content, n: nat, cached: Content, targets: set<string>, existing: Content, rules: Rules, b: Block)
    requires InOrder(ordered, n, cached, targets, existing, rules) && IsReplayed(b, targets, rules) && b in Replayed(cached, targets, rules)
    ensures b in ordered
  {
    if b.TextBlock? { TextIsNotReplayed(b, targets, rules); }
    hide Replayed, IsReplayed, Subsequence;
    assert multiset(ordered[..n])[b] == multiset(Replayed(cached, targets, rules))[b];
    assert b in multiset(ordered[..n]);
    assert b in ordered[..n];
  }

  lemma RoleOfTurn(messages: seq<Message>, after: seq<Message>, cached: Content, at: nat, targets: set<string>, rules: Rules)
    requires TurnAt(messages, after, cached, at, targets, rules)
    ensures at < |after| && (after[at].assistant <==> !UserGivesWay(messages, targets, ReplaySignatures(cached, rules), rules))
  {
    var signatures := ReplaySignatures(cached, rules);
    hide Replayed, ReplaySignatures, Cleared, HasWay, FirstWithResult, InOrder;
    var results: nat :| FirstWithResult(messages, results, targets, rules)
      && (Joined(messages, after, cached, at, results, targets, rules) || Inserted(messages, after, cached, at, results, targets, rules));
    if UserGivesWay(messages, targets, signatures, rules) {
      var i: nat, other: nat :| UserAt(messages, i, other, targets, signatures, rules);
      SameFirst(messages, results, other, targets, rules);
    }
    if |after| == |messages| && !messages[at].assistant { assert UserAt(messages, at, results, targets, signatures, rules); }
  }

  lemma SameFirst(messages: seq<Message>, a: nat, b: nat, targets: set<string>, rules: Rules)
    requires FirstWithResult(messages, a, targets, rules) && FirstWithResult(messages, b, targets, rules)
    ensures a == b
  {
    hide HasResult;
  }

  /** Something is missing from the request: then whatever is put back is the assistant's exactly when the
      first message with a block that gives way, if it stands before the results, is the assistant's. */
  lemma RolesExactly(messages: seq<Message>, cached: Content, targets: set<string>, rules: Rules)
    requires NeedsReplay(messages, cached, targets, rules)
    ensures NewOnesAreTheAssistants(messages, Spliced(messages, cached, targets, rules), cached, targets, rules)
      <==> !UserGivesWay(messages, targets, ReplaySignatures(cached, rules), rules)
  {
    var after := Spliced(messages, cached, targets, rules);
    var b := MissingIsNew(messages, cached, targets, rules);
    hide Spliced, TurnAt, UserGivesWay, New, NeedsReplay, IsReplayed;
    var at := TurnIsPlaced(messages, cached, targets, rules);
    RoleOfTurn(messages, after, cached, at, targets, rules);
    NewIsReplayed(b, messages, cached, targets, rules);
    AllInTurn(messages, after, cached, at, targets, rules, b);
    forall j, x | 0 <= j < |after| && x in after[j].content && New(x, messages, cached, targets, rules) ensures j == at {
      if j != at {
        InOthers(messages, after, cached, at, targets, rules, j);
        NewIsReplayed(x, messages, cached, targets, rules);
      }
    }
  }

  lemma NewIsReplayed(b: Block, messages: seq<Message>, cached: Content, targets: set<string>, rules: Rules)
    requires New(b, messages, cached, targets, rules)
    ensures b in cached && IsReplayed(b, targets, rules) && b !in AllBlocks(messages)
  {
    hide IsReplayed, AllBlocks;
  }

  lemma MissingIsNew(messages: seq<Message>, cached: Content, targets: set<string>, rules: Rules) returns (b: Block)
    requires NeedsReplay(messages, cached, targets, rules)
    ensures New(b, messages, cached, targets, rules)
  {
    b :| b in cached && IsMissing(b, messages, targets, rules);
    BlocksOf(messages);
    hide AllBlocks, IsMissing;
    assert IsReplayed(b, targets, rules) by { MissingIsReplayed(b, messages, targets, rules); }
    forall m | m in messages ensures b !in m.content {
      if b in m.content { PresentIsNotMissing(b, m, messages, targets, rules); }
    }
  }

  lemma MissingIsReplayed(b: Block, messages: seq<Message>, targets: set<string>, rules: Rules)
    requires IsMissing(b, messages, targets, rules)
    ensures IsReplayed(b, targets, rules)
  {
    hide HasSignature, HasCall;
  }

  lemma PresentIsNotMissing(b: Block, m: Message, messages: seq<Message>, targets: set<string>, rules: Rules)
    requires m in messages && b in m.content
    ensures !IsMissing(b, messages, targets, rules)
  {
    if IsReplayable(b, rules) { assert HasSignature(messages, SignatureOf(b), rules); }
    if IsCallTo(b, targets, rules) { assert HasCall(messages, rules.shorten(b.id), rules); }
  }

  /** A request in which the user's message holds the call gets the reasoning into that message. */
  lemma UserGetsReasoning(id: string, thinking: Block, rules: Rules)
    requires IsReplayable(thinking, rules)
    ensures var call := ToolUse(id, "", "");
      var messages, cached := [Message(false, [call]), Message(false, [ToolResult(id, "")])], [thinking, call];
      var targets := Targets(messages, cached, rules);
      NeedsReplay(messages, cached, targets, rules)
      && !NewOnesAreTheAssistants(messages, Spliced(messages, cached, targets, rules), cached, targets, rules)
  {
    var call, result := ToolUse(id, "", ""), ToolResult(id, "");
    var messages, cached := [Message(false, [call]), Message(false, [result])], [thinking, call];
    var targets, signatures := Targets(messages, cached, rules), ReplaySignatures(cached, rules);
    CallIsTarget(messages, cached, call, result, rules);
    NothingSigned(messages, call, result, SignatureOf(thinking), rules);
    UserHoldsCall(messages, call, result, targets, signatures, rules);
    hide Spliced, NewOnesAreTheAssistants, NeedsReplay, Targets, ReplaySignatures, UserAt, IsReplayable, HasSignature;
    assert IsMissing(thinking, messages, targets, rules);
    SomethingMissing(thinking, messages, cached, targets, rules);
    hide IsMissing;
    RolesExactly(messages, cached, targets, rules);
  }

  lemma CallIsTarget(messages: seq<Message>, cached: Content, call: Block, result: Block, rules: Rules)
    requires |messages| == 2 && messages[1].content == [result] && call in cached
    requires call.ToolUse? && result.ToolResult? && result.toolUseID == call.id
    ensures rules.shorten(call.id) in Targets(messages, cached, rules)
  {
    assert messages[1] in messages && result in messages[1].content;
    assert rules.shorten(call.id) in CachedCalls(cached, rules);
    hide CachedCalls;
  }

  lemma NothingSigned(messages: seq<Message>, call: Block, result: Block, signature: string, rules: Rules)
    requires messages == [Message(false, [call]), Message(false, [result])] && call.ToolUse? && result.ToolResult?
    ensures !HasSignature(messages, signature, rules)
  {}

  lemma UserHoldsCall(messages: seq<Message>, call: Block, result: Block, targets: set<string>, signatures: set<string>, rules: Rules)
    requires messages == [Message(false, [call]), Message(false, [result])] && call.ToolUse? && result.ToolResult?
    requires result.toolUseID == call.id && rules.shorten(call.id) in targets
    ensures UserAt(messages, 0, 1, targets, signatures, rules)
  {
    assert call in messages[0].content && GivesWay(call, targets, signatures, rules);
    assert result in messages[1].content && IsResultOf(result, targets, rules);
  }

  lemma SomethingMissing(b: Block, messages: seq<Message>, cached: Content, targets: set<string>, rules: Rules)
    requires b in cached && IsMissing(b, messages, targets, rules)
    ensures NeedsReplay(messages, cached, targets, rules)
  {
    hide IsMissing;
  }

  // ----- the outcome -----

  /** The request has a result for a remembered call. */
  ghost predicate Answers(messages: seq<Message>, cached: Content, rules: Rules) {
    exists r, c | r in AllBlocks(messages) && c in cached :: r.ToolResult? && c.ToolUse? && rules.shorten(r.toolUseID) == rules.shorten(c.id)
  }

  /** A remembered call that is answered has a call with its id, and remembered reasoning a block with
      its signature. */
  ghost predicate Present(b: Block, messages: seq<Message>, rules: Rules) {
    if b.ToolUse? then exists c | c in AllBlocks(messages) :: c.ToolUse? && rules.shorten(c.id) == rules.shorten(b.id)
    else b.Thinking? ==> exists c | c in AllBlocks(messages) :: (c.Thinking? || c.Redacted?) && SignatureOf(c) == SignatureOf(b)
  }

  /** What belongs to the answered part of the remembered turn. */
  ghost predicate Wanted(b: Block, messages: seq<Message>, cached: Content, rules: Rules) {
    && b in cached
    && (if b.ToolUse? then exists r | r in AllBlocks(messages) :: r.ToolResult? && rules.shorten(r.toolUseID) == rules.shorten(b.id)
        else b.Thinking? && rules.valid(SignatureOf(b)))
  }

  lemma AnswersAreTargets(messages: seq<Message>, cached: Content, rules: Rules)
    ensures forall id :: (id in Targets(messages, cached, rules)
                          <==> exists r, c | r in AllBlocks(messages) && c in cached ::
                                 r.ToolResult? && c.ToolUse? && rules.shorten(r.toolUseID) == rules.shorten(c.id) == id)
  {
    TargetsFromResults(messages, cached, rules);
    hide AllBlocks, Targets;
  }

  lemma WantedIsReplayed(b: Block, messages: seq<Message>, cached: Content, rules: Rules)
    ensures Wanted(b, messages, cached, rules) <==> b in cached && IsReplayed(b, Targets(messages, cached, rules), rules)
  {
    AnswersAreTargets(messages, cached, rules);
    hide AllBlocks, Targets;
  }

  lemma PresentExactly(b: Block, messages: seq<Message>, targets: set<string>, rules: Rules)
    requires IsReplayed(b, targets, rules)
    ensures Present(b, messages, rules) <==> !IsMissing(b, messages, targets, rules)
  {
    BlocksOf(messages);
    hide AllBlocks, Blank;
  }

  ghost predicate AllPresent(messages: seq<Message>, cached: Content, asked: seq<Message>, rules: Rules) {
    forall b | Wanted(b, asked, cached, rules) :: Present(b, messages, rules)
  }

  lemma PresentUnlessNeeded(after: seq<Message>, asked: seq<Message>, cached: Content, rules: Rules)
    ensures AllPresent(after, cached, asked, rules) <==> !NeedsReplay(after, cached, Targets(asked, cached, rules), rules)
  {
    var targets := Targets(asked, cached, rules);
    forall b ensures Wanted(b, asked, cached, rules) <==> b in cached && IsReplayed(b, targets, rules) { WantedIsReplayed(b, asked, cached, rules); }
    forall b | IsReplayed(b, targets, rules) ensures Present(b, after, rules) <==> !IsMissing(b, after, targets, rules) {
      PresentExactly(b, after, targets, rules);
    }
    forall b | IsMissing(b, after, targets, rules) ensures IsReplayed(b, targets, rules) { MissingIsReplayed(b, after, targets, rules); }
    hide Wanted, Present, IsReplayed, IsMissing, Targets;
  }

  /** Apply leaves a request alone when it answers no remembered call, or when everything that belongs to
      the answered part is there; otherwise it puts that back, and all of it is there. */
  lemma ApplyExactly(messages: seq<Message>, cached: Content, rules: Rules)
    ensures var (after, outcome) := Apply(messages, cached, rules);
      && (outcome == Unmatched <==> !Answers(messages, cached, rules))
      && (outcome == Applied <==> Answers(messages, cached, rules) && !AllPresent(messages, cached, messages, rules))
      && (outcome != Applied ==> after == messages)
      && (outcome != Unmatched ==> AllPresent(after, cached, messages, rules))
  {
    var targets := Targets(messages, cached, rules);
    var after := Apply(messages, cached, rules).0;
    assert targets == {} <==> !Answers(messages, cached, rules) by {
      AnswersAreTargets(messages, cached, rules);
      hide AllBlocks, Targets;
      if r, c :| r in AllBlocks(messages) && c in cached && r.ToolResult? && c.ToolUse? && rules.shorten(r.toolUseID) == rules.shorten(c.id) {
        assert rules.shorten(c.id) in targets;
      }
    }
    PresentUnlessNeeded(messages, messages, cached, rules);
    PresentUnlessNeeded(after, messages, cached, rules);
    hide AllPresent, Answers, Spliced, Targets, NeedsReplay;
    if targets != {} && NeedsReplay(messages, cached, targets, rules) {
      ResultsStay(messages, cached, targets, rules);
      NothingMissing(after, cached, targets, rules);
    }
  }
}
