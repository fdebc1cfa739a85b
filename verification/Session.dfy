/** internal/server/session.go: a request is matched with the stored turn it continues, and only
    what is new is sent. */
module Session {
  import opened Text

  /** An input item: its role, its type, the call it belongs to, and everything else it holds. */
  datatype Item = Item(role: string, typ: string, callID: string, rest: string)

  datatype Request = Request(
    model: string, modelExplicit: bool, input: seq<Item>, previousResponseID: string, promptCacheKey: string,
    instructions: string, aliases: map<string, string>, generate: bool, hostedSearch: bool)

  datatype Continuation = Continuation(
    responseID: string, accountID: string, conversationKey: string, turnState: string, instructions: string,
    model: string, history: seq<Item>, callIDs: seq<string>, aliases: map<string, string>)

  datatype Resolution = Resolution(
    request: Request, original: Request, preferredAccountID: string, turnState: string, conversationKey: string,
    explicitPrevious: bool, implicitResume: bool, replayAvailable: bool)

  /** What the continuation manager answers: a record by its response id, and all records, newest
      first. */
  datatype Store = Store(byID: map<string, Continuation>, all: seq<Continuation>)

  // ----- what it takes to resume -----

  predicate IsOutput(item: Item) {
    item.typ == "function_call_output" || item.typ == "custom_tool_call_output"
  }

  predicate IsPrior(item: Item) {
    item.role == "assistant" || item.typ == "function_call" || item.typ == "custom_tool_call" || IsOutput(item)
  }

  function CallIDs(record: Continuation): set<string> {
    set id | id in record.callIDs && !Blank(id) :: TrimSpace(id)
  }

  predicate Answers(item: Item, record: Continuation) {
    IsOutput(item) ==> !Blank(item.callID) && TrimSpace(item.callID) in CallIDs(record)
  }

  /** The stored turn is a strict, non-empty prefix of the input, and every tool output in the rest
      answers one of its calls. */
  predicate Continues(input: seq<Item>, record: Continuation) {
    && record.history != [] && record.history < input
    && forall item | item in input[|record.history|..] :: Answers(item, record)
  }

  predicate MatchesRecord(record: Continuation, request: Request) {
    && !Blank(record.responseID)
    && TrimSpace(record.model) == TrimSpace(request.model)
    && TrimSpace(record.instructions) == TrimSpace(request.instructions)
  }

  predicate Resumable(record: Continuation, request: Request) {
    && MatchesRecord(record, request)
    && (exists item | item in request.input :: IsPrior(item))
    && Continues(request.input, record)
  }

  const OUTPUTS := {"function_call_output", "custom_tool_call_output"}
  const CALLS := {"function_call", "custom_tool_call"}

  /** The request shows that there was an answer before. */
  ghost predicate ShowsAnAnswer(input: seq<Item>) {
    exists i :: 0 <= i < |input| && (input[i].role == "assistant" || input[i].typ in CALLS + OUTPUTS)
  }

  /** Every tool output is one of a call of the record. */
  ghost predicate AllAnswer(added: seq<Item>, callIDs: seq<string>) {
    forall k | 0 <= k < |added| && added[k].typ in OUTPUTS :: IsCall(added[k].callID, callIDs)
  }

  ghost predicate IsCall(id: string, callIDs: seq<string>) {
    !Blank(id) && exists k :: 0 <= k < |callIDs| && TrimSpace(callIDs[k]) == TrimSpace(id)
  }

  lemma AnswersMeans(item: Item, record: Continuation)
    ensures Answers(item, record) <==> (item.typ in OUTPUTS ==> IsCall(item.callID, record.callIDs))
  {
    assert Blank(item.callID) <==> TrimSpace(item.callID) == "";
    assert forall id | id in record.callIDs :: Blank(id) <==> TrimSpace(id) == "";
    hide Blank, TrimSpace;
  }

  lemma ContinuesMeans(input: seq<Item>, record: Continuation)
    ensures Continues(input, record)
      <==> record.history != [] && exists added: seq<Item> :: input == record.history + added && added != [] && AllAnswer(added, record.callIDs)
  {
    hide IsCall;
    if record.history <= input {
      var added := input[|record.history|..];
      assert input == record.history + added;
      forall k | 0 <= k < |added| ensures Answers(added[k], record) <==> (added[k].typ in OUTPUTS ==> IsCall(added[k].callID, record.callIDs)) {
        AnswersMeans(added[k], record);
      }
      hide Answers;
      assert (forall item | item in added :: Answers(item, record)) <==> forall k | 0 <= k < |added| :: Answers(added[k], record);
    }
  }

  /** What has to hold for a turn to be resumed, white space at the ends of names apart: the same model, the
      same instructions, a sign of an earlier answer, and the whole stored turn in front of what is new. */
  lemma ResumableMeans(record: Continuation, request: Request)
    ensures Resumable(record, request)
      <==> && !Blank(record.responseID)
           && TrimSpace(record.model) == TrimSpace(request.model)
           && TrimSpace(record.instructions) == TrimSpace(request.instructions)
           && ShowsAnAnswer(request.input)
           && record.history != []
           && exists added: seq<Item> ::
                request.input == record.history + added && added != [] && AllAnswer(added, record.callIDs)
  {
    ContinuesMeans(request.input, record);
    hide Blank, TrimSpace, Continues, AllAnswer;
    ShowsExactly(request.input);
  }

  lemma ShowsExactly(input: seq<Item>)
    ensures ShowsAnAnswer(input) <==> exists item | item in input :: IsPrior(item)
  {
    assert forall item :: IsPrior(item) <==> item.role == "assistant" || item.typ in CALLS + OUTPUTS;
    if ShowsAnAnswer(input) {
      var i :| 0 <= i < |input| && (input[i].role == "assistant" || input[i].typ in CALLS + OUTPUTS);
      assert IsPrior(input[i]) && input[i] in input;
    }
  }

  method HasPriorAssistantOrToolHistory(input: seq<Item>) returns (found: bool)
    ensures found == exists item | item in input :: IsPrior(item)
  {
    for i := 0 to |input|
      invariant forall item | item in input[..i] :: !IsPrior(item)
    {
      assert input[..i + 1] == input[..i] + [input[i]];
      if IsPrior(input[i]) {
        return true;
      }
    }
    assert input[..|input|] == input;
    return false;
  }

  /** trimmedContinuationInput: what the request adds to the stored turn. */
  method TrimmedContinuationInput(input: seq<Item>, record: Continuation) returns (trimmed: Option<seq<Item>>)
    ensures trimmed.Some? <==> Continues(input, record)
    ensures trimmed.Some? ==> record.history + trimmed.value == input && trimmed.value != []
  {
    hide TrimSpace;
    var history := record.history;
    if |input| == 0 || |history| == 0 || |input| <= |history| {
      return None;
    }
    for idx := 0 to |history|
      invariant input[..idx] == history[..idx]
    {
      if input[idx] != history[idx] {
        return None;
      }
      assert input[..idx + 1] == input[..idx] + [input[idx]] && history[..idx + 1] == history[..idx] + [history[idx]];
    }
    assert history == history[..|history|] == input[..|history|];
    var allowed := AllowedCallIDs(record);
    var rest := input[|history|..];
    for i := 0 to |rest|
      invariant forall item | item in rest[..i] :: Answers(item, record)
    {
      assert rest[..i + 1] == rest[..i] + [rest[i]];
      if IsOutput(rest[i]) {
        var callID := TrimSpace(rest[i].callID);
        if callID == "" || callID !in allowed {
          assert rest[i] in rest && !Answers(rest[i], record);
          return None;
        }
      }
    }
    assert rest[..|rest|] == rest;
    return Some(rest);
  }

  method AllowedCallIDs(record: Continuation) returns (allowed: set<string>)
    ensures allowed == CallIDs(record)
  {
    hide TrimSpace;
    allowed := {};
    for i := 0 to |record.callIDs|
      invariant allowed == set id | id in record.callIDs[..i] && !Blank(id) :: TrimSpace(id)
    {
      assert record.callIDs[..i + 1] == record.callIDs[..i] + [record.callIDs[i]];
      var callID := TrimSpace(record.callIDs[i]);
      if callID != "" {
        allowed := allowed + {callID};
      }
    }
    assert record.callIDs[..|record.callIDs|] == record.callIDs;
  }

  // ----- resolving -----

  /** turn.MergeToolNameAliases: the request's own aliases win. */
  function Merged(current: map<string, string>, previous: map<string, string>): (merged: map<string, string>)
    ensures merged.Keys == current.Keys + previous.Keys
    ensures forall k | k in current :: merged[k] == current[k]
    ensures forall k | k in previous && k !in current :: merged[k] == previous[k]
  {
    previous + current
  }

  /** The first record, in their order, that can be resumed and is not excluded. */
  function FirstResumable(records: seq<Continuation>, excluded: set<string>, request: Request): (r: Option<Continuation>)
    ensures r.Some? ==> r.value in records && r.value.responseID !in excluded && Resumable(r.value, request)
    ensures r.None? ==> forall c | c in records :: c.responseID in excluded || !Resumable(c, request)
  {
    if records == [] then None
    else if records[0].responseID !in excluded && Resumable(records[0], request) then Some(records[0])
    else FirstResumable(records[1..], excluded, request)
  }

  function ListByConversation(records: seq<Continuation>, key: string): seq<Continuation> {
    if records == [] then []
    else (if TrimSpace(records[0].conversationKey) == key then [records[0]] else []) + ListByConversation(records[1..], key)
  }

  /** The ids of records that were looked at before. */
  function Seen(records: seq<Continuation>): set<string> {
    set c | c in records && !Blank(c.responseID) :: TrimSpace(c.responseID)
  }

  /** What resuming a stored turn does to the request. */
  function Resumed(base: Resolution, record: Continuation): Resolution
    requires record.history <= base.request.input
  {
    base.(request := base.request.(
            input := base.request.input[|record.history|..], previousResponseID := record.responseID,
            model := record.model, aliases := Merged(base.request.aliases, record.aliases)),
          original := base.original.(model := record.model, aliases := Merged(base.original.aliases, record.aliases)),
          preferredAccountID := record.accountID, turnState := TrimSpace(record.turnState), implicitResume := true)
  }

  method Resume(base: Resolution, record: Continuation, trimmed: seq<Item>) returns (resolution: Resolution)
    requires record.history <= base.request.input && trimmed == base.request.input[|record.history|..]
    ensures resolution == Resumed(base, record)
  {
    hide TrimSpace;
    resolution := base;
    resolution := resolution.(request := resolution.request.(input := trimmed));
    resolution := resolution.(request := resolution.request.(previousResponseID := record.responseID));
    resolution := resolution.(request := resolution.request.(model := record.model));
    resolution := resolution.(original := resolution.original.(model := record.model));
    resolution := resolution.(preferredAccountID := record.accountID);
    resolution := resolution.(turnState := TrimSpace(record.turnState));
    resolution := resolution.(request := resolution.request.(aliases := Merged(resolution.request.aliases, record.aliases)));
    resolution := resolution.(original := resolution.original.(aliases := Merged(resolution.original.aliases, record.aliases)));
    resolution := resolution.(implicitResume := true);
  }

  /** The loop over stored turns: resumes the first that can be. */
  method ResumeFirst(base: Resolution, records: seq<Continuation>, excluded: set<string>)
    returns (resolution: Resolution, used: Option<Continuation>)
    ensures used == FirstResumable(records, excluded, base.request)
    ensures used.Some? ==> used.value.history <= base.request.input
    ensures resolution == if used.Some? then Resumed(base, used.value) else base
  {
    hide TrimSpace, Continues, IsPrior, MatchesRecord, Resumed;
    var prior := HasPriorAssistantOrToolHistory(base.request.input);
    for i := 0 to |records|
      invariant FirstResumable(records, excluded, base.request) == FirstResumable(records[i..], excluded, base.request)
    {
      var record := records[i];
      assert records[i..][0] == record && records[i..][1..] == records[i + 1..];
      if record.responseID !in excluded && MatchesRecord(record, base.request) && prior {
        var trimmed := TrimmedContinuationInput(base.request.input, record);
        if trimmed.Some? {
          assert base.request.input[|record.history|..] == trimmed.value;
          resolution := Resume(base, record, trimmed.value);
          return resolution, Some(record);
        }
      }
    }
    assert records[|records|..] == [];
    return base, None;
  }

  // ----- resolveSession -----

  function WithKey(r: Resolution, key: string): Resolution {
    r.(conversationKey := key, request := r.request.(promptCacheKey := key), original := r.original.(promptCacheKey := key))
  }

  function Base(request: Request): Resolution {
    Resolution(request, request, "", "", "", false, false, false)
  }

  /** The flags are what the failover relies on: never both, and only with a previous response. */
  predicate FlagsFit(r: Resolution) {
    && !(r.explicitPrevious && r.implicitResume)
    && (r.explicitPrevious || r.implicitResume ==> r.request.previousResponseID != "")
    && (r.replayAvailable ==> r.explicitPrevious && r.original.previousResponseID == "")
    && (r.implicitResume ==> r.original.previousResponseID == "")
  }

  /** A request that names the response it continues. */
  method ResolveExplicit(normalized: Request, record: Continuation, derive: Request -> string) returns (r: Resolution)
    requires normalized.previousResponseID != ""
    ensures r.explicitPrevious && FlagsFit(r) && r.replayAvailable == (record.history != [])
    ensures r.original.input == record.history + r.request.input && r.request.input == normalized.input
    ensures r.request.previousResponseID == normalized.previousResponseID && r.preferredAccountID == record.accountID
    ensures r.request.model == r.original.model
      == if !normalized.modelExplicit || Blank(normalized.model) then record.model else normalized.model
    ensures !Blank(record.conversationKey) ==> r.conversationKey == TrimSpace(record.conversationKey)
    ensures r.request.aliases == r.original.aliases == Merged(normalized.aliases, record.aliases)
    ensures r.turnState == TrimSpace(record.turnState)
  {
    hide TrimSpace, Blank, Merged;
    r := ExplicitBase(normalized, record, derive);
    r := r.(preferredAccountID := record.accountID, turnState := TrimSpace(record.turnState));
    r := r.(request := r.request.(aliases := Merged(r.request.aliases, record.aliases)));
    r := r.(original := r.original.(aliases := Merged(r.original.aliases, record.aliases)));
    assert record.history == [] ==> record.history + normalized.input == normalized.input;
    if |record.history| > 0 {
      r := r.(original := r.original.(input := record.history + normalized.input, previousResponseID := ""),
              replayAvailable := true);
    }
    r := r.(explicitPrevious := true);
  }

  /** The model and the conversation key of a request that names the response it continues. */
  method ExplicitBase(normalized: Request, record: Continuation, derive: Request -> string) returns (r: Resolution)
    ensures r.request == r.original
    ensures r.request == normalized.(model := r.request.model, promptCacheKey := r.request.promptCacheKey)
    ensures r.request.model == if !normalized.modelExplicit || Blank(normalized.model) then record.model else normalized.model
    ensures !Blank(record.conversationKey) ==> r.conversationKey == TrimSpace(record.conversationKey)
    ensures !r.explicitPrevious && !r.implicitResume && !r.replayAvailable
  {
    hide TrimSpace, Blank;
    r := Base(normalized);
    if !r.request.modelExplicit || Blank(r.request.model) {
      r := r.(request := r.request.(model := record.model), original := r.original.(model := record.model));
    }
    if !Blank(record.conversationKey) {
      r := WithKey(r, TrimSpace(record.conversationKey));
    } else {
      var key := derive(r.request);
      if key != "" {
        r := WithKey(r, key);
      }
    }
  }

  /** The records an implicit resume is looked for in, in order: those of the conversation, then all
      that were not among them. */
  function Chosen(store: Store, key: string, request: Request): Option<Continuation> {
    var first := if key == "" then None else FirstResumable(ListByConversation(store.all, key), {}, request);
    if first.Some? then first
    else FirstResumable(store.all, if key == "" then {} else Seen(ListByConversation(store.all, key)), request)
  }

  /** The conversation key of a request that continues nothing by name. */
  function KeyOf(normalized: Request, derive: Request -> string): string {
    if !Blank(normalized.promptCacheKey) then TrimSpace(normalized.promptCacheKey) else derive(normalized)
  }

  /** resolveSession: None when the response the request names is unknown. */
  method ResolveSession(normalized: Request, store: Store, derive: Request -> string)
    returns (r: Option<Resolution>, used: Option<Continuation>)
    ensures r.None? <==> normalized.previousResponseID != "" && normalized.previousResponseID !in store.byID
    ensures r.Some? ==> FlagsFit(r.value)
    ensures r.Some? && normalized.previousResponseID != "" ==>
      r.value.explicitPrevious && used == Some(store.byID[normalized.previousResponseID])
    ensures r.Some? && normalized.previousResponseID == "" ==>
      && used == (if Blank(normalized.model) then None else Chosen(store, KeyOf(normalized, derive), normalized))
      && (r.value.implicitResume <==> used.Some?)
      && r.value.original.input == normalized.input
    ensures r.Some? && used.Some? ==>
      && used.value.history + r.value.request.input == r.value.original.input
      && r.value.preferredAccountID == used.value.accountID && r.value.turnState == TrimSpace(used.value.turnState)
      && r.value.request.aliases == r.value.original.aliases == Merged(normalized.aliases, used.value.aliases)
      && (r.value.implicitResume ==> r.value.request.previousResponseID == used.value.responseID
                                     && r.value.request.model == r.value.original.model == used.value.model)
    ensures r.Some? && used.None? ==>
      !r.value.explicitPrevious && r.value.request.input == normalized.input && r.value.preferredAccountID == ""
    ensures r.Some? && normalized.previousResponseID == "" && !Blank(normalized.model) ==>
      && InConversation(r.value, used, if !Blank(normalized.promptCacheKey) then TrimSpace(normalized.promptCacheKey) else derive(normalized))
      && Keyed(normalized, r.value)
  {
    hide TrimSpace, Blank, Resumable, Merged;
    used := None;
    if normalized.previousResponseID != "" {
      if normalized.previousResponseID !in store.byID {
        return None, None;
      }
      var record := store.byID[normalized.previousResponseID];
      var explicit := ResolveExplicit(normalized, record, derive);
      return Some(explicit), Some(record);
    }
    var resolution := Base(normalized);
    if Blank(normalized.model) {
      return Some(resolution), None;
    }
    var key := KeyOf(normalized, derive);
    resolution, used := ResolveImplicit(normalized, store, key);
    r := Some(resolution);
  }

  lemma ResumableSame(c: Continuation, a: Request, b: Request)
    requires a.model == b.model && a.instructions == b.instructions && a.input == b.input
    ensures Resumable(c, a) <==> Resumable(c, b)
  {
    hide TrimSpace, Continues;
  }

  lemma {:induction false} FirstSame(records: seq<Continuation>, excluded: set<string>, a: Request, b: Request)
    requires a.model == b.model && a.instructions == b.instructions && a.input == b.input
    ensures FirstResumable(records, excluded, a) == FirstResumable(records, excluded, b)
  {
    hide Resumable;
    if records != [] {
      ResumableSame(records[0], a, b);
      FirstSame(records[1..], excluded, a, b);
    }
  }

  /** A request that names no response: its conversation is looked for among the stored turns. */
  method ResolveImplicit(normalized: Request, store: Store, key: string) returns (r: Resolution, used: Option<Continuation>)
    requires normalized.previousResponseID == ""
    ensures used == Chosen(store, key, normalized) && r.implicitResume == used.Some? && !r.explicitPrevious && !r.replayAvailable
    ensures r.original.input == normalized.input && r.original.previousResponseID == ""
    ensures used.Some? ==>
      && r.request.previousResponseID == used.value.responseID && used.value.responseID != ""
      && used.value.history + r.request.input == normalized.input && r.preferredAccountID == used.value.accountID
      && r.request.model == r.original.model == used.value.model && r.turnState == TrimSpace(used.value.turnState)
      && r.request.aliases == r.original.aliases == Merged(normalized.aliases, used.value.aliases)
    ensures used.None? ==> r.request.input == normalized.input && r.preferredAccountID == ""
    ensures InConversation(r, used, key) && Keyed(normalized, r)
  {
    hide TrimSpace, Resumable, Merged, Chosen, Resumed, FirstResumable, WithKey, Blank, Seen, ListByConversation;
    var base := ImplicitBase(normalized, key);
    var excluded := {};
    used := None;
    r := base;
    if key != "" {
      var records := ListByConversation(store.all, key);
      FirstSame(records, {}, base.request, normalized);
      r, used := ResumeFirst(base, records, {});
      if used.Some? { OfConversation(store.all, key, used.value); }
      excluded := Seen(records);
    }
    if used.None? {
      FirstSame(store.all, excluded, base.request, normalized);
      r, used := ResumeFirst(base, store.all, excluded);
      ghost var before := r;
      if used.Some? && !Blank(used.value.conversationKey) {
        r := WithKey(r, TrimSpace(used.value.conversationKey));
        KeyOnly(before, TrimSpace(used.value.conversationKey));
      }
    }
    ChosenIs(store, key, normalized);
    if used.Some? {
      ChosenHas(store, key, normalized);
      ResumedIs(base, used.value);
    }
  }

  lemma OfConversation(all: seq<Continuation>, key: string, c: Continuation)
    requires key != "" && c in ListByConversation(all, key)
    ensures TrimSpace(c.conversationKey) == key && !Blank(c.conversationKey)
  {
    ListedExactly(all, key);
  }

  /** A request without a cache key of its own gets that of its conversation. */
  predicate Keyed(normalized: Request, r: Resolution) {
    Blank(normalized.promptCacheKey) && r.conversationKey != "" ==>
      r.request.promptCacheKey == r.original.promptCacheKey == r.conversationKey
  }

  /** The conversation is that of the turn that is resumed, if it says so, and otherwise the request's own. */
  predicate InConversation(r: Resolution, used: Option<Continuation>, own: string) {
    r.conversationKey == if used.Some? && !Blank(used.value.conversationKey) then TrimSpace(used.value.conversationKey) else own
  }

  /** The request as it is before anything is resumed. */
  method ImplicitBase(normalized: Request, key: string) returns (base: Resolution)
    ensures base.request == base.original == normalized.(promptCacheKey := base.request.promptCacheKey)
    ensures !base.explicitPrevious && !base.implicitResume && !base.replayAvailable && base.preferredAccountID == ""
    ensures base.conversationKey == key && Keyed(normalized, base)
  {
    hide Blank;
    base := Base(normalized);
    if key != "" {
      base := if Blank(normalized.promptCacheKey) then WithKey(base, key) else base.(conversationKey := key);
    }
  }

  lemma KeyOnly(r: Resolution, key: string)
    ensures WithKey(r, key).request == r.request.(promptCacheKey := key)
    ensures WithKey(r, key).original == r.original.(promptCacheKey := key)
    ensures WithKey(r, key).conversationKey == key
    ensures WithKey(r, key) == r.(conversationKey := key, request := WithKey(r, key).request, original := WithKey(r, key).original)
  {}

  lemma ChosenHas(store: Store, key: string, request: Request)
    ensures Chosen(store, key, request).Some? ==>
      Chosen(store, key, request).value.responseID != "" && Chosen(store, key, request).value.history <= request.input
  {
    hide TrimSpace, IsPrior, Answers;
    var c := Chosen(store, key, request);
    if c.Some? { ResumableHas(c.value, request); }
  }

  lemma ResumedIs(base: Resolution, record: Continuation)
    requires record.history <= base.request.input
    ensures var r := Resumed(base, record);
      && record.history + r.request.input == base.request.input && r.original.input == base.original.input
      && r.request.previousResponseID == record.responseID && r.original.previousResponseID == base.original.previousResponseID
      && r.request.model == r.original.model == record.model && r.preferredAccountID == record.accountID
      && r.implicitResume && r.explicitPrevious == base.explicitPrevious && r.replayAvailable == base.replayAvailable
      && r.turnState == TrimSpace(record.turnState)
      && r.request.aliases == Merged(base.request.aliases, record.aliases) && r.original.aliases == Merged(base.original.aliases, record.aliases)
      && r.conversationKey == base.conversationKey && r.request.promptCacheKey == base.request.promptCacheKey
      && r.original.promptCacheKey == base.original.promptCacheKey
  {
    hide TrimSpace, Merged;
  }

  lemma ChosenIs(store: Store, key: string, request: Request)
    ensures Chosen(store, key, request)
      == var first := if key == "" then None else FirstResumable(ListByConversation(store.all, key), {}, request);
         if first.Some? then first
         else FirstResumable(store.all, if key == "" then {} else Seen(ListByConversation(store.all, key)), request)
  {
    hide FirstResumable;
  }

  lemma ResumableHas(c: Continuation, request: Request)
    requires Resumable(c, request)
    ensures c.responseID != "" && c.history <= request.input
  {}

  /** The stored turn belongs to the conversation. */
  predicate Belongs(c: Continuation, key: string) {
    key != "" && TrimSpace(c.conversationKey) == key
  }

  /** No turn of the conversation has the id. */
  predicate Foreign(id: string, all: seq<Continuation>, key: string) {
    forall d | d in all && Belongs(d, key) :: TrimSpace(d.responseID) != id
  }

  /** The turn at i is the newest of its conversation that can be resumed; or it belongs to another, none of
      its own conversation can be resumed, and it is the newest of all that can. */
  ghost predicate FirstChoice(all: seq<Continuation>, key: string, request: Request, i: nat) {
    && i < |all| && Resumable(all[i], request)
    && (if Belongs(all[i], key) then forall j | 0 <= j < i && Belongs(all[j], key) :: !Resumable(all[j], request)
        else
          && (forall j | 0 <= j < |all| && Belongs(all[j], key) :: !Resumable(all[j], request))
          && Foreign(all[i].responseID, all, key)
          && forall j | 0 <= j < i && Foreign(all[j].responseID, all, key) :: !Resumable(all[j], request))
  }

  /** A list has a first record of a kind, or none. */
  lemma {:induction false} FirstAt(records: seq<Continuation>, excluded: set<string>, request: Request) returns (i: nat)
    ensures match FirstResumable(records, excluded, request)
      case None => true
      case Some(c) =>
        && i < |records| && records[i] == c
        && forall j | 0 <= j < i :: records[j].responseID in excluded || !Resumable(records[j], request)
  {
    hide Resumable;
    i := 0;
    if records != [] && (records[0].responseID in excluded || !Resumable(records[0], request)) {
      i := FirstAt(records[1..], excluded, request);
      i := i + 1;
    }
  }

  lemma {:induction false} ListedAt(all: seq<Continuation>, key: string, p: nat) returns (i: nat)
    requires key != "" && p < |ListByConversation(all, key)|
    ensures i < |all| && all[i] == ListByConversation(all, key)[p] && Belongs(all[i], key)
    ensures forall j | 0 <= j < i && Belongs(all[j], key) :: exists q :: 0 <= q < p && ListByConversation(all, key)[q] == all[j]
  {
    hide TrimSpace;
    var listed, rest := ListByConversation(all, key), ListByConversation(all[1..], key);
    if Belongs(all[0], key) {
      assert listed == [all[0]] + rest;
      i := 0;
      if p > 0 {
        i := ListedAt(all[1..], key, p - 1);
        forall j | 0 <= j < i + 1 && Belongs(all[j], key) ensures exists q :: 0 <= q < p && listed[q] == all[j] {
          if j == 0 {
            assert listed[0] == all[0];
          } else {
            assert all[1..][j - 1] == all[j];
            var q :| 0 <= q < p - 1 && rest[q] == all[1..][j - 1];
            assert listed[q + 1] == all[j];
          }
        }
        i := i + 1;
      }
    } else {
      assert listed == [] + rest == rest;
      i := ListedAt(all[1..], key, p);
      forall j | 0 <= j < i + 1 && Belongs(all[j], key) ensures exists q :: 0 <= q < p && listed[q] == all[j] {
        assert all[1..][j - 1] == all[j];
      }
      i := i + 1;
    }
  }

  lemma {:induction false} ListedExactly(all: seq<Continuation>, key: string)
    requires key != ""
    ensures forall c :: c in ListByConversation(all, key) <==> c in all && Belongs(c, key)
  {
    hide TrimSpace;
    if all != [] {
      ListedExactly(all[1..], key);
      assert all == [all[0]] + all[1..];
    }
  }

  lemma SeenIsNotForeign(all: seq<Continuation>, key: string, id: string)
    requires key != "" && id != "" && TrimSpace("") == ""
    ensures id in Seen(ListByConversation(all, key)) <==> !Foreign(id, all, key)
  {
    ListedExactly(all, key);
    hide TrimSpace, ListByConversation, Belongs;
  }

  lemma ChosenInConversation(all: seq<Continuation>, key: string, request: Request, c: Continuation) returns (i: nat)
    requires key != "" && FirstResumable(ListByConversation(all, key), {}, request) == Some(c)
    ensures FirstChoice(all, key, request, i) && all[i] == c
  {
    var p := FirstAt(ListByConversation(all, key), {}, request);
    i := ListedAt(all, key, p);
    hide Resumable, Belongs, ListByConversation;
  }

  lemma NoneOfConversation(all: seq<Continuation>, key: string, request: Request)
    requires key != "" ==> FirstResumable(ListByConversation(all, key), {}, request) == None
    ensures forall d | d in all && Belongs(d, key) :: !Resumable(d, request)
  {
    if key != "" { ListedExactly(all, key); }
    hide Resumable, ListByConversation, TrimSpace;
  }

  /** The ids that are not looked at again. */
  function Excluded(all: seq<Continuation>, key: string): set<string> {
    if key == "" then {} else Seen(ListByConversation(all, key))
  }

  lemma ExcludedExactly(all: seq<Continuation>, key: string)
    ensures forall id | id != "" :: id in Excluded(all, key) <==> !Foreign(id, all, key)
  {
    assert TrimSpace("") == "";
    forall id | id != "" ensures id in Excluded(all, key) <==> !Foreign(id, all, key) {
      if key != "" { SeenIsNotForeign(all, key, id); }
    }
    hide Seen, ListByConversation, TrimSpace;
  }

  lemma FirstElsewhere(all: seq<Continuation>, key: string, request: Request, excluded: set<string>, i: nat)
    requires i < |all| && Resumable(all[i], request) && all[i].responseID !in excluded
    requires forall j | 0 <= j < i :: all[j].responseID in excluded || !Resumable(all[j], request)
    requires forall d | d in all && Belongs(d, key) :: !Resumable(d, request)
    requires forall id | id != "" :: id in excluded <==> !Foreign(id, all, key)
    ensures FirstChoice(all, key, request, i)
  {
    forall j | 0 <= j < |all| && Resumable(all[j], request) ensures all[j].responseID != "" { ResumableHas(all[j], request); }
    hide Resumable, Belongs, Foreign;
  }

  lemma ChosenElsewhere(all: seq<Continuation>, key: string, request: Request, c: Continuation) returns (i: nat)
    requires key != "" ==> FirstResumable(ListByConversation(all, key), {}, request) == None
    requires FirstResumable(all, Excluded(all, key), request) == Some(c)
    ensures FirstChoice(all, key, request, i) && all[i] == c
  {
    hide *;
    i := FirstAt(all, Excluded(all, key), request);
    NoneOfConversation(all, key, request);
    ExcludedExactly(all, key);
    FirstElsewhere(all, key, request, Excluded(all, key), i);
  }

  /** Which stored turn is resumed, told from the store. */
  lemma ChosenIsFirst(store: Store, key: string, request: Request) returns (i: nat)
    ensures Chosen(store, key, request).Some? ==>
      FirstChoice(store.all, key, request, i) && store.all[i] == Chosen(store, key, request).value
  {
    hide FirstChoice, FirstResumable, ListByConversation, Seen;
    i := 0;
    var chosen := Chosen(store, key, request);
    if chosen.Some? {
      if key != "" && FirstResumable(ListByConversation(store.all, key), {}, request).Some? {
        i := ChosenInConversation(store.all, key, request, chosen.value);
      } else {
        i := ChosenElsewhere(store.all, key, request, chosen.value);
      }
    }
  }

  /** With ids free of white space, a request is resumed exactly when some stored turn can be. */
  lemma ResumesWheneverPossible(store: Store, key: string, request: Request)
    requires forall c | c in store.all :: Trimmed(c.responseID)
    requires forall a, b | a in store.all && b in store.all && a.responseID == b.responseID :: a == b
    ensures Chosen(store, key, request).Some? <==> exists c | c in store.all :: Resumable(c, request)
  {
    hide Resumable, TrimSpace;
    var records := ListByConversation(store.all, key);
    ListedAreStored(store.all, key);
    forall c | c in store.all && c.responseID in Seen(records) ensures c in records {
      var d :| d in records && !Blank(d.responseID) && TrimSpace(d.responseID) == c.responseID;
      assert d == c;
    }
  }

  lemma {:induction false} ListedAreStored(records: seq<Continuation>, key: string)
    ensures forall c | c in ListByConversation(records, key) :: c in records
  {
    hide TrimSpace;
    if records != [] {
      ListedAreStored(records[1..], key);
      assert records == [records[0]] + records[1..];
    }
  }
}
