/** internal/server/public.go: how a resolved request is opened upstream, and how a failing account
    gives way to the next one. The upstream, the account selection and the clock are an arbitrary
    world that may answer differently after every attempt. */
module Failover {
  import opened Text
  import Session

  datatype Cause = Cancelled | Upstream(status: int) | Unavailable | Broken

  /** An error, and whether its text says that there are no active accounts. */
  datatype Error = Error(cause: Cause, saysNoAccounts: bool)

  const UNAVAILABLE: Error := Error(Unavailable, false)

  /** shouldFailoverRequest. */
  predicate Retryable(e: Error) {
    match e.cause
    case Cancelled => false
    case Upstream(status) => status in {401, 402, 403, 408, 429, 500, 502, 503, 504}
    case _ => true
  }

  /** What can happen after the accounts of a history have been tried: which account is selected
      (AcquireMatching with those excluded), whether it can be made ready, whether it has a default
      model, and whether the stream opens and shows a first event. */
  datatype World = World(
    selected: seq<string> -> Option<string>, selectionError: seq<string> -> Error,
    ready: (seq<string>, string) -> Option<Error>, supports: string -> bool, hasDefault: string -> bool,
    opens: (seq<string>, string) -> Option<Error>)

  /** What AcquireMatching promises about a selection among the accounts. */
  ghost predicate Selects(world: World, accounts: set<string>) {
    forall tried :: world.selected(tried).Some? ==>
      world.selected(tried).value in accounts && world.selected(tried).value !in tried && world.selected(tried).value != ""
  }

  /** An attempt: the account it used, "" for none, and its error. */
  datatype Attempt = Attempt(account: string, error: Option<Error>)

  /** Whether the request still needs a model to be picked for it. */
  predicate NeedsModel(request: Session.Request) {
    !request.modelExplicit && Blank(request.model)
  }

  /** One call of openHTTPStream or openWSStream with acquireAccountForResolutionExcluding. */
  function Try(continuing: bool, preferred: string, needsModel: bool, world: World, tried: seq<string>): Attempt {
    if continuing then
      var id := TrimSpace(preferred);
      if id == "" || world.ready(tried, id).Some? || !world.supports(id) then Attempt("", Some(UNAVAILABLE))
      else Attempt(id, world.opens(tried, id))
    else
      var selected := world.selected(tried);
      if selected.None? then Attempt("", Some(world.selectionError(tried)))
      else if world.ready(tried, selected.value).Some? then
        Attempt(if needsModel then "" else selected.value, world.ready(tried, selected.value))
      else if needsModel && !world.hasDefault(selected.value) then Attempt("", Some(UNAVAILABLE))
      else Attempt(selected.value, world.opens(tried, selected.value))
  }

  datatype Outcome = Opened(account: string) | Failed(account: string, error: Error)

  /** openStreamWithFailover, for a request that continues no stored turn. */
  method OpenStreamWithFailover(resolution: Session.Resolution, world: World, ghost accounts: set<string>)
    returns (outcome: Outcome, tried: seq<string>)
    requires !resolution.explicitPrevious && !resolution.implicitResume && Selects(world, accounts)
    ensures Distinct(tried) && (forall id | id in tried :: id in accounts && id != "") && |tried| <= |accounts|
    ensures AllRetried(resolution, world, tried)
    ensures Ends(resolution, world, tried, outcome)
  {
    hide Retryable, TrimSpace, Blank;
    tried := [];
    var lastAccount, lastError := "", None;
    var needsModel := NeedsModel(resolution.request);
    while true
      invariant Distinct(tried) && (forall id | id in tried :: id in accounts && id != "")
      invariant AllRetried(resolution, world, tried)
      invariant needsModel == (tried == [] && NeedsModel(resolution.request))
      invariant if tried == [] then lastError == None
                else lastAccount == tried[|tried| - 1] && lastError == AttemptAt(resolution, world, tried, |tried| - 1).error
      decreases |accounts| - |tried|
    {
      Bounded(tried, accounts);
      var attempt := Try(false, resolution.preferredAccountID, needsModel, world, tried);
      WholePrefix(tried);
      assert attempt == AttemptAt(resolution, world, tried, |tried|);
      if attempt.error == None {
        return Opened(attempt.account), tried;
      }
      var error := attempt.error.value;
      if attempt.account == "" {
        if lastError.Some? && error.saysNoAccounts {
          return Failed(lastAccount, lastError.value), tried;
        }
        return Failed("", error), tried;
      }
      if !Retryable(error) {
        return Failed(attempt.account, error), tried;
      }
      Extend(resolution, world, tried, attempt.account);
      OneMore(tried, attempt.account, accounts);
      tried := tried + [attempt.account];
      lastAccount, lastError := attempt.account, Some(error);
      needsModel := false;
    }
  }

  lemma WholePrefix(tried: seq<string>)
    ensures tried[..|tried|] == tried
  {}

  predicate Distinct(tried: seq<string>) {
    forall i, j | 0 <= i < j < |tried| :: tried[i] != tried[j]
  }

  /** The attempt made after the first n accounts. */
  function AttemptAt(resolution: Session.Resolution, world: World, tried: seq<string>, n: nat): Attempt
    requires n <= |tried|
  {
    Try(false, resolution.preferredAccountID, n == 0 && NeedsModel(resolution.request), world, tried[..n])
  }

  /** Every account that was given up had been selected and had failed in a way another may not. */
  predicate AllRetried(resolution: Session.Resolution, world: World, tried: seq<string>) {
    forall i | 0 <= i < |tried| ::
      var a := AttemptAt(resolution, world, tried, i); a.account == tried[i] && a.error.Some? && Retryable(a.error.value)
  }

  /** What the attempt after the last account given up was, and what the caller is told: its result;
      or, when there is no other account left, the error of the last one tried. */
  predicate Ends(resolution: Session.Resolution, world: World, tried: seq<string>, outcome: Outcome) {
    var a, n := AttemptAt(resolution, world, tried, |tried|), |tried|;
    if a.error.None? then outcome == Opened(a.account)
    else if a.account != "" then !Retryable(a.error.value) && outcome == Failed(a.account, a.error.value)
    else if tried != [] && a.error.value.saysNoAccounts then
      var last := AttemptAt(resolution, world, tried, n - 1);
      last.error.Some? && outcome == Failed(tried[n - 1], last.error.value)
    else outcome == Failed("", a.error.value)
  }

  /** What became of the account after those tried before it: it could not be made ready, or its stream did
      not open. */
  function FailureOf(world: World, before: seq<string>, id: string): Option<Error> {
    if world.ready(before, id).Some? then world.ready(before, id) else world.opens(before, id)
  }

  /** The account was selected with those before it excluded, and failed in a way another may not. */
  predicate GaveUp(world: World, tried: seq<string>, i: nat)
    requires i < |tried|
  {
    var failure := FailureOf(world, tried[..i], tried[i]);
    world.selected(tried[..i]) == Some(tried[i]) && failure.Some? && Retryable(failure.value)
  }

  /** What the end of the loop means in the world: every account that was given up had been selected and had
      failed; an opened stream is that of the account selected next, made ready, and with a model for it if
      none was named; and when no other account is left, the caller is told of the last one and its error. */
  lemma EndsMeans(resolution: Session.Resolution, world: World, tried: seq<string>, outcome: Outcome)
    requires AllRetried(resolution, world, tried) && Ends(resolution, world, tried, outcome) && "" !in tried
    ensures forall i | 0 <= i < |tried| :: GaveUp(world, tried, i)
    ensures outcome.Opened? ==>
      && world.selected(tried) == Some(outcome.account) && FailureOf(world, tried, outcome.account) == None
      && (tried == [] && NeedsModel(resolution.request) ==> world.hasDefault(outcome.account))
    ensures tried != [] && world.selected(tried).None? && world.selectionError(tried).saysNoAccounts ==>
      var n := |tried| - 1;
      outcome.Failed? && outcome.account == tried[n] && Some(outcome.error) == FailureOf(world, tried[..n], tried[n])
  {
    hide Retryable, TrimSpace, Blank, NeedsModel;
    forall i | 0 <= i < |tried| ensures GaveUp(world, tried, i) {
      assert AttemptAt(resolution, world, tried, i).account == tried[i];
    }
    assert tried[..|tried|] == tried;
    if tried != [] { assert GaveUp(world, tried, |tried| - 1); }
  }

  lemma Extend(resolution: Session.Resolution, world: World, tried: seq<string>, id: string)
    requires AllRetried(resolution, world, tried)
    requires var a := AttemptAt(resolution, world, tried, |tried|); a.account == id && a.error.Some? && Retryable(a.error.value)
    ensures AllRetried(resolution, world, tried + [id])
    ensures AttemptAt(resolution, world, tried + [id], |tried|) == AttemptAt(resolution, world, tried, |tried|)
  {
    hide Retryable, Try;
    var longer := tried + [id];
    forall i | 0 <= i < |longer|
      ensures var a := AttemptAt(resolution, world, longer, i); a.account == longer[i] && a.error.Some? && Retryable(a.error.value)
    {
      assert i <= |tried| && longer[..i] == tried[..i];
      assert AttemptAt(resolution, world, longer, i) == AttemptAt(resolution, world, tried, i);
    }
    assert longer[..|tried|] == tried[..|tried|];
  }

  lemma {:induction false} Bounded(tried: seq<string>, accounts: set<string>)
    requires Distinct(tried) && forall id | id in tried :: id in accounts
    ensures |tried| <= |accounts|
    decreases |tried|
  {
    if tried != [] {
      var rest := tried[1..];
      assert tried[0] in tried && forall id | id in rest :: id in tried;
      assert tried[0] !in rest;
      assert forall i | 0 <= i < |rest| :: rest[i] == tried[i + 1];
      Bounded(rest, accounts - {tried[0]});
    }
  }

  lemma OneMore(tried: seq<string>, id: string, accounts: set<string>)
    requires Distinct(tried) && (forall k | k in tried :: k in accounts) && id !in tried && id in accounts
    ensures Distinct(tried + [id]) && |tried| < |accounts|
  {
    Bounded(tried + [id], accounts);
  }

  /** The measure rests on the flags: for a request that continues a stored turn, the same account
      would be tried again and again. */
  lemma ContinuingRepeats(preferred: string, needsModel: bool, world: World, tried: seq<string>)
    requires Try(true, preferred, needsModel, world, tried).account != ""
    requires forall later, id :: world.ready(later, id) == world.ready(tried, id)
    ensures Try(true, preferred, needsModel, world, tried + [TrimSpace(preferred)]).account == TrimSpace(preferred)
      == Try(true, preferred, needsModel, world, tried).account
  {}

  // ----- which way a request is opened -----

  datatype Transport = HTTP | WebSocket

  datatype Route =
    | Rotating(resolution: Session.Resolution, transport: Transport)
    | Once(resolution: Session.Resolution)
    | OnceThen(resolution: Session.Resolution, fallback: Session.Resolution)

  /** openStream: the order of its cases. OnceThen stands for the fallback after a failed resume. */
  function RouteOf(r: Session.Resolution): Route {
    if r.request.previousResponseID != "" then
      if r.explicitPrevious && r.replayAvailable then
        var replay := r.(request := r.original, turnState := "", explicitPrevious := false);
        Rotating(replay, if replay.request.hostedSearch then WebSocket else HTTP)
      else if r.implicitResume then
        OnceThen(r, r.(request := r.original, preferredAccountID := "", turnState := "", implicitResume := false))
      else Once(r)
    else if r.request.generate || r.request.hostedSearch then Rotating(r, WebSocket)
    else Rotating(r, HTTP)
  }

  /** Every resolution that resolveSession makes enters the failover loop with both flags off, and what it is
      sent then is the whole conversation, to no account in particular unless the continued turn named its
      own; a turn that can be neither replayed nor resumed otherwise is opened once. A hosted search goes
      through a web socket. */
  lemma FailoverNeedsNoFlags(r: Session.Resolution)
    requires Session.FlagsFit(r)
    ensures var route := RouteOf(r);
      match route
      case Rotating(s, transport) =>
        && !s.explicitPrevious && !s.implicitResume && s.request.previousResponseID == ""
        && (if r.request.previousResponseID == "" then s == r
            else r.replayAvailable && s.request == r.original && s.turnState == "" && s.preferredAccountID == r.preferredAccountID)
        && (s.request.hostedSearch ==> transport == WebSocket)
        && (transport == WebSocket ==> s.request.hostedSearch || (s == r && r.request.generate))
      case OnceThen(first, s) =>
        && first == r && !s.explicitPrevious && !s.implicitResume && s.request == r.original && s.request.previousResponseID == ""
        && r.implicitResume && s.preferredAccountID == "" && s.turnState == ""
      case Once(first) => first == r && r.request.previousResponseID != "" && !r.implicitResume && !r.replayAvailable
  {}
}
