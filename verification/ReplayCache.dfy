/** ReplayManager (internal/anthropic/replay.go): remembered turns, bounded in number, bytes and
    time. `latest` is the cache it would be without the bounds. */
module ReplayCache {
  import opened Text
  import opened ReplayApply
  import ReplaySplice

  datatype Record = Record(accountID: string, blocks: Content, expiresAt: int, size: nat)

  type Records = map<string, Record>

  const EVICT_BATCH: nat := 128

  // ----- sizes -----

  /** What the records weigh together. */
  ghost function Total(records: Records): nat {
    if records == map[] then 0
    else
      var k :| k in records;
      records[k].size + Total(records - {k})
  }

  lemma {:induction false} TotalTakes(records: Records, k: string)
    requires k in records
    ensures Total(records) == records[k].size + Total(records - {k})
    decreases |records|
  {
    var j :| j in records && Total(records) == records[j].size + Total(records - {j});
    if j != k {
      TotalTakes(records - {j}, k);
      TotalTakes(records - {k}, j);
      assert records - {j} - {k} == records - {k} - {j};
    }
  }

  lemma TotalAdds(records: Records, k: string, r: Record)
    requires k !in records
    ensures Total(records[k := r]) == Total(records) + r.size
  {
    TotalTakes(records[k := r], k);
    assert records[k := r] - {k} == records;
  }

  function BlockSize(b: Block): nat {
    match b
    case TextBlock(text) => 4 + |text|
    case Thinking(thinking, signature, _) => 8 + |thinking| + |signature|
    case Redacted(thinking, signature, _) => 17 + |thinking| + |signature|
    case ToolUse(id, name, input) => 8 + |id| + |name| + |input|
    case ToolResult(_, _) => 11
    case Other(tag) => |tag|
  }

  /** replayContentSize. */
  function ContentSize(blocks: Content): nat {
    if blocks == [] then 0 else BlockSize(blocks[0]) + ContentSize(blocks[1..])
  }

  /** The texts of a block that are kept: its type and its own. */
  function TextsOf(b: Block): seq<string> {
    match b
    case TextBlock(text) => ["text", text]
    case Thinking(thinking, signature, _) => ["thinking", thinking, signature]
    case Redacted(thinking, signature, _) => ["redacted_thinking", thinking, signature]
    case ToolUse(id, name, input) => ["tool_use", id, name, input]
    case ToolResult(_, _) => ["tool_result"]
    case Other(tag) => [tag]
  }

  function Joined(texts: seq<string>): string {
    if texts == [] then "" else texts[0] + Joined(texts[1..])
  }

  function Written(blocks: Content): string {
    if blocks == [] then "" else Joined(TextsOf(blocks[0])) + Written(blocks[1..])
  }

  lemma BlockSizeIsLength(b: Block)
    ensures BlockSize(b) == |Joined(TextsOf(b))|
  {
    match b
    case TextBlock(text) => Two("text", text);
    case Thinking(thinking, signature, _) => Three("thinking", thinking, signature);
    case Redacted(thinking, signature, _) => Three("redacted_thinking", thinking, signature);
    case ToolUse(id, name, input) =>
      assert ["tool_use", id, name, input][1..] == [id, name, input];
      Three(id, name, input);
    case ToolResult(_, _) => assert ["tool_result"][1..] == [];
    case Other(tag) => assert [tag][1..] == [];
  }

  lemma Two(a: string, b: string)
    ensures Joined([a, b]) == a + b
  {
    assert [a, b][1..] == [b] && [b][1..] == [];
    assert Joined([b]) == b + Joined([]);
  }

  lemma Three(a: string, b: string, c: string)
    ensures Joined([a, b, c]) == a + b + c
  {
    assert [a, b, c][1..] == [b, c];
    Two(b, c);
    assert a + (b + c) == a + b + c;
  }

  /** What a turn weighs is the length of all its texts written behind each other. */
  lemma {:induction false} SizeIsLength(blocks: Content)
    ensures ContentSize(blocks) == |Written(blocks)|
  {
    hide BlockSize, TextsOf, Joined;
    if blocks != [] {
      BlockSizeIsLength(blocks[0]);
      SizeIsLength(blocks[1..]);
    }
  }

  /** hasToolUseBlock. */
  predicate HasToolUse(blocks: Content) {
    exists b | b in blocks :: b.ToolUse? && !Blank(b.id)
  }

  /** replayKey, "" when there is none. */
  function ReplayKey(scope: string, model: string): string {
    if Blank(scope) || Blank(model) then "" else TrimSpace(scope) + [0 as char] + TrimSpace(model)
  }

  /** Scopes without the separator in them: two conversations share a key exactly when they have the same
      scope and the same model, white space at the ends apart. */
  lemma KeysExactly(scope: string, model: string, scope': string, model': string)
    requires !Blank(scope) && !Blank(model) && !Blank(scope') && !Blank(model')
    requires (0 as char) !in scope && (0 as char) !in scope'
    ensures ReplayKey(scope, model) == ReplayKey(scope', model')
      <==> TrimSpace(scope) == TrimSpace(scope') && TrimSpace(model) == TrimSpace(model')
  {
    var left, right := TrimTakes(scope);
    assert forall c | c in TrimSpace(scope) :: c in scope;
    var left', right' := TrimTakes(scope');
    assert forall c | c in TrimSpace(scope') :: c in scope';
    SplitOnce(TrimSpace(scope), TrimSpace(model), TrimSpace(scope'), TrimSpace(model'), 0 as char);
    hide TrimSpace;
  }

  /** With the separator in a scope, two conversations can share a key. */
  lemma SeparatorInScope(a: string, b: string, c: string)
    requires Trimmed(a) && Trimmed(b) && Trimmed(c) && a != "" && b != "" && c != ""
    ensures ReplayKey(a + [0 as char] + b, c) == ReplayKey(a, b + [0 as char] + c) != ""
  {
    assert Trimmed(a + [0 as char] + b) && Trimmed(b + [0 as char] + c);
    assert a + [0 as char] + b + [0 as char] + c == a + [0 as char] + (b + [0 as char] + c);
    hide TrimLeft, TrimRight;
  }

  lemma {:induction false} SplitOnce(a: string, b: string, a': string, b': string, c: char)
    requires c !in a && c !in a'
    ensures a + [c] + b == a' + [c] + b' <==> a == a' && b == b'
  {
    var s, s' := a + [c] + b, a' + [c] + b';
    if a == "" || a' == "" {
      assert s[0] == (if a == "" then c else a[0]) && s'[0] == (if a' == "" then c else a'[0]);
      assert a == "" ==> s[1..] == b;
      assert a' == "" ==> s'[1..] == b';
    } else {
      SplitOnce(a[1..], b, a'[1..], b', c);
      var t, t' := a[1..] + [c] + b, a'[1..] + [c] + b';
      assert s == [a[0]] + t && s' == [a'[0]] + t';
      assert s[0] == a[0] && s'[0] == a'[0] && s[1..] == t && s'[1..] == t';
      assert a == [a[0]] + a[1..] && a' == [a'[0]] + a'[1..];
    }
  }

  // ----- eviction -----

  function EntryTarget(entries: nat, maxEntries: nat): nat {
    if entries <= maxEntries then maxEntries
    else
      var eighth := if maxEntries / 8 < 1 then 1 else maxEntries / 8;
      var batch := if EVICT_BATCH < eighth then EVICT_BATCH else eighth;
      if maxEntries < batch then 0 else maxEntries - batch
  }

  function ByteTarget(bytes: nat, maxBytes: nat): nat {
    if bytes <= maxBytes then maxBytes else maxBytes - maxBytes / 16
  }

  /** Eviction makes room for more than the next record: it goes below a limit that is exceeded, by an
      eighth of the entries but not by more than a batch, and by a sixteenth of the bytes, both rounded down. */
  lemma TargetsLeaveRoom(entries: nat, maxEntries: nat, bytes: nat, maxBytes: nat)
    ensures entries <= maxEntries ==> EntryTarget(entries, maxEntries) == maxEntries
    ensures entries > maxEntries > 0 ==>
      var room := maxEntries - EntryTarget(entries, maxEntries);
      1 <= room <= EVICT_BATCH && (room > 1 ==> 8 * room <= maxEntries) && (room < EVICT_BATCH ==> maxEntries < 8 * (room + 1))
    ensures bytes <= maxBytes ==> ByteTarget(bytes, maxBytes) == maxBytes
    ensures bytes > maxBytes ==> 16 * (maxBytes - ByteTarget(bytes, maxBytes)) <= maxBytes < 16 * (maxBytes - ByteTarget(bytes, maxBytes) + 1)
  {}

  predicate WithinTargets(records: Records, bytes: nat, entryTarget: nat, byteTarget: nat) {
    |records| <= entryTarget && bytes <= byteTarget
  }

  predicate SortedByExpiry(order: seq<string>, records: Records) {
    && (forall k | k in order :: k in records)
    && (forall i, j | 0 <= i < j < |order| :: order[i] in records && order[j] in records && order[i] != order[j]
          && records[order[i]].expiresAt <= records[order[j]].expiresAt)
  }

  /** The records without the first n of an order. */
  function Evicted(records: Records, order: seq<string>, n: nat): Records
    requires n <= |order|
  {
    records - (set k | k in order[..n])
  }

  /** Eviction takes a prefix of the records in the order of expiry, and not one more than it takes
      to reach both targets. */
  ghost predicate EvictsMinimally(before: Records, after: Records, entryTarget: nat, byteTarget: nat) {
    exists order, n: nat :: n <= |order| && EvictsPrefix(before, after, order, n, entryTarget, byteTarget)
  }

  ghost predicate EvictsPrefix(before: Records, after: Records, order: seq<string>, n: nat, entryTarget: nat, byteTarget: nat)
    requires n <= |order|
  {
    && SortedByExpiry(order, before) && (forall k | k in before :: k in order)
    && after == Evicted(before, order, n)
    && WithinTargets(after, Total(after), entryTarget, byteTarget)
    && StillNeeded(before, order, n, entryTarget, byteTarget)
  }

  /** With fewer than n evicted the targets are not reached. */
  ghost predicate StillNeeded(before: Records, order: seq<string>, n: nat, entryTarget: nat, byteTarget: nat)
    requires n <= |order|
  {
    forall m | 0 <= m < n ::
      !WithinTargets(Evicted(before, order, m), Total(Evicted(before, order, m)), entryTarget, byteTarget)
  }

  /** The records are the last remembered ones, but for those evicted or expired. */
  ghost predicate Agrees(records: Records, latest: Records, evicted: set<string>, clock: int) {
    && (forall k | k in records :: k in latest && latest[k] == records[k] && k !in evicted)
    && (forall k | k in latest :: k in records || k in evicted || latest[k].expiresAt <= clock)
  }

  lemma Forgetting(records: Records, latest: Records, evicted: set<string>, clock: int, key: string)
    requires Agrees(records, latest, evicted, clock)
    ensures Agrees(records - {key}, latest - {key}, evicted - {key}, clock)
  {}

  lemma Putting(records: Records, latest: Records, evicted: set<string>, clock: int, key: string, r: Record)
    requires Agrees(records, latest, evicted, clock) && key !in evicted
    ensures Agrees(records[key := r], latest[key := r], evicted, clock)
  {}

  lemma Evicting(before: Records, after: Records, latest: Records, evicted: set<string>, clock: int)
    requires Agrees(before, latest, evicted, clock) && forall k | k in after :: k in before && after[k] == before[k]
    ensures Agrees(after, latest, evicted + (before.Keys - after.Keys), clock)
  {}

  lemma Expiring(before: Records, after: Records, latest: Records, evicted: set<string>, clock: int, now: int)
    requires Agrees(before, latest, evicted, clock) && clock <= now
    requires forall k | k in after :: k in before && after[k] == before[k]
    requires forall k | k in before :: k in after || before[k].expiresAt <= now
    ensures Agrees(after, latest, evicted, now)
  {}

  /** Nothing is evicted while the bounds hold; otherwise as little as reaches the targets. */
  ghost predicate Fitted(before: Records, after: Records, maxEntries: nat, maxBytes: nat) {
    if |before| <= maxEntries && Total(before) <= maxBytes then after == before
    else EvictsMinimally(before, after, EntryTarget(|before|, maxEntries), ByteTarget(Total(before), maxBytes))
  }

  class ReplayManager {
    const ttl: int
    const maxEntries: nat
    const maxBytes: nat
    var bytes: int
    var records: Records

    /** The last record remembered under every key and not deleted, whatever its age. */
    ghost var latest: Records
    /** The keys whose last record was evicted to keep the bounds. */
    ghost var evicted: set<string>
    /** The latest time seen. */
    ghost var clock: int

    ghost predicate Valid()
      reads this
    {
      && bytes == Total(records)
      && |records| <= maxEntries && bytes <= maxBytes
      && Agrees(records, latest, evicted, clock)
    }

    constructor (ttl: int, maxEntries: nat, maxBytes: nat)
      ensures Valid() && records == map[] && latest == map[] && evicted == {} && clock == 0
      ensures this.ttl == ttl && this.maxEntries == maxEntries && this.maxBytes == maxBytes
    {
      this.ttl, this.maxEntries, this.maxBytes := ttl, maxEntries, maxBytes;
      bytes, records, latest, evicted, clock := 0, map[], map[], {}, 0;
    }

    method DeleteLocked(key: string)
      requires bytes == Total(records)
      modifies this`bytes, this`records
      ensures records == old(records) - {key} && bytes == Total(records)
    {
      if key in records {
        TotalTakes(records, key);
        bytes := bytes - records[key].size;
        records := records - {key};
      }
    }

    /** The keys in the order their records expire; records that expire together in any order. */
    method SortCandidates() returns (order: seq<string>)
      ensures SortedByExpiry(order, records) && forall k | k in records :: k in order
    {
      order := [];
      var rest := records.Keys;
      while rest != {}
        invariant rest <= records.Keys && SortedByExpiry(order, records)
        invariant forall k | k in records :: k in rest <==> k !in order
        invariant forall k, o | k in order && o in rest :: k in records && o in records && records[k].expiresAt <= records[o].expiresAt
        decreases |rest|
      {
        EarliestExists(records, rest);
        var key :| key in rest && forall o | o in rest :: o in records && records[key].expiresAt <= records[o].expiresAt;
        order := order + [key];
        rest := rest - {key};
      }
    }

    /** Deletes in the given order until both targets are reached. */
    method DeleteUntil(candidates: seq<string>, entryTarget: nat, byteTarget: nat) returns (ghost n: nat)
      requires bytes == Total(records) && SortedByExpiry(candidates, records) && forall k | k in records :: k in candidates
      modifies this`bytes, this`records
      ensures bytes == Total(records)
      ensures n <= |candidates| && EvictsPrefix(old(records), records, candidates, n, entryTarget, byteTarget)
    {
      hide Evicted, SortedByExpiry, WithinTargets, Total;
      ghost var before := records;
      NoneEvicted(before, candidates);
      var i := 0;
      while i < |candidates| && !WithinTargets(records, bytes, entryTarget, byteTarget)
        invariant 0 <= i <= |candidates| && bytes == Total(records) && records == Evicted(before, candidates, i)
        invariant StillNeeded(before, candidates, i, entryTarget, byteTarget)
      {
        EvictOne(before, candidates, i);
        DeleteLocked(candidates[i]);
        i := i + 1;
      }
      if i == |candidates| {
        EvictAll(before, candidates);
        NothingIsWithin(entryTarget, byteTarget);
      }
      n := i;
    }

    method EvictLocked()
      requires bytes == Total(records)
      modifies this`bytes, this`records
      ensures bytes == Total(records) && |records| <= maxEntries && bytes <= maxBytes
      ensures Fitted(old(records), records, maxEntries, maxBytes)
      ensures forall k | k in records :: k in old(records) && records[k] == old(records)[k]
    {
      hide Evicted, SortedByExpiry, Total, StillNeeded;
      if |records| <= maxEntries && bytes <= maxBytes {
        return;
      }
      var candidates := SortCandidates();
      var entryTarget, byteTarget := EntryTarget(|records|, maxEntries), ByteTarget(bytes, maxBytes);
      TargetsBelowLimits(|records|, maxEntries, bytes, maxBytes);
      hide EntryTarget, ByteTarget;
      ghost var n := DeleteUntil(candidates, entryTarget, byteTarget);
      EvictedSubset(old(records), candidates, n);
    }

    /** Puts a record in and makes room for it. */
    method Store(key: string, record: Record)
      requires Valid() && key !in records && key !in evicted && record.size <= maxBytes
      modifies this`bytes, this`records, this`latest, this`evicted
      ensures Valid() && latest == old(latest)[key := record]
      ensures Fitted(old(records)[key := record], records, maxEntries, maxBytes)
      ensures evicted == old(evicted) + (old(records)[key := record].Keys - records.Keys)
    {
      hide Fitted, Agrees, Total;
      TotalAdds(records, key, record);
      Putting(records, latest, evicted, clock, key, record);
      records := records[key := record];
      bytes := bytes + record.size;
      latest := latest[key := record];
      ghost var before := records;
      EvictLocked();
      Evicting(before, records, latest, evicted, clock);
      evicted := evicted + (before.Keys - records.Keys);
    }

    ghost method Tick(now: int)
      requires Valid() && clock <= now
      modifies this`clock
      ensures Valid() && clock == now
    {
      Expiring(records, records, latest, evicted, clock, now);
      hide Agrees;
      clock := now;
    }

    /** Whatever is remembered under the key is gone. */
    method Forget(key: string)
      requires Valid()
      modifies this`bytes, this`records, this`latest, this`evicted
      ensures Valid() && records == old(records) - {key} && latest == old(latest) - {key} && evicted == old(evicted) - {key}
    {
      hide Agrees, Total;
      ghost var fewer, last, gone := records - {key}, latest - {key}, evicted - {key};
      TotalNonNegative(records, key);
      Forgetting(records, latest, evicted, clock, key);
      assert |fewer| <= maxEntries && Total(fewer) <= maxBytes && Agrees(fewer, last, gone, clock);
      DeleteLocked(key);
      latest, evicted := last, gone;
    }

    /** Remembers the blocks of a finished turn, unless they hold no call or are too large; in any case
        what was remembered under the key before is gone. */
    method Remember(rawScope: string, rawModel: string, accountID: string, blocks: Content, now: int) returns (retained: bool)
      requires Valid() && clock <= now
      modifies this
      ensures Valid() && clock == now
      ensures var key, size := ReplayKey(rawScope, rawModel), ContentSize(blocks) + |accountID| + |ReplayKey(rawScope, rawModel)|;
        && retained == (key != "" && HasToolUse(blocks) && size <= maxBytes && key in records)
        && latest == (if key == "" then old(latest)
                      else if !HasToolUse(blocks) || size > maxBytes then old(latest) - {key}
                      else old(latest)[key := Record(TrimSpace(accountID), blocks, now + ttl, size)])
        && (if key == "" then records == old(records) && evicted == old(evicted)
            else if !HasToolUse(blocks) || size > maxBytes then
              records == old(records) - {key} && evicted == old(evicted) - {key}
            else
              var full := (old(records) - {key})[key := Record(TrimSpace(accountID), blocks, now + ttl, size)];
              && Fitted(full, records, maxEntries, maxBytes)
              && evicted == old(evicted) - {key} + (full.Keys - records.Keys))
    {
      hide TrimSpace, HasToolUse, Blank, Valid, ContentSize, ReplayKey, Fitted;
      Tick(now);
      var key := ReplayKey(rawScope, rawModel);
      if key == "" {
        return false;
      }
      Forget(key);
      var size := ContentSize(blocks) + |accountID| + |key|;
      if !HasToolUse(blocks) || size > maxBytes {
        return false;
      }
      Store(key, Record(TrimSpace(accountID), blocks, now + ttl, size));
      retained := key in records;
    }

    /** What is found is the last record remembered under the key; it is found exactly when that has
        not expired and has not been evicted. */
    method Get(scope: string, model: string, now: int) returns (found: Option<Record>)
      requires Valid() && clock <= now
      modifies this`records, this`bytes, this`clock
      ensures Valid() && clock == now && latest == old(latest)
      ensures var key := ReplayKey(scope, model);
        found == if key in latest && key !in evicted && now < latest[key].expiresAt then Some(latest[key]) else None
    {
      hide ReplayKey;
      clock := now;
      var key := ReplayKey(scope, model);
      if key !in records {
        return None;
      }
      if records[key].expiresAt <= now {
        TotalNonNegative(records, key);
        DeleteLocked(key);
        return None;
      }
      return Some(records[key]);
    }

    method Delete(scope: string, model: string)
      requires Valid()
      modifies this
      ensures Valid() && latest == old(latest) - {ReplayKey(scope, model)} && records == old(records) - {ReplayKey(scope, model)}
      ensures clock == old(clock)
    {
      Forget(ReplayKey(scope, model));
    }

    /** Removes exactly the records that have expired. */
    method Sweep(now: int)
      requires Valid() && clock <= now
      modifies this`records, this`bytes, this`clock
      ensures Valid() && clock == now && latest == old(latest)
      ensures records == map k | k in old(records) && now < old(records)[k].expiresAt :: old(records)[k]
    {
      hide Agrees, Total, SweptSoFar;
      ghost var before, start := records, clock;
      clock := now;
      var todo := records.Keys;
      Unswept(before, now);
      while todo != {}
        invariant todo <= before.Keys && bytes == Total(records) && |records| <= maxEntries && bytes <= maxBytes
        invariant records == SweptSoFar(before, todo, now) && clock == now
        decreases |todo|
      {
        var key :| key in todo;
        SweepOne(before, todo, key, now);
        if records[key].expiresAt <= now {
          TotalNonNegative(records, key);
          DeleteLocked(key);
        }
        todo := todo - {key};
      }
      SweptAll(before, now);
      Expiring(before, records, latest, evicted, start, now);
    }

    /** ReplayManager.Apply. */
    method Apply(scope: string, model: string, messages: seq<Message>, rules: Rules, now: int)
      returns (result: seq<Message>, outcome: Outcome, accountID: string)
      requires Valid() && clock <= now
      modifies this`records, this`bytes, this`clock
      ensures Valid() && clock == now && latest == old(latest)
      ensures var key := ReplayKey(scope, model);
        if key in latest && key !in evicted && now < latest[key].expiresAt then
          (result, outcome) == ReplayApply.Apply(messages, latest[key].blocks, rules)
          && accountID == (if outcome == Unmatched then "" else latest[key].accountID)
        else result == messages && outcome == Unmatched && accountID == ""
    {
      hide ReplayApply.Apply, ReplayKey, Valid;
      var found := Get(scope, model, now);
      if found == None {
        return messages, Unmatched, "";
      }
      result, outcome := ReplaySplice.Splice(messages, found.value.blocks, rules);
      accountID := if outcome == Unmatched then "" else found.value.accountID;
    }
  }

  /** The records that are not yet looked at or have not expired. */
  function SweptSoFar(before: Records, todo: set<string>, now: int): Records {
    map k | k in before && (k in todo || now < before[k].expiresAt) :: before[k]
  }

  lemma Unswept(before: Records, now: int)
    ensures SweptSoFar(before, before.Keys, now) == before
  {}

  lemma SweptAll(before: Records, now: int)
    ensures SweptSoFar(before, {}, now) == map k | k in before && now < before[k].expiresAt :: before[k]
    ensures forall k | k in SweptSoFar(before, {}, now) :: k in before && SweptSoFar(before, {}, now)[k] == before[k]
    ensures forall k | k in before :: k in SweptSoFar(before, {}, now) || before[k].expiresAt <= now
  {}

  lemma SweepOne(before: Records, todo: set<string>, key: string, now: int)
    requires key in todo && key in before
    ensures key in SweptSoFar(before, todo, now) && SweptSoFar(before, todo, now)[key] == before[key]
    ensures SweptSoFar(before, todo - {key}, now)
      == if before[key].expiresAt <= now then SweptSoFar(before, todo, now) - {key} else SweptSoFar(before, todo, now)
  {}

  lemma TotalNonNegative(records: Records, key: string)
    ensures Total(records - {key}) <= Total(records) && |records - {key}| <= |records|
  {
    if key in records {
      TotalTakes(records, key);
      assert (records - {key}).Keys == records.Keys - {key};
    } else {
      assert records - {key} == records;
    }
  }

  lemma {:induction false} EarliestExists(records: Records, rest: set<string>)
    requires rest != {} && rest <= records.Keys
    ensures exists key :: key in rest && forall o | o in rest :: o in records && records[key].expiresAt <= records[o].expiresAt
    decreases |rest|
  {
    var k :| k in rest;
    if rest == {k} {
    } else {
      EarliestExists(records, rest - {k});
      var e :| e in rest - {k} && forall o | o in rest - {k} :: o in records && records[e].expiresAt <= records[o].expiresAt;
      var best := if records[k].expiresAt <= records[e].expiresAt then k else e;
      assert forall o | o in rest :: o == k || o in rest - {k};
      assert best in rest && forall o | o in rest :: o in records && records[best].expiresAt <= records[o].expiresAt;
    }
  }

  lemma TargetsBelowLimits(entries: nat, maxEntries: nat, bytes: nat, maxBytes: nat)
    ensures EntryTarget(entries, maxEntries) <= maxEntries && ByteTarget(bytes, maxBytes) <= maxBytes
  {}

  lemma EvictOne(before: Records, order: seq<string>, n: nat)
    requires n < |order| && SortedByExpiry(order, before)
    ensures Evicted(before, order, n + 1) == Evicted(before, order, n) - {order[n]}
  {
    var longer := order[..n + 1];
    assert longer == order[..n] + [order[n]];
    assert (set k | k in longer) == (set k | k in order[..n]) + {order[n]};
  }

  lemma NothingIsWithin(entryTarget: nat, byteTarget: nat)
    ensures WithinTargets(map[], Total(map[]), entryTarget, byteTarget)
  {}

  lemma NoneEvicted(before: Records, order: seq<string>)
    ensures Evicted(before, order, 0) == before
  {}

  lemma EvictedSubset(before: Records, order: seq<string>, n: nat)
    requires n <= |order|
    ensures forall k | k in Evicted(before, order, n) :: k in before && Evicted(before, order, n)[k] == before[k]
  {}

  lemma EvictAll(before: Records, order: seq<string>)
    requires SortedByExpiry(order, before) && forall k | k in before :: k in order
    ensures Evicted(before, order, |order|) == map[]
  {
    assert order[..|order|] == order;
  }

  /** Nothing that stays is older than anything that goes. */
  lemma EvictionByAge(before: Records, after: Records, entryTarget: nat, byteTarget: nat)
    requires EvictsMinimally(before, after, entryTarget, byteTarget)
    ensures forall gone, kept | gone in before && gone !in after && kept in after ::
      kept in before && before[gone].expiresAt <= before[kept].expiresAt
  {
    hide StillNeeded, WithinTargets;
    var order, n: nat :| n <= |order| && EvictsPrefix(before, after, order, n, entryTarget, byteTarget);
    forall gone, kept | gone in before && gone !in after && kept in after
      ensures kept in before && before[gone].expiresAt <= before[kept].expiresAt
    {
      assert gone in order && kept in order;
      var i :| 0 <= i < |order| && order[i] == gone;
      var j :| 0 <= j < |order| && order[j] == kept;
      StaysFrom(before, order, n, i);
      StaysFrom(before, order, n, j);
    }
  }

  lemma StaysFrom(before: Records, order: seq<string>, n: nat, i: nat)
    requires n <= |order| && i < |order| && SortedByExpiry(order, before)
    ensures order[i] in Evicted(before, order, n) <==> n <= i
  {
    if n <= i {
      NotAmongFirst(order, before, i, n);
    } else {
      assert order[i] == order[..n][i];
    }
  }

  lemma NotAmongFirst(order: seq<string>, records: Records, i: nat, n: nat)
    requires n <= i < |order| && SortedByExpiry(order, records)
    ensures order[i] !in order[..n]
  {}

  lemma {:induction false} SizeInTotal(records: Records, key: string)
    requires key in records
    ensures records[key].size <= Total(records)
  {
    TotalTakes(records, key);
  }

  /** Every other record expires before this one. */
  ghost predicate ExpiresLast(records: Records, key: string) {
    key in records && forall k | k in records && k != key :: records[k].expiresAt < records[key].expiresAt
  }

  lemma LastInOrder(records: Records, order: seq<string>, key: string)
    requires SortedByExpiry(order, records) && (forall k | k in records :: k in order) && ExpiresLast(records, key)
    ensures order != [] && order[|order| - 1] == key
  {
    var i :| 0 <= i < |order| && order[i] == key;
    if i < |order| - 1 {
      assert records[order[i]].expiresAt <= records[order[|order| - 1]].expiresAt;
    }
  }

  lemma OnlyLastLeft(records: Records, order: seq<string>, key: string)
    requires SortedByExpiry(order, records) && (forall k | k in records :: k in order)
    requires order != [] && order[|order| - 1] == key && key in records
    ensures var last := Evicted(records, order, |order| - 1); last == map[key := records[key]] && Total(last) == records[key].size
  {
    var n := |order| - 1;
    var last := Evicted(records, order, n);
    forall k | k in records ensures k in last <==> k == key {
      var i :| 0 <= i < |order| && order[i] == k;
      StaysFrom(records, order, n, i);
      StaysFrom(records, order, n, n);
    }
    assert last == map[key := records[key]];
    TotalTakes(last, key);
    assert last - {key} == map[];
  }

  /** The record that expires last stays exactly when it alone is within both targets; so a record just
      remembered may be gone at once, though it is no larger than the limit. */
  lemma NewestStays(before: Records, after: Records, maxEntries: nat, maxBytes: nat, key: string)
    requires Fitted(before, after, maxEntries, maxBytes) && ExpiresLast(before, key)
    ensures key in after
      <==> || (|before| <= maxEntries && Total(before) <= maxBytes)
           || (before[key].size <= ByteTarget(Total(before), maxBytes) && 1 <= EntryTarget(|before|, maxEntries))
  {
    hide EvictsPrefix, ExpiresLast, EntryTarget, ByteTarget, Total;
    if |before| > maxEntries || Total(before) > maxBytes {
      var entryTarget, byteTarget := EntryTarget(|before|, maxEntries), ByteTarget(Total(before), maxBytes);
      var order, n: nat :| n <= |order| && EvictsPrefix(before, after, order, n, entryTarget, byteTarget);
      LastStays(before, after, order, n, entryTarget, byteTarget, key);
    } else {
      LastIsThere(before, key);
    }
  }

  lemma LastIsThere(records: Records, key: string)
    requires ExpiresLast(records, key)
    ensures key in records
  {}

  lemma LastStays(before: Records, after: Records, order: seq<string>, n: nat, entryTarget: nat, byteTarget: nat, key: string)
    requires n <= |order| && EvictsPrefix(before, after, order, n, entryTarget, byteTarget) && ExpiresLast(before, key)
    ensures key in after <==> before[key].size <= byteTarget && 1 <= entryTarget
  {
    hide Evicted, Total, SortedByExpiry, ExpiresLast;
    LastIsThere(before, key);
    LastInOrder(before, order, key);
    OnlyLastLeft(before, order, key);
    StaysFrom(before, order, n, |order| - 1);
    assert |map[key := before[key]]| == 1;
    if key in after {
      EvictedSubset(before, order, n);
      SizeInTotal(after, key);
      assert |after| >= 1;
    } else {
      assert !WithinTargets(Evicted(before, order, |order| - 1), Total(Evicted(before, order, |order| - 1)), entryTarget, byteTarget);
    }
  }

  /** Whenever it expires, a record above fifteen sixteenths of the byte limit does not survive an
      eviction for bytes: it goes, and so does everything that expires before it. */
  lemma LargeRecordGoes(before: Records, after: Records, maxEntries: nat, maxBytes: nat, key: string)
    requires Fitted(before, after, maxEntries, maxBytes) && Total(before) > maxBytes
    requires key in before && before[key].size > maxBytes - maxBytes / 16
    ensures key !in after && forall k | k in before && before[k].expiresAt < before[key].expiresAt :: k !in after
  {
    var entryTarget, byteTarget := EntryTarget(|before|, maxEntries), ByteTarget(Total(before), maxBytes);
    EvictionByAge(before, after, entryTarget, byteTarget);
    var order, n: nat :| n <= |order| && EvictsPrefix(before, after, order, n, entryTarget, byteTarget);
    hide EntryTarget, SortedByExpiry, StillNeeded;
    if key in after {
      SizeInTotal(after, key);
    }
  }

  // ----- a record that is remembered and gone at once -----

  lemma FirstFits(after: Records, key: string, r: Record)
    requires Fitted(map[][key := r], after, 10, r.size)
    ensures after == map[key := r]
  {
    TotalTakes(map[key := r], key);
    assert map[key := r] - {key} == map[];
    assert map[][key := r] == map[key := r] && |map[key := r]| == 1;
  }

  lemma SecondGoes(after: Records, first: string, r: Record, key: string, s: Record)
    requires key != first && r.size == s.size >= 16 && Fitted(map[first := r][key := s], after, 10, s.size)
    ensures key !in after
  {
    var full := map[first := r][key := s];
    TotalTakes(full, key);
    TotalTakes(full - {key}, first);
    LargeRecordGoes(full, after, 10, s.size, key);
  }

  method RememberFirst(m: ReplayManager, scope: string, model: string, blocks: Content)
    requires m.Valid() && m.clock == 0 && m.records == map[] && m.maxEntries == 10
    requires ReplayKey(scope, model) != "" && HasToolUse(blocks) && ContentSize(blocks) + |ReplayKey(scope, model)| == m.maxBytes
    modifies m
    ensures m.Valid() && m.clock == 0
    ensures m.records == map[ReplayKey(scope, model) := Record(TrimSpace(""), blocks, m.ttl, m.maxBytes)]
  {
    hide *;
    var retained := m.Remember(scope, model, "", blocks, 0);
    ghost var none: Records := map[];
    assert none - {ReplayKey(scope, model)} == none;
    FirstFits(m.records, ReplayKey(scope, model), Record(TrimSpace(""), blocks, m.ttl, m.maxBytes));
  }

  method RememberSecond(m: ReplayManager, scope: string, model: string, blocks: Content, ghost first: string, ghost r: Record)
    returns (retained: bool)
    requires m.Valid() && m.clock == 0 && m.records == map[first := r] && m.maxEntries == 10 && m.maxBytes == r.size >= 16
    requires ReplayKey(scope, model) != "" && ReplayKey(scope, model) != first
    requires HasToolUse(blocks) && ContentSize(blocks) + |ReplayKey(scope, model)| == m.maxBytes
    modifies m
    ensures !retained
  {
    hide *;
    ghost var key := ReplayKey(scope, model);
    assert map[first := r] - {key} == map[first := r];
    retained := m.Remember(scope, model, "", blocks, 1);
    SecondGoes(m.records, first, r, key, Record(TrimSpace(""), blocks, 1 + m.ttl, m.maxBytes));
  }

  /** Two turns that each fill the cache, whatever they hold: the second is not too large to be
      remembered, and is gone at once. */
  method RememberedAndGone(first: string, second: string, model: string, blocks: Content, size: nat) returns (retained: bool)
    requires ReplayKey(first, model) != "" && ReplayKey(second, model) != "" && ReplayKey(first, model) != ReplayKey(second, model)
    requires HasToolUse(blocks) && size >= 16
    requires ContentSize(blocks) + |ReplayKey(first, model)| == size == ContentSize(blocks) + |ReplayKey(second, model)|
    ensures !retained
  {
    hide *;
    var m := new ReplayManager(60, 10, size);
    RememberFirst(m, first, model, blocks);
    retained := RememberSecond(m, second, model, blocks, ReplayKey(first, model), Record(TrimSpace(""), blocks, m.ttl, m.maxBytes));
  }
}
