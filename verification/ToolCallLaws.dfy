/** What every run of upstream events keeps in the registry of tool calls and output items. */
module ToolCallLaws {
  import opened Text
  import opened Json
  import opened ToolCalls
  import ToolNames

  // ----- the invariant -----

  /** The ids of every call are usable and lead into the alias map. */
  ghost predicate IDsUsable(r: Registry) {
    forall i | 0 <= i < |r.calls| :: Usable(r, r.calls[i].itemID) && Usable(r, r.calls[i].callID)
  }

  ghost predicate Usable(r: Registry, id: string) {
    id != "" && Trimmed(id) && id in r.byID
  }

  /** The alias map has no blank or untrimmed key. */
  ghost predicate AliasesTrimmed(r: Registry) {
    forall id | id in r.byID :: id != "" && Trimmed(id)
  }

  /** A call whose two ids are the same placeholder is known by that id only. */
  ghost predicate PlaceholdersPrivate(r: Registry) {
    forall i, id | 0 <= i < |r.calls| && id in r.byID && r.byID[id] == i && Placeholder(r.calls[i]) ::
      id == r.calls[i].callID
  }

  ghost predicate CallIDsDistinct(r: Registry) {
    forall i, j | 0 <= i < |r.calls| && 0 <= j < |r.calls| && r.calls[i].callID == r.calls[j].callID :: i == j
  }

  ghost predicate IDs(r: Registry) {
    IDsUsable(r) && AliasesTrimmed(r) && PlaceholdersPrivate(r) && CallIDsDistinct(r)
  }

  /** Every assigned output index lies below the next automatic one. */
  ghost predicate IndicesBelowNext(r: Registry) {
    && (forall i | 0 <= i < |r.calls| :: 0 <= r.calls[i].outputIndex < r.nextIndex)
    && (forall p | 0 <= p < |r.items| :: 0 <= r.items[p].outputIndex < r.nextIndex)
  }

  function KeyOf(o: OutputItem): string
    requires o.outputIndex >= 0
  {
    OutputItemKey(o.item, o.outputIndex)
  }

  /** The key map and the list of output items are in bijection: each item is filed under its own
      key and under no other. */
  ghost predicate ItemsKeyed(r: Registry) {
    && (forall p | 0 <= p < |r.items| ::
          && r.items[p].outputIndex >= 0
          && KeyOf(r.items[p]) in r.itemByKey && r.itemByKey[KeyOf(r.items[p])] == p)
    && (forall k | k in r.itemByKey ::
          && r.itemByKey[k] < |r.items| && r.items[r.itemByKey[k]].outputIndex >= 0
          && KeyOf(r.items[r.itemByKey[k]]) == k)
  }

  ghost predicate Inv(r: Registry): (ok: bool)
    ensures ok ==> Sound(r)
  {
    Sound(r) && IDs(r) && IndicesBelowNext(r) && ItemsKeyed(r)
  }

  // ----- how a state may follow an earlier one -----

  ghost predicate SameIDs(c: Call, d: Call) {
    c.itemID == d.itemID && c.callID == d.callID
  }

  /** What happens to one call: its ids are frozen once they differ, a call that is still a
      placeholder has not changed them, a new call id was in nobody's use, and what was said about
      the call downstream is remembered. */
  ghost predicate CallStep(r: Registry, c: Call, d: Call) {
    && (!Placeholder(c) ==> SameIDs(c, d))
    && (Placeholder(d) ==> SameIDs(c, d))
    && (d.callID != c.callID ==> d.callID !in r.byID)
    && d.added == c.added && d.done == c.done
  }

  /** A new call has a call id in nobody's use, and nothing was said about it downstream. */
  ghost predicate NewCallStep(r: Registry, d: Call) {
    d.callID !in r.byID && !d.added && !d.done
  }

  ghost predicate Step(r: Registry, s: Registry) {
    && |r.calls| <= |s.calls|
    && (forall i | 0 <= i < |r.calls| :: CallStep(r, r.calls[i], s.calls[i]))
    && (forall i | |r.calls| <= i < |s.calls| :: NewCallStep(r, s.calls[i]))
    && (forall id | id in r.byID :: id in s.byID)
    && r.nextIndex <= s.nextIndex
  }

  lemma StepTransitive(r: Registry, s: Registry, t: Registry)
    requires Step(r, s) && Step(s, t)
    ensures Step(r, t)
  {
    forall i | 0 <= i < |r.calls| ensures CallStep(r, r.calls[i], t.calls[i]) {
      assert CallStep(r, r.calls[i], s.calls[i]);
      assert CallStep(s, s.calls[i], t.calls[i]);
    }
    forall i | |r.calls| <= i < |t.calls| ensures NewCallStep(r, t.calls[i]) {
      if i < |s.calls| {
        assert NewCallStep(r, s.calls[i]) && CallStep(s, s.calls[i], t.calls[i]);
      } else {
        assert NewCallStep(s, t.calls[i]);
      }
    }
  }

  // ----- ensureToolCallState -----

  ghost predicate GoodID(id: string) {
    id != "" && Trimmed(id)
  }

  lemma FirstGood(ids: seq<string>)
    requires ids != [] && GoodID(ids[0])
    ensures FirstNonEmpty(ids) == ids[0]
  {}

  /** Only a placeholder takes over the ids of the event. */
  lemma MergeCases(c: Call, itemID: string, callID: string)
    requires GoodID(c.itemID) && GoodID(c.callID) && GoodID(itemID) && GoodID(callID)
    ensures MergeIDs(c, itemID, callID) == if Placeholder(c) then c.(itemID := itemID, callID := callID) else c
  {
    hide FirstNonEmpty;
    FirstGood([itemID, c.itemID]);
    FirstGood([callID, c.callID]);
    FirstGood([c.itemID, itemID, c.callID]);
    FirstGood([itemID, itemID, callID]);
    FirstGood([itemID, itemID, c.callID]);
    FirstGood([c.callID, callID, c.itemID]);
    FirstGood([callID, callID, itemID]);
  }

  lemma ExistingCall(r: Registry, i: nat, itemID: string, callID: string, explicitIndex: int)
    requires Sound(r) && IDs(r) && i < |r.calls| && GoodID(itemID) && GoodID(callID)
    ensures var r' := EnsureExisting(r, i, itemID, callID, explicitIndex);
      && r'.calls == r.calls[i := r'.calls[i]]
      && r'.calls[i].itemID == (if Placeholder(r.calls[i]) then itemID else r.calls[i].itemID)
      && r'.calls[i].callID == (if Placeholder(r.calls[i]) then callID else r.calls[i].callID)
      && r'.calls[i].outputIndex == (if explicitIndex >= 0 then explicitIndex else r.calls[i].outputIndex)
      && r'.calls[i].added == r.calls[i].added && r'.calls[i].done == r.calls[i].done
      && r'.byID == RegisterAliases(r.byID, i, [r'.calls[i].callID, r'.calls[i].itemID, callID, itemID])
  {
    hide MergeIDs, RegisterAliases, FirstNonEmpty;
    assert Usable(r, r.calls[i].itemID) && Usable(r, r.calls[i].callID);
    var c0 := if explicitIndex >= 0 then r.calls[i].(outputIndex := explicitIndex) else r.calls[i];
    MergeCases(c0, itemID, callID);
  }

  lemma Aliased(byID: map<string, nat>, i: nat, ids: seq<string>, good: set<string>)
    requires good == (set id | id in ids) && forall id | id in ids :: GoodID(id)
    ensures var m := RegisterAliases(byID, i, ids);
      && m.Keys == byID.Keys + good
      && (forall id | id in good :: m[id] == i)
      && (forall id | id in byID && id !in good :: m[id] == byID[id])
  {}

  /** s is r with call i, old or new, set to c and known by the good ids as well. */
  ghost predicate Rebound(r: Registry, s: Registry, i: nat, c: Call, good: set<string>) {
    && i <= |r.calls| <= |s.calls| && i < |s.calls| && s.calls[i] == c
    && |s.calls| <= (if i < |r.calls| then |r.calls| else i + 1)
    && (forall j | 0 <= j < |s.calls| && j != i :: s.calls[j] == r.calls[j])
    && s.byID.Keys == r.byID.Keys + good
    && (forall id | id in good :: GoodID(id) && s.byID[id] == i)
    && (forall id | id in r.byID && id !in good :: s.byID[id] == r.byID[id])
    && c.itemID in good && c.callID in good
  }

  lemma ReboundUsable(r: Registry, s: Registry, i: nat, c: Call, good: set<string>)
    requires IDsUsable(r) && AliasesTrimmed(r) && Rebound(r, s, i, c, good)
    ensures IDsUsable(s) && AliasesTrimmed(s)
  {
    hide Trimmed;
    forall j | 0 <= j < |s.calls| ensures Usable(s, s.calls[j].itemID) && Usable(s, s.calls[j].callID) {
      if j != i { assert Usable(r, r.calls[j].itemID) && Usable(r, r.calls[j].callID); }
    }
  }

  lemma ReboundPrivate(r: Registry, s: Registry, i: nat, c: Call, good: set<string>)
    requires PlaceholdersPrivate(r) && Rebound(r, s, i, c, good)
    requires Placeholder(c) ==> good == {c.callID} && forall id | id in r.byID && r.byID[id] == i :: id == c.callID
    ensures PlaceholdersPrivate(s)
  {
    hide Trimmed;
    forall j, id | 0 <= j < |s.calls| && id in s.byID && s.byID[id] == j && Placeholder(s.calls[j])
      ensures id == s.calls[j].callID
    {
      if j != i { assert s.calls[j] == r.calls[j]; }
    }
  }

  lemma ReboundDistinct(r: Registry, s: Registry, i: nat, c: Call, good: set<string>)
    requires IDsUsable(r) && CallIDsDistinct(r) && Rebound(r, s, i, c, good)
    requires c.callID !in r.byID || (i < |r.calls| && c.callID == r.calls[i].callID)
    ensures CallIDsDistinct(s)
  {
    hide Trimmed;
    forall j | 0 <= j < |s.calls| && j != i ensures s.calls[j].callID != c.callID {
      assert Usable(r, r.calls[j].callID);
    }
  }

  lemma ReboundSteps(r: Registry, s: Registry, i: nat, c: Call, good: set<string>)
    requires Rebound(r, s, i, c, good) && (i < |r.calls| ==> CallStep(r, r.calls[i], c))
    ensures forall j | 0 <= j < |r.calls| :: CallStep(r, r.calls[j], s.calls[j])
  {
    hide Trimmed;
    forall j | 0 <= j < |r.calls| ensures CallStep(r, r.calls[j], s.calls[j]) {
      if j != i { assert s.calls[j] == r.calls[j]; }
    }
  }

  /** Rebinding a call by one of the two ways keeps all id invariants. */
  lemma ReboundKeeps(r: Registry, s: Registry, i: nat, c: Call, good: set<string>)
    requires IDs(r) && Rebound(r, s, i, c, good)
    requires Placeholder(c) ==> good == {c.callID} && forall id | id in r.byID && r.byID[id] == i :: id == c.callID
    requires c.callID !in r.byID || (i < |r.calls| && c.callID == r.calls[i].callID)
    requires i < |r.calls| ==> CallStep(r, r.calls[i], c)
    ensures IDs(s) && (forall id | id in r.byID :: id in s.byID)
    ensures forall j | 0 <= j < |r.calls| :: CallStep(r, r.calls[j], s.calls[j])
  {
    ReboundUsable(r, s, i, c, good);
    ReboundPrivate(r, s, i, c, good);
    ReboundDistinct(r, s, i, c, good);
    ReboundSteps(r, s, i, c, good);
    hide IDsUsable, AliasesTrimmed, PlaceholdersPrivate, CallIDsDistinct, CallStep;
  }

  /** How a known call takes over the ids of an event. */
  lemma TakesOver(r: Registry, i: nat, c: Call, itemID: string, callID: string)
    requires Sound(r) && IDs(r) && GoodID(itemID) && GoodID(callID) && FindCall(r, callID, itemID) == Some(i)
    requires c.itemID == (if Placeholder(r.calls[i]) then itemID else r.calls[i].itemID)
    requires c.callID == (if Placeholder(r.calls[i]) then callID else r.calls[i].callID)
    requires c.added == r.calls[i].added && c.done == r.calls[i].done
    ensures GoodID(c.itemID) && GoodID(c.callID) && CallStep(r, r.calls[i], c)
    ensures Placeholder(c) ==>
      itemID == callID == c.itemID == c.callID && forall id | id in r.byID && r.byID[id] == i :: id == c.callID
    ensures c.callID !in r.byID || c.callID == r.calls[i].callID
  {
    hide Trimmed;
    assert Usable(r, r.calls[i].itemID) && Usable(r, r.calls[i].callID);
  }

  /** The event's ids lead to call i, and merging them keeps all id invariants. */
  lemma ExistingIDs(r: Registry, i: nat, itemID: string, callID: string, explicitIndex: int)
    requires Sound(r) && IDs(r) && GoodID(itemID) && GoodID(callID)
    requires FindCall(r, callID, itemID) == Some(i) && i < |r.calls|
    ensures var r' := EnsureExisting(r, i, itemID, callID, explicitIndex);
      && IDs(r') && callID in r'.byID && itemID in r'.byID && r'.byID[callID] == r'.byID[itemID] == i
      && (forall id | id in r.byID :: id in r'.byID)
      && (forall j | 0 <= j < |r.calls| :: CallStep(r, r.calls[j], r'.calls[j]))
  {
    hide EnsureExisting, RegisterAliases, FindCall, Trimmed, IDs, CallStep, Rebound;
    var r' := EnsureExisting(r, i, itemID, callID, explicitIndex);
    ExistingCall(r, i, itemID, callID, explicitIndex);
    var c := r'.calls[i];
    TakesOver(r, i, c, itemID, callID);
    var ids := [c.callID, c.itemID, callID, itemID];
    assert ids[0] == c.callID && ids[1] == c.itemID && ids[2] == callID && ids[3] == itemID;
    var good := set id | id in ids;
    BoundTo(r, r', i, c, ids, good);
    OneID(ids, c.callID);
    ReboundKeeps(r, r', i, c, good);
  }

  lemma OneID(ids: seq<string>, id: string)
    ensures id in ids && (forall other | other in ids :: other == id) ==> (set other | other in ids) == {id}
  {}

  lemma BoundTo(r: Registry, s: Registry, i: nat, c: Call, ids: seq<string>, good: set<string>)
    requires i <= |r.calls| && s.calls == (if i < |r.calls| then r.calls[i := c] else r.calls + [c])
    requires s.byID == RegisterAliases(r.byID, i, ids) && good == (set id | id in ids)
    requires (forall id | id in ids :: GoodID(id)) && c.itemID in ids && c.callID in ids
    ensures Rebound(r, s, i, c, good)
    ensures forall id | id in ids :: id in s.byID && s.byID[id] == i
  {
    hide RegisterAliases, Trimmed;
    Aliased(r.byID, i, ids, good);
  }

  lemma NewIDs(r: Registry, itemID: string, callID: string, explicitIndex: int)
    requires Sound(r) && IDs(r) && GoodID(itemID) && GoodID(callID)
    requires FindCall(r, callID, itemID) == None
    ensures var r' := EnsureNew(r, itemID, callID, explicitIndex);
      && IDs(r') && callID in r'.byID && itemID in r'.byID && r'.byID[callID] == r'.byID[itemID] == |r.calls|
      && (forall id | id in r.byID :: id in r'.byID)
      && (forall j | 0 <= j < |r.calls| :: CallStep(r, r.calls[j], r'.calls[j]))
  {
    hide RegisterAliases, Trimmed, IDs, CallStep, NextIndex, ResolvedIndex, Rebound;
    var r' := EnsureNew(r, itemID, callID, explicitIndex);
    var i, c, ids := |r.calls|, r'.calls[|r.calls|], [callID, itemID];
    assert ids[0] == callID && ids[1] == itemID;
    var good := set id | id in ids;
    BoundTo(r, r', i, c, ids, good);
    OneID(ids, c.callID);
    ReboundKeeps(r, r', i, c, good);
  }

  /** Naming a call keeps the invariant, forgets nothing, and files the call under both ids the
      event is taken to mean; only an event without ids names none. */
  lemma EnsureCallKeeps(r: Registry, rawItemID: string, rawCallID: string, explicitIndex: int)
    requires Inv(r)
    ensures var (r', found) := EnsureCall(r, rawItemID, rawCallID, explicitIndex);
      && Inv(r') && Step(r, r') && r'.items == r.items && r'.itemByKey == r.itemByKey
      && (found.None? <==> Blank(rawItemID) && Blank(rawCallID))
      && (found.None? ==> r' == r)
      && (found.Some? ==>
            && EffectiveCallID(rawItemID, rawCallID) in r'.byID
            && EffectiveItemID(rawItemID, rawCallID) in r'.byID
            && r'.byID[EffectiveCallID(rawItemID, rawCallID)] == found.value
            && r'.byID[EffectiveItemID(rawItemID, rawCallID)] == found.value)
  {
    hide IDs, RegisterAliases, MergeIDs, TrimSpace, Trimmed, ItemsKeyed;
    var itemID, callID := EffectiveItemID(rawItemID, rawCallID), EffectiveCallID(rawItemID, rawCallID);
    assert GoodID("") == false;
    if itemID != "" && callID != "" {
      var existing := FindCall(r, callID, itemID);
      if existing.Some? {
        ExistingIDs(r, existing.value, itemID, callID, explicitIndex);
        ExistingCall(r, existing.value, itemID, callID, explicitIndex);
        ItemsUntouched(r, EnsureExisting(r, existing.value, itemID, callID, explicitIndex));
      } else {
        NewIDs(r, itemID, callID, explicitIndex);
        ItemsUntouched(r, EnsureNew(r, itemID, callID, explicitIndex));
      }
    }
  }

  lemma ItemsUntouched(r: Registry, s: Registry)
    requires ItemsKeyed(r) && s.items == r.items && s.itemByKey == r.itemByKey
    ensures ItemsKeyed(s)
  {}

  // ----- writes into a call -----

  /** A write into a call that leaves its ids and its index alone keeps everything. */
  lemma WriteKeeps(r: Registry, i: nat, c: Call)
    requires Inv(r) && i < |r.calls|
    requires SameIDs(c, r.calls[i]) && c.outputIndex == r.calls[i].outputIndex
    requires c.added == r.calls[i].added && c.done == r.calls[i].done
    ensures Inv(WriteCall(r, i, c)) && Step(r, WriteCall(r, i, c))
  {
    hide Trimmed, ItemsKeyed;
    var s := WriteCall(r, i, c);
    assert forall j | 0 <= j < |r.calls| :: SameIDs(s.calls[j], r.calls[j]);
    assert IDsUsable(s) by {
      forall j | 0 <= j < |s.calls| ensures Usable(s, s.calls[j].itemID) && Usable(s, s.calls[j].callID) {
        assert Usable(r, r.calls[j].itemID) && Usable(r, r.calls[j].callID);
      }
    }
    ItemsUntouched(r, s);
  }

  lemma ArgumentWriteKeepsIDs(c: Call, event: Event, aliases: Aliases)
    ensures var d := ArgumentWrite(WithName(c, event.raw, aliases), event);
      SameIDs(d, c) && d.outputIndex == c.outputIndex && d.added == c.added && d.done == c.done
  {
    hide StringValue, ToolNames.RestoreToolName;
  }

  lemma ItemWriteKeepsIDs(c: Call, item: Fields, aliases: Aliases)
    ensures var d := ItemWrite(WithName(c, item, aliases), item);
      SameIDs(d, c) && d.outputIndex == c.outputIndex && d.added == c.added && d.done == c.done
  {
    hide StringValue, ToolNames.RestoreToolName;
  }

  lemma ApplyArgumentsKeeps(r: Registry, aliases: Aliases, event: Event)
    requires Inv(r)
    ensures Inv(ApplyArguments(r, aliases, event)) && Step(r, ApplyArguments(r, aliases, event))
  {
    hide Inv, EnsureCall, IsArgumentEvent, ArgumentIDs, ArgumentWrite, WithName;
    StepReflexive(r);
    if IsArgumentEvent(event.kind) {
      var (itemID, callID) := ArgumentIDs(event);
      EnsureCallKeeps(r, itemID, callID, OutputIndexOf(event.raw));
      var (r1, found) := EnsureCall(r, itemID, callID, OutputIndexOf(event.raw));
      if found.Some? {
        var c := ArgumentWrite(WithName(r1.calls[found.value], event.raw, aliases), event);
        ArgumentWriteKeepsIDs(r1.calls[found.value], event, aliases);
        WriteKeeps(r1, found.value, c);
        StepTransitive(r, r1, WriteCall(r1, found.value, c));
      }
    }
  }

  lemma StepReflexive(r: Registry)
    ensures Step(r, r)
  {}

  lemma CaptureToolKeeps(r: Registry, aliases: Aliases, item: Fields, explicitIndex: int)
    requires Inv(r)
    ensures var s := CaptureTool(r, aliases, item, explicitIndex); Inv(s) && Step(r, s)
  {
    hide Inv, EnsureCall, ItemIDs, ItemWrite, WithName;
    var (itemID, callID) := ItemIDs(item);
    EnsureCallKeeps(r, itemID, callID, explicitIndex);
    var (r1, found) := EnsureCall(r, itemID, callID, explicitIndex);
    if found.Some? {
      var c := ItemWrite(WithName(r1.calls[found.value], item, aliases), item);
      ItemWriteKeepsIDs(r1.calls[found.value], item, aliases);
      WriteKeeps(r1, found.value, c);
      StepTransitive(r, r1, WriteCall(r1, found.value, c));
    }
  }

  lemma CaptureOtherKeyed(r: Registry, item: Fields, explicitIndex: int)
    requires Inv(r)
    ensures ItemsKeyed(CaptureOther(r, item, explicitIndex))
  {
    hide IDs, OutputItemKey, AliasesInRange;
    var s := CaptureOther(r, item, explicitIndex);
    var index := ResolvedIndex(r.nextIndex, explicitIndex);
    var key := OutputItemKey(item, index);
    forall p | 0 <= p < |s.items|
      ensures s.items[p].outputIndex >= 0
      ensures KeyOf(s.items[p]) in s.itemByKey && s.itemByKey[KeyOf(s.items[p])] == p
    {
      if key in r.itemByKey && p == r.itemByKey[key] {
        assert KeyOf(s.items[p]) == key;
      } else if p < |r.items| {
        assert s.items[p] == r.items[p];
      }
    }
  }

  lemma CaptureOtherKeeps(r: Registry, item: Fields, explicitIndex: int)
    requires Inv(r)
    ensures var s := CaptureOther(r, item, explicitIndex); Inv(s) && Step(r, s)
  {
    hide ItemsKeyed, Trimmed, OutputItemKey;
    CaptureOtherKeyed(r, item, explicitIndex);
    var s := CaptureOther(r, item, explicitIndex);
    IDsFrom(r, s);
  }

  lemma IDsFrom(r: Registry, s: Registry)
    requires IDs(r) && s.calls == r.calls && s.byID == r.byID
    ensures IDs(s)
  {
    hide Trimmed;
    forall j | 0 <= j < |s.calls| ensures Usable(s, s.calls[j].itemID) && Usable(s, s.calls[j].callID) {
      assert Usable(r, r.calls[j].itemID) && Usable(r, r.calls[j].callID);
    }
  }

  lemma CaptureOutputItemKeeps(r: Registry, aliases: Aliases, item: Fields, explicitIndex: int)
    requires Inv(r)
    ensures var s := CaptureOutputItem(r, aliases, item, explicitIndex); Inv(s) && Step(r, s)
  {
    hide Inv, CaptureTool, CaptureOther;
    if item == map[] {
      StepReflexive(r);
    } else if IsToolItem(item) {
      CaptureToolKeeps(r, aliases, item, explicitIndex);
    } else {
      CaptureOtherKeeps(r, item, explicitIndex);
    }
  }

  lemma {:induction false} CaptureAllKeeps(r: Registry, aliases: Aliases, items: seq<Fields>, from: nat)
    requires Inv(r)
    ensures var s := CaptureAll(r, aliases, items, from); Inv(s) && Step(r, s)
    decreases |items|
  {
    hide Inv, CaptureOutputItem;
    if items == [] {
      StepReflexive(r);
    } else {
      CaptureOutputItemKeeps(r, aliases, items[0], from);
      var s := CaptureOutputItem(r, aliases, items[0], from);
      CaptureAllKeeps(s, aliases, items[1..], from + 1);
      StepTransitive(r, s, CaptureAll(r, aliases, items, from));
    }
  }

  lemma ReplaceKeeps(r: Registry, aliases: Aliases, items: seq<Fields>)
    requires Inv(r)
    ensures var s := ReplaceOutputItems(r, aliases, items); Inv(s) && Step(r, s)
  {
    hide Trimmed, CaptureAll;
    StepReflexive(r);
    if items != [] {
      var cleared := r.(items := [], itemByKey := map[]);
      IDsFrom(r, cleared);
      CaptureAllKeeps(cleared, aliases, items, 0);
      StepTransitive(r, cleared, ReplaceOutputItems(r, aliases, items));
    }
  }

  lemma OutputEventKeeps(r: Registry, aliases: Aliases, event: Event)
    requires Inv(r)
    ensures Inv(ApplyOutputEvent(r, aliases, event)) && Step(r, ApplyOutputEvent(r, aliases, event))
  {
    hide Inv, CaptureOutputItem, ReplaceOutputItems;
    var item := EventItem(event);
    var r1 := if item.Some? then CaptureOutputItem(r, aliases, item.value, OutputIndexOf(event.raw)) else r;
    StepReflexive(r);
    if item.Some? {
      CaptureOutputItemKeeps(r, aliases, item.value, OutputIndexOf(event.raw));
    }
    ReplaceKeeps(r1, aliases, SliceOfMaps(event.raw, "output"));
    StepTransitive(r, r1, ApplyOutputEvent(r, aliases, event));
  }

  /** One event: whatever it holds, the invariant is kept and nothing is forgotten. */
  lemma ApplyKeeps(r: Registry, aliases: Aliases, event: Event)
    requires Inv(r)
    ensures Inv(Apply(r, aliases, event)) && Step(r, Apply(r, aliases, event))
  {
    hide Inv, Step, ReplaceOutputItems, ApplyArguments, ApplyOutputEvent;
    var r1 := ReplaceOutputItems(r, aliases, ResponseOutput(event));
    var r2 := ApplyArguments(r1, aliases, event);
    var r3 := ApplyOutputEvent(r2, aliases, event);
    ReplaceKeeps(r, aliases, ResponseOutput(event));
    ApplyArgumentsKeeps(r1, aliases, event);
    OutputEventKeeps(r2, aliases, event);
    ReplaceKeeps(r3, aliases, ResponseOutput(event));
    StepTransitive(r, r1, r2);
    StepTransitive(r, r2, r3);
    if IsTerminal(event) {
      StepTransitive(r, r3, ReplaceOutputItems(r3, aliases, ResponseOutput(event)));
    }
  }

  lemma {:induction false} RunKeeps(r: Registry, aliases: Aliases, events: seq<Event>)
    requires Inv(r)
    ensures Inv(Run(r, aliases, events)) && Step(r, Run(r, aliases, events))
    decreases |events|
  {
    hide Inv, Step, Apply;
    if events == [] {
      StepReflexive(r);
    } else {
      ApplyKeeps(r, aliases, events[0]);
      RunKeeps(Apply(r, aliases, events[0]), aliases, events[1..]);
      StepTransitive(r, Apply(r, aliases, events[0]), Run(r, aliases, events));
    }
  }

  /** Every run from a new accumulator satisfies the invariant, and any later part of the run
      leaves every call in place, freezes ids that differ and hands out only unused call ids. */
  lemma EveryRunIsSound(aliases: Aliases, events: seq<Event>, later: seq<Event>)
    ensures Inv(Run(EMPTY, aliases, events))
    ensures Step(Run(EMPTY, aliases, events), Run(Run(EMPTY, aliases, events), aliases, later))
  {
    assert Inv(EMPTY);
    RunKeeps(EMPTY, aliases, events);
    RunKeeps(Run(EMPTY, aliases, events), aliases, later);
  }

  /** An automatic index is new: no call and no item has it, and the next one is higher. */
  lemma AutomaticIndexIsNew(r: Registry, preferred: int)
    requires Inv(r) && preferred < 0
    ensures var index := ResolvedIndex(r.nextIndex, preferred);
      && (forall i | 0 <= i < |r.calls| :: r.calls[i].outputIndex != index)
      && (forall p | 0 <= p < |r.items| :: r.items[p].outputIndex != index)
      && index < NextIndex(r.nextIndex, preferred)
  {
    hide IDs, ItemsKeyed;
  }

  // ----- the call an event speaks of -----

  /** The event carries nothing but tool arguments. */
  predicate PlainArguments(event: Event) {
    && IsToolArgumentKind(event.kind)
    && EventItem(event) == None
    && SliceOfMaps(event.raw, "output") == []
    && ResponseOutput(event) == []
  }

  /** The call that Apply writes an argument event into. */
  function WrittenCall(r: Registry, event: Event): Option<nat>
    requires Sound(r)
  {
    var (itemID, callID) := ArgumentIDs(event);
    EnsureCall(r, itemID, callID, OutputIndexOf(event.raw)).1
  }

  lemma PlainApply(r: Registry, aliases: Aliases, event: Event)
    requires Sound(r) && PlainArguments(event)
    ensures Apply(r, aliases, event) == ApplyToolArgumentEvent(r, aliases, event)
  {
    hide ApplyToolArgumentEvent, CaptureOutputItem, EventItem, ResponseOutput;
  }

  /** Right after a plain argument event, asking for its call gives the call that was written
      exactly when one of the ids it was sent with is trimmed (or there was nothing to write):
      calls are filed under trimmed ids but looked up under the ids as sent. */
  lemma WrittenCallIsFound(r: Registry, aliases: Aliases, event: Event)
    requires Inv(r) && PlainArguments(event)
    ensures var (itemID, callID) := ArgumentIDs(event);
      CallForEvent(Apply(r, aliases, event), event) == WrittenCall(r, event)
      <==> WrittenCall(r, event).None? || Trimmed(callID) || (itemID != "" && Trimmed(itemID))
  {
    hide Apply, EnsureCall, TrimSpace, ItemsKeyed, IDsUsable, PlaceholdersPrivate, CallIDsDistinct;
    var (itemID, callID) := ArgumentIDs(event);
    var index := OutputIndexOf(event.raw);
    PlainApply(r, aliases, event);
    EnsureCallKeeps(r, itemID, callID, index);
    var s := EnsureCall(r, itemID, callID, index).0;
    assert Apply(r, aliases, event).byID == s.byID;
    assert callID == "" ==> Blank(itemID);
    assert TrimSpace("") == "";
    assert callID != "" ==> !Blank(callID);
  }

  /** The same for an item event: the call of its item is found when the call id it goes by is
      trimmed. */
  lemma CapturedCallIsFound(r: Registry, aliases: Aliases, event: Event, item: Fields)
    requires Inv(r) && EventItem(event) == Some(item) && IsToolItem(item)
    requires event.kind == ItemAdded || event.kind == ItemDone
    requires SliceOfMaps(event.raw, "output") == [] && ResponseOutput(event) == []
    requires ItemIDs(item).1 != "" && Trimmed(ItemIDs(item).1)
    ensures var (itemID, callID) := ItemIDs(item);
      CallForEvent(Apply(r, aliases, event), event) == EnsureCall(r, itemID, callID, OutputIndexOf(event.raw)).1
  {
    hide EnsureCall, EventItem, ResponseOutput, TrimSpace, IDs, ItemsKeyed, IndicesBelowNext;
    var (itemID, callID) := ItemIDs(item);
    var index := OutputIndexOf(event.raw);
    EnsureCallKeeps(r, itemID, callID, index);
    var s := EnsureCall(r, itemID, callID, index).0;
    assert Apply(r, aliases, event).byID == s.byID;
    var looked := FirstNonEmpty([StringValue(item, "id"), StringValue(event.raw, "item_id")]);
    assert FirstNonEmpty([StringValue(item, "call_id"), looked]) == callID;
  }

  // ----- the value of a call -----

  /** What a run of argument events leaves in their call. */
  function Written(c: Call, events: seq<Event>): Call {
    if events == [] then c else ArgumentWrite(Written(c, events[..|events| - 1]), events[|events| - 1])
  }

  function DeltasOf(events: seq<Event>): seq<string> {
    seq(|events|, i requires 0 <= i < |events| => StringValue(events[i].raw, "delta"))
  }

  lemma DeltasSnoc(events: seq<Event>)
    requires events != []
    ensures var n := |events| - 1;
      Concat(DeltasOf(events)) == Concat(DeltasOf(events[..n])) + StringValue(events[n].raw, "delta")
  {
    hide StringValue;
    var n := |events| - 1;
    assert DeltasOf(events) == DeltasOf(events[..n]) + [StringValue(events[n].raw, "delta")];
    ConcatSnoc(DeltasOf(events[..n]), StringValue(events[n].raw, "delta"));
  }

  /** However many deltas there are, the arguments are what they were followed by all of them in order. */
  lemma {:induction false} ArgumentsAccumulate(c: Call, events: seq<Event>)
    requires events != [] && forall k | 0 <= k < |events| :: events[k].kind == ArgumentsDelta
    ensures Written(c, events) == c.(toolType := "function", arguments := c.arguments + Concat(DeltasOf(events)))
    decreases |events|
  {
    hide StringValue, Concat, DeltasOf;
    var n := |events| - 1;
    DeltasSnoc(events);
    if n > 0 {
      ArgumentsAccumulate(c, events[..n]);
    } else {
      NoDeltas(events[..0]);
      assert Written(c, events[..0]) == c;
    }
  }

  /** And so is the input of a custom tool. */
  lemma {:induction false} InputAccumulates(c: Call, events: seq<Event>)
    requires events != [] && forall k | 0 <= k < |events| :: events[k].kind == InputDelta
    ensures Written(c, events) == c.(toolType := "custom", input := c.input + Concat(DeltasOf(events)))
    decreases |events|
  {
    hide StringValue, Concat, DeltasOf;
    var n := |events| - 1;
    DeltasSnoc(events);
    if n > 0 {
      InputAccumulates(c, events[..n]);
    } else {
      NoDeltas(events[..0]);
      assert Written(c, events[..0]) == c;
    }
  }

  lemma NoDeltas(events: seq<Event>)
    requires events == []
    ensures Concat(DeltasOf(events)) == ""
  {}
}
