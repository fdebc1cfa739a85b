/** Which references NormalizeSchema (internal/openai/schema.go) leaves in a schema. It depends on where
    they stand: the properties of the root are resolved before the definitions, all else after them. */
module SchemaLeft {
  import opened Text
  import opened Json
  import opened Schemas
  import opened SchemaRefs
  import opened SchemaRefsLeft
  import opened SchemaWalk

  // ----- predicates of a schema, by its parts -----

  lemma AvoidsGathered(s: Schema, chain: set<string>, defs: Defs, rank: Ranks, bound: nat)
    requires Acyclic(defs, rank) && RefsBelow(s, rank, bound)
    requires forall slot | Has(s, slot) :: RefsBelow(Child(s, slot), rank, bound) && Avoids(Child(s, slot), chain, defs, rank, bound)
    ensures PartsAvoid(s, chain, defs, rank, bound)
  {
    PartsBelow(s, rank, bound);
    hide Avoids, Acyclic, RefsBelow;
    if s.props.Props? { forall k | k in s.props.m ensures Avoids(s.props.m[k], chain, defs, rank, bound) { assert Has(s, PropSlot(k)); } }
    if s.items.Items? { assert Has(s, ItemsSlot); }
    forall i | s.prefix.Alts? && 0 <= i < |s.prefix.s| ensures Avoids(s.prefix.s[i], chain, defs, rank, bound) { assert Has(s, PrefixSlot(i)); }
    forall i | s.anyOf.Alts? && 0 <= i < |s.anyOf.s| ensures Avoids(s.anyOf.s[i], chain, defs, rank, bound) { assert Has(s, AnyOfSlot(i)); }
    forall i | s.oneOf.Alts? && 0 <= i < |s.oneOf.s| ensures Avoids(s.oneOf.s[i], chain, defs, rank, bound) { assert Has(s, OneOfSlot(i)); }
    forall i | s.allOf.Alts? && 0 <= i < |s.allOf.s| ensures Avoids(s.allOf.s[i], chain, defs, rank, bound) { assert Has(s, AllOfSlot(i)); }
  }

  lemma AvoidsPart(s: Schema, slot: Slot, chain: set<string>, defs: Defs, rank: Ranks, bound: nat)
    requires Acyclic(defs, rank) && RefsBelow(s, rank, bound) && Has(s, slot)
    ensures RefsBelow(Child(s, slot), rank, bound)
    ensures PartsAvoid(s, chain, defs, rank, bound) ==> Avoids(Child(s, slot), chain, defs, rank, bound)
  {
    RefsBelowParts(s, rank, bound);
    PartsBelow(s, rank, bound);
    hide Acyclic, RefsBelow;
    match slot
    case PropSlot(k) =>
    case ItemsSlot =>
    case PrefixSlot(i) => assert PartsAvoid(s, chain, defs, rank, bound) ==> AllAvoid(s.prefix, chain, defs, rank, bound);
    case AnyOfSlot(i) => assert PartsAvoid(s, chain, defs, rank, bound) ==> AllAvoid(s.anyOf, chain, defs, rank, bound);
    case OneOfSlot(i) => assert PartsAvoid(s, chain, defs, rank, bound) ==> AllAvoid(s.oneOf, chain, defs, rank, bound);
    case AllOfSlot(i) => assert PartsAvoid(s, chain, defs, rank, bound) ==> AllAvoid(s.allOf, chain, defs, rank, bound);
  }

  lemma ClearGathered(s: Schema, defs: Defs, rank: Ranks, bound: nat)
    requires Acyclic(defs, rank) && RefsBelow(s, rank, bound) && s.ref == ""
    requires forall slot | Has(s, slot) :: RefsBelow(Child(s, slot), rank, bound) && Clear(Child(s, slot), defs, rank, bound)
    ensures Clear(s, defs, rank, bound)
  {
    PartsBelow(s, rank, bound);
    hide Acyclic, RefsBelow;
    if s.props.Props? { forall k | k in s.props.m ensures Clear(s.props.m[k], defs, rank, bound) { assert Has(s, PropSlot(k)); } }
    if s.items.Items? { assert Has(s, ItemsSlot); }
    forall i | s.prefix.Alts? && 0 <= i < |s.prefix.s| ensures Clear(s.prefix.s[i], defs, rank, bound) { assert Has(s, PrefixSlot(i)); }
    forall i | s.anyOf.Alts? && 0 <= i < |s.anyOf.s| ensures Clear(s.anyOf.s[i], defs, rank, bound) { assert Has(s, AnyOfSlot(i)); }
    forall i | s.oneOf.Alts? && 0 <= i < |s.oneOf.s| ensures Clear(s.oneOf.s[i], defs, rank, bound) { assert Has(s, OneOfSlot(i)); }
    forall i | s.allOf.Alts? && 0 <= i < |s.allOf.s| ensures Clear(s.allOf.s[i], defs, rank, bound) { assert Has(s, AllOfSlot(i)); }
  }

  lemma ClearPart(s: Schema, slot: Slot, defs: Defs, rank: Ranks, bound: nat)
    requires Acyclic(defs, rank) && RefsBelow(s, rank, bound) && s.ref == "" && Has(s, slot)
    ensures RefsBelow(Child(s, slot), rank, bound)
    ensures Clear(s, defs, rank, bound) ==> Clear(Child(s, slot), defs, rank, bound)
  {
    RefsBelowParts(s, rank, bound);
    PartsBelow(s, rank, bound);
    hide Acyclic, RefsBelow;
    match slot
    case PropSlot(k) =>
    case ItemsSlot =>
    case PrefixSlot(i) => assert Clear(s, defs, rank, bound) ==> AllClear(s.prefix, defs, rank, bound);
    case AnyOfSlot(i) => assert Clear(s, defs, rank, bound) ==> AllClear(s.anyOf, defs, rank, bound);
    case OneOfSlot(i) => assert Clear(s, defs, rank, bound) ==> AllClear(s.oneOf, defs, rank, bound);
    case AllOfSlot(i) => assert Clear(s, defs, rank, bound) ==> AllClear(s.allOf, defs, rank, bound);
  }

  // ----- behind the definitions -----

  /** The name, or that of a definition which is itself a reference that leads there. */
  predicate LeadsTo(r: string, target: string, defs: Defs, rank: Ranks)
    requires Acyclic(defs, rank)
    decreases if r in rank then rank[r] else 0
  {
    r == target || (r in defs && defs[r].ref != "" && LeadsTo(defs[r].ref, target, defs, rank))
  }

  ghost predicate NoneLeadsTo(s: Schema, target: string, defs: Defs, rank: Ranks)
    requires Acyclic(defs, rank)
    decreases s
  {
    && (s.ref != "" ==> !LeadsTo(s.ref, target, defs, rank))
    && forall slot | Has(s, slot) :: NoneLeadsTo(Child(s, slot), target, defs, rank)
  }

  /** No sibling of a reference contains one that leads to the same definition at once. */
  ghost predicate ClearBehind(s: Schema, defs: Defs, rank: Ranks)
    requires Acyclic(defs, rank)
    decreases s
  {
    forall slot | Has(s, slot) ::
      if s.ref != "" then NoneLeadsTo(Child(s, slot), s.ref, defs, rank) else ClearBehind(Child(s, slot), defs, rank)
  }

  /** The definitions after the walk. */
  ghost predicate Finished(after: Defs, defs: Defs, rank: Ranks) {
    && Acyclic(after, rank) && Acyclic(defs, rank) && after.Keys == defs.Keys
    && (forall r | r in defs :: SiblingFree(defs[r]) && SiblingFree(after[r]))
    && forall r | r in defs :: if defs[r].ref != "" then after[r] == defs[r] else RefFree(after[r])
  }

  lemma {:induction false} FreeAvoids(s: Schema, chain: set<string>, defs: Defs, rank: Ranks, bound: nat)
    requires Acyclic(defs, rank) && RefsBelow(s, rank, bound) && RefFree(s)
    ensures Avoids(s, chain, defs, rank, bound)
    decreases s
  {
    RefFreeParts(s);
    RefsBelowParts(s, rank, bound);
    NoRefAvoids(s, chain, defs, rank, bound);
    hide Acyclic, RefsBelow, RefFree, Avoids, PartsAvoid;
    forall slot | Has(s, slot) ensures RefsBelow(Child(s, slot), rank, bound) && Avoids(Child(s, slot), chain, defs, rank, bound) {
      FreeAvoids(Child(s, slot), chain, defs, rank, bound);
    }
    AvoidsGathered(s, chain, defs, rank, bound);
  }

  lemma {:induction false} AvoidsBehind(s: Schema, target: string, after: Defs, defs: Defs, rank: Ranks, bound: nat)
    requires Finished(after, defs, rank) && SiblingFree(s) && RefsBelow(s, rank, bound)
    ensures Avoids(s, {target}, after, rank, bound) <==> NoneLeadsTo(s, target, defs, rank)
    decreases bound, s
  {
    hide SiblingFree, RefsBelow, RefFree, Avoids, PartsAvoid, NoneLeadsTo, Acyclic;
    if s.ref == "" {
      NoRefAvoids(s, {target}, after, rank, bound);
      forall slot | Has(s, slot)
        ensures RefsBelow(Child(s, slot), rank, bound)
        ensures Avoids(Child(s, slot), {target}, after, rank, bound) <==> NoneLeadsTo(Child(s, slot), target, defs, rank)
      {
        AvoidsPart(s, slot, {target}, after, rank, bound);
        SiblingFreeChild(s, slot);
        AvoidsBehind(Child(s, slot), target, after, defs, rank, bound);
      }
      PartsBehind(s, target, after, defs, rank, bound);
    } else {
      BareNode(s);
      RankedBelow(s, rank, bound);
      var r := s.ref;
      RankOf(r, after, rank);
      RankOf(r, defs, rank);
      BareAvoids(s, {target}, after, rank, bound);
      BareLeads(s, target, defs, rank);
      if defs[r].ref == "" {
        FreeAvoids(after[r], {target}, after, rank, rank[r]);
      } else {
        AvoidsBehind(after[r], target, after, defs, rank, rank[r]);
        BareNode(defs[r]);
        BareLeads(defs[r], target, defs, rank);
      }
    }
  }

  lemma BareLeads(s: Schema, target: string, defs: Defs, rank: Ranks)
    requires Acyclic(defs, rank) && s == ANYTHING.(ref := s.ref) && s.ref != ""
    ensures NoneLeadsTo(s, target, defs, rank) <==> !LeadsTo(s.ref, target, defs, rank)
  {}

  lemma PartsBehind(s: Schema, target: string, after: Defs, defs: Defs, rank: Ranks, bound: nat)
    requires Acyclic(defs, rank) && Acyclic(after, rank) && RefsBelow(s, rank, bound)
    requires forall slot | Has(s, slot) :: RefsBelow(Child(s, slot), rank, bound)
    requires forall slot | Has(s, slot) ::
      Avoids(Child(s, slot), {target}, after, rank, bound) <==> NoneLeadsTo(Child(s, slot), target, defs, rank)
    ensures PartsAvoid(s, {target}, after, rank, bound) <==> forall slot | Has(s, slot) :: NoneLeadsTo(Child(s, slot), target, defs, rank)
    ensures s.ref == "" ==> (NoneLeadsTo(s, target, defs, rank) <==> PartsAvoid(s, {target}, after, rank, bound))
  {
    hide RefsBelow, Avoids, PartsAvoid, Acyclic, Has, Child;
    if PartsAvoid(s, {target}, after, rank, bound) {
      forall slot | Has(s, slot) ensures Avoids(Child(s, slot), {target}, after, rank, bound) {
        AvoidsPart(s, slot, {target}, after, rank, bound);
      }
    }
    if forall slot | Has(s, slot) :: NoneLeadsTo(Child(s, slot), target, defs, rank) {
      AvoidsGathered(s, {target}, after, rank, bound);
    }
  }

  lemma PartOneLevel(s: Schema, slot: Slot)
    requires OneLevel(s) && Has(s, slot)
    ensures if s.ref != "" then SiblingFree(Child(s, slot)) else OneLevel(Child(s, slot))
  {
    if s.ref != "" { PartsOfSiblings(s, slot); } else { PartsOneLevel(s); }
  }

  lemma ClearTop(s: Schema, defs: Defs, rank: Ranks, bound: nat)
    requires Acyclic(defs, rank) && RefsBelow(s, rank, bound) && s.ref != ""
    ensures Clear(s, defs, rank, bound) <==> PartsAvoid(s, {s.ref}, defs, rank, bound)
  {}

  lemma {:induction false} ClearBehindIs(s: Schema, after: Defs, defs: Defs, rank: Ranks, bound: nat)
    requires Finished(after, defs, rank) && OneLevel(s) && RefsBelow(s, rank, bound)
    ensures Clear(s, after, rank, bound) <==> ClearBehind(s, defs, rank)
    decreases s
  {
    hide SiblingFree, RefsBelow, RefFree, Avoids, PartsAvoid, NoneLeadsTo, Acyclic, OneLevel, Clear, Has, Child, ClearBehind;
    RefsBelowParts(s, rank, bound);
    ClearBehindTop(s, defs, rank);
    if s.ref != "" {
      ClearTop(s, after, rank, bound);
      forall slot | Has(s, slot)
        ensures Avoids(Child(s, slot), {s.ref}, after, rank, bound) <==> NoneLeadsTo(Child(s, slot), s.ref, defs, rank)
      {
        PartOneLevel(s, slot);
        AvoidsBehind(Child(s, slot), s.ref, after, defs, rank, bound);
      }
      PartsBehind(s, s.ref, after, defs, rank, bound);
    } else {
      forall slot | Has(s, slot) ensures Clear(Child(s, slot), after, rank, bound) <==> ClearBehind(Child(s, slot), defs, rank) {
        PartOneLevel(s, slot);
        ClearBehindIs(Child(s, slot), after, defs, rank, bound);
      }
      if Clear(s, after, rank, bound) {
        forall slot | Has(s, slot) ensures Clear(Child(s, slot), after, rank, bound) { ClearPart(s, slot, after, rank, bound); }
      }
      if forall slot | Has(s, slot) :: Clear(Child(s, slot), after, rank, bound) { ClearGathered(s, after, rank, bound); }
    }
  }

  lemma ClearBehindTop(s: Schema, defs: Defs, rank: Ranks)
    requires Acyclic(defs, rank)
    ensures ClearBehind(s, defs, rank) <==> forall slot | Has(s, slot) ::
      if s.ref != "" then NoneLeadsTo(Child(s, slot), s.ref, defs, rank) else ClearBehind(Child(s, slot), defs, rank)
  {}

  // ----- the whole schema -----

  /** NormalizeSchema. */
  ghost function NormalizeSchema(s: Schema, defs: Defs, names: seq<string>, order: Order): Schema
    requires Covers(order) && forall r | r in names :: r in defs
  {
    InjectAdditionalProperties(WalkSchema(s, defs, names, order))
  }

  /** A root that is a reference has no part that leads, through the definitions, back to it. Otherwise
      no reference has a sibling that leads back to it: among the properties of the root, which come
      first, through any definitions, and elsewhere at once. */
  ghost predicate ClearInWalk(s: Schema, defs: Defs, rank: Ranks, bound: nat)
    requires Acyclic(defs, rank) && RefsBelow(s, rank, bound)
  {
    if s.ref != "" then PartsAvoid(s, {s.ref}, defs, rank, bound)
    else
      && (s.props.Props? ==> forall k | k in s.props.m :: Clear(s.props.m[k], defs, rank, bound))
      && forall slot | Has(s, slot) && !slot.PropSlot? :: ClearBehind(Child(s, slot), defs, rank)
  }

  lemma WalkFinishes(defs: Defs, names: seq<string>, order: Order, rank: Ranks)
    requires Covers(order) && (forall r :: r in names <==> r in defs)
    requires Acyclic(defs, rank) && (forall r | r in defs :: SiblingFree(defs[r]))
    ensures Finished(WalkDefs(defs, names, {}, order), defs, rank)
  {
    assert Fitting(defs, defs, {}, rank);
    DefinitionsResolved(defs, defs, names, {}, order, rank);
    var after := WalkDefs(defs, names, {}, order);
    forall r | r in defs ensures if defs[r].ref != "" then after[r] == defs[r] else RefFree(after[r]) {
      RankOf(r, defs, rank);
      hide SiblingFree, RefsBelow, Resolve, RefFree;
      NoReferenceLeft(defs[r], defs, {}, rank, rank[r]);
    }
    hide SiblingFree, RefsBelow, Resolve, RefFree;
  }

  lemma SlotsFree(s: Schema, names: seq<string>, defs: Defs, order: Order, rank: Ranks, bound: nat, slot: Slot)
    requires Covers(order) && (forall r :: r in names <==> r in defs)
    requires Acyclic(defs, rank) && (forall r | r in defs :: SiblingFree(defs[r]))
    requires OneLevel(s) && RefsBelow(s, rank, bound) && s.ref == "" && Has(s, slot)
    ensures RefsBelow(Child(s, slot), rank, bound)
    ensures RefFree(Resolve(Child(s, slot), if slot.PropSlot? then defs else WalkDefs(defs, names, {}, order), {}))
      <==> if slot.PropSlot? then Clear(Child(s, slot), defs, rank, bound) else ClearBehind(Child(s, slot), defs, rank)
  {
    var after, x := WalkDefs(defs, names, {}, order), Child(s, slot);
    WalkFinishes(defs, names, order, rank);
    hide SiblingFree, RefsBelow, Resolve, RefFree, Clear, ClearBehind, Acyclic, OneLevel, Child, Has;
    RefsBelowParts(s, rank, bound);
    PartOneLevel(s, slot);
    if slot.PropSlot? {
      ReferenceLeftExactly(x, defs, rank, bound);
    } else {
      ReferenceLeftExactly(x, after, rank, bound);
      ClearBehindIs(x, after, defs, rank, bound);
    }
  }

  /** With acyclic definitions for every reference, the walk leaves a reference exactly when one has a
      sibling that leads back to it. */
  lemma WalkLeavesExactly(s: Schema, defs: Defs, names: seq<string>, order: Order, rank: Ranks, bound: nat)
    requires Covers(order) && (forall r :: r in names <==> r in defs)
    requires Acyclic(defs, rank) && (forall r | r in defs :: SiblingFree(defs[r]))
    requires OneLevel(s) && RefsBelow(s, rank, bound)
    ensures RefFree(WalkSchema(s, defs, names, order)) <==> ClearInWalk(s, defs, rank, bound)
  {
    if s.ref != "" {
      assert PartsSiblingFree(s);
      RootReference(s, defs, names, order, rank, bound);
      SiblingsExactly(s, defs, rank, bound);
    } else {
      var after := WalkDefs(defs, names, {}, order);
      var t := RootParts(s, defs, after, {});
      hide SiblingFree, RefsBelow, Resolve, RefFree, Clear, ClearBehind, Acyclic, OneLevel, Child, Has, RootParts, WalkDefs, SameShape;
      RootPartsAre(s, defs, after, {});
      SameRef(t, s);
      RefFreeParts(t);
      forall slot | Has(s, slot)
        ensures RefsBelow(Child(s, slot), rank, bound)
        ensures RefFree(Child(t, slot)) <==>
          if slot.PropSlot? then Clear(Child(s, slot), defs, rank, bound) else ClearBehind(Child(s, slot), defs, rank)
      {
        SlotsFree(s, names, defs, order, rank, bound, slot);
      }
      ClearInWalkParts(s, defs, rank, bound);
    }
  }

  lemma ClearInWalkParts(s: Schema, defs: Defs, rank: Ranks, bound: nat)
    requires Acyclic(defs, rank) && RefsBelow(s, rank, bound) && s.ref == ""
    requires forall slot | Has(s, slot) :: RefsBelow(Child(s, slot), rank, bound)
    ensures ClearInWalk(s, defs, rank, bound) <==> forall slot | Has(s, slot) ::
      if slot.PropSlot? then Clear(Child(s, slot), defs, rank, bound) else ClearBehind(Child(s, slot), defs, rank)
  {
    PartsBelow(s, rank, bound);
    hide RefsBelow, Acyclic, Clear, ClearBehind;
    if forall slot | Has(s, slot) ::
      if slot.PropSlot? then Clear(Child(s, slot), defs, rank, bound) else ClearBehind(Child(s, slot), defs, rank)
    {
      if s.props.Props? { forall k | k in s.props.m ensures Clear(s.props.m[k], defs, rank, bound) { assert Has(s, PropSlot(k)); } }
    }
  }

  lemma {:induction false} InjectKeepsFree(s: Schema)
    ensures RefFree(InjectAdditionalProperties(s)) <==> RefFree(s)
    decreases s
  {
    var t := InjectAdditionalProperties(s);
    RefFreeParts(s);
    RefFreeParts(t);
    InjectedParts(s);
    hide RefFree, InjectAdditionalProperties, Has, Child;
    forall slot | Has(s, slot) ensures RefFree(Child(t, slot)) <==> RefFree(Child(s, slot)) {
      InjectKeepsFree(Child(s, slot));
    }
  }

  lemma InjectedParts(s: Schema)
    ensures var t := InjectAdditionalProperties(s);
      t.ref == s.ref && (forall slot :: Has(t, slot) <==> Has(s, slot))
      && forall slot | Has(s, slot) :: Child(t, slot) == InjectAdditionalProperties(Child(s, slot))
  {
  }

  /** NormalizeSchema leaves a reference exactly when one has a sibling that leads back to it. */
  lemma LeavesExactly(s: Schema, defs: Defs, names: seq<string>, order: Order, rank: Ranks, bound: nat)
    requires Covers(order) && (forall r :: r in names <==> r in defs)
    requires Acyclic(defs, rank) && (forall r | r in defs :: SiblingFree(defs[r]))
    requires OneLevel(s) && RefsBelow(s, rank, bound)
    ensures RefFree(NormalizeSchema(s, defs, names, order)) <==> ClearInWalk(s, defs, rank, bound)
  {
    hide RefFree, WalkSchema, ClearInWalk;
    WalkLeavesExactly(s, defs, names, order, rank, bound);
    InjectKeepsFree(WalkSchema(s, defs, names, order));
  }

  // ----- the place decides -----

  function RefTo(r: string): Schema {
    ANYTHING.(ref := r)
  }

  function OneProperty(k: string, x: Schema): Schema {
    ANYTHING.(props := Props(map[k := x]))
  }

  /** A definition a, and one that refers to it below a property. */
  function Nested(a: string, b: string): Defs {
    map[a := ANYTHING.(types := Single(StringType)), b := OneProperty("y", RefTo(a))]
  }

  /** A definition a, and one that is nothing but a reference to it. */
  function Aliased(a: string, b: string): Defs {
    map[a := ANYTHING.(types := Single(StringType)), b := RefTo(a)]
  }

  /** A reference to a with a property that refers to b. */
  function Beside(a: string, b: string): Schema {
    OneProperty("x", RefTo(b)).(ref := a)
  }

  lemma RefsOfRef(r: string, rank: Ranks, bound: nat)
    requires r != "" && r in rank && rank[r] < bound
    ensures SiblingFree(RefTo(r)) && RefsBelow(RefTo(r), rank, bound)
  {}

  lemma RefsOfProperty(k: string, x: Schema, rank: Ranks, bound: nat)
    requires RefsBelow(x, rank, bound)
    ensures RefsBelow(OneProperty(k, x), rank, bound)
  {
    hide RefsBelow;
    RefsBelowParts(OneProperty(k, x), rank, bound);
    assert RefsBelow(OneProperty(k, x), rank, bound);
  }

  lemma FreeOfProperty(k: string, x: Schema)
    ensures SiblingFree(x) ==> SiblingFree(OneProperty(k, x))
    ensures OneLevel(x) ==> OneLevel(OneProperty(k, x))
  {}

  lemma RefsOfSibling(a: string, b: string, rank: Ranks, bound: nat)
    requires a != "" && b != "" && {a, b} <= rank.Keys && rank[a] < bound && rank[b] < bound
    ensures RefsBelow(Beside(a, b), rank, bound) && OneLevel(Beside(a, b))
  {
    RefsOfRef(b, rank, bound);
    hide RefsBelow, SiblingFree;
    RefsBelowParts(Beside(a, b), rank, bound);
  }

  function OneAlternative(x: Schema): Schema {
    ANYTHING.(anyOf := Alts([x]))
  }

  lemma RefsOfAlternative(x: Schema, rank: Ranks, bound: nat)
    requires RefsBelow(x, rank, bound) && OneLevel(x)
    ensures RefsBelow(OneAlternative(x), rank, bound) && OneLevel(OneAlternative(x))
  {}

  lemma NestedRanked(a: string, b: string)
    requires a != "" && b != "" && a != b
    ensures Acyclic(Nested(a, b), map[a := 0, b := 1]) && forall r | r in Nested(a, b) :: SiblingFree(Nested(a, b)[r])
  {
    var rank := map[a := 0, b := 1];
    RefsOfRef(a, rank, 1);
    RefsOfProperty("y", RefTo(a), rank, 1);
    FreeOfProperty("y", RefTo(a));
  }

  lemma AliasedRanked(a: string, b: string)
    requires a != "" && b != "" && a != b
    ensures Acyclic(Aliased(a, b), map[a := 0, b := 1]) && forall r | r in Aliased(a, b) :: SiblingFree(Aliased(a, b)[r])
  {
    RefsOfRef(a, map[a := 0, b := 1], 1);
  }

  lemma BesideBehind(a: string, b: string, defs: Defs, rank: Ranks)
    requires Acyclic(defs, rank) && a != "" && b != ""
    ensures ClearBehind(Beside(a, b), defs, rank) <==> !LeadsTo(b, a, defs, rank)
  {
    var s := Beside(a, b);
    BareLeads(RefTo(b), a, defs, rank);
    hide LeadsTo, Acyclic, NoneLeadsTo;
    assert Has(s, PropSlot("x")) && Child(s, PropSlot("x")) == RefTo(b);
  }

  lemma AlternativeBehind(x: Schema, defs: Defs, rank: Ranks, bound: nat)
    requires Acyclic(defs, rank) && RefsBelow(OneAlternative(x), rank, bound)
    ensures ClearInWalk(OneAlternative(x), defs, rank, bound) <==> ClearBehind(x, defs, rank)
  {
    hide Acyclic, ClearBehind;
    assert Has(OneAlternative(x), AnyOfSlot(0)) && Child(OneAlternative(x), AnyOfSlot(0)) == x;
  }

  lemma BesideInProperty(a: string, b: string)
    requires a != "" && b != "" && a != b
    ensures var defs, rank, x := Nested(a, b), map[a := 0, b := 1], Beside(a, b);
      Acyclic(defs, rank) && RefsBelow(x, rank, 2) && !Clear(x, defs, rank, 2)
  {
    var defs, rank, x := Nested(a, b), map[a := 0, b := 1], Beside(a, b);
    NestedRanked(a, b);
    RefsOfSibling(a, b, rank, 2);
    RefsOfRef(b, rank, 2);
    RefsOfRef(a, rank, 1);
    BareAvoids(RefTo(b), {a}, defs, rank, 2);
    BareAvoids(RefTo(a), {a}, defs, rank, 1);
    assert defs[b].props.m["y"] == RefTo(a);
    assert !Avoids(defs[b], {a}, defs, rank, 1);
    assert x.props.m["x"] == RefTo(b);
    assert !PartsAvoid(x, {a}, defs, rank, 2);
    ClearTop(x, defs, rank, 2);
  }

  /** A reference to one definition with a sibling that refers to another, which refers to the first:
      under anyOf nothing is left of them, since the other has been resolved by then. Under the
      properties of the root the reference inside the other is left. */
  lemma PlaceDecides(a: string, b: string, k: string, names: seq<string>, order: Order)
    requires a != "" && b != "" && a != b && Covers(order) && forall r :: r in names <==> r in {a, b}
    ensures RefFree(NormalizeSchema(OneAlternative(Beside(a, b)), Nested(a, b), names, order))
    ensures !RefFree(NormalizeSchema(OneProperty(k, Beside(a, b)), Nested(a, b), names, order))
  {
    var defs, rank, x := Nested(a, b), map[a := 0, b := 1], Beside(a, b);
    NestedRanked(a, b);
    RefsOfSibling(a, b, rank, 2);
    RefsOfAlternative(x, rank, 2);
    RefsOfProperty(k, x, rank, 2);
    FreeOfProperty(k, x);
    BesideInProperty(a, b);
    assert !LeadsTo(b, a, defs, rank);
    hide RefsBelow, SiblingFree, OneLevel, RefFree, Clear, ClearBehind, Acyclic, NormalizeSchema, Beside, LeadsTo;
    LeavesExactly(OneAlternative(x), defs, names, order, rank, 2);
    LeavesExactly(OneProperty(k, x), defs, names, order, rank, 2);
    AlternativeBehind(x, defs, rank, 2);
    BesideBehind(a, b, defs, rank);
    assert OneProperty(k, x).props.m[k] == x;
  }

  /** Where the other is nothing but a reference to the first, it is left under anyOf too. */
  lemma AliasIsLeft(a: string, b: string, names: seq<string>, order: Order)
    requires a != "" && b != "" && a != b && Covers(order) && forall r :: r in names <==> r in {a, b}
    ensures !RefFree(NormalizeSchema(OneAlternative(Beside(a, b)), Aliased(a, b), names, order))
  {
    var defs, rank, x := Aliased(a, b), map[a := 0, b := 1], Beside(a, b);
    AliasedRanked(a, b);
    RefsOfSibling(a, b, rank, 2);
    RefsOfAlternative(x, rank, 2);
    assert LeadsTo(b, a, defs, rank);
    hide RefsBelow, SiblingFree, OneLevel, RefFree, ClearBehind, Acyclic, NormalizeSchema, Beside, LeadsTo;
    LeavesExactly(OneAlternative(x), defs, names, order, rank, 2);
    AlternativeBehind(x, defs, rank, 2);
    BesideBehind(a, b, defs, rank);
  }
}
