/** The walk of NormalizeSchema (internal/openai/schema.go) through a whole schema. The definitions are
    parts of that schema and are resolved in place when the walk comes to them: behind its properties
    and before everything else. Whatever refers to a definition gets a copy of it as it stands. */
module SchemaWalk {
  import opened Text
  import opened Json
  import opened Schemas
  import opened SchemaRefs
  import opened SchemaRefsLeft

  // ----- the places of the parts of a schema -----

  datatype Slot =
    | PropSlot(k: string) | ItemsSlot | PrefixSlot(i: nat)
    | AnyOfSlot(i: nat) | OneOfSlot(i: nat) | AllOfSlot(i: nat)

  predicate Has(s: Schema, slot: Slot) {
    match slot
    case PropSlot(k) => s.props.Props? && k in s.props.m
    case ItemsSlot => s.items.Items?
    case PrefixSlot(i) => s.prefix.Alts? && i < |s.prefix.s|
    case AnyOfSlot(i) => s.anyOf.Alts? && i < |s.anyOf.s|
    case OneOfSlot(i) => s.oneOf.Alts? && i < |s.oneOf.s|
    case AllOfSlot(i) => s.allOf.Alts? && i < |s.allOf.s|
  }

  function Child(s: Schema, slot: Slot): (c: Schema)
    requires Has(s, slot)
    ensures c < s
  {
    match slot
    case PropSlot(k) => s.props.m[k]
    case ItemsSlot => s.items.schema
    case PrefixSlot(i) => s.prefix.s[i]
    case AnyOfSlot(i) => s.anyOf.s[i]
    case OneOfSlot(i) => s.oneOf.s[i]
    case AllOfSlot(i) => s.allOf.s[i]
  }

  /** The schema with another part at that place. */
  function Put(s: Schema, slot: Slot, x: Schema): (t: Schema)
    requires Has(s, slot)
  {
    match slot
    case PropSlot(k) => s.(props := Props(s.props.m[k := x]))
    case ItemsSlot => s.(items := Items(x))
    case PrefixSlot(i) => s.(prefix := Alts(s.prefix.s[i := x]))
    case AnyOfSlot(i) => s.(anyOf := Alts(s.anyOf.s[i := x]))
    case OneOfSlot(i) => s.(oneOf := Alts(s.oneOf.s[i := x]))
    case AllOfSlot(i) => s.(allOf := Alts(s.allOf.s[i := x]))
  }

  predicate SameLength(a: Alts, b: Alts) {
    a.Alts? == b.Alts? && (a.Alts? ==> |a.s| == |b.s|)
  }

  /** The same keywords, with parts at the same places. */
  predicate SameShape(a: Schema, b: Schema) {
    && a == b.(props := a.props, items := a.items, prefix := a.prefix, anyOf := a.anyOf, oneOf := a.oneOf, allOf := a.allOf)
    && a.props.Props? == b.props.Props? && (a.props.Props? ==> a.props.m.Keys == b.props.m.Keys)
    && a.items.Items? == b.items.Items? && a.items.NothingMore? == b.items.NothingMore?
    && SameLength(a.prefix, b.prefix) && SameLength(a.anyOf, b.anyOf)
    && SameLength(a.oneOf, b.oneOf) && SameLength(a.allOf, b.allOf)
  }

  lemma SameSlots(a: Schema, b: Schema)
    requires SameShape(a, b)
    ensures forall slot :: Has(a, slot) <==> Has(b, slot)
  {}

  lemma PutIn(s: Schema, slot: Slot, x: Schema)
    requires Has(s, slot)
    ensures SameShape(Put(s, slot, x), s)
    ensures forall other :: Has(Put(s, slot, x), other) <==> Has(s, other)
    ensures forall other | Has(s, other) :: Child(Put(s, slot, x), other) == if other == slot then x else Child(s, other)
  {
    var t := Put(s, slot, x);
    if slot.PropSlot? { assert t.props.m.Keys == s.props.m.Keys; }
    SameSlots(t, s);
  }

  lemma SameParts(a: Schema, b: Schema)
    requires SameShape(a, b) && forall slot | Has(a, slot) && Has(b, slot) :: Child(a, slot) == Child(b, slot)
    ensures a == b
  {
    if a.props.Props? {
      forall k | k in a.props.m ensures a.props.m[k] == b.props.m[k] {
        assert Child(a, PropSlot(k)) == Child(b, PropSlot(k));
      }
      assert a.props.m == b.props.m;
    }
    if a.items.Items? { assert Child(a, ItemsSlot) == Child(b, ItemsSlot); }
    SamePrefixes(a, b);
    SameAlternatives(a, b);
  }

  lemma SamePrefixes(a: Schema, b: Schema)
    requires SameShape(a, b) && forall slot | Has(a, slot) && Has(b, slot) :: Child(a, slot) == Child(b, slot)
    ensures a.prefix == b.prefix
  {
    if a.prefix.Alts? {
      forall i | 0 <= i < |a.prefix.s| ensures a.prefix.s[i] == b.prefix.s[i] {
        assert Child(a, PrefixSlot(i)) == Child(b, PrefixSlot(i));
      }
      assert a.prefix.s == b.prefix.s;
    }
  }

  lemma SameAlternatives(a: Schema, b: Schema)
    requires SameShape(a, b) && forall slot | Has(a, slot) && Has(b, slot) :: Child(a, slot) == Child(b, slot)
    ensures a.anyOf == b.anyOf && a.oneOf == b.oneOf && a.allOf == b.allOf
  {
    if a.anyOf.Alts? {
      forall i | 0 <= i < |a.anyOf.s| ensures a.anyOf.s[i] == b.anyOf.s[i] {
        assert Child(a, AnyOfSlot(i)) == Child(b, AnyOfSlot(i));
      }
      assert a.anyOf.s == b.anyOf.s;
    }
    if a.oneOf.Alts? {
      forall i | 0 <= i < |a.oneOf.s| ensures a.oneOf.s[i] == b.oneOf.s[i] {
        assert Child(a, OneOfSlot(i)) == Child(b, OneOfSlot(i));
      }
      assert a.oneOf.s == b.oneOf.s;
    }
    if a.allOf.Alts? {
      forall i | 0 <= i < |a.allOf.s| ensures a.allOf.s[i] == b.allOf.s[i] {
        assert Child(a, AllOfSlot(i)) == Child(b, AllOfSlot(i));
      }
      assert a.allOf.s == b.allOf.s;
    }
  }

  lemma ResolvedAll(parent: Schema, a: Alts, defs: Defs, chain: set<string>)
    requires a.Alts? && forall i | 0 <= i < |a.s| :: a.s[i] < parent
    ensures var r := ResolveAll(parent, a.s, defs, chain);
      r.Alts? && |r.s| == |a.s| && forall i | 0 <= i < |a.s| :: r.s[i] == Resolve(a.s[i], defs, chain)
  {
    hide Resolve;
  }

  lemma ResolvedShape(s: Schema, defs: Defs, chain: set<string>)
    ensures SameShape(ResolveChildren(s, defs, chain), s)
  {
    hide Resolve, ResolveAll;
    var r := ResolveChildren(s, defs, chain);
    if s.props.Props? { assert r.props.m.Keys == s.props.m.Keys; }
    if s.prefix.Alts? { ResolvedAll(s, s.prefix, defs, chain); }
    if s.anyOf.Alts? { ResolvedAll(s, s.anyOf, defs, chain); }
    if s.oneOf.Alts? { ResolvedAll(s, s.oneOf, defs, chain); }
    if s.allOf.Alts? { ResolvedAll(s, s.allOf, defs, chain); }
  }

  lemma ResolvedChild(s: Schema, slot: Slot, defs: Defs, chain: set<string>)
    requires Has(s, slot) && Has(ResolveChildren(s, defs, chain), slot)
    ensures Child(ResolveChildren(s, defs, chain), slot) == Resolve(Child(s, slot), defs, chain)
  {
    hide Resolve, ResolveAll;
    match slot
    case PropSlot(k) =>
    case ItemsSlot =>
    case PrefixSlot(i) => ResolvedAll(s, s.prefix, defs, chain);
    case AnyOfSlot(i) => ResolvedAll(s, s.anyOf, defs, chain);
    case OneOfSlot(i) => ResolvedAll(s, s.oneOf, defs, chain);
    case AllOfSlot(i) => ResolvedAll(s, s.allOf, defs, chain);
  }

  lemma ResolvedParts(s: Schema, defs: Defs, chain: set<string>)
    ensures var r := ResolveChildren(s, defs, chain);
      && SameShape(r, s) && (forall slot :: Has(r, slot) <==> Has(s, slot))
      && forall slot | Has(s, slot) :: Child(r, slot) == Resolve(Child(s, slot), defs, chain)
  {
    hide Resolve, ResolveChildren, SameShape;
    var r := ResolveChildren(s, defs, chain);
    ResolvedShape(s, defs, chain);
    SameSlots(r, s);
    forall slot | Has(s, slot) ensures Child(r, slot) == Resolve(Child(s, slot), defs, chain) {
      ResolvedChild(s, slot, defs, chain);
    }
  }

  // ----- predicates of a schema, by its parts -----

  lemma SiblingFreePartsGathered(s: Schema)
    requires forall slot | Has(s, slot) :: SiblingFree(Child(s, slot))
    ensures s.props.Props? ==> forall k | k in s.props.m :: SiblingFree(s.props.m[k])
    ensures s.items.Items? ==> SiblingFree(s.items.schema)
    ensures AllSiblingFree(s.prefix) && AllSiblingFree(s.anyOf) && AllSiblingFree(s.oneOf) && AllSiblingFree(s.allOf)
  {
    hide SiblingFree;
    if s.props.Props? { forall k | k in s.props.m ensures SiblingFree(s.props.m[k]) { assert Has(s, PropSlot(k)); } }
    if s.items.Items? { assert Has(s, ItemsSlot); }
    forall i | s.prefix.Alts? && 0 <= i < |s.prefix.s| ensures SiblingFree(s.prefix.s[i]) { assert Has(s, PrefixSlot(i)); }
    forall i | s.anyOf.Alts? && 0 <= i < |s.anyOf.s| ensures SiblingFree(s.anyOf.s[i]) { assert Has(s, AnyOfSlot(i)); }
    forall i | s.oneOf.Alts? && 0 <= i < |s.oneOf.s| ensures SiblingFree(s.oneOf.s[i]) { assert Has(s, OneOfSlot(i)); }
    forall i | s.allOf.Alts? && 0 <= i < |s.allOf.s| ensures SiblingFree(s.allOf.s[i]) { assert Has(s, AllOfSlot(i)); }
  }

  lemma SiblingFreeChild(s: Schema, slot: Slot)
    requires SiblingFree(s) && Has(s, slot)
    ensures SiblingFree(Child(s, slot))
  {}

  lemma SiblingFreeParts(s: Schema)
    requires s.ref != "" ==> s == ANYTHING.(ref := s.ref)
    requires forall slot | Has(s, slot) :: SiblingFree(Child(s, slot))
    ensures SiblingFree(s)
  {
    SiblingFreePartsGathered(s);
    hide AllSiblingFree, Has, Child;
  }

  lemma RefsBelowPartsGathered(s: Schema, rank: Ranks, bound: nat)
    requires forall slot | Has(s, slot) :: RefsBelow(Child(s, slot), rank, bound)
    ensures s.props.Props? ==> forall k | k in s.props.m :: RefsBelow(s.props.m[k], rank, bound)
    ensures s.items.Items? ==> RefsBelow(s.items.schema, rank, bound)
    ensures AllRefsBelow(s.prefix, rank, bound) && AllRefsBelow(s.anyOf, rank, bound) && AllRefsBelow(s.oneOf, rank, bound) && AllRefsBelow(s.allOf, rank, bound)
  {
    hide RefsBelow;
    if s.props.Props? { forall k | k in s.props.m ensures RefsBelow(s.props.m[k], rank, bound) { assert Has(s, PropSlot(k)); } }
    if s.items.Items? { assert Has(s, ItemsSlot); }
    forall i | s.prefix.Alts? && 0 <= i < |s.prefix.s| ensures RefsBelow(s.prefix.s[i], rank, bound) { assert Has(s, PrefixSlot(i)); }
    forall i | s.anyOf.Alts? && 0 <= i < |s.anyOf.s| ensures RefsBelow(s.anyOf.s[i], rank, bound) { assert Has(s, AnyOfSlot(i)); }
    forall i | s.oneOf.Alts? && 0 <= i < |s.oneOf.s| ensures RefsBelow(s.oneOf.s[i], rank, bound) { assert Has(s, OneOfSlot(i)); }
    forall i | s.allOf.Alts? && 0 <= i < |s.allOf.s| ensures RefsBelow(s.allOf.s[i], rank, bound) { assert Has(s, AllOfSlot(i)); }
  }

  lemma RefsBelowParts(s: Schema, rank: Ranks, bound: nat)
    ensures RefsBelow(s, rank, bound) <==> (s.ref != "" ==> s.ref in rank && rank[s.ref] < bound) && (forall slot | Has(s, slot) :: RefsBelow(Child(s, slot), rank, bound))
  {
    if forall slot | Has(s, slot) :: RefsBelow(Child(s, slot), rank, bound) { RefsBelowPartsGathered(s, rank, bound); hide AllRefsBelow; }
  }

  lemma RefFreePartsGathered(s: Schema)
    requires forall slot | Has(s, slot) :: RefFree(Child(s, slot))
    ensures s.props.Props? ==> forall k | k in s.props.m :: RefFree(s.props.m[k])
    ensures s.items.Items? ==> RefFree(s.items.schema)
    ensures AllRefFree(s.prefix) && AllRefFree(s.anyOf) && AllRefFree(s.oneOf) && AllRefFree(s.allOf)
  {
    hide RefFree;
    if s.props.Props? { forall k | k in s.props.m ensures RefFree(s.props.m[k]) { assert Has(s, PropSlot(k)); } }
    if s.items.Items? { assert Has(s, ItemsSlot); }
    forall i | s.prefix.Alts? && 0 <= i < |s.prefix.s| ensures RefFree(s.prefix.s[i]) { assert Has(s, PrefixSlot(i)); }
    forall i | s.anyOf.Alts? && 0 <= i < |s.anyOf.s| ensures RefFree(s.anyOf.s[i]) { assert Has(s, AnyOfSlot(i)); }
    forall i | s.oneOf.Alts? && 0 <= i < |s.oneOf.s| ensures RefFree(s.oneOf.s[i]) { assert Has(s, OneOfSlot(i)); }
    forall i | s.allOf.Alts? && 0 <= i < |s.allOf.s| ensures RefFree(s.allOf.s[i]) { assert Has(s, AllOfSlot(i)); }
  }

  lemma RefFreeParts(s: Schema)
    ensures RefFree(s) <==> s.ref == "" && (forall slot | Has(s, slot) :: RefFree(Child(s, slot)))
  {
    if forall slot | Has(s, slot) :: RefFree(Child(s, slot)) { RefFreePartsGathered(s); hide AllRefFree; }
  }

  // ----- the walk -----

  /** In which order the parts of a schema are visited: the ranges over Go's maps leave it open. */
  type Order = Schema -> seq<Slot>

  ghost predicate Covers(order: Order) {
    forall s, slot :: slot in order(s) <==> Has(s, slot)
  }

  /** resolveLocalRefs on a node of a definition. `place` says what the definitions are with another
      node in the place of this one: what is resolved in place shows in them at once. */
  ghost function Walk(node: Schema, chain: set<string>, place: Schema -> Defs, order: Order): Schema
    requires Covers(order)
    decreases node, 1, 0
  {
    if node.ref == "" then WalkParts(node, node, order(node), chain, place, order)
    else Resolve(node, place(node), chain)
  }

  /** updateSchemaChildren on a node of a definition, of which `now` is what has become so far. */
  ghost function WalkParts(node: Schema, now: Schema, slots: seq<Slot>, chain: set<string>, place: Schema -> Defs, order: Order): Schema
    requires Covers(order) && forall slot | slot in slots :: Has(node, slot) && Has(now, slot)
    decreases node, 0, |slots|
  {
    if slots == [] then now
    else
      var slot := slots[0];
      var part := Walk(Child(node, slot), chain, x => place(Put(now, slot, x)), order);
      PutIn(now, slot, part);
      WalkParts(node, Put(now, slot, part), slots[1..], chain, place, order)
  }

  /** The definitions are visited in some order. One that is a reference itself is replaced in the
      schema, which is dropped later, and stays as it is for whatever refers to it. */
  ghost function WalkDefs(defs: Defs, names: seq<string>, chain: set<string>, order: Order): Defs
    requires Covers(order) && forall r | r in names :: r in defs
    decreases |names|
  {
    if names == [] then defs
    else
      var r := names[0];
      WalkDefs(if defs[r].ref != "" then defs else defs[r := Walk(defs[r], chain, x => defs[r := x], order)],
               names[1..], chain, order)
  }

  /** The parts of the root: its properties are visited before the definitions. */
  function RootParts(node: Schema, before: Defs, after: Defs, chain: set<string>): Schema {
    ResolveChildren(node, after, chain).(props := ResolveChildren(node, before, chain).props)
  }

  /** resolveLocalRefs on the root. */
  ghost function WalkSchema(s: Schema, defs: Defs, names: seq<string>, order: Order): Schema
    requires Covers(order) && forall r | r in names :: r in defs
  {
    if s.ref == "" then RootParts(s, defs, WalkDefs(defs, names, {}, order), {})
    else if s.ref !in defs then s
    else
      RootParts(WithSiblings(Resolve(defs[s.ref], defs, {s.ref}), s), defs, WalkDefs(defs, names, {s.ref}, order), {s.ref})
  }

  // ----- with acyclic definitions, what has been resolved already makes no difference -----

  /** Definitions on the way from `defs` to their resolution below the chain. */
  ghost predicate Fitting(now: Defs, defs: Defs, chain: set<string>, rank: Ranks) {
    && Acyclic(now, rank) && Acyclic(defs, rank)
    && forall r | r in rank :: SiblingFree(now[r]) && Resolve(now[r], defs, chain) == Resolve(defs[r], defs, chain)
  }

  lemma OneReference(x: Schema, defs: Defs, chain: set<string>, rank: Ranks, bound: nat)
    requires Acyclic(defs, rank) && (forall r | r in defs :: SiblingFree(defs[r]))
    requires SiblingFree(x) && RefsBelow(x, rank, bound) && x.ref != ""
    ensures x.ref in rank && rank[x.ref] < bound && RefsBelow(defs[x.ref], rank, rank[x.ref])
    ensures x.ref in chain ==> Resolve(x, defs, chain) == x
    ensures x.ref !in chain ==> Resolve(x, defs, chain) == Resolve(defs[x.ref], defs, chain + {x.ref})
  {
    hide SiblingFree, RefsBelow, ResolveChildren;
    RankedBelow(x, rank, bound);
    RankOf(x.ref, defs, rank);
    LeftRefs(x, defs, chain, rank, bound);
  }

  /** Resolution comes to the same from any such definitions, and whatever the chain has in addition
      that is ranked too high to be met. */
  lemma {:induction false} Confluent(x: Schema, now: Defs, defs: Defs, chain: set<string>, more: set<string>, rank: Ranks, bound: nat)
    requires Fitting(defs, defs, chain, rank) && Fitting(now, defs, chain, rank)
    requires SiblingFree(x) && RefsBelow(x, rank, bound)
    requires forall q | q in more :: q in rank && rank[q] >= bound
    ensures Resolve(x, now, chain + more) == Resolve(x, defs, chain)
    decreases bound, x
  {
    if x.ref == "" {
      hide SiblingFree, RefsBelow, Resolve, ResolveChildren, SameShape, Fitting;
      forall slot | Has(x, slot) ensures Resolve(Child(x, slot), now, chain + more) == Resolve(Child(x, slot), defs, chain) {
        SiblingFreeChild(x, slot);
        RefsBelowParts(x, rank, bound);
        Confluent(Child(x, slot), now, defs, chain, more, rank, bound);
      }
      PartsConfluent(x, now, defs, chain + more, chain);
    } else {
      hide SiblingFree, RefsBelow, Resolve;
      OneReference(x, now, chain + more, rank, bound);
      OneReference(x, defs, chain, rank, bound);
      var r := x.ref;
      if r !in chain {
        assert chain + more + {r} == chain + (more + {r});
        Confluent(now[r], now, defs, chain, more + {r}, rank, rank[r]);
        Confluent(defs[r], defs, defs, chain, {r}, rank, rank[r]);
      }
    }
  }

  lemma PartsConfluent(x: Schema, now: Defs, defs: Defs, chain: set<string>, other: set<string>)
    requires x.ref == "" && forall slot | Has(x, slot) :: Resolve(Child(x, slot), now, chain) == Resolve(Child(x, slot), defs, other)
    ensures Resolve(x, now, chain) == Resolve(x, defs, other)
  {
    ResolvedParts(x, now, chain);
    ResolvedParts(x, defs, other);
    ResolveTop(x, now, chain);
    ResolveTop(x, defs, other);
    hide Resolve, ResolveChildren;
    SameParts(ResolveChildren(x, now, chain), ResolveChildren(x, defs, other));
  }

  lemma {:induction false} StaysFree(x: Schema, defs: Defs, chain: set<string>)
    requires SiblingFree(x) && forall r | r in defs :: SiblingFree(defs[r])
    ensures SiblingFree(Resolve(x, defs, chain))
    decreases |defs.Keys - chain|, x, 1
  {
    if x.ref == "" {
      hide SiblingFree, Resolve, ResolveChildren;
      ResolveTop(x, defs, chain);
      PartsStayFree(x, defs, chain);
    } else if x.ref !in chain && x.ref in defs {
      var next := chain + {x.ref};
      OneFewer(defs, chain, x.ref);
      StaysFree(defs[x.ref], defs, next);
      var d := Resolve(defs[x.ref], defs, next);
      BareNode(x);
      NoSiblings(d, x);
      hide SiblingFree, ResolveChildren;
      PartsStayFree(d, defs, next);
    }
  }

  lemma PartsStayFree(x: Schema, defs: Defs, chain: set<string>)
    requires SiblingFree(x) && forall r | r in defs :: SiblingFree(defs[r])
    ensures SiblingFree(ResolveChildren(x, defs, chain))
    decreases |defs.Keys - chain|, x, 0
  {
    hide SiblingFree, Resolve, ResolveChildren;
    ResolvedParts(x, defs, chain);
    forall slot | Has(x, slot) ensures SiblingFree(Resolve(Child(x, slot), defs, chain)) {
      SiblingFreeChild(x, slot);
      StaysFree(Child(x, slot), defs, chain);
    }
    BareNode(x);
    var r := ResolveChildren(x, defs, chain);
    if x.ref != "" { SameParts(r, x); }
    SiblingFreeParts(r);
  }

  /** A resolved schema refers to nothing that was not referred to before, and is resolved for good. */
  lemma Settled(x: Schema, defs: Defs, chain: set<string>, rank: Ranks, bound: nat)
    requires Fitting(defs, defs, chain, rank) && SiblingFree(x) && RefsBelow(x, rank, bound)
    ensures var r := Resolve(x, defs, chain); SiblingFree(r) && RefsBelow(r, rank, bound) && Resolve(r, defs, chain) == r
  {
    assert rank.Keys == defs.Keys;
    hide Acyclic, SiblingFree, RefsBelow, Resolve, OnlyRefs;
    StaysFree(x, defs, chain);
    LeftRefs(x, defs, chain, rank, bound);
    ChainStays(Resolve(x, defs, chain), defs, chain);
  }

  /** A node on the way from x to its resolution. */
  ghost predicate StandsFor(now: Schema, x: Schema, defs: Defs, chain: set<string>, rank: Ranks, bound: nat) {
    SiblingFree(now) && RefsBelow(now, rank, bound) && Resolve(now, defs, chain) == Resolve(x, defs, chain)
  }

  /** Whatever stands for the node at its place, the definitions fit. */
  ghost predicate Fits(place: Schema -> Defs, x: Schema, defs: Defs, chain: set<string>, rank: Ranks, bound: nat) {
    forall now | StandsFor(now, x, defs, chain, rank, bound) :: Fitting(place(now), defs, chain, rank)
  }

  /** Walking through a node of a definition resolves it, as if no definition were changed meanwhile. */
  lemma {:induction false} WalkResolves(x: Schema, chain: set<string>, place: Schema -> Defs, order: Order, defs: Defs, rank: Ranks, bound: nat)
    requires Covers(order) && Fitting(defs, defs, chain, rank) && Fits(place, x, defs, chain, rank, bound)
    requires SiblingFree(x) && RefsBelow(x, rank, bound)
    ensures Walk(x, chain, place, order) == Resolve(x, defs, chain)
    decreases x, 1, 0
  {
    hide Acyclic, SiblingFree, RefsBelow, Resolve, ResolveChildren, Has;
    if x.ref == "" {
      WalkPartsResolves(x, x, order(x), chain, place, order, defs, rank, bound);
      ResolveTop(x, defs, chain);
    } else {
      assert Fitting(place(x), defs, chain, rank);
      assert chain + {} == chain;
      Confluent(x, place(x), defs, chain, {}, rank, bound);
    }
  }

  /** Every part is as it was, if it is still to be visited, or else resolved. */
  ghost predicate Halfway(now: Schema, x: Schema, slots: seq<Slot>, defs: Defs, chain: set<string>) {
    && SameShape(now, x)
    && forall slot | Has(now, slot) && Has(x, slot) ::
      (slot in slots && Child(now, slot) == Child(x, slot)) || Child(now, slot) == Resolve(Child(x, slot), defs, chain)
  }

  lemma HalfwayStands(now: Schema, x: Schema, slots: seq<Slot>, slot: Slot, part: Schema, defs: Defs, chain: set<string>, rank: Ranks, bound: nat)
    requires Fitting(defs, defs, chain, rank) && SiblingFree(x) && RefsBelow(x, rank, bound) && x.ref == ""
    requires Halfway(now, x, slots, defs, chain)
    requires Has(now, slot) && Has(x, slot) && StandsFor(part, Child(x, slot), defs, chain, rank, bound)
    ensures StandsFor(Put(now, slot, part), x, defs, chain, rank, bound)
  {
    var t := Put(now, slot, part);
    PutIn(now, slot, part);
    SameSlots(now, x);
    hide Acyclic, SiblingFree, RefsBelow, Resolve, ResolveChildren, SameShape, Fitting, Has, Child, Put, StandsFor;
    forall s | Has(t, s) ensures StandsFor(Child(t, s), Child(x, s), defs, chain, rank, bound) {
      PartStands(x, s, defs, chain, rank, bound);
    }
    SameShapes(t, now, x);
    WholeStands(t, x, defs, chain, rank, bound);
  }

  lemma PartStands(x: Schema, s: Slot, defs: Defs, chain: set<string>, rank: Ranks, bound: nat)
    requires Fitting(defs, defs, chain, rank) && SiblingFree(x) && RefsBelow(x, rank, bound) && Has(x, s)
    ensures StandsFor(Child(x, s), Child(x, s), defs, chain, rank, bound)
    ensures StandsFor(Resolve(Child(x, s), defs, chain), Child(x, s), defs, chain, rank, bound)
  {
    hide Acyclic, SiblingFree, RefsBelow, Resolve, Fitting, Has, Child;
    SiblingFreeChild(x, s);
    RefsBelowParts(x, rank, bound);
    Settled(Child(x, s), defs, chain, rank, bound);
  }

  lemma WholeStands(t: Schema, x: Schema, defs: Defs, chain: set<string>, rank: Ranks, bound: nat)
    requires SameShape(t, x) && x.ref == ""
    requires forall s | Has(t, s) && Has(x, s) :: StandsFor(Child(t, s), Child(x, s), defs, chain, rank, bound)
    ensures StandsFor(t, x, defs, chain, rank, bound)
  {
    SameSlots(t, x);
    SameRef(t, x);
    hide SiblingFree, RefsBelow, Resolve, SameShape, Has, Child;
    SiblingFreeParts(t);
    RefsBelowParts(t, rank, bound);
    SameResolution(t, x, defs, chain);
  }

  lemma SameResolution(t: Schema, x: Schema, defs: Defs, chain: set<string>)
    requires SameShape(t, x) && t.ref == x.ref == ""
    requires forall s | Has(t, s) && Has(x, s) :: Resolve(Child(t, s), defs, chain) == Resolve(Child(x, s), defs, chain)
    ensures Resolve(t, defs, chain) == Resolve(x, defs, chain)
  {
    hide Resolve, ResolveChildren, SameShape, Has, Child;
    SameSlots(t, x);
    ResolvedParts(t, defs, chain);
    ResolvedParts(x, defs, chain);
    ResolveTop(t, defs, chain);
    ResolveTop(x, defs, chain);
    SameShapes(ResolveChildren(t, defs, chain), t, x);
    SameShapesBack(ResolveChildren(x, defs, chain), x, ResolveChildren(t, defs, chain));
    SameParts(ResolveChildren(t, defs, chain), ResolveChildren(x, defs, chain));
  }

  lemma SameRef(a: Schema, b: Schema)
    requires SameShape(a, b)
    ensures a.ref == b.ref
  {}

  lemma SameShapes(a: Schema, b: Schema, c: Schema)
    requires SameShape(a, b) && SameShape(b, c)
    ensures SameShape(a, c)
  {}

  lemma SameShapesBack(a: Schema, b: Schema, c: Schema)
    requires SameShape(a, b) && SameShape(c, b)
    ensures SameShape(c, a)
  {}

  lemma WalkPartsResolves(x: Schema, now: Schema, slots: seq<Slot>, chain: set<string>, place: Schema -> Defs, order: Order,
                          defs: Defs, rank: Ranks, bound: nat)
    requires Covers(order) && Fitting(defs, defs, chain, rank) && Fits(place, x, defs, chain, rank, bound)
    requires SiblingFree(x) && RefsBelow(x, rank, bound) && x.ref == ""
    requires Halfway(now, x, slots, defs, chain) && forall slot | slot in slots :: Has(x, slot) && Has(now, slot)
    ensures WalkParts(x, now, slots, chain, place, order) == ResolveChildren(x, defs, chain)
    decreases x, 0, |slots|
  {
    hide Acyclic, SiblingFree, RefsBelow, Resolve, ResolveChildren, SameShape, Fitting, Has, Child, Put, StandsFor;
    ResolvedParts(x, defs, chain);
    if slots == [] {
      SameSlots(now, x);
      SameShapesBack(ResolveChildren(x, defs, chain), x, now);
      SameParts(now, ResolveChildren(x, defs, chain));
    } else {
      var slot := slots[0];
      var child, inner := Child(x, slot), p => place(Put(now, slot, p));
      SiblingFreeChild(x, slot);
      RefsBelowParts(x, rank, bound);
      forall part | StandsFor(part, child, defs, chain, rank, bound) ensures Fitting(inner(part), defs, chain, rank) {
        HalfwayStands(now, x, slots, slot, part, defs, chain, rank, bound);
      }
      WalkResolves(child, chain, inner, order, defs, rank, bound);
      var part := Resolve(child, defs, chain);
      PutIn(now, slot, part);
      SameShapes(Put(now, slot, part), now, x);
      WalkPartsResolves(x, Put(now, slot, part), slots[1..], chain, place, order, defs, rank, bound);
    }
  }

  // ----- the definitions, and the whole schema -----

  /** What becomes of a definition in the walk. */
  function Final(defs: Defs, r: string, chain: set<string>): Schema
    requires r in defs
  {
    if defs[r].ref != "" then defs[r] else Resolve(defs[r], defs, chain)
  }

  ghost predicate Underway(now: Defs, defs: Defs, names: seq<string>, chain: set<string>) {
    now.Keys == defs.Keys
    && forall r | r in defs :: now[r] == Final(defs, r, chain) || (r in names && now[r] == defs[r])
  }

  lemma UnderwayFits(now: Defs, defs: Defs, names: seq<string>, chain: set<string>, rank: Ranks)
    requires Fitting(defs, defs, chain, rank) && Underway(now, defs, names, chain)
    ensures Fitting(now, defs, chain, rank)
  {
    forall r | r in rank
      ensures RefsBelow(now[r], rank, rank[r]) && SiblingFree(now[r]) && Resolve(now[r], defs, chain) == Resolve(defs[r], defs, chain)
    {
      RankOf(r, defs, rank);
      hide SiblingFree, RefsBelow, Resolve, Acyclic;
      Settled(defs[r], defs, chain, rank, rank[r]);
    }
    hide SiblingFree, RefsBelow, Resolve;
  }

  lemma PutFits(now: Defs, defs: Defs, r: string, x: Schema, chain: set<string>, rank: Ranks)
    requires Fitting(now, defs, chain, rank) && r in rank
    requires SiblingFree(x) && RefsBelow(x, rank, rank[r]) && Resolve(x, defs, chain) == Resolve(defs[r], defs, chain)
    ensures Fitting(now[r := x], defs, chain, rank)
  {
    hide SiblingFree, RefsBelow, Resolve;
    assert now[r := x].Keys == now.Keys;
  }

  /** Walking through acyclic definitions in any order resolves each that is not a reference itself. */
  lemma {:induction false} DefinitionsResolved(now: Defs, defs: Defs, names: seq<string>, chain: set<string>, order: Order, rank: Ranks)
    requires Covers(order) && Fitting(defs, defs, chain, rank) && Underway(now, defs, names, chain)
    requires forall r | r in names :: r in defs
    ensures var after := WalkDefs(now, names, chain, order);
      && Fitting(after, defs, chain, rank) && after.Keys == defs.Keys
      && forall r | r in defs :: after[r] == Final(defs, r, chain)
    decreases |names|
  {
    hide Fitting, Acyclic, Resolve, SiblingFree, Walk;
    if names == [] {
      UnderwayFits(now, defs, names, chain, rank);
    } else {
      var r := names[0];
      var next := if now[r].ref != "" then now else now[r := Walk(now[r], chain, x => now[r := x], order)];
      OneMoreWalked(now, defs, names, chain, order, rank);
      DefinitionsResolved(next, defs, names[1..], chain, order, rank);
    }
  }

  lemma OneMoreWalked(now: Defs, defs: Defs, names: seq<string>, chain: set<string>, order: Order, rank: Ranks)
    requires Covers(order) && Fitting(defs, defs, chain, rank) && Underway(now, defs, names, chain)
    requires names != [] && names[0] in defs
    ensures var r := names[0];
      Underway(if now[r].ref != "" then now else now[r := Walk(now[r], chain, x => now[r := x], order)], defs, names[1..], chain)
  {
    var r := names[0];
    assert r in rank;
    UnderwayFits(now, defs, names, chain, rank);
    if now[r].ref == "" { WalkedFinal(now, defs, r, chain, order, rank); }
    hide Fitting, Acyclic, Resolve, SiblingFree, Walk;
    assert now[r].ref == "" ==> defs[r].ref == "" by { assert now[r] == Final(defs, r, chain) || now[r] == defs[r]; }
    hide Underway;
    StepUnderway(now, defs, names, chain);
  }

  lemma StepUnderway(now: Defs, defs: Defs, names: seq<string>, chain: set<string>)
    requires Underway(now, defs, names, chain) && names != [] && names[0] in defs
    ensures Underway(now[names[0] := Final(defs, names[0], chain)], defs, names[1..], chain)
    ensures now[names[0]].ref != "" ==> Underway(now, defs, names[1..], chain)
  {
    var r := names[0];
    assert now[r].ref != "" ==> now[r] == Final(defs, r, chain);
    hide Final;
    assert forall q | q in defs && q != r && q in names :: q in names[1..];
    assert now[r := Final(defs, r, chain)].Keys == defs.Keys;
  }

  lemma WalkedFinal(now: Defs, defs: Defs, r: string, chain: set<string>, order: Order, rank: Ranks)
    requires Covers(order) && Fitting(defs, defs, chain, rank) && Fitting(now, defs, chain, rank) && r in rank
    ensures Walk(now[r], chain, x => now[r := x], order) == Resolve(defs[r], defs, chain)
  {
    assert RefsBelow(now[r], rank, rank[r]);
    hide SiblingFree, RefsBelow, Resolve, Acyclic;
    var place := (x: Schema) => now[r := x];
    forall x | StandsFor(x, now[r], defs, chain, rank, rank[r]) ensures Fitting(place(x), defs, chain, rank) {
      PutFits(now, defs, r, x, chain, rank);
    }
    WalkResolves(now[r], chain, place, order, defs, rank, rank[r]);
  }

  lemma RootPartsAre(node: Schema, before: Defs, after: Defs, chain: set<string>)
    ensures var r := RootParts(node, before, after, chain);
      && SameShape(r, node) && (forall slot :: Has(r, slot) <==> Has(node, slot))
      && forall slot | Has(node, slot) :: Child(r, slot) == Resolve(Child(node, slot), if slot.PropSlot? then before else after, chain)
  {
    ResolvedParts(node, before, chain);
    ResolvedParts(node, after, chain);
    hide Resolve, ResolveChildren;
    var r, a, b := RootParts(node, before, after, chain), ResolveChildren(node, after, chain), ResolveChildren(node, before, chain);
    SameSlots(r, node);
    forall slot | Has(node, slot)
      ensures Child(r, slot) == Resolve(Child(node, slot), if slot.PropSlot? then before else after, chain)
    {
      assert Child(r, slot) == if slot.PropSlot? then Child(b, slot) else Child(a, slot);
    }
  }

  lemma MergedPart(d: Schema, n: Schema, slot: Slot)
    requires Has(WithSiblings(d, n), slot)
    ensures (Has(d, slot) && Child(WithSiblings(d, n), slot) == Child(d, slot))
      || (Has(n, slot) && Child(WithSiblings(d, n), slot) == Child(n, slot))
  {}

  /** Where no place behind the definitions refers with siblings, the order of the walk does not matter. */
  lemma SameFromAll(node: Schema, after: Defs, defs: Defs, chain: set<string>, rank: Ranks, bound: nat)
    requires Fitting(defs, defs, chain, rank) && Fitting(after, defs, chain, rank)
    requires forall slot | Has(node, slot) :: SiblingFree(Child(node, slot)) && RefsBelow(Child(node, slot), rank, bound)
    ensures RootParts(node, defs, after, chain) == ResolveChildren(node, defs, chain)
  {
    hide Fitting, Acyclic, SiblingFree, RefsBelow, Resolve, ResolveChildren, SameShape, Has, Child, RootParts;
    RootPartsAre(node, defs, after, chain);
    ResolvedParts(node, defs, chain);
    forall slot | Has(node, slot) ensures Resolve(Child(node, slot), after, chain) == Resolve(Child(node, slot), defs, chain) {
      assert chain + {} == chain;
      Confluent(Child(node, slot), after, defs, chain, {}, rank, bound);
    }
    var a, b := RootParts(node, defs, after, chain), ResolveChildren(node, defs, chain);
    SameShapesBack(b, node, a);
    SameParts(a, b);
  }

  lemma PartsOfSiblings(node: Schema, slot: Slot)
    requires PartsSiblingFree(node) && Has(node, slot)
    ensures SiblingFree(Child(node, slot))
  {}

  /** A root that is a reference. */
  lemma RootReference(s: Schema, defs: Defs, names: seq<string>, order: Order, rank: Ranks, bound: nat)
    requires Covers(order) && (forall r :: r in names <==> r in defs)
    requires Acyclic(defs, rank) && (forall r | r in defs :: SiblingFree(defs[r]))
    requires s.ref != "" && PartsSiblingFree(s) && RefsBelow(s, rank, bound)
    ensures WalkSchema(s, defs, names, order) == Resolve(s, defs, {})
  {
    var r, chain := s.ref, {s.ref};
    RankedBelow(s, rank, bound);
    assert {} + {r} == chain;
    assert Fitting(defs, defs, chain, rank);
    RankOf(r, defs, rank);
    DefinitionsResolved(defs, defs, names, chain, order, rank);
    var after, d := WalkDefs(defs, names, chain, order), Resolve(defs[r], defs, chain);
    assert Resolve(s, defs, {}) == ResolveChildren(WithSiblings(d, s), defs, chain);
    hide Fitting, Acyclic, SiblingFree, RefsBelow, Resolve, ResolveChildren, Has, Child, PartsSiblingFree;
    Settled(defs[r], defs, chain, rank, rank[r]);
    BoundGrows(d, rank, rank[r], bound);
    var node := WithSiblings(d, s);
    forall slot | Has(node, slot) ensures SiblingFree(Child(node, slot)) && RefsBelow(Child(node, slot), rank, bound) {
      MergedPart(d, s, slot);
      if Has(d, slot) { SiblingFreeChild(d, slot); RefsBelowParts(d, rank, bound); }
      if Has(s, slot) { PartsOfSiblings(s, slot); RefsBelowParts(s, rank, bound); }
    }
    SameFromAll(node, after, defs, chain, rank, bound);
  }

  /** A schema without siblings comes out as if every reference in it had been replaced by the
      definition as it was given: the order of the walk makes no difference. */
  lemma InPlaceIsExpansion(s: Schema, defs: Defs, names: seq<string>, order: Order, rank: Ranks, bound: nat)
    requires Covers(order) && (forall r :: r in names <==> r in defs)
    requires Acyclic(defs, rank) && (forall r | r in defs :: SiblingFree(defs[r]))
    requires SiblingFree(s) && RefsBelow(s, rank, bound)
    ensures WalkSchema(s, defs, names, order) == Resolve(s, defs, {})
  {
    if s.ref != "" {
      assert PartsSiblingFree(s);
      RootReference(s, defs, names, order, rank, bound);
    } else {
      assert Fitting(defs, defs, {}, rank);
      DefinitionsResolved(defs, defs, names, {}, order, rank);
      hide Fitting, Acyclic, SiblingFree, RefsBelow, Resolve, ResolveChildren, Has, Child;
      forall slot | Has(s, slot) ensures SiblingFree(Child(s, slot)) && RefsBelow(Child(s, slot), rank, bound) {
        SiblingFreeChild(s, slot);
        RefsBelowParts(s, rank, bound);
      }
      SameFromAll(s, WalkDefs(defs, names, {}, order), defs, {}, rank, bound);
      ResolveTop(s, defs, {});
    }
  }
}
