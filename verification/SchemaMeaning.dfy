/** What a schema accepts before and after NormalizeSchema (internal/openai/schema.go). */
module SchemaMeaning {
  import opened Text
  import opened Json
  import opened Schemas
  import opened SchemaRefs
  import opened SchemaRefsLeft
  import opened SchemaSiblings
  import opened SchemaWalk
  import opened SchemaLeft
  import opened SchemaClosing

  lemma AlikeParts(a: Schema, b: Schema, env: Env)
    requires SameShape(a, b) && forall slot | Has(a, slot) && Has(b, slot) :: SameMeaning(Child(a, slot), Child(b, slot), env)
    ensures SameMeaning(a, b, env)
  {
    hide SameMeaning;
    if a.props.Props? {
      forall k | k in a.props.m ensures SameMeaning(a.props.m[k], b.props.m[k], env) {
        assert Has(a, PropSlot(k)) && Has(b, PropSlot(k));
      }
    }
    if a.items.Items? { assert Has(a, ItemsSlot) && Has(b, ItemsSlot); }
    forall i | a.prefix.Alts? && 0 <= i < |a.prefix.s| ensures SameMeaning(a.prefix.s[i], b.prefix.s[i], env) {
      assert Has(a, PrefixSlot(i)) && Has(b, PrefixSlot(i));
    }
    forall i | a.anyOf.Alts? && 0 <= i < |a.anyOf.s| ensures SameMeaning(a.anyOf.s[i], b.anyOf.s[i], env) {
      assert Has(a, AnyOfSlot(i)) && Has(b, AnyOfSlot(i));
    }
    forall i | a.oneOf.Alts? && 0 <= i < |a.oneOf.s| ensures SameMeaning(a.oneOf.s[i], b.oneOf.s[i], env) {
      assert Has(a, OneOfSlot(i)) && Has(b, OneOfSlot(i));
    }
    forall i | a.allOf.Alts? && 0 <= i < |a.allOf.s| ensures SameMeaning(a.allOf.s[i], b.allOf.s[i], env) {
      assert Has(a, AllOfSlot(i)) && Has(b, AllOfSlot(i));
    }
    AlikeMeansSame(a, b, env);
  }

  // ----- the walk through the definitions -----

  ghost predicate FreeDefs(defs: Defs) {
    forall r | r in defs :: SiblingFree(defs[r])
  }

  ghost predicate SameWords(a: Schema, b: Schema) {
    forall w :: Carries(a, w) <==> Carries(b, w)
  }

  /** What a node may have become in the course of the walk. */
  ghost predicate Means(now: Schema, x: Schema, env: Env, scope: Scope) {
    && SiblingFree(now) && SameMeaning(now, x, env) && (x.ref == "" ==> now.ref == "" && SameWords(now, x))
    && (Explicit(x, scope) ==> Explicit(now, scope)) && (ExplicitUnderOneOf(x, scope) ==> ExplicitUnderOneOf(now, scope))
  }

  ghost predicate DefsMean(now: Defs, defs: Defs, env: Env, scope: Scope) {
    && now.Keys == defs.Keys
    && forall r | r in defs :: Means(now[r], defs[r], env, scope) && (defs[r].ref != "" ==> now[r] == defs[r])
  }

  lemma MeaningIsModel(now: Defs, defs: Defs, env: Env, scope: Scope)
    requires Models(env, defs) && InScope(defs, scope) && DefsMean(now, defs, env, scope)
    ensures Models(env, now) && FreeDefs(now) && InScope(now, scope)
  {
    hide Accepts, SameWords, SiblingFree, Explicit, ExplicitUnderOneOf;
    assert forall r | r in now :: Means(now[r], defs[r], env, scope);
    forall r, v | r in now ensures env.ref(r, v) <==> Accepts(now[r], v, env) {
      assert SameMeaning(now[r], defs[r], env);
    }
  }

  lemma ShapeWords(a: Schema, b: Schema)
    requires SameShape(a, b)
    ensures SameWords(a, b)
  {}

  lemma MeansItself(x: Schema, env: Env, scope: Scope)
    requires SiblingFree(x)
    ensures Means(x, x, env, scope)
  {
    hide SiblingFree, Accepts;
  }

  ghost predicate PlaceMeans(place: Schema -> Defs, x: Schema, defs: Defs, env: Env, scope: Scope) {
    forall now | Means(now, x, env, scope) :: DefsMean(place(now), defs, env, scope)
  }

  /** Walking through a node of a definition does not change what it accepts, cyclic definitions included. */
  lemma {:induction false} WalkMeans(x: Schema, chain: set<string>, place: Schema -> Defs, order: Order, defs: Defs, env: Env, scope: Scope)
    requires Covers(order) && Models(env, defs) && InScope(defs, scope) && PlaceMeans(place, x, defs, env, scope) && SiblingFree(x)
    ensures Means(Walk(x, chain, place, order), x, env, scope)
    decreases x, 1, 0
  {
    hide SiblingFree, Models, SameMeaning, SameWords, DefsMean, Resolve;
    MeansItself(x, env, scope);
    if x.ref == "" {
      forall slot | Has(x, slot) ensures Means(Child(x, slot), Child(x, slot), env, scope) {
        SiblingFreeChild(x, slot);
        MeansItself(Child(x, slot), env, scope);
      }
      ShapeOfItself(x);
      WalkPartsMeans(x, x, order(x), chain, place, order, defs, env, scope);
    } else {
      MeaningIsModel(place(x), defs, env, scope);
      ResolveSame(x, place(x), chain, env);
      if Explicit(x, scope) { StaysExplicit(x, place(x), chain, scope); }
      if ExplicitUnderOneOf(x, scope) { StaysStable(x, place(x), chain, scope); }
    }
  }

  lemma ShapeOfItself(x: Schema)
    ensures SameShape(x, x)
  {}

  lemma PartMeans(x: Schema, now: Schema, env: Env, scope: Scope)
    requires SiblingFree(x) && x.ref == "" && SameShape(now, x)
    requires forall slot | Has(now, slot) && Has(x, slot) :: Means(Child(now, slot), Child(x, slot), env, scope)
    ensures Means(now, x, env, scope)
  {
    SameSlots(now, x);
    SameRef(now, x);
    ShapeWords(now, x);
    hide SiblingFree, SameMeaning, SameWords, SameShape, Has, Child;
    AlikeParts(now, x, env);
    SiblingFreeParts(now);
    if Explicit(x, scope) { assert SaysAll(now) by { SaysAllAlike(now, x); } }
  }

  lemma SaysAllAlike(now: Schema, x: Schema)
    requires SameShape(now, x) && SaysAll(x)
    ensures SaysAll(now)
  {}

  lemma PutMeans(x: Schema, now: Schema, slot: Slot, part: Schema, env: Env, scope: Scope)
    requires SiblingFree(x) && x.ref == "" && SameShape(now, x) && Has(now, slot) && Has(x, slot)
    requires forall s | Has(now, s) && Has(x, s) :: Means(Child(now, s), Child(x, s), env, scope)
    requires Means(part, Child(x, slot), env, scope)
    ensures SameShape(Put(now, slot, part), x) && Means(Put(now, slot, part), x, env, scope)
    ensures forall s | Has(Put(now, slot, part), s) && Has(x, s) :: Means(Child(Put(now, slot, part), s), Child(x, s), env, scope)
  {
    hide SiblingFree, Means, SameShape, Has, Child, Put;
    var t := Put(now, slot, part);
    PutIn(now, slot, part);
    SameShapes(t, now, x);
    SameSlots(now, x);
    forall s | Has(t, s) && Has(x, s) ensures Means(Child(t, s), Child(x, s), env, scope) {}
    PartMeans(x, t, env, scope);
  }

  lemma WalkPartsMeans(x: Schema, now: Schema, slots: seq<Slot>, chain: set<string>, place: Schema -> Defs, order: Order, defs: Defs, env: Env, scope: Scope)
    requires Covers(order) && Models(env, defs) && InScope(defs, scope) && PlaceMeans(place, x, defs, env, scope) && SiblingFree(x) && x.ref == ""
    requires SameShape(now, x) && forall slot | slot in slots :: Has(x, slot) && Has(now, slot)
    requires forall slot | Has(now, slot) && Has(x, slot) :: Means(Child(now, slot), Child(x, slot), env, scope)
    ensures Means(WalkParts(x, now, slots, chain, place, order), x, env, scope)
    decreases x, 0, |slots|
  {
    hide SiblingFree, Models, SameShape, DefsMean, Means, Has, Child, Put;
    if slots == [] {
      PartMeans(x, now, env, scope);
    } else {
      var slot := slots[0];
      var child, inner := Child(x, slot), p => place(Put(now, slot, p));
      SiblingFreeChild(x, slot);
      forall part | Means(part, child, env, scope) ensures DefsMean(inner(part), defs, env, scope) {
        PutMeans(x, now, slot, part, env, scope);
      }
      WalkMeans(child, chain, inner, order, defs, env, scope);
      var part := Walk(child, chain, inner, order);
      PutMeans(x, now, slot, part, env, scope);
      PutIn(now, slot, part);
      WalkPartsMeans(x, Put(now, slot, part), slots[1..], chain, place, order, defs, env, scope);
    }
  }

  lemma DefsMeanThemselves(defs: Defs, env: Env, scope: Scope)
    requires FreeDefs(defs)
    ensures DefsMean(defs, defs, env, scope)
  {
    hide SiblingFree, Means;
    forall r | r in defs ensures Means(defs[r], defs[r], env, scope) { MeansItself(defs[r], env, scope); }
  }

  lemma MeansOfMeans(a: Schema, b: Schema, c: Schema, env: Env, scope: Scope)
    requires Means(a, b, env, scope) && Means(b, c, env, scope)
    ensures Means(a, c, env, scope)
  {
    hide SiblingFree, Accepts, Carries;
  }

  /** Walking through the definitions does not change what any of them accepts. */
  lemma {:induction false} DefinitionsMean(now: Defs, defs: Defs, names: seq<string>, chain: set<string>, order: Order, env: Env, scope: Scope)
    requires Covers(order) && Models(env, defs) && InScope(defs, scope) && DefsMean(now, defs, env, scope) && forall r | r in names :: r in defs
    ensures DefsMean(WalkDefs(now, names, chain, order), defs, env, scope)
    decreases |names|
  {
    if names != [] {
      var r := names[0];
      hide Means, Models, Walk, SiblingFree;
      if now[r].ref == "" {
        WalkedMeans(now, defs, r, chain, order, env, scope);
        DefinitionsMean(now[r := Walk(now[r], chain, x => now[r := x], order)], defs, names[1..], chain, order, env, scope);
      } else {
        DefinitionsMean(now, defs, names[1..], chain, order, env, scope);
      }
    }
  }

  lemma PutDefMeans(now: Defs, defs: Defs, r: string, x: Schema, env: Env, scope: Scope)
    requires DefsMean(now, defs, env, scope) && r in defs && now[r].ref == "" && Means(x, now[r], env, scope)
    ensures DefsMean(now[r := x], defs, env, scope)
  {
    MeansOfMeans(x, now[r], defs[r], env, scope);
    hide Means;
    assert now[r := x].Keys == now.Keys;
    assert defs[r].ref == "";
  }

  lemma WalkedMeans(now: Defs, defs: Defs, r: string, chain: set<string>, order: Order, env: Env, scope: Scope)
    requires Covers(order) && Models(env, defs) && InScope(defs, scope) && DefsMean(now, defs, env, scope) && r in defs && now[r].ref == ""
    ensures DefsMean(now[r := Walk(now[r], chain, x => now[r := x], order)], defs, env, scope)
  {
    var place := (x: Schema) => now[r := x];
    assert SiblingFree(now[r]) by { assert Means(now[r], defs[r], env, scope); }
    hide Means, Models, Walk, SiblingFree;
    forall x | Means(x, now[r], env, scope) ensures DefsMean(place(x), defs, env, scope) { PutDefMeans(now, defs, r, x, env, scope); }
    WalkMeans(now[r], chain, place, order, defs, env, scope);
    PutDefMeans(now, defs, r, Walk(now[r], chain, place, order), env, scope);
  }

  // ----- references with siblings -----

  /** The definition that following references which are nothing but references leads to. */
  function Reached(r: string, defs: Defs, chain: set<string>): Schema
    requires r in defs
    decreases |defs.Keys - chain|
  {
    var next := defs[r].ref;
    if next == "" || next in chain || next !in defs then defs[r]
    else
      OneFewer(defs, chain, next);
      Reached(next, defs, chain + {next})
  }

  lemma ResolvedWords(x: Schema, defs: Defs, chain: set<string>)
    ensures SameWords(ResolveChildren(x, defs, chain), x)
  {
    hide Resolve, ResolveChildren;
    ResolvedParts(x, defs, chain);
    ShapeWords(ResolveChildren(x, defs, chain), x);
  }

  lemma {:induction false} ReachedWords(r: string, defs: Defs, chain: set<string>)
    requires r in defs && FreeDefs(defs)
    ensures SameWords(Resolve(defs[r], defs, chain), Reached(r, defs, chain))
    decreases |defs.Keys - chain|
  {
    var d := defs[r];
    BareNode(d);
    hide SiblingFree, Carries, ResolveChildren;
    if d.ref == "" {
      ResolvedWords(d, defs, chain);
    } else if d.ref !in chain && d.ref in defs {
      var next := chain + {d.ref};
      OneFewer(defs, chain, d.ref);
      ReachedWords(d.ref, defs, next);
      var e := Resolve(defs[d.ref], defs, next);
      NoSiblings(e, d);
      ResolvedWords(e, defs, next);
    }
  }

  lemma {:induction false} ReachedMeans(r: string, now: Defs, defs: Defs, chain: set<string>, env: Env, scope: Scope)
    requires r in defs && DefsMean(now, defs, env, scope)
    ensures SameWords(Reached(r, now, chain), Reached(r, defs, chain))
    decreases |defs.Keys - chain|
  {
    hide SameMeaning, SiblingFree, Carries;
    assert Means(now[r], defs[r], env, scope);
    var next := defs[r].ref;
    if next != "" && next !in chain && next in defs {
      OneFewer(defs, chain, next);
      ReachedMeans(next, now, defs, chain + {next}, env, scope);
    }
  }

  /** Every reference with siblings has none that replaces a keyword of its definition or is coupled
      with one. */
  ghost predicate Agrees(s: Schema, defs: Defs)
    decreases s
  {
    if s.ref != "" then s.ref in defs ==> Compatible(Reached(s.ref, defs, {s.ref}), s)
    else forall slot | Has(s, slot) :: Agrees(Child(s, slot), defs)
  }

  lemma CompatibleLike(a: Schema, b: Schema, n: Schema)
    requires SameWords(a, b) && Compatible(b, n)
    ensures Compatible(a, n)
  {
    hide Carries;
  }

  lemma {:induction false} AgreesAfter(s: Schema, now: Defs, defs: Defs, env: Env, scope: Scope)
    requires Agrees(s, defs) && DefsMean(now, defs, env, scope)
    ensures Agrees(s, now)
    decreases s
  {
    SameNames(now, defs, env, scope);
    hide DefsMean, Compatible, SameWords, Has, Child;
    if s.ref != "" {
      assert s.ref in now <==> s.ref in defs;
      if s.ref in defs {
        ReachedMeans(s.ref, now, defs, {s.ref}, env, scope);
        CompatibleLike(Reached(s.ref, now, {s.ref}), Reached(s.ref, defs, {s.ref}), s);
      }
    } else {
      forall slot | Has(s, slot) ensures Agrees(Child(s, slot), now) { AgreesAfter(Child(s, slot), now, defs, env, scope); }
    }
  }

  lemma SameNames(now: Defs, defs: Defs, env: Env, scope: Scope)
    requires DefsMean(now, defs, env, scope)
    ensures now.Keys == defs.Keys
  {
    hide Means;
  }

  /** The siblings of a reference are written over its definition: the node means the same as before. */
  lemma MergedMeans(s: Schema, defs: Defs, env: Env)
    requires Models(env, defs) && FreeDefs(defs) && s.ref in defs && s.ref != "" && Agrees(s, defs)
    ensures SameMeaning(WithSiblings(Resolve(defs[s.ref], defs, {s.ref}), s), s, env)
  {
    var r := s.ref;
    var d := Resolve(defs[r], defs, {r});
    ReachedWords(r, defs, {r});
    CompatibleLike(d, Reached(r, defs, {r}), s);
    ResolveSame(defs[r], defs, {r}, env);
    var merged := WithSiblings(d, s);
    forall v ensures Accepts(merged, v, env) <==> Accepts(s, v, env) {
      hide SiblingFree, Compatible, Resolve;
      CompatibleMeansBoth(d, s, v, env);
      hide WithSiblings;
      assert Accepts(d, v, env) <==> env.ref(r, v) by { assert Accepts(d, v, env) <==> Accepts(defs[r], v, env); }
      BesideReference(s, v, env);
    }
  }

  lemma BesideReference(s: Schema, v: Json, env: Env)
    requires s.ref != ""
    ensures Accepts(s, v, env) <==> env.ref(s.ref, v) && Accepts(WithoutRef(s), v, env)
  {
    var t := WithoutRef(s);
    hide Accepts;
    assert AcceptsWhole(s, v, env) <==> env.ref(s.ref, v) && AcceptsWhole(t, v, env);
    if v.Obj? { assert AcceptsFields(s, v.fields, env) <==> AcceptsFields(t, v.fields, env); }
    if v.Arr? { assert AcceptsElements(s, v.elems, env) <==> AcceptsElements(t, v.elems, env); }
    assert AcceptsAlternatives(s, v, env) <==> AcceptsAlternatives(t, v, env);
    hide AcceptsWhole, AcceptsFields, AcceptsElements, AcceptsAlternatives;
    AcceptsIs(s, v, env);
    AcceptsIs(t, v, env);
  }

  lemma MergedFree(d: Schema, n: Schema, slot: Slot)
    requires SiblingFree(d) && PartsSiblingFree(n) && Has(WithSiblings(d, n), slot)
    ensures SiblingFree(Child(WithSiblings(d, n), slot))
  {
    MergedPart(d, n, slot);
    hide WithSiblings, SiblingFree, PartsSiblingFree;
    if Has(d, slot) { SiblingFreeChild(d, slot); }
    if Has(n, slot) { PartsOfSiblings(n, slot); }
  }

  /** The parts of a node in the definitions before and after the walk through them. */
  lemma RootPartsMean(node: Schema, after: Defs, defs: Defs, chain: set<string>, env: Env)
    requires Models(env, defs) && FreeDefs(defs) && Models(env, after) && FreeDefs(after)
    requires forall slot | Has(node, slot) :: SiblingFree(Child(node, slot))
    ensures SameMeaning(RootParts(node, defs, after, chain), node, env)
  {
    RootPartsAre(node, defs, after, chain);
    hide SameMeaning, SiblingFree, RootParts, Resolve, Models, DefsMean, Has, Child, SameShape;
    var t := RootParts(node, defs, after, chain);
    forall slot | Has(t, slot) && Has(node, slot) ensures SameMeaning(Child(t, slot), Child(node, slot), env) {
      ResolveSame(Child(node, slot), if slot.PropSlot? then defs else after, chain, env);
    }
    AlikeParts(t, node, env);
  }

  lemma MeaningOfMeaning(a: Schema, b: Schema, c: Schema, env: Env)
    requires SameMeaning(a, b, env) && SameMeaning(b, c, env)
    ensures SameMeaning(a, c, env)
  {
    hide Accepts;
  }

  /** A node whose references may have siblings means the same when it is resolved. */
  lemma {:induction false} SiteMeans(s: Schema, defs: Defs, env: Env)
    requires Models(env, defs) && FreeDefs(defs) && OneLevel(s) && Agrees(s, defs)
    ensures SameMeaning(Resolve(s, defs, {}), s, env)
    decreases s
  {
    hide SameMeaning, SiblingFree, Models, ResolveChildren, Has, Child, SameShape, Compatible, OneLevel, FreeDefs;
    if s.ref == "" {
      ResolveTop(s, defs, {});
      hide Resolve;
      ResolvedParts(s, defs, {});
      var t := ResolveChildren(s, defs, {});
      forall slot | Has(t, slot) && Has(s, slot) ensures SameMeaning(Child(t, slot), Child(s, slot), env) {
        PartOneLevel(s, slot);
        SiteMeans(Child(s, slot), defs, env);
      }
      AlikeParts(t, s, env);
    } else if s.ref in defs {
      var chain := {s.ref};
      assert {} + {s.ref} == chain;
      var d := Resolve(defs[s.ref], defs, chain);
      var merged := WithSiblings(d, s);
      assert Resolve(s, defs, {}) == ResolveChildren(merged, defs, chain);
      MergedMeans(s, defs, env);
      FreeDefinition(s.ref, defs, chain);
      hide Resolve;
      forall slot | Has(merged, slot) ensures SiblingFree(Child(merged, slot)) { PartOneLevelFree(s); MergedFree(d, s, slot); }
      RootPartsMean(merged, defs, defs, chain, env);
      assert RootParts(merged, defs, defs, chain) == ResolveChildren(merged, defs, chain);
      MeaningOfMeaning(ResolveChildren(merged, defs, chain), merged, s, env);
    } else {
      SameAsItself(s, env);
    }
  }

  lemma FreeDefinition(r: string, defs: Defs, chain: set<string>)
    requires FreeDefs(defs) && r in defs
    ensures SiblingFree(Resolve(defs[r], defs, chain))
  {
    hide SiblingFree, Resolve;
    StaysFree(defs[r], defs, chain);
  }

  lemma PartOneLevelFree(s: Schema)
    requires OneLevel(s) && s.ref != ""
    ensures PartsSiblingFree(s)
  {}

  lemma AgreesPart(s: Schema, slot: Slot, defs: Defs)
    requires Agrees(s, defs) && s.ref == "" && Has(s, slot)
    ensures Agrees(Child(s, slot), defs)
  {}

  /** The definitions after the walk. */
  lemma AfterMeans(defs: Defs, names: seq<string>, chain: set<string>, order: Order, env: Env, scope: Scope)
    requires Covers(order) && (forall r | r in names :: r in defs) && Models(env, defs) && FreeDefs(defs) && InScope(defs, scope)
    ensures var after := WalkDefs(defs, names, chain, order);
      DefsMean(after, defs, env, scope) && Models(env, after) && FreeDefs(after) && InScope(after, scope)
  {
    hide Models, FreeDefs, DefsMean, InScope, WalkDefs;
    DefsMeanThemselves(defs, env, scope);
    DefinitionsMean(defs, defs, names, chain, order, env, scope);
    MeaningIsModel(WalkDefs(defs, names, chain, order), defs, env, scope);
  }

  /** The walk through a schema does not change what it accepts. */
  lemma WalkSchemaMeans(s: Schema, defs: Defs, names: seq<string>, order: Order, env: Env)
    requires Covers(order) && (forall r | r in names :: r in defs) && Models(env, defs) && FreeDefs(defs)
    requires OneLevel(s) && Agrees(s, defs)
    ensures SameMeaning(WalkSchema(s, defs, names, order), s, env)
  {
    var scope := Scope({}, {});
    hide SameMeaning, Models, ResolveChildren, Resolve, Has, Child, SameShape, Agrees, OneLevel, RootParts, WalkDefs, DefsMean, Explicit, ExplicitUnderOneOf;
    if s.ref == "" {
      var after := WalkDefs(defs, names, {}, order);
      AfterMeans(defs, names, {}, order, env, scope);
      hide SiblingFree, FreeDefs;
      RootPartsAre(s, defs, after, {});
      AgreesAfter(s, after, defs, env, scope);
      var t := RootParts(s, defs, after, {});
      forall slot | Has(t, slot) && Has(s, slot) ensures SameMeaning(Child(t, slot), Child(s, slot), env) {
        PartOneLevel(s, slot);
        AgreesPart(s, slot, defs);
        AgreesPart(s, slot, after);
        SiteMeans(Child(s, slot), if slot.PropSlot? then defs else after, env);
      }
      AlikeParts(t, s, env);
    } else if s.ref in defs {
      var chain := {s.ref};
      AfterMeans(defs, names, chain, order, env, scope);
      var d := Resolve(defs[s.ref], defs, chain);
      var merged := WithSiblings(d, s);
      MergedMeans(s, defs, env);
      FreeDefinition(s.ref, defs, chain);
      hide SiblingFree, FreeDefs;
      forall slot | Has(merged, slot) ensures SiblingFree(Child(merged, slot)) { PartOneLevelFree(s); MergedFree(d, s, slot); }
      RootPartsMean(merged, WalkDefs(defs, names, chain, order), defs, chain, env);
      MeaningOfMeaning(WalkSchema(s, defs, names, order), merged, s, env);
    } else {
      SameAsItself(s, env);
    }
  }

  // ----- and closing object nodes -----

  lemma RootPartsStable(node: Schema, after: Defs, defs: Defs, chain: set<string>, scope: Scope)
    requires InScope(defs, scope) && InScope(after, scope) && ExplicitUnderOneOf(node, scope)
    ensures ExplicitUnderOneOf(RootParts(node, defs, after, chain), scope)
  {
    RootPartsAre(node, defs, after, chain);
    var t := RootParts(node, defs, after, chain);
    SameRef(t, node);
    hide InScope, RootParts, Resolve, Has, Child, SameShape, Explicit;
    forall slot | Has(t, slot)
      ensures if slot.OneOfSlot? then Explicit(Child(t, slot), scope) else ExplicitUnderOneOf(Child(t, slot), scope)
    {
      var with := if slot.PropSlot? then defs else after;
      if slot.OneOfSlot? {
        StaysExplicit(Child(node, slot), with, chain, scope);
      } else {
        StaysStable(Child(node, slot), with, chain, scope);
      }
    }
  }

  lemma WalkSchemaStable(s: Schema, defs: Defs, names: seq<string>, order: Order, env: Env, scope: Scope)
    requires Covers(order) && (forall r | r in names :: r in defs) && Models(env, defs) && FreeDefs(defs) && InScope(defs, scope)
    requires ExplicitUnderOneOf(s, scope)
    ensures ExplicitUnderOneOf(WalkSchema(s, defs, names, order), scope)
  {
    hide Models, FreeDefs, Resolve, RootParts, WalkDefs, DefsMean, Explicit, Has, Child;
    if s.ref == "" {
      AfterMeans(defs, names, {}, order, env, scope);
      RootPartsStable(s, WalkDefs(defs, names, {}, order), defs, {}, scope);
    } else if s.ref in defs {
      var chain := {s.ref};
      AfterMeans(defs, names, chain, order, env, scope);
      assert ExplicitUnderOneOf(defs[s.ref], scope);
      hide InScope, ExplicitUnderOneOf;
      StaysStable(defs[s.ref], defs, chain, scope);
      var d := Resolve(defs[s.ref], defs, chain);
      MergedStable(d, s, scope);
      RootPartsStable(WithSiblings(d, s), WalkDefs(defs, names, chain, order), defs, chain, scope);
    }
  }

  /** NormalizeSchema only takes values away: whatever it accepts, the schema with its definitions
      accepts, where no sibling replaces a keyword of a definition and every object node under oneOf
      says itself which properties it has. */
  lemma NormalizeNarrows(s: Schema, defs: Defs, names: seq<string>, order: Order, scope: Scope, v: Json, env: Env)
    requires Covers(order) && (forall r | r in names :: r in defs) && Models(env, defs) && FreeDefs(defs)
    requires OneLevel(s) && Agrees(s, defs)
    requires InScope(defs, scope) && ExplicitUnderOneOf(s, scope)
    requires Accepts(NormalizeSchema(s, defs, names, order), v, env)
    ensures Accepts(s, v, env)
  {
    hide Accepts, WalkSchema, Models, FreeDefs, InScope, OneLevel, Agrees, ExplicitUnderOneOf, InjectAdditionalProperties, StableOneOf;
    WalkSchemaMeans(s, defs, names, order, env);
    WalkSchemaStable(s, defs, names, order, env, scope);
    ExplicitIsStable(WalkSchema(s, defs, names, order), scope);
    InjectNarrows(WalkSchema(s, defs, names, order), v, env);
  }

  // ----- siblings, exactly -----

  ghost predicate SameBut(a: Env, b: Env) {
    a.enum == b.enum && a.facet == b.facet
  }

  ghost predicate PartsRegardless(s: Schema, a: Env, b: Env) {
    forall slot, v | Has(s, slot) :: Accepts(Child(s, slot), v, a) <==> Accepts(Child(s, slot), v, b)
  }

  lemma AtPart(s: Schema, slot: Slot, v: Json, a: Env, b: Env)
    requires PartsRegardless(s, a, b) && Has(s, slot)
    ensures Accepts(Child(s, slot), v, a) <==> Accepts(Child(s, slot), v, b)
  {
    hide Accepts;
  }

  lemma FieldsRegardless(s: Schema, v: Fields, a: Env, b: Env)
    requires PartsRegardless(s, a, b)
    ensures AcceptsFields(s, v, a) <==> AcceptsFields(s, v, b)
  {
    hide Accepts, PartsRegardless;
    if s.props.Props? {
      forall k | k in s.props.m && k in v ensures Accepts(s.props.m[k], v[k], a) <==> Accepts(s.props.m[k], v[k], b) {
        AtPart(s, PropSlot(k), v[k], a, b);
      }
    }
  }

  lemma ElementsRegardless(s: Schema, v: seq<Json>, a: Env, b: Env)
    requires PartsRegardless(s, a, b)
    ensures AcceptsElements(s, v, a) <==> AcceptsElements(s, v, b)
  {
    hide Accepts, PartsRegardless;
    if s.prefix.Alts? {
      forall i | 0 <= i < |s.prefix.s| && i < |v| ensures Accepts(s.prefix.s[i], v[i], a) <==> Accepts(s.prefix.s[i], v[i], b) {
        AtPart(s, PrefixSlot(i), v[i], a, b);
      }
    }
    if s.items.Items? {
      forall i | 0 <= i < |v| ensures Accepts(s.items.schema, v[i], a) <==> Accepts(s.items.schema, v[i], b) {
        AtPart(s, ItemsSlot, v[i], a, b);
      }
    }
  }

  lemma AlternativesRegardless(s: Schema, v: Json, a: Env, b: Env)
    requires PartsRegardless(s, a, b)
    ensures AcceptsAlternatives(s, v, a) <==> AcceptsAlternatives(s, v, b)
  {
    hide Accepts, PartsRegardless;
    if s.anyOf.Alts? {
      forall i | 0 <= i < |s.anyOf.s| ensures Accepts(s.anyOf.s[i], v, a) <==> Accepts(s.anyOf.s[i], v, b) { AtPart(s, AnyOfSlot(i), v, a, b); }
    }
    if s.allOf.Alts? {
      forall i | 0 <= i < |s.allOf.s| ensures Accepts(s.allOf.s[i], v, a) <==> Accepts(s.allOf.s[i], v, b) { AtPart(s, AllOfSlot(i), v, a, b); }
    }
    if s.oneOf.Alts? {
      forall i | 0 <= i < |s.oneOf.s| ensures Accepts(s.oneOf.s[i], v, a) <==> Accepts(s.oneOf.s[i], v, b) { AtPart(s, OneOfSlot(i), v, a, b); }
      assert (set i | 0 <= i < |s.oneOf.s| && Accepts(s.oneOf.s[i], v, a)) == (set i | 0 <= i < |s.oneOf.s| && Accepts(s.oneOf.s[i], v, b));
    }
  }

  /** A schema without references does not depend on what they mean. */
  lemma {:induction false} Regardless(s: Schema, v: Json, a: Env, b: Env)
    requires RefFree(s) && SameBut(a, b)
    ensures Accepts(s, v, a) <==> Accepts(s, v, b)
    decreases s
  {
    RefFreeParts(s);
    hide RefFree;
    forall slot, x | Has(s, slot) ensures Accepts(Child(s, slot), x, a) <==> Accepts(Child(s, slot), x, b) {
      Regardless(Child(s, slot), x, a, b);
    }
    assert AcceptsWhole(s, v, a) <==> AcceptsWhole(s, v, b);
    hide Accepts, AcceptsWhole, AcceptsFields, AcceptsElements, AcceptsAlternatives;
    if v.Obj? { FieldsRegardless(s, v.fields, a, b); }
    if v.Arr? { ElementsRegardless(s, v.elems, a, b); }
    AlternativesRegardless(s, v, a, b);
    AcceptsIs(s, v, a);
    AcceptsIs(s, v, b);
  }

  lemma {:induction false} FreeIsResolved(s: Schema, defs: Defs, chain: set<string>)
    requires RefFree(s)
    ensures Resolve(s, defs, chain) == s
    decreases s
  {
    RefFreeParts(s);
    hide RefFree, Resolve, ResolveChildren;
    ResolvedParts(s, defs, chain);
    forall slot | Has(s, slot) ensures Resolve(Child(s, slot), defs, chain) == Child(s, slot) { FreeIsResolved(Child(s, slot), defs, chain); }
    SameParts(ResolveChildren(s, defs, chain), s);
    ResolveTop(s, defs, chain);
  }

  lemma RootOfFree(node: Schema, before: Defs, after: Defs, chain: set<string>)
    requires RefFree(node)
    ensures RootParts(node, before, after, chain) == node
  {
    RefFreeParts(node);
    hide RefFree, Resolve, RootParts;
    RootPartsAre(node, before, after, chain);
    var t := RootParts(node, before, after, chain);
    forall slot | Has(t, slot) && Has(node, slot) ensures Child(t, slot) == Child(node, slot) {
      FreeIsResolved(Child(node, slot), if slot.PropSlot? then before else after, chain);
    }
    SameParts(t, node);
  }

  lemma {:induction false} FreeHasNoSiblings(s: Schema)
    requires RefFree(s)
    ensures SiblingFree(s)
    decreases s
  {
    RefFreeParts(s);
    hide RefFree, SiblingFree;
    forall slot | Has(s, slot) ensures SiblingFree(Child(s, slot)) { FreeHasNoSiblings(Child(s, slot)); }
    SiblingFreeParts(s);
  }

  lemma SiblingFreeInParts(s: Schema)
    requires SiblingFree(s)
    ensures PartsSiblingFree(s) && PartsSiblingFree(s.(ref := ""))
  {
    hide AllSiblingFree;
  }

  lemma DefinitionFree(a: Keyword, b: Keyword)
    ensures RefFree(DefinitionWith(a, b))
  {}

  lemma SiblingsFree(a: Keyword, b: Keyword)
    ensures RefFree(SiblingsWith(a, b))
  {}

  lemma MergedRefFree(d: Schema, n: Schema, r: string)
    requires RefFree(d) && RefFree(n)
    ensures RefFree(WithSiblings(d, n.(ref := r)))
  {
    hide AllRefFree;
  }

  /** A reference to the definition with those siblings, in a schema with no other definition, means
      the same after the walk. */
  ghost predicate MeansTheSame(r: string, d: Schema, n: Schema, names: seq<string>, order: Order, env: Env)
    requires Covers(order) && forall q | q in names :: q == r
  {
    Models(env, map[r := d]) ==> SameMeaning(WalkSchema(n.(ref := r), map[r := d], names, order), n.(ref := r), env)
  }

  ghost predicate AlwaysTheSame(definition: set<Keyword>, siblings: set<Keyword>, r: string, names: seq<string>, order: Order)
    requires Covers(order) && forall q | q in names :: q == r
  {
    forall d, n, env | Within(d, definition) && SiblingFree(d) && Within(n, siblings) && PartsSiblingFree(n) ::
      MeansTheSame(r, d, n, names, order, env)
  }

  function WithReference(r: string, d: Schema, env: Env): Env {
    env.(ref := (q: string, v: Json) => if q == r then Accepts(d, v, env) else env.ref(q, v))
  }

  lemma ReferenceModels(r: string, d: Schema, env: Env)
    requires RefFree(d)
    ensures Models(WithReference(r, d, env), map[r := d])
  {
    var more := WithReference(r, d, env);
    hide Accepts, RefFree;
    forall q, v | q in map[r := d] ensures more.ref(q, v) <==> Accepts(map[r := d][q], v, more) {
      Regardless(d, v, env, more);
    }
  }

  /** Siblings and a definition that tell make the walk change the meaning of the reference. */
  lemma ClashChanges(a: Keyword, b: Keyword, r: string, names: seq<string>, order: Order)
    requires Covers(order) && (forall q | q in names :: q == r) && r != "" && Clash(a, b)
    ensures !MeansTheSame(r, DefinitionWith(a, b), SiblingsWith(a, b), names, order, WithReference(r, DefinitionWith(a, b), SECOND_ONLY))
  {
    var d, n, v := DefinitionWith(a, b), SiblingsWith(a, b), Telling(a);
    var defs, more, s := map[r := d], WithReference(r, d, SECOND_ONLY), n.(ref := r);
    DefinitionFree(a, b);
    SiblingsFree(a, b);
    ClashTells(a, b);
    assert d.ref == "" && n.ref == "";
    ReferenceModels(r, d, SECOND_ONLY);
    hide Accepts, RefFree, Resolve, RootParts, WalkDefs, DefinitionWith, SiblingsWith, Telling, Models;
    FreeIsResolved(d, defs, {r});
    MergedRefFree(d, n, r);
    var merged := WithSiblings(d, s);
    assert WalkSchema(s, defs, names, order) == merged by {
      RootOfFree(merged, defs, WalkDefs(defs, names, {r}, order), {r});
    }
    assert merged == WithSiblings(d, n);
    Regardless(merged, v, SECOND_ONLY, more);
    Regardless(n, v, SECOND_ONLY, more);
    BesideReference(s, v, more);
    assert WithoutRef(s) == n;
    hide WalkSchema, WithSiblings;
    assert Accepts(merged, v, more) && !Accepts(s, v, more);
  }

  lemma AgreesWithOne(r: string, d: Schema, n: Schema)
    requires r != "" && d.ref == "" && Compatible(d, n)
    ensures Agrees(n.(ref := r), map[r := d])
  {
    assert Reached(r, map[r := d], {r}) == d;
    hide Compatible;
    assert Compatible(d, n.(ref := r)) by { SameCarries(d, n, r); }
  }

  lemma SameCarries(d: Schema, n: Schema, r: string)
    requires Compatible(d, n)
    ensures Compatible(d, n.(ref := r))
  {
    assert forall w :: Carries(n.(ref := r), w) <==> Carries(n, w);
  }

  /** Whatever stands under the keywords, the walk keeps the meaning of a reference with siblings exactly
      when no keyword beside the reference is one of the definition or coupled with one. */
  lemma MeaningExactly(definition: set<Keyword>, siblings: set<Keyword>, r: string, names: seq<string>, order: Order)
    requires Covers(order) && (forall q | q in names :: q == r) && r != ""
    ensures AlwaysTheSame(definition, siblings, r, names, order) <==> forall a, b | a in definition && b in siblings :: !Clash(a, b)
  {
    if a, b :| a in definition && b in siblings && Clash(a, b) {
      ClashChanges(a, b, r, names, order);
      OnlyDefinition(a, b);
      OnlySiblings(a, b);
      DefinitionFree(a, b);
      SiblingsFree(a, b);
      hide RefFree, SiblingFree, PartsSiblingFree, Carries, DefinitionWith, SiblingsWith, MeansTheSame, Clash;
      FreeHasNoSiblings(DefinitionWith(a, b));
      FreeHasNoSiblings(SiblingsWith(a, b));
      SiblingFreeInParts(SiblingsWith(a, b));
      assert Within(DefinitionWith(a, b), definition) && Within(SiblingsWith(a, b), siblings);
    } else {
      forall d, n, env | Within(d, definition) && SiblingFree(d) && Within(n, siblings) && PartsSiblingFree(n)
        ensures MeansTheSame(r, d, n, names, order, env)
      {
        CompatibleMeans(definition, siblings, d, n, r, names, order, env);
      }
    }
  }

  lemma CompatibleMeans(definition: set<Keyword>, siblings: set<Keyword>, d: Schema, n: Schema, r: string, names: seq<string>, order: Order, env: Env)
    requires Covers(order) && (forall q | q in names :: q == r) && r != ""
    requires forall a, b | a in definition && b in siblings :: !Clash(a, b)
    requires Within(d, definition) && SiblingFree(d) && Within(n, siblings) && PartsSiblingFree(n)
    ensures MeansTheSame(r, d, n, names, order, env)
  {
    var defs, s := map[r := d], n.(ref := r);
    hide Carries, Accepts, SiblingFree;
    assert PartsSiblingFree(s) && OneLevel(s);
    assert Compatible(d, n);
    AgreesWithOne(r, d, n);
    hide PartsSiblingFree, OneLevel, Agrees, WalkSchema, SameMeaning;
    if Models(env, defs) { WalkSchemaMeans(s, defs, names, order, env); }
  }
}
