/** injectAdditionalProperties (internal/openai/schema.go) under oneOf. Closing an alternative takes
    values away from it, and may thereby let in what two alternatives accepted. */
module SchemaClosing {
  import opened Text
  import opened Json
  import opened Schemas
  import opened SchemaRefs
  import opened SchemaRefsLeft
  import opened SchemaSiblings
  import opened SchemaWalk
  import opened SchemaLeft

  // ----- alternatives that stay as they are -----

  /** A node of type object says which properties it has, and whether it has others. */
  predicate SaysAll(s: Schema) {
    s.types == Single(ObjectType) ==> s.props.Props? && s.additional != Unset
  }

  /** Definitions by name: those that are closed or open by their own words all through, and those that
      are so under oneOf. */
  datatype Scope = Scope(explicit: set<string>, stable: set<string>)

  /** Every object node reached says all, in the schema and in what it refers to. */
  ghost predicate Explicit(s: Schema, scope: Scope)
    decreases s
  {
    SaysAll(s) && (s.ref != "" ==> s.ref in scope.explicit) && forall slot | Has(s, slot) :: Explicit(Child(s, slot), scope)
  }

  /** Every object node reached under oneOf says all. */
  ghost predicate ExplicitUnderOneOf(s: Schema, scope: Scope)
    decreases s
  {
    && (s.ref != "" ==> s.ref in scope.stable)
    && forall slot | Has(s, slot) ::
         if slot.OneOfSlot? then Explicit(Child(s, slot), scope) else ExplicitUnderOneOf(Child(s, slot), scope)
  }

  ghost predicate InScope(defs: Defs, scope: Scope) {
    && (forall r | r in defs && r in scope.explicit :: Explicit(defs[r], scope))
    && (forall r | r in defs && r in scope.stable :: ExplicitUnderOneOf(defs[r], scope))
  }

  lemma MergedSaysAll(d: Schema, n: Schema)
    requires SaysAll(d) && SaysAll(n)
    ensures SaysAll(WithSiblings(d, n))
  {}

  lemma {:induction false} StaysExplicit(x: Schema, defs: Defs, chain: set<string>, scope: Scope)
    requires InScope(defs, scope) && Explicit(x, scope)
    ensures Explicit(Resolve(x, defs, chain), scope)
    decreases |defs.Keys - chain|, x, 1
  {
    if x.ref == "" {
      ResolveTop(x, defs, chain);
      PartsStayExplicit(x, defs, chain, scope);
    } else if x.ref !in chain && x.ref in defs {
      var next := chain + {x.ref};
      OneFewer(defs, chain, x.ref);
      StaysExplicit(defs[x.ref], defs, next, scope);
      var d := Resolve(defs[x.ref], defs, next);
      hide ResolveChildren;
      MergedExplicit(d, x, scope);
      PartsStayExplicit(WithSiblings(d, x), defs, next, scope);
    }
  }

  lemma MergedExplicit(d: Schema, n: Schema, scope: Scope)
    requires Explicit(d, scope) && Explicit(n, scope)
    ensures Explicit(WithSiblings(d, n), scope)
  {
    MergedSaysAll(d, n);
    var m := WithSiblings(d, n);
    assert m.ref == d.ref;
    hide WithSiblings, SaysAll, Has, Child;
    forall slot | Has(m, slot) ensures Explicit(Child(m, slot), scope) { MergedPart(d, n, slot); }
  }

  lemma PartsStayExplicit(x: Schema, defs: Defs, chain: set<string>, scope: Scope)
    requires InScope(defs, scope) && Explicit(x, scope)
    ensures Explicit(ResolveChildren(x, defs, chain), scope)
    decreases |defs.Keys - chain|, x, 0
  {
    var r := ResolveChildren(x, defs, chain);
    ResolvedParts(x, defs, chain);
    assert SaysAll(r) && r.ref == x.ref;
    hide Resolve, ResolveChildren, InScope, SaysAll, Has, Child;
    forall slot | Has(r, slot) ensures Explicit(Child(r, slot), scope) { StaysExplicit(Child(x, slot), defs, chain, scope); }
  }

  lemma {:induction false} StaysStable(x: Schema, defs: Defs, chain: set<string>, scope: Scope)
    requires InScope(defs, scope) && ExplicitUnderOneOf(x, scope)
    ensures ExplicitUnderOneOf(Resolve(x, defs, chain), scope)
    decreases |defs.Keys - chain|, x, 1
  {
    if x.ref == "" {
      ResolveTop(x, defs, chain);
      PartsStayStable(x, defs, chain, scope);
    } else if x.ref !in chain && x.ref in defs {
      var next := chain + {x.ref};
      OneFewer(defs, chain, x.ref);
      StaysStable(defs[x.ref], defs, next, scope);
      var d := Resolve(defs[x.ref], defs, next);
      hide ResolveChildren;
      MergedStable(d, x, scope);
      PartsStayStable(WithSiblings(d, x), defs, next, scope);
    }
  }

  lemma MergedStable(d: Schema, n: Schema, scope: Scope)
    requires ExplicitUnderOneOf(d, scope) && ExplicitUnderOneOf(n, scope)
    ensures ExplicitUnderOneOf(WithSiblings(d, n), scope)
  {
    var m := WithSiblings(d, n);
    assert m.ref == d.ref;
    hide WithSiblings, Explicit, Has, Child;
    forall slot | Has(m, slot)
      ensures if slot.OneOfSlot? then Explicit(Child(m, slot), scope) else ExplicitUnderOneOf(Child(m, slot), scope)
    {
      MergedPart(d, n, slot);
    }
  }

  lemma PartsStayStable(x: Schema, defs: Defs, chain: set<string>, scope: Scope)
    requires InScope(defs, scope) && ExplicitUnderOneOf(x, scope)
    ensures ExplicitUnderOneOf(ResolveChildren(x, defs, chain), scope)
    decreases |defs.Keys - chain|, x, 0
  {
    var r := ResolveChildren(x, defs, chain);
    ResolvedParts(x, defs, chain);
    SameRef(r, x);
    hide Resolve, ResolveChildren, InScope, Explicit, Has, Child, SameShape;
    forall slot | Has(r, slot)
      ensures if slot.OneOfSlot? then Explicit(Child(r, slot), scope) else ExplicitUnderOneOf(Child(r, slot), scope)
    {
      if slot.OneOfSlot? {
        StaysExplicit(Child(x, slot), defs, chain, scope);
      } else {
        StaysStable(Child(x, slot), defs, chain, scope);
      }
    }
  }

  lemma InjectedShape(s: Schema)
    requires SaysAll(s)
    ensures SameShape(InjectAdditionalProperties(s), s)
  {
    var t := InjectAdditionalProperties(s);
    if s.props.Props? { assert t.props.m.Keys == s.props.m.Keys; }
  }

  /** Closing object nodes changes nothing where all of them say all. */
  lemma {:induction false} ExplicitUnchanged(s: Schema, scope: Scope)
    requires Explicit(s, scope)
    ensures InjectAdditionalProperties(s) == s
    decreases s
  {
    var t := InjectAdditionalProperties(s);
    InjectedParts(s);
    InjectedShape(s);
    hide InjectAdditionalProperties, SaysAll, SameShape, Has, Child;
    forall slot | Has(s, slot) ensures Child(t, slot) == Child(s, slot) { ExplicitUnchanged(Child(s, slot), scope); }
    SameParts(t, s);
  }

  lemma StableGathered(s: Schema)
    requires forall slot | Has(s, slot) && !slot.OneOfSlot? :: StableOneOf(Child(s, slot))
    ensures s.props.Props? ==> forall k | k in s.props.m :: StableOneOf(s.props.m[k])
    ensures s.items.Items? ==> StableOneOf(s.items.schema)
    ensures AllStable(s.prefix) && AllStable(s.anyOf) && AllStable(s.allOf)
  {
    hide StableOneOf;
    if s.props.Props? { forall k | k in s.props.m ensures StableOneOf(s.props.m[k]) { assert Has(s, PropSlot(k)); } }
    if s.items.Items? { assert Has(s, ItemsSlot); }
    forall i | s.prefix.Alts? && 0 <= i < |s.prefix.s| ensures StableOneOf(s.prefix.s[i]) { assert Has(s, PrefixSlot(i)); }
    forall i | s.anyOf.Alts? && 0 <= i < |s.anyOf.s| ensures StableOneOf(s.anyOf.s[i]) { assert Has(s, AnyOfSlot(i)); }
    forall i | s.allOf.Alts? && 0 <= i < |s.allOf.s| ensures StableOneOf(s.allOf.s[i]) { assert Has(s, AllOfSlot(i)); }
  }

  lemma {:induction false} ExplicitIsStable(s: Schema, scope: Scope)
    requires ExplicitUnderOneOf(s, scope)
    ensures StableOneOf(s)
    decreases s
  {
    hide StableOneOf, Explicit, InjectAdditionalProperties;
    forall slot | Has(s, slot) && !slot.OneOfSlot? ensures StableOneOf(Child(s, slot)) { ExplicitIsStable(Child(s, slot), scope); }
    StableGathered(s);
    if s.oneOf.Alts? {
      forall i | 0 <= i < |s.oneOf.s| ensures InjectAdditionalProperties(s.oneOf.s[i]) == s.oneOf.s[i] {
        assert Has(s, OneOfSlot(i)) && Child(s, OneOfSlot(i)) == s.oneOf.s[i];
        ExplicitUnchanged(s.oneOf.s[i], scope);
      }
      assert CloseAll(s.oneOf).s == s.oneOf.s;
    }
    StableTop(s);
  }

  lemma StableTop(s: Schema)
    requires CloseAll(s.oneOf) == s.oneOf
    requires s.props.Props? ==> forall k | k in s.props.m :: StableOneOf(s.props.m[k])
    requires s.items.Items? ==> StableOneOf(s.items.schema)
    requires AllStable(s.prefix) && AllStable(s.anyOf) && AllStable(s.allOf)
    ensures StableOneOf(s)
  {
    hide AllStable, CloseAll;
  }

  // ----- alternatives that change -----

  function OneOfThese(alts: seq<Schema>): Schema {
    ANYTHING.(oneOf := Alts(alts))
  }

  /** The alternatives that accept the value. */
  function Accepting(alts: seq<Schema>, v: Json, env: Env): set<int> {
    set i | 0 <= i < |alts| && Accepts(alts[i], v, env)
  }

  lemma OneOfAccepts(alts: seq<Schema>, v: Json, env: Env)
    ensures Accepts(OneOfThese(alts), v, env) <==> |Accepting(alts, v, env)| == 1
  {
    OnlyAlternatives(OneOfThese(alts), v, env);
    hide Accepts;
  }

  lemma ClosedOneOf(alts: seq<Schema>)
    ensures CloseAll(Alts(alts)).Alts? && |CloseAll(Alts(alts)).s| == |alts|
    ensures InjectAdditionalProperties(OneOfThese(alts)) == OneOfThese(CloseAll(Alts(alts)).s)
  {}

  lemma FewerAccept(alts: seq<Schema>, v: Json, env: Env)
    requires forall i | 0 <= i < |alts| :: StableOneOf(alts[i])
    ensures CloseAll(Alts(alts)).Alts? && Accepting(CloseAll(Alts(alts)).s, v, env) <= Accepting(alts, v, env)
  {
    var closed := CloseAll(Alts(alts)).s;
    hide Accepts, StableOneOf, InjectAdditionalProperties;
    forall i | i in Accepting(closed, v, env) ensures i in Accepting(alts, v, env) {
      assert closed[i] == InjectAdditionalProperties(alts[i]);
      InjectNarrows(alts[i], v, env);
    }
  }

  lemma Sizes(after: set<int>, before: set<int>)
    requires after <= before
    ensures |after| <= |before| && (|after| == |before| ==> after == before)
  {
    assert before == after + (before - after);
  }

  /** Closing the alternatives of a oneOf lets a value in exactly when several of them accepted it and
      one of the closed ones still does. */
  lemma OneOfExactly(alts: seq<Schema>, v: Json, env: Env)
    requires forall i | 0 <= i < |alts| :: StableOneOf(alts[i])
    ensures CloseAll(Alts(alts)).Alts?
    ensures Accepts(InjectAdditionalProperties(OneOfThese(alts)), v, env) && !Accepts(OneOfThese(alts), v, env)
      <==> |Accepting(CloseAll(Alts(alts)).s, v, env)| == 1 && |Accepting(alts, v, env)| >= 2
  {
    hide Accepts, StableOneOf, InjectAdditionalProperties, CloseAll, OneOfThese, Accepting;
    ClosedOneOf(alts);
    FewerAccept(alts, v, env);
    var closed := CloseAll(Alts(alts)).s;
    OneOfAccepts(alts, v, env);
    OneOfAccepts(closed, v, env);
    Sizes(Accepting(closed, v, env), Accepting(alts, v, env));
  }

  ghost predicate LosesNothing(s: Schema, env: Env) {
    forall v | Accepts(s, v, env) :: Accepts(InjectAdditionalProperties(s), v, env)
  }

  ghost predicate OneOfNarrows(a: Schema, b: Schema, env: Env) {
    forall v | Accepts(InjectAdditionalProperties(OneOfThese([a, b])), v, env) :: Accepts(OneOfThese([a, b]), v, env)
  }

  lemma BothLoseNothing(a: Schema, b: Schema, env: Env)
    requires StableOneOf(a) && StableOneOf(b) && LosesNothing(a, env) && LosesNothing(b, env)
    ensures OneOfNarrows(a, b, env)
  {
    hide Accepts, StableOneOf, InjectAdditionalProperties;
    var alts := [a, b];
    forall v | Accepts(InjectAdditionalProperties(OneOfThese(alts)), v, env) ensures Accepts(OneOfThese(alts), v, env) {
      OneOfExactly(alts, v, env);
      FewerAccept(alts, v, env);
      var closed := CloseAll(Alts(alts)).s;
      forall i | i in Accepting(alts, v, env) ensures i in Accepting(closed, v, env) {
        assert closed[i] == InjectAdditionalProperties(alts[i]);
      }
      assert Accepting(alts, v, env) == Accepting(closed, v, env);
    }
  }

  lemma AnythingIsStable(env: Env)
    ensures StableOneOf(ANYTHING) && InjectAdditionalProperties(ANYTHING) == ANYTHING && LosesNothing(ANYTHING, env)
  {}

  lemma LossWidens(a: Schema, v: Json, env: Env)
    requires StableOneOf(a) && Accepts(a, v, env) && !Accepts(InjectAdditionalProperties(a), v, env)
    ensures !OneOfNarrows(a, ANYTHING, env)
  {
    var alts, closed := [a, ANYTHING], [InjectAdditionalProperties(a), ANYTHING];
    AnythingIsStable(env);
    AnythingAccepts(v, env);
    hide Accepts, StableOneOf, InjectAdditionalProperties, LosesNothing;
    ClosedOneOf(alts);
    assert CloseAll(Alts(alts)).s == closed;
    OneOfAccepts(alts, v, env);
    OneOfAccepts(closed, v, env);
    assert Accepting(alts, v, env) == {0, 1};
    assert Accepting(closed, v, env) == {1};
  }

  /** An alternative is safe beside every one that closing takes nothing away from, exactly when closing
      takes nothing away from it either. */
  lemma SafeExactly(a: Schema, env: Env)
    requires StableOneOf(a)
    ensures (forall b | StableOneOf(b) && LosesNothing(b, env) :: OneOfNarrows(a, b, env)) <==> LosesNothing(a, env)
  {
    if LosesNothing(a, env) {
      hide LosesNothing, OneOfNarrows, StableOneOf;
      forall b | StableOneOf(b) && LosesNothing(b, env) ensures OneOfNarrows(a, b, env) { BothLoseNothing(a, b, env); }
    } else {
      var v :| Accepts(a, v, env) && !Accepts(InjectAdditionalProperties(a), v, env);
      hide Accepts, InjectAdditionalProperties;
      AnythingIsStable(env);
      LossWidens(a, v, env);
      hide OneOfNarrows, LosesNothing, StableOneOf;
      assert StableOneOf(ANYTHING) && LosesNothing(ANYTHING, env);
    }
  }

  function Declared(s: Schema): set<string> {
    if s.props.Props? then s.props.m.Keys else {}
  }

  /** What closing takes away from an object node that says nothing of other properties: the objects
      with a property that it does not name. */
  lemma ClosingLosesExactly(s: Schema, v: Json, env: Env)
    requires s.types == Single(ObjectType) && s.additional == Unset
    requires forall slot | Has(s, slot) :: InjectAdditionalProperties(Child(s, slot)) == Child(s, slot)
    ensures Accepts(InjectAdditionalProperties(s), v, env)
      <==> Accepts(s, v, env) && v.Obj? && forall k | k in v.fields :: k in Declared(s)
  {
    ClosedIs(s);
    var t := s.(props := Props(if s.props.Props? then s.props.m else map[]), additional := Closed);
    hide InjectAdditionalProperties, Accepts;
    assert AcceptsWhole(t, v, env) <==> AcceptsWhole(s, v, env);
    assert AcceptsWhole(s, v, env) ==> v.Obj?;
    if v.Obj? { ClosedFields(s, t, v.fields, env); }
    assert AcceptsAlternatives(t, v, env) <==> AcceptsAlternatives(s, v, env);
    hide AcceptsWhole, AcceptsFields, AcceptsElements, AcceptsAlternatives;
    AcceptsIs(s, v, env);
    AcceptsIs(t, v, env);
  }

  lemma ClosedFields(s: Schema, t: Schema, v: Fields, env: Env)
    requires s.additional == Unset && t == s.(props := Props(if s.props.Props? then s.props.m else map[]), additional := Closed)
    ensures AcceptsFields(t, v, env) <==> AcceptsFields(s, v, env) && forall k | k in v :: k in Declared(s)
  {
    FieldsAre(s, v, env);
    FieldsAre(t, v, env);
    hide Accepts, AcceptsFields;
    if s.props.NoProps? { assert t.props.m == map[] && Declared(s) == {}; }
  }

  lemma AcceptsIs(s: Schema, v: Json, env: Env)
    ensures Accepts(s, v, env) <==>
      && AcceptsWhole(s, v, env) && (v.Obj? ==> AcceptsFields(s, v.fields, env))
      && (v.Arr? ==> AcceptsElements(s, v.elems, env)) && AcceptsAlternatives(s, v, env)
  {
    hide AcceptsWhole, AcceptsFields, AcceptsElements, AcceptsAlternatives;
  }

  lemma ClosedIs(s: Schema)
    requires s.types == Single(ObjectType) && s.additional == Unset
    requires forall slot | Has(s, slot) :: InjectAdditionalProperties(Child(s, slot)) == Child(s, slot)
    ensures InjectAdditionalProperties(s) == s.(props := Props(if s.props.Props? then s.props.m else map[]), additional := Closed)
  {
    var t := s.(props := Props(if s.props.Props? then s.props.m else map[]), additional := Closed);
    var u := InjectAdditionalProperties(s);
    InjectedParts(s);
    InjectedObject(s);
    hide InjectAdditionalProperties;
    forall slot | Has(u, slot) && Has(t, slot) ensures Child(u, slot) == Child(t, slot) {
      assert Has(s, slot);
    }
    hide Has, Child;
    SameParts(u, t);
  }

  lemma InjectedObject(s: Schema)
    requires s.types == Single(ObjectType) && s.additional == Unset
    ensures SameShape(InjectAdditionalProperties(s), s.(props := Props(if s.props.Props? then s.props.m else map[]), additional := Closed))
  {
    var u := InjectAdditionalProperties(s);
    if s.props.Props? { assert u.props.m.Keys == s.props.m.Keys; }
  }
}
