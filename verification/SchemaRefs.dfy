/** resolveLocalRefs and injectAdditionalProperties (internal/openai/schema.go): references to the
    definitions of a schema are replaced by the definitions themselves, and object nodes are closed. */
module SchemaRefs {
  import opened Text
  import opened Json
  import opened Schemas

  type Defs = map<string, Schema>

  /** The keywords beside a reference are written over those of the definition. */
  function WithSiblings(definition: Schema, node: Schema): Schema {
    Schema(definition.ref,
           if node.types.AnyType? then definition.types else node.types,
           if node.enum.None? then definition.enum else node.enum,
           definition.facets + node.facets,
           if node.props.NoProps? then definition.props else node.props,
           if node.required == {} then definition.required else node.required,
           if node.additional == Unset then definition.additional else node.additional,
           if node.items.NoItems? then definition.items else node.items,
           if node.prefix.NoAlts? then definition.prefix else node.prefix,
           if node.minItems.None? then definition.minItems else node.minItems,
           if node.maxItems.None? then definition.maxItems else node.maxItems,
           if node.anyOf.NoAlts? then definition.anyOf else node.anyOf,
           if node.oneOf.NoAlts? then definition.oneOf else node.oneOf,
           if node.allOf.NoAlts? then definition.allOf else node.allOf)
  }

  /** resolveLocalRefs, as long as the definitions stay as they are. A reference that is being resolved
      already, or has no definition, stays. It comes to an end on every schema, cyclic definitions
      included. */
  function Resolve(node: Schema, defs: Defs, resolving: set<string>): Schema
    decreases |defs.Keys - resolving|, node, 2
  {
    if node.ref == "" then ResolveChildren(node, defs, resolving)
    else if node.ref in resolving || node.ref !in defs then node
    else
      var next := resolving + {node.ref};
      OneFewer(defs, resolving, node.ref);
      ResolveChildren(WithSiblings(Resolve(defs[node.ref], defs, next), node), defs, next)
  }

  /** updateSchemaChildren with the resolution of each child. */
  function ResolveChildren(node: Schema, defs: Defs, resolving: set<string>): Schema
    decreases |defs.Keys - resolving|, node, 1
  {
    node.(props := if node.props.Props? then Props(map k | k in node.props.m :: Resolve(node.props.m[k], defs, resolving)) else NoProps,
          items := if node.items.Items? then Items(Resolve(node.items.schema, defs, resolving)) else node.items,
          prefix := if node.prefix.Alts? then ResolveAll(node, node.prefix.s, defs, resolving) else NoAlts,
          anyOf := if node.anyOf.Alts? then ResolveAll(node, node.anyOf.s, defs, resolving) else NoAlts,
          oneOf := if node.oneOf.Alts? then ResolveAll(node, node.oneOf.s, defs, resolving) else NoAlts,
          allOf := if node.allOf.Alts? then ResolveAll(node, node.allOf.s, defs, resolving) else NoAlts)
  }

  function ResolveAll(ghost parent: Schema, alts: seq<Schema>, defs: Defs, resolving: set<string>): Alts
    requires forall i | 0 <= i < |alts| :: alts[i] < parent
    decreases |defs.Keys - resolving|, parent, 0
  {
    Alts(seq(|alts|, i requires 0 <= i < |alts| => Resolve(alts[i], defs, resolving)))
  }

  lemma OneFewer(defs: Defs, resolving: set<string>, ref: string)
    requires ref in defs && ref !in resolving
    ensures |defs.Keys - (resolving + {ref})| < |defs.Keys - resolving|
  {
    var rest := defs.Keys - (resolving + {ref});
    assert defs.Keys - resolving == rest + {ref};
  }

  // ----- meaning -----

  ghost predicate SameMeaning(a: Schema, b: Schema, env: Env) {
    forall v :: Accepts(a, v, env) <==> Accepts(b, v, env)
  }

  ghost predicate SameAll(a: Alts, b: Alts, env: Env) {
    && a.Alts? == b.Alts?
    && (a.Alts? ==> |a.s| == |b.s| && forall i | 0 <= i < |a.s| :: SameMeaning(a.s[i], b.s[i], env))
  }

  /** The same keywords, over parts with the same meaning. */
  ghost predicate Alike(a: Schema, b: Schema, env: Env) {
    && a == b.(props := a.props, items := a.items, prefix := a.prefix, anyOf := a.anyOf, oneOf := a.oneOf, allOf := a.allOf)
    && a.props.Props? == b.props.Props?
    && (a.props.Props? ==> a.props.m.Keys == b.props.m.Keys
                           && forall k | k in a.props.m :: SameMeaning(a.props.m[k], b.props.m[k], env))
    && a.items.Items? == b.items.Items? && a.items.NothingMore? == b.items.NothingMore?
    && (a.items.Items? ==> SameMeaning(a.items.schema, b.items.schema, env))
    && SameAll(a.prefix, b.prefix, env) && SameAll(a.anyOf, b.anyOf, env)
    && SameAll(a.oneOf, b.oneOf, env) && SameAll(a.allOf, b.allOf, env)
  }

  lemma AlikeFields(a: Schema, b: Schema, v: Fields, env: Env)
    requires Alike(a, b, env)
    ensures AcceptsFields(a, v, env) <==> AcceptsFields(b, v, env)
  {
    hide Accepts, SameAll;
    if a.props.Props? {
      forall k | k in a.props.m && k in v ensures Accepts(a.props.m[k], v[k], env) <==> Accepts(b.props.m[k], v[k], env) {
        assert SameMeaning(a.props.m[k], b.props.m[k], env);
      }
    }
  }

  lemma AlikeElements(a: Schema, b: Schema, v: seq<Json>, env: Env)
    requires Alike(a, b, env)
    ensures AcceptsElements(a, v, env) <==> AcceptsElements(b, v, env)
  {
    hide Accepts;
    if a.prefix.Alts? {
      forall i | 0 <= i < |a.prefix.s| && i < |v|
        ensures Accepts(a.prefix.s[i], v[i], env) <==> Accepts(b.prefix.s[i], v[i], env)
      {
        assert SameMeaning(a.prefix.s[i], b.prefix.s[i], env);
      }
    }
    if a.items.Items? {
      forall i | 0 <= i < |v| ensures Accepts(a.items.schema, v[i], env) <==> Accepts(b.items.schema, v[i], env) {
        assert SameMeaning(a.items.schema, b.items.schema, env);
      }
    }
  }

  lemma SameAllAt(a: Alts, b: Alts, v: Json, env: Env)
    requires SameAll(a, b, env)
    ensures a.Alts? ==> forall i | 0 <= i < |a.s| :: Accepts(a.s[i], v, env) <==> Accepts(b.s[i], v, env)
  {
    hide Accepts;
    if a.Alts? {
      forall i | 0 <= i < |a.s| ensures Accepts(a.s[i], v, env) <==> Accepts(b.s[i], v, env) {
        assert SameMeaning(a.s[i], b.s[i], env);
      }
    }
  }

  lemma AlikeAlternatives(a: Schema, b: Schema, v: Json, env: Env)
    requires SameAll(a.anyOf, b.anyOf, env) && SameAll(a.oneOf, b.oneOf, env) && SameAll(a.allOf, b.allOf, env)
    ensures AcceptsAlternatives(a, v, env) <==> AcceptsAlternatives(b, v, env)
  {
    SameAllAt(a.anyOf, b.anyOf, v, env);
    SameAllAt(a.oneOf, b.oneOf, v, env);
    SameAllAt(a.allOf, b.allOf, v, env);
    hide Accepts, SameMeaning;
    if a.oneOf.Alts? {
      assert (set i | 0 <= i < |a.oneOf.s| && Accepts(a.oneOf.s[i], v, env))
          == (set i | 0 <= i < |b.oneOf.s| && Accepts(b.oneOf.s[i], v, env));
    }
  }

  lemma AlikeWhole(a: Schema, b: Schema, v: Json, env: Env)
    requires Alike(a, b, env)
    ensures AcceptsWhole(a, v, env) <==> AcceptsWhole(b, v, env)
  {
    hide Accepts, SameAll, SameMeaning;
  }

  lemma AlikeMeansSame(a: Schema, b: Schema, env: Env)
    requires Alike(a, b, env)
    ensures SameMeaning(a, b, env)
  {
    forall v ensures Accepts(a, v, env) <==> Accepts(b, v, env) {
      AlikeWhole(a, b, v, env);
      if v.Obj? { AlikeFields(a, b, v.fields, env); }
      if v.Arr? { AlikeElements(a, b, v.elems, env); }
      AlikeAlternatives(a, b, v, env);
      hide AcceptsWhole, AcceptsFields, AcceptsElements, AcceptsAlternatives, Alike;
    }
  }

  /** A reference accepts what its definition accepts. */
  ghost predicate Models(env: Env, defs: Defs) {
    forall r, v | r in defs :: env.ref(r, v) <==> Accepts(defs[r], v, env)
  }

  predicate AllSiblingFree(a: Alts)
    decreases a
  {
    a.Alts? ==> forall i | 0 <= i < |a.s| :: SiblingFree(a.s[i])
  }

  /** A node with a reference has no other keyword. */
  predicate SiblingFree(s: Schema)
    decreases s
  {
    && (s.ref != "" ==> s == ANYTHING.(ref := s.ref))
    && (s.props.Props? ==> forall k | k in s.props.m :: SiblingFree(s.props.m[k]))
    && (s.items.Items? ==> SiblingFree(s.items.schema))
    && AllSiblingFree(s.prefix) && AllSiblingFree(s.anyOf) && AllSiblingFree(s.oneOf) && AllSiblingFree(s.allOf)
  }

  lemma BareReference(s: Schema, env: Env)
    requires s == ANYTHING.(ref := s.ref) && s.ref != ""
    ensures forall v :: Accepts(s, v, env) <==> env.ref(s.ref, v)
  {}

  lemma {:induction false} ResolveSame(node: Schema, defs: Defs, resolving: set<string>, env: Env)
    requires Models(env, defs) && SiblingFree(node) && forall r | r in defs :: SiblingFree(defs[r])
    ensures SameMeaning(Resolve(node, defs, resolving), node, env) && SiblingFree(Resolve(node, defs, resolving))
    decreases |defs.Keys - resolving|, node, 2
  {
    hide SiblingFree, Accepts, ResolveChildren;
    if node.ref == "" {
      ChildrenSame(node, defs, resolving, env);
    } else if node.ref !in resolving && node.ref in defs {
      var next := resolving + {node.ref};
      OneFewer(defs, resolving, node.ref);
      ResolveSame(defs[node.ref], defs, next, env);
      var d := Resolve(defs[node.ref], defs, next);
      BareNode(node);
      NoSiblings(d, node);
      ChildrenSame(d, defs, next, env);
      BareReference(node, env);
    }
  }

  lemma BareNode(s: Schema)
    requires SiblingFree(s)
    ensures s.ref != "" ==> s == ANYTHING.(ref := s.ref)
  {}

  lemma NoSiblings(d: Schema, node: Schema)
    requires node == ANYTHING.(ref := node.ref)
    ensures WithSiblings(d, node) == d
  {}

  lemma ChildrenSame(node: Schema, defs: Defs, resolving: set<string>, env: Env)
    requires Models(env, defs) && SiblingFree(node) && forall r | r in defs :: SiblingFree(defs[r])
    ensures SameMeaning(ResolveChildren(node, defs, resolving), node, env)
    ensures SiblingFree(ResolveChildren(node, defs, resolving))
    decreases |defs.Keys - resolving|, node, 1
  {
    hide Accepts, Resolve, Models, ResolveAll, SameMeaning, SameAll, AllSiblingFree;
    var r := ResolveChildren(node, defs, resolving);
    if node.ref != "" {
      assert r == node;
      SameAsItself(node, env);
    } else {
      PropsSame(node, defs, resolving, env);
      if node.items.Items? { ResolveSame(node.items.schema, defs, resolving, env); }
      AllSame(node, node.prefix, defs, resolving, env);
      AllSame(node, node.anyOf, defs, resolving, env);
      AllSame(node, node.oneOf, defs, resolving, env);
      AllSame(node, node.allOf, defs, resolving, env);
      hide SiblingFree, Alike;
      StaysSiblingFree(r, node);
      ChildrenAlike(node, defs, resolving, env);
      AlikeMeansSame(r, node, env);
    }
  }

  lemma SameAsItself(s: Schema, env: Env)
    ensures SameMeaning(s, s, env)
  {
    hide Accepts;
  }

  lemma ChildrenAlike(node: Schema, defs: Defs, resolving: set<string>, env: Env)
    requires node.props.Props? ==>
      forall k | k in node.props.m :: SameMeaning(Resolve(node.props.m[k], defs, resolving), node.props.m[k], env)
    requires node.items.Items? ==> SameMeaning(Resolve(node.items.schema, defs, resolving), node.items.schema, env)
    requires var r := ResolveChildren(node, defs, resolving);
      && SameAll(r.prefix, node.prefix, env) && SameAll(r.anyOf, node.anyOf, env)
      && SameAll(r.oneOf, node.oneOf, env) && SameAll(r.allOf, node.allOf, env)
    ensures Alike(ResolveChildren(node, defs, resolving), node, env)
  {
    hide Accepts, Resolve, ResolveAll, SameMeaning, SameAll;
  }

  lemma PropsSame(node: Schema, defs: Defs, resolving: set<string>, env: Env)
    requires Models(env, defs) && SiblingFree(node) && forall r | r in defs :: SiblingFree(defs[r])
    ensures node.props.Props? ==> forall k | k in node.props.m ::
      SameMeaning(Resolve(node.props.m[k], defs, resolving), node.props.m[k], env)
      && SiblingFree(Resolve(node.props.m[k], defs, resolving))
    decreases |defs.Keys - resolving|, node, 0
  {
    if node.props.Props? {
      assert forall k | k in node.props.m :: SiblingFree(node.props.m[k]);
      hide Accepts, Resolve, Models, SameMeaning, SiblingFree;
      forall k | k in node.props.m
        ensures SameMeaning(Resolve(node.props.m[k], defs, resolving), node.props.m[k], env)
          && SiblingFree(Resolve(node.props.m[k], defs, resolving))
      {
        ResolveSame(node.props.m[k], defs, resolving, env);
      }
    }
  }

  lemma StaysSiblingFree(r: Schema, node: Schema)
    requires SiblingFree(node) && r.ref == node.ref == ""
    requires r.props.Props? ==> forall k | k in r.props.m :: SiblingFree(r.props.m[k])
    requires r.items.Items? ==> SiblingFree(r.items.schema)
    requires AllSiblingFree(r.prefix) && AllSiblingFree(r.anyOf) && AllSiblingFree(r.oneOf) && AllSiblingFree(r.allOf)
    ensures SiblingFree(r)
  {
    hide AllSiblingFree;
  }

  lemma AllSame(parent: Schema, a: Alts, defs: Defs, resolving: set<string>, env: Env)
    requires Models(env, defs) && (forall r | r in defs :: SiblingFree(defs[r])) && AllSiblingFree(a)
    requires a.Alts? ==> forall i | 0 <= i < |a.s| :: a.s[i] < parent
    ensures a.NoAlts? ==> SameAll(NoAlts, a, env) && AllSiblingFree(NoAlts)
    ensures a.Alts? ==> var r := ResolveAll(parent, a.s, defs, resolving); SameAll(r, a, env) && AllSiblingFree(r)
    decreases |defs.Keys - resolving|, parent, 0
  {
    hide Accepts, Resolve, Models, SiblingFree, SameMeaning;
    if a.Alts? {
      var r := ResolveAll(parent, a.s, defs, resolving);
      forall i | 0 <= i < |a.s| ensures SameMeaning(r.s[i], a.s[i], env) && SiblingFree(r.s[i]) {
        ResolveSame(a.s[i], defs, resolving, env);
      }
    }
  }

  // ----- nothing left to resolve -----

  predicate AllRefFree(a: Alts)
    decreases a
  {
    a.Alts? ==> forall i | 0 <= i < |a.s| :: RefFree(a.s[i])
  }

  predicate RefFree(s: Schema)
    decreases s
  {
    && s.ref == ""
    && (s.props.Props? ==> forall k | k in s.props.m :: RefFree(s.props.m[k]))
    && (s.items.Items? ==> RefFree(s.items.schema))
    && AllRefFree(s.prefix) && AllRefFree(s.anyOf) && AllRefFree(s.oneOf) && AllRefFree(s.allOf)
  }

  type Ranks = map<string, nat>

  predicate AllRefsBelow(a: Alts, rank: Ranks, bound: nat)
    decreases a
  {
    a.Alts? ==> forall i | 0 <= i < |a.s| :: RefsBelow(a.s[i], rank, bound)
  }

  /** Every reference in the schema is ranked, below the bound. */
  predicate RefsBelow(s: Schema, rank: Ranks, bound: nat)
    decreases s
  {
    && (s.ref != "" ==> s.ref in rank && rank[s.ref] < bound)
    && (s.props.Props? ==> forall k | k in s.props.m :: RefsBelow(s.props.m[k], rank, bound))
    && (s.items.Items? ==> RefsBelow(s.items.schema, rank, bound))
    && AllRefsBelow(s.prefix, rank, bound) && AllRefsBelow(s.anyOf, rank, bound)
    && AllRefsBelow(s.oneOf, rank, bound) && AllRefsBelow(s.allOf, rank, bound)
  }

  /** A definition refers only to definitions of a lower rank. */
  predicate Acyclic(defs: Defs, rank: Ranks) {
    rank.Keys == defs.Keys && forall r | r in defs :: RefsBelow(defs[r], rank, rank[r])
  }

  /** Resolving a schema without references leaves it without references. */
  lemma {:induction false} FreeStays(node: Schema, defs: Defs, resolving: set<string>)
    requires RefFree(node)
    ensures RefFree(ResolveChildren(node, defs, resolving)) && RefFree(Resolve(node, defs, resolving))
    decreases node
  {
    hide ResolveAll, AllRefFree;
    if node.props.Props? {
      forall k | k in node.props.m ensures RefFree(Resolve(node.props.m[k], defs, resolving)) {
        FreeStays(node.props.m[k], defs, resolving);
      }
    }
    if node.items.Items? { FreeStays(node.items.schema, defs, resolving); }
    AllFreeStay(node, node.prefix, defs, resolving);
    AllFreeStay(node, node.anyOf, defs, resolving);
    AllFreeStay(node, node.oneOf, defs, resolving);
    AllFreeStay(node, node.allOf, defs, resolving);
  }

  lemma AllFreeStay(parent: Schema, a: Alts, defs: Defs, resolving: set<string>)
    requires AllRefFree(a) && (a.Alts? ==> forall i | 0 <= i < |a.s| :: a.s[i] < parent)
    ensures AllRefFree(NoAlts)
    ensures a.Alts? ==> AllRefFree(ResolveAll(parent, a.s, defs, resolving))
    decreases parent, a
  {
    hide RefFree, Resolve;
    if a.Alts? {
      forall i | 0 <= i < |a.s| ensures RefFree(ResolveAll(parent, a.s, defs, resolving).s[i]) {
        FreeStays(a.s[i], defs, resolving);
      }
    }
  }

  /** With acyclic definitions for every reference, no reference is left. */
  lemma {:induction false} NoReferenceLeft(node: Schema, defs: Defs, resolving: set<string>, rank: Ranks, bound: nat)
    requires Acyclic(defs, rank) && (forall r | r in defs :: SiblingFree(defs[r]))
    requires SiblingFree(node) && RefsBelow(node, rank, bound)
    requires forall q | q in resolving :: q in rank && rank[q] >= bound
    ensures RefFree(Resolve(node, defs, resolving))
    decreases |defs.Keys - resolving|, node, 1
  {
    hide SiblingFree, RefFree, ResolveChildren, RefsBelow;
    if node.ref == "" {
      ChildrenFree(node, defs, resolving, rank, bound);
    } else {
      RankedBelow(node, rank, bound);
      var r := node.ref;
      var next := resolving + {r};
      OneFewer(defs, resolving, r);
      NoReferenceLeft(defs[r], defs, next, rank, rank[r]);
      BareNode(node);
      NoSiblings(Resolve(defs[r], defs, next), node);
      FreeStays(Resolve(defs[r], defs, next), defs, next);
    }
  }

  lemma RankedBelow(node: Schema, rank: Ranks, bound: nat)
    requires RefsBelow(node, rank, bound) && node.ref != ""
    ensures node.ref in rank && rank[node.ref] < bound
  {}

  lemma ChildrenFree(node: Schema, defs: Defs, resolving: set<string>, rank: Ranks, bound: nat)
    requires Acyclic(defs, rank) && (forall r | r in defs :: SiblingFree(defs[r]))
    requires SiblingFree(node) && RefsBelow(node, rank, bound) && node.ref == ""
    requires forall q | q in resolving :: q in rank && rank[q] >= bound
    ensures RefFree(ResolveChildren(node, defs, resolving))
    decreases |defs.Keys - resolving|, node, 0, node
  {
    hide Acyclic, Resolve, ResolveAll, AllSiblingFree, AllRefsBelow, AllRefFree;
    if node.props.Props? {
      forall k | k in node.props.m ensures RefFree(Resolve(node.props.m[k], defs, resolving)) {
        NoReferenceLeft(node.props.m[k], defs, resolving, rank, bound);
      }
    }
    if node.items.Items? { NoReferenceLeft(node.items.schema, defs, resolving, rank, bound); }
    AllFree(node, node.prefix, defs, resolving, rank, bound);
    AllFree(node, node.anyOf, defs, resolving, rank, bound);
    AllFree(node, node.oneOf, defs, resolving, rank, bound);
    AllFree(node, node.allOf, defs, resolving, rank, bound);
  }

  lemma AllFree(parent: Schema, a: Alts, defs: Defs, resolving: set<string>, rank: Ranks, bound: nat)
    requires Acyclic(defs, rank) && (forall r | r in defs :: SiblingFree(defs[r]))
    requires AllSiblingFree(a) && AllRefsBelow(a, rank, bound)
    requires a.Alts? ==> forall i | 0 <= i < |a.s| :: a.s[i] < parent
    requires forall q | q in resolving :: q in rank && rank[q] >= bound
    ensures AllRefFree(NoAlts)
    ensures a.Alts? ==> AllRefFree(ResolveAll(parent, a.s, defs, resolving))
    decreases |defs.Keys - resolving|, parent, 0, a
  {
    hide Acyclic, Resolve, SiblingFree, RefsBelow, RefFree;
    if a.Alts? {
      forall i | 0 <= i < |a.s| ensures RefFree(ResolveAll(parent, a.s, defs, resolving).s[i]) {
        NoReferenceLeft(a.s[i], defs, resolving, rank, bound);
      }
    }
  }

  // ----- closing object nodes -----

  function CloseAll(a: Alts): Alts
    decreases a, 0
  {
    if a.Alts? then Alts(seq(|a.s|, i requires 0 <= i < |a.s| => InjectAdditionalProperties(a.s[i]))) else NoAlts
  }

  /** injectAdditionalProperties: a node of type object gets properties and is closed, unless it
      says otherwise itself. */
  function InjectAdditionalProperties(s: Schema): Schema
    decreases s, 1
  {
    var isObject := s.types == Single(ObjectType);
    s.(props := if s.props.Props? then Props(map k | k in s.props.m :: InjectAdditionalProperties(s.props.m[k]))
                else if isObject then Props(map[]) else NoProps,
       additional := if isObject && s.additional == Unset then Closed else s.additional,
       items := if s.items.Items? then Items(InjectAdditionalProperties(s.items.schema)) else s.items,
       prefix := CloseAll(s.prefix), anyOf := CloseAll(s.anyOf), oneOf := CloseAll(s.oneOf), allOf := CloseAll(s.allOf))
  }

  predicate AllStable(a: Alts)
    decreases a
  {
    a.Alts? ==> forall i | 0 <= i < |a.s| :: StableOneOf(a.s[i])
  }

  /** Under oneOf, closing object nodes changes nothing. */
  predicate StableOneOf(s: Schema)
    decreases s
  {
    && CloseAll(s.oneOf) == s.oneOf
    && (s.props.Props? ==> forall k | k in s.props.m :: StableOneOf(s.props.m[k]))
    && (s.items.Items? ==> StableOneOf(s.items.schema))
    && AllStable(s.prefix) && AllStable(s.anyOf) && AllStable(s.allOf)
  }

  /** Closing object nodes only takes values away, where no oneOf turns fewer into more. */
  lemma {:induction false} InjectNarrows(s: Schema, v: Json, env: Env)
    requires StableOneOf(s) && Accepts(InjectAdditionalProperties(s), v, env)
    ensures Accepts(s, v, env)
    decreases s
  {
    var t := InjectAdditionalProperties(s);
    hide InjectAdditionalProperties, CloseAll, StableOneOf;
    NarrowWhole(s, v, env);
    if v.Obj? { NarrowFields(s, v.fields, env); }
    if v.Arr? { NarrowElements(s, v.elems, env); }
    NarrowAlternatives(s, v, env);
  }

  lemma NarrowWhole(s: Schema, v: Json, env: Env)
    ensures AcceptsWhole(InjectAdditionalProperties(s), v, env) <==> AcceptsWhole(s, v, env)
  {}

  lemma NarrowFields(s: Schema, v: Fields, env: Env)
    requires StableOneOf(s) && AcceptsFields(InjectAdditionalProperties(s), v, env)
    ensures AcceptsFields(s, v, env)
    decreases s, 0
  {
    var t := InjectAdditionalProperties(s);
    hide Accepts, CloseAll, AllStable;
    if s.props.Props? {
      assert AcceptsProps(t, t.props.m, v, env);
      forall k | k in s.props.m && k in v ensures Accepts(s.props.m[k], v[k], env) {
        assert Accepts(t.props.m[k], v[k], env);
        InjectNarrows(s.props.m[k], v[k], env);
      }
    }
  }

  lemma NarrowElements(s: Schema, v: seq<Json>, env: Env)
    requires StableOneOf(s) && AcceptsElements(InjectAdditionalProperties(s), v, env)
    ensures AcceptsElements(s, v, env)
    decreases s, 0
  {
    var t := InjectAdditionalProperties(s);
    hide Accepts;
    if s.prefix.Alts? {
      forall i | 0 <= i < |s.prefix.s| && i < |v| ensures Accepts(s.prefix.s[i], v[i], env) {
        assert Accepts(t.prefix.s[i], v[i], env);
        InjectNarrows(s.prefix.s[i], v[i], env);
      }
    }
    if s.items.Items? {
      forall i | PrefixLength(s) <= i < |v| ensures Accepts(s.items.schema, v[i], env) {
        assert Accepts(t.items.schema, v[i], env);
        InjectNarrows(s.items.schema, v[i], env);
      }
    }
  }

  lemma NarrowAlternatives(s: Schema, v: Json, env: Env)
    requires StableOneOf(s) && AcceptsAlternatives(InjectAdditionalProperties(s), v, env)
    ensures AcceptsAlternatives(s, v, env)
    decreases s, 0
  {
    var t := InjectAdditionalProperties(s);
    hide Accepts;
    if s.anyOf.Alts? {
      var i :| 0 <= i < |t.anyOf.s| && Accepts(t.anyOf.s[i], v, env);
      InjectNarrows(s.anyOf.s[i], v, env);
    }
    if s.allOf.Alts? {
      forall i | 0 <= i < |s.allOf.s| ensures Accepts(s.allOf.s[i], v, env) {
        assert Accepts(t.allOf.s[i], v, env);
        InjectNarrows(s.allOf.s[i], v, env);
      }
    }
  }

  // ----- siblings and oneOf -----

  /** A keyword beside a reference replaces the one of the definition, instead of adding to it: the
      string-typed definition no longer keeps null out. */
  lemma SiblingReplaces(r: string, env: Env)
    requires r != ""
    ensures var defs := map[r := ANYTHING.(types := Single(StringType))];
      var node := ANYTHING.(ref := r, types := Single(NullType));
      Models(env, defs) ==> Accepts(Resolve(node, defs, {}), Null, env) && !Accepts(node, Null, env)
  {
    var defs := map[r := ANYTHING.(types := Single(StringType))];
    var node := ANYTHING.(ref := r, types := Single(NullType));
    assert {} + {r} == {r};
    assert Resolve(defs[r], defs, {r}) == defs[r];
    assert Resolve(node, defs, {}) == ANYTHING.(types := Single(NullType));
    assert !Accepts(defs[r], Null, env);
  }

  /** Under oneOf, closing one of two alternatives lets in what both accepted before. */
  lemma OneOfWidens(k: string, v: Json, env: Env)
    ensures var s := ANYTHING.(oneOf := Alts([ANYTHING.(types := Single(ObjectType)), ANYTHING]));
      Accepts(InjectAdditionalProperties(s), Obj(map[k := v]), env) && !Accepts(s, Obj(map[k := v]), env)
  {
    var open, o := ANYTHING.(types := Single(ObjectType)), Obj(map[k := v]);
    var s := ANYTHING.(oneOf := Alts([open, ANYTHING]));
    var t := InjectAdditionalProperties(s);
    var shut := open.(props := Props(map[]), additional := Closed);
    assert InjectAdditionalProperties(open) == shut && InjectAdditionalProperties(ANYTHING) == ANYTHING;
    assert s.oneOf.s[0] == open && s.oneOf.s[1] == ANYTHING;
    assert t.oneOf == CloseAll(s.oneOf);
    assert t.oneOf.s == [shut, ANYTHING];
    assert k in o.fields;
    Widened(open, shut, o, env);
    hide Accepts, InjectAdditionalProperties;
    OneOfTwo(s, o, env);
    OneOfTwo(t, o, env);
  }

  lemma Widened(open: Schema, shut: Schema, o: Json, env: Env)
    requires open == ANYTHING.(types := Single(ObjectType)) && shut == open.(props := Props(map[]), additional := Closed)
    requires o.Obj? && o.fields != map[]
    ensures Accepts(open, o, env) && Accepts(ANYTHING, o, env) && !Accepts(shut, o, env)
  {
    var k :| k in o.fields;
    assert !AcceptsProps(shut, shut.props.m, o.fields, env);
  }

  lemma OnlyAlternatives(s: Schema, o: Json, env: Env)
    requires s == ANYTHING.(oneOf := s.oneOf)
    ensures Accepts(s, o, env) <==> AcceptsAlternatives(s, o, env)
  {
    hide AcceptsAlternatives;
  }

  lemma OneOfTwo(s: Schema, o: Json, env: Env)
    requires s.oneOf.Alts? && |s.oneOf.s| == 2 && s == ANYTHING.(oneOf := s.oneOf)
    ensures Accepts(s, o, env) <==> Accepts(s.oneOf.s[0], o, env) != Accepts(s.oneOf.s[1], o, env)
  {
    OnlyAlternatives(s, o, env);
    hide Accepts;
    var which := set i | 0 <= i < |s.oneOf.s| && Accepts(s.oneOf.s[i], o, env);
    OfTwo(which, Accepts(s.oneOf.s[0], o, env), Accepts(s.oneOf.s[1], o, env));
    assert AcceptsAlternatives(s, o, env) <==> |which| == 1;
  }

  lemma OfTwo(which: set<int>, first: bool, second: bool)
    requires forall i :: i in which <==> (i == 0 && first) || (i == 1 && second)
    ensures |which| == 1 <==> first != second
  {
    var zero: set<int>, one: set<int> := if first then {0} else {}, if second then {1} else {};
    forall i: int ensures i in which <==> i in zero + one {}
    assert which == zero + one;
  }
}
