/** Which output schemas makeOpenAIStrictSchema (internal/anthropic/request.go) compiles and which it
    refuses, told by the values that the types of a node name. */
module StrictCompiles {
  import opened Text
  import opened Json
  import opened Schemas
  import opened StrictSchemas

  /** The node names types, and some value of one of them is of the kind. */
  ghost predicate Names(s: Schema, kind: Json -> bool) {
    !s.types.AnyType? && exists v :: kind(v) && TypeAllows(s.types, v)
  }

  function ObjectKind(): Json -> bool {
    (v: Json) => v.Obj?
  }

  function ArrayKind(): Json -> bool {
    (v: Json) => v.Arr?
  }

  function KindOf(f: Facet): Json -> bool {
    (v: Json) => Concerns(f, v)
  }

  /** A keyword about a kind of value stands only where the types of the node name that kind. */
  ghost predicate AboutNamed(s: Schema) {
    && (forall f | f in s.facets :: Names(s, KindOf(f)))
    && (s.items.Items? || s.minItems.Some? || s.maxItems.Some? ==> Names(s, ArrayKind()))
    && (s.props.Props? || s.required != {} || s.additional != Unset ==> Names(s, ObjectKind()))
  }

  /** The node alone: keywords that are supported, in their places; items wherever arrays are named, no
      anyOf where objects are, no other properties, and none required that is not declared. */
  ghost predicate NodeCompiles(s: Schema) {
    && s.ref == "" && s.prefix.NoAlts? && s.oneOf.NoAlts? && s.allOf.NoAlts? && !s.items.NothingMore?
    && AboutNamed(s)
    && (Names(s, ArrayKind()) ==> s.items.Items?)
    && (Names(s, ObjectKind()) ==> s.anyOf.NoAlts?)
    && s.anyOf != Alts([]) && s.additional != Allowed
    && (forall k | k in s.required :: s.props.Props? && k in s.props.m)
  }

  ghost predicate Compiles(s: Schema)
    decreases s
  {
    && NodeCompiles(s)
    && (s.props.Props? ==> forall k | k in s.props.m :: Compiles(s.props.m[k]))
    && (s.items.Items? ==> Compiles(s.items.schema))
    && (s.anyOf.Alts? ==> forall i | 0 <= i < |s.anyOf.s| :: Compiles(s.anyOf.s[i]))
  }

  /** A type that a node names, and a value of it. */
  lemma NamedType(types: Types, t: Type, v: Json)
    requires IsOfType(v, t) && HasType(types, t)
    ensures !types.AnyType? && TypeAllows(types, v)
  {}

  lemma NamesObjects(s: Schema)
    ensures Names(s, ObjectKind()) <==> HasType(s.types, ObjectType)
  {
    if HasType(s.types, ObjectType) {
      NamedType(s.types, ObjectType, Obj(map[]));
      assert ObjectKind()(Obj(map[]));
    }
  }

  lemma NamesArrays(s: Schema)
    ensures Names(s, ArrayKind()) <==> HasType(s.types, ArrayType)
  {
    if HasType(s.types, ArrayType) {
      NamedType(s.types, ArrayType, Arr([]));
      assert ArrayKind()(Arr([]));
    }
  }

  lemma NamesFacet(s: Schema, f: Facet)
    ensures Names(s, KindOf(f)) <==> FacetFits(s, f)
  {
    if OnStrings(f) {
      if HasType(s.types, StringType) {
        NamedType(s.types, StringType, Str(""));
        assert KindOf(f)(Str(""));
      }
    } else {
      assert KindOf(f)(Num(0));
      if HasType(s.types, NumberType) { NamedType(s.types, NumberType, Num(0)); }
      if HasType(s.types, IntegerType) { NamedType(s.types, IntegerType, Num(0)); }
    }
  }

  lemma NodeExactly(s: Schema)
    ensures NodeCompiles(s) <==> Supported(s) && KeywordsFit(s)
  {
    NamesObjects(s);
    NamesArrays(s);
    forall f | f in s.facets ensures Names(s, KindOf(f)) <==> FacetFits(s, f) { NamesFacet(s, f); }
    hide Names, HasType, FacetFits, KindOf;
  }

  /** Compiling fails exactly on the schemas with a node that does not compile alone. */
  lemma {:induction false} CompilesExactly(s: Schema, env: Env)
    ensures Strict(s, env).Some? <==> Compiles(s)
    decreases s
  {
    NodeExactly(s);
    hide NodeCompiles, Supported, KeywordsFit, MakeNullable;
    if s.props.Props? {
      forall k | k in s.props.m ensures Strict(s.props.m[k], env).Some? <==> Compiles(s.props.m[k]) { CompilesExactly(s.props.m[k], env); }
    }
    if s.items.Items? { CompilesExactly(s.items.schema, env); }
    if s.anyOf.Alts? {
      forall i | 0 <= i < |s.anyOf.s| ensures Strict(s.anyOf.s[i], env).Some? <==> Compiles(s.anyOf.s[i]) { CompilesExactly(s.anyOf.s[i], env); }
    }
  }

  /** makeOpenAIStrictSchema. */
  function StrictRoot(s: Schema, env: Env): Option<Schema> {
    if s.types != Single(ObjectType) || s.anyOf.Alts? then None else Strict(s, env)
  }

  /** At the root, moreover, objects are all that is allowed. */
  lemma RootExactly(s: Schema, env: Env)
    ensures StrictRoot(s, env).Some? <==> Compiles(s) && s.types == Single(ObjectType)
    ensures StrictRoot(s, env).Some? ==> forall v | Accepts(s, v, env) :: v.Obj?
  {
    CompilesExactly(s, env);
    NamesObjects(s);
    if Compiles(s) && s.types == Single(ObjectType) { assert s.anyOf.NoAlts?; }
  }
}
