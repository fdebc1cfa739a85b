/** makeOpenAIStrictSchemaNode (internal/anthropic/request.go) and removeOptionalNullProperties
    (internal/anthropic/response.go): optional properties are made required and nullable for the
    upstream, and the nulls are taken out of what it answers. */
module StrictSchemas {
  import opened Text
  import opened Json
  import opened Schemas

  // ----- compiling to the strict form -----

  const NULL_ONLY: Schema := ANYTHING.(types := Single(NullType))

  /** makeSchemaNullable. */
  function MakeNullable(s: Schema, env: Env): Schema {
    if Accepts(s, Null, env) then s else ANYTHING.(anyOf := Alts([s, NULL_ONLY]))
  }

  function PropsOf(s: Schema): map<string, Schema> {
    if s.props.Props? then s.props.m else map[]
  }

  function AltsOf(a: Alts): seq<Schema> {
    if a.Alts? then a.s else []
  }

  /** supportedOutputSchemaKeyword, for the keywords of the model. */
  predicate Supported(s: Schema) {
    s.ref == "" && s.prefix.NoAlts? && s.oneOf.NoAlts? && s.allOf.NoAlts?
  }

  predicate FacetFits(s: Schema, f: Facet) {
    if OnStrings(f) then HasType(s.types, StringType)
    else HasType(s.types, NumberType) || HasType(s.types, IntegerType)
  }

  /** validateOutputSchemaKeywordValues and the shape checks of visitSchemaChildren. */
  predicate KeywordsFit(s: Schema) {
    && (HasType(s.types, ArrayType) <==> s.items.Items?)
    && !s.items.NothingMore?
    && (HasType(s.types, ObjectType) ==> s.anyOf.NoAlts?)
    && (!HasType(s.types, ObjectType) ==> s.props.NoProps? && s.required == {} && s.additional == Unset)
    && (!HasType(s.types, ArrayType) ==> s.minItems.None? && s.maxItems.None?)
    && (forall f | f in s.facets :: FacetFits(s, f))
    && (s.anyOf.Alts? ==> s.anyOf.s != [])
    && s.additional != Allowed
    && (forall k | k in s.required :: k in PropsOf(s))
  }

  /** makeOpenAIStrictSchemaNode: None for its errors. */
  function Strict(s: Schema, env: Env): Option<Schema>
    decreases s
  {
    if !Supported(s) || !KeywordsFit(s) then None
    else if s.props.Props? && exists k | k in s.props.m :: Strict(s.props.m[k], env).None? then None
    else if s.items.Items? && Strict(s.items.schema, env).None? then None
    else if s.anyOf.Alts? && exists i | 0 <= i < |s.anyOf.s| :: Strict(s.anyOf.s[i], env).None? then None
    else
      var items := if s.items.Items? then Items(Strict(s.items.schema, env).value) else s.items;
      var anyOf := if s.anyOf.Alts? then
                     Alts(seq(|s.anyOf.s|, i requires 0 <= i < |s.anyOf.s| => Strict(s.anyOf.s[i], env).value))
                   else NoAlts;
      var n := s.(items := items, anyOf := anyOf);
      if !HasType(s.types, ObjectType) then Some(n)
      else
        var props := if s.props.Props? then
                       map k | k in s.props.m ::
                         if k in s.required then Strict(s.props.m[k], env).value
                         else MakeNullable(Strict(s.props.m[k], env).value, env)
                     else map[];
        Some(n.(props := Props(props), required := props.Keys, additional := Closed))
  }

  /** Every object node is closed and requires all of its properties. */
  ghost predicate StrictShape(t: Schema)
    decreases t
  {
    && (HasType(t.types, ObjectType) ==> t.additional == Closed && t.props.Props? && t.required == t.props.m.Keys)
    && (t.props.Props? ==> forall k | k in t.props.m :: StrictShape(t.props.m[k]))
    && (t.items.Items? ==> StrictShape(t.items.schema))
    && (t.anyOf.Alts? ==> forall i | 0 <= i < |t.anyOf.s| :: StrictShape(t.anyOf.s[i]))
  }

  lemma NullableShape(t: Schema, env: Env)
    requires StrictShape(t)
    ensures StrictShape(MakeNullable(t, env))
  {
    hide Accepts;
    var n := ANYTHING.(anyOf := Alts([t, NULL_ONLY]));
    assert StrictShape(NULL_ONLY);
    assert StrictShape(n);
  }

  lemma {:induction false} StrictIsClosed(s: Schema, env: Env)
    requires Strict(s, env).Some?
    ensures StrictShape(Strict(s, env).value)
    decreases s
  {
    hide MakeNullable, KeywordsFit, Supported;
    if s.props.Props? {
      forall k | k in s.props.m ensures StrictShape(Strict(s.props.m[k], env).value)
        && StrictShape(MakeNullable(Strict(s.props.m[k], env).value, env))
      {
        StrictIsClosed(s.props.m[k], env);
        NullableShape(Strict(s.props.m[k], env).value, env);
      }
    }
    if s.items.Items? { StrictIsClosed(s.items.schema, env); }
    if s.anyOf.Alts? {
      forall i | 0 <= i < |s.anyOf.s| ensures StrictShape(Strict(s.anyOf.s[i], env).value) {
        StrictIsClosed(s.anyOf.s[i], env);
      }
    }
    PropsOnlyOnObjects(s);
  }

  lemma PropsOnlyOnObjects(s: Schema)
    ensures KeywordsFit(s) && s.props.Props? ==> HasType(s.types, ObjectType)
    ensures KeywordsFit(s) && HasType(s.types, ObjectType) ==> s.anyOf.NoAlts?
  {}

  // ----- taking the nulls out again -----

  /** unwrapSyntheticNullableSchema. */
  function Unwrap(s: Schema, t: Schema, v: Json, env: Env): Schema {
    if Accepts(s, Null, env) || !Accepts(t, Null, env) then t
    else if t.anyOf.Alts? && |t.anyOf.s| == 2 && t.anyOf.s[1] == NULL_ONLY && Accepts(t.anyOf.s[0], v, env) then t.anyOf.s[0]
    else t
  }

  /** An optional property that the strict schema made null. */
  predicate Dropped(s: Schema, t: Schema, k: string, v: Json, env: Env) {
    && k in PropsOf(s) && k in PropsOf(t)
    && v.Null? && k !in s.required
    && !Accepts(PropsOf(s)[k], Null, env) && Accepts(PropsOf(t)[k], Null, env)
  }

  /** removeOptionalNullProperties: the value it returns, which differs from v when it reports a
      change. */
  function Clean(v: Json, s: Schema, t: Schema, env: Env): Json
    decreases s, 1, 0
  {
    if Accepts(s, v, env) then v
    else
      var u := Unwrap(s, t, v, env);
      var alt := if s.anyOf.Alts? then CleanAlternatives(v, s, u, 0, env) else None;
      if alt.Some? then alt.value
      else
        var c := CleanParts(v, s, u, env);
        if c != v && Accepts(s, c, env) then c else v
  }

  /** The first alternative of the strict schema that accepts v and whose cleaning helps. */
  function CleanAlternatives(v: Json, s: Schema, u: Schema, i: nat, env: Env): Option<Json>
    requires s.anyOf.Alts? && i <= |s.anyOf.s|
    decreases s, 0, |s.anyOf.s| - i
  {
    if i == |s.anyOf.s| || i >= |AltsOf(u.anyOf)| then None
    else
      var c := if Accepts(AltsOf(u.anyOf)[i], v, env) then Clean(v, s.anyOf.s[i], AltsOf(u.anyOf)[i], env) else v;
      if c != v && Accepts(s.anyOf.s[i], c, env) then Some(c)
      else CleanAlternatives(v, s, u, i + 1, env)
  }

  function CleanParts(v: Json, s: Schema, u: Schema, env: Env): Json
    decreases s, 0, 0
  {
    if v.Obj? then
      Obj(map k | k in v.fields && !Dropped(s, u, k, v.fields[k], env) ::
            if s.props.Props? && k in s.props.m && k in PropsOf(u) then Clean(v.fields[k], s.props.m[k], PropsOf(u)[k], env)
            else v.fields[k])
    else if v.Arr? && s.items.Items? && u.items.Items? then
      Arr(seq(|v.elems|, i requires 0 <= i < |v.elems| => Clean(v.elems[i], s.items.schema, u.items.schema, env)))
    else v
  }

  lemma {:induction false} AlternativeAccepts(v: Json, s: Schema, u: Schema, i: nat, env: Env)
    requires s.anyOf.Alts? && i <= |s.anyOf.s|
    ensures var c := CleanAlternatives(v, s, u, i, env);
      c.Some? ==> c.value != v && exists j :: i <= j < |s.anyOf.s| && Accepts(s.anyOf.s[j], c.value, env)
    decreases |s.anyOf.s| - i
  {
    hide Accepts, Clean;
    if i < |s.anyOf.s| && i < |AltsOf(u.anyOf)| { AlternativeAccepts(v, s, u, i + 1, env); }
  }

  /** On every schema and every value: what is accepted stays as it is, and what is changed is accepted
      afterwards, by the schema or by one of its alternatives. */
  lemma CleanOnlyHelps(v: Json, s: Schema, t: Schema, env: Env)
    ensures Accepts(s, v, env) ==> Clean(v, s, t, env) == v
    ensures Clean(v, s, t, env) != v ==>
      || Accepts(s, Clean(v, s, t, env), env)
      || (s.anyOf.Alts? && exists j :: 0 <= j < |s.anyOf.s| && Accepts(s.anyOf.s[j], Clean(v, s, t, env), env))
  {
    if s.anyOf.Alts? { AlternativeAccepts(v, s, Unwrap(s, t, v, env), 0, env); }
    hide Accepts, CleanAlternatives, CleanParts, Unwrap;
  }

  // ----- the fragment -----

  /** Enumerations only on nodes that cleaning cannot change, no anyOf beside the type array. */
  predicate Fragment(s: Schema)
    decreases s
  {
    && (s.enum.Some? ==> ScalarOnly(s))
    && (s.anyOf.Alts? ==> !HasType(s.types, ArrayType))
    && (s.props.Props? ==> forall k | k in s.props.m :: Fragment(s.props.m[k]))
    && (s.items.Items? ==> Fragment(s.items.schema))
    && (s.anyOf.Alts? ==> forall i | 0 <= i < |s.anyOf.s| :: Fragment(s.anyOf.s[i]))
  }

  predicate ScalarOnly(s: Schema) {
    && !HasType(s.types, ArrayType) && !HasType(s.types, ObjectType)
    && (s.anyOf.NoAlts? || !s.types.AnyType?)
  }

  // ----- scalars -----

  predicate Scalar(v: Json) {
    !v.Obj? && !v.Arr?
  }

  /** Compiling changes nothing about values that are neither objects nor arrays. */
  lemma {:induction false} ScalarSame(s: Schema, v: Json, env: Env)
    requires Strict(s, env).Some? && Scalar(v)
    ensures Accepts(Strict(s, env).value, v, env) <==> Accepts(s, v, env)
    decreases s
  {
    hide MakeNullable, KeywordsFit;
    PropsOnlyOnObjects(s);
    var t := Strict(s, env).value;
    if s.anyOf.Alts? {
      forall i | 0 <= i < |s.anyOf.s|
        ensures Accepts(t.anyOf.s[i], v, env) <==> Accepts(s.anyOf.s[i], v, env)
      {
        ScalarSame(s.anyOf.s[i], v, env);
      }
    }
    SameWhole(s, env, v);
    hide AcceptsWhole;
    assert AcceptsAlternatives(t, v, env) <==> AcceptsAlternatives(s, v, env);
  }

  lemma SameWhole(s: Schema, env: Env, v: Json)
    requires Strict(s, env).Some?
    ensures AcceptsWhole(Strict(s, env).value, v, env) <==> AcceptsWhole(s, v, env)
  {
    hide MakeNullable, KeywordsFit;
  }

  // ----- strict, then clean -----

  /** How the strict form of a schema is made of the strict forms of its parts. */
  lemma StrictParts(s: Schema, env: Env)
    requires Strict(s, env).Some?
    ensures var t := Strict(s, env).value;
      && t.types == s.types && Supported(s) && Supported(t) && KeywordsFit(s)
      && t.minItems == s.minItems && t.maxItems == s.maxItems
      && (s.items.Items? ==> Strict(s.items.schema, env).Some? && t.items == Items(Strict(s.items.schema, env).value))
      && (s.anyOf.Alts? ==> t.anyOf.Alts? && |t.anyOf.s| == |s.anyOf.s|)
      && (s.anyOf.Alts? ==> forall i | 0 <= i < |s.anyOf.s| ::
            Strict(s.anyOf.s[i], env).Some? && t.anyOf.s[i] == Strict(s.anyOf.s[i], env).value)
      && (s.anyOf.NoAlts? ==> t.anyOf.NoAlts?)
  {
    hide MakeNullable, KeywordsFit;
  }

  lemma StrictProps(s: Schema, env: Env)
    requires Strict(s, env).Some? && HasType(s.types, ObjectType)
    ensures var t := Strict(s, env).value;
      && t.props.Props? && t.props.m.Keys == PropsOf(s).Keys == t.required && t.additional == Closed
      && (forall k | k in PropsOf(s) :: Strict(PropsOf(s)[k], env).Some?
            && (t.props.m[k] == Strict(PropsOf(s)[k], env).value
                || (k !in s.required && t.props.m[k] == MakeNullable(Strict(PropsOf(s)[k], env).value, env))))
  {
    hide MakeNullable, KeywordsFit;
  }

  /** A bare anyOf accepts what one of its alternatives accepts. */
  lemma BareUnion(s: Schema, v: Json, i: nat, env: Env)
    requires Supported(s) && KeywordsFit(s) && s.anyOf.Alts? && s.types.AnyType? && s.enum.None?
    requires i < |s.anyOf.s| && Accepts(s.anyOf.s[i], v, env)
    ensures Accepts(s, v, env)
  {
    assert forall f | f in s.facets :: FacetFits(s, f);
    assert AcceptsAlternatives(s, v, env);
  }

  lemma UnwrapGivesStrict(s: Schema, u: Schema, v: Json, env: Env)
    requires Strict(s, env).Some?
    requires u == Strict(s, env).value || u == MakeNullable(Strict(s, env).value, env)
    requires Accepts(u, v, env) && (v.Null? ==> Accepts(s, Null, env))
    ensures Unwrap(s, u, v, env) == Strict(s, env).value && Accepts(Strict(s, env).value, v, env)
  {
    var t := Strict(s, env).value;
    ScalarSame(s, Null, env);
    if u != t {
      NullOnlyNull(t, v, env);
    }
    hide Accepts;
  }

  lemma NullOnlyNull(t: Schema, v: Json, env: Env)
    ensures var n := ANYTHING.(anyOf := Alts([t, NULL_ONLY]));
      Accepts(n, Null, env) && (Accepts(n, v, env) && !v.Null? ==> Accepts(t, v, env))
  {
    var n := ANYTHING.(anyOf := Alts([t, NULL_ONLY]));
    assert Accepts(NULL_ONLY, Null, env);
    assert Accepts(n.anyOf.s[1], Null, env);
    if Accepts(n, v, env) && !v.Null? {
      assert !Accepts(NULL_ONLY, v, env);
      assert AcceptsAlternatives(n, v, env);
      hide Accepts;
      var i :| 0 <= i < |n.anyOf.s| && Accepts(n.anyOf.s[i], v, env);
      assert i == 0;
    }
  }

  lemma {:induction false} CleanAccepted(s: Schema, u: Schema, v: Json, env: Env)
    requires Strict(s, env).Some? && Fragment(s)
    requires u == Strict(s, env).value || u == MakeNullable(Strict(s, env).value, env)
    requires Accepts(u, v, env) && (v.Null? ==> Accepts(s, Null, env))
    ensures Accepts(s, Clean(v, s, u, env), env)
    decreases s, 4, 0
  {
    hide MakeNullable, Strict, Accepts, Unwrap, Fragment;
    if !Accepts(s, v, env) {
      UnwrapGivesStrict(s, u, v, env);
      var t := Strict(s, env).value;
      if s.anyOf.Alts? {
        UnionCleaned(s, v, env);
      } else {
        PartsCleaned(s, v, env);
      }
    }
  }

  lemma ScalarByType(types: Types, v: Json)
    requires !types.AnyType? && !HasType(types, ArrayType) && !HasType(types, ObjectType) && TypeAllows(types, v)
    ensures Scalar(v)
  {}

  /** Where cleaning has something to do, the union is bare. */
  lemma BareWhereCleaned(s: Schema, v: Json, env: Env)
    requires Strict(s, env).Some? && Fragment(s) && s.anyOf.Alts?
    requires Accepts(Strict(s, env).value, v, env) && !Accepts(s, v, env)
    ensures s.types.AnyType? && s.enum.None? && KeywordsFit(s) && Supported(s)
  {
    StrictParts(s, env);
    SameWhole(s, env, v);
    hide Strict;
    if !s.types.AnyType? {
      ScalarByType(s.types, v);
      ScalarSame(s, v, env);
    }
  }

  lemma FirstHelps(s: Schema, v: Json, j: nat, i: nat, env: Env)
    requires Strict(s, env).Some? && Fragment(s) && s.anyOf.Alts? && s.types.AnyType? && s.enum.None?
    requires !Accepts(s, v, env)
    requires j <= i < |s.anyOf.s| && Strict(s.anyOf.s[i], env).Some? && Accepts(Strict(s.anyOf.s[i], env).value, v, env)
    ensures var c := CleanAlternatives(v, s, Strict(s, env).value, j, env); c.Some? && Accepts(s, c.value, env)
    ensures CleanAlternatives(v, s, Strict(s, env).value, j, env) != Some(v)
    decreases s, 1, i - j
  {
    StrictParts(s, env);
    hide Strict, Accepts, MakeNullable, Unwrap, KeywordsFit, Clean;
    var t := Strict(s, env).value;
    var child := s.anyOf.s[j];
    var c := if Accepts(t.anyOf.s[j], v, env) then Clean(v, child, t.anyOf.s[j], env) else v;
    if Accepts(child, v, env) { BareUnion(s, v, j, env); }
    if c != v && Accepts(child, c, env) {
      BareUnion(s, c, j, env);
    } else if j < i {
      FirstHelps(s, v, j + 1, i, env);
    } else {
      if v.Null? { ScalarSame(child, v, env); }
      CleanAccepted(child, t.anyOf.s[i], v, env);
    }
  }

  lemma UnionCleaned(s: Schema, v: Json, env: Env)
    requires Strict(s, env).Some? && Fragment(s) && s.anyOf.Alts?
    requires Accepts(Strict(s, env).value, v, env) && !Accepts(s, v, env)
    ensures var c := CleanAlternatives(v, s, Strict(s, env).value, 0, env); c.Some? && Accepts(s, c.value, env)
    decreases s, 2, 0
  {
    StrictParts(s, env);
    BareWhereCleaned(s, v, env);
    hide Strict, MakeNullable, Fragment, CleanAlternatives;
    var t := Strict(s, env).value;
    assert AcceptsAlternatives(t, v, env);
    var i :| 0 <= i < |t.anyOf.s| && Accepts(t.anyOf.s[i], v, env);
    FirstHelps(s, v, 0, i, env);
  }

  lemma PartsCleaned(s: Schema, v: Json, env: Env)
    requires Strict(s, env).Some? && Fragment(s) && s.anyOf.NoAlts?
    requires Accepts(Strict(s, env).value, v, env) && !Accepts(s, v, env)
    ensures Accepts(s, CleanParts(v, s, Strict(s, env).value, env), env)
    decreases s, 3, 0
  {
    hide MakeNullable, Fragment, CleanParts, KeywordsFit, Accepts;
    if Scalar(v) {
      ScalarSame(s, v, env);
    } else if v.Obj? {
      ObjectCleaned(s, v, env);
    } else {
      ArrayCleaned(s, v, env);
    }
  }

  lemma ArrayCleaned(s: Schema, v: Json, env: Env)
    requires Strict(s, env).Some? && Fragment(s) && s.anyOf.NoAlts? && v.Arr?
    requires Accepts(Strict(s, env).value, v, env)
    ensures Accepts(s, CleanParts(v, s, Strict(s, env).value, env), env)
    decreases s, 1, 0
  {
    StrictParts(s, env);
    SameWhole(s, env, v);
    hide MakeNullable, Strict, Clean;
    var t := Strict(s, env).value;
    if s.items.Items? {
      var c := CleanParts(v, s, t, env);
      forall i | 0 <= i < |v.elems| ensures Accepts(s.items.schema, c.elems[i], env) {
        assert Accepts(t.items.schema, v.elems[i], env);
        if v.elems[i].Null? { ScalarSame(s.items.schema, Null, env); }
        CleanAccepted(s.items.schema, t.items.schema, v.elems[i], env);
      }
      WholeKept(s, v, c, env);
    }
  }

  /** Cleaning an array or an object keeps what the schema says about the value as a whole. */
  lemma WholeKept(s: Schema, v: Json, c: Json, env: Env)
    requires Supported(s) && KeywordsFit(s) && Fragment(s) && AcceptsWhole(s, v, env)
    requires (v.Arr? && c.Arr? && HasType(s.types, ArrayType)) || (v.Obj? && c.Obj? && HasType(s.types, ObjectType))
    ensures AcceptsWhole(s, c, env)
  {}

  lemma ObjectCleaned(s: Schema, v: Json, env: Env)
    requires Strict(s, env).Some? && Fragment(s) && s.anyOf.NoAlts? && v.Obj?
    requires Accepts(Strict(s, env).value, v, env)
    ensures Accepts(s, CleanParts(v, s, Strict(s, env).value, env), env)
    decreases s, 2, 0
  {
    StrictParts(s, env);
    SameWhole(s, env, v);
    hide MakeNullable, Strict, Clean;
    var t := Strict(s, env).value;
    if HasType(s.types, ObjectType) {
      StrictProps(s, env);
      var c := CleanParts(v, s, t, env);
      WholeKept(s, v, c, env);
      hide AcceptsWhole, KeywordsFit;
      FieldsCleaned(s, v, env);
    } else {
      assert CleanParts(v, s, t, env).fields == v.fields;
    }
  }

  /** One property, as long as it is not dropped. */
  lemma FieldCleaned(s: Schema, k: string, w: Json, env: Env)
    requires Strict(s, env).Some? && Fragment(s) && s.props.Props? && k in s.props.m && StrictProp(s, k, w, env)
    requires !Dropped(s, Strict(s, env).value, k, w, env)
    ensures Accepts(s.props.m[k], Clean(w, s.props.m[k], PropsOf(Strict(s, env).value)[k], env), env)
    decreases s, 0, 0
  {
    var child := s.props.m[k];
    if w.Null? { ScalarSame(child, Null, env); }
    assert Fragment(child);
    hide Strict, Accepts, MakeNullable, Fragment, Clean;
    CleanAccepted(child, PropsOf(Strict(s, env).value)[k], w, env);
  }

  lemma EnoughFields(s: Schema, c: Fields, env: Env)
    requires (forall k | k in s.required :: k in c) && (forall k | k in c :: s.props.Props? && k in s.props.m)
    requires s.props.Props? ==> forall k | k in s.props.m && k in c :: Accepts(s.props.m[k], c[k], env)
    ensures AcceptsFields(s, c, env)
  {}

  /** Cleaning keeps the required properties and adds none. */
  lemma CleanedKeys(s: Schema, v: Json, env: Env)
    requires Strict(s, env).Some? && v.Obj? && HasType(s.types, ObjectType) && Accepts(Strict(s, env).value, v, env)
    ensures var c := CleanParts(v, s, Strict(s, env).value, env);
      && c.Obj? && c.fields.Keys <= v.fields.Keys == PropsOf(s).Keys
      && (forall k | k in c.fields :: s.props.Props? && k in s.props.m)
      && (forall k | k in s.required :: k in c.fields)
  {
    StrictParts(s, env);
    StrictObject(s, v, env);
    hide MakeNullable, Strict, Clean, Accepts, StrictProp;
  }

  lemma CleanedField(s: Schema, v: Json, k: string, env: Env)
    requires Strict(s, env).Some? && v.Obj? && HasType(s.types, ObjectType) && Accepts(Strict(s, env).value, v, env)
    requires s.props.Props? && k in s.props.m
    ensures var t, c := Strict(s, env).value, CleanParts(v, s, Strict(s, env).value, env);
      && c.Obj? && k in v.fields && k in PropsOf(t) && k in PropsOf(s) && StrictProp(s, k, v.fields[k], env)
      && (k in c.fields <==> !Dropped(s, t, k, v.fields[k], env))
      && (k in c.fields ==> c.fields[k] == Clean(v.fields[k], s.props.m[k], PropsOf(t)[k], env))
  {
    StrictObject(s, v, env);
    assert StrictProp(s, k, v.fields[k], env);
    hide MakeNullable, Strict, Clean, Accepts, Dropped;
  }

  lemma FieldsCleaned(s: Schema, v: Json, env: Env)
    requires Strict(s, env).Some? && Fragment(s) && s.anyOf.NoAlts? && v.Obj? && HasType(s.types, ObjectType)
    requires Accepts(Strict(s, env).value, v, env)
    ensures AcceptsFields(s, CleanParts(v, s, Strict(s, env).value, env).fields, env)
    decreases s, 1, 0
  {
    hide *;
    CleanedKeys(s, v, env);
    var c := CleanParts(v, s, Strict(s, env).value, env).fields;
    if s.props.Props? {
      forall k | k in s.props.m && k in c ensures Accepts(s.props.m[k], c[k], env) {
        CleanedField(s, v, k, env);
        FieldCleaned(s, k, v.fields[k], env);
      }
    }
    EnoughFields(s, c, env);
  }

  /** Whatever the upstream answers within the strict schema is turned into something the client's
      own schema accepts. */
  lemma StrictThenClean(s: Schema, v: Json, env: Env)
    requires Strict(s, env).Some? && Fragment(s) && Accepts(Strict(s, env).value, v, env)
    ensures Accepts(s, Clean(v, s, Strict(s, env).value, env), env)
  {
    hide Strict, Accepts, Clean, Fragment;
    if v.Null? { ScalarSame(s, v, env); }
    CleanAccepted(s, Strict(s, env).value, v, env);
  }

  // ----- and back -----

  /** Puts the missing properties back as null. */
  function Fill(v: Json, s: Schema): Json
    decreases s
  {
    if v.Obj? && s.props.Props? then
      Obj(map k | k in v.fields.Keys + s.props.m.Keys ::
            if k !in v.fields then Null
            else if k in s.props.m then Fill(v.fields[k], s.props.m[k])
            else v.fields[k])
    else if v.Arr? && s.items.Items? then
      Arr(seq(|v.elems|, i requires 0 <= i < |v.elems| => Fill(v.elems[i], s.items.schema)))
    else v
  }

  predicate NoUnions(s: Schema)
    decreases s
  {
    && s.anyOf.NoAlts?
    && (s.props.Props? ==> forall k | k in s.props.m :: NoUnions(s.props.m[k]))
    && (s.items.Items? ==> NoUnions(s.items.schema))
  }

  /** The property k of the strict form accepts w. */
  predicate StrictProp(s: Schema, k: string, w: Json, env: Env)
    requires Strict(s, env).Some? && k in PropsOf(s)
  {
    var t, child := Strict(s, env).value, PropsOf(s)[k];
    && k in PropsOf(t) && Strict(child, env).Some? && Accepts(PropsOf(t)[k], w, env)
    && (PropsOf(t)[k] == Strict(child, env).value
        || (k !in s.required && PropsOf(t)[k] == MakeNullable(Strict(child, env).value, env)))
  }

  /** An object the strict schema accepts has exactly its properties, each accepted. */
  lemma StrictObject(s: Schema, v: Json, env: Env)
    requires Strict(s, env).Some? && v.Obj? && HasType(s.types, ObjectType) && Accepts(Strict(s, env).value, v, env)
    ensures v.fields.Keys == PropsOf(s).Keys
    ensures forall k | k in PropsOf(s) :: StrictProp(s, k, v.fields[k], env)
  {
    StrictProps(s, env);
    hide MakeNullable, Strict;
    var t := Strict(s, env).value;
    assert AcceptsProps(t, t.props.m, v.fields, env);
  }

  lemma StrictArray(s: Schema, v: Json, env: Env)
    requires Strict(s, env).Some? && v.Arr? && s.items.Items? && Accepts(Strict(s, env).value, v, env)
    ensures Strict(s.items.schema, env).Some? && Strict(s, env).value.items == Items(Strict(s.items.schema, env).value)
    ensures forall i | 0 <= i < |v.elems| :: Accepts(Strict(s.items.schema, env).value, v.elems[i], env)
  {
    StrictParts(s, env);
    hide MakeNullable, Strict;
  }

  /** What the strict schema accepts has no missing property anywhere. */
  lemma {:induction false} NothingMissing(s: Schema, u: Schema, v: Json, env: Env)
    requires Strict(s, env).Some? && NoUnions(s)
    requires u == Strict(s, env).value || u == MakeNullable(Strict(s, env).value, env)
    requires Accepts(u, v, env)
    ensures Fill(v, s) == v
    decreases s, 1
  {
    if u != Strict(s, env).value { NullOnlyNull(Strict(s, env).value, v, env); }
    PropsOnlyOnObjects(s);
    hide Strict, Accepts, MakeNullable, KeywordsFit;
    StrictParts(s, env);
    if v.Obj? && s.props.Props? {
      FieldsPresent(s, v, env);
    } else if v.Arr? && s.items.Items? {
      ElementsPresent(s, v, env);
    }
  }

  lemma FieldsPresent(s: Schema, v: Json, env: Env)
    requires Strict(s, env).Some? && NoUnions(s) && v.Obj? && s.props.Props? && HasType(s.types, ObjectType)
    requires Accepts(Strict(s, env).value, v, env)
    ensures Fill(v, s) == v
    decreases s, 0
  {
    StrictObject(s, v, env);
    assert forall k | k in s.props.m :: NoUnions(s.props.m[k]);
    assert PropsOf(s) == s.props.m;
    hide *;
    forall k | k in s.props.m ensures k in v.fields && Fill(v.fields[k], s.props.m[k]) == v.fields[k] {
      FieldFillable(s, k, v.fields[k], env);
      NothingMissing(s.props.m[k], PropsOf(Strict(s, env).value)[k], v.fields[k], env);
    }
    FilledFields(s, v.fields, v.fields);
  }

  lemma ElementsPresent(s: Schema, v: Json, env: Env)
    requires Strict(s, env).Some? && NoUnions(s) && v.Arr? && s.items.Items?
    requires Accepts(Strict(s, env).value, v, env)
    ensures Fill(v, s) == v
    decreases s, 0
  {
    StrictArray(s, v, env);
    hide Strict, Accepts, MakeNullable;
    forall i | 0 <= i < |v.elems| ensures Fill(v.elems[i], s.items.schema) == v.elems[i] {
      NothingMissing(s.items.schema, Strict(s.items.schema, env).value, v.elems[i], env);
    }
    assert Fill(v, s).elems == v.elems;
  }

  /** Cleaning loses nothing: without unions the strict value comes back when the missing
      properties are filled in with null. */
  lemma {:induction false} FillRestores(s: Schema, u: Schema, v: Json, env: Env)
    requires Strict(s, env).Some? && Fragment(s) && NoUnions(s)
    requires u == Strict(s, env).value || u == MakeNullable(Strict(s, env).value, env)
    requires Accepts(u, v, env) && (v.Null? ==> Accepts(s, Null, env))
    ensures Fill(Clean(v, s, u, env), s) == v
    decreases s, 1, 0
  {
    hide Strict, Accepts, MakeNullable, KeywordsFit, Unwrap, Fill, Fragment, CleanParts;
    if Accepts(s, v, env) {
      NothingMissing(s, u, v, env);
    } else {
      UnwrapGivesStrict(s, u, v, env);
      PartsCleaned(s, v, env);
      PartsRestored(s, v, env);
    }
  }

  lemma PartsRestored(s: Schema, v: Json, env: Env)
    requires Strict(s, env).Some? && Fragment(s) && NoUnions(s)
    requires Accepts(Strict(s, env).value, v, env) && !Accepts(s, v, env)
    ensures Fill(CleanParts(v, s, Strict(s, env).value, env), s) == v
    decreases s, 0, 1
  {
    if Scalar(v) { ScalarSame(s, v, env); }
    StrictParts(s, env);
    PropsOnlyOnObjects(s);
    hide Strict, Accepts, MakeNullable, KeywordsFit, Clean, Fragment, NoUnions;
    if v.Obj? && s.props.Props? {
      FieldsRestored(s, v, env);
    } else if v.Arr? && s.items.Items? {
      ElementsRestored(s, v, env);
    } else if v.Obj? {
      assert CleanParts(v, s, Strict(s, env).value, env).fields == v.fields;
    }
  }

  lemma FieldsRestored(s: Schema, v: Json, env: Env)
    requires Strict(s, env).Some? && Fragment(s) && NoUnions(s) && v.Obj? && s.props.Props?
    requires HasType(s.types, ObjectType) && Accepts(Strict(s, env).value, v, env)
    ensures Fill(CleanParts(v, s, Strict(s, env).value, env), s) == v
    decreases s, 0, 0
  {
    assert forall k | k in s.props.m :: Fragment(s.props.m[k]) && NoUnions(s.props.m[k]);
    assert PropsOf(s) == s.props.m;
    hide *;
    var t := Strict(s, env).value;
    CleanedKeys(s, v, env);
    var c := CleanParts(v, s, t, env);
    forall k | k in s.props.m
      ensures if k in c.fields then Fill(c.fields[k], s.props.m[k]) == v.fields[k] else v.fields[k].Null?
    {
      CleanedField(s, v, k, env);
      FieldFillable(s, k, v.fields[k], env);
      if k in c.fields {
        FillRestores(s.props.m[k], PropsOf(t)[k], v.fields[k], env);
      }
    }
    FilledFields(s, c.fields, v.fields);
  }

  lemma FilledFields(s: Schema, c: Fields, v: Fields)
    requires s.props.Props? && c.Keys <= v.Keys == s.props.m.Keys
    requires forall k | k in s.props.m :: if k in c then Fill(c[k], s.props.m[k]) == v[k] else v[k].Null?
    ensures Fill(Obj(c), s) == Obj(v)
  {
    assert Fill(Obj(c), s).fields == v;
  }

  lemma FieldFillable(s: Schema, k: string, w: Json, env: Env)
    requires Strict(s, env).Some? && s.props.Props? && k in s.props.m && StrictProp(s, k, w, env)
    ensures var t, child := Strict(s, env).value, s.props.m[k];
      && k in PropsOf(t) && Strict(child, env).Some? && Accepts(PropsOf(t)[k], w, env)
      && (PropsOf(t)[k] == Strict(child, env).value || PropsOf(t)[k] == MakeNullable(Strict(child, env).value, env))
      && (w.Null? && !Dropped(s, t, k, w, env) ==> Accepts(child, Null, env))
      && (Dropped(s, t, k, w, env) ==> w.Null?)
  {
    ScalarSame(s.props.m[k], Null, env);
    hide Strict, Accepts, MakeNullable;
  }

  lemma ElementsRestored(s: Schema, v: Json, env: Env)
    requires Strict(s, env).Some? && Fragment(s) && NoUnions(s) && v.Arr? && s.items.Items?
    requires Accepts(Strict(s, env).value, v, env)
    ensures Fill(CleanParts(v, s, Strict(s, env).value, env), s) == v
    decreases s, 0, 0
  {
    StrictArray(s, v, env);
    hide Strict, Accepts, MakeNullable, Clean;
    var c := CleanParts(v, s, Strict(s, env).value, env);
    forall i | 0 <= i < |v.elems| ensures Fill(c.elems[i], s.items.schema) == v.elems[i] {
      if v.elems[i].Null? { ScalarSame(s.items.schema, Null, env); }
      FillRestores(s.items.schema, Strict(s.items.schema, env).value, v.elems[i], env);
    }
    assert Fill(c, s).elems == v.elems;
  }

  /** Only declared properties, at every level. */
  predicate NoExtras(w: Json, s: Schema)
    decreases s
  {
    && (w.Obj? && HasType(s.types, ObjectType) ==>
          forall k | k in w.fields :: s.props.Props? && k in s.props.m && NoExtras(w.fields[k], s.props.m[k]))
    && (w.Arr? && s.items.Items? ==> forall i | 0 <= i < |w.elems| :: NoExtras(w.elems[i], s.items.schema))
  }

  lemma NullableAcceptsMore(t: Schema, v: Json, env: Env)
    ensures Accepts(MakeNullable(t, env), Null, env)
    ensures Accepts(t, v, env) ==> Accepts(MakeNullable(t, env), v, env)
  {
    NullOnlyNull(t, v, env);
    var n := ANYTHING.(anyOf := Alts([t, NULL_ONLY]));
    assert n.anyOf.s[0] == t;
  }

  /** The strict schema leaves nothing out: every value of the client's schema with only declared
      properties is accepted once its missing properties are filled in. */
  lemma {:induction false} FilledIsStrict(s: Schema, w: Json, env: Env)
    requires Strict(s, env).Some? && Fragment(s) && NoUnions(s) && Accepts(s, w, env) && NoExtras(w, s)
    ensures Accepts(Strict(s, env).value, Fill(w, s), env)
    decreases s, 1
  {
    StrictParts(s, env);
    PropsOnlyOnObjects(s);
    hide Strict, MakeNullable, Accepts, Fill, Fragment, NoUnions, NoExtras, KeywordsFit;
    if Scalar(w) {
      ScalarSame(s, w, env);
      ScalarUnfilled(w, s);
    } else if w.Obj? {
      FilledObject(s, w, env);
    } else {
      FilledArray(s, w, env);
    }
  }

  lemma ScalarUnfilled(w: Json, s: Schema)
    requires Scalar(w)
    ensures Fill(w, s) == w
  {}

  lemma FilledArray(s: Schema, w: Json, env: Env)
    requires Strict(s, env).Some? && Fragment(s) && NoUnions(s) && Accepts(s, w, env) && NoExtras(w, s) && w.Arr?
    ensures Accepts(Strict(s, env).value, Fill(w, s), env)
    decreases s, 0
  {
    StrictParts(s, env);
    SameWhole(s, env, w);
    SameWhole(s, env, Fill(w, s));
    hide Strict, MakeNullable;
    if s.items.Items? {
      WholeKept(s, w, Fill(w, s), env);
      forall i | 0 <= i < |w.elems| ensures Accepts(Strict(s.items.schema, env).value, Fill(w, s).elems[i], env) {
        FilledIsStrict(s.items.schema, w.elems[i], env);
      }
    }
  }

  lemma FilledObject(s: Schema, w: Json, env: Env)
    requires Strict(s, env).Some? && Fragment(s) && NoUnions(s) && Accepts(s, w, env) && NoExtras(w, s) && w.Obj?
    ensures Accepts(Strict(s, env).value, Fill(w, s), env)
    decreases s, 0
  {
    StrictParts(s, env);
    SameWhole(s, env, w);
    SameWhole(s, env, Fill(w, s));
    if HasType(s.types, ObjectType) {
      StrictProps(s, env);
      WholeKept(s, w, Fill(w, s), env);
      hide Strict, MakeNullable, KeywordsFit, AcceptsWhole;
      var t, f := Strict(s, env).value, Fill(w, s);
      forall k | k in t.props.m ensures k in f.fields && Accepts(t.props.m[k], f.fields[k], env) {
        FilledField(s, w.fields, k, env);
      }
      assert AcceptsFields(t, f.fields, env);
    } else {
      hide Strict, MakeNullable, AcceptsWhole;
    }
  }

  lemma FilledField(s: Schema, w: Fields, k: string, env: Env)
    requires Strict(s, env).Some? && Fragment(s) && NoUnions(s) && HasType(s.types, ObjectType)
    requires Accepts(s, Obj(w), env) && NoExtras(Obj(w), s) && k in PropsOf(s)
    ensures s.props.Props? && Fill(Obj(w), s).Obj? && k in PropsOf(Strict(s, env).value) && k in Fill(Obj(w), s).fields
    ensures Accepts(PropsOf(Strict(s, env).value)[k], Fill(Obj(w), s).fields[k], env)
    decreases s, 0, k
  {
    StrictProps(s, env);
    assert AcceptsProps(s, s.props.m, w, env);
    var child := s.props.m[k];
    assert k in w ==> Accepts(child, w[k], env) && NoExtras(w[k], child);
    assert k in s.required ==> k in w;
    assert Fragment(child) && NoUnions(child);
    hide Strict, MakeNullable, Accepts, Fragment, NoUnions, NoExtras;
    var t := Strict(child, env).value;
    if k in w {
      FilledIsStrict(child, w[k], env);
      NullableAcceptsMore(t, Fill(w[k], child), env);
    } else {
      NullableAcceptsMore(t, Null, env);
    }
  }
}
