/** What the round trip through the strict form does to a value, told apart from how
    removeOptionalNullProperties (internal/anthropic/response.go) finds it; and where the round trip
    fails, exactly. */
module StrictExceptions {
  import opened Text
  import opened Json
  import opened Schemas
  import opened StrictSchemas

  // ----- dropping the optional nulls -----

  /** An optional property that must not be null. */
  predicate NotNullable(s: Schema, k: string, env: Env) {
    s.props.Props? && k in s.props.m && k !in s.required && !Accepts(s.props.m[k], Null, env)
  }

  /** Takes every null out that stands for a missing property. Under anyOf, a value that no alternative
      accepts is read as the first whose strict form accepts it. */
  function Drop(v: Json, s: Schema, env: Env): Json
    decreases s, 1, 0
  {
    if s.anyOf.Alts? then
      if exists i | 0 <= i < |s.anyOf.s| :: Accepts(s.anyOf.s[i], v, env) then v else DropFirst(v, s, 0, env)
    else if v.Obj? && s.props.Props? then
      Obj(map k | k in v.fields && !(v.fields[k].Null? && NotNullable(s, k, env)) ::
            if k in s.props.m then Drop(v.fields[k], s.props.m[k], env) else v.fields[k])
    else if v.Arr? && s.items.Items? then
      Arr(seq(|v.elems|, i requires 0 <= i < |v.elems| => Drop(v.elems[i], s.items.schema, env)))
    else v
  }

  predicate StrictAccepts(s: Schema, v: Json, env: Env) {
    Strict(s, env).Some? && Accepts(Strict(s, env).value, v, env)
  }

  function DropFirst(v: Json, s: Schema, i: nat, env: Env): Json
    requires s.anyOf.Alts? && i <= |s.anyOf.s|
    decreases s, 0, |s.anyOf.s| - i
  {
    if i == |s.anyOf.s| then v
    else if StrictAccepts(s.anyOf.s[i], v, env) then Drop(v, s.anyOf.s[i], env)
    else DropFirst(v, s, i + 1, env)
  }

  /** What the schema accepts has nothing to be dropped. */
  lemma {:induction false} NothingToDrop(s: Schema, v: Json, env: Env)
    requires Strict(s, env).Some? && Accepts(s, v, env)
    ensures Drop(v, s, env) == v
    decreases s
  {
    StrictParts(s, env);
    hide Strict, KeywordsFit, MakeNullable;
    if s.anyOf.Alts? {
      assert AcceptsAlternatives(s, v, env);
    } else if v.Obj? && s.props.Props? {
      FieldsAccepted(s, v, env);
      hide Accepts;
      assert Drop(v, s, env).fields == v.fields;
    } else if v.Arr? && s.items.Items? {
      assert PrefixLength(s) == 0;
      assert forall i | 0 <= i < |v.elems| :: Accepts(s.items.schema, v.elems[i], env);
      hide Accepts;
      forall i | 0 <= i < |v.elems| ensures Drop(v.elems[i], s.items.schema, env) == v.elems[i] {
        NothingToDrop(s.items.schema, v.elems[i], env);
      }
      assert Drop(v, s, env).elems == v.elems;
    }
  }

  lemma FieldsAccepted(s: Schema, v: Json, env: Env)
    requires Strict(s, env).Some? && Accepts(s, v, env) && s.props.Props? && v.Obj?
    ensures forall k | k in v.fields && k in s.props.m :: Accepts(s.props.m[k], v.fields[k], env) && Drop(v.fields[k], s.props.m[k], env) == v.fields[k]
    decreases s, 0
  {
    assert AcceptsProps(s, s.props.m, v.fields, env);
    forall k | k in v.fields && k in s.props.m ensures Drop(v.fields[k], s.props.m[k], env) == v.fields[k] {
      assert Strict(s.props.m[k], env).Some?;
      NothingToDrop(s.props.m[k], v.fields[k], env);
    }
  }

  /** In the fragment, cleaning what the strict schema accepts drops the optional nulls and does nothing
      else. */
  lemma {:induction false} CleanIsDrop(s: Schema, u: Schema, v: Json, env: Env)
    requires Strict(s, env).Some? && Fragment(s)
    requires u == Strict(s, env).value || u == MakeNullable(Strict(s, env).value, env)
    requires Accepts(u, v, env) && (v.Null? ==> Accepts(s, Null, env))
    ensures Clean(v, s, u, env) == Drop(v, s, env)
    decreases s, 4, 0
  {
    hide MakeNullable, Strict, Accepts, Unwrap, Fragment, Drop;
    if Accepts(s, v, env) {
      NothingToDrop(s, v, env);
    } else {
      UnwrapGivesStrict(s, u, v, env);
      var t := Strict(s, env).value;
      if s.anyOf.Alts? {
        UnionDropped(s, v, env);
      } else {
        PartsCleaned(s, v, env);
        PartsDropped(s, v, env);
      }
    }
  }

  lemma UnionDropped(s: Schema, v: Json, env: Env)
    requires Strict(s, env).Some? && Fragment(s) && s.anyOf.Alts?
    requires Accepts(Strict(s, env).value, v, env) && !Accepts(s, v, env)
    ensures CleanAlternatives(v, s, Strict(s, env).value, 0, env) == Some(Drop(v, s, env))
    decreases s, 3, 0
  {
    hide *;
    NoneAccepts(s, v, env);
    var i := SomeStrictAccepts(s, v, env);
    FirstDropped(s, v, 0, i, env);
    DropIsFirst(s, v, env);
  }

  lemma NoneAccepts(s: Schema, v: Json, env: Env)
    requires Strict(s, env).Some? && Fragment(s) && s.anyOf.Alts?
    requires Accepts(Strict(s, env).value, v, env) && !Accepts(s, v, env)
    ensures forall i | 0 <= i < |s.anyOf.s| :: !Accepts(s.anyOf.s[i], v, env)
  {
    BareWhereCleaned(s, v, env);
    hide Strict, Fragment, KeywordsFit, Accepts, Supported;
    forall i | 0 <= i < |s.anyOf.s| ensures !Accepts(s.anyOf.s[i], v, env) {
      if Accepts(s.anyOf.s[i], v, env) { BareUnion(s, v, i, env); }
    }
  }

  lemma SomeStrictAccepts(s: Schema, v: Json, env: Env) returns (i: nat)
    requires Strict(s, env).Some? && s.anyOf.Alts? && Accepts(Strict(s, env).value, v, env)
    ensures i < |s.anyOf.s| && StrictAccepts(s.anyOf.s[i], v, env)
  {
    StrictParts(s, env);
    var t := Strict(s, env).value;
    assert AcceptsAlternatives(t, v, env);
    hide Strict, KeywordsFit, Accepts;
    i :| 0 <= i < |t.anyOf.s| && Accepts(t.anyOf.s[i], v, env);
  }

  lemma DropIsFirst(s: Schema, v: Json, env: Env)
    requires s.anyOf.Alts? && forall i | 0 <= i < |s.anyOf.s| :: !Accepts(s.anyOf.s[i], v, env)
    ensures Drop(v, s, env) == DropFirst(v, s, 0, env)
  {
    hide Accepts, DropFirst;
  }

  lemma FirstDropped(s: Schema, v: Json, j: nat, i: nat, env: Env)
    requires Strict(s, env).Some? && Fragment(s) && s.anyOf.Alts? && forall n | 0 <= n < |s.anyOf.s| :: !Accepts(s.anyOf.s[n], v, env)
    requires j <= i < |s.anyOf.s| && StrictAccepts(s.anyOf.s[i], v, env)
    ensures CleanAlternatives(v, s, Strict(s, env).value, j, env) == Some(DropFirst(v, s, j, env))
    decreases s, 2, i - j
  {
    StrictParts(s, env);
    hide Strict, Accepts, MakeNullable, Unwrap, KeywordsFit, Clean, Drop;
    var t, child := Strict(s, env).value, s.anyOf.s[j];
    if Accepts(t.anyOf.s[j], v, env) {
      if v.Null? { ScalarSame(child, v, env); }
      CleanAccepted(child, t.anyOf.s[j], v, env);
      CleanIsDrop(child, t.anyOf.s[j], v, env);
    } else {
      FirstDropped(s, v, j + 1, i, env);
    }
  }

  lemma PartsDropped(s: Schema, v: Json, env: Env)
    requires Strict(s, env).Some? && Fragment(s) && s.anyOf.NoAlts? && Accepts(Strict(s, env).value, v, env)
    ensures CleanParts(v, s, Strict(s, env).value, env) == Drop(v, s, env)
    decreases s, 3, 0
  {
    StrictParts(s, env);
    PropsOnlyOnObjects(s);
    hide MakeNullable, Fragment, Accepts, Strict, Clean, KeywordsFit;
    var t := Strict(s, env).value;
    if v.Obj? && s.props.Props? {
      FieldsDropped(s, v, env);
    } else if v.Obj? {
      assert CleanParts(v, s, t, env).fields == v.fields;
    } else if v.Arr? && s.items.Items? {
      ElementsDropped(s, v, env);
    }
  }

  lemma ElementsDropped(s: Schema, v: Json, env: Env)
    requires Strict(s, env).Some? && v.Arr? && s.items.Items? && Fragment(s.items.schema)
    requires Accepts(Strict(s, env).value, v, env)
    ensures CleanParts(v, s, Strict(s, env).value, env) == Drop(v, s.(anyOf := NoAlts), env)
    decreases s, 2, 0
  {
    StrictArray(s, v, env);
    hide Strict, Accepts, MakeNullable, Clean, Fragment;
    var t := Strict(s, env).value;
    forall i | 0 <= i < |v.elems|
      ensures Clean(v.elems[i], s.items.schema, t.items.schema, env) == Drop(v.elems[i], s.items.schema, env)
    {
      if v.elems[i].Null? { ScalarSame(s.items.schema, Null, env); }
      CleanIsDrop(s.items.schema, t.items.schema, v.elems[i], env);
    }
    assert CleanParts(v, s, t, env).elems == Drop(v, s.(anyOf := NoAlts), env).elems;
  }

  lemma FieldsDropped(s: Schema, v: Json, env: Env)
    requires Strict(s, env).Some? && Fragment(s) && s.anyOf.NoAlts? && v.Obj? && s.props.Props? && HasType(s.types, ObjectType)
    requires Accepts(Strict(s, env).value, v, env)
    ensures CleanParts(v, s, Strict(s, env).value, env) == Drop(v, s, env)
    decreases s, 2, 0
  {
    StrictObject(s, v, env);
    assert forall k | k in s.props.m :: Fragment(s.props.m[k]);
    hide *;
    CleanedKeys(s, v, env);
    var t := Strict(s, env).value;
    var c := CleanParts(v, s, t, env);
    forall k | k in v.fields
      ensures k in s.props.m && (k in c.fields <==> !(v.fields[k].Null? && NotNullable(s, k, env)))
      ensures k in c.fields ==> c.fields[k] == Drop(v.fields[k], s.props.m[k], env)
    {
      assert PropsOf(s) == s.props.m by { PropsAre(s); }
      CleanedField(s, v, k, env);
      FieldFillable(s, k, v.fields[k], env);
      DroppedIs(s, k, v.fields[k], env);
      if k in c.fields { CleanIsDrop(s.props.m[k], PropsOf(t)[k], v.fields[k], env); }
    }
    DroppedFields(v.fields, c.fields, s, env);
  }

  lemma PropsAre(s: Schema)
    requires s.props.Props?
    ensures PropsOf(s) == s.props.m
  {}

  lemma DroppedIs(s: Schema, k: string, w: Json, env: Env)
    requires s.props.Props? && k in s.props.m && Strict(s, env).Some? && StrictProp(s, k, w, env)
    ensures Dropped(s, Strict(s, env).value, k, w, env) <==> w.Null? && NotNullable(s, k, env)
  {
    hide Accepts, Strict, MakeNullable;
  }

  lemma DroppedFields(v: Fields, c: Fields, s: Schema, env: Env)
    requires s.props.Props? && s.anyOf.NoAlts? && c.Keys <= v.Keys
    requires forall k | k in v :: k in s.props.m && (k in c <==> !(v[k].Null? && NotNullable(s, k, env)))
    requires forall k | k in v && k in s.props.m && k in c :: c[k] == Drop(v[k], s.props.m[k], env)
    ensures Obj(c) == Drop(Obj(v), s, env)
  {
    hide NotNullable;
    assert c == Drop(Obj(v), s, env).fields;
  }

  // ----- enumerations -----

  const TEXT: Schema := ANYTHING.(types := Single(StringType))

  function ObjectWith(k: string, child: Schema): Schema {
    ANYTHING.(types := Single(ObjectType), props := Props(map[k := child]))
  }

  /** An enumeration on an object node breaks the round trip: when the only listed value is the
      object with a null, the strict schema accepts it, the client's schema does not, and cleaning
      it cannot help. */
  lemma EnumeratedObjectFails(k: string, env: Env)
    requires forall v :: env.enum(0, v) <==> v == Obj(map[k := Null])
    ensures var s, v := ObjectWith(k, TEXT).(enum := Some(0)), Obj(map[k := Null]);
      && Strict(s, env).Some? && Accepts(Strict(s, env).value, v, env)
      && !Accepts(s, Clean(v, s, Strict(s, env).value, env), env)
  {
    var s, v := ObjectWith(k, TEXT).(enum := Some(0)), Obj(map[k := Null]);
    EnumeratedStrict(k, env);
    var t := Strict(s, env).value;
    hide Strict, Clean, Accepts;
    EnumeratedAccepts(k, t, env);
    NothingEnumerated(k, Clean(v, s, t, env), env);
  }

  lemma EnumeratedAccepts(k: string, t: Schema, env: Env)
    requires var props := map[k := MakeNullable(TEXT, env)];
      t == ObjectWith(k, TEXT).(enum := Some(0), props := Props(props), required := props.Keys, additional := Closed)
    requires env.enum(0, Obj(map[k := Null]))
    ensures Accepts(t, Obj(map[k := Null]), env)
  {
    NullableAcceptsMore(TEXT, Null, env);
    hide MakeNullable;
    assert AcceptsProps(t, t.props.m, map[k := Null], env);
  }

  lemma NothingEnumerated(k: string, c: Json, env: Env)
    requires forall v :: env.enum(0, v) <==> v == Obj(map[k := Null])
    ensures !Accepts(ObjectWith(k, TEXT).(enum := Some(0)), c, env)
  {
    var s := ObjectWith(k, TEXT).(enum := Some(0));
    if c == Obj(map[k := Null]) {
      assert !Accepts(s.props.m[k], c.fields[k], env);
      assert !AcceptsProps(s, s.props.m, c.fields, env);
    } else {
      assert !env.enum(0, c);
      assert !AcceptsWhole(s, c, env);
    }
  }

  lemma EnumeratedStrict(k: string, env: Env)
    ensures var s, props := ObjectWith(k, TEXT).(enum := Some(0)), map[k := MakeNullable(TEXT, env)];
      Strict(s, env) == Some(s.(props := Props(props), required := props.Keys, additional := Closed))
  {
    hide MakeNullable, Accepts;
    var s := ObjectWith(k, TEXT).(enum := Some(0));
    assert Strict(TEXT, env) == Some(TEXT);
    assert s.props.m[k] == TEXT;
    assert Strict(s, env).Some?;
    assert PropsOf(Strict(s, env).value) == map[k := MakeNullable(TEXT, env)];
  }

  /** What the strict form of a schema without its enumeration is. */
  lemma WithoutEnum(s: Schema, env: Env)
    requires Strict(s, env).Some?
    ensures var s0 := s.(enum := None); Strict(s0, env) == Some(Strict(s, env).value.(enum := None))
  {
    hide MakeNullable;
    var s0 := s.(enum := None);
    assert KeywordsFit(s0) && Supported(s0);
  }

  lemma EnumOnTop(s: Schema, v: Json, env: Env)
    requires s.enum.Some?
    ensures Accepts(s, v, env) <==> Accepts(s.(enum := None), v, env) && env.enum(s.enum.value, v)
  {
    var s0 := s.(enum := None);
    assert AcceptsWhole(s, v, env) <==> AcceptsWhole(s0, v, env) && env.enum(s.enum.value, v);
    hide AcceptsWhole;
    assert v.Obj? ==> (AcceptsFields(s, v.fields, env) <==> AcceptsFields(s0, v.fields, env));
    assert v.Arr? ==> (AcceptsElements(s, v.elems, env) <==> AcceptsElements(s0, v.elems, env));
    assert AcceptsAlternatives(s, v, env) <==> AcceptsAlternatives(s0, v, env);
  }

  /** Cleaning looks at the parts of a schema, whatever is enumerated on top. */
  lemma {:induction false} SameAlternatives(v: Json, s: Schema, s0: Schema, u: Schema, u0: Schema, i: nat, env: Env)
    requires s0 == s.(enum := None) && u0.anyOf == u.anyOf && s.anyOf.Alts? && i <= |s.anyOf.s|
    ensures CleanAlternatives(v, s, u, i, env) == CleanAlternatives(v, s0, u0, i, env)
    decreases |s.anyOf.s| - i
  {
    hide Clean, Accepts;
    if i < |s.anyOf.s| { SameAlternatives(v, s, s0, u, u0, i + 1, env); }
  }

  lemma SameParts(v: Json, s: Schema, s0: Schema, u: Schema, u0: Schema, env: Env)
    requires s0 == s.(enum := None) && u0.props == u.props && u0.items == u.items
    ensures CleanParts(v, s, u, env) == CleanParts(v, s0, u0, env)
  {
    hide Clean, Accepts;
  }

  /** An enumeration on top makes no difference to what is dropped. */
  lemma DropsAlike(s: Schema, v: Json, env: Env)
    ensures Drop(v, s.(enum := None), env) == Drop(v, s, env)
  {
    hide Accepts, StrictAccepts;
    if s.anyOf.Alts? { DropsFirstAlike(s, v, 0, env); }
  }

  lemma {:induction false} DropsFirstAlike(s: Schema, v: Json, i: nat, env: Env)
    requires s.anyOf.Alts? && i <= |s.anyOf.s|
    ensures DropFirst(v, s.(enum := None), i, env) == DropFirst(v, s, i, env)
    decreases |s.anyOf.s| - i
  {
    hide Drop, StrictAccepts;
    if i < |s.anyOf.s| { DropsFirstAlike(s, v, i + 1, env); }
  }

  /** For a node with an enumeration, in a schema that is in the fragment otherwise: what the strict
      schema accepts is turned into something the client's schema accepts exactly when the value with the
      optional nulls dropped is listed too. */
  lemma EnumeratedExactly(s: Schema, v: Json, env: Env)
    requires s.enum.Some? && Strict(s, env).Some? && Accepts(Strict(s, env).value, v, env) && Fragment(s.(enum := None))
    ensures Accepts(s, Clean(v, s, Strict(s, env).value, env), env) <==> env.enum(s.enum.value, Drop(v, s, env))
  {
    WithoutEnum(s, env);
    StrictKeepsEnum(s, env);
    var s0, t := s.(enum := None), Strict(s, env).value;
    var t0 := t.(enum := None);
    EnumOnTop(t, v, env);
    EnumOnTop(s, v, env);
    hide Strict, Accepts, Clean, Fragment, Drop;
    if !Accepts(s, v, env) {
      StrictThenClean(s0, v, env);
      EnumeratedCleaned(s, v, env);
      EnumOnTop(s, Clean(v, s0, t0, env), env);
      EnumOnTop(s, Clean(v, s, t, env), env);
      if v.Null? { ScalarSame(s0, v, env); }
      CleanIsDrop(s0, t0, v, env);
      DropsAlike(s, v, env);
    } else {
      CleanLeavesAccepted(s, v, t, env);
      NothingToDrop(s, v, env);
    }
  }

  /** So the round trip works for such a node exactly when what it lists is closed under dropping. */
  lemma EnumerationExactly(s: Schema, env: Env)
    requires s.enum.Some? && Strict(s, env).Some? && Fragment(s.(enum := None))
    ensures (forall v | StrictAccepts(s, v, env) :: Accepts(s, Clean(v, s, Strict(s, env).value, env), env))
      <==> (forall v | env.enum(s.enum.value, v) && StrictAccepts(s.(enum := None), v, env) :: env.enum(s.enum.value, Drop(v, s, env)))
  {
    WithoutEnum(s, env);
    StrictKeepsEnum(s, env);
    hide Strict, Accepts, Clean, Fragment, Drop;
    forall v ensures StrictAccepts(s, v, env) <==> env.enum(s.enum.value, v) && StrictAccepts(s.(enum := None), v, env) {
      EnumOnTop(Strict(s, env).value, v, env);
    }
    forall v | StrictAccepts(s, v, env)
      ensures Accepts(s, Clean(v, s, Strict(s, env).value, env), env) <==> env.enum(s.enum.value, Drop(v, s, env))
    {
      EnumeratedExactly(s, v, env);
    }
  }

  lemma UnwrapsNothing(s: Schema, v: Json, env: Env)
    requires Strict(s, env).Some?
    ensures Unwrap(s, Strict(s, env).value, v, env) == Strict(s, env).value
  {
    ScalarSame(s, Null, env);
    hide Strict, Accepts;
  }

  /** A value that has to be cleaned: the same is done with and without the enumeration, up to the last
      test of the result. */
  lemma EnumeratedCleaned(s: Schema, v: Json, env: Env)
    requires s.enum.Some? && Strict(s, env).Some? && !Accepts(s, v, env) && !Accepts(s.(enum := None), v, env)
    requires Strict(s.(enum := None), env) == Some(Strict(s, env).value.(enum := None))
    requires var s0 := s.(enum := None); Accepts(s0, Clean(v, s0, Strict(s0, env).value, env), env)
    ensures var s0 := s.(enum := None);
      Accepts(s, Clean(v, s, Strict(s, env).value, env), env)
      <==> env.enum(s.enum.value, Clean(v, s0, Strict(s0, env).value, env))
  {
    var s0, t := s.(enum := None), Strict(s, env).value;
    var t0 := t.(enum := None);
    UnwrapsNothing(s, v, env);
    UnwrapsNothing(s0, v, env);
    SameParts(v, s, s0, t, t0, env);
    if s.anyOf.Alts? { SameAlternatives(v, s, s0, t, t0, 0, env); }
    EnumOnTop(s, Clean(v, s0, t0, env), env);
    hide Strict, Accepts, Unwrap, CleanParts, CleanAlternatives;
  }

  lemma StrictKeepsEnum(s: Schema, env: Env)
    requires Strict(s, env).Some?
    ensures Strict(s, env).value.enum == s.enum
  {
    hide MakeNullable, KeywordsFit;
  }

  lemma CleanLeavesAccepted(s: Schema, v: Json, t: Schema, env: Env)
    requires Accepts(s, v, env)
    ensures Clean(v, s, t, env) == v
  {}

  // ----- anyOf beside the type array -----

  lemma ArrayOnTop(s: Schema, c: Json, env: Env)
    requires c.Arr? && Supported(s) && KeywordsFit(s) && HasType(s.types, ArrayType) && s.enum.None?
    ensures Accepts(s, c, env) <==> AcceptsElements(s, c.elems, env) && AcceptsAlternatives(s, c, env)
  {
    assert AcceptsWhole(s, c, env);
    hide AcceptsWhole, AcceptsElements, AcceptsAlternatives;
  }

  lemma {:induction false} DropOfArray(v: Json, s: Schema, env: Env)
    requires v.Arr?
    ensures Drop(v, s, env).Arr? && |Drop(v, s, env).elems| == |v.elems|
    decreases s, 1, 0
  {
    hide Accepts, StrictAccepts, DropFirst;
    if s.anyOf.Alts? { FirstOfArray(v, s, 0, env); }
  }

  lemma {:induction false} FirstOfArray(v: Json, s: Schema, i: nat, env: Env)
    requires v.Arr? && s.anyOf.Alts? && i <= |s.anyOf.s|
    ensures DropFirst(v, s, i, env).Arr? && |DropFirst(v, s, i, env).elems| == |v.elems|
    decreases s, 0, |s.anyOf.s| - i
  {
    hide Accepts, StrictAccepts, Drop;
    if i < |s.anyOf.s| {
      DropOfArray(v, s.anyOf.s[i], env);
      FirstOfArray(v, s, i + 1, env);
    }
  }

  /** The elements are cleaned to what the items of the node ask for. */
  lemma ElementsCleaned(s: Schema, v: Json, env: Env)
    requires Strict(s, env).Some? && s.items.Items? && Fragment(s.items.schema) && v.Arr? && Accepts(Strict(s, env).value, v, env)
    ensures var c := CleanParts(v, s, Strict(s, env).value, env); c.Arr? && AcceptsElements(s, c.elems, env)
  {
    StrictArray(s, v, env);
    StrictParts(s, env);
    var t, c := Strict(s, env).value, CleanParts(v, s, Strict(s, env).value, env);
    assert LengthAllowed(t, |v.elems|);
    hide Strict, MakeNullable, Clean, Accepts, Fragment, KeywordsFit;
    forall i | 0 <= i < |v.elems| ensures Accepts(s.items.schema, c.elems[i], env) {
      if v.elems[i].Null? { ScalarSame(s.items.schema, Null, env); }
      CleanAccepted(s.items.schema, t.items.schema, v.elems[i], env);
    }
  }

  /** The first alternative that accepts the value only in its strict form. */
  function FirstStrictOnly(v: Json, alts: seq<Schema>, i: nat, env: Env): nat
    requires i <= |alts|
    decreases |alts| - i
  {
    if i == |alts| || (StrictAccepts(alts[i], v, env) && !Accepts(alts[i], v, env)) then i
    else FirstStrictOnly(v, alts, i + 1, env)
  }

  lemma {:induction false} AlternativeDropped(s: Schema, v: Json, i: nat, env: Env)
    requires Strict(s, env).Some? && s.anyOf.Alts? && i <= |s.anyOf.s| && (forall j | 0 <= j < |s.anyOf.s| :: Fragment(s.anyOf.s[j]))
    ensures var f, alt := FirstStrictOnly(v, s.anyOf.s, i, env), CleanAlternatives(v, s, Strict(s, env).value, i, env);
      && (f >= |s.anyOf.s| ==> alt.None?)
      && (f < |s.anyOf.s| ==> alt == Some(Drop(v, s.anyOf.s[f], env)) && Accepts(s.anyOf.s[f], Drop(v, s.anyOf.s[f], env), env))
    decreases |s.anyOf.s| - i
  {
    hide Strict, Accepts, CleanAlternatives, Drop, Fragment;
    if i < |s.anyOf.s| {
      NextDropped(s, v, i, env);
      AlternativeDropped(s, v, i + 1, env);
      if StrictAccepts(s.anyOf.s[i], v, env) { ChildDropped(s.anyOf.s[i], v, env); }
    } else {
      NoneLeft(s, v, env);
    }
  }

  lemma NoneLeft(s: Schema, v: Json, env: Env)
    requires Strict(s, env).Some? && s.anyOf.Alts?
    ensures CleanAlternatives(v, s, Strict(s, env).value, |s.anyOf.s|, env) == None
  {
    hide Strict, Accepts;
  }

  lemma NextDropped(s: Schema, v: Json, i: nat, env: Env)
    requires Strict(s, env).Some? && s.anyOf.Alts? && i < |s.anyOf.s| && Fragment(s.anyOf.s[i])
    ensures CleanAlternatives(v, s, Strict(s, env).value, i, env)
      == if StrictAccepts(s.anyOf.s[i], v, env) && !Accepts(s.anyOf.s[i], v, env) then Some(Drop(v, s.anyOf.s[i], env))
         else CleanAlternatives(v, s, Strict(s, env).value, i + 1, env)
  {
    StrictAlternatives(s, env);
    hide Strict, Accepts, Clean, Drop, Fragment;
    if StrictAccepts(s.anyOf.s[i], v, env) { ChildDropped(s.anyOf.s[i], v, env); }
  }

  lemma StrictAlternatives(s: Schema, env: Env)
    requires Strict(s, env).Some? && s.anyOf.Alts?
    ensures var t := Strict(s, env).value;
      && t.anyOf.Alts? && |t.anyOf.s| == |s.anyOf.s|
      && forall i | 0 <= i < |s.anyOf.s| :: Strict(s.anyOf.s[i], env).Some? && t.anyOf.s[i] == Strict(s.anyOf.s[i], env).value
  {
    StrictParts(s, env);
    hide Strict, KeywordsFit, Supported;
  }

  lemma ChildDropped(s: Schema, v: Json, env: Env)
    requires StrictAccepts(s, v, env) && Fragment(s)
    ensures var c := Clean(v, s, Strict(s, env).value, env);
      c == Drop(v, s, env) && Accepts(s, c, env) && (c != v <==> !Accepts(s, v, env))
  {
    var t := Strict(s, env).value;
    hide Strict, Accepts, Clean, Drop, Fragment;
    if v.Null? { ScalarSame(s, v, env); }
    CleanAccepted(s, t, v, env);
    CleanIsDrop(s, t, v, env);
    if Accepts(s, v, env) { CleanLeavesAccepted(s, v, t, env); }
  }

  /** For a node with anyOf beside the type array, in a schema that is in the fragment otherwise: an array
      the strict schema accepts is turned into something the client's schema accepts exactly when the
      client's schema accepts it as it is; or the items accept it as dropped by the first alternative that
      accepts it only in its strict form; or, if there is none, some alternative accepts it as dropped by
      the items. */
  lemma BesideArrayExactly(s: Schema, v: Json, env: Env)
    requires Strict(s, env).Some? && s.anyOf.Alts? && HasType(s.types, ArrayType) && s.enum.None?
    requires s.items.Items? && Fragment(s.items.schema) && forall j | 0 <= j < |s.anyOf.s| :: Fragment(s.anyOf.s[j])
    requires v.Arr? && Accepts(Strict(s, env).value, v, env)
    ensures var f := FirstStrictOnly(v, s.anyOf.s, 0, env);
      f < |s.anyOf.s| ==> Drop(v, s.anyOf.s[f], env).Arr?
    ensures var f := FirstStrictOnly(v, s.anyOf.s, 0, env);
      Accepts(s, Clean(v, s, Strict(s, env).value, env), env)
      <==> || Accepts(s, v, env)
           || (if f < |s.anyOf.s| then AcceptsElements(s, Drop(v, s.anyOf.s[f], env).elems, env)
               else AcceptsAlternatives(s, Drop(v, s.(anyOf := NoAlts), env), env))
  {
    var t, f := Strict(s, env).value, FirstStrictOnly(v, s.anyOf.s, 0, env);
    StrictParts(s, env);
    UnwrapsNothing(s, v, env);
    AlternativeDropped(s, v, 0, env);
    ElementsCleaned(s, v, env);
    ElementsDropped(s, v, env);
    var c := CleanParts(v, s, t, env);
    ArrayOnTop(s, v, env);
    ArrayOnTop(s, c, env);
    if f < |s.anyOf.s| {
      DropOfArray(v, s.anyOf.s[f], env);
      ArrayOnTop(s, Drop(v, s.anyOf.s[f], env), env);
      SomeAlternative(s, Drop(v, s.anyOf.s[f], env), env);
    }
    if Accepts(s, v, env) { CleanLeavesAccepted(s, v, t, env); }
    hide Strict, Accepts, Unwrap, CleanParts, CleanAlternatives, AcceptsElements, AcceptsAlternatives, KeywordsFit, Drop, FirstStrictOnly, Fragment;
  }

  lemma SomeAlternative(s: Schema, c: Json, env: Env)
    requires s.anyOf.Alts? && Supported(s) && exists j :: 0 <= j < |s.anyOf.s| && Accepts(s.anyOf.s[j], c, env)
    ensures AcceptsAlternatives(s, c, env)
  {
    hide Accepts;
  }
}
