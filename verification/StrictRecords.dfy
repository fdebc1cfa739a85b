/** Lists of records with anyOf beside the type array: when the round trip through the strict form
    (internal/anthropic/request.go, internal/anthropic/response.go) works, told from the schema alone. */
module StrictRecords {
  import opened Text
  import opened Json
  import opened Schemas
  import opened StrictSchemas
  import opened StrictExceptions

  // ----- records -----

  /** A schema of texts, numbers, booleans or null. */
  predicate Leaf(x: Schema) {
    && Supported(x) && KeywordsFit(x) && x.props.NoProps? && x.anyOf.NoAlts? && !x.types.AnyType?
    && !HasType(x.types, ArrayType) && !HasType(x.types, ObjectType)
  }

  /** A schema of objects with properties of those names and such values. */
  predicate Record(x: Schema, keys: set<string>) {
    && x.types == Single(ObjectType) && x.enum.None? && Supported(x) && KeywordsFit(x)
    && x.props.Props? && x.props.m.Keys == keys && forall k | k in keys :: Leaf(x.props.m[k])
  }

  lemma LeafStrict(x: Schema, env: Env)
    requires Leaf(x)
    ensures Strict(x, env) == Some(x) && Fragment(x) && forall w :: Drop(w, x, env) == w
  {}

  lemma RecordStrict(x: Schema, keys: set<string>, env: Env)
    requires Record(x, keys)
    ensures Strict(x, env).Some? && Fragment(x)
    ensures var t := Strict(x, env).value;
      && t == x.(props := t.props, required := keys, additional := Closed) && t.props.Props? && t.props.m.Keys == keys
      && forall k | k in keys :: t.props.m[k] == if k in x.required then x.props.m[k] else MakeNullable(x.props.m[k], env)
  {
    forall k | k in keys ensures Strict(x.props.m[k], env) == Some(x.props.m[k]) && Fragment(x.props.m[k]) {
      LeafStrict(x.props.m[k], env);
    }
    hide Leaf, MakeNullable, Accepts;
  }

  predicate StrictField(x: Schema, k: string, w: Json, env: Env)
    requires x.props.Props? && k in x.props.m
  {
    Accepts(x.props.m[k], w, env) || (w.Null? && k !in x.required)
  }

  lemma NullableField(x: Schema, w: Json, env: Env)
    ensures Accepts(MakeNullable(x, env), w, env) <==> Accepts(x, w, env) || w.Null?
  {
    NullOnlyNull(x, w, env);
    NullableAcceptsMore(x, w, env);
    hide Accepts;
  }

  lemma ObjectAccepts(t: Schema, o: Json, env: Env)
    requires t.types == Single(ObjectType) && t.enum.None? && Supported(t) && KeywordsFit(t)
    ensures Accepts(t, o, env) <==> o.Obj? && AcceptsFields(t, o.fields, env)
  {
    assert t.facets == map[] by { assert forall f | f in t.facets :: FacetFits(t, f); }
    hide AcceptsFields;
  }

  lemma StrictFits(x: Schema, env: Env)
    requires Strict(x, env).Some?
    ensures Supported(Strict(x, env).value) && (KeywordsFit(x) && x.types == Single(ObjectType) ==> KeywordsFit(Strict(x, env).value))
  {
    hide MakeNullable, Accepts;
  }

  /** What the strict form of a record accepts. */
  lemma RecordTakes(x: Schema, keys: set<string>, o: Json, env: Env)
    requires Record(x, keys)
    ensures StrictAccepts(x, o, env)
      <==> o.Obj? && o.fields.Keys == keys && forall k | k in keys :: StrictField(x, k, o.fields[k], env)
  {
    RecordStrict(x, keys, env);
    StrictFits(x, env);
    var t := Strict(x, env).value;
    hide Strict, MakeNullable, Leaf, Supported, KeywordsFit;
    ObjectAccepts(t, o, env);
    if o.Obj? && o.fields.Keys == keys {
      forall k | k in keys ensures Accepts(t.props.m[k], o.fields[k], env) <==> StrictField(x, k, o.fields[k], env) {
        NullableField(x.props.m[k], o.fields[k], env);
      }
    }
    hide Accepts, StrictField;
  }

  lemma RecordAccepts(x: Schema, keys: set<string>, o: Fields, env: Env)
    requires Record(x, keys) && o.Keys <= keys
    ensures Accepts(x, Obj(o), env) <==> (forall k | k in x.required :: k in o) && forall k | k in o :: Accepts(x.props.m[k], o[k], env)
  {
    ObjectAccepts(x, Obj(o), env);
    hide Accepts, Leaf, Supported, KeywordsFit;
  }

  function WithoutNulls(o: Fields, x: Schema, env: Env): Fields {
    map k | k in o && !(o[k].Null? && NotNullable(x, k, env)) :: o[k]
  }

  lemma RecordDrops(x: Schema, keys: set<string>, o: Fields, env: Env)
    requires Record(x, keys)
    ensures Drop(Obj(o), x, env) == Obj(WithoutNulls(o, x, env))
  {
    forall k, w | k in x.props.m ensures Drop(w, x.props.m[k], env) == w { LeafStrict(x.props.m[k], env); }
    assert x.anyOf.NoAlts?;
    hide Leaf, NotNullable, Supported, KeywordsFit;
    assert Drop(Obj(o), x, env).fields == WithoutNulls(o, x, env);
  }

  /** A record that both take in their strict forms: the first as it is. */
  lemma AcceptedAsItIs(y: Schema, keys: set<string>, o: Json, env: Env)
    requires Record(y, keys) && StrictAccepts(y, o, env)
    ensures o.Obj? && (Accepts(y, o, env) <==> forall k | k in o.fields && o.fields[k].Null? :: !NotNullable(y, k, env))
  {
    RecordTakes(y, keys, o, env);
    hide StrictAccepts, Leaf, Supported, KeywordsFit;
    RecordAccepts(y, keys, o.fields, env);
    hide Accepts;
  }

  /** And the first with what the second drops. */
  lemma AcceptedAsDropped(x: Schema, y: Schema, keys: set<string>, o: Json, env: Env)
    requires Record(x, keys) && Record(y, keys) && StrictAccepts(x, o, env)
    ensures o.Obj?
    ensures Accepts(x, Drop(o, y, env), env) <==> forall k | k in o.fields && o.fields[k].Null? ::
      if NotNullable(y, k, env) then k !in x.required else !NotNullable(x, k, env)
  {
    RecordTakes(x, keys, o, env);
    RecordDrops(y, keys, o.fields, env);
    hide StrictAccepts, Leaf, Supported, KeywordsFit, Drop;
    var c := WithoutNulls(o.fields, y, env);
    RecordAccepts(x, keys, c, env);
    hide Accepts;
    assert forall k | k in o.fields :: k in c <==> !(o.fields[k].Null? && NotNullable(y, k, env));
    assert x.required <= keys by { RequiredAreKeys(x, keys); }
  }

  lemma RequiredAreKeys(x: Schema, keys: set<string>)
    requires Record(x, keys)
    ensures x.required <= keys
  {
    hide Leaf;
  }

  // ----- lists of records -----

  function ListOf(x: Schema): Schema {
    ANYTHING.(types := Single(ArrayType), items := Items(x))
  }

  /** A list of x which is also to be a list of y. */
  function Beside(x: Schema, y: Schema): Schema {
    ListOf(x).(anyOf := Alts([ListOf(y)]))
  }

  lemma ListStrict(x: Schema, env: Env)
    requires Strict(x, env).Some?
    ensures Strict(ListOf(x), env) == Some(ListOf(Strict(x, env).value))
    ensures Fragment(x) ==> Fragment(ListOf(x))
  {
    hide MakeNullable, Accepts;
  }

  lemma BesideStrict(x: Schema, y: Schema, env: Env)
    requires Strict(x, env).Some? && Strict(y, env).Some?
    ensures Strict(Beside(x, y), env) == Some(Beside(Strict(x, env).value, Strict(y, env).value))
  {
    ListStrict(y, env);
    var s := Beside(x, y);
    assert Supported(s) && KeywordsFit(s);
    hide MakeNullable, Accepts, Supported, KeywordsFit, ListOf;
    assert s.items == Items(x) && s.props.NoProps? && s.types == Single(ArrayType) by { assert ListOf(x).items == Items(x); }
    assert s.anyOf.s == [ListOf(y)] && s.anyOf.s[0] == ListOf(y);
    var anyOf := Alts(seq(|s.anyOf.s|, i requires 0 <= i < |s.anyOf.s| => Strict(s.anyOf.s[i], env).value));
    assert anyOf.s == [Strict(ListOf(y), env).value];
    assert Strict(s, env) == Some(s.(items := Items(Strict(x, env).value), anyOf := anyOf));
  }

  lemma ListAccepts(x: Schema, v: Json, env: Env)
    ensures Accepts(ListOf(x), v, env) <==> v.Arr? && forall i | 0 <= i < |v.elems| :: Accepts(x, v.elems[i], env)
  {
    if v.Arr? {
      assert AcceptsWhole(ListOf(x), v, env) && AcceptsAlternatives(ListOf(x), v, env);
      hide AcceptsWhole, AcceptsAlternatives;
      assert AcceptsElements(ListOf(x), v.elems, env) <==> forall i | 0 <= i < |v.elems| :: Accepts(x, v.elems[i], env);
      hide AcceptsElements;
    }
  }

  lemma BesideAccepts(x: Schema, y: Schema, v: Json, env: Env)
    ensures Accepts(Beside(x, y), v, env) <==> Accepts(ListOf(x), v, env) && Accepts(ListOf(y), v, env)
  {
    var s := Beside(x, y);
    BesideAlternatives(x, y, v, env);
    ListAccepts(x, v, env);
    assert s.anyOf.s[0] == ListOf(y);
    if v.Arr? {
      assert AcceptsWhole(s, v, env);
      hide AcceptsWhole, AcceptsAlternatives;
      assert AcceptsElements(s, v.elems, env) <==> forall i | 0 <= i < |v.elems| :: Accepts(x, v.elems[i], env);
      hide AcceptsElements, ListOf;
    } else {
      hide AcceptsAlternatives, AcceptsElements;
    }
  }

  lemma BesideAlternatives(x: Schema, y: Schema, v: Json, env: Env)
    ensures AcceptsAlternatives(Beside(x, y), v, env) <==> Accepts(ListOf(y), v, env)
  {
    assert Beside(x, y).anyOf.s[0] == ListOf(y);
    hide Accepts, ListOf;
  }

  lemma BesideElements(x: Schema, y: Schema, e: seq<Json>, env: Env)
    ensures AcceptsElements(Beside(x, y), e, env) <==> Accepts(ListOf(x), Arr(e), env)
  {
    ListAccepts(x, Arr(e), env);
    hide Accepts;
  }

  lemma ListDrops(y: Schema, e: seq<Json>, env: Env)
    ensures Drop(Arr(e), ListOf(y), env) == Arr(seq(|e|, i requires 0 <= i < |e| => Drop(e[i], y, env)))
  {}

  lemma BesideDrops(x: Schema, y: Schema, v: Json, env: Env)
    ensures Drop(v, Beside(x, y).(anyOf := NoAlts), env) == Drop(v, ListOf(x), env)
  {
    assert Beside(x, y).(anyOf := NoAlts) == ListOf(x);
  }

  ghost predicate RoundTrip(s: Schema, v: Json, env: Env)
    requires Strict(s, env).Some?
  {
    Accepts(s, Clean(v, s, Strict(s, env).value, env), env)
  }

  /** What both take in their strict forms comes through exactly when both accept it as it is; or, if the
      alternative does, it also accepts what the items drop; or else the items accept what it drops. */
  lemma BesideOutcome(x: Schema, y: Schema, v: Json, env: Env)
    requires Strict(x, env).Some? && Strict(y, env).Some? && Fragment(x) && Fragment(y)
    requires Strict(Beside(x, y), env).Some? && StrictAccepts(Beside(x, y), v, env)
    ensures RoundTrip(Beside(x, y), v, env) <==>
      || (Accepts(ListOf(x), v, env) && Accepts(ListOf(y), v, env))
      || (if Accepts(ListOf(y), v, env) then Accepts(ListOf(y), Drop(v, ListOf(x), env), env)
          else Accepts(ListOf(x), Drop(v, ListOf(y), env), env))
  {
    var s := Beside(x, y);
    ListStrict(x, env);
    ListStrict(y, env);
    BesideStrict(x, y, env);
    BesideAccepts(Strict(x, env).value, Strict(y, env).value, v, env);
    ListAccepts(Strict(x, env).value, v, env);
    BesideAccepts(x, y, v, env);
    assert s.anyOf.s == [ListOf(y)] && s.items == Items(x) && HasType(s.types, ArrayType) && s.enum.None?;
    hide Strict, Accepts, Drop, Clean, Fragment, ListOf, Beside, AcceptsElements, AcceptsAlternatives;
    assert s.anyOf.s[0] == ListOf(y);
    BesideArrayExactly(s, v, env);
    BesideDrops(x, y, v, env);
    BesideAlternatives(x, y, Drop(v, ListOf(x), env), env);
    ListDrops(y, v.elems, env);
    BesideElements(x, y, Drop(v, ListOf(y), env).elems, env);
  }

  // ----- told from the schema -----

  /** Null is possible under that name for both in their strict forms. */
  predicate NullInBoth(x: Schema, y: Schema, k: string, env: Env) {
    && x.props.Props? && y.props.Props? && k in x.props.m && k in y.props.m
    && StrictField(x, k, Null, env) && StrictField(y, k, Null, env)
  }

  /** Dropping the first, the alternative leaves a null under the second that the items cannot have. */
  predicate LeavesNull(x: Schema, y: Schema, k: string, m: string, env: Env) {
    && NullInBoth(x, y, k, env) && NullInBoth(x, y, m, env)
    && NotNullable(y, k, env) && NotNullable(x, m, env) && !NotNullable(y, m, env)
  }

  /** What the alternative drops can be missing from the items. Where it drops something, all that the
      items cannot have as null is dropped by it. What only the items drop can be missing from the
      alternative. */
  ghost predicate DropsAgree(x: Schema, y: Schema, keys: set<string>, env: Env)
    requires Record(x, keys) && Record(y, keys)
  {
    && (forall k | k in keys && NullInBoth(x, y, k, env) && NotNullable(y, k, env) :: k !in x.required)
    && (forall k, m | k in keys && m in keys :: !LeavesNull(x, y, k, m, env))
    && (forall k | k in keys && NullInBoth(x, y, k, env) && NotNullable(x, k, env) && !NotNullable(y, k, env) :: k !in y.required)
  }

  /** What both records take in their strict forms. */
  ghost predicate Common(x: Schema, y: Schema, v: Json, env: Env) {
    v.Arr? && forall i | 0 <= i < |v.elems| :: StrictAccepts(x, v.elems[i], env) && StrictAccepts(y, v.elems[i], env)
  }

  lemma BesideTakes(x: Schema, y: Schema, v: Json, env: Env)
    requires Strict(x, env).Some? && Strict(y, env).Some?
    ensures Strict(Beside(x, y), env).Some? && (StrictAccepts(Beside(x, y), v, env) <==> Common(x, y, v, env))
  {
    BesideStrict(x, y, env);
    BesideAccepts(Strict(x, env).value, Strict(y, env).value, v, env);
    ListAccepts(Strict(x, env).value, v, env);
    ListAccepts(Strict(y, env).value, v, env);
    hide Strict, Accepts, Beside, ListOf;
  }

  lemma NullsInBoth(x: Schema, y: Schema, keys: set<string>, o: Json, env: Env)
    requires Record(x, keys) && Record(y, keys) && StrictAccepts(x, o, env) && StrictAccepts(y, o, env)
    ensures o.Obj? && o.fields.Keys == keys && forall k | k in keys && o.fields[k].Null? :: NullInBoth(x, y, k, env)
  {
    RecordTakes(x, keys, o, env);
    RecordTakes(y, keys, o, env);
    hide StrictAccepts, Accepts, Leaf, Supported, KeywordsFit;
  }

  lemma DropsFit(x: Schema, y: Schema, keys: set<string>, o: Json, env: Env)
    requires Record(x, keys) && Record(y, keys) && DropsAgree(x, y, keys, env)
    requires StrictAccepts(x, o, env) && StrictAccepts(y, o, env)
    ensures Accepts(y, o, env) ==> Accepts(y, Drop(o, x, env), env)
  {
    NullsInBoth(x, y, keys, o, env);
    AcceptedAsItIs(y, keys, o, env);
    AcceptedAsDropped(y, x, keys, o, env);
    hide Record, StrictAccepts, Accepts, NotNullable, NullInBoth, Drop;
  }

  lemma ItemsFit(x: Schema, y: Schema, keys: set<string>, o: Json, p: Json, env: Env)
    requires Record(x, keys) && Record(y, keys) && DropsAgree(x, y, keys, env)
    requires StrictAccepts(x, o, env) && StrictAccepts(y, o, env)
    requires StrictAccepts(x, p, env) && StrictAccepts(y, p, env) && !Accepts(y, p, env)
    ensures Accepts(x, Drop(o, y, env), env)
  {
    NullsInBoth(x, y, keys, o, env);
    NullsInBoth(x, y, keys, p, env);
    AcceptedAsItIs(y, keys, p, env);
    AcceptedAsDropped(x, y, keys, o, env);
    hide Record, StrictAccepts, Accepts, NotNullable, NullInBoth, Drop, DropsAgree;
    var k :| k in p.fields && p.fields[k].Null? && NotNullable(y, k, env);
    forall m | m in o.fields && o.fields[m].Null?
      ensures if NotNullable(y, m, env) then m !in x.required else !NotNullable(x, m, env)
    {
      ItemsAgree(x, y, keys, k, m, env);
    }
  }

  lemma ItemsAgree(x: Schema, y: Schema, keys: set<string>, k: string, m: string, env: Env)
    requires Record(x, keys) && Record(y, keys) && DropsAgree(x, y, keys, env) && k in keys && m in keys
    requires NullInBoth(x, y, k, env) && NotNullable(y, k, env) && NullInBoth(x, y, m, env)
    ensures if NotNullable(y, m, env) then m !in x.required else !NotNullable(x, m, env)
  {
    hide Record, NullInBoth, NotNullable;
    assert !LeavesNull(x, y, k, m, env);
  }

  lemma AgreeingComesThrough(x: Schema, y: Schema, keys: set<string>, v: Json, env: Env)
    requires Record(x, keys) && Record(y, keys) && DropsAgree(x, y, keys, env)
    requires Strict(Beside(x, y), env).Some? && StrictAccepts(Beside(x, y), v, env)
    ensures RoundTrip(Beside(x, y), v, env)
  {
    RecordStrict(x, keys, env);
    RecordStrict(y, keys, env);
    BesideTakes(x, y, v, env);
    hide Record, DropsAgree, Strict, StrictAccepts, Accepts, Drop, Fragment, RoundTrip, Beside;
    var e := v.elems;
    BesideOutcome(x, y, v, env);
    ListAccepts(y, v, env);
    ListDrops(x, e, env);
    ListDrops(y, e, env);
    if Accepts(ListOf(y), v, env) {
      forall i | 0 <= i < |e| ensures Accepts(y, Drop(e[i], x, env), env) { DropsFit(x, y, keys, e[i], env); }
      ListAccepts(y, Drop(v, ListOf(x), env), env);
    } else {
      var j :| 0 <= j < |e| && !Accepts(y, e[j], env);
      forall i | 0 <= i < |e| ensures Accepts(x, Drop(e[i], y, env), env) { ItemsFit(x, y, keys, e[i], e[j], env); }
      ListAccepts(x, Drop(v, ListOf(y), env), env);
    }
  }

  /** The list of one record. */
  lemma OneRecord(x: Schema, y: Schema, keys: set<string>, o: Json, env: Env)
    requires Record(x, keys) && Record(y, keys) && StrictAccepts(x, o, env) && StrictAccepts(y, o, env)
    ensures Strict(Beside(x, y), env).Some? && StrictAccepts(Beside(x, y), Arr([o]), env)
    ensures RoundTrip(Beside(x, y), Arr([o]), env) <==>
      || (Accepts(x, o, env) && Accepts(y, o, env))
      || (if Accepts(y, o, env) then Accepts(y, Drop(o, x, env), env) else Accepts(x, Drop(o, y, env), env))
  {
    RecordStrict(x, keys, env);
    RecordStrict(y, keys, env);
    BesideTakes(x, y, Arr([o]), env);
    hide *;
    OneInCommon(x, y, o, env);
    BesideOutcome(x, y, Arr([o]), env);
    OneInList(x, o, env);
    OneInList(y, o, env);
    OneDropped(x, o, env);
    OneDropped(y, o, env);
    OneInList(y, Drop(o, x, env), env);
    OneInList(x, Drop(o, y, env), env);
  }

  lemma OneInCommon(x: Schema, y: Schema, o: Json, env: Env)
    requires StrictAccepts(x, o, env) && StrictAccepts(y, o, env)
    ensures Common(x, y, Arr([o]), env)
  {
    hide StrictAccepts;
  }

  lemma OneInList(x: Schema, o: Json, env: Env)
    ensures Accepts(ListOf(x), Arr([o]), env) <==> Accepts(x, o, env)
  {
    ListAccepts(x, Arr([o]), env);
    assert Arr([o]).elems[0] == o;
    hide Accepts;
  }

  lemma OneDropped(x: Schema, o: Json, env: Env)
    ensures Drop(Arr([o]), ListOf(x), env) == Arr([Drop(o, x, env)])
  {
    ListDrops(x, [o], env);
    hide Drop;
    assert Drop(Arr([o]), ListOf(x), env).elems == [Drop(o, x, env)];
  }

  /** Null in the place of another value, where both may have it. */
  lemma WithNull(x: Schema, keys: set<string>, o: Json, k: string, env: Env)
    requires Record(x, keys) && StrictAccepts(x, o, env) && k in keys && StrictField(x, k, Null, env)
    ensures o.Obj? && StrictAccepts(x, Obj(o.fields[k := Null]), env)
  {
    RecordTakes(x, keys, o, env);
    RecordTakes(x, keys, Obj(o.fields[k := Null]), env);
    hide StrictAccepts, Accepts, Leaf, Supported, KeywordsFit;
  }

  /** Null under two names, dropped by the alternative under the first only: either the first must not be
      missing from the items, or the second must not be null there. */
  lemma ItemsBreak(x: Schema, y: Schema, keys: set<string>, o: Json, k: string, m: string, env: Env)
    requires Record(x, keys) && Record(y, keys) && StrictAccepts(x, o, env) && StrictAccepts(y, o, env)
    requires k in keys && m in keys && o.Obj? && k in o.fields && m in o.fields && o.fields[k] == o.fields[m] == Null
    requires NotNullable(y, k, env) && (k in x.required || (NotNullable(x, m, env) && !NotNullable(y, m, env)))
    ensures Strict(Beside(x, y), env).Some? && StrictAccepts(Beside(x, y), Arr([o]), env) && !RoundTrip(Beside(x, y), Arr([o]), env)
  {
    OneRecord(x, y, keys, o, env);
    AcceptedAsItIs(y, keys, o, env);
    AcceptedAsDropped(x, y, keys, o, env);
    hide Record, Strict, StrictAccepts, Accepts, Drop, RoundTrip, NotNullable;
  }

  /** Null that only the items drop, and that must not be missing from the alternative. */
  lemma AlternativeBreaks(x: Schema, y: Schema, keys: set<string>, o: Json, k: string, env: Env)
    requires Record(x, keys) && Record(y, keys) && StrictAccepts(x, o, env) && StrictAccepts(y, o, env)
    requires k in keys && o.Obj? && k in o.fields && o.fields[k] == Null
    requires NotNullable(x, k, env) && !NotNullable(y, k, env) && k in y.required
    ensures Strict(Beside(x, y), env).Some? && StrictAccepts(Beside(x, y), Arr([o]), env) && !RoundTrip(Beside(x, y), Arr([o]), env)
  {
    OneRecord(x, y, keys, o, env);
    AcceptedAsItIs(x, keys, o, env);
    AcceptedAsDropped(x, y, keys, o, env);
    AcceptedAsDropped(y, x, keys, o, env);
    hide Record, Strict, StrictAccepts, Accepts, Drop, RoundTrip, NotNullable;
  }

  lemma DisagreeingBreaks(x: Schema, y: Schema, keys: set<string>, o: Json, env: Env) returns (v: Json)
    requires Record(x, keys) && Record(y, keys) && StrictAccepts(x, o, env) && StrictAccepts(y, o, env)
    requires !DropsAgree(x, y, keys, env)
    ensures Strict(Beside(x, y), env).Some? && StrictAccepts(Beside(x, y), v, env) && !RoundTrip(Beside(x, y), v, env)
  {
    hide Record, Strict, StrictAccepts, Accepts, RoundTrip, NotNullable, StrictField;
    if k :| k in keys && NullInBoth(x, y, k, env) && NotNullable(y, k, env) && k in x.required {
      WithNull(x, keys, o, k, env);
      WithNull(y, keys, o, k, env);
      ItemsBreak(x, y, keys, Obj(o.fields[k := Null]), k, k, env);
      v := Arr([Obj(o.fields[k := Null])]);
    } else if k, m :| k in keys && m in keys && LeavesNull(x, y, k, m, env) {
      WithNull(x, keys, o, k, env);
      WithNull(y, keys, o, k, env);
      var p := Obj(o.fields[k := Null]);
      WithNull(x, keys, p, m, env);
      WithNull(y, keys, p, m, env);
      ItemsBreak(x, y, keys, Obj(p.fields[m := Null]), k, m, env);
      v := Arr([Obj(p.fields[m := Null])]);
    } else {
      var k :| k in keys && NullInBoth(x, y, k, env) && NotNullable(x, k, env) && !NotNullable(y, k, env) && k in y.required;
      WithNull(x, keys, o, k, env);
      WithNull(y, keys, o, k, env);
      AlternativeBreaks(x, y, keys, Obj(o.fields[k := Null]), k, env);
      v := Arr([Obj(o.fields[k := Null])]);
    }
  }

  /** For lists of records with another record under anyOf, where some record fits both strict forms: the
      round trip works for every value exactly when what the two drop agrees. */
  lemma BesideExactly(x: Schema, y: Schema, keys: set<string>, o: Json, env: Env)
    requires Record(x, keys) && Record(y, keys) && StrictAccepts(x, o, env) && StrictAccepts(y, o, env)
    ensures Strict(Beside(x, y), env).Some?
    ensures (forall v | StrictAccepts(Beside(x, y), v, env) :: RoundTrip(Beside(x, y), v, env)) <==> DropsAgree(x, y, keys, env)
  {
    OneRecord(x, y, keys, o, env);
    hide Record, Strict, StrictAccepts, Accepts, RoundTrip, Beside, Drop;
    if DropsAgree(x, y, keys, env) {
      forall v | StrictAccepts(Beside(x, y), v, env) ensures RoundTrip(Beside(x, y), v, env) {
        AgreeingComesThrough(x, y, keys, v, env);
      }
    } else {
      var v := DisagreeingBreaks(x, y, keys, o, env);
    }
  }

  // ----- an input -----

  const TEXT_OR_NULL: Schema := ANYTHING.(types := OneOfTypes({StringType, NullType}))

  function TwoProps(k: string, x: Schema, m: string, y: Schema): Schema {
    ANYTHING.(types := Single(ObjectType), props := Props(map[k := x, m := y]))
  }

  /** An alternative beside the type array breaks the round trip: it takes the value as cleaned to its
      own properties, whatever the items of the node itself ask for. */
  lemma AlternativeBesideArrayFails(k: string, m: string, env: Env)
    requires k != m
    ensures var x, y := TwoProps(k, TEXT, m, TEXT), TwoProps(k, TEXT, m, TEXT_OR_NULL);
      var s, v := Beside(x, y), Arr([Obj(map[k := Null, m := Null])]);
      Strict(s, env).Some? && StrictAccepts(s, v, env) && !RoundTrip(s, v, env)
  {
    var x, y, o := TwoProps(k, TEXT, m, TEXT), TwoProps(k, TEXT, m, TEXT_OR_NULL), Obj(map[k := Null, m := Null]);
    LeavesAre(env);
    TwoPropsRecord(k, TEXT, m, TEXT);
    TwoPropsRecord(k, TEXT, m, TEXT_OR_NULL);
    NullsFit(k, TEXT, m, TEXT, env);
    NullsFit(k, TEXT, m, TEXT_OR_NULL, env);
    hide Leaf, Record, Accepts, StrictAccepts, RoundTrip, Strict;
    assert x.props.m[k] == TEXT && x.props.m[m] == TEXT && y.props.m[k] == TEXT && y.props.m[m] == TEXT_OR_NULL;
    ItemsBreak(x, y, {k, m}, o, k, m, env);
  }

  lemma LeavesAre(env: Env)
    ensures Leaf(TEXT) && Leaf(TEXT_OR_NULL) && Accepts(TEXT_OR_NULL, Null, env) && !Accepts(TEXT, Null, env)
  {
    assert NullType in {StringType, NullType} && IsOfType(Null, NullType);
  }

  lemma TwoPropsRecord(k: string, x: Schema, m: string, y: Schema)
    requires k != m && Leaf(x) && Leaf(y)
    ensures Record(TwoProps(k, x, m, y), {k, m})
  {
    hide Leaf;
  }

  lemma NullsFit(k: string, x: Schema, m: string, y: Schema, env: Env)
    requires k != m && Record(TwoProps(k, x, m, y), {k, m})
    ensures StrictAccepts(TwoProps(k, x, m, y), Obj(map[k := Null, m := Null]), env)
  {
    var s := TwoProps(k, x, m, y);
    hide Record, Accepts, StrictAccepts;
    RecordTakes(s, {k, m}, Obj(map[k := Null, m := Null]), env);
    assert s.required == {};
  }
}
