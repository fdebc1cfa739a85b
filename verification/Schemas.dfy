/** JSON Schema, draft 2020-12, for the keywords the proxy works with: a schema tree and the values
    it accepts. The library that validates values in the repository is replaced by Accepts. */
module Schemas {
  import opened Text
  import opened Json

  datatype Type = NullType | BoolType | IntegerType | NumberType | StringType | ArrayType | ObjectType

  /** The type keyword: a single name, a list of names, or nothing. */
  datatype Types = AnyType | Single(t: Type) | OneOfTypes(ts: set<Type>)

  datatype Props = NoProps | Props(m: map<string, Schema>)

  datatype Items = NoItems | NothingMore | Items(schema: Schema)

  datatype Alts = NoAlts | Alts(s: seq<Schema>)

  /** additionalProperties: missing, false, or anything else. */
  datatype Additional = Unset | Closed | Allowed

  /** The assertions about strings and about numbers. */
  datatype Facet = Pattern | Format | MultipleOf | Maximum | ExclusiveMaximum | Minimum | ExclusiveMinimum

  predicate OnStrings(f: Facet) {
    f == Pattern || f == Format
  }

  datatype Schema = Schema(
    ref: string, types: Types, enum: Option<nat>, facets: map<Facet, nat>,
    props: Props, required: set<string>, additional: Additional,
    items: Items, prefix: Alts, minItems: Option<nat>, maxItems: Option<nat>,
    anyOf: Alts, oneOf: Alts, allOf: Alts)

  const ANYTHING: Schema :=
    Schema("", AnyType, None, map[], NoProps, {}, Unset, NoItems, NoAlts, None, None, NoAlts, NoAlts, NoAlts)

  /** What references mean, and what is listed or asserted under the numbers that stand for the values
      of enum, const and the facets. */
  datatype Env = Env(ref: (string, Json) -> bool, enum: (nat, Json) -> bool, facet: (Facet, nat, Json) -> bool)

  predicate HasType(types: Types, t: Type) {
    match types
    case AnyType => false
    case Single(one) => one == t
    case OneOfTypes(ts) => t in ts
  }

  predicate IsOfType(v: Json, t: Type) {
    match t
    case NullType => v.Null?
    case BoolType => v.Bool?
    case IntegerType => v.Num? || (v.Frac? && v.r.Floor as real == v.r)
    case NumberType => v.Num? || v.Frac?
    case StringType => v.Str?
    case ArrayType => v.Arr?
    case ObjectType => v.Obj?
  }

  predicate TypeAllows(types: Types, v: Json) {
    match types
    case AnyType => true
    case Single(t) => IsOfType(v, t)
    case OneOfTypes(ts) => exists t | t in ts :: IsOfType(v, t)
  }

  predicate Concerns(f: Facet, v: Json) {
    if OnStrings(f) then v.Str? else v.Num? || v.Frac?
  }

  /** The keywords that look at the value as a whole. */
  predicate AcceptsWhole(s: Schema, v: Json, env: Env) {
    && (s.ref != "" ==> env.ref(s.ref, v))
    && TypeAllows(s.types, v)
    && (s.enum.Some? ==> env.enum(s.enum.value, v))
    && (forall f | f in s.facets :: Concerns(f, v) ==> env.facet(f, s.facets[f], v))
  }

  predicate LengthAllowed(s: Schema, n: nat) {
    (s.minItems.Some? ==> s.minItems.value <= n) && (s.maxItems.Some? ==> n <= s.maxItems.value)
  }

  predicate Accepts(s: Schema, v: Json, env: Env)
    decreases s, 2
  {
    && AcceptsWhole(s, v, env)
    && (v.Obj? ==> AcceptsFields(s, v.fields, env))
    && (v.Arr? ==> AcceptsElements(s, v.elems, env))
    && AcceptsAlternatives(s, v, env)
  }

  predicate AcceptsFields(s: Schema, fields: Fields, env: Env)
    decreases s, 1
  {
    && (forall k | k in s.required :: k in fields)
    && (s.props.NoProps? ==> s.additional == Closed ==> fields == map[])
    && (s.props.Props? ==> AcceptsProps(s, s.props.m, fields, env))
  }

  predicate AcceptsProps(s: Schema, m: map<string, Schema>, fields: Fields, env: Env)
    requires s.props.Props? && m == s.props.m
    decreases s, 0
  {
    && (s.additional == Closed ==> forall k | k in fields :: k in m)
    && (forall k | k in m :: k in fields ==> Accepts(m[k], fields[k], env))
  }

  function PrefixLength(s: Schema): nat {
    if s.prefix.Alts? then |s.prefix.s| else 0
  }

  predicate AcceptsElements(s: Schema, elems: seq<Json>, env: Env)
    decreases s, 1
  {
    && LengthAllowed(s, |elems|)
    && (s.prefix.Alts? ==> forall i | 0 <= i < |s.prefix.s| :: i < |elems| ==> Accepts(s.prefix.s[i], elems[i], env))
    && (s.items.NothingMore? ==> |elems| <= PrefixLength(s))
    && (s.items.Items? ==> forall i | PrefixLength(s) <= i < |elems| :: Accepts(s.items.schema, elems[i], env))
  }

  predicate AcceptsAlternatives(s: Schema, v: Json, env: Env)
    decreases s, 1
  {
    && (s.anyOf.Alts? ==> exists i | 0 <= i < |s.anyOf.s| :: Accepts(s.anyOf.s[i], v, env))
    && (s.oneOf.Alts? ==> |(set i | 0 <= i < |s.oneOf.s| && Accepts(s.oneOf.s[i], v, env))| == 1)
    && (s.allOf.Alts? ==> forall i | 0 <= i < |s.allOf.s| :: Accepts(s.allOf.s[i], v, env))
  }
}
