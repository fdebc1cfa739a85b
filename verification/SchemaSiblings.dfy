/** Keywords beside a reference (internal/openai/schema.go): resolution writes them over those of the
    definition, while the standard asks for both. When the two come to the same. */
module SchemaSiblings {
  import opened Text
  import opened Json
  import opened Schemas
  import opened SchemaRefs

  datatype Keyword =
    | TypeWord | EnumWord | FacetWord(f: Facet)
    | PropsWord | RequiredWord | AdditionalWord
    | ItemsWord | PrefixWord | MinWord | MaxWord
    | AnyOfWord | OneOfWord | AllOfWord

  predicate Carries(s: Schema, w: Keyword) {
    match w
    case TypeWord => !s.types.AnyType?
    case EnumWord => s.enum.Some?
    case FacetWord(f) => f in s.facets
    case PropsWord => s.props.Props?
    case RequiredWord => s.required != {}
    case AdditionalWord => s.additional != Unset
    case ItemsWord => !s.items.NoItems?
    case PrefixWord => s.prefix.Alts?
    case MinWord => s.minItems.Some?
    case MaxWord => s.maxItems.Some?
    case AnyOfWord => s.anyOf.Alts?
    case OneOfWord => s.oneOf.Alts?
    case AllOfWord => s.allOf.Alts?
  }

  /** What one of the two means depends on whether the other stands beside it. */
  predicate Coupled(a: Keyword, b: Keyword) {
    || (a == PropsWord && b == AdditionalWord) || (a == AdditionalWord && b == PropsWord)
    || (a == PrefixWord && b == ItemsWord) || (a == ItemsWord && b == PrefixWord)
  }

  predicate Clash(a: Keyword, b: Keyword) {
    a == b || Coupled(a, b)
  }

  /** No sibling replaces a keyword of the definition, and none is coupled with one. */
  ghost predicate Compatible(definition: Schema, node: Schema) {
    forall a, b | Carries(definition, a) && Carries(node, b) :: !Clash(a, b)
  }

  function WithoutRef(s: Schema): Schema {
    s.(ref := "")
  }

  // ----- compatible keywords -----

  lemma Apart(d: Schema, n: Schema, a: Keyword, b: Keyword)
    requires Compatible(d, n) && (a == b || Coupled(a, b))
    ensures !(Carries(d, a) && Carries(n, b))
  {
    hide Carries;
  }

  lemma CompatibleWords(d: Schema, n: Schema)
    requires Compatible(d, n)
    ensures d.types.AnyType? || n.types.AnyType?
    ensures d.enum.None? || n.enum.None?
    ensures forall f | f in d.facets :: f !in n.facets
    ensures d.required == {} || n.required == {}
    ensures d.minItems.None? || n.minItems.None?
    ensures d.maxItems.None? || n.maxItems.None?
  {
    forall f | f in d.facets ensures f !in n.facets { Apart(d, n, FacetWord(f), FacetWord(f)); }
    Apart(d, n, TypeWord, TypeWord);
    Apart(d, n, EnumWord, EnumWord);
    Apart(d, n, RequiredWord, RequiredWord);
    Apart(d, n, MinWord, MinWord);
    Apart(d, n, MaxWord, MaxWord);
    hide Compatible;
  }

  lemma CompatibleGroups(d: Schema, n: Schema)
    requires Compatible(d, n)
    ensures (d.props.NoProps? && d.additional == Unset) || (n.props.NoProps? && n.additional == Unset)
    ensures (d.items.NoItems? && d.prefix.NoAlts?) || (n.items.NoItems? && n.prefix.NoAlts?)
    ensures d.anyOf.NoAlts? || n.anyOf.NoAlts?
    ensures d.oneOf.NoAlts? || n.oneOf.NoAlts?
    ensures d.allOf.NoAlts? || n.allOf.NoAlts?
  {
    Apart(d, n, PropsWord, PropsWord);
    Apart(d, n, PropsWord, AdditionalWord);
    Apart(d, n, AdditionalWord, PropsWord);
    Apart(d, n, AdditionalWord, AdditionalWord);
    Apart(d, n, ItemsWord, ItemsWord);
    Apart(d, n, ItemsWord, PrefixWord);
    Apart(d, n, PrefixWord, ItemsWord);
    Apart(d, n, PrefixWord, PrefixWord);
    Apart(d, n, AnyOfWord, AnyOfWord);
    Apart(d, n, OneOfWord, OneOfWord);
    Apart(d, n, AllOfWord, AllOfWord);
    hide Compatible;
  }

  predicate FacetsHold(facets: map<Facet, nat>, v: Json, env: Env) {
    forall f | f in facets :: Concerns(f, v) ==> env.facet(f, facets[f], v)
  }

  lemma MergedFacets(a: map<Facet, nat>, b: map<Facet, nat>, v: Json, env: Env)
    requires forall f | f in a :: f !in b
    ensures FacetsHold(a + b, v, env) <==> FacetsHold(a, v, env) && FacetsHold(b, v, env)
  {
    hide Concerns;
    var m := a + b;
    assert forall f | f in a :: f in m && m[f] == a[f];
    assert forall f | f in b :: f in m && m[f] == b[f];
  }

  lemma WholeIs(s: Schema, v: Json, env: Env)
    ensures AcceptsWhole(s, v, env) <==>
      (s.ref != "" ==> env.ref(s.ref, v)) && TypeAllows(s.types, v) && (s.enum.Some? ==> env.enum(s.enum.value, v))
      && FacetsHold(s.facets, v, env)
  {
    hide TypeAllows, Concerns;
  }

  lemma MergedWhole(d: Schema, n: Schema, v: Json, env: Env)
    requires Compatible(d, n)
    ensures AcceptsWhole(WithSiblings(d, n), v, env) <==> AcceptsWhole(d, v, env) && AcceptsWhole(WithoutRef(n), v, env)
  {
    CompatibleWords(d, n);
    var m := WithSiblings(d, n);
    hide Compatible, AcceptsWhole, FacetsHold;
    WholeIs(m, v, env);
    WholeIs(d, v, env);
    WholeIs(WithoutRef(n), v, env);
    MergedFacets(d.facets, n.facets, v, env);
    TypesOfEither(d.types, n.types, v);
    hide TypeAllows;
  }

  lemma TypesOfEither(a: Types, b: Types, v: Json)
    requires a.AnyType? || b.AnyType?
    ensures TypeAllows(if b.AnyType? then a else b, v) <==> TypeAllows(a, v) && TypeAllows(b, v)
  {}

  predicate PropsAccept(props: Props, additional: Additional, v: Fields, env: Env) {
    && (props.NoProps? ==> additional == Closed ==> v == map[])
    && (props.Props? ==> (additional == Closed ==> forall k | k in v :: k in props.m)
                         && forall k | k in props.m :: k in v ==> Accepts(props.m[k], v[k], env))
  }

  lemma FieldsAre(s: Schema, v: Fields, env: Env)
    ensures AcceptsFields(s, v, env) <==> (forall k | k in s.required :: k in v) && PropsAccept(s.props, s.additional, v, env)
  {
    hide Accepts;
  }

  lemma MergedFields(d: Schema, n: Schema, v: Fields, env: Env)
    requires Compatible(d, n)
    ensures AcceptsFields(WithSiblings(d, n), v, env) <==> AcceptsFields(d, v, env) && AcceptsFields(WithoutRef(n), v, env)
  {
    CompatibleWords(d, n);
    CompatibleGroups(d, n);
    hide Compatible, PropsAccept, AcceptsFields;
    FieldsAre(WithSiblings(d, n), v, env);
    FieldsAre(d, v, env);
    FieldsAre(WithoutRef(n), v, env);
    NoPropsAccept(v, env);
  }

  lemma NoPropsAccept(v: Fields, env: Env)
    ensures PropsAccept(NoProps, Unset, v, env)
  {}

  lemma MergedElements(d: Schema, n: Schema, v: seq<Json>, env: Env)
    requires Compatible(d, n)
    ensures AcceptsElements(WithSiblings(d, n), v, env) <==> AcceptsElements(d, v, env) && AcceptsElements(WithoutRef(n), v, env)
  {
    CompatibleWords(d, n);
    CompatibleGroups(d, n);
    hide Compatible, Accepts;
  }

  predicate AnyAccepts(a: Alts, v: Json, env: Env) {
    a.Alts? ==> exists i | 0 <= i < |a.s| :: Accepts(a.s[i], v, env)
  }

  predicate OneAccepts(a: Alts, v: Json, env: Env) {
    a.Alts? ==> |(set i | 0 <= i < |a.s| && Accepts(a.s[i], v, env))| == 1
  }

  predicate AllAccept(a: Alts, v: Json, env: Env) {
    a.Alts? ==> forall i | 0 <= i < |a.s| :: Accepts(a.s[i], v, env)
  }

  lemma AlternativesAre(s: Schema, v: Json, env: Env)
    ensures AcceptsAlternatives(s, v, env)
      <==> AnyAccepts(s.anyOf, v, env) && OneAccepts(s.oneOf, v, env) && AllAccept(s.allOf, v, env)
  {
    hide Accepts;
  }

  lemma MergedAlternatives(d: Schema, n: Schema, v: Json, env: Env)
    requires Compatible(d, n)
    ensures AcceptsAlternatives(WithSiblings(d, n), v, env)
      <==> AcceptsAlternatives(d, v, env) && AcceptsAlternatives(WithoutRef(n), v, env)
  {
    CompatibleGroups(d, n);
    hide Compatible, AcceptsAlternatives, AnyAccepts, OneAccepts, AllAccept;
    AlternativesAre(WithSiblings(d, n), v, env);
    AlternativesAre(d, v, env);
    AlternativesAre(WithoutRef(n), v, env);
    NoneToAccept(v, env);
  }

  lemma NoneToAccept(v: Json, env: Env)
    ensures AnyAccepts(NoAlts, v, env) && OneAccepts(NoAlts, v, env) && AllAccept(NoAlts, v, env)
  {}

  /** Then a value is accepted by the definition with the siblings written over it exactly when it is
      accepted by the definition and by the siblings. */
  lemma CompatibleMeansBoth(d: Schema, n: Schema, v: Json, env: Env)
    requires Compatible(d, n)
    ensures Accepts(WithSiblings(d, n), v, env) <==> Accepts(d, v, env) && Accepts(WithoutRef(n), v, env)
  {
    MergedWhole(d, n, v, env);
    if v.Obj? { MergedFields(d, n, v.fields, env); }
    if v.Arr? { MergedElements(d, n, v.elems, env); }
    MergedAlternatives(d, n, v, env);
    hide AcceptsWhole, AcceptsFields, AcceptsElements, AcceptsAlternatives, WithSiblings, Compatible;
  }

  // ----- incompatible keywords -----

  /** The schema has no reference and no keyword but some of these. */
  ghost predicate Within(s: Schema, words: set<Keyword>) {
    s.ref == "" && forall w | Carries(s, w) :: w in words
  }

  const TEXT: Schema := ANYTHING.(types := Single(StringType))

  const ONE_KEY: map<string, Schema> := map["a" := ANYTHING]

  /** A definition with the keyword a. */
  function DefinitionWith(a: Keyword, b: Keyword): Schema {
    match a
    case TypeWord => TEXT
    case EnumWord => ANYTHING.(enum := Some(0))
    case FacetWord(f) => ANYTHING.(facets := map[f := 0])
    case PropsWord => ANYTHING.(props := Props(if b == PropsWord then map["a" := TEXT] else ONE_KEY))
    case RequiredWord => ANYTHING.(required := {"b"})
    case AdditionalWord => ANYTHING.(additional := Closed)
    case ItemsWord => ANYTHING.(items := NothingMore)
    case PrefixWord => ANYTHING.(prefix := Alts([if b == PrefixWord then TEXT else ANYTHING]))
    case MinWord => ANYTHING.(minItems := Some(2))
    case MaxWord => ANYTHING.(maxItems := Some(0))
    case AnyOfWord => ANYTHING.(anyOf := Alts([TEXT]))
    case OneOfWord => ANYTHING.(oneOf := Alts([TEXT]))
    case AllOfWord => ANYTHING.(allOf := Alts([TEXT]))
  }

  /** Siblings with the keyword b. */
  function SiblingsWith(a: Keyword, b: Keyword): Schema {
    match b
    case TypeWord => ANYTHING.(types := Single(NullType))
    case EnumWord => ANYTHING.(enum := Some(1))
    case FacetWord(f) => ANYTHING.(facets := map[f := 1])
    case PropsWord => ANYTHING.(props := Props(ONE_KEY))
    case RequiredWord => ANYTHING.(required := {"a"})
    case AdditionalWord => ANYTHING.(additional := if a == AdditionalWord then Allowed else Closed)
    case ItemsWord => ANYTHING.(items := if a == ItemsWord then Items(ANYTHING) else NothingMore)
    case PrefixWord => ANYTHING.(prefix := Alts([ANYTHING]))
    case MinWord => ANYTHING.(minItems := Some(1))
    case MaxWord => ANYTHING.(maxItems := Some(1))
    case AnyOfWord => ANYTHING.(anyOf := Alts([ANYTHING]))
    case OneOfWord => ANYTHING.(oneOf := Alts([ANYTHING]))
    case AllOfWord => ANYTHING.(allOf := Alts([ANYTHING]))
  }

  /** A value that the siblings accept when they are written over the definition, and not otherwise. */
  function Telling(a: Keyword): Json {
    match a
    case PropsWord => Obj(map["a" := Null])
    case RequiredWord => Obj(map["a" := Null])
    case AdditionalWord => Obj(map["a" := Null])
    case ItemsWord => Arr([Null])
    case PrefixWord => Arr([Null])
    case MinWord => Arr([Null])
    case MaxWord => Arr([Null])
    case FacetWord(f) => if OnStrings(f) then Str("") else Num(0)
    case _ => Null
  }

  const SECOND_ONLY: Env := Env((r: string, v: Json) => true, (e: nat, v: Json) => e == 1, (f: Facet, x: nat, v: Json) => x == 1)

  ghost predicate Tells(a: Keyword, b: Keyword) {
    var d, n := DefinitionWith(a, b), SiblingsWith(a, b);
    && Accepts(WithSiblings(d, n), Telling(a), SECOND_ONLY)
    && !(Accepts(d, Telling(a), SECOND_ONLY) && Accepts(n, Telling(a), SECOND_ONLY))
  }

  lemma AnythingAccepts(v: Json, env: Env)
    ensures Accepts(ANYTHING, v, env) && !Accepts(TEXT, Null, env)
  {}

  lemma OnlyDefinition(a: Keyword, b: Keyword)
    ensures Within(DefinitionWith(a, b), {a})
  {}

  lemma OnlySiblings(a: Keyword, b: Keyword)
    ensures Within(SiblingsWith(a, b), {b})
  {}

  /** An object with null under one key. */
  lemma OneField(s: Schema, x: Schema, env: Env)
    requires s == ANYTHING.(props := Props(map["a" := x]), additional := s.additional)
    ensures Accepts(s, Telling(PropsWord), env) <==> Accepts(x, Null, env)
  {
    var o := Telling(PropsWord);
    AnythingAccepts(o, env);
    assert s.props.m["a"] == x && o.fields["a"] == Null;
    hide Accepts;
    assert AcceptsFields(s, o.fields, env) <==> Accepts(x, Null, env);
    FieldsOnly(s, o, env);
  }

  lemma FieldsOnly(s: Schema, o: Json, env: Env)
    requires s == ANYTHING.(props := s.props, additional := s.additional, required := s.required) && o.Obj?
    ensures Accepts(s, o, env) <==> AcceptsFields(s, o.fields, env)
  {
    hide AcceptsFields;
  }

  lemma ElementsOnly(s: Schema, o: Json, env: Env)
    requires s == ANYTHING.(items := s.items, prefix := s.prefix, minItems := s.minItems, maxItems := s.maxItems) && o.Arr?
    ensures Accepts(s, o, env) <==> AcceptsElements(s, o.elems, env)
  {
    hide AcceptsElements;
  }

  /** A list of one null. */
  lemma OneElement(s: Schema, x: Schema, env: Env)
    requires s == ANYTHING.(prefix := Alts([x]), items := s.items) && !s.items.Items?
    ensures Accepts(s, Telling(PrefixWord), env) <==> Accepts(x, Null, env)
  {
    var o := Telling(PrefixWord);
    ElementsOnly(s, o, env);
    assert s.prefix.s[0] == x && o.elems[0] == Null;
    hide Accepts;
  }

  lemma OneAlternative(s: Schema, x: Schema, env: Env)
    requires s in {ANYTHING.(anyOf := Alts([x])), ANYTHING.(oneOf := Alts([x])), ANYTHING.(allOf := Alts([x]))}
    ensures Accepts(s, Null, env) <==> Accepts(x, Null, env)
  {
    AlternativesAre(s, Null, env);
    assert Accepts(s, Null, env) <==> AcceptsAlternatives(s, Null, env) by { hide AcceptsAlternatives; }
    assert [x][0] == x;
    hide Accepts, AcceptsAlternatives;
    NoneToAccept(Null, env);
    if s.oneOf.Alts? {
      assert s.oneOf.s == [x];
      var which := set i | 0 <= i < |s.oneOf.s| && Accepts(s.oneOf.s[i], Null, env);
      assert which == if Accepts(x, Null, env) then {0} else {};
    }
  }

  lemma ToldByAlternatives(a: Keyword)
    requires a.AnyOfWord? || a.OneOfWord? || a.AllOfWord?
    ensures Tells(a, a)
  {
    var d, n := DefinitionWith(a, a), SiblingsWith(a, a);
    assert WithSiblings(d, n) == n;
    AnythingAccepts(Null, SECOND_ONLY);
    hide Accepts;
    OneAlternative(d, TEXT, SECOND_ONLY);
    OneAlternative(n, ANYTHING, SECOND_ONLY);
  }

  lemma ToldByProps()
    ensures Tells(PropsWord, PropsWord)
  {
    var d, n := DefinitionWith(PropsWord, PropsWord), SiblingsWith(PropsWord, PropsWord);
    assert WithSiblings(d, n) == n;
    AnythingAccepts(Null, SECOND_ONLY);
    hide Accepts;
    OneField(d, TEXT, SECOND_ONLY);
    OneField(n, ANYTHING, SECOND_ONLY);
  }

  lemma ToldByClosing(a: Keyword, b: Keyword)
    requires (a.PropsWord? && b.AdditionalWord?) || (a.AdditionalWord? && b.PropsWord?)
    ensures Tells(a, b)
  {
    var d, n := DefinitionWith(a, b), SiblingsWith(a, b);
    var o := Telling(PropsWord);
    var shut := ANYTHING.(additional := Closed);
    assert shut == if a.PropsWord? then n else d;
    AnythingAccepts(Null, SECOND_ONLY);
    assert "a" in o.fields;
    hide Accepts;
    FieldsOnly(shut, o, SECOND_ONLY);
    OneField(WithSiblings(d, n), ANYTHING, SECOND_ONLY);
  }

  lemma ToldByRequired(a: Keyword)
    requires a.RequiredWord? || a.AdditionalWord?
    ensures Tells(a, a)
  {
    var d, n := DefinitionWith(a, a), SiblingsWith(a, a);
    var o := Telling(a);
    assert WithSiblings(d, n) == n;
    assert "a" in o.fields && "b" !in o.fields;
    hide Accepts;
    FieldsOnly(d, o, SECOND_ONLY);
    FieldsOnly(n, o, SECOND_ONLY);
    if a.RequiredWord? { assert "b" in d.required; }
  }

  lemma ToldByItems()
    ensures Tells(ItemsWord, ItemsWord)
  {
    var d, n := DefinitionWith(ItemsWord, ItemsWord), SiblingsWith(ItemsWord, ItemsWord);
    var o := Telling(ItemsWord);
    assert WithSiblings(d, n) == n;
    AnythingAccepts(Null, SECOND_ONLY);
    hide Accepts;
    ElementsOnly(d, o, SECOND_ONLY);
    ElementsOnly(n, o, SECOND_ONLY);
  }

  lemma ToldByPrefix()
    ensures Tells(PrefixWord, PrefixWord)
  {
    var d, n := DefinitionWith(PrefixWord, PrefixWord), SiblingsWith(PrefixWord, PrefixWord);
    assert WithSiblings(d, n) == n;
    AnythingAccepts(Null, SECOND_ONLY);
    hide Accepts;
    OneElement(d, TEXT, SECOND_ONLY);
    OneElement(n, ANYTHING, SECOND_ONLY);
  }

  lemma ToldByNothingMore(a: Keyword, b: Keyword)
    requires (a.ItemsWord? && b.PrefixWord?) || (a.PrefixWord? && b.ItemsWord?)
    ensures Tells(a, b)
  {
    var d, n := DefinitionWith(a, b), SiblingsWith(a, b);
    var shut := ANYTHING.(items := NothingMore);
    assert shut == if a.PrefixWord? then n else d;
    AnythingAccepts(Null, SECOND_ONLY);
    hide Accepts;
    ElementsOnly(shut, Telling(a), SECOND_ONLY);
    OneElement(WithSiblings(d, n), ANYTHING, SECOND_ONLY);
  }

  lemma ToldByLimit(a: Keyword)
    requires a.MinWord? || a.MaxWord?
    ensures Tells(a, a)
  {
    var d, n := DefinitionWith(a, a), SiblingsWith(a, a);
    var o := Telling(a);
    assert WithSiblings(d, n) == n;
    hide Accepts;
    ElementsOnly(d, o, SECOND_ONLY);
    ElementsOnly(n, o, SECOND_ONLY);
  }

  lemma ToldByWhole(a: Keyword)
    requires a.TypeWord? || a.EnumWord?
    ensures Tells(a, a)
  {
    var d, n := DefinitionWith(a, a), SiblingsWith(a, a);
    assert WithSiblings(d, n) == n;
  }

  lemma ToldByFacet(f: Facet)
    ensures Tells(FacetWord(f), FacetWord(f))
  {
    var d, n := DefinitionWith(FacetWord(f), FacetWord(f)), SiblingsWith(FacetWord(f), FacetWord(f));
    assert map[f := 0] + map[f := 1] == map[f := 1];
    assert WithSiblings(d, n) == n;
    assert d.facets[f] == 0 && Concerns(f, Telling(FacetWord(f)));
  }

  /** Wherever two keywords clash, there are a definition and siblings with no other keyword that tell. */
  lemma ClashTells(a: Keyword, b: Keyword)
    requires Clash(a, b)
    ensures Tells(a, b)
  {
    hide Tells;
    match a
    case TypeWord => ToldByWhole(a);
    case EnumWord => ToldByWhole(a);
    case FacetWord(f) => ToldByFacet(f);
    case PropsWord => if b.PropsWord? { ToldByProps(); } else { ToldByClosing(a, b); }
    case AdditionalWord => if b.PropsWord? { ToldByClosing(a, b); } else { ToldByRequired(a); }
    case RequiredWord => ToldByRequired(a);
    case ItemsWord => if b.ItemsWord? { ToldByItems(); } else { ToldByNothingMore(a, b); }
    case PrefixWord => if b.PrefixWord? { ToldByPrefix(); } else { ToldByNothingMore(a, b); }
    case MinWord => ToldByLimit(a);
    case MaxWord => ToldByLimit(a);
    case AnyOfWord => ToldByAlternatives(a);
    case OneOfWord => ToldByAlternatives(a);
    case AllOfWord => ToldByAlternatives(a);
  }

  /** Writing siblings over a definition asks for both, whatever stands under the keywords. */
  ghost predicate AsksForBoth(definition: set<Keyword>, siblings: set<Keyword>) {
    forall d, n, v, env | Within(d, definition) && Within(n, siblings) ::
      Accepts(WithSiblings(d, n), v, env) <==> Accepts(d, v, env) && Accepts(n, v, env)
  }

  /** It does exactly when no keyword beside the reference is one of the definition or coupled with one. */
  lemma SiblingsExactly(definition: set<Keyword>, siblings: set<Keyword>)
    ensures AsksForBoth(definition, siblings) <==> forall a, b | a in definition && b in siblings :: !Clash(a, b)
  {
    if a, b :| a in definition && b in siblings && Clash(a, b) {
      ClashTells(a, b);
      OnlyDefinition(a, b);
      OnlySiblings(a, b);
      hide Accepts, WithSiblings, Carries, DefinitionWith, SiblingsWith, Telling;
      var d, n := DefinitionWith(a, b), SiblingsWith(a, b);
      assert Within(d, definition) && Within(n, siblings);
    } else {
      hide Accepts, WithSiblings, Carries;
      forall d, n, v, env | Within(d, definition) && Within(n, siblings)
        ensures Accepts(WithSiblings(d, n), v, env) <==> Accepts(d, v, env) && Accepts(n, v, env)
      {
        assert WithoutRef(n) == n;
        CompatibleMeansBoth(d, n, v, env);
      }
    }
  }
}
