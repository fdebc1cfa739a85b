/** internal/openai/tuple.go with PrepareSchema of schema.go: tuples are sent upstream as objects
    keyed by index, and the objects that come back are turned into arrays again. */
module Tuples {
  import opened Text
  import opened Json
  import opened Schemas
  import opened SchemaRefs

  // ----- converting schemas -----

  function ConvertAll(a: Alts): Alts
    decreases a, 0
  {
    if a.Alts? then Alts(seq(|a.s|, i requires 0 <= i < |a.s| => Convert(a.s[i]))) else NoAlts
  }

  function IndexKeys(n: nat): set<string> {
    set i | 0 <= i < n :: Itoa(i)
  }

  /** The number an index key stands for. */
  function IndexOf(key: string, n: nat): (i: nat)
    requires key in IndexKeys(n)
    ensures i < n && Itoa(i) == key
  {
    var i :| 0 <= i < n && Itoa(i) == key;
    assert forall j | 0 <= j < n && Itoa(j) == key :: j == i by {
      forall j | 0 <= j < n && Itoa(j) == key ensures j == i { ItoaInjective(i, j); }
    }
    i
  }

  /** convertTupleSchemas. */
  function Convert(s: Schema): Schema
    decreases s, 1
  {
    if s.prefix.Alts? then
      var n := |s.prefix.s|;
      s.(types := Single(ObjectType), props := Props(map k | k in IndexKeys(n) :: Convert(s.prefix.s[IndexOf(k, n)])),
         required := IndexKeys(n), additional := Closed, prefix := NoAlts, items := NoItems)
    else
      s.(props := if s.props.Props? then Props(map k | k in s.props.m :: Convert(s.props.m[k])) else NoProps,
         items := if s.items.Items? then Items(Convert(s.items.schema)) else s.items,
         anyOf := ConvertAll(s.anyOf), oneOf := ConvertAll(s.oneOf), allOf := ConvertAll(s.allOf))
  }

  predicate AnyHasTuple(a: Alts)
    decreases a, 0
  {
    a.Alts? && exists i | 0 <= i < |a.s| :: HasTuple(a.s[i])
  }

  /** hasTupleSchemas. */
  predicate HasTuple(s: Schema)
    decreases s, 1
  {
    || s.prefix.Alts?
    || (s.props.Props? && exists k | k in s.props.m :: HasTuple(s.props.m[k]))
    || (s.items.Items? && HasTuple(s.items.schema))
    || AnyHasTuple(s.oneOf) || AnyHasTuple(s.anyOf) || AnyHasTuple(s.allOf)
  }

  /** PrepareSchema, for a schema with tuples. */
  function Prepare(s: Schema): Schema {
    InjectAdditionalProperties(Convert(s))
  }

  // ----- converting values back -----

  function FirstTuple(a: Alts, i: nat): Option<nat>
    requires a.Alts? && i <= |a.s|
    ensures var r := FirstTuple(a, i); r.Some? ==> r.value < |a.s| && HasTuple(a.s[r.value])
    decreases |a.s| - i
  {
    if i == |a.s| then None else if HasTuple(a.s[i]) then Some(i) else FirstTuple(a, i + 1)
  }

  /** The alternative the last loop of reconvertTupleValues descends into. */
  function TupleAlternative(s: Schema): (r: Option<Schema>)
    ensures r.Some? ==> r.value < s
  {
    if s.oneOf.Alts? && FirstTuple(s.oneOf, 0).Some? then Some(s.oneOf.s[FirstTuple(s.oneOf, 0).value])
    else if s.anyOf.Alts? && FirstTuple(s.anyOf, 0).Some? then Some(s.anyOf.s[FirstTuple(s.anyOf, 0).value])
    else if s.allOf.Alts? && FirstTuple(s.allOf, 0).Some? then Some(s.allOf.s[FirstTuple(s.allOf, 0).value])
    else None
  }

  /** The reference a schema leads to before it looks into the value, or "". */
  function Head(s: Schema): string
    decreases s
  {
    if !Blank(s.ref) then s.ref
    else if s.prefix.Alts? || s.props.Props? || s.items.Items? then ""
    else if TupleAlternative(s).Some? then Head(TupleAlternative(s).value)
    else ""
  }

  /** No chain of references that look at the same value is cyclic. */
  predicate NoCyclicChain(defs: Defs, rank: Ranks) {
    rank.Keys == defs.Keys && forall r | r in defs :: Head(defs[r]) in defs ==> rank[Head(defs[r])] < rank[r]
  }

  function RankOf(s: Schema, rank: Ranks): nat {
    if Head(s) in rank then rank[Head(s)] + 1 else 0
  }

  function Weight(data: Json): nat {
    if data.Null? then 0 else 1
  }

  /** reconvertTupleValues. It comes to an end because every step goes into the value, or follows a
      reference to one of lower rank, or goes into the schema. */
  function Reconvert(data: Json, s: Schema, defs: Defs, ghost rank: Ranks): Json
    requires NoCyclicChain(defs, rank)
    decreases Weight(data), data, RankOf(s, rank), s
  {
    if !Blank(s.ref) then
      if s.ref in defs then Reconvert(data, defs[s.ref], defs, rank) else data
    else if s.prefix.Alts? then
      if !data.Obj? then data
      else Arr(seq(|s.prefix.s|, i requires 0 <= i < |s.prefix.s| =>
             if Itoa(i) in data.fields then Reconvert(data.fields[Itoa(i)], s.prefix.s[i], defs, rank)
             else Reconvert(Null, s.prefix.s[i], defs, rank)))
    else if s.props.Props? then
      if !data.Obj? then data
      else Obj(map k | k in data.fields ::
             if k in s.props.m then Reconvert(data.fields[k], s.props.m[k], defs, rank) else data.fields[k])
    else if s.items.Items? then
      if !data.Arr? then data
      else Arr(seq(|data.elems|, i requires 0 <= i < |data.elems| => Reconvert(data.elems[i], s.items.schema, defs, rank)))
    else if TupleAlternative(s).Some? then Reconvert(data, TupleAlternative(s).value, defs, rank)
    else data
  }

  // ----- when the recursion ends -----

  /** The references met before the value is looked into, from that definition on, come to an end within
      n steps. */
  predicate Ends(r: string, defs: Defs, n: nat)
    requires r in defs
    decreases n
  {
    n > 0 && (Head(defs[r]) !in defs || Ends(Head(defs[r]), defs, n - 1))
  }

  lemma {:induction false} EndsLater(r: string, defs: Defs, n: nat, m: nat)
    requires r in defs && n <= m && Ends(r, defs, n)
    ensures Ends(r, defs, m)
    decreases n
  {
    hide Head;
    if Head(defs[r]) in defs { EndsLater(Head(defs[r]), defs, n - 1, m - 1); }
  }

  /** The number of steps. */
  ghost function Length(r: string, defs: Defs, n: nat): (k: nat)
    requires r in defs && Ends(r, defs, n)
    ensures Ends(r, defs, k) && forall j: nat | Ends(r, defs, j) :: k <= j
  {
    if n > 0 && Ends(r, defs, n - 1) then Length(r, defs, n - 1)
    else
      assert forall j: nat | Ends(r, defs, j) :: n <= j by {
        forall j: nat | Ends(r, defs, j) ensures n <= j { if j < n { EndsLater(r, defs, j, n - 1); } }
      }
      n
  }

  ghost predicate AllEnd(defs: Defs) {
    forall r | r in defs :: exists n: nat :: Ends(r, defs, n)
  }

  ghost function StepsOf(r: string, defs: Defs): nat
    requires r in defs && AllEnd(defs)
  {
    var n: nat :| Ends(r, defs, n);
    Length(r, defs, n)
  }

  lemma OneStepLess(r: string, defs: Defs)
    requires r in defs && AllEnd(defs) && Head(defs[r]) in defs
    ensures StepsOf(Head(defs[r]), defs) < StepsOf(r, defs)
  {
    hide Head;
    ChainStep(r, defs, StepsOf(r, defs) - 1);
  }

  lemma ChainStep(r: string, defs: Defs, n: nat)
    requires r in defs && Head(defs[r]) in defs
    ensures Ends(r, defs, n + 1) <==> Ends(Head(defs[r]), defs, n)
  {
    hide Head;
  }

  lemma {:induction false} RankedEnds(r: string, defs: Defs, rank: Ranks)
    requires NoCyclicChain(defs, rank) && r in defs
    ensures Ends(r, defs, rank[r] + 1)
    decreases rank[r]
  {
    hide Head;
    var next := Head(defs[r]);
    if next in defs {
      RankedEnds(next, defs, rank);
      EndsLater(next, defs, rank[next] + 1, rank[r]);
    }
  }

  /** There are ranks for the references exactly when no chain of them goes on forever. */
  lemma RankedExactly(defs: Defs)
    ensures (exists rank :: NoCyclicChain(defs, rank)) <==> AllEnd(defs)
  {
    hide Head, Ends;
    if rank :| NoCyclicChain(defs, rank) {
      forall r | r in defs ensures exists n: nat :: Ends(r, defs, n) { RankedEnds(r, defs, rank); }
    }
    if AllEnd(defs) {
      hide StepsOf, AllEnd;
      var rank := map r | r in defs :: StepsOf(r, defs);
      forall r | r in defs && Head(defs[r]) in defs ensures rank[Head(defs[r])] < rank[r] { OneStepLess(r, defs); }
      assert NoCyclicChain(defs, rank);
    }
  }

  /** reconvertTupleValues comes to an end with at most that many calls inside each other. */
  predicate Halts(data: Json, s: Schema, defs: Defs, depth: nat)
    decreases depth
  {
    && depth > 0
    && (if !Blank(s.ref) then s.ref in defs ==> Halts(data, defs[s.ref], defs, depth - 1)
        else if s.prefix.Alts? then
          data.Obj? ==> forall i | 0 <= i < |s.prefix.s| ::
            Halts(if Itoa(i) in data.fields then data.fields[Itoa(i)] else Null, s.prefix.s[i], defs, depth - 1)
        else if s.props.Props? then
          data.Obj? ==> forall k | k in data.fields && k in s.props.m :: Halts(data.fields[k], s.props.m[k], defs, depth - 1)
        else if s.items.Items? then
          data.Arr? ==> forall i | 0 <= i < |data.elems| :: Halts(data.elems[i], s.items.schema, defs, depth - 1)
        else if TupleAlternative(s).Some? then Halts(data, TupleAlternative(s).value, defs, depth - 1)
        else true)
  }

  /** A value that meets a chain of references which goes on forever is never done. */
  lemma {:induction false} EndlessChainNeverHalts(data: Json, s: Schema, defs: Defs, depth: nat)
    requires "" !in defs && Head(s) in defs && forall n: nat :: !Ends(Head(s), defs, n)
    ensures !Halts(data, s, defs, depth)
    decreases depth
  {
    if Halts(data, s, defs, depth) {
      if !Blank(s.ref) {
        var d := defs[s.ref];
        assert Head(s) == s.ref;
        assert !Ends(s.ref, defs, 1);
        forall n: nat ensures !Ends(Head(d), defs, n) { ChainStep(s.ref, defs, n); }
        EndlessChainNeverHalts(data, d, defs, depth - 1);
      } else {
        assert Head(s) == Head(TupleAlternative(s).value);
        EndlessChainNeverHalts(data, TupleAlternative(s).value, defs, depth - 1);
      }
    }
  }

  // ----- what comes back is accepted -----

  /** Tuples, objects with properties, arrays with items, references and leaves, each on its own;
      enumerations on leaves only; a tuple allows arrays of its own length. */
  predicate Fragment(s: Schema)
    decreases s
  {
    && (s.ref != "" ==> !Blank(s.ref) && s == ANYTHING.(ref := s.ref))
    && s.anyOf.NoAlts? && s.oneOf.NoAlts? && s.allOf.NoAlts?
    && (s.prefix.Alts? || s.props.Props? || s.items.Items? ==> s.enum.None?)
    && (s.prefix.Alts? ==> TypeAllows(s.types, Arr([])) && LengthAllowed(s, |s.prefix.s|))
    && (s.prefix.Alts? ==> forall i | 0 <= i < |s.prefix.s| :: Fragment(s.prefix.s[i]))
    && (s.prefix.NoAlts? && s.props.Props? ==> !s.items.Items? && forall k | k in s.props.m :: Fragment(s.props.m[k]))
    && (s.prefix.NoAlts? && s.items.Items? ==> Fragment(s.items.schema))
  }

  /** References mean their definitions: as the client wrote them, and as they were prepared. */
  ghost predicate Prepared(env: Env, env': Env, defs: Defs) {
    && Models(env, defs)
    && (forall r, v | r in defs :: env'.ref(r, v) <==> Accepts(Prepare(defs[r]), v, env'))
    && (forall r, v | r !in defs :: env'.ref(r, v) ==> env.ref(r, v))
    && env'.enum == env.enum && env'.facet == env.facet
  }

  lemma PreparedTuple(s: Schema)
    requires s.prefix.Alts?
    ensures var t, n := Prepare(s), |s.prefix.s|;
      && t.types == Single(ObjectType) && t.required == IndexKeys(n) && t.additional == Closed && t.ref == s.ref
      && t.props.Props? && t.props.m.Keys == IndexKeys(n)
      && (forall i | 0 <= i < n :: Itoa(i) in t.props.m && t.props.m[Itoa(i)] == Prepare(s.prefix.s[i]))
  {
    hide Itoa;
    var n := |s.prefix.s|;
    forall i | 0 <= i < n ensures Itoa(i) in IndexKeys(n) && IndexOf(Itoa(i), n) == i {
      ItoaInjective(i, IndexOf(Itoa(i), n));
    }
  }

  lemma PreparedOther(s: Schema)
    requires s.prefix.NoAlts?
    ensures var t := Prepare(s);
      && t.types == s.types && t.enum == s.enum && t.facets == s.facets && t.ref == s.ref && t.required == s.required
      && t.minItems == s.minItems && t.maxItems == s.maxItems && t.prefix.NoAlts?
      && (s.props.Props? ==> t.props.Props? && t.props.m.Keys == s.props.m.Keys
                             && forall k | k in s.props.m :: t.props.m[k] == Prepare(s.props.m[k]))
      && (s.props.NoProps? && t.props.Props? ==> t.props.m == map[])
      && (s.items.Items? ==> t.items == Items(Prepare(s.items.schema)))
      && (!s.items.Items? ==> t.items == s.items)
      && (s.additional == Closed ==> t.additional == Closed)
      && (t.additional == Closed ==> s.additional == Closed || s.types == Single(ObjectType))
  {
    assert Convert(s).prefix.NoAlts? && CloseAll(NoAlts).NoAlts?;
  }

  lemma {:induction false} ReconvertAccepted(v: Json, s: Schema, defs: Defs, rank: Ranks, env: Env, env': Env)
    requires NoCyclicChain(defs, rank) && Prepared(env, env', defs)
    requires Fragment(s) && (forall r | r in defs :: Fragment(defs[r])) && Accepts(Prepare(s), v, env')
    ensures Accepts(s, Reconvert(v, s, defs, rank), env)
    decreases Weight(v), v, RankOf(s, rank), s
  {
    if s.ref != "" {
      FollowReference(v, s, env');
      BareReference(s, env);
      if s.ref in defs {
        hide Accepts, Fragment, Prepare;
        ReconvertAccepted(v, defs[s.ref], defs, rank, env, env');
      }
    } else {
      BlankEmpty();
      hide Accepts, Prepare, Prepared, Reconvert;
      if s.prefix.Alts? {
        TupleAccepted(v, s, defs, rank, env, env');
      } else if s.props.Props? && v.Obj? {
        ObjectAccepted(v, s, defs, rank, env, env');
      } else if s.items.Items? && v.Arr? {
        ArrayAccepted(v, s, defs, rank, env, env');
      } else {
        LeafAccepted(v, s, defs, rank, env, env');
      }
    }
  }

  lemma BlankEmpty()
    ensures Blank("")
  {}

  lemma FollowReference(v: Json, s: Schema, env': Env)
    requires s == ANYTHING.(ref := s.ref) && s.ref != ""
    ensures Accepts(Prepare(s), v, env') ==> env'.ref(s.ref, v)
  {
    PreparedOther(s);
    hide Prepare;
  }

  /** What the checks on the value as a whole say once it has been converted. */
  lemma WholeConverted(s: Schema, t: Schema, v: Json, env: Env, env': Env)
    requires s.ref == "" && t.types == s.types && t.enum == s.enum && t.facets == s.facets
    requires env'.enum == env.enum && env'.facet == env.facet && AcceptsWhole(t, v, env')
    ensures AcceptsWhole(s, v, env)
  {}

  lemma SameShapeWhole(s: Schema, v: Json, w: Json, env: Env)
    requires AcceptsWhole(s, v, env) && s.ref == "" && s.enum.None?
    requires (v.Obj? && w.Obj?) || (v.Arr? && w.Arr?)
    ensures AcceptsWhole(s, w, env)
  {}

  lemma LeafAccepted(v: Json, s: Schema, defs: Defs, rank: Ranks, env: Env, env': Env)
    requires NoCyclicChain(defs, rank) && Prepared(env, env', defs) && Fragment(s) && Accepts(Prepare(s), v, env')
    requires s.ref == "" && s.prefix.NoAlts?
    requires !(s.props.Props? && v.Obj?) && !(s.items.Items? && v.Arr?)
    ensures Accepts(s, Reconvert(v, s, defs, rank), env)
  {
    BlankEmpty();
    PreparedOther(s);
    assert Reconvert(v, s, defs, rank) == v;
    WholeConverted(s, Prepare(s), v, env, env');
    hide Prepare, Blank, AcceptsWhole, Reconvert, Prepared, NoCyclicChain;
    LeafParts(s, Prepare(s), v, env, env');
  }

  lemma LeafParts(s: Schema, t: Schema, v: Json, env: Env, env': Env)
    requires s.prefix.NoAlts? && t.prefix.NoAlts? && t.required == s.required
    requires s.anyOf.NoAlts? && s.oneOf.NoAlts? && s.allOf.NoAlts?
    requires t.minItems == s.minItems && t.maxItems == s.maxItems && (s.additional == Closed ==> t.additional == Closed)
    requires (!s.items.Items? ==> t.items == s.items) && (s.props.NoProps? && t.props.Props? ==> t.props.m == map[])
    requires AcceptsWhole(s, v, env) && Accepts(t, v, env')
    requires !(s.props.Props? && v.Obj?) && !(s.items.Items? && v.Arr?)
    ensures Accepts(s, v, env)
  {
    hide AcceptsWhole;
    if v.Obj? {
      assert AcceptsFields(t, v.fields, env');
      assert t.props.Props? ==> AcceptsProps(t, t.props.m, v.fields, env');
      assert t.additional == Closed && t.props.NoProps? ==> v.fields == map[];
    }
    if v.Arr? { assert AcceptsElements(t, v.elems, env'); }
  }

  lemma ArrayFromElements(s: Schema, v: seq<Json>, w: seq<Json>, env: Env)
    requires s.props.NoProps? && s.prefix.NoAlts? && s.items.Items?
    requires s.anyOf.NoAlts? && s.oneOf.NoAlts? && s.allOf.NoAlts?
    requires AcceptsWhole(s, Arr(w), env) && |w| == |v| && LengthAllowed(s, |v|)
    requires forall i | 0 <= i < |w| :: Accepts(s.items.schema, w[i], env)
    ensures Accepts(s, Arr(w), env)
  {
    hide AcceptsWhole;
  }

  lemma PreparedElements(s: Schema, v: seq<Json>, env': Env)
    requires s.prefix.NoAlts? && s.items.Items? && Accepts(Prepare(s), Arr(v), env')
    ensures LengthAllowed(s, |v|) && forall i | 0 <= i < |v| :: Accepts(Prepare(s.items.schema), v[i], env')
  {
    PreparedOther(s);
    hide Prepare, AcceptsWhole;
    assert AcceptsElements(Prepare(s), v, env');
  }

  lemma ArrayAccepted(v: Json, s: Schema, defs: Defs, rank: Ranks, env: Env, env': Env)
    requires NoCyclicChain(defs, rank) && Prepared(env, env', defs)
    requires Fragment(s) && (forall r | r in defs :: Fragment(defs[r])) && Accepts(Prepare(s), v, env')
    requires s.ref == "" && s.prefix.NoAlts? && s.props.NoProps? && s.items.Items? && v.Arr?
    ensures Accepts(s, Reconvert(v, s, defs, rank), env)
    decreases Weight(v), v, RankOf(s, rank), s, 0
  {
    BlankEmpty();
    PreparedOther(s);
    var t, r := Prepare(s), Reconvert(v, s, defs, rank);
    WholeConverted(s, t, v, env, env');
    SameShapeWhole(s, v, r, env);
    PreparedElements(s, v.elems, env');
    hide Prepare, Blank, AcceptsWhole, Prepared, NoCyclicChain, Accepts;
    forall i | 0 <= i < |v.elems| ensures Accepts(s.items.schema, r.elems[i], env) {
      ReconvertAccepted(v.elems[i], s.items.schema, defs, rank, env, env');
    }
    ArrayFromElements(s, v.elems, r.elems, env);
  }

  /** An object node on its own accepts what its properties accept. */
  lemma ObjectFromFields(s: Schema, v: Fields, w: Fields, env: Env)
    requires s.props.Props? && s.prefix.NoAlts? && s.anyOf.NoAlts? && s.oneOf.NoAlts? && s.allOf.NoAlts?
    requires AcceptsWhole(s, Obj(w), env) && w.Keys == v.Keys
    requires (forall k | k in s.required :: k in v) && (s.additional == Closed ==> forall k | k in v :: k in s.props.m)
    requires forall k | k in s.props.m && k in w :: Accepts(s.props.m[k], w[k], env)
    ensures Accepts(s, Obj(w), env)
  {
    hide AcceptsWhole;
    assert AcceptsFields(s, w, env);
  }

  lemma ObjectAccepted(v: Json, s: Schema, defs: Defs, rank: Ranks, env: Env, env': Env)
    requires NoCyclicChain(defs, rank) && Prepared(env, env', defs)
    requires Fragment(s) && (forall r | r in defs :: Fragment(defs[r])) && Accepts(Prepare(s), v, env')
    requires s.ref == "" && s.prefix.NoAlts? && s.props.Props? && v.Obj?
    ensures Accepts(s, Reconvert(v, s, defs, rank), env)
    decreases Weight(v), v, RankOf(s, rank), s, 0
  {
    BlankEmpty();
    PreparedOther(s);
    var t, r := Prepare(s), Reconvert(v, s, defs, rank);
    WholeConverted(s, t, v, env, env');
    SameShapeWhole(s, v, r, env);
    PreparedField(s, v.fields, env');
    hide Prepare, Blank, AcceptsWhole, Prepared, NoCyclicChain, Accepts;
    forall k | k in s.props.m && k in r.fields ensures Accepts(s.props.m[k], r.fields[k], env) {
      ReconvertAccepted(v.fields[k], s.props.m[k], defs, rank, env, env');
    }
    ObjectFromFields(s, v.fields, r.fields, env);
  }

  lemma PreparedField(s: Schema, v: Fields, env': Env)
    requires s.prefix.NoAlts? && s.props.Props? && Accepts(Prepare(s), Obj(v), env')
    ensures forall k | k in s.props.m && k in v :: Accepts(Prepare(s.props.m[k]), v[k], env')
    ensures forall k | k in s.required :: k in v
    ensures s.additional == Closed ==> forall k | k in v :: k in s.props.m
  {
    PreparedOther(s);
    hide Prepare, AcceptsWhole;
    var t := Prepare(s);
    assert AcceptsProps(t, t.props.m, v, env');
    forall k | k in s.props.m && k in v ensures Accepts(Prepare(s.props.m[k]), v[k], env') {
      assert Accepts(t.props.m[k], v[k], env');
    }
  }

  lemma PreparedElement(s: Schema, v: Json, i: nat, env': Env)
    requires s.prefix.Alts? && Accepts(Prepare(s), v, env') && i < |s.prefix.s|
    ensures v.Obj? && Itoa(i) in v.fields && Accepts(Prepare(s.prefix.s[i]), v.fields[Itoa(i)], env')
  {
    PreparedTuple(s);
    PreparedIsObject(s, v, env');
    hide Prepare, Itoa, AcceptsWhole, IndexKeys;
    var t, key := Prepare(s), Itoa(i);
    assert AcceptsFields(t, v.fields, env');
    assert key in t.required && key in v.fields && Accepts(t.props.m[key], v.fields[key], env');
  }

  lemma PreparedIsObject(s: Schema, v: Json, env': Env)
    requires s.prefix.Alts? && Accepts(Prepare(s), v, env')
    ensures v.Obj?
  {
    PreparedTuple(s);
    hide Prepare, Itoa;
  }

  /** A tuple node accepts an array of its length whose elements are accepted. */
  lemma TupleFromElements(s: Schema, w: seq<Json>, env: Env)
    requires Fragment(s) && s.ref == "" && s.prefix.Alts? && |w| == |s.prefix.s|
    requires forall i | 0 <= i < |w| :: Accepts(s.prefix.s[i], w[i], env)
    ensures Accepts(s, Arr(w), env)
  {
    assert AcceptsWhole(s, Arr(w), env);
    hide AcceptsWhole;
  }

  lemma TupleAccepted(v: Json, s: Schema, defs: Defs, rank: Ranks, env: Env, env': Env)
    requires NoCyclicChain(defs, rank) && Prepared(env, env', defs)
    requires Fragment(s) && (forall r | r in defs :: Fragment(defs[r])) && Accepts(Prepare(s), v, env')
    requires s.ref == "" && s.prefix.Alts?
    ensures Accepts(s, Reconvert(v, s, defs, rank), env)
    decreases Weight(v), v, RankOf(s, rank), s, 0
  {
    BlankEmpty();
    PreparedIsObject(s, v, env');
    assert forall i | 0 <= i < |s.prefix.s| :: Fragment(s.prefix.s[i]);
    hide Prepare, Blank, Itoa, Accepts, Prepared, NoCyclicChain, Fragment;
    var r := Reconvert(v, s, defs, rank);
    forall i | 0 <= i < |s.prefix.s| ensures Accepts(s.prefix.s[i], r.elems[i], env) {
      PreparedElement(s, v, i, env');
      ReconvertAccepted(v.fields[Itoa(i)], s.prefix.s[i], defs, rank, env, env');
    }
    TupleFromElements(s, r.elems, env);
  }

  // ----- and the other way -----

  /** The object an array is sent as where the schema has a tuple of its length. */
  function Encode(w: Json, s: Schema, defs: Defs, ghost rank: Ranks): Json
    requires NoCyclicChain(defs, rank)
    decreases w, RankOf(s, rank), s
  {
    if !Blank(s.ref) then
      if s.ref in defs then Encode(w, defs[s.ref], defs, rank) else w
    else if s.prefix.Alts? then
      if w.Arr? && |w.elems| == |s.prefix.s| then
        Obj(map k | k in IndexKeys(|w.elems|) ::
              Encode(w.elems[IndexOf(k, |w.elems|)], s.prefix.s[IndexOf(k, |w.elems|)], defs, rank))
      else w
    else if s.props.Props? then
      if w.Obj? then
        Obj(map k | k in w.fields :: if k in s.props.m then Encode(w.fields[k], s.props.m[k], defs, rank) else w.fields[k])
      else w
    else if s.items.Items? && w.Arr? then
      Arr(seq(|w.elems|, i requires 0 <= i < |w.elems| => Encode(w.elems[i], s.items.schema, defs, rank)))
    else w
  }

  /** Where the schema has a tuple, the value has an array of its length. */
  predicate Exact(w: Json, s: Schema, defs: Defs, ghost rank: Ranks)
    requires NoCyclicChain(defs, rank)
    decreases w, RankOf(s, rank), s
  {
    if !Blank(s.ref) then s.ref in defs ==> Exact(w, defs[s.ref], defs, rank)
    else if s.prefix.Alts? then
      w.Arr? && |w.elems| == |s.prefix.s| && forall i | 0 <= i < |w.elems| :: Exact(w.elems[i], s.prefix.s[i], defs, rank)
    else if s.props.Props? then w.Obj? ==> forall k | k in w.fields && k in s.props.m :: Exact(w.fields[k], s.props.m[k], defs, rank)
    else s.items.Items? && w.Arr? ==> forall i | 0 <= i < |w.elems| :: Exact(w.elems[i], s.items.schema, defs, rank)
  }

  /** Tuples survive the round trip. */
  lemma {:induction false} EncodeThenReconvert(w: Json, s: Schema, defs: Defs, rank: Ranks)
    requires NoCyclicChain(defs, rank) && Exact(w, s, defs, rank)
    requires Fragment(s) && forall r | r in defs :: Fragment(defs[r])
    ensures Reconvert(Encode(w, s, defs, rank), s, defs, rank) == w
    decreases w, RankOf(s, rank), s
  {
    if s.ref != "" {
      if s.ref in defs {
        hide Fragment;
        EncodeThenReconvert(w, defs[s.ref], defs, rank);
      }
    } else {
      BlankEmpty();
      if s.prefix.Alts? {
        hide Blank, Fragment;
        TupleRoundTrip(w, s, defs, rank);
      } else if s.props.Props? && w.Obj? {
        hide Blank, Fragment;
        ObjectRoundTrip(w, s, defs, rank);
      } else if s.props.NoProps? && s.items.Items? && w.Arr? {
        hide Blank, Fragment;
        ArrayRoundTrip(w, s, defs, rank);
      }
    }
  }

  lemma ObjectRoundTrip(w: Json, s: Schema, defs: Defs, rank: Ranks)
    requires NoCyclicChain(defs, rank) && Exact(w, s, defs, rank)
    requires s.prefix.NoAlts? && s.ref == "" && s.props.Props? && w.Obj?
    requires Fragment(s) && forall r | r in defs :: Fragment(defs[r])
    ensures Reconvert(Encode(w, s, defs, rank), s, defs, rank) == w
    decreases w, RankOf(s, rank), s, 0
  {
    BlankEmpty();
    assert forall k | k in s.props.m :: Fragment(s.props.m[k]);
    hide Fragment, Blank;
    var e := Encode(w, s, defs, rank);
    forall k | k in w.fields && k in s.props.m ensures Reconvert(e.fields[k], s.props.m[k], defs, rank) == w.fields[k] {
      EncodeThenReconvert(w.fields[k], s.props.m[k], defs, rank);
    }
    assert Reconvert(e, s, defs, rank).fields == w.fields;
  }

  lemma ArrayRoundTrip(w: Json, s: Schema, defs: Defs, rank: Ranks)
    requires NoCyclicChain(defs, rank) && Exact(w, s, defs, rank)
    requires s.prefix.NoAlts? && s.ref == "" && s.props.NoProps? && s.items.Items? && w.Arr?
    requires Fragment(s) && forall r | r in defs :: Fragment(defs[r])
    ensures Reconvert(Encode(w, s, defs, rank), s, defs, rank) == w
    decreases w, RankOf(s, rank), s, 0
  {
    BlankEmpty();
    hide Blank;
    var e := Encode(w, s, defs, rank);
    forall i | 0 <= i < |w.elems| ensures Reconvert(e.elems[i], s.items.schema, defs, rank) == w.elems[i] {
      EncodeThenReconvert(w.elems[i], s.items.schema, defs, rank);
    }
    assert Reconvert(e, s, defs, rank).elems == w.elems;
  }

  lemma TupleRoundTrip(w: Json, s: Schema, defs: Defs, rank: Ranks)
    requires NoCyclicChain(defs, rank) && Exact(w, s, defs, rank) && s.prefix.Alts? && s.ref == ""
    requires Fragment(s) && forall r | r in defs :: Fragment(defs[r])
    ensures Reconvert(Encode(w, s, defs, rank), s, defs, rank) == w
    decreases w, RankOf(s, rank), s, 0
  {
    BlankEmpty();
    assert forall i | 0 <= i < |s.prefix.s| :: Fragment(s.prefix.s[i]);
    hide Fragment, Itoa, Blank;
    var e := Encode(w, s, defs, rank);
    forall i | 0 <= i < |w.elems| ensures Reconvert(e, s, defs, rank).elems[i] == w.elems[i] {
      EncodedAt(w, s, i, defs, rank);
      EncodeThenReconvert(w.elems[i], s.prefix.s[i], defs, rank);
    }
    assert Reconvert(e, s, defs, rank).elems == w.elems;
  }

  lemma EncodedAt(w: Json, s: Schema, i: nat, defs: Defs, rank: Ranks)
    requires NoCyclicChain(defs, rank) && s.prefix.Alts? && s.ref == ""
    requires w.Arr? && |w.elems| == |s.prefix.s| && i < |w.elems|
    ensures var e := Encode(w, s, defs, rank);
      e.Obj? && Itoa(i) in e.fields && e.fields[Itoa(i)] == Encode(w.elems[i], s.prefix.s[i], defs, rank)
  {
    BlankEmpty();
    hide Itoa, Blank;
    assert Itoa(i) in IndexKeys(|w.elems|);
    ItoaInjective(i, IndexOf(Itoa(i), |w.elems|));
  }

  /** No undeclared property where preparing closes an object node. */
  predicate Declared(w: Json, s: Schema, defs: Defs, ghost rank: Ranks)
    requires NoCyclicChain(defs, rank)
    decreases w, RankOf(s, rank), s
  {
    if !Blank(s.ref) then s.ref in defs ==> Declared(w, defs[s.ref], defs, rank)
    else
      && (s.prefix.NoAlts? && s.types == Single(ObjectType) && w.Obj? ==>
            forall k | k in w.fields :: s.props.Props? && k in s.props.m)
      && (s.prefix.Alts? && w.Arr? && |w.elems| == |s.prefix.s| ==>
            forall i | 0 <= i < |w.elems| :: Declared(w.elems[i], s.prefix.s[i], defs, rank))
      && (s.prefix.NoAlts? && s.props.Props? && w.Obj? ==>
            forall k | k in w.fields && k in s.props.m :: Declared(w.fields[k], s.props.m[k], defs, rank))
      && (s.prefix.NoAlts? && s.items.Items? && w.Arr? ==>
            forall i | 0 <= i < |w.elems| :: Declared(w.elems[i], s.items.schema, defs, rank))
  }

  /** Every exact value the client's schema accepts can be sent: in its encoded form the prepared
      schema accepts it. */
  lemma {:induction false} EncodedIsAccepted(w: Json, s: Schema, defs: Defs, rank: Ranks, env: Env, env': Env)
    requires NoCyclicChain(defs, rank) && Prepared(env, env', defs) && (forall r, v | r !in defs :: env.ref(r, v) ==> env'.ref(r, v))
    requires Exact(w, s, defs, rank) && Declared(w, s, defs, rank) && Accepts(s, w, env)
    requires Fragment(s) && forall r | r in defs :: Fragment(defs[r])
    ensures Accepts(Prepare(s), Encode(w, s, defs, rank), env')
    decreases w, RankOf(s, rank), s
  {
    if s.ref != "" {
      BareReference(s, env);
      PrepareReference(s, env');
      if s.ref in defs {
        hide Accepts, Fragment, Prepare;
        EncodedIsAccepted(w, defs[s.ref], defs, rank, env, env');
      }
    } else {
      BlankEmpty();
      hide Accepts, Prepare, Prepared, Encode, Exact, Declared;
      if s.prefix.Alts? {
        EncodedTuple(w, s, defs, rank, env, env');
      } else if s.props.Props? && w.Obj? {
        EncodedObject(w, s, defs, rank, env, env');
      } else if s.items.Items? && w.Arr? {
        EncodedArray(w, s, defs, rank, env, env');
      } else {
        EncodedLeaf(w, s, defs, rank, env, env');
      }
    }
  }

  lemma PrepareReference(s: Schema, env': Env)
    requires s == ANYTHING.(ref := s.ref) && s.ref != ""
    ensures forall v :: Accepts(Prepare(s), v, env') <==> env'.ref(s.ref, v)
  {
    assert Prepare(s) == s by {
      assert ConvertAll(NoAlts) == NoAlts == CloseAll(NoAlts);
      assert Convert(s) == s;
    }
    hide Prepare;
    BareReference(s, env');
  }

  lemma NoAlternatives(s: Schema)
    requires s.prefix.NoAlts? && s.anyOf.NoAlts? && s.oneOf.NoAlts? && s.allOf.NoAlts?
    ensures Prepare(s).anyOf.NoAlts? && Prepare(s).oneOf.NoAlts? && Prepare(s).allOf.NoAlts?
  {
    assert ConvertAll(NoAlts) == NoAlts == CloseAll(NoAlts);
  }

  lemma WholePrepared(s: Schema, w: Json, env: Env, env': Env)
    requires s.ref == "" && s.prefix.NoAlts? && AcceptsWhole(s, w, env) && env'.enum == env.enum && env'.facet == env.facet
    ensures AcceptsWhole(Prepare(s), w, env')
  {
    PreparedOther(s);
    hide Prepare;
  }

  lemma EncodedLeaf(w: Json, s: Schema, defs: Defs, rank: Ranks, env: Env, env': Env)
    requires NoCyclicChain(defs, rank) && Prepared(env, env', defs)
    requires Declared(w, s, defs, rank) && Accepts(s, w, env) && Fragment(s)
    requires s.ref == "" && s.prefix.NoAlts? && !(s.props.Props? && w.Obj?) && !(s.items.Items? && w.Arr?)
    ensures Accepts(Prepare(s), Encode(w, s, defs, rank), env')
  {
    BlankEmpty();
    PreparedOther(s);
    NoAlternatives(s);
    WholePrepared(s, w, env, env');
    assert Encode(w, s, defs, rank) == w;
    assert w.Obj? && s.types == Single(ObjectType) ==> w.fields == map[];
    hide Prepare, Blank, AcceptsWhole, Encode, Prepared, NoCyclicChain, Declared, Accepts;
    LeafUp(s, Prepare(s), w, env, env');
  }

  lemma LeafUp(s: Schema, t: Schema, w: Json, env: Env, env': Env)
    requires s.prefix.NoAlts? && t.prefix.NoAlts? && t.required == s.required
    requires t.anyOf.NoAlts? && t.oneOf.NoAlts? && t.allOf.NoAlts?
    requires t.minItems == s.minItems && t.maxItems == s.maxItems && (!s.items.Items? ==> t.items == s.items)
    requires s.props.NoProps? && t.props.Props? ==> t.props.m == map[]
    requires w.Obj? && t.additional == Closed ==> s.additional == Closed || w.fields == map[]
    requires AcceptsWhole(t, w, env') && Accepts(s, w, env)
    requires !(s.props.Props? && w.Obj?) && !(s.items.Items? && w.Arr?)
    ensures Accepts(t, w, env')
  {
    hide AcceptsWhole;
    if w.Obj? {
      assert AcceptsFields(s, w.fields, env);
      assert t.props.Props? ==> AcceptsProps(t, t.props.m, w.fields, env');
    }
    if w.Arr? { assert AcceptsElements(s, w.elems, env); }
  }

  lemma EncodedArray(w: Json, s: Schema, defs: Defs, rank: Ranks, env: Env, env': Env)
    requires NoCyclicChain(defs, rank) && Prepared(env, env', defs) && (forall r, v | r !in defs :: env.ref(r, v) ==> env'.ref(r, v))
    requires Exact(w, s, defs, rank) && Declared(w, s, defs, rank) && Accepts(s, w, env)
    requires Fragment(s) && forall r | r in defs :: Fragment(defs[r])
    requires s.ref == "" && s.prefix.NoAlts? && s.props.NoProps? && s.items.Items? && w.Arr?
    ensures Accepts(Prepare(s), Encode(w, s, defs, rank), env')
    decreases w, RankOf(s, rank), s, 0
  {
    BlankEmpty();
    PreparedOther(s);
    NoAlternatives(s);
    var e := Encode(w, s, defs, rank);
    SameShapeWhole(s, w, e, env);
    WholePrepared(s, e, env, env');
    assert forall i | 0 <= i < |w.elems| :: Accepts(s.items.schema, w.elems[i], env);
    hide Prepare, Blank, AcceptsWhole, Prepared, NoCyclicChain, Fragment;
    forall i | 0 <= i < |w.elems| ensures Accepts(Prepare(s.items.schema), e.elems[i], env') {
      EncodedIsAccepted(w.elems[i], s.items.schema, defs, rank, env, env');
    }
    assert LengthAllowed(s, |w.elems|);
    hide Accepts;
    ArrayAccepts(Prepare(s), e.elems, env');
  }

  lemma ArrayAccepts(t: Schema, w: seq<Json>, env: Env)
    requires t.prefix.NoAlts? && t.items.Items? && t.anyOf.NoAlts? && t.oneOf.NoAlts? && t.allOf.NoAlts?
    requires AcceptsWhole(t, Arr(w), env) && LengthAllowed(t, |w|)
    requires forall i | 0 <= i < |w| :: Accepts(t.items.schema, w[i], env)
    ensures Accepts(t, Arr(w), env)
  {
    hide AcceptsWhole;
  }

  lemma EncodedObject(w: Json, s: Schema, defs: Defs, rank: Ranks, env: Env, env': Env)
    requires NoCyclicChain(defs, rank) && Prepared(env, env', defs) && (forall r, v | r !in defs :: env.ref(r, v) ==> env'.ref(r, v))
    requires Exact(w, s, defs, rank) && Declared(w, s, defs, rank) && Accepts(s, w, env)
    requires Fragment(s) && forall r | r in defs :: Fragment(defs[r])
    requires s.ref == "" && s.prefix.NoAlts? && s.props.Props? && w.Obj?
    ensures Accepts(Prepare(s), Encode(w, s, defs, rank), env')
    decreases w, RankOf(s, rank), s, 0
  {
    BlankEmpty();
    PreparedOther(s);
    NoAlternatives(s);
    var t, e := Prepare(s), Encode(w, s, defs, rank);
    SameShapeWhole(s, w, e, env);
    WholePrepared(s, e, env, env');
    AcceptedField(s, w.fields, env);
    assert forall k | k in s.props.m :: Fragment(s.props.m[k]);
    hide Prepare, Blank, AcceptsWhole, Prepared, NoCyclicChain, Fragment, Accepts;
    forall k | k in t.props.m && k in e.fields ensures Accepts(t.props.m[k], e.fields[k], env') {
      EncodedIsAccepted(w.fields[k], s.props.m[k], defs, rank, env, env');
    }
    ObjectFromFields(t, w.fields, e.fields, env');
  }

  lemma AcceptedField(s: Schema, w: Fields, env: Env)
    requires s.props.Props? && Accepts(s, Obj(w), env)
    ensures (forall k | k in s.props.m && k in w :: Accepts(s.props.m[k], w[k], env)) && (forall k | k in s.required :: k in w)
    ensures s.additional == Closed ==> forall k | k in w :: k in s.props.m
  {
    assert AcceptsProps(s, s.props.m, w, env);
    hide AcceptsWhole;
  }

  lemma EncodedTuple(w: Json, s: Schema, defs: Defs, rank: Ranks, env: Env, env': Env)
    requires NoCyclicChain(defs, rank) && Prepared(env, env', defs) && (forall r, v | r !in defs :: env.ref(r, v) ==> env'.ref(r, v))
    requires Exact(w, s, defs, rank) && Declared(w, s, defs, rank) && Accepts(s, w, env)
    requires Fragment(s) && forall r | r in defs :: Fragment(defs[r])
    requires s.ref == "" && s.prefix.Alts?
    ensures Accepts(Prepare(s), Encode(w, s, defs, rank), env')
    decreases w, RankOf(s, rank), s, 1
  {
    BlankEmpty();
    PreparedTuple(s);
    TupleWhole(s, env');
    assert w.Arr? && |w.elems| == |s.prefix.s|;
    hide Prepare, Blank, AcceptsWhole, Prepared, NoCyclicChain, Fragment, Accepts, Itoa, Exact, Declared;
    var t, e, n := Prepare(s), Encode(w, s, defs, rank), |s.prefix.s|;
    assert e.Obj? && e.fields.Keys == IndexKeys(n);
    hide Encode, IndexKeys;
    forall k | k in t.props.m && k in e.fields ensures Accepts(t.props.m[k], e.fields[k], env') {
      var i := IndexOf(k, n);
      EncodedMember(w, s, i, defs, rank, env, env');
    }
    hide IndexOf;
    ObjectFromFields(t, e.fields, e.fields, env');
  }

  lemma EncodedMember(w: Json, s: Schema, i: nat, defs: Defs, rank: Ranks, env: Env, env': Env)
    requires NoCyclicChain(defs, rank) && Prepared(env, env', defs) && (forall r, v | r !in defs :: env.ref(r, v) ==> env'.ref(r, v))
    requires Exact(w, s, defs, rank) && Declared(w, s, defs, rank) && Accepts(s, w, env)
    requires Fragment(s) && forall r | r in defs :: Fragment(defs[r])
    requires s.ref == "" && s.prefix.Alts? && i < |s.prefix.s|
    ensures var e := Encode(w, s, defs, rank);
      e.Obj? && Itoa(i) in e.fields && Accepts(Prepare(s.prefix.s[i]), e.fields[Itoa(i)], env')
    decreases w, RankOf(s, rank), s, 0
  {
    TupleElement(w, s, i, defs, rank, env);
    EncodedAt(w, s, i, defs, rank);
    hide *;
    EncodedIsAccepted(w.elems[i], s.prefix.s[i], defs, rank, env, env');
  }

  lemma TupleElement(w: Json, s: Schema, i: nat, defs: Defs, rank: Ranks, env: Env)
    requires NoCyclicChain(defs, rank) && Exact(w, s, defs, rank) && Declared(w, s, defs, rank) && Accepts(s, w, env)
    requires Fragment(s) && s.ref == "" && s.prefix.Alts? && i < |s.prefix.s|
    ensures w.Arr? && |w.elems| == |s.prefix.s| && Fragment(s.prefix.s[i]) && Accepts(s.prefix.s[i], w.elems[i], env)
    ensures Exact(w.elems[i], s.prefix.s[i], defs, rank) && Declared(w.elems[i], s.prefix.s[i], defs, rank)
  {
    BlankEmpty();
    hide Blank, AcceptsWhole;
  }

  lemma TupleWhole(s: Schema, env': Env)
    requires Fragment(s) && s.ref == "" && s.prefix.Alts?
    ensures var t := Prepare(s);
      t.prefix.NoAlts? && t.anyOf.NoAlts? && t.oneOf.NoAlts? && t.allOf.NoAlts? && forall w :: AcceptsWhole(t, Obj(w), env')
  {
    PreparedTuple(s);
    assert CloseAll(NoAlts) == NoAlts;
    assert Prepare(s).enum == s.enum;
  }
}
