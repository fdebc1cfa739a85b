/** Alternatives with tuples in internal/openai/tuple.go: what comes back is turned into a tuple by the first
    alternative that has one, whichever of them it was meant for. */
module TupleUnions {
  import opened Text
  import opened Json
  import opened Schemas
  import opened SchemaRefs
  import opened Tuples

  // ----- which alternative is taken -----

  function AltsOf(a: Alts): seq<Schema> {
    if a.Alts? then a.s else []
  }

  /** The lists of alternatives, in the order they are looked at. */
  function ListOf(s: Schema, list: nat): seq<Schema> {
    if list == 0 then AltsOf(s.oneOf) else if list == 1 then AltsOf(s.anyOf) else AltsOf(s.allOf)
  }

  /** The first alternative with a tuple. */
  ghost predicate FirstWithTuple(s: Schema, list: nat, j: nat) {
    && list < 3 && j < |ListOf(s, list)| && HasTuple(ListOf(s, list)[j])
    && (forall i | 0 <= i < j :: !HasTuple(ListOf(s, list)[i]))
    && forall l: nat, i | l < list && 0 <= i < |ListOf(s, l)| :: !HasTuple(ListOf(s, l)[i])
  }

  lemma {:induction false} FirstTupleAt(a: Alts, i: nat, j: nat)
    requires a.Alts? && i <= j < |a.s| && HasTuple(a.s[j]) && forall k | i <= k < j :: !HasTuple(a.s[k])
    ensures FirstTuple(a, i) == Some(j)
    decreases j - i
  {
    hide HasTuple;
    if i < j { FirstTupleAt(a, i + 1, j); }
  }

  lemma {:induction false} NoTupleFrom(a: Alts, i: nat)
    requires a.Alts? && i <= |a.s| && forall k | i <= k < |a.s| :: !HasTuple(a.s[k])
    ensures FirstTuple(a, i) == None
    decreases |a.s| - i
  {
    hide HasTuple;
    if i < |a.s| { NoTupleFrom(a, i + 1); }
  }

  lemma NoTupleIn(s: Schema, list: nat)
    requires list < 3 && forall i | 0 <= i < |ListOf(s, list)| :: !HasTuple(ListOf(s, list)[i])
    ensures var a := if list == 0 then s.oneOf else if list == 1 then s.anyOf else s.allOf;
      a.Alts? ==> FirstTuple(a, 0) == None
  {
    hide HasTuple, FirstTuple;
    var a := if list == 0 then s.oneOf else if list == 1 then s.anyOf else s.allOf;
    if a.Alts? {
      assert a.s == ListOf(s, list);
      NoTupleFrom(a, 0);
    }
  }

  lemma AlternativeIsFirst(s: Schema, list: nat, j: nat)
    requires FirstWithTuple(s, list, j)
    ensures TupleAlternative(s) == Some(ListOf(s, list)[j])
  {
    hide HasTuple, FirstTuple;
    FirstTupleAt(if list == 0 then s.oneOf else if list == 1 then s.anyOf else s.allOf, 0, j);
    if list > 0 { NoTupleIn(s, 0); }
    if list > 1 { NoTupleIn(s, 1); }
  }

  /** A node that looks at the value through its alternatives only. */
  predicate OnlyAlternatives(s: Schema) {
    s.ref == "" && s.prefix.NoAlts? && s.props.NoProps? && !s.items.Items?
  }

  /** Whatever the value, it is converted by the first alternative with a tuple: of oneOf, of anyOf, of allOf. */
  lemma FirstTupleTaken(v: Json, s: Schema, defs: Defs, rank: Ranks, list: nat, j: nat)
    requires NoCyclicChain(defs, rank) && OnlyAlternatives(s) && FirstWithTuple(s, list, j)
    ensures Reconvert(v, s, defs, rank) == Reconvert(v, ListOf(s, list)[j], defs, rank)
  {
    BlankEmpty();
    AlternativeIsFirst(s, list, j);
    hide Blank, TupleAlternative, FirstWithTuple, ListOf, NoCyclicChain;
  }

  // ----- nothing to convert -----

  lemma NoAlternative(s: Schema)
    requires !HasTuple(s)
    ensures TupleAlternative(s) == None
  {
    hide FirstTuple;
  }

  /** A schema without tuples and references leaves every value as it is, so there is nothing to prepare. */
  lemma {:induction false} NoTupleUnchanged(v: Json, s: Schema, defs: Defs, rank: Ranks)
    requires NoCyclicChain(defs, rank) && RefFree(s) && !HasTuple(s)
    ensures Reconvert(v, s, defs, rank) == v
    decreases v
  {
    BlankEmpty();
    NoAlternative(s);
    if s.props.Props? && v.Obj? {
      forall k | k in v.fields && k in s.props.m ensures Reconvert(v.fields[k], s.props.m[k], defs, rank) == v.fields[k] {
        PropertyFree(s, k);
        NoTupleUnchanged(v.fields[k], s.props.m[k], defs, rank);
      }
      hide Blank, TupleAlternative, HasTuple, RefFree, NoCyclicChain;
      NodeFree(s);
      var r := Reconvert(v, s, defs, rank);
      assert r.Obj? && r.fields == v.fields;
    } else if s.props.NoProps? && s.items.Items? && v.Arr? {
      ItemsFree(s);
      forall i | 0 <= i < |v.elems| ensures Reconvert(v.elems[i], s.items.schema, defs, rank) == v.elems[i] {
        NoTupleUnchanged(v.elems[i], s.items.schema, defs, rank);
      }
      hide Blank, TupleAlternative, HasTuple, RefFree, NoCyclicChain;
      NodeFree(s);
      var r := Reconvert(v, s, defs, rank);
      assert r.Arr? && r.elems == v.elems;
    } else {
      hide Blank, TupleAlternative, HasTuple, RefFree, NoCyclicChain;
      NodeFree(s);
    }
  }

  lemma NodeFree(s: Schema)
    requires RefFree(s) && !HasTuple(s)
    ensures s.ref == "" && s.prefix.NoAlts?
  {}

  lemma PropertyFree(s: Schema, k: string)
    requires RefFree(s) && !HasTuple(s) && s.props.Props? && k in s.props.m
    ensures RefFree(s.props.m[k]) && !HasTuple(s.props.m[k])
  {}

  lemma ItemsFree(s: Schema)
    requires RefFree(s) && !HasTuple(s) && s.items.Items?
    ensures RefFree(s.items.schema) && !HasTuple(s.items.schema)
  {}

  // ----- a tuple among other alternatives -----

  function Union(alts: seq<Schema>): Schema {
    ANYTHING.(anyOf := Alts(alts))
  }

  /** One alternative is a tuple; the others have no tuples and allow no arrays. */
  ghost predicate TupleAmong(alts: seq<Schema>, j: nat, env: Env) {
    && j < |alts| && alts[j].prefix.Alts? && alts[j].ref == ""
    && (forall i | 0 <= i < |alts| :: Fragment(alts[i]))
    && (forall i | 0 <= i < |alts| && i != j :: RefFree(alts[i]) && !HasTuple(alts[i]))
    && (forall i, w: Json | 0 <= i < |alts| && i != j && w.Arr? :: !Accepts(alts[i], w, env))
  }

  lemma UnionAccepts(alts: seq<Schema>, w: Json, env: Env)
    ensures Accepts(Union(alts), w, env) <==> exists i | 0 <= i < |alts| :: Accepts(alts[i], w, env)
  {
    hide *;
    UnionIs(alts);
    BareUnion(Union(alts), alts, w, env);
  }

  lemma UnionIs(alts: seq<Schema>)
    ensures Union(alts) == ANYTHING.(anyOf := Alts(alts))
  {}

  lemma BareUnion(s: Schema, alts: seq<Schema>, w: Json, env: Env)
    requires s == ANYTHING.(anyOf := Alts(alts))
    ensures Accepts(s, w, env) <==> exists i | 0 <= i < |alts| :: Accepts(alts[i], w, env)
  {
    assert Accepts(s, w, env) <==> AcceptsAlternatives(s, w, env);
  }

  lemma ConvertedAlts(alts: seq<Schema>)
    ensures var c := ConvertAll(Alts(alts)); c.Alts? && |c.s| == |alts| && forall i | 0 <= i < |alts| :: c.s[i] == Convert(alts[i])
  {
    hide Convert;
  }

  lemma ClosedAlts(alts: seq<Schema>)
    ensures var c := CloseAll(Alts(alts)); c.Alts? && |c.s| == |alts| && forall i | 0 <= i < |alts| :: c.s[i] == InjectAdditionalProperties(alts[i])
  {
    hide InjectAdditionalProperties;
  }

  lemma ConvertedUnion(s: Schema, alts: seq<Schema>)
    requires s == ANYTHING.(anyOf := Alts(alts))
    ensures Convert(s) == s.(anyOf := ConvertAll(s.anyOf))
  {
    hide ConvertAll;
    assert ConvertAll(NoAlts) == NoAlts by { NoneConverted(); }
  }

  lemma NoneConverted()
    ensures ConvertAll(NoAlts) == NoAlts && CloseAll(NoAlts) == NoAlts
  {}

  lemma ClosedUnion(s: Schema, alts: seq<Schema>)
    requires s == ANYTHING.(anyOf := Alts(alts))
    ensures InjectAdditionalProperties(s) == s.(anyOf := CloseAll(s.anyOf))
  {
    NoneConverted();
    hide CloseAll;
  }

  lemma PreparedUnion(alts: seq<Schema>)
    ensures Prepare(Union(alts)) == Union(seq(|alts|, i requires 0 <= i < |alts| => Prepare(alts[i])))
  {
    hide Convert, InjectAdditionalProperties, ConvertAll, CloseAll;
    ConvertedUnion(Union(alts), alts);
    ConvertedAlts(alts);
    var c := ConvertAll(Alts(alts)).s;
    assert ConvertAll(Alts(alts)) == Alts(c);
    ClosedUnion(Union(c), c);
    ClosedAlts(c);
    var p := CloseAll(Alts(c)).s;
    assert CloseAll(Alts(c)) == Alts(p) && p == seq(|alts|, i requires 0 <= i < |alts| => Prepare(alts[i]));
  }

  lemma UnionTaken(v: Json, alts: seq<Schema>, j: nat, defs: Defs, rank: Ranks, env: Env)
    requires NoCyclicChain(defs, rank) && TupleAmong(alts, j, env)
    ensures Reconvert(v, Union(alts), defs, rank) == Reconvert(v, alts[j], defs, rank)
  {
    var s := Union(alts);
    assert HasTuple(alts[j]);
    assert ListOf(s, 1) == alts && ListOf(s, 0) == [];
    assert FirstWithTuple(s, 1, j);
    hide HasTuple, Reconvert, NoCyclicChain, FirstWithTuple, Fragment, RefFree, Accepts;
    FirstTupleTaken(v, s, defs, rank, 1, j);
  }

  lemma TupleMakesArrays(v: Json, t: Schema, defs: Defs, rank: Ranks)
    requires NoCyclicChain(defs, rank) && t.ref == "" && t.prefix.Alts?
    ensures if v.Obj? then Reconvert(v, t, defs, rank).Arr? else Reconvert(v, t, defs, rank) == v
  {
    BlankEmpty();
  }

  lemma TupleNeedsObject(v: Json, t: Schema, env': Env)
    requires t.prefix.Alts? && Accepts(Prepare(t), v, env')
    ensures v.Obj?
  {
    PreparedTuple(t);
    hide Prepare, Itoa;
  }

  lemma SomePrepared(v: Json, alts: seq<Schema>, env': Env) returns (i: nat)
    requires Accepts(Prepare(Union(alts)), v, env')
    ensures i < |alts| && Accepts(Prepare(alts[i]), v, env')
  {
    PreparedUnion(alts);
    var prepared := seq(|alts|, i requires 0 <= i < |alts| => Prepare(alts[i]));
    UnionAccepts(prepared, v, env');
    hide *;
    i :| 0 <= i < |prepared| && Accepts(prepared[i], v, env');
  }

  /** Which values the client's schema accepts when they have been converted back: all that are no objects,
      and the objects the tuple made of them is accepted of; that is so for all that were meant as the tuple. */
  lemma UnionExactly(v: Json, alts: seq<Schema>, j: nat, defs: Defs, rank: Ranks, env: Env, env': Env)
    requires NoCyclicChain(defs, rank) && Prepared(env, env', defs) && (forall r | r in defs :: Fragment(defs[r]))
    requires TupleAmong(alts, j, env) && Accepts(Prepare(Union(alts)), v, env')
    ensures Accepts(Union(alts), Reconvert(v, Union(alts), defs, rank), env)
      <==> !v.Obj? || Accepts(alts[j], Reconvert(v, alts[j], defs, rank), env)
    ensures Accepts(Prepare(alts[j]), v, env') ==> Accepts(Union(alts), Reconvert(v, Union(alts), defs, rank), env)
  {
    UnionTaken(v, alts, j, defs, rank, env);
    TupleMakesArrays(v, alts[j], defs, rank);
    var r := Reconvert(v, alts[j], defs, rank);
    UnionAccepts(alts, r, env);
    var i := SomePrepared(v, alts, env');
    hide Accepts, Prepare, Reconvert, NoCyclicChain, Prepared, Fragment, RefFree, HasTuple, Union;
    if Accepts(Prepare(alts[j]), v, env') { ReconvertAccepted(v, alts[j], defs, rank, env, env'); }
    if !v.Obj? {
      if i == j { TupleNeedsObject(v, alts[j], env'); }
      ReconvertAccepted(v, alts[i], defs, rank, env, env');
      NoTupleUnchanged(v, alts[i], defs, rank);
      assert Accepts(alts[i], r, env);
    }
  }

  /** So an object that is meant for another alternative does not survive when the tuple finds nothing in it for
      a member that has to be something. */
  lemma ObjectOfAnotherFails(v: Json, alts: seq<Schema>, j: nat, k: nat, defs: Defs, rank: Ranks, env: Env)
    requires NoCyclicChain(defs, rank) && TupleAmong(alts, j, env) && v.Obj?
    requires k < |alts[j].prefix.s| && Itoa(k) !in v.fields && !Accepts(alts[j].prefix.s[k], Null, env)
    ensures !Accepts(Union(alts), Reconvert(v, Union(alts), defs, rank), env)
  {
    UnionTaken(v, alts, j, defs, rank, env);
    TupleMakesArrays(v, alts[j], defs, rank);
    MissingIsNull(v, alts[j], k, defs, rank);
    var r := Reconvert(v, alts[j], defs, rank);
    UnionAccepts(alts, r, env);
    hide Accepts, Reconvert, NoCyclicChain, Fragment, RefFree, HasTuple, Union;
    if Accepts(alts[j], r, env) { MemberAccepted(alts[j], r.elems, k, env); }
  }

  lemma MissingIsNull(v: Json, t: Schema, k: nat, defs: Defs, rank: Ranks)
    requires NoCyclicChain(defs, rank) && t.ref == "" && t.prefix.Alts? && v.Obj?
    requires k < |t.prefix.s| && Itoa(k) !in v.fields
    ensures var r := Reconvert(v, t, defs, rank); r.Arr? && k < |r.elems| && r.elems[k] == Null
  {
    BlankEmpty();
    NullStays(t.prefix.s[k], defs, rank);
    hide Itoa;
  }

  lemma {:induction false} NullStays(s: Schema, defs: Defs, rank: Ranks)
    requires NoCyclicChain(defs, rank)
    ensures Reconvert(Null, s, defs, rank) == Null
    decreases RankOf(s, rank), s
  {
    if !Blank(s.ref) {
      if s.ref in defs { NullStays(defs[s.ref], defs, rank); }
    } else if s.prefix.NoAlts? && s.props.NoProps? && !s.items.Items? && TupleAlternative(s).Some? {
      NullStays(TupleAlternative(s).value, defs, rank);
    }
  }

  lemma MemberAccepted(t: Schema, elems: seq<Json>, k: nat, env: Env)
    requires t.prefix.Alts? && k < |t.prefix.s| && k < |elems| && Accepts(t, Arr(elems), env)
    ensures Accepts(t.prefix.s[k], elems[k], env)
  {
    assert AcceptsElements(t, elems, env);
    hide AcceptsWhole;
  }

  const INT: Schema := ANYTHING.(types := Single(IntegerType))

  const SINGLE: Schema := ANYTHING.(prefix := Alts([INT]))

  const NAMED: Schema := ANYTHING.(types := Single(ObjectType), props := Props(map["a" := INT]))

  const ONE: Json := Obj(map["a" := Num(1)])

  lemma IntsOnly(v: Json, env: Env)
    ensures Accepts(INT, v, env) <==> IsOfType(v, IntegerType)
    ensures Prepare(INT) == INT
  {
    PreparedOther(INT);
    NoneConverted();
  }

  lemma NamedPrepared(env': Env)
    ensures Accepts(Prepare(NAMED), ONE, env')
  {
    IntsOnly(Num(1), env');
    PreparedOther(NAMED);
    NoneConverted();
    var p := Prepare(NAMED);
    hide Prepare, Accepts;
    ClosedAccepts(p, env');
  }

  lemma ClosedAccepts(p: Schema, env': Env)
    requires p.ref == "" && p.types == Single(ObjectType) && p.enum.None? && p.facets == map[] && p.required == {}
    requires p.props.Props? && p.props.m.Keys == {"a"} && p.props.m["a"] == INT
    requires p.anyOf == NoAlts && p.oneOf == NoAlts && p.allOf == NoAlts && Accepts(INT, Num(1), env')
    ensures Accepts(p, ONE, env')
  {
    assert AcceptsWhole(p, ONE, env');
    assert AcceptsProps(p, p.props.m, ONE.fields, env');
    hide AcceptsWhole;
  }

  lemma NoArrays(w: Json, env: Env)
    requires w.Arr?
    ensures !Accepts(NAMED, w, env)
  {}

  lemma SingleAmong(env: Env)
    ensures TupleAmong([SINGLE, NAMED], 0, env)
  {
    forall w: Json | w.Arr? ensures !Accepts(NAMED, w, env) { NoArrays(w, env); }
    hide Accepts;
    assert Fragment(INT) && RefFree(INT) && !HasTuple(INT);
    assert Fragment(NAMED) && RefFree(NAMED) && !HasTuple(NAMED);
    assert Fragment(SINGLE);
  }

  lemma SentAsObject(env': Env)
    ensures Accepts(Prepare(Union([SINGLE, NAMED])), ONE, env')
  {
    NamedPrepared(env');
    PreparedUnion([SINGLE, NAMED]);
    hide *;
    var prepared := seq(2, i requires 0 <= i < 2 => Prepare([SINGLE, NAMED][i]));
    assert prepared[1] == Prepare(NAMED);
    UnionAccepts(prepared, ONE, env');
  }

  /** Such an input: a list of one number, or an object with a number under a. What comes back as that object
      is turned into a list of nothing, which the client's schema refuses. */
  lemma ObjectBecomesList(env: Env, env': Env)
    ensures Accepts(Prepare(Union([SINGLE, NAMED])), ONE, env')
    ensures NoCyclicChain(map[], map[]) && Reconvert(ONE, Union([SINGLE, NAMED]), map[], map[]) == Arr([Null])
    ensures !Accepts(Union([SINGLE, NAMED]), Arr([Null]), env)
  {
    var none, no: Ranks := map[], map[];
    SentAsObject(env');
    SingleAmong(env);
    UnionTaken(ONE, [SINGLE, NAMED], 0, none, no, env);
    MissingIsNull(ONE, SINGLE, 0, none, no);
    OneElement(none, no);
    NullRefused(env);
    hide Accepts, Prepare, Reconvert, TupleAmong, Union;
    ObjectOfAnotherFails(ONE, [SINGLE, NAMED], 0, 0, none, no, env);
  }

  lemma NullRefused(env: Env)
    ensures !Accepts(INT, Null, env) && Itoa(0) !in ONE.fields
  {
    IntsOnly(Null, env);
  }

  lemma OneElement(defs: Defs, rank: Ranks)
    requires NoCyclicChain(defs, rank)
    ensures var r := Reconvert(ONE, SINGLE, defs, rank); r.Arr? && |r.elems| == 1
  {
    BlankEmpty();
  }
}
