/** removeOptionalNullProperties (internal/anthropic/response.go) with its loops over alternatives,
    properties and elements, proved to compute StrictSchemas.Clean. */
module StrictCleaning {
  import opened Text
  import opened Json
  import opened Schemas
  import opened StrictSchemas

  /** The fields after the loop has visited the properties in `done`, in whatever order. */
  function CleanedSoFar(s: Schema, u: Schema, fields: Fields, done: set<string>, env: Env): Fields
    requires s.props.Props?
  {
    map k | k in fields && !(k in done && Dropped(s, u, k, fields[k], env)) ::
      if k in done && k in s.props.m && k in PropsOf(u) then Clean(fields[k], s.props.m[k], PropsOf(u)[k], env)
      else fields[k]
  }

  lemma CleanedAll(s: Schema, u: Schema, fields: Fields, env: Env)
    requires s.props.Props?
    ensures CleanParts(Obj(fields), s, u, env) == Obj(CleanedSoFar(s, u, fields, s.props.m.Keys, env))
  {
    hide Accepts, Clean, Dropped;
    forall k | k in fields && Dropped(s, u, k, fields[k], env) ensures k in s.props.m {
      DroppedIsDeclared(s, u, k, fields[k], env);
    }
    assert CleanParts(Obj(fields), s, u, env).fields == CleanedSoFar(s, u, fields, s.props.m.Keys, env);
  }

  lemma DroppedIsDeclared(s: Schema, u: Schema, k: string, v: Json, env: Env)
    requires Dropped(s, u, k, v, env)
    ensures k in PropsOf(s)
  {
    hide Accepts;
  }

  /** Visiting one more property. */
  lemma CleanedOne(s: Schema, u: Schema, fields: Fields, done: set<string>, k: string, env: Env)
    requires s.props.Props? && k in s.props.m && k !in done
    ensures var c, d := CleanedSoFar(s, u, fields, done, env), CleanedSoFar(s, u, fields, done + {k}, env);
      if k !in fields then d == c && k !in c
      else
        && k in c && c[k] == fields[k]
        && d == if Dropped(s, u, k, fields[k], env) then c - {k}
                else if k in PropsOf(u) then c[k := Clean(fields[k], s.props.m[k], PropsOf(u)[k], env)]
                else c
  {
    hide Accepts, Clean, Dropped;
  }

  /** A property not visited yet has its old value, so a change made elsewhere stays visible. */
  lemma ChangeStays(s: Schema, u: Schema, fields: Fields, done: set<string>, k: string, v: Json, env: Env)
    requires s.props.Props? && k !in done && CleanedSoFar(s, u, fields, done, env) != fields
    ensures CleanedSoFar(s, u, fields, done, env)[k := v] != fields
    ensures CleanedSoFar(s, u, fields, done, env) - {k} != fields
  {
    hide Accepts, Clean, Dropped;
    var c := CleanedSoFar(s, u, fields, done, env);
    assert if k in fields then k in c && c[k] == fields[k] else k !in c;
    var w :| w in c.Keys + fields.Keys && (w !in c || w !in fields || c[w] != fields[w]);
  }

  method RemoveOptionalNullProperties(value: Json, s: Schema, t: Schema, env: Env) returns (cleaned: Json, changed: bool)
    ensures cleaned == Clean(value, s, t, env)
    ensures changed == (cleaned != value)
    decreases s, 1
  {
    hide Accepts, Unwrap, CleanParts, CleanAlternatives;
    if Accepts(s, value, env) {
      return value, false;
    }
    var u := Unwrap(s, t, value, env);
    if s.anyOf.Alts? {
      var found := CleanUnion(value, s, u, env);
      if found.Some? {
        return found.value, true;
      }
    }
    var c := value;
    if value.Obj? && s.props.Props? {
      c := CleanProperties(value, s, u, env);
    } else if value.Arr? && s.items.Items? && u.items.Items? {
      c := CleanElements(value, s, u, env);
    } else {
      NoParts(value, s, u, env);
    }
    if c != value && Accepts(s, c, env) {
      return c, true;
    }
    return value, false;
  }

  lemma NoParts(value: Json, s: Schema, u: Schema, env: Env)
    requires !(value.Obj? && s.props.Props?) && !(value.Arr? && s.items.Items? && u.items.Items?)
    ensures CleanParts(value, s, u, env) == value
  {
    hide Accepts, Clean;
    if value.Obj? {
      assert CleanParts(value, s, u, env).fields == value.fields;
    }
  }

  /** The loop over the alternatives. */
  method CleanUnion(value: Json, s: Schema, u: Schema, env: Env) returns (found: Option<Json>)
    requires s.anyOf.Alts?
    ensures found == CleanAlternatives(value, s, u, 0, env)
    ensures found.Some? ==> found.value != value
    decreases s, 0
  {
    hide Accepts, Clean;
    var strictChildren := AltsOf(u.anyOf);
    var i := 0;
    while i < |s.anyOf.s| && i < |strictChildren|
      invariant 0 <= i <= |s.anyOf.s|
      invariant CleanAlternatives(value, s, u, 0, env) == CleanAlternatives(value, s, u, i, env)
    {
      if Accepts(strictChildren[i], value, env) {
        var c, changed := RemoveOptionalNullProperties(value, s.anyOf.s[i], strictChildren[i], env);
        if changed && Accepts(s.anyOf.s[i], c, env) {
          return Some(c);
        }
      }
      i := i + 1;
    }
    return None;
  }

  /** The loop over the properties, in any order. */
  method CleanProperties(value: Json, s: Schema, u: Schema, env: Env) returns (cleaned: Json)
    requires value.Obj? && s.props.Props?
    ensures cleaned == CleanParts(value, s, u, env)
    decreases s, 0
  {
    hide Accepts, Clean, Dropped, CleanedSoFar, CleanParts;
    var fields, properties := value.fields, s.props.m;
    var c, changed := fields, false;
    var todo := properties.Keys;
    ghost var done: set<string> := {};
    NothingVisited(s, u, fields, env);
    while todo != {}
      invariant todo <= properties.Keys && done == properties.Keys - todo
      invariant c == CleanedSoFar(s, u, fields, done, env) && changed == (c != fields)
      decreases |todo|
    {
      var name :| name in todo;
      CleanedOne(s, u, fields, done, name, env);
      if changed { ChangeStays(s, u, fields, done, name, Null, env); }
      if name in c && name in PropsOf(u) {
        if Dropped(s, u, name, c[name], env) {
          c := c - {name};
          changed := true;
        } else {
          var child, childChanged := RemoveOptionalNullProperties(c[name], properties[name], PropsOf(u)[name], env);
          if changed { ChangeStays(s, u, fields, done, name, child, env); }
          if childChanged {
            c := c[name := child];
            changed := true;
          } else {
            assert c[name := child] == c;
          }
        }
      } else if name in c {
        NotDropped(s, u, name, env);
      }
      todo := todo - {name};
      assert done + {name} == properties.Keys - todo;
      done := done + {name};
    }
    assert done == properties.Keys;
    CleanedAll(s, u, fields, env);
    cleaned := Obj(c);
  }

  lemma NotDropped(s: Schema, u: Schema, k: string, env: Env)
    requires k !in PropsOf(u)
    ensures forall v :: !Dropped(s, u, k, v, env)
  {
    hide Accepts;
  }

  lemma NothingVisited(s: Schema, u: Schema, fields: Fields, env: Env)
    requires s.props.Props?
    ensures CleanedSoFar(s, u, fields, {}, env) == fields
  {
    hide Accepts, Clean, Dropped;
  }

  /** The loop over the elements. */
  method CleanElements(value: Json, s: Schema, u: Schema, env: Env) returns (cleaned: Json)
    requires value.Arr? && s.items.Items? && u.items.Items?
    ensures cleaned == CleanParts(value, s, u, env)
    decreases s, 0
  {
    hide Accepts, Clean;
    var elems := value.elems;
    var index := 0;
    while index < |value.elems|
      invariant 0 <= index <= |value.elems| == |elems|
      invariant forall i | 0 <= i < index :: elems[i] == Clean(value.elems[i], s.items.schema, u.items.schema, env)
      invariant forall i | index <= i < |elems| :: elems[i] == value.elems[i]
    {
      var child, childChanged := RemoveOptionalNullProperties(elems[index], s.items.schema, u.items.schema, env);
      if childChanged {
        elems := elems[index := child];
      }
      index := index + 1;
    }
    cleaned := Arr(elems);
    assert elems == CleanParts(value, s, u, env).elems;
  }
}
