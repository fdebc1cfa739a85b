/** Which references resolveLocalRefs (internal/openai/schema.go) leaves in a node while the definitions
    stay as they are: those that lead, through the definitions, back into the chain that is being
    resolved. */
module SchemaRefsLeft {
  import opened Text
  import opened Json
  import opened Schemas
  import opened SchemaRefs

  predicate AllAvoid(a: Alts, chain: set<string>, defs: Defs, rank: Ranks, bound: nat)
    requires Acyclic(defs, rank) && AllRefsBelow(a, rank, bound)
    decreases bound, a
  {
    a.Alts? ==> forall i | 0 <= i < |a.s| :: Avoids(a.s[i], chain, defs, rank, bound)
  }

  /** No reference in the schema, nor in the definitions it refers to, is one of the chain. */
  predicate Avoids(s: Schema, chain: set<string>, defs: Defs, rank: Ranks, bound: nat)
    requires Acyclic(defs, rank) && RefsBelow(s, rank, bound)
    decreases bound, s, 1
  {
    && (s.ref != "" ==> s.ref !in chain && Avoids(defs[s.ref], chain, defs, rank, rank[s.ref]))
    && PartsAvoid(s, chain, defs, rank, bound)
  }

  predicate PartsAvoid(s: Schema, chain: set<string>, defs: Defs, rank: Ranks, bound: nat)
    requires Acyclic(defs, rank) && RefsBelow(s, rank, bound)
    decreases bound, s, 0
  {
    && (s.props.Props? ==> forall k | k in s.props.m :: Avoids(s.props.m[k], chain, defs, rank, bound))
    && (s.items.Items? ==> Avoids(s.items.schema, chain, defs, rank, bound))
    && AllAvoid(s.prefix, chain, defs, rank, bound) && AllAvoid(s.anyOf, chain, defs, rank, bound)
    && AllAvoid(s.oneOf, chain, defs, rank, bound) && AllAvoid(s.allOf, chain, defs, rank, bound)
  }

  // ----- what is left is in the chain -----

  predicate AllOnly(a: Alts, chain: set<string>)
    decreases a
  {
    a.Alts? ==> forall i | 0 <= i < |a.s| :: OnlyRefs(a.s[i], chain)
  }

  predicate OnlyRefs(s: Schema, chain: set<string>)
    decreases s
  {
    && (s.ref != "" ==> s.ref in chain)
    && (s.props.Props? ==> forall k | k in s.props.m :: OnlyRefs(s.props.m[k], chain))
    && (s.items.Items? ==> OnlyRefs(s.items.schema, chain))
    && AllOnly(s.prefix, chain) && AllOnly(s.anyOf, chain) && AllOnly(s.oneOf, chain) && AllOnly(s.allOf, chain)
  }

  /** References of the chain stay as they are. */
  lemma {:induction false} ChainStays(s: Schema, defs: Defs, chain: set<string>)
    requires OnlyRefs(s, chain)
    ensures Resolve(s, defs, chain) == s && ResolveChildren(s, defs, chain) == s
    decreases s
  {
    hide ResolveChildren, Resolve, ResolveAll, AllOnly;
    if s.props.Props? {
      forall k | k in s.props.m ensures Resolve(s.props.m[k], defs, chain) == s.props.m[k] {
        ChainStays(s.props.m[k], defs, chain);
      }
    }
    if s.items.Items? { ChainStays(s.items.schema, defs, chain); }
    AllChainStay(s, s.prefix, defs, chain);
    AllChainStay(s, s.anyOf, defs, chain);
    AllChainStay(s, s.oneOf, defs, chain);
    AllChainStay(s, s.allOf, defs, chain);
    hide OnlyRefs;
    PartsStay(s, defs, chain);
    TopStays(s, defs, chain);
  }

  lemma TopStays(s: Schema, defs: Defs, chain: set<string>)
    requires ResolveChildren(s, defs, chain) == s && (s.ref == "" || s.ref in chain || s.ref !in defs)
    ensures Resolve(s, defs, chain) == s
  {
    hide ResolveChildren;
  }

  lemma PartsStay(s: Schema, defs: Defs, chain: set<string>)
    requires s.props.Props? ==> forall k | k in s.props.m :: Resolve(s.props.m[k], defs, chain) == s.props.m[k]
    requires s.items.Items? ==> Resolve(s.items.schema, defs, chain) == s.items.schema
    requires s.prefix.Alts? ==> ResolveAll(s, s.prefix.s, defs, chain) == s.prefix
    requires s.anyOf.Alts? ==> ResolveAll(s, s.anyOf.s, defs, chain) == s.anyOf
    requires s.oneOf.Alts? ==> ResolveAll(s, s.oneOf.s, defs, chain) == s.oneOf
    requires s.allOf.Alts? ==> ResolveAll(s, s.allOf.s, defs, chain) == s.allOf
    ensures ResolveChildren(s, defs, chain) == s
  {
    hide Resolve, ResolveAll;
    var r := ResolveChildren(s, defs, chain);
    if s.props.Props? { assert r.props.m == s.props.m; }
  }

  lemma AllChainStay(parent: Schema, a: Alts, defs: Defs, chain: set<string>)
    requires AllOnly(a, chain) && (a.Alts? ==> forall i | 0 <= i < |a.s| :: a.s[i] < parent)
    ensures a.Alts? ==> ResolveAll(parent, a.s, defs, chain) == a
    decreases parent, a
  {
    hide OnlyRefs, Resolve;
    if a.Alts? {
      forall i | 0 <= i < |a.s| ensures Resolve(a.s[i], defs, chain) == a.s[i] {
        ChainStays(a.s[i], defs, chain);
      }
      assert ResolveAll(parent, a.s, defs, chain).s == a.s;
    }
  }

  /** A chain can be shortened by a name of too high a rank. */
  lemma {:induction false} OnlyWithout(s: Schema, chain: set<string>, r: string, rank: Ranks, bound: nat)
    requires OnlyRefs(s, chain + {r}) && RefsBelow(s, rank, bound) && r in rank && rank[r] >= bound
    ensures OnlyRefs(s, chain)
    decreases s
  {
    hide AllOnly, AllRefsBelow;
    if s.props.Props? {
      forall k | k in s.props.m ensures OnlyRefs(s.props.m[k], chain) { OnlyWithout(s.props.m[k], chain, r, rank, bound); }
    }
    if s.items.Items? { OnlyWithout(s.items.schema, chain, r, rank, bound); }
    AllOnlyWithout(s, s.prefix, chain, r, rank, bound);
    AllOnlyWithout(s, s.anyOf, chain, r, rank, bound);
    AllOnlyWithout(s, s.oneOf, chain, r, rank, bound);
    AllOnlyWithout(s, s.allOf, chain, r, rank, bound);
  }

  lemma AllOnlyWithout(parent: Schema, a: Alts, chain: set<string>, r: string, rank: Ranks, bound: nat)
    requires AllOnly(a, chain + {r}) && AllRefsBelow(a, rank, bound) && r in rank && rank[r] >= bound
    requires a.Alts? ==> forall i | 0 <= i < |a.s| :: a.s[i] < parent
    ensures AllOnly(a, chain)
    decreases parent, a
  {
    hide OnlyRefs, RefsBelow;
    if a.Alts? {
      forall i | 0 <= i < |a.s| ensures OnlyRefs(a.s[i], chain) { OnlyWithout(a.s[i], chain, r, rank, bound); }
    }
  }

  lemma {:induction false} BoundGrows(s: Schema, rank: Ranks, low: nat, high: nat)
    requires RefsBelow(s, rank, low) && low <= high
    ensures RefsBelow(s, rank, high)
    decreases s
  {
    hide AllRefsBelow;
    if s.props.Props? {
      forall k | k in s.props.m ensures RefsBelow(s.props.m[k], rank, high) { BoundGrows(s.props.m[k], rank, low, high); }
    }
    if s.items.Items? { BoundGrows(s.items.schema, rank, low, high); }
    AllBoundGrow(s, s.prefix, rank, low, high);
    AllBoundGrow(s, s.anyOf, rank, low, high);
    AllBoundGrow(s, s.oneOf, rank, low, high);
    AllBoundGrow(s, s.allOf, rank, low, high);
  }

  lemma AllBoundGrow(parent: Schema, a: Alts, rank: Ranks, low: nat, high: nat)
    requires AllRefsBelow(a, rank, low) && low <= high && (a.Alts? ==> forall i | 0 <= i < |a.s| :: a.s[i] < parent)
    ensures AllRefsBelow(a, rank, high)
    decreases parent, a
  {
    hide RefsBelow;
    if a.Alts? {
      forall i | 0 <= i < |a.s| ensures RefsBelow(a.s[i], rank, high) { BoundGrows(a.s[i], rank, low, high); }
    }
  }

  /** Whatever is left of a schema without siblings is in the chain, and ranked as before. */
  ghost predicate Left(s: Schema, chain: set<string>, rank: Ranks, bound: nat) {
    OnlyRefs(s, chain) && RefsBelow(s, rank, bound)
  }

  lemma {:induction false} LeftRefs(node: Schema, defs: Defs, chain: set<string>, rank: Ranks, bound: nat)
    requires Acyclic(defs, rank) && (forall r | r in defs :: SiblingFree(defs[r]))
    requires SiblingFree(node) && RefsBelow(node, rank, bound)
    ensures Left(Resolve(node, defs, chain), chain, rank, bound)
    ensures node.ref != "" && node.ref !in chain ==>
      node.ref in defs && Resolve(node, defs, chain) == Resolve(defs[node.ref], defs, chain + {node.ref})
    decreases |defs.Keys - chain|, node, 1
  {
    hide SiblingFree, OnlyRefs, ResolveChildren, RefsBelow;
    if node.ref == "" {
      PartsLeft(node, defs, chain, rank, bound);
    } else {
      RankedBelow(node, rank, bound);
      BareNode(node);
      var r := node.ref;
      if r in chain {
        BareOnly(node, chain);
      } else {
        var next := chain + {r};
        OneFewer(defs, chain, r);
        LeftRefs(defs[r], defs, next, rank, rank[r]);
        var d := Resolve(defs[r], defs, next);
        NoSiblings(d, node);
        ChainStays(d, defs, next);
        OnlyWithout(d, chain, r, rank, rank[r]);
        BoundGrows(d, rank, rank[r], bound);
      }
    }
  }

  lemma BareOnly(s: Schema, chain: set<string>)
    requires s == ANYTHING.(ref := s.ref) && s.ref in chain
    ensures OnlyRefs(s, chain)
  {}

  lemma PartsLeft(node: Schema, defs: Defs, chain: set<string>, rank: Ranks, bound: nat)
    requires Acyclic(defs, rank) && (forall r | r in defs :: SiblingFree(defs[r]))
    requires SiblingFree(node) && RefsBelow(node, rank, bound) && node.ref == ""
    ensures Left(ResolveChildren(node, defs, chain), chain, rank, bound)
    decreases |defs.Keys - chain|, node, 0, node
  {
    PartsOf(node, rank, bound);
    hide Acyclic, Resolve, ResolveAll, AllSiblingFree, AllRefsBelow, AllOnly, SiblingFree, RefsBelow, OnlyRefs, ResolveChildren;
    if node.props.Props? {
      forall k | k in node.props.m ensures Left(Resolve(node.props.m[k], defs, chain), chain, rank, bound) {
        LeftRefs(node.props.m[k], defs, chain, rank, bound);
      }
    }
    if node.items.Items? { LeftRefs(node.items.schema, defs, chain, rank, bound); }
    AllLeft(node, node.prefix, defs, chain, rank, bound);
    AllLeft(node, node.anyOf, defs, chain, rank, bound);
    AllLeft(node, node.oneOf, defs, chain, rank, bound);
    AllLeft(node, node.allOf, defs, chain, rank, bound);
    hide Left;
    LeftTogether(node, defs, chain, rank, bound);
  }

  lemma PartsOf(node: Schema, rank: Ranks, bound: nat)
    requires SiblingFree(node) && RefsBelow(node, rank, bound)
    ensures node.props.Props? ==> forall k | k in node.props.m :: SiblingFree(node.props.m[k]) && RefsBelow(node.props.m[k], rank, bound)
    ensures node.items.Items? ==> SiblingFree(node.items.schema) && RefsBelow(node.items.schema, rank, bound)
    ensures AllSiblingFree(node.prefix) && AllRefsBelow(node.prefix, rank, bound)
    ensures AllSiblingFree(node.anyOf) && AllRefsBelow(node.anyOf, rank, bound)
    ensures AllSiblingFree(node.oneOf) && AllRefsBelow(node.oneOf, rank, bound)
    ensures AllSiblingFree(node.allOf) && AllRefsBelow(node.allOf, rank, bound)
  {
    hide AllSiblingFree, AllRefsBelow;
  }

  lemma LeftTogether(node: Schema, defs: Defs, chain: set<string>, rank: Ranks, bound: nat)
    requires node.ref == ""
    requires node.props.Props? ==> forall k | k in node.props.m :: Left(Resolve(node.props.m[k], defs, chain), chain, rank, bound)
    requires node.items.Items? ==> Left(Resolve(node.items.schema, defs, chain), chain, rank, bound)
    requires var r := ResolveChildren(node, defs, chain);
      && AllOnly(r.prefix, chain) && AllOnly(r.anyOf, chain) && AllOnly(r.oneOf, chain) && AllOnly(r.allOf, chain)
      && AllRefsBelow(r.prefix, rank, bound) && AllRefsBelow(r.anyOf, rank, bound)
      && AllRefsBelow(r.oneOf, rank, bound) && AllRefsBelow(r.allOf, rank, bound)
    ensures Left(ResolveChildren(node, defs, chain), chain, rank, bound)
  {
    hide Resolve, ResolveAll, AllOnly, AllRefsBelow;
    var r := ResolveChildren(node, defs, chain);
    if r.props.Props? {
      forall k | k in r.props.m ensures OnlyRefs(r.props.m[k], chain) && RefsBelow(r.props.m[k], rank, bound) {
        assert Left(Resolve(node.props.m[k], defs, chain), chain, rank, bound);
      }
    }
  }

  lemma AllLeft(parent: Schema, a: Alts, defs: Defs, chain: set<string>, rank: Ranks, bound: nat)
    requires Acyclic(defs, rank) && (forall r | r in defs :: SiblingFree(defs[r]))
    requires AllSiblingFree(a) && AllRefsBelow(a, rank, bound)
    requires a.Alts? ==> forall i | 0 <= i < |a.s| :: a.s[i] < parent
    ensures AllOnly(NoAlts, chain) && AllRefsBelow(NoAlts, rank, bound)
    ensures a.Alts? ==> var r := ResolveAll(parent, a.s, defs, chain); AllOnly(r, chain) && AllRefsBelow(r, rank, bound)
    decreases |defs.Keys - chain|, parent, 0, a
  {
    hide Acyclic, Resolve, SiblingFree, RefsBelow, OnlyRefs;
    if a.Alts? {
      var r := ResolveAll(parent, a.s, defs, chain);
      forall i | 0 <= i < |a.s| ensures OnlyRefs(r.s[i], chain) && RefsBelow(r.s[i], rank, bound) {
        LeftRefs(a.s[i], defs, chain, rank, bound);
      }
    }
  }

  // ----- nothing is left exactly when the chain is avoided -----

  /** A name of too high a rank makes no difference to what is avoided. */
  lemma {:induction false} AvoidsMore(s: Schema, chain: set<string>, r: string, defs: Defs, rank: Ranks, bound: nat)
    requires Acyclic(defs, rank) && RefsBelow(s, rank, bound) && r in rank && rank[r] >= bound
    ensures Avoids(s, chain + {r}, defs, rank, bound) <==> Avoids(s, chain, defs, rank, bound)
    decreases bound, s, 1
  {
    hide AllAvoid, AllRefsBelow, Acyclic;
    if s.ref != "" {
      assert rank.Keys == defs.Keys && RefsBelow(defs[s.ref], rank, rank[s.ref]) by { RankOf(s.ref, defs, rank); }
      AvoidsMore(defs[s.ref], chain, r, defs, rank, rank[s.ref]);
    }
    if s.props.Props? {
      forall k | k in s.props.m
        ensures Avoids(s.props.m[k], chain + {r}, defs, rank, bound) <==> Avoids(s.props.m[k], chain, defs, rank, bound)
      {
        AvoidsMore(s.props.m[k], chain, r, defs, rank, bound);
      }
    }
    if s.items.Items? { AvoidsMore(s.items.schema, chain, r, defs, rank, bound); }
    AllAvoidMore(s, s.prefix, chain, r, defs, rank, bound);
    AllAvoidMore(s, s.anyOf, chain, r, defs, rank, bound);
    AllAvoidMore(s, s.oneOf, chain, r, defs, rank, bound);
    AllAvoidMore(s, s.allOf, chain, r, defs, rank, bound);
  }

  lemma RankOf(r: string, defs: Defs, rank: Ranks)
    requires Acyclic(defs, rank) && r in rank
    ensures rank.Keys == defs.Keys && RefsBelow(defs[r], rank, rank[r])
  {}

  lemma AllAvoidMore(parent: Schema, a: Alts, chain: set<string>, r: string, defs: Defs, rank: Ranks, bound: nat)
    requires Acyclic(defs, rank) && AllRefsBelow(a, rank, bound) && r in rank && rank[r] >= bound
    requires a.Alts? ==> forall i | 0 <= i < |a.s| :: a.s[i] < parent
    ensures AllAvoid(a, chain + {r}, defs, rank, bound) <==> AllAvoid(a, chain, defs, rank, bound)
    decreases bound, parent, 0, a
  {
    hide RefsBelow, Avoids, Acyclic;
    if a.Alts? {
      forall i | 0 <= i < |a.s|
        ensures Avoids(a.s[i], chain + {r}, defs, rank, bound) <==> Avoids(a.s[i], chain, defs, rank, bound)
      {
        AvoidsMore(a.s[i], chain, r, defs, rank, bound);
      }
    }
  }

  /** A schema without siblings keeps a reference exactly when one leads into the chain. */
  lemma {:induction false} LeftExactly(node: Schema, defs: Defs, chain: set<string>, rank: Ranks, bound: nat)
    requires Acyclic(defs, rank) && (forall r | r in defs :: SiblingFree(defs[r]))
    requires SiblingFree(node) && RefsBelow(node, rank, bound)
    ensures RefFree(Resolve(node, defs, chain)) <==> Avoids(node, chain, defs, rank, bound)
    decreases |defs.Keys - chain|, node, 1
  {
    if node.ref == "" {
      NoRefAvoids(node, chain, defs, rank, bound);
      PartsLeftExactly(node, defs, chain, rank, bound);
      hide SiblingFree, RefFree, ResolveChildren, RefsBelow, Avoids, PartsAvoid;
    } else {
      RankedBelow(node, rank, bound);
      BareNode(node);
      var r := node.ref;
      RankOf(r, defs, rank);
      BareAvoids(node, chain, defs, rank, bound);
      hide SiblingFree, ResolveChildren, RefsBelow, Avoids, PartsAvoid, Acyclic;
      if r !in chain {
        hide RefFree;
        OneFewer(defs, chain, r);
        LeftRefs(node, defs, chain, rank, bound);
        LeftExactly(defs[r], defs, chain + {r}, rank, rank[r]);
        AvoidsMore(defs[r], chain, r, defs, rank, rank[r]);
      }
    }
  }

  lemma NoRefAvoids(node: Schema, chain: set<string>, defs: Defs, rank: Ranks, bound: nat)
    requires Acyclic(defs, rank) && RefsBelow(node, rank, bound) && node.ref == ""
    ensures Avoids(node, chain, defs, rank, bound) <==> PartsAvoid(node, chain, defs, rank, bound)
  {
    hide PartsAvoid;
  }

  lemma BareAvoids(node: Schema, chain: set<string>, defs: Defs, rank: Ranks, bound: nat)
    requires Acyclic(defs, rank) && RefsBelow(node, rank, bound) && node == ANYTHING.(ref := node.ref) && node.ref != ""
    ensures node.ref in defs && RefsBelow(defs[node.ref], rank, rank[node.ref])
    ensures Avoids(node, chain, defs, rank, bound)
      <==> node.ref !in chain && Avoids(defs[node.ref], chain, defs, rank, rank[node.ref])
  {
    RankOf(node.ref, defs, rank);
    assert PartsAvoid(node, chain, defs, rank, bound);
    hide PartsAvoid;
  }

  /** The parts of the schema are without siblings. */
  predicate PartsSiblingFree(s: Schema) {
    && (s.props.Props? ==> forall k | k in s.props.m :: SiblingFree(s.props.m[k]))
    && (s.items.Items? ==> SiblingFree(s.items.schema))
    && AllSiblingFree(s.prefix) && AllSiblingFree(s.anyOf) && AllSiblingFree(s.oneOf) && AllSiblingFree(s.allOf)
  }

  lemma PartsLeftExactly(node: Schema, defs: Defs, chain: set<string>, rank: Ranks, bound: nat)
    requires Acyclic(defs, rank) && (forall r | r in defs :: SiblingFree(defs[r]))
    requires PartsSiblingFree(node) && RefsBelow(node, rank, bound) && node.ref == ""
    ensures RefFree(ResolveChildren(node, defs, chain)) <==> PartsAvoid(node, chain, defs, rank, bound)
    decreases |defs.Keys - chain|, node, 0, node
  {
    PartsBelow(node, rank, bound);
    hide Acyclic, SiblingFree, AllSiblingFree, RefsBelow, AllRefsBelow, RefFree, AllRefFree, Resolve, ResolveAll, ResolveChildren, Avoids, AllAvoid;
    if node.props.Props? {
      forall k | k in node.props.m
        ensures RefFree(Resolve(node.props.m[k], defs, chain)) <==> Avoids(node.props.m[k], chain, defs, rank, bound)
      {
        LeftExactly(node.props.m[k], defs, chain, rank, bound);
      }
    }
    if node.items.Items? { LeftExactly(node.items.schema, defs, chain, rank, bound); }
    AllLeftExactly(node, node.prefix, defs, chain, rank, bound);
    AllLeftExactly(node, node.anyOf, defs, chain, rank, bound);
    AllLeftExactly(node, node.oneOf, defs, chain, rank, bound);
    AllLeftExactly(node, node.allOf, defs, chain, rank, bound);
    FreeTogether(node, defs, chain);
  }

  lemma PartsBelow(node: Schema, rank: Ranks, bound: nat)
    requires RefsBelow(node, rank, bound)
    ensures node.props.Props? ==> forall k | k in node.props.m :: RefsBelow(node.props.m[k], rank, bound)
    ensures node.items.Items? ==> RefsBelow(node.items.schema, rank, bound)
    ensures AllRefsBelow(node.prefix, rank, bound) && AllRefsBelow(node.anyOf, rank, bound)
    ensures AllRefsBelow(node.oneOf, rank, bound) && AllRefsBelow(node.allOf, rank, bound)
  {
    hide AllRefsBelow;
  }

  predicate AltsFree(parent: Schema, a: Alts, defs: Defs, chain: set<string>)
    requires a.Alts? ==> forall i | 0 <= i < |a.s| :: a.s[i] < parent
  {
    a.Alts? ==> AllRefFree(ResolveAll(parent, a.s, defs, chain))
  }

  predicate PropsFree(p: Props, defs: Defs, chain: set<string>) {
    p.Props? ==> forall k | k in p.m :: RefFree(Resolve(p.m[k], defs, chain))
  }

  predicate ItemsFree(items: Items, defs: Defs, chain: set<string>) {
    items.Items? ==> RefFree(Resolve(items.schema, defs, chain))
  }

  /** Nothing is left in a node without a reference when nothing is left in its parts. */
  lemma FreeTogether(node: Schema, defs: Defs, chain: set<string>)
    requires node.ref == ""
    ensures RefFree(ResolveChildren(node, defs, chain)) <==>
      && PropsFree(node.props, defs, chain) && ItemsFree(node.items, defs, chain)
      && AltsFree(node, node.prefix, defs, chain) && AltsFree(node, node.anyOf, defs, chain)
      && AltsFree(node, node.oneOf, defs, chain) && AltsFree(node, node.allOf, defs, chain)
  {
    hide Resolve, ResolveAll, AllRefFree;
    NoneFree();
    var r := ResolveChildren(node, defs, chain);
    if node.props.Props? { assert forall k | k in node.props.m :: r.props.m[k] == Resolve(node.props.m[k], defs, chain); }
  }

  lemma NoneFree()
    ensures AllRefFree(NoAlts)
  {}

  lemma AllLeftExactly(parent: Schema, a: Alts, defs: Defs, chain: set<string>, rank: Ranks, bound: nat)
    requires Acyclic(defs, rank) && (forall r | r in defs :: SiblingFree(defs[r]))
    requires AllSiblingFree(a) && AllRefsBelow(a, rank, bound)
    requires a.Alts? ==> forall i | 0 <= i < |a.s| :: a.s[i] < parent
    ensures AltsFree(parent, a, defs, chain) <==> AllAvoid(a, chain, defs, rank, bound)
    decreases |defs.Keys - chain|, parent, 0, a
  {
    hide Acyclic, Resolve, SiblingFree, RefsBelow, RefFree, Avoids;
    if a.Alts? {
      var r := ResolveAll(parent, a.s, defs, chain);
      forall i | 0 <= i < |a.s| ensures RefFree(r.s[i]) <==> Avoids(a.s[i], chain, defs, rank, bound) {
        LeftExactly(a.s[i], defs, chain, rank, bound);
      }
    }
  }

  // ----- references beside siblings -----

  /** A reference with siblings, resolved from the root: a reference is left exactly when one of the
      siblings leads, through the definitions, to the definition that is being resolved. */
  lemma SiblingsExactly(node: Schema, defs: Defs, rank: Ranks, bound: nat)
    requires Acyclic(defs, rank) && (forall r | r in defs :: SiblingFree(defs[r]))
    requires PartsSiblingFree(node) && RefsBelow(node, rank, bound) && node.ref != ""
    ensures RefFree(Resolve(node, defs, {})) <==> PartsAvoid(node, {node.ref}, defs, rank, bound)
  {
    RankedBelow(node, rank, bound);
    var r := node.ref;
    RankOf(r, defs, rank);
    assert {} + {r} == {r};
    OneFewer(defs, {}, r);
    NoReferenceLeft(defs[r], defs, {r}, rank, rank[r]);
    var d := Resolve(defs[r], defs, {r});
    var merged := WithSiblings(d, node);
    assert Resolve(node, defs, {}) == ResolveChildren(merged, defs, {r});
    MergedLeft(d, node, defs, rank, bound);
  }

  /** The definition has nothing left; what is left comes from the siblings. */
  lemma MergedLeft(d: Schema, node: Schema, defs: Defs, rank: Ranks, bound: nat)
    requires Acyclic(defs, rank) && (forall r | r in defs :: SiblingFree(defs[r]))
    requires RefFree(d) && PartsSiblingFree(node) && RefsBelow(node, rank, bound) && node.ref != ""
    ensures RefFree(ResolveChildren(WithSiblings(d, node), defs, {node.ref})) <==> PartsAvoid(node, {node.ref}, defs, rank, bound)
  {
    var plain := node.(ref := "");
    var chain := {node.ref};
    PlainBelow(node, rank, bound);
    PlainAvoids(node, chain, defs, rank, bound);
    PartsLeftExactly(plain, defs, chain, rank, bound);
    FreeStays(d, defs, chain);
    hide Acyclic, SiblingFree, AllSiblingFree, RefsBelow, AllRefsBelow, Avoids, AllAvoid, PartsAvoid;
    var merged := WithSiblings(d, node);
    MergedFree(d, node, merged, plain, defs, chain);
  }

  lemma PlainBelow(node: Schema, rank: Ranks, bound: nat)
    requires RefsBelow(node, rank, bound) && PartsSiblingFree(node)
    ensures RefsBelow(node.(ref := ""), rank, bound) && PartsSiblingFree(node.(ref := ""))
  {
    hide AllRefsBelow, AllSiblingFree;
  }

  lemma PlainAvoids(node: Schema, chain: set<string>, defs: Defs, rank: Ranks, bound: nat)
    requires Acyclic(defs, rank) && RefsBelow(node, rank, bound) && RefsBelow(node.(ref := ""), rank, bound)
    ensures PartsAvoid(node.(ref := ""), chain, defs, rank, bound) <==> PartsAvoid(node, chain, defs, rank, bound)
  {
    hide AllRefsBelow, AllAvoid, Acyclic, Avoids;
  }

  lemma MergedFree(d: Schema, node: Schema, merged: Schema, plain: Schema, defs: Defs, chain: set<string>)
    requires RefFree(d) && RefFree(ResolveChildren(d, defs, chain)) && merged == WithSiblings(d, node) && plain == node.(ref := "")
    ensures RefFree(ResolveChildren(merged, defs, chain)) <==> RefFree(ResolveChildren(plain, defs, chain))
  {
    assert d.ref == "" && merged.ref == "";
    hide RefFree, Resolve, ResolveChildren, AltsFree, PropsFree, ItemsFree;
    FreeTogether(merged, defs, chain);
    FreeTogether(plain, defs, chain);
    FreeTogether(d, defs, chain);
    AltsOfEither(merged, d, plain, merged.prefix, d.prefix, plain.prefix, defs, chain);
    AltsOfEither(merged, d, plain, merged.anyOf, d.anyOf, plain.anyOf, defs, chain);
    AltsOfEither(merged, d, plain, merged.oneOf, d.oneOf, plain.oneOf, defs, chain);
    AltsOfEither(merged, d, plain, merged.allOf, d.allOf, plain.allOf, defs, chain);
    NothingFree(defs, chain);
    NoAltsFree(plain, defs, chain);
  }

  lemma NothingFree(defs: Defs, chain: set<string>)
    ensures PropsFree(NoProps, defs, chain) && ItemsFree(NoItems, defs, chain)
  {}

  lemma NoAltsFree(s: Schema, defs: Defs, chain: set<string>)
    ensures AltsFree(s, NoAlts, defs, chain)
  {}

  lemma AltsOfEither(merged: Schema, d: Schema, plain: Schema, a: Alts, b: Alts, c: Alts, defs: Defs, chain: set<string>)
    requires a == if c.NoAlts? then b else c
    requires a.Alts? ==> forall i | 0 <= i < |a.s| :: a.s[i] < merged
    requires b.Alts? ==> forall i | 0 <= i < |b.s| :: b.s[i] < d
    requires c.Alts? ==> forall i | 0 <= i < |c.s| :: c.s[i] < plain
    ensures AltsFree(d, b, defs, chain) ==> (AltsFree(merged, a, defs, chain) <==> AltsFree(plain, c, defs, chain))
  {
    hide Resolve, RefFree;
    if a.Alts? {
      assert c.Alts? ==> ResolveAll(merged, a.s, defs, chain).s == ResolveAll(plain, c.s, defs, chain).s;
      assert c.NoAlts? ==> ResolveAll(merged, a.s, defs, chain).s == ResolveAll(d, b.s, defs, chain).s;
    }
  }

  // ----- parts of the root -----

  predicate AllOneLevel(a: Alts)
    decreases a
  {
    a.Alts? ==> forall i | 0 <= i < |a.s| :: OneLevel(a.s[i])
  }

  /** References may have siblings, but those have none in turn. */
  predicate OneLevel(s: Schema)
    decreases s
  {
    if s.ref != "" then PartsSiblingFree(s)
    else
      && (s.props.Props? ==> forall k | k in s.props.m :: OneLevel(s.props.m[k]))
      && (s.items.Items? ==> OneLevel(s.items.schema))
      && AllOneLevel(s.prefix) && AllOneLevel(s.anyOf) && AllOneLevel(s.oneOf) && AllOneLevel(s.allOf)
  }

  predicate AllClear(a: Alts, defs: Defs, rank: Ranks, bound: nat)
    requires Acyclic(defs, rank) && AllRefsBelow(a, rank, bound)
    decreases a
  {
    a.Alts? ==> forall i | 0 <= i < |a.s| :: Clear(a.s[i], defs, rank, bound)
  }

  /** No sibling of a reference, anywhere in the schema, leads to the definition of that reference. */
  predicate Clear(s: Schema, defs: Defs, rank: Ranks, bound: nat)
    requires Acyclic(defs, rank) && RefsBelow(s, rank, bound)
    decreases s
  {
    if s.ref != "" then PartsAvoid(s, {s.ref}, defs, rank, bound)
    else
      && (s.props.Props? ==> forall k | k in s.props.m :: Clear(s.props.m[k], defs, rank, bound))
      && (s.items.Items? ==> Clear(s.items.schema, defs, rank, bound))
      && AllClear(s.prefix, defs, rank, bound) && AllClear(s.anyOf, defs, rank, bound)
      && AllClear(s.oneOf, defs, rank, bound) && AllClear(s.allOf, defs, rank, bound)
  }

  /** With acyclic definitions for every reference, resolving a part of the root leaves a reference in it
      exactly when some reference has a sibling that leads, through these definitions, back to it. */
  lemma {:induction false} ReferenceLeftExactly(s: Schema, defs: Defs, rank: Ranks, bound: nat)
    requires Acyclic(defs, rank) && (forall r | r in defs :: SiblingFree(defs[r]))
    requires OneLevel(s) && RefsBelow(s, rank, bound)
    ensures RefFree(Resolve(s, defs, {})) <==> Clear(s, defs, rank, bound)
    decreases s, 1
  {
    if s.ref != "" {
      SiblingsExactly(s, defs, rank, bound);
    } else {
      PartsBelow(s, rank, bound);
      PartsOneLevel(s);
      hide Acyclic, SiblingFree, OneLevel, RefsBelow, RefFree, Resolve, ResolveChildren, PartsAvoid, AltsFree, AllRefsBelow, AllOneLevel, AllClear;
      FreeTogether(s, defs, {});
      ResolveTop(s, defs, {});
      if s.props.Props? {
        forall k | k in s.props.m ensures RefFree(Resolve(s.props.m[k], defs, {})) <==> Clear(s.props.m[k], defs, rank, bound) {
          ReferenceLeftExactly(s.props.m[k], defs, rank, bound);
        }
      }
      if s.items.Items? { ReferenceLeftExactly(s.items.schema, defs, rank, bound); }
      AllReferencesLeft(s, s.prefix, defs, rank, bound);
      AllReferencesLeft(s, s.anyOf, defs, rank, bound);
      AllReferencesLeft(s, s.oneOf, defs, rank, bound);
      AllReferencesLeft(s, s.allOf, defs, rank, bound);
    }
  }

  lemma ResolveTop(s: Schema, defs: Defs, chain: set<string>)
    requires s.ref == ""
    ensures Resolve(s, defs, chain) == ResolveChildren(s, defs, chain)
  {
    hide ResolveChildren;
  }

  lemma PartsOneLevel(s: Schema)
    requires OneLevel(s) && s.ref == ""
    ensures s.props.Props? ==> forall k | k in s.props.m :: OneLevel(s.props.m[k])
    ensures s.items.Items? ==> OneLevel(s.items.schema)
    ensures AllOneLevel(s.prefix) && AllOneLevel(s.anyOf) && AllOneLevel(s.oneOf) && AllOneLevel(s.allOf)
  {
    hide AllOneLevel;
  }

  lemma AllReferencesLeft(parent: Schema, a: Alts, defs: Defs, rank: Ranks, bound: nat)
    requires Acyclic(defs, rank) && (forall r | r in defs :: SiblingFree(defs[r]))
    requires AllOneLevel(a) && AllRefsBelow(a, rank, bound)
    requires a.Alts? ==> forall i | 0 <= i < |a.s| :: a.s[i] < parent
    ensures AltsFree(parent, a, defs, {}) <==> AllClear(a, defs, rank, bound)
    decreases parent, 0, a
  {
    hide Acyclic, Resolve, SiblingFree, OneLevel, RefsBelow, RefFree, Clear;
    if a.Alts? {
      var r := ResolveAll(parent, a.s, defs, {});
      forall i | 0 <= i < |a.s| ensures RefFree(r.s[i]) <==> Clear(a.s[i], defs, rank, bound) {
        ReferenceLeftExactly(a.s[i], defs, rank, bound);
      }
    }
  }
}
