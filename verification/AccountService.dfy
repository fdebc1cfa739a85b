/** Service (internal/accounts/service.go): the accounts, and the operations that choose among them
    and change them. Records cross its boundary as copies, so they are values here. Whether the
    store saves when asked to is a parameter of each operation. */
module AccountService {
  import opened Text
  import opened Accounts

  datatype Strategy = LeastUsed | RoundRobin | Sticky

  datatype Problem = StoreFailed | NoActiveAccounts | NotFound

  datatype Result<T> = Ok(value: T) | Err(problem: Problem)

  type Table = map<string, Record>

  function RefreshAll(records: Table, now: int): Table {
    map k | k in records :: Refresh(records[k], now)
  }

  /** The accounts that may be selected. */
  function Usable(records: Table, allow: Record -> bool, now: int): set<string> {
    set k | k in records && IsEligible(records[k], now) && allow(records[k])
  }

  predicate Keyed(records: Table) {
    forall k | k in records :: k != "" && records[k].id == k
  }

  /** The ids, in the order of ids, each once. */
  ghost predicate Listing(order: seq<string>, ids: set<string>) {
    && (forall id :: id in order <==> id in ids)
    && (forall i, j | 0 <= i < j < |order| :: Precedes(order[i], order[j]) && order[i] != order[j])
  }

  /** There is only one way to list them, so the order does not change from call to call. */
  lemma {:induction false} ListingIsUnique(a: seq<string>, b: seq<string>, ids: set<string>)
    requires Listing(a, ids) && Listing(b, ids)
    ensures a == b
    decreases |a|
  {
    hide Precedes;
    EmptyListing(a, ids);
    EmptyListing(b, ids);
    if a != [] {
      ListingStarts(a, b, ids);
      ListingStarts(b, a, ids);
      PrecedesTotal(a[0], b[0]);
      ListingRest(a, ids);
      ListingRest(b, ids);
      ListingIsUnique(a[1..], b[1..], ids - {a[0]});
    }
  }

  lemma EmptyListing(a: seq<string>, ids: set<string>)
    requires Listing(a, ids)
    ensures a == [] <==> ids == {}
  {
    if a != [] {
      assert a[0] in ids;
    } else {
      forall id ensures id !in ids { assert id in a <==> id in ids; }
    }
  }

  /** The first of a listing comes before or is the first of any other. */
  lemma ListingStarts(a: seq<string>, b: seq<string>, ids: set<string>)
    requires Listing(a, ids) && Listing(b, ids) && a != [] && b != []
    ensures a[0] == b[0] || Precedes(a[0], b[0])
  {
    hide Precedes;
    assert b[0] in ids;
    var i :| 0 <= i < |a| && a[i] == b[0];
    assert i > 0 ==> Precedes(a[0], a[i]);
  }

  lemma ListingRest(a: seq<string>, ids: set<string>)
    requires Listing(a, ids) && a != []
    ensures Listing(a[1..], ids - {a[0]})
  {
    hide Precedes;
    assert a == [a[0]] + a[1..];
    forall id ensures id in a[1..] <==> id in ids - {a[0]} {
      assert id in a <==> id in ids;
      if id in a[1..] {
        var i :| 0 <= i < |a[1..]| && a[1..][i] == id;
        assert a[i + 1] == id;
      }
    }
    assert forall i | 0 <= i < |a[1..]| :: a[1..][i] == a[i + 1];
  }

  /** Chosen from the listing at the rotation index. */
  ghost predicate Rotates(id: string, ids: set<string>, index: nat) {
    exists order :: Listing(order, ids) && order != [] && id == order[index % |order|]
  }

  function IDs(records: seq<Record>): seq<string> {
    seq(|records|, i requires 0 <= i < |records| => records[i].id)
  }

  /** The usable accounts that say how much of their quota is used. */
  function WithUsage(records: Table, ids: set<string>): set<string> {
    set k | k in ids && k in records && HasUsage(records[k])
  }

  function PrimaryUsed(r: Record): real
    requires HasUsage(r)
  {
    r.quota.value.rate.used.value
  }

  /** What is the same for both, or not known of both, or lower for the first. */
  predicate NotMore(a: Option<real>, b: Option<real>) {
    a.Some? && b.Some? ==> a.value <= b.value
  }

  predicate NotLater(a: Option<int>, b: Option<int>) {
    a.Some? && b.Some? ==> a.value <= b.value
  }

  /** Of the accounts that say, those that have used the least of their primary quota. */
  ghost function LeastPrimary(records: Table, ids: set<string>): set<string> {
    set k | k in WithUsage(records, ids)
      && forall o | o in WithUsage(records, ids) :: PrimaryUsed(records[k]) <= PrimaryUsed(records[o])
  }

  /** Of those, the ones that have used the least of their secondary quota. */
  ghost function LeastSecondary(records: Table, ids: set<string>): set<string> {
    set k | k in LeastPrimary(records, ids)
      && forall o | o in LeastPrimary(records, ids) ::
           NotMore(SecondaryUsed(records[k].quota.value), SecondaryUsed(records[o].quota.value))
  }

  /** Of those, the ones whose primary quota is reset first. */
  ghost function LowestUsage(records: Table, ids: set<string>): set<string> {
    set k | k in LeastSecondary(records, ids)
      && forall o | o in LeastSecondary(records, ids) ::
           NotLater(records[k].quota.value.rate.resetAt, records[o].quota.value.rate.resetAt)
  }

  ghost function RecordsOf(records: Table, ids: set<string>): multiset<Record> {
    multiset(set k | k in ids && k in records :: records[k])
  }

  ghost predicate UniformUsage(records: Table, ids: set<string>) {
    Uniform(RecordsOf(records, ids))
  }

  /** The candidates are the records of the ids, each once. */
  ghost predicate Lists(candidates: seq<Record>, records: Table, ids: set<string>) {
    && (forall id :: id in IDs(candidates) <==> id in ids)
    && (forall i, j | 0 <= i < j < |candidates| :: candidates[i].id != candidates[j].id)
    && (forall c | c in candidates :: c.id in records && records[c.id] == c)
    && Keyed(records)
  }

  /** selectRoundRobin. */
  method SelectRoundRobin(candidates: seq<Record>, index: nat, ghost ids: set<string>) returns (selected: Record)
    requires candidates != []
    requires forall id :: id in IDs(candidates) <==> id in ids
    requires forall i, j | 0 <= i < j < |candidates| :: candidates[i].id != candidates[j].id
    ensures selected in candidates && Rotates(selected.id, ids, index)
  {
    var sorted := SortBy(candidates, ByID);
    SortPermutes(candidates, ByID);
    IDsCompare(multiset(candidates));
    SortOrders(candidates, ByID, multiset(candidates));
    SortedIsListing(candidates, sorted, ids);
    assert |multiset(sorted)| == |multiset(candidates)|;
    selected := sorted[index % |sorted|];
    assert selected in multiset(sorted);
    assert IDs(sorted)[index % |sorted|] == selected.id;
  }

  lemma SortedIsListing(candidates: seq<Record>, sorted: seq<Record>, ids: set<string>)
    requires multiset(sorted) == multiset(candidates) && Ordered(sorted, ByID)
    requires forall id :: id in IDs(candidates) <==> id in ids
    requires forall i, j | 0 <= i < j < |candidates| :: candidates[i].id != candidates[j].id
    ensures Listing(IDs(sorted), ids)
  {
    hide Precedes;
    forall id ensures id in IDs(sorted) <==> id in IDs(candidates) {
      SameIDs(candidates, sorted, id);
      SameIDs(sorted, candidates, id);
    }
    forall i, j | 0 <= i < j < |sorted|
      ensures Precedes(IDs(sorted)[i], IDs(sorted)[j]) && IDs(sorted)[i] != IDs(sorted)[j]
    {
      assert ByID(sorted[i], sorted[j]);
      StillDistinct(candidates, sorted, i, j);
    }
  }

  lemma SameIDs(a: seq<Record>, b: seq<Record>, id: string)
    requires multiset(a) == multiset(b)
    ensures id in IDs(a) ==> id in IDs(b)
  {
    if id in IDs(a) {
      var i :| 0 <= i < |a| && IDs(a)[i] == id;
      assert a[i] in multiset(b);
      var j :| 0 <= j < |b| && b[j] == a[i];
      assert IDs(b)[j] == id;
    }
  }

  /** A rearrangement of records with ids of their own has ids of their own. */
  lemma StillDistinct(a: seq<Record>, b: seq<Record>, i: nat, j: nat)
    requires multiset(a) == multiset(b) && i < j < |b|
    requires forall x, y | 0 <= x < y < |a| :: a[x].id != a[y].id
    ensures b[i].id != b[j].id
  {
    assert b[i] in multiset(a) && b[j] in multiset(a);
    var x :| 0 <= x < |a| && a[x] == b[i];
    var y :| 0 <= y < |a| && a[y] == b[j];
    if x == y {
      TwiceIn(b, i, j);
      OnceIn(a, x);
    }
  }

  lemma TwiceIn(b: seq<Record>, i: nat, j: nat)
    requires i < j < |b| && b[i] == b[j]
    ensures multiset(b)[b[i]] >= 2
  {
    assert b == b[..j] + [b[j]] + b[j + 1..];
    assert b[i] in b[..j];
  }

  lemma OnceIn(a: seq<Record>, x: nat)
    requires x < |a| && forall y | 0 <= y < |a| && y != x :: a[y].id != a[x].id
    ensures multiset(a)[a[x]] == 1
  {
    assert a == a[..x] + [a[x]] + a[x + 1..];
    assert a[x] !in a[..x] && a[x] !in a[x + 1..];
  }

  /** The records with usage, in the order they are in. */
  method FilterUsage(candidates: seq<Record>) returns (withQuota: seq<Record>)
    ensures forall r :: r in withQuota <==> r in candidates && HasUsage(r)
    ensures (forall i, j | 0 <= i < j < |candidates| :: candidates[i].id != candidates[j].id)
      ==> forall i, j | 0 <= i < j < |withQuota| :: withQuota[i].id != withQuota[j].id
  {
    hide HasUsage;
    withQuota := [];
    var k := 0;
    while k < |candidates|
      invariant 0 <= k <= |candidates|
      invariant forall r :: r in withQuota <==> r in candidates[..k] && HasUsage(r)
      invariant (forall i, j | 0 <= i < j < |candidates| :: candidates[i].id != candidates[j].id)
        ==> forall i, j | 0 <= i < j < |withQuota| :: withQuota[i].id != withQuota[j].id
    {
      assert candidates[..k + 1] == candidates[..k] + [candidates[k]];
      if HasUsage(candidates[k]) {
        assert forall i | 0 <= i < |withQuota| :: withQuota[i] in candidates[..k];
        withQuota := withQuota + [candidates[k]];
      }
      k := k + 1;
    }
    assert candidates[..k] == candidates;
  }

  /** The length of the run of records at the start that compare equal to the first. */
  method TiedCount(sorted: seq<Record>) returns (tied: nat)
    requires sorted != [] && forall r | r in sorted :: HasUsage(r)
    ensures 1 <= tied <= |sorted|
    ensures forall i | 0 < i < tied :: CompareUsage(sorted[0], sorted[i]) == 0
    ensures tied < |sorted| ==> CompareUsage(sorted[0], sorted[tied]) != 0
  {
    hide CompareUsage, HasUsage;
    tied := 1;
    while tied < |sorted| && CompareUsage(sorted[0], sorted[tied]) == 0
      invariant 1 <= tied <= |sorted|
      invariant forall i | 0 < i < tied :: CompareUsage(sorted[0], sorted[i]) == 0
    {
      tied := tied + 1;
    }
  }

  /** Where usage is uniform, the tied run is exactly the records with the lowest usage. */
  lemma TiedAreLowest(sorted: seq<Record>, tied: nat, i: nat)
    requires Uniform(multiset(sorted)) && Ordered(sorted, ByUsage) && 1 <= tied <= |sorted| && i < |sorted|
    requires forall r | r in sorted :: HasUsage(r)
    requires forall j | 0 < j < tied :: CompareUsage(sorted[0], sorted[j]) == 0
    requires tied < |sorted| ==> CompareUsage(sorted[0], sorted[tied]) != 0
    ensures i < tied <==> forall o | o in sorted :: CompareUsage(sorted[i], o) <= 0
  {
    UniformPart(multiset(sorted), sorted[0], sorted[i], sorted[0]);
    UsageIsAnOrder(sorted[0], sorted[i], sorted[0]);
    if i < tied {
      forall o | o in sorted ensures CompareUsage(sorted[i], o) <= 0 {
        var j :| 0 <= j < |sorted| && sorted[j] == o;
        assert j > 0 ==> ByUsage(sorted[0], sorted[j]);
        UniformPart(multiset(sorted), sorted[i], sorted[0], o);
        UsageIsAnOrder(sorted[i], sorted[0], o);
      }
    } else {
      assert ByUsage(sorted[0], sorted[tied]);
      assert i > tied ==> ByUsage(sorted[tied], sorted[i]);
      UniformPart(multiset(sorted), sorted[0], sorted[tied], sorted[i]);
      UsageIsAnOrder(sorted[0], sorted[tied], sorted[i]);
      assert sorted[0] in sorted;
    }
  }

  /** The tied run of candidates sorted by usage. */
  lemma TiedRun(withQuota: seq<Record>, sorted: seq<Record>, count: nat)
    requires sorted == SortBy(withQuota, ByUsage) && 1 <= count <= |sorted|
    requires forall r | r in sorted :: r in withQuota && HasUsage(r)
    requires forall r | r in withQuota :: r in sorted
    requires multiset(sorted) == multiset(withQuota) && Uniform(multiset(withQuota))
    requires forall j | 0 < j < count :: CompareUsage(sorted[0], sorted[j]) == 0
    requires count < |sorted| ==> CompareUsage(sorted[0], sorted[count]) != 0
    ensures Ordered(sorted[..count], ByUsage)
    ensures forall r :: r in sorted[..count] <==> r in withQuota && forall o | o in withQuota :: CompareUsage(r, o) <= 0
  {
    hide CompareUsage, HasUsage, Uniform, ByUsage, SortBy;
    UsageCompares(multiset(withQuota));
    SortOrders(withQuota, ByUsage, multiset(withQuota));
    forall r ensures r in sorted[..count] <==> r in withQuota && forall o | o in withQuota :: CompareUsage(r, o) <= 0 {
      TiedMember(sorted, count, r);
    }
  }

  /** selectLeastUsed, when some candidate says how much it has used. */
  method SelectLowest(withQuota: seq<Record>, index: nat) returns (selected: Record, ghost tied: seq<Record>)
    requires withQuota != [] && forall r | r in withQuota :: HasUsage(r)
    ensures selected in withQuota && tied != [] && selected == tied[index % |tied|]
    ensures forall r | r in tied :: r in withQuota
    ensures Uniform(multiset(withQuota)) ==>
      Ordered(tied, ByUsage)
      && forall r :: r in tied <==> r in withQuota && forall o | o in withQuota :: CompareUsage(r, o) <= 0
    ensures (forall i, j | 0 <= i < j < |withQuota| :: withQuota[i].id != withQuota[j].id)
      ==> forall i, j | 0 <= i < j < |tied| :: tied[i].id != tied[j].id
  {
    hide CompareUsage, HasUsage, Uniform, ByUsage, SortBy, Ordered;
    var sorted := SortBy(withQuota, ByUsage);
    SortPermutes(withQuota, ByUsage);
    assert |multiset(sorted)| == |multiset(withQuota)|;
    SameMembers(withQuota, sorted);
    var count := TiedCount(sorted);
    tied := sorted[..count];
    var k := index % count;
    selected := sorted[k];
    assert selected in sorted && selected == tied[k];
    if Uniform(multiset(withQuota)) {
      TiedRun(withQuota, sorted, count);
    }
    if forall i, j | 0 <= i < j < |withQuota| :: withQuota[i].id != withQuota[j].id {
      forall i, j | 0 <= i < j < |tied| ensures tied[i].id != tied[j].id {
        StillDistinct(withQuota, sorted, i, j);
      }
    }
  }

  lemma SameMembers(a: seq<Record>, b: seq<Record>)
    requires multiset(a) == multiset(b)
    ensures forall r :: r in a <==> r in b
  {
    forall r ensures r in a <==> r in b { assert r in multiset(a) <==> r in multiset(b); }
  }

  lemma TiedMember(sorted: seq<Record>, count: nat, r: Record)
    requires Uniform(multiset(sorted)) && Ordered(sorted, ByUsage) && 1 <= count <= |sorted|
    requires forall r | r in sorted :: HasUsage(r)
    requires forall j | 0 < j < count :: CompareUsage(sorted[0], sorted[j]) == 0
    requires count < |sorted| ==> CompareUsage(sorted[0], sorted[count]) != 0
    ensures r in sorted[..count] <==> r in sorted && forall o | o in sorted :: CompareUsage(r, o) <= 0
  {
    hide CompareUsage, HasUsage, Uniform, ByUsage, Ordered;
    if r in sorted {
      var i :| 0 <= i < |sorted| && sorted[i] == r;
      TiedAreLowest(sorted, count, i);
      if r in sorted[..count] {
        var j :| 0 <= j < count && sorted[j] == r;
        TiedAreLowest(sorted, count, j);
      } else {
        assert i >= count;
      }
    }
  }

  lemma ListedIDs(candidates: seq<Record>, records: Table, ids: set<string>)
    requires Lists(candidates, records, ids)
    ensures forall c | c in candidates :: c.id in ids && c.id in records && records[c.id] == c
    ensures forall id | id in ids :: id in records && records[id] in candidates
    ensures candidates == [] <==> ids == {}
  {
    forall c | c in candidates ensures c.id in ids {
      var i :| 0 <= i < |candidates| && candidates[i] == c;
      assert IDs(candidates)[i] == c.id;
    }
    forall id | id in ids ensures id in records && records[id] in candidates {
      assert id in IDs(candidates);
      var i :| 0 <= i < |candidates| && IDs(candidates)[i] == id;
      assert candidates[i] in candidates;
    }
    if candidates != [] { assert candidates[0].id in ids; }
  }

  /** Ties are listed in the order of ids. */
  lemma TiesAreListed(tied: seq<Record>, ids: set<string>)
    requires Ordered(tied, ByUsage) && (forall id :: id in IDs(tied) <==> id in ids)
    requires forall r, o | r in tied && o in tied :: HasUsage(r) && HasUsage(o) && CompareUsage(r, o) <= 0
    requires Uniform(multiset(tied))
    requires forall i, j | 0 <= i < j < |tied| :: tied[i].id != tied[j].id
    ensures Listing(IDs(tied), ids)
  {
    hide Precedes;
    forall i, j | 0 <= i < j < |tied| ensures Precedes(IDs(tied)[i], IDs(tied)[j]) && IDs(tied)[i] != IDs(tied)[j] {
      UniformPart(multiset(tied), tied[i], tied[j], tied[i]);
      UsageIsAnOrder(tied[i], tied[j], tied[i]);
      hide CompareUsage, Uniform;
      assert ByUsage(tied[i], tied[j]);
      assert tied[i] in tied && tied[j] in tied;
      assert CompareUsage(tied[i], tied[j]) == 0;
    }
  }

  lemma UniformOfListed(withQuota: seq<Record>, records: Table, ids: set<string>)
    requires UniformUsage(records, WithUsage(records, ids))
    requires forall r | r in withQuota :: r.id in ids && r.id in records && records[r.id] == r && HasUsage(r)
    ensures Uniform(multiset(withQuota))
  {
    hide HasUsage;
    var all := set k | k in WithUsage(records, ids) && k in records :: records[k];
    forall r | r in withQuota ensures r in multiset(all) { assert records[r.id] in all; }
  }

  /** The comparison of two records, told by their fields. */
  lemma ComparesFields(a: Record, b: Record)
    requires Uniform(multiset{a, b})
    ensures HasUsage(a) && HasUsage(b)
    ensures var p, q := a.quota.value, b.quota.value;
      CompareUsage(a, b) <= 0
      <==> || PrimaryUsed(a) < PrimaryUsed(b)
           || (PrimaryUsed(a) == PrimaryUsed(b) && NotMore(SecondaryUsed(p), SecondaryUsed(q))
               && (SecondaryUsed(p) == SecondaryUsed(q) ==> NotLater(p.rate.resetAt, q.rate.resetAt)))
    ensures PrimaryUsed(a) == PrimaryUsed(b) ==>
      && (SecondaryUsed(a.quota.value).Some? <==> SecondaryUsed(b.quota.value).Some?)
      && (a.quota.value.rate.resetAt.Some? <==> b.quota.value.rate.resetAt.Some?)
  {
    assert a in multiset{a, b} && b in multiset{a, b};
  }

  lemma UniformPair(records: Table, ids: set<string>, k: string, o: string)
    requires UniformUsage(records, WithUsage(records, ids)) && k in WithUsage(records, ids) && o in WithUsage(records, ids)
    ensures Uniform(multiset{records[k], records[o]})
  {
    var all := RecordsOf(records, WithUsage(records, ids));
    assert records[k] in all && records[o] in all;
    hide HasUsage;
    forall x | x in multiset{records[k], records[o]} ensures x in all {}
  }

  /** Those that compare lowest are those with the lowest usage. */
  lemma LowestCompares(records: Table, ids: set<string>, k: string)
    requires UniformUsage(records, WithUsage(records, ids)) && k in WithUsage(records, ids)
    ensures k in LowestUsage(records, ids)
      <==> forall o | o in WithUsage(records, ids) :: CompareUsage(records[k], records[o]) <= 0
  {
    forall o | o in WithUsage(records, ids)
      ensures Uniform(multiset{records[k], records[o]}) && Uniform(multiset{records[o], records[k]})
    {
      UniformPair(records, ids, k, o);
      UniformPair(records, ids, o, k);
    }
    hide CompareUsage, UniformUsage, Uniform, HasUsage;
    if k in LowestUsage(records, ids) {
      forall o | o in WithUsage(records, ids) ensures CompareUsage(records[k], records[o]) <= 0 {
        LowestToAll(records, ids, k, o);
      }
    }
    if forall o | o in WithUsage(records, ids) :: CompareUsage(records[k], records[o]) <= 0 {
      AllToLowest(records, ids, k);
    }
  }

  lemma LowestToAll(records: Table, ids: set<string>, k: string, o: string)
    requires k in LowestUsage(records, ids) && o in WithUsage(records, ids) && Uniform(multiset{records[k], records[o]})
    requires forall p | p in WithUsage(records, ids) :: Uniform(multiset{records[k], records[p]})
    ensures CompareUsage(records[k], records[o]) <= 0
  {
    ComparesFields(records[k], records[o]);
    hide CompareUsage, HasUsage, Uniform, WithUsage;
    assert k in LeastSecondary(records, ids) && k in LeastPrimary(records, ids);
    if PrimaryUsed(records[k]) == PrimaryUsed(records[o]) {
      assert o in LeastPrimary(records, ids);
      if SecondaryUsed(records[k].quota.value) == SecondaryUsed(records[o].quota.value) {
        assert o in LeastSecondary(records, ids);
      }
    }
  }

  lemma AllToLowest(records: Table, ids: set<string>, k: string)
    requires k in WithUsage(records, ids)
    requires forall o | o in WithUsage(records, ids) :: Uniform(multiset{records[k], records[o]})
    requires forall o | o in WithUsage(records, ids) :: CompareUsage(records[k], records[o]) <= 0
    ensures k in LowestUsage(records, ids)
  {
    forall o | o in WithUsage(records, ids)
      ensures PrimaryUsed(records[k]) <= PrimaryUsed(records[o])
      ensures PrimaryUsed(records[k]) == PrimaryUsed(records[o]) ==>
        && NotMore(SecondaryUsed(records[k].quota.value), SecondaryUsed(records[o].quota.value))
        && (SecondaryUsed(records[k].quota.value).Some? <==> SecondaryUsed(records[o].quota.value).Some?)
        && (SecondaryUsed(records[k].quota.value) == SecondaryUsed(records[o].quota.value) ==>
              NotLater(records[k].quota.value.rate.resetAt, records[o].quota.value.rate.resetAt))
    {
      ComparesFields(records[k], records[o]);
    }
    hide CompareUsage, HasUsage, Uniform, WithUsage;
    assert k in LeastPrimary(records, ids);
    assert forall o | o in LeastPrimary(records, ids) :: PrimaryUsed(records[o]) == PrimaryUsed(records[k]);
    assert k in LeastSecondary(records, ids);
    forall o | o in LeastSecondary(records, ids)
      ensures SecondaryUsed(records[k].quota.value) == SecondaryUsed(records[o].quota.value)
    {
      assert o in LeastPrimary(records, ids);
      assert NotMore(SecondaryUsed(records[o].quota.value), SecondaryUsed(records[k].quota.value));
    }
  }

  lemma TiesAreLowest(tied: seq<Record>, withQuota: seq<Record>, records: Table, ids: set<string>)
    requires UniformUsage(records, WithUsage(records, ids))
    requires forall r | r in withQuota :: r.id in ids && r.id in records && records[r.id] == r && HasUsage(r)
    requires Keyed(records) && forall id | id in ids && id in records && HasUsage(records[id]) :: records[id] in withQuota
    requires forall r :: r in tied <==> r in withQuota && forall o | o in withQuota :: CompareUsage(r, o) <= 0
    ensures forall id :: id in IDs(tied) <==> id in LowestUsage(records, ids)
  {
    hide CompareUsage, HasUsage, UniformUsage, LowestUsage;
    forall id ensures id in IDs(tied) <==> id in LowestUsage(records, ids) {
      LowestAreListed(records, ids, id);
      if id in WithUsage(records, ids) { LowestCompares(records, ids, id); }
      if id in IDs(tied) {
        var i :| 0 <= i < |tied| && IDs(tied)[i] == id;
        assert tied[i] in tied;
      }
      if id in LowestUsage(records, ids) {
        assert records[id] in tied;
        var i :| 0 <= i < |tied| && tied[i] == records[id];
        assert IDs(tied)[i] == id;
      }
    }
  }

  lemma LowestAreListed(records: Table, ids: set<string>, id: string)
    ensures id in LowestUsage(records, ids) ==> id in WithUsage(records, ids)
  {
    hide HasUsage;
  }

  /** selectLeastUsed. */
  method SelectLeastUsed(candidates: seq<Record>, index: nat, ghost records: Table, ghost ids: set<string>)
    returns (selected: Record)
    requires candidates != [] && Lists(candidates, records, ids)
    ensures selected in candidates
    ensures WithUsage(records, ids) == {} ==> Rotates(selected.id, ids, index)
    ensures WithUsage(records, ids) != {} ==> selected.id in WithUsage(records, ids)
    ensures WithUsage(records, ids) != {} && UniformUsage(records, WithUsage(records, ids)) ==>
      Rotates(selected.id, LowestUsage(records, ids), index)
  {
    hide HasUsage, CompareUsage, ByUsage, UniformUsage, Rotates, LowestUsage, Uniform;
    ListedIDs(candidates, records, ids);
    var withQuota := FilterUsage(candidates);
    if |withQuota| == 0 {
      NoUsage(records, ids, candidates);
      selected := SelectRoundRobin(candidates, index, ids);
      return;
    }
    assert withQuota[0].id in WithUsage(records, ids);
    ghost var tied;
    selected, tied := SelectLowest(withQuota, index);
    if UniformUsage(records, WithUsage(records, ids)) {
      UniformOfListed(withQuota, records, ids);
      TiesAreLowest(tied, withQuota, records, ids);
      UniformOfListed(tied, records, ids);
      TiesAreListed(tied, LowestUsage(records, ids));
      RotatesThrough(tied, selected, index, LowestUsage(records, ids));
    }
  }

  lemma NoUsage(records: Table, ids: set<string>, candidates: seq<Record>)
    requires forall id | id in ids :: id in records && records[id] in candidates
    requires forall c | c in candidates :: !HasUsage(c)
    ensures WithUsage(records, ids) == {}
  {
    hide HasUsage;
  }

  lemma RotatesThrough(tied: seq<Record>, selected: Record, index: nat, ids: set<string>)
    requires tied != [] && selected == tied[index % |tied|] && Listing(IDs(tied), ids)
    ensures Rotates(selected.id, ids, index)
  {
    hide Listing;
    assert IDs(tied)[index % |tied|] == selected.id;
  }

  ghost predicate AcquireOutcome(
    rs: Table, allow: Record -> bool, now: int, preferred: string, strategy: Strategy, sticky: string, index: nat,
    result: Result<Record>, newIndex: nat)
  {
    var ids := Usable(rs, allow, now);
    if ids == {} then result == Err(NoActiveAccounts) && newIndex == index
    else
      && result.Ok? && result.value.id in ids && rs[result.value.id] == result.value
      && (if preferred in ids then result.value.id == preferred && newIndex == index
          else if strategy == Sticky && sticky in ids then result.value.id == sticky && newIndex == index
          else newIndex == index + 1 && Chosen(result.value.id, rs, ids, strategy, index))
  }

  /** What the rotation strategies choose. */
  ghost predicate Chosen(id: string, rs: Table, ids: set<string>, strategy: Strategy, index: nat) {
    if strategy == RoundRobin || WithUsage(rs, ids) == {} then Rotates(id, ids, index)
    else
      && id in WithUsage(rs, ids)
      && (UniformUsage(rs, WithUsage(rs, ids)) ==> Rotates(id, LowestUsage(rs, ids), index))
  }

  class Service {
    var records: Table
    var rotationStrategy: Strategy
    var roundRobinIndex: nat
    var stickyAccountID: string

    ghost predicate Valid()
      reads this
    {
      Keyed(records) && (stickyAccountID == "" || stickyAccountID in records)
    }

    constructor (records: Table, strategy: Strategy)
      requires Keyed(records)
      ensures Valid() && this.records == records && rotationStrategy == strategy
      ensures roundRobinIndex == 0 && stickyAccountID == ""
    {
      this.records, rotationStrategy, roundRobinIndex, stickyAccountID := records, strategy, 0, "";
    }

    /** refreshAllLocked: the store is asked to save only when something had run out. */
    method RefreshAllLocked(now: int, saves: bool) returns (ok: bool)
      requires Valid()
      modifies this`records
      ensures Valid() && records == RefreshAll(old(records), now)
      ensures ok == (saves || forall k | k in old(records) :: !NeedsRefresh(old(records)[k], now))
    {
      hide NeedsRefresh;
      var before := records;
      var todo, changed := records.Keys, false;
      while todo != {}
        invariant todo <= before.Keys
        invariant records == map k | k in before :: if k in todo then before[k] else Refresh(before[k], now)
        invariant changed == exists k | k in before :: k !in todo && NeedsRefresh(before[k], now)
        decreases |todo|
      {
        var key :| key in todo;
        assert records[key] == before[key];
        if NeedsRefresh(records[key], now) {
          changed := true;
        }
        records := records[key := Refresh(records[key], now)];
        todo := todo - {key};
      }
      ok := saves || !changed;
    }

    /** The candidates of AcquireMatching, in whatever order the map yields them. */
    method Candidates(allow: Record -> bool, now: int) returns (candidates: seq<Record>)
      requires Valid()
      ensures Lists(candidates, records, Usable(records, allow, now))
    {
      hide IsEligible;
      candidates := [];
      var todo := records.Keys;
      while todo != {}
        invariant todo <= records.Keys
        invariant Lists(candidates, records, set k | k in Usable(records, allow, now) && k !in todo)
        decreases |todo|
      {
        var key :| key in todo;
        ghost var before := set k | k in Usable(records, allow, now) && k !in todo;
        todo := todo - {key};
        if IsEligible(records[key], now) && allow(records[key]) {
          ListOne(candidates, records, before, key);
          candidates := candidates + [records[key]];
          assert (set k | k in Usable(records, allow, now) && k !in todo) == before + {key};
        } else {
          assert (set k | k in Usable(records, allow, now) && k !in todo) == before;
        }
      }
      assert (set k | k in Usable(records, allow, now) && k !in todo) == Usable(records, allow, now);
    }

    /** AcquireMatching. */
    method AcquireMatching(preferredID: string, allow: Record -> bool, now: int, saves: bool) returns (result: Result<Record>)
      requires Valid()
      modifies this`records, this`roundRobinIndex
      ensures Valid() && records == RefreshAll(old(records), now)
      ensures if !saves && exists k | k in old(records) :: NeedsRefresh(old(records)[k], now) then
          result == Err(StoreFailed) && roundRobinIndex == old(roundRobinIndex)
        else AcquireOutcome(records, allow, now, preferredID, rotationStrategy, stickyAccountID, old(roundRobinIndex),
                            result, roundRobinIndex)
    {
      hide IsEligible, NeedsRefresh, Lists, Chosen, Rotates, RefreshAll;
      var ok := RefreshAllLocked(now, saves);
      if !ok {
        return Err(StoreFailed);
      }
      if preferredID in records && IsEligible(records[preferredID], now) && allow(records[preferredID]) {
        assert preferredID in Usable(records, allow, now);
        return Ok(records[preferredID]);
      }
      ghost var ids := Usable(records, allow, now);
      var candidates := Candidates(allow, now);
      ListedIDs(candidates, records, ids);
      if |candidates| == 0 {
        return Err(NoActiveAccounts);
      }
      if rotationStrategy == Sticky {
        if stickyAccountID != "" && exists c | c in candidates :: c.id == stickyAccountID {
          return Ok(records[stickyAccountID]);
        }
        assert stickyAccountID !in ids;
      }
      var selected := SelectByRotation(candidates, ids);
      result := Ok(selected);
    }

    method SelectByRotation(candidates: seq<Record>, ghost ids: set<string>) returns (selected: Record)
      requires candidates != [] && Lists(candidates, records, ids)
      modifies this`roundRobinIndex
      ensures selected in candidates && roundRobinIndex == old(roundRobinIndex) + 1
      ensures Chosen(selected.id, records, ids, rotationStrategy, old(roundRobinIndex))
    {
      hide Rotates, UniformUsage, LowestUsage, HasUsage;
      if rotationStrategy == RoundRobin {
        selected := SelectRoundRobin(candidates, roundRobinIndex, ids);
      } else {
        selected := SelectLeastUsed(candidates, roundRobinIndex, records, ids);
      }
      roundRobinIndex := roundRobinIndex + 1;
    }

    // ----- changes -----

    method Remove(id: string, saves: bool) returns (result: Result<()>)
      requires Valid()
      modifies this
      ensures Valid() && rotationStrategy == old(rotationStrategy) && roundRobinIndex == old(roundRobinIndex)
      ensures records == old(records) - {id} && stickyAccountID == if old(stickyAccountID) == id then "" else old(stickyAccountID)
      ensures result == if id !in old(records) then Err(NotFound) else if saves then Ok(()) else Err(StoreFailed)
    {
      if id !in records {
        assert records - {id} == records;
        return Err(NotFound);
      }
      records := records - {id};
      if stickyAccountID == id {
        stickyAccountID := "";
      }
      result := if saves then Ok(()) else Err(StoreFailed);
    }

    method NoteSuccess(id: string)
      requires Valid()
      modifies this`stickyAccountID
      ensures Valid() && stickyAccountID == if id in records then id else old(stickyAccountID)
    {
      if id in records {
        stickyAccountID := id;
      }
    }

    method SetCooldown(id: string, until: Option<int>, message: string, now: int, saves: bool) returns (result: Result<()>)
      requires Valid()
      modifies this`records
      ensures Valid() && result == if id !in old(records) then Err(NotFound) else if saves then Ok(()) else Err(StoreFailed)
      ensures records.Keys == old(records).Keys && forall k | k in records && k != id :: records[k] == old(records)[k]
      ensures id in records ==> records[id].cooldownUntil == until && records[id].quota == old(records)[id].quota
      ensures id in records && until.Some? ==> forall t | t < until.value :: !IsEligible(records[id], t)
      ensures id in records && until.Some? && IsEligible(old(records)[id].(cooldownUntil := None), until.value) ==>
        IsEligible(records[id], until.value)
    {
      hide Blank, QuotaBlocks;
      if id !in records {
        return Err(NotFound);
      }
      records := records[id := records[id].(cooldownUntil := until, lastError := TrimSpace(message), updatedAt := now)];
      result := if saves then Ok(()) else Err(StoreFailed);
    }

    /** A quota that does not block lifts the cooldown, so the account is eligible unless its status or
        its token forbids it. */
    method ObserveQuota(id: string, quota: Option<Quota>, now: int, saves: bool) returns (result: Result<()>)
      requires Valid()
      modifies this`records
      ensures Valid() && result == if id !in old(records) then Err(NotFound) else if saves then Ok(()) else Err(StoreFailed)
      ensures records.Keys == old(records).Keys && forall k | k in records && k != id :: records[k] == old(records)[k]
      ensures id in records && quota.Some? && !QuotaBlocks(quota, now) ==>
        (IsEligible(records[id], now) <==> records[id].status == Active && !Blank(records[id].accessToken))
      ensures id in records && quota.Some? && QuotaBlocks(quota, now) ==>
        !IsEligible(records[id], now) && records[id].cooldownUntil == old(records)[id].cooldownUntil
      ensures id in records && quota.None? ==>
        records[id].quota == None && records[id].cooldownUntil == old(records)[id].cooldownUntil
      ensures id in records ==> records[id].status == old(records)[id].status && records[id].accessToken == old(records)[id].accessToken
    {
      hide Blank, TrimSpace;
      if id !in records {
        return Err(NotFound);
      }
      result := if saves then Ok(()) else Err(StoreFailed);
      var record := records[id];
      if quota == None {
        records := records[id := record.(quota := None, updatedAt := now)];
        return;
      }
      var cloned := NormalizeQuota(quota.value, now);
      NormalizedBlocksSame(quota.value, now);
      record := record.(quota := Some(cloned), updatedAt := now);
      if TrimSpace(cloned.planType) != "" && TrimSpace(cloned.planType) != "unknown" {
        record := record.(planType := TrimSpace(cloned.planType));
      }
      if !QuotaBlocks(record.quota, now) {
        record := record.(cooldownUntil := None);
      }
      records := records[id := record];
    }
  }

  lemma NormalizedBlocksSame(q: Quota, now: int)
    ensures QuotaBlocks(Some(NormalizeQuota(q, now)), now) <==> QuotaBlocks(Some(q), now)
  {}

  lemma ListOne(candidates: seq<Record>, records: Table, ids: set<string>, key: string)
    requires Lists(candidates, records, ids) && key in records && key !in ids
    ensures Lists(candidates + [records[key]], records, ids + {key})
  {
    var longer := candidates + [records[key]];
    assert IDs(longer) == IDs(candidates) + [key];
    forall i | 0 <= i < |candidates| ensures candidates[i].id != key {
      assert IDs(candidates)[i] in ids;
    }
  }

  /** The table that is left after refreshing has the same usable accounts, now and later. */
  lemma RefreshKeepsUsable(records: Table, allow: Record -> bool, now: int, later: int)
    requires now <= later && forall r: Record, t: int :: allow(Refresh(r, t)) == allow(r)
    ensures Usable(RefreshAll(records, now), allow, later) == Usable(records, allow, later)
  {
    hide IsEligible, Refresh;
    forall k | k in records ensures IsEligible(Refresh(records[k], now), later) <==> IsEligible(records[k], later) {
      RefreshKeepsEligibility(records[k], now, later);
    }
  }

  /** While the usable accounts stay the same, k rounds of rotating choices among them use each k times. */
  lemma AcquisitionsAreFair(ids: set<string>, index: nat, chosen: seq<string>, k: nat, id: string)
    requires ids != {} && |chosen| == k * |ids| && forall i | 0 <= i < |chosen| :: Rotates(chosen[i], ids, index + i)
    ensures multiset(chosen)[id] == if id in ids then k else 0
  {
    if k == 0 {
      assert chosen == [];
    } else {
      RoundsAre(|ids|, k);
      assert chosen != [] by { CardinalityPositive(ids, k); }
      assert Rotates(chosen[0], ids, index + 0);
      var order :| Listing(order, ids) && order != [];
      ListingLength(order, ids);
      forall i | 0 <= i < |chosen| ensures chosen[i] == Picks(order, index, |chosen|)[i] {
        assert Rotates(chosen[i], ids, index + i);
        var other :| Listing(other, ids) && other != [] && chosen[i] == other[(index + i) % |other|];
        ListingIsUnique(order, other, ids);
      }
      assert chosen == Picks(order, index, k * |order|);
      RotationIsFair(order, index, k, id);
      assert id in order <==> id in ids;
    }
  }

  lemma CardinalityPositive(ids: set<string>, k: nat)
    requires ids != {} && k > 0
    ensures k * |ids| > 0
  {
    var id :| id in ids;
    assert |ids| > 0;
  }

  lemma {:induction false} ListingLength(order: seq<string>, ids: set<string>)
    requires Listing(order, ids)
    ensures |order| == |ids|
    decreases |order|
  {
    EmptyListing(order, ids);
    if order != [] {
      ListingRest(order, ids);
      ListingLength(order[1..], ids - {order[0]});
      assert order[0] in ids;
    }
  }

  /** The accounts that rotate: all that are usable, or the least used of them. */
  ghost function Rotating(rs: Table, ids: set<string>, strategy: Strategy): set<string> {
    if strategy == RoundRobin || WithUsage(rs, ids) == {} then ids else LowestUsage(rs, ids)
  }

  /** The choice is left to the rotation, and compares usage only where it is an order. */
  ghost predicate LeftToRotation(rs: Table, ids: set<string>, strategy: Strategy, sticky: string) {
    && (strategy == Sticky ==> sticky !in ids)
    && (strategy == RoundRobin || UniformUsage(rs, WithUsage(rs, ids)))
  }

  /** At a time, these accounts rotate. */
  ghost predicate RotatingAt(records: Table, allow: Record -> bool, now: int, strategy: Strategy, sticky: string, ids: set<string>) {
    var rs := RefreshAll(records, now);
    var usable := Usable(rs, allow, now);
    usable != {} && LeftToRotation(rs, usable, strategy, sticky) && Rotating(rs, usable, strategy) == ids
  }

  /** The same accounts rotate at every one of the times from i on. */
  ghost predicate SameRotating(
    records: Table, allow: Record -> bool, times: seq<int>, i: nat, strategy: Strategy, sticky: string, ids: set<string>)
  {
    forall j | i <= j < |times| :: RotatingAt(records, allow, times[j], strategy, sticky, ids)
  }

  /** The same records, up to the times at which they were last changed. */
  ghost predicate SameButDates(a: Table, b: Table) {
    a.Keys == b.Keys && forall k | k in a :: a[k] == b[k].(updatedAt := a[k].updatedAt)
  }

  lemma RefreshedTwice(records: Table, now: int, later: int)
    requires now <= later
    ensures SameButDates(RefreshAll(RefreshAll(records, now), later), RefreshAll(records, later))
  {
    forall k | k in records
      ensures Refresh(Refresh(records[k], now), later) == Refresh(records[k], later).(updatedAt := Refresh(Refresh(records[k], now), later).updatedAt)
    {
      RefreshAbsorbs(records[k], now, later);
    }
    hide Refresh;
  }

  lemma SameUsable(records: Table, allow: Record -> bool, now: int, later: int)
    requires now <= later && forall r: Record, t: int :: allow(Refresh(r, t)) == allow(r)
    ensures Usable(RefreshAll(RefreshAll(records, now), later), allow, later) == Usable(RefreshAll(records, later), allow, later)
  {
    hide Usable, RefreshAll, Refresh;
    RefreshKeepsUsable(RefreshAll(records, now), allow, later, later);
    RefreshKeepsUsable(records, allow, now, later);
    RefreshKeepsUsable(records, allow, later, later);
  }

  lemma SameUsage(a: Table, b: Table, ids: set<string>)
    requires SameButDates(a, b)
    ensures WithUsage(a, ids) == WithUsage(b, ids) && LowestUsage(a, ids) == LowestUsage(b, ids)
  {
    forall j, k | j in a && k in a && HasUsage(a[j]) && HasUsage(a[k])
      ensures HasUsage(b[j]) && HasUsage(b[k]) && CompareUsage(a[j], a[k]) == CompareUsage(b[j], b[k]) {}
    forall k | k in a ensures HasUsage(a[k]) == HasUsage(b[k]) {}
    hide CompareUsage, HasUsage;
  }

  lemma Counterpart(a: Table, b: Table, ids: set<string>, r: Record) returns (o: Record)
    requires SameButDates(a, b) && r in RecordsOf(b, ids)
    ensures o in RecordsOf(a, ids) && o == r.(updatedAt := o.updatedAt)
  {
    var k :| k in ids && k in b && b[k] == r;
    o := a[k];
  }

  lemma SameUniform(a: Table, b: Table, ids: set<string>)
    requires SameButDates(a, b) && UniformUsage(a, ids)
    ensures UniformUsage(b, ids)
  {
    hide SameButDates;
    forall r: Record | r in RecordsOf(b, ids) ensures HasUsage(r) {
      var o := Counterpart(a, b, ids, r);
    }
    forall r: Record, q: Record | r in RecordsOf(b, ids) && q in RecordsOf(b, ids) && r.quota.value.rate.used == q.quota.value.rate.used
      ensures SecondaryUsed(r.quota.value).Some? == SecondaryUsed(q.quota.value).Some?
        && r.quota.value.rate.resetAt.Some? == q.quota.value.rate.resetAt.Some?
    {
      var o := Counterpart(a, b, ids, r);
      var p := Counterpart(a, b, ids, q);
    }
  }

  lemma StillRotating(records: Table, allow: Record -> bool, times: seq<int>, i: nat, strategy: Strategy, sticky: string, ids: set<string>)
    requires i < |times| && SameRotating(records, allow, times, i, strategy, sticky, ids)
    requires forall a, b | 0 <= a <= b < |times| :: times[a] <= times[b]
    requires forall r: Record, t: int :: allow(Refresh(r, t)) == allow(r)
    ensures SameRotating(RefreshAll(records, times[i]), allow, times, i + 1, strategy, sticky, ids)
  {
    hide RotatingAt, Refresh, RefreshAll;
    forall j | i + 1 <= j < |times| ensures RotatingAt(RefreshAll(records, times[i]), allow, times[j], strategy, sticky, ids) {
      RotatesStill(records, allow, times[i], times[j], strategy, sticky, ids);
    }
  }

  lemma RotatesStill(records: Table, allow: Record -> bool, now: int, later: int, strategy: Strategy, sticky: string, ids: set<string>)
    requires now <= later && RotatingAt(records, allow, later, strategy, sticky, ids)
    requires forall r: Record, t: int :: allow(Refresh(r, t)) == allow(r)
    ensures RotatingAt(RefreshAll(records, now), allow, later, strategy, sticky, ids)
  {
    hide Usable, RefreshAll, Refresh, LowestUsage, WithUsage, UniformUsage;
    var rs, more := RefreshAll(records, later), RefreshAll(RefreshAll(records, now), later);
    var usable := Usable(rs, allow, later);
    RefreshedTwice(records, now, later);
    SameUsable(records, allow, now, later);
    SameUsage(more, rs, usable);
    if strategy != RoundRobin {
      DatesBack(more, rs);
      SameUniform(rs, more, WithUsage(rs, usable));
    }
  }

  lemma DatesBack(a: Table, b: Table)
    requires SameButDates(a, b)
    ensures SameButDates(b, a)
  {
    forall k | k in b ensures b[k] == a[k].(updatedAt := b[k].updatedAt) { assert k in a; }
  }

  lemma OutcomeRotates(records: Table, allow: Record -> bool, now: int, strategy: Strategy, sticky: string, index: nat, ids: set<string>,
                       result: Result<Record>, newIndex: nat)
    requires RotatingAt(records, allow, now, strategy, sticky, ids) && Keyed(records)
    requires AcquireOutcome(RefreshAll(records, now), allow, now, "", strategy, sticky, index, result, newIndex)
    ensures result.Ok? && newIndex == index + 1 && Rotates(result.value.id, ids, index)
  {
    var rs := RefreshAll(records, now);
    assert "" !in Usable(rs, allow, now);
    hide IsEligible, Rotates, UniformUsage, LowestUsage, WithUsage, Usable, RefreshAll;
  }

  /** A run of acquisitions, at any times in order, by any strategy: while the choice is left to the
      rotation, the store saves, and the same accounts rotate (all usable ones in round robin, those tied
      for the lowest usage otherwise), k acquisitions for each of them select every one exactly k times,
      wherever the rotation stands. */
  method AcquireRounds(service: Service, allow: Record -> bool, times: seq<int>, ghost ids: set<string>, ghost k: nat)
    returns (chosen: seq<string>)
    requires service.Valid()
    requires ids != {} && |times| == k * |ids|
    requires SameRotating(service.records, allow, times, 0, service.rotationStrategy, service.stickyAccountID, ids)
    requires forall a, b | 0 <= a <= b < |times| :: times[a] <= times[b]
    requires forall r: Record, t: int :: allow(Refresh(r, t)) == allow(r)
    modifies service`records, service`roundRobinIndex
    ensures service.Valid() && service.roundRobinIndex == old(service.roundRobinIndex) + |times|
    ensures |chosen| == |times| && forall id :: multiset(chosen)[id] == if id in ids then k else 0
  {
    hide IsEligible, NeedsRefresh, Usable, RefreshAll, Refresh, Rotates, AcquireOutcome, SameRotating, RotatingAt;
    chosen := [];
    var i := 0;
    ghost var start := service.roundRobinIndex;
    while i < |times|
      invariant 0 <= i <= |times| && |chosen| == i
      invariant service.Valid() && service.roundRobinIndex == start + i
      invariant SameRotating(service.records, allow, times, i, service.rotationStrategy, service.stickyAccountID, ids)
      invariant forall j | 0 <= j < i :: Rotates(chosen[j], ids, start + j)
    {
      ghost var before := service.records;
      StillRotating(before, allow, times, i, service.rotationStrategy, service.stickyAccountID, ids);
      RotatesNow(before, allow, times, i, service.rotationStrategy, service.stickyAccountID, ids);
      var result := service.AcquireMatching("", allow, times[i], true);
      OutcomeRotates(before, allow, times[i], service.rotationStrategy, service.stickyAccountID, start + i, ids, result, service.roundRobinIndex);
      chosen := chosen + [result.value.id];
      i := i + 1;
    }
    forall id ensures multiset(chosen)[id] == if id in ids then k else 0 {
      AcquisitionsAreFair(ids, start, chosen, k, id);
    }
  }

  lemma RotatesNow(records: Table, allow: Record -> bool, times: seq<int>, i: nat, strategy: Strategy, sticky: string, ids: set<string>)
    requires i < |times| && SameRotating(records, allow, times, i, strategy, sticky, ids)
    ensures RotatingAt(records, allow, times[i], strategy, sticky, ids)
  {
    hide RotatingAt;
  }
}
