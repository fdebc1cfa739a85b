/** internal/accounts/rotation.go: which accounts may be used, how that changes with time, and how
    the next one is chosen. Times are integers, percentages reals. */
module Accounts {
  import opened Text

  datatype Status = Active | Disabled | Expired | Banned

  datatype Window = Window(allowed: bool, limitReached: bool, used: Option<real>, resetAt: Option<int>)

  datatype Quota = Quota(rate: Window, secondary: Option<Window>, codeReview: Option<Window>, planType: string)

  datatype Record = Record(
    id: string, status: Status, accessToken: string, quota: Option<Quota>, cooldownUntil: Option<int>,
    planType: string, lastError: string, updatedAt: int)

  // ----- eligibility -----

  predicate Past(at: Option<int>, now: int) {
    at.Some? && at.value <= now
  }

  /** windowAvailabilityBlocked and windowLimitActive: a state without a reset time lasts. */
  predicate Blocked(w: Window, now: int) {
    !w.allowed && !Past(w.resetAt, now)
  }

  predicate LimitActive(w: Window, now: int) {
    w.limitReached && !Past(w.resetAt, now)
  }

  /** quotaBlocksGeneralRouting. */
  predicate QuotaBlocks(quota: Option<Quota>, now: int) {
    quota.Some?
    && (Blocked(quota.value.rate, now) || LimitActive(quota.value.rate, now)
        || (quota.value.secondary.Some? && LimitActive(quota.value.secondary.value, now)))
  }

  /** isEligible. */
  predicate IsEligible(r: Record, now: int) {
    && r.status == Active && !Blank(r.accessToken)
    && (r.cooldownUntil.Some? ==> r.cooldownUntil.value <= now)
    && !QuotaBlocks(r.quota, now)
  }

  // ----- refreshing -----

  /** normalizeRateLimitWindow. */
  function NormalizeWindow(w: Window, now: int): Window {
    if Past(w.resetAt, now) then Window(true, false, None, None) else w
  }

  function NormalizeOptional(w: Option<Window>, now: int): Option<Window> {
    if w.Some? then Some(NormalizeWindow(w.value, now)) else None
  }

  function NormalizeQuota(q: Quota, now: int): Quota {
    q.(rate := NormalizeWindow(q.rate, now), secondary := NormalizeOptional(q.secondary, now),
       codeReview := NormalizeOptional(q.codeReview, now))
  }

  predicate HasPastReset(q: Quota, now: int) {
    || Past(q.rate.resetAt, now)
    || (q.secondary.Some? && Past(q.secondary.value.resetAt, now))
    || (q.codeReview.Some? && Past(q.codeReview.value.resetAt, now))
  }

  /** Whether refreshing finds anything that has run out. */
  predicate NeedsRefresh(r: Record, now: int) {
    Past(r.cooldownUntil, now) || (r.quota.Some? && HasPastReset(r.quota.value, now))
  }

  /** One turn of the loop in refreshAllLocked. */
  function Refresh(r: Record, now: int): Record {
    if !NeedsRefresh(r, now) then r
    else r.(quota := if r.quota.Some? then Some(NormalizeQuota(r.quota.value, now)) else None,
            cooldownUntil := if Past(r.cooldownUntil, now) then None else r.cooldownUntil,
            updatedAt := now)
  }

  /** Refreshing never changes whether an account is eligible, now or at any later time. */
  lemma RefreshKeepsEligibility(r: Record, now: int, later: int)
    requires now <= later
    ensures IsEligible(Refresh(r, now), later) <==> IsEligible(r, later)
  {
    hide Blank;
    if r.quota.Some? {
      var q := r.quota.value;
      assert Blocked(NormalizeWindow(q.rate, now), later) <==> Blocked(q.rate, later);
      assert LimitActive(NormalizeWindow(q.rate, now), later) <==> LimitActive(q.rate, later);
    }
  }

  /** Refreshing again later is the same as refreshing later in the first place. */
  lemma RefreshAbsorbs(r: Record, now: int, later: int)
    requires now <= later
    ensures Refresh(Refresh(r, now), later) == Refresh(r, later).(updatedAt := Refresh(Refresh(r, now), later).updatedAt)
    ensures Refresh(Refresh(r, now), now) == Refresh(r, now)
  {
    if r.quota.Some? {
      QuotaAbsorbs(r.quota.value, now, later);
      QuotaAbsorbs(r.quota.value, now, now);
    }
    hide NormalizeQuota, HasPastReset;
  }

  /** What refreshing leaves of a window: nothing of one that has run out, and one that has not as it was.
      The cooldown goes once it is over. */
  lemma RefreshForgets(r: Record, now: int)
    ensures Refresh(r, now).cooldownUntil == if Past(r.cooldownUntil, now) then None else r.cooldownUntil
    ensures r.quota.Some? ==>
      && Refresh(r, now).quota.Some?
      && Kept(r.quota.value.rate, Refresh(r, now).quota.value.rate, now)
      && Refresh(r, now).quota.value.secondary.Some? == r.quota.value.secondary.Some?
      && (r.quota.value.secondary.Some? ==> Kept(r.quota.value.secondary.value, Refresh(r, now).quota.value.secondary.value, now))
      && Refresh(r, now).quota.value.codeReview.Some? == r.quota.value.codeReview.Some?
      && (r.quota.value.codeReview.Some? ==> Kept(r.quota.value.codeReview.value, Refresh(r, now).quota.value.codeReview.value, now))
  {}

  predicate Kept(before: Window, after: Window, now: int) {
    if Past(before.resetAt, now) then after.allowed && !after.limitReached && after.used == None && after.resetAt == None
    else after == before
  }

  lemma QuotaAbsorbs(q: Quota, now: int, later: int)
    requires now <= later
    ensures NormalizeQuota(NormalizeQuota(q, now), later) == NormalizeQuota(q, later)
    ensures !HasPastReset(q, now) ==> NormalizeQuota(q, now) == q
    ensures !HasPastReset(NormalizeQuota(q, now), now)
    ensures !HasPastReset(NormalizeQuota(q, now), later) ==> NormalizeQuota(q, now) == NormalizeQuota(q, later)
    ensures HasPastReset(NormalizeQuota(q, now), later) ==> HasPastReset(q, later)
    ensures HasPastReset(q, now) ==> HasPastReset(q, later)
  {}

  /** Left alone, an eligible account stays eligible. */
  lemma EligibleStays(r: Record, now: int, later: int)
    requires IsEligible(r, now) && now <= later
    ensures IsEligible(r, later)
  {
    hide Blank;
  }

  /** An account becomes eligible by waiting if and only if nothing stands in the way for good. */
  lemma EventuallyEligible(r: Record)
    ensures (exists t :: IsEligible(r, t))
      <==> r.status == Active && !Blank(r.accessToken) && !BlockedForGood(r.quota)
  {
    hide Blank;
    if r.status == Active && !Blank(r.accessToken) && !BlockedForGood(r.quota) {
      assert IsEligible(r, LastReset(r));
    }
  }

  /** A closed window without a reset time. */
  predicate BlockedForGood(quota: Option<Quota>) {
    quota.Some?
    && ((quota.value.rate.resetAt.None? && (!quota.value.rate.allowed || quota.value.rate.limitReached))
        || (quota.value.secondary.Some? && quota.value.secondary.value.resetAt.None? && quota.value.secondary.value.limitReached))
  }

  /** The times until which something holds the account back. */
  function HeldUntil(r: Record): set<int> {
    (if r.cooldownUntil.Some? then {r.cooldownUntil.value} else {})
    + if r.quota.None? then {} else
        ResetOf(r.quota.value.rate, !r.quota.value.rate.allowed || r.quota.value.rate.limitReached)
        + if r.quota.value.secondary.None? then {} else ResetOf(r.quota.value.secondary.value, r.quota.value.secondary.value.limitReached)
  }

  function ResetOf(w: Window, closed: bool): set<int> {
    if closed && w.resetAt.Some? then {w.resetAt.value} else {}
  }

  /** When an account is eligible, to the moment: nothing stands in the way for good, and all that holds it back
      is over or ends now. */
  lemma EligibleExactly(r: Record, now: int)
    ensures IsEligible(r, now)
      <==> r.status == Active && !Blank(r.accessToken) && !BlockedForGood(r.quota) && forall t | t in HeldUntil(r) :: t <= now
  {
    hide Blank, ResetOf;
    var cooling := if r.cooldownUntil.Some? then {r.cooldownUntil.value} else {};
    assert (forall t | t in cooling :: t <= now) <==> (r.cooldownUntil.Some? ==> r.cooldownUntil.value <= now) by {
      if r.cooldownUntil.Some? { assert r.cooldownUntil.value in cooling; }
    }
    if r.quota.Some? {
      var q := r.quota.value;
      WindowHolds(q.rate, !q.rate.allowed || q.rate.limitReached, now);
      if q.secondary.Some? { WindowHolds(q.secondary.value, q.secondary.value.limitReached, now); }
      var rate := ResetOf(q.rate, !q.rate.allowed || q.rate.limitReached);
      var secondary := if q.secondary.None? then {} else ResetOf(q.secondary.value, q.secondary.value.limitReached);
      assert HeldUntil(r) == cooling + (rate + secondary);
      assert forall t :: t in HeldUntil(r) <==> t in cooling || t in rate || t in secondary;
    } else {
      assert HeldUntil(r) == cooling;
    }
  }

  lemma WindowHolds(w: Window, closed: bool, now: int)
    ensures closed && !Past(w.resetAt, now)
      <==> (closed && w.resetAt.None?) || !(forall t | t in ResetOf(w, closed) :: t <= now)
  {
    if closed && w.resetAt.Some? { assert w.resetAt.value in ResetOf(w, closed); }
  }

  function Later(a: int, b: Option<int>): int {
    if b.Some? && b.value > a then b.value else a
  }

  function LastReset(r: Record): int {
    var t := Later(0, r.cooldownUntil);
    if r.quota.None? then t
    else
      var u := Later(t, r.quota.value.rate.resetAt);
      if r.quota.value.secondary.Some? then Later(u, r.quota.value.secondary.value.resetAt) else u
  }

  // ----- the order of ids -----

  /** strings.Compare(a, b) < 0. */
  predicate Precedes(a: string, b: string) {
    if b == "" then false
    else if a == "" then true
    else if a[0] != b[0] then a[0] < b[0]
    else Precedes(a[1..], b[1..])
  }

  lemma {:induction false} PrecedesTotal(a: string, b: string)
    ensures a == b || Precedes(a, b) || Precedes(b, a)
    ensures !(Precedes(a, b) && (a == b || Precedes(b, a)))
  {
    if a != "" && b != "" && a[0] == b[0] {
      PrecedesTotal(a[1..], b[1..]);
      assert a == [a[0]] + a[1..] && b == [b[0]] + b[1..];
    }
  }

  lemma {:induction false} PrecedesTransitive(a: string, b: string, c: string)
    requires Precedes(a, b) && Precedes(b, c)
    ensures Precedes(a, c)
  {
    if a != "" && a[0] == b[0] == c[0] {
      PrecedesTransitive(a[1..], b[1..], c[1..]);
    }
  }

  /** The first difference decides, and a string comes before those it begins. */
  lemma {:induction false} FirstDifference(common: string, a: string, b: string)
    requires a == "" || b == "" || a[0] != b[0]
    ensures Precedes(common + a, common + b) <==> b != "" && (a == "" || a[0] < b[0])
  {
    if common == "" {
      assert common + a == a && common + b == b;
    } else {
      assert (common + a)[1..] == common[1..] + a && (common + b)[1..] == common[1..] + b;
      FirstDifference(common[1..], a, b);
    }
  }

  // ----- rotation -----

  /** The accounts that m acquisitions in a row select when the same accounts stay in the same order. */
  function Picks(order: seq<string>, index: nat, m: nat): seq<string>
    requires order != []
  {
    seq(m, i requires 0 <= i < m => order[(index + i) % |order|])
  }

  lemma PicksAppend(order: seq<string>, index: nat, m: nat, n: nat)
    requires order != []
    ensures Picks(order, index, m + n) == Picks(order, index, m) + Picks(order, index + m, n)
  {
    var whole, parts := Picks(order, index, m + n), Picks(order, index, m) + Picks(order, index + m, n);
    forall i | 0 <= i < |whole| ensures whole[i] == parts[i] {
      if i >= m { assert index + m + (i - m) == index + i; }
    }
  }

  lemma ModuloWraps(a: nat, n: nat)
    requires n > 0
    ensures a < n ==> a % n == a
    ensures n <= a < 2 * n ==> a % n == a - n
  {}

  lemma ModuloSum(index: nat, i: nat, n: nat)
    requires n > 0
    ensures (index + i) % n == (index % n + i) % n
  {
    var q := index / n;
    assert index + i == q * n + (index % n + i);
    ModuloShift(index % n + i, q, n);
  }

  lemma {:induction false} ModuloShift(a: nat, q: nat, n: nat)
    requires n > 0
    ensures (q * n + a) % n == a % n
  {
    if q > 0 {
      ModuloShift(a, q - 1, n);
      assert q * n + a == ((q - 1) * n + a) + n;
      OneTurn((q - 1) * n + a, n);
    } else {
      assert q * n + a == a;
    }
  }

  lemma Distribute(n: nat, p: int, q: int)
    ensures n * (p - q) == n * p - n * q
  {}

  lemma {:induction false} AtLeastOnce(n: nat, a: nat)
    requires a >= 1
    ensures n * a >= n
  {
    if a > 1 {
      AtLeastOnce(n, a - 1);
      Distribute(n, a, 1);
    }
  }

  lemma RemainderIs(n: nat, q: nat, r: nat)
    requires r < n
    ensures (n * q + r) % n == r
  {
    var x := n * q + r;
    var p, s := x / n, x % n;
    assert x == n * p + s && 0 <= s < n;
    Distribute(n, p, q);
    Distribute(n, q, p);
    if p > q { AtLeastOnce(n, p - q); }
    if q > p { AtLeastOnce(n, q - p); }
  }

  lemma OneTurn(x: nat, n: nat)
    requires n > 0
    ensures (x + n) % n == x % n
  {
    var q := x / n;
    assert x == n * q + x % n;
    Distribute(n, q + 1, 1);
    RemainderIs(n, q + 1, x % n);
  }

  /** One round starts somewhere in the order and goes around it. */
  lemma OneRound(order: seq<string>, index: nat)
    requires order != []
    ensures var s := index % |order|; Picks(order, index, |order|) == order[s..] + order[..s]
  {
    var n, s := |order|, index % |order|;
    var round, turned := Picks(order, index, n), order[s..] + order[..s];
    forall i | 0 <= i < |round| ensures round[i] == turned[i] {
      ModuloSum(index, i, n);
      ModuloWraps(s + i, n);
    }
  }

  /** The length of k rounds. */
  function Rounds(n: nat, k: nat): nat {
    if k == 0 then 0 else n + Rounds(n, k - 1)
  }

  lemma {:induction false} RoundsAre(n: nat, k: nat)
    ensures Rounds(n, k) == k * n
  {
    if k > 0 { RoundsAre(n, k - 1); }
  }

  lemma {:induction false} RoundsAreFair(order: seq<string>, index: nat, k: nat, id: string)
    requires order != [] && forall i, j | 0 <= i < j < |order| :: order[i] != order[j]
    ensures multiset(Picks(order, index, Rounds(|order|, k)))[id] == if id in order then k else 0
    decreases k
  {
    var n := |order|;
    NoPicks(order, index);
    hide Picks;
    if k > 0 {
      RoundsAreFair(order, index + n, k - 1, id);
      PicksAppend(order, index, n, Rounds(n, k - 1));
      RoundIsFair(order, index, id);
    }
  }

  lemma NoPicks(order: seq<string>, index: nat)
    requires order != []
    ensures Picks(order, index, 0) == []
  {}

  lemma RoundIsFair(order: seq<string>, index: nat, id: string)
    requires order != [] && forall i, j | 0 <= i < j < |order| :: order[i] != order[j]
    ensures multiset(Picks(order, index, |order|))[id] == if id in order then 1 else 0
  {
    OneRound(order, index);
    hide Picks;
    var s := index % |order|;
    EachOnce(order, s, id);
  }

  /** Any k rounds of consecutive acquisitions, from any index, select every account k times. */
  lemma RotationIsFair(order: seq<string>, index: nat, k: nat, id: string)
    requires order != [] && forall i, j | 0 <= i < j < |order| :: order[i] != order[j]
    ensures multiset(Picks(order, index, k * |order|))[id] == if id in order then k else 0
  {
    RoundsAre(|order|, k);
    RoundsAreFair(order, index, k, id);
  }

  lemma EachOnce(order: seq<string>, s: nat, id: string)
    requires s <= |order| && forall i, j | 0 <= i < j < |order| :: order[i] != order[j]
    ensures multiset(order[s..] + order[..s])[id] == if id in order then 1 else 0
  {
    assert order == order[..s] + order[s..];
    assert multiset(order[s..] + order[..s]) == multiset(order);
    OnceInOrder(order, id);
  }

  lemma {:induction false} OnceInOrder(order: seq<string>, id: string)
    requires forall i, j | 0 <= i < j < |order| :: order[i] != order[j]
    ensures multiset(order)[id] == if id in order then 1 else 0
  {
    if order != [] {
      assert order == [order[0]] + order[1..];
      assert forall i, j | 0 <= i < j < |order[1..]| :: order[1..][i] != order[1..][j];
      OnceInOrder(order[1..], id);
      if order[0] == id {
        assert forall i | 0 <= i < |order[1..]| :: order[1..][i] != id;
      }
    }
  }

  // ----- sorting -----

  type Order = (Record, Record) -> bool

  function Insert(sorted: seq<Record>, r: Record, le: Order): seq<Record> {
    if sorted == [] then [r]
    else if le(r, sorted[0]) then [r] + sorted
    else [sorted[0]] + Insert(sorted[1..], r, le)
  }

  /** slices.SortFunc. */
  function SortBy(records: seq<Record>, le: Order): seq<Record> {
    if records == [] then [] else Insert(SortBy(records[1..], le), records[0], le)
  }

  lemma {:induction false} InsertPermutes(sorted: seq<Record>, r: Record, le: Order)
    ensures multiset(Insert(sorted, r, le)) == multiset(sorted) + multiset{r}
  {
    if sorted != [] && !le(r, sorted[0]) {
      InsertPermutes(sorted[1..], r, le);
      assert sorted == [sorted[0]] + sorted[1..];
    }
  }

  lemma {:induction false} SortPermutes(records: seq<Record>, le: Order)
    ensures multiset(SortBy(records, le)) == multiset(records)
  {
    if records != [] {
      SortPermutes(records[1..], le);
      InsertPermutes(SortBy(records[1..], le), records[0], le);
      assert records == [records[0]] + records[1..];
    }
  }

  ghost predicate Ordered(records: seq<Record>, le: Order) {
    forall i, j | 0 <= i < j < |records| :: le(records[i], records[j])
  }

  /** The order compares any two of the records and is transitive on them. */
  ghost predicate Compares(among: multiset<Record>, le: Order) {
    && (forall a, b | a in among && b in among :: le(a, b) || le(b, a))
    && (forall a, b, c | a in among && b in among && c in among :: le(a, b) && le(b, c) ==> le(a, c))
  }

  lemma {:induction false} InsertOrders(sorted: seq<Record>, r: Record, le: Order, among: multiset<Record>)
    requires Compares(among, le) && r in among && (forall x | x in sorted :: x in among) && Ordered(sorted, le)
    ensures Ordered(Insert(sorted, r, le), le)
  {
    if sorted != [] {
      var head, rest := sorted[0], sorted[1..];
      if le(r, head) {
        forall x | x in sorted ensures le(r, x) {
          if x != head {
            var j :| 0 <= j < |sorted| && sorted[j] == x;
            assert le(sorted[0], sorted[j]);
          }
        }
      } else {
        InsertOrders(rest, r, le, among);
        InsertPermutes(rest, r, le);
        forall x | x in Insert(rest, r, le) ensures le(head, x) {
          assert x in multiset(Insert(rest, r, le));
          if x != r {
            assert x in rest;
            var j :| 0 <= j < |rest| && rest[j] == x;
            assert sorted[j + 1] == x;
          }
        }
      }
    }
  }

  lemma {:induction false} SortOrders(records: seq<Record>, le: Order, among: multiset<Record>)
    requires Compares(among, le) && forall x | x in records :: x in among
    ensures Ordered(SortBy(records, le), le)
  {
    if records != [] {
      SortOrders(records[1..], le, among);
      SortPermutes(records[1..], le);
      forall x | x in SortBy(records[1..], le) ensures x in among {
        assert x in multiset(SortBy(records[1..], le));
      }
      InsertOrders(SortBy(records[1..], le), records[0], le, among);
    }
  }

  // ----- least used -----

  predicate HasUsage(r: Record) {
    r.quota.Some? && r.quota.value.rate.used.Some?
  }

  function SecondaryUsed(q: Quota): Option<real> {
    if q.secondary.Some? then q.secondary.value.used else None
  }

  function CompareReals(a: real, b: real): int {
    if a < b then -1 else if a > b then 1 else 0
  }

  function CompareTimes(a: int, b: int): int {
    if a < b then -1 else if a > b then 1 else 0
  }

  /** compareLeastUsedQuota. */
  function CompareUsage(a: Record, b: Record): int
    requires HasUsage(a) && HasUsage(b)
  {
    var p, q := a.quota.value, b.quota.value;
    var primary := CompareReals(p.rate.used.value, q.rate.used.value);
    var s, t := SecondaryUsed(p), SecondaryUsed(q);
    if primary != 0 then primary
    else if s.Some? && t.Some? && s.value != t.value then CompareReals(s.value, t.value)
    else if p.rate.resetAt.Some? && q.rate.resetAt.Some? then CompareTimes(p.rate.resetAt.value, q.rate.resetAt.value)
    else 0
  }

  predicate ByID(a: Record, b: Record) {
    a.id == b.id || Precedes(a.id, b.id)
  }

  predicate ByUsage(a: Record, b: Record) {
    HasUsage(a) && HasUsage(b) && (CompareUsage(a, b) < 0 || (CompareUsage(a, b) == 0 && ByID(a, b)))
  }

  /** Of the records that have used as much of their primary quota, all carry the other fields the
      comparison looks at, or none does. */
  ghost predicate Uniform(among: multiset<Record>) {
    && (forall r | r in among :: HasUsage(r))
    && (forall a, b | a in among && b in among && a.quota.value.rate.used == b.quota.value.rate.used ::
          SecondaryUsed(a.quota.value).Some? == SecondaryUsed(b.quota.value).Some?
          && a.quota.value.rate.resetAt.Some? == b.quota.value.rate.resetAt.Some?)
  }

  lemma IDsCompare(among: multiset<Record>)
    ensures Compares(among, ByID)
  {
    hide Precedes;
    forall a, b | a in among && b in among ensures ByID(a, b) || ByID(b, a) { PrecedesTotal(a.id, b.id); }
    forall a, b, c | a in among && b in among && c in among && ByID(a, b) && ByID(b, c) ensures ByID(a, c) {
      if Precedes(a.id, b.id) && Precedes(b.id, c.id) { PrecedesTransitive(a.id, b.id, c.id); }
    }
  }

  /** On records that agree in which fields they carry, the comparison is an order. */
  lemma UsageIsAnOrder(a: Record, b: Record, c: Record)
    requires Uniform(multiset{a, b, c})
    ensures CompareUsage(a, b) == -CompareUsage(b, a)
    ensures CompareUsage(a, b) <= 0 && CompareUsage(b, c) <= 0 ==> CompareUsage(a, c) <= 0
    ensures CompareUsage(a, b) == 0 && CompareUsage(b, c) == 0 ==> CompareUsage(a, c) == 0
    ensures CompareUsage(a, b) < 0 && CompareUsage(b, c) <= 0 ==> CompareUsage(a, c) < 0
    ensures CompareUsage(a, b) <= 0 && CompareUsage(b, c) < 0 ==> CompareUsage(a, c) < 0
  {
    assert a in multiset{a, b, c} && b in multiset{a, b, c} && c in multiset{a, b, c};
  }

  lemma UniformPart(among: multiset<Record>, a: Record, b: Record, c: Record)
    requires Uniform(among) && a in among && b in among && c in among
    ensures Uniform(multiset{a, b, c})
  {
    forall x | x in multiset{a, b, c} ensures x in among {}
  }

  lemma UsageCompares(among: multiset<Record>)
    requires Uniform(among)
    ensures Compares(among, ByUsage)
  {
    forall a, b | a in among && b in among ensures ByUsage(a, b) || ByUsage(b, a) {
      UniformPart(among, a, b, a);
      UsageIsAnOrder(a, b, a);
      hide CompareUsage, Precedes;
      PrecedesTotal(a.id, b.id);
    }
    forall a, b, c | a in among && b in among && c in among && ByUsage(a, b) && ByUsage(b, c) ensures ByUsage(a, c) {
      UniformPart(among, a, b, c);
      UsageIsAnOrder(a, b, c);
      hide CompareUsage, Precedes;
      if Precedes(a.id, b.id) && Precedes(b.id, c.id) { PrecedesTransitive(a.id, b.id, c.id); }
    }
  }

  /** Which of the two fields a record carries. */
  datatype Carried = Carried(secondary: bool, reset: bool)

  predicate Carries(r: Record, f: Carried) {
    HasUsage(r) && SecondaryUsed(r.quota.value).Some? == f.secondary && r.quota.value.rate.resetAt.Some? == f.reset
  }

  predicate InOrder(a: Record, b: Record, c: Record)
    requires HasUsage(a) && HasUsage(b) && HasUsage(c)
  {
    CompareUsage(a, b) <= 0 && CompareUsage(b, c) <= 0 ==> CompareUsage(a, c) <= 0
  }

  /** Records with the given use of the primary quota that carry the fields of f or those of g. */
  predicate Mixed(r: Record, used: real, f: Carried, g: Carried) {
    HasUsage(r) && r.quota.value.rate.used == Some(used) && (Carries(r, f) || Carries(r, g))
  }

  function With(r: Record, f: Carried, secondary: real, reset: int): Record
    requires HasUsage(r)
  {
    var q := r.quota.value;
    var window := Window(true, false, if f.secondary then Some(secondary) else None, None);
    r.(quota := Some(q.(rate := q.rate.(resetAt := if f.reset then Some(reset) else None), secondary := Some(window))))
  }

  /** Which mixtures are orderable: records that have used as much and carry the one or the other
      combination of fields always compare transitively exactly when it is one and the same. */
  lemma OrderableExactly(r: Record, used: real, f: Carried, g: Carried)
    requires HasUsage(r) && r.quota.value.rate.used == Some(used)
    ensures (forall a, b, c | Mixed(a, used, f, g) && Mixed(b, used, f, g) && Mixed(c, used, f, g) :: InOrder(a, b, c)) <==> f == g
  {
    if f == g {
      hide Mixed, InOrder;
      forall a, b, c | Mixed(a, used, f, g) && Mixed(b, used, f, g) && Mixed(c, used, f, g) ensures InOrder(a, b, c) {
        SameFieldsInOrder(a, b, c, used, f);
      }
    } else {
      hide CompareUsage, With;
      var richer := if f.secondary != g.secondary then f.secondary else f.reset;
      Clash(r, if richer then f else g, if richer then g else f);
      var rich, poor := if richer then f else g, if richer then g else f;
      var x, y, z := Most(r, rich, poor), Least(r, rich, poor), With(r, poor, 1.0, 1);
      WithIsMixed(r, used, f, g, 1.0, 1);
      WithIsMixed(r, used, f, g, 1.0, 2);
      WithIsMixed(r, used, f, g, 2.0, 1);
      hide Mixed;
      assert Mixed(x, used, f, g) && Mixed(y, used, f, g) && Mixed(z, used, f, g);
      assert !InOrder(x, z, y);
    }
  }

  lemma SameFieldsInOrder(a: Record, b: Record, c: Record, used: real, f: Carried)
    requires Mixed(a, used, f, f) && Mixed(b, used, f, f) && Mixed(c, used, f, f)
    ensures HasUsage(a) && HasUsage(b) && HasUsage(c) && InOrder(a, b, c)
  {
    UsageIsAnOrder(a, b, c);
    hide CompareUsage;
  }

  lemma WithIsMixed(r: Record, used: real, f: Carried, g: Carried, secondary: real, reset: int)
    requires HasUsage(r) && r.quota.value.rate.used == Some(used)
    ensures Mixed(With(r, f, secondary, reset), used, f, g) && Mixed(With(r, g, secondary, reset), used, f, g)
  {}

  function Most(r: Record, rich: Carried, poor: Carried): Record
    requires HasUsage(r)
  {
    if rich.secondary != poor.secondary then With(r, rich, 2.0, 1) else With(r, rich, 1.0, 2)
  }

  function Least(r: Record, rich: Carried, poor: Carried): Record
    requires HasUsage(r)
  {
    if rich.secondary != poor.secondary then With(r, rich, 1.0, 2) else With(r, rich, 1.0, 1)
  }

  /** Two records that differ in a field that a third does not carry: both compare with the third the
      wrong way around. */
  lemma Clash(r: Record, rich: Carried, poor: Carried)
    requires HasUsage(r) && (if rich.secondary != poor.secondary then rich.secondary else rich.reset && !poor.reset)
    ensures HasUsage(Most(r, rich, poor)) && HasUsage(Least(r, rich, poor)) && HasUsage(With(r, poor, 1.0, 1))
    ensures CompareUsage(Most(r, rich, poor), With(r, poor, 1.0, 1)) <= 0
    ensures CompareUsage(With(r, poor, 1.0, 1), Least(r, rich, poor)) <= 0
    ensures CompareUsage(Most(r, rich, poor), Least(r, rich, poor)) > 0
  {}

  /** The comparison can even go around in a circle: a before b, b before c, c before a. */
  lemma UsageCanCycle(a: Record, b: Record, c: Record)
    requires HasUsage(a) && HasUsage(b) && HasUsage(c)
    requires a.quota.value.rate.used == b.quota.value.rate.used == c.quota.value.rate.used
    requires SecondaryUsed(a.quota.value) == Some(1.0) && a.quota.value.rate.resetAt == Some(30)
    requires SecondaryUsed(b.quota.value) == Some(2.0) && b.quota.value.rate.resetAt == Some(10)
    requires SecondaryUsed(c.quota.value) == None && c.quota.value.rate.resetAt == Some(20)
    ensures CompareUsage(a, b) < 0 && CompareUsage(b, c) < 0 && CompareUsage(c, a) < 0
  {}
}
