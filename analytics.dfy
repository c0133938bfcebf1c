/** The administrator's dashboard figures: revenue, request counts, the
    status breakdown, revenue by service and by mechanic, the seven-day
    trend, and the two top-ten rankings. Amounts are in cents. */
module Analytics {
  import opened Common
  import opened Sequences
  import opened Model

  // ------------------------------------------------------------ mechanic names

  /** A user whose role is "mechanic", in any letter case. */
  predicate IsMechanic(u: User)
  {
    EqualsIgnoreCase("mechanic", Some(u.role))
  }

  /** The name shown for a mechanic: the full name, or "Unknown Mechanic". */
  function DisplayName(u: User): string
  {
    if u.fullName.Some? then u.fullName.value else "Unknown Mechanic"
  }

  /** The condition of being a mechanic with this id. */
  function MechanicWithId(id: Option<Id>): User -> bool
  {
    (u: User) => IsMechanic(u) && u.id == id
  }

  /** The mechanics' names by id; when two accounts share an id the earlier
      one's name is kept. The head is applied last, so it wins. */
  function MechanicNames(users: seq<User>): (r: map<Option<Id>, string>)
    ensures forall k | k in r :: exists u | u in users :: IsMechanic(u) && u.id == k
  {
    if users == [] then map[]
    else
      var rest := MechanicNames(users[1..]);
      if IsMechanic(users[0]) then rest[users[0].id := DisplayName(users[0])] else rest
  }

  /** An id is named exactly when some mechanic carries it, and its name is
      that of the first such mechanic in the list. */
  lemma {:induction false} MechanicNamesFirstWins(users: seq<User>, k: Option<Id>)
    ensures k in MechanicNames(users) <==> FindFirst(users, MechanicWithId(k)).Some?
    ensures k in MechanicNames(users) ==>
      MechanicNames(users)[k] == DisplayName(FindFirst(users, MechanicWithId(k)).value)
    decreases |users|
  {
    if users != [] {
      MechanicNamesFirstWins(users[1..], k);
      var first := MechanicWithId(k);
      assert first(users[0]) == (IsMechanic(users[0]) && users[0].id == k);
      assert FindFirst(users, first) == if first(users[0]) then Some(users[0]) else FindFirst(users[1..], first);
    }
  }

  // ---------------------------------------------------------------- KPIs

  function AmountOf(p: Payment): Cents { p.amount }

  /** The total of a list of payments. */
  function TotalRevenue(payments: seq<Payment>): Cents
  {
    SumBy(payments, AmountOf)
  }

  /** Total revenue adds up payment by payment. */
  lemma TotalRevenueSnoc(payments: seq<Payment>, p: Payment)
    ensures TotalRevenue(payments + [p]) == TotalRevenue(payments) + p.amount
  {
    assert (payments + [p])[..|payments|] == payments;
  }

  /** The total of the payments meeting a condition grows by one more payment's
      amount exactly when that payment meets it. */
  lemma FilteredRevenueSnoc(init: seq<Payment>, p: Payment, keep: Payment -> bool)
    ensures TotalRevenue(Filter(init + [p], keep)) ==
      TotalRevenue(Filter(init, keep)) + (if keep(p) then p.amount else 0)
  {
    FilterSnoc(init, p, keep);
    if keep(p) {
      TotalRevenueSnoc(Filter(init, keep), p);
    } else {
      assert Filter(init + [p], keep) == Filter(init, keep);
    }
  }

  /** A request that is finished: "Completed" or "Cancelled" in any letter case. */
  predicate IsClosed(r: RequestRecord)
  {
    EqualsIgnoreCase("Completed", r.status) || EqualsIgnoreCase("Cancelled", r.status)
  }

  /** An active request: any other, including one without a status. */
  predicate IsActive(r: RequestRecord)
  {
    !EqualsIgnoreCase("Completed", r.status) && !EqualsIgnoreCase("Cancelled", r.status)
  }

  function ActiveCount(requests: seq<RequestRecord>): nat
  {
    Count(requests, IsActive)
  }

  /** Every request is either active or closed, never both: the two counts
      add up to the number of requests. A request without a status is active. */
  lemma {:induction false} ActiveAndClosedPartition(requests: seq<RequestRecord>)
    ensures ActiveCount(requests) + Count(requests, IsClosed) == |requests|
    ensures forall r | r in requests && r.status.None? :: IsActive(r) && !IsClosed(r)
    decreases |requests|
  {
    if requests != [] {
      ActiveAndClosedPartition(requests[1..]);
      assert requests == [requests[0]] + requests[1..];
    }
  }

  /** BigDecimal.divide(b, HALF_UP) to a whole number of cents: the quotient
      nearest to a / b, a tie rounded away from zero. */
  function DivHalfUp(a: int, b: int): (q: int)
    requires b > 0
    ensures -b <= 2 * (a - q * b) <= b
    ensures 2 * (a - q * b) == b ==> a < 0
    ensures 2 * (a - q * b) == -b ==> a >= 0
  {
    if a >= 0 then
      var q := (2 * a + b) / (2 * b);
      DivHalfUpBounds(2 * a + b, 2 * b, q);
      q
    else
      var q := (2 * -a + b) / (2 * b);
      DivHalfUpBounds(2 * -a + b, 2 * b, q);
      -q
  }

  /** Euclidean division of a non-negative number, spelled out. */
  lemma DivHalfUpBounds(n: int, d: int, q: int)
    requires n >= 0 && d > 0 && q == n / d
    ensures q * d <= n < q * d + d
  {
    assert n == q * d + n % d;
  }

  /** The average ticket: no division without payments (0.00 is shown);
      otherwise total / count to the cent, half-up. */
  function AverageTicket(payments: seq<Payment>): (r: Cents)
    ensures payments == [] ==> r == 0
    ensures payments != [] ==>
      -|payments| <= 2 * (TotalRevenue(payments) - r * |payments|) <= |payments|
    ensures payments != [] && 2 * (TotalRevenue(payments) - r * |payments|) == |payments| ==>
      TotalRevenue(payments) < 0
    ensures payments != [] && 2 * (TotalRevenue(payments) - r * |payments|) == -|payments| ==>
      TotalRevenue(payments) >= 0
  {
    if payments == [] then 0 else DivHalfUp(TotalRevenue(payments), |payments|)
  }

  // ------------------------------------------------------- status breakdown

  /** The pie-chart category of a request: its status, or "Unknown" without one. */
  function StatusKey(r: RequestRecord): string
  {
    if r.status.None? then "Unknown" else r.status.value
  }

  function HasStatusKey(k: string): RequestRecord -> bool
  {
    (r: RequestRecord) => StatusKey(r) == k
  }

  /** groupingBy(status, counting()): the number of requests per category. */
  function StatusCounts(requests: seq<RequestRecord>): map<string, int>
  {
    if requests == [] then map[]
    else Merge(StatusCounts(requests[..|requests| - 1]), StatusKey(requests[|requests| - 1]), 1)
  }

  /** The category counts add up to the number of requests. */
  lemma {:induction false} StatusCountsSum(requests: seq<RequestRecord>)
    ensures MapSum(StatusCounts(requests)) == |requests|
    decreases |requests|
  {
    if requests != [] {
      var init := requests[..|requests| - 1];
      StatusCountsSum(init);
      MapSumMerge(StatusCounts(init), StatusKey(requests[|requests| - 1]), 1);
    }
  }

  /** A category appears exactly when some request falls in it, with the
      number of requests that do. */
  lemma {:induction false} StatusCountsPerKey(requests: seq<RequestRecord>, k: string)
    ensures k in StatusCounts(requests) <==> Count(requests, HasStatusKey(k)) > 0
    ensures k in StatusCounts(requests) ==> StatusCounts(requests)[k] == Count(requests, HasStatusKey(k))
    decreases |requests|
  {
    if requests != [] {
      var init, last := requests[..|requests| - 1], requests[|requests| - 1];
      StatusCountsPerKey(init, k);
      assert requests == init + [last];
      FilterSnoc(init, last, HasStatusKey(k));
    }
  }

  // --------------------------------------------------------- revenue maps

  /** No two requests share an id (toMap throws otherwise). */
  predicate DistinctIds(requests: seq<RequestRecord>)
  {
    forall i, j | 0 <= i < j < |requests| :: requests[i].id != requests[j].id
  }

  /** The requests by id. */
  function RequestIndex(requests: seq<RequestRecord>): (m: map<Option<Id>, RequestRecord>)
    requires DistinctIds(requests)
    ensures forall i | 0 <= i < |requests| :: requests[i].id in m && m[requests[i].id] == requests[i]
    ensures forall k | k in m :: m[k] in requests && m[k].id == k
  {
    if requests == [] then map[]
    else
      var init, last := requests[..|requests| - 1], requests[|requests| - 1];
      assert forall i | 0 <= i < |init| :: init[i] == requests[i];
      RequestIndex(init)[last.id := last]
  }

  /** The request a payment is for: only a non-null id found in the index. */
  function Resolve(p: Payment, index: map<Option<Id>, RequestRecord>): Option<RequestRecord>
  {
    if p.serviceRequestId.Some? && p.serviceRequestId in index then Some(index[p.serviceRequestId]) else None
  }

  /** The service a request's revenue is booked under: its description, or
      "Unknown Service" when that is null or empty. */
  function ServiceKey(r: RequestRecord): (k: string)
    ensures k != ""
    ensures r.serviceDescription.Some? && r.serviceDescription.value != "" ==> k == r.serviceDescription.value
    ensures r.serviceDescription.None? || r.serviceDescription.value == "" ==> k == "Unknown Service"
  {
    if r.serviceDescription.None? || r.serviceDescription.value == "" then "Unknown Service"
    else r.serviceDescription.value
  }

  /** revenueByService after the payments, taken in list order. */
  function ServiceRevenue(payments: seq<Payment>, index: map<Option<Id>, RequestRecord>): map<string, int>
  {
    if payments == [] then map[]
    else
      var before, p := ServiceRevenue(payments[..|payments| - 1], index), payments[|payments| - 1];
      match Resolve(p, index)
      case Some(r) => Merge(before, ServiceKey(r), p.amount)
      case None => before
  }

  /** revenueByMechanic after the payments, taken in list order. */
  function MechanicRevenue(payments: seq<Payment>, index: map<Option<Id>, RequestRecord>): map<Id, int>
  {
    if payments == [] then map[]
    else
      var before, p := MechanicRevenue(payments[..|payments| - 1], index), payments[|payments| - 1];
      match Resolve(p, index)
      case Some(r) => if r.mechanicId.Some? then Merge(before, r.mechanicId.value, p.amount) else before
      case None => before
  }

  function ResolvesIn(index: map<Option<Id>, RequestRecord>): Payment -> bool
  {
    (p: Payment) => Resolve(p, index).Some?
  }

  function PaidTo(mechanicId: Id, index: map<Option<Id>, RequestRecord>): Payment -> bool
  {
    (p: Payment) => Resolve(p, index).Some? && Resolve(p, index).value.mechanicId == Some(mechanicId)
  }

  function BookedUnder(service: string, index: map<Option<Id>, RequestRecord>): Payment -> bool
  {
    (p: Payment) => Resolve(p, index).Some? && ServiceKey(Resolve(p, index).value) == service
  }

  /** Filtering a list of payments, taking the last one off. */
  lemma FilterLastPayment(payments: seq<Payment>, keep: Payment -> bool)
    requires payments != []
    ensures Filter(payments, keep) ==
      Filter(payments[..|payments| - 1], keep) + (if keep(payments[|payments| - 1]) then [payments[|payments| - 1]] else [])
  {
    var init, last := payments[..|payments| - 1], payments[|payments| - 1];
    FilterSnoc(init, last, keep);
    assert init + [last] == payments;
  }

  /** The same, taking the last payment off a list. */
  lemma FilteredRevenueLast(payments: seq<Payment>, keep: Payment -> bool)
    requires payments != []
    ensures TotalRevenue(Filter(payments, keep)) ==
      TotalRevenue(Filter(payments[..|payments| - 1], keep))
      + (if keep(payments[|payments| - 1]) then payments[|payments| - 1].amount else 0)
  {
    assert payments == payments[..|payments| - 1] + [payments[|payments| - 1]];
    FilteredRevenueSnoc(payments[..|payments| - 1], payments[|payments| - 1], keep);
  }

  /** The last payment adds its amount to the sum by service exactly when its request is known. */
  lemma ServiceRevenueLast(payments: seq<Payment>, index: map<Option<Id>, RequestRecord>)
    requires payments != []
    ensures MapSum(ServiceRevenue(payments, index)) ==
      MapSum(ServiceRevenue(payments[..|payments| - 1], index))
      + (if Resolve(payments[|payments| - 1], index).Some? then payments[|payments| - 1].amount else 0)
  {
    var p := payments[|payments| - 1];
    if Resolve(p, index).Some? {
      MapSumMerge(ServiceRevenue(payments[..|payments| - 1], index), ServiceKey(Resolve(p, index).value), p.amount);
    }
  }

  /** Revenue by service accounts for exactly the payments whose request is known. */
  lemma {:induction false} ServiceRevenueTotal(payments: seq<Payment>, index: map<Option<Id>, RequestRecord>)
    ensures MapSum(ServiceRevenue(payments, index)) == TotalRevenue(Filter(payments, ResolvesIn(index)))
    decreases |payments|
  {
    if payments != [] {
      var init, p := payments[..|payments| - 1], payments[|payments| - 1];
      ServiceRevenueTotal(init, index);
      ServiceRevenueLast(payments, index);
      FilteredRevenueLast(payments, ResolvesIn(index));
      assert ResolvesIn(index)(p) == Resolve(p, index).Some?;
    }
  }

  /** Each service's revenue is the total of exactly the payments whose
      request is known and booked under that service; a service without
      such a payment has no entry. */
  lemma {:induction false} ServiceRevenueIsSum(payments: seq<Payment>, index: map<Option<Id>, RequestRecord>, s: string)
    ensures s in ServiceRevenue(payments, index) <==> Filter(payments, BookedUnder(s, index)) != []
    ensures s in ServiceRevenue(payments, index) ==>
      ServiceRevenue(payments, index)[s] == TotalRevenue(Filter(payments, BookedUnder(s, index)))
    decreases |payments|
  {
    if payments != [] {
      var init, p := payments[..|payments| - 1], payments[|payments| - 1];
      ServiceRevenueIsSum(init, index, s);
      FilterLastPayment(payments, BookedUnder(s, index));
      FilteredRevenueLast(payments, BookedUnder(s, index));
      var kept := Filter(init, BookedUnder(s, index));
      var r := Resolve(p, index);
      if r.Some? && ServiceKey(r.value) == s {
        assert BookedUnder(s, index)(p);
        if kept == [] {
          assert TotalRevenue(kept) == 0;
        }
      } else {
        assert !BookedUnder(s, index)(p);
      }
    }
  }

  /** Each mechanic's revenue is the total of exactly the payments whose
      request is known and assigned to that mechanic; a mechanic without
      such a payment has no entry. */
  lemma {:induction false} MechanicRevenueIsSum(payments: seq<Payment>, index: map<Option<Id>, RequestRecord>, k: Id)
    ensures k in MechanicRevenue(payments, index) <==> Filter(payments, PaidTo(k, index)) != []
    ensures k in MechanicRevenue(payments, index) ==>
      MechanicRevenue(payments, index)[k] == TotalRevenue(Filter(payments, PaidTo(k, index)))
    decreases |payments|
  {
    if payments != [] {
      var init, p := payments[..|payments| - 1], payments[|payments| - 1];
      MechanicRevenueIsSum(init, index, k);
      FilterLastPayment(payments, PaidTo(k, index));
      FilteredRevenueLast(payments, PaidTo(k, index));
      var kept := Filter(init, PaidTo(k, index));
      var r := Resolve(p, index);
      if r.Some? && r.value.mechanicId.Some? && r.value.mechanicId.value == k {
        assert PaidTo(k, index)(p);
        if kept == [] {
          assert TotalRevenue(kept) == 0;
        }
      } else {
        assert !PaidTo(k, index)(p);
      }
    }
  }

  /** The loop over the completed payments that fills both revenue maps. */
  method RevenueBreakdown(payments: seq<Payment>, index: map<Option<Id>, RequestRecord>)
    returns (byService: map<string, int>, byMechanic: map<Id, int>)
    ensures byService == ServiceRevenue(payments, index)
    ensures byMechanic == MechanicRevenue(payments, index)
  {
    byService, byMechanic := map[], map[];
    for i := 0 to |payments|
      invariant byService == ServiceRevenue(payments[..i], index)
      invariant byMechanic == MechanicRevenue(payments[..i], index)
    {
      var payment := payments[i];
      assert payments[..i + 1][..i] == payments[..i];
      if payment.serviceRequestId.Some? {
        if payment.serviceRequestId in index {
          var request := index[payment.serviceRequestId];
          var service := if request.serviceDescription.None? || request.serviceDescription.value == "" then "Unknown Service"
                         else request.serviceDescription.value;
          byService := Merge(byService, service, payment.amount);
          if request.mechanicId.Some? {
            byMechanic := Merge(byMechanic, request.mechanicId.value, payment.amount);
          }
        }
      }
    }
    assert payments[..|payments|] == payments;
  }

  // ------------------------------------------------------------- rankings

  /** Ordering by amount, largest first. */
  predicate AmountAtLeast<K>(a: (K, int), b: (K, int))
  {
    a.1 >= b.1
  }

  lemma AmountAtLeastIsPreorder<K(!new)>()
    ensures TotalPreorder(AmountAtLeast<K>)
  {
  }

  /** The entries of a map, in the unspecified order a HashMap yields them. */
  method MapEntries<K>(m: map<K, int>) returns (es: seq<(K, int)>)
    ensures |es| == |m|
    ensures forall e | e in es :: e.0 in m && e.1 == m[e.0]
    ensures forall k | k in m :: (k, m[k]) in es
    ensures forall i, j | 0 <= i < j < |es| :: es[i].0 != es[j].0
  {
    es := [];
    var rest := m;
    while rest != map[]
      invariant rest.Keys <= m.Keys && |es| + |rest| == |m|
      invariant forall k | k in rest :: rest[k] == m[k]
      invariant forall e | e in es :: e.0 in m && e.0 !in rest && e.1 == m[e.0]
      invariant forall k | k in m :: k in rest || (k, m[k]) in es
      invariant forall i, j | 0 <= i < j < |es| :: es[i].0 != es[j].0
      decreases |rest|
    {
      var k :| k in rest;
      es := es + [(k, rest[k])];
      assert (rest - {k}).Keys == rest.Keys - {k};
      rest := rest - {k};
    }
  }

  /** The first ten of a list of entries ordered largest first. */
  function Ranked<K(!new)>(es: seq<(K, int)>): seq<(K, int)>
  {
    AmountAtLeastIsPreorder<K>();
    Take(SortBy(es, AmountAtLeast), 10)
  }

  /** Every ranked entry is one of the entries. */
  lemma RankedFromEntries<K(!new)>(es: seq<(K, int)>)
    ensures forall e | e in Ranked(es) :: e in es
  {
    AmountAtLeastIsPreorder<K>();
    TopOfSorted(es, AmountAtLeast, 10);
    forall e | e in Ranked(es) ensures e in es {
      assert e in multiset(Ranked(es));
    }
  }

  /** An entry left out ranks no higher than any entry kept. */
  lemma RankedBeatsExcluded<K(!new)>(es: seq<(K, int)>)
    ensures forall e, x | e in Ranked(es) && x in es && x !in Ranked(es) :: e.1 >= x.1
  {
    AmountAtLeastIsPreorder<K>();
    TopOfSorted(es, AmountAtLeast, 10);
    forall e, x | e in Ranked(es) && x in es && x !in Ranked(es) ensures e.1 >= x.1 {
      assert x in multiset(es) - multiset(Ranked(es));
    }
  }

  /** Entries under distinct keys of a map stay under distinct keys once ranked. */
  lemma RankedDistinctKeys<K(!new)>(es: seq<(K, int)>, m: map<K, int>)
    requires forall e | e in es :: e.0 in m && e.1 == m[e.0]
    requires forall i, j | 0 <= i < j < |es| :: es[i].0 != es[j].0
    ensures forall i, j | 0 <= i < j < |Ranked(es)| :: Ranked(es)[i].0 != Ranked(es)[j].0
  {
    AmountAtLeastIsPreorder<K>();
    TopOfSorted(es, AmountAtLeast, 10);
    RankedFromEntries(es);
    SubMultisetNoRepeats(Ranked(es), es);
  }

  /** At most ten entries are all kept. */
  lemma RankedWhole<K(!new)>(es: seq<(K, int)>)
    requires |es| <= 10
    ensures forall x | x in es :: x in Ranked(es)
  {
    AmountAtLeastIsPreorder<K>();
    var sorted := SortBy(es, AmountAtLeast);
    assert Ranked(es) == sorted;
    forall x | x in es ensures x in Ranked(es) {
      assert x in multiset(sorted);
    }
  }

  /** The ten largest entries of a map, largest first. Which of several equal
      amounts make the cut depends on the map's iteration order. */
  method TopTen<K(!new)>(m: map<K, int>) returns (r: seq<(K, int)>)
    ensures |r| == Min(10, |m|)
    ensures SortedBy(r, AmountAtLeast)
    ensures forall e | e in r :: e.0 in m && e.1 == m[e.0]
    ensures forall e, k | e in r && k in m && (k, m[k]) !in r :: e.1 >= m[k]
    ensures |m| <= 10 ==> forall k | k in m :: (k, m[k]) in r
    ensures forall i, j | 0 <= i < j < |r| :: r[i].0 != r[j].0
    ensures TopRanking(r, m)
  {
    var es := MapEntries(m);
    r := Ranked(es);
    RankedIsTopRanking(es, m);
    if |m| <= 10 {
      RankedWhole(es);
    }
  }

  /** Ranking every entry of a map once gives a top-ten ranking of the map. */
  lemma RankedIsTopRanking<K(!new)>(es: seq<(K, int)>, m: map<K, int>)
    requires |es| == |m|
    requires forall e | e in es :: e.0 in m && e.1 == m[e.0]
    requires forall k | k in m :: (k, m[k]) in es
    requires forall i, j | 0 <= i < j < |es| :: es[i].0 != es[j].0
    ensures TopRanking(Ranked(es), m)
  {
    AmountAtLeastIsPreorder<K>();
    TopOfSorted(es, AmountAtLeast, 10);
    RankedFromEntries(es);
    RankedDistinctKeys(es, m);
    RankedBeatsExcluded(es);
  }

  /** `r` is a top-ten ranking of `m`: min(10, |m|) entries of `m` under
      distinct keys, largest first, none smaller than an entry left out. */
  ghost predicate TopRanking<K>(r: seq<(K, int)>, m: map<K, int>)
  {
    && |r| == Min(10, |m|)
    && SortedBy(r, AmountAtLeast)
    && (forall e | e in r :: e.0 in m && e.1 == m[e.0])
    && (forall i, j | 0 <= i < j < |r| :: r[i].0 != r[j].0)
    && (forall e, k | e in r && k in m && (k, m[k]) !in r :: e.1 >= m[k])
  }

  /** A chart label: longer than 20 characters becomes its first 17 and "...". */
  function Truncate(text: string): (r: string)
    ensures |text| <= 20 ==> r == text
    ensures |text| > 20 ==> |r| == 20 && r[..17] == text[..17] && r[17..] == "..."
  {
    if |text| > 20 then text[..17] + "..." else text
  }

  function TruncateLabels(es: seq<(string, Cents)>): (r: seq<(string, Cents)>)
    ensures |r| == |es|
    ensures forall i | 0 <= i < |es| :: r[i].0 == Truncate(es[i].0) && r[i].1 == es[i].1
  {
    seq(|es|, i requires 0 <= i < |es| => (Truncate(es[i].0), es[i].1))
  }

  // ------------------------------------------------------------ daily trend

  function OnDay(d: Day): Payment -> bool
  {
    (p: Payment) => p.createdDay == Some(d)
  }

  /** The revenue of one day: the payments dated that day. */
  function DaySum(payments: seq<Payment>, d: Day): Cents
  {
    TotalRevenue(Filter(payments, OnDay(d)))
  }

  /** A payment counts only towards the day it is dated: adding it changes
      no other day's revenue, and an undated one changes none. */
  lemma {:induction false} DaySumSnoc(payments: seq<Payment>, p: Payment, d: Day)
    ensures DaySum(payments + [p], d) == DaySum(payments, d) + (if p.createdDay == Some(d) then p.amount else 0)
  {
    FilterSnoc(payments, p, OnDay(d));
    var kept := Filter(payments, OnDay(d));
    if p.createdDay == Some(d) {
      assert OnDay(d)(p);
      assert Filter(payments + [p], OnDay(d)) == kept + [p];
      TotalRevenueSnoc(kept, p);
    } else {
      assert !OnDay(d)(p);
      assert Filter(payments + [p], OnDay(d)) == kept;
    }
  }

  /** The seven buckets from today - 6 to today, oldest first: each starts at
      zero and takes the payments dated that day. */
  method DailyTrend(payments: seq<Payment>, today: Day) returns (trend: seq<(Day, Cents)>)
    ensures |trend| == 7
    ensures forall i | 0 <= i < 7 :: trend[i] == (today - 6 + i, DaySum(payments, today - 6 + i))
  {
    var first := today - 6;
    var buckets := seq(7, _ => 0);
    for k := 0 to |payments|
      invariant |buckets| == 7
      invariant forall i | 0 <= i < 7 :: buckets[i] == DaySum(payments[..k], first + i)
    {
      var payment := payments[k];
      assert payments[..k + 1] == payments[..k] + [payment];
      forall d | first <= d < first + 7 ensures DaySum(payments[..k + 1], d) == DaySum(payments[..k], d) + (if payment.createdDay == Some(d) then payment.amount else 0) {
        DaySumSnoc(payments[..k], payment, d);
      }
      if payment.createdDay.Some? {
        var date := payment.createdDay.value;
        if !(date < first) && !(date > today) {
          buckets := buckets[date - first := buckets[date - first] + payment.amount];
        }
      }
    }
    assert payments[..|payments|] == payments;
    trend := seq(7, i requires 0 <= i < 7 => (first + i, buckets[i]));
  }

  // ------------------------------------------------------ mechanic display

  /** A mechanic's label: the known name, or "Mechanic " and the id's first 8 characters. */
  function MechanicLabel(id: Id, names: map<Option<Id>, string>): string
  {
    if Some(id) in names then names[Some(id)] else "Mechanic " + id[..8]
  }

  /** Some mechanic with revenue shows under `l` and earned `v`. */
  ghost predicate EarnedBy(l: string, v: int, byMechanic: map<Id, int>, names: map<Option<Id>, string>)
  {
    exists id | id in byMechanic :: MechanicLabel(id, names) == l && v == byMechanic[id]
  }

  /** No mechanic with revenue shows under `l`. */
  ghost predicate NoEarner(l: string, byMechanic: map<Id, int>, names: map<Option<Id>, string>)
  {
    forall id | id in byMechanic :: MechanicLabel(id, names) != l
  }

  /** `l` is the name of a known mechanic. */
  ghost predicate KnownName(l: string, names: map<Option<Id>, string>)
  {
    exists k | k in names :: names[k] == l
  }

  /** A bar `l` of `v` is a mechanic's revenue, or zero under a known name no earner uses. */
  ghost predicate Accounted(l: string, v: int, byMechanic: map<Id, int>, names: map<Option<Id>, string>)
  {
    EarnedBy(l, v, byMechanic, names) || (KnownName(l, names) && NoEarner(l, byMechanic, names) && v == 0)
  }

  /** Every bar of the chart is accounted for. */
  ghost predicate BarsAccounted(display: map<string, int>, byMechanic: map<Id, int>, names: map<Option<Id>, string>)
  {
    forall l | l in display :: Accounted(l, display[l], byMechanic, names)
  }

  /** The chart data of every mechanic: each earner's label, each known name,
      and nothing unaccounted for. */
  ghost predicate MechanicChart(display: map<string, int>, byMechanic: map<Id, int>, names: map<Option<Id>, string>)
  {
    && (forall id | id in byMechanic :: MechanicLabel(id, names) in display)
    && (forall k | k in names :: names[k] in display)
    && BarsAccounted(display, byMechanic, names)
  }

  /** displayData: first every mechanic with revenue under its label (of two
      sharing a label, the one visited last stays), then every known name
      not yet present with zero. */
  method MechanicDisplay(byMechanic: map<Id, int>, names: map<Option<Id>, string>) returns (display: map<string, int>)
    ensures forall id | id in byMechanic :: MechanicLabel(id, names) in display
    ensures forall k | k in names :: names[k] in display
    ensures BarsAccounted(display, byMechanic, names)
  {
    display := map[];
    var todo := byMechanic.Keys;
    while todo != {}
      invariant todo <= byMechanic.Keys
      invariant forall id | id in byMechanic && id !in todo :: MechanicLabel(id, names) in display
      invariant forall l | l in display :: Accounted(l, display[l], byMechanic, names)
      decreases todo
    {
      var id :| id in todo;
      display := display[MechanicLabel(id, names) := byMechanic[id]];
      todo := todo - {id};
    }
    var rest := names.Keys;
    while rest != {}
      invariant rest <= names.Keys
      invariant forall id | id in byMechanic :: MechanicLabel(id, names) in display
      invariant forall k | k in names && k !in rest :: names[k] in display
      invariant BarsAccounted(display, byMechanic, names)
      decreases rest
    {
      var k :| k in rest;
      if names[k] !in display {
        assert NoEarner(names[k], byMechanic, names) && KnownName(names[k], names);
        display := display[names[k] := 0];
      }
      rest := rest - {k};
    }
  }

  // ------------------------------------------------------------- the report

  /** Each truncated bar of a ranking drawn from a map is a key's truncated
      label with that key's amount. */
  lemma TruncatedBarsFromMap(top: seq<(string, Cents)>, m: map<string, int>)
    requires forall e | e in top :: e.0 in m && e.1 == m[e.0]
    ensures forall e | e in TruncateLabels(top) ::
      |e.0| <= 20 && exists s | s in m :: e.0 == Truncate(s) && e.1 == m[s]
  {
    forall e | e in TruncateLabels(top)
      ensures |e.0| <= 20 && exists s | s in m :: e.0 == Truncate(s) && e.1 == m[s]
    {
      var i :| 0 <= i < |top| && TruncateLabels(top)[i] == e;
      assert top[i] in top;
    }
  }

  /** A mechanic ranking of fewer than ten bars holds the whole chart, so
      every earning mechanic's label and every known name is on it. */
  lemma ShortRankingShowsAll(display: map<string, int>, top: seq<(string, Cents)>,
                             byMechanic: map<Id, int>, names: map<Option<Id>, string>)
    requires |top| < 10 && |top| == Min(10, |display|)
    requires |display| <= 10 ==> forall l | l in display :: (l, display[l]) in top
    requires forall id | id in byMechanic :: MechanicLabel(id, names) in display
    requires forall k | k in names :: names[k] in display
    ensures forall id | id in byMechanic :: exists e | e in top :: e.0 == MechanicLabel(id, names)
    ensures forall k | k in names :: exists e | e in top :: e.0 == names[k]
  {
    forall id | id in byMechanic ensures exists e | e in top :: e.0 == MechanicLabel(id, names) {
      var l := MechanicLabel(id, names);
      assert (l, display[l]) in top;
    }
    forall k | k in names ensures exists e | e in top :: e.0 == names[k] {
      var l := names[k];
      assert (l, display[l]) in top;
    }
  }

  /** A service whose bar is missing from the truncated ranking earned no
      more than any bar shown. */
  lemma TruncatedBeatsExcluded(top: seq<(string, Cents)>, m: map<string, int>)
    requires forall e, k | e in top && k in m && (k, m[k]) !in top :: e.1 >= m[k]
    ensures forall e, s | e in TruncateLabels(top) && s in m && (Truncate(s), m[s]) !in TruncateLabels(top) :: e.1 >= m[s]
  {
    var bars := TruncateLabels(top);
    forall e, s | e in bars && s in m && (Truncate(s), m[s]) !in bars ensures e.1 >= m[s] {
      var i :| 0 <= i < |top| && bars[i] == e;
      assert (s, m[s]) !in top by {
        forall j | 0 <= j < |top| ensures top[j] != (s, m[s]) {
          assert bars[j] in bars;
        }
      }
      assert top[i] in top;
    }
  }

  /** The top-services chart drawn from revenue by service: ten bars, or one
      per service when there are fewer, largest first, each a service's revenue
      under its label cut to 20 characters; a service whose bar is missing
      earned no more than any bar shown; and the bars are a top-ten ranking of
      the services (distinct services, none left out larger than one kept)
      with the labels cut. */
  ghost predicate ServiceChart(bars: seq<(string, Cents)>, byService: map<string, int>)
  {
    && |bars| == Min(10, |byService|)
    && SortedBy(bars, AmountAtLeast)
    && (forall e | e in bars :: |e.0| <= 20 && exists s | s in byService :: e.0 == Truncate(s) && e.1 == byService[s])
    && (forall e, s | e in bars && s in byService && (Truncate(s), byService[s]) !in bars :: e.1 >= byService[s])
    && (exists top | TopRanking(top, byService) :: bars == TruncateLabels(top))
  }

  /** The top-services chart: the ten largest services, largest first, each
      label cut to 20 characters. */
  method ServiceRanking(byService: map<string, int>) returns (bars: seq<(string, Cents)>)
    ensures ServiceChart(bars, byService)
  {
    var top := TopTen(byService);
    bars := TruncateLabels(top);
    TruncatedRanking(top, byService);
  }

  /** A top-ten ranking with its labels cut is the top-services chart. */
  lemma TruncatedRanking(top: seq<(string, Cents)>, m: map<string, int>)
    requires TopRanking(top, m)
    ensures ServiceChart(TruncateLabels(top), m)
  {
    TruncatedBarsFromMap(top, m);
    TruncatedBeatsExcluded(top, m);
  }

  /** The mechanic-performance chart drawn from revenue by mechanic and the
      known names: at most ten bars, largest first, under distinct labels, each
      an earning mechanic's revenue or zero under a known name no earner uses;
      with fewer than ten bars every earning mechanic and every known name is
      shown; and the bars are a top-ten ranking of the chart data of every
      mechanic. */
  ghost predicate MechanicBars(bars: seq<(string, Cents)>, byMechanic: map<Id, int>, names: map<Option<Id>, string>)
  {
    && |bars| <= 10 && SortedBy(bars, AmountAtLeast)
    && (forall e | e in bars :: Accounted(e.0, e.1, byMechanic, names))
    && (forall i, j | 0 <= i < j < |bars| :: bars[i].0 != bars[j].0)
    && (|bars| < 10 ==>
         && (forall id | id in byMechanic :: exists e | e in bars :: e.0 == MechanicLabel(id, names))
         && (forall k | k in names :: exists e | e in bars :: e.0 == names[k]))
    && (exists display | MechanicChart(display, byMechanic, names) :: TopRanking(bars, display))
  }

  /** The mechanic-performance chart: the chart entries of every mechanic, then
      the ten largest, largest first. With fewer than ten bars every earning
      mechanic and every known name is on the chart. */
  method MechanicRanking(byMechanic: map<Id, int>, names: map<Option<Id>, string>) returns (bars: seq<(string, Cents)>)
    ensures MechanicBars(bars, byMechanic, names)
  {
    var display := MechanicDisplay(byMechanic, names);
    bars := TopTen(display);
    ChartRanking(display, bars, byMechanic, names);
  }

  /** A top-ten ranking of the chart data of every mechanic, holding all of it
      when there are at most ten entries, is the mechanic-performance chart. */
  lemma ChartRanking(display: map<string, int>, bars: seq<(string, Cents)>,
                     byMechanic: map<Id, int>, names: map<Option<Id>, string>)
    requires MechanicChart(display, byMechanic, names)
    requires TopRanking(bars, display)
    requires |display| <= 10 ==> forall l | l in display :: (l, display[l]) in bars
    ensures MechanicBars(bars, byMechanic, names)
  {
    if |bars| < 10 {
      ShortRankingShowsAll(display, bars, byMechanic, names);
    }
  }

  datatype Report = Report(
    totalRevenue: Cents,
    totalRequests: nat,
    activeRequests: nat,
    averageTicket: Cents,
    statusCounts: map<string, int>,
    serviceRanking: seq<(string, Cents)>,
    trend: seq<(Day, Cents)>,
    mechanicRanking: seq<(string, Cents)>)

  /** The figures of loadAnalytics from all requests, the completed
      payments, the user list (None when fetching it failed) and today's date. */
  method LoadAnalytics(requests: seq<RequestRecord>, completedPayments: seq<Payment>,
                       users: Option<seq<User>>, today: Day) returns (report: Report)
    requires DistinctIds(requests)
    ensures report.totalRevenue == TotalRevenue(completedPayments)
    ensures report.totalRequests == |requests|
    ensures report.activeRequests == ActiveCount(requests)
    ensures report.averageTicket == AverageTicket(completedPayments)
    ensures report.statusCounts == StatusCounts(requests)
    ensures ServiceChart(report.serviceRanking, ServiceRevenue(completedPayments, RequestIndex(requests)))
    ensures |report.trend| == 7
    ensures forall i | 0 <= i < 7 :: report.trend[i] == (today - 6 + i, DaySum(completedPayments, today - 6 + i))
    ensures MechanicBars(report.mechanicRanking, MechanicRevenue(completedPayments, RequestIndex(requests)),
                         MechanicNames(if users.Some? then users.value else []))
  {
    var allUsers := if users.Some? then users.value else [];
    var mechanicNames := MechanicNames(allUsers);
    var totalRevenue := TotalRevenue(completedPayments);
    var average := AverageTicket(completedPayments);
    var index := RequestIndex(requests);
    var byService, byMechanic := RevenueBreakdown(completedPayments, index);
    var serviceBars := ServiceRanking(byService);
    var trend := DailyTrend(completedPayments, today);
    var mechanicBars := MechanicRanking(byMechanic, mechanicNames);
    report := Report(totalRevenue, |requests|, ActiveCount(requests), average, StatusCounts(requests),
                     serviceBars, trend, mechanicBars);
  }
}
