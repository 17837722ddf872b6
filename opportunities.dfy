/** The `get_active_opportunities` query: keep the live events whose daily
    rate reaches the threshold, rank them by rate (highest first, ties in
    snapshot order), keep the first `limit`, and report the days left of each
    and the summed daily rate of the ones returned. */
module Opportunities {
  import opened Events
  import opened StableSort

  const MsPerDay: int := 86_400_000
  const DefaultMinRate: int := 0
  const DefaultOpportunityLimit: nat := 50

  /** Not withdrawn and ending strictly after `now`; the start time plays no part. */
  predicate IsActive(e: SponsoredEvent, now: int) {
    !e.withdrawn && e.endTime > now
  }

  /** The filter of the query: active and paying at least `minRate` a day. */
  predicate Qualifies(e: SponsoredEvent, now: int, minRate: int) {
    IsActive(e, now) && e.ratePerDayUsdc >= minRate
  }

  /** The edges of the activity test: a withdrawn event is never active, nor
      is one ending at or before `now`, while one not withdrawn and ending even
      a millisecond later is; the start time plays no part. */
  lemma ActiveBoundaries(e: SponsoredEvent, now: int, start: int)
    ensures e.withdrawn ==> !IsActive(e, now)
    ensures e.endTime <= now ==> !IsActive(e, now)
    ensures !e.withdrawn && e.endTime == now + 1 ==> IsActive(e, now)
    ensures IsActive(e.(startTime := start), now) == IsActive(e, now)
  {
  }

  /** An event that qualifies at a threshold and a time also qualifies at any
      lower threshold and any earlier time. */
  lemma QualifiesMonotone(e: SponsoredEvent, now: int, later: int, minRate: int, higher: int)
    requires now <= later && minRate <= higher
    ensures Qualifies(e, later, higher) ==> Qualifies(e, now, minRate)
  {
  }

  /** The ranking key. */
  function Rate(e: SponsoredEvent): int {
    e.ratePerDayUsdc
  }

  /** `events.filter(...)`: the qualifying events, each as often as it occurs,
      in snapshot order. */
  function Qualifying(events: seq<SponsoredEvent>, now: int, minRate: int): (r: seq<SponsoredEvent>)
    ensures forall e :: e in r ==> Qualifies(e, now, minRate)
    ensures forall e :: multiset(r)[e] == if Qualifies(e, now, minRate) then multiset(events)[e] else 0
  {
    if events == [] then []
    else
      assert events == [events[0]] + events[1..];
      (if Qualifies(events[0], now, minRate) then [events[0]] else []) + Qualifying(events[1..], now, minRate)
  }

  /** `filter` on one event keeps it exactly when it qualifies. */
  lemma QualifyingOne(e: SponsoredEvent, now: int, minRate: int)
    ensures Qualifying([e], now, minRate) == if Qualifies(e, now, minRate) then [e] else []
  {
    assert [e][1..] == [];
  }

  /** `filter` distributes over concatenation, so it keeps the snapshot's
      order: with `QualifyingOne`, it determines the filter completely. */
  lemma {:induction false} QualifyingAppend(a: seq<SponsoredEvent>, b: seq<SponsoredEvent>, now: int, minRate: int)
    ensures Qualifying(a + b, now, minRate) == Qualifying(a, now, minRate) + Qualifying(b, now, minRate)
  {
    if a == [] {
      assert a + b == b;
    } else {
      assert (a + b)[0] == a[0];
      assert (a + b)[1..] == a[1..] + b;
      QualifyingAppend(a[1..], b, now, minRate);
    }
  }

  /** Raising the threshold or asking later only removes events from the
      filtered list. */
  lemma QualifyingMonotone(events: seq<SponsoredEvent>, now: int, later: int, minRate: int, higher: int)
    requires now <= later && minRate <= higher
    ensures multiset(Qualifying(events, later, higher)) <= multiset(Qualifying(events, now, minRate))
  {
    forall e
      ensures multiset(Qualifying(events, later, higher))[e] <= multiset(Qualifying(events, now, minRate))[e]
    {
      QualifiesMonotone(e, now, later, minRate, higher);
    }
  }

  /** Filtering by the query and picking out one rate commute, so the events
      of one rate among the qualifying ones are in snapshot order. */
  lemma {:induction false} QualifyingWithRate(events: seq<SponsoredEvent>, now: int, minRate: int, k: int)
    ensures WithKey(Qualifying(events, now, minRate), Rate, k) == Qualifying(WithKey(events, Rate, k), now, minRate)
  {
    if events != [] {
      var e := events[0];
      var rest := Qualifying(events[1..], now, minRate);
      QualifyingWithRate(events[1..], now, minRate, k);
      if Qualifies(e, now, minRate) {
        WithKeyCons(e, rest, Rate, k);
      } else {
        assert Qualifying(events, now, minRate) == rest;
      }
      if Rate(e) == k {
        assert WithKey(events, Rate, k) == [e] + WithKey(events[1..], Rate, k);
        assert ([e] + WithKey(events[1..], Rate, k))[1..] == WithKey(events[1..], Rate, k);
      } else {
        assert WithKey(events, Rate, k) == WithKey(events[1..], Rate, k);
      }
    }
  }

  /** The returned events: `filter`, then `sort` by descending rate, then
      `slice(0, limit)`. */
  function RankEvents(events: seq<SponsoredEvent>, now: int, minRate: int, limit: nat): (r: seq<SponsoredEvent>)
    ensures |r| == Min(limit, |Qualifying(events, now, minRate)|)
    ensures forall e :: e in r ==> Qualifies(e, now, minRate)
    ensures SortedDesc(r, Rate)
  {
    var q := Qualifying(events, now, minRate);
    var sorted := SortDesc(q, Rate);
    TakeKeepsLargest(sorted, limit, Rate);
    var r := Take(sorted, limit);
    assert forall e :: e in r ==> e in sorted;
    assert forall e :: e in sorted ==> e in multiset(q);
    r
  }

  /** The returned events are the top of the qualifying ones: taken from
      them, and no qualifying event left out pays more a day than one
      returned; with at most `limit` qualifying events, all are returned. */
  lemma RankEventsIsTop(events: seq<SponsoredEvent>, now: int, minRate: int, limit: nat)
    ensures var q, r := Qualifying(events, now, minRate), RankEvents(events, now, minRate, limit);
            && multiset(r) <= multiset(q)
            && (|q| <= limit ==> multiset(r) == multiset(q))
            && (forall x, y :: x in multiset(q) - multiset(r) && y in r ==> Rate(x) <= Rate(y))
  {
    var q := Qualifying(events, now, minRate);
    var sorted := SortDesc(q, Rate);
    assert RankEvents(events, now, minRate, limit) == Take(sorted, limit);
    TakeKeepsLargest(sorted, limit, Rate);
    if |q| <= limit {
      assert Take(sorted, limit) == sorted;
    }
  }

  /** Ties keep snapshot order: the returned events of any one rate are the
      first of the qualifying events of that rate, in the order the snapshot
      lists them. */
  lemma RankEventsKeepsTieOrder(events: seq<SponsoredEvent>, now: int, minRate: int, limit: nat, k: int)
    ensures WithKey(RankEvents(events, now, minRate, limit), Rate, k) <= Qualifying(WithKey(events, Rate, k), now, minRate)
  {
    var q := Qualifying(events, now, minRate);
    TakeKeepsKeyOrder(SortDesc(q, Rate), limit, Rate, k);
    SortDescStable(q, Rate, k);
    QualifyingWithRate(events, now, minRate, k);
  }

  /** Any stable descending sort of the qualifying events, truncated to
      `limit`, gives exactly the returned events. */
  lemma RankEventsIsAnyStableSort(events: seq<SponsoredEvent>, now: int, minRate: int, limit: nat, sorted: seq<SponsoredEvent>)
    requires SortedDesc(sorted, Rate)
    requires forall k :: WithKey(sorted, Rate, k) == WithKey(Qualifying(events, now, minRate), Rate, k)
    ensures RankEvents(events, now, minRate, limit) == Take(sorted, limit)
  {
    StableSortIsSortDesc(Qualifying(events, now, minRate), sorted, Rate);
  }

  /** With no more qualifying events than `limit`, every qualifying event of
      the snapshot is returned. */
  lemma AllReturnedUnderLimit(events: seq<SponsoredEvent>, now: int, minRate: int, limit: nat, e: SponsoredEvent)
    requires |Qualifying(events, now, minRate)| <= limit
    requires e in events && Qualifies(e, now, minRate)
    ensures e in RankEvents(events, now, minRate, limit)
  {
    RankEventsIsTop(events, now, minRate, limit);
    assert multiset(events)[e] > 0;
    assert e in multiset(RankEvents(events, now, minRate, limit));
  }

  /** `Math.ceil(a / d)` for a positive divisor: the least `q` with `a <= q * d`. */
  function CeilDiv(a: int, d: int): (q: int)
    requires d > 0
    ensures (q - 1) * d < a <= q * d
  {
    var f := (-a) / d;
    assert -a == f * d + (-a) % d;
    -f
  }

  /** `daysLeft`: whole days from `now` to the end, rounded up. */
  function DaysLeft(e: SponsoredEvent, now: int): (n: int)
    ensures (n - 1) * MsPerDay < e.endTime - now <= n * MsPerDay
  {
    CeilDiv(e.endTime - now, MsPerDay)
  }

  /** An active event has at least one day left. */
  lemma ActiveHasADayLeft(e: SponsoredEvent, now: int)
    requires IsActive(e, now)
    ensures DaysLeft(e, now) >= 1
  {
  }

  /** `reduce((s, e) => s + e.ratePerDayUsdc, 0)`. */
  function SumRates(s: seq<SponsoredEvent>): int {
    if s == [] then 0 else SumRates(s[..|s| - 1]) + s[|s| - 1].ratePerDayUsdc
  }

  /** The summed rate of two lists together is the sum of their sums. */
  lemma {:induction false} SumRatesAppend(a: seq<SponsoredEvent>, b: seq<SponsoredEvent>)
    ensures SumRates(a + b) == SumRates(a) + SumRates(b)
    decreases |b|
  {
    if b == [] {
      assert a + b == a;
    } else {
      var b' := b[..|b| - 1];
      assert (a + b)[..|a + b| - 1] == a + b';
      assert (a + b)[|a + b| - 1] == b[|b| - 1];
      SumRatesAppend(a, b');
    }
  }

  /** Events each paying at least `m` a day pay at least `|s| * m` together. */
  lemma {:induction false} SumRatesAtLeast(s: seq<SponsoredEvent>, m: int)
    requires forall e :: e in s ==> e.ratePerDayUsdc >= m
    ensures SumRates(s) >= |s| * m
  {
    if s != [] {
      var prefix := s[..|s| - 1];
      assert forall e :: e in prefix ==> e in s;
      SumRatesAtLeast(prefix, m);
      assert s[|s| - 1] in s;
      assert |s| * m == |prefix| * m + m;
    }
  }

  datatype Opportunity = Opportunity(event: SponsoredEvent, daysLeft: int)

  datatype ActiveOpportunities = ActiveOpportunities(items: seq<Opportunity>, totalDailyRate: int)

  /** The events of a result, in result order. */
  function EventsOf(items: seq<Opportunity>): (r: seq<SponsoredEvent>)
    ensures |r| == |items|
    ensures forall i :: 0 <= i < |items| ==> r[i] == items[i].event
  {
    if items == [] then [] else EventsOf(items[..|items| - 1]) + [items[|items| - 1].event]
  }

  /** Pairs each returned event with its days left. */
  function Annotate(s: seq<SponsoredEvent>, now: int): (r: seq<Opportunity>)
    ensures |r| == |s|
    ensures forall i :: 0 <= i < |s| ==> r[i] == Opportunity(s[i], DaysLeft(s[i], now))
  {
    if s == [] then [] else Annotate(s[..|s| - 1], now) + [Opportunity(s[|s| - 1], DaysLeft(s[|s| - 1], now))]
  }

  /** The query with its defaults: a missing threshold is 0, a missing limit 50. */
  function GetActiveOpportunities(snapshot: SponsoredSnapshot, now: int, minRatePerDay: Option<int>, limit: Option<nat>): (r: ActiveOpportunities)
    ensures var minRate, n := minRatePerDay.GetOr(DefaultMinRate), limit.GetOr(DefaultOpportunityLimit);
            && EventsOf(r.items) == RankEvents(snapshot.events, now, minRate, n)
            && r.totalDailyRate == SumRates(EventsOf(r.items))
    ensures forall i :: 0 <= i < |r.items| ==>
              && r.items[i].daysLeft >= 1
              && (r.items[i].daysLeft - 1) * MsPerDay < r.items[i].event.endTime - now <= r.items[i].daysLeft * MsPerDay
  {
    var minRate, n := minRatePerDay.GetOr(DefaultMinRate), limit.GetOr(DefaultOpportunityLimit);
    var ranked := RankEvents(snapshot.events, now, minRate, n);
    var items := Annotate(ranked, now);
    ActiveHasADayLeftAll(ranked, now, minRate);
    assert EventsOf(items) == ranked;
    ActiveOpportunities(items, SumRates(ranked))
  }

  /** The reported total is at least the threshold for every opportunity listed. */
  lemma TotalDailyRateAtLeast(snapshot: SponsoredSnapshot, now: int, minRatePerDay: Option<int>, limit: Option<nat>)
    ensures var r := GetActiveOpportunities(snapshot, now, minRatePerDay, limit);
            r.totalDailyRate >= |r.items| * minRatePerDay.GetOr(DefaultMinRate)
  {
    var r := GetActiveOpportunities(snapshot, now, minRatePerDay, limit);
    var ranked := EventsOf(r.items);
    SumRatesAtLeast(ranked, minRatePerDay.GetOr(DefaultMinRate));
  }

  /** Every returned event has at least a day left. */
  lemma ActiveHasADayLeftAll(s: seq<SponsoredEvent>, now: int, minRate: int)
    requires forall e :: e in s ==> Qualifies(e, now, minRate)
    ensures forall i :: 0 <= i < |s| ==> DaysLeft(s[i], now) >= 1
  {
    forall i | 0 <= i < |s|
      ensures DaysLeft(s[i], now) >= 1
    {
      assert s[i] in s;
      ActiveHasADayLeft(s[i], now);
    }
  }
}
