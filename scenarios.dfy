/** Small worked snapshots for both queries, stated for any events that have
    the fields shown (the other fields are arbitrary). Amounts are micro-USDC. */
module Scenarios {
  import opened Events
  import opened StableSort
  import opened Opportunities
  import opened Sponsors

  const Usdc: int := 1_000_000

  /** The fields the opportunity query reads. */
  predicate Offer(e: SponsoredEvent, endTime: int, rate: int, withdrawn: bool) {
    e.endTime == endTime && e.ratePerDayUsdc == rate && e.withdrawn == withdrawn
  }

  /** The fields the sponsor query reads. */
  predicate Deposit(e: SponsoredEvent, market: string, sponsor: string, amount: int, returned: int) {
    e.marketId == market && e.sponsor == sponsor && e.amountUsdc == amount && e.returnedUsdc == returned
  }

  function Snap(events: seq<SponsoredEvent>, s: SponsoredSnapshot): SponsoredSnapshot {
    s.(events := events)
  }

  /** A is live, B withdrawn, C ended a millisecond ago, D ends exactly now:
      only A passes the filter. */
  lemma OnlyLiveQualify(now: int, a: SponsoredEvent, b: SponsoredEvent, c: SponsoredEvent, d: SponsoredEvent)
    requires Offer(a, now + MsPerDay, 10 * Usdc, false)
    requires Offer(b, now + MsPerDay, 20 * Usdc, true)
    requires Offer(c, now - 1, 5 * Usdc, false)
    requires Offer(d, now, 30 * Usdc, false)
    ensures Qualifying([a, b, c, d], now, DefaultMinRate) == [a]
  {
    assert [a, b, c, d][1..] == [b, c, d];
    assert [b, c, d][1..] == [c, d];
    assert [c, d][1..] == [d];
    assert Qualifying([d], now, DefaultMinRate) == [];
    assert Qualifying([c, d], now, DefaultMinRate) == [];
    assert Qualifying([b, c, d], now, DefaultMinRate) == [];
  }

  /** With the default threshold and limit, the query returns A alone, with
      one day left, and the total daily rate is A's. */
  lemma ActiveOpportunityScenario(s: SponsoredSnapshot, now: int, a: SponsoredEvent, b: SponsoredEvent, c: SponsoredEvent, d: SponsoredEvent)
    requires Offer(a, now + MsPerDay, 10 * Usdc, false)
    requires Offer(b, now + MsPerDay, 20 * Usdc, true)
    requires Offer(c, now - 1, 5 * Usdc, false)
    requires Offer(d, now, 30 * Usdc, false)
    ensures var r := GetActiveOpportunities(Snap([a, b, c, d], s), now, None, None);
            && EventsOf(r.items) == [a]
            && r.items[0].daysLeft == 1
            && r.totalDailyRate == 10 * Usdc
  {
    OnlyLiveQualify(now, a, b, c, d);
    assert SortDesc([a], Rate) == [a];
    assert RankEvents([a, b, c, d], now, DefaultMinRate, DefaultOpportunityLimit) == [a];
    assert SumRates([a]) == 10 * Usdc by {
      assert [a][..0] == [];
    }
    assert DaysLeft(a, now) == 1;
  }

  /** A pays 10 a day for three more days, E pays 20 for a day and a
      millisecond: both qualify. */
  lemma BothQualify(now: int, a: SponsoredEvent, e: SponsoredEvent)
    requires Offer(a, now + 3 * MsPerDay, 10 * Usdc, false)
    requires Offer(e, now + MsPerDay + 1, 20 * Usdc, false)
    ensures Qualifying([a, e], now, DefaultMinRate) == [a, e]
  {
    assert [a, e][1..] == [e];
  }

  /** Of two events, the one paying more a day is ranked first. */
  lemma HigherRateFirst(a: SponsoredEvent, e: SponsoredEvent)
    requires Rate(a) < Rate(e)
    ensures SortDesc([a, e], Rate) == [e, a]
  {
    assert [a, e][1..] == [e];
    assert SortDesc([e], Rate) == [e];
  }

  /** With a limit of one, only E is returned. */
  lemma OnlyHigherReturned(now: int, a: SponsoredEvent, e: SponsoredEvent)
    requires Offer(a, now + 3 * MsPerDay, 10 * Usdc, false)
    requires Offer(e, now + MsPerDay + 1, 20 * Usdc, false)
    ensures RankEvents([a, e], now, DefaultMinRate, 1) == [e]
  {
    BothQualify(now, a, e);
    HigherRateFirst(a, e);
    assert Take([e, a], 1) == [e];
  }

  /** The total counts only what is returned: with a limit of one, E alone is
      returned, with two days left (a day and a millisecond, rounded up), and
      the total is its rate alone rather than the 30 of both. */
  lemma TruncationBeforeSumScenario(s: SponsoredSnapshot, now: int, a: SponsoredEvent, e: SponsoredEvent)
    requires Offer(a, now + 3 * MsPerDay, 10 * Usdc, false)
    requires Offer(e, now + MsPerDay + 1, 20 * Usdc, false)
    ensures var r := GetActiveOpportunities(Snap([a, e], s), now, None, Some(1));
            && EventsOf(r.items) == [e]
            && r.items[0].daysLeft == 2
            && r.totalDailyRate == 20 * Usdc
    ensures SumRates(Qualifying([a, e], now, DefaultMinRate)) == 30 * Usdc
  {
    OnlyHigherReturned(now, a, e);
    assert SumRates([e]) == 20 * Usdc by {
      assert [e][..0] == [];
    }
    assert DaysLeft(e, now) == 2;
    BothQualify(now, a, e);
    SumOfBoth(a, e);
  }

  lemma SumOfBoth(a: SponsoredEvent, e: SponsoredEvent)
    requires a.ratePerDayUsdc == 10 * Usdc && e.ratePerDayUsdc == 20 * Usdc
    ensures SumRates([a, e]) == 30 * Usdc
  {
    assert SumRates([a]) == 10 * Usdc by {
      assert [a][..0] == [];
    }
    assert [a, e][..1] == [a];
  }

  /** Three events are three loop turns from the empty map. */
  lemma FoldThree(e1: SponsoredEvent, e2: SponsoredEvent, e3: SponsoredEvent)
    ensures Fold([e1, e2, e3]) == Step(Step(Step(Rollups([], map[]), e1), e2), e3)
  {
    FoldSnoc([], e1);
    assert [] + [e1] == [e1];
    FoldSnoc([e1], e2);
    assert [e1] + [e2] == [e1, e2];
    FoldSnoc([e1, e2], e3);
    assert [e1, e2] + [e3] == [e1, e2, e3];
  }

  /** A loop turn for a sponsor not yet in the map appends it with this event alone. */
  lemma StepNewSponsor(acc: Rollups, e: SponsoredEvent, k: string)
    requires Lower(e.sponsor) == k && k !in acc.table
    ensures Step(acc, e) == Rollups(acc.order + [k], acc.table[k := Entry(e.amountUsdc - e.returnedUsdc, {e.marketId})])
  {
    assert {} + {e.marketId} == {e.marketId};
  }

  /** A loop turn for a sponsor already in the map adds to its entry in place. */
  lemma StepKnownSponsor(acc: Rollups, e: SponsoredEvent, k: string)
    requires Lower(e.sponsor) == k && k in acc.table
    ensures Step(acc, e) == Rollups(acc.order, acc.table[k := Entry(acc.table[k].net + (e.amountUsdc - e.returnedUsdc), acc.table[k].markets + {e.marketId})])
  {
  }

  /** 0xaa deposits 100 (20 returned) on m1 and 50 on m2; then 0xbb deposits
      30 on m3 and gets all 30 back: 0xaa nets 130 over two markets and 0xbb
      nets 0 over one, listed after 0xaa. */
  lemma TwoSponsorsSteps(e1: SponsoredEvent, e2: SponsoredEvent, e3: SponsoredEvent)
    requires Deposit(e1, "m1", "0xaa", 100 * Usdc, 20 * Usdc)
    requires Deposit(e2, "m2", "0xaa", 50 * Usdc, 0)
    requires Deposit(e3, "m3", "0xbb", 30 * Usdc, 30 * Usdc)
    ensures Step(Step(Step(Rollups([], map[]), e1), e2), e3)
              == Rollups(["0xaa", "0xbb"], map["0xaa" := Entry(130 * Usdc, {"m1", "m2"}), "0xbb" := Entry(0, {"m3"})])
  {
    assert Lower("0xaa") == "0xaa";
    assert Lower("0xbb") == "0xbb";
    var acc0 := Rollups([], map[]);
    StepNewSponsor(acc0, e1, "0xaa");
    var acc1 := Rollups(["0xaa"], map["0xaa" := Entry(80 * Usdc, {"m1"})]);
    assert [] + ["0xaa"] == ["0xaa"];
    assert Step(acc0, e1) == acc1;
    StepKnownSponsor(acc1, e2, "0xaa");
    var acc2 := Rollups(["0xaa"], map["0xaa" := Entry(130 * Usdc, {"m1", "m2"})]);
    assert {"m1"} + {"m2"} == {"m1", "m2"};
    assert acc1.table["0xaa" := Entry(130 * Usdc, {"m1", "m2"})] == acc2.table;
    StepNewSponsor(acc2, e3, "0xbb");
  }

  lemma TwoSponsorsRollup(e1: SponsoredEvent, e2: SponsoredEvent, e3: SponsoredEvent)
    requires Deposit(e1, "m1", "0xaa", 100 * Usdc, 20 * Usdc)
    requires Deposit(e2, "m2", "0xaa", 50 * Usdc, 0)
    requires Deposit(e3, "m3", "0xbb", 30 * Usdc, 30 * Usdc)
    ensures Fold([e1, e2, e3])
              == Rollups(["0xaa", "0xbb"], map["0xaa" := Entry(130 * Usdc, {"m1", "m2"}), "0xbb" := Entry(0, {"m3"})])
  {
    FoldThree(e1, e2, e3);
    TwoSponsorsSteps(e1, e2, e3);
  }

  lemma TwoSponsorsListed(e1: SponsoredEvent, e2: SponsoredEvent, e3: SponsoredEvent)
    requires Deposit(e1, "m1", "0xaa", 100 * Usdc, 20 * Usdc)
    requires Deposit(e2, "m2", "0xaa", 50 * Usdc, 0)
    requires Deposit(e3, "m3", "0xbb", 30 * Usdc, 30 * Usdc)
    ensures SnapshotRollups([e1, e2, e3]) == [SponsorRollup("0xaa", 130 * Usdc, 2), SponsorRollup("0xbb", 0, 1)]
  {
    TwoSponsorsRollup(e1, e2, e3);
    assert |{"m1", "m2"}| == 2;
  }

  /** Ranked by net, 0xaa comes first and 0xbb second. */
  lemma TopSponsorsScenario(e1: SponsoredEvent, e2: SponsoredEvent, e3: SponsoredEvent)
    requires Deposit(e1, "m1", "0xaa", 100 * Usdc, 20 * Usdc)
    requires Deposit(e2, "m2", "0xaa", 50 * Usdc, 0)
    requires Deposit(e3, "m3", "0xbb", 30 * Usdc, 30 * Usdc)
    ensures RankSponsors([e1, e2, e3], DefaultSponsorLimit)
              == [SponsorRollup("0xaa", 130 * Usdc, 2), SponsorRollup("0xbb", 0, 1)]
  {
    TwoSponsorsListed(e1, e2, e3);
    var x, y := SponsorRollup("0xaa", 130 * Usdc, 2), SponsorRollup("0xbb", 0, 1);
    assert SortDesc([x, y], NetUsdc) == [x, y] by {
      assert [x, y][1..] == [y];
      assert SortDesc([y], NetUsdc) == [y];
    }
  }

  /** Three spellings of one address: the first two, on two markets, make
      one lowercase sponsor netting 10 + 20 = 30. */
  lemma CaseFoldingFirstTwo(e1: SponsoredEvent, e2: SponsoredEvent)
    requires Deposit(e1, "m1", "0xABC", 10 * Usdc, 0)
    requires Deposit(e2, "m2", "0xabc", 20 * Usdc, 0)
    ensures Step(Step(Rollups([], map[]), e1), e2) == Rollups(["0xabc"], map["0xabc" := Entry(30 * Usdc, {"m1", "m2"})])
  {
    assert Lower("0xABC") == "0xabc";
    assert Lower("0xabc") == "0xabc";
    var acc0 := Rollups([], map[]);
    StepNewSponsor(acc0, e1, "0xabc");
    var acc1 := Rollups(["0xabc"], map["0xabc" := Entry(10 * Usdc, {"m1"})]);
    assert [] + ["0xabc"] == ["0xabc"];
    assert Step(acc0, e1) == acc1;
    StepKnownSponsor(acc1, e2, "0xabc");
    assert {"m1"} + {"m2"} == {"m1", "m2"};
    assert acc1.table["0xabc" := Entry(30 * Usdc, {"m1", "m2"})] == map["0xabc" := Entry(30 * Usdc, {"m1", "m2"})];
  }

  /** The third, on a market already counted and fully returned, changes
      nothing: 10 + 20 + (5 - 5) = 30 over two markets. */
  lemma CaseFoldingSteps(e1: SponsoredEvent, e2: SponsoredEvent, e3: SponsoredEvent)
    requires Deposit(e1, "m1", "0xABC", 10 * Usdc, 0)
    requires Deposit(e2, "m2", "0xabc", 20 * Usdc, 0)
    requires Deposit(e3, "m1", "0xAbC", 5 * Usdc, 5 * Usdc)
    ensures Step(Step(Step(Rollups([], map[]), e1), e2), e3)
              == Rollups(["0xabc"], map["0xabc" := Entry(30 * Usdc, {"m1", "m2"})])
  {
    CaseFoldingFirstTwo(e1, e2);
    assert Lower("0xAbC") == "0xabc";
    var acc2 := Rollups(["0xabc"], map["0xabc" := Entry(30 * Usdc, {"m1", "m2"})]);
    StepKnownSponsor(acc2, e3, "0xabc");
    assert {"m1", "m2"} + {"m1"} == {"m1", "m2"};
    assert acc2.table["0xabc" := Entry(30 * Usdc, {"m1", "m2"})] == acc2.table;
  }

  lemma CaseFoldingRollup(e1: SponsoredEvent, e2: SponsoredEvent, e3: SponsoredEvent)
    requires Deposit(e1, "m1", "0xABC", 10 * Usdc, 0)
    requires Deposit(e2, "m2", "0xabc", 20 * Usdc, 0)
    requires Deposit(e3, "m1", "0xAbC", 5 * Usdc, 5 * Usdc)
    ensures Fold([e1, e2, e3]) == Rollups(["0xabc"], map["0xabc" := Entry(30 * Usdc, {"m1", "m2"})])
  {
    FoldThree(e1, e2, e3);
    CaseFoldingSteps(e1, e2, e3);
  }

  /** The ranking then lists that one sponsor. */
  lemma CaseFoldingScenario(e1: SponsoredEvent, e2: SponsoredEvent, e3: SponsoredEvent)
    requires Deposit(e1, "m1", "0xABC", 10 * Usdc, 0)
    requires Deposit(e2, "m2", "0xabc", 20 * Usdc, 0)
    requires Deposit(e3, "m1", "0xAbC", 5 * Usdc, 5 * Usdc)
    ensures RankSponsors([e1, e2, e3], DefaultSponsorLimit) == [SponsorRollup("0xabc", 30 * Usdc, 2)]
  {
    CaseFoldingRollup(e1, e2, e3);
    var x := SponsorRollup("0xabc", 30 * Usdc, 2);
    assert SnapshotRollups([e1, e2, e3]) == [x] by {
      assert |{"m1", "m2"}| == 2;
    }
    assert SortDesc([x], NetUsdc) == [x];
  }
}
