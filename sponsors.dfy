/** The `get_top_sponsors` query: group the events by lowercased sponsor in a
    map that keeps insertion order, accumulate each sponsor's net deposit and
    set of markets, rank the sponsors by net (highest first, ties in order of
    first appearance), and keep the first `limit`. */
module Sponsors {
  import opened Events
  import opened StableSort

  const DefaultSponsorLimit: nat := 10

  /** The grouping key: the sponsor address, lowercased. */
  function SponsorKey(e: SponsoredEvent): (k: string)
    ensures |k| == |e.sponsor|
  {
    Lower(e.sponsor)
  }

  /** One map entry: the running net and the markets seen so far. */
  datatype Entry = Entry(net: int, markets: set<string>)

  /** The key is already in lower case, so it is its own key. */
  lemma SponsorKeyIsLower(e: SponsoredEvent)
    ensures Lower(SponsorKey(e)) == SponsorKey(e)
  {
    LowerIdempotent(e.sponsor);
  }

  /** Two events are grouped together exactly when their sponsor addresses
      have the same length and differ at most in the case of ASCII letters. */
  lemma SameSponsorKey(e1: SponsoredEvent, e2: SponsoredEvent)
    ensures SponsorKey(e1) == SponsorKey(e2) <==>
            |e1.sponsor| == |e2.sponsor| && forall i :: 0 <= i < |e1.sponsor| ==> CaseVariants(e1.sponsor[i], e2.sponsor[i])
  {
    LowerIgnoresCase(e1.sponsor, e2.sponsor);
  }

  /** A `Map` from key to entry: its keys in insertion order and its entries. */
  datatype Rollups = Rollups(order: seq<string>, table: map<string, Entry>)

  predicate Distinct(s: seq<string>) {
    forall i, j :: 0 <= i < j < |s| ==> s[i] != s[j]
  }

  /** Every key is listed once in the insertion order, and only keys are listed. */
  predicate WellFormed(acc: Rollups) {
    && Distinct(acc.order)
    && (forall k :: k in acc.table ==> k in acc.order)
    && (forall k :: k in acc.order ==> k in acc.table)
  }

  /** `map.get(k) ?? { net: 0, markets: new Set() }`. */
  function EntryOf(table: map<string, Entry>, k: string): (r: Entry)
    ensures k in table ==> r == table[k]
    ensures k !in table ==> r.net == 0 && r.markets == {}
  {
    if k in table then table[k] else Entry(0, {})
  }

  /** One turn of the loop: add the event's net to its sponsor's entry and its
      market to the entry's set; `map.set` appends a key it did not hold. */
  function Step(acc: Rollups, e: SponsoredEvent): Rollups {
    var k := SponsorKey(e);
    var entry := EntryOf(acc.table, k);
    var entry' := Entry(entry.net + (e.amountUsdc - e.returnedUsdc), entry.markets + {e.marketId});
    Rollups(if k in acc.table then acc.order else acc.order + [k], acc.table[k := entry'])
  }

  /** The map after the loop has visited every event, in order. */
  function Fold(events: seq<SponsoredEvent>): (r: Rollups)
  {
    if events == [] then Rollups([], map[])
    else
      var acc := Fold(events[..|events| - 1]);
      var r := Step(acc, events[|events| - 1]);
      r
  }

  /** The map never holds more keys than there were events. */
  lemma {:induction false} FoldKeyCount(events: seq<SponsoredEvent>)
    ensures |Fold(events).order| <= |events|
  {
    if events != [] {
      FoldKeyCount(events[..|events| - 1]);
    }
  }

  /** One more event is one more loop turn. */
  lemma FoldSnoc(p: seq<SponsoredEvent>, e: SponsoredEvent)
    ensures Fold(p + [e]) == Step(Fold(p), e)
  {
    assert (p + [e])[..|p|] == p;
  }

  /** A loop turn spelled out on the key order and the table. */
  lemma StepUnfold(order: seq<string>, table: map<string, Entry>, e: SponsoredEvent)
    ensures var k, entry := SponsorKey(e), EntryOf(table, SponsorKey(e));
            Step(Rollups(order, table), e)
              == Rollups(if k in table then order else order + [k],
                         table[k := Entry(entry.net + (e.amountUsdc - e.returnedUsdc), entry.markets + {e.marketId})])
  {
  }

  /** The fold over one more event of the same snapshot. */
  lemma FoldNext(events: seq<SponsoredEvent>, i: nat)
    requires i < |events|
    ensures Fold(events[..i + 1]) == Step(Fold(events[..i]), events[i])
  {
    assert events[..i + 1][..i] == events[..i];
  }

  /** A loop turn keeps every key listed exactly once. */
  lemma StepKeepsWellFormed(acc: Rollups, e: SponsoredEvent)
    requires WellFormed(acc)
    ensures WellFormed(Step(acc, e))
  {
    var k := SponsorKey(e);
    if k !in acc.table {
      var order := acc.order + [k];
      forall i, j | 0 <= i < j < |order|
        ensures order[i] != order[j]
      {
        if j == |acc.order| {
          assert order[i] == acc.order[i];
        }
      }
    }
  }

  /** A loop turn touches only its sponsor's entry: the net grows by the
      event's deposit less its refund, the markets gain the event's market,
      every other entry is unchanged, and only a new sponsor joins the order. */
  lemma StepChangesOnlyItsSponsor(acc: Rollups, e: SponsoredEvent)
    ensures var k, r := SponsorKey(e), Step(acc, e);
            && r.table.Keys == acc.table.Keys + {k}
            && r.table[k].net == EntryOf(acc.table, k).net + e.amountUsdc - e.returnedUsdc
            && r.table[k].markets == EntryOf(acc.table, k).markets + {e.marketId}
            && (forall k' :: k' in acc.table && k' != k ==> r.table[k'] == acc.table[k'])
            && r.order == (if k in acc.table then acc.order else acc.order + [k])
  {
  }

  /** The map after any number of loop turns keeps every key listed exactly once. */
  lemma {:induction false} FoldWellFormed(events: seq<SponsoredEvent>)
    ensures WellFormed(Fold(events))
  {
    if events != [] {
      FoldWellFormed(events[..|events| - 1]);
      StepKeepsWellFormed(Fold(events[..|events| - 1]), events[|events| - 1]);
    }
  }

  // Independent descriptions of what the map holds.

  /** The distinct sponsor keys of the events. */
  function SponsorKeys(events: seq<SponsoredEvent>): set<string> {
    set e | e in events :: SponsorKey(e)
  }

  /** The net deposit, `amountUsdc - returnedUsdc` summed over the events whose
      key is `k`. */
  function NetOf(events: seq<SponsoredEvent>, k: string): int {
    if events == [] then 0
    else
      var e := events[|events| - 1];
      NetOf(events[..|events| - 1], k) + (if SponsorKey(e) == k then e.amountUsdc - e.returnedUsdc else 0)
  }

  /** The distinct markets of the events whose key is `k`. */
  function MarketsOf(events: seq<SponsoredEvent>, k: string): set<string> {
    set e | e in events && SponsorKey(e) == k :: e.marketId
  }

  /** The key of every event, in snapshot order. */
  function KeySeq(events: seq<SponsoredEvent>): (r: seq<string>)
    ensures |r| == |events|
    ensures forall i :: 0 <= i < |events| ==> r[i] == SponsorKey(events[i])
  {
    if events == [] then [] else KeySeq(events[..|events| - 1]) + [SponsorKey(events[|events| - 1])]
  }

  /** Where `k` first occurs in `keys`. */
  function FirstIndex(keys: seq<string>, k: string): (n: nat)
    requires k in keys
    ensures n < |keys| && keys[n] == k
    ensures forall j :: 0 <= j < n ==> keys[j] != k
  {
    if keys[0] == k then 0 else 1 + FirstIndex(keys[1..], k)
  }

  /** Appending a key leaves earlier first occurrences where they were. */
  lemma FirstIndexOfExtension(keys: seq<string>, x: string, k: string)
    requires k in keys + [x]
    ensures k in keys ==> FirstIndex(keys + [x], k) == FirstIndex(keys, k)
    ensures k !in keys ==> FirstIndex(keys + [x], k) == |keys|
  {
    if k in keys {
      var m := FirstIndex(keys, k);
      assert (keys + [x])[m] == k;
    }
  }

  /** One more event adds its key to the sponsor keys. */
  lemma SponsorKeysOfExtension(events: seq<SponsoredEvent>)
    requires events != []
    ensures SponsorKeys(events) == SponsorKeys(events[..|events| - 1]) + {SponsorKey(events[|events| - 1])}
  {
    var prefix, last := events[..|events| - 1], events[|events| - 1];
    assert events == prefix + [last];
    assert forall e :: e in events <==> e in prefix || e == last;
  }

  /** One more event adds its market to its own sponsor's markets only. */
  lemma MarketsOfExtension(events: seq<SponsoredEvent>, k: string)
    requires events != []
    ensures var last := events[|events| - 1];
            MarketsOf(events, k) == MarketsOf(events[..|events| - 1], k) + (if SponsorKey(last) == k then {last.marketId} else {})
  {
    var prefix, last := events[..|events| - 1], events[|events| - 1];
    assert events == prefix + [last];
    assert forall e :: e in events <==> e in prefix || e == last;
  }

  /** The map's keys are exactly the lowercased sponsors of the snapshot. */
  lemma {:induction false} FoldKeys(events: seq<SponsoredEvent>)
    ensures Fold(events).table.Keys == SponsorKeys(events)
  {
    if events != [] {
      FoldKeys(events[..|events| - 1]);
      SponsorKeysOfExtension(events);
    }
  }

  /** Each key's entry holds the net over that sponsor's events and the set of
      its distinct markets; a key that is absent reads as net 0, no markets. */
  lemma {:induction false} FoldEntries(events: seq<SponsoredEvent>, k: string)
    ensures EntryOf(Fold(events).table, k) == Entry(NetOf(events, k), MarketsOf(events, k))
  {
    if events == [] {
    } else {
      FoldEntries(events[..|events| - 1], k);
      MarketsOfExtension(events, k);
    }
  }

  /** First-occurrence order survives one more key: an order listed by
      first occurrence in `keys` stays so in `keys + [x]`, also when `x` is
      new and appended. */
  lemma FirstOccurrenceOrderExtends(prev: seq<string>, keys: seq<string>, x: string, order: seq<string>)
    requires forall k :: k in prev ==> k in keys
    requires forall i, j :: 0 <= i < j < |prev| ==> FirstIndex(keys, prev[i]) < FirstIndex(keys, prev[j])
    requires order == prev || (x !in keys && order == prev + [x])
    ensures forall k :: k in order ==> k in keys + [x]
    ensures forall i, j :: 0 <= i < j < |order| ==> FirstIndex(keys + [x], order[i]) < FirstIndex(keys + [x], order[j])
  {
    var full := keys + [x];
    forall i, j | 0 <= i < j < |order|
      ensures FirstIndex(full, order[i]) < FirstIndex(full, order[j])
    {
      assert order[i] == prev[i];
      FirstIndexOfExtension(keys, x, order[i]);
      FirstIndexOfExtension(keys, x, order[j]);
      if j < |prev| {
        assert order[j] == prev[j];
      }
    }
  }

  /** The insertion order lists keys in the order of their first occurrence. */
  lemma {:induction false} FoldOrder(events: seq<SponsoredEvent>)
    ensures forall k :: k in Fold(events).order ==> k in KeySeq(events)
    ensures var order := Fold(events).order;
            forall i, j :: 0 <= i < j < |order| ==> FirstIndex(KeySeq(events), order[i]) < FirstIndex(KeySeq(events), order[j])
  {
    if events != [] {
      var prefix, last := events[..|events| - 1], events[|events| - 1];
      FoldOrder(prefix);
      var keys, x := KeySeq(prefix), SponsorKey(last);
      assert KeySeq(events) == keys + [x];
      var acc := Fold(prefix);
      if x !in acc.table {
        FoldKeys(prefix);
        KeySeqHoldsSponsorKeys(prefix);
      }
      FirstOccurrenceOrderExtends(acc.order, keys, x, Fold(events).order);
    }
  }

  /** The keys in snapshot order are the sponsor keys. */
  lemma KeySeqHoldsSponsorKeys(events: seq<SponsoredEvent>)
    ensures forall k :: k in KeySeq(events) <==> k in SponsorKeys(events)
  {
    var keys := KeySeq(events);
    forall k | k in keys
      ensures k in SponsorKeys(events)
    {
      var i :| 0 <= i < |keys| && keys[i] == k;
      assert events[i] in events;
    }
    forall k | k in SponsorKeys(events)
      ensures k in keys
    {
      var e :| e in events && SponsorKey(e) == k;
      var i :| 0 <= i < |events| && events[i] == e;
      assert keys[i] == k;
    }
  }

  /** First-occurrence order, for one pair of positions of the insertion order. */
  lemma FoldOrderAt(events: seq<SponsoredEvent>, i: nat, j: nat)
    requires i < j < |Fold(events).order|
    ensures var order, keys := Fold(events).order, KeySeq(events);
            && order[i] in keys && order[j] in keys
            && FirstIndex(keys, order[i]) < FirstIndex(keys, order[j])
  {
    FoldOrder(events);
  }

  lemma {:induction false} DistinctCard(s: seq<string>)
    requires Distinct(s)
    ensures |set k | k in s| == |s|
  {
    if s != [] {
      var prefix := s[..|s| - 1];
      DistinctCard(prefix);
      assert s == prefix + [s[|s| - 1]];
      assert (set k | k in s) == (set k | k in prefix) + {s[|s| - 1]};
    }
  }

  /** One sponsor of the result. */
  datatype SponsorRollup = SponsorRollup(address: string, netUsdc: int, marketCount: nat)

  /** `x` is the rollup of one lowercased sponsor of the snapshot: its net over
      that sponsor's events and the number of its distinct markets. */
  predicate DescribesSponsor(events: seq<SponsoredEvent>, x: SponsorRollup) {
    && x.address in SponsorKeys(events)
    && Lower(x.address) == x.address
    && x.netUsdc == NetOf(events, x.address)
    && x.marketCount == |MarketsOf(events, x.address)|
  }

  /** The ranking key. */
  function NetUsdc(r: SponsorRollup): int {
    r.netUsdc
  }

  /** `[...map.entries()].map(...)`: one rollup per key, in insertion order. */
  function Listed(order: seq<string>, table: map<string, Entry>): (r: seq<SponsorRollup>)
    requires forall k :: k in order ==> k in table
    ensures |r| == |order|
    ensures forall i :: 0 <= i < |order| ==>
              r[i] == SponsorRollup(order[i], table[order[i]].net, |table[order[i]].markets|)
  {
    if order == [] then []
    else
      var k := order[|order| - 1];
      Listed(order[..|order| - 1], table) + [SponsorRollup(k, table[k].net, |table[k].markets|)]
  }

  /** The rollups of a snapshot in the map's insertion order, each holding
      the net over its sponsor's events and the number of its markets. */
  function SnapshotRollups(events: seq<SponsoredEvent>): (r: seq<SponsorRollup>)
    ensures |r| == |Fold(events).order|
    ensures forall i :: 0 <= i < |r| ==> r[i].address == Fold(events).order[i]
  {
    FoldWellFormed(events);
    var acc := Fold(events);
    Listed(acc.order, acc.table)
  }

  /** The ranked list: the rollups sorted by descending net, cut to `limit`:
      one per distinct sponsor up to the limit, highest net first. */
  function RankSponsors(events: seq<SponsoredEvent>, limit: nat): (r: seq<SponsorRollup>)
    ensures |r| == Min(limit, |SponsorKeys(events)|)
    ensures SortedDesc(r, NetUsdc)
  {
    RollupCount(events);
    Take(SortDesc(SnapshotRollups(events), NetUsdc), limit)
  }

  /** Each ranked rollup is a distinct lowercased sponsor of the snapshot,
      with the net over its events and the number of its distinct markets. */
  lemma RankSponsorsDescribeEvents(events: seq<SponsoredEvent>, limit: nat)
    ensures var r := RankSponsors(events, limit);
            && (forall i :: 0 <= i < |r| ==> DescribesSponsor(events, r[i]))
            && (forall i, j :: 0 <= i < j < |r| ==> r[i].address != r[j].address)
  {
    var listed := SnapshotRollups(events);
    var r := Take(SortDesc(listed, NetUsdc), limit);
    TakeOfSortIsDrawnFrom(listed, limit);
    RankedDescribeEvents(events, r);
    RollupAddressesDistinct(events);
    RankedAddressesDistinct(listed, r);
  }

  lemma RankedDescribeEvents(events: seq<SponsoredEvent>, r: seq<SponsorRollup>)
    requires forall x :: x in r ==> x in SnapshotRollups(events)
    ensures forall i :: 0 <= i < |r| ==> DescribesSponsor(events, r[i])
  {
    RollupsDescribeEvents(events);
    forall i | 0 <= i < |r|
      ensures r[i] in SnapshotRollups(events)
    {
      assert r[i] in r;
    }
  }

  /** There is one rollup per distinct sponsor key. */
  lemma RollupCount(events: seq<SponsoredEvent>)
    ensures |SnapshotRollups(events)| == |SponsorKeys(events)|
  {
    var acc := Fold(events);
    FoldWellFormed(events);
    FoldKeys(events);
    DistinctCard(acc.order);
    assert (set k | k in acc.order) == acc.table.Keys;
  }

  /** No address is listed twice. */
  lemma RollupAddressesDistinct(events: seq<SponsoredEvent>)
    ensures var listed := SnapshotRollups(events);
            forall i, j :: 0 <= i < j < |listed| ==> listed[i].address != listed[j].address
  {
    FoldWellFormed(events);
  }

  /** The ranked rollups are drawn from the listed ones. */
  lemma TakeOfSortIsDrawnFrom(listed: seq<SponsorRollup>, limit: nat)
    ensures var r := Take(SortDesc(listed, NetUsdc), limit);
            && multiset(r) <= multiset(listed)
            && forall x :: x in r ==> x in listed
  {
    var sorted := SortDesc(listed, NetUsdc);
    TakeKeepsLargest(sorted, limit, NetUsdc);
    var r := Take(sorted, limit);
    assert forall x :: x in r ==> x in multiset(r);
  }

  lemma RollupsDescribeEvents(events: seq<SponsoredEvent>)
    ensures forall x :: x in SnapshotRollups(events) ==> DescribesSponsor(events, x)
  {
    var acc := Fold(events);
    var listed := SnapshotRollups(events);
    FoldWellFormed(events);
    FoldKeys(events);
    forall x | x in listed
      ensures DescribesSponsor(events, x)
    {
      var i :| 0 <= i < |listed| && listed[i] == x;
      var k := acc.order[i];
      FoldEntries(events, k);
      var e :| e in events && SponsorKey(e) == k;
      LowerIdempotent(e.sponsor);
    }
  }

  /** Rollups with distinct addresses stay distinct when sorted and cut. */
  lemma RankedAddressesDistinct(listed: seq<SponsorRollup>, r: seq<SponsorRollup>)
    requires forall i, j :: 0 <= i < j < |listed| ==> listed[i].address != listed[j].address
    requires multiset(r) <= multiset(listed)
    ensures forall i, j :: 0 <= i < j < |r| ==> r[i].address != r[j].address
  {
    forall i, j | 0 <= i < j < |r|
      ensures r[i].address != r[j].address
    {
      if r[i].address == r[j].address {
        // the addresses are distinct, so equal addresses mean equal rollups
        assert r[i] in multiset(listed) && r[j] in multiset(listed);
        var a :| 0 <= a < |listed| && listed[a] == r[i];
        var b :| 0 <= b < |listed| && listed[b] == r[j];
        assert a == b;
        assert r[i] == r[j];
        var ri := r[i];
        assert multiset(r)[ri] >= 2 by {
          assert r == r[..i] + [r[i]] + r[i + 1..j] + [r[j]] + r[j + 1..];
        }
        MultiplicityOfDistinct(listed, a);
      }
    }
  }

  lemma MultiplicityOfDistinct(listed: seq<SponsorRollup>, a: nat)
    requires forall i, j :: 0 <= i < j < |listed| ==> listed[i].address != listed[j].address
    requires a < |listed|
    ensures multiset(listed)[listed[a]] == 1
  {
    var x := listed[a];
    assert listed == listed[..a] + [x] + listed[a + 1..];
    assert forall i :: 0 <= i < a ==> listed[..a][i].address != x.address;
    assert x !in listed[..a];
    var suffix := listed[a + 1..];
    assert forall i :: 0 <= i < |suffix| ==> suffix[i].address != x.address;
    assert x !in suffix;
  }

  /** The rollup listed for a sponsor key of the snapshot. */
  lemma RollupOfKey(events: seq<SponsoredEvent>, k: string) returns (x: SponsorRollup)
    requires k in SponsorKeys(events)
    ensures x in SnapshotRollups(events) && x.address == k && x.netUsdc == NetOf(events, k)
  {
    var acc := Fold(events);
    FoldWellFormed(events);
    FoldKeys(events);
    var i :| 0 <= i < |acc.order| && acc.order[i] == k;
    x := SnapshotRollups(events)[i];
    FoldEntries(events, k);
  }

  /** With at most `limit` distinct sponsors, every one of them is ranked. */
  lemma RankSponsorsComplete(events: seq<SponsoredEvent>, limit: nat, k: string)
    requires k in SponsorKeys(events) && |SponsorKeys(events)| <= limit
    ensures exists i :: 0 <= i < |RankSponsors(events, limit)| && RankSponsors(events, limit)[i].address == k
  {
    var listed := SnapshotRollups(events);
    var sorted := SortDesc(listed, NetUsdc);
    RollupCount(events);
    var x := RollupOfKey(events, k);
    assert x in sorted by {
      assert multiset(sorted) == multiset(listed);
      assert x in multiset(listed);
    }
    var i :| 0 <= i < |sorted| && sorted[i] == x;
    assert RankSponsors(events, limit) == sorted by {
      assert |sorted| <= limit;
    }
    assert RankSponsors(events, limit)[i].address == k;
  }

  /** The ranked sponsors are the top of all sponsors: one that is left out
      has no larger a net than any that is returned. */
  lemma RankSponsorsIsTop(events: seq<SponsoredEvent>, limit: nat, k: string)
    requires k in SponsorKeys(events)
    requires forall i :: 0 <= i < |RankSponsors(events, limit)| ==> RankSponsors(events, limit)[i].address != k
    ensures forall i :: 0 <= i < |RankSponsors(events, limit)| ==> NetOf(events, k) <= RankSponsors(events, limit)[i].netUsdc
  {
    var sorted := SortDesc(SnapshotRollups(events), NetUsdc);
    var r := RankSponsors(events, limit);
    assert r == Take(sorted, limit);
    var x := RollupOfKey(events, k);
    assert x in sorted by {
      assert x in multiset(sorted);
    }
    assert x !in r;
    forall i | 0 <= i < |r|
      ensures NetOf(events, k) <= r[i].netUsdc
    {
      TakeDropsNoLarger(sorted, limit, NetUsdc, x, r[i]);
    }
  }

  /** The listed rollups follow the first occurrence of their addresses. */
  lemma ListedInFirstOccurrenceOrder(events: seq<SponsoredEvent>, i: nat, j: nat)
    requires i < j < |SnapshotRollups(events)|
    ensures var listed, keys := SnapshotRollups(events), KeySeq(events);
            && listed[i].address in keys && listed[j].address in keys
            && FirstIndex(keys, listed[i].address) < FirstIndex(keys, listed[j].address)
  {
    var acc := Fold(events);
    FoldWellFormed(events);
    var listed := Listed(acc.order, acc.table);
    assert listed == SnapshotRollups(events);
    assert listed[i].address == acc.order[i] && listed[j].address == acc.order[j];
    FoldOrderAt(events, i, j);
  }

  /** Sponsors with equal nets are ranked in the order in which their
      lowercased addresses first occur in the snapshot. */
  lemma RankSponsorsTiesInFirstOccurrenceOrder(events: seq<SponsoredEvent>, limit: nat, i: nat, j: nat)
    requires var r := RankSponsors(events, limit); i < j < |r| && r[i].netUsdc == r[j].netUsdc
    ensures var r, keys := RankSponsors(events, limit), KeySeq(events);
            && r[i].address in keys && r[j].address in keys
            && FirstIndex(keys, r[i].address) < FirstIndex(keys, r[j].address)
  {
    var listed := SnapshotRollups(events);
    var r := RankSponsors(events, limit);
    assert r == Take(SortDesc(listed, NetUsdc), limit);
    var v := r[i].netUsdc;
    TakeKeepsKeyOrder(SortDesc(listed, NetUsdc), limit, NetUsdc, v);
    SortDescStable(listed, NetUsdc, v);
    TiesKeepOrder(listed, r, NetUsdc, i, j);
    var i', j' :| 0 <= i' < j' < |listed| && listed[i'] == r[i] && listed[j'] == r[j];
    ListedInFirstOccurrenceOrder(events, i', j');
  }

  /** At the cut, ties go to the sponsor that appeared first: a sponsor left
      out with the same net as a ranked one first occurs after it. */
  lemma RankSponsorsTiesAtCut(events: seq<SponsoredEvent>, limit: nat, k: string, i: nat)
    requires k in SponsorKeys(events)
    requires forall j :: 0 <= j < |RankSponsors(events, limit)| ==> RankSponsors(events, limit)[j].address != k
    requires i < |RankSponsors(events, limit)| && RankSponsors(events, limit)[i].netUsdc == NetOf(events, k)
    ensures var r, keys := RankSponsors(events, limit), KeySeq(events);
            && r[i].address in keys && k in keys
            && FirstIndex(keys, r[i].address) < FirstIndex(keys, k)
  {
    var listed := SnapshotRollups(events);
    var sorted := SortDesc(listed, NetUsdc);
    var r := RankSponsors(events, limit);
    assert r == Take(sorted, limit);
    var v := r[i].netUsdc;
    TakeKeepsKeyOrder(sorted, limit, NetUsdc, v);
    SortDescStable(listed, NetUsdc, v);
    var x := RollupOfKey(events, k);
    assert x !in r;
    DroppedTieComesLater(listed, r, NetUsdc, i, x);
    var i', j' :| 0 <= i' < j' < |listed| && listed[i'] == r[i] && listed[j'] == x;
    ListedInFirstOccurrenceOrder(events, i', j');
  }

  /** The map's keys and entries, read off the events. */
  lemma FoldDescribesEvents(events: seq<SponsoredEvent>)
    ensures Fold(events).table.Keys == SponsorKeys(events)
    ensures forall k :: k in Fold(events).table ==> Fold(events).table[k] == Entry(NetOf(events, k), MarketsOf(events, k))
  {
    FoldKeys(events);
    forall k | k in Fold(events).table
      ensures Fold(events).table[k] == Entry(NetOf(events, k), MarketsOf(events, k))
    {
      FoldEntries(events, k);
    }
  }

  /** The aggregation loop over the snapshot's events. */
  method AggregateSponsors(events: seq<SponsoredEvent>) returns (order: seq<string>, table: map<string, Entry>)
    ensures Rollups(order, table) == Fold(events)
    ensures table.Keys == SponsorKeys(events)
    ensures forall k :: k in table ==> table[k] == Entry(NetOf(events, k), MarketsOf(events, k))
  {
    order, table := [], map[];
    var i := 0;
    while i < |events|
      invariant 0 <= i <= |events|
      invariant Rollups(order, table) == Fold(events[..i])
    {
      var e := events[i];
      FoldNext(events, i);
      var k := SponsorKey(e);
      var entry := EntryOf(table, k);
      entry := Entry(entry.net + (e.amountUsdc - e.returnedUsdc), entry.markets + {e.marketId});
      StepUnfold(order, table, e);
      if k !in table {
        order := order + [k];
      }
      table := table[k := entry];
      i := i + 1;
    }
    assert events[..i] == events;
    FoldDescribesEvents(events);
  }

  /** The `get_top_sponsors` handler after the fetch; a missing limit is 10. */
  method TopSponsors(snapshot: SponsoredSnapshot, limit: Option<nat>) returns (ranked: seq<SponsorRollup>)
    ensures ranked == RankSponsors(snapshot.events, limit.GetOr(DefaultSponsorLimit))
  {
    var order, table := AggregateSponsors(snapshot.events);
    FoldWellFormed(snapshot.events);
    var listed := Listed(order, table);
    ranked := Take(SortDesc(listed, NetUsdc), limit.GetOr(DefaultSponsorLimit));
  }
}
