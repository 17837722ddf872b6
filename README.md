# Sponsored-rewards queries, modelled in Dafny

polymarket-rewards-mcp is a small MCP server. It exposes read-only queries over
a snapshot of "sponsored liquidity reward" events on Polymarket. Each event is
a sponsor's deposit made to subsidise one market over a time window, together
with how much of that deposit was paid out or returned. This project models
the core of two of those queries and proves what they compute.

- **`get_active_opportunities`** is the opportunity ranker, in module
  `Opportunities`:
  - It keeps the events that are not withdrawn, that end strictly after `now`,
    and that pay at least `min_rate_per_day` (default 0).
  - It sorts them stably by descending daily rate and keeps the first `limit`
    (default 50).
  - It reports each kept event's days left, rounded up, and the sum of the
    daily rates of the events it returns.
- **`get_top_sponsors`** is the sponsor aggregator, in module `Sponsors`:
  - A loop groups the events by lowercased sponsor address in an
    insertion-ordered map. For each sponsor it accumulates the net deposit
    (`amountUsdc - returnedUsdc`) and the set of markets sponsored.
  - The entries are then turned into `{address, netUsdc, marketCount}` rows,
    sorted stably by descending net and cut to `limit` (default 10).

The other modules:

- `Events` holds the data model: the event, the upstream totals and the
  snapshot. It also holds ASCII lowercasing.
- `StableSort` holds a generic stable descending insertion sort and `slice(0, n)`.
  It proves that the sort is sorted, is a permutation, and is stable. It also
  proves that any stable descending sort gives the same result, and that the
  cut keeps the largest elements.
- `Scenarios` holds small worked snapshots for both queries. Each is stated for
  any events carrying the fields shown.

Following the source's own form:

- The ranker and the aggregator's ranking step are expression pipelines, so
  they are functions and lemmas.
- The aggregator's `for` loop mutates a `Map`, so it is a method with a `while`
  loop (`Sponsors.AggregateSponsors`). Its invariant ties the map built so far
  to a pure left fold `Sponsors.Fold` over the events already visited.
- The fold is in turn described independently of the loop:
  - its keys are the lowercased sponsors;
  - each entry holds the net over that sponsor's events and the set of its
    markets;
  - the key order is the order of first occurrence.

Amounts are integers (micro-USDC) and timestamps are integers (milliseconds).
The current time `now` is a parameter, and so is the fetched snapshot.

## Model

| member | source | states |
|---|---|---|
| Events.Lower | src/index.ts:173 | lowering keeps the length, lowers every ASCII capital and leaves every other character unchanged |
| Events.LowerChar | src/index.ts:173 | lowering one character gives no capital: a capital moves 32 code points up to its small letter, and any other character is kept |
| Events.LowerCharAlike | src/index.ts:173 | two characters lower alike exactly when they are equal or one is the ASCII capital of the other |
| Events.LowerIdempotent | src/index.ts:173 | a lowered address lowers to itself, so every grouping key is already in normal form |
| Events.LowerIgnoresCase | src/index.ts:173 | two addresses lower to the same string exactly when they have the same length and, position by position, are equal or one is the ASCII capital of the other |
| Opportunities.ActiveBoundaries | src/index.ts:115-116 | the edges of the activity test (the partner of `IsActive`): a withdrawn event is never active, nor is one ending at or before `now`; one not withdrawn and ending a millisecond later is; the start time plays no part |
| Opportunities.QualifiesMonotone | src/index.ts:115-117 | the filter test (`Qualifies`) is monotone: an event that qualifies at a threshold and a time also qualifies at any lower threshold and any earlier time |
| Opportunities.Qualifying | src/index.ts:112-118 | every kept event is not withdrawn, ends strictly after `now` and pays at least the threshold; each qualifying event is kept as often as it occurs and every other event is dropped |
| Opportunities.QualifyingMonotone | src/index.ts:112-118 | raising the threshold or moving `now` later only removes events from the filtered list (as a sub-multiset) |
| Opportunities.QualifyingOne | src/index.ts:112-118 | on a single event, the filter keeps it exactly when it qualifies |
| Opportunities.QualifyingAppend | src/index.ts:112-118 | the filter distributes over concatenation, so it keeps the snapshot's order; with `QualifyingOne` this pins the filter down completely |
| Opportunities.QualifyingWithRate | src/index.ts:112-118 | filtering and picking out one rate commute: the qualifying events of one rate are the events of that rate that qualify, in the same order |
| Opportunities.RankEvents | src/index.ts:112-120 | the result has `min(limit, number qualifying)` events, each qualifies, and the rates are non-increasing |
| Opportunities.RankEventsIsTop | src/index.ts:112-120 | the result is drawn from the qualifying events; it is all of them when there are at most `limit`; no qualifying event left out pays more a day than one returned |
| Opportunities.AllReturnedUnderLimit | src/index.ts:112-120 | with at most `limit` qualifying events, every qualifying event of the snapshot is returned |
| Opportunities.RankEventsKeepsTieOrder | src/index.ts:119-120 | the returned events of any one rate are a prefix, in snapshot order, of the qualifying events of that rate |
| Opportunities.RankEventsIsAnyStableSort | src/index.ts:119-120 | truncating any stable descending sort of the qualifying events gives exactly the returned events, so the result does not depend on which stable sort is used |
| Opportunities.CeilDiv | src/index.ts:125-127 | the rounded-up quotient is the least `q` with `a <= q * d` |
| Opportunities.DaysLeft | src/index.ts:125-127 | the days left `n` satisfy `(n - 1) * 86400000 < endTime - now <= n * 86400000` |
| Opportunities.ActiveHasADayLeft | src/index.ts:115-127 | an event that passes the activity test has at least one day left |
| Opportunities.SumRatesAtLeast | src/index.ts:122 | events that each pay at least `m` a day sum to at least `count * m` |
| Opportunities.SumRatesAppend | src/index.ts:122 | the `reduce` sum (`SumRates`) is additive: the summed rate of two lists together is the sum of their sums |
| Opportunities.Annotate | src/index.ts:124-127 | each returned event, in order, is paired with its own days left |
| Opportunities.GetActiveOpportunities | src/index.ts:106-127 | with the defaults 0 and 50, the items are the ranked events in order, each paired with its days left (at least one, rounded up), and the total daily rate is the sum over the returned items only |
| Opportunities.TotalDailyRateAtLeast | src/index.ts:117-122 | the reported total is at least the threshold times the number of items returned |
| StableSort.Insert | src/index.ts:119 | inserting into a sorted sequence gives a sorted permutation of the sequence plus the element |
| StableSort.SortDesc | src/index.ts:119 | the sort gives a non-increasing permutation of its input |
| StableSort.SortDescStable | src/index.ts:119 | the sort is stable: the elements of any key keep their input order |
| StableSort.StableSortUnique | src/index.ts:119 | two sorted sequences whose elements of each key agree in order are equal |
| StableSort.StableSortIsSortDesc | src/index.ts:119 | every stable descending sort of a sequence equals the model's sort |
| StableSort.Take | src/index.ts:120 | `slice(0, n)` keeps the first `min(n, length)` elements |
| StableSort.TakeKeepsLargest | src/index.ts:120 | cutting a sorted sequence keeps a sorted sub-multiset, and nothing dropped has a larger key than anything kept |
| StableSort.TakeDropsNoLarger | src/index.ts:120 | an element dropped by the cut has no larger a key than any element kept |
| StableSort.TakeKeepsKeyOrder | src/index.ts:120 | the kept elements of each key are a prefix of that key's elements |
| StableSort.TiesKeepOrder | src/index.ts:186-187 | two equal-key elements of a result that keeps a prefix of each key's elements occur in the input in the same order |
| StableSort.DroppedTieComesLater | src/index.ts:186-187 | an element dropped by a result that keeps a prefix of each key's elements comes, in the input, after every kept element of its key |
| Sponsors.SponsorKey | src/index.ts:173 | the grouping key has the length of the sponsor address |
| Sponsors.SponsorKeyIsLower | src/index.ts:173 | the grouping key is already in lower case, so it is its own key |
| Sponsors.SameSponsorKey | src/index.ts:173 | two events are grouped together exactly when their sponsor addresses have the same length and differ at most in the case of ASCII letters |
| Sponsors.StepChangesOnlyItsSponsor | src/index.ts:173-177 | one loop turn (`Step`) touches only its sponsor's entry: the net grows by `amountUsdc - returnedUsdc`, the markets gain the event's market, every other entry is unchanged, and only a new sponsor joins the insertion order |
| Sponsors.FoldKeyCount | src/index.ts:171-178 | the map never holds more keys than there were events |
| Sponsors.StepKeepsWellFormed | src/index.ts:172-177 | one loop turn keeps every map key listed exactly once in the insertion order |
| Sponsors.FoldWellFormed | src/index.ts:171-178 | after any number of turns, every map key is listed exactly once in the insertion order |
| Sponsors.FoldKeys | src/index.ts:171-178 | the map's keys are exactly the lowercased sponsors of the events |
| Sponsors.FoldEntries | src/index.ts:171-178 | each sponsor's entry holds the sum of `amountUsdc - returnedUsdc` over its events and the set of its markets; an absent key reads as net 0 and no markets |
| Sponsors.FoldOrder | src/index.ts:171-178 | the map's insertion order lists the keys in the order of their first occurrence among the events |
| Sponsors.FoldDescribesEvents | src/index.ts:171-178 | the map's keys are the sponsors and each entry holds that sponsor's net and markets |
| Sponsors.AggregateSponsors | src/index.ts:171-178 | the loop builds the fold of all the events, whose keys are the lowercased sponsors and whose entries are their nets and market sets |
| Sponsors.Listed | src/index.ts:180-185 | the rows follow the map's insertion order, each with its key as address, its net, and the number of its distinct markets |
| Sponsors.SnapshotRollups | src/index.ts:180-185 | the rows of a snapshot are one per map key, in the map's insertion order |
| Sponsors.RollupCount | src/index.ts:180-185 | there is exactly one row per distinct lowercased sponsor |
| Sponsors.RollupAddressesDistinct | src/index.ts:180-185 | no address is listed twice |
| Sponsors.RollupsDescribeEvents | src/index.ts:180-185 | every row names a lowercased sponsor of the snapshot with its net and its count of distinct markets |
| Sponsors.ListedInFirstOccurrenceOrder | src/index.ts:180-185 | the rows follow the first occurrence of their addresses in the snapshot |
| Sponsors.RankSponsors | src/index.ts:180-187 | the ranking has `min(limit, number of distinct sponsors)` rows, with nets non-increasing |
| Sponsors.RankSponsorsDescribeEvents | src/index.ts:180-187 | each ranked row is a distinct lowercased sponsor of the snapshot, with the net over its events and the number of its distinct markets |
| Sponsors.RankSponsorsComplete | src/index.ts:186-187 | with at most `limit` distinct sponsors, every sponsor is ranked |
| Sponsors.RankSponsorsIsTop | src/index.ts:186-187 | a sponsor left out of the ranking has no larger a net than any sponsor ranked |
| Sponsors.RankSponsorsTiesInFirstOccurrenceOrder | src/index.ts:180-187 | ranked sponsors with equal nets appear in the order in which their addresses first occur in the snapshot |
| Sponsors.RankSponsorsTiesAtCut | src/index.ts:180-187 | at the cut, ties go to the sponsor seen first: a sponsor left out with the same net as a ranked one first occurs after it in the snapshot |
| Sponsors.TopSponsors | src/index.ts:167-187 | the handler, with the default limit 10, returns the ranking of the snapshot's sponsors |
| Scenarios.OnlyLiveQualify | src/index.ts:112-118 | live, withdrawn, already ended and ending-exactly-now events: only the live one passes the filter |
| Scenarios.ActiveOpportunityScenario | src/index.ts:106-127 | with the defaults, that snapshot yields the live event alone, with one day left and its rate as the total |
| Scenarios.HigherRateFirst | src/index.ts:119 | of two events, the one with the higher rate is ranked first |
| Scenarios.OnlyHigherReturned | src/index.ts:112-120 | with limit 1, only the higher-paying of two qualifying events is returned |
| Scenarios.TruncationBeforeSumScenario | src/index.ts:106-127 | with limit 1, the total is the returned event's rate (20) and not that of all qualifying events (30); a day and a millisecond round up to two days |
| Scenarios.TopSponsorsScenario | src/index.ts:171-187 | deposits of 100 (20 returned) and 50 from one sponsor and 30 (all returned) from another rank as 130 on two markets, then 0 on one |
| Scenarios.CaseFoldingScenario | src/index.ts:171-187 | `0xABC`, `0xabc` and `0xAbC` merge into one sponsor `0xabc`, whose market count is the union of its markets |

## Left out

- `fetchSnapshot` and the HTTP call to the upstream feed (src/index.ts:43-48) are out of scope. The snapshot is a parameter. Failures of the upstream feed are not modelled, because they happen before the core runs.
- `get_sponsored_rewards` (src/index.ts:55-88) is out of scope. It only passes the snapshot through and formats it.
- The MCP server, tool registration, the zod input schemas, the stdio transport and `main` are out of scope, because none of them compute over the snapshot.
- All text formatting of results is left out: `toFixed`, URLs, footers and pluralisation.
- The clock (`new Date()`) is left out. `now` is a parameter.
- Parsing of the ISO-8601 strings `startTime` and `endTime` is left out. Timestamps are given as millisecond integers, so an unparseable date, which the source would compare as NaN, is not modelled.
- Amounts and rates are modelled as exact integers, in micro-USDC, not as IEEE-754 doubles. Float rounding in the sums and differences is not captured.
- Opportunities.Qualifying: the threshold comparison is on integers, so a NaN threshold is not modelled.
- Opportunities.RankEvents: a negative or fractional `limit` is not modelled, because `limit` is a natural number. JavaScript's `slice` would count a negative limit from the end and truncate a fractional one.
- Opportunities.GetActiveOpportunities: the handler's optional `limit` is a natural number, so the negative and fractional limits that `limit ?? 50` would pass to `slice` are not modelled, for the same reason as for `Opportunities.RankEvents`.
- Sponsors.RankSponsors: a negative or fractional `limit` is not modelled, for the same reason. The source's `limit ?? 10` accepts any number, and `slice` would count a negative limit from the end and truncate a fractional one.
- Sponsors.TopSponsors: the handler's optional `limit` is likewise a natural number, so the negative and fractional limits that the input schema lets through are not modelled.
- Events.Lower: only ASCII letters are lowered, not full Unicode `toLowerCase`. Sponsor addresses are hex strings, where the two agree.
- Sponsors.AggregateSponsors: the source mutates each map entry in place through a shared reference. The model replaces the entry with a new value. Because the entry is written straight back under the same key, the result is the same.
- Sponsors.Listed: `Set.size` is modelled as the cardinality of a finite set of market ids.
- The upstream totals (`overall`, `fetchedAt` and the block range) are carried in the snapshot but never computed. The core passes them through unchanged.
