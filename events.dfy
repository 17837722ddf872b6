/** The snapshot handed to every query: sponsorship events plus the totals
    computed upstream. Amounts are fixed-point micro-USDC integers and
    timestamps are milliseconds since the epoch. */
module Events {

  datatype Option<+T> = None | Some(value: T) {
    /** The value, or `default` when absent (the `??` operator). */
    function GetOr(default: T): T {
      match this
      case Some(v) => v
      case None => default
    }
  }

  /** One sponsorship deposit tied to one market. */
  datatype SponsoredEvent = SponsoredEvent(
    marketId: string,
    sponsor: string,
    amountUsdc: int,
    startTime: int,
    endTime: int,
    durationDays: int,
    ratePerDayUsdc: int,
    txHash: string,
    blockNumber: int,
    marketQuestion: Option<string>,
    marketSlug: Option<string>,
    eventSlug: Option<string>,
    withdrawn: bool,
    returnedUsdc: int,
    consumedUsdc: int
  )

  /** Totals computed by the upstream provider and passed through untouched. */
  datatype Overall = Overall(
    totalEvents: int,
    uniqueSponsors: int,
    uniqueMarkets: int,
    totalAmountUsdc: int,
    netAmountUsdc: int,
    totalReturnedUsdc: int,
    totalConsumedUsdc: int
  )

  datatype SponsoredSnapshot = SponsoredSnapshot(
    events: seq<SponsoredEvent>,
    overall: Overall,
    fetchedAt: string,
    fromBlock: int,
    toBlock: int
  )

  predicate IsUpper(c: char) {
    'A' <= c <= 'Z'
  }

  /** `toLowerCase` on one character, restricted to ASCII letters. */
  function LowerChar(c: char): (r: char)
    ensures !IsUpper(r)
    ensures IsUpper(c) ==> r as int == c as int + 32
    ensures !IsUpper(c) ==> r == c
  {
    if IsUpper(c) then (c as int + 32) as char else c
  }

  /** `toLowerCase` on a string: every character lowered, length kept. */
  function Lower(s: string): (r: string)
    ensures |r| == |s|
    ensures forall i :: 0 <= i < |s| ==> r[i] == LowerChar(s[i])
  {
    if s == [] then [] else [LowerChar(s[0])] + Lower(s[1..])
  }

  /** Lowering twice is lowering once: an already lowered key is its own key. */
  lemma LowerIdempotent(s: string)
    ensures Lower(Lower(s)) == Lower(s)
  {
    var l := Lower(s);
    assert forall i :: 0 <= i < |l| ==> Lower(l)[i] == l[i];
  }

  /** Two characters that are equal, or one the ASCII capital of the other. */
  predicate CaseVariants(c: char, d: char) {
    || c == d
    || (IsUpper(c) && d as int == c as int + 32)
    || (IsUpper(d) && c as int == d as int + 32)
  }

  /** Two characters lower alike exactly when they differ at most in case. */
  lemma LowerCharAlike(c: char, d: char)
    ensures LowerChar(c) == LowerChar(d) <==> CaseVariants(c, d)
  {
  }

  /** Two addresses get the same key exactly when they have the same length
      and differ at most in the case of ASCII letters. */
  lemma LowerIgnoresCase(a: string, b: string)
    ensures Lower(a) == Lower(b) <==> |a| == |b| && forall i :: 0 <= i < |a| ==> CaseVariants(a[i], b[i])
  {
    if Lower(a) == Lower(b) {
      forall i | 0 <= i < |a|
        ensures CaseVariants(a[i], b[i])
      {
        assert Lower(a)[i] == Lower(b)[i];
        LowerCharAlike(a[i], b[i]);
      }
    }
    if |a| == |b| && forall i :: 0 <= i < |a| ==> CaseVariants(a[i], b[i]) {
      forall i | 0 <= i < |a|
        ensures Lower(a)[i] == Lower(b)[i]
      {
        LowerCharAlike(a[i], b[i]);
      }
    }
  }
}
