/** The counts, first-metric reads and percentages that the dashboards and
    reports compute from the store (`x.filter(y => y.status === s).length`,
    `metrics[0]?.field || 0`, `total > 0 ? (part / total) * 100 : 0`). */
module Tallies {
  import opened Common
  import opened FoodData

  /** `claims.filter(c => c.status === st).length` */
  function ClaimsWith(cs: seq<FoodClaim>, st: ClaimStatus): (r: nat)
    ensures r <= |cs|
    ensures r == 0 <==> forall i :: 0 <= i < |cs| ==> cs[i].status != st
  {
    if cs == [] then 0
    else (if cs[0].status == st then 1 else 0) + ClaimsWith(cs[1..], st)
  }

  /** `listings.filter(l => l.status === st).length` */
  function ListingsWith(ls: seq<FoodListing>, st: ListingStatus): (r: nat)
    ensures r <= |ls|
    ensures r == 0 <==> forall i :: 0 <= i < |ls| ==> ls[i].status != st
  {
    if ls == [] then 0
    else (if ls[0].status == st then 1 else 0) + ListingsWith(ls[1..], st)
  }

  /** The recursive count is the length of the source's filter. */
  lemma {:induction false} ClaimsWithIsFilterLength(cs: seq<FoodClaim>, st: ClaimStatus)
    ensures ClaimsWith(cs, st) == Count(cs, (c: FoodClaim) => c.status == st)
  {
    if cs != [] {
      ClaimsWithIsFilterLength(cs[1..], st);
    }
  }

  lemma {:induction false} ListingsWithIsFilterLength(ls: seq<FoodListing>, st: ListingStatus)
    ensures ListingsWith(ls, st) == Count(ls, (l: FoodListing) => l.status == st)
  {
    if ls != [] {
      ListingsWithIsFilterLength(ls[1..], st);
    }
  }

  /** Every claim has exactly one of the four statuses. */
  lemma {:induction false} ClaimStatusesPartition(cs: seq<FoodClaim>)
    ensures ClaimsWith(cs, Pending) + ClaimsWith(cs, Approved) + ClaimsWith(cs, Completed) +
            ClaimsWith(cs, Rejected) == |cs|
  {
    if cs != [] {
      ClaimStatusesPartition(cs[1..]);
    }
  }

  /** Every listing has exactly one of the four statuses. */
  lemma {:induction false} ListingStatusesPartition(ls: seq<FoodListing>)
    ensures ListingsWith(ls, Available) + ListingsWith(ls, Claimed) + ListingsWith(ls, Distributed) +
            ListingsWith(ls, Expired) == |ls|
  {
    if ls != [] {
      ListingStatusesPartition(ls[1..]);
    }
  }

  /** `metrics[0]?.field || 0` over exact reals: the first record's figure, or 0
      when there is no record. */
  function FirstMetric(ms: seq<FoodWasteMetric>, field: FoodWasteMetric -> real): (r: real)
    ensures ms == [] ==> r == 0.0
    ensures ms != [] ==> r == field(ms[0])
  {
    if ms == [] then 0.0 else field(ms[0])
  }

  /** `total > 0 ? (part / total) * 100 : 0`, before rounding for display. */
  function Percent(part: nat, total: nat): (r: real)
    ensures total == 0 ==> r == 0.0
    ensures part <= total ==> 0.0 <= r <= 100.0
    ensures total > 0 ==> r * (total as real) == 100.0 * (part as real)
  {
    if total > 0 then (part as real) / (total as real) * 100.0 else 0.0
  }

  /** Shares of one whole add up: the percentages of parts that sum to the total
      sum to 100. */
  lemma PercentsAdd(a: nat, b: nat, total: nat)
    requires total > 0
    ensures Percent(a, total) + Percent(b, total) == Percent(a + b, total)
  {
    var t := total as real;
    assert Percent(a, total) * t + Percent(b, total) * t == Percent(a + b, total) * t;
  }

  /** The four claim-status percentages of a non-empty list add up to 100. */
  lemma ClaimPercentsSumTo100(cs: seq<FoodClaim>)
    requires cs != []
    ensures Percent(ClaimsWith(cs, Pending), |cs|) + Percent(ClaimsWith(cs, Approved), |cs|) +
            Percent(ClaimsWith(cs, Completed), |cs|) + Percent(ClaimsWith(cs, Rejected), |cs|) == 100.0
  {
    var p, a, c, r := ClaimsWith(cs, Pending), ClaimsWith(cs, Approved), ClaimsWith(cs, Completed),
                      ClaimsWith(cs, Rejected);
    ClaimStatusesPartition(cs);
    FourSharesOfWhole(p, a, c, r, |cs|);
  }

  /** Four parts that make up a whole have percentages adding up to 100. */
  lemma FourSharesOfWhole(p: nat, a: nat, c: nat, r: nat, n: nat)
    requires n > 0 && p + a + c + r == n
    ensures Percent(p, n) + Percent(a, n) + Percent(c, n) + Percent(r, n) == 100.0
  {
    PercentsAdd(p, a, n);
    PercentsAdd(p + a, c, n);
    PercentsAdd(p + a + c, r, n);
    PercentOfWhole(n);
  }

  /** The whole is 100 percent of itself. */
  lemma PercentOfWhole(n: nat)
    requires n > 0
    ensures Percent(n, n) == 100.0
  {
    var t := n as real;
    assert t / t == 1.0;
  }
}
