/** The admin report page (src/pages/AdminReports.tsx): platform totals, the
    listing-status table and the claim-status table with their percentages. */
module AdminReportsPage {
  import opened Common
  import opened FoodData
  import opened Tallies

  /** The listing-status table: counts and shares of available, distributed and
      expired listings. It has no row for claimed listings. */
  datatype ListingBreakdown = ListingBreakdown(
    available: nat, distributed: nat, expired: nat,
    availablePct: real, distributedPct: real, expiredPct: real)

  /** The claim-status table. */
  datatype ClaimBreakdown = ClaimBreakdown(
    pending: nat, approved: nat, completed: nat, rejected: nat,
    pendingPct: real, approvedPct: real, completedPct: real, rejectedPct: real)

  /** The summary cards and the two tables, before rounding. */
  datatype Report = Report(
    totalListings: nat, totalFood: real, totalClaims: nat, wasteReduced: real,
    listingTable: ListingBreakdown, claimTable: ClaimBreakdown)

  /** The three listing rows fall short of the total by exactly the claimed
      listings; each share lies between 0 and 100. */
  function ListingBreakdownOf(ls: seq<FoodListing>): (r: ListingBreakdown)
    ensures r.available + r.distributed + r.expired + ListingsWith(ls, Claimed) == |ls|
    ensures r.available == ListingsWith(ls, Available) && r.distributed == ListingsWith(ls, Distributed) &&
            r.expired == ListingsWith(ls, Expired)
    ensures 0.0 <= r.availablePct <= 100.0 && 0.0 <= r.distributedPct <= 100.0 && 0.0 <= r.expiredPct <= 100.0
    ensures r.availablePct == Percent(r.available, |ls|) && r.distributedPct == Percent(r.distributed, |ls|) &&
            r.expiredPct == Percent(r.expired, |ls|)
  {
    ListingStatusesPartition(ls);
    var av, di, ex := ListingsWith(ls, Available), ListingsWith(ls, Distributed), ListingsWith(ls, Expired);
    ListingBreakdown(av, di, ex, Percent(av, |ls|), Percent(di, |ls|), Percent(ex, |ls|))
  }

  /** The four claim rows cover every claim; their shares add up to 100, or are
      all 0 when there is no claim. */
  function ClaimBreakdownOf(cs: seq<FoodClaim>): (r: ClaimBreakdown)
    ensures r.pending + r.approved + r.completed + r.rejected == |cs|
    ensures r.pending == ClaimsWith(cs, Pending) && r.approved == ClaimsWith(cs, Approved) &&
            r.completed == ClaimsWith(cs, Completed) && r.rejected == ClaimsWith(cs, Rejected)
    ensures |cs| > 0 ==> r.pendingPct + r.approvedPct + r.completedPct + r.rejectedPct == 100.0
    ensures |cs| == 0 ==> r.pendingPct == 0.0 && r.approvedPct == 0.0 && r.completedPct == 0.0 && r.rejectedPct == 0.0
  {
    ClaimStatusesPartition(cs);
    var pe, ap, co, re := ClaimsWith(cs, Pending), ClaimsWith(cs, Approved), ClaimsWith(cs, Completed),
                          ClaimsWith(cs, Rejected);
    var r := ClaimBreakdown(pe, ap, co, re, Percent(pe, |cs|), Percent(ap, |cs|), Percent(co, |cs|), Percent(re, |cs|));
    assert |cs| > 0 ==> r.pendingPct + r.approvedPct + r.completedPct + r.rejectedPct == 100.0 by {
      if |cs| > 0 {
        ClaimPercentsSumTo100(cs);
      }
    }
    r
  }

  /** The report the page renders from the store. */
  function ReportOf(s: Store): (r: Report)
    ensures r.totalListings == |s.listings| && r.totalClaims == |s.claims|
    ensures r.totalFood == SumOf(s.listings, (l: FoodListing) => l.quantity)
    ensures r.wasteReduced == FirstMetric(s.metrics, (m: FoodWasteMetric) => m.wasteReduced)
    ensures r.listingTable == ListingBreakdownOf(s.listings) && r.claimTable == ClaimBreakdownOf(s.claims)
  {
    Report(|s.listings|, SumOf(s.listings, (l: FoodListing) => l.quantity), |s.claims|,
           FirstMetric(s.metrics, (m: FoodWasteMetric) => m.wasteReduced),
           ListingBreakdownOf(s.listings), ClaimBreakdownOf(s.claims))
  }

  /** The listing table's shares add up to at most 100. */
  lemma ListingSharesAtMost100(s: Store)
    ensures var t := ListingBreakdownOf(s.listings);
            t.availablePct + t.distributedPct + t.expiredPct <= 100.0
  {
    var t := ListingBreakdownOf(s.listings);
    var n := |s.listings|;
    if n > 0 {
      var cl := ListingsWith(s.listings, Claimed);
      FourSharesOfWhole(t.available, t.distributed, t.expired, cl, n);
      assert 0.0 <= Percent(cl, n);
    }
  }

  /** The report of the store on mount: two available listings of 80 units, no
      claims, and the seed record's 150 kg of waste reduced. */
  lemma InitialReport()
    ensures var r := ReportOf(InitialStore);
            r.totalListings == 2 && r.totalFood == 80.0 && r.totalClaims == 0 && r.wasteReduced == 150.0 &&
            r.listingTable.available == 2 && r.listingTable.availablePct == 100.0 &&
            r.listingTable.distributedPct == 0.0
  {
    assert InitialListings[1..][1..] == [];
  }
}
