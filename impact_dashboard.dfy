/** The impact dashboard (src/pages/ImpactDashboard.tsx): the metric totals,
    the claim-status counts and the figures its charts and cards show. */
module ImpactDashboardPage {
  import opened Common
  import opened FoodData
  import opened Tallies

  /** The accumulator of `totalMetrics`. */
  datatype Totals = Totals(
    wasteReduced: real, foodDonated: real, recipientsBenefited: real,
    co2Saved: real, mealsProvided: real, monetaryValue: real)

  const ZeroTotals := Totals(0.0, 0.0, 0.0, 0.0, 0.0, 0.0)

  /** The reducer: one metrics record added field by field. */
  function AddMetric(acc: Totals, m: FoodWasteMetric): Totals {
    Totals(acc.wasteReduced + m.wasteReduced, acc.foodDonated + m.foodDonated,
           acc.recipientsBenefited + m.recipientsBenefited, acc.co2Saved + m.co2Saved,
           acc.mealsProvided + m.mealsProvided, acc.monetaryValue + m.monetaryValue)
  }

  /** `ms.reduce(AddMetric, acc)`, left to right. */
  function Reduce(acc: Totals, ms: seq<FoodWasteMetric>): Totals
    decreases |ms|
  {
    if ms == [] then acc else Reduce(AddMetric(acc, ms[0]), ms[1..])
  }

  /** The left fold adds to its starting point the per-field sums of the records. */
  lemma {:induction false} ReduceIsSum(acc: Totals, ms: seq<FoodWasteMetric>)
    ensures var t := Reduce(acc, ms);
            t.wasteReduced == acc.wasteReduced + SumOf(ms, (m: FoodWasteMetric) => m.wasteReduced) &&
            t.foodDonated == acc.foodDonated + SumOf(ms, (m: FoodWasteMetric) => m.foodDonated) &&
            t.recipientsBenefited == acc.recipientsBenefited + SumOf(ms, (m: FoodWasteMetric) => m.recipientsBenefited) &&
            t.co2Saved == acc.co2Saved + SumOf(ms, (m: FoodWasteMetric) => m.co2Saved) &&
            t.mealsProvided == acc.mealsProvided + SumOf(ms, (m: FoodWasteMetric) => m.mealsProvided) &&
            t.monetaryValue == acc.monetaryValue + SumOf(ms, (m: FoodWasteMetric) => m.monetaryValue)
    decreases |ms|
  {
    if ms != [] {
      ReduceIsSum(AddMetric(acc, ms[0]), ms[1..]);
    }
  }

  /** `totalMetrics`: each field is the sum of that field over every record. */
  function TotalMetrics(ms: seq<FoodWasteMetric>): (t: Totals)
    ensures t.wasteReduced == SumOf(ms, (m: FoodWasteMetric) => m.wasteReduced)
    ensures t.foodDonated == SumOf(ms, (m: FoodWasteMetric) => m.foodDonated)
    ensures t.recipientsBenefited == SumOf(ms, (m: FoodWasteMetric) => m.recipientsBenefited)
    ensures t.co2Saved == SumOf(ms, (m: FoodWasteMetric) => m.co2Saved)
    ensures t.mealsProvided == SumOf(ms, (m: FoodWasteMetric) => m.mealsProvided)
    ensures t.monetaryValue == SumOf(ms, (m: FoodWasteMetric) => m.monetaryValue)
  {
    ReduceIsSum(ZeroTotals, ms);
    Reduce(ZeroTotals, ms)
  }

  /** With the provider's single seed record the totals are that record's figures. */
  lemma InitialTotals()
    ensures TotalMetrics(InitialMetrics) == Totals(150.0, 200.0, 45.0, 45.5, 180.0, 12500.0)
  {
    assert InitialMetrics[1..] == [];
  }

  /** `claimStats` */
  datatype ClaimStats = ClaimStats(pending: nat, approved: nat, completed: nat, rejected: nat)

  /** The four counts cover every claim exactly once. */
  function ClaimStatsOf(cs: seq<FoodClaim>): (r: ClaimStats)
    ensures r.pending + r.approved + r.completed + r.rejected == |cs|
    ensures r.approved == ClaimsWith(cs, Approved) && r.completed == ClaimsWith(cs, Completed)
    ensures r.pending == ClaimsWith(cs, Pending) && r.rejected == ClaimsWith(cs, Rejected)
  {
    ClaimStatusesPartition(cs);
    ClaimStats(ClaimsWith(cs, Pending), ClaimsWith(cs, Approved), ClaimsWith(cs, Completed), ClaimsWith(cs, Rejected))
  }

  /** The impact bar chart: CO2 saved, meals in fifties, recipients helped. */
  function ImpactChart(t: Totals): (r: seq<real>)
    ensures |r| == 3 && r[0] == t.co2Saved && r[1] * 50.0 == t.mealsProvided && r[2] == t.recipientsBenefited
  {
    [t.co2Saved, t.mealsProvided / 50.0, t.recipientsBenefited]
  }
}
