/** The landing dashboard (src/pages/Dashboard.tsx): the four summary cards
    and the panel shown for the user's role. Each panel reads the whole store,
    not the signed-in user's share of it. */
module DashboardPage {
  import opened Common
  import opened Auth
  import opened FoodData
  import opened Tallies
  import opened BrowsePage

  /** The reducer of `totalFoodAvailable`: a listing's quantity if it is available. */
  function AvailableQuantity(l: FoodListing): real {
    if l.status == Available then l.quantity else 0.0
  }

  /** The reducer of the donor panel: a listing's quantity if it was distributed. */
  function DistributedQuantity(l: FoodListing): real {
    if l.status == Distributed then l.quantity else 0.0
  }

  /** Summing the available quantities over all listings is summing the quantities
      of the listings the browsing page offers. */
  lemma {:induction false} AvailableFoodIsOffered(ls: seq<FoodListing>)
    ensures SumOf(ls, AvailableQuantity) == SumOf(AvailableListings(ls), (l: FoodListing) => l.quantity)
  {
    if ls != [] {
      AvailableFoodIsOffered(ls[1..]);
      if ls[0].status == Available {
        assert AvailableListings(ls) == [ls[0]] + AvailableListings(ls[1..]);
        assert ([ls[0]] + AvailableListings(ls[1..]))[1..] == AvailableListings(ls[1..]);
      }
    }
  }

  /** The summary cards. "Active Claims" shows every claim, of any status. */
  datatype Summary = Summary(
    foodAvailable: real, availableListings: nat, activeClaims: nat, pendingClaims: nat,
    completedClaims: nat, wasteReduced: real)

  function SummaryOf(s: Store): (r: Summary)
    ensures r.foodAvailable == SumOf(AvailableListings(s.listings), (l: FoodListing) => l.quantity)
    ensures r.availableListings == |AvailableListings(s.listings)| && r.availableListings <= |s.listings|
    ensures r.activeClaims == |s.claims|
    ensures r.pendingClaims + r.completedClaims <= r.activeClaims
    ensures r.completedClaims == ClaimsWith(s.claims, Completed) && r.pendingClaims == ClaimsWith(s.claims, Pending)
    ensures r.wasteReduced == FirstMetric(s.metrics, (m: FoodWasteMetric) => m.wasteReduced)
  {
    AvailableFoodIsOffered(s.listings);
    ClaimStatusesPartition(s.claims);
    Summary(SumOf(s.listings, AvailableQuantity), |AvailableListings(s.listings)|, |s.claims|,
            ClaimsWith(s.claims, Pending), ClaimsWith(s.claims, Completed),
            FirstMetric(s.metrics, (m: FoodWasteMetric) => m.wasteReduced))
  }

  /** The role panels (`DonorDashboard`, `RecipientDashboard`, `AnalystDashboard`,
      `AdminDashboard`). */
  datatype Panel =
    | DonorPanel(activeListings: nat, foodDonated: real)
    | RecipientPanel(totalClaims: nat, approved: nat, completed: nat)
    | AnalystPanel(wasteReduced: real, foodDonated: real, peopleBenefited: real)
    | AdminPanel(totalListings: nat, totalClaims: nat, pendingModeration: nat)

  /** The panel shown under the cards: none without a role. The donor panel counts
      every donor's listings and the recipient panel every recipient's claims. */
  function PanelFor(s: Store, user: Option<User>): (r: Option<Panel>)
    ensures r.None? <==> user.None? || user.value.role.None?
    ensures r.Some? && r.value.DonorPanel? ==>
              user.value.role == Some(Donor) &&
              r.value.activeListings == |AvailableListings(s.listings)| &&
              r.value.foodDonated == SumOf(s.listings, DistributedQuantity)
    ensures r.Some? && r.value.RecipientPanel? ==>
              user.value.role == Some(Recipient) &&
              r.value.totalClaims == |s.claims| &&
              r.value.approved == ClaimsWith(s.claims, Approved) &&
              r.value.completed == ClaimsWith(s.claims, Completed) &&
              r.value.approved + r.value.completed <= r.value.totalClaims
    ensures r.Some? && r.value.AnalystPanel? ==>
              user.value.role == Some(Analyst) &&
              r.value.wasteReduced == FirstMetric(s.metrics, (m: FoodWasteMetric) => m.wasteReduced) &&
              r.value.foodDonated == FirstMetric(s.metrics, (m: FoodWasteMetric) => m.foodDonated) &&
              r.value.peopleBenefited == FirstMetric(s.metrics, (m: FoodWasteMetric) => m.recipientsBenefited)
    ensures r.Some? && r.value.AdminPanel? ==>
              user.value.role == Some(Admin) &&
              r.value.totalListings == |s.listings| && r.value.totalClaims == |s.claims| &&
              r.value.pendingModeration == ClaimsWith(s.claims, Pending)
  {
    if user.None? || user.value.role.None? then None
    else
      ClaimStatusesPartition(s.claims);
      match user.value.role.value
      case Donor => Some(DonorPanel(|AvailableListings(s.listings)|, SumOf(s.listings, DistributedQuantity)))
      case Recipient => Some(RecipientPanel(|s.claims|, ClaimsWith(s.claims, Approved), ClaimsWith(s.claims, Completed)))
      case Analyst => Some(AnalystPanel(FirstMetric(s.metrics, (m: FoodWasteMetric) => m.wasteReduced),
                                        FirstMetric(s.metrics, (m: FoodWasteMetric) => m.foodDonated),
                                        FirstMetric(s.metrics, (m: FoodWasteMetric) => m.recipientsBenefited)))
      case Admin => Some(AdminPanel(|s.listings|, |s.claims|, ClaimsWith(s.claims, Pending)))
  }

  /** Two donors see the same donor panel: it does not depend on who is signed in. */
  lemma DonorPanelIgnoresDonor(s: Store, u1: User, u2: User)
    requires u1.role == Some(Donor) && u2.role == Some(Donor)
    ensures PanelFor(s, Some(u1)) == PanelFor(s, Some(u2))
  {
  }

  /** On mount the cards show the two seed listings' 80 units and no claims. */
  lemma InitialSummary()
    ensures SummaryOf(InitialStore) == Summary(80.0, 2, 0, 0, 0, 150.0)
  {
    assert InitialListings[1..][1..] == [];
    assert AvailableListings(InitialListings) == InitialListings;
  }
}
