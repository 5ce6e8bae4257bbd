/** The donor's certificate page (src/pages/ImpactCertificates.tsx): the
    figures printed on the certificate. */
module CertificatesPage {
  import opened Common
  import opened Auth
  import opened FoodData

  /** `donorListings`: the listings whose donor id is the user's. */
  function DonorListings(ls: seq<FoodListing>, user: Option<User>): (r: seq<FoodListing>)
    ensures forall l :: l in r <==> l in ls && Some(l.donorId) == IdOf(user)
    ensures user.None? ==> r == []
  {
    Filter(ls, (l: FoodListing) => Some(l.donorId) == IdOf(user))
  }

  /** `listings.find(...)?.donorId` */
  function DonorOfClaim(ls: seq<FoodListing>, c: FoodClaim): Option<string> {
    match FindListing(ls, c.listingId)
    case Some(l) => Some(l.donorId)
    case None => None
  }

  /** `completedClaims`: completed claims on the user's listings. Both sides of
      `listing?.donorId === user?.id` are `undefined` for a signed-out visitor
      and a claim whose listing is gone, so those count as well. */
  function CompletedClaims(s: Store, user: Option<User>): (r: seq<FoodClaim>)
    ensures forall c :: c in r <==> c in s.claims && c.status == Completed && DonorOfClaim(s.listings, c) == IdOf(user)
    ensures |r| <= |s.claims|
  {
    Filter(s.claims, (c: FoodClaim) => DonorOfClaim(s.listings, c) == IdOf(user) && c.status == Completed)
  }

  /** The certificate's figures: food listed, estimated value in rupees, CO2
      saved in kilograms and recipients served. */
  datatype Certificate = Certificate(totalFood: real, totalValue: int, co2Saved: real, recipientsServed: nat)

  /** Food is summed over the donor's listings whatever their status; value and
      CO2 are 250 and 2.5 per completed claim; recipients served are the distinct
      claimant ids of the completed claims, so never more than those claims. */
  function CertificateOf(s: Store, user: Option<User>): (r: Certificate)
    ensures r.totalFood == SumOf(DonorListings(s.listings, user), (l: FoodListing) => l.quantity)
    ensures r.totalValue == 250 * |CompletedClaims(s, user)| && r.totalValue >= 0
    ensures r.co2Saved == 2.5 * (|CompletedClaims(s, user)| as real)
    ensures r.co2Saved * 100.0 == r.totalValue as real
    ensures r.recipientsServed == |Image(CompletedClaims(s, user), (c: FoodClaim) => c.recipientId)|
    ensures r.recipientsServed <= |CompletedClaims(s, user)|
    ensures r.recipientsServed == 0 <==> |CompletedClaims(s, user)| == 0
  {
    var done := CompletedClaims(s, user);
    var n := |done|;
    var served := Image(done, (c: FoodClaim) => c.recipientId);
    ImageSize(done, (c: FoodClaim) => c.recipientId);
    assert n > 0 ==> done[0].recipientId in served;
    Certificate(SumOf(DonorListings(s.listings, user), (l: FoodListing) => l.quantity), n * 250, (n as real) * 2.5,
                |served|)
  }

  /** A signed-in donor's food total is summed over exactly the listings with their id. */
  lemma {:induction false} TotalFoodIsOwnListings(ls: seq<FoodListing>, u: User)
    ensures SumOf(DonorListings(ls, Some(u)), (l: FoodListing) => l.quantity) ==
            SumOf(ls, (l: FoodListing) => if l.donorId == u.id then l.quantity else 0.0)
  {
    if ls != [] {
      TotalFoodIsOwnListings(ls[1..], u);
      if ls[0].donorId == u.id {
        assert DonorListings(ls, Some(u)) == [ls[0]] + DonorListings(ls[1..], Some(u));
        assert ([ls[0]] + DonorListings(ls[1..], Some(u)))[1..] == DonorListings(ls[1..], Some(u));
      }
    }
  }

  /** A signed-out visitor's certificate lists no food, yet values every completed
      claim whose listing was deleted. */
  lemma SignedOutCountsOrphanedClaims()
    ensures var c := FoodClaim("c1", "gone", "r1", "Rita", 2.0, Completed, "2026-01-21", None);
            var s := Store(InitialListings, [c], [], InitialMetrics);
            CertificateOf(s, None) == Certificate(0.0, 250, 2.5, 1)
  {
    var c := FoodClaim("c1", "gone", "r1", "Rita", 2.0, Completed, "2026-01-21", None);
    var s := Store(InitialListings, [c], [], InitialMetrics);
    assert InitialListings[0].id == "1" && InitialListings[1].id == "2";
    assert DonorOfClaim(s.listings, c).None?;
    assert CompletedClaims(s, None) == [c] by {
      assert [c][1..] == [];
    }
    assert DonorListings(s.listings, None) == [];
    assert Image([c], (c: FoodClaim) => c.recipientId) == {"r1"};
  }
}
