/** `FoodDataProvider` (src/contexts/FoodDataContext.tsx): the object holding
    the frontend's listings, claims, deliveries and metrics, whose operations
    replace those arrays. `Date.now()` and `new Date().toISOString()` are
    the `id`, `today` and `now` parameters. */
module Provider {
  import opened Common
  import opened FoodData
  import opened Lifecycle

  class FoodDataProvider {
    var listings: seq<FoodListing>
    var claims: seq<FoodClaim>
    var deliveries: seq<DeliveryTracking>
    /** Read-only state: the provider offers no way to change it. */
    const metrics: seq<FoodWasteMetric>

    /** The four arrays as one value. */
    function State(): Store
      reads this
    {
      Store(listings, claims, deliveries, metrics)
    }

    /** Mounting the provider: the two seed listings, the seed metrics, nothing else. */
    constructor ()
      ensures State() == InitialStore
      ensures EmbeddedInSync(State()) && DeliveriesResolve(State())
    {
      listings := InitialListings;
      claims := [];
      deliveries := [];
      metrics := InitialMetrics;
      new;
      InitialStoreInSync();
    }

    method AddListing(d: ListingDraft, id: string, today: string)
      modifies this
      ensures State() == AddListingStep(old(State()), d, id, today)
    {
      listings := listings + [NewListing(d, id, today)];
    }

    method UpdateListing(id: string, p: ListingPatch)
      modifies this
      ensures State() == UpdateListingStep(old(State()), id, p)
      ensures p.claims.None? && EmbeddedInSync(old(State())) ==> EmbeddedInSync(State())
    {
      ghost var s := State();
      listings := UpdateListings(listings, id, p);
      if p.claims.None? && EmbeddedInSync(s) {
        UpdateListingKeepsCopiesInSync(s, id, p);
      }
    }

    method DeleteListing(id: string)
      modifies this
      ensures State() == DeleteListingStep(old(State()), id)
      ensures EmbeddedInSync(old(State())) ==> EmbeddedInSync(State())
    {
      ghost var s := State();
      listings := DeleteListings(listings, id);
      if EmbeddedInSync(s) {
        DeleteListingKeepsCopiesInSync(s, id);
      }
    }

    method ClaimFood(listingId: string, quantity: real, recipientId: string, recipientName: string,
                     id: string, today: string)
      modifies this
      ensures State() == ClaimFoodStep(old(State()), listingId, quantity, recipientId, recipientName, id, today)
      ensures FreshClaimId(old(claims), id) && EmbeddedInSync(old(State())) ==> EmbeddedInSync(State())
    {
      ghost var s := State();
      var c := NewClaim(listingId, quantity, recipientId, recipientName, id, today);
      claims := claims + [c];
      listings := AttachClaim(listings, listingId, c);
      if FreshClaimId(s.claims, id) && EmbeddedInSync(s) {
        ClaimFoodKeepsCopiesInSync(s, listingId, quantity, recipientId, recipientName, id, today);
      }
    }

    method UpdateClaim(claimId: string, status: ClaimStatus, id: string, now: string)
      modifies this
      ensures State() == UpdateClaimStep(old(State()), claimId, status, id, now)
      ensures EmbeddedInSync(old(State())) ==> EmbeddedInSync(State())
      ensures AtMostOneDeliveryPerClaim(old(deliveries)) ==> AtMostOneDeliveryPerClaim(deliveries)
      ensures DeliveriesResolve(old(State())) ==> DeliveriesResolve(State())
    {
      ghost var s := State();
      var known := FindClaim(claims, claimId).Some?;
      var scheduled := HasDeliveryFor(deliveries, claimId);
      claims := SetClaimStatus(claims, claimId, status);
      listings := RecomputeListings(listings, claimId, status);
      if status == Approved && known && !scheduled {
        deliveries := deliveries + [ScheduledDelivery(claimId, 0.0, id, now)];
      }
      assert State() == UpdateClaimStep(s, claimId, status, id, now);
      UpdateClaimKeepsInvariants(s, claimId, status, id, now);
    }

    method CreateDelivery(claimId: string, distance: real, id: string, now: string)
      modifies this
      ensures State() == CreateDeliveryStep(old(State()), claimId, distance, id, now)
    {
      deliveries := deliveries + [ScheduledDelivery(claimId, distance, id, now)];
    }

    method UpdateDelivery(deliveryId: string, p: DeliveryPatch)
      modifies this
      ensures State() == UpdateDeliveryStep(old(State()), deliveryId, p)
    {
      deliveries := UpdateDeliveries(deliveries, deliveryId, p);
    }

    /** `getDeliveriesByClaim(claimId)`: the first delivery of the claim, if any. */
    function GetDeliveriesByClaim(claimId: string): (r: Option<DeliveryTracking>)
      reads this
      ensures r.None? <==> !HasDeliveryFor(deliveries, claimId)
      ensures r.Some? ==> exists i :: 0 <= i < |deliveries| && deliveries[i] == r.value &&
                                      r.value.claimId == claimId &&
                                      forall j :: 0 <= j < i ==> deliveries[j].claimId != claimId
      ensures r.Some? && AtMostOneDeliveryPerClaim(deliveries) ==>
                forall i :: 0 <= i < |deliveries| && deliveries[i].claimId == claimId ==> deliveries[i] == r.value
    {
      FindDeliveryFor(deliveries, claimId)
    }

    /** `getMetrics()` */
    function GetMetrics(): seq<FoodWasteMetric>
      reads this
    {
      metrics
    }
  }
}
