/** The records of the frontend store and the pure next-state functions of
    every operation of `FoodDataProvider` (src/contexts/FoodDataContext.tsx).
    The provider replaces whole arrays (`setListings([...])`); each function
    below builds the next array or the next `Store` from the current one. */
module FoodData {
  import opened Common

  datatype ListingStatus = Available | Claimed | Distributed | Expired
  datatype ClaimStatus = Pending | Approved | Rejected | Completed
  datatype DeliveryStatus = Scheduled | InTransit | Delivered | Failed

  datatype FoodClaim = FoodClaim(
    id: string, listingId: string, recipientId: string, recipientName: string,
    quantity: real, status: ClaimStatus, claimedAt: string, message: Option<string>)

  /** `claims` is the denormalised copy of the listing's claims; it may be absent. */
  datatype FoodListing = FoodListing(
    id: string, title: string, description: string, quantity: real, unit: string,
    category: string, expiryDate: string, location: string,
    latitude: Option<real>, longitude: Option<real>, donorId: string, donorName: string,
    status: ListingStatus, image: Option<string>, createdAt: string,
    claims: Option<seq<FoodClaim>>)

  /** What a caller of `addListing` supplies: `Omit<FoodListing, 'id' | 'createdAt'>`. */
  datatype ListingDraft = ListingDraft(
    title: string, description: string, quantity: real, unit: string,
    category: string, expiryDate: string, location: string,
    latitude: Option<real>, longitude: Option<real>, donorId: string, donorName: string,
    status: ListingStatus, image: Option<string>, claims: Option<seq<FoodClaim>>)

  /** `Partial<FoodListing>`: `None` is a key the update object does not carry. */
  datatype ListingPatch = ListingPatch(
    id: Option<string>, title: Option<string>, description: Option<string>,
    quantity: Option<real>, unit: Option<string>, category: Option<string>,
    expiryDate: Option<string>, location: Option<string>,
    latitude: Option<real>, longitude: Option<real>, donorId: Option<string>,
    donorName: Option<string>, status: Option<ListingStatus>, image: Option<string>,
    createdAt: Option<string>, claims: Option<seq<FoodClaim>>)

  datatype DeliveryTracking = DeliveryTracking(
    id: string, claimId: string, status: DeliveryStatus, pickupTime: Option<string>,
    deliveryTime: Option<string>, distance: real, route: Option<string>,
    proofPhotos: seq<string>, notes: Option<string>)

  /** `Partial<DeliveryTracking>` */
  datatype DeliveryPatch = DeliveryPatch(
    id: Option<string>, claimId: Option<string>, status: Option<DeliveryStatus>,
    pickupTime: Option<string>, deliveryTime: Option<string>, distance: Option<real>,
    route: Option<string>, proofPhotos: Option<seq<string>>, notes: Option<string>)

  datatype CategoryWaste = CategoryWaste(category: string, amount: real)

  datatype FoodWasteMetric = FoodWasteMetric(
    date: string, wasteReduced: real, foodDonated: real, recipientsBenefited: real,
    co2Saved: real, mealsProvided: real, monetaryValue: real,
    categoriesWaste: seq<CategoryWaste>)

  /** The four collections the provider holds. */
  datatype Store = Store(
    listings: seq<FoodListing>, claims: seq<FoodClaim>,
    deliveries: seq<DeliveryTracking>, metrics: seq<FoodWasteMetric>)

  /** The two listings the provider starts with. */
  const InitialListings: seq<FoodListing> := [
    FoodListing("1", "Fresh Vegetables", "Assorted fresh vegetables from local farm", 50.0, "kg",
                "Vegetables", "2026-01-25", "Connaught Place, New Delhi", Some(28.6328), Some(77.1197),
                "donor1", "Haryana Organic Farms", Available, None, "2026-01-20", Some([])),
    FoodListing("2", "Bakery Items", "Day-old bread and pastries", 30.0, "items",
                "Bakery", "2026-01-21", "Bandra, Mumbai", Some(19.0596), Some(72.8295),
                "donor2", "Mumbai Bakery House", Available, None, "2026-01-20", Some([]))
  ]

  /** The single metrics record the provider starts with (never updated). */
  const InitialMetrics: seq<FoodWasteMetric> := [
    FoodWasteMetric("2026-01-20", 150.0, 200.0, 45.0, 45.5, 180.0, 12500.0,
                    [CategoryWaste("Vegetables", 50.0), CategoryWaste("Bakery", 40.0),
                     CategoryWaste("Dairy", 30.0), CategoryWaste("Grains", 30.0)])
  ]

  /** The store on mount: no claims and no deliveries. */
  const InitialStore := Store(InitialListings, [], [], InitialMetrics)

  const NoListingChanges := ListingPatch(None, None, None, None, None, None, None, None,
                                         None, None, None, None, None, None, None, None)

  const NoDeliveryChanges := DeliveryPatch(None, None, None, None, None, None, None, None, None)

  // ---------------------------------------------------------------- lookups

  /** `listings.find(l => l.id === id)`: the first listing with that id. */
  function FindListing(ls: seq<FoodListing>, id: string): (r: Option<FoodListing>)
    ensures r.None? <==> forall i :: 0 <= i < |ls| ==> ls[i].id != id
    ensures r.Some? ==> r.value in ls && r.value.id == id
    ensures forall i :: 0 <= i < |ls| && ls[i].id == id && (forall j :: 0 <= j < i ==> ls[j].id != id) ==>
              r == Some(ls[i])
  {
    if ls == [] then None
    else if ls[0].id == id then Some(ls[0])
    else
      var r := FindListing(ls[1..], id);
      assert forall i :: 1 <= i < |ls| ==> ls[i] == ls[1..][i - 1];
      r
  }

  /** `claims.find(c => c.id === id)`: the first claim with that id. */
  function FindClaim(cs: seq<FoodClaim>, id: string): (r: Option<FoodClaim>)
    ensures r.None? <==> forall i :: 0 <= i < |cs| ==> cs[i].id != id
    ensures r.Some? ==> r.value in cs && r.value.id == id
    ensures forall i :: 0 <= i < |cs| && cs[i].id == id && (forall j :: 0 <= j < i ==> cs[j].id != id) ==>
              r == Some(cs[i])
  {
    if cs == [] then None
    else if cs[0].id == id then Some(cs[0])
    else
      var r := FindClaim(cs[1..], id);
      assert forall i :: 1 <= i < |cs| ==> cs[i] == cs[1..][i - 1];
      r
  }

  /** `deliveries.find(d => d.claimId === claimId)`: the first delivery of that claim. */
  function FindDeliveryFor(ds: seq<DeliveryTracking>, claimId: string): (r: Option<DeliveryTracking>)
    ensures r.None? <==> forall i :: 0 <= i < |ds| ==> ds[i].claimId != claimId
    ensures r.Some? ==> exists i :: 0 <= i < |ds| && ds[i] == r.value && r.value.claimId == claimId &&
                                    forall j :: 0 <= j < i ==> ds[j].claimId != claimId
  {
    if ds == [] then None
    else if ds[0].claimId == claimId then Some(ds[0])
    else
      var r := FindDeliveryFor(ds[1..], claimId);
      assert r.Some? ==> exists i :: 1 <= i < |ds| && ds[i] == r.value && r.value.claimId == claimId &&
                                     forall j :: 0 <= j < i ==> ds[j].claimId != claimId by {
        if r.Some? {
          var i :| 0 <= i < |ds[1..]| && ds[1..][i] == r.value &&
                   forall j :: 0 <= j < i ==> ds[1..][j].claimId != claimId;
          assert ds[i + 1] == r.value;
          assert forall j :: 1 <= j < i + 1 ==> ds[j].claimId == ds[1..][j - 1].claimId;
        }
      }
      r
  }

  /** `deliveries.some(d => d.claimId === claimId)` */
  predicate HasDeliveryFor(ds: seq<DeliveryTracking>, claimId: string) {
    exists i :: 0 <= i < |ds| && ds[i].claimId == claimId
  }

  // ------------------------------------------------------------- listings

  /** `{ ...listing, id, createdAt }` */
  function NewListing(d: ListingDraft, id: string, createdAt: string): (l: FoodListing)
    ensures l.id == id && l.createdAt == createdAt
    ensures DraftOf(l) == d
  {
    FoodListing(id, d.title, d.description, d.quantity, d.unit, d.category, d.expiryDate,
                d.location, d.latitude, d.longitude, d.donorId, d.donorName, d.status,
                d.image, createdAt, d.claims)
  }

  /** The caller-supplied part of a listing. */
  function DraftOf(l: FoodListing): ListingDraft {
    ListingDraft(l.title, l.description, l.quantity, l.unit, l.category, l.expiryDate,
                 l.location, l.latitude, l.longitude, l.donorId, l.donorName, l.status,
                 l.image, l.claims)
  }

  /** A listing is its draft plus the id and the date `addListing` adds. */
  lemma ListingFromDraft(l: FoodListing)
    ensures NewListing(DraftOf(l), l.id, l.createdAt) == l
  {
  }

  /** `{ ...l, ...updates }` */
  function MergeListing(l: FoodListing, p: ListingPatch): (r: FoodListing)
    ensures p == NoListingChanges ==> r == l
    ensures r.status == p.status.GetOr(l.status) && r.claims == (if p.claims.Some? then p.claims else l.claims)
  {
    FoodListing(p.id.GetOr(l.id), p.title.GetOr(l.title), p.description.GetOr(l.description),
                p.quantity.GetOr(l.quantity), p.unit.GetOr(l.unit), p.category.GetOr(l.category),
                p.expiryDate.GetOr(l.expiryDate), p.location.GetOr(l.location),
                if p.latitude.Some? then p.latitude else l.latitude,
                if p.longitude.Some? then p.longitude else l.longitude,
                p.donorId.GetOr(l.donorId), p.donorName.GetOr(l.donorName),
                p.status.GetOr(l.status), if p.image.Some? then p.image else l.image,
                p.createdAt.GetOr(l.createdAt), if p.claims.Some? then p.claims else l.claims)
  }

  /** Applying the same update twice is applying it once. */
  lemma MergeListingIdempotent(l: FoodListing, p: ListingPatch)
    ensures MergeListing(MergeListing(l, p), p) == MergeListing(l, p)
  {
  }

  /** `listings.map(l => l.id === id ? { ...l, ...updates } : l)` */
  function UpdateListings(ls: seq<FoodListing>, id: string, p: ListingPatch): (r: seq<FoodListing>)
    ensures |r| == |ls|
    ensures forall i :: 0 <= i < |ls| && ls[i].id == id ==> r[i] == MergeListing(ls[i], p)
    ensures forall i :: 0 <= i < |ls| && ls[i].id != id ==> r[i] == ls[i]
    ensures (forall i :: 0 <= i < |ls| ==> ls[i].id != id) ==> r == ls
  {
    Map(ls, (l: FoodListing) => if l.id == id then MergeListing(l, p) else l)
  }

  /** `listings.filter(l => l.id !== id)` */
  function DeleteListings(ls: seq<FoodListing>, id: string): (r: seq<FoodListing>)
    ensures forall l :: l in r <==> l in ls && l.id != id
    ensures IsSubsequence(r, ls)
  {
    Filter(ls, (l: FoodListing) => l.id != id)
  }

  // --------------------------------------------------------------- claims

  /** `l.claims || []` */
  function ClaimsOf(l: FoodListing): seq<FoodClaim> {
    l.claims.GetOr([])
  }

  /** The claim `claimFood` builds. */
  function NewClaim(listingId: string, quantity: real, recipientId: string, recipientName: string,
                    id: string, claimedAt: string): FoodClaim
  {
    FoodClaim(id, listingId, recipientId, recipientName, quantity, Pending, claimedAt, None)
  }

  /** `listings.map(l => l.id === listingId ? { ...l, claims: [...(l.claims || []), c] } : l)` */
  function AttachClaim(ls: seq<FoodListing>, listingId: string, c: FoodClaim): (r: seq<FoodListing>)
    ensures |r| == |ls|
    ensures forall i :: 0 <= i < |ls| && ls[i].id == listingId ==>
              r[i] == ls[i].(claims := Some(ClaimsOf(ls[i]) + [c]))
    ensures forall i :: 0 <= i < |ls| && ls[i].id != listingId ==> r[i] == ls[i]
  {
    Map(ls, (l: FoodListing) => if l.id == listingId then l.(claims := Some(ClaimsOf(l) + [c])) else l)
  }

  /** `claims.map(c => c.id === claimId ? { ...c, status } : c)` */
  function SetClaimStatus(cs: seq<FoodClaim>, claimId: string, status: ClaimStatus): (r: seq<FoodClaim>)
    ensures |r| == |cs|
    ensures forall i :: 0 <= i < |cs| ==> r[i].(status := cs[i].status) == cs[i]
    ensures forall i :: 0 <= i < |cs| ==> r[i].status == if cs[i].id == claimId then status else cs[i].status
    ensures forall i :: 0 <= i < |cs| ==> r[i] == if cs[i].id == claimId then cs[i].(status := status) else cs[i]
  {
    Map(cs, (c: FoodClaim) => if c.id == claimId then c.(status := status) else c)
  }

  /** `updatedClaims.some(c => c.status === 'approved' || c.status === 'pending')` */
  predicate HasActiveClaim(cs: seq<FoodClaim>) {
    exists i :: 0 <= i < |cs| && (cs[i].status == Approved || cs[i].status == Pending)
  }

  /** The derived listing status of `updateClaim`, computed from the updated embedded claims. */
  function NextListingStatus(current: ListingStatus, updated: seq<FoodClaim>, status: ClaimStatus): (r: ListingStatus)
    ensures status == Approved ==> r == Claimed
    ensures status == Completed ==> r == Distributed
    ensures status == Pending ==> r == current
    ensures status == Rejected ==> (r != current <==> current == Claimed && !HasActiveClaim(updated))
    ensures status == Rejected && r != current ==> r == Available
  {
    match status
    case Approved => Claimed
    case Completed => Distributed
    case Rejected => if !HasActiveClaim(updated) && current == Claimed then Available else current
    case Pending => current
  }

  /** The per-listing step of `updateClaim`: a listing without embedded claims is returned as is. */
  function RecomputeListing(l: FoodListing, claimId: string, status: ClaimStatus): (r: FoodListing)
    ensures l.claims.None? || l.claims.value == [] ==> r == l
    ensures l.claims.Some? && l.claims.value != [] ==>
              r == l.(claims := Some(SetClaimStatus(l.claims.value, claimId, status)),
                      status := NextListingStatus(l.status, SetClaimStatus(l.claims.value, claimId, status), status))
  {
    if l.claims.None? || |l.claims.value| == 0 then l
    else
      var updated := SetClaimStatus(l.claims.value, claimId, status);
      l.(claims := Some(updated), status := NextListingStatus(l.status, updated, status))
  }

  /** `prevListings.map(...)` of `updateClaim`: every listing, not only the claim's own. */
  function RecomputeListings(ls: seq<FoodListing>, claimId: string, status: ClaimStatus): (r: seq<FoodListing>)
    ensures |r| == |ls|
    ensures forall i :: 0 <= i < |ls| ==> r[i] == RecomputeListing(ls[i], claimId, status)
  {
    Map(ls, (l: FoodListing) => RecomputeListing(l, claimId, status))
  }

  // ----------------------------------------------------------- deliveries

  /** The record `createDelivery` and the approval of a claim append. */
  function ScheduledDelivery(claimId: string, distance: real, id: string, now: string): DeliveryTracking {
    DeliveryTracking(id, claimId, Scheduled, Some(now), None, distance, None, [], None)
  }

  /** Step 3 of `updateClaim`: schedule a delivery the first time an existing claim is approved. */
  function DeliveriesAfterUpdate(cs: seq<FoodClaim>, ds: seq<DeliveryTracking>, claimId: string,
                                 status: ClaimStatus, id: string, now: string): (r: seq<DeliveryTracking>)
    ensures |r| == |ds| || |r| == |ds| + 1
    ensures r[..|ds|] == ds
    ensures |r| == |ds| + 1 <==> status == Approved && FindClaim(cs, claimId).Some? && !HasDeliveryFor(ds, claimId)
    ensures |r| == |ds| + 1 ==>
              r[|ds|].claimId == claimId && r[|ds|].status == Scheduled && r[|ds|].distance == 0.0 &&
              r[|ds|].proofPhotos == [] && r[|ds|].pickupTime == Some(now) && r[|ds|].id == id
  {
    if status == Approved && FindClaim(cs, claimId).Some? && !HasDeliveryFor(ds, claimId)
    then ds + [ScheduledDelivery(claimId, 0.0, id, now)]
    else ds
  }

  /** `{ ...d, ...updates }` */
  function MergeDelivery(d: DeliveryTracking, p: DeliveryPatch): (r: DeliveryTracking)
    ensures p == NoDeliveryChanges ==> r == d
    ensures r.status == p.status.GetOr(d.status)
    ensures p.deliveryTime.None? ==> r.deliveryTime == d.deliveryTime
  {
    DeliveryTracking(p.id.GetOr(d.id), p.claimId.GetOr(d.claimId), p.status.GetOr(d.status),
                     if p.pickupTime.Some? then p.pickupTime else d.pickupTime,
                     if p.deliveryTime.Some? then p.deliveryTime else d.deliveryTime,
                     p.distance.GetOr(d.distance), if p.route.Some? then p.route else d.route,
                     p.proofPhotos.GetOr(d.proofPhotos), if p.notes.Some? then p.notes else d.notes)
  }

  /** `deliveries.map(d => d.id === deliveryId ? { ...d, ...updates } : d)` */
  function UpdateDeliveries(ds: seq<DeliveryTracking>, id: string, p: DeliveryPatch): (r: seq<DeliveryTracking>)
    ensures |r| == |ds|
    ensures forall i :: 0 <= i < |ds| && ds[i].id == id ==> r[i] == MergeDelivery(ds[i], p)
    ensures forall i :: 0 <= i < |ds| && ds[i].id != id ==> r[i] == ds[i]
  {
    Map(ds, (d: DeliveryTracking) => if d.id == id then MergeDelivery(d, p) else d)
  }

  // ------------------------------------------------------ provider steps

  /** `addListing(listing)`, with the id and the date `Date.now()` would give. */
  function AddListingStep(s: Store, d: ListingDraft, id: string, today: string): (r: Store)
    ensures |r.listings| == |s.listings| + 1 && r.listings[..|s.listings|] == s.listings
    ensures r.listings[|s.listings|].id == id && r.listings[|s.listings|].createdAt == today
    ensures DraftOf(r.listings[|s.listings|]) == d
    ensures r.claims == s.claims && r.deliveries == s.deliveries && r.metrics == s.metrics
  {
    s.(listings := s.listings + [NewListing(d, id, today)])
  }

  /** `updateListing(id, updates)`: a silent no-op when no listing has that id. */
  function UpdateListingStep(s: Store, id: string, p: ListingPatch): (r: Store)
    ensures |r.listings| == |s.listings|
    ensures forall i :: 0 <= i < |s.listings| && s.listings[i].id == id ==>
              r.listings[i] == MergeListing(s.listings[i], p)
    ensures forall i :: 0 <= i < |s.listings| && s.listings[i].id != id ==> r.listings[i] == s.listings[i]
    ensures FindListing(s.listings, id).None? ==> r == s
    ensures p.status.Some? ==>
              forall i :: 0 <= i < |s.listings| && s.listings[i].id == id ==> r.listings[i].status == p.status.value
    ensures r.claims == s.claims && r.deliveries == s.deliveries && r.metrics == s.metrics
  {
    s.(listings := UpdateListings(s.listings, id, p))
  }

  /** `deleteListing(id)`: claims and deliveries are left alone, so they may dangle. */
  function DeleteListingStep(s: Store, id: string): (r: Store)
    ensures forall l :: l in r.listings <==> l in s.listings && l.id != id
    ensures IsSubsequence(r.listings, s.listings)
    ensures FindListing(r.listings, id).None?
    ensures r.claims == s.claims && r.deliveries == s.deliveries && r.metrics == s.metrics
  {
    s.(listings := DeleteListings(s.listings, id))
  }

  /** `claimFood(listingId, quantity, recipientId, recipientName)`; the listing is not looked up first. */
  function ClaimFoodStep(s: Store, listingId: string, quantity: real, recipientId: string,
                         recipientName: string, id: string, today: string): (r: Store)
    ensures |r.claims| == |s.claims| + 1 && r.claims[..|s.claims|] == s.claims
    ensures r.claims[|s.claims|] == FoodClaim(id, listingId, recipientId, recipientName, quantity,
                                              Pending, today, None)
    ensures |r.listings| == |s.listings|
    ensures forall i :: 0 <= i < |s.listings| && s.listings[i].id == listingId ==>
              ClaimsOf(r.listings[i]) == ClaimsOf(s.listings[i]) + [r.claims[|s.claims|]] &&
              r.listings[i].status == s.listings[i].status &&
              r.listings[i].(claims := s.listings[i].claims) == s.listings[i]
    ensures forall i :: 0 <= i < |s.listings| && s.listings[i].id != listingId ==> r.listings[i] == s.listings[i]
    ensures r.deliveries == s.deliveries && r.metrics == s.metrics
  {
    var c := NewClaim(listingId, quantity, recipientId, recipientName, id, today);
    s.(claims := s.claims + [c], listings := AttachClaim(s.listings, listingId, c))
  }

  /** `updateClaim(claimId, status)`: set the claim's status, recompute the status of every
      listing that embeds claims, and schedule one delivery the first time a claim is approved. */
  function UpdateClaimStep(s: Store, claimId: string, status: ClaimStatus, id: string, now: string): (r: Store)
    ensures |r.claims| == |s.claims|
    ensures forall i :: 0 <= i < |s.claims| ==>
              r.claims[i].(status := s.claims[i].status) == s.claims[i] &&
              r.claims[i].status == (if s.claims[i].id == claimId then status else s.claims[i].status)
    ensures |r.listings| == |s.listings|
    ensures forall i :: 0 <= i < |s.listings| && ClaimsOf(s.listings[i]) == [] ==> r.listings[i] == s.listings[i]
    ensures forall i :: 0 <= i < |s.listings| && ClaimsOf(s.listings[i]) != [] ==>
              ClaimsOf(r.listings[i]) == SetClaimStatus(ClaimsOf(s.listings[i]), claimId, status) &&
              r.listings[i].status == NextListingStatus(s.listings[i].status, ClaimsOf(r.listings[i]), status) &&
              r.listings[i].(status := s.listings[i].status, claims := s.listings[i].claims) == s.listings[i]
    ensures r.deliveries == DeliveriesAfterUpdate(s.claims, s.deliveries, claimId, status, id, now)
    ensures r.metrics == s.metrics
  {
    s.(claims := SetClaimStatus(s.claims, claimId, status),
       listings := RecomputeListings(s.listings, claimId, status),
       deliveries := DeliveriesAfterUpdate(s.claims, s.deliveries, claimId, status, id, now))
  }

  /** `createDelivery(claimId, distance)`: appended whatever deliveries the claim already has. */
  function CreateDeliveryStep(s: Store, claimId: string, distance: real, id: string, now: string): (r: Store)
    ensures |r.deliveries| == |s.deliveries| + 1 && r.deliveries[..|s.deliveries|] == s.deliveries
    ensures var d := r.deliveries[|s.deliveries|];
              d.id == id && d.claimId == claimId && d.status == Scheduled && d.distance == distance &&
              d.proofPhotos == [] && d.pickupTime == Some(now) && d.deliveryTime.None?
    ensures r.listings == s.listings && r.claims == s.claims && r.metrics == s.metrics
  {
    s.(deliveries := s.deliveries + [ScheduledDelivery(claimId, distance, id, now)])
  }

  /** `updateDelivery(deliveryId, updates)`: no status check and no time stamp of its own. */
  function UpdateDeliveryStep(s: Store, deliveryId: string, p: DeliveryPatch): (r: Store)
    ensures |r.deliveries| == |s.deliveries|
    ensures forall i :: 0 <= i < |s.deliveries| && s.deliveries[i].id == deliveryId ==>
              r.deliveries[i] == MergeDelivery(s.deliveries[i], p)
    ensures forall i :: 0 <= i < |s.deliveries| && s.deliveries[i].id != deliveryId ==>
              r.deliveries[i] == s.deliveries[i]
    ensures p.deliveryTime.None? ==>
              forall i :: 0 <= i < |s.deliveries| ==> r.deliveries[i].deliveryTime == s.deliveries[i].deliveryTime
    ensures r.listings == s.listings && r.claims == s.claims && r.metrics == s.metrics
  {
    s.(deliveries := UpdateDeliveries(s.deliveries, deliveryId, p))
  }
}
