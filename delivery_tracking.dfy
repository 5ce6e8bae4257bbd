/** The delivery tracking page (src/pages/DeliveryTracking.tsx): which
    deliveries the signed-in user sees, and the two buttons that move a
    delivery from scheduled to in transit to delivered. */
module DeliveryPage {
  import opened Common
  import opened Auth
  import opened FoodData

  /** `listing?.donorName`: absent when the claim's listing is gone. */
  function DonorNameOf(listing: Option<FoodListing>): Option<string> {
    match listing
    case Some(l) => Some(l.donorName)
    case None => None
  }

  /** The body of the `userDeliveries` filter, for one delivery. */
  predicate Visible(s: Store, user: Option<User>, d: DeliveryTracking) {
    match FindClaim(s.claims, d.claimId)
    case None => false
    case Some(c) =>
      var listing := FindListing(s.listings, c.listingId);
      if user.Some? && user.value.role == Some(Donor) then
        (listing.Some? && listing.value.donorId == user.value.id) ||
        DonorNameOf(listing) == user.value.organizationName
      else if user.Some? && user.value.role == Some(Recipient) then
        c.recipientId == user.value.id || Some(c.recipientName) == user.value.organizationName
      else true
  }

  /** `userDeliveries`: the deliveries the page lists, in store order. */
  function UserDeliveries(s: Store, user: Option<User>): (r: seq<DeliveryTracking>)
    ensures IsSubsequence(r, s.deliveries)
    ensures forall d :: d in r ==> d in s.deliveries && Visible(s, user, d)
    ensures forall d :: d in s.deliveries && Visible(s, user, d) ==> d in r
    ensures forall d :: d in r ==> FindClaim(s.claims, d.claimId).Some?
  {
    Filter(s.deliveries, (d: DeliveryTracking) => Visible(s, user, d))
  }

  /** Without a user, and for an admin or an analyst, the page lists every delivery
      whose claim is known, whoever claimed it. */
  lemma OtherRolesSeeEveryResolvedDelivery(s: Store, user: Option<User>, d: DeliveryTracking)
    requires user.None? || user.value.role !in {Some(Donor), Some(Recipient)}
    requires d in s.deliveries
    ensures d in UserDeliveries(s, user) <==> FindClaim(s.claims, d.claimId).Some?
  {
  }

  /** A recipient sees exactly the deliveries of claims made under their id or
      their organisation's name. */
  lemma RecipientSeesOwnClaims(s: Store, u: User, d: DeliveryTracking)
    requires u.role == Some(Recipient) && d in s.deliveries
    ensures d in UserDeliveries(s, Some(u)) <==>
              exists c :: c == FindClaim(s.claims, d.claimId) && c.Some? &&
                          (c.value.recipientId == u.id || Some(c.value.recipientName) == u.organizationName)
  {
  }

  /** Every role sees a part of what an admin sees. */
  lemma ViewWithinAdminView(s: Store, user: Option<User>, admin: User)
    requires admin.role == Some(Admin)
    ensures forall d :: d in UserDeliveries(s, user) ==> d in UserDeliveries(s, Some(admin))
  {
  }

  /** A donor without an organisation name sees the deliveries of claims whose
      listing was deleted, since both sides of `listing?.donorName ===
      user.organizationName` are then `undefined`. */
  lemma DonorWithoutOrganisationSeesOrphans()
    ensures var u := User("d1", "Dee", "d@x.org", Some(Donor), None);
            var c := FoodClaim("c1", "gone", "r1", "Rita", 1.0, Approved, "2026-01-21", None);
            var d := ScheduledDelivery("c1", 0.0, "d9", "2026-01-21");
            var s := Store(InitialListings, [c], [d], InitialMetrics);
            FindListing(s.listings, "gone").None? && UserDeliveries(s, Some(u)) == [d]
  {
    var u := User("d1", "Dee", "d@x.org", Some(Donor), None);
    var c := FoodClaim("c1", "gone", "r1", "Rita", 1.0, Approved, "2026-01-21", None);
    var d := ScheduledDelivery("c1", 0.0, "d9", "2026-01-21");
    var s := Store(InitialListings, [c], [d], InitialMetrics);
    assert FindClaim(s.claims, "c1") == Some(c);
    assert InitialListings[0].id == "1" && InitialListings[1].id == "2";
    assert FindListing(s.listings, "gone").None?;
    assert Visible(s, Some(u), d);
    assert UserDeliveries(s, Some(u)) == [d] by {
      assert [d][1..] == [];
    }
  }

  // ------------------------------------------------------------ the buttons

  /** `handleStatusUpdate(deliveryId, newStatus)`'s update object: the status, and
      the delivery time only when the delivery is confirmed. */
  function StatusUpdate(newStatus: DeliveryStatus, now: string): (p: DeliveryPatch)
    ensures p.status == Some(newStatus)
    ensures newStatus == Delivered ==> p.deliveryTime == Some(now)
    ensures newStatus != Delivered ==> p.deliveryTime.None?
    ensures p.(status := None, deliveryTime := None) == NoDeliveryChanges
  {
    NoDeliveryChanges.(status := Some(newStatus),
                       deliveryTime := if newStatus == Delivered then Some(now) else None)
  }

  /** The card's "Mark In-Transit" and "Mark Delivered" buttons. */
  datatype Button = MarkInTransit | MarkDelivered

  /** The stages a delivery goes through on this page, in order. */
  function Stage(st: DeliveryStatus): nat {
    match st
    case Scheduled => 0
    case InTransit => 1
    case Delivered => 2
    case Failed => 3
  }

  /** The page's delivery life cycle, stated independently of the click handlers:
      each button moves one stage on, and only from the stage it belongs to. */
  function Advance(st: DeliveryStatus, b: Button): DeliveryStatus {
    if b == MarkInTransit && st == Scheduled then InTransit
    else if b == MarkDelivered && st == InTransit then Delivered
    else st
  }

  /** A click on a button of the card showing `d`: the button only acts when `d`
      is in its stage, and then updates every delivery with `d`'s id. */
  function Press(s: Store, d: DeliveryTracking, b: Button, now: string): (r: Store)
    ensures Advance(d.status, b) == d.status ==> r == s
    ensures Advance(d.status, b) != d.status ==>
              r == UpdateDeliveryStep(s, d.id, StatusUpdate(Advance(d.status, b), now))
    ensures r.listings == s.listings && r.claims == s.claims && |r.deliveries| == |s.deliveries|
  {
    match b
    case MarkInTransit =>
      if d.status == Scheduled then UpdateDeliveryStep(s, d.id, StatusUpdate(InTransit, now)) else s
    case MarkDelivered =>
      if d.status == InTransit then UpdateDeliveryStep(s, d.id, StatusUpdate(Delivered, now)) else s
  }

  /** Every delivery marked delivered carries a delivery time. */
  ghost predicate DeliveredAreTimed(ds: seq<DeliveryTracking>) {
    forall i :: 0 <= i < |ds| && ds[i].status == Delivered ==> ds[i].deliveryTime.Some?
  }

  /** A click never marks a delivery failed, changes only deliveries with the
      shown card's id, moves the shown one along the life cycle and never back,
      and keeps every delivered delivery timed. */
  lemma PressKeepsLifecycle(s: Store, d: DeliveryTracking, b: Button, now: string)
    requires DeliveredAreTimed(s.deliveries)
    ensures var r := Press(s, d, b, now);
            DeliveredAreTimed(r.deliveries) &&
            (forall i :: 0 <= i < |r.deliveries| && r.deliveries[i].status == Failed ==>
                           s.deliveries[i].status == Failed) &&
            (forall i :: 0 <= i < |r.deliveries| && r.deliveries[i] != s.deliveries[i] ==>
                           s.deliveries[i].id == d.id && r.deliveries[i].status == Advance(d.status, b))
    ensures forall i :: 0 <= i < |s.deliveries| && s.deliveries[i] == d ==>
              Press(s, d, b, now).deliveries[i].status == Advance(d.status, b) &&
              Stage(d.status) <= Stage(Advance(d.status, b))
  {
  }

  /** The card the page renders for the delivery with id `id`, from the current store. */
  function FindDelivery(ds: seq<DeliveryTracking>, id: string): (r: Option<DeliveryTracking>)
    ensures r.None? <==> forall i :: 0 <= i < |ds| ==> ds[i].id != id
    ensures r.Some? ==> r.value in ds && r.value.id == id
  {
    if ds == [] then None
    else if ds[0].id == id then Some(ds[0])
    else FindDelivery(ds[1..], id)
  }

  /** A sequence of clicks, each on the card of the delivery with the given id as
      the page shows it at that moment. */
  function PressAll(s: Store, clicks: seq<(string, Button)>, now: string): Store
    decreases |clicks|
  {
    if clicks == [] then s
    else
      var s1 := match FindDelivery(s.deliveries, clicks[0].0)
                case Some(d) => Press(s, d, clicks[0].1, now)
                case None => s;
      PressAll(s1, clicks[1..], now)
  }

  /** However the buttons are clicked, no delivery turns failed, the claims and
      listings stay as they were, and every delivered delivery carries its time. */
  lemma {:induction false} PressAllKeepsLifecycle(s: Store, clicks: seq<(string, Button)>, now: string)
    requires DeliveredAreTimed(s.deliveries)
    ensures var r := PressAll(s, clicks, now);
            r.listings == s.listings && r.claims == s.claims && |r.deliveries| == |s.deliveries| &&
            DeliveredAreTimed(r.deliveries) &&
            forall i :: 0 <= i < |r.deliveries| && r.deliveries[i].status == Failed ==>
                          s.deliveries[i].status == Failed
    decreases |clicks|
  {
    if clicks != [] {
      var s1 := match FindDelivery(s.deliveries, clicks[0].0)
                case Some(d) => Press(s, d, clicks[0].1, now)
                case None => s;
      var found := FindDelivery(s.deliveries, clicks[0].0);
      if found.Some? {
        PressKeepsLifecycle(s, found.value, clicks[0].1, now);
      }
      PressAllKeepsLifecycle(s1, clicks[1..], now);
    }
  }

  /** Marking a scheduled delivery in transit and then delivered delivers it,
      stamped with the time of the second press. */
  lemma InTransitThenDelivered(s: Store, i: int, t1: string, t2: string)
    requires 0 <= i < |s.deliveries| && s.deliveries[i].status == Scheduled
    ensures var d := s.deliveries[i];
            var s1 := Press(s, d, MarkInTransit, t1);
            var s2 := Press(s1, s1.deliveries[i], MarkDelivered, t2);
            s2.deliveries[i].status == Delivered && s2.deliveries[i].deliveryTime == Some(t2) &&
            s2.deliveries[i].(status := d.status, deliveryTime := d.deliveryTime) == d
  {
    var d := s.deliveries[i];
    var s1 := Press(s, d, MarkInTransit, t1);
    assert s1.deliveries[i] == MergeDelivery(d, StatusUpdate(InTransit, t1));
    var s2 := Press(s1, s1.deliveries[i], MarkDelivered, t2);
    assert s2.deliveries[i] == MergeDelivery(s1.deliveries[i], StatusUpdate(Delivered, t2));
  }
}
