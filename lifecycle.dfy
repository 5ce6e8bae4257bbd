/** Properties of sequences of provider operations: the claim lifecycle
    pending -> approved -> completed, the single delivery per approved claim,
    the consistency of the listings' embedded claim copies, and the places
    where the operations are looser than that lifecycle. */
module Lifecycle {
  import opened Common
  import opened FoodData

  // ----------------------------------------------------------- invariants

  /** Every claim embedded in a listing is the claim of the same id in the
      top-level claims array. */
  ghost predicate EmbeddedInSync(s: Store) {
    forall l, k :: l in s.listings && 0 <= k < |ClaimsOf(l)| ==>
      FindClaim(s.claims, ClaimsOf(l)[k].id) == Some(ClaimsOf(l)[k])
  }

  /** No two deliveries track the same claim. */
  predicate AtMostOneDeliveryPerClaim(ds: seq<DeliveryTracking>) {
    forall i, j :: 0 <= i < j < |ds| ==> ds[i].claimId != ds[j].claimId
  }

  /** Exactly one delivery tracks `claimId`. */
  predicate ExactlyOneDeliveryFor(ds: seq<DeliveryTracking>, claimId: string) {
    exists i :: 0 <= i < |ds| && ds[i].claimId == claimId &&
      forall j :: 0 <= j < |ds| && ds[j].claimId == claimId ==> j == i
  }

  /** Every delivery tracks a claim that exists. */
  predicate DeliveriesResolve(s: Store) {
    forall i :: 0 <= i < |s.deliveries| ==> FindClaim(s.claims, s.deliveries[i].claimId).Some?
  }

  /** An id no claim carries yet. */
  predicate FreshClaimId(cs: seq<FoodClaim>, id: string) {
    forall i :: 0 <= i < |cs| ==> cs[i].id != id
  }

  // ------------------------------------------------------- lookup lemmas

  /** Looking a claim up after a status update finds the updated claim. */
  lemma {:induction false} FindAfterSetStatus(cs: seq<FoodClaim>, claimId: string, status: ClaimStatus, id: string)
    ensures FindClaim(SetClaimStatus(cs, claimId, status), id) ==
              match FindClaim(cs, id)
              case None => None
              case Some(c) => Some(if c.id == claimId then c.(status := status) else c)
  {
    if cs != [] {
      assert SetClaimStatus(cs, claimId, status)[1..] == SetClaimStatus(cs[1..], claimId, status);
      FindAfterSetStatus(cs[1..], claimId, status, id);
    }
  }

  /** Appending a claim does not change what earlier claims are found. */
  lemma {:induction false} FindAfterAppend(cs: seq<FoodClaim>, c: FoodClaim, id: string)
    ensures FindClaim(cs + [c], id) ==
              if FindClaim(cs, id).Some? then FindClaim(cs, id)
              else if c.id == id then Some(c) else None
  {
    if cs != [] {
      assert (cs + [c])[1..] == cs[1..] + [c];
      FindAfterAppend(cs[1..], c, id);
    }
  }

  // -------------------------------------------- embedded copies stay in sync

  /** The store on mount has no embedded claims. */
  lemma InitialStoreInSync()
    ensures EmbeddedInSync(InitialStore) && DeliveriesResolve(InitialStore)
    ensures AtMostOneDeliveryPerClaim(InitialStore.deliveries)
  {
  }

  /** `updateClaim` writes the same status into the claim and into every embedded copy. */
  lemma UpdateClaimKeepsCopiesInSync(s: Store, claimId: string, status: ClaimStatus, id: string, now: string)
    requires EmbeddedInSync(s)
    ensures EmbeddedInSync(UpdateClaimStep(s, claimId, status, id, now))
  {
    var r := UpdateClaimStep(s, claimId, status, id, now);
    forall l', k | l' in r.listings && 0 <= k < |ClaimsOf(l')|
      ensures FindClaim(r.claims, ClaimsOf(l')[k].id) == Some(ClaimsOf(l')[k])
    {
      var i :| 0 <= i < |r.listings| && r.listings[i] == l';
      var l := s.listings[i];
      assert ClaimsOf(l) != [];
      assert FindClaim(s.claims, ClaimsOf(l)[k].id) == Some(ClaimsOf(l)[k]);
      CopyAfterSetStatus(s.claims, ClaimsOf(l), claimId, status, k);
    }
  }

  /** A copy of a claim, updated as the claim is, is still found as that claim. */
  lemma CopyAfterSetStatus(cs: seq<FoodClaim>, copies: seq<FoodClaim>, claimId: string, status: ClaimStatus, k: int)
    requires 0 <= k < |copies| && FindClaim(cs, copies[k].id) == Some(copies[k])
    ensures var u := SetClaimStatus(copies, claimId, status);
            FindClaim(SetClaimStatus(cs, claimId, status), u[k].id) == Some(u[k])
  {
    FindAfterSetStatus(cs, claimId, status, copies[k].id);
  }

  /** `claimFood` appends the same new claim to the array and to its listing,
      provided the generated id is not already taken. */
  lemma ClaimFoodKeepsCopiesInSync(s: Store, listingId: string, quantity: real, recipientId: string,
                                   recipientName: string, id: string, today: string)
    requires EmbeddedInSync(s)
    requires FreshClaimId(s.claims, id)
    ensures EmbeddedInSync(ClaimFoodStep(s, listingId, quantity, recipientId, recipientName, id, today))
  {
    var r := ClaimFoodStep(s, listingId, quantity, recipientId, recipientName, id, today);
    var c := r.claims[|s.claims|];
    assert r.claims == s.claims + [c];
    forall l', k | l' in r.listings && 0 <= k < |ClaimsOf(l')|
      ensures FindClaim(r.claims, ClaimsOf(l')[k].id) == Some(ClaimsOf(l')[k])
    {
      var i :| 0 <= i < |r.listings| && r.listings[i] == l';
      var l := s.listings[i];
      var e := ClaimsOf(l')[k];
      FindAfterAppend(s.claims, c, e.id);
      if l.id == listingId && k == |ClaimsOf(l)| {
        assert e == c;
      } else {
        assert e == ClaimsOf(l)[k];
        assert FindClaim(s.claims, e.id) == Some(e);
      }
    }
  }

  /** `addListing` keeps the copies in sync when the new listing's claims are. */
  lemma AddListingKeepsCopiesInSync(s: Store, d: ListingDraft, id: string, today: string)
    requires EmbeddedInSync(s)
    requires forall k :: 0 <= k < |d.claims.GetOr([])| ==>
               FindClaim(s.claims, d.claims.GetOr([])[k].id) == Some(d.claims.GetOr([])[k])
    ensures EmbeddedInSync(AddListingStep(s, d, id, today))
  {
    var r := AddListingStep(s, d, id, today);
    assert r.listings == s.listings + [r.listings[|s.listings|]];
    assert ClaimsOf(r.listings[|s.listings|]) == d.claims.GetOr([]);
  }

  /** `updateListing` keeps the copies in sync when the update carries no `claims`. */
  lemma UpdateListingKeepsCopiesInSync(s: Store, id: string, p: ListingPatch)
    requires EmbeddedInSync(s)
    requires p.claims.None?
    ensures EmbeddedInSync(UpdateListingStep(s, id, p))
  {
    var r := UpdateListingStep(s, id, p);
    forall l', k | l' in r.listings && 0 <= k < |ClaimsOf(l')|
      ensures FindClaim(r.claims, ClaimsOf(l')[k].id) == Some(ClaimsOf(l')[k])
    {
      var i :| 0 <= i < |r.listings| && r.listings[i] == l';
      assert ClaimsOf(l') == ClaimsOf(s.listings[i]);
    }
  }

  /** `deleteListing` only drops listings, so the remaining copies stay in sync. */
  lemma DeleteListingKeepsCopiesInSync(s: Store, id: string)
    requires EmbeddedInSync(s)
    ensures EmbeddedInSync(DeleteListingStep(s, id))
  {
  }

  // ----------------------------------------------------------- deliveries

  /** `updateClaim` never schedules a second delivery for a claim. */
  lemma UpdateClaimKeepsOneDeliveryPerClaim(s: Store, claimId: string, status: ClaimStatus, id: string, now: string)
    requires AtMostOneDeliveryPerClaim(s.deliveries)
    ensures AtMostOneDeliveryPerClaim(UpdateClaimStep(s, claimId, status, id, now).deliveries)
  {
    var ds := UpdateClaimStep(s, claimId, status, id, now).deliveries;
    if |ds| == |s.deliveries| + 1 {
      assert ds == s.deliveries + [ds[|s.deliveries|]];
      assert !HasDeliveryFor(s.deliveries, claimId);
    } else {
      assert ds == ds[..|s.deliveries|];
    }
  }

  /** Approving an existing claim leaves exactly one delivery for it. */
  lemma ApprovalLeavesExactlyOneDelivery(s: Store, claimId: string, id: string, now: string)
    requires AtMostOneDeliveryPerClaim(s.deliveries)
    requires FindClaim(s.claims, claimId).Some?
    ensures ExactlyOneDeliveryFor(UpdateClaimStep(s, claimId, Approved, id, now).deliveries, claimId)
  {
    var ds := UpdateClaimStep(s, claimId, Approved, id, now).deliveries;
    UpdateClaimKeepsOneDeliveryPerClaim(s, claimId, Approved, id, now);
    if HasDeliveryFor(s.deliveries, claimId) {
      var i :| 0 <= i < |s.deliveries| && s.deliveries[i].claimId == claimId;
      assert ds == s.deliveries;
      assert ds[i].claimId == claimId;
    } else {
      assert ds[|s.deliveries|].claimId == claimId;
    }
  }

  /** Approving the same claim twice schedules its delivery only once. */
  lemma ApproveTwiceSchedulesOnce(s: Store, claimId: string, id1: string, now1: string, id2: string, now2: string)
    ensures var s1 := UpdateClaimStep(s, claimId, Approved, id1, now1);
            UpdateClaimStep(s1, claimId, Approved, id2, now2).deliveries == s1.deliveries
  {
    var s1 := UpdateClaimStep(s, claimId, Approved, id1, now1);
    FindAfterSetStatus(s.claims, claimId, Approved, claimId);
    if |s1.deliveries| == |s.deliveries| + 1 {
      assert s1.deliveries[|s.deliveries|].claimId == claimId;
      assert HasDeliveryFor(s1.deliveries, claimId);
    } else {
      assert s1.deliveries == s1.deliveries[..|s.deliveries|];
    }
  }

  /** Any status but `approved` leaves the deliveries alone. */
  lemma OnlyApprovalSchedules(s: Store, claimId: string, status: ClaimStatus, id: string, now: string)
    requires status != Approved
    ensures UpdateClaimStep(s, claimId, status, id, now).deliveries == s.deliveries
  {
    var ds := UpdateClaimStep(s, claimId, status, id, now).deliveries;
    assert ds == ds[..|s.deliveries|];
  }

  /** `updateClaim` keeps every delivery attached to an existing claim. */
  lemma UpdateClaimKeepsDeliveriesResolved(s: Store, claimId: string, status: ClaimStatus, id: string, now: string)
    requires DeliveriesResolve(s)
    ensures DeliveriesResolve(UpdateClaimStep(s, claimId, status, id, now))
  {
    var r := UpdateClaimStep(s, claimId, status, id, now);
    forall i | 0 <= i < |r.deliveries|
      ensures FindClaim(r.claims, r.deliveries[i].claimId).Some?
    {
      FindAfterSetStatus(s.claims, claimId, status, r.deliveries[i].claimId);
      if i < |s.deliveries| {
        assert r.deliveries[i] == r.deliveries[..|s.deliveries|][i];
      }
    }
  }

  /** The three store invariants, each kept by `updateClaim`. */
  lemma UpdateClaimKeepsInvariants(s: Store, claimId: string, status: ClaimStatus, id: string, now: string)
    ensures var r := UpdateClaimStep(s, claimId, status, id, now);
            (EmbeddedInSync(s) ==> EmbeddedInSync(r)) &&
            (AtMostOneDeliveryPerClaim(s.deliveries) ==> AtMostOneDeliveryPerClaim(r.deliveries)) &&
            (DeliveriesResolve(s) ==> DeliveriesResolve(r))
  {
    if EmbeddedInSync(s) {
      UpdateClaimKeepsCopiesInSync(s, claimId, status, id, now);
    }
    if AtMostOneDeliveryPerClaim(s.deliveries) {
      UpdateClaimKeepsOneDeliveryPerClaim(s, claimId, status, id, now);
    }
    if DeliveriesResolve(s) {
      UpdateClaimKeepsDeliveriesResolved(s, claimId, status, id, now);
    }
  }

  /** `createDelivery` checks nothing: it can point at a claim that does not exist ... */
  lemma CreateDeliveryMayDangle(s: Store, claimId: string, distance: real, id: string, now: string)
    requires FindClaim(s.claims, claimId).None?
    ensures !DeliveriesResolve(CreateDeliveryStep(s, claimId, distance, id, now))
  {
    var r := CreateDeliveryStep(s, claimId, distance, id, now);
    assert r.deliveries[|s.deliveries|].claimId == claimId;
  }

  /** ... and it can give a claim a second delivery. */
  lemma CreateDeliveryMayDuplicate(s: Store, claimId: string, distance: real, id: string, now: string)
    requires HasDeliveryFor(s.deliveries, claimId)
    ensures !AtMostOneDeliveryPerClaim(CreateDeliveryStep(s, claimId, distance, id, now).deliveries)
  {
    var ds := CreateDeliveryStep(s, claimId, distance, id, now).deliveries;
    var i :| 0 <= i < |s.deliveries| && s.deliveries[i].claimId == claimId;
    assert ds[i] == ds[..|s.deliveries|][i];
    assert ds[i].claimId == ds[|s.deliveries|].claimId;
  }

  // ------------------------------------------------- listing status rules

  /** A listing whose only claim is pending becomes claimed on approval and
      distributed on completion. */
  lemma ApproveThenComplete(s: Store, i: nat, claimId: string, id1: string, now1: string, id2: string, now2: string)
    requires i < |s.listings|
    requires ClaimsOf(s.listings[i]) != []
    ensures var s1 := UpdateClaimStep(s, claimId, Approved, id1, now1);
            var s2 := UpdateClaimStep(s1, claimId, Completed, id2, now2);
            s1.listings[i].status == Claimed && s2.listings[i].status == Distributed
  {
    var s1 := UpdateClaimStep(s, claimId, Approved, id1, now1);
    assert |ClaimsOf(s1.listings[i])| == |ClaimsOf(s.listings[i])|;
  }

  /** Rejecting the only active claim of a claimed listing makes it available again. */
  lemma RejectLastActiveClaimReverts(s: Store, i: nat, claimId: string, id: string, now: string)
    requires i < |s.listings| && s.listings[i].status == Claimed
    requires forall k :: 0 <= k < |ClaimsOf(s.listings[i])| && ClaimsOf(s.listings[i])[k].id != claimId ==>
               ClaimsOf(s.listings[i])[k].status in {Rejected, Completed}
    requires ClaimsOf(s.listings[i]) != []
    ensures UpdateClaimStep(s, claimId, Rejected, id, now).listings[i].status == Available
  {
    var u := ClaimsOf(UpdateClaimStep(s, claimId, Rejected, id, now).listings[i]);
    assert !HasActiveClaim(u) by {
      forall k | 0 <= k < |u| ensures u[k].status != Approved && u[k].status != Pending {
        assert u[k].status == if ClaimsOf(s.listings[i])[k].id == claimId then Rejected
                              else ClaimsOf(s.listings[i])[k].status;
      }
    }
  }

  /** Rejecting one claim of a listing that still has another active claim keeps its status. */
  lemma RejectWithOtherActiveClaimKeepsStatus(s: Store, i: nat, k: nat, claimId: string, id: string, now: string)
    requires i < |s.listings| && k < |ClaimsOf(s.listings[i])|
    requires ClaimsOf(s.listings[i])[k].id != claimId
    requires ClaimsOf(s.listings[i])[k].status in {Approved, Pending}
    ensures UpdateClaimStep(s, claimId, Rejected, id, now).listings[i].status == s.listings[i].status
  {
    var u := ClaimsOf(UpdateClaimStep(s, claimId, Rejected, id, now).listings[i]);
    assert u[k] == ClaimsOf(s.listings[i])[k];
  }

  /** A rejection never makes an available, distributed or expired listing claimed, nor
      changes it at all unless it was claimed. */
  lemma RejectOnlyRevertsClaimed(s: Store, i: nat, claimId: string, id: string, now: string)
    requires i < |s.listings| && s.listings[i].status != Claimed
    ensures UpdateClaimStep(s, claimId, Rejected, id, now).listings[i].status == s.listings[i].status
  {
  }

  // ------------------------------------ where the operations are looser

  /** Approving a claim relabels every listing that has any embedded claims,
      whether or not the approved claim is one of them. */
  lemma ApprovalRelabelsEveryListingWithClaims(s: Store, claimId: string, id: string, now: string, i: nat)
    requires i < |s.listings| && ClaimsOf(s.listings[i]) != []
    ensures UpdateClaimStep(s, claimId, Approved, id, now).listings[i].status == Claimed
  {
  }

  /** A concrete instance: approving claim "c1" of listing "1" also marks listing "2",
      whose only embedded claim is "c2", as claimed. */
  lemma ApprovalTouchesUnrelatedListing()
    ensures var c2 := FoodClaim("c2", "2", "r2", "Shelter", 5.0, Pending, "2026-01-20", None);
            var s := InitialStore.(listings := [InitialListings[0], InitialListings[1].(claims := Some([c2]))]);
            UpdateClaimStep(s, "c1", Approved, "d1", "now").listings[1].status == Claimed
  {
    var c2 := FoodClaim("c2", "2", "r2", "Shelter", 5.0, Pending, "2026-01-20", None);
    var s := InitialStore.(listings := [InitialListings[0], InitialListings[1].(claims := Some([c2]))]);
    assert ClaimsOf(s.listings[1]) != [];
  }

  /** An unknown claim id changes no claim and schedules nothing, yet still relabels listings. */
  lemma UpdateUnknownClaim(s: Store, claimId: string, status: ClaimStatus, id: string, now: string)
    requires FindClaim(s.claims, claimId).None?
    ensures UpdateClaimStep(s, claimId, status, id, now).claims == s.claims
    ensures UpdateClaimStep(s, claimId, status, id, now).deliveries == s.deliveries
    ensures status == Approved ==>
              forall i :: 0 <= i < |s.listings| && ClaimsOf(s.listings[i]) != [] ==>
                UpdateClaimStep(s, claimId, status, id, now).listings[i].status == Claimed
  {
    var r := UpdateClaimStep(s, claimId, status, id, now);
    assert r.claims == s.claims;
    assert r.deliveries == r.deliveries[..|s.deliveries|];
  }

  /** `claimFood` on an id no listing carries still records the claim. */
  lemma ClaimFoodWithoutListing(s: Store, listingId: string, quantity: real, recipientId: string,
                                recipientName: string, id: string, today: string)
    requires FindListing(s.listings, listingId).None?
    ensures var r := ClaimFoodStep(s, listingId, quantity, recipientId, recipientName, id, today);
            r.listings == s.listings && |r.claims| == |s.claims| + 1
  {
  }

  /** `deleteListing` leaves the listing's claims behind, pointing at nothing. */
  lemma DeleteListingOrphansClaims(s: Store, id: string, j: nat)
    requires j < |s.claims| && s.claims[j].listingId == id
    ensures var r := DeleteListingStep(s, id);
            s.claims[j] in r.claims && FindListing(r.listings, s.claims[j].listingId).None?
  {
  }

  // -------------------------------------------------------------- scenario

  /** The life of one claim on the store as mounted: claim 10 kg of listing "1",
      approve it (one delivery is scheduled, the listing becomes claimed), complete
      it (the listing is distributed and no second delivery appears). */
  lemma ClaimLifecycleScenario()
    ensures var s1 := ClaimFoodStep(InitialStore, "1", 10.0, "r1", "City Shelter", "c1", "2026-01-20");
            var s2 := UpdateClaimStep(s1, "c1", Approved, "d1", "t1");
            var s3 := UpdateClaimStep(s2, "c1", Completed, "d2", "t2");
            s1.listings[0].status == Available && ClaimsOf(s1.listings[0]) == [s1.claims[0]] &&
            s2.listings[0].status == Claimed && |s2.deliveries| == 1 && s2.deliveries[0].claimId == "c1" &&
            s2.claims[0].status == Approved &&
            s3.listings[0].status == Distributed && s3.deliveries == s2.deliveries &&
            s3.claims[0].status == Completed && EmbeddedInSync(s3)
  {
    var s1 := ClaimFoodStep(InitialStore, "1", 10.0, "r1", "City Shelter", "c1", "2026-01-20");
    InitialStoreInSync();
    ClaimFoodKeepsCopiesInSync(InitialStore, "1", 10.0, "r1", "City Shelter", "c1", "2026-01-20");
    assert FindClaim(s1.claims, "c1").Some?;
    var s2 := UpdateClaimStep(s1, "c1", Approved, "d1", "t1");
    UpdateClaimKeepsCopiesInSync(s1, "c1", Approved, "d1", "t1");
    assert !HasDeliveryFor(s1.deliveries, "c1");
    UpdateClaimKeepsCopiesInSync(s2, "c1", Completed, "d2", "t2");
    OnlyApprovalSchedules(s2, "c1", Completed, "d2", "t2");
  }
}
