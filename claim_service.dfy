/** `ClaimService` (backend/.../service/ClaimService.java): the backend's claim
    lifecycle over the claim, listing and user tables. A `null` return is
    `None`. */
module Claims {
  import opened Common
  import opened Entities

  /** `createClaim(listingId, claimantId)`: a pending claim, saved under the next
      identity key, if both the listing and the claimant exist. */
  function CreateClaimStep(d: Db, listingId: int, claimantId: int, now: int): (r: Outcome<Option<Claim>>)
    requires Valid(d)
    ensures Valid(r.db)
    ensures r.result.None? <==> listingId !in d.listings || claimantId !in d.users
    ensures r.result.None? ==> r.db == d
    ensures r.result.Some? ==>
              var c := r.result.value;
              c.id !in d.claims && c.listingId == listingId && c.claimantId == claimantId &&
              c.status == Pending && c.claimedAt == now && c.completedAt.None? && c.notes.None? &&
              r.db == d.(claims := d.claims[c.id := c], nextClaimId := d.nextClaimId + 1)
  {
    if listingId !in d.listings || claimantId !in d.users then Outcome(d, None)
    else
      var c := Claim(d.nextClaimId, listingId, claimantId, Pending, None, now, None, now, now);
      Outcome(d.(claims := d.claims[c.id := c], nextClaimId := d.nextClaimId + 1), Some(c))
  }

  /** `approveClaim(claimId)`: whatever the claim's status, it becomes approved and
      its listing claimed. */
  function ApproveClaimStep(d: Db, claimId: int, now: int): (r: Outcome<Option<Claim>>)
    requires Valid(d)
    ensures Valid(r.db)
    ensures claimId !in d.claims ==> r == Outcome(d, None)
    ensures claimId in d.claims ==>
              var before := d.claims[claimId];
              var lid := before.listingId;
              r.result.Some? && r.result.value.status == Approved && r.result.value.updatedAt == now &&
              r.result.value.(status := before.status, updatedAt := before.updatedAt) == before &&
              r.db.claims == d.claims[claimId := r.result.value] &&
              lid in r.db.listings && r.db.listings[lid].status == Claimed &&
              r.db.listings[lid].(status := d.listings[lid].status, updatedAt := d.listings[lid].updatedAt) ==
                d.listings[lid] &&
              r.db.listings == d.listings[lid := r.db.listings[lid]] &&
              r.db.users == d.users && r.db.nextClaimId == d.nextClaimId && r.db.nextListingId == d.nextListingId
  {
    if claimId !in d.claims then Outcome(d, None)
    else
      var c := d.claims[claimId].(status := Approved, updatedAt := now);
      var l := d.listings[c.listingId].(status := Claimed, updatedAt := now);
      Outcome(d.(listings := d.listings[l.id := l], claims := d.claims[c.id := c]), Some(c))
  }

  /** `completeClaim(claimId)`: the claim becomes completed and stamped; its listing
      is not touched. */
  function CompleteClaimStep(d: Db, claimId: int, now: int): (r: Outcome<Option<Claim>>)
    requires Valid(d)
    ensures Valid(r.db)
    ensures r.db.listings == d.listings && r.db.users == d.users
    ensures claimId !in d.claims ==> r == Outcome(d, None)
    ensures claimId in d.claims ==>
              var before := d.claims[claimId];
              r.result.Some? && r.result.value.status == Completed && r.result.value.completedAt == Some(now) &&
              r.result.value.updatedAt == now &&
              r.result.value.(status := before.status, completedAt := before.completedAt, updatedAt := before.updatedAt) == before &&
              r.db == d.(claims := d.claims[claimId := r.result.value])
  {
    if claimId !in d.claims then Outcome(d, None)
    else
      var c := d.claims[claimId].(status := Completed, completedAt := Some(now), updatedAt := now);
      Outcome(d.(claims := d.claims[c.id := c]), Some(c))
  }

  /** Creating, approving and completing a claim: the claim ends completed and its
      listing stays claimed, since completion never marks a listing. */
  lemma CreateApproveComplete(d: Db, listingId: int, claimantId: int, t1: int, t2: int, t3: int)
    requires Valid(d) && listingId in d.listings && claimantId in d.users
    ensures var o1 := CreateClaimStep(d, listingId, claimantId, t1);
            o1.result.Some? &&
            var id := o1.result.value.id;
            var o2 := ApproveClaimStep(o1.db, id, t2);
            var o3 := CompleteClaimStep(o2.db, id, t3);
            o2.db.listings[listingId].status == Claimed &&
            o3.result.Some? && o3.result.value.status == Completed && o3.result.value.completedAt == Some(t3) &&
            o3.db.claims[id] == o3.result.value && o3.db.listings[listingId].status == Claimed
  {
  }

  /** A claim that was already completed or rejected can still be approved, and
      approval then marks its listing claimed again. */
  lemma ApprovalIgnoresCurrentStatus(d: Db, claimId: int, now: int)
    requires Valid(d) && claimId in d.claims
    requires d.claims[claimId].status in {Completed, Rejected, ClaimStatus.Cancelled}
    ensures ApproveClaimStep(d, claimId, now).result.value.status == Approved
    ensures ApproveClaimStep(d, claimId, now).db.listings[d.claims[claimId].listingId].status == Claimed
  {
  }

  class ClaimService {
    const db: Database

    constructor (db: Database)
      ensures this.db == db
    {
      this.db := db;
    }

    method CreateClaim(listingId: int, claimantId: int, now: int) returns (r: Option<Claim>)
      requires Valid(db.State())
      modifies db
      ensures r == CreateClaimStep(old(db.State()), listingId, claimantId, now).result
      ensures db.State() == CreateClaimStep(old(db.State()), listingId, claimantId, now).db
      ensures Valid(db.State())
    {
      if listingId !in db.listings || claimantId !in db.users {
        return None;
      }
      var claim := Claim(db.nextClaimId, listingId, claimantId, Pending, None, now, None, now, now);
      db.claims := db.claims[claim.id := claim];
      db.nextClaimId := db.nextClaimId + 1;
      r := Some(claim);
    }

    method ApproveClaim(claimId: int, now: int) returns (r: Option<Claim>)
      requires Valid(db.State())
      modifies db
      ensures r == ApproveClaimStep(old(db.State()), claimId, now).result
      ensures db.State() == ApproveClaimStep(old(db.State()), claimId, now).db
      ensures Valid(db.State())
    {
      if claimId !in db.claims {
        return None;
      }
      var c := db.claims[claimId];
      c := c.(status := Approved, updatedAt := now);
      var listing := db.listings[c.listingId];
      listing := listing.(status := Claimed, updatedAt := now);
      db.listings := db.listings[listing.id := listing];
      db.claims := db.claims[c.id := c];
      r := Some(c);
    }

    method CompleteClaim(claimId: int, now: int) returns (r: Option<Claim>)
      requires Valid(db.State())
      modifies db
      ensures r == CompleteClaimStep(old(db.State()), claimId, now).result
      ensures db.State() == CompleteClaimStep(old(db.State()), claimId, now).db
      ensures Valid(db.State())
    {
      if claimId !in db.claims {
        return None;
      }
      var c := db.claims[claimId];
      c := c.(status := Completed, completedAt := Some(now), updatedAt := now);
      db.claims := db.claims[c.id := c];
      r := Some(c);
    }

    /** `getClaimsByClaimant(claimantId)`: every claim of the claimant, each once. */
    method GetClaimsByClaimant(claimantId: int) returns (r: seq<Claim>)
      requires Valid(db.State())
      ensures forall k :: k in db.claims && db.claims[k].claimantId == claimantId ==> db.claims[k] in r
      ensures forall i :: 0 <= i < |r| ==>
                r[i].id in db.claims && db.claims[r[i].id] == r[i] && r[i].claimantId == claimantId
      ensures forall i, j :: 0 <= i < j < |r| ==> r[i].id != r[j].id
    {
      r := SelectRows(db.claims, (c: Claim) => c.id, (c: Claim) => c.claimantId == claimantId);
    }

    /** `getClaimsByListing(listingId)`: every claim on the listing, each once; a
        `null` id matches no claim, since every claim has a listing. */
    method GetClaimsByListing(listingId: Option<int>) returns (r: seq<Claim>)
      requires Valid(db.State())
      ensures listingId.None? ==> r == []
      ensures listingId.Some? ==>
                forall k :: k in db.claims && db.claims[k].listingId == listingId.value ==> db.claims[k] in r
      ensures forall i :: 0 <= i < |r| ==>
                r[i].id in db.claims && db.claims[r[i].id] == r[i] && Some(r[i].listingId) == listingId
      ensures forall i, j :: 0 <= i < j < |r| ==> r[i].id != r[j].id
    {
      if listingId.None? {
        return [];
      }
      r := SelectRows(db.claims, (c: Claim) => c.id, (c: Claim) => c.listingId == listingId.value);
    }
  }
}
