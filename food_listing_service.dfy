/** `FoodListingService` (backend/.../service/FoodListingService.java): listing
    creation, the null-field merge update, status changes, deletion and the
    three listing queries. `FoodListingDTO.fromEntity` copies fields one to
    one, so results are the listing rows themselves. */
module Listings {
  import opened Common
  import opened Entities

  /** The request body of `createListing`: the columns a client supplies. */
  datatype ListingDetails = ListingDetails(
    foodType: string, quantity: int, unit: string, description: Option<string>,
    latitude: real, longitude: real, location: string, status: ListingStatus,
    category: FoodCategory, expiryTime: int)

  /** The request body of `updateListing`: any column may be `null`. */
  datatype ListingChanges = ListingChanges(
    foodType: Option<string>, quantity: Option<int>, unit: Option<string>,
    description: Option<string>, latitude: Option<real>, longitude: Option<real>,
    location: Option<string>, status: Option<ListingStatus>, category: Option<FoodCategory>,
    expiryTime: Option<int>)

  /** `createListing(listing, donorId)`: saved under the next identity key for an
      existing donor, always as available, whatever status the body carried. */
  function CreateListingStep(d: Db, details: ListingDetails, donorId: int, now: int): (r: Outcome<Option<FoodListing>>)
    requires Valid(d)
    ensures Valid(r.db)
    ensures r.result.None? <==> donorId !in d.users
    ensures r.result.None? ==> r.db == d
    ensures r.result.Some? ==>
              var l := r.result.value;
              l.id !in d.listings && l.donorId == donorId && l.status == Available &&
              l.createdAt == now && l.updatedAt == now &&
              l.foodType == details.foodType && l.quantity == details.quantity && l.unit == details.unit &&
              l.description == details.description && l.latitude == details.latitude &&
              l.longitude == details.longitude && l.location == details.location &&
              l.category == details.category && l.expiryTime == details.expiryTime &&
              r.db == d.(listings := d.listings[l.id := l], nextListingId := d.nextListingId + 1)
  {
    if donorId !in d.users then Outcome(d, None)
    else
      var l := FoodListing(d.nextListingId, donorId, details.foodType, details.quantity, details.unit,
                           details.description, details.latitude, details.longitude, details.location,
                           Available, details.category, details.expiryTime, now, now);
      Outcome(d.(listings := d.listings[l.id := l], nextListingId := d.nextListingId + 1), Some(l))
  }

  /** `updateListing(id, updatedDetails)`: only the non-null food type, quantity,
      description and expiry time are copied; every other column is kept. */
  function UpdateListingStep(d: Db, id: int, ch: ListingChanges, now: int): (r: Outcome<Option<FoodListing>>)
    requires Valid(d)
    ensures Valid(r.db)
    ensures id !in d.listings ==> r == Outcome(d, None)
    ensures id in d.listings ==>
              r.result.Some? &&
              var before := d.listings[id];
              var l := r.result.value;
              l.foodType == ch.foodType.GetOr(before.foodType) && l.quantity == ch.quantity.GetOr(before.quantity) &&
              (ch.description.Some? ==> l.description == ch.description) &&
              (ch.description.None? ==> l.description == before.description) &&
              l.expiryTime == ch.expiryTime.GetOr(before.expiryTime) && l.updatedAt == now &&
              l.(foodType := before.foodType, quantity := before.quantity, description := before.description,
                 expiryTime := before.expiryTime, updatedAt := before.updatedAt) == before &&
              r.db == d.(listings := d.listings[id := l])
  {
    if id !in d.listings then Outcome(d, None)
    else
      var l := d.listings[id];
      var l := if ch.foodType.Some? then l.(foodType := ch.foodType.value) else l;
      var l := if ch.quantity.Some? then l.(quantity := ch.quantity.value) else l;
      var l := if ch.description.Some? then l.(description := ch.description) else l;
      var l := if ch.expiryTime.Some? then l.(expiryTime := ch.expiryTime.value) else l;
      var l := l.(updatedAt := now);
      Outcome(d.(listings := d.listings[id := l]), Some(l))
  }

  /** `updateListingStatus(id, status)`: silently nothing for an unknown id. */
  function UpdateListingStatusStep(d: Db, id: int, status: ListingStatus, now: int): (r: Db)
    requires Valid(d)
    ensures Valid(r)
    ensures id !in d.listings ==> r == d
    ensures id in d.listings ==>
              id in r.listings && r.listings[id].status == status && r.listings[id].updatedAt == now &&
              r.listings[id].(status := d.listings[id].status, updatedAt := d.listings[id].updatedAt) == d.listings[id] &&
              r == d.(listings := d.listings[id := r.listings[id]])
  {
    if id !in d.listings then d
    else d.(listings := d.listings[id := d.listings[id].(status := status, updatedAt := now)])
  }

  /** Some claim still refers to the listing. */
  predicate Referenced(d: Db, id: int) {
    exists k :: k in d.claims && d.claims[k].listingId == id
  }

  /** `deleteListing(id)`: the row goes, unless a claim still refers to it; then the
      foreign key makes the delete fail and nothing changes. */
  function DeleteListingStep(d: Db, id: int): (r: Db)
    requires Valid(d)
    ensures Valid(r)
    ensures Referenced(d, id) ==> r == d
    ensures !Referenced(d, id) ==> id !in r.listings && r == d.(listings := r.listings)
    ensures forall k :: k in d.listings && k != id ==> k in r.listings && r.listings[k] == d.listings[k]
    ensures r.listings.Keys <= d.listings.Keys
  {
    if Referenced(d, id) then d
    else d.(listings := map k | k in d.listings && k != id :: d.listings[k])
  }

  /** A listing that a claim refers to survives `deleteListing`. */
  lemma ClaimedListingCannotBeDeleted(d: Db, claimId: int)
    requires Valid(d) && claimId in d.claims
    ensures DeleteListingStep(d, d.claims[claimId].listingId) == d
  {
  }

  // ---------------------------------------------------- ORDER BY createdAt DESC

  /** Newest first. */
  predicate NewestFirst(s: seq<FoodListing>) {
    forall i, j :: 0 <= i < j < |s| ==> s[i].createdAt >= s[j].createdAt
  }

  /** Put `l` in its place in a newest-first list. */
  function InsertNewest(l: FoodListing, s: seq<FoodListing>): (r: seq<FoodListing>)
    requires NewestFirst(s)
    ensures NewestFirst(r)
    ensures multiset(r) == multiset(s) + multiset{l}
  {
    if s == [] then [l]
    else if l.createdAt >= s[0].createdAt then [l] + s
    else
      var rest := InsertNewest(l, s[1..]);
      BelowHead(l, s, rest);
      [s[0]] + rest
  }

  /** Inserting below the head of a newest-first list keeps the head in front. */
  lemma BelowHead(l: FoodListing, s: seq<FoodListing>, rest: seq<FoodListing>)
    requires NewestFirst(s) && s != [] && l.createdAt < s[0].createdAt
    requires NewestFirst(rest) && multiset(rest) == multiset(s[1..]) + multiset{l}
    ensures NewestFirst([s[0]] + rest)
    ensures multiset([s[0]] + rest) == multiset(s) + multiset{l}
  {
    assert s == [s[0]] + s[1..];
    forall k | 0 <= k < |rest| ensures rest[k].createdAt <= s[0].createdAt {
      assert rest[k] in multiset(s[1..]) + multiset{l};
    }
    var r := [s[0]] + rest;
    forall i, j | 0 <= i < j < |r| ensures r[i].createdAt >= r[j].createdAt {
      if i > 0 {
        assert r[i] == rest[i - 1] && r[j] == rest[j - 1];
      } else {
        assert r[j] == rest[j - 1];
      }
    }
  }

  /** The rows of a query in the order `ORDER BY createdAt DESC` returns them. */
  function SortNewestFirst(s: seq<FoodListing>): (r: seq<FoodListing>)
    ensures NewestFirst(r)
    ensures multiset(r) == multiset(s)
  {
    if s == [] then []
    else
      assert s == [s[0]] + s[1..];
      InsertNewest(s[0], SortNewestFirst(s[1..]))
  }

  /** Two lists with the same elements counted with multiplicity have the same members. */
  lemma SameMembers(s: seq<FoodListing>, r: seq<FoodListing>)
    requires multiset(r) == multiset(s)
    ensures forall x :: x in r <==> x in s
  {
    forall x ensures x in r <==> x in s {
      assert x in multiset(r) <==> x in multiset(s);
    }
  }

  class FoodListingService {
    const db: Database

    constructor (db: Database)
      ensures this.db == db
    {
      this.db := db;
    }

    method CreateListing(details: ListingDetails, donorId: int, now: int) returns (r: Option<FoodListing>)
      requires Valid(db.State())
      modifies db
      ensures r == CreateListingStep(old(db.State()), details, donorId, now).result
      ensures db.State() == CreateListingStep(old(db.State()), details, donorId, now).db
      ensures Valid(db.State())
    {
      if donorId !in db.users {
        return None;
      }
      var listing := FoodListing(db.nextListingId, donorId, details.foodType, details.quantity, details.unit,
                                 details.description, details.latitude, details.longitude, details.location,
                                 Available, details.category, details.expiryTime, now, now);
      db.listings := db.listings[listing.id := listing];
      db.nextListingId := db.nextListingId + 1;
      r := Some(listing);
    }

    method UpdateListing(id: int, ch: ListingChanges, now: int) returns (r: Option<FoodListing>)
      requires Valid(db.State())
      modifies db
      ensures r == UpdateListingStep(old(db.State()), id, ch, now).result
      ensures db.State() == UpdateListingStep(old(db.State()), id, ch, now).db
      ensures Valid(db.State())
    {
      if id !in db.listings {
        return None;
      }
      var listing := db.listings[id];
      if ch.foodType.Some? { listing := listing.(foodType := ch.foodType.value); }
      if ch.quantity.Some? { listing := listing.(quantity := ch.quantity.value); }
      if ch.description.Some? { listing := listing.(description := ch.description); }
      if ch.expiryTime.Some? { listing := listing.(expiryTime := ch.expiryTime.value); }
      listing := listing.(updatedAt := now);
      db.listings := db.listings[id := listing];
      r := Some(listing);
    }

    method UpdateListingStatus(id: int, status: ListingStatus, now: int)
      requires Valid(db.State())
      modifies db
      ensures db.State() == UpdateListingStatusStep(old(db.State()), id, status, now)
      ensures Valid(db.State())
    {
      if id in db.listings {
        var listing := db.listings[id];
        listing := listing.(status := status, updatedAt := now);
        db.listings := db.listings[id := listing];
      }
    }

    method DeleteListing(id: int)
      requires Valid(db.State())
      modifies db
      ensures db.State() == DeleteListingStep(old(db.State()), id)
      ensures Valid(db.State())
    {
      if !Referenced(db.State(), id) {
        db.listings := map k | k in db.listings && k != id :: db.listings[k];
      }
    }

    /** `getListingById(id)` */
    method GetListingById(id: int) returns (r: Option<FoodListing>)
      requires Valid(db.State())
      ensures r.None? <==> id !in db.listings
      ensures r.Some? ==> r.value.id == id && r.value == db.listings[id]
    {
      if id in db.listings {
        r := Some(db.listings[id]);
      } else {
        r := None;
      }
    }

    /** `getAvailableListings()`: every available listing, each once, newest first. */
    method GetAvailableListings() returns (r: seq<FoodListing>)
      requires Valid(db.State())
      ensures forall k :: k in db.listings && db.listings[k].status == Available ==> db.listings[k] in r
      ensures forall i :: 0 <= i < |r| ==>
                r[i].id in db.listings && db.listings[r[i].id] == r[i] && r[i].status == Available
      ensures forall i, j :: 0 <= i < j < |r| ==> r[i].id != r[j].id
      ensures NewestFirst(r)
    {
      var rows := SelectRows(db.listings, (l: FoodListing) => l.id, (l: FoodListing) => l.status == Available);
      assert NoDuplicates(rows);
      r := SortNewestFirst(rows);
      SameMembers(rows, r);
      PermutationKeepsNoDuplicates(rows, r);
      forall i | 0 <= i < |r|
        ensures r[i].id in db.listings && db.listings[r[i].id] == r[i] && r[i].status == Available
      {
        assert r[i] in rows;
      }
    }

    /** `getDonorListings(donorId)`: every listing of the donor, each once. */
    method GetDonorListings(donorId: int) returns (r: seq<FoodListing>)
      requires Valid(db.State())
      ensures forall k :: k in db.listings && db.listings[k].donorId == donorId ==> db.listings[k] in r
      ensures forall i :: 0 <= i < |r| ==>
                r[i].id in db.listings && db.listings[r[i].id] == r[i] && r[i].donorId == donorId
      ensures forall i, j :: 0 <= i < j < |r| ==> r[i].id != r[j].id
    {
      r := SelectRows(db.listings, (l: FoodListing) => l.id, (l: FoodListing) => l.donorId == donorId);
    }
  }
}
