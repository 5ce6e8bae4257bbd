/** The backend's JPA entities (backend/.../entity) and the three tables the
    services reach through their repositories. A table is a map from primary
    key to row; an `IDENTITY` key is the table's next counter value. Object
    references between entities (`listing.donor`, `claim.listing`,
    `claim.claimant`) are the referenced row's key. Timestamps are
    `LocalDateTime.now()` passed in as `now`. */
module Entities {
  import opened Common

  datatype UserRole = Donor | Recipient | Admin | Logistics

  datatype ListingStatus = Available | Claimed | Expired | Cancelled

  datatype FoodCategory = CookedMeals | RawIngredients | Bakery | Dairy | Beverages | PackagedFood | Other

  datatype ClaimStatus = Pending | Approved | Completed | Rejected | Cancelled

  /** The columns of `users` the services read. */
  datatype User = User(id: int, email: string, name: string, role: Option<UserRole>)

  datatype FoodListing = FoodListing(
    id: int, donorId: int, foodType: string, quantity: int, unit: string,
    description: Option<string>, latitude: real, longitude: real, location: string,
    status: ListingStatus, category: FoodCategory, expiryTime: int,
    createdAt: int, updatedAt: int)

  datatype Claim = Claim(
    id: int, listingId: int, claimantId: int, status: ClaimStatus, notes: Option<string>,
    claimedAt: int, completedAt: Option<int>, createdAt: int, updatedAt: int)

  /** The three tables and their identity counters. */
  datatype Db = Db(
    users: map<int, User>, listings: map<int, FoodListing>, claims: map<int, Claim>,
    nextListingId: int, nextClaimId: int)

  /** What the schema guarantees of every stored state: each row sits under its
      own primary key, every foreign key resolves (`nullable = false` joins),
      and the identity counters are past every key in use. */
  ghost predicate Valid(d: Db) {
    (forall k :: k in d.users ==> d.users[k].id == k) &&
    (forall k :: k in d.listings ==>
       d.listings[k].id == k && d.listings[k].donorId in d.users && k < d.nextListingId) &&
    (forall k :: k in d.claims ==>
       d.claims[k].id == k && d.claims[k].listingId in d.listings && d.claims[k].claimantId in d.users &&
       k < d.nextClaimId)
  }

  /** The result of a service call together with the state it leaves. */
  datatype Outcome<T> = Outcome(db: Db, result: T)

  /** An empty schema over a given set of registered users. */
  function EmptyDb(users: map<int, User>): (d: Db)
    requires forall k :: k in users ==> users[k].id == k
    ensures Valid(d) && d.listings == map[] && d.claims == map[]
  {
    Db(users, map[], map[], 1, 1)
  }

  /** The database the repositories share. */
  class Database {
    var users: map<int, User>
    var listings: map<int, FoodListing>
    var claims: map<int, Claim>
    var nextListingId: int
    var nextClaimId: int

    function State(): Db
      reads this
    {
      Db(users, listings, claims, nextListingId, nextClaimId)
    }

    constructor (registered: map<int, User>)
      requires forall k :: k in registered ==> registered[k].id == k
      ensures State() == EmptyDb(registered)
    {
      users := registered;
      listings := map[];
      claims := map[];
      nextListingId := 1;
      nextClaimId := 1;
    }
  }

  /** A proof step for `SelectRows`, not a model of any source code: it justifies
      picking a key with `:|` from a set that is not yet empty. */
  lemma NonEmptyHasMember(s: set<int>)
    requires s != {}
    ensures exists x :: x in s
  {
    if forall x :: x !in s {
      assert false;
    }
  }

  /** A derived query `findBy...`: every row of a table that satisfies `p`,
      each once, in no particular order. */
  method SelectRows<T(==)>(table: map<int, T>, key: T -> int, p: T -> bool) returns (r: seq<T>)
    requires forall k :: k in table ==> key(table[k]) == k
    ensures forall k :: k in table && p(table[k]) ==> table[k] in r
    ensures forall i :: 0 <= i < |r| ==> key(r[i]) in table && table[key(r[i])] == r[i] && p(r[i])
    ensures forall i, j :: 0 <= i < j < |r| ==> key(r[i]) != key(r[j])
  {
    var keys := table.Keys;
    ghost var ks: seq<int> := [];
    r := [];
    while keys != {}
      invariant keys <= table.Keys
      invariant |ks| == |r|
      invariant forall i :: 0 <= i < |ks| ==> ks[i] in table && ks[i] !in keys && r[i] == table[ks[i]] && p(r[i])
      invariant forall k :: k in table && k !in keys && p(table[k]) ==> k in ks
      invariant forall i, j :: 0 <= i < j < |ks| ==> ks[i] != ks[j]
      decreases |keys|
    {
      NonEmptyHasMember(keys);
      var k :| k in keys;
      if p(table[k]) {
        r := r + [table[k]];
        ks := ks + [k];
      }
      keys := keys - {k};
    }
    forall k | k in table && p(table[k]) ensures table[k] in r {
      var i :| 0 <= i < |ks| && ks[i] == k;
      assert r[i] == table[k];
    }
  }
}
