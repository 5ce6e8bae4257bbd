/** The admin user page (src/pages/AdminUsers.tsx): the donors and recipient
    organisations known from the store, by name, and the statistics row of
    each. */
module AdminUsersPage {
  import opened Common
  import opened FoodData

  /** The distinct donor names are exactly those that occur in `ls`, in the order in
      which they first occur. */
  lemma DistinctDonorNames(ls: seq<FoodListing>, names: seq<string>, r: seq<string>)
    requires |names| == |ls| && forall k :: 0 <= k < |ls| ==> names[k] == ls[k].donorName
    requires r == Distinct(names)
    ensures forall n :: n in r <==> exists i :: 0 <= i < |ls| && ls[i].donorName == n
    ensures forall i, j, b :: 0 <= i < j < |r| && 0 <= b < |ls| && ls[b].donorName == r[j] ==>
              exists a :: 0 <= a < b && ls[a].donorName == r[i]
  {
    forall n ensures n in names <==> exists i :: 0 <= i < |ls| && ls[i].donorName == n {
      if n in names {
        var j :| 0 <= j < |names| && names[j] == n;
      }
    }
    DistinctInOrder(names);
    forall i, j, b | 0 <= i < j < |r| && 0 <= b < |ls| && ls[b].donorName == r[j]
      ensures exists a :: 0 <= a < b && ls[a].donorName == r[i]
    {
      assert names[b] == r[j];
      var a :| 0 <= a < b && names[a] == r[i];
    }
  }

  /** `Array.from(new Set(listings.map(l => l.donorName)))`: each donor name once,
      in order of first appearance. */
  function DonorNames(ls: seq<FoodListing>): (r: seq<string>)
    ensures NoDuplicates(r) && |r| <= |ls|
    ensures forall n :: n in r <==> exists i :: 0 <= i < |ls| && ls[i].donorName == n
    ensures forall i, j, b :: 0 <= i < j < |r| && 0 <= b < |ls| && ls[b].donorName == r[j] ==>
              exists a :: 0 <= a < b && ls[a].donorName == r[i]
  {
    var names := Map(ls, (l: FoodListing) => l.donorName);
    var r := Distinct(names);
    DistinctDonorNames(ls, names, r);
    r
  }

  /** The distinct recipient names are exactly those that occur in `cs`, in the order in
      which they first occur. */
  lemma DistinctRecipientNames(cs: seq<FoodClaim>, names: seq<string>, r: seq<string>)
    requires |names| == |cs| && forall k :: 0 <= k < |cs| ==> names[k] == cs[k].recipientName
    requires r == Distinct(names)
    ensures forall n :: n in r <==> exists i :: 0 <= i < |cs| && cs[i].recipientName == n
    ensures forall i, j, b :: 0 <= i < j < |r| && 0 <= b < |cs| && cs[b].recipientName == r[j] ==>
              exists a :: 0 <= a < b && cs[a].recipientName == r[i]
  {
    forall n ensures n in names <==> exists i :: 0 <= i < |cs| && cs[i].recipientName == n {
      if n in names {
        var j :| 0 <= j < |names| && names[j] == n;
      }
    }
    DistinctInOrder(names);
    forall i, j, b | 0 <= i < j < |r| && 0 <= b < |cs| && cs[b].recipientName == r[j]
      ensures exists a :: 0 <= a < b && cs[a].recipientName == r[i]
    {
      assert names[b] == r[j];
      var a :| 0 <= a < b && names[a] == r[i];
    }
  }

  /** `Array.from(new Set(claims.map(c => c.recipientName)))`: each recipient name
      once, in order of first appearance. */
  function RecipientNames(cs: seq<FoodClaim>): (r: seq<string>)
    ensures NoDuplicates(r) && |r| <= |cs|
    ensures forall n :: n in r <==> exists i :: 0 <= i < |cs| && cs[i].recipientName == n
    ensures forall i, j, b :: 0 <= i < j < |r| && 0 <= b < |cs| && cs[b].recipientName == r[j] ==>
              exists a :: 0 <= a < b && cs[a].recipientName == r[i]
  {
    var names := Map(cs, (c: FoodClaim) => c.recipientName);
    var r := Distinct(names);
    DistinctRecipientNames(cs, names, r);
    r
  }

  /** `listings.filter(l => l.donorName === name)` */
  function ListingsOf(ls: seq<FoodListing>, name: string): (r: seq<FoodListing>)
    ensures forall l :: l in r <==> l in ls && l.donorName == name
    ensures |r| <= |ls|
  {
    Filter(ls, (l: FoodListing) => l.donorName == name)
  }

  /** `claims.filter(c => c.recipientName === name)` */
  function ClaimsOfRecipient(cs: seq<FoodClaim>, name: string): (r: seq<FoodClaim>)
    ensures forall c :: c in r <==> c in cs && c.recipientName == name
    ensures |r| <= |cs|
  {
    Filter(cs, (c: FoodClaim) => c.recipientName == name)
  }

  /** `getUserStats(name, type)`: one row of either table. */
  datatype UserStats =
    | DonorStats(totalListings: nat, totalFood: real, distributed: nat)
    | RecipientStats(totalClaims: nat, approved: nat, completed: nat)

  /** The row of a donor name: distributed listings are among its listings. */
  function DonorStatsOf(ls: seq<FoodListing>, name: string): (r: UserStats)
    ensures r.DonorStats?
    ensures r.totalListings == |ListingsOf(ls, name)| && r.distributed <= r.totalListings
    ensures r.totalFood == SumOf(ListingsOf(ls, name), (l: FoodListing) => l.quantity)
    ensures r.distributed == Count(ListingsOf(ls, name), (l: FoodListing) => l.status == Distributed)
  {
    var mine := ListingsOf(ls, name);
    DonorStats(|mine|, SumOf(mine, (l: FoodListing) => l.quantity),
               Count(mine, (l: FoodListing) => l.status == Distributed))
  }

  /** The row of a recipient name: approved and completed claims are disjoint
      parts of its claims. */
  function RecipientStatsOf(cs: seq<FoodClaim>, name: string): (r: UserStats)
    ensures r.RecipientStats?
    ensures r.totalClaims == |ClaimsOfRecipient(cs, name)| && r.approved + r.completed <= r.totalClaims
    ensures r.approved == Count(ClaimsOfRecipient(cs, name), (c: FoodClaim) => c.status == Approved)
    ensures r.completed == Count(ClaimsOfRecipient(cs, name), (c: FoodClaim) => c.status == Completed)
  {
    var mine := ClaimsOfRecipient(cs, name);
    DisjointCounts(mine, (c: FoodClaim) => c.status == Approved, (c: FoodClaim) => c.status == Completed);
    RecipientStats(|mine|, Count(mine, (c: FoodClaim) => c.status == Approved),
                   Count(mine, (c: FoodClaim) => c.status == Completed))
  }

  /** Every donor in the table has at least one listing. */
  lemma ListedDonorsHaveListings(ls: seq<FoodListing>, name: string)
    requires name in DonorNames(ls)
    ensures DonorStatsOf(ls, name).totalListings >= 1
  {
    var i :| 0 <= i < |ls| && ls[i].donorName == name;
    assert ls[i] in ListingsOf(ls, name);
  }

  /** Every recipient in the table has at least one claim. */
  lemma ListedRecipientsHaveClaims(cs: seq<FoodClaim>, name: string)
    requires name in RecipientNames(cs)
    ensures RecipientStatsOf(cs, name).totalClaims >= 1
  {
    var i :| 0 <= i < |cs| && cs[i].recipientName == name;
    assert cs[i] in ClaimsOfRecipient(cs, name);
  }

  // ------------------------------------- the Listings column adds up

  /** The sum of the Listings column over the rows of `names`. */
  function ListingsColumn(ls: seq<FoodListing>, names: seq<string>): nat
    decreases |names|
  {
    if names == [] then 0 else |ListingsOf(ls, names[0])| + ListingsColumn(ls, names[1..])
  }

  /** How many of `names` equal `x`. */
  function Occurrences(x: string, names: seq<string>): nat
    decreases |names|
  {
    if names == [] then 0 else (if names[0] == x then 1 else 0) + Occurrences(x, names[1..])
  }

  lemma {:induction false} OccursOnce(x: string, names: seq<string>)
    requires x in names && NoDuplicates(names)
    ensures Occurrences(x, names) == 1
    decreases |names|
  {
    if names[0] == x {
      NotOccurring(x, names[1..]);
    } else {
      OccursOnce(x, names[1..]);
    }
  }

  lemma {:induction false} NotOccurring(x: string, names: seq<string>)
    requires x !in names
    ensures Occurrences(x, names) == 0
    decreases |names|
  {
    if names != [] {
      NotOccurring(x, names[1..]);
    }
  }

  /** Dropping the first listing takes one from the column for each row of its donor. */
  lemma {:induction false} ColumnStep(ls: seq<FoodListing>, names: seq<string>)
    requires ls != []
    ensures ListingsColumn(ls, names) == Occurrences(ls[0].donorName, names) + ListingsColumn(ls[1..], names)
    decreases |names|
  {
    if names != [] {
      ColumnStep(ls, names[1..]);
      if ls[0].donorName == names[0] {
        assert ListingsOf(ls, names[0]) == [ls[0]] + ListingsOf(ls[1..], names[0]);
      }
    }
  }

  /** Rows for distinct names covering every donor count every listing once. */
  lemma {:induction false} ColumnCountsEachListingOnce(ls: seq<FoodListing>, names: seq<string>)
    requires NoDuplicates(names)
    requires forall i :: 0 <= i < |ls| ==> ls[i].donorName in names
    ensures ListingsColumn(ls, names) == |ls|
    decreases |ls|
  {
    if ls == [] {
      NoListingsEmptyColumn(names);
    } else {
      ColumnStep(ls, names);
      OccursOnce(ls[0].donorName, names);
      ColumnCountsEachListingOnce(ls[1..], names);
    }
  }

  lemma {:induction false} NoListingsEmptyColumn(names: seq<string>)
    ensures ListingsColumn([], names) == 0
    decreases |names|
  {
    if names != [] {
      NoListingsEmptyColumn(names[1..]);
    }
  }

  /** The donor table's Listings column adds up to the number of listings. */
  lemma DonorTableCountsEveryListing(ls: seq<FoodListing>)
    ensures ListingsColumn(ls, DonorNames(ls)) == |ls|
  {
    forall i | 0 <= i < |ls| ensures ls[i].donorName in DonorNames(ls) {
    }
    ColumnCountsEachListingOnce(ls, DonorNames(ls));
  }
}
