/** The browsing page (src/pages/BrowseFood.tsx): the available listings, the
    category filter and the claim form. */
module BrowsePage {
  import opened Common
  import opened Auth
  import opened FoodData
  import MyClaimsPage

  /** `availableListings` */
  function AvailableListings(ls: seq<FoodListing>): (r: seq<FoodListing>)
    ensures forall l :: l in r <==> l in ls && l.status == Available
    ensures IsSubsequence(r, ls)
  {
    Filter(ls, (l: FoodListing) => l.status == Available)
  }

  /** `[...new Set(listings.map(l => l.category))]`: the categories of every
      listing, available or not, each once in order of first appearance. */
  function ListingCategories(ls: seq<FoodListing>): (r: seq<string>)
    ensures forall c :: c in r <==> exists i :: 0 <= i < |ls| && ls[i].category == c
    ensures NoDuplicates(r) && |r| <= |ls|
    ensures forall i, j, b :: 0 <= i < j < |r| && 0 <= b < |ls| && ls[b].category == r[j] ==>
              exists a :: 0 <= a < b && ls[a].category == r[i]
  {
    var cats := Map(ls, (l: FoodListing) => l.category);
    var r := Distinct(cats);
    DistinctCategories(ls, cats, r);
    r
  }

  /** The distinct categories are exactly those that occur in `ls`, in the order in
      which they first occur. */
  lemma DistinctCategories(ls: seq<FoodListing>, names: seq<string>, r: seq<string>)
    requires |names| == |ls| && forall k :: 0 <= k < |ls| ==> names[k] == ls[k].category
    requires r == Distinct(names)
    ensures forall n :: n in r <==> exists i :: 0 <= i < |ls| && ls[i].category == n
    ensures forall i, j, b :: 0 <= i < j < |r| && 0 <= b < |ls| && ls[b].category == r[j] ==>
              exists a :: 0 <= a < b && ls[a].category == r[i]
  {
    forall n ensures n in names <==> exists i :: 0 <= i < |ls| && ls[i].category == n {
      if n in names {
        var j :| 0 <= j < |names| && names[j] == n;
      }
    }
    DistinctInOrder(names);
    forall i, j, b | 0 <= i < j < |r| && 0 <= b < |ls| && ls[b].category == r[j]
      ensures exists a :: 0 <= a < b && ls[a].category == r[i]
    {
      assert names[b] == r[j];
      var a :| 0 <= a < b && names[a] == r[i];
    }
  }

  /** `['All', ...new Set(listings.map(l => l.category))]`: the filter options,
      "All" first and then the listing categories. */
  function Categories(ls: seq<FoodListing>): (r: seq<string>)
    ensures |r| >= 1 && r[0] == "All"
    ensures forall c :: c in r[1..] <==> exists i :: 0 <= i < |ls| && ls[i].category == c
    ensures NoDuplicates(r[1..])
    ensures var cs := r[1..];
            forall i, j, b :: 0 <= i < j < |cs| && 0 <= b < |ls| && ls[b].category == cs[j] ==>
              exists a :: 0 <= a < b && ls[a].category == cs[i]
    ensures |r| <= |ls| + 1
  {
    var r := ["All"] + ListingCategories(ls);
    assert r[1..] == ListingCategories(ls);
    r
  }

  /** `filteredListings` for the selected category. */
  function FilteredListings(available: seq<FoodListing>, category: string): (r: seq<FoodListing>)
    ensures category == "All" ==> r == available
    ensures category != "All" ==> forall l :: l in r <==> l in available && l.category == category
  {
    if category == "All" then available
    else Filter(available, (l: FoodListing) => l.category == category)
  }

  /** Whatever the category, the page offers only available listings. */
  lemma OnlyAvailableOffered(ls: seq<FoodListing>, category: string)
    ensures forall l :: l in FilteredListings(AvailableListings(ls), category) ==> l in ls && l.status == Available
  {
  }

  /** `handleClaimFood` for the listing whose form is open (as it was when opened):
      a quantity must be positive and at most what the listing offers; the
      claim goes out under `user?.id || ''` and the user's display name, and
      the typed message is not passed on. */
  function HandleClaimFood(s: Store, selected: Option<FoodListing>, quantity: real, user: Option<User>,
                           id: string, today: string): (r: Option<Store>)
    ensures r.Some? <==> selected.Some? && 0.0 < quantity <= selected.value.quantity
    ensures r.Some? ==>
              r.value == ClaimFoodStep(s, selected.value.id, quantity, IdOrEmpty(user), DisplayName(user), id, today)
  {
    if selected.None? || quantity <= 0.0 || quantity > selected.value.quantity then None
    else Some(ClaimFoodStep(s, selected.value.id, quantity, IdOrEmpty(user), DisplayName(user), id, today))
  }

  /** An accepted claim is pending, carries no message, and is listed on the
      claimant's own claims page. */
  lemma ClaimShowsOnMyClaims(s: Store, l: FoodListing, quantity: real, u: User, id: string, today: string)
    requires 0.0 < quantity <= l.quantity
    ensures var r := HandleClaimFood(s, Some(l), quantity, Some(u), id, today);
            r.Some? &&
            var c := r.value.claims[|s.claims|];
            c.status == Pending && c.message.None? && c.listingId == l.id && c.quantity == quantity &&
            c in MyClaimsPage.MyClaims(r.value.claims, Some(u))
  {
    var r := HandleClaimFood(s, Some(l), quantity, Some(u), id, today).value;
    var c := r.claims[|s.claims|];
    assert c.recipientId == u.id;
    assert MyClaimsPage.Mine(c, Some(u));
  }

  /** A claim made while signed out is filed under the empty id and name, so no
      signed-out visitor's claims page ever lists it. */
  lemma SignedOutClaimIsAnonymous(s: Store, l: FoodListing, quantity: real, id: string, today: string)
    requires 0.0 < quantity <= l.quantity
    ensures var r := HandleClaimFood(s, Some(l), quantity, None, id, today);
            r.Some? && r.value.claims[|s.claims|].recipientId == "" &&
            r.value.claims[|s.claims|].recipientName == "" &&
            MyClaimsPage.MyClaims(r.value.claims, None) == []
  {
  }
}
