/** The recipient's claims page (src/pages/MyClaims.tsx): the claims of the
    signed-in user, the status filter, and the two actions offered on a
    pending claim. */
module MyClaimsPage {
  import opened Common
  import opened Auth
  import opened FoodData

  /** `c.recipientId === user?.id || c.recipientName === user?.organizationName` */
  predicate Mine(c: FoodClaim, user: Option<User>) {
    Some(c.recipientId) == IdOf(user) || Some(c.recipientName) == OrganizationOf(user)
  }

  /** `myClaims`: the user's claims, in store order. */
  function MyClaims(cs: seq<FoodClaim>, user: Option<User>): (r: seq<FoodClaim>)
    ensures IsSubsequence(r, cs)
    ensures forall c :: c in r <==> c in cs && Mine(c, user)
    ensures user.None? ==> r == []
  {
    Filter(cs, (c: FoodClaim) => Mine(c, user))
  }

  /** A user without an organisation name sees exactly the claims made under their id. */
  lemma MyClaimsWithoutOrganisation(cs: seq<FoodClaim>, u: User)
    requires u.organizationName.None?
    ensures forall c :: c in MyClaims(cs, Some(u)) <==> c in cs && c.recipientId == u.id
  {
  }

  /** The value of the status drop-down. */
  datatype StatusFilter = All | Only(status: ClaimStatus)

  /** `filteredClaims` */
  function FilteredClaims(mine: seq<FoodClaim>, f: StatusFilter): (r: seq<FoodClaim>)
    ensures f == All ==> r == mine
    ensures f.Only? ==> forall c :: c in r <==> c in mine && c.status == f.status
    ensures IsSubsequence(r, mine)
  {
    match f
    case All =>
      SubsequenceOfItself(mine);
      mine
    case Only(st) =>
      Filter(mine, (c: FoodClaim) => c.status == st)
  }

  /** Every list is a subsequence of itself. */
  lemma {:induction false} SubsequenceOfItself<T>(s: seq<T>)
    ensures IsSubsequence(s, s)
    decreases |s|
  {
    if s != [] {
      SubsequenceOfItself(s[1..]);
    }
  }

  /** Filtering by each of the four statuses splits the user's claims. */
  lemma {:induction false} FiltersPartitionClaims(mine: seq<FoodClaim>)
    ensures |FilteredClaims(mine, Only(Pending))| + |FilteredClaims(mine, Only(Approved))| +
            |FilteredClaims(mine, Only(Completed))| + |FilteredClaims(mine, Only(Rejected))| == |mine|
  {
    if mine != [] {
      FiltersPartitionClaims(mine[1..]);
    }
  }

  /** "Mark as Completed" and "Cancel Claim". */
  datatype ClaimAction = MarkCompleted | CancelClaim

  /** The status an action sets: cancelling a claim rejects it. */
  function ActionStatus(a: ClaimAction): ClaimStatus {
    match a
    case MarkCompleted => Completed
    case CancelClaim => Rejected
  }

  /** A click in the details of `selected`, the claim as it was when the details were
      opened: the buttons exist only for a pending claim, and call `updateClaim`. */
  function HandleAction(s: Store, selected: FoodClaim, a: ClaimAction, id: string, now: string): (r: Option<Store>)
    ensures r.Some? <==> selected.status == Pending
    ensures r.Some? ==> r.value == UpdateClaimStep(s, selected.id, ActionStatus(a), id, now)
  {
    if selected.status == Pending then Some(UpdateClaimStep(s, selected.id, ActionStatus(a), id, now))
    else None
  }

  /** Neither action ever schedules a delivery, and each leaves the claim in the
      status its button names. */
  lemma ActionsScheduleNothing(s: Store, selected: FoodClaim, a: ClaimAction, id: string, now: string)
    requires selected.status == Pending
    ensures var r := HandleAction(s, selected, a, id, now).value;
            r.deliveries == s.deliveries &&
            forall i :: 0 <= i < |s.claims| && s.claims[i].id == selected.id ==>
              r.claims[i].status == ActionStatus(a)
  {
  }

  /** Completing one claim marks every listing that embeds claims as distributed,
      not only the claim's own listing. */
  lemma CompletingMarksEveryListingWithClaims(s: Store, selected: FoodClaim, id: string, now: string)
    requires selected.status == Pending
    ensures var r := HandleAction(s, selected, MarkCompleted, id, now).value;
            forall i :: 0 <= i < |s.listings| && ClaimsOf(s.listings[i]) != [] ==>
              r.listings[i].status == Distributed
  {
  }

  /** Cancelling a claim puts its listing back on offer only when the listing was
      claimed and no embedded claim remains approved or pending. */
  lemma CancellingRevertsOnlyIdleClaimedListings(s: Store, selected: FoodClaim, id: string, now: string)
    requires selected.status == Pending
    ensures var r := HandleAction(s, selected, CancelClaim, id, now).value;
            forall i :: 0 <= i < |s.listings| ==>
              (r.listings[i].status != s.listings[i].status <==>
                 ClaimsOf(s.listings[i]) != [] && s.listings[i].status == Claimed &&
                 !HasActiveClaim(ClaimsOf(r.listings[i])))
  {
  }
}
