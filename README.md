# Food-waste platform: a verified model of its claim life cycle

The platform connects food donors with recipient organisations. A donor lists
surplus food. A recipient claims part of it. The claim is approved, collected
and completed, and the platform tracks a delivery and reports on its impact.

The project models the core of that life cycle twice, as the repository has it:

- **The browser store** (`FoodDataProvider`, module `Provider`).
  - It is a class with four `seq` fields: listings, claims, deliveries and metrics.
  - Every method replaces fields the way the React setters do.
  - Each method is proved equal to a pure next-state function in module `FoodData`.
  - Module `Lifecycle` proves what those functions keep and what they fail to keep:
    - the copies of claims embedded in listings stay in step with the claim list;
    - a claim gets at most one automatically scheduled delivery;
    - every delivery refers to an existing claim;
    - the looser behaviour of the source, shown by concrete lemmas (a status recompute over every listing with claims, claims on missing listings, orphans left by a delete, duplicate deliveries made by hand).
- **The Spring backend** (modules `Entities`, `Claims`, `Listings`).
  - Each JPA repository is a `map` from id to entity inside one `Database` object.
  - An invariant `Valid` holds the schema's guarantees: the keys are the ids, the foreign keys resolve, and the identity counters lie past every key.
  - `ClaimService` and `FoodListingService` are classes over that database.
  - Each of their methods is proved against a step function with a `null`-on-missing result (`Option`).
- **The pages** (one module each). Every page is a pure function over the store's sequences:
  - the role filter and the two buttons of the delivery page;
  - the pending-only claim actions and the claim-quantity and required-field guards;
  - the counts, sums and zero-guarded percentages of the dashboards and reports;
  - the user statistics;
  - the substring filter and in-place asc/desc sort of the user admin table;
  - the zod form schemas, as lists of field issues.

Ids, dates and times (`Date.now()`, `new Date()`) are parameters of the operations
that use them. zod's email pattern (`isEmail`) and the browser's `parseFloat`
(`parse`) are function parameters too.

Two places where the code, not the design text, is followed:

- `updateClaim` recomputes the status of every listing that carries embedded claims, not only the claimed listing's. See `Lifecycle.ApprovalTouchesUnrelatedListing`.
- `MyClaims` and `DeliveryTracking` compare an absent `organizationName` with `===`. That is safe for claims, whose names are always strings. It is not safe for a listing that has gone, where `undefined === undefined` holds, so a donor without an organisation sees the deliveries of deleted listings. `ImpactCertificates` likewise counts, for a signed-out visitor, the completed claims whose listing is gone.

## Model

| member | source | states |
|---|---|---|
| FoodData.FindListing | src/contexts/FoodDataContext.tsx:174 | `find` by id: none exactly when no listing has the id; otherwise the first listing with that id |
| FoodData.FindClaim | src/contexts/FoodDataContext.tsx:174 | `claims.find(c => c.id === claimId)`: none exactly when no claim has the id; otherwise the first claim with that id |
| FoodData.FindDeliveryFor | src/contexts/FoodDataContext.tsx:228-230 | the first delivery with the claim id: none iff no delivery has it, otherwise it is at an index with no earlier match |
| FoodData.NewListing | src/contexts/FoodDataContext.tsx:137-141 | the new listing has the given id and date and gives back exactly the caller's fields (`DraftOf`) |
| FoodData.ListingFromDraft | src/contexts/FoodDataContext.tsx:137-141 | a listing is rebuilt exactly from its fields, id and date: the spread loses nothing |
| FoodData.MergeListing | src/contexts/FoodDataContext.tsx:146 | `{ ...l, ...updates }`: an empty update changes nothing; a status or claims key in the update wins |
| FoodData.MergeListingIdempotent | src/contexts/FoodDataContext.tsx:146 | merging the same update twice equals merging it once |
| FoodData.UpdateListings | src/contexts/FoodDataContext.tsx:146 | same length; listings with the id are merged, all others unchanged; no match leaves the list as it was |
| FoodData.DeleteListings | src/contexts/FoodDataContext.tsx:150 | exactly the listings without the id remain, in their order |
| FoodData.AttachClaim | src/contexts/FoodDataContext.tsx:166-170 | the listing with the id gets the claim at the end of its claims (absent counts as empty), the rest are unchanged |
| FoodData.SetClaimStatus | src/contexts/FoodDataContext.tsx:176 | only the status of the claims with the id changes, to the new status; every other field and claim is kept |
| FoodData.NextListingStatus | src/contexts/FoodDataContext.tsx:184-194 | approved gives claimed, completed gives distributed, pending keeps; rejected changes the status exactly when it was claimed and no updated claim is active, and then to available |
| FoodData.RecomputeListing | src/contexts/FoodDataContext.tsx:177-197 | a listing with absent or empty claims is returned as is; otherwise its embedded copies get the status and its status is `NextListingStatus` of them |
| FoodData.RecomputeListings | src/contexts/FoodDataContext.tsx:177-197 | every listing, not only the claimed one's, is recomputed |
| FoodData.DeliveriesAfterUpdate | src/contexts/FoodDataContext.tsx:199-209 | one delivery is appended iff the status is approved, the claim exists and no delivery has the claim id; it is scheduled, at distance 0, with no photos and the pickup time now |
| FoodData.MergeDelivery | src/contexts/FoodDataContext.tsx:225 | an empty update changes nothing; the status in the update wins; no delivery time is stamped unless given |
| FoodData.UpdateDeliveries | src/contexts/FoodDataContext.tsx:225 | deliveries with the id are merged, all others unchanged |
| FoodData.AddListingStep | src/contexts/FoodDataContext.tsx:136-143 | exactly one listing appended with the fresh id and date and every caller field kept; earlier listings and the other collections unchanged |
| FoodData.UpdateListingStep | src/contexts/FoodDataContext.tsx:145-147 | the id's listings merged, others unchanged, silent no-op without a match, a given status overrides; other collections unchanged |
| FoodData.DeleteListingStep | src/contexts/FoodDataContext.tsx:149-151 | every listing with the id removed, the rest kept in order; claims and deliveries untouched |
| FoodData.ClaimFoodStep | src/contexts/FoodDataContext.tsx:153-171 | one pending claim appended with the given fields; the listing with the id gets it embedded with its status kept; other listings, deliveries and metrics unchanged |
| FoodData.UpdateClaimStep | src/contexts/FoodDataContext.tsx:173-210 | only the status of the claim changes; listings without claims unchanged, the others recomputed field by field; deliveries as `DeliveriesAfterUpdate`; metrics unchanged |
| FoodData.CreateDeliveryStep | src/contexts/FoodDataContext.tsx:212-222 | one scheduled delivery with the given distance appended without any check; nothing else changes |
| FoodData.UpdateDeliveryStep | src/contexts/FoodDataContext.tsx:224-226 | only deliveries with the id are merged; without a time in the update no time changes |
| Provider.FoodDataProvider.constructor | src/contexts/FoodDataContext.tsx:130-134 | starts from the seed listings and metrics with no claims or deliveries, a state in which the embedded copies agree and every delivery resolves |
| Provider.FoodDataProvider.AddListing | src/contexts/FoodDataContext.tsx:136-143 | the new state is `AddListingStep` of the old |
| Provider.FoodDataProvider.UpdateListing | src/contexts/FoodDataContext.tsx:145-147 | the new state is `UpdateListingStep`; an update without claims keeps the embedded copies in step |
| Provider.FoodDataProvider.DeleteListing | src/contexts/FoodDataContext.tsx:149-151 | the new state is `DeleteListingStep`; embedded copies stay in step |
| Provider.FoodDataProvider.ClaimFood | src/contexts/FoodDataContext.tsx:153-171 | the new state is `ClaimFoodStep`; with a fresh id the embedded copies stay in step |
| Provider.FoodDataProvider.UpdateClaim | src/contexts/FoodDataContext.tsx:173-210 | the new state is `UpdateClaimStep`; it keeps the copies in step, at most one delivery per claim and every delivery resolving |
| Provider.FoodDataProvider.CreateDelivery | src/contexts/FoodDataContext.tsx:212-222 | the new state is `CreateDeliveryStep` |
| Provider.FoodDataProvider.UpdateDelivery | src/contexts/FoodDataContext.tsx:224-226 | the new state is `UpdateDeliveryStep` |
| Provider.FoodDataProvider.GetDeliveriesByClaim | src/contexts/FoodDataContext.tsx:228-230 | none iff no delivery has the claim id, else the first one; with one delivery per claim it is the only one |
| Lifecycle.FindAfterSetStatus | src/contexts/FoodDataContext.tsx:176 | looking a claim up after the status update finds the old claim with the new status if it is the target |
| Lifecycle.FindAfterAppend | src/contexts/FoodDataContext.tsx:163 | looking up after an append finds an earlier claim first, else the new one |
| Lifecycle.InitialStoreInSync | src/contexts/FoodDataContext.tsx:75-134 | the seed state satisfies all three store invariants |
| Lifecycle.UpdateClaimKeepsCopiesInSync | src/contexts/FoodDataContext.tsx:176-197 | each embedded claim copy still equals the claim of its id after `updateClaim` |
| Lifecycle.CopyAfterSetStatus | src/contexts/FoodDataContext.tsx:182 | an embedded copy that equals its claim still does once both get the new status |
| Lifecycle.ClaimFoodKeepsCopiesInSync | src/contexts/FoodDataContext.tsx:153-171 | with a fresh claim id, claiming keeps every embedded copy equal to the claim of its id |
| Lifecycle.AddListingKeepsCopiesInSync | src/contexts/FoodDataContext.tsx:136-143 | adding a listing whose claims are known keeps the copies in step |
| Lifecycle.UpdateListingKeepsCopiesInSync | src/contexts/FoodDataContext.tsx:145-147 | an update that carries no claims keeps the copies in step |
| Lifecycle.DeleteListingKeepsCopiesInSync | src/contexts/FoodDataContext.tsx:149-151 | deleting keeps the copies in step |
| Lifecycle.UpdateClaimKeepsOneDeliveryPerClaim | src/contexts/FoodDataContext.tsx:199 | `updateClaim` never gives a claim a second delivery |
| Lifecycle.ApprovalLeavesExactlyOneDelivery | src/contexts/FoodDataContext.tsx:199-209 | approving an existing claim leaves exactly one delivery for it |
| Lifecycle.ApproveTwiceSchedulesOnce | src/contexts/FoodDataContext.tsx:199 | a second approval adds no delivery |
| Lifecycle.OnlyApprovalSchedules | src/contexts/FoodDataContext.tsx:199 | any status other than approved leaves the deliveries unchanged |
| Lifecycle.UpdateClaimKeepsDeliveriesResolved | src/contexts/FoodDataContext.tsx:173-210 | if every delivery resolved to a claim before, it still does |
| Lifecycle.UpdateClaimKeepsInvariants | src/contexts/FoodDataContext.tsx:173-210 | the three store invariants each survive `updateClaim` |
| Lifecycle.CreateDeliveryMayDangle | src/contexts/FoodDataContext.tsx:212-222 | `createDelivery` for an unknown claim leaves a delivery that does not resolve |
| Lifecycle.CreateDeliveryMayDuplicate | src/contexts/FoodDataContext.tsx:212-222 | `createDelivery` for a claim that has a delivery gives it two |
| Lifecycle.ApproveThenComplete | src/contexts/FoodDataContext.tsx:185-188 | a listing with claims becomes claimed on approval and distributed on completion |
| Lifecycle.RejectLastActiveClaimReverts | src/contexts/FoodDataContext.tsx:189-193 | rejecting the last active claim of a claimed listing makes it available |
| Lifecycle.RejectWithOtherActiveClaimKeepsStatus | src/contexts/FoodDataContext.tsx:190-191 | another approved or pending claim keeps the status on rejection |
| Lifecycle.RejectOnlyRevertsClaimed | src/contexts/FoodDataContext.tsx:191 | rejection never changes a listing that is not claimed |
| Lifecycle.ApprovalRelabelsEveryListingWithClaims | src/contexts/FoodDataContext.tsx:177-186 | approval marks every listing with any embedded claim as claimed |
| Lifecycle.ApprovalTouchesUnrelatedListing | src/contexts/FoodDataContext.tsx:177-186 | concretely: approving c1 relabels a listing that only carries c2 |
| Lifecycle.UpdateUnknownClaim | src/contexts/FoodDataContext.tsx:176-199 | for an unknown id the claims and deliveries stay, yet approval still relabels listings with claims |
| Lifecycle.ClaimFoodWithoutListing | src/contexts/FoodDataContext.tsx:153-163 | claiming a missing listing still records the claim and leaves the listings as they were |
| Lifecycle.DeleteListingOrphansClaims | src/contexts/FoodDataContext.tsx:149-151 | a claim on a deleted listing remains and its listing no longer resolves |
| Lifecycle.ClaimLifecycleScenario | src/contexts/FoodDataContext.tsx:153-210 | claim, approve, complete on the seed store: pending then claimed with one delivery then distributed, copies in step |
| Entities.EmptyDb | backend/src/main/java/com/vishnu/backend/entity/Claim.java:15-25 | a schema with users and no listings or claims satisfies the schema invariant |
| Entities.Database.constructor | backend/src/main/java/com/vishnu/backend/repository/ClaimRepository.java:9-13 | the repositories start empty over the registered users |
| Entities.SelectRows | backend/src/main/java/com/vishnu/backend/repository/ClaimRepository.java:10-11 | a derived query: every row meeting the condition, only such rows, each once |
| Claims.CreateClaimStep | backend/src/main/java/com/vishnu/backend/service/ClaimService.java:27-44 | null and no change iff the listing or the claimant is missing; otherwise a fresh PENDING claim of that listing and claimant is the one row added |
| Claims.ApproveClaimStep | backend/src/main/java/com/vishnu/backend/service/ClaimService.java:46-63 | null and no change for a missing id; otherwise the claim becomes APPROVED and its listing CLAIMED, both stamped, nothing else changes |
| Claims.CompleteClaimStep | backend/src/main/java/com/vishnu/backend/service/ClaimService.java:65-78 | null and no change for a missing id; otherwise COMPLETED with `completedAt` set and the listings untouched |
| Claims.CreateApproveComplete | backend/src/main/java/com/vishnu/backend/service/ClaimService.java:27-78 | the three calls in turn succeed, the listing is CLAIMED after approval and stays so on completion |
| Claims.ApprovalIgnoresCurrentStatus | backend/src/main/java/com/vishnu/backend/service/ClaimService.java:50-51 | even a completed, rejected or cancelled claim is approved and its listing claimed |
| Claims.ClaimService.CreateClaim | backend/src/main/java/com/vishnu/backend/service/ClaimService.java:27-44 | result and new state are `CreateClaimStep`; the schema invariant holds |
| Claims.ClaimService.ApproveClaim | backend/src/main/java/com/vishnu/backend/service/ClaimService.java:46-63 | result and new state are `ApproveClaimStep` |
| Claims.ClaimService.CompleteClaim | backend/src/main/java/com/vishnu/backend/service/ClaimService.java:65-78 | result and new state are `CompleteClaimStep` |
| Claims.ClaimService.GetClaimsByClaimant | backend/src/main/java/com/vishnu/backend/service/ClaimService.java:80-82 | exactly the claimant's claims, each once |
| Claims.ClaimService.GetClaimsByListing | backend/src/main/java/com/vishnu/backend/service/ClaimService.java:84-86 | exactly the claims of the listing, each once; none for a null id |
| Listings.CreateListingStep | backend/src/main/java/com/vishnu/backend/service/FoodListingService.java:24-37 | null and no change iff the donor is missing; otherwise a fresh AVAILABLE listing of that donor with the given details and stamps is added |
| Listings.UpdateListingStep | backend/src/main/java/com/vishnu/backend/service/FoodListingService.java:58-74 | null for a missing id; otherwise only the non-null of foodType, quantity, description, expiryTime overwrite, plus the stamp |
| Listings.UpdateListingStatusStep | backend/src/main/java/com/vishnu/backend/service/FoodListingService.java:76-84 | sets the status and stamp of an existing listing only; silent no-op otherwise |
| Listings.DeleteListingStep | backend/src/main/java/com/vishnu/backend/service/FoodListingService.java:86-88 | removes the listing unless a claim refers to it; other listings and tables unchanged |
| Listings.ClaimedListingCannotBeDeleted | backend/src/main/java/com/vishnu/backend/entity/Claim.java:19-25 | a listing that a claim refers to survives a delete |
| Listings.InsertNewest | backend/src/main/java/com/vishnu/backend/repository/FoodListingRepository.java:15-16 | inserting into a newest-first list keeps it newest first and adds exactly the one listing |
| Listings.BelowHead | backend/src/main/java/com/vishnu/backend/repository/FoodListingRepository.java:15-16 | an insertion below the head keeps the order and the members |
| Listings.SortNewestFirst | backend/src/main/java/com/vishnu/backend/repository/FoodListingRepository.java:15-16 | `ORDER BY createdAt DESC`: newest first and a permutation |
| Listings.SameMembers | backend/src/main/java/com/vishnu/backend/repository/FoodListingRepository.java:15-16 | a permutation has the same members |
| Listings.FoodListingService.CreateListing | backend/src/main/java/com/vishnu/backend/service/FoodListingService.java:24-37 | result and new state are `CreateListingStep` |
| Listings.FoodListingService.UpdateListing | backend/src/main/java/com/vishnu/backend/service/FoodListingService.java:58-74 | result and new state are `UpdateListingStep` |
| Listings.FoodListingService.UpdateListingStatus | backend/src/main/java/com/vishnu/backend/service/FoodListingService.java:76-84 | new state is `UpdateListingStatusStep` |
| Listings.FoodListingService.DeleteListing | backend/src/main/java/com/vishnu/backend/service/FoodListingService.java:86-88 | new state is `DeleteListingStep` |
| Listings.FoodListingService.GetListingById | backend/src/main/java/com/vishnu/backend/service/FoodListingService.java:53-56 | none iff the id is missing, else that listing |
| Listings.FoodListingService.GetAvailableListings | backend/src/main/java/com/vishnu/backend/service/FoodListingService.java:39-44 | exactly the AVAILABLE listings, each once, newest first |
| Listings.FoodListingService.GetDonorListings | backend/src/main/java/com/vishnu/backend/service/FoodListingService.java:46-51 | exactly the donor's listings, each once |
| Auth.IdOrEmpty | src/pages/BrowseFood.tsx:33 | `user?.id \|\| ''`: the user's id, or empty when signed out |
| Auth.IdOf | src/pages/ImpactCertificates.tsx:12 | `user?.id`: present exactly for a signed-in user |
| Auth.OrganizationOf | src/pages/MyClaims.tsx:13 | `user?.organizationName`: absent when signed out |
| Auth.DisplayName | src/pages/BrowseFood.tsx:34 | organisation name if non-empty, else the user's name, else empty |
| DeliveryPage.UserDeliveries | src/pages/DeliveryTracking.tsx:12-26 | exactly the deliveries the role filter admits, in store order, and only ones whose claim resolves |
| DeliveryPage.OtherRolesSeeEveryResolvedDelivery | src/pages/DeliveryTracking.tsx:25 | without a donor or recipient role a delivery is listed iff its claim resolves |
| DeliveryPage.RecipientSeesOwnClaims | src/pages/DeliveryTracking.tsx:21-23 | a recipient sees exactly deliveries of claims with their id or organisation |
| DeliveryPage.ViewWithinAdminView | src/pages/DeliveryTracking.tsx:12-26 | every role sees a subset of what an admin sees |
| DeliveryPage.DonorWithoutOrganisationSeesOrphans | src/pages/DeliveryTracking.tsx:17-19 | concretely: a donor without organisation sees a delivery whose listing is gone |
| DeliveryPage.StatusUpdate | src/pages/DeliveryTracking.tsx:28-34 | the update always carries the status and a delivery time exactly when delivered |
| DeliveryPage.Press | src/pages/DeliveryTracking.tsx:111-136 | a button acts only in its stage (in-transit from scheduled, delivered from in-transit) and then updates that delivery |
| DeliveryPage.PressKeepsLifecycle | src/pages/DeliveryTracking.tsx:111-136 | a press never produces failed, changes only the shown id, moves forward only, keeps delivered timed |
| DeliveryPage.FindDelivery | src/pages/DeliveryTracking.tsx:111-136 | the card's delivery by id: none iff no delivery has it |
| DeliveryPage.PressAllKeepsLifecycle | src/pages/DeliveryTracking.tsx:111-136 | any sequence of presses keeps listings and claims, never produces failed, keeps delivered timed |
| DeliveryPage.InTransitThenDelivered | src/pages/DeliveryTracking.tsx:111-136 | two presses take a scheduled delivery to delivered with the second time stamped, nothing else changed |
| MyClaimsPage.MyClaims | src/pages/MyClaims.tsx:13 | exactly the claims with the user's id or organisation as recipient, in order; none when signed out |
| MyClaimsPage.MyClaimsWithoutOrganisation | src/pages/MyClaims.tsx:13 | without an organisation, exactly the claims with the user's id |
| MyClaimsPage.FilteredClaims | src/pages/MyClaims.tsx:15-17 | 'All' keeps the list; a status keeps exactly the claims with it |
| MyClaimsPage.FiltersPartitionClaims | src/pages/MyClaims.tsx:37-43 | the four status filters together show every claim once |
| MyClaimsPage.HandleAction | src/pages/MyClaims.tsx:108-122 | an action exists exactly for a pending claim and is `updateClaim` with completed or rejected |
| MyClaimsPage.ActionsScheduleNothing | src/pages/MyClaims.tsx:111-117 | neither action creates a delivery; the claim gets the action's status |
| MyClaimsPage.CompletingMarksEveryListingWithClaims | src/pages/MyClaims.tsx:111 | completing marks every listing with claims distributed |
| MyClaimsPage.CancellingRevertsOnlyIdleClaimedListings | src/pages/MyClaims.tsx:117 | cancelling changes a listing's status iff it was claimed, has claims and none stays active |
| BrowsePage.AvailableListings | src/pages/BrowseFood.tsx:15 | exactly the available listings, in order |
| BrowsePage.ListingCategories | src/pages/BrowseFood.tsx:16 | each category of any listing once, and only those, in order of first appearance |
| BrowsePage.DistinctCategories | src/pages/BrowseFood.tsx:16 | the distinct categories are exactly the listing categories, in the order they first occur |
| BrowsePage.Categories | src/pages/BrowseFood.tsx:16 | 'All' then each category of any listing once, in order of first appearance |
| BrowsePage.FilteredListings | src/pages/BrowseFood.tsx:18-20 | 'All' keeps the list; a category keeps exactly its listings |
| BrowsePage.OnlyAvailableOffered | src/pages/BrowseFood.tsx:15-20 | every offered listing is an available one of the store |
| BrowsePage.HandleClaimFood | src/pages/BrowseFood.tsx:22-41 | claims iff a listing is selected and 0 < quantity <= its quantity, with the id and name fallbacks |
| BrowsePage.ClaimShowsOnMyClaims | src/pages/BrowseFood.tsx:30-35 | a signed-in user's claim is pending on that listing and appears in their claims |
| BrowsePage.SignedOutClaimIsAnonymous | src/pages/BrowseFood.tsx:33-34 | a signed-out claim has empty recipient id and name and belongs to no one |
| CreateListingPage.HandleChange | src/pages/CreateListing.tsx:21-27 | only the named field changes; quantity is parsed, others kept as text |
| CreateListingPage.HandleSubmit | src/pages/CreateListing.tsx:29-46 | rejected iff title, expiry date or location is empty or the quantity is 0 or NaN; otherwise the form, the user fallbacks and status available |
| CreateListingPage.InitialFormRejected | src/pages/CreateListing.tsx:11-19 | the untouched form cannot be submitted |
| CreateListingPage.FilledFormIsListed | src/pages/CreateListing.tsx:21-42 | filling the four required fields lists an available listing with those values and the default unit and category |
| CreateListingPage.NegativeQuantityPassesGuard | src/pages/CreateListing.tsx:32 | concretely: -5 passes the guard (the input's `min` is not enforced by the handler) |
| CertificatesPage.DonorListings | src/pages/ImpactCertificates.tsx:12 | exactly the listings with the user's id; none when signed out |
| CertificatesPage.CompletedClaims | src/pages/ImpactCertificates.tsx:13-16 | exactly the completed claims whose listing's donor equals the user (`undefined` on both sides counts) |
| CertificatesPage.CertificateOf | src/pages/ImpactCertificates.tsx:18-20 | food is the sum over own listings, value 250 per completed claim, CO2 a 100th of it, recipients served the distinct ids, at most the claims and zero iff none |
| CertificatesPage.TotalFoodIsOwnListings | src/pages/ImpactCertificates.tsx:18 | the food total equals the store-wide sum of own quantities |
| CertificatesPage.SignedOutCountsOrphanedClaims | src/pages/ImpactCertificates.tsx:13-16 | concretely: signed out, a completed claim on a missing listing is counted |
| ImpactDashboardPage.ReduceIsSum | src/pages/ImpactDashboard.tsx:21-28 | the left-to-right reduce adds each field's sum to the start value |
| ImpactDashboardPage.TotalMetrics | src/pages/ImpactDashboard.tsx:21-28 | each total is the sum of that field over all metrics |
| ImpactDashboardPage.InitialTotals | src/contexts/FoodDataContext.tsx:112-128 | the seed metric gives its own values as totals |
| ImpactDashboardPage.ClaimStatsOf | src/pages/ImpactDashboard.tsx:30-35 | the per-status counts cover every claim once |
| ImpactDashboardPage.ImpactChart | src/pages/ImpactDashboard.tsx:42 | CO2, a 50th of the meals, recipients |
| Tallies.ClaimsWith | src/pages/ImpactDashboard.tsx:31-34 | a count at most the length, zero iff no claim has the status |
| Tallies.ListingsWith | src/pages/AdminReports.tsx:10-12 | a count at most the length, zero iff no listing has the status |
| Tallies.ClaimsWithIsFilterLength | src/pages/ImpactDashboard.tsx:31-34 | the recursive claim count equals the length of `claims.filter(c => c.status === st)` |
| Tallies.ListingsWithIsFilterLength | src/pages/AdminReports.tsx:10-12 | the recursive listing count equals the length of `listings.filter(l => l.status === st)` |
| Tallies.ClaimStatusesPartition | src/contexts/FoodDataContext.tsx:29 | the four claim-status counts add up to the number of claims |
| Tallies.ListingStatusesPartition | src/contexts/FoodDataContext.tsx:17 | the four listing-status counts add up to the number of listings |
| Tallies.FirstMetric | src/pages/AdminReports.tsx:47 | `metrics[0]?.x \|\| 0`: 0 without metrics, else the first record's field |
| Tallies.Percent | src/pages/AdminReports.tsx:66 | 0 for an empty denominator, otherwise part/total times 100, within 0..100 for a part |
| Tallies.PercentsAdd | src/pages/AdminReports.tsx:96-111 | shares of one total add |
| Tallies.ClaimPercentsSumTo100 | src/pages/AdminReports.tsx:96-111 | with claims, the four claim shares add up to 100 |
| Tallies.FourSharesOfWhole | src/pages/AdminReports.tsx:66-76 | four parts of a whole have shares adding up to 100 |
| Tallies.PercentOfWhole | src/pages/AdminReports.tsx:66 | the whole is 100 percent |
| AdminReportsPage.ListingBreakdownOf | src/pages/AdminReports.tsx:10-12 | the three rows fall short of the total by exactly the claimed listings; each share is zero-guarded and in 0..100 |
| AdminReportsPage.ClaimBreakdownOf | src/pages/AdminReports.tsx:95-111 | the four rows cover every claim; shares add to 100, or are all 0 without claims |
| AdminReportsPage.ReportOf | src/pages/AdminReports.tsx:8-40 | listing and claim totals, food over every listing, waste from the first metric, and the two tables |
| AdminReportsPage.ListingSharesAtMost100 | src/pages/AdminReports.tsx:66-76 | the listing table's shares add up to at most 100 |
| AdminReportsPage.InitialReport | src/pages/AdminReports.tsx:8-47 | the seed report: 2 listings, 80 units, all available, waste 150 |
| DashboardPage.AvailableFoodIsOffered | src/pages/Dashboard.tsx:10 | the available-quantity sum equals the sum over the listings the browsing page offers |
| DashboardPage.SummaryOf | src/pages/Dashboard.tsx:10-57 | food over available listings only, "Active Claims" every claim, pending plus completed at most that, waste from the first metric |
| DashboardPage.PanelFor | src/pages/Dashboard.tsx:59-160 | the role's panel over the whole store: donor counts every available listing and sums distributed ones, recipient counts all, approved and completed claims, admin counts pending claims; none without a role |
| DashboardPage.DonorPanelIgnoresDonor | src/pages/Dashboard.tsx:71 | two donors see the same panel |
| DashboardPage.InitialSummary | src/pages/Dashboard.tsx:10-57 | the seed cards: 80 units, 2 listings, no claims, 150 waste reduced |
| AdminUsersPage.DistinctDonorNames | src/pages/AdminUsers.tsx:9 | the distinct donor names are exactly the listings' donor names, in the order they first occur |
| AdminUsersPage.DonorNames | src/pages/AdminUsers.tsx:9 | each donor name of a listing once, and only those, in order of first appearance |
| AdminUsersPage.DistinctRecipientNames | src/pages/AdminUsers.tsx:10 | the distinct recipient names are exactly the claims' recipient names, in the order they first occur |
| AdminUsersPage.RecipientNames | src/pages/AdminUsers.tsx:10 | each recipient name of a claim once, and only those, in order of first appearance |
| AdminUsersPage.ListingsOf | src/pages/AdminUsers.tsx:14 | exactly the listings with that donor name |
| AdminUsersPage.ClaimsOfRecipient | src/pages/AdminUsers.tsx:21 | exactly the claims with that recipient name |
| AdminUsersPage.DonorStatsOf | src/pages/AdminUsers.tsx:14-19 | count, quantity sum and distributed count of the donor's listings, distributed at most the count |
| AdminUsersPage.RecipientStatsOf | src/pages/AdminUsers.tsx:21-26 | total, approved and completed counts of the recipient's claims, approved plus completed at most the total |
| AdminUsersPage.ListedDonorsHaveListings | src/pages/AdminUsers.tsx:9-15 | every donor row shows at least one listing |
| AdminUsersPage.ListedRecipientsHaveClaims | src/pages/AdminUsers.tsx:10-22 | every recipient row shows at least one claim |
| AdminUsersPage.OccursOnce | src/pages/AdminUsers.tsx:9 | a name of a duplicate-free list occurs in it once |
| AdminUsersPage.NotOccurring | src/pages/AdminUsers.tsx:9 | a name outside the list occurs in it zero times |
| AdminUsersPage.ColumnStep | src/pages/AdminUsers.tsx:14-16 | dropping a listing lowers the Listings column once per row of its donor |
| AdminUsersPage.ColumnCountsEachListingOnce | src/pages/AdminUsers.tsx:14-16 | distinct rows covering every donor count each listing once |
| AdminUsersPage.NoListingsEmptyColumn | src/pages/AdminUsers.tsx:14-16 | without listings the column is zero |
| AdminUsersPage.DonorTableCountsEveryListing | src/pages/AdminUsers.tsx:9-16 | the donor table's Listings column adds up to the number of listings |
| UserAdminTable.Lower | src/components/ExampleUserAdminTable.tsx:87 | same length, each letter lowered |
| UserAdminTable.LexIrreflexive | src/components/ExampleUserAdminTable.tsx:102 | no string is less than itself |
| UserAdminTable.LexAsymmetric | src/components/ExampleUserAdminTable.tsx:102-103 | no two strings are each less than the other |
| UserAdminTable.LexTransitive | src/components/ExampleUserAdminTable.tsx:102 | string order is transitive |
| UserAdminTable.LexTotal | src/components/ExampleUserAdminTable.tsx:102-104 | two strings are equal or one is less |
| UserAdminTable.FilterUsers | src/components/ExampleUserAdminTable.tsx:85-89 | exactly the users whose lowered name or email contains the lowered query, in order; an empty query keeps everyone |
| UserAdminTable.LowerIdempotent | src/components/ExampleUserAdminTable.tsx:98-99 | lowering twice is lowering once |
| UserAdminTable.InOrderMeans | src/components/ExampleUserAdminTable.tsx:102-104 | ascending: no later key smaller; descending: no later key larger |
| UserAdminTable.KeysAsymmetric | src/components/ExampleUserAdminTable.tsx:102-103 | no two keys are each less than the other |
| UserAdminTable.InOrderTotal | src/components/ExampleUserAdminTable.tsx:102-104 | of two users one may come first |
| UserAdminTable.NotLessTransitive | src/components/ExampleUserAdminTable.tsx:102-104 | "not less" is transitive on keys of one kind |
| UserAdminTable.InOrderTransitive | src/components/ExampleUserAdminTable.tsx:93-105 | the comparator's order is transitive |
| UserAdminTable.StartSinking | src/components/ExampleUserAdminTable.tsx:93 | a sorted prefix is ready to take the next user |
| UserAdminTable.SwapKeepsUsers | src/components/ExampleUserAdminTable.tsx:93 | swapping neighbours keeps the users |
| UserAdminTable.SwapDown | src/components/ExampleUserAdminTable.tsx:93 | a swap of an out-of-order pair moves the new user one place down keeping the rest ordered |
| UserAdminTable.Settled | src/components/ExampleUserAdminTable.tsx:93 | once in order with its neighbour the prefix is sorted one longer |
| UserAdminTable.SinkInto | src/components/ExampleUserAdminTable.tsx:93-105 | sorts one more user into the prefix, as a permutation |
| UserAdminTable.SortInPlace | src/components/ExampleUserAdminTable.tsx:93-105 | the array ends ordered by the comparator and a permutation of itself |
| UserAdminTable.ApplyFiltersAndSort | src/components/ExampleUserAdminTable.tsx:81-110 | exactly the matching users; in list order without a sort field, else sorted, as a permutation |
| UserAdminTable.DeleteUser | src/components/ExampleUserAdminTable.tsx:112-122 | nothing changes unless the `confirm` dialog is answered yes; then exactly the users without the id remain, in order |
| Validation.MinLength | src/lib/validationSchemas.ts:6 | `min(n, message)`: no issue iff the value is long enough, else one issue on the field |
| Validation.EmailCheck | src/lib/validationSchemas.ts:5 | `email(message)`: no issue iff the value is an email, else one issue on the field |
| Validation.PathsConcat | src/lib/validationSchemas.ts:4-44 | paths of joined issue lists are the union |
| Validation.LoginSchema | src/lib/validationSchemas.ts:4-7 | valid iff email and password of 6 or more; the email and password fields fail exactly when their checks do |
| Validation.RegisterFields | src/lib/validationSchemas.ts:9-15 | no field issue iff name 2, valid email, password 6, phone 10 and address 5 characters or more |
| Validation.PasswordsMatch | src/lib/validationSchemas.ts:16-19 | the refinement reports its one issue iff the two passwords differ |
| Validation.RegisterSchema | src/lib/validationSchemas.ts:9-19 | valid iff all fields pass and the passwords match; `confirmPassword` fails exactly when they differ, as the last issue |
| Validation.RegisteredCanLogIn | src/lib/validationSchemas.ts:4-19 | a valid registration's email and password pass the login schema |
| Validation.CreateFoodListingSchema | src/lib/validationSchemas.ts:22-31 | valid iff food type, quantity, location and expiry are non-empty and the description has 10 or more characters |
| Validation.OptionalListingFieldsIgnored | src/lib/validationSchemas.ts:27-30 | coordinates and image never change the outcome |
| Validation.ClaimFoodSchema | src/lib/validationSchemas.ts:33-37 | valid iff the quantity and the pickup location are non-empty |
| Validation.NotesIgnored | src/lib/validationSchemas.ts:35 | notes never change the outcome |
| Validation.ReasonCheck | src/lib/validationSchemas.ts:42 | no issue iff the reason is fraud, expired, quality or other |
| Validation.ReportSchema | src/lib/validationSchemas.ts:40-44 | valid iff listing id non-empty, reason in the set, description 10 or more; the reason fails exactly when outside the set |

## Left out

- Floating point: quantities, sums, CO2 values and percentages are exact `real`s. `toFixed`, `toLocaleString` and other display formatting are dropped.
- `Date.now()` and `new Date()`: ids, dates and times are parameters. No id collision is modelled.
- React state batching, stale closures and two updates in the same tick: every operation is one atomic step on the current state.
- Asynchrony and I/O: `apiService.ts` (HTTP, local storage, redirects) and `useAsync.ts`.
- Authentication (AuthContext.tsx, AuthPage.tsx, UserService.java, AuthController.java): only the signed-in `User` record is modelled.
- The controllers: they map `null` results to HTTP status codes over the modelled services.
- DTO conversion (`fromEntity`): a field copy with no behaviour.
- Rendering: the UI components, maps, charts, navigation, printing and PDF export.
- DonorListings.tsx and AdminModeration.tsx: pass-through calls to the modelled `updateListing` and `updateClaim`.
- zod: the email pattern is the parameter `isEmail`. The text of zod's own enum message is not modelled. Fields of the wrong JavaScript type are not modelled, since every form value here is a string.
- Validation.MinLength: counts characters as Dafny sequence elements, not UTF-16 code units.
- UserAdminTable.Lower: lowers ASCII letters only; Unicode case mapping is not modelled.
- UserAdminTable.SortInPlace: stability of `Array.prototype.sort` is not proved. The contract is sorted plus permutation.
- UserAdminTable.ApplyFiltersAndSort: takes the user list as a parameter, where the source uses its hard-coded `allUsers` (src/components/ExampleUserAdminTable.tsx:34-75). The loading flag and the `useEffect` trigger are not modelled.
- CreateListingPage.HandleChange: `parseFloat` is the parameter `parse`, with `NaN` as a separate value.
- BrowsePage.HandleClaimFood: the confirmation message and the form reset are not modelled. The quantity is a `real`, so `NaN` cannot arise. In the source a `NaN` from `parseFloat` would pass the guard, because both of its comparisons are false for `NaN`. Only the input's `required` and number validation (src/pages/BrowseFood.tsx:109-116) keeps it out.
- Provider.FoodDataProvider.GetMetrics: has no contract; it returns the metrics field.
- Provider.FoodDataProvider.UpdateListing: an update that sets a key to an explicit `undefined` is not modelled. A key is either absent or carries a value.
- Listings.CreateListingStep: the request body has no id and no null fields. A null `nullable = false` column (backend/src/main/java/com/vishnu/backend/entity/FoodListing.java:20-53) makes `save` throw, and that is not modelled. A body that carries an id is merged by `save` over the existing row, overwriting donor and status and keeping `createdAt`, which is `updatable = false` (FoodListing.java:55-56); that is not modelled either.
- Listings.DeleteListingStep: the foreign-key violation of a referenced listing is modelled as "nothing changes". The exception that reaches the caller is not modelled.
- Listings.SortNewestFirst: ties in `createdAt` may come in any order.
- Entities.SelectRows: repository results come in no defined order, except the newest-first query.
