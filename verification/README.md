# Verification of the booking platform's core

This project models the stateful core of the booking platform and proves what it keeps: the booking and slot
protocol with optimistic locking, refresh-token rotation with reuse detection, pricing, price-sorted search,
and the availability cache.  `dafny verify dfyconfig.toml` checks everything.

## How the model is laid out

**Tables and transactions.**  `Tables` holds slots, bookings, status history and audit log as sequences of rows; a
row's position is its generated id, and no modelled code deletes a row.  `Transactions` gives, as functions, what
each read phase returns and what each transaction block does: an atomic step that yields a new database or an
error.  `BookingService.BookingStore` is the service as it is written: methods that change the tables in place,
statement by statement, and undo everything when a statement of a transaction fails.  Each is proved to do what
its function says.

**The protocol.**  In `Protocol` any number of requests are in flight.  A step is one read phase, one commit (the
transaction succeeds or leaves the database alone), an abort, the expiry of one booking, or a clock tick.  `Evolution`
has the relation between an earlier and a later database that every step keeps, and what a waiting request may rely
on meanwhile.  `Runs` has the theorems over every interleaving, `Refinement` the relation to one request at a time,
`Records` the status history and audit log, `Expiry` the worker, `RoundTrips` what requests undo.

**A result about confirm.**  The confirm transaction writes by id alone, with no status or version guard
(`src/services/booking.service.ts:254-257`), so it can land on a booking that was cancelled or expired after the
confirm read it: a *late confirm*.  Plain conservation of seats, refinement, and linked histories are therefore false of
the code.  The model keeps the code as it is and proves the exact condition for each: accounting is exact once the
seats of late confirms are counted (`Runs.ExactAccounting`); seats are conserved on a slot if and only if no confirm
landed late on it (`Runs.ConservationIff`); a step has the effect of at most one whole request if and only if it is
not a late confirm (`Refinement.StepRefinesIff`); every status move is allowed, and CANCELLED and EXPIRED are
permanent, if and only if no confirm lands late (`Records.RunMovesIff`, `Records.RunFinalIff`); histories stay linked
if and only if every confirm and cancel found the status it had read (`Records.RunLinkedIff`).  `LateConfirmWitness` is a concrete run: four seats held on a
two-seat slot, and a confirmed booking that can no longer be cancelled.

**Seed data.**  The seed starts some slots with `reserved` above the sum of their active bookings
(`prisma/seed.ts:253-273` against `:303-328`), so conservation is stated relative to the initial difference.  It
also has an EXPIRED row that keeps its hold (`prisma/seed.ts:325-326`), so claims about `reservedUntil` and history are
made about bookings created by the service.

**Tokens.**  `Tokens` handles one request at a time and proves the chain; `TokenProtocol` interleaves lookups and
commits and proves that revocation is permanent.  The exchange does not look again at the token it retires
(`src/services/auth.service.ts:156-172`), so under interleaving the chain is false of the code.  The exact condition is
proved: a step keeps every family one chain if and only if it is not an exchange of a token that was retired or
revoked after its lookup (`TokenProtocol.StepValidIff`), and so over runs (`TokenProtocol.RunValidIff`).  `TokenWitness`
has the two races: two refreshes of one token both succeed and fork the chain, and a logout between lookup and
exchange leaves a live token in a revoked family.

**Prices.**  Prices are exact reals, shown amounts whole cents.  `Ledger` and `Scaling` hold the folds; `Pricing` the
loop and its theorems; `RuleEffects` what each kind of rule does, from its configuration's own fields.  A rule list
reaches the loop in no particular order (`src/services/booking.service.ts:127`,
`src/services/experience.service.ts:203-205`); the total does not depend on it.

**Search and cache.**  `Search` runs on one database snapshot.  The order the database gives to ties is an input,
constrained to be an answer to the query; the query has no tie-breaker, and `SearchOrder.OrderDeterminedIff` says when
two requests for pages see the same order.  `Paging` has the stable sort and the pages, `SearchAnswers` what
an answer means in stored rows and plain comparisons.  `Cache` has the keys and the
Redis store with its time to live, `CacheProtocol` the cache against recomputation, with cache lookups, database
reads, fills, commits, scans, deletions and time-outs interleaved.  The protocol's store is keyed by text;
`CacheProtocol.CodeNamingIsGood` shows that the code's keys and scan pattern are fit for it.

**When a cached answer is current.**  Commits and invalidations are separate events.  Create and cancel enqueue the
invalidation after their commit; expiry enqueues it inside the transaction, before the commit
(`src/services/booking.service.ts:430`), so an expiry's commit may have no invalidation after it.
`CacheProtocol.HitIsCurrent` therefore asks for an invalidation that runs after the last commit, and for no fill that read
before that commit to land from the invalidation's start on.  `CacheWitness` shows that neither can be dropped.

**Assumptions.**  Generated ids, references and tokens are new where the code needs them to be (a reference that
is not new is modelled as the unique-constraint error).  Hashes are injective.  A transaction block is atomic.
Cancel's booking and slot version are read as one snapshot, and so is everything a search reads.  A SCAN that ends has
returned every key that was there throughout.  JSON texts of different queries differ; tenant and experience ids hold no
colon.  Party size is at least one (`src/schemas/requests/booking.requests.ts:5`).

## Model

| member | source | states |
|---|---|---|
| BookingState.AssertTransition | src/services/booking-state.ts:16-35 | returns normally exactly for allowed transitions and throws a conflict otherwise; only RESERVED may come from nothing |
| BookingState.AllowedMoves | src/services/booking-state.ts:5-14 | the table allows starting as RESERVED, confirming, cancelling or expiring from there, cancelling once confirmed, and nothing else |
| BookingState.CancellableMeansTransition | src/services/booking-state.ts:37-41 | the cancellability test agrees with the transition table, and is true exactly of non-final statuses |
| BookingState.PathsAreShort | src/services/booking-state.ts:5-14 | the life cycle is acyclic: a chain of allowed moves visits at most three statuses and never re-enters RESERVED |
| Tables.FindOwned | src/services/booking.service.ts:95-114 | finds a booking of that tenant, user and reference, or there is none |
| BookingService.BookingStore.AdjustSlotReserved | src/services/booking.service.ts:24-58 | the guarded UPDATE: on matching tenant, version and capacity (or releasable seats) the row moves and its version rises by one, else nothing changes and it is a conflict |
| RoundTrips.AdjustSlotMeans | src/services/booking.service.ts:31-57 | the UPDATE succeeds exactly on the tenant's slot at the expected version while seats taken stay within capacity or above zero, and then changes only that row's seats and version |
| BookingService.BookingStore.AppendStatusHistory | src/services/booking.service.ts:60-77 | appends one history row and changes nothing else |
| BookingService.BookingStore.LogAudit | src/lib/audit.ts:14-28 | appends one audit row and changes nothing else |
| BookingService.BookingStore.CommitCreation | src/services/booking.service.ts:153-199 | slot, booking, history and audit change together, or a conflict or taken reference rolls all of it back |
| BookingService.BookingStore.CommitConfirmation | src/services/booking.service.ts:252-280 | the confirm transaction, without any status or version guard |
| BookingService.BookingStore.CommitCancellation | src/services/booking.service.ts:314-352 | releases the seats, cancels, and records it, all or nothing |
| BookingService.BookingStore.ExpireReservation | src/services/booking.service.ts:366-434 | claims an overdue RESERVED booking, releases its seats and records it; not claimable returns false, a conflict takes the claim back |
| BookingService.BookingStore.CreateReservation | src/services/booking.service.ts:116-209 | the whole create request: the new booking is returned, or the error and nothing changed |
| BookingService.BookingStore.ConfirmReservation | src/services/booking.service.ts:239-289 | the whole confirm request: the owner's booking of that reference is returned, or the error and nothing changed |
| BookingService.BookingStore.CancelReservation | src/services/booking.service.ts:291-362 | the whole cancel request: the owner's booking of that reference is returned, or the error and nothing changed |
| BookingService.BookingStore.ExpireStaleReservations | src/services/booking.service.ts:437-468 | the poll loop takes each row by itself, skips failing ones, and returns exactly the number of bookings that became EXPIRED |
| RoundTrips.CreateFailsBecause | src/services/booking.service.ts:134-140 | a failing create is not found, a conflict on seats, or a taken reference, decided in that order |
| RoundTrips.ConfirmSucceedsIff | src/services/booking.service.ts:246-250 | a confirm of an owned booking succeeds if and only if it is RESERVED and its hold has not lapsed, else it is a conflict |
| RoundTrips.NotOwnedIsNotFound | src/services/booking.service.ts:109-111 | confirming or cancelling a booking one does not own is not found |
| RoundTrips.ConfirmDoes | src/services/booking.service.ts:252-280 | a confirm changes that booking's status and hold and no slot, and what it records |
| RoundTrips.ExpireDoes | src/services/booking.service.ts:373-423 | an expiry releases the booking's seats on its slot, clears its hold, and records it without an actor |
| RoundTrips.CreateThenFind | src/services/booking.service.ts:95-199 | the owner finds the new booking with the values asked for; exactly that slot lost exactly those seats |
| Refinement.CancelDoes | src/services/booking.service.ts:297-352 | a whole cancel of an owned, active booking whose seats are counted releases exactly its seats, cancels exactly it and records it |
| RoundTrips.CreateThenCancel | src/services/booking.service.ts:153-352 | cancelling at once gives every seat back; only the slot's version, two higher, shows it |
| RoundTrips.CreateThenCancelRecords | src/services/booking.service.ts:177-198 | what the pair leaves in history and audit log, row by row: who, from, to and why |
| RoundTrips.CancelSucceedsIff | src/services/booking.service.ts:297-322 | a whole cancel of an owned booking succeeds if and only if it is active and its slot still counts its seats |
| RoundTrips.ConfirmXorExpire | src/services/booking.service.ts:246-256 | on a slot that counts its seats a held booking can at any time be confirmed or expired, never both and never neither; the boundary instant belongs to confirm |
| Evolution.EvolvesTransitive | src/services/booking.service.ts:31-57 | the relation every step keeps (versions never fall, a still version means an unchanged slot, RESERVED is left for good) composes over runs |
| Evolution.StaleRowStable | src/services/booking.service.ts:438-453 | a row fetched by an earlier expiry query still has the booking's tenant, slot, party size and reference when it is processed |
| Evolution.ReadEstablishes | src/services/booking.service.ts:121-151 | a successful read establishes what its transaction relies on |
| Evolution.PendingStable | src/services/booking.service.ts:297-327 | nothing other requests do takes that away: in particular a cancel whose version still matches finds its booking still active |
| Evolution.CommitEvolves | src/services/booking.service.ts:153-352 | every commit keeps the tables well formed and is an evolution |
| Evolution.ExpireEvolves | src/services/booking.service.ts:373-433 | so is every expiry |
| Evolution.CommitAccounting | src/services/booking.service.ts:153-352 | a commit moves the difference between active seats and `reserved` by exactly the seats of a late confirm |
| Evolution.ExpireAccounting | src/services/booking.service.ts:373-402 | an expiry does not move it |
| Evolution.CommitSucceedsIff | src/services/booking.service.ts:31-57 | on a slot that counts its active seats, a waiting create or cancel succeeds if and only if its version is current (and a create's reference new): the capacity and release guards never fail on their own |
| Evolution.ExpireSucceeds | src/services/booking.service.ts:373-402 | on a slot that counts its active seats, expiring an overdue booking never conflicts |
| Protocol.StepInvariant | src/services/booking.service.ts:116-434 | every step of every interleaving keeps the invariant and the evolution relation |
| Protocol.StepAccounting | src/services/booking.service.ts:254-257 | per step, active seats minus `reserved` minus late seats stays the same, and the late total of a slot moves exactly on a late confirm there |
| Protocol.StepWithinCapacity | src/services/booking.service.ts:31-57 | every step keeps 0 <= `reserved` <= capacity on every slot |
| Runs.RunInvariant | src/services/booking.service.ts:116-434 | the invariant holds at every point of every run |
| Runs.RunEvolves | src/services/booking.service.ts:116-434 | any two points of a run are related by the evolution relation |
| Runs.ExactAccounting | src/services/booking.service.ts:46-57 | over every interleaving, active seats minus `reserved` minus late seats never changes on any slot; the late total is zero exactly if no confirm landed late |
| Runs.ConservationIff | src/services/booking.service.ts:254-257 | seats are conserved on a slot if and only if no confirm has landed late on it |
| Runs.ReservedWithinCapacity | src/services/booking.service.ts:31-57 | in every interleaving 0 <= `reserved` <= capacity |
| Runs.NoOverbooking | src/services/booking.service.ts:24-58 | with no late confirm on the slot and initially counted seats, active party sizes never exceed its capacity |
| Runs.CoveredThroughout | src/services/booking.service.ts:24-58 | slots that count their active seats at the start always do, unless a confirm lands late |
| Runs.VersionWitness | src/services/booking.service.ts:32-54 | same version at two points: throughout, the slot row did not change, no booking was added and none became CANCELLED or EXPIRED |
| Runs.SlotChangesInVersionOrder | src/services/booking.service.ts:32-54 | slot changes commit in the order of the versions their requests read |
| Runs.AtMostOneSlotChange | src/services/booking.service.ts:32-54 | of all creates and cancels that read the same version, at most one commits |
| Runs.NoSpuriousConflict | src/services/booking.service.ts:155-161 | on a slot that counted its active seats at the start and saw no late confirm, a waiting create or cancel commits if and only if the slot has not changed since it read |
| Runs.ExpiryNeverConflicts | src/services/booking.service.ts:373-402 | on such a slot the worker's step always expires an overdue booking |
| LateConfirmWitness.LateConfirmOverbooks | src/services/booking.service.ts:254-257 | a run with one late confirm that holds four seats on a two-seat slot, and refuses the confirmed booking's own cancellation |
| Refinement.CommitRefines | src/services/booking.service.ts:116-362 | a commit that is no late confirm has the effect of running its whole request at the commit point; a second confirm has none |
| Refinement.StepRefines | src/services/booking.service.ts:116-434 | every step that is no late confirm runs one whole request or none |
| Refinement.StepRefinesIff | src/services/booking.service.ts:254-257 | a step has the effect of at most one whole request if and only if it is not a late confirm |
| Refinement.InterleavingRefinesWhole | src/services/booking.service.ts:116-434 | every interleaved run without a late confirm ends with the slots and bookings of running its requests one at a time in commit order, each of which succeeds |
| Refinement.WholeIsInterleaving | src/services/booking.service.ts:116-362 | conversely a whole request is the interleaving in which nothing comes between its read and its commit |
| Refinement.AbortUndoesRead | src/services/booking.service.ts:153-161 | a request that reads and then aborts leaves the state as it was |
| Refinement.TickThenExpire | src/services/booking.service.ts:374-381 | once the clock has passed a hold, the worker's next step expires the booking |
| Records.CommitReplays | src/services/booking.service.ts:177-183 | a commit keeps every created booking's history replaying its status |
| Records.RunReplays | src/services/booking-state.ts:5-35 | in every interleaving each created booking's history starts null to RESERVED, makes only allowed moves, ends at its current status and expires it at most once; a hold is set exactly while it is RESERVED |
| Records.CommitLinksIff | src/services/booking.service.ts:259-265 | a confirm or cancel keeps the rows linked from-to if and only if the status is still the one the request read |
| Records.RunLinkedIff | src/services/booking.service.ts:259-265 | in any interleaving created bookings' rows link from-to if and only if every confirm and cancel so far found the status it had read |
| Records.StepMovesIff | src/services/booking-state.ts:5-14 | a step moves bookings only as the table allows, and leaves final ones alone, if and only if it is not a late confirm |
| Records.RunMovesIff | src/services/booking-state.ts:5-14 | over a run every actual status move is allowed if and only if no confirm landed late |
| Records.RunFinalIff | src/services/booking.service.ts:254-257 | over a run CANCELLED and EXPIRED are permanent if and only if no confirm landed late |
| Records.LinkedRowsAreFew | src/services/booking-state.ts:5-14 | linked rows are a walk through the life cycle, so at most three |
| Records.WholeRunLinks | src/services/booking.service.ts:329-336 | one request at a time, every created booking's rows link from-to and there are at most three |
| Records.RunLockstep | src/lib/audit.ts:30-40 | in every interleaving the audit rows map one to one, in commit order, onto the history rows with matching event, booking, actor, tenant and reference |
| Records.ExpiresOnlyWhenLapsed | src/services/booking.service.ts:374-381 | a booking becomes EXPIRED only by the worker and only when its hold has lapsed |
| Records.ExpiresAtMostOnce | src/services/booking.service.ts:373-433 | every booking expires at most once in any run |
| Records.NotReservedAgain | src/services/booking-state.ts:5-14 | RESERVED is never entered again in any run |
| Expiry.PollCountsExpired | src/services/booking.service.ts:454-467 | a poll returns exactly the number of bookings it expired, whatever the batch and however many rows fail |
| Expiry.PollRowsApart | src/services/booking.service.ts:456-464 | no row's failure touches another: whatever happens on slots that have lost their seats, every row on a slot that counts its seats expires, nothing outside the batch changes, and every slot is released to match |
| Expiry.RowExpiresIff | src/services/booking.service.ts:396-402 | a row expires if and only if, when its turn comes, its slot still has its seats |
| Expiry.QuietPoll | src/services/booking.service.ts:437-468 | with slots counting their seats and nothing interfering, a poll expires every row it fetched, changes nothing else, and releases the slots to match |
| Expiry.OldestFirst | src/services/booking.service.ts:450-451 | a batch that leaves out a hold lapsed at t is full and holds nothing that lapsed later |
| Expiry.PollDrains | src/services/booking.service.ts:450-468 | a poll takes exactly the next 50 of the holds lapsed at an earlier time t, or all that are left |
| Expiry.PollsDrainOldestFirst | src/services/booking.service.ts:437-468 | after k polls exactly 50k of the holds lapsed at t are gone, expired and released, however many lapse later |
| Expiry.PollsReturnFetched | src/services/booking.service.ts:454-467 | every poll of such a run returns the number of rows it fetched |
| Expiry.AllExpireInTime | src/services/booking.service.ts:364-468 | ceil(n/50) polls expire all n holds that had lapsed at t |
| Tokens.ChainComplete | src/services/auth.service.ts:157-171 | every token of the family occurs in its chain |
| Tokens.OneLiveToken | src/services/auth.service.ts:127-144 | an unrevoked family has exactly one unrevoked token, the end of its chain; a revoked family has none |
| Tokens.LinksGoForward | src/services/auth.service.ts:165-171 | the links through replacedById stay in the family, lead to newer tokens and never meet: each family is a finite acyclic chain |
| Tokens.MayExchangeIff | src/services/auth.service.ts:111-152 | a stored token is exchanged if and only if it ends the chain of an unrevoked family, has not expired, and its account is active |
| Tokens.RefusedBecause | src/services/auth.service.ts:127-152 | each refusal has exactly its cause: revoked family first, then reuse, then expiry, then the account |
| Tokens.UnknownToken | src/services/auth.service.ts:107-122 | a token nobody issued is invalid, a missing one a bad request |
| Tokens.LoginThenRefresh | src/services/auth.service.ts:33-52 | logging in adds a family of the user's own, whose token works exactly until it expires while the account is active |
| Tokens.RefreshRotates | src/services/auth.service.ts:156-172 | after a refresh the new token of the same family works until it expires, and the old one is reuse |
| Tokens.LogoutRevokes | src/services/auth.service.ts:201-212 | logging out with any token of a family revokes the family and every token in it |
| Tokens.NoRefreshAfterLogout | src/services/auth.service.ts:201-212 | over any run, no token of a logged-out family is ever accepted again |
| Tokens.OtherFamiliesUntouched | src/services/auth.service.ts:131-172 | a request touches the family of the token it presents and no other |
| Tokens.HandleKeepsValid | src/services/auth.service.ts:33-52 | login, refresh, reuse and logout keep every family one chain |
| Tokens.RunKeepsChains | src/services/auth.service.ts:33-221 | so does any run of requests |
| Tokens.ExchangedAtMostOnce | src/services/auth.service.ts:156-172 | each token is exchanged successfully at most once in any run |
| Tokens.ReuseRevokesFamily | src/services/auth.service.ts:131-144 | presenting a token that was exchanged before fails and leaves its whole family revoked |
| Tokens.TokenStore.Login | src/services/auth.service.ts:33-52 | creates a family and its first token in place |
| Tokens.TokenStore.RevokeWholeFamily | src/services/auth.service.ts:201-212 | revokes the family and every token in it, and nothing else |
| Tokens.TokenStore.RefreshAccessToken | src/services/auth.service.ts:104-179 | the checks in their order, then revoke on reuse or exchange; the answer is the new token or the verdict |
| Tokens.TokenStore.LogOut | src/services/auth.service.ts:181-221 | revokes the presented token's family; an unknown token changes nothing, a missing one is a bad request |
| TokenProtocol.StepInvariant | src/services/auth.service.ts:104-221 | under interleaving, rows stay, revocation is never taken back, and what a waiting request knows stays true |
| TokenProtocol.NoRefreshAfterRevocation | src/services/auth.service.ts:111-129 | under any interleaving a refresh whose lookup comes at any time after its family's revocation fails for good |
| TokenProtocol.LogoutCommits | src/services/auth.service.ts:201-212 | under interleaving a logout that commits revokes the family of the token it presented, with every token in it then |
| TokenProtocol.NoRefreshAfterLogout | src/services/auth.service.ts:201-212 | and every later lookup of a token of that family fails for good, one exchanged in a race included |
| TokenProtocol.ReuseAlwaysFails | src/services/auth.service.ts:131-144 | presenting a token after it was exchanged never succeeds, and once answered its family is revoked, whatever runs in between |
| TokenProtocol.RevokedExchangeBreaks | src/services/auth.service.ts:156-172 | exchanging a revoked token always breaks its family's chain |
| TokenProtocol.StepValidIff | src/services/auth.service.ts:156-172 | a step keeps every family one chain if and only if it is not an exchange of a token retired or revoked after its lookup |
| TokenProtocol.RunValidIff | src/services/auth.service.ts:104-221 | over any interleaving every family stays one chain if and only if no exchange landed late |
| TokenProtocol.RefreshAlone | src/services/auth.service.ts:104-179 | a refresh with nothing in between does what the one-request-at-a-time model does |
| TokenProtocol.LogoutAlone | src/services/auth.service.ts:181-221 | so does a logout |
| TokenProtocol.LoginAlone | src/services/auth.service.ts:85-94 | so does a login |
| TokenProtocol.TickThenExpired | src/services/auth.service.ts:146-148 | once the clock has reached a live token's expiry, a refresh with it is refused as expired |
| TokenWitness.TwoRefreshesFork | src/services/auth.service.ts:156-172 | a run of two refreshes of one token: both succeed, and both replacements pass the next lookup |
| TokenWitness.LogoutRaceLeavesLiveToken | src/services/auth.service.ts:201-212 | a run with a logout between lookup and exchange: the refresh succeeds with a live token of a revoked family |
| Pricing.ToCentsIsNearest | src/services/pricing.service.ts:23-25 | a shown amount is within half a cent of the exact one |
| Pricing.ApplyRule | src/services/pricing.service.ts:39-110 | one turn of the loop multiplies the total by the rule's factor and adds its line, or does nothing |
| Pricing.CalculatePricingPreview | src/services/pricing.service.ts:27-120 | the loop computes base price times party size times all factors, with one rounded line per applied rule in order |
| RuleEffects.GroupSizeEffect | src/services/pricing.service.ts:40-59 | whatever rules came before, a group-size rule takes its percentage off the total before it and adds its line, exactly for parties of the minimum size and up |
| RuleEffects.AdvanceBookingEffect | src/services/pricing.service.ts:62-85 | so does an advance-booking rule, exactly for slots at least that many days of 86,400,000 ms ahead |
| RuleEffects.SeasonalEffect | src/services/pricing.service.ts:88-108 | a seasonal rule adds its percentage, exactly for slots that start in one of its months |
| RuleEffects.UnreadableGroupSize | src/schemas/responses/pricing.responses.ts:23-26 | a group-size configuration without an integer minimum size of one or more and a percentage leaves no trace |
| RuleEffects.UnreadableAdvanceBooking | src/schemas/responses/pricing.responses.ts:28-31 | nor does an advance-booking one without whole days from zero and a percentage |
| RuleEffects.UnreadableSeasonal | src/schemas/responses/pricing.responses.ts:33-37 | nor does a seasonal one without a season, months 1 to 12 and a surcharge from zero |
| RuleEffects.NoRules | src/services/pricing.service.ts:33-36 | without rules the total is base price times party size and there is no line |
| RuleEffects.PreviewShows | src/services/pricing.service.ts:113-119 | a preview shows a whole-cent base price and subtotal exactly, and the rounded total |
| RuleEffects.TiesGoAway | src/services/pricing.service.ts:23-25 | exact ties are rounded away from zero |
| Pricing.TotalIgnoresRuleOrder | src/services/pricing.service.ts:38-111 | every permutation of the rules gives the same exact and shown total |
| Pricing.OnlyApplyingRulesCount | src/services/pricing.service.ts:41-49 | leaving out the rules that do not parse or apply changes neither total nor lines |
| Pricing.TotalGrowsWithBasePrice | src/schemas/responses/pricing.responses.ts:23-37 | within the schema bounds the total is non-negative and grows with the base price |
| Pricing.PerPersonPriceFalls | src/services/pricing.service.ts:46-52 | for party sizes p <= q, total(q) * p <= total(p) * q |
| Pricing.PriceRisesWithTime | src/services/pricing.service.ts:68-78 | for a fixed slot the total, exact and shown, never falls as the clock advances, past the slot's start too |
| Pricing.RoundingBound | src/services/pricing.service.ts:23-118 | with k adjustments, shown subtotal plus shown adjustments is within (k + 1) / 2 cents of the shown total |
| Paging.StableSortIsStable | src/services/experience.service.ts:235-241 | the sort keeps every row once, orders by price in the chosen direction, and leaves ties as fetched |
| Paging.StableSortUnique | src/services/experience.service.ts:235-241 | there is only one such order |
| Paging.PagesCover | src/services/experience.service.ts:147-149 | pages 1 to totalPages put together are the whole list, all but the last are full, none is empty, and later pages are |
| Search.PriceOfSlot | src/services/experience.service.ts:220-226 | the shown total for the party on one slot |
| Search.FromPrices | src/services/experience.service.ts:214-232 | the loop's map holds exactly the known experiences on offer, each at its least price |
| Search.FromPriceIsTrueMinimum | src/services/experience.service.ts:112-137 | the two queries share the slot filter, so every listed experience has a from-price, attained by an eligible slot with none cheaper, and the base-price fallback is never used |
| Search.FromPriceUnique | src/services/experience.service.ts:258-259 | the from-price is determined by the snapshot |
| Search.SelectPage | src/services/experience.service.ts:234-243 | sorts in memory and cuts the page for price, takes the database's page otherwise |
| Search.SearchExperiences | src/services/experience.service.ts:72-279 | the query's page of items at the true from-prices, with slot counts, earliest starts and pagination; a search without a match included |
| Search.AnswerUnique | src/services/experience.service.ts:179-272 | the snapshot, the clock and the fetched order determine the answer |
| Search.ItemsShowFromPrice | src/services/experience.service.ts:246-262 | every item shows the true minimum over its experience's eligible slots |
| Search.ItemsShowAggregates | src/services/experience.service.ts:168-169 | every item shows the number of its experience's eligible slots and the earliest of their starts |
| Search.PriceSortedPagesCover | src/services/experience.service.ts:234-243 | price-sorted pages together list every matching experience with an eligible slot exactly once, in global order |
| SearchAnswers.ListedExactly | src/services/experience.service.ts:24-51 | a search lists exactly the tenant's active experiences that hold the party, meet every filter given, and have a slot of theirs with room in the dates asked for |
| SearchAnswers.FromPriceInCents | src/services/experience.service.ts:220-231 | an item's from-price is what the party pays, rules included, on some slot that fits, and no such slot costs less |
| SearchAnswers.ItemsInOrder | src/services/experience.service.ts:151-156 | on a page and from page to page items come in the direction asked for: by from-price with ties as fetched, title, slot count or earliest start |
| SearchAnswers.AnswerPagination | src/services/experience.service.ts:264-272 | an answer names its page, counts everything listed, gives the least number of pages that holds it, and fills the page |
| SearchOrder.KeySortedPagesCover | src/services/experience.service.ts:151-176 | pages sorted by title, available spots or start together list every matching experience with an eligible slot exactly once, in the order asked for |
| SearchOrder.OrderDeterminedIff | src/services/experience.service.ts:151-171 | the grouped order is determined by the data if and only if no two listed experiences share the sort key |
| Availability.ItemMatchesDetail | src/services/experience.service.ts:188-196 | an item counts exactly the slots its experience's detail shows for the same party and dates, and names the first of them |
| Availability.ShownIffBookable | src/services/experience.service.ts:327-331 | a slot of a bookable experience can be booked by a party if and only if the detail for that party shows it |
| Availability.BookingShrinksView | src/services/experience.service.ts:368-374 | a booking takes exactly the party's seats out of what any answer shows, and drops the slot exactly when the rest no longer fits the query's party |
| Availability.ViewsShowRows | src/services/experience.service.ts:368-374 | a slot is shown as stored, with its capacity less the seats taken as seats left |
| Availability.DetailFilters | src/services/experience.service.ts:333-347 | a detail with a slot id or dates is the detail without them, cut down to that slot and those dates |
| Availability.OneSlotDetail | src/services/experience.service.ts:333-335 | asking for one slot shows that slot or none |
| Availability.SearchIsAllDetails | src/services/experience.service.ts:188-196 | a search rests on what the details of the tenant's experiences show for the same query |
| Cache.KeysInjective | src/lib/availability-cache.ts:8-22 | two answers share a key only if they are for the same kind, tenant, experience and query |
| Cache.PatternMatchesTenant | src/lib/availability-cache.ts:83 | the invalidation pattern matches exactly that tenant's keys |
| Cache.RedisCache.Get | src/lib/availability-cache.ts:24-34 | a get finds an answer if and only if one is live for that very tenant, experience and query, and returns it |
| Cache.RedisCache.Set | src/lib/availability-cache.ts:36-47 | a set is seen under its own answer until its time to live is over, and changes no other answer at any time |
| Cache.RedisCache.ReadThrough | src/services/experience.service.ts:76-80 | a hit is returned and changes nothing; a miss returns the computed answer, which is then cached |
| Cache.RedisCache.InvalidateTenant | src/lib/availability-cache.ts:79-104 | the scan-and-delete loop removes all of the tenant's live answers and no others, and counts what the scan returned |
| CacheProtocol.FreshDependsOnTenant | src/services/experience.service.ts:327-331 | an answer depends on the tenant's own slots alone |
| CacheProtocol.HitIsEarlierAnswer | src/services/experience.service.ts:76-80 | in every interleaving a hit is the fresh answer to the same tenant, experience and query on some earlier database state |
| CacheProtocol.CodeNamingIsGood | src/lib/availability-cache.ts:8-22 | the code's keys name each question apart, and its scan pattern matches exactly the tenant's names |
| CacheProtocol.InvalidationSparesOthers | src/lib/availability-cache.ts:83-100 | an invalidation deletes no other tenant's entry |
| CacheProtocol.EntryStays | src/lib/availability-cache.ts:41-46 | an entry leaves the cache only by its time to live, an invalidation of its own tenant, or a newer answer to the same question |
| CacheProtocol.TimedOutIsGone | src/lib/availability-cache.ts:44-45 | a timed-out entry is gone, and no scan waits for it |
| CacheProtocol.UndisturbedInvalidation | src/lib/availability-cache.ts:87-101 | an undisturbed invalidation runs to its end and takes exactly its tenant's entries |
| CacheProtocol.InvalidationCleans | src/lib/availability-cache.ts:87-101 | an invalidation that runs to its end, with no old fill landing meanwhile, leaves no old entry of the tenant |
| CacheProtocol.CleanIff | src/services/experience.service.ts:274-276 | from then on the tenant's cache stays clean if and only if no old fill lands |
| CacheProtocol.HitIsCurrent | src/lib/availability-cache.ts:79-104 | after an invalidation that follows the tenant's last slot commit, and with no fill read before it landing, every hit shows the current availability |
| CacheProtocol.OtherTenantsCommit | src/lib/availability-cache.ts:83 | commits for other tenants leave a tenant's answers alone, so invalidating by tenant is enough |
| CacheWitness.LateFillIsServed | src/services/experience.service.ts:407-412 | a run in which a fill that read before a commit lands after the invalidation and is served: the condition on late fills is needed |
| CacheWitness.EarlyInvalidationIsNotEnough | src/services/booking.service.ts:430 | a run in which the invalidation finishes before the commit and a stale answer is served with no fill late: the invalidation must come after the commit |

## Left out

- Search.SearchExperiences: computes the answer of a miss; the cache lookup and fill around it are `Cache.RedisCache.ReadThrough` and the steps of `CacheProtocol`.
- The order of titles: the database's collation is an input rank.
- Price inside create: the read phase takes the computed price as an input; how it is computed is proved on its own in `Pricing`.
- The clock: a preview and a search take one clock reading each; the code reads the clock once per advance-booking rule.
- Floating point: prices are exact reals, `toFixed` is nearest rounding on exact values, amounts of 1e21 and above and the text "-0.00" are not modelled.
- The calendar: a slot's UTC month is an input; parsing of dates and the exclusive end date are not modelled.
- Refinement.InterleavingRefinesWhole: speaks about slots and bookings; history and audit rows have their own theorems in `Records`.
- Records.RunReplays: speaks about bookings created by the service, because the seed has an EXPIRED row that keeps its hold; rows are in commit order, not by `createdAt`.
- Expiry.PollsDrainOldestFirst: lets only the clock and the poller run; with other requests in flight each expiry is a step of `Protocol`.
- Tokens.RunKeepsChains: is promised one request at a time; `TokenProtocol.RunValidIff` has the exact condition under interleaving.
- TokenProtocol.ReuseAlwaysFails: an aborted revoking transaction leaves the family as it was.
- CacheProtocol.HitIsEarlierAnswer: speaks about the availability fields; price previews in an answer also depend on the clock.
- Cache.RedisCache.InvalidateTenant: runs with nothing else writing; writes during a scan are in `CacheProtocol`.
- Cache.RedisCache.ReadThrough: the fill lands at once; in the code it is not awaited and may land late or never, which is in `CacheProtocol`.
- Audit metadata other than reference and previous status (slot id, party size, reason), and audit rows of other entities.
- Changes to users, experiences and rules while requests run: the modelled services do not make them.
- Titles, descriptions, suppliers and the other stored fields a search result copies; the text match on destinations is an input set.
- Detail's own not-found errors: nothing is cached for them.
- Webhook delivery, and webhook enqueueing before commit: no exactly-once claim is made.
- JWT, bcrypt, HMAC and random generation; the parts of login before the session is created.
- HTTP routes, middleware, response formatting, admin and audit listings, job scheduling.
