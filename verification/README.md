# Host ownership and the app directory, verified

The repository keeps two public directories: account hosts, whose owners prove themselves by DNS or by the
contact mailbox of the server, and apps, whose records come from several sources and are converged into listings.
This project models the parts where many writers meet one table, and proves what they keep.

- **Host ownership** (`AccountHost*.dfy`). `AccountHostTables` has the rows, `AccountHostTransactions` says what each
  transaction does to them, and `AccountHostStore` has the same transactions statement by statement, with rollback,
  proved equal. `AccountHostRuns` interleaves any number of workers: a DNS claim is a read step and a write step, a
  finalization a read phase and a consume-and-write phase, everything else is one transaction, and other code may
  rewrite host rows and links at any moment. `AccountHostInvariant` is the invariant of every reachable state;
  `AccountHostOwnership` and `AccountHostRecovery` hold the theorems over whole runs, `AccountHostProgress` shows that
  exactly those who meet the conditions get through, `AccountHostAnswers` what everybody is told, and
  `AccountHostWitnesses` has the runs on which a promise fails. `AccountHostDirectory` is the public list,
  `AccountHostAddresses` the private host names, `AccountHostPublicIntent` and `AccountHostPublicIntentStore` the daily
  probing.
- **App directory** (`App*.dfy`). `AppDirectory` and `AppDirectoryStore` are the alias, record and slug tables and the
  upsert, and `AppUpsertEffects` says what one upsert leaves; `AppPartition` proves that listings are the connected
  components of alias sets, `AppSlugRuns` who owns which slug, `AppIdentity` which drafts meet. `AppDrafts` and
  `AppMerge` are precedence, aliases and the merge of drafts, `AppPrecedence` says what a merged listing shows, and
  `AppConvergence` puts partition and merge together. `AppCounters` and `AppCountersStore` are the review and favorite
  totals, and `AppUpsertTotals` ties them to the upserts of the directory. `AppRecordFailures` has the identifiers of
  failed records and `AppRecordFailureStore` their table, `AppDirectoryJobs` and `AppDirectoryJobStore` the job queue.
  `AppSlugWitnesses` and `AppCountersWitnesses` have the runs on which a promise fails.
- `AccountIndicators` is the text form of account indicators. `Text`, `Slugs`, `SlugWords`, `Dedupe`, `StableSort` and
  `Wrappers` are shared.

The clock, network answers, canonical URLs, collation, random ids and the order in which the database returns rows are
inputs or nondeterministic choices. Hosts, DIDs, token hashes and ids are compared and never taken apart, so they are
numbers; an audit id is the pair it is built from, and a recovery is named by the hash of its start token.

Where a promise does not hold of the code as written, the code is kept, the exact condition is proved, and a lemma
shows an input:

- the lease between two warnings (`LeaseSpacing`; the run is `LeasedTwiceInOnePeriod`);
- "unavailable is terminal" (`OutcomeCounts`; the run is `UnavailableIsNotTerminal`);
- one change for each snapshot (`MovesBackExactlyBy`, `SnapshotUsedOnce`; the run is `BackdatedRefreshReusesSnapshot`);
- an upsert that never throws over a slug (`UpsertThrowsExactly`, `OwnedSlugsThrowExactly`; the runs are
  `LongSlugThrows` and `FallbackThrows`);
- a slug that resolves for good (`MergedSlugIsLost`; the run is that of `MergeLosesSlug`);
- totals equal to a recount (`ChangeAgreesExactly`, `TotalsAgreeExactly`, and with slugs `TotalsRightExactly`; the run is
  that of `ReturningRecordSkewsTotals`, with the drafts of `SitedDraftsFit`);
- a merge that ignores the order of its drafts (`OrderIgnoredExactly`, `PairOrderShowsExactly`; the drafts are those of
  `SoftHyphenShowsOrder`);
- a draft that meets others by every DID it names (`DidIsAliasExactly`; the draft is that of `CaseHidesDid`);
- one active job of each kind (`OneActiveExactly`; the run is `EnqueueCanDuplicate`);
- one filter for the public list (`SqlAgreesExactly`; the host is that of `SqlListsPrivateHost`);
- a declared sign-up status that stays (`DeclaredStatusSurvivesExactly`; the runs are those of `DeclaredStatusIsLost`);
- identifiers that come back (`IdsAreCanonical`; the text is that of `SpareBitDoesNotComeBack`);
- account indicators that survive the form (`RoundTripExactly`; the item is that of `ReadingIsNotStable`).

`dafny verify dfyconfig.toml` checks the whole project.

## Model

| member | source | states |
|---|---|---|
| AccountHostOwnership.OwnershipTheorem | lib/account-hosts.ts:3067-3459 | in every run, at any interleaving, a host's owner changes only by a transfer, which the same worker had prepared earlier in the run, before the intent expired and with the intent's owner verified and current, and whose snapshot is the current (DID, updated_at) again when it commits with an unspent, unexpired proof; or by a recovery that the new owner filed earlier in the run, at least 48 hours before and inside its 7-day window, against exactly the current e-mail claim, with a second, unspent proof issued after the cooldown |
| AccountHostOwnership.OwnerChangesExactlyBy | lib/account-hosts.ts:1962-1995 | a step changes the owner if and only if it commits a transfer or completes a recovery; refreshes, e-mail claims, expiry, reconciling and notices never do |
| AccountHostOwnership.TransferIsAuthorised | lib/account-hosts.ts:2053-2107 | a committed transfer consumed an unspent, unexpired proof of the new owner for that host and an unused intent id, and its snapshot was the row it replaced |
| AccountHostOwnership.ClaimWasPrepared | lib/account-hosts.ts:3067-3190 | every DNS claim about to be written was prepared earlier in the run by the same worker, from tables in which the host was unclaimed, or the claimant's own, or named by an unexpired intent of its verified, current owner |
| AccountHostOwnership.RecoveryIsAuthorised | lib/account-hosts.ts:3391-3459 | a completed recovery was pending and due, matched the live claim, and consumed a proof different from the one that filed it |
| AccountHostOwnership.RecoveryWasRequested | lib/account-hosts.ts:2265-2381 | every recovery row in any reachable state was filed by one earlier request of the run, with the same columns and a proof of the requester's own |
| AccountHostOwnership.NewOwnerStartsAfresh | lib/account-hosts.ts:2108-2137 | a new owner inherits no link approval and no profile; other hosts, seeded links and the listing choice are untouched |
| AccountHostOwnership.EmailClaimNeverReturns | lib/account-hosts.ts:2195-2216 | once a host is claimed, an e-mail derived claim seen later is the very row seen now; a stale snapshot can never match again |
| AccountHostOwnership.OneRecoveryPerHost | lib/account-hosts.ts:3409-3459 | in one run at most one recovery of a host completes |
| AccountHostOwnership.StepSpendsOnly | lib/host-claim-challenge.ts:142-183 | a step consumes exactly its own proof, which was unspent; an aborted step consumes none |
| AccountHostOwnership.SpentOnlyWhileGood | lib/host-claim-challenge.ts:142-183 | in any state, a stored proof changes only by a step that presents it for its own host and its own DID, while it is unspent and not expired at the time of that step, and only its time of use changes |
| AccountHostOwnership.ProofSpentOnce | lib/account-hosts.ts:2044-2052 | among all DNS claims, e-mail claims, recovery requests and finalizations of a run, one proof commits at most one |
| AccountHostOwnership.MovesBackExactlyBy | lib/account-hosts.ts:1978-1982 | `updated_at` of a claim moves back if and only if the step is an owner's own refresh with an older time |
| AccountHostOwnership.UpdatedAtGrows | lib/account-hosts.ts:3164-3178 | between two points of a run without a backdated refresh of the host its `updated_at` never decreases |
| AccountHostOwnership.SnapshotUsedOnce | lib/account-hosts.ts:3103-3112 | without a backdated refresh in between, one (DID, updated_at) snapshot authorises at most one ownership change |
| AccountHostWitnesses.BackdatedRefreshReusesSnapshot | lib/account-hosts.ts:1978-1982 | a run shows the guard is needed, for any two accounts: two transfers in one millisecond put the row ahead of the clock, the owner's refresh moves it back, and one snapshot then authorises two changes |
| AccountHostRecovery.LedgerAgrees | lib/account-hosts.ts:1305-1337 | in every reachable state each recovery has exactly one "requested" entry, naming the requester and the proof, and, exactly when it is no longer pending, exactly one terminal entry, naming its status and time, and for a completed one the requester and the second proof |
| AccountHostRecovery.LedgerNamesRecoveries | lib/account-hosts.ts:2355-2363 | every audit entry of a reachable state belongs to a recovery row and is an event that row may have |
| AccountHostRecovery.RecoveryStates | lib/db.ts:1003 | in every reachable state a host has at most one pending and one completed recovery; completed or invalidated implies the claim is no longer e-mail derived; start and finishing proof differ |
| AccountHostRecovery.TwinFinalizations | lib/account-hosts.ts:3391-3409 | once a finalization has moved the owner, its identical twin, at whatever later point of the run it writes, changes nothing; it succeeds if and only if the requester holds the host by DNS at that time, and then returns the current claim |
| AccountHostRecovery.SnapshotWasRead | lib/account-hosts.ts:3298-3390 | every finalization about to write was read earlier in the run by the same worker, when its row was the newest of the host |
| AccountHostRecovery.StillNewest | lib/account-hosts.ts:3669-3683 | a newest recovery stays the newest while it is pending, and for good once the claim is no longer e-mail derived |
| AccountHostRecovery.FinishedForGood | lib/account-hosts.ts:3409-3459 | a completed recovery stays the newest of its host, completed with its second proof, which stays spent, over any continuation |
| AccountHostRecovery.RepeatedFinalization | lib/account-hosts.ts:3325-3330 | sending a finished finalization again, at any later point of the run, finds its own row the newest (but for one requested in the same millisecond), changes nothing, and succeeds if and only if the requester holds the host by DNS |
| AccountHostRecovery.DeliveryStep | lib/account-hosts.ts:3727-3751 | the attempt time changes only when the lease is handed out, the delivery state only when an outcome is recorded, and neither once sent |
| AccountHostRecovery.LeaseSpacing | lib/account-hosts.ts:3710-3726 | two reservations of one recovery are a lease apart if and only if the first was not at time zero or the second came after the first lease period, because the code compares with max(0, at - retry) |
| AccountHostWitnesses.LeasedTwiceInOnePeriod | lib/account-hosts.ts:3710-3726 | a run on which the spacing fails: a row leased at time zero is leased again at any reading inside the lease period |
| AccountHostRecovery.SentIsFinal | lib/account-hosts.ts:3788-3859 | a sent warning is never changed or leased again, over any continuation of the run |
| AccountHostRecovery.OutcomeCounts | lib/account-hosts.ts:3788-3859 | an outcome changes the delivery state if and only if it comes from the current lease of a row still pending after reconciling, not sent, and different; an outcome of a superseded lease never does |
| AccountHostWitnesses.UnavailableIsNotTerminal | lib/account-hosts.ts:3810-3812 | unlike what the comment there says: every fitting claim and request begin a run in which an unavailable delivery becomes failed, and only then can be leased again (`FittingExist` gives one) |
| AccountHostRecovery.OneMint | lib/account-hosts.ts:2218-2238 | exactly one evidence row minted the claim that a recovery is about |
| AccountHostRecovery.WarnsTheMint | lib/account-hosts.ts:3743-3755 | the fingerprint handed out with a lease is that of the proof that minted the claim under recovery |
| AccountHostInvariant.ReconcileSettles | lib/account-hosts.ts:2450-2481 | after reconciling, a pending recovery's snapshot is exactly the live claim and its window is open |
| AccountHostInvariant.ReadEstablishesSnapshot | lib/account-hosts.ts:3298-3390 | what the read phase of a finalization hands to the write phase was checked against the row, the clock and the stored proof |
| AccountHostInvariant.DnsClaimKeepsInv | lib/account-hosts.ts:2037-2137 | a DNS claim or transfer keeps the recovery, ledger and evidence invariant |
| AccountHostInvariant.EmailClaimKeepsInv | lib/account-hosts.ts:2158-2250 | so does an e-mail claim, which finds no recovery and no evidence of its host |
| AccountHostInvariant.StartKeepsInv | lib/account-hosts.ts:2265-2381 | so does filing a recovery |
| AccountHostInvariant.WriteKeepsInv | lib/account-hosts.ts:3391-3503 | so does the write phase of a finalization, after any interleaving since its read phase |
| AccountHostInvariant.ReconcileKeepsInv | lib/account-hosts.ts:2450-2481 | so does reconciling; a stale snapshot implies the claim is no longer e-mail derived |
| AccountHostInvariant.ReserveKeepsInv | lib/account-hosts.ts:3710-3755 | so does handing out the notification lease |
| AccountHostInvariant.RecordKeepsInv | lib/account-hosts.ts:3788-3859 | so does recording an outcome |
| AccountHostRuns.StepKeepsInv | lib/account-hosts.ts:3298-3503 | every step of the interleaved system keeps the invariant and the snapshots held by open finalizations and claims |
| AccountHostRuns.RunKeepsInv | lib/account-hosts.ts:2037-2137 | every reachable state satisfies the invariant |
| AccountHostRuns.RunMoves | lib/db.ts:449-590 | over any stretch of a run no claim, recovery, proof, audit, evidence or transfer row disappears; settled recoveries stay settled; ledgers are append-only |
| AccountHostStore.Store.SpendProof | lib/host-claim-challenge.ts:142-183 | the guarded update succeeds if and only if the proof is stored for this host and DID, unspent and not expired, and then only its time of use changes; otherwise nothing changes, and each reason is given exactly for its own facts: missing or of another host, of another DID, spent, expired |
| AccountHostStore.Store.CloseAll | lib/account-hosts.ts:2384-2445 | closing rows one by one, each with its audit entry, is closing them all |
| AccountHostStore.Store.ExpireStaleRecovery | lib/account-hosts.ts:2384-2411 | expires exactly the pending rows of the host past their window, with one entry each |
| AccountHostStore.Store.InvalidatePendingRecovery | lib/account-hosts.ts:2415-2445 | invalidates exactly the pending rows of the host, with one entry each |
| AccountHostStore.Store.ReconcilePendingRecovery | lib/account-hosts.ts:2450-2481 | the statements as a whole, for a table with one pending row a host |
| AccountHostStore.Store.UpsertClaimForOwner | lib/account-hosts.ts:1962-1995 | inserts a first claim or refreshes the claimant's own; refuses another claimant, the methods minted elsewhere, and a weaker method |
| AccountHostStore.Store.WriteDnsClaim | lib/account-hosts.ts:2037-2137 | the whole transaction: it commits the claim or transfer, or leaves every table as it was and says why |
| AccountHostStore.Store.WriteContactEmailClaim | lib/account-hosts.ts:2158-2250 | insert-only: commits a first claim with its evidence, or leaves every table as it was |
| AccountHostStore.Store.StartEmailClaimRecovery | lib/account-hosts.ts:2265-2381 | files the request after reconciling, or leaves every table as it was |
| AccountHostStore.Store.LatestRecovery | lib/account-hosts.ts:3669-3683 | a newest recovery row of the host |
| AccountHostStore.Store.FinalizeEmailClaimRecovery | lib/account-hosts.ts:3298-3503 | the read phase, with every refusal and its side effects, and the write phase |
| AccountHostStore.Store.CompleteRecovery | lib/account-hosts.ts:3391-3503 | the write phase: replay, refusal, rollback or the ownership move |
| AccountHostStore.Store.ReserveNotification | lib/account-hosts.ts:3710-3755 | leases at most one row, and the fingerprint is that of the newest evidence that minted the claim |
| AccountHostStore.Store.RecordNotification | lib/account-hosts.ts:3788-3859 | records an outcome under its guards and shows the requester's pending row |
| AccountHostProgress.TransferSucceeds | lib/account-hosts.ts:3067-3190 | an unexpired intent for the current row, its owner verified, and an unspent proof always hand the host over, and end the recoveries pending against the old owner |
| AccountHostProgress.IssuedCanBeSpent | lib/host-claim-challenge.ts:98-140 | an issued proof can be spent by its account for its host exactly until it expires, issuing changes no other proof, and a token in use is not issued again |
| AccountHostProgress.PreparesExactly | lib/account-hosts.ts:3067-3176 | the read phase lets a claim through if and only if the host is unclaimed or the claimant's own, or, with an intent, the intent is of this host, unexpired, of the verified and current owner, and of the current row |
| AccountHostProgress.DnsClaimsExactly | lib/account-hosts.ts:3067-3190 | a DNS claim or transfer, read at one point of a run and written at any later one, takes effect if and only if the read let it through and, at the write, its proof can be spent, its row is the one that was read and its intent unused; otherwise no table changes; what it leaves of claim, host row, recoveries and transfer ledger is given |
| AccountHostProgress.EmailClaimsExactly | lib/account-hosts.ts:2158-2250 | an e-mail claim takes effect if and only if everything bound into its challenge is as stored, the proof can be spent and the host is unclaimed; otherwise no table changes |
| AccountHostProgress.RefreshesExactly | lib/account-hosts.ts:1962-1995 | a claim by handle or fixture takes effect if and only if the host is unclaimed or its own and no DNS or handle claim would be weakened; it keeps the date of the claim, and otherwise no table changes |
| AccountHostProgress.EmailClaimSucceeds | lib/account-hosts.ts:2158-2250 | a bound, unspent e-mail proof for an unclaimed host always gets it |
| AccountHostProgress.RequestSucceeds | lib/account-hosts.ts:2265-2381 | a DNS proof of somebody else against the current e-mail claim always files a request, when no earlier one is inside its window, and that request is then the newest and the only pending one |
| AccountHostProgress.RequestsExactly | lib/account-hosts.ts:2265-2381 | in every state of the invariant a request is filed if and only if it names the live e-mail claim of somebody else, brings a proof that can be spent, and no earlier request of the host is inside its window; it is due after 48 hours and open for 7 days; otherwise no table changes |
| AccountHostProgress.FinalizesExactly | lib/account-hosts.ts:3298-3503 | in every state of the invariant the newest, pending recovery is finalized if and only if its claim is still e-mail derived, the clock is inside the window and a fresh, bound, unspent second proof is brought |
| AccountHostProgress.StaysPending | lib/account-hosts.ts:2384-2481 | over any stretch of a run a pending recovery stays pending as long as its claim stays e-mail derived and no clock passes its window |
| AccountHostProgress.RecoverySucceeds | lib/account-hosts.ts:3298-3503 | whatever other workers do after the request, it is then still the newest and pending, and its finalization succeeds exactly under those conditions |
| AccountHostProgress.LeasedExactly | lib/account-hosts.ts:3710-3726 | in every state of the invariant the lease goes exactly to the requester's pending row whose claim is still e-mail derived, inside its window, not yet warned and not tried too recently |
| AccountHostAnswers.FinalizationsExactly | lib/account-hosts.ts:3298-3503 | a finalization, read at one point of a run and written at any later one, makes the requester the owner if and only if the read found its own recovery newest, pending and due under the live e-mail claim with a DNS proof issued in time, and, at the write, that proof is unspent, the row pending and the claim e-mail derived, still; otherwise the write changes nothing |
| AccountHostAnswers.FinalizationAnswers | lib/account-hosts.ts:3298-3503 | every answer of a finalization by the facts of the row, the claim, the clock and the proof: what is refused and why, which row is closed, and what the caller is shown |
| AccountHostAnswers.WriteAnswers | lib/account-hosts.ts:3391-3503 | every answer of the write phase for any held snapshot: replay, refusal, rollback or the move |
| AccountHostAnswers.DnsClaimAnswers | lib/account-hosts.ts:2037-2107 | every answer of the claim transaction: the proof is looked at first, then the row, then the intent id, then the host |
| AccountHostAnswers.EmailClaimAnswers | lib/account-hosts.ts:2158-2250 | every answer of an e-mail claim |
| AccountHostAnswers.RequestAnswers | lib/account-hosts.ts:2265-2381 | every answer of a recovery request |
| AccountHostAnswers.FingerprintsExactly | lib/account-hosts.ts:3743-3755 | a fingerprint is handed out if and only if it is 43 characters of the URL-safe alphabet, and the text of every 32-byte hash is one |
| AccountHostDirectory.SqlAgreesExactly | lib/account-hosts.ts:4943-5028 | the SQL filter lists every host the predicate lists, and one more exactly when an available, not opted-out host's only public intent is a stored sign-up URL on a private or reserved host name |
| AccountHostDirectory.StoredUrls | lib/host-record-indexing.ts:135-147 | every stored sign-up URL passes the prefix test of the query, and passes the full test exactly if its host name is public |
| AccountHostDirectory.SqlListsPrivateHost | lib/security.ts:216-338 | such a host: one whose record gives https://localhost/ |
| AccountHostDirectory.AvailabilityExactly | lib/account-hosts.ts:4970-4994 | which hosts are available, and how: by the relay within two days, by a direct check that has not expired, or by a claim with activity within three days |
| AccountHostDirectory.ListableExactly | lib/account-hosts.ts:4942-4968 | a host is listed if and only if its operator has not opted out, it is available, and it is claimed, seeded, with a public sign-up page or detected as public within a week |
| AccountHostAddresses.NamesExactly | lib/security.ts:216-233 | a host name is private if and only if, in lower case and without a final dot, it is one of eight top-level names or inside one |
| AccountHostAddresses.Ipv4Exactly | lib/security.ts:282-291 | an IPv4 address is not public if and only if it lies in one of thirteen blocks |
| AccountHostAddresses.Ipv6Exactly | lib/security.ts:246-280 | an IPv6 address is not public if and only if it lies in one of eight blocks, is loopback or unspecified, or carries an IPv4 address that is not public |
| AccountHostDirectory.OrderIsConsistent | lib/account-hosts.ts:4912-4941 | each of the four directory orders is a consistent comparator |
| AccountHostDirectory.ListsExactly | lib/account-hosts.ts:4912-4941 | what each order means for two hosts, in both directions: recommended is by falling accounts, claimed before observed, then names; accounts by falling accounts and active accounts; recent by falling time last seen; name by names; ties by verification, sign-up and names |
| AccountHostDirectory.DirectoryIsInOrder | lib/account-hosts.ts:4912-4941 | the sorted list shows each host as often as it came, and of any two positions the earlier one holds the host that the order puts first |
| AccountHostDirectory.DirectoryOrderIsUnique | lib/account-hosts.ts:4912-4941 | hosts whose names the collation tells apart have one order, however the rows were read |
| AccountHostDirectory.PagesAgree | lib/account-hosts.ts:4838-4863 | a visitor who asks for one page after the other sees every host once and in order, although each page is a query of its own and rows may come back in a different order each time |
| AccountHostDirectory.PagePastTheEnd | lib/account-hosts.ts:4838-4844 | a page past the end is the last page, and only an empty list has an empty page |
| AppPartition.PartitionIsConnectivity | lib/app-directory.ts:684-763 | after any run of upserts two records share a listing if and only if a chain of the alias sets upserted so far connects them |
| AppPartition.AttemptsAreConnectivity | lib/app-directory.ts:684-763 | with upserts that throw as well, records whose upserts returned share a listing if and only if the alias sets of those that returned, and the known parts of those that threw, connect them |
| AppPartition.InterruptedRelabels | lib/app-directory.ts:917-924 | what an upsert that throws leaves: the listings that its known keys name are joined, its other keys stay unknown |
| AppPartition.OrderIndependence | lib/app-directory.ts:798-805 | two runs with the same alias sets, in any order, with repetitions, whichever listing survives each merge, group every pair of records alike |
| AppConvergence.ListingsConverge | lib/app-directory.ts:684-1004 | two runs with the same alias sets and the same drafts, in whatever order the records came and whichever listings survived, show every record in listings with the same records and the same merged fields, but for dates that no draft gives |
| AppConvergence.SameRecordsConverge | lib/app-directory.ts:684-1004 | so two runs that read the same unedited records, in any order and as often as they like, converge |
| AppConvergence.FirstArrival | lib/app-directory.ts:684-763 | such runs exist: any draft can be the first to be read, and its listing then shows it |
| AppConvergence.ReadsKeepOk | lib/app-directory.ts:848-876 | after every upsert of a run each live listing shows the merge of exactly its records' drafts |
| AppConvergence.ClockShowsInDates | lib/app-directory.ts:556-596 | merging at another time changes nothing but the two dates, and not them if every draft is dated |
| AppPartition.UpsertKeepsPartition | lib/app-directory.ts:684-763 | one upsert adds exactly one alias set to the connections |
| AppPartition.ApplyRelabels | lib/app-directory.ts:798-805 | what an upsert does to the alias and record tables |
| AppSlugRuns.UpsertKeepsSlugs | lib/app-directory.ts:848-1004 | when one of the 48 candidates is free and the first free one is within 80 characters, an upsert never throws; slugs stay distinct and nobody takes a slug reserved for another |
| AppSlugRuns.RunsKeepSlugs | lib/db.ts:1019 | so over every run |
| AppSlugRuns.EverySlugStillResolves | lib/app-directory.ts:2136-2178 | every slug a listing had at any earlier point of a run resolves to it, and to nothing else, as long as it has not been merged away |
| AppSlugRuns.MergedSlugIsLost | lib/app-directory.ts:798-845 | the current slug of a merged-away listing resolves afterwards if and only if it had been reserved before, and then to the survivor |
| AppSlugWitnesses.MergeLosesSlug | lib/app-directory.ts:765-845 | the input: for every clean slug with room for a number, two records ask for it, one comes to name the other, and the numbered slug resolves to nobody |
| AppSlugWitnesses.LongSlugsShareAKey | lib/app-directory.ts:337-346 | an 80-character slug and its numbered copies share an alias key |
| AppSlugRuns.UpsertThrowsExactly | lib/app-directory.ts:877-924 | in any state an upsert throws if and only if the slug its listing would leave is reserved for another one, or no candidate is free and another row has the fallback |
| AppSlugRuns.OwnedSlugsThrowExactly | lib/app-directory.ts:653-678 | while nobody's slug is reserved for another, only a clash of the fallback throws |
| AppSlugWitnesses.LongSlugThrows | lib/app-directory.ts:877-924 | so the limit matters: for every 80-character slug a run from empty tables ends where "already reserved" is thrown |
| AppSlugWitnesses.FallbackThrows | lib/app-directory.ts:653-678 | the other way to throw: for every slug and every new id a run from empty tables uses up the 48 candidates and finds the fallback taken |
| Slugs.OwnSlug | lib/app-directory.ts:337-346 | a text of at most 80 characters is its own slug if and only if it is lower-case words joined by single hyphens |
| Slugs.CandidatesAreClean | lib/app-directory.ts:653-678 | every numbered candidate of a clean base with room for the number is clean and within the limit |
| Slugs.KeysTellSlugsApart | lib/app-directory.ts:680-682 | two clean slugs within the limit share an alias key only when equal |
| SlugWords.SlugIsItsWords | lib/app-directory.ts:337-346 | a slug is the words of its text, the runs of letters, digits and dots, in their order, in lower case and with single hyphens, cut after 80 characters, and `app` if there are none |
| AppDirectory.FirstFree | lib/app-directory.ts:661-677 | the first candidate that is free, all earlier ones being taken, or none of the 48 |
| AppUpsertEffects.EveryUpsertLeaves | lib/app-directory.ts:684-924 | everything one upsert leaves in aliases, records and listings, in any state, returning or throwing: what is gathered in the first known listing, which slug is reserved, which is chosen, and which aliases are claimed; it throws if and only if the slug it leaves is reserved for another listing or another one has the slug it gets |
| AppUpsertEffects.SlugIsChosen | lib/app-directory.ts:653-678 | the slug is the first of the base and its numbered copies up to 48 that no other listing has or has reserved, or else the base with the beginning of the id |
| AppDirectoryStore.Store.EnsureUniqueSlug | lib/app-directory.ts:653-678 | the loop finds the first free candidate, as `Chosen` says it; a slug that is taken can only be the unchecked fallback |
| AppDirectoryStore.Store.MergeDuplicateListing | lib/app-directory.ts:765-845 | every alias and record of the duplicate follows the survivor, and the duplicate is marked deleted |
| AppDirectoryStore.Store.RecomputeListing | lib/app-directory.ts:848-1004 | reserves the slug that is left, then moves; when it throws only the reservation may have been written |
| AppDirectoryStore.Store.UpsertAppRecordFromDraft | lib/app-directory.ts:684-763 | the whole upsert, for whatever order the known listings come back in; when it throws, what has been written by then |
| AppIdentity.AliasKinds | lib/app-directory.ts:388-410 | no alias of a draft can be mistaken for a reserved slug, and an ATStore draft has no alias from the accounts that control it |
| AppIdentity.OwnUriFirst | lib/app-directory.ts:388-410 | the first alias of a draft is its own URI |
| AppIdentity.UrlAliasKept | lib/app-directory.ts:404 | the canonical primary URL is always among the aliases, whatever was deduplicated |
| AppIdentity.AliasesExactly | lib/app-directory.ts:388-410 | the aliases of a draft are exactly the names its fields give, one for each that differs in more than case; DIDs only where the draft is no ATStore listing |
| AppIdentity.DidsExactly | lib/app-directory.ts:313-316 | a text is a DID if and only if it is did:, a lower-case method, a colon and an identifier |
| AppIdentity.DidIsAliasExactly | lib/app-directory.ts:388-410 | a DID that a draft names is among its aliases if and only if the first of its fields that names it up to case names it as it is |
| AppIdentity.CaseHidesDid | lib/app-directory.ts:297-309 | the input: a profile whose product and profile account differ only in case has no alias from the second |
| AppIdentity.SharedAliasMeets | lib/app-directory.ts:684-763 | drafts with an alias in common end in one listing, whatever else is upserted before, between and after them |
| AppIdentity.SameUrlMeets | lib/app-directory.ts:318-335 | records with the same canonical web address always share a listing |
| AppIdentity.SameDidMeets | lib/app-directory.ts:388-410 | records other than ATStore listings that name the same account, and name it first where they name it in two cases, always share a listing |
| AppIdentity.DraftSlugIsRoomy | lib/app-directory.ts:337-346 | whatever a draft says, its slug is within the limit of the slug theorem when it leaves room for a number, or is below the cut and free |
| AppDrafts.PrecedenceIsConsistent | lib/app-directory.ts:359-375 | the precedence comparator is consistent whenever the collation is |
| AppDrafts.DistinctUrisDoNotTie | lib/app-directory.ts:359-375 | drafts with different URIs never tie |
| StableSort.OrderIgnoredExactly | lib/app-directory.ts:515-516 | a stable sort gives the same result for every order of its input if and only if no two different items tie |
| AppMerge.MergeIgnoresOrder | lib/app-directory.ts:509-596 | every merged field is the same for any order of drafts with distinct URIs, for a fixed clock |
| AppMerge.PairOrderShowsExactly | lib/app-directory.ts:374 | two drafts merge differently in the two orders if and only if their precedence ties |
| AppMerge.SoftHyphenShowsOrder | lib/app-directory.ts:374 | the input: two drafts whose URIs differ in a soft hyphen, under a consistent collation that passes over it |
| AppMerge.LocalDraftsOnlyAddLinks | lib/app-directory.ts:510-514 | next to a draft that is no local fixture, adding, removing or changing fixtures changes nothing but supplemental links |
| AppMerge.MergedLinksShape | lib/app-directory.ts:598-637 | content links come first and are never displaced, the rest have allow-listed destinations, destinations are distinct, at most 16 |
| AppMerge.AuthoritativeLinks | lib/app-directory.ts:613-625 | with an ATStore draft every merged link is an ATStore draft's or has an allow-listed destination |
| AppPrecedence.SupplementalExactly | lib/app-directory.ts:613-625 | a link is supplemental if and only if its canonical destination is an app store or Tangled, whatever the case and a leading www |
| AppPrecedence.LinksAreComplete | lib/app-directory.ts:598-637 | every destination of a content draft, and every allow-listed one of any draft, is among the merged links unless these are 16 |
| AppMerge.ContentAre | lib/app-directory.ts:518-521 | content drafts are source drafts, and all ATStore if any source draft is |
| AppPrecedence.PrecedesExactly | lib/app-directory.ts:359-375 | one draft comes before another, or ties, if and only if: local fixtures last, then the better source, then the newer draft, then by URI |
| AppPrecedence.LocalFixturesExactly | lib/app-directory.ts:352-357 | a draft is a local fixture if and only if the text did:plc:localdev begins its repository, product DID or profile DID, or occurs in its URI |
| AppPrecedence.MergedListingShows | lib/app-directory.ts:509-596 | what the merged listing shows, for every list of drafts: the canonical draft is one that no draft precedes; each text is the first non-empty one of the content drafts, with its fallbacks; the references are the first of each source; the lists gather the content drafts' items once each; the dates are the first creation and the last update |
| AppDrafts.MergeAppListingDrafts | lib/app-directory.ts:509-596 | the merge with its loops computes the merged listing, of which `AppPrecedence.MergedListingShows` says what it shows |
| AppDrafts.SourceRefs | lib/app-directory.ts:536-547 | the loop keeps the first URI of each source |
| Text.CollectUnique | lib/app-directory.ts:297-309 | the loop keeps the first of the trimmed, non-empty strings that agree up to case |
| Text.UniqueExactly | lib/app-directory.ts:297-309 | a text is kept if and only if some value reads as it when trimmed and no earlier value reads as it up to case |
| Dedupe.DedupeBy | lib/app-directory.ts:627-651 | the loop keeps the first item of every key |
| Dedupe.FirstByKeySound | lib/app-directory.ts:627-651 | kept items were there, keys are distinct, and every key is still represented |
| Dedupe.FirstByKeyAppend | lib/app-directory.ts:627-637 | what comes later cannot displace what came before |
| AppCounters.SocialChangeAgrees | lib/app-directory.ts:1068-1142 | posting, editing, re-pointing or deleting a review or a favorite keeps every stored total equal to a recount |
| AppCounters.PostedAndDropped | lib/app-directory.ts:1068-1313 | a posted review or favorite says exactly what was given, is live, and is counted where its subject was found and nowhere else; a deleted one stays, is not live, and is counted nowhere; every other row and listing is as before, and the totals concerned are those of the other rows with or without it |
| AppCounters.DeletedRowIsUncounted | lib/app-directory.ts:1121-1313 | where the totals were right, deleting a live review takes one from its listing's count and its rating from the weight of the average, and deleting a live favorite takes one from the favorites |
| AppCounters.RetractedRecord | lib/app-directory.ts:1041-1066 | a deleted record stays and is not live, exactly the aliases it wrote last are gone, its listing goes on with its other drafts or is deleted with its last one, and no other listing changes |
| AppCounters.RecomputeAgreesExactly | lib/app-directory.ts:1006-1039 | recomputing a listing makes every total right if and only if no live row is taken from another live listing |
| AppCounters.ChangeAgreesExactly | lib/app-directory.ts:684-1066 | every change, deletions and upserts that throw included, keeps the totals right if and only if it meets its guard: an upsert or a deletion takes no row from another live listing, an upsert that throws merges no rows into a live one |
| AppCounters.NamesHold | lib/app-directory.ts:388-410 | over every run without deletions and throws, each ATStore URI names the listing that carries it, and a live row is filed where its subject names |
| AppCounters.TotalsAgree | lib/app-directory.ts:1068-1313 | over every run of posts, edits, deletions of reviews and favorites, upserts and merges, the stored totals are those of a recount; each row's listing is looked up from its subject |
| AppCounters.TotalsAgreeExactly | lib/app-directory.ts:684-1313 | over every run of all changes the totals are right all the time if and only if each deletion, throw and upsert met its guard |
| AppCountersWitnesses.ReturningRecordSkewsTotals | lib/app-directory.ts:1041-1066 | the run that fails, for all drafts whose keys fit: an ATStore record is deleted while another draft keeps its listing, and added again under no key the listing knows; the old listing goes on counting a review that has moved |
| AppCountersWitnesses.SitedDraftsFit | lib/app-directory.ts:388-410 | such keys are the aliases of real drafts: an ATStore listing and an entry of one web address, the former coming back with another one |
| AppUpsertTotals.UpsertInStep | lib/app-directory.ts:684-763 | the directory of aliases and slugs and the tables of the totals step together, whether an upsert returns or throws |
| AppUpsertTotals.TotalsAfterUpsertExactly | lib/app-directory.ts:684-763 | the totals after an upsert are right if and only if, where its slug makes it throw, it merges no rows into a live listing, and where it returns, it takes no row from another |
| AppUpsertTotals.TotalsRightExactly | lib/app-directory.ts:684-1313 | so over every run of reading records, returning or throwing, and posting and deleting reviews and favorites |
| AppCounters.NewReviewMovesAverage | lib/app-directory.ts:1430-1438 | a new review adds one to the count and its rating to the average times the count |
| AppCountersStore.OneByOneIsBatch | lib/app-directory.ts:1384-1401 | updating listings one at a time, in any order and with repetitions, is updating them in one batch |
| AppCountersStore.Store.Tally | lib/app-directory.ts:1430-1438 | COUNT and AVG, adding up in any order |
| AppCountersStore.Store.UpdateAggregatesForIds | lib/app-directory.ts:1384-1401 | the batches of 50 over the deduplicated ids update exactly the given listings |
| AppCountersStore.Store.FindListingByAtstoreUri | lib/app-directory.ts:1341-1355 | some row that carries the URI, deleted or not, or none if there is none |
| AppCountersStore.Store.UpsertAppReview | lib/app-directory.ts:1068-1119 | looks the listing up; afterwards the row is exactly the given review, live, counted there and no longer where it was filed before |
| AppCountersStore.Store.DeleteAppReview | lib/app-directory.ts:1121-1142 | afterwards the row is there but not live, no listing counts it, and every other review is unchanged; an unknown URI changes nothing |
| AppCountersStore.Store.UpsertAppFavorite | lib/app-directory.ts:1243-1290 | looks the listing up; afterwards the row is exactly the given favorite, live, counted there and no longer where it was filed before |
| AppCountersStore.Store.DeleteAppFavorite | lib/app-directory.ts:1292-1313 | afterwards the row is there but not live, no listing counts it, and every other favorite is unchanged; an unknown URI changes nothing |
| AppCountersStore.Store.MergeDuplicateListing | lib/app-directory.ts:765-845 | reviews, favorites, records and aliases of the duplicate follow the survivor, and it is marked deleted |
| AppCountersStore.Store.RecomputeListing | lib/app-directory.ts:848-1004 | without drafts the listing is only marked deleted; otherwise its ATStore rows are claimed and its totals recounted |
| AppCountersStore.Store.DeleteAppRecord | lib/app-directory.ts:1041-1066 | the record is no longer live, exactly the aliases it wrote last are gone, and its listing goes on with its other drafts or is deleted with its last one |
| AppCountersStore.Store.UpsertAppRecord | lib/app-directory.ts:684-763 | one of the listings its keys name survives, the others are merged into it one by one, and it is recomputed |
| AppRecordFailures.UriRoundTrip | lib/app-directory-failures.ts:126-145 | every URI of Latin-1 characters comes back from its identifier, except the empty one, whose identifier is refused |
| AppRecordFailures.IdsAreCanonical | lib/app-directory-failures.ts:133-145 | the texts that come back from the URI they decode to are exactly the unpadded base64url texts without spare bits, and exactly the identifiers of non-empty URIs |
| AppRecordFailures.SpareBitDoesNotComeBack | lib/app-directory-failures.ts:133-145 | the input: "QR" decodes to the URI whose identifier is "QQ" |
| AppRecordFailures.IdsTellUrisApart | lib/app-directory-failures.ts:126-131 | different URIs have different identifiers |
| AppRecordFailures.PaddingIsDropped | lib/app-directory-failures.ts:136-139 | the padding arithmetic completes every group, and the decoder drops exactly what it added |
| AppRecordFailures.AlphabetsAreTheTables | lib/app-directory-failures.ts:126-131 | the two alphabets are tables 1 and 2 of RFC 4648 |
| AppRecordFailures.SpacesAreSkipped | lib/app-directory-failures.ts:133-145 | the decoder gives the same with a tab, line feed, form feed, carriage return or blank anywhere in its text |
| AppRecordFailures.BytesOfSextets | lib/app-directory-failures.ts:126-131 | splitting bytes into sextets loses nothing and leaves no spare bits |
| AppRecordFailureStore.RowsSummariseStreaks | lib/app-directory-failures.ts:25-66 | over every run a row says how often, since when and why last its record has failed since it was last cleared |
| AppRecordFailureStore.Store.RecordAppRecordFailure | lib/app-directory-failures.ts:25-57 | afterwards the row has the new reason and time, the count and the start of the failures since the last clear, and no other row has changed |
| AppRecordFailureStore.Store.ClearAppRecordFailure | lib/app-directory-failures.ts:59-66 | afterwards the record has no row and no failures since the last clear, and no other row has changed |
| AppDirectoryJobs.BodyRunsOnce | lib/app-directory-jobs.ts:114-131 | in every run, with any number of workers interleaved between statements, each job's body runs at most once |
| AppDirectoryJobs.RunForward | lib/app-directory-jobs.ts:210-226 | a job goes from queued to running to one terminal status; the start is stamped once; a terminal row never changes again |
| AppDirectoryJobs.EveryStatusStep | lib/app-directory-jobs.ts:253-295 | no step skips "running" and none goes back |
| AppDirectoryJobs.OnlyOwnerFinishes | lib/app-directory-jobs.ts:253-295 | although finishing does not look at the status, only the worker that started a job can finish it |
| AppDirectoryJobs.EveryChange | lib/app-directory-jobs.ts:90-295 | everything that happens to a job in a run: it is added queued, started once from the queue, reported on and finished by its owner, as succeeded with its counts if the body returned, as failed with its error if it threw; nothing else changes a row |
| AppDirectoryJobs.JobGetsDone | lib/app-directory-jobs.ts:114-131 | a free worker that takes up a queued job undisturbed runs it to the terminal row of its outcome; a refusal to store a return is stored as an error, and a refused error leaves the job running |
| AppDirectoryJobs.ReportIsShown | lib/app-directory-jobs.ts:228-251 | what a working body reports is shown by its own job and by no other |
| AppDirectoryJobs.AbandonedForGood | lib/app-directory-jobs.ts:210-226 | once the worker of a running job is gone, no step of any continuation changes the job again |
| AppDirectoryJobs.CrashAbandons | lib/app-directory-jobs.ts:114-131 | a worker that crashes leaves its running job to nobody |
| AppDirectoryJobs.ClientHasLooked | lib/app-directory-jobs.ts:41-88 | every client about to insert a job has looked earlier in the run, when none of the kind was active |
| AppDirectoryJobs.ClientEnqueues | lib/app-directory-jobs.ts:41-88 | a client that looks when none is active and then inserts has added one queued job of the kind, and nothing else changes |
| AppDirectoryJobs.StepKeepsInv | lib/app-directory-jobs.ts:210-295 | one worker to a running job, none to any other |
| AppDirectoryJobs.InsertKeepsOneExactly | lib/app-directory-jobs.ts:41-88 | an insertion keeps one active job of each kind if and only if none has appeared since the client looked |
| AppDirectoryJobs.OneActiveExactly | lib/app-directory-jobs.ts:41-88 | over every run there is at most one active job of each kind all the time if and only if no insertion was late |
| AppDirectoryJobs.EnqueueCanDuplicate | lib/app-directory-jobs.ts:41-88 | two clients that look before either inserts leave two active jobs of one kind |
| AppDirectoryJobStore.Store.Enqueue | lib/app-directory-jobs.ts:41-88 | without interference, the newest active job of the kind or a new one; one active job of each kind is kept |
| AppDirectoryJobStore.Store.RunAppDirectoryJob | lib/app-directory-jobs.ts:114-131 | a queued job ends succeeded with its counts or failed with its error, by the outcome of its body; any other job is left alone |
| AppDirectoryJobStore.Store.ListQueued | lib/app-directory-jobs.ts:162-178 | the oldest queued jobs, up to the clamped limit |
| AppDirectoryJobStore.Store.RunQueuedAppDirectoryJobs | lib/app-directory-jobs.ts:180-186 | alone, exactly the listed jobs are run, each to its terminal row, and no other row changes |
| AccountHostPublicIntent.ProbedADayApart | lib/account-host-public-intent.ts:313-346 | no host is probed by two runs within 24 hours, whatever happens in between and whatever clock readings the runs were given |
| AccountHostPublicIntent.DetectsExactly | lib/account-host-public-intent.ts:61-104 | a described server is open to the public if and only if it has two accounts and a domain and either asks for no invitation, which makes sign-up open, or asks for one and has a sign-up page or a contact with a policy, which makes it by invitation |
| AccountHostPublicIntent.LazyPageSuffices | lib/account-host-public-intent.ts:258-274 | fetching the landing page only when it could decide reaches the verdict that always fetching it would |
| AccountHostPublicIntent.PageDecidesExactly | lib/account-host-public-intent.ts:265-274 | for a host with enough accounts the page is fetched if and only if some page could change the verdict |
| AccountHostPublicIntent.ProbesExactly | lib/account-host-public-intent.ts:252-280 | a probe describes a host if and only if its endpoint is valid and its server answers, and reaches the verdict that always fetching the page would |
| AccountHostPublicIntent.ProbedExactly | lib/account-host-public-intent.ts:313-346 | a run probes only observed, unclaimed hosts with active accounts, two accounts, an https endpoint and no sign-up page, not tried for a day, and all of them below its limit |
| AccountHostPublicIntent.EveryRowAfter | lib/account-host-public-intent.ts:285-399 | what a run leaves of every row: only the attempt where the server did not answer, the verdict and its evidence where it did, and a declared status kept at the first detection |
| AccountHostPublicIntent.LeftOutMovesUp | lib/account-host-public-intent.ts:335-339 | an eligible host that a run (later than the first day of the epoch) leaves out comes before all probed ones next time |
| AccountHostPublicIntent.DeclaredStatusSurvivesExactly | lib/account-host-public-intent.ts:348-399 | a declared sign-up status survives a detection and the next check if and only if that check detects the same one |
| AccountHostPublicIntent.DeclaredStatusIsLost | lib/account-host-public-intent.ts:348-399 | the input: two runs two days apart on a host that declares its sign-up closed |
| AccountHostPublicIntentStore.Store.LoadCandidates | lib/account-host-public-intent.ts:313-346 | the eligible hosts that are due, in order, up to the limit, and none that should come first is left out |
| AccountHostPublicIntentStore.Store.Enrich | lib/account-host-public-intent.ts:220-311 | every candidate is probed, stamped and counted once; candidates = checked + unavailable; checked = detected + not detected; no other row changes |
| AccountHostPublicIntentStore.Store.WriteResult | lib/account-host-public-intent.ts:285-308 | one row and one count for each result |
| AccountIndicators.RoundTripExactly | islands/CreateProfileForm.tsx:618-646 | a list survives being printed and parsed if and only if it has at most 64 different items, each trimmed and on one line, with no slash in a record key or inside a collection without one |
| AccountIndicators.ReadingIsNotStable | islands/CreateProfileForm.tsx:637-639 | what the form itself parses need not survive: a trailing slash hides a separator |
| AccountIndicators.CollectAccountIndicators | islands/CreateProfileForm.tsx:626-646 | the loop with its seen set and its limit |

## Left out

- AccountHostOwnership.SnapshotUsedOnce: holds for stretches of a run without a backdated refresh of that host; with one it is false (`AccountHostWitnesses.BackdatedRefreshReusesSnapshot`).
- AccountHostOwnership.ProofSpentOnce: pruning of expired challenge rows is not modelled; a pruned token is random and never issued again.
- AccountHostOwnership.ClaimWasPrepared: the read phase has one clock reading; the code reads the clock for the intent and again for the timestamp.
- AccountHostAnswers.FinalizationAnswers: read and write at one moment; `WriteAnswers` and `FinalizationsExactly` are for any later write.
- AppPartition.PartitionIsConnectivity: runs are of upserts that return; `AttemptsAreConnectivity` covers those that throw. `deleteAppRecord` removes aliases by the record that wrote them last, after which listings no longer follow connectivity.
- AppSlugRuns.UpsertKeepsSlugs: needs a free candidate, because the fallback after 48 candidates is not checked and candidate 49 is never tried, and the first free one within 80 characters, because alias keys are cut there (`LongSlugThrows`). A slug that is free and at most 80 characters long qualifies as it stands.
- AppSlugRuns.EverySlugStillResolves: for listings that were not merged away; a merged-away slug is lost unless it had been reserved (`MergedSlugIsLost`). An identifier is a slug here, so the DID, at:// and URL keys of the lookup are empty.
- AppIdentity.SameDidMeets: of DIDs that differ only in case a draft has the first alone as an alias (`DidIsAliasExactly`), so its other spellings need not meet anybody.
- AppMerge.MergeIgnoresOrder: needs a collation that tells the URIs apart; `localeCompare` may call different strings equal, and `PairOrderShowsExactly` says what happens then.
- AppCounters.TotalsAgree: for runs without `deleteAppRecord` and without upserts that throw; with them it holds exactly under the guards of `TotalsAgreeExactly`. There a throw is a choice; `AppUpsertTotals` replaces the choice by what the slugs decide, for runs without deletions.
- AppConvergence.ListingsConverge: for runs of upserts that return, without `deleteAppRecord`, and for a collation that tells the URIs apart (`SoftHyphenShowsOrder` is what happens otherwise); slugs and ids may differ.
- AppDirectoryStore.Store.UpsertAppRecordFromDraft: the slug that the merged drafts ask for is an input (`AppConvergence` computes it from the drafts), and of a record only its listing is kept; a stored slug is never blank or padded, so the trimming of it is not modelled.
- AppDirectoryStore.Store.MergeDuplicateListing: moves aliases, records and the row's life; `AppCountersStore.Store.MergeDuplicateListing` moves reviews and favorites; publications, mentions, featured places and moderation are not modelled.
- AppDirectoryStore.Store.RecomputeListing: the slug of a listing that has drafts; `AppCountersStore.Store.RecomputeListing` has the branch without drafts, the ATStore URI and the totals, and `AppDrafts.MergeAppListingDrafts` the other columns.
- AppCountersStore.Store.MergeDuplicateListing: publications, mentions, featured places and moderation of the duplicate are not modelled.
- AppCountersStore.Store.RecomputeListing: which of its drafts' ATStore URIs the listing carries is an input, constrained by `AppCounters.Allowed`; `AppPrecedence` says which one it is. Slugs are in `AppDirectoryStore`.
- AppCountersStore.Store.DeleteAppRecord: that URI is an input here too, and a slug error of the recompute is not modelled.
- AppCountersStore.Store.UpsertAppRecord: that URI is an input here too; slugs and their errors are in `AppDirectoryStore` and `AppUpsertTotals`.
- AppDirectoryJobStore.Store.RunAppDirectoryJob: what the job's body does, and whether it fails, is an input; progress updates are not modelled.
- AppDirectoryJobStore.Store.RunQueuedAppDirectoryJobs: the outcome of each job is an input, and all jobs of one call share one clock reading.
- AccountHostDirectory.PagesAgree: for rows that do not change between the queries of a visit, in the order of `sortAccountHostsForDirectory`; the ORDER BY clause compares lower-cased names, and the count is a statement of its own.
- AccountHostDirectory.SqlAgreesExactly: URLs are parsed already; a text is what a parsed URL prints.
- AppDirectoryJobs.BodyRunsOnce: a statement either takes effect or fails without effect; a commit whose acknowledgement is lost is not modelled.
- AccountHostPublicIntentStore.Store.Enrich: a run that is aborted half way, between probing a batch and stamping it, is not modelled.
- Ownership: registering a host (`establishAccountHostRegistrationOwnership`), deleting a host with its cascades, the legacy OAuth claims, and the checks of callers that only answer a lost race from rows already read (`completedDnsClaimReplay`, `completedContactEmailClaimReplay`, `completedEmailRecoveryFinalizationReplay`).
- Preparing challenges, rate limits, DNS lookup, mail, identity resolution and hashing: network and library behaviour.
- Interleavings inside one transaction: they run at the isolation the database gives them; only the reads that the code makes outside are separate steps.
- Publications, featured places, moderation and mentions of a listing; mention counts and trending scores, which depend on when they are computed or on floating point.
- Fields of a listing other than slug and life during an upsert: `AppDrafts` computes them.
- SQL text, row parsing, SQLite and PostgreSQL differences, search, caches, featured rotation and pages of the app directory.
- Language negotiation: with the one registered locale its result is constant.
- Lower-casing is that of ASCII letters, and strings are sequences of characters without Unicode normalisation.
- Fetching and scanning landing pages, and URL parsing: a canonical URL, a host name and a page link are given by functions.
