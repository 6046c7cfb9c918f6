# CraftSky protocol model

A Dafny model of the hardest stateful parts of CraftSky's AppView, with proofs
about whole runs of them. `dafny verify dfyconfig.toml` checks everything.

## Account deletion

An owner's lifecycle goes from active to deletion pending to deleting to departed;
an operation row goes from intent to an accepted job and is gone at the end. Users,
OAuth callbacks, an expiry sweeper, profile events and several workers interleave.

- `DeletionTables`, `DeletionTransactions`, `DeletionSteps`: the rows, each
  transaction as a function from one database value to the next, and the steps of
  every actor. A step carries whatever its actor read earlier, so a run with stale
  values is an ordinary run.
- `DeletionInvariant`, `DeletionPreservation`: the invariant of every reachable
  state, step by step.
- `DeletionRuns`, `DeletionHistory`, `DeletionAuthority`, `DeletionCredential`,
  `DeletionFencing`, `DeletionSafety`, `DeletionCompletion`, `DeletionRetry`,
  `DeletionStuck`, `DeletionStranding`: properties of whole runs. `DeletionExamples`:
  runs from the empty database that end where the protocol fails.
- `SafetyTombstones`, `SafetySchedule`, `SafetyRounds`: the inventory of writes with
  unknown outcome, and the order in which their keys are reconciled.
- `DeletionEffects`, `DeletionWorkEffects`: when each transaction commits and which
  rows it changes, said of the rows alone. `DeletionLeases`, `DeletionKeys`,
  `DeletionReadings`: what leases, keys and earlier readings are worth later.
- `DeletionStore`: the transactions again, as methods that update the tables in
  place and roll back, proved equal to the functions and to those effects. `Yield` lets any other actor
  run between two transactions of one caller; the ghost history shows that every
  state met is a state of a run of the steps.
- `DeletionService`, `IntentExpiry`, `DeletionWorker`: the service calls, the sweep
  and the worker, as sequences of such transactions.
- `PdsDeleter`, `DeletionClient`: the loops that empty an owner's collections on a
  paginated server. The server is an arbitrary function of the call number and its
  contents; `Quiet` names the assumptions under which the loops converge, and the
  deadline is the caller's context, or the call from which the credential is refused.
- `RetryPolicy`: the retry schedule in wrapping 64-bit arithmetic.

## Identity cache, operator console, versions, admission

- `IdentityCache`, `IdentityFencing`, `IdentityRuns`: the DID-to-handle cache, its
  version fence over interleaved refreshes, and what every reachable state holds.
  `IdentityEffects` says what each transaction leaves behind; `IdentityStore` and
  `IdentityRefresh` are the store and the refreshers in place.
- `ConsoleRequests`, `ConsoleCommands`, `ConsoleRuns`: operator commands with replay
  receipts and optimistic revisions. `KeysetPaging`, `ConsoleReads`,
  `ExtendedNetwork`: cursor paging against the plain listing.
- `SemVerGrammar`, `SemVerOrder`: the version comparison of the status document.
- `ConnectionLimit`, `ImageValidation`: bounded admission.

## Where the code does not do what it is for

Each names the theorem that says exactly when, and a concrete run or input that gets
there.

- A deletion cannot be accepted while a write to `social.craftsky.business.event` or
  `social.craftsky.business.profile` is uncertain: the registry lists six
  collections, the tombstone table's key check four
  (`DeletionSafety.AcceptanceRefusedExactlyWhenBlocked`, `BusinessWritesBlock`;
  `DeletionExamples.UncertainEventRefusesAcceptance`).
- No code of the repository settles a record tombstone, so an accepted deletion can be
  completed by itself exactly when no registered write was uncertain at acceptance
  (`DeletionCompletion.CompletesAloneExactlyWhenNothingUncertain`;
  `DeletionExamples.UncertainPostBlocksForever`).
- A job that lost its credential never gets one again, while
  docs/2026-appview-code-audit-plan/AV-002_AV-003_AV-006_AV-007-account-lifecycle.md
  (line 107) has a later sign-in take the job up again
  (`DeletionCredential.CredentialLastsUntilEnded`, `LostCredentialNeverReturns`;
  `DeletionExamples.ExpiredCredentialStrandsForever`). A sign-in does nothing for the
  job: the store's refresh from a login is called by AppService.PendingLogin only, and
  nothing calls that. The method itself is refused exactly when the job waits for
  reauthentication (`DeletionCredential.RefreshReplacesExactlyWhenNotStranded`) and
  would otherwise end the credential, because the session it brings is not
  deletion-only (`DeletionExamples.RefreshFromLoginEndsTheCredential`).
- An owner who reauthenticates for a deletion and then logs out everywhere stays
  pending for good: cancellation, expiry, departure and acceptance are refused exactly
  when the bound session is no longer deletion-only
  (`DeletionStuck.CancelSucceedsExactlyUnlessStuck`, `DeletionStuck.StuckForever`,
  `DeletionStranding.StuckExactlyOnceStranded`;
  `DeletionExamples.LogoutStrandsTheIntent`), and each expiry sweep that lists the
  intent stops at it
  (`IntentExpiry.IntentExpiryProcessor.RunOnce`).
- The final check looks for a tombstone named after each uncertain write, while the
  table keeps one per key: even with every tombstone settled the job can be completed
  exactly when no key repeats, unless a write's outcome is learned
  (`DeletionCompletion.CompletesOnceSettledExactlyWhenNoKeyRepeats`;
  `DeletionExamples.SecondUncertainWriteBlocksForever`).
- Refresh rows start at version 1 again each time, so an attempt left over from an
  earlier row can pass the fence
  (`IdentityFencing.LeftoverAttemptIsCurrentExactly`;
  `IdentityRuns.DefaultVersionLetsAStaleAttemptCommit`). The comment in the
  migration calls the version a compare-and-swap version; the fence holds when no
  version is used again (`IdentityRuns.CurrentExactlyWhenUndisturbed`).
- The fence is per DID, so commits for two DIDs are not ordered by how recent their
  lookups are: a moved handle goes back to its old owner exactly when an old attempt of
  that owner is undisturbed (`IdentityRuns.MovedHandleIsTakenBackExactly`;
  `IdentityRuns.SlowAttemptTakesAMovedHandleBack`).
- A retry may leave its jitter window when a policy's delay is within MaxJitter of
  the end of the 64-bit range (`RetryPolicy.DelayStaysInWindowExactly`;
  `RetryPolicy.LongestDelayWraps`).
- An underlying accept or close that panics never gives its slot back
  (`ConnectionLimit.EachPanicLosesOneSlot`; `ConnectionLimit.OnePanicLosesTheSlot`).
- A console list refuses its own next cursor when the cursor's text is too long
  (`ConsoleReads.ReadingStopsExactlyAtRefusedCursors`;
  `ConsoleReads.SecondCaseIsNeverShown`).

## Model

| member | source | states |
|---|---|---|
| `DeletionStore.Store.CreateIntentWith` | appview/internal/accountdeletion/store.go:70-98 | commits exactly for an owner active at the generation presented, with no row and a fresh id; leaves the owner pending one generation on in the same epoch, a bare intent of that generation and every other row as it was |
| `DeletionStore.Store.CancelIntentWith` | appview/internal/accountdeletion/store.go:157-252 | commits exactly for a pending owner's own intent at the generation presented, for the membership that holds, with no session bound or the bound one still deletion-only for it. Back to active: the bound session is queued for revocation, every other session and the epoch stay. To departed: a new epoch and no live session of the owner. Row and tombstones go, everybody else's rows stay |
| `DeletionStore.Store.DepartWith` | appview/internal/accountdeletion/store.go:304-369 | commits exactly for an active owner or a pending one whose bound session is still good; the owner is departed in a new epoch without row, tombstone or live session, and everybody else's rows stay |
| `DeletionStore.Store.BindReauthenticationWith` | appview/internal/accountdeletion/store.go:389-431 | commits exactly for an unexpired, unbound intent of the owner and a handoff session of the very generation and epoch; session, credential generation and proof are bound and the session is deletion-only for the job, and nothing else changes |
| `DeletionStore.Store.AcceptWith` | appview/internal/accountdeletion/store.go:468-529 | commits exactly when the request and binding name the unexpired intent's own session, proof and DID, that session can be carried over, and no uncertain write blocks the inventory. The job is due at once with the intent's credential and none of its secrets, the writes that may have happened are inventoried, that one session moves to the new epoch, the owner's others are queued for revocation and everybody else's stay |
| `DeletionStore.Store.AdoptAttempts` | appview/internal/accountdeletion/store.go:829-908 | the scan-then-insert loops produce exactly the one-pass adoption of the uncertain rows, or fail when any row blocks it |
| `DeletionStore.Store.ScanAttempts` | appview/internal/accountdeletion/store.go:880-897 | the first loop keeps exactly the registered rows, in order, and fails only on a malformed or foreign key |
| `DeletionStore.Store.ClaimDueWith` | appview/internal/accountdeletion/store.go:770-800 | claims exactly when an unlocked job is active or retrying, due, and without a lease or with one that has run out: the one due first, then of the lowest id. The lease of the given duration is all that changes in the row |
| `DeletionStore.Store.ClaimSafetyWith` | appview/internal/accountdeletion/store.go:935-993 | claims exactly when the claim's own unexpired lease is on the row and a key of the job is due: one whose lease ran out before all others, then the longest waiting. Only that tombstone changes, and it is held until the lease ends |
| `DeletionStore.Store.FindDueKey` | appview/internal/accountdeletion/store.go:955-967 | the search over all tombstones finds the one row that the ordering selects |
| `DeletionStore.Store.ReleaseSafetyWith` | appview/internal/accountdeletion/store.go:998-1021 | releases exactly a key in the hands of the same lease token, to the time given; otherwise the lease is reported lost and nothing changes |
| `DeletionStore.Store.ReadSafetyConverged` | appview/internal/accountdeletion/store.go:1023-1040 | true exactly when every tombstone of the claim's scope is settled |
| `DeletionStore.Store.RecordFailureWith` | appview/internal/accountdeletion/store.go:1042-1060 | commits exactly under the presented lease: retrying, one attempt more, due at the time given, without lease and with the same credential; nothing else changes |
| `DeletionStore.Store.CompleteWith` | appview/internal/accountdeletion/store.go:1172-1271 | commits exactly for a deleting owner at the generation presented, under the claim's lease, with a credential, every tombstone settled and every admitted uncertain write named; the owner is departed in a new epoch without row, tombstone or live session, and everybody else's rows stay |
| `DeletionStore.Store.RefreshBoundOAuthFromLogin` | appview/internal/accountdeletion/store.go:1275-1319 | commits exactly for a running job of the owner with a credential and a known session: active, no attempts, due now, without lease, on the new session; the old one, if another, is queued for revocation and no other session changes |
| `DeletionStore.Store.LoseCredentialWith` | appview/internal/auth/session_coordinator.go:655-700 | commits exactly under a live lease of a deleting owner's running job whose session is still deletion-only for it; the job waits for a reauthentication without credential, due time or lease, and that one session for revocation |
| `DeletionStore.Store.StateIsReached` | appview/internal/accountdeletion/store.go:60-98 | every state any caller sees is a state of a run of the protocol's steps, and satisfies the invariant |
| `DeletionPreservation.ReachableStatesSatisfyInv` | appview/internal/accountdeletion/store.go:60-1319 | every reachable state satisfies the whole invariant: stages, one row per owner, leases issued, no orphaned credential, tombstones owned and unique, uncertain writes covered |
| `DeletionPreservation.StepKeepsInv` | appview/internal/accountdeletion/store.go:60-1319 | each step of each actor keeps the invariant |
| `DeletionHistory.EachGenerationIsLeftOnce` | appview/internal/ownerlifecycle/lifecycle_store.go:112-163 | over any run and whatever generations its actors present, the generations an owner passed are exactly those that one committed transition left, and no two transitions left the same one |
| `DeletionHistory.EpochCountsRevocations` | appview/internal/auth/session_lifecycle.go:499-552 | over any run an owner's auth epoch rises by exactly the number of its departures, points of no return and times it was logged out everywhere |
| `DeletionEffects.LogoutEffect` | appview/internal/auth/session_lifecycle.go:499-650 | logging out everywhere succeeds exactly for a known owner that is not terminal: a new epoch at the same generation, every session of the owner queued for revocation but at most the one an accepted job runs on, and nobody else's touched |
| `DeletionRuns.OperationExistsExactlyInDeletion` | appview/internal/accountdeletion/store.go:70-98 | a row exists exactly when the owner is pending or deleting; pending means intent at generation-1, deleting means accepted at generation-2 with no intent field left; never two rows |
| `DeletionRuns.UsersCannotUndoAcceptance` | appview/internal/accountdeletion/app_service.go:230-261 | no cancel, expiry, departure, late binding, second acceptance or new intent touches an accepted row or its owner's lifecycle |
| `DeletionRuns.AcceptanceIsFinalUntilCompletion` | appview/internal/accountdeletion/store.go:199-220 | over any run an accepted job and its owner's state and generation stay until a completion of that very job |
| `DeletionRuns.LostCredentialStrandsTheDeletion` | appview/internal/accountdeletion/store.go:1282-1290 | once the job waits for reauthentication no step of any run, the refresh from a login included, lets it run again: it is never completed and its owner stays in deletion |
| `DeletionCredential.RefreshReplacesExactlyWhenNotStranded` | appview/internal/accountdeletion/store.go:1275-1319 | the refresh from a login replaces an accepted job's credential exactly when the job is not waiting for reauthentication; no sign-in of the repository calls it |
| `DeletionCredential.LostCredentialNeverReturns` | appview/internal/auth/session_coordinator.go:618-632 | a job past its intent without a deletion-only session never has one again over any run |
| `DeletionCredential.CredentialLastsUntilEnded` | appview/internal/auth/session_coordinator.go:582-640 | an accepted job has a usable credential at the end of any run exactly when it had one at the start and no step replaced, revoked, expired or gave up that session, logged it out without exempting it, or completed the job |
| `DeletionCredential.LoadsExactlyWhileUsable` | appview/internal/auth/session_coordinator.go:582-640 | in every reachable state the live lease holder reads a binding, and the coordinator loads it exactly while the job's session is deletion-only for it: a replaced one is read and never loads |
| `DeletionCredential.LogoutAllSparesTheCredential` | appview/internal/auth/session_lifecycle.go:499-650 | in every reachable state logging anybody out everywhere leaves an accepted job its usable credential, and the coordinator loads after it exactly what it loaded before |
| `DeletionCredential.RefusedLoadStaysRefused` | appview/internal/auth/session_coordinator.go:189-221 | once the coordinator refuses a claim its credential it refuses it over every later run |
| `DeletionExamples.ExpiredCredentialStrandsForever` | appview/internal/accountdeletion/store.go:1282-1290 | a run from the empty database whose accepted job loses its session to expiry and is stuck over every continuation |
| `DeletionExamples.RefreshFromLoginEndsTheCredential` | appview/internal/accountdeletion/store.go:1292-1315 | what the unwired refresh from a login would do: a run from the empty database in which it replaces a good credential and the job has none over every continuation |
| `DeletionAuthority.ReauthenticationBindsOnce` | appview/internal/accountdeletion/store.go:389-431 | after one successful binding every later one for the job is refused and changes nothing, however far the deletion has gone |
| `DeletionHistory.AcceptanceFollowsOneReauthentication` | appview/internal/accountdeletion/store.go:468-529 | in every run that accepts a deletion the intent was begun exactly once and bound exactly once before, in this order, by the confirming owner, at the matching generations, and was there all the time between; what is accepted are that begin's DID hash and that callback's proof, session and credential generation |
| `DeletionHistory.BindingIsStable` | appview/internal/accountdeletion/store.go:433-466 | a binding read before acceptance stays the answer over any run exactly as long as the intent is there and unexpired |
| `DeletionAuthority.AcceptedJobIsServed` | appview/internal/accountdeletion/store.go:1130-1161 | the accepted job is due at once, and its first claimant can read exactly the bound credential |
| `DeletionAuthority.StaleSweepRemovesOnlyTheExpiredIntent` | appview/internal/accountdeletion/intent_expiry.go:52-77 | however old the listing, a committed cancellation removes the listed intent itself, still an intent and still expired, and no other row |
| `DeletionStuck.CancelSucceedsExactlyUnlessStuck` | appview/internal/accountdeletion/store.go:221-239 | an otherwise valid cancellation succeeds exactly when no session is bound or the bound one is still deletion-only for the intent, and is told to reauthenticate otherwise |
| `DeletionStuck.DepartureSucceedsExactlyUnlessStuck` | appview/internal/accountdeletion/store.go:331-349 | so does a profile departure of the owner |
| `DeletionStranding.AcceptanceSucceedsExactlyUnlessStuck` | appview/internal/auth/session_lifecycle.go:225-275 | in every reachable state an otherwise valid acceptance commits exactly when the bound session is still deletion-only for the intent |
| `DeletionStuck.StuckForever` | appview/internal/accountdeletion/store.go:221-239 | an intent whose bound session was revoked under it stays over every run, its row unchanged and its owner pending at the very same generation |
| `DeletionStranding.StuckExactlyOnceStranded` | appview/internal/auth/session_lifecycle.go:499-650 | over any run a bound intent gets stuck exactly when its owner was logged out everywhere, or that session revoked, while the session was still good |
| `DeletionExamples.LogoutStrandsTheIntent` | appview/internal/auth/session_lifecycle.go:499-650 | a run from the empty database in which the owner reauthenticates, logs out everywhere and stays pending over every continuation |
| `DeletionAuthority.DeletionCredentialsAreReferenced` | appview/internal/accountdeletion/store.go:221-239 | a deletion-only session always names a live operation of its owner that references it, and the owner has no other |
| `DeletionAuthority.DroppedCredentialIsRevoked` | appview/internal/accountdeletion/store.go:1279-1317 | whichever step makes an operation stop referencing a session queues that session for revocation in the same step |
| `DeletionFencing.StaleWorkersAreFenced` | appview/internal/accountdeletion/store.go:1042-1060 | after another claim, a refresh, a loss, a failure or a completion, every later call presenting the old lease is refused and changes nothing |
| `DeletionFencing.SuccessfulCallerIsLatestClaimant` | appview/internal/accountdeletion/store.go:1130-1161 | a call that succeeds was made by the last claimant, with nothing superseding the claim since |
| `DeletionLeases.LeaseIsKeptUntilItRunsOut` | appview/internal/accountdeletion/store.go:770-800 | over any run without a failure, refresh, loss, expiry or completion of the job, its lease is on the row until it runs out |
| `DeletionLeases.ClaimsDoNotOverlap` | appview/internal/accountdeletion/store.go:780-780 | of two claims of one job with nothing in between that ends a lease, the later comes no earlier than the earlier one's expiry |
| `DeletionFencing.SupersededCallsAreRefused` | appview/internal/accountdeletion/store.go:1181-1200 | a superseded lease records no failure, claims no key, completes nothing and reads no credential |
| `DeletionFencing.AttemptCountIsFailures` | appview/internal/accountdeletion/worker.go:120-126 | between refreshes the attempt count rises by exactly the number of recorded failures |
| `DeletionSafety.CompletionIsSafe` | appview/internal/accountdeletion/store.go:1201-1269 | at completion every still-uncertain write of the generation, in any of the six collections, has a settled tombstone for its key |
| `DeletionSafety.CompletionLeavesNoResidue` | appview/internal/accountdeletion/store.go:1255-1267 | completion leaves the owner departed, without row or tombstone, and every session of the owner revoked |
| `DeletionSafety.CompletionNeedsExternalSettlement` | appview/internal/accountdeletion/store.go:1008-1013 | an unsettled record tombstone blocks completion over every run that has no outside settlement of that very tombstone |
| `DeletionSafety.UncertainWriteAtAcceptanceBlocksCompletion` | appview/internal/accountdeletion/store.go:829-908 | a registered write uncertain at acceptance keeps the operation until its tombstone is settled from outside |
| `DeletionCompletion.CompletesAloneExactlyWhenNothingUncertain` | appview/internal/accountdeletion/store.go:1201-1233 | a run without outside settlement that completes the accepted job exists exactly when no registered write of the generation was uncertain at acceptance |
| `DeletionExamples.UncertainPostBlocksForever` | appview/internal/accountdeletion/store.go:829-908 | a run from the empty database that accepts a deletion which no continuation without outside settlement completes |
| `DeletionSafety.AcceptanceRefusedExactlyWhenBlocked` | appview/internal/accountdeletion/store.go:889-906 | an otherwise valid acceptance fails exactly when an uncertain write is malformed, foreign or refused by the tombstone table |
| `DeletionSafety.BusinessWritesBlock` | appview/migrations/000041_account_deletion_safety_tombstones.up.sql:66-80 | of an owner's own keys, exactly those in the two business collections block: the registry has them and the table's key check does not |
| `DeletionExamples.UncertainEventRefusesAcceptance` | appview/migrations/000041_account_deletion_safety_tombstones.up.sql:66-80 | a run from the empty database after which no confirmation of the reauthenticated owner is accepted |
| `DeletionSafety.FinalCheckHoldsExactlyWhenNoKeyRepeats` | appview/internal/accountdeletion/store.go:1215-1233 | right after acceptance the journal part of the final check holds exactly when every admitted uncertain write is, under its source, the first of some key |
| `DeletionCompletion.SecondWriteOfAKeyIsNeverTracked` | appview/internal/accountdeletion/store.go:1215-1233 | an uncertain write that is not the first of its key at acceptance keeps the final check failing and the job in place over every run, settlements included, unless that very write's outcome is learned or an object is inventoried under its source |
| `DeletionCompletion.CompletesOnceSettledExactlyWhenNoKeyRepeats` | appview/internal/accountdeletion/store.go:1201-1233 | a run that settles tombstones but learns no write's outcome completes the job for some order of steps exactly when every adoptable uncertain write is the first of its key |
| `DeletionExamples.SecondUncertainWriteBlocksForever` | appview/internal/accountdeletion/store.go:1215-1233 | a run from the empty database with two uncertain writes of one post, after which the job stays over every continuation that learns nothing about the second |
| `SafetyTombstones.AdoptionRefusedExactlyWhenBlocked` | appview/internal/accountdeletion/store.go:915-921 | adoption fails exactly when some selected row blocks it |
| `SafetyTombstones.AdoptionOnlyAdds` | appview/internal/accountdeletion/store.go:897-906 | adoption leaves every existing tombstone as it was and adds only adoptable rows, pending now |
| `SafetyTombstones.AdoptableRowsAreInventoried` | appview/internal/accountdeletion/store.go:897-906 | every adoptable row ends up under its exact key, whatever conflicts were skipped |
| `SafetyTombstones.AdoptionKeepsKeysUnique` | appview/migrations/000041_account_deletion_safety_tombstones.up.sql:55-58 | at most one tombstone per operation and key, before and after |
| `DeletionKeys.KeysNeverChange` | appview/migrations/000041_account_deletion_safety_tombstones.up.sql:1-80 | over any run a tombstone that is still there names the key it always named, and its id is given to no other |
| `SafetySchedule.EveryKeyOncePerRound` | appview/internal/accountdeletion/store.go:949-976 | with n keys waiting and an advancing clock, n consecutive successful attempts claim each key exactly once, in whatever order they were waiting |
| `SafetyRounds.NoKeyStarves` | appview/internal/accountdeletion/store.go:949-976 | over any run, adoption, settlement and expired leases included, each claim of a round takes one key out of those that waited before it, so after as many claims none of them is left waiting |
| `SafetyRounds.NoKeyTwiceInARound` | appview/internal/accountdeletion/store.go:949-976 | over any such run no key is claimed a second time while another one still waits |
| `SafetySchedule.FirstDueIsUnique` | appview/internal/accountdeletion/store.go:965-966 | the claim order has one first row |
| `DeletionService.AppService.CancelIntent` | appview/internal/accountdeletion/app_service.go:230-261 | the two-try loop commits one cancellation, for the membership that holds at that instant, or leaves only what others did; whatever it answers, the intent is gone then, or stuck, or both races were lost |
| `DeletionService.AppService.CreateIntent` | appview/internal/accountdeletion/app_service.go:90-165 | started means the intent was inserted for an active owner; not started means the owner was not active, or the transaction, asked for at a generation at which the owner was read active, could not commit; a failed OAuth start is taken back, or what is left is said |
| `DeletionService.AppService.Accept` | appview/internal/accountdeletion/app_service.go:167-213 | accepts exactly when the request holds in the rows its transaction finds, or, if it comes to none, in those it ends on: what it read before serves the transaction whatever others did; refused means only others acted |
| `DeletionReadings.ReadingsServeTheTransaction` | appview/internal/accountdeletion/app_service.go:167-213 | whatever happens after the binding and the generation are read, they are the ones that are checked if the request holds then |
| `DeletionService.AppService.CompleteAttempt` | appview/internal/accountdeletion/app_service.go:296-328 | binds, with credential generation 1, exactly when the callback can be bound in the rows its transaction finds, or those it ends on; otherwise only others acted |
| `DeletionService.CredentialGenerationIsAlwaysOne` | appview/internal/accountdeletion/store.go:371-387 | in every reachable state the next credential generation is one: the counter never goes on |
| `DeletionService.AppService.CompleteAccepted` | appview/internal/accountdeletion/app_service.go:330-347 | completes exactly when the claim can be completed in the rows its transaction finds, or those it ends on; otherwise only others acted |
| `DeletionReadings.GenerationServesTheCompletion` | appview/internal/accountdeletion/app_service.go:330-347 | whatever happens after the generation is read for a claim, it is the one that is checked if the claim can be completed then |
| `IntentExpiry.IntentExpiryProcessor.ListExpiredIntents` | appview/internal/accountdeletion/store.go:270-297 | the listing is the soonest-expired intents, in order, up to the limit, and all of them if fewer |
| `IntentExpiry.ExpiredServesNobody` | appview/internal/accountdeletion/store.go:270-297 | an intent is swept exactly from the instant at which nobody can bind or confirm it any more |
| `IntentExpiry.IntentExpiryProcessor.RunOnce` | appview/internal/accountdeletion/intent_expiry.go:52-77 | the batch is the expired intents of one moment; each committed cancellation removes one of them, still expired; an intent counts as processed when it was gone at some later moment or the race for it was lost; the sweep ends early only at a stuck intent, and never passes one that was stuck before while its owner's membership is steady |
| `DeletionWorker.LifecycleProcessor.Process` | appview/internal/accountdeletion/lifecycle.go:52-107 | one attempt's transactions and remote calls in their order; no remote call without the credential read under the live lease after the inventory. A key is released only after the first remote call deleted exactly the key that the tombstone held and was answered without an error, and a claimed key is released before convergence. Every result has its reason: refused inventory, failed cleanup, unreadable or unloadable credential, a call gone wrong, a lost key, something unsettled, or the credential given up |
| `DeletionWorker.LifecycleProcessor.Prepare` | appview/internal/accountdeletion/lifecycle.go:53-75 | the part before the client: inventory, cleanup and the credential read, in that order, and exactly what each failure reports |
| `DeletionWorker.Worker.Work` | appview/internal/accountdeletion/worker.go:111-148 | a lost credential is awaited, a failed attempt recorded under the claim, and after convergence the job is completed whenever it can be; only unsettled safety is retried then |
| `DeletionWorker.Worker.ProcessOne` | appview/internal/accountdeletion/worker.go:97-154 | idle exactly if no unlocked job waits; else the first to claim is worked on: its attempt is accounted for, completed means it had a usable credential when claimed and its completion stands as the last step, retried means exactly one attempt more, at the policy's time for a clock reading made under the claim |
| `RetryPolicy.JitterIsBounded` | appview/internal/accountdeletion/retry.go:57-64 | 64-bit wrapping cancels: for every maximum the jitter is hash mod (2*max+1) minus max, within plus or minus max |
| `RetryPolicy.EveryJitterIsDrawn` | appview/internal/accountdeletion/retry.go:57-64 | every jitter of the range is the one of some 64-bit hash |
| `RetryPolicy.DelayStaysInWindowExactly` | appview/internal/accountdeletion/retry.go:39-55 | a policy's retry stays within MaxJitter of the clamped delay for all hashes exactly when the window fits 64 bits |
| `RetryPolicy.DefaultWindowsIncrease` | appview/internal/accountdeletion/retry.go:23-35 | under the default policy the windows of attempts 1 to 5 are disjoint and increasing |
| `RetryPolicy.DefaultDelayWindow` | appview/internal/accountdeletion/retry.go:39-55 | every default retry after a failure is at least 30 seconds away |
| `RetryPolicy.LeastWaitClosedForm` | appview/internal/accountdeletion/retry.go:23-35 | from the fourth attempt on the least total wait is 81 min + (n-4)*6 h - n*30 s |
| `DeletionRetry.RetriesWait` | appview/internal/accountdeletion/worker.go:120-122 | over any run in which failures follow the policy, n failures put the next attempt at least that total after the moment of acceptance or of any refresh |
| `DeletionRetry.ClaimsComeAfterTheWait` | appview/internal/accountdeletion/store.go:770-800 | no claim is granted before that wait is over |
| `DeletionRetry.ClaimsAreKept` | appview/internal/accountdeletion/store.go:770-800 | a lease once handed out is never handed out again or altered |
| `DeletionRetry.FailureIsFollowedByAWait` | appview/internal/accountdeletion/worker.go:120-126 | unless a refresh intervenes, the claim after a failure comes at least 30 seconds after the worker's clock reading |
| `PdsDeleter.Deleter.DeleteAll` | appview/internal/accountdeletion/pds_deleter.go:73-109 | any server: deletes name the owner's records listed earlier in a registered collection, Listed equals DeleteCalls equals the deletes made, no error means the last six calls were empty first pages in registry order, and an error that a call failed, listed something foreign, or that no call was left. Quiet server, which may skip records and send empty pages before the last: with calls to spare it ends without error, all six collections empty, every other untouched, the counters equal to the records there were, and no record deleted before its collection's prerequisites were empty |
| `PdsDeleter.Deleter.RunStage` | appview/internal/accountdeletion/pds_deleter.go:91-100 | one stage of DeleteAll: soundness, order, counts and calls spent carry over to the next stage, or the calls have run out |
| `PdsDeleter.Deleter.ConvergeCollections` | appview/internal/accountdeletion/pds_deleter.go:111-126 | passes end with the stage's collections empty although pages may skip records while records go |
| `PdsDeleter.Deleter.DeletePass` | appview/internal/accountdeletion/pds_deleter.go:128-162 | a pass that lists nothing proves its collections empty; the calls it makes are bounded by what it deletes and the pages there are |
| `PdsDeleter.Deleter.DeletePage` | appview/internal/accountdeletion/pds_deleter.go:141-153 | each listed record is validated, counted and deleted; the page's deletes are counted one by one |
| `PdsDeleter.Deleter.ScanEmpty` | appview/internal/accountdeletion/pds_deleter.go:164-179 | true means the scan's own calls were first pages of every collection, all empty; it deletes nothing |
| `PdsDeleter.Deleter.DeleteExact` | appview/internal/accountdeletion/pds_deleter.go:44-64 | one delete of exactly the key when it is in scope, else an error and no call; an absent record is a success, and the answer is in the log |
| `PdsDeleter.StageStaysInOrder` | appview/internal/accountdeletion/collections.go:5-12 | deletes of a stage are made only with the earlier stages' collections empty |
| `IdentityCache.AuthoritativeExactlyWhenConfirmed` | appview/internal/api/identity_cache_refresh.go:101-120 | a name is reported exactly when both lookups confirm it |
| `IdentityCache.DeniedOrUndecided` | appview/internal/api/identity_cache_refresh.go:101-120 | no name exactly when a lookup that answers denies it, undecided exactly when a needed one fails |
| `IdentityCache.WriteKeepsHandlesUnique` | appview/internal/api/identity_cache_store.go:114-173 | the authoritative write keeps valid handles unique |
| `IdentityFencing.CurrentExactlyWhenLatest` | appview/internal/api/identity_cache_store.go:380-434 | while one queue row lives, an attempt is current exactly when no claim or Tap event followed it |
| `IdentityFencing.OnlyTheLatestClaimCommits` | appview/internal/api/identity_cache_store.go:227-250 | when no version given was used before for its DID, only the latest overlapping claim can commit or defer; any other attempt leaves rows and queue as they are |
| `IdentityFencing.VersionsAreConsumedOnce` | appview/internal/api/identity_cache_store.go:380-434 | with such versions no two completions of a DID consume the same one |
| `IdentityFencing.VersionsAreConsumedInOrder` | appview/internal/api/identity_cache_store.go:380-434 | when inserted versions also lie above all earlier ones, the completions of a DID consume increasing versions |
| `IdentityFencing.VersionsNeverReturn` | appview/internal/api/identity_cache_store.go:227-250 | with such versions, meeting one again means the same row, with nothing claimed in between |
| `IdentityFencing.LeftoverAttemptIsCurrentExactly` | appview/migrations/000057_tap_identity_refresh_version.up.sql:1-3 | with the schema's default version 1, an attempt of an earlier row passes the fence exactly when the new row was bumped as often as its own had been |
| `IdentityRuns.DefaultVersionLetsAStaleAttemptCommit` | appview/migrations/000057_tap_identity_refresh_version.up.sql:1-3 | a run in which a stale attempt overwrites a newer confirmed handle because the version repeats |
| `IdentityRuns.SlowAttemptTakesAMovedHandleBack` | appview/internal/api/identity_cache_store.go:380-434 | a run in which the fence, being per DID, lets a slow attempt take a moved handle back |
| `IdentityRuns.MovedHandleIsTakenBackExactly` | appview/internal/api/identity_cache_store.go:380-434 | over any run, a handle confirmed for its new owner after an attempt for another DID was issued is taken back by that attempt exactly when nothing claimed, reported, completed or purged the attempt's own DID in between |
| `IdentityRuns.CurrentExactlyWhenUndisturbed` | appview/internal/api/identity_cache_store.go:361-378 | with versions never used before, an attempt of any age passes the fence exactly when its queue row was neither bumped nor removed since it was issued |
| `IdentityRuns.ReachableHandlesAreUnique` | appview/internal/api/identity_cache_store.go:114-173 | in every reachable state no two DIDs hold one valid handle |
| `IdentityRuns.FreshByHandleIsUnambiguous` | appview/internal/api/identity_cache_store.go:81-106 | a lookup by handle has at most one answer |
| `IdentityRuns.NamesWereConfirmedBothWays` | appview/internal/api/identity_cache_refresh.go:83-90 | every valid row was written by a commit whose own lookups confirmed it in both directions |
| `IdentityStore.IdentityCacheStore.WriteAuthoritative` | appview/internal/api/identity_cache_store.go:114-173 | the row-by-row release and upsert equal the specified write, and the commit lists old handle, new handle and exactly the displaced DIDs |
| `IdentityStore.IdentityCacheStore.CompleteRefreshTx` | appview/internal/api/identity_cache_store.go:380-434 | refused, superseded or committed exactly by terminal owner and queue version; a commit gives the DID the handle, takes it from whoever else had it, uses up the queue row and changes no other row |
| `IdentityStore.IdentityCacheStore.ClaimRefreshTx` | appview/internal/api/identity_cache_store.go:227-250 | a claim is refused exactly for a terminal owner; it renews the queue row with the next version, due now, or inserts one, hands out what the row says, and touches nothing else |
| `IdentityStore.InvalidateCommit` | appview/internal/api/identity_cache_refresh.go:122-130 | the calls cover every DID whose handle changed, with the handle it had and the one it has, and nobody else but the DID written |
| `IdentityRefresh.ResolveAuthoritative` | appview/internal/api/identity_cache_refresh.go:101-120 | the decision over the resolver's actual answers; a second lookup is made exactly when the first names a handle |
| `IdentityRefresh.RefreshCurrentHandle` | appview/internal/api/identity_cache_store.go:55-79 | refreshed means the row is the resolver's confirmed answer; every other result has its reason: a terminal owner, an unresolved answer or an overtaken claim; every commit so far has been invalidated |
| `IdentityRefresh.ResolveMention` | appview/internal/api/facet_store.go:202-258 | found means both directions confirmed the requested handle in this attempt and the row was committed, and it is found unless a lookup says otherwise or fails, the account is no visible member, the call is not authorized or its claim was overtaken |
| `IdentityRefresh.RefreshCandidates` | appview/internal/api/identity_cache_store.go:269-359 | a batch is the longest-waiting eligible DIDs, each once, each with its queue row's version; existing queue rows are untouched |
| `IdentityRefresh.RefreshProcessor.ProcessBatch` | appview/internal/api/identity_cache_refresh.go:55-99 | the batch is the longest-waiting eligible DIDs of one moment with their current versions; for each an answer of the resolver was acted on, put off to now plus the delay if it failed and committed as authoritative otherwise; it stops early only at an owner turned terminal, and all commits made so far have been invalidated |
| `IdentityRefresh.PutOffIsInNoBatch` | appview/internal/api/identity_cache_refresh.go:74-83 | a DID put off is in no batch before its time, over any run in which nobody claims or reports it, uses up or purges its row or gives it an earlier time |
| `IdentityRefresh.EligibleExactly` | appview/internal/api/identity_cache_store.go:269-359 | a member is refreshed exactly when it is not held back and was reported, is missing, or is no longer served as fresh |
| `IdentityRefresh.LongerWaitsGoFirst` | appview/internal/api/identity_cache_store.go:269-359 | DIDs without any row come first in a batch, the others by the time they wait for |
| `ConsoleRequests.DecodesExactlyDistinctObjects` | appview/internal/api/console_commands.go:275-308 | the decoder accepts exactly one object with distinct keys and nothing after it |
| `ConsoleRequests.DecodeObject` | appview/internal/api/console_commands.go:275-308 | the token loop computes that decoding |
| `ConsoleRequests.KeyOrderIsIgnored` | appview/internal/api/console_commands.go:48-49 | bodies that differ only in key order decode to the same fields, hence the same fingerprint |
| `ConsoleRequests.FingerprintInputIsInjective` | appview/internal/api/console_commands.go:49-49 | different method, path or canonical body means different hashed bytes, whatever the path contains |
| `ConsoleCommands.CommandServer.Serve` | appview/internal/api/console_commands.go:25-213 | a first command is answered exactly when it is well formed, finds its row as expected and the handler's success can be kept: the reply carries exactly the handler's fields and apart from them the row's revision after it, with status 200 for none and 204; effect, row and receipt are written together and no other row. A known key replays its receipt or conflicts; anything else leaves every table as it was, but for a commit of unknown outcome that applied |
| `ConsoleCommands.RefusalsTellWhy` | appview/internal/api/console_commands.go:25-171 | each refusal is given exactly for its reason: no operator, no usable key, no such row, a row that has moved on, or the handler's own status |
| `ConsoleRuns.EffectsCommitOncePerKey` | appview/internal/api/console_commands.go:79-112 | over any run at most one domain effect commits per actor and key, exactly one where there is a receipt |
| `ConsoleRuns.SuccessesForAKeyAgree` | appview/internal/api/console_commands.go:86-98 | after one success for a key, every later command for it replays the same status and body or conflicts, and changes nothing |
| `ConsoleRuns.RetrySettlesUnknownCommit` | appview/internal/api/console_commands.go:200-208 | after a commit of unknown outcome that applied, a retry at any later time gets the answer that was lost |
| `ConsoleRuns.SuccessMovesRevision` | appview/internal/api/console_commands.go:172-183 | a success found the expected revision and raises it exactly when the row is touched by trigger, insertion or the operation itself |
| `ConsoleRuns.SuccessesFormAChain` | appview/internal/api/console_commands.go:138-155 | any two successes on a resource, unless it was purged in between: the later expected at least what the earlier reported, which is above what that one expected exactly when it touched the row |
| `SemVerOrder.CompareVersions` | scripts/service_status.py:26-47 | an error exactly off the grammar, and on it the precedence of section 11 of Semantic Versioning 2.0.0 |
| `SemVerOrder.DecimalIsNumeric` | scripts/service_status.py:32-33 | length, then character order, is numeric order on numbers without leading zeros |
| `SemVerOrder.PrecedenceIsAntisymmetric` | scripts/service_status.py:26-47 | swapping the versions flips the sign; the result is -1, 0 or 1 |
| `SemVerOrder.PrecedenceIsTransitive` | scripts/service_status.py:26-47 | precedence is transitive, and equal ends mean equal steps |
| `SemVerOrder.EqualPrecedenceMeansSameButBuild` | scripts/service_status.py:17-17 | zero exactly when the texts differ in build metadata at most |
| `SemVerOrder.SectionElevenExample` | scripts/service_status.py:26-47 | the chain of versions that section 11 gives as its example is ascending |
| `SemVerGrammar.RenderedTextParses` | scripts/service_status.py:17-17 | every well-formed version's text parses back to it |
| `SemVerGrammar.ParsedTextIsRendered` | scripts/service_status.py:17-17 | every accepted text is the text of its parts |
| `KeysetPaging.PagesAreTheListing` | appview/internal/api/console_reads.go:152-184 | following the cursors over an unchanged store gives exactly the plain descending listing |
| `KeysetPaging.ReadingNeverRepeats` | appview/internal/api/console_reads.go:152-184 | whatever changes between pages, the keys read strictly descend: none is read twice |
| `KeysetPaging.LastingRowsAreListed` | appview/internal/api/console_reads.go:152-184 | a row that is there all along is read before the end is reached |
| `KeysetPaging.BuildPage` | appview/internal/api/console_reads.go:158-184 | the one row too many is cut off and only decides whether there is a next cursor |
| `KeysetPaging.SelectHighest` | appview/internal/api/console_reads.go:152-152 | ordering and limit of the query: the first rows of the descending listing below the cursor |
| `KeysetPaging.ListingIsUnique` | appview/internal/api/console_reads.go:152-152 | the descending order has one listing of a set of rows |
| `ConsoleReads.ConsoleList.List` | appview/internal/api/console_reads.go:65-190 | answers exactly for a limit from 1 to 100 or none, sensible filters and a cursor of the same read; the page is the newest rows that have every value asked for, after the cursor and no more than the limit, and has a next cursor exactly when one is left out |
| `ConsoleReads.ConsoleList.Query` | appview/internal/api/console_reads.go:152-152 | the highest matching rows below the cursor, in order |
| `ConsoleReads.PagesListMatchingRows` | appview/internal/api/console_reads.go:152-184 | the pages hold exactly the rows that pass the filters, each once |
| `ConsoleReads.ReadingStopsExactlyAtRefusedCursors` | appview/internal/api/console_reads.go:130-180 | a client that sends every next cursor back gets the whole listing, or is refused exactly when some full page ends on the zero time, the nil id or a key whose cursor text is too long |
| `ConsoleReads.LongDidEndsTheReading` | appview/internal/api/console_reads.go:48-62 | the account history of a DID of more than 620 characters: the first page is answered and its own next cursor refused |
| `ExtendedNetwork.CollapsePaths` | appview/internal/api/extended_network_store.go:106-118 | authors are exactly those some path reaches, each with the least connection that leads there |
| `ExtendedNetwork.PostStore.List` | appview/internal/api/extended_network_store.go:29-151 | the query over follows, blocks, mutes, membership, languages and posts, cut into a page of the shown posts, each item naming the least connection to its author, whom nothing keeps apart from the viewer |
| `ExtendedNetwork.ShownExactly` | appview/internal/api/extended_network_store.go:91-151 | a post is shown exactly when somebody two follows lead through is kept apart from neither the viewer nor the author by a block, mute, moderation or end of account, and the post is an original, native, visible one in a language of the viewer's |
| `ExtendedNetwork.PagesListShownPosts` | appview/internal/api/extended_network_store.go:106-151 | the pages hold each shown post once, latest activity first |
| `ExtendedNetwork.ExtraPathChangesNothing` | appview/internal/api/extended_network_store.go:106-118 | one more path to an author already reached leaves the feed as it was |
| `ConnectionLimit.SlotsAreBounded` | appview/cmd/appview/admission.go:113-126 | in every interleaving slots in use are accepts in flight plus unreturned connections, never above the capacity |
| `ConnectionLimit.ReleaseNeverBlocks` | appview/cmd/appview/admission.go:143-149 | a connection that gives its slot back finds a token to take |
| `ConnectionLimit.ClosesFreeOneSlot` | appview/cmd/appview/admission.go:143-149 | in any interleaving with other steps, all closes of one connection together give back one slot, or none exactly when the first underlying close panics |
| `ConnectionLimit.EachPanicLosesOneSlot` | appview/cmd/appview/admission.go:113-149 | over any run the slots lost for good are exactly the panics of accepts and of first closes, and stay taken |
| `ConnectionLimit.OnePanicLosesTheSlot` | appview/cmd/appview/admission.go:113-149 | a listener of capacity 1 whose accept or first close panicked once admits nobody over any continuation; both are reached |
| `ImageValidation.GeometryIsExact` | appview/internal/api/image_validator.go:309-321 | on valid limits the 64-bit test is the exact pixel and aspect bound: nothing wraps |
| `ImageValidation.AdmissionIsBounded` | appview/internal/api/image_validator.go:271-299 | in every interleaving of any number of validations each token belongs to one call, decodes and queued calls stay within the capacity, and when all are over both channels are empty |
| `ImageValidation.Validator.Acquire` | appview/internal/api/image_validator.go:271-295 | ends holding one permit or nothing, and never a queue place, with any steps of other validations in between: a free permit is taken at once, a full queue turns away, and else the wait decides |
| `ImageValidation.Validator.Validate` | appview/internal/api/image_validator.go:158-184 | every exit returns what was taken; a validation that is admitted succeeds exactly when both decodes agree within the exact bounds, and any other is told why it was not |
| `ImageValidation.Validator.ValidateWithDecoder` | appview/internal/api/image_validator.go:235-269 | success exactly when both decodes agree on an admitted format and size; a panic of either is a plain rejection |

## Left out

- The older direct store methods for creating, cancelling, reauthenticating and accepting (appview/internal/accountdeletion/store.go:531-768): the service does not use them.
- SlotsAreBounded: the listener is a value stepped by its channel operations, because the interleaving is the point; its fields are not updated in place.
- Private-data cleanup, evidence, billing, scheduled work, logging and metrics: a cleanup is one flag that says whether it succeeded.
- The purge of a terminal owner's deletion rows, and a profile departure reconciled inside an OAuth callback: the lifecycle model has the terminal state but no step into it.
- OAuth authorization requests, handoff exchanges and child sessions: an OAuth session is its lifecycle state, binding, generation and epoch, without expiry; logging out everywhere never finds a live child under the session it spares.
- SQL text, isolation and locks: each transaction is one atomic step; a locked row appears as a row that a claim may skip.
- RunOnce: database calls of the deletion protocol do not fail, so a sweep stopped by such a failure is not in the model.
- Hashes are injective, generated ids are fresh, the clock does not run backwards, and remote servers and resolvers are arbitrary functions.
- Ordinary writes are dispatched only in the owner's active generation, as the effect ledger enforces; the ledger itself is not modelled, and the order of the journal stands for the order of its query.
- Record keys are parsed URIs or malformed text; the difference between a URI parser and splitting at slashes is not modelled.
- The inventory and the release of a key present no operation lease in the code, and none in the model: fencing is stated for the calls that present one.
- EveryKeyOncePerRound: speaks of attempts whose claim and release both commit, one after the other, with every key waiting; NoKeyStarves speaks of any run.
- NoKeyStarves: asks that no key claimed in the round is still leased when its lease runs out, because such a key is ordered before all others.
- LoadsCredential: without the absolute expiry of a session, which is a step of its own. The model loads the credential before the first call of each series; the client's deadline stands for the call at which a later load is refused, and RefusedLoadStaysRefused shows that a refusal is final.
- DeleteAll: on a quiet server success is promised when the deadline leaves more calls than an explicit bound, because the loops have no limit of their own and end only with the context otherwise.
- RetriesWait: measures from the clock reading the worker made while holding the claim, because the worker reads the clock before the failure is written.
- Handles are in normal form; upper and lower case are not modelled. The order of DIDs that wait equally long is not modelled.
- A registry of fewer than three collections, and nil dependencies: the registry is the constant one.
- Domain handlers behind operator commands: an outcome, a number of row updates and a response; the advisory locks make one command one step.
- SuccessesFormAChain: says nothing of the order across a purge, because a purge starts the eligibility row's revision over.
- Wire encoding of cursors and times: a cursor is its fields and the length of its text. An activity time that changes between two pages gives a post a new key, under which it may be read again.
- Moderation's visibility predicates in the extended-network feed: one flag per post and per profile.
- The status document's schema checks, its publication and the rest of the script.
- Timers, contexts and the observer of image validation: a wait ends with a permit, the end of its context or a timeout, whichever the caller is told.
- HTTP handlers that only parse and forward, process wiring, command-line tools, and all client applications.
