// The same for the workers' transactions and for what becomes of a job's
// credential: when each commits, which rows it changes, and what stays.
module DeletionWorkEffects {
  import opened Wrappers
  import opened CraftskyCollections
  import opened DeletionTables
  import opened SafetyTombstones
  import opened SafetySchedule
  import opened DeletionTransactions
  import opened DeletionInvariant
  import opened DeletionEffects

  // --- Claiming a job ------------------------------------------------------

  // Accepted, due, and in nobody's hands: without a lease or with one that has run out.
  predicate Waits(op: Operation, now: Time) {
    && (op.status.StatusActive? || op.status.StatusRetrying?)
    && (match op.nextAttemptAt case Some(at) => at <= now case None => false)
    && (match op.lease case Some(lease) => lease.expiresAt <= now case None => true)
  }

  // A waiting job that no other worker has locked.
  predicate Claims(db: Db, locked: set<Uuid>, job: Uuid) {
    job in db.operations && job !in locked && Waits(db.operations[job], db.now)
  }

  // None of them has waited longer.
  ghost predicate FirstToClaim(db: Db, locked: set<Uuid>, job: Uuid) {
    && Claims(db, locked, job)
    && forall other :: Claims(db, locked, other) ==>
         || db.operations[job].nextAttemptAt.value < db.operations[other].nextAttemptAt.value
         || (db.operations[job].nextAttemptAt == db.operations[other].nextAttemptAt && job <= other)
  }

  // The new lease is all that changes in the row; it is noted under its token.
  ghost predicate Leased(before: Db, after: Db, job: Uuid, token: Uuid, duration: int) {
    && job in before.operations && job in after.operations && OnlyRow(before.operations, after.operations, job)
    && after.operations[job] == before.operations[job].(lease := Some(Lease(token, before.now + duration)))
    && token in after.claims && OnlyRow(before.claims, after.claims, token)
    && after.claims[token]
         == ClaimedOperation(job, before.operations[job].owner, before.operations[job].ownerGeneration,
                             before.operations[job].attemptCount, token, before.now + duration)
    && after.used == before.used + {token}
    && after.lifecycles == before.lifecycles && after.sessions == before.sessions
    && after.tombstones == before.tombstones && SameSurroundings(before, after)
  }

  lemma ClaimEffect(db: Db, job: Uuid, token: Uuid, duration: int)
    ensures var (after, outcome) := ClaimDue(db, job, token, duration);
      && (outcome == Done <==>
            duration > 0 && token !in db.used && job in db.operations && Waits(db.operations[job], db.now))
      && if outcome == Done then Leased(db, after, job, token, duration) else after == db
  {
  }

  lemma ClaimableWaits(db: Db, locked: set<Uuid>)
    ensures forall job :: Claims(db, locked, job)
              <==> job in db.operations && job !in locked && Claimable(db, db.operations[job])
  {
  }

  // --- The lease in a worker's hand ----------------------------------------

  // The job's row is the claim's owner's and carries the claim's own token.
  predicate Holds(db: Db, claim: ClaimedOperation) {
    && claim.jobId in db.operations && db.operations[claim.jobId].owner == claim.owner
    && match db.operations[claim.jobId].lease
       case Some(lease) => lease.token == claim.leaseToken
       case None => false
  }

  ghost predicate OnlyJob(before: Db, after: Db, job: Uuid) {
    && job in before.operations && job in after.operations && OnlyRow(before.operations, after.operations, job)
    && after.lifecycles == before.lifecycles && after.claims == before.claims && SameSurroundings(before, after)
  }

  // What BoundDeletionCredential asks: a live lease of a running, accepted job that
  // has its credential.
  predicate CredentialReadable(db: Db, claim: ClaimedOperation) {
    && Holds(db, claim) && db.now < db.operations[claim.jobId].lease.value.expiresAt
    && db.operations[claim.jobId].ownerGeneration == claim.ownerGeneration
    && db.operations[claim.jobId].status in {StatusActive, StatusRetrying}
    && db.operations[claim.jobId].acceptedAt.Some?
    && db.operations[claim.jobId].deletionSession.Some? && db.operations[claim.jobId].credentialGeneration.Some?
  }

  function BindingOf(db: Db, job: Uuid): CredentialBinding
    requires job in db.operations
    requires db.operations[job].deletionSession.Some? && db.operations[job].credentialGeneration.Some?
  {
    CredentialBinding(job, db.operations[job].deletionSession.value, db.operations[job].credentialGeneration.value)
  }

  lemma ReadEffect(db: Db, claim: ClaimedOperation)
    ensures ReadCredential(db, claim)
         == if CredentialReadable(db, claim) then (Some(BindingOf(db, claim.jobId)), Done) else (None, NotFound)
  {
  }

  // --- A recorded failure --------------------------------------------------

  ghost predicate Rescheduled(before: Db, after: Db, job: Uuid, nextAt: Time, count: nat) {
    && OnlyJob(before, after, job)
    && after.sessions == before.sessions && after.tombstones == before.tombstones && after.used == before.used
    && var (op, op') := (before.operations[job], after.operations[job]);
    && op'.status.StatusRetrying? && op'.attemptCount == count && op'.nextAttemptAt == Some(nextAt)
    && op'.lease.None? && SameCredential(op, op')
  }

  predicate SameCredential(a: Operation, b: Operation) {
    && b.owner == a.owner && b.ownerGeneration == a.ownerGeneration && b.acceptedAt == a.acceptedAt
    && b.reauthSession == a.reauthSession && b.deletionSession == a.deletionSession
    && b.credentialGeneration == a.credentialGeneration && b.proofHash == a.proofHash && b.didHash == a.didHash
    && b.intentExpiresAt == a.intentExpiresAt
  }

  lemma FailureEffect(db: Db, claim: ClaimedOperation, nextAt: Time, nextAttempt: nat)
    requires nextAttempt == claim.attemptCount + 1
    ensures var (after, outcome) := RecordFailure(db, claim, nextAt, nextAttempt);
      && (outcome == Done <==> Holds(db, claim))
      && if outcome == Done then Rescheduled(db, after, claim.jobId, nextAt, nextAttempt) else after == db
  {
  }

  // --- Inventory -----------------------------------------------------------

  ghost predicate CanAdopt(db: Db, claim: ClaimedOperation, ids: seq<Uuid>) {
    && claim.jobId in db.operations && db.operations[claim.jobId].owner == claim.owner
    && db.operations[claim.jobId].ownerGeneration == claim.ownerGeneration
    && db.operations[claim.jobId].status in {StatusActive, StatusRetrying}
    && FreshIds(db.used, ids) && |ids| >= |db.journal|
    && CanInventory(db, claim.owner, claim.ownerGeneration)
  }

  ghost predicate InventoryTakenAlone(before: Db, after: Db, claim: ClaimedOperation, ids: seq<Uuid>) {
    && InventoryTaken(before, after.tombstones, claim.jobId, claim.owner, claim.ownerGeneration, ids)
    && after == before.(tombstones := after.tombstones, used := before.used + (set id <- ids))
  }

  lemma AdoptEffect(db: Db, claim: ClaimedOperation, ids: seq<Uuid>)
    requires db.tombstones.Keys <= db.used
    ensures var (after, outcome) := AdoptUncertain(db, claim, ids);
      && (outcome == Done <==> CanAdopt(db, claim, ids))
      && if outcome == Done then InventoryTakenAlone(db, after, claim, ids) else after == db
  {
    if FreshIds(db.used, ids) && |ids| >= |db.journal| {
      InventoryEffect(db, claim.jobId, claim.owner, claim.ownerGeneration, ids);
    }
  }

  // --- One exact key -------------------------------------------------------

  // A record of the claim's job that is due: pending since no later than now, or
  // left in the hands of a lease that has run out. A settled one never is.
  predicate KeyWaits(t: Tombstone, claim: ClaimedOperation, now: Time) {
    && t.operation == claim.jobId && t.owner == claim.owner && t.ownerGeneration == claim.ownerGeneration
    && t.key.PdsRecord?
    && match t.state
       case SafetyPending(at) => at <= now
       case Reconciling(lease) => lease.expiresAt <= now
       case Settled => false
  }

  ghost predicate CanClaimKey(db: Db, claim: ClaimedOperation) {
    && Holds(db, claim) && db.operations[claim.jobId].ownerGeneration == claim.ownerGeneration
    && db.operations[claim.jobId].lease == Some(Lease(claim.leaseToken, claim.leaseExpiresAt))
    && db.now < claim.leaseExpiresAt
    && exists id :: id in db.tombstones && KeyWaits(db.tombstones[id], claim, db.now)
  }

  // A waiting key, the abandoned ones first, then the longest waiting; it is in the
  // claim's hands until the claim's own lease ends.
  ghost predicate KeyTaken(before: Db, after: Db, claim: ClaimedOperation, id: Uuid) {
    && id in before.tombstones && KeyWaits(before.tombstones[id], claim, before.now)
    && (forall other :: other in before.tombstones && KeyWaits(before.tombstones[other], claim, before.now) ==>
          NoLonger(before.tombstones[id].state, before.tombstones[other].state))
    && id in after.tombstones && OnlyRow(before.tombstones, after.tombstones, id)
    && after.tombstones[id]
         == before.tombstones[id].(state := Reconciling(Lease(claim.leaseToken, claim.leaseExpiresAt)),
                                   attempts := before.tombstones[id].attempts + 1)
    && after == before.(tombstones := after.tombstones)
  }

  // b has waited no longer than a.
  predicate NoLonger(a: TombstoneState, b: TombstoneState) {
    a.SafetyPending? ==> b.SafetyPending? && a.nextAttemptAt <= b.nextAttemptAt
  }

  lemma ClaimKeyEffect(db: Db, claim: ClaimedOperation)
    ensures var (after, id, outcome) := ClaimSafety(db, claim);
      && (outcome == Done <==> CanClaimKey(db, claim)) && (id.Some? <==> outcome == Done)
      && if outcome == Done then KeyTaken(db, after, claim, id.value) else after == db
  {
    DueIsWaiting(db, claim);
    ClaimsKeyExactly(db, claim);
    if ClaimSafety(db, claim).2 == Done {
      var id := ClaimSafety(db, claim).1.value;
      assert FirstDue(db.tombstones, claim, db.now, id);
    }
  }

  lemma DueIsWaiting(db: Db, claim: ClaimedOperation)
    ensures forall id :: id in db.tombstones ==>
              (Due(db.tombstones[id], claim, db.now) <==> KeyWaits(db.tombstones[id], claim, db.now))
  {
  }

  lemma ClaimsKeyExactly(db: Db, claim: ClaimedOperation)
    requires forall id :: id in db.tombstones ==>
               (Due(db.tombstones[id], claim, db.now) <==> KeyWaits(db.tombstones[id], claim, db.now))
    ensures var (after, id, outcome) := ClaimSafety(db, claim);
      && (outcome == Done <==> CanClaimKey(db, claim)) && (id.Some? <==> outcome == Done)
      && (outcome != Done ==> after == db)
      && (outcome == Done ==> FirstDue(db.tombstones, claim, db.now, id.value))
  {
  }

  predicate InHand(db: Db, id: Uuid, token: Uuid) {
    && id in db.tombstones
    && match db.tombstones[id].state
       case Reconciling(lease) => lease.token == token
       case _ => false
  }

  function KeyReleased(db: Db, id: Uuid, nextAttemptAt: Time): Db
    requires id in db.tombstones
  {
    db.(tombstones := db.tombstones[id := db.tombstones[id].(state := SafetyPending(nextAttemptAt))])
  }

  lemma ReleaseKeyEffect(db: Db, id: Uuid, token: Uuid, nextAttemptAt: Time)
    ensures var (after, outcome) := ReleaseSafety(db, id, token, nextAttemptAt);
      && outcome == (if InHand(db, id, token) then Done else LeaseLost)
      && after == if outcome == Done then KeyReleased(db, id, nextAttemptAt) else db
  {
  }

  // --- Completion ----------------------------------------------------------

  ghost predicate EverySettled(db: Db, claim: ClaimedOperation) {
    forall id :: id in db.tombstones && db.tombstones[id].operation == claim.jobId
      && db.tombstones[id].owner == claim.owner && db.tombstones[id].ownerGeneration == claim.ownerGeneration
      ==> db.tombstones[id].state == Settled
  }

  // Every write that may have happened to a key the table takes has a tombstone of its own.
  ghost predicate EveryWriteNamed(db: Db, claim: ClaimedOperation) {
    forall row <- db.journal :: MayHaveHappened(row, claim.owner, claim.ownerGeneration)
      && OwnedKey(claim.owner, row.key) && SchemaAdmits(row.key.collection)
      ==> HasSource(db.tombstones, claim.jobId, row.source)
  }

  ghost predicate CanFinish(db: Db, claim: ClaimedOperation, expected: int) {
    && StandsAt(db, claim.owner, expected, {Deleting}) && Holds(db, claim)
    && db.operations[claim.jobId].ownerGeneration == claim.ownerGeneration
    && db.operations[claim.jobId].deletionSession.Some? && db.operations[claim.jobId].credentialGeneration.Some?
    && EverySettled(db, claim) && EveryWriteNamed(db, claim)
  }

  ghost predicate Finished(before: Db, after: Db, claim: ClaimedOperation) {
    && Moved(before, after, claim.owner, Departed, true)
    && RowGone(before, after, claim.jobId) && LoggedOut(before.sessions, after.sessions, claim.owner)
    && after.claims == before.claims && after.used == before.used && SameSurroundings(before, after)
  }

  lemma FinishEffect(db: Db, claim: ClaimedOperation, expected: int)
    ensures var (after, outcome) := Complete(db, claim, expected);
      && (outcome == Done <==> CanFinish(db, claim, expected))
      && if outcome == Done then Finished(db, after, claim) else after == db
  {
    SettlementMeans(db, claim);
    FinishesExactly(db, claim, expected);
    if Complete(db, claim, expected).1 == Done {
      FinishLeaves(db, claim, expected);
    }
  }

  lemma SettlementMeans(db: Db, claim: ClaimedOperation)
    ensures SafetyConverged(db, claim) <==> EverySettled(db, claim)
    ensures NoUntrackedWrite(db, claim) <==> EveryWriteNamed(db, claim)
  {
  }

  lemma FinishesExactly(db: Db, claim: ClaimedOperation, expected: int)
    requires SafetyConverged(db, claim) <==> EverySettled(db, claim)
    requires NoUntrackedWrite(db, claim) <==> EveryWriteNamed(db, claim)
    ensures var (after, outcome) := Complete(db, claim, expected);
      (outcome == Done <==> CanFinish(db, claim, expected)) && (outcome != Done ==> after == db)
  {
  }

  lemma FinishLeaves(db: Db, claim: ClaimedOperation, expected: int)
    requires Complete(db, claim, expected).1 == Done
    ensures Finished(db, Complete(db, claim, expected).0, claim)
  {
  }

  // --- The job's credential ------------------------------------------------

  // The job goes on with another session, due at once and in nobody's hands.
  ghost predicate Refreshed(before: Db, after: Db, job: Uuid, session: SessionId) {
    && OnlyJob(before, after, job) && before.operations[job].deletionSession.Some?
    && after.tombstones == before.tombstones && after.used == before.used
    && var (op, op') := (before.operations[job], after.operations[job]);
    && op'.status.StatusActive? && op'.deletionSession == Some(session) && op'.attemptCount == 0
    && op'.nextAttemptAt == Some(before.now) && op'.lease.None?
    && SameCredential(op, op'.(deletionSession := op.deletionSession))
    && OnlyRevoked(before.sessions, after.sessions,
                   if op.deletionSession == Some(session) then None else Some((op.owner, op.deletionSession.value)))
  }

  ghost predicate CanRefresh(db: Db, owner: Did, session: SessionId, job: Uuid) {
    && job in db.operations && db.operations[job].owner == owner
    && db.operations[job].status in {StatusActive, StatusRetrying}
    && db.operations[job].deletionSession.Some? && (owner, session) in db.sessions
  }

  lemma RefreshEffect(db: Db, owner: Did, session: SessionId)
    requires OneOperationPerOwner(db.operations)
    ensures var (after, outcome) := RefreshBoundOAuth(db, owner, session);
      && (outcome == Done <==> exists job :: CanRefresh(db, owner, session, job))
      && (outcome != Done ==> after == db)
      && forall job :: outcome == Done && CanRefresh(db, owner, session, job) ==> Refreshed(db, after, job, session)
  {
    var row := OperationOf(db.operations, owner);
    if row.Some? {
      assert CanRefresh(db, owner, session, row.value) <==> RefreshBoundOAuth(db, owner, session).1 == Done;
      assert forall job :: CanRefresh(db, owner, session, job) ==> job == row.value;
      if CanRefresh(db, owner, session, row.value) {
        RefreshLeaves(db, owner, session, row.value);
      }
    }
  }

  lemma RefreshLeaves(db: Db, owner: Did, session: SessionId, job: Uuid)
    requires CanRefresh(db, owner, session, job) && OperationOf(db.operations, owner) == Some(job)
    ensures Refreshed(db, RefreshBoundOAuth(db, owner, session).0, job, session)
  {
  }

  // The job waits for a reauthentication, without credential, due time or lease,
  // and its session for revocation.
  ghost predicate LeftStranded(before: Db, after: Db, job: Uuid) {
    && OnlyJob(before, after, job) && before.operations[job].deletionSession.Some?
    && after.tombstones == before.tombstones && after.used == before.used
    && var (op, op') := (before.operations[job], after.operations[job]);
    && op'.status.StatusReauthRequired? && op'.deletionSession.None? && op'.credentialGeneration.None?
    && op'.nextAttemptAt.None? && op'.lease.None? && op'.attemptCount == op.attemptCount
    && SameCredential(op, op'.(deletionSession := op.deletionSession, credentialGeneration := op.credentialGeneration))
    && OnlyRevoked(before.sessions, after.sessions, Some((op.owner, op.deletionSession.value)))
  }

  // A running job whose session is still deletion-only for it.
  predicate RunsOnCredential(db: Db, job: Uuid) {
    && job in db.operations && db.operations[job].status in {StatusActive, StatusRetrying}
    && match db.operations[job].deletionSession
       case None => false
       case Some(session) =>
         && (db.operations[job].owner, session) in db.sessions
         && db.sessions[(db.operations[job].owner, session)].state.DeletionOnly?
         && db.sessions[(db.operations[job].owner, session)].state.operation == job
  }

  lemma ExpiryEffect(db: Db, job: Uuid)
    ensures var (after, outcome) := ExpireCredential(db, job);
      && (outcome == Done <==> RunsOnCredential(db, job))
      && if outcome == Done then LeftStranded(db, after, job) else after == db
  {
  }

  predicate CanLose(db: Db, claim: ClaimedOperation) {
    && StandsAt(db, claim.owner, claim.ownerGeneration + 2, {Deleting}) && Holds(db, claim)
    && db.now < db.operations[claim.jobId].lease.value.expiresAt && RunsOnCredential(db, claim.jobId)
  }

  lemma LossEffect(db: Db, claim: ClaimedOperation)
    requires Inv(db)
    ensures var (after, outcome) := LoseCredential(db, claim);
      && (outcome == Done <==> CanLose(db, claim))
      && if outcome == Done then LeftStranded(db, after, claim.jobId) else after == db
  {
  }
}
