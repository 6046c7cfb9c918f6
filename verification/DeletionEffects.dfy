// What a transaction may rely on and what it leaves behind, row by row: when it
// commits, which rows it changes, and that every other row stays as it was.
module DeletionEffects {
  import opened Wrappers
  import opened CraftskyCollections
  import opened DeletionTables
  import opened SafetyTombstones
  import opened DeletionTransactions
  import opened DeletionInvariant

  type Sessions = map<(Did, SessionId), Session>

  // --- Rows that stay ------------------------------------------------------

  // The two tables differ in no other row.
  ghost predicate OnlyRow<K(!new), V>(before: map<K, V>, after: map<K, V>, changed: K) {
    forall k :: k != changed ==> (k in after <==> k in before) && (k in before ==> after[k] == before[k])
  }

  // Nobody's session but this one changed, and that one waits for revocation.
  ghost predicate OnlyRevoked(before: Sessions, after: Sessions, revoked: Option<(Did, SessionId)>) {
    && after.Keys == before.Keys
    && forall k :: k in before ==>
         if revoked == Some(k) then after[k] == before[k].(state := RevocationPending) else after[k] == before[k]
  }

  // The owner's sessions all wait for revocation; everybody else's are as before.
  ghost predicate LoggedOut(before: Sessions, after: Sessions, owner: Did) {
    && after.Keys == before.Keys
    && forall k :: k in before ==>
         if k.0 == owner then after[k] == before[k].(state := RevocationPending) else after[k] == before[k]
  }

  // As LoggedOut, but for one session that lives on in a new epoch.
  ghost predicate LoggedOutBut(before: Sessions, after: Sessions, owner: Did, kept: SessionId, epoch: int) {
    && after.Keys == before.Keys
    && forall k :: k in before ==>
         if k == (owner, kept) then after[k] == before[k].(authEpoch := epoch)
         else if k.0 == owner then after[k] == before[k].(state := RevocationPending)
         else after[k] == before[k]
  }

  // The row is gone, with its tombstones and no others.
  ghost predicate RowGone(before: Db, after: Db, job: Uuid) {
    && job !in after.operations && OnlyRow(before.operations, after.operations, job)
    && (forall id :: id in after.tombstones <==> id in before.tombstones && before.tombstones[id].operation != job)
    && (forall id :: id in after.tombstones ==> after.tombstones[id] == before.tombstones[id])
  }

  // --- Lifecycles ----------------------------------------------------------

  // The owner is there, in one of these states and at the generation presented.
  predicate StandsAt(db: Db, owner: Did, generation: int, states: set<LifecycleState>) {
    && generation > 0 && owner in db.lifecycles
    && db.lifecycles[owner].generation == generation && db.lifecycles[owner].state in states
  }

  // One generation on, in a new epoch if sessions are to end; nobody else moved.
  ghost predicate Moved(before: Db, after: Db, owner: Did, to: LifecycleState, newEpoch: bool) {
    && owner in before.lifecycles && owner in after.lifecycles
    && after.lifecycles[owner].state == to
    && after.lifecycles[owner].generation == before.lifecycles[owner].generation + 1
    && after.lifecycles[owner].authEpoch == before.lifecycles[owner].authEpoch + (if newEpoch then 1 else 0)
    && OnlyRow(before.lifecycles, after.lifecycles, owner)
  }

  predicate SameSurroundings(before: Db, after: Db) {
    after.now == before.now && after.profiles == before.profiles && after.journal == before.journal
  }

  // --- Begin ---------------------------------------------------------------

  ghost predicate CanBegin(db: Db, expected: int, intent: IntentRecord) {
    && StandsAt(db, intent.owner, expected, {Active})
    && intent.jobId !in db.used
    && forall job :: job in db.operations ==> db.operations[job].owner != intent.owner
  }

  predicate IsNewIntent(op: Operation, intent: IntentRecord, generation: int) {
    && op.owner == intent.owner && op.ownerGeneration == generation && op.status.StatusIntent?
    && op.didHash == Some(intent.didHash) && op.intentExpiresAt == Some(intent.expiresAt)
    && op.reauthSession.None? && op.deletionSession.None? && op.credentialGeneration.None? && op.proofHash.None?
    && op.acceptedAt.None? && op.nextAttemptAt.None? && op.lease.None? && op.attemptCount == 0
  }

  ghost predicate Begun(before: Db, after: Db, intent: IntentRecord) {
    && Moved(before, after, intent.owner, DeletionPending, false)
    && intent.jobId in after.operations && OnlyRow(before.operations, after.operations, intent.jobId)
    && IsNewIntent(after.operations[intent.jobId], intent, before.lifecycles[intent.owner].generation)
    && after.sessions == before.sessions && after.tombstones == before.tombstones && after.claims == before.claims
    && after.used == before.used + {intent.jobId} && SameSurroundings(before, after)
  }

  lemma BeginEffect(db: Db, expected: int, intent: IntentRecord)
    ensures var (after, outcome) := CreateIntent(db, expected, intent);
      && (outcome == Done <==> CanBegin(db, expected, intent))
      && if outcome == Done then Begun(db, after, intent) else after == db
  {
  }

  // --- Cancel and depart ---------------------------------------------------

  // No session is bound, or the bound one is deletion-only for this very job.
  predicate Unencumbered(db: Db, job: Uuid)
    requires job in db.operations
  {
    var op := db.operations[job];
    op.reauthSession.Some? ==>
      && (op.owner, op.reauthSession.value) in db.sessions
      && db.sessions[(op.owner, op.reauthSession.value)].state.DeletionOnly?
      && db.sessions[(op.owner, op.reauthSession.value)].state.operation == job
  }

  predicate CanCancel(db: Db, expected: int, to: LifecycleState, job: Uuid, owner: Did) {
    && StandsAt(db, owner, expected, {DeletionPending})
    && to == (if owner in db.profiles then Active else Departed)
    && job in db.operations && db.operations[job].owner == owner && db.operations[job].status.StatusIntent?
    && Unencumbered(db, job)
  }

  function BoundKey(db: Db, job: Uuid): Option<(Did, SessionId)>
    requires job in db.operations
  {
    match db.operations[job].reauthSession
    case None => None
    case Some(session) => Some((db.operations[job].owner, session))
  }

  // A member who cancels keeps every session but the bound one; an owner without a
  // profile departs, and is logged out.
  ghost predicate Canceled(before: Db, after: Db, to: LifecycleState, job: Uuid, owner: Did) {
    && Moved(before, after, owner, to, to.Departed?)
    && job in before.operations && RowGone(before, after, job)
    && (if to.Active? then OnlyRevoked(before.sessions, after.sessions, BoundKey(before, job))
        else LoggedOut(before.sessions, after.sessions, owner))
    && after.claims == before.claims && after.used == before.used && SameSurroundings(before, after)
  }

  lemma CancelEffect(db: Db, expected: int, to: LifecycleState, job: Uuid, owner: Did)
    ensures var (after, outcome) := CancelIntent(db, expected, to, job, owner);
      && (outcome == Done <==> CanCancel(db, expected, to, job, owner))
      && if outcome == Done then Canceled(db, after, to, job, owner) else after == db
  {
    CancelsExactly(db, expected, to, job, owner);
    if CancelIntent(db, expected, to, job, owner).1 == Done {
      CancelLeaves(db, expected, to, job, owner);
    }
  }

  lemma CancelsExactly(db: Db, expected: int, to: LifecycleState, job: Uuid, owner: Did)
    ensures var (after, outcome) := CancelIntent(db, expected, to, job, owner);
      (outcome == Done <==> CanCancel(db, expected, to, job, owner)) && (outcome != Done ==> after == db)
  {
  }

  // Dropping the row revokes its bound session and touches no other.
  lemma DroppingLeaves(db: Db, owner: Did, job: Uuid)
    requires job in db.operations && db.operations[job].owner == owner
    ensures var (after, outcome) := DropIntent(db, owner, job);
      && (outcome == Done <==> Unencumbered(db, job))
      && (outcome == Done ==>
            && RowGone(db, after, job) && OnlyRevoked(db.sessions, after.sessions, BoundKey(db, job))
            && after.lifecycles == db.lifecycles && after.claims == db.claims && after.used == db.used
            && SameSurroundings(db, after))
  {
  }

  lemma RevokingAllLeaves(before: Sessions, middle: Sessions, owner: Did, session: Option<SessionId>)
    requires OnlyRevoked(before, middle, match session case None => None case Some(id) => Some((owner, id)))
    ensures LoggedOut(before, RevokeAll(middle, owner), owner)
  {
  }

  lemma MovingLeaves(db: Db, owner: Did, to: LifecycleState)
    requires owner in db.lifecycles && db.lifecycles[owner].state in {Active, DeletionPending, Departed}
    requires to in {Active, Departed}
    ensures Moved(db, WithLifecycle(db, owner, to), owner, to, to.Departed?)
  {
  }

  lemma CancelLeaves(db: Db, expected: int, to: LifecycleState, job: Uuid, owner: Did)
    requires CanCancel(db, expected, to, job, owner)
    ensures Canceled(db, CancelIntent(db, expected, to, job, owner).0, to, job, owner)
  {
    var moved := WithLifecycle(db, owner, to);
    MovingLeaves(db, owner, to);
    DroppingLeaves(moved, owner, job);
    RevokingAllLeaves(db.sessions, DropIntent(moved, owner, job).0.sessions, owner, db.operations[job].reauthSession);
  }

  ghost predicate CanDepart(db: Db, owner: Did, expected: int) {
    && StandsAt(db, owner, expected, {Active, DeletionPending})
    && forall job :: job in db.operations && db.operations[job].owner == owner ==> Unencumbered(db, job)
  }

  ghost predicate Left(before: Db, after: Db, owner: Did) {
    && Moved(before, after, owner, Departed, true)
    && LoggedOut(before.sessions, after.sessions, owner)
    && (forall job :: job in after.operations <==> job in before.operations && before.operations[job].owner != owner)
    && (forall job :: job in after.operations ==> after.operations[job] == before.operations[job])
    && (forall id :: id in after.tombstones <==> id in before.tombstones && before.tombstones[id].owner != owner)
    && (forall id :: id in after.tombstones ==> after.tombstones[id] == before.tombstones[id])
    && after.claims == before.claims && after.used == before.used && SameSurroundings(before, after)
  }

  lemma DepartEffect(db: Db, owner: Did, expected: int)
    requires Inv(db)
    ensures var (after, outcome) := ProfileDeparture(db, owner, expected);
      && (outcome == Done <==> CanDepart(db, owner, expected))
      && if outcome == Done then Left(db, after, owner) else after == db
  {
    if owner in db.lifecycles {
      OwnedRow(db, owner);
      DepartsExactly(db, owner, expected);
      if ProfileDeparture(db, owner, expected).1 == Done {
        DepartureLeaves(db, owner, expected);
      }
    }
  }

  // An owner has a row exactly while in deletion, and OperationOf finds it.
  lemma OwnedRow(db: Db, owner: Did)
    requires Inv(db) && owner in db.lifecycles
    ensures var row := OperationOf(db.operations, owner);
      && (row.Some? <==> InDeletion(db.lifecycles[owner]))
      && (forall job :: job in db.operations && db.operations[job].owner == owner ==> row == Some(job))
      && (row.Some? ==> Staged(db.operations[row.value], db.lifecycles[owner]) && Shaped(db.operations[row.value]))
  {
    var row := OperationOf(db.operations, owner);
    if row.Some? {
      assert Staged(db.operations[row.value], db.lifecycles[owner]);
    }
  }

  lemma DepartsExactly(db: Db, owner: Did, expected: int)
    requires owner in db.lifecycles
    requires var row := OperationOf(db.operations, owner);
      && (row.Some? <==> InDeletion(db.lifecycles[owner]))
      && (forall job :: job in db.operations && db.operations[job].owner == owner ==> row == Some(job))
      && (row.Some? ==> Staged(db.operations[row.value], db.lifecycles[owner]))
    ensures var (after, outcome) := ProfileDeparture(db, owner, expected);
      (outcome == Done <==> CanDepart(db, owner, expected)) && (outcome != Done ==> after == db)
  {
  }

  lemma DepartureLeaves(db: Db, owner: Did, expected: int)
    requires Inv(db) && ProfileDeparture(db, owner, expected).1 == Done
    ensures Left(db, ProfileDeparture(db, owner, expected).0, owner)
  {
    OwnedRow(db, owner);
    TombstonesOfOwner(db, owner);
    MovingLeaves(db, owner, Departed);
    var row, moved := OperationOf(db.operations, owner), WithLifecycle(db, owner, Departed);
    if row.Some? {
      DroppingLeaves(moved, owner, row.value);
      RevokingAllLeaves(db.sessions, DropIntent(moved, owner, row.value).0.sessions, owner,
                        db.operations[row.value].reauthSession);
    }
  }

  lemma TombstonesOfOwner(db: Db, owner: Did)
    requires Inv(db) && owner in db.lifecycles
    ensures forall id :: id in db.tombstones ==>
              (db.tombstones[id].owner == owner
               <==> OperationOf(db.operations, owner) == Some(db.tombstones[id].operation))
  {
    OwnedRow(db, owner);
    forall id | id in db.tombstones
      ensures db.tombstones[id].owner == owner
              <==> OperationOf(db.operations, owner) == Some(db.tombstones[id].operation)
    {
      assert TombstoneOwned(db.tombstones[id], db.operations);
    }
  }

  // --- Reauthentication ----------------------------------------------------

  predicate CanBind(db: Db, attempt: CallbackAttempt, job: Uuid, credentialGeneration: int) {
    && attempt.owner in db.lifecycles && db.lifecycles[attempt.owner].state in {DeletionPending, Deleting}
    && db.lifecycles[attempt.owner].generation == attempt.ownerGeneration
    && db.lifecycles[attempt.owner].authEpoch == attempt.authEpoch
    && credentialGeneration > 0 && attempt.session != ""
    && job in db.operations && db.operations[job].owner == attempt.owner && db.operations[job].status.StatusIntent?
    && db.operations[job].intentExpiresAt.Some? && db.now < db.operations[job].intentExpiresAt.value
    && db.operations[job].reauthSession.None? && db.operations[job].credentialGeneration.None?
    && (attempt.owner, attempt.session) in db.sessions
    && db.sessions[(attempt.owner, attempt.session)]
         == Session(PendingHandoff, attempt.ownerGeneration, attempt.authEpoch)
  }

  ghost predicate Bound(before: Db, after: Db, attempt: CallbackAttempt, job: Uuid, credentialGeneration: int,
                        proofHash: Digest) {
    var k := (attempt.owner, attempt.session);
    && job in before.operations && job in after.operations && OnlyRow(before.operations, after.operations, job)
    && after.operations[job].reauthSession == Some(attempt.session)
    && after.operations[job].credentialGeneration == Some(credentialGeneration)
    && after.operations[job].proofHash == Some(proofHash)
    && SameIntent(before.operations[job], after.operations[job])
    && k in before.sessions && k in after.sessions && OnlyRow(before.sessions, after.sessions, k)
    && after.sessions[k] == before.sessions[k].(state := DeletionOnly(job, credentialGeneration))
    && after.lifecycles == before.lifecycles && after.tombstones == before.tombstones
    && after.claims == before.claims && after.used == before.used && SameSurroundings(before, after)
  }

  // All that a callback does not bind.
  predicate SameIntent(a: Operation, b: Operation) {
    && b.owner == a.owner && b.ownerGeneration == a.ownerGeneration && b.status == a.status
    && b.acceptedAt == a.acceptedAt && b.deletionSession == a.deletionSession && b.attemptCount == a.attemptCount
    && b.nextAttemptAt == a.nextAttemptAt && b.didHash == a.didHash && b.intentExpiresAt == a.intentExpiresAt
    && b.lease == a.lease
  }

  lemma BindEffect(db: Db, attempt: CallbackAttempt, job: Uuid, credentialGeneration: int, proofHash: Digest)
    ensures var (after, outcome) := BindReauthentication(db, attempt, job, credentialGeneration, proofHash);
      && (outcome == Done <==> CanBind(db, attempt, job, credentialGeneration))
      && if outcome == Done then Bound(db, after, attempt, job, credentialGeneration, proofHash) else after == db
  {
  }

  // --- Acceptance ----------------------------------------------------------

  // Dispatched by the owner in that generation, and nobody knows how it ended.
  predicate MayHaveHappened(row: Attempt, owner: Did, generation: int) {
    row.owner == owner && row.generation == generation && row.write && row.uncertain
  }

  // The request and the binding name the intent's own secrets, before it expires.
  predicate Confirms(db: Db, request: AcceptanceRequest, binding: CredentialBinding) {
    && request.jobId in db.operations && binding.operation == request.jobId
    && binding.session != "" && binding.credentialGeneration > 0
    && var op := db.operations[request.jobId];
    && op.owner == request.owner && op.status.StatusIntent?
    && op.intentExpiresAt.Some? && db.now < op.intentExpiresAt.value
    && op.reauthSession == Some(binding.session) && op.credentialGeneration == Some(binding.credentialGeneration)
    && op.proofHash == Some(Digest(request.reauthProof)) && op.didHash == Some(Digest(request.confirmation))
  }

  // The bound session can still be carried into the deletion.
  predicate CanBeKept(db: Db, owner: Did, binding: CredentialBinding) {
    && owner in db.lifecycles && (owner, binding.session) in db.sessions
    && db.sessions[(owner, binding.session)].state == DeletionOnly(binding.operation, binding.credentialGeneration)
    && db.sessions[(owner, binding.session)].authEpoch == db.lifecycles[owner].authEpoch
  }

  // Every write that may have happened can be inventoried.
  ghost predicate CanInventory(db: Db, owner: Did, generation: int) {
    forall row <- db.journal :: MayHaveHappened(row, owner, generation) ==>
      OwnedKey(owner, row.key) && (Registered(row.key.collection) ==> SchemaAdmits(row.key.collection))
  }

  ghost predicate CanConfirm(db: Db, expected: int, request: AcceptanceRequest, binding: CredentialBinding,
                             ids: seq<Uuid>) {
    && StandsAt(db, request.owner, expected, {DeletionPending})
    && Confirms(db, request, binding) && CanBeKept(db, request.owner, binding)
    && FreshIds(db.used, ids) && |ids| >= |db.journal|
    && CanInventory(db, request.owner, db.operations[request.jobId].ownerGeneration)
  }

  predicate RegisteredKey(key: RecordUri) {
    key.AtUri? && Registered(key.collection)
  }

  // What was inventoried stays; every registered write that may have happened is
  // under its key; whatever is new is such a write, due at once.
  ghost predicate InventoryTaken(before: Db, after: map<Uuid, Tombstone>, job: Uuid, owner: Did, generation: int,
                                 ids: seq<Uuid>) {
    && (forall id :: id in before.tombstones ==> id in after && after[id] == before.tombstones[id])
    && (forall row <- before.journal ::
          MayHaveHappened(row, owner, generation) && RegisteredKey(row.key) ==>
            Inventoried(after, job, row.key))
    && (forall id :: id in after && id !in before.tombstones ==>
          id in ids && exists row <- before.journal ::
            && MayHaveHappened(row, owner, generation) && RegisteredKey(row.key)
            && after[id] == Tombstone(job, owner, generation, PdsRecord(row.key), row.source,
                                      SafetyPending(before.now), 0))
  }

  ghost predicate Confirmed(before: Db, after: Db, request: AcceptanceRequest, binding: CredentialBinding,
                            ids: seq<Uuid>) {
    && Moved(before, after, request.owner, Deleting, true)
    && request.jobId in before.operations && request.jobId in after.operations
    && OnlyRow(before.operations, after.operations, request.jobId)
    && BecameJob(before.operations[request.jobId], after.operations[request.jobId], before.now)
    && LoggedOutBut(before.sessions, after.sessions, request.owner, binding.session,
                    before.lifecycles[request.owner].authEpoch + 1)
    && InventoryTaken(before, after.tombstones, request.jobId, request.owner,
                      before.operations[request.jobId].ownerGeneration, ids)
    && after.used == before.used + (set id <- ids)
    && after.claims == before.claims && SameSurroundings(before, after)
  }

  // The intent's credential is the job's; the secrets are gone; the job is due.
  predicate BecameJob(intent: Operation, job: Operation, now: Time) {
    && intent.status.StatusIntent? && job.status.StatusActive?
    && job.owner == intent.owner && job.ownerGeneration == intent.ownerGeneration
    && job.deletionSession == intent.reauthSession && job.credentialGeneration == intent.credentialGeneration
    && job.reauthSession.None? && job.proofHash.None? && job.didHash.None? && job.intentExpiresAt.None?
    && job.acceptedAt == Some(now) && job.nextAttemptAt == Some(now) && job.attemptCount == 0
    && job.lease == intent.lease
  }

  lemma InventoryEffect(db: Db, job: Uuid, owner: Did, generation: int, ids: seq<Uuid>)
    requires db.tombstones.Keys <= db.used && FreshIds(db.used, ids) && |ids| >= |db.journal|
    ensures var adopted := Adopted(db, job, owner, generation, ids);
      && (adopted.Some? <==> CanInventory(db, owner, generation))
      && (adopted.Some? ==> InventoryTaken(db, adopted.value, job, owner, generation, ids))
  {
    var rows := UncertainWrites(db.journal, owner, generation);
    AdoptionRefusedExactlyWhenBlocked(db.tombstones, job, owner, rows, ids, db.now);
    var adopted := Adopted(db, job, owner, generation, ids);
    if adopted.Some? {
      forall id | id in db.tombstones || id in adopted.value
        ensures id in db.tombstones ==> id in adopted.value && adopted.value[id] == db.tombstones[id]
        ensures id in adopted.value && id !in db.tombstones ==>
                  AddedFrom(id, adopted.value[id], job, owner, rows, ids, db.now)
      {
        AdoptionOnlyAdds(db.tombstones, job, owner, rows, ids, db.now, id);
      }
      forall row | row in db.journal && MayHaveHappened(row, owner, generation) && RegisteredKey(row.key)
        ensures Inventoried(adopted.value, job, row.key)
      {
        AdoptableRowsAreInventoried(db.tombstones, job, owner, rows, ids, db.now, row);
      }
      forall id | id in adopted.value && id !in db.tombstones
        ensures id in ids && exists row <- db.journal ::
          && MayHaveHappened(row, owner, generation) && RegisteredKey(row.key)
          && adopted.value[id] == Tombstone(job, owner, generation, PdsRecord(row.key), row.source,
                                            SafetyPending(db.now), 0)
      {
        var i :| 0 <= i < |rows| && id == ids[i] && Adoptable(rows[i], owner)
          && adopted.value[id] == NewTombstone(job, rows[i], db.now);
        assert rows[i] in rows;
      }
    }
  }

  lemma ConfirmEffect(db: Db, expected: int, request: AcceptanceRequest, binding: CredentialBinding, ids: seq<Uuid>)
    requires db.tombstones.Keys <= db.used
    ensures var (after, outcome) := Accept(db, expected, request, binding, ids);
      && (outcome == Done <==> CanConfirm(db, expected, request, binding, ids))
      && if outcome == Done then Confirmed(db, after, request, binding, ids) else after == db
  {
    ChecksMean(db, expected, request, binding);
    if request.jobId in db.operations && FreshIds(db.used, ids) && |ids| >= |db.journal| {
      InventoryEffect(db, request.jobId, request.owner, db.operations[request.jobId].ownerGeneration, ids);
    }
    AcceptsExactly(db, expected, request, binding, ids);
    if Accept(db, expected, request, binding, ids).1 == Done {
      AcceptanceLeaves(db, expected, request, binding, ids);
    }
  }

  lemma ChecksMean(db: Db, expected: int, request: AcceptanceRequest, binding: CredentialBinding)
    ensures TransitionCheck(db, request.owner, expected, Deleting) == Done
            <==> StandsAt(db, request.owner, expected, {DeletionPending})
    ensures AcceptCheck(db, request, binding) == Done <==> Confirms(db, request, binding)
    ensures request.owner in db.lifecycles ==>
              (PreservesCredential(db, request.owner, binding) <==> CanBeKept(db, request.owner, binding))
  {
  }

  lemma AcceptsExactly(db: Db, expected: int, request: AcceptanceRequest, binding: CredentialBinding, ids: seq<Uuid>)
    ensures var (after, outcome) := Accept(db, expected, request, binding, ids);
      && (outcome == Done <==>
            && TransitionCheck(db, request.owner, expected, Deleting) == Done
            && AcceptCheck(db, request, binding) == Done && PreservesCredential(db, request.owner, binding)
            && FreshIds(db.used, ids) && |ids| >= |db.journal|
            && Adopted(db, request.jobId, request.owner, db.operations[request.jobId].ownerGeneration, ids).Some?)
      && (outcome != Done ==> after == db)
      && (outcome == Done ==>
            Adopted(db, request.jobId, request.owner, db.operations[request.jobId].ownerGeneration, ids)
            == Some(after.tombstones))
  {
  }

  lemma AcceptanceLeaves(
    db: Db, expected: int, request: AcceptanceRequest, binding: CredentialBinding, ids: seq<Uuid>)
    requires Accept(db, expected, request, binding, ids).1 == Done && Confirms(db, request, binding)
    requires InventoryTaken(db, Accept(db, expected, request, binding, ids).0.tombstones, request.jobId, request.owner,
                            db.operations[request.jobId].ownerGeneration, ids)
    requires StandsAt(db, request.owner, expected, {DeletionPending})
    ensures Confirmed(db, Accept(db, expected, request, binding, ids).0, request, binding, ids)
  {
  }

  // --- Logging out everywhere ----------------------------------------------

  // The owner's accepted job runs on this session, which is deletion-only for it.
  predicate RunsOn(db: Db, owner: Did, session: SessionId, job: Uuid) {
    && owner in db.lifecycles && db.lifecycles[owner].state.Deleting?
    && job in db.operations && db.operations[job].owner == owner
    && db.operations[job].status in {StatusActive, StatusRetrying} && db.operations[job].acceptedAt.Some?
    && db.operations[job].deletionSession == Some(session)
    && (owner, session) in db.sessions && db.sessions[(owner, session)].state.DeletionOnly?
    && db.sessions[(owner, session)].state.operation == job
    && db.sessions[(owner, session)].authEpoch == db.lifecycles[owner].authEpoch
  }

  // A new epoch at the same generation, and no session survives into it but one that
  // an accepted job runs on.
  ghost predicate LoggedOutEverywhere(before: Db, after: Db, owner: Did) {
    && owner in before.lifecycles && owner in after.lifecycles
    && after.lifecycles[owner] == before.lifecycles[owner].(authEpoch := before.lifecycles[owner].authEpoch + 1)
    && OnlyRow(before.lifecycles, after.lifecycles, owner)
    && (LoggedOut(before.sessions, after.sessions, owner)
        || exists kept, job :: RunsOn(before, owner, kept, job)
             && LoggedOutBut(before.sessions, after.sessions, owner, kept, after.lifecycles[owner].authEpoch))
    && after.operations == before.operations && after.tombstones == before.tombstones
    && after.claims == before.claims && after.used == before.used && SameSurroundings(before, after)
  }

  lemma LogoutEffect(db: Db, owner: Did)
    ensures var (after, outcome) := LogoutEverywhere(db, owner);
      && (outcome == Done <==> owner in db.lifecycles && !db.lifecycles[owner].state.Terminal?)
      && if outcome == Done then LoggedOutEverywhere(db, after, owner) else after == db
  {
    var (after, outcome) := LogoutEverywhere(db, owner);
    if outcome == Done && ExemptSession(db, owner).Some? {
      var kept := ExemptSession(db, owner).value;
      assert RunsOn(db, owner, kept, OperationOf(db.operations, owner).value);
      assert LoggedOutBut(db.sessions, after.sessions, owner, kept, after.lifecycles[owner].authEpoch);
    }
  }
}
