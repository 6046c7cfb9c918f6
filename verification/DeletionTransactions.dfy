// What each transaction of the deletion protocol does, as one atomic step.
module DeletionTransactions {
  import opened Wrappers
  import opened CraftskyCollections
  import opened DeletionTables
  import opened SafetyTombstones
  import opened SafetySchedule

  // --- Owner lifecycle -----------------------------------------------------

  predicate ValidTransition(from: LifecycleState, to: LifecycleState) {
    match from
    case Active => to in {Departed, DeletionPending, Terminal}
    case Departed => to in {Active, Terminal}
    case DeletionPending => to in {Active, Departed, Deleting, Terminal}
    case Deleting => to in {Departed, Terminal}
    case Terminal => false
  }

  // The checks of TransitionWith, before any participant runs.
  function TransitionCheck(db: Db, owner: Did, expected: int, to: LifecycleState): Outcome {
    if expected <= 0 || to.Terminal? then InvalidTransition
    else if owner !in db.lifecycles then Failed
    else if db.lifecycles[owner].state.Terminal? then TerminalOwner
    else if db.lifecycles[owner].generation != expected then GenerationChanged
    else if !ValidTransition(db.lifecycles[owner].state, to) then InvalidTransition
    else Done
  }

  function Advanced(l: Lifecycle, to: LifecycleState): Lifecycle {
    var revokes := to.Departed? || to.Terminal? || (l.state.DeletionPending? && to.Deleting?);
    Lifecycle(to, l.generation + 1, if revokes then l.authEpoch + 1 else l.authEpoch)
  }

  function WithLifecycle(db: Db, owner: Did, to: LifecycleState): Db
    requires owner in db.lifecycles
  {
    db.(lifecycles := db.lifecycles[owner := Advanced(db.lifecycles[owner], to)])
  }

  // --- OAuth sessions ------------------------------------------------------

  function RevokeAll(sessions: map<(Did, SessionId), Session>, owner: Did): map<(Did, SessionId), Session> {
    map k | k in sessions :: if k.0 == owner then sessions[k].(state := RevocationPending) else sessions[k]
  }

  // OwnerTransitionParticipant: only the preserved session survives, moved to
  // the new authentication epoch.
  function RevokeAllBut(
    sessions: map<(Did, SessionId), Session>, owner: Did, kept: SessionId, epoch: int): map<(Did, SessionId), Session> {
    map k | k in sessions ::
      if k.0 != owner then sessions[k]
      else if k.1 == kept then sessions[k].(authEpoch := epoch)
      else sessions[k].(state := RevocationPending)
  }

  function Revoke(sessions: map<(Did, SessionId), Session>, owner: Did, id: SessionId): map<(Did, SessionId), Session> {
    if (owner, id) in sessions then sessions[(owner, id) := sessions[(owner, id)].(state := RevocationPending)]
      else sessions
  }

  predicate BoundTo(sessions: map<(Did, SessionId), Session>, owner: Did, id: SessionId, job: Uuid) {
    (owner, id) in sessions && sessions[(owner, id)].state.DeletionOnly? && sessions[(owner, id)].state.operation == job
  }

  // --- Deletion intent -----------------------------------------------------

  datatype IntentRecord = IntentRecord(jobId: Uuid, owner: Did, didHash: Digest, expiresAt: Time)

  function NewIntent(intent: IntentRecord, generation: int): Operation {
    Operation(intent.owner, generation, StatusIntent, None, None, None, None, 0, None, None,
              Some(intent.didHash), Some(intent.expiresAt), None)
  }

  function CreateIntent(db: Db, expected: int, intent: IntentRecord): (Db, Outcome) {
    var check := TransitionCheck(db, intent.owner, expected, DeletionPending);
    if check != Done then (db, check)
    else if intent.jobId in db.used then (db, Failed)
    else if HasOperation(db.operations, intent.owner) then (db, AlreadyPending)
    else
      var before := db.lifecycles[intent.owner];
      (WithLifecycle(db, intent.owner, DeletionPending)
       .(operations := db.operations[intent.jobId := NewIntent(intent, before.generation)],
         used := db.used + {intent.jobId}), Done)
  }

  // Removing an operation row removes its tombstones with it (ON DELETE CASCADE).
  function WithoutOperation(db: Db, job: Uuid): Db {
    db.(operations := db.operations - {job},
        tombstones := map id | id in db.tombstones && db.tombstones[id].operation != job :: db.tombstones[id])
  }

  // What cancel and profile departure do to the intent and its bound credential.
  function DropIntent(db: Db, owner: Did, job: Uuid): (Db, Outcome)
    requires job in db.operations
  {
    match db.operations[job].reauthSession
    case None => (WithoutOperation(db, job), Done)
    case Some(session) =>
      if !BoundTo(db.sessions, owner, session, job) then (db, ReauthenticationRequired)
      else (WithoutOperation(db.(sessions := Revoke(db.sessions, owner, session)), job), Done)
  }

  function CancelIntent(db: Db, expected: int, to: LifecycleState, job: Uuid, owner: Did): (Db, Outcome) {
    var check := TransitionCheck(db, owner, expected, to);
    if check != Done then (db, check)
    else if !db.lifecycles[owner].state.DeletionPending? || to !in {Active, Departed} then (db, NotFound)
    else if (owner in db.profiles) != to.Active? then (db, GenerationChanged)
    else if job !in db.operations || db.operations[job].owner != owner then (db, NotFound)
    else if db.operations[job].status != StatusIntent then (db, PointOfNoReturn)
    else
      var (dropped, outcome) := DropIntent(WithLifecycle(db, owner, to), owner, job);
      if outcome != Done then (db, outcome)
      else if to.Departed? then (dropped.(sessions := RevokeAll(dropped.sessions, owner)), Done)
      else (dropped, Done)
  }

  // A profile delete event. Only an active or pending owner departs by it.
  function ProfileDeparture(db: Db, owner: Did, expected: int): (Db, Outcome) {
    var check := TransitionCheck(db, owner, expected, Departed);
    if check != Done then (db, check)
    else if db.lifecycles[owner].state.Active? then
      (WithLifecycle(db, owner, Departed).(sessions := RevokeAll(db.sessions, owner)), Done)
    else if !db.lifecycles[owner].state.DeletionPending? then (db, InvalidTransition)
    else
      match OperationOf(db.operations, owner)
      case None => (db, NotFound)
      case Some(job) =>
        if db.operations[job].status != StatusIntent then (db, NotFound)
        else
          var (dropped, outcome) := DropIntent(WithLifecycle(db, owner, Departed), owner, job);
          if outcome != Done then (db, outcome)
          else (dropped.(sessions := RevokeAll(dropped.sessions, owner)), Done)
  }

  // --- Reauthentication ----------------------------------------------------

  datatype CallbackAttempt = CallbackAttempt(owner: Did, session: SessionId, ownerGeneration: int, authEpoch: int)

  predicate AcceptsReauthentication(db: Db, op: Operation) {
    && op.status.StatusIntent?
    && op.intentExpiresAt.Some? && db.now < op.intentExpiresAt.value
    && op.credentialGeneration.None? && op.reauthSession.None?
  }

  function BindReauthentication(
    db: Db, attempt: CallbackAttempt, job: Uuid, credentialGeneration: int, proofHash: Digest): (Db, Outcome)
  {
    var owner, session := attempt.owner, attempt.session;
    if owner !in db.lifecycles then (db, Failed)
    else
      var l := db.lifecycles[owner];
      if l.state !in {DeletionPending, Deleting} || l.generation != attempt.ownerGeneration
        || l.authEpoch != attempt.authEpoch
      then (db, Failed)
      else if credentialGeneration <= 0 || session == "" then (db, ReauthenticationRequired)
      else if job !in db.operations || db.operations[job].owner != owner then (db, Failed)
      else if !AcceptsReauthentication(db, db.operations[job]) then (db, ReauthenticationRequired)
      else if (owner, session) !in db.sessions then (db, Failed)
      else
        var row := db.sessions[(owner, session)];
        if !row.state.PendingHandoff? || row.ownerGeneration != l.generation || row.authEpoch != l.authEpoch
        then (db, Failed)
        else
          (db.(operations := db.operations[job := db.operations[job].(
                 reauthSession := Some(session), credentialGeneration := Some(credentialGeneration),
                 proofHash := Some(proofHash))],
               sessions := db.sessions[(owner, session) := row.(state := DeletionOnly(job, credentialGeneration))]),
                 Done)
  }

  // --- Acceptance ----------------------------------------------------------

  datatype AcceptanceRequest = AcceptanceRequest(jobId: Uuid, owner: Did, reauthProof: string, confirmation: Did)
  datatype CredentialBinding = CredentialBinding(operation: Uuid, session: SessionId, credentialGeneration: int)

  // AcceptanceBinding, read before the transition.
  function AcceptanceBinding(db: Db, request: AcceptanceRequest): (Option<CredentialBinding>, Outcome) {
    if request.jobId !in db.operations || db.operations[request.jobId].owner != request.owner then (None, NotFound)
    else
      var op := db.operations[request.jobId];
      if op.reauthSession.None? || op.credentialGeneration.None? then (None, Failed)
      else if !op.status.StatusIntent? || op.intentExpiresAt.None? || db.now >= op.intentExpiresAt.value
              || op.proofHash != Some(Digest(request.reauthProof)) then (None, ReauthenticationRequired)
      else if op.didHash != Some(Digest(request.confirmation)) then (None, ConfirmationMismatch)
      else (Some(CredentialBinding(request.jobId, op.reauthSession.value, op.credentialGeneration.value)), Done)
  }

  function Accepted(op: Operation, now: Time): Operation {
    op.(status := StatusActive, acceptedAt := Some(now),
        deletionSession := op.reauthSession, reauthSession := None, proofHash := None, didHash := None,
        intentExpiresAt := None, attemptCount := 0, nextAttemptAt := Some(now))
  }

  // The checks AcceptParticipant makes on the locked operation row.
  function AcceptCheck(db: Db, request: AcceptanceRequest, binding: CredentialBinding): Outcome {
    if binding.operation != request.jobId || binding.session == ""
      || binding.credentialGeneration <= 0 then ReauthenticationRequired
    else if request.jobId !in db.operations || db.operations[request.jobId].owner != request.owner then Failed
    else
      var op := db.operations[request.jobId];
      if op.reauthSession.None? || op.credentialGeneration.None? || op.intentExpiresAt.None? then Failed
      else if !op.status.StatusIntent? || op.reauthSession.value != binding.session
              || op.credentialGeneration.value != binding.credentialGeneration
              || db.now >= op.intentExpiresAt.value
              || op.proofHash != Some(Digest(request.reauthProof)) then ReauthenticationRequired
      else if op.didHash != Some(Digest(request.confirmation)) then ConfirmationMismatch
      else Done
  }

  predicate PreservesCredential(db: Db, owner: Did, binding: CredentialBinding)
    requires owner in db.lifecycles
  {
    && (owner, binding.session) in db.sessions
    && db.sessions[(owner, binding.session)].state == DeletionOnly(binding.operation, binding.credentialGeneration)
    && db.sessions[(owner, binding.session)].authEpoch == db.lifecycles[owner].authEpoch
  }

  function Accept(
    db: Db, expected: int, request: AcceptanceRequest, binding: CredentialBinding, ids: seq<Uuid>): (Db, Outcome)
  {
    var owner, job := request.owner, request.jobId;
    var check := TransitionCheck(db, owner, expected, Deleting);
    if check != Done then (db, check)
    else if AcceptCheck(db, request, binding) != Done then (db, AcceptCheck(db, request, binding))
    else if !FreshIds(db.used, ids) || |ids| < |db.journal| then (db, Failed)
    else
      var op := db.operations[job];
      match Adopted(db, job, owner, op.ownerGeneration, ids)
      case None => (db, Failed)
      case Some(tombstones) =>
        if !PreservesCredential(db, owner, binding) then (db, Failed)
        else
          var epoch := Advanced(db.lifecycles[owner], Deleting).authEpoch;
          (WithLifecycle(db, owner, Deleting).(
             operations := db.operations[job := Accepted(op, db.now)],
             tombstones := tombstones,
             sessions := RevokeAllBut(db.sessions, owner, binding.session, epoch),
             used := db.used + (set id <- ids)), Done)
  }

  // adoptUncertainPDSAttemptsTx over the journal as it stands.
  function Adopted(db: Db, job: Uuid, owner: Did, generation: int, ids: seq<Uuid>): Option<map<Uuid, Tombstone>>
    requires |ids| >= |db.journal|
  {
    AdoptRows(db.tombstones, job, owner, UncertainWrites(db.journal, owner, generation), ids, db.now)
  }

  // --- The worker ----------------------------------------------------------

  predicate Claimable(db: Db, op: Operation) {
    && op.Runnable()
    && op.nextAttemptAt.Some? && op.nextAttemptAt.value <= db.now
    && (op.lease.None? || op.lease.value.expiresAt <= db.now)
  }

  function ClaimOf(op: Operation, job: Uuid, lease: Lease): ClaimedOperation {
    ClaimedOperation(job, op.owner, op.ownerGeneration, op.attemptCount, lease.token, lease.expiresAt)
  }

  // Rows locked by another claim are skipped, so any due row may be the one claimed.
  function ClaimDue(db: Db, job: Uuid, token: Uuid, duration: int): (Db, Outcome) {
    if duration <= 0 || token in db.used then (db, Failed)
    else if job !in db.operations || !Claimable(db, db.operations[job]) then (db, NotFound)
    else
      var lease := Lease(token, db.now + duration);
      (db.(operations := db.operations[job := db.operations[job].(lease := Some(lease))],
           claims := db.claims[token := ClaimOf(db.operations[job], job, lease)],
           used := db.used + {token}), Done)
  }

  predicate HoldsLease(db: Db, claim: ClaimedOperation) {
    && claim.jobId in db.operations
    && db.operations[claim.jobId].owner == claim.owner
    && db.operations[claim.jobId].lease.Some?
    && db.operations[claim.jobId].lease.value.token == claim.leaseToken
  }

  function RecordFailure(db: Db, claim: ClaimedOperation, nextAt: Time, nextAttempt: nat): (Db, Outcome) {
    if nextAttempt <= claim.attemptCount then (db, Failed)
    else if !HoldsLease(db, claim) then (db, NotFound)
    else
      (db.(operations := db.operations[claim.jobId := db.operations[claim.jobId].(
             status := StatusRetrying, attemptCount := nextAttempt, nextAttemptAt := Some(nextAt), lease := None)]),
               Done)
  }

  function AdoptUncertain(db: Db, claim: ClaimedOperation, ids: seq<Uuid>): (Db, Outcome) {
    if claim.jobId !in db.operations then (db, NotFound)
    else
      var op := db.operations[claim.jobId];
      if op.owner != claim.owner || op.ownerGeneration != claim.ownerGeneration || !op.Runnable() then (db, NotFound)
      else if !FreshIds(db.used, ids) || |ids| < |db.journal| then (db, Failed)
      else
        match Adopted(db, claim.jobId, claim.owner, claim.ownerGeneration, ids)
        case None => (db, Failed)
        case Some(tombstones) => (db.(tombstones := tombstones, used := db.used + (set id <- ids)), Done)
  }

  function ReadCredential(db: Db, claim: ClaimedOperation): (Option<CredentialBinding>, Outcome) {
    if HoldsLease(db, claim) && db.operations[claim.jobId].ownerGeneration == claim.ownerGeneration
       && db.operations[claim.jobId].Runnable() && db.operations[claim.jobId].acceptedAt.Some?
       && db.operations[claim.jobId].deletionSession.Some? && db.operations[claim.jobId].credentialGeneration.Some?
       && db.operations[claim.jobId].lease.value.expiresAt > db.now
    then
      var op := db.operations[claim.jobId];
      (Some(CredentialBinding(claim.jobId, op.deletionSession.value, op.credentialGeneration.value)), Done)
    else (None, NotFound)
  }

  // What the session coordinator requires before every call to the owner's server:
  // the live lease, the binding as it was read, and a session that is still
  // deletion-only for this job, in the owner's present generation and epoch.
  predicate LoadsCredential(db: Db, claim: ClaimedOperation, binding: CredentialBinding) {
    && claim.owner in db.lifecycles && db.lifecycles[claim.owner].state.Deleting?
    && db.lifecycles[claim.owner].generation == claim.ownerGeneration + 2
    && HoldsLease(db, claim) && db.operations[claim.jobId].ownerGeneration == claim.ownerGeneration
    && db.operations[claim.jobId].Runnable() && db.operations[claim.jobId].acceptedAt.Some?
    && db.operations[claim.jobId].lease.value.expiresAt > db.now
    && binding.operation == claim.jobId
    && db.operations[claim.jobId].deletionSession == Some(binding.session)
    && db.operations[claim.jobId].credentialGeneration == Some(binding.credentialGeneration)
    && (claim.owner, binding.session) in db.sessions
    && db.sessions[(claim.owner, binding.session)]
         == Session(DeletionOnly(claim.jobId, binding.credentialGeneration),
                    db.lifecycles[claim.owner].generation - 1, db.lifecycles[claim.owner].authEpoch)
  }

  // The row's lease check refuses a lease that has already run out.
  function ClaimSafety(db: Db, claim: ClaimedOperation): (Db, Option<Uuid>, Outcome) {
    if !HoldsLease(db, claim) || db.operations[claim.jobId].ownerGeneration != claim.ownerGeneration
       || db.operations[claim.jobId].lease.value.expiresAt != claim.leaseExpiresAt then (db, None, NotFound)
    else
      match NextClaim(db.tombstones, claim, db.now)
      case None => (db, None, NotFound)
      case Some(id) =>
        if claim.leaseExpiresAt <= db.now then (db, None, Failed)
        else (db.(tombstones := db.tombstones[id := Claimed(db.tombstones[id], claim)]), Some(id), Done)
  }

  function ReleaseSafety(db: Db, id: Uuid, token: Uuid, nextAttemptAt: Time): (Db, Outcome) {
    if id in db.tombstones && db.tombstones[id].state.Reconciling? && db.tombstones[id].state.lease.token == token
    then (db.(tombstones := db.tombstones[id := Released(db.tombstones[id], nextAttemptAt)]), Done)
    else (db, LeaseLost)
  }

  // --- Completion ----------------------------------------------------------

  predicate OfOperation(t: Tombstone, claim: ClaimedOperation) {
    t.operation == claim.jobId && t.owner == claim.owner && t.ownerGeneration == claim.ownerGeneration
  }

  predicate SafetyConverged(db: Db, claim: ClaimedOperation) {
    forall id :: id in db.tombstones && OfOperation(db.tombstones[id], claim) ==> db.tombstones[id].state.Settled?
  }

  predicate HasSource(tombstones: map<Uuid, Tombstone>, job: Uuid, source: string) {
    exists id :: id in tombstones && tombstones[id].operation == job && tombstones[id].source == source
  }

  // The journal half of the final check: it looks at four collections only, and
  // for a tombstone made from this very attempt.
  predicate NoUntrackedWrite(db: Db, claim: ClaimedOperation) {
    forall row <- db.journal ::
      Selected(row, claim.owner, claim.ownerGeneration) && OwnedKey(claim.owner, row.key)
        && SchemaAdmits(row.key.collection)
      ==> HasSource(db.tombstones, claim.jobId, row.source)
  }

  function Complete(db: Db, claim: ClaimedOperation, expected: int): (Db, Outcome) {
    var check := TransitionCheck(db, claim.owner, expected, Departed);
    if check != Done then (db, check)
    else if !db.lifecycles[claim.owner].state.Deleting? then (db, NotFound)
    else if !HoldsLease(db, claim)
      || db.operations[claim.jobId].ownerGeneration != claim.ownerGeneration then (db, NotFound)
    else if db.operations[claim.jobId].deletionSession.None?
      || db.operations[claim.jobId].credentialGeneration.None? then (db, Failed)
    else if !SafetyConverged(db, claim) || !NoUntrackedWrite(db, claim) then (db, SafetyUnsettled)
    else
      (WithoutOperation(WithLifecycle(db, claim.owner, Departed), claim.jobId)
       .(sessions := RevokeAll(db.sessions, claim.owner)), Done)
  }

  // --- Credential replacement and loss -------------------------------------

  function RefreshBoundOAuth(db: Db, owner: Did, session: SessionId): (Db, Outcome) {
    match OperationOf(db.operations, owner)
    case None => (db, NotFound)
    case Some(job) =>
      var op := db.operations[job];
      if !op.Runnable() then (db, NotFound)
      else if op.deletionSession.None? || (owner, session) !in db.sessions then (db, Failed)
      else
        (db.(operations := db.operations[job := op.(deletionSession := Some(session), status := StatusActive,
               attemptCount := 0, nextAttemptAt := Some(db.now), lease := None)],
             sessions := if op.deletionSession.value == session then db.sessions
                         else Revoke(db.sessions, owner, op.deletionSession.value)), Done)
  }

  // The job stays, without its credential and without anything to claim.
  function Unbound(op: Operation): Operation {
    op.(status := StatusReauthRequired, deletionSession := None, credentialGeneration := None, nextAttemptAt := None,
      lease := None)
  }

  // The session expiry processor found the bound session past its absolute expiry.
  function ExpireCredential(db: Db, job: Uuid): (Db, Outcome) {
    if job !in db.operations || !db.operations[job].Runnable() || db.operations[job].deletionSession.None?
       || !BoundTo(db.sessions, db.operations[job].owner, db.operations[job].deletionSession.value, job) then
          (db, NotFound)
    else
      var op := db.operations[job];
      (db.(operations := db.operations[job := Unbound(op)],
           sessions := Revoke(db.sessions, op.owner, op.deletionSession.value)), Done)
  }

  // The session coordinator found the credential unusable while the worker held it.
  function LoseCredential(db: Db, claim: ClaimedOperation): (Db, Outcome) {
    if claim.owner !in db.lifecycles || !db.lifecycles[claim.owner].state.Deleting?
       || db.lifecycles[claim.owner].generation != claim.ownerGeneration + 2 then (db, NotFound)
    else if !HoldsLease(db, claim) || !db.operations[claim.jobId].Runnable()
            || db.operations[claim.jobId].deletionSession.None?
               || db.operations[claim.jobId].lease.value.expiresAt <= db.now
            || !BoundTo(db.sessions, claim.owner, db.operations[claim.jobId].deletionSession.value, claim.jobId) then
               (db, NotFound)
    else
      var op := db.operations[claim.jobId];
      (db.(operations := db.operations[claim.jobId := Unbound(op)],
           sessions := Revoke(db.sessions, claim.owner, op.deletionSession.value)), Done)
  }

  // --- Logging out everywhere ----------------------------------------------

  // EligibleDeletionCredential: the one session that logout-all may spare, an
  // accepted job's that is deletion-only for it in the present generation and epoch.
  function ExemptSession(db: Db, owner: Did): Option<SessionId>
    requires owner in db.lifecycles
  {
    var l := db.lifecycles[owner];
    if !l.state.Deleting? || l.generation <= 2 then None
    else
      match OperationOf(db.operations, owner)
      case None => None
      case Some(job) =>
        var op := db.operations[job];
        if op.ownerGeneration == l.generation - 2 && op.Runnable() && op.acceptedAt.Some?
           && op.deletionSession.Some? && op.credentialGeneration.Some?
           && op.deletionSession.value != "" && op.credentialGeneration.value > 0
           && (owner, op.deletionSession.value) in db.sessions
           && db.sessions[(owner, op.deletionSession.value)]
                == Session(DeletionOnly(job, op.credentialGeneration.value), l.generation - 1, l.authEpoch)
        then op.deletionSession else None
  }

  // RevokeAllForDID: a new epoch without a transition, and every session of the
  // owner but the exempt one revoked; the exempt one moves to the new epoch.
  function LogoutEverywhere(db: Db, owner: Did): (Db, Outcome) {
    if owner !in db.lifecycles then (db, Failed)
    else if db.lifecycles[owner].state.Terminal? then (db, TerminalOwner)
    else
      var l := db.lifecycles[owner];
      (db.(lifecycles := db.lifecycles[owner := l.(authEpoch := l.authEpoch + 1)],
           sessions := match ExemptSession(db, owner)
                       case None => RevokeAll(db.sessions, owner)
                       case Some(kept) => RevokeAllBut(db.sessions, owner, kept, l.authEpoch + 1)), Done)
  }
}
