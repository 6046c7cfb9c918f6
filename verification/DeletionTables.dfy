// The rows that account deletion reads and writes, as one database value.
// A transaction maps a database value to the next one; a refused transaction
// returns the value it was given.
module DeletionTables {
  import opened Wrappers
  import opened CraftskyCollections

  type SessionId = string
  // Ordered as the database orders uuid values.
  type Uuid = nat
  type Time = int

  // HashSecret: equal digests mean equal secrets.
  datatype Digest = Digest(secret: string)

  datatype LifecycleState = Active | Departed | DeletionPending | Deleting | Terminal

  datatype Lifecycle = Lifecycle(state: LifecycleState, generation: int, authEpoch: int)

  datatype Status = StatusIntent | StatusActive | StatusRetrying | StatusReauthRequired

  datatype Lease = Lease(token: Uuid, expiresAt: Time)

  datatype Operation = Operation(
    owner: Did,
    ownerGeneration: int,
    status: Status,
    acceptedAt: Option<Time>,
    reauthSession: Option<SessionId>,
    deletionSession: Option<SessionId>,
    credentialGeneration: Option<int>,
    attemptCount: nat,
    nextAttemptAt: Option<Time>,
    proofHash: Option<Digest>,
    didHash: Option<Digest>,
    intentExpiresAt: Option<Time>,
    lease: Option<Lease>)
  {
    predicate Runnable() {
      status.StatusActive? || status.StatusRetrying?
    }
  }

  datatype SessionState =
    | PendingHandoff
    | SessionActive
    | DeletionOnly(operation: Uuid, credentialGeneration: int)
    | RevocationPending

  datatype Session = Session(state: SessionState, ownerGeneration: int, authEpoch: int)

  datatype SafetyKey =
    | PdsRecord(uri: RecordUri)
    | ScheduledObject(object: string, upload: int)

  datatype TombstoneState =
    | SafetyPending(nextAttemptAt: Time)
    | Reconciling(lease: Lease)
    | Settled

  datatype Tombstone = Tombstone(
    operation: Uuid,
    owner: Did,
    ownerGeneration: int,
    key: SafetyKey,
    source: string,
    state: TombstoneState,
    attempts: nat)

  // One row of either mutation journal. `write` is put_record, create or update;
  // `uncertain` is a dispatch whose remote outcome is not known.
  datatype Journal = LegacyEffect | Command
  datatype Attempt = Attempt(
    source: string,
    owner: Did,
    generation: int,
    key: RecordUri,
    journal: Journal,
    write: bool,
    uncertain: bool)

  // What ClaimDue hands to a worker.
  datatype ClaimedOperation = ClaimedOperation(
    jobId: Uuid,
    owner: Did,
    ownerGeneration: int,
    attemptCount: nat,
    leaseToken: Uuid,
    leaseExpiresAt: Time)

  datatype Db = Db(
    now: Time,
    lifecycles: map<Did, Lifecycle>,
    profiles: set<Did>,
    operations: map<Uuid, Operation>,
    sessions: map<(Did, SessionId), Session>,
    tombstones: map<Uuid, Tombstone>,
    journal: seq<Attempt>,
    claims: map<Uuid, ClaimedOperation>,   // every lease ever handed out, by its token
    used: set<Uuid>)                       // every uuid ever generated

  datatype Outcome =
    | Done
    | NotFound                    // ErrOperationNotFound
    | PointOfNoReturn             // ErrPointOfNoReturn
    | GenerationChanged           // ownerlifecycle.ErrGenerationChanged
    | InvalidTransition           // ownerlifecycle.ErrInvalidTransition
    | TerminalOwner               // ownerlifecycle.ErrTerminalOwner
    | AlreadyPending              // ErrDeletionAlreadyPending
    | ReauthenticationRequired    // ErrReauthenticationRequired
    | ConfirmationMismatch        // ErrConfirmationDIDMismatch
    | SafetyUnsettled             // ErrSafetyPending
    | LeaseLost                   // ErrSafetyLeaseLost
    | Failed                      // any other error

  predicate HasOperation(operations: map<Uuid, Operation>, owner: Did) {
    exists job :: job in operations && operations[job].owner == owner
  }

  predicate FirstOwned(operations: map<Uuid, Operation>, owner: Did, job: Uuid) {
    && job in operations && operations[job].owner == owner
    && forall other :: other in operations && operations[other].owner == owner ==> job <= other
  }

  // The row selected by `WHERE owner_did=$1`; owner_did is unique in the table.
  function OperationOf(operations: map<Uuid, Operation>, owner: Did): (job: Option<Uuid>)
    ensures job.Some? ==> job.value in operations && operations[job.value].owner == owner
    ensures job.None? ==> !HasOperation(operations, owner)
  {
    if HasOperation(operations, owner) then
      FirstOwnedExists(operations, owner);
      var job :| job in operations && FirstOwned(operations, owner, job);
      Some(job)
    else
      None
  }

  lemma FirstOwnedExists(operations: map<Uuid, Operation>, owner: Did)
    requires HasOperation(operations, owner)
    ensures exists job :: FirstOwned(operations, owner, job)
  {
    var owned := set job | job in operations && operations[job].owner == owner;
    var some :| some in operations && operations[some].owner == owner;
    assert some in owned;
    var least := LeastId(owned);
    forall other | other in operations && operations[other].owner == owner
      ensures least <= other
    {
      assert other in owned;
    }
    assert FirstOwned(operations, owner, least);
  }

  lemma LeastId(ids: set<Uuid>) returns (least: Uuid)
    requires ids != {}
    ensures least in ids && forall other :: other in ids ==> least <= other
  {
    var some :| some in ids;
    var rest := ids - {some};
    assert forall other :: other in ids ==> other == some || other in rest;
    least := some;
    if rest != {} {
      var best := LeastId(rest);
      assert best in ids;
      least := if best < some then best else some;
    }
  }
}
