// The atomic steps of every actor: users, OAuth callbacks, the expiry sweeper,
// profile events, deletion workers, and the rest of the service as environment.
// A step carries whatever its actor read earlier, so a run with stale values is
// an ordinary run.
module DeletionSteps {
  import opened Wrappers
  import opened CraftskyCollections
  import opened DeletionTables
  import opened SafetyTombstones
  import opened SafetySchedule
  import opened DeletionTransactions

  datatype Step =
    | ByUser(user: UserStep)
    | ByWorker(token: Uuid, call: WorkerCall)   // presents the claim issued with this lease token
    | ByService(service: ServiceStep)

  // Users, OAuth callbacks, the expiry sweeper and profile events.
  datatype UserStep =
    | Begin(expected: int, intent: IntentRecord)
    | Cancel(expected: int, to: LifecycleState, job: Uuid, owner: Did)
    | Depart(owner: Did, expected: int)
    | Bind(attempt: CallbackAttempt, job: Uuid, credentialGeneration: int, proofHash: Digest)
    | Confirm(expected: int, request: AcceptanceRequest, binding: CredentialBinding, ids: seq<Uuid>)
    | Relogin(owner: Did, session: SessionId)   // the refresh from a login: no sign-in of the repository takes it

  datatype WorkerCall =
    | Fail(nextAt: Time)
    | Inventory(ids: seq<Uuid>)
    | ClaimKey
    | ReleaseKey(id: Uuid, nextAttemptAt: Time)
    | Finish(expected: int)
    | LoseAuthority

  // The rest of the service, the remote side and the clock.
  datatype ServiceStep =
    | Claim(job: Uuid, leaseToken: Uuid, duration: int)
    | DispatchWrite(write: Attempt)
    | ResolveWrite(index: nat)
    | OnboardOwner(owner: Did)
    | ActivateOwner(owner: Did, expected: int)
    | Open(owner: Did, session: SessionId)
    | ConfirmHandoff(owner: Did, session: SessionId)
    | RevokeSession(owner: Did, session: SessionId)
    | LogoutAll(owner: Did)
    | ExpireBoundSession(job: Uuid)
    | Profile(owner: Did, present: bool)
    | InventoryObject(job: Uuid, id: Uuid, key: SafetyKey, source: string)
    | SettleObject(id: Uuid)
    | SettleRecord(id: Uuid)   // an external settlement: no code of the repository takes it
    | Tick(instant: Time)

  // An ordinary write is dispatched only inside the owner's active generation.
  function Dispatch(db: Db, attempt: Attempt): Db {
    if attempt.owner in db.lifecycles && db.lifecycles[attempt.owner].state.Active?
       && db.lifecycles[attempt.owner].generation == attempt.generation
    then db.(journal := db.journal + [attempt]) else db
  }

  function Resolve(db: Db, index: nat): Db {
    if index < |db.journal| then db.(journal := db.journal[index := db.journal[index].(uncertain := false)]) else db
  }

  function Onboard(db: Db, owner: Did): Db {
    if owner in db.lifecycles then db else db.(lifecycles := db.lifecycles[owner := Lifecycle(Departed, 1, 1)])
  }

  // Sessions opened during onboarding follow the owner into the new generation.
  function Activate(db: Db, owner: Did, expected: int): (Db, Outcome) {
    var check := TransitionCheck(db, owner, expected, Active);
    if check != Done then (db, check)
    else if !db.lifecycles[owner].state.Departed? then (db, InvalidTransition)
    else
      (WithLifecycle(db, owner, Active).(sessions :=
         map k | k in db.sessions ::
           if k.0 == owner && (db.sessions[k].state.PendingHandoff? || db.sessions[k].state.SessionActive?)
           then db.sessions[k].(ownerGeneration := expected + 1) else db.sessions[k]), Done)
  }

  function OpenSession(db: Db, owner: Did, session: SessionId): Db {
    if owner in db.lifecycles && (owner, session) !in db.sessions then
      var l := db.lifecycles[owner];
      db.(sessions := db.sessions[(owner, session) := Session(PendingHandoff, l.generation, l.authEpoch)])
    else db
  }

  function ConfirmSession(db: Db, owner: Did, session: SessionId): Db {
    if (owner, session) in db.sessions && db.sessions[(owner, session)].state.PendingHandoff?
    then db.(sessions := db.sessions[(owner, session) := db.sessions[(owner, session)].(state := SessionActive)])
      else db
  }

  function SetProfile(db: Db, owner: Did, present: bool): Db {
    db.(profiles := if present then db.profiles + {owner} else db.profiles - {owner})
  }

  // Accepted cleanup inventories uncertain media uploads the same way.
  function AdoptObject(db: Db, job: Uuid, id: Uuid, key: SafetyKey, source: string): Db {
    if job in db.operations && !db.operations[job].status.StatusIntent? && key.ScheduledObject? && id !in db.used
       && (forall other :: other in db.tombstones ==> !SameIdentity(db.tombstones[other], job, key))
    then
      var op := db.operations[job];
      db.(tombstones := db.tombstones[id := Tombstone(job, op.owner, op.ownerGeneration, key, source,
        SafetyPending(db.now), 0)],
          used := db.used + {id})
    else db
  }

  function Settle(db: Db, id: Uuid, record: bool): Db {
    if id in db.tombstones && db.tombstones[id].key.PdsRecord? == record
    then db.(tombstones := db.tombstones[id := db.tombstones[id].(state := Settled)]) else db
  }

  function ApplyUser(db: Db, step: UserStep): (Db, Outcome) {
    match step
    case Begin(expected, intent) => CreateIntent(db, expected, intent)
    case Cancel(expected, to, job, owner) => CancelIntent(db, expected, to, job, owner)
    case Depart(owner, expected) => ProfileDeparture(db, owner, expected)
    case Bind(attempt, job, generation, proof) => BindReauthentication(db, attempt, job, generation, proof)
    case Confirm(expected, request, binding, ids) => Accept(db, expected, request, binding, ids)
    case Relogin(owner, session) => RefreshBoundOAuth(db, owner, session)
  }

  function ApplyCall(db: Db, claim: ClaimedOperation, call: WorkerCall): (Db, Outcome) {
    match call
    case Fail(nextAt) => RecordFailure(db, claim, nextAt, claim.attemptCount + 1)
    case Inventory(ids) => AdoptUncertain(db, claim, ids)
    case ClaimKey => (ClaimSafety(db, claim).0, ClaimSafety(db, claim).2)
    case ReleaseKey(id, nextAttemptAt) => ReleaseSafety(db, id, claim.leaseToken, nextAttemptAt)
    case Finish(expected) => Complete(db, claim, expected)
    case LoseAuthority => LoseCredential(db, claim)
  }

  function ApplyWorker(db: Db, token: Uuid, call: WorkerCall): (Db, Outcome) {
    if token in db.claims then ApplyCall(db, db.claims[token], call) else (db, Failed)
  }

  function ApplyService(db: Db, step: ServiceStep): (Db, Outcome) {
    match step
    case Claim(job, token, duration) => ClaimDue(db, job, token, duration)
    case DispatchWrite(write) => (Dispatch(db, write), Done)
    case ResolveWrite(index) => (Resolve(db, index), Done)
    case OnboardOwner(owner) => (Onboard(db, owner), Done)
    case ActivateOwner(owner, expected) => Activate(db, owner, expected)
    case Open(owner, session) => (OpenSession(db, owner, session), Done)
    case ConfirmHandoff(owner, session) => (ConfirmSession(db, owner, session), Done)
    case ExpireBoundSession(job) => ExpireCredential(db, job)
    case LogoutAll(owner) => LogoutEverywhere(db, owner)
    case RevokeSession(owner, session) => (db.(sessions := Revoke(db.sessions, owner, session)), Done)
    case Profile(owner, present) => (SetProfile(db, owner, present), Done)
    case InventoryObject(job, id, key, source) => (AdoptObject(db, job, id, key, source), Done)
    case SettleObject(id) => (Settle(db, id, false), Done)
    case SettleRecord(id) => (Settle(db, id, true), Done)
    case Tick(instant) => (if db.now <= instant then db.(now := instant) else db, Done)
  }

  function Apply(db: Db, step: Step): (Db, Outcome) {
    match step
    case ByUser(user) => ApplyUser(db, user)
    case ByWorker(token, call) => ApplyWorker(db, token, call)
    case ByService(service) => ApplyService(db, service)
  }

  function Run(db: Db, steps: seq<Step>): Db {
    if steps == [] then db else Apply(Run(db, steps[..|steps| - 1]), steps[|steps| - 1]).0
  }

  lemma {:induction false} RunsCompose(db: Db, first: seq<Step>, second: seq<Step>)
    ensures Run(db, first + second) == Run(Run(db, first), second)
    decreases |second|
  {
    if second == [] {
      assert first + second == first;
    } else {
      var n := |second| - 1;
      assert (first + second)[..|first + second| - 1] == first + second[..n];
      RunsCompose(db, first, second[..n]);
    }
  }

  // --- Sealed facts --------------------------------------------------------

  // A fact quantified over Unsealed is carried along without being unfolded,
  // until a proof mentions Unsealed(true).
  predicate Unsealed(seal: bool) {
    true
  }

  ghost predicate Leads(before: Db, steps: seq<Step>, after: Db) {
    forall seal: bool {:trigger Unsealed(seal)} :: Unsealed(seal) ==> Run(before, steps) == after
  }

  lemma LeadsNowhere(db: Db)
    ensures Leads(db, [], db)
  {
  }

  lemma LeadsOn(a: Db, first: seq<Step>, b: Db, second: seq<Step>, c: Db)
    requires Leads(a, first, b) && Leads(b, second, c)
    ensures Leads(a, first + second, c)
  {
    assert Unsealed(true);
    RunsCompose(a, first, second);
  }

  ghost predicate StepLeads(before: Db, step: Step, after: Db) {
    forall seal: bool {:trigger Unsealed(seal)} :: Unsealed(seal) ==> Apply(before, step).0 == after
  }

  lemma StepLeadsOn(a: Db, steps: seq<Step>, b: Db, step: Step, c: Db)
    requires Leads(a, steps, b) && StepLeads(b, step, c)
    ensures Leads(a, steps + [step], c)
  {
    assert Unsealed(true);
    assert (steps + [step])[..|steps|] == steps;
  }
}
