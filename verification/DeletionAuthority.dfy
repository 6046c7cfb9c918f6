// Who may accept a deletion, what the sweeper may remove, and where the deletion
// credential goes.
module DeletionAuthority {
  import opened Wrappers
  import opened CraftskyCollections
  import opened DeletionTables
  import opened SafetyTombstones
  import opened DeletionTransactions
  import opened DeletionSteps
  import opened DeletionInvariant
  import opened DeletionPreservation
  import opened DeletionRuns

  // --- Reauthentication is bound once --------------------------------------

  // The job has had its one reauthentication: bound, past its intent, or gone.
  ghost predicate ReauthenticationSpent(db: Db, job: Uuid) {
    job in db.used
      && (job in db.operations && db.operations[job].status.StatusIntent? ==> db.operations[job].reauthSession.Some?)
  }

  lemma UsersKeepSpent(db: Db, step: UserStep, job: Uuid)
    requires ReauthenticationSpent(db, job)
    ensures ReauthenticationSpent(ApplyUser(db, step).0, job)
  {
  }

  lemma CallsKeepSpent(db: Db, claim: ClaimedOperation, call: WorkerCall, job: Uuid)
    requires ReauthenticationSpent(db, job)
    ensures ReauthenticationSpent(ApplyCall(db, claim, call).0, job)
  {
  }

  lemma ServiceKeepsSpent(db: Db, step: ServiceStep, job: Uuid)
    requires ReauthenticationSpent(db, job)
    ensures ReauthenticationSpent(ApplyService(db, step).0, job)
  {
  }

  lemma {:induction false} SpentForever(db: Db, steps: seq<Step>, job: Uuid)
    requires ReauthenticationSpent(db, job)
    ensures ReauthenticationSpent(Run(db, steps), job)
    decreases |steps|
  {
    if steps != [] {
      var n := |steps| - 1;
      SpentForever(db, steps[..n], job);
      var before := Run(db, steps[..n]);
      match steps[n]
      case ByUser(user) => UsersKeepSpent(before, user, job);
      case ByWorker(token, call) =>
        if token in before.claims {
          CallsKeepSpent(before, before.claims[token], call, job);
        }
      case ByService(service) => ServiceKeepsSpent(before, service, job);
    }
  }

  // After one successful callback for a job, every later callback for it fails
  // and changes nothing, however far the deletion has gone meanwhile.
  lemma ReauthenticationBindsOnce(
    db: Db, first: CallbackAttempt, job: Uuid, generation: int, proof: Digest,
    steps: seq<Step>, second: CallbackAttempt, generation': int, proof': Digest)
    requires Inv(db) && BindReauthentication(db, first, job, generation, proof).1 == Done
    ensures var later := Run(BindReauthentication(db, first, job, generation, proof).0, steps);
      && BindReauthentication(later, second, job, generation', proof').1 != Done
      && BindReauthentication(later, second, job, generation', proof').0 == later
  {
    SpentForever(BindReauthentication(db, first, job, generation, proof).0, steps, job);
  }

  // --- Acceptance ----------------------------------------------------------

  // An acceptance commits only on an unexpired intent whose bound session is
  // still deletion-only for this very job, with both secrets known; the session
  // passes to the accepted row with its binding intact and every other session
  // of the owner is revoked.
  lemma AcceptanceIsAuthorized(
    db: Db, expected: int, request: AcceptanceRequest, binding: CredentialBinding, ids: seq<Uuid>)
    requires Inv(db) && Accept(db, expected, request, binding, ids).1 == Done
    ensures var job, owner := request.jobId, request.owner;
      var before, after := db.operations[job], Accept(db, expected, request, binding, ids).0;
      && before.status.StatusIntent? && before.owner == owner
      && db.now < before.intentExpiresAt.value
      && before.proofHash == Some(Digest(request.reauthProof))
      && before.didHash == Some(Digest(request.confirmation))
      && after.operations[job].deletionSession == before.reauthSession
      && (owner, before.reauthSession.value) in db.sessions
      && db.sessions[(owner, before.reauthSession.value)].state == DeletionOnly(job, before.credentialGeneration.value)
      && after.sessions[(owner, before.reauthSession.value)].state
         == db.sessions[(owner, before.reauthSession.value)].state
      && (forall k :: k in after.sessions && k.0 == owner && k.1 != before.reauthSession.value
            ==> after.sessions[k].state.RevocationPending?)
  {
  }

  // The worker can use the credential at once: acceptance leaves the row due and
  // the credential readable by whoever claims it.
  lemma AcceptedJobIsServed(
    db: Db, expected: int, request: AcceptanceRequest, binding: CredentialBinding, ids: seq<Uuid>, token: Uuid,
    duration: int)
    requires Inv(db) && Accept(db, expected, request, binding, ids).1 == Done
    requires duration > 0 && token !in Accept(db, expected, request, binding, ids).0.used
    ensures var accepted := Accept(db, expected, request, binding, ids).0;
      var (claimed, outcome) := ClaimDue(accepted, request.jobId, token, duration);
      && outcome == Done
      && ReadCredential(claimed, claimed.claims[token]).0
           == Some(CredentialBinding(request.jobId, db.operations[request.jobId].reauthSession.value,
             db.operations[request.jobId].credentialGeneration.value))
  {
    assert Shaped(db.operations[request.jobId]);
  }

  // --- The expiry sweeper --------------------------------------------------

  // A listed intent: what a sweep read when it was listed, and the id can never
  // name another intent.
  ghost predicate ListedIntent(db: Db, job: Uuid, owner: Did, expiresAt: Time) {
    && job in db.used
    && (job in db.operations && db.operations[job].status.StatusIntent? ==>
          db.operations[job].owner == owner && db.operations[job].intentExpiresAt == Some(expiresAt))
  }

  lemma AcceptanceKeepsListed(
    db: Db, expected: int, request: AcceptanceRequest, binding: CredentialBinding, ids: seq<Uuid>,
    job: Uuid, owner: Did, expiresAt: Time)
    requires ListedIntent(db, job, owner, expiresAt)
    ensures ListedIntent(Accept(db, expected, request, binding, ids).0, job, owner, expiresAt)
    ensures Accept(db, expected, request, binding, ids).0.now == db.now
  {
  }

  lemma RemovalKeepsListed(db: Db, step: UserStep, job: Uuid, owner: Did, expiresAt: Time)
    requires ListedIntent(db, job, owner, expiresAt) && (step.Cancel? || step.Depart?)
    ensures ListedIntent(ApplyUser(db, step).0, job, owner, expiresAt)
    ensures ApplyUser(db, step).0.now == db.now
  {
  }

  lemma BindingKeepsListed(db: Db, step: UserStep, job: Uuid, owner: Did, expiresAt: Time)
    requires ListedIntent(db, job, owner, expiresAt) && (step.Begin? || step.Bind? || step.Relogin?)
    ensures ListedIntent(ApplyUser(db, step).0, job, owner, expiresAt)
    ensures ApplyUser(db, step).0.now == db.now
  {
  }

  lemma IntentsKeepListed(db: Db, step: UserStep, job: Uuid, owner: Did, expiresAt: Time)
    requires ListedIntent(db, job, owner, expiresAt) && !step.Confirm?
    ensures ListedIntent(ApplyUser(db, step).0, job, owner, expiresAt)
    ensures ApplyUser(db, step).0.now == db.now
  {
    if step.Cancel? || step.Depart? {
      RemovalKeepsListed(db, step, job, owner, expiresAt);
    } else {
      BindingKeepsListed(db, step, job, owner, expiresAt);
    }
  }

  lemma UsersKeepListed(db: Db, step: UserStep, job: Uuid, owner: Did, expiresAt: Time)
    requires ListedIntent(db, job, owner, expiresAt)
    ensures ListedIntent(ApplyUser(db, step).0, job, owner, expiresAt)
    ensures ApplyUser(db, step).0.now == db.now
  {
    if step.Confirm? {
      AcceptanceKeepsListed(db, step.expected, step.request, step.binding, step.ids, job, owner, expiresAt);
    } else {
      IntentsKeepListed(db, step, job, owner, expiresAt);
    }
  }

  lemma CallsKeepListed(db: Db, claim: ClaimedOperation, call: WorkerCall, job: Uuid, owner: Did, expiresAt: Time)
    requires ListedIntent(db, job, owner, expiresAt)
    ensures ListedIntent(ApplyCall(db, claim, call).0, job, owner, expiresAt)
    ensures ApplyCall(db, claim, call).0.now == db.now
  {
  }

  lemma ServiceKeepsListed(db: Db, step: ServiceStep, job: Uuid, owner: Did, expiresAt: Time)
    requires ListedIntent(db, job, owner, expiresAt)
    ensures ListedIntent(ApplyService(db, step).0, job, owner, expiresAt)
    ensures ApplyService(db, step).0.now >= db.now
  {
  }

  lemma {:induction false} ListedStaysListed(db: Db, steps: seq<Step>, job: Uuid, owner: Did, expiresAt: Time)
    requires ListedIntent(db, job, owner, expiresAt)
    ensures ListedIntent(Run(db, steps), job, owner, expiresAt)
    ensures Run(db, steps).now >= db.now
    decreases |steps|
  {
    if steps != [] {
      var n := |steps| - 1;
      ListedStaysListed(db, steps[..n], job, owner, expiresAt);
      var before := Run(db, steps[..n]);
      match steps[n]
      case ByUser(user) => UsersKeepListed(before, user, job, owner, expiresAt);
      case ByWorker(token, call) =>
        if token in before.claims {
          CallsKeepListed(before, before.claims[token], call, job, owner, expiresAt);
        }
      case ByService(service) => ServiceKeepsListed(before, service, job, owner, expiresAt);
    }
  }

  // However stale the sweep's batch, the row it removes is the listed intent
  // itself, still an intent and still expired; every other row stays.
  lemma StaleSweepRemovesOnlyTheExpiredIntent(
    listed: Db, steps: seq<Step>, job: Uuid, expected: int, to: LifecycleState)
    requires Inv(listed) && job in listed.operations && listed.operations[job].status.StatusIntent?
    requires listed.operations[job].intentExpiresAt.value <= listed.now
    requires CancelIntent(Run(listed, steps), expected, to, job, listed.operations[job].owner).1 == Done
    ensures var at := Run(listed, steps);
      var after := CancelIntent(at, expected, to, job, listed.operations[job].owner).0;
      && at.operations[job].status.StatusIntent?
      && at.operations[job].intentExpiresAt.Some? && at.operations[job].intentExpiresAt.value <= at.now
      && after.operations == at.operations - {job}
  {
    var op := listed.operations[job];
    ListedStaysListed(listed, steps, job, op.owner, op.intentExpiresAt.value);
  }

  // --- The dropped credential ----------------------------------------------

  // In a reachable state a deletion-only session always names a live operation of
  // its owner that references it, and no two operations share one.
  lemma DeletionCredentialsAreReferenced(steps: seq<Step>, owner: Did, session: SessionId)
    requires (owner, session) in Run(EMPTY, steps).sessions
    requires Run(EMPTY, steps).sessions[(owner, session)].state.DeletionOnly?
    ensures var db := Run(EMPTY, steps);
      && Referenced(db.operations, owner, session, db.sessions[(owner, session)].state)
      && (forall job :: job in db.operations && db.operations[job].owner == owner
            ==> job == db.sessions[(owner, session)].state.operation)
  {
    ReachableStatesSatisfyInv(steps);
  }

  // The session an operation stops referencing is queued for revocation in the
  // same step, by whichever step it is; acceptance alone moves it on unchanged.
  predicate References(op: Operation, session: SessionId) {
    op.reauthSession == Some(session) || op.deletionSession == Some(session)
  }

  ghost predicate StillReferenced(db: Db, job: Uuid, session: SessionId) {
    job in db.operations && References(db.operations[job], session)
  }

  ghost predicate QueuedForRevocation(db: Db, owner: Did, session: SessionId) {
    (owner, session) in db.sessions && db.sessions[(owner, session)].state.RevocationPending?
  }

  lemma IntentRemovalRevokes(db: Db, step: UserStep, job: Uuid, session: SessionId)
    requires StillReferenced(db, job, session) && Shaped(db.operations[job])
    requires (db.operations[job].owner, session) in db.sessions
    requires step.Cancel? || step.Depart?
    ensures StillReferenced(ApplyUser(db, step).0, job, session)
            || QueuedForRevocation(ApplyUser(db, step).0, db.operations[job].owner, session)
  {
  }

  lemma OtherUserStepsRevoke(db: Db, step: UserStep, job: Uuid, session: SessionId)
    requires StillReferenced(db, job, session) && Shaped(db.operations[job])
    requires (db.operations[job].owner, session) in db.sessions && db.operations.Keys <= db.used
    requires !step.Cancel? && !step.Depart?
    ensures StillReferenced(ApplyUser(db, step).0, job, session)
            || QueuedForRevocation(ApplyUser(db, step).0, db.operations[job].owner, session)
  {
  }

  lemma CallsRevoke(db: Db, claim: ClaimedOperation, call: WorkerCall, job: Uuid, session: SessionId)
    requires StillReferenced(db, job, session) && Shaped(db.operations[job])
    requires (db.operations[job].owner, session) in db.sessions
    ensures StillReferenced(ApplyCall(db, claim, call).0, job, session)
            || QueuedForRevocation(ApplyCall(db, claim, call).0, db.operations[job].owner, session)
  {
  }

  lemma ServiceRevokes(db: Db, step: ServiceStep, job: Uuid, session: SessionId)
    requires StillReferenced(db, job, session) && Shaped(db.operations[job])
    requires (db.operations[job].owner, session) in db.sessions
    ensures StillReferenced(ApplyService(db, step).0, job, session)
            || QueuedForRevocation(ApplyService(db, step).0, db.operations[job].owner, session)
  {
  }

  lemma DroppedCredentialIsRevoked(db: Db, step: Step, job: Uuid, session: SessionId)
    requires Inv(db) && StillReferenced(db, job, session)
    requires (db.operations[job].owner, session) in db.sessions
    ensures StillReferenced(Apply(db, step).0, job, session)
            || QueuedForRevocation(Apply(db, step).0, db.operations[job].owner, session)
  {
    assert Shaped(db.operations[job]);
    match step
    case ByUser(user) =>
      if user.Cancel? || user.Depart? {
        IntentRemovalRevokes(db, user, job, session);
      } else {
        OtherUserStepsRevoke(db, user, job, session);
      }
    case ByWorker(token, call) => if token in db.claims { CallsRevoke(db, db.claims[token], call, job, session); }
    case ByService(service) => ServiceRevokes(db, service, job, session);
  }
}
