// How long an accepted job has a credential it can use, and what the refresh from a
// login could do about one that was lost.
module DeletionCredential {
  import opened Wrappers
  import opened CraftskyCollections
  import opened DeletionTables
  import opened SafetyTombstones
  import opened DeletionTransactions
  import opened DeletionSteps
  import opened DeletionInvariant
  import opened DeletionPreservation
  import opened DeletionRuns
  import opened DeletionRetry

  // --- Past the intent -----------------------------------------------------

  // The job was begun, and its row, if it is still there, is an accepted one.
  ghost predicate PastIntent(db: Db, job: Uuid) {
    job in db.used && (job in db.operations ==> !db.operations[job].status.StatusIntent?)
  }

  lemma {:induction false} NeverAnIntentAgain(db: Db, steps: seq<Step>, job: Uuid)
    requires PastIntent(db, job)
    ensures PastIntent(Run(db, steps), job)
    decreases |steps|
  {
    if steps != [] {
      NeverAnIntentAgain(db, steps[..|steps| - 1], job);
      StepKeepsPast(Run(db, steps[..|steps| - 1]), steps[|steps| - 1], job);
    }
  }

  lemma UsersKeepPast(db: Db, step: UserStep, job: Uuid)
    requires PastIntent(db, job)
    ensures PastIntent(ApplyUser(db, step).0, job)
  {
  }

  lemma CallsKeepPast(db: Db, claim: ClaimedOperation, call: WorkerCall, job: Uuid)
    requires PastIntent(db, job)
    ensures PastIntent(ApplyCall(db, claim, call).0, job)
  {
  }

  lemma ServiceKeepsPast(db: Db, step: ServiceStep, job: Uuid)
    requires PastIntent(db, job)
    ensures PastIntent(ApplyService(db, step).0, job)
  {
  }

  lemma StepKeepsPast(db: Db, step: Step, job: Uuid)
    requires PastIntent(db, job)
    ensures PastIntent(Apply(db, step).0, job)
  {
    match step
    case ByUser(user) => UsersKeepPast(db, user, job);
    case ByWorker(token, call) => if token in db.claims { CallsKeepPast(db, db.claims[token], call, job); }
    case ByService(service) => ServiceKeepsPast(db, service, job);
  }

  // --- A job without a deletion-only session -------------------------------

  ghost predicate CredentialGone(db: Db, job: Uuid) {
    PastIntent(db, job) && NoneFor(db.sessions, job)
  }

  lemma BindingKeepsNone(db: Db, step: UserStep, job: Uuid)
    requires CredentialGone(db, job) && (step.Bind? || step.Begin? || step.Relogin?)
    ensures NoneFor(ApplyUser(db, step).0.sessions, job)
  {
  }

  lemma RemovalKeepsNone(db: Db, step: UserStep, job: Uuid)
    requires NoneFor(db.sessions, job) && (step.Cancel? || step.Depart?)
    ensures NoneFor(ApplyUser(db, step).0.sessions, job)
  {
  }

  lemma AcceptanceKeepsNone(
    db: Db, expected: int, request: AcceptanceRequest, binding: CredentialBinding, ids: seq<Uuid>, job: Uuid)
    requires NoneFor(db.sessions, job)
    ensures NoneFor(Accept(db, expected, request, binding, ids).0.sessions, job)
  {
  }

  lemma UsersKeepGone(db: Db, step: UserStep, job: Uuid)
    requires CredentialGone(db, job)
    ensures CredentialGone(ApplyUser(db, step).0, job)
  {
    UsersKeepPast(db, step, job);
    match step
    case Confirm(expected, request, binding, ids) => AcceptanceKeepsNone(db, expected, request, binding, ids, job);
    case Cancel(_, _, _, _) => RemovalKeepsNone(db, step, job);
    case Depart(_, _) => RemovalKeepsNone(db, step, job);
    case _ => BindingKeepsNone(db, step, job);
  }

  lemma CallsKeepGone(db: Db, claim: ClaimedOperation, call: WorkerCall, job: Uuid)
    requires CredentialGone(db, job)
    ensures CredentialGone(ApplyCall(db, claim, call).0, job)
  {
  }

  lemma ServiceKeepsGone(db: Db, step: ServiceStep, job: Uuid)
    requires CredentialGone(db, job)
    ensures CredentialGone(ApplyService(db, step).0, job)
  {
  }

  lemma StepKeepsGone(db: Db, step: Step, job: Uuid)
    requires CredentialGone(db, job)
    ensures CredentialGone(Apply(db, step).0, job)
  {
    match step
    case ByUser(user) => UsersKeepGone(db, user, job);
    case ByWorker(token, call) => if token in db.claims { CallsKeepGone(db, db.claims[token], call, job); }
    case ByService(service) => ServiceKeepsGone(db, service, job);
  }

  // No login, callback or other step of any run gives such a job a credential.
  lemma {:induction false} LostCredentialNeverReturns(db: Db, steps: seq<Step>, job: Uuid)
    requires CredentialGone(db, job)
    ensures CredentialGone(Run(db, steps), job)
    decreases |steps|
  {
    if steps != [] {
      LostCredentialNeverReturns(db, steps[..|steps| - 1], job);
      StepKeepsGone(Run(db, steps[..|steps| - 1]), steps[|steps| - 1], job);
    }
  }

  // --- Exactly how long the credential lasts -------------------------------

  // An accepted job whose row names a session that is deletion-only for it.
  predicate Usable(db: Db, job: Uuid) {
    && IsAccepted(db, job)
    && db.operations[job].deletionSession.Some?
    && BoundTo(db.sessions, db.operations[job].owner, db.operations[job].deletionSession.value, job)
  }

  lemma UsableOrGone(db: Db, job: Uuid)
    requires Inv(db) && PastIntent(db, job)
    ensures Usable(db, job) <==> !CredentialGone(db, job)
  {
    if !CredentialGone(db, job) {
      var k :| k in db.sessions && db.sessions[k].state.DeletionOnly? && db.sessions[k].state.operation == job;
      assert Referenced(db.operations, k.0, k.1, db.sessions[k].state);
      assert Shaped(db.operations[job]);
    }
  }

  // The steps that end the credential of a job that has one.
  ghost predicate EndsCredential(db: Db, step: Step, job: Uuid)
    requires Usable(db, job)
  {
    var owner, session := db.operations[job].owner, db.operations[job].deletionSession.value;
    match step
    case ByUser(user) =>   // the refresh from a login, with another session
      user.Relogin? && user.owner == owner && user.session != session && (owner, user.session) in db.sessions
    case ByWorker(token, call) =>   // completion, or the coordinator's verdict
      token in db.claims && db.claims[token].jobId == job && (call.Finish? || call.LoseAuthority?)
        && Apply(db, step).1 == Done
    case ByService(service) =>
      || service == ExpireBoundSession(job) || service == RevokeSession(owner, session)
      || (service == LogoutAll(owner) && owner in db.lifecycles && ExemptSession(db, owner) != Some(session))
  }

  lemma RefreshEndsExactly(db: Db, owner: Did, session: SessionId, job: Uuid)
    requires Inv(db) && Usable(db, job)
    ensures Usable(RefreshBoundOAuth(db, owner, session).0, job)
            <==> !EndsCredential(db, ByUser(Relogin(owner, session)), job)
  {
    assert Shaped(db.operations[job]);
  }

  // What a job past its point of no return is bound to is out of the reach of intents.
  lemma CancelKeepsUsable(db: Db, expected: int, to: LifecycleState, dropped: Uuid, owner: Did, job: Uuid)
    requires DeletingRow(db, job) && Usable(db, job)
    ensures var (op, after) := (db.operations[job], CancelIntent(db, expected, to, dropped, owner).0);
      BoundTo(after.sessions, op.owner, op.deletionSession.value, job)
  {
  }

  lemma DepartKeepsUsable(db: Db, owner: Did, expected: int, job: Uuid)
    requires DeletingRow(db, job) && Usable(db, job)
    ensures var (op, after) := (db.operations[job], ProfileDeparture(db, owner, expected).0);
      BoundTo(after.sessions, op.owner, op.deletionSession.value, job)
  {
  }

  lemma BindKeepsUsable(db: Db, step: UserStep, job: Uuid)
    requires DeletingRow(db, job) && Usable(db, job) && (step.Bind? || step.Begin?)
    ensures var (op, after) := (db.operations[job], ApplyUser(db, step).0);
      BoundTo(after.sessions, op.owner, op.deletionSession.value, job)
  {
  }

  lemma AcceptanceKeepsUsable(
    db: Db, expected: int, request: AcceptanceRequest, binding: CredentialBinding, ids: seq<Uuid>, job: Uuid)
    requires Inv(db) && Usable(db, job)
    ensures BoundTo(Accept(db, expected, request, binding, ids).0.sessions,
                    db.operations[job].owner, db.operations[job].deletionSession.value, job)
  {
    assert Staged(db.operations[job], db.lifecycles[db.operations[job].owner]);
  }

  lemma UsersEndExactly(db: Db, step: UserStep, job: Uuid)
    requires Inv(db) && Usable(db, job)
    ensures Usable(ApplyUser(db, step).0, job) <==> !EndsCredential(db, ByUser(step), job)
  {
    assert DeletingRow(db, job);
    match step
    case Relogin(owner, session) => RefreshEndsExactly(db, owner, session, job);
    case Confirm(expected, request, binding, ids) =>
      UsersCannotUndoAcceptance(db, step, job);
      AcceptanceKeepsUsable(db, expected, request, binding, ids, job);
    case Cancel(expected, to, dropped, owner) =>
      UsersCannotUndoAcceptance(db, step, job);
      CancelKeepsUsable(db, expected, to, dropped, owner, job);
    case Depart(owner, expected) =>
      UsersCannotUndoAcceptance(db, step, job);
      DepartKeepsUsable(db, owner, expected, job);
    case _ =>
      UsersCannotUndoAcceptance(db, step, job);
      BindKeepsUsable(db, step, job);
  }

  lemma CompletionEndsExactly(db: Db, claim: ClaimedOperation, expected: int, job: Uuid)
    requires Inv(db) && Usable(db, job)
    ensures Usable(Complete(db, claim, expected).0, job)
            <==> !(claim.jobId == job && Complete(db, claim, expected).1 == Done)
  {
  }

  lemma OtherCallsEndExactly(db: Db, claim: ClaimedOperation, call: WorkerCall, job: Uuid)
    requires OneOperationPerOwner(db.operations) && Usable(db, job) && !call.Finish?
    ensures Usable(ApplyCall(db, claim, call).0, job)
            <==> !(claim.jobId == job && call.LoseAuthority? && ApplyCall(db, claim, call).1 == Done)
  {
  }

  lemma CallsEndExactly(db: Db, claim: ClaimedOperation, call: WorkerCall, job: Uuid)
    requires Inv(db) && Usable(db, job)
    ensures Usable(ApplyCall(db, claim, call).0, job)
            <==> !(claim.jobId == job && (call.Finish? || call.LoseAuthority?) && ApplyCall(db, claim, call).1 == Done)
  {
    if call.Finish? {
      CompletionEndsExactly(db, claim, call.expected, job);
    } else {
      OtherCallsEndExactly(db, claim, call, job);
    }
  }

  lemma ExpiryEndsExactly(db: Db, expired: Uuid, job: Uuid)
    requires Usable(db, job) && Shaped(db.operations[job])
    ensures Usable(ExpireCredential(db, expired).0, job) <==> expired != job
  {
  }

  lemma RevocationEndsExactly(db: Db, owner: Did, session: SessionId, job: Uuid)
    requires Usable(db, job)
    ensures Usable(db.(sessions := Revoke(db.sessions, owner, session)), job)
            <==> (owner, session) != (db.operations[job].owner, db.operations[job].deletionSession.value)
  {
  }

  lemma LogoutEndsExactly(db: Db, owner: Did, job: Uuid)
    requires Usable(db, job) && DeletingRow(db, job)
    ensures Usable(LogoutEverywhere(db, owner).0, job) <==> !EndsCredential(db, ByService(LogoutAll(owner)), job)
  {
  }

  lemma OtherServiceEndsNone(db: Db, step: ServiceStep, job: Uuid)
    requires Usable(db, job) && !step.RevokeSession? && !step.ExpireBoundSession? && !step.LogoutAll?
    ensures Usable(ApplyService(db, step).0, job)
  {
  }

  lemma ServiceEndsExactly(db: Db, step: ServiceStep, job: Uuid)
    requires Usable(db, job) && Shaped(db.operations[job]) && DeletingRow(db, job)
    ensures Usable(ApplyService(db, step).0, job) <==> !EndsCredential(db, ByService(step), job)
  {
    if step.ExpireBoundSession? {
      ExpiryEndsExactly(db, step.job, job);
    } else if step.RevokeSession? {
      RevocationEndsExactly(db, step.owner, step.session, job);
    } else if step.LogoutAll? {
      LogoutEndsExactly(db, step.owner, job);
    } else {
      OtherServiceEndsNone(db, step, job);
    }
  }

  lemma StepEndsExactly(db: Db, step: Step, job: Uuid)
    requires Inv(db) && Usable(db, job)
    ensures Usable(Apply(db, step).0, job) <==> !EndsCredential(db, step, job)
  {
    match step
    case ByUser(user) => UsersEndExactly(db, user, job);
    case ByWorker(token, call) => if token in db.claims { CallsEndExactly(db, db.claims[token], call, job); }
    case ByService(service) =>
      assert Shaped(db.operations[job]) && DeletingRow(db, job);
      ServiceEndsExactly(db, service, job);
  }

  ghost predicate EndedAt(db: Db, steps: seq<Step>, i: nat, job: Uuid) {
    && i < |steps| && Usable(Run(db, steps[..i]), job)
    && EndsCredential(Run(db, steps[..i]), steps[i], job)
  }

  ghost predicate NeverEnded(db: Db, steps: seq<Step>, job: Uuid) {
    forall i :: 0 <= i < |steps| ==> !EndedAt(db, steps, i, job)
  }

  lemma NeverEndedOn(db: Db, steps: seq<Step>, job: Uuid)
    requires steps != []
    ensures NeverEnded(db, steps, job)
            <==> NeverEnded(db, steps[..|steps| - 1], job) && !EndedAt(db, steps, |steps| - 1, job)
  {
    var front := steps[..|steps| - 1];
    forall i | 0 <= i < |front|
      ensures EndedAt(db, front, i, job) <==> EndedAt(db, steps, i, job)
    {
      assert front[..i] == steps[..i];
    }
  }

  // One more step, in a state reached from an accepted job.
  lemma OneMoreStep(db: Db, step: Step, job: Uuid)
    requires Inv(db) && Inv(Apply(db, step).0) && PastIntent(db, job) && PastIntent(Apply(db, step).0, job)
    ensures Usable(Apply(db, step).0, job) <==> Usable(db, job) && !EndsCredential(db, step, job)
  {
    UsableOrGone(db, job);
    UsableOrGone(Apply(db, step).0, job);
    if Usable(db, job) {
      StepEndsExactly(db, step, job);
    } else {
      StepKeepsGone(db, step, job);
    }
  }

  // From an accepted job on: it has a usable credential at the end of a run exactly
  // when it had one at the start and no step of the run ended it.
  lemma {:induction false} CredentialLastsUntilEnded(db: Db, steps: seq<Step>, job: Uuid)
    requires Inv(db) && IsAccepted(db, job)
    ensures Usable(Run(db, steps), job) <==> Usable(db, job) && NeverEnded(db, steps, job)
    decreases |steps|
  {
    if steps != [] {
      var n := |steps| - 1;
      CredentialLastsUntilEnded(db, steps[..n], job);
      RunKeepsInv(db, steps[..n]);
      RunKeepsInv(db, steps);
      NeverAnIntentAgain(db, steps[..n], job);
      NeverAnIntentAgain(db, steps, job);
      OneMoreStep(Run(db, steps[..n]), steps[n], job);
      NeverEndedOn(db, steps, job);
    }
  }

  // --- What the refresh from a login does ----------------------------------

  // It replaces the credential exactly when the job is not waiting for one.
  lemma RefreshReplacesExactlyWhenNotStranded(db: Db, owner: Did, session: SessionId, job: Uuid)
    requires Inv(db) && IsAccepted(db, job) && db.operations[job].owner == owner
    requires (owner, session) in db.sessions
    ensures RefreshBoundOAuth(db, owner, session).1 == Done <==> !Stranded(db, job)
  {
    assert Staged(db.operations[job], db.lifecycles[owner]);
    assert Shaped(db.operations[job]);
  }

  // --- Loading the credential ----------------------------------------------

  // A deletion-only session belongs to the present generation and epoch of an owner
  // in deletion.
  ghost predicate CredentialsFit(lifecycles: map<Did, Lifecycle>, sessions: map<(Did, SessionId), Session>) {
    forall k :: k in sessions && sessions[k].state.DeletionOnly? ==> Fits(lifecycles, k, sessions[k])
  }

  predicate Fits(lifecycles: map<Did, Lifecycle>, k: (Did, SessionId), session: Session)
    requires session.state.DeletionOnly?
  {
    && k.0 in lifecycles && InDeletion(lifecycles[k.0])
    && session.ownerGeneration == lifecycles[k.0].generation - (if lifecycles[k.0].state.Deleting? then 1 else 0)
    && session.authEpoch == lifecycles[k.0].authEpoch
    && k.1 != "" && session.state.credentialGeneration > 0
  }

  // A step that takes an owner out of deletion leaves it no credential.
  lemma CancelKeepsFit(db: Db, expected: int, to: LifecycleState, job: Uuid, owner: Did)
    requires Inv(db) && CredentialsFit(db.lifecycles, db.sessions)
    ensures var after := CancelIntent(db, expected, to, job, owner).0; CredentialsFit(after.lifecycles, after.sessions)
  {
    var (after, outcome) := CancelIntent(db, expected, to, job, owner);
    if outcome == Done {
      CancelRevokesTheBound(db, expected, to, job, owner);
      OthersKeepFit(db, owner, after.lifecycles[owner], job, after.sessions);
    }
  }

  lemma CancelRevokesTheBound(db: Db, expected: int, to: LifecycleState, job: Uuid, owner: Did)
    requires CancelIntent(db, expected, to, job, owner).1 == Done
    ensures var after := CancelIntent(db, expected, to, job, owner).0;
      && job in db.operations && db.operations[job].owner == owner && db.operations[job].status.StatusIntent?
      && owner in after.lifecycles && after.lifecycles == db.lifecycles[owner := after.lifecycles[owner]]
      && forall k :: k in after.sessions && after.sessions[k].state.DeletionOnly? ==>
           k in db.sessions && after.sessions[k] == db.sessions[k]
           && (k.0 == owner ==> db.operations[job].reauthSession != Some(k.1))
  {
  }

  lemma DepartKeepsFit(db: Db, owner: Did, expected: int)
    requires Inv(db) && CredentialsFit(db.lifecycles, db.sessions)
    ensures var after := ProfileDeparture(db, owner, expected).0; CredentialsFit(after.lifecycles, after.sessions)
  {
    var (after, outcome) := ProfileDeparture(db, owner, expected);
    if outcome == Done {
      DepartureRevokesAll(db, owner, expected);
      assert forall k :: k in after.sessions && after.sessions[k].state.DeletionOnly?
              ==> Fits(db.lifecycles, k, db.sessions[k]);
    }
  }

  lemma DepartureRevokesAll(db: Db, owner: Did, expected: int)
    requires ProfileDeparture(db, owner, expected).1 == Done
    ensures var after := ProfileDeparture(db, owner, expected).0;
      && owner in after.lifecycles && after.lifecycles == db.lifecycles[owner := after.lifecycles[owner]]
      && forall k :: k in after.sessions && after.sessions[k].state.DeletionOnly? ==>
           k.0 != owner && k in db.sessions && after.sessions[k] == db.sessions[k]
  {
  }

  // The owner's one row goes, and with it the one session that it references.
  lemma OthersKeepFit(db: Db, owner: Did, l: Lifecycle, job: Uuid, sessions: map<(Did, SessionId), Session>)
    requires Inv(db) && CredentialsFit(db.lifecycles, db.sessions)
    requires job in db.operations && db.operations[job].owner == owner && db.operations[job].status.StatusIntent?
    requires forall k :: k in sessions && sessions[k].state.DeletionOnly? ==>
               k in db.sessions && sessions[k] == db.sessions[k]
                 && (k.0 == owner ==> db.operations[job].reauthSession != Some(k.1))
    ensures CredentialsFit(db.lifecycles[owner := l], sessions)
  {
    forall k | k in sessions && sessions[k].state.DeletionOnly?
      ensures Fits(db.lifecycles[owner := l], k, sessions[k])
    {
      assert Referenced(db.operations, k.0, k.1, db.sessions[k].state) && Fits(db.lifecycles, k, db.sessions[k]);
      assert Shaped(db.operations[job]);
    }
  }

  lemma BeginKeepsFit(db: Db, expected: int, intent: IntentRecord)
    requires Inv(db) && CredentialsFit(db.lifecycles, db.sessions)
    ensures var after := CreateIntent(db, expected, intent).0; CredentialsFit(after.lifecycles, after.sessions)
  {
    forall k | k in db.sessions && db.sessions[k].state.DeletionOnly?
      ensures CreateIntent(db, expected, intent).1 == Done ==> k.0 != intent.owner
    {
      assert Referenced(db.operations, k.0, k.1, db.sessions[k].state);
    }
  }

  lemma BindKeepsFit(db: Db, attempt: CallbackAttempt, job: Uuid, generation: int, proof: Digest)
    requires Inv(db) && CredentialsFit(db.lifecycles, db.sessions)
    ensures var after := BindReauthentication(db, attempt, job, generation, proof).0;
      CredentialsFit(after.lifecycles, after.sessions)
  {
    if BindReauthentication(db, attempt, job, generation, proof).1 == Done {
      assert Staged(db.operations[job], db.lifecycles[attempt.owner]);
    }
  }

  lemma RefreshKeepsFit(db: Db, owner: Did, session: SessionId)
    requires CredentialsFit(db.lifecycles, db.sessions)
    ensures var after := RefreshBoundOAuth(db, owner, session).0; CredentialsFit(after.lifecycles, after.sessions)
  {
  }

  lemma AcceptanceKeepsFit(
    db: Db, expected: int, request: AcceptanceRequest, binding: CredentialBinding, ids: seq<Uuid>)
    requires Inv(db) && CredentialsFit(db.lifecycles, db.sessions)
    ensures var after := Accept(db, expected, request, binding, ids).0; CredentialsFit(after.lifecycles, after.sessions)
  {
    var after := Accept(db, expected, request, binding, ids).0;
    forall k | k in after.sessions && after.sessions[k].state.DeletionOnly?
      ensures Fits(after.lifecycles, k, after.sessions[k])
    {
      assert Referenced(db.operations, k.0, k.1, db.sessions[k].state) && Fits(db.lifecycles, k, db.sessions[k]);
    }
  }

  lemma CallsKeepFit(db: Db, claim: ClaimedOperation, call: WorkerCall)
    requires Inv(db) && CredentialsFit(db.lifecycles, db.sessions)
    ensures CredentialsFit(ApplyCall(db, claim, call).0.lifecycles, ApplyCall(db, claim, call).0.sessions)
  {
  }

  lemma ActivationKeepsFit(db: Db, owner: Did, expected: int)
    requires CredentialsFit(db.lifecycles, db.sessions)
    ensures var after := Activate(db, owner, expected).0; CredentialsFit(after.lifecycles, after.sessions)
  {
  }

  lemma ServiceKeepsFit(db: Db, step: ServiceStep)
    requires CredentialsFit(db.lifecycles, db.sessions)
    ensures CredentialsFit(ApplyService(db, step).0.lifecycles, ApplyService(db, step).0.sessions)
  {
    if step.ActivateOwner? {
      ActivationKeepsFit(db, step.owner, step.expected);
    } else {
      OtherServiceKeepsFit(db, step);
    }
  }

  lemma OtherServiceKeepsFit(db: Db, step: ServiceStep)
    requires CredentialsFit(db.lifecycles, db.sessions) && !step.ActivateOwner?
    ensures CredentialsFit(ApplyService(db, step).0.lifecycles, ApplyService(db, step).0.sessions)
  {
  }

  lemma StepKeepsFit(db: Db, step: Step)
    requires Inv(db) && CredentialsFit(db.lifecycles, db.sessions)
    ensures CredentialsFit(Apply(db, step).0.lifecycles, Apply(db, step).0.sessions)
  {
    match step
    case ByUser(user) =>
      match user {
        case Begin(expected, intent) => BeginKeepsFit(db, expected, intent);
        case Cancel(expected, to, job, owner) => CancelKeepsFit(db, expected, to, job, owner);
        case Depart(owner, expected) => DepartKeepsFit(db, owner, expected);
        case Bind(attempt, job, generation, proof) => BindKeepsFit(db, attempt, job, generation, proof);
        case Confirm(expected, request, binding, ids) => AcceptanceKeepsFit(db, expected, request, binding, ids);
        case Relogin(owner, session) => RefreshKeepsFit(db, owner, session);
      }
    case ByWorker(token, call) => if token in db.claims { CallsKeepFit(db, db.claims[token], call); }
    case ByService(service) => ServiceKeepsFit(db, service);
  }

  lemma {:induction false} ReachableCredentialsFit(steps: seq<Step>)
    ensures Inv(Run(EMPTY, steps)) && CredentialsFit(Run(EMPTY, steps).lifecycles, Run(EMPTY, steps).sessions)
    decreases |steps|
  {
    ReachableStatesSatisfyInv(steps);
    if steps != [] {
      ReachableCredentialsFit(steps[..|steps| - 1]);
      StepKeepsFit(Run(EMPTY, steps[..|steps| - 1]), steps[|steps| - 1]);
    }
  }

  // In a reachable state the worker that holds a job's live lease reads a binding
  // whenever the job has one, and the coordinator loads it exactly while the job is
  // usable: a replaced credential is read and never loads.
  lemma LoadsExactlyWhileUsable(steps: seq<Step>, token: Uuid)
    requires token in Run(EMPTY, steps).claims
    requires var db := Run(EMPTY, steps);
      HoldsLease(db, db.claims[token]) && db.operations[db.claims[token].jobId].lease.value.expiresAt > db.now
    ensures var db := Run(EMPTY, steps);
      var claim := db.claims[token];
      var (credential, readable) := ReadCredential(db, claim);
      && readable == Done && credential.Some?
      && (LoadsCredential(db, claim, credential.value) <==> Usable(db, claim.jobId))
      && (forall binding :: LoadsCredential(db, claim, binding) ==> binding == credential.value)
  {
    ReachableCredentialsFit(steps);
    var db := Run(EMPTY, steps);
    var claim := db.claims[token];
    var op := db.operations[claim.jobId];
    assert Shaped(op) && LeaseIssued(op, claim.jobId, db.claims) && Staged(op, db.lifecycles[op.owner]);
    if Usable(db, claim.jobId) {
      var k := (op.owner, op.deletionSession.value);
      assert Referenced(db.operations, k.0, k.1, db.sessions[k].state) && Fits(db.lifecycles, k, db.sessions[k]);
    }
  }

  // --- Logging out everywhere ----------------------------------------------

  // What logout-all finds of an accepted job that can use its credential: exactly
  // the session that it must spare.
  lemma UsableIsExempt(db: Db, job: Uuid)
    requires Inv(db) && CredentialsFit(db.lifecycles, db.sessions) && Usable(db, job)
    ensures var op := db.operations[job];
      op.owner in db.lifecycles && ExemptSession(db, op.owner) == op.deletionSession
  {
    var op := db.operations[job];
    assert Shaped(op) && Staged(op, db.lifecycles[op.owner]);
    var k := (op.owner, op.deletionSession.value);
    assert Referenced(db.operations, k.0, k.1, db.sessions[k].state) && Fits(db.lifecycles, k, db.sessions[k]);
  }

  // In a reachable state logging anybody out everywhere, the owner included, takes
  // no accepted job its credential, and what the coordinator would have loaded for a
  // worker before it loads after it.
  lemma LogoutAllSparesTheCredential(steps: seq<Step>, owner: Did, job: Uuid)
    requires Usable(Run(EMPTY, steps), job)
    ensures var db := Run(EMPTY, steps);
      && Usable(LogoutEverywhere(db, owner).0, job)
      && !EndsCredential(db, ByService(LogoutAll(owner)), job)
      && forall claim: ClaimedOperation, binding :: claim.jobId == job ==>
           (LoadsCredential(LogoutEverywhere(db, owner).0, claim, binding) <==> LoadsCredential(db, claim, binding))
  {
    ReachableCredentialsFit(steps);
    var db := Run(EMPTY, steps);
    UsableIsExempt(db, job);
    LogoutEndsExactly(db, owner, job);
    forall claim: ClaimedOperation, binding | claim.jobId == job
      ensures LoadsCredential(LogoutEverywhere(db, owner).0, claim, binding) <==> LoadsCredential(db, claim, binding)
    {
      LogoutKeepsLoads(db, owner, claim, binding);
    }
  }

  lemma LogoutKeepsLoads(db: Db, owner: Did, claim: ClaimedOperation, binding: CredentialBinding)
    requires claim.jobId in db.operations && db.operations[claim.jobId].owner in db.lifecycles
    requires ExemptSession(db, db.operations[claim.jobId].owner) == db.operations[claim.jobId].deletionSession
    requires db.operations[claim.jobId].deletionSession.Some?
    ensures LoadsCredential(LogoutEverywhere(db, owner).0, claim, binding) <==> LoadsCredential(db, claim, binding)
  {
  }

  // --- Once refused, always refused ----------------------------------------

  lemma RemovalOnlyRevokes(db: Db, step: UserStep, k: (Did, SessionId))
    requires step.Cancel? || step.Depart? || step.Begin?
    requires k in ApplyUser(db, step).0.sessions && ApplyUser(db, step).0.sessions[k].state.DeletionOnly?
    ensures k in db.sessions && db.sessions[k] == ApplyUser(db, step).0.sessions[k]
    ensures ApplyUser(db, step).0.now == db.now
  {
  }

  lemma RemovalRestoresNone(db: Db, step: UserStep, job: Uuid)
    requires step.Cancel? || step.Depart? || step.Begin?
    requires job in db.used && job !in db.operations
    ensures job !in ApplyUser(db, step).0.operations
  {
  }

  lemma RemovalGrantsNoLoad(db: Db, step: UserStep, claim: ClaimedOperation, binding: CredentialBinding)
    requires Inv(db) && PastIntent(db, claim.jobId) && (step.Cancel? || step.Depart? || step.Begin?)
    requires LoadsCredential(ApplyUser(db, step).0, claim, binding)
    ensures LoadsCredential(db, claim, binding)
  {
    if claim.jobId !in db.operations {
      RemovalRestoresNone(db, step, claim.jobId);
      assert false;
    }
    var op := db.operations[claim.jobId];
    assert Staged(op, db.lifecycles[op.owner]);
    UsersCannotUndoAcceptance(db, step, claim.jobId);
    RemovalOnlyRevokes(db, step, (claim.owner, binding.session));
  }

  lemma BindingGrantsNoLoad(db: Db, step: UserStep, claim: ClaimedOperation, binding: CredentialBinding)
    requires Inv(db) && PastIntent(db, claim.jobId) && (step.Bind? || step.Relogin?)
    requires LoadsCredential(ApplyUser(db, step).0, claim, binding)
    ensures LoadsCredential(db, claim, binding)
  {
  }

  lemma AcceptanceGrantsNoLoad(
    db: Db, expected: int, request: AcceptanceRequest, bound: CredentialBinding, ids: seq<Uuid>,
    claim: ClaimedOperation, binding: CredentialBinding)
    requires Inv(db) && PastIntent(db, claim.jobId)
    requires LoadsCredential(Accept(db, expected, request, bound, ids).0, claim, binding)
    ensures LoadsCredential(db, claim, binding)
  {
    assert claim.jobId in db.operations;
    SecondAcceptanceSparesAccepted(db, expected, request, bound, ids, claim.jobId);
  }

  lemma CallsGrantNoLoad(
    db: Db, other: ClaimedOperation, call: WorkerCall, claim: ClaimedOperation, binding: CredentialBinding)
    requires Inv(db) && PastIntent(db, claim.jobId)
    requires LoadsCredential(ApplyCall(db, other, call).0, claim, binding)
    ensures LoadsCredential(db, claim, binding)
  {
  }

  lemma ClaimGrantsNoLoad(
    db: Db, job: Uuid, token: Uuid, duration: int, claim: ClaimedOperation, binding: CredentialBinding)
    requires ClaimsKnown(db.claims, db.used) && claim.leaseToken in db.claims
    requires LoadsCredential(ClaimDue(db, job, token, duration).0, claim, binding)
    ensures LoadsCredential(db, claim, binding)
  {
  }

  lemma OtherServiceGrantsNoLoad(db: Db, step: ServiceStep, claim: ClaimedOperation, binding: CredentialBinding)
    requires !step.Claim?
    requires LoadsCredential(ApplyService(db, step).0, claim, binding)
    ensures LoadsCredential(db, claim, binding)
  {
  }

  lemma ServiceGrantsNoLoad(db: Db, step: ServiceStep, claim: ClaimedOperation, binding: CredentialBinding)
    requires Inv(db) && claim.leaseToken in db.claims
    requires LoadsCredential(ApplyService(db, step).0, claim, binding)
    ensures LoadsCredential(db, claim, binding)
  {
    if step.Claim? {
      ClaimGrantsNoLoad(db, step.job, step.leaseToken, step.duration, claim, binding);
    } else {
      OtherServiceGrantsNoLoad(db, step, claim, binding);
    }
  }

  lemma StepGrantsNoLoad(db: Db, step: Step, claim: ClaimedOperation, binding: CredentialBinding)
    requires Inv(db) && PastIntent(db, claim.jobId) && claim.leaseToken in db.claims
    requires LoadsCredential(Apply(db, step).0, claim, binding)
    ensures LoadsCredential(db, claim, binding)
  {
    match step
    case ByUser(user) =>
      if user.Confirm? {
        AcceptanceGrantsNoLoad(db, user.expected, user.request, user.binding, user.ids, claim, binding);
      } else if user.Bind? || user.Relogin? {
        BindingGrantsNoLoad(db, user, claim, binding);
      } else {
        RemovalGrantsNoLoad(db, user, claim, binding);
      }
    case ByWorker(token, call) =>
      if token in db.claims {
        CallsGrantNoLoad(db, db.claims[token], call, claim, binding);
      }
    case ByService(service) => ServiceGrantsNoLoad(db, service, claim, binding);
  }

  // Once the coordinator has refused a claim its credential, it refuses it for
  // good: the calls an attempt can make end with the first refusal.
  lemma {:induction false} RefusedLoadStaysRefused(
    db: Db, steps: seq<Step>, claim: ClaimedOperation, binding: CredentialBinding)
    requires Inv(db) && PastIntent(db, claim.jobId) && claim.leaseToken in db.claims
    requires !LoadsCredential(db, claim, binding)
    ensures !LoadsCredential(Run(db, steps), claim, binding)
    decreases |steps|
  {
    if steps != [] {
      var front := steps[..|steps| - 1];
      RefusedLoadStaysRefused(db, front, claim, binding);
      RunKeepsInv(db, front);
      NeverAnIntentAgain(db, front, claim.jobId);
      ClaimsAreKept(db, front, claim.leaseToken);
      if LoadsCredential(Run(db, steps), claim, binding) {
        StepGrantsNoLoad(Run(db, front), steps[|steps| - 1], claim, binding);
      }
    }
  }
}
