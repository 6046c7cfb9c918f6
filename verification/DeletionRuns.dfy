// Whole runs: when an operation row exists, and that acceptance is final.
module DeletionRuns {
  import opened Wrappers
  import opened CraftskyCollections
  import opened DeletionTables
  import opened SafetyTombstones
  import opened SafetySchedule
  import opened DeletionTransactions
  import opened DeletionSteps
  import opened DeletionInvariant
  import opened DeletionPreservation

  // --- Lifecycle and operation row -----------------------------------------

  lemma OperationExistsExactlyInDeletion(steps: seq<Step>, owner: Did)
    ensures var db := Run(EMPTY, steps);
      && (HasOperation(db.operations, owner) <==> owner in db.lifecycles && InDeletion(db.lifecycles[owner]))
      && OneOperationPerOwner(db.operations)
      && (forall job :: job in db.operations && db.operations[job].owner == owner ==>
            var op, l := db.operations[job], db.lifecycles[owner];
            && (l.state.DeletionPending? ==> op.status.StatusIntent? && op.ownerGeneration == l.generation - 1)
            && (l.state.Deleting? ==> !op.status.StatusIntent? && op.ownerGeneration == l.generation - 2)
            && (l.state.Deleting? ==>
                  op.reauthSession.None? && op.proofHash.None? && op.didHash.None? && op.intentExpiresAt.None?))
  {
    ReachableStatesSatisfyInv(steps);
  }

  // --- Point of no return --------------------------------------------------

  predicate IsAccepted(db: Db, job: Uuid) {
    job in db.operations && !db.operations[job].status.StatusIntent?
  }

  ghost predicate Completes(db: Db, step: Step, job: Uuid) {
    && step.ByWorker? && step.call.Finish? && step.token in db.claims
    && db.claims[step.token].jobId == job
    && Apply(db, step).1 == Done
  }

  // The accepted row's identity and the owner's lifecycle; only logging out
  // everywhere moves the epoch on.
  ghost predicate SameAcceptance(a: Db, b: Db, job: Uuid)
    requires job in a.operations
  {
    var op := a.operations[job];
    && IsAccepted(b, job)
    && b.operations[job].owner == op.owner
    && b.operations[job].ownerGeneration == op.ownerGeneration
    && b.operations[job].acceptedAt == op.acceptedAt
    && op.owner in a.lifecycles && op.owner in b.lifecycles
    && b.lifecycles[op.owner] == a.lifecycles[op.owner].(authEpoch := b.lifecycles[op.owner].authEpoch)
    && a.lifecycles[op.owner].authEpoch <= b.lifecycles[op.owner].authEpoch
  }

  // The accepted row itself, and its owner's lifecycle, untouched.
  ghost predicate Untouched(a: Db, b: Db, job: Uuid)
    requires job in a.operations && a.operations[job].owner in a.lifecycles
  {
    && job in b.operations && b.operations[job] == a.operations[job]
    && a.operations[job].owner in b.lifecycles
    && b.lifecycles[a.operations[job].owner] == a.lifecycles[a.operations[job].owner]
  }

  ghost predicate DeletingRow(db: Db, job: Uuid) {
    && IsAccepted(db, job)
    && db.operations[job].owner in db.lifecycles
    && Staged(db.operations[job], db.lifecycles[db.operations[job].owner])
  }

  lemma IntentStepsSpareAccepted(db: Db, step: UserStep, job: Uuid)
    requires DeletingRow(db, job) && db.operations.Keys <= db.used
    requires step.Begin? || step.Cancel? || step.Bind?
    ensures Untouched(db, ApplyUser(db, step).0, job)
  {
  }

  lemma DepartureSparesAccepted(db: Db, owner: Did, expected: int, job: Uuid)
    requires DeletingRow(db, job)
    ensures Untouched(db, ProfileDeparture(db, owner, expected).0, job)
  {
  }

  lemma SecondAcceptanceSparesAccepted(
    db: Db, expected: int, request: AcceptanceRequest, binding: CredentialBinding, ids: seq<Uuid>, job: Uuid)
    requires DeletingRow(db, job)
    ensures Untouched(db, Accept(db, expected, request, binding, ids).0, job)
  {
  }

  // No cancel, expiry, profile departure, late binding, second acceptance or new
  // intent changes an accepted row or its owner's lifecycle.
  lemma UsersCannotUndoAcceptance(db: Db, step: UserStep, job: Uuid)
    requires Inv(db) && IsAccepted(db, job) && !step.Relogin?
    ensures Untouched(db, ApplyUser(db, step).0, job)
  {
    assert DeletingRow(db, job);
    match step
    case Depart(owner, expected) => DepartureSparesAccepted(db, owner, expected, job);
    case Confirm(expected, request, binding, ids) =>
      SecondAcceptanceSparesAccepted(db, expected, request, binding, ids, job);
    case _ => IntentStepsSpareAccepted(db, step, job);
  }

  lemma CallsSpareOtherAcceptance(db: Db, claim: ClaimedOperation, call: WorkerCall, job: Uuid)
    requires DeletingRow(db, job) && OneOperationPerOwner(db.operations)
    requires call.Finish? && claim.jobId == job ==> Complete(db, claim, call.expected).1 != Done
    ensures SameAcceptance(db, ApplyCall(db, claim, call).0, job)
  {
  }

  lemma LogoutSparesAcceptance(db: Db, owner: Did, job: Uuid)
    requires DeletingRow(db, job)
    ensures SameAcceptance(db, LogoutEverywhere(db, owner).0, job)
  {
  }

  lemma OtherServiceSparesAcceptance(db: Db, step: ServiceStep, job: Uuid)
    requires DeletingRow(db, job) && !step.LogoutAll?
    ensures SameAcceptance(db, ApplyService(db, step).0, job)
    ensures ApplyService(db, step).0.lifecycles[db.operations[job].owner] == db.lifecycles[db.operations[job].owner]
  {
  }

  lemma ServiceSparesAcceptance(db: Db, step: ServiceStep, job: Uuid)
    requires DeletingRow(db, job)
    ensures SameAcceptance(db, ApplyService(db, step).0, job)
    ensures !step.LogoutAll? ==>
              ApplyService(db, step).0.lifecycles[db.operations[job].owner] == db.lifecycles[db.operations[job].owner]
  {
    if step.LogoutAll? {
      LogoutSparesAcceptance(db, step.owner, job);
    } else {
      OtherServiceSparesAcceptance(db, step, job);
    }
  }

  lemma AcceptanceOutlivesStep(db: Db, step: Step, job: Uuid)
    requires Inv(db) && IsAccepted(db, job)
    ensures Completes(db, step, job) || SameAcceptance(db, Apply(db, step).0, job)
  {
    assert DeletingRow(db, job);
    match step
    case ByUser(user) => if !user.Relogin? { UsersCannotUndoAcceptance(db, user, job); }
    case ByWorker(token, call) =>
      if token in db.claims && !Completes(db, step, job) { CallsSpareOtherAcceptance(db, db.claims[token], call, job); }
    case ByService(service) => ServiceSparesAcceptance(db, service, job);
  }

  lemma {:induction false} AcceptanceIsFinalUntilCompletion(db: Db, steps: seq<Step>, job: Uuid)
    requires Inv(db) && IsAccepted(db, job)
    ensures SameAcceptance(db, Run(db, steps), job)
            || exists i :: 0 <= i < |steps| && Completes(Run(db, steps[..i]), steps[i], job)
    decreases |steps|
  {
    if steps == [] {
      assert Staged(db.operations[job], db.lifecycles[db.operations[job].owner]);
    } else {
      var n := |steps| - 1;
      var front := steps[..n];
      RunKeepsInv(db, front);
      AcceptanceIsFinalUntilCompletion(db, front, job);
      if SameAcceptance(db, Run(db, front), job) {
        AcceptanceOutlivesStep(Run(db, front), steps[n], job);
      } else {
        var i :| 0 <= i < n && Completes(Run(db, front[..i]), front[i], job);
        assert front[..i] == steps[..i] && front[i] == steps[i];
      }
    }
  }

  // --- A lost credential ---------------------------------------------------

  ghost predicate Stranded(db: Db, job: Uuid) {
    IsAccepted(db, job) && db.operations[job].status.StatusReauthRequired?
  }

  lemma RefreshNeverRevives(db: Db, owner: Did, session: SessionId, job: Uuid)
    requires Stranded(db, job)
    ensures Stranded(RefreshBoundOAuth(db, owner, session).0, job)
  {
  }

  lemma UsersNeverRevive(db: Db, step: UserStep, job: Uuid)
    requires Inv(db) && Stranded(db, job)
    ensures Stranded(ApplyUser(db, step).0, job)
  {
    if step.Relogin? {
      RefreshNeverRevives(db, step.owner, step.session, job);
    } else {
      UsersCannotUndoAcceptance(db, step, job);
    }
  }

  lemma CallsNeverRevive(db: Db, claim: ClaimedOperation, call: WorkerCall, job: Uuid)
    requires Stranded(db, job) && db.operations[job].lease.None?
    ensures Stranded(ApplyCall(db, claim, call).0, job)
  {
  }

  lemma ServiceNeverRevives(db: Db, step: ServiceStep, job: Uuid)
    requires Stranded(db, job)
    ensures Stranded(ApplyService(db, step).0, job)
  {
  }

  lemma StepNeverRevives(db: Db, step: Step, job: Uuid)
    requires Inv(db) && Stranded(db, job)
    ensures Stranded(Apply(db, step).0, job)
  {
    assert Shaped(db.operations[job]);
    match step
    case ByUser(user) => UsersNeverRevive(db, user, job);
    case ByWorker(token, call) => if token in db.claims { CallsNeverRevive(db, db.claims[token], call, job); }
    case ByService(service) => ServiceNeverRevives(db, service, job);
  }

  // An accepted job whose credential was lost or expired never runs again: no
  // sign-in, worker or other step of any run takes it out of that state, so it
  // is never completed and its owner stays in deletion.
  lemma {:induction false} LostCredentialStrandsTheDeletion(db: Db, steps: seq<Step>, job: Uuid)
    requires Inv(db) && Stranded(db, job)
    ensures Stranded(Run(db, steps), job)
    ensures var op := Run(db, steps).operations[job];
      op.owner in Run(db, steps).lifecycles && Run(db, steps).lifecycles[op.owner].state.Deleting?
    decreases |steps|
  {
    RunKeepsInv(db, steps);
    if steps != [] {
      var n := |steps| - 1;
      LostCredentialStrandsTheDeletion(db, steps[..n], job);
      RunKeepsInv(db, steps[..n]);
      StepNeverRevives(Run(db, steps[..n]), steps[n], job);
    }
    assert DeletingRow(Run(db, steps), job);
  }
}
