// How an intent gets stuck, and what that means for its acceptance.
module DeletionStranding {
  import opened Wrappers
  import opened CraftskyCollections
  import opened DeletionTables
  import opened SafetyTombstones
  import opened DeletionTransactions
  import opened DeletionSteps
  import opened DeletionInvariant
  import opened DeletionPreservation
  import opened DeletionRuns
  import opened DeletionCredential
  import opened DeletionHistory
  import opened DeletionStuck

  // --- Acceptance ----------------------------------------------------------

  // In a reachable state an otherwise valid acceptance succeeds exactly unless stuck.
  lemma AcceptanceSucceedsExactlyUnlessStuck(
    steps: seq<Step>, expected: int, request: AcceptanceRequest, binding: CredentialBinding, ids: seq<Uuid>)
    requires var db := Run(EMPTY, steps);
      && TransitionCheck(db, request.owner, expected, Deleting) == Done
      && AcceptCheck(db, request, binding) == Done
      && FreshIds(db.used, ids) && |ids| >= |db.journal|
      && Adopted(db, request.jobId, request.owner, db.operations[request.jobId].ownerGeneration, ids).Some?
    ensures var db := Run(EMPTY, steps);
      Accept(db, expected, request, binding, ids).1 == Done <==> !Stuck(db, request.jobId)
  {
    ReachableCredentialsFit(steps);
    var db := Run(EMPTY, steps);
    BoundIsReleasableOrStuck(db, request.jobId);
    PreservedExactlyUnlessStuck(db, request, binding);
  }

  lemma PreservedExactlyUnlessStuck(db: Db, request: AcceptanceRequest, binding: CredentialBinding)
    requires Inv(db) && CredentialsFit(db.lifecycles, db.sessions)
    requires request.owner in db.lifecycles && AcceptCheck(db, request, binding) == Done
    ensures PreservesCredential(db, request.owner, binding) <==> Releasable(db, request.jobId)
  {
    if Releasable(db, request.jobId) {
      var k := (request.owner, binding.session);
      assert Referenced(db.operations, k.0, k.1, db.sessions[k].state) && Fits(db.lifecycles, k, db.sessions[k]);
    }
  }

  // --- How an intent gets stuck --------------------------------------------

  // Its owner is logged out everywhere, or its bound session is revoked by itself.
  predicate Strands(db: Db, step: Step, job: Uuid)
    requires IsBound(db, job)
  {
    var op := db.operations[job];
    step == ByService(LogoutAll(op.owner)) || step == ByService(RevokeSession(op.owner, op.reauthSession.value))
  }

  lemma CancelTouchesItsOwner(db: Db, expected: int, to: LifecycleState, dropped: Uuid, owner: Did, k: (Did, SessionId))
    requires k in db.sessions && k.0 != owner
    ensures var after := CancelIntent(db, expected, to, dropped, owner).0;
      k in after.sessions && after.sessions[k] == db.sessions[k]
  {
  }

  lemma CancelRemovesOrSpares(db: Db, expected: int, to: LifecycleState, dropped: Uuid, owner: Did, job: Uuid)
    requires OneOperationPerOwner(db.operations) && IsIntent(CancelIntent(db, expected, to, dropped, owner).0, job)
    ensures IsIntent(db, job) && CancelIntent(db, expected, to, dropped, owner).0.operations[job] == db.operations[job]
    ensures CancelIntent(db, expected, to, dropped, owner).0 == db || db.operations[job].owner != owner
  {
  }

  lemma CancelStrandsNone(db: Db, expected: int, to: LifecycleState, dropped: Uuid, owner: Did, job: Uuid)
    requires OneOperationPerOwner(db.operations) && Releasable(db, job)
    requires IsBound(CancelIntent(db, expected, to, dropped, owner).0, job)
    ensures Releasable(CancelIntent(db, expected, to, dropped, owner).0, job)
  {
    CancelRemovesOrSpares(db, expected, to, dropped, owner, job);
    var op := db.operations[job];
    if op.owner != owner {
      CancelTouchesItsOwner(db, expected, to, dropped, owner, (op.owner, op.reauthSession.value));
    }
  }

  lemma DepartureTouchesItsOwner(db: Db, owner: Did, expected: int, k: (Did, SessionId))
    requires k in db.sessions && k.0 != owner
    ensures k in ProfileDeparture(db, owner, expected).0.sessions
    ensures ProfileDeparture(db, owner, expected).0.sessions[k] == db.sessions[k]
  {
  }

  lemma DepartureRemovesOrSpares(db: Db, owner: Did, expected: int, job: Uuid)
    requires OneOperationPerOwner(db.operations) && IsIntent(ProfileDeparture(db, owner, expected).0, job)
    requires job in db.operations && db.operations[job].owner == owner ==>
               owner in db.lifecycles && !db.lifecycles[owner].state.Active?
    ensures IsIntent(db, job) && ProfileDeparture(db, owner, expected).0.operations[job] == db.operations[job]
    ensures ProfileDeparture(db, owner, expected).0 == db || db.operations[job].owner != owner
  {
  }

  lemma DepartureStrandsNone(db: Db, owner: Did, expected: int, job: Uuid)
    requires Inv(db) && Releasable(db, job) && IsBound(ProfileDeparture(db, owner, expected).0, job)
    ensures Releasable(ProfileDeparture(db, owner, expected).0, job)
  {
    var op := db.operations[job];
    assert Staged(op, db.lifecycles[op.owner]);
    DepartureRemovesOrSpares(db, owner, expected, job);
    if op.owner != owner {
      DepartureTouchesItsOwner(db, owner, expected, (op.owner, op.reauthSession.value));
    }
  }

  lemma AcceptanceStrandsNone(
    db: Db, expected: int, request: AcceptanceRequest, binding: CredentialBinding, ids: seq<Uuid>, job: Uuid)
    requires Inv(db) && Releasable(db, job) && IsBound(Accept(db, expected, request, binding, ids).0, job)
    ensures Releasable(Accept(db, expected, request, binding, ids).0, job)
  {
  }

  lemma RefreshStrandsNone(db: Db, owner: Did, session: SessionId, job: Uuid)
    requires Releasable(db, job) && OneOperationPerOwner(db.operations)
    ensures Releasable(RefreshBoundOAuth(db, owner, session).0, job)
  {
  }

  lemma BindingStrandsNone(db: Db, step: UserStep, job: Uuid)
    requires Releasable(db, job) && db.operations.Keys <= db.used && (step.Begin? || step.Bind?)
    ensures Releasable(ApplyUser(db, step).0, job)
  {
  }

  lemma UsersStrandNone(db: Db, step: UserStep, job: Uuid)
    requires Inv(db) && Releasable(db, job) && IsBound(ApplyUser(db, step).0, job)
    ensures Releasable(ApplyUser(db, step).0, job)
  {
    match step
    case Cancel(expected, to, dropped, owner) => CancelStrandsNone(db, expected, to, dropped, owner, job);
    case Depart(owner, expected) => DepartureStrandsNone(db, owner, expected, job);
    case Confirm(expected, request, binding, ids) => AcceptanceStrandsNone(db, expected, request, binding, ids, job);
    case Relogin(owner, session) => RefreshStrandsNone(db, owner, session, job);
    case _ => BindingStrandsNone(db, step, job);
  }

  lemma CallsStrandNone(db: Db, claim: ClaimedOperation, call: WorkerCall, job: Uuid)
    requires Inv(db) && Releasable(db, job)
    ensures Releasable(ApplyCall(db, claim, call).0, job)
  {
    assert Shaped(db.operations[job]);
    assert Staged(db.operations[job], db.lifecycles[db.operations[job].owner]);
  }

  lemma LogoutStrandsExactly(db: Db, owner: Did, job: Uuid)
    requires Releasable(db, job) && db.operations[job].owner in db.lifecycles
    requires db.lifecycles[db.operations[job].owner].state.DeletionPending?
    ensures Releasable(LogoutEverywhere(db, owner).0, job) <==> owner != db.operations[job].owner
  {
  }

  lemma ServiceStrandsExactly(db: Db, step: ServiceStep, job: Uuid)
    requires Releasable(db, job) && !step.LogoutAll? && Shaped(db.operations[job])
    ensures Releasable(ApplyService(db, step).0, job) <==> !Strands(db, ByService(step), job)
  {
  }

  lemma StepStrandsExactly(db: Db, step: Step, job: Uuid)
    requires Inv(db) && Releasable(db, job) && IsBound(Apply(db, step).0, job)
    ensures Stuck(Apply(db, step).0, job) <==> Strands(db, step, job)
  {
    StepKeepsInv(db, step);
    BoundIsReleasableOrStuck(Apply(db, step).0, job);
    assert Shaped(db.operations[job]);
    match step
    case ByUser(user) => UsersStrandNone(db, user, job);
    case ByWorker(token, call) => if token in db.claims { CallsStrandNone(db, db.claims[token], call, job); }
    case ByService(service) =>
      if service.LogoutAll? {
        assert Staged(db.operations[job], db.lifecycles[db.operations[job].owner]);
        LogoutStrandsExactly(db, service.owner, job);
      } else {
        ServiceStrandsExactly(db, service, job);
      }
  }

  ghost predicate StrandedAt(db: Db, steps: seq<Step>, i: nat, job: Uuid) {
    i < |steps| && Releasable(Run(db, steps[..i]), job) && Strands(Run(db, steps[..i]), steps[i], job)
  }

  ghost predicate EverStranded(db: Db, steps: seq<Step>, job: Uuid) {
    exists i: nat :: StrandedAt(db, steps, i, job)
  }

  lemma EverStrandedOn(db: Db, steps: seq<Step>, job: Uuid)
    requires steps != []
    ensures EverStranded(db, steps, job)
            <==> EverStranded(db, steps[..|steps| - 1], job) || StrandedAt(db, steps, |steps| - 1, job)
  {
    var front := steps[..|steps| - 1];
    forall i: nat | i < |front|
      ensures StrandedAt(db, front, i, job) <==> StrandedAt(db, steps, i, job)
    {
      assert front[..i] == steps[..i];
    }
    if i: nat :| StrandedAt(db, front, i, job) {
      assert StrandedAt(db, steps, i, job);
    }
    if i: nat :| StrandedAt(db, steps, i, job) && i < |front| {
      assert StrandedAt(db, front, i, job);
    }
  }

  lemma StrandingKeepsTheRow(db: Db, step: Step, job: Uuid)
    requires IsBound(db, job) && Strands(db, step, job)
    ensures IsBound(Apply(db, step).0, job)
  {
  }

  lemma StepKeepsBound(db: Db, step: Step, job: Uuid)
    requires Inv(db) && IsBound(db, job)
    ensures PastIntent(Apply(db, step).0, job) || IsBound(Apply(db, step).0, job)
  {
    UsedStays(db, step);
    if IsIntent(Apply(db, step).0, job) {
      StepOnIntent(db, step, job);
    }
  }

  lemma BoundMayStrand(db: Db, step: Step, job: Uuid)
    requires Inv(db) && IsBound(db, job)
    ensures Stuck(Apply(db, step).0, job) <==> Stuck(db, job) || Strands(db, step, job)
  {
    BoundIsReleasableOrStuck(db, job);
    if Stuck(db, job) {
      StepKeepsStuck(db, step, job);
    } else if IsBound(Apply(db, step).0, job) {
      StepStrandsExactly(db, step, job);
    } else if Strands(db, step, job) {
      StrandingKeepsTheRow(db, step, job);
    }
  }

  // One more step on a bound intent, or on a job that is past it.
  lemma NextMayStrand(db: Db, step: Step, job: Uuid)
    requires Inv(db) && (PastIntent(db, job) || IsBound(db, job))
    ensures PastIntent(Apply(db, step).0, job) || IsBound(Apply(db, step).0, job)
    ensures Stuck(Apply(db, step).0, job) <==> Stuck(db, job) || (Releasable(db, job) && Strands(db, step, job))
  {
    if PastIntent(db, job) {
      StepKeepsPast(db, step, job);
    } else {
      StepKeepsBound(db, step, job);
      BoundMayStrand(db, step, job);
      BoundIsReleasableOrStuck(db, job);
    }
  }

  // Over any run from a bound intent: it ends up stuck exactly when, while its
  // session was still good, the owner was logged out everywhere or that session was
  // revoked.
  lemma {:induction false} StuckExactlyOnceStranded(db: Db, steps: seq<Step>, job: Uuid)
    requires Inv(db) && Releasable(db, job)
    ensures PastIntent(Run(db, steps), job) || IsBound(Run(db, steps), job)
    ensures Stuck(Run(db, steps), job) <==> EverStranded(db, steps, job)
    decreases |steps|
  {
    if steps == [] {
      BoundIsReleasableOrStuck(db, job);
    } else {
      var n := |steps| - 1;
      StuckExactlyOnceStranded(db, steps[..n], job);
      RunKeepsInv(db, steps[..n]);
      NextMayStrand(Run(db, steps[..n]), steps[n], job);
      EverStrandedOn(db, steps, job);
    }
  }
}
