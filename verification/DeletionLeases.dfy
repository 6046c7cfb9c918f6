// A lease is exclusive: until it runs out or is ended, the job stays in the hands
// it was claimed by.
module DeletionLeases {
  import opened Wrappers
  import opened DeletionTables
  import opened DeletionTransactions
  import opened DeletionSteps
  import opened DeletionInvariant
  import opened DeletionPreservation
  import opened DeletionRuns
  import opened DeletionFencing
  import opened DeletionRetry
  import opened DeletionWorkEffects

  ghost predicate Grants(db: Db, step: Step, job: Uuid) {
    step.ByService? && step.service.Claim? && step.service.job == job && Apply(db, step).1 == Done
  }

  // A failure, a completion, the loss or expiry of the credential, or its refresh.
  ghost predicate EndsLease(db: Db, step: Step, job: Uuid) {
    && Apply(db, step).1 == Done && job in db.operations
    && match step
       case ByUser(user) => user.Relogin? && db.operations[job].owner == user.owner
       case ByWorker(token, call) =>
         (call.Fail? || call.Finish? || call.LoseAuthority?) && token in db.claims && db.claims[token].jobId == job
       case ByService(service) => service.ExpireBoundSession? && service.job == job
  }

  ghost predicate NoneEnds(db: Db, steps: seq<Step>, job: Uuid) {
    forall k :: 0 <= k < |steps| ==> !EndsLease(Run(db, steps[..k]), steps[k], job)
  }

  predicate UnderLease(db: Db, job: Uuid, lease: Lease) {
    job in db.operations && db.operations[job].lease == Some(lease)
  }

  lemma UsersKeepLease(db: Db, step: UserStep, job: Uuid, lease: Lease)
    requires Inv(db) && UnderLease(db, job, lease) && !EndsLease(db, ByUser(step), job)
    ensures UnderLease(ApplyUser(db, step).0, job, lease)
  {
    if !step.Relogin? {
      UsersCannotUndoAcceptance(db, step, job);
    }
  }

  lemma CallsKeepLease(db: Db, token: Uuid, call: WorkerCall, job: Uuid, lease: Lease)
    requires Inv(db) && UnderLease(db, job, lease) && !EndsLease(db, ByWorker(token, call), job)
    ensures UnderLease(ApplyWorker(db, token, call).0, job, lease)
  {
    if token in db.claims {
      CallMovesRow(db, db.claims[token], call, job);
    }
  }

  lemma ServiceKeepsLease(db: Db, step: ServiceStep, job: Uuid, lease: Lease)
    requires UnderLease(db, job, lease) && !EndsLease(db, ByService(step), job)
    requires step.Claim? && step.job == job ==> db.now < lease.expiresAt
    ensures UnderLease(ApplyService(db, step).0, job, lease)
  {
  }

  lemma StepKeepsLease(db: Db, step: Step, job: Uuid, lease: Lease)
    requires Inv(db) && UnderLease(db, job, lease) && db.now < lease.expiresAt && !EndsLease(db, step, job)
    ensures UnderLease(Apply(db, step).0, job, lease)
  {
    assert Shaped(db.operations[job]);
    match step
    case ByUser(user) => UsersKeepLease(db, user, job, lease);
    case ByWorker(token, call) => CallsKeepLease(db, token, call, job, lease);
    case ByService(service) => ServiceKeepsLease(db, service, job, lease);
  }

  lemma CallsKeepClock(db: Db, claim: ClaimedOperation, call: WorkerCall)
    ensures ApplyCall(db, claim, call).0.now == db.now
  {
  }

  lemma ServiceNeverTurnsBack(db: Db, step: ServiceStep)
    ensures db.now <= ApplyService(db, step).0.now
  {
  }

  lemma TimeNeverTurnsBack(db: Db, step: Step)
    ensures db.now <= Apply(db, step).0.now
  {
    match step
    case ByUser(user) => UsersKeepClock(db, user);
    case ByWorker(token, call) => if token in db.claims { CallsKeepClock(db, db.claims[token], call); }
    case ByService(service) => ServiceNeverTurnsBack(db, service);
  }

  // Over any run in which no step ends it, a lease is on the row until it runs out.
  lemma {:induction false} LeaseIsKeptUntilItRunsOut(db: Db, steps: seq<Step>, job: Uuid, lease: Lease)
    requires Inv(db) && UnderLease(db, job, lease) && NoneEnds(db, steps, job)
    ensures Run(db, steps).now < lease.expiresAt ==> UnderLease(Run(db, steps), job, lease)
    decreases |steps|
  {
    if steps != [] {
      var n := |steps| - 1;
      var front := steps[..n];
      assert forall k :: 0 <= k < n ==> front[..k] == steps[..k];
      LeaseIsKeptUntilItRunsOut(db, front, job, lease);
      RunKeepsInv(db, front);
      TimeNeverTurnsBack(Run(db, front), steps[n]);
      if Run(db, front).now < lease.expiresAt {
        StepKeepsLease(Run(db, front), steps[n], job, lease);
      }
    }
  }

  lemma GrantsAre(db: Db, step: Step, job: Uuid)
    requires Grants(db, step, job)
    ensures job in db.operations && Waits(db.operations[job], db.now)
    ensures UnderLease(Apply(db, step).0, job, Lease(step.service.leaseToken, db.now + step.service.duration))
  {
    ClaimEffect(db, job, step.service.leaseToken, step.service.duration);
  }

  // Two claims of one job, with nothing in between that ends a lease of it: the
  // later one comes when the earlier one's time is up.
  lemma ClaimsDoNotOverlap(db: Db, first: Step, between: seq<Step>, second: Step, job: Uuid)
    requires Inv(db) && Grants(db, first, job)
    requires NoneEnds(Apply(db, first).0, between, job)
    requires Grants(Run(Apply(db, first).0, between), second, job)
    ensures db.now + first.service.duration <= Run(Apply(db, first).0, between).now
  {
    GrantsAre(db, first, job);
    StepKeepsInv(db, first);
    LeaseIsKeptUntilItRunsOut(Apply(db, first).0, between, job,
                              Lease(first.service.leaseToken, db.now + first.service.duration));
    GrantsAre(Run(Apply(db, first).0, between), second, job);
  }
}
