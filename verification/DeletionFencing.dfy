// Lease fencing over whole runs: a superseded worker can do no more harm, and
// the attempt count is the number of recorded failures.
module DeletionFencing {
  import opened Wrappers
  import opened CraftskyCollections
  import opened DeletionTables
  import opened SafetyTombstones
  import opened SafetySchedule
  import opened DeletionTransactions
  import opened DeletionSteps
  import opened DeletionInvariant
  import opened DeletionPreservation
  import opened DeletionRuns

  // The calls that present a lease. Inventory and ReleaseKey do not: an inventory
  // only adds what is uncertain, and a key is released under its own lease.
  predicate PresentsLease(call: WorkerCall) {
    call.Fail? || call.ClaimKey? || call.Finish? || call.LoseAuthority?
  }

  ghost predicate Superseded(db: Db, token: Uuid) {
    token in db.used && forall job :: job in db.operations && db.operations[job].lease.Some?
                          ==> db.operations[job].lease.value.token != token
  }

  // Every presented lease of a superseded worker is refused and changes nothing.
  lemma SupersededCallsAreRefused(db: Db, token: Uuid, call: WorkerCall)
    requires Inv(db) && Superseded(db, token) && PresentsLease(call)
    ensures Apply(db, ByWorker(token, call)).1 != Done
    ensures Apply(db, ByWorker(token, call)).0 == db
    ensures token in db.claims ==> ReadCredential(db, db.claims[token]).0.None?
  {
  }

  lemma AcceptanceIssuesNoLease(
    db: Db, expected: int, request: AcceptanceRequest, binding: CredentialBinding, ids: seq<Uuid>, token: Uuid)
    requires Superseded(db, token)
    ensures Superseded(Accept(db, expected, request, binding, ids).0, token)
  {
  }

  lemma IntentsIssueNoLease(db: Db, step: UserStep, token: Uuid)
    requires Superseded(db, token) && !step.Confirm?
    ensures Superseded(ApplyUser(db, step).0, token)
  {
  }

  lemma UsersIssueNoLease(db: Db, step: UserStep, token: Uuid)
    requires Superseded(db, token)
    ensures Superseded(ApplyUser(db, step).0, token)
  {
    match step
    case Confirm(expected, request, binding, ids) =>
      AcceptanceIssuesNoLease(db, expected, request, binding, ids, token);
    case _ => IntentsIssueNoLease(db, step, token);
  }

  lemma WorkersIssueNoLease(db: Db, claim: ClaimedOperation, call: WorkerCall, token: Uuid)
    requires Superseded(db, token)
    ensures Superseded(ApplyCall(db, claim, call).0, token)
  {
  }

  lemma ClaimsIssueFreshLeases(db: Db, step: ServiceStep, token: Uuid)
    requires Superseded(db, token)
    ensures Superseded(ApplyService(db, step).0, token)
  {
  }

  lemma {:induction false} SupersededForever(db: Db, steps: seq<Step>, token: Uuid)
    requires Superseded(db, token)
    ensures Superseded(Run(db, steps), token)
    decreases |steps|
  {
    if steps != [] {
      var n := |steps| - 1;
      SupersededForever(db, steps[..n], token);
      var before := Run(db, steps[..n]);
      match steps[n]
      case ByUser(user) => UsersIssueNoLease(before, user, token);
      case ByWorker(other, call) =>
        if other in before.claims {
          WorkersIssueNoLease(before, before.claims[other], call, token);
        }
      case ByService(service) => ClaimsIssueFreshLeases(before, service, token);
    }
  }

  // The steps that end a worker's hold on `job`: another claim of it, a
  // credential refresh, its loss or expiry, a recorded failure or completion.
  ghost predicate Supersedes(db: Db, step: Step, job: Uuid) {
    && Apply(db, step).1 == Done
    && job in db.operations
    && match step
       case ByUser(user) => user.Relogin? && db.operations[job].owner == user.owner
       case ByWorker(token, call) =>
         (call.Fail? || call.Finish? || call.LoseAuthority?) && token in db.claims && db.claims[token].jobId == job
       case ByService(service) => (service.Claim? || service.ExpireBoundSession?) && service.job == job
  }

  // A lease row held by `token` can only be the row it was claimed for.
  lemma LeaseNamesItsJob(db: Db, job: Uuid, token: Uuid)
    requires Inv(db) && job in db.operations && db.operations[job].lease.Some?
    requires db.operations[job].lease.value.token == token
    ensures token in db.claims && db.claims[token].jobId == job
  {
    assert LeaseIssued(db.operations[job], job, db.claims);
  }

  // Nothing is held under the token once the row it was claimed for has let it go.
  lemma LettingGoSupersedes(db: Db, operations: map<Uuid, Operation>, token: Uuid)
    requires Inv(db) && token in db.claims
    requires operations.Keys <= db.operations.Keys
    requires forall other :: other in operations && other != db.claims[token].jobId
               ==> operations[other] == db.operations[other]
    requires var job := db.claims[token].jobId;
      job in operations && operations[job].lease.Some? ==> operations[job].lease.value.token != token
    ensures forall other :: other in operations && operations[other].lease.Some?
              ==> operations[other].lease.value.token != token
  {
    forall other | other in operations && operations[other].lease.Some?
      ensures operations[other].lease.value.token != token
    {
      if operations[other].lease.value.token == token && other != db.claims[token].jobId {
        LeaseNamesItsJob(db, other, token);
      }
    }
  }

  lemma RefreshSupersedes(db: Db, owner: Did, session: SessionId, token: Uuid)
    requires Inv(db) && token in db.claims && RefreshBoundOAuth(db, owner, session).1 == Done
    requires db.claims[token].jobId in db.operations && db.operations[db.claims[token].jobId].owner == owner
    ensures Superseded(RefreshBoundOAuth(db, owner, session).0, token)
  {
    LettingGoSupersedes(db, RefreshBoundOAuth(db, owner, session).0.operations, token);
  }

  lemma CallSupersedes(db: Db, call: WorkerCall, token: Uuid, other: Uuid)
    requires Inv(db) && token in db.claims && other in db.claims && db.claims[other].jobId == db.claims[token].jobId
    requires call.Fail? || call.Finish? || call.LoseAuthority?
    requires ApplyCall(db, db.claims[other], call).1 == Done
    ensures Superseded(ApplyCall(db, db.claims[other], call).0, token)
  {
    LettingGoSupersedes(db, ApplyCall(db, db.claims[other], call).0.operations, token);
  }

  lemma ClaimSupersedes(db: Db, newToken: Uuid, duration: int, token: Uuid)
    requires Inv(db) && token in db.claims && ClaimDue(db, db.claims[token].jobId, newToken, duration).1 == Done
    ensures Superseded(ClaimDue(db, db.claims[token].jobId, newToken, duration).0, token)
  {
    LettingGoSupersedes(db, ClaimDue(db, db.claims[token].jobId, newToken, duration).0.operations, token);
  }

  lemma ExpirySupersedes(db: Db, token: Uuid)
    requires Inv(db) && token in db.claims && ExpireCredential(db, db.claims[token].jobId).1 == Done
    ensures Superseded(ExpireCredential(db, db.claims[token].jobId).0, token)
  {
    LettingGoSupersedes(db, ExpireCredential(db, db.claims[token].jobId).0.operations, token);
  }

  lemma SupersedingEndsTheHold(db: Db, step: Step, token: Uuid)
    requires Inv(db) && token in db.claims
    requires Supersedes(db, step, db.claims[token].jobId)
    ensures Superseded(Apply(db, step).0, token)
  {
    match step
    case ByUser(user) => RefreshSupersedes(db, user.owner, user.session, token);
    case ByWorker(other, call) => CallSupersedes(db, call, token, other);
    case ByService(service) =>
      if service.Claim? {
        ClaimSupersedes(db, service.leaseToken, service.duration, token);
      } else {
        ExpirySupersedes(db, token);
      }
  }

  // Fencing: once some step supersedes the claim, every later call that presents
  // it is refused, whatever everyone did in between.
  lemma StaleWorkersAreFenced(db: Db, steps: seq<Step>, i: nat, token: Uuid, j: nat)
    requires Inv(db) && i < j < |steps|
    requires token in Run(db, steps[..i]).claims
    requires Supersedes(Run(db, steps[..i]), steps[i], Run(db, steps[..i]).claims[token].jobId)
    requires steps[j].ByWorker? && steps[j].token == token && PresentsLease(steps[j].call)
    ensures Apply(Run(db, steps[..j]), steps[j]).1 != Done
    ensures Apply(Run(db, steps[..j]), steps[j]).0 == Run(db, steps[..j])
  {
    RunKeepsInv(db, steps[..i]);
    var at := Run(db, steps[..i]);
    SupersedingEndsTheHold(at, steps[i], token);
    assert steps[..i + 1][..i] == steps[..i];
    assert steps[..j] == steps[..i + 1] + steps[i + 1..j];
    RunsCompose(db, steps[..i + 1], steps[i + 1..j]);
    SupersededForever(Run(db, steps[..i + 1]), steps[i + 1..j], token);
    RunKeepsInv(db, steps[..j]);
    SupersededCallsAreRefused(Run(db, steps[..j]), token, steps[j].call);
  }

  // So a call that succeeds is made by the last claimant: nobody claimed the row,
  // refreshed its credential or ended the lease since.
  lemma SuccessfulCallerIsLatestClaimant(db: Db, steps: seq<Step>, token: Uuid, j: nat)
    requires Inv(db) && j < |steps|
    requires steps[j].ByWorker? && steps[j].token == token && PresentsLease(steps[j].call)
    requires Apply(Run(db, steps[..j]), steps[j]).1 == Done
    ensures forall i :: 0 <= i < j && token in Run(db, steps[..i]).claims ==>
              !Supersedes(Run(db, steps[..i]), steps[i], Run(db, steps[..i]).claims[token].jobId)
  {
    forall i | 0 <= i < j && token in Run(db, steps[..i]).claims
      ensures !Supersedes(Run(db, steps[..i]), steps[i], Run(db, steps[..i]).claims[token].jobId)
    {
      if Supersedes(Run(db, steps[..i]), steps[i], Run(db, steps[..i]).claims[token].jobId) {
        StaleWorkersAreFenced(db, steps, i, token, j);
      }
    }
  }

  // --- Attempt count -------------------------------------------------------

  ghost predicate FailsJob(db: Db, step: Step, job: Uuid) {
    && step.ByWorker? && step.call.Fail? && step.token in db.claims
    && db.claims[step.token].jobId == job
    && Apply(db, step).1 == Done
  }

  ghost predicate RefreshesJob(db: Db, step: Step, job: Uuid) {
    && step.ByUser? && step.user.Relogin?
    && job in db.operations && db.operations[job].owner == step.user.owner
    && Apply(db, step).1 == Done
  }

  ghost function FailuresSince(db: Db, steps: seq<Step>, job: Uuid): nat {
    if steps == [] then 0
    else
      var n := |steps| - 1;
      FailuresSince(db, steps[..n], job) + if FailsJob(Run(db, steps[..n]), steps[n], job) then 1 else 0
  }

  lemma UserStepKeepsCount(db: Db, step: UserStep, job: Uuid)
    requires Inv(db) && IsAccepted(db, job) && !RefreshesJob(db, ByUser(step), job)
    ensures job in ApplyUser(db, step).0.operations
    ensures ApplyUser(db, step).0.operations[job].attemptCount == db.operations[job].attemptCount
  {
    if !step.Relogin? {
      UsersCannotUndoAcceptance(db, step, job);
    }
  }

  lemma ServiceStepKeepsCount(db: Db, step: ServiceStep, job: Uuid)
    requires job in db.operations
    ensures job in ApplyService(db, step).0.operations
    ensures ApplyService(db, step).0.operations[job].attemptCount == db.operations[job].attemptCount
  {
  }

  // What a call does to one accepted row's count and lease.
  ghost predicate RowMoves(db: Db, claim: ClaimedOperation, call: WorkerCall, after: Db, outcome: Outcome, job: Uuid)
    requires job in db.operations
  {
    && after.now == db.now && job in after.operations
    && var op, op' := db.operations[job], after.operations[job];
    if claim.jobId == job && call.Fail? && outcome == Done then
      && HoldsLease(db, claim) && op'.attemptCount == claim.attemptCount + 1
      && op'.nextAttemptAt == Some(call.nextAt) && op'.lease.None?
    else if claim.jobId == job && call.LoseAuthority? && outcome == Done then
      op'.attemptCount == op.attemptCount && !op'.Runnable() && op'.lease.None?
    else op' == op
  }

  lemma FailureMovesRow(db: Db, claim: ClaimedOperation, nextAt: Time, job: Uuid)
    requires job in db.operations
    ensures var (after, outcome) := RecordFailure(db, claim, nextAt, claim.attemptCount + 1);
      RowMoves(db, claim, Fail(nextAt), after, outcome, job)
  {
  }

  lemma LossMovesRow(db: Db, claim: ClaimedOperation, job: Uuid)
    requires job in db.operations
    ensures var (after, outcome) := LoseCredential(db, claim);
      RowMoves(db, claim, LoseAuthority, after, outcome, job)
  {
  }

  lemma CompletionMovesNoOtherRow(db: Db, claim: ClaimedOperation, expected: int, job: Uuid)
    requires job in db.operations && (claim.jobId == job ==> Complete(db, claim, expected).1 != Done)
    ensures var (after, outcome) := Complete(db, claim, expected);
      RowMoves(db, claim, Finish(expected), after, outcome, job)
  {
  }

  lemma KeyCallsMoveNoRow(db: Db, claim: ClaimedOperation, call: WorkerCall, job: Uuid)
    requires job in db.operations && (call.Inventory? || call.ClaimKey? || call.ReleaseKey?)
    ensures var (after, outcome) := ApplyCall(db, claim, call); RowMoves(db, claim, call, after, outcome, job)
  {
  }

  lemma CallMovesRow(db: Db, claim: ClaimedOperation, call: WorkerCall, job: Uuid)
    requires job in db.operations
    requires call.Finish? && claim.jobId == job ==> Complete(db, claim, call.expected).1 != Done
    ensures var (after, outcome) := ApplyCall(db, claim, call); RowMoves(db, claim, call, after, outcome, job)
  {
    match call
    case Fail(nextAt) => FailureMovesRow(db, claim, nextAt, job);
    case Finish(expected) => CompletionMovesNoOtherRow(db, claim, expected, job);
    case LoseAuthority => LossMovesRow(db, claim, job);
    case _ => KeyCallsMoveNoRow(db, claim, call, job);
  }

  // The worker's copy of the count is current, so a failure adds exactly one.
  lemma CallCounts(db: Db, token: Uuid, call: WorkerCall, job: Uuid)
    requires Inv(db) && IsAccepted(db, job) && !Completes(db, ByWorker(token, call), job)
    ensures var (after, step) := (ApplyWorker(db, token, call).0, ByWorker(token, call));
      && job in after.operations
      && after.operations[job].attemptCount == db.operations[job].attemptCount
         + if FailsJob(db, step, job) then 1 else 0
  {
    if token in db.claims {
      CallMovesRow(db, db.claims[token], call, job);
      assert LeaseIssued(db.operations[job], job, db.claims);
    }
  }

  lemma StepCounts(db: Db, step: Step, job: Uuid)
    requires Inv(db) && IsAccepted(db, job) && !RefreshesJob(db, step, job) && !Completes(db, step, job)
    ensures IsAccepted(Apply(db, step).0, job)
    ensures Apply(db, step).0.operations[job].attemptCount
         == db.operations[job].attemptCount + if FailsJob(db, step, job) then 1 else 0
  {
    AcceptanceOutlivesStep(db, step, job);
    match step
    case ByUser(user) => UserStepKeepsCount(db, user, job);
    case ByWorker(token, call) => CallCounts(db, token, call, job);
    case ByService(service) => ServiceStepKeepsCount(db, service, job);
  }

  // Between refreshes, the count rises by exactly the failures recorded.
  lemma {:induction false} AttemptCountIsFailures(db: Db, steps: seq<Step>, job: Uuid)
    requires Inv(db) && IsAccepted(db, job)
    requires forall i :: 0 <= i < |steps| ==>
               && !RefreshesJob(Run(db, steps[..i]), steps[i], job)
               && !Completes(Run(db, steps[..i]), steps[i], job)
    ensures IsAccepted(Run(db, steps), job)
    ensures Run(db, steps).operations[job].attemptCount
            == db.operations[job].attemptCount + FailuresSince(db, steps, job)
    decreases |steps|
  {
    if steps != [] {
      var n := |steps| - 1;
      var front := steps[..n];
      forall i | 0 <= i < n
        ensures !RefreshesJob(Run(db, front[..i]), front[i], job) && !Completes(Run(db, front[..i]), front[i], job)
      {
        assert front[..i] == steps[..i];
      }
      AttemptCountIsFailures(db, front, job);
      RunKeepsInv(db, front);
      var before := Run(db, front);
      StepCounts(before, steps[n], job);
    }
  }
}
