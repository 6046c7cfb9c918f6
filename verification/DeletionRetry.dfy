// How long a failing deletion waits: over any run, the attempt count buys at
// least the schedule's total delay.
module DeletionRetry {
  import opened Wrappers
  import opened CraftskyCollections
  import opened DeletionTables
  import opened DeletionTransactions
  import opened DeletionSteps
  import opened DeletionInvariant
  import opened DeletionPreservation
  import opened DeletionRuns
  import opened DeletionFencing
  import opened RetryPolicy

  // What one step can do to an accepted job's next attempt.
  predicate SameSchedule(a: Operation, b: Operation) {
    a.nextAttemptAt == b.nextAttemptAt && a.attemptCount == b.attemptCount
  }

  ghost predicate KeepsSchedule(db: Db, after: Db, job: Uuid)
    requires job in db.operations && job in after.operations
  {
    var op, op' := db.operations[job], after.operations[job];
    && SameSchedule(op, op')
    && (op'.lease.Some? ==>
          op'.lease == op.lease
          || (op'.lease.value.token !in db.used && op.nextAttemptAt.Some? && op.nextAttemptAt.value <= db.now))
  }

  predicate Restarted(db: Db, op: Operation) {
    op.attemptCount == 0 && op.nextAttemptAt == Some(db.now) && op.lease.None?
  }

  predicate Unscheduled(op: Operation) {
    !op.Runnable() && op.lease.None?
  }

  lemma RefreshRestartsOrKeeps(db: Db, owner: Did, session: SessionId, job: Uuid)
    requires job in db.operations
    ensures var after := RefreshBoundOAuth(db, owner, session).0;
      && after.now == db.now && job in after.operations
      && (after.operations[job] == db.operations[job]
          || (Restarted(db, after.operations[job]) && RefreshesJob(db, ByUser(Relogin(owner, session)), job)))
  {
  }

  lemma UsersKeepClock(db: Db, step: UserStep)
    ensures ApplyUser(db, step).0.now == db.now
  {
  }

  lemma UsersRestartOrKeep(db: Db, step: UserStep, job: Uuid)
    requires Inv(db) && IsAccepted(db, job)
    ensures var after := ApplyUser(db, step).0;
      && after.now == db.now && job in after.operations
      && (after.operations[job] == db.operations[job]
          || (Restarted(db, after.operations[job]) && RefreshesJob(db, ByUser(step), job)))
  {
    match step
    case Relogin(owner, session) => RefreshRestartsOrKeeps(db, owner, session, job);
    case _ =>
      UsersCannotUndoAcceptance(db, step, job);
      UsersKeepClock(db, step);
  }

  lemma ServiceKeepsSchedule(db: Db, step: ServiceStep, job: Uuid)
    requires job in db.operations
    ensures var after := ApplyService(db, step).0;
      && db.now <= after.now && job in after.operations
      && (KeepsSchedule(db, after, job) || Unscheduled(after.operations[job]))
  {
  }

  lemma CallsFailOrKeep(db: Db, token: Uuid, call: WorkerCall, job: Uuid)
    requires Inv(db) && IsAccepted(db, job) && !Completes(db, ByWorker(token, call), job)
    ensures var (after, step) := (ApplyWorker(db, token, call).0, ByWorker(token, call));
      && after.now == db.now && job in after.operations
      && (FailsJob(db, step, job) ==>
            var op, op' := db.operations[job], after.operations[job];
            && op.lease.Some? && op.lease.value.token == token && db.claims[token].attemptCount == op.attemptCount
            && op'.attemptCount == op.attemptCount + 1 && op'.nextAttemptAt == Some(call.nextAt) && op'.lease.None?)
      && (!FailsJob(db, step, job) ==> KeepsSchedule(db, after, job) || Unscheduled(after.operations[job]))
  {
    if token in db.claims {
      CallMovesRow(db, db.claims[token], call, job);
      assert LeaseIssued(db.operations[job], job, db.claims);
    }
  }

  // --- Failures recorded by the policy -------------------------------------

  // The worker read the clock while it held the claim it reports on, and took
  // the default policy's delay for the attempt it failed.
  ghost predicate FollowsPolicy(db: Db, steps: seq<Step>, k: nat)
    requires k < |steps|
  {
    var at := Run(db, steps[..k]);
    steps[k].ByWorker? && steps[k].call.Fail? && steps[k].token in at.claims ==>
      exists r: nat, hash: nat :: ReadByPolicy(db, steps, k, r, hash)
  }

  ghost predicate ReadByPolicy(db: Db, steps: seq<Step>, k: nat, r: nat, hash: nat)
    requires k < |steps| && steps[k].ByWorker? && steps[k].call.Fail? && steps[k].token in Run(db, steps[..k]).claims
  {
    && r <= k
    && steps[k].token in Run(db, steps[..r]).claims
    && steps[k].call.nextAt
         == Run(db, steps[..r]).now
           + NextDelay(DEFAULT, hash, Run(db, steps[..k]).claims[steps[k].token].attemptCount + 1)
  }

  ghost predicate PolicyRun(db: Db, steps: seq<Step>, job: Uuid) {
    forall k :: 0 <= k < |steps| ==> FollowsPolicy(db, steps, k) && !Completes(Run(db, steps[..k]), steps[k], job)
  }

  lemma PolicyRunPrefix(db: Db, steps: seq<Step>, job: Uuid)
    requires steps != [] && PolicyRun(db, steps, job)
    ensures PolicyRun(db, steps[..|steps| - 1], job)
  {
    var front := steps[..|steps| - 1];
    forall k | 0 <= k < |front|
      ensures FollowsPolicy(db, front, k) && !Completes(Run(db, front[..k]), front[k], job)
    {
      assert front[..k] == steps[..k];
      assert FollowsPolicy(db, steps, k);
      if front[k].ByWorker? && front[k].call.Fail? && front[k].token in Run(db, front[..k]).claims {
        var r: nat, hash: nat :| ReadByPolicy(db, steps, k, r, hash);
        assert front[..r] == steps[..r];
        assert ReadByPolicy(db, front, k, r, hash);
      }
    }
  }

  ghost predicate Waited(db: Db, job: Uuid, since: Time)
    requires job in db.operations
  {
    var op := db.operations[job];
    && since <= db.now
    && (op.Runnable() ==> op.nextAttemptAt.Some? && since + LeastWait(op.attemptCount) <= op.nextAttemptAt.value)
    && (op.lease.Some? ==> op.nextAttemptAt.Some? && op.nextAttemptAt.value <= db.now)
  }

  // Whenever the holder of the current lease could have read the clock, the
  // attempt was already due.
  ghost predicate DueAtEveryReading(db: Db, steps: seq<Step>, op: Operation) {
    op.lease.Some? && op.nextAttemptAt.Some? ==>
      forall r :: 0 <= r <= |steps| ==> DueAt(Run(db, steps[..r]), op.lease.value.token, op.nextAttemptAt.value)
  }

  predicate DueAt(db: Db, token: Uuid, at: Time) {
    token in db.claims ==> at <= db.now
  }

  // A lease, once handed out, is never handed out again or altered.
  lemma {:induction false} ClaimsAreKept(db: Db, steps: seq<Step>, token: Uuid)
    requires Inv(db) && token in db.claims
    ensures token in Run(db, steps).claims && Run(db, steps).claims[token] == db.claims[token]
    decreases |steps|
  {
    if steps != [] {
      var n := |steps| - 1;
      ClaimsAreKept(db, steps[..n], token);
      RunKeepsInv(db, steps[..n]);
      StepKeepsClaims(Run(db, steps[..n]), steps[n], token);
    }
  }

  lemma StepKeepsClaims(db: Db, step: Step, token: Uuid)
    requires token in db.claims && db.claims.Keys <= db.used
    ensures token in Apply(db, step).0.claims && Apply(db, step).0.claims[token] == db.claims[token]
  {
    match step
    case ByUser(user) => UsersKeepClaims(db, user);
    case ByWorker(other, call) => if other in db.claims { WorkersKeepClaims(db, db.claims[other], call); }
    case ByService(service) => ServiceKeepsClaims(db, service, token);
  }

  lemma ServiceKeepsClaims(db: Db, step: ServiceStep, token: Uuid)
    requires token in db.claims && db.claims.Keys <= db.used
    ensures token in ApplyService(db, step).0.claims && ApplyService(db, step).0.claims[token] == db.claims[token]
  {
  }

  lemma UsersKeepClaims(db: Db, step: UserStep)
    ensures ApplyUser(db, step).0.claims == db.claims
  {
  }

  lemma WorkersKeepClaims(db: Db, claim: ClaimedOperation, call: WorkerCall)
    ensures ApplyCall(db, claim, call).0.claims == db.claims
  {
  }

  lemma FreshLeaseWasNeverRead(db: Db, steps: seq<Step>, token: Uuid, r: nat)
    requires Inv(db) && r <= |steps| && token !in Run(db, steps).used
    ensures token !in Run(db, steps[..r]).claims
  {
    RunKeepsInv(db, steps);
    if token in Run(db, steps[..r]).claims {
      assert steps == steps[..r] + steps[r..];
      RunsCompose(db, steps[..r], steps[r..]);
      RunKeepsInv(db, steps[..r]);
      ClaimsAreKept(Run(db, steps[..r]), steps[r..], token);
    }
  }

  lemma KeptScheduleKeepsReadings(db: Db, steps: seq<Step>, before: Operation, after: Operation)
    requires Inv(db) && steps != []
    requires DueAtEveryReading(db, steps[..|steps| - 1], before)
    requires before.nextAttemptAt == after.nextAttemptAt
    requires after.lease.Some? ==>
               after.lease == before.lease || after.lease.value.token !in Run(db, steps[..|steps| - 1]).used
    requires after.lease.Some? && after.nextAttemptAt.Some? ==> after.nextAttemptAt.value <= Run(db, steps).now
    ensures DueAtEveryReading(db, steps, after)
  {
    if after.lease.Some? && after.nextAttemptAt.Some? {
      var front, token, at := steps[..|steps| - 1], after.lease.value.token, after.nextAttemptAt.value;
      forall r | 0 <= r <= |steps|
        ensures DueAt(Run(db, steps[..r]), token, at)
      {
        if r == |steps| {
          assert steps[..r] == steps;
        } else {
          assert front[..r] == steps[..r];
          if after.lease == before.lease {
            assert DueAt(Run(db, front[..r]), token, at);
          } else {
            FreshLeaseWasNeverRead(db, front, token, r);
          }
        }
      }
    }
  }

  lemma FailureWaits(db: Db, steps: seq<Step>, job: Uuid, since: Time)
    requires Inv(db) && steps != []
    requires var n := |steps| - 1;
      var before := Run(db, steps[..n]);
      && Inv(before) && IsAccepted(before, job) && Waited(before, job, since)
         && DueAtEveryReading(db, steps[..n], before.operations[job])
      && FollowsPolicy(db, steps, n) && FailsJob(before, steps[n], job) && !Completes(before, steps[n], job)
    ensures job in Run(db, steps).operations && Waited(Run(db, steps), job, since)
    ensures Run(db, steps).operations[job].lease.None?
  {
    var n := |steps| - 1;
    var before := Run(db, steps[..n]);
    CallsFailOrKeep(before, steps[n].token, steps[n].call, job);
    var op := before.operations[job];
    assert Staged(op, before.lifecycles[op.owner]);
    assert LeaseIssued(op, job, before.claims);
    var r: nat, hash: nat :| ReadByPolicy(db, steps, n, r, hash);
    assert steps[..n][..r] == steps[..r];
    assert DueAt(Run(db, steps[..n][..r]), op.lease.value.token, op.nextAttemptAt.value);
    DefaultDelayWindow(hash, op.attemptCount + 1);
  }

  // From any moment `since` at which the job had no lease and no failure behind
  // it, its next attempt is at least the schedule's total delay away: after n
  // failures, LeastWait(n). A refresh restarts the count, never the wait.
  lemma {:induction false} RetriesWait(db: Db, steps: seq<Step>, job: Uuid, since: Time)
    requires Inv(db) && IsAccepted(db, job)
    requires Waited(db, job, since) && db.operations[job].lease.None?
    requires PolicyRun(db, steps, job)
    ensures IsAccepted(Run(db, steps), job)
    ensures Waited(Run(db, steps), job, since)
    ensures DueAtEveryReading(db, steps, Run(db, steps).operations[job])
    decreases |steps|
  {
    if steps == [] {
    } else {
      var n := |steps| - 1;
      PolicyRunPrefix(db, steps, job);
      RetriesWait(db, steps[..n], job, since);
      RunKeepsInv(db, steps[..n]);
      assert FollowsPolicy(db, steps, n) && !Completes(Run(db, steps[..n]), steps[n], job);
      OneStepWaits(db, steps, job, since);
    }
  }

  lemma OneStepWaits(db: Db, steps: seq<Step>, job: Uuid, since: Time)
    requires Inv(db) && steps != []
    requires var n := |steps| - 1;
      var before := Run(db, steps[..n]);
      && Inv(before) && IsAccepted(before, job) && Waited(before, job, since)
      && DueAtEveryReading(db, steps[..n], before.operations[job])
      && FollowsPolicy(db, steps, n) && !Completes(before, steps[n], job)
    ensures IsAccepted(Run(db, steps), job) && Waited(Run(db, steps), job, since)
    ensures DueAtEveryReading(db, steps, Run(db, steps).operations[job])
  {
    var n := |steps| - 1;
    var before := Run(db, steps[..n]);
    AcceptanceOutlivesStep(before, steps[n], job);
    if FailsJob(before, steps[n], job) {
      FailureWaits(db, steps, job, since);
    } else {
      StepReschedules(before, steps[n], job);
      StepKeepsInv(before, steps[n]);
      OtherStepWaits(db, steps, before, Run(db, steps), job, since);
    }
  }

  lemma OtherStepWaits(db: Db, steps: seq<Step>, before: Db, after: Db, job: Uuid, since: Time)
    requires Inv(db) && steps != [] && before == Run(db, steps[..|steps| - 1]) && after == Run(db, steps)
    requires Inv(before) && Inv(after) && IsAccepted(before, job) && IsAccepted(after, job) && before.now <= after.now
    requires Waited(before, job, since) && DueAtEveryReading(db, steps[..|steps| - 1], before.operations[job])
    requires KeepsSchedule(before, after, job) || Restarted(before, after.operations[job])
             || Unscheduled(after.operations[job])
    ensures Waited(after, job, since) && DueAtEveryReading(db, steps, after.operations[job])
  {
    StaysWaited(before, after, job, since);
    if KeepsSchedule(before, after, job) {
      KeptScheduleKeepsReadings(db, steps, before.operations[job], after.operations[job]);
    }
  }

  lemma StepReschedules(db: Db, step: Step, job: Uuid)
    requires Inv(db) && IsAccepted(db, job) && !Completes(db, step, job) && !FailsJob(db, step, job)
    ensures var after := Apply(db, step).0;
      && db.now <= after.now && job in after.operations
      && (|| KeepsSchedule(db, after, job)
          || (Restarted(db, after.operations[job]) && RefreshesJob(db, step, job))
          || Unscheduled(after.operations[job]))
  {
    match step
    case ByUser(user) => UsersRestartOrKeep(db, user, job);
    case ByWorker(token, call) => CallsFailOrKeep(db, token, call, job);
    case ByService(service) => ServiceKeepsSchedule(db, service, job);
  }

  lemma StaysWaited(db: Db, after: Db, job: Uuid, since: Time)
    requires Inv(db) && IsAccepted(db, job) && IsAccepted(after, job) && job in after.operations
    requires Shaped(after.operations[job])
    requires Waited(db, job, since) && db.now <= after.now
    requires KeepsSchedule(db, after, job) || Restarted(db, after.operations[job]) || Unscheduled(after.operations[job])
    ensures Waited(after, job, since)
  {
    assert Shaped(db.operations[job]);
  }

  // A claim is granted only once the wait is over.
  lemma ClaimsComeAfterTheWait(db: Db, steps: seq<Step>, job: Uuid, since: Time, token: Uuid, duration: int)
    requires Inv(db) && IsAccepted(db, job) && Waited(db, job, since) && db.operations[job].lease.None?
    requires PolicyRun(db, steps, job)
    requires ClaimDue(Run(db, steps), job, token, duration).1 == Done
    ensures since + LeastWait(Run(db, steps).operations[job].attemptCount) <= Run(db, steps).now
  {
    RetriesWait(db, steps, job, since);
  }

  // --- One failure ---------------------------------------------------------

  predicate NotBefore(db: Db, job: Uuid, at: Time) {
    && IsAccepted(db, job)
    && (db.operations[job].Runnable() && db.operations[job].nextAttemptAt.Some?
       ==> at <= db.operations[job].nextAttemptAt.value)
  }

  // Nothing but another failure, a refresh or completion moves the retry time.
  ghost predicate LeavesRetry(db: Db, step: Step, job: Uuid) {
    !FailsJob(db, step, job) && !RefreshesJob(db, step, job) && !Completes(db, step, job)
  }

  lemma StepWaitsFor(db: Db, step: Step, job: Uuid, at: Time)
    requires Inv(db) && NotBefore(db, job, at) && LeavesRetry(db, step, job)
    ensures NotBefore(Apply(db, step).0, job, at)
  {
    AcceptanceOutlivesStep(db, step, job);
    StepReschedules(db, step, job);
    StepKeepsInv(db, step);
    StaysNotBefore(db, Apply(db, step).0, job, at);
  }

  lemma StaysNotBefore(db: Db, after: Db, job: Uuid, at: Time)
    requires Inv(db) && Inv(after) && NotBefore(db, job, at) && IsAccepted(after, job)
    requires KeepsSchedule(db, after, job) || Unscheduled(after.operations[job])
    ensures NotBefore(after, job, at)
  {
    assert Shaped(db.operations[job]) && Shaped(after.operations[job]);
  }

  lemma {:induction false} RunWaitsFor(db: Db, steps: seq<Step>, job: Uuid, at: Time)
    requires Inv(db) && NotBefore(db, job, at)
    requires forall i :: 0 <= i < |steps| ==> LeavesRetry(Run(db, steps[..i]), steps[i], job)
    ensures NotBefore(Run(db, steps), job, at)
    decreases |steps|
  {
    if steps != [] {
      var n := |steps| - 1;
      var front := steps[..n];
      forall i | 0 <= i < n
        ensures LeavesRetry(Run(db, front[..i]), front[i], job)
      {
        assert front[..i] == steps[..i];
      }
      RunWaitsFor(db, front, job, at);
      RunKeepsInv(db, front);
      StepWaitsFor(Run(db, front), steps[n], job, at);
    }
  }

  lemma FailureSetsRetry(db: Db, failure: Step, job: Uuid, readAt: Time, hash: nat)
    requires Inv(db) && IsAccepted(db, job) && FailsJob(db, failure, job)
    requires failure.call.nextAt == readAt + NextDelay(DEFAULT, hash, db.claims[failure.token].attemptCount + 1)
    ensures NotBefore(Apply(db, failure).0, job, readAt + 30 * SECOND)
  {
    CallsFailOrKeep(db, failure.token, failure.call, job);
    AcceptanceOutlivesStep(db, failure, job);
    DefaultDelayWindow(hash, db.claims[failure.token].attemptCount + 1);
  }

  lemma ClaimComesNoSooner(db: Db, job: Uuid, at: Time, token: Uuid, duration: int)
    requires NotBefore(db, job, at) && ClaimDue(db, job, token, duration).1 == Done
    ensures at <= db.now
  {
  }

  // A failure recorded by the default policy: unless a refresh intervenes, the
  // next claim of the job comes at least 30 seconds after the worker read the clock.
  lemma FailureIsFollowedByAWait(
    db: Db, failure: Step, after: Db, job: Uuid, readAt: Time, hash: nat, steps: seq<Step>, token: Uuid, duration: int)
    requires Inv(db) && IsAccepted(db, job) && FailsJob(db, failure, job) && after == Apply(db, failure).0
    requires failure.call.nextAt == readAt + NextDelay(DEFAULT, hash, db.claims[failure.token].attemptCount + 1)
    requires forall i :: 0 <= i < |steps| ==> LeavesRetry(Run(after, steps[..i]), steps[i], job)
    requires ClaimDue(Run(after, steps), job, token, duration).1 == Done
    ensures readAt + 30 * SECOND <= Run(after, steps).now
  {
    FailureSetsRetry(db, failure, job, readAt, hash);
    StepKeepsInv(db, failure);
    RunWaitsFor(after, steps, job, readAt + 30 * SECOND);
    ClaimComesNoSooner(Run(after, steps), job, readAt + 30 * SECOND, token, duration);
  }
}
