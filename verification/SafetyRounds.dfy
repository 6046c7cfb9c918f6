// Reconciliation over whole runs: with any other steps in between, keys that have
// been waiting are claimed before any key comes up again.
module SafetyRounds {
  import opened Wrappers
  import opened CraftskyCollections
  import opened DeletionTables
  import opened SafetyTombstones
  import opened SafetySchedule
  import opened DeletionTransactions
  import opened DeletionSteps
  import opened DeletionInvariant
  import opened DeletionPreservation

  // Unsettled and untouched since `start`: due then, or under a lease that had run out.
  predicate WaitingSince(t: Tombstone, start: Time) {
    match t.state
    case SafetyPending(at) => at <= start
    case Reconciling(lease) => lease.expiresAt <= start
    case Settled => false
  }

  function Waiting(tombstones: map<Uuid, Tombstone>, operation: ClaimedOperation, start: Time): set<Uuid> {
    set id | id in tombstones && InScope(tombstones[id], operation) && WaitingSince(tombstones[id], start)
  }

  // The step claims a key of this operation.
  predicate ClaimsKey(db: Db, step: Step, operation: ClaimedOperation) {
    && step.ByWorker? && step.call.ClaimKey? && step.token in db.claims
    && db.claims[step.token].jobId == operation.jobId
    && db.claims[step.token].owner == operation.owner
    && db.claims[step.token].ownerGeneration == operation.ownerGeneration
    && ClaimSafety(db, db.claims[step.token]).1.Some?
  }

  function KeyClaimed(db: Db, step: Step, operation: ClaimedOperation): Uuid
    requires ClaimsKey(db, step, operation)
  {
    ClaimSafety(db, db.claims[step.token]).1.value
  }

  // A key is claimed while none taken since `start` has outlived its lease.
  predicate NoneLapsed(db: Db, operation: ClaimedOperation, start: Time) {
    forall id :: id in db.tombstones && InScope(db.tombstones[id], operation) && db.tombstones[id].state.Reconciling?
      ==> db.tombstones[id].state.lease.expiresAt <= start || db.now < db.tombstones[id].state.lease.expiresAt
  }

  // What a round asks of a step: no lapse at a claim, and a release puts a key behind
  // those that waited before the round.
  ghost predicate InRound(db: Db, step: Step, operation: ClaimedOperation, start: Time) {
    && (step.ByWorker? && step.call.ReleaseKey? ==> start < step.call.nextAttemptAt)
    && (ClaimsKey(db, step, operation) ==> NoneLapsed(db, operation, start))
  }

  // While a key waits, a claim takes one that waits, and takes it out of the waiting.
  lemma ClaimTakesAWaitingKey(db: Db, step: Step, operation: ClaimedOperation, start: Time)
    requires ClaimsKey(db, step, operation) && NoneLapsed(db, operation, start) && start < db.now
    requires Waiting(db.tombstones, operation, start) != {}
    ensures KeyClaimed(db, step, operation) in Waiting(db.tombstones, operation, start)
    ensures Waiting(Apply(db, step).0.tombstones, operation, start)
            == Waiting(db.tombstones, operation, start) - {KeyClaimed(db, step, operation)}
  {
    var claim, id := db.claims[step.token], KeyClaimed(db, step, operation);
    var some :| some in Waiting(db.tombstones, operation, start);
    assert FirstDue(db.tombstones, claim, db.now, id);
    assert Due(db.tombstones[some], claim, db.now);
    if id != some {
      assert Precedes(id, db.tombstones[id].state, some, db.tombstones[some].state);
    }
  }

  ghost predicate NoMoreWaiting(db: Db, after: Db, operation: ClaimedOperation, start: Time) {
    && Waiting(after.tombstones, operation, start) <= Waiting(db.tombstones, operation, start)
    && db.now <= after.now
  }

  lemma AdoptionAddsNoWaiting(
    db: Db, job: Uuid, owner: Did, generation: int, ids: seq<Uuid>, operation: ClaimedOperation, start: Time)
    requires FreshIds(db.tombstones.Keys, ids) && |ids| >= |db.journal| && start < db.now
    requires Adopted(db, job, owner, generation, ids).Some?
    ensures Waiting(Adopted(db, job, owner, generation, ids).value, operation, start)
            <= Waiting(db.tombstones, operation, start)
  {
    var after := Adopted(db, job, owner, generation, ids).value;
    var rows := UncertainWrites(db.journal, owner, generation);
    forall id | id in Waiting(after, operation, start)
      ensures id in Waiting(db.tombstones, operation, start)
    {
      AdoptionOnlyAdds(db.tombstones, job, owner, rows, ids, db.now, id);
    }
  }

  lemma UsersAddNoWaiting(db: Db, step: UserStep, operation: ClaimedOperation, start: Time)
    requires start < db.now && db.tombstones.Keys <= db.used
    ensures NoMoreWaiting(db, ApplyUser(db, step).0, operation, start)
  {
    if step.Confirm? {
      var (after, outcome) := Accept(db, step.expected, step.request, step.binding, step.ids);
      if outcome == Done {
        var op := db.operations[step.request.jobId];
        AdoptionAddsNoWaiting(db, step.request.jobId, step.request.owner, op.ownerGeneration, step.ids, operation,
          start);
      }
    } else {
      OtherUsersAddNoWaiting(db, step, operation, start);
    }
  }

  lemma OtherUsersAddNoWaiting(db: Db, step: UserStep, operation: ClaimedOperation, start: Time)
    requires !step.Confirm?
    ensures NoMoreWaiting(db, ApplyUser(db, step).0, operation, start)
  {
  }

  lemma CallsAddNoWaiting(db: Db, claim: ClaimedOperation, call: WorkerCall, operation: ClaimedOperation, start: Time)
    requires start < db.now && db.tombstones.Keys <= db.used
    requires call.ReleaseKey? ==> start < call.nextAttemptAt
    ensures NoMoreWaiting(db, ApplyCall(db, claim, call).0, operation, start)
  {
    if call.Inventory? && AdoptUncertain(db, claim, call.ids).1 == Done {
      AdoptionAddsNoWaiting(db, claim.jobId, claim.owner, claim.ownerGeneration, call.ids, operation, start);
    }
  }

  lemma ServiceAddsNoWaiting(db: Db, step: ServiceStep, operation: ClaimedOperation, start: Time)
    requires start < db.now
    ensures NoMoreWaiting(db, ApplyService(db, step).0, operation, start)
  {
  }

  lemma StepAddsNoWaiting(db: Db, step: Step, operation: ClaimedOperation, start: Time)
    requires start < db.now && db.tombstones.Keys <= db.used && InRound(db, step, operation, start)
    ensures NoMoreWaiting(db, Apply(db, step).0, operation, start)
  {
    match step
    case ByUser(user) => UsersAddNoWaiting(db, user, operation, start);
    case ByWorker(token, call) =>
      if token in db.claims {
        CallsAddNoWaiting(db, db.claims[token], call, operation, start);
      }
    case ByService(service) => ServiceAddsNoWaiting(db, service, operation, start);
  }

  // --- Over runs -----------------------------------------------------------

  ghost predicate Round(db: Db, steps: seq<Step>, operation: ClaimedOperation, start: Time) {
    forall i :: 0 <= i < |steps| ==> InRound(Run(db, steps[..i]), steps[i], operation, start)
  }

  lemma RoundPrefix(db: Db, steps: seq<Step>, n: nat, operation: ClaimedOperation, start: Time)
    requires n <= |steps| && Round(db, steps, operation, start)
    ensures Round(db, steps[..n], operation, start)
  {
    forall i | 0 <= i < n
      ensures InRound(Run(db, steps[..n][..i]), steps[..n][i], operation, start)
    {
      assert steps[..n][..i] == steps[..i];
    }
  }

  ghost function KeyClaims(db: Db, steps: seq<Step>, operation: ClaimedOperation): nat {
    if steps == [] then 0
    else
      var n := |steps| - 1;
      KeyClaims(db, steps[..n], operation) + if ClaimsKey(Run(db, steps[..n]), steps[n], operation) then 1 else 0
  }

  lemma OneMoreStep(db: Db, step: Step, operation: ClaimedOperation, start: Time)
    requires start < db.now && db.tombstones.Keys <= db.used && InRound(db, step, operation, start)
    ensures NoMoreWaiting(db, Apply(db, step).0, operation, start)
    ensures var before, after := Waiting(db.tombstones, operation, start),
            Waiting(Apply(db, step).0.tombstones, operation, start);
      after == {} || |after| + (if ClaimsKey(db, step, operation) then 1 else 0) <= |before|
  {
    StepAddsNoWaiting(db, step, operation, start);
    var before, after := Waiting(db.tombstones, operation, start),
      Waiting(Apply(db, step).0.tombstones, operation, start);
    if after != {} && ClaimsKey(db, step, operation) {
      ClaimTakesAWaitingKey(db, step, operation, start);
    } else {
      SubsetIsSmaller(after, before);
    }
  }

  lemma SubsetIsSmaller(a: set<Uuid>, b: set<Uuid>)
    requires a <= b
    ensures |a| <= |b|
  {
    assert b == a + (b - a);
  }

  // Whatever else happens, adoption, settlement and other owners' steps included:
  // every claim of a round takes one key out of the waiting, so after as many claims
  // as there were waiting keys none is left waiting.
  lemma {:induction false} NoKeyStarves(db: Db, steps: seq<Step>, operation: ClaimedOperation, start: Time)
    requires Inv(db) && start < db.now && Round(db, steps, operation, start)
    ensures start < Run(db, steps).now
    ensures Waiting(Run(db, steps).tombstones, operation, start) <= Waiting(db.tombstones, operation, start)
    ensures Waiting(Run(db, steps).tombstones, operation, start) == {}
            || |Waiting(Run(db, steps).tombstones, operation, start)| + KeyClaims(db, steps, operation)
                 <= |Waiting(db.tombstones, operation, start)|
    decreases |steps|
  {
    if steps != [] {
      var n := |steps| - 1;
      RoundPrefix(db, steps, n, operation, start);
      NoKeyStarves(db, steps[..n], operation, start);
      RunKeepsInv(db, steps[..n]);
      OneMoreStep(Run(db, steps[..n]), steps[n], operation, start);
    }
  }

  lemma RoundSuffix(db: Db, steps: seq<Step>, m: nat, n: nat, operation: ClaimedOperation, start: Time)
    requires m <= n <= |steps| && Round(db, steps, operation, start)
    ensures Round(Run(db, steps[..m]), steps[m..n], operation, start)
  {
    forall k | 0 <= k < n - m
      ensures InRound(Run(Run(db, steps[..m]), steps[m..n][..k]), steps[m..n][k], operation, start)
    {
      LaterMoment(db, steps, m, n, k);
    }
  }

  lemma LaterMoment(db: Db, steps: seq<Step>, m: nat, n: nat, k: nat)
    requires m <= n <= |steps| && k < n - m
    ensures Run(Run(db, steps[..m]), steps[m..n][..k]) == Run(db, steps[..m + k])
    ensures steps[m..n][k] == steps[m + k]
  {
    assert steps[..m + k] == steps[..m] + steps[m..n][..k];
    RunsCompose(db, steps[..m], steps[m..n][..k]);
  }

  lemma WaitingLater(db: Db, steps: seq<Step>, operation: ClaimedOperation, start: Time, m: nat, n: nat)
    requires Inv(db) && start < db.now && Round(db, steps, operation, start) && m <= n <= |steps|
    ensures Inv(Run(db, steps[..m])) && start < Run(db, steps[..m]).now
    ensures Waiting(Run(db, steps[..n]).tombstones, operation, start)
            <= Waiting(Run(db, steps[..m]).tombstones, operation, start)
  {
    RoundPrefix(db, steps, m, operation, start);
    NoKeyStarves(db, steps[..m], operation, start);
    RunKeepsInv(db, steps[..m]);
    RoundSuffix(db, steps, m, n, operation, start);
    NoKeyStarves(Run(db, steps[..m]), steps[m..n], operation, start);
    assert steps[..n] == steps[..m] + steps[m..n];
    RunsCompose(db, steps[..m], steps[m..n]);
  }

  lemma ClaimedLeaves(db: Db, steps: seq<Step>, operation: ClaimedOperation, start: Time, i: nat)
    requires Inv(db) && start < db.now && Round(db, steps, operation, start) && i < |steps|
    requires ClaimsKey(Run(db, steps[..i]), steps[i], operation)
    requires Waiting(Run(db, steps[..i]).tombstones, operation, start) != {}
    ensures var id := KeyClaimed(Run(db, steps[..i]), steps[i], operation);
      && id in Waiting(Run(db, steps[..i]).tombstones, operation, start)
      && id !in Waiting(Run(db, steps[..i + 1]).tombstones, operation, start)
  {
    WaitingLater(db, steps, operation, start, i, i);
    assert InRound(Run(db, steps[..i]), steps[i], operation, start);
    ClaimTakesAWaitingKey(Run(db, steps[..i]), steps[i], operation, start);
    NextMoment(db, steps, i);
  }

  lemma NextMoment(db: Db, steps: seq<Step>, i: nat)
    requires i < |steps|
    ensures Run(db, steps[..i + 1]) == Apply(Run(db, steps[..i]), steps[i]).0
  {
    assert steps[..i + 1][..i] == steps[..i];
  }

  // And no key is claimed a second time while another one still waits.
  lemma NoKeyTwiceInARound(db: Db, steps: seq<Step>, operation: ClaimedOperation, start: Time, i: nat, j: nat)
    requires Inv(db) && start < db.now && Round(db, steps, operation, start) && i < j < |steps|
    requires ClaimsKey(Run(db, steps[..i]), steps[i], operation) && ClaimsKey(Run(db, steps[..j]), steps[j], operation)
    requires Waiting(Run(db, steps[..j]).tombstones, operation, start) != {}
    ensures KeyClaimed(Run(db, steps[..i]), steps[i], operation) != KeyClaimed(Run(db, steps[..j]), steps[j], operation)
  {
    WaitingLater(db, steps, operation, start, i, j);
    WaitingLater(db, steps, operation, start, i + 1, j);
    ClaimedLeaves(db, steps, operation, start, i);
    ClaimedLeaves(db, steps, operation, start, j);
  }
}
