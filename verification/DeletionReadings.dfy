// What a service call reads before its transaction is what the transaction needs,
// whatever others did in between.
module DeletionReadings {
  import opened Wrappers
  import opened DeletionTables
  import opened DeletionTransactions
  import opened DeletionSteps
  import opened DeletionInvariant
  import opened DeletionPreservation
  import opened DeletionFencing
  import opened DeletionHistory
  import opened DeletionEffects
  import opened DeletionWorkEffects

  // --- Acceptance ----------------------------------------------------------

  // The request can be accepted in these rows, with the right generation and binding.
  ghost predicate RequestHolds(db: Db, request: AcceptanceRequest, ids: seq<Uuid>) {
    && request.owner in db.lifecycles
    && exists binding :: CanConfirm(db, db.lifecycles[request.owner].generation, request, binding, ids)
  }

  lemma BindingIsReadWhileItHolds(db: Db, request: AcceptanceRequest, ids: seq<Uuid>)
    requires RequestHolds(db, request, ids)
    ensures AcceptanceBinding(db, request).1 == Done
  {
  }

  lemma IntentGeneration(db: Db, job: Uuid)
    requires Inv(db) && IsIntent(db, job)
    ensures var op := db.operations[job];
      op.owner in db.lifecycles && db.lifecycles[op.owner].generation == op.ownerGeneration + 1
  {
    assert Staged(db.operations[job], db.lifecycles[db.operations[job].owner]);
  }

  // The binding read first and the generation read later are the ones that are
  // checked, if the request holds then.
  lemma ReadingsServeTheTransaction(
    db: Db, request: AcceptanceRequest, first: seq<Step>, second: seq<Step>, ids: seq<Uuid>)
    requires Inv(db) && AcceptanceBinding(db, request).1 == Done
    requires RequestHolds(Run(Run(db, first), second), request, ids)
    ensures var (middle, found) := (Run(db, first), Run(Run(db, first), second));
      && request.owner in middle.lifecycles
      && CanConfirm(found, middle.lifecycles[request.owner].generation, request,
                    AcceptanceBinding(db, request).0.value, ids)
  {
    var middle, found, job := Run(db, first), Run(Run(db, first), second), request.jobId;
    RunsCompose(db, first, second);
    BindingIsReadWhileItHolds(found, request, ids);
    BindingIsStable(db, request, first + second);
    BoundIntentIsFrozen(db, first + second, job);
    RunKeepsInv(db, first + second);
    IntentGeneration(db, job);
    IntentGeneration(found, job);
    GenerationRises(db, first, request.owner);
    GenerationRises(middle, second, request.owner);
    var binding :| CanConfirm(found, found.lifecycles[request.owner].generation, request, binding, ids);
    assert binding == AcceptanceBinding(found, request).0.value;
  }

  // --- Completion ----------------------------------------------------------

  // The claim can be completed in these rows, at the right generation.
  ghost predicate FinishIsDue(db: Db, claim: ClaimedOperation) {
    claim.owner in db.lifecycles && CanFinish(db, claim, db.lifecycles[claim.owner].generation)
  }

  // A claim that is held later was held before.
  lemma HeldBefore(db: Db, steps: seq<Step>, claim: ClaimedOperation)
    requires Inv(db) && claim.leaseToken in db.claims && db.claims[claim.leaseToken] == claim
    requires Holds(Run(db, steps), claim)
    ensures Holds(db, claim) && db.operations[claim.jobId].ownerGeneration == claim.ownerGeneration
  {
    if Superseded(db, claim.leaseToken) {
      SupersededForever(db, steps, claim.leaseToken);
    }
    var job :| job in db.operations && db.operations[job].lease.Some?
      && db.operations[job].lease.value.token == claim.leaseToken;
    assert LeaseIssued(db.operations[job], job, db.claims);
  }

  // The generation read for the claim is the one that is checked, if it can be
  // completed then.
  lemma GenerationServesTheCompletion(db: Db, steps: seq<Step>, claim: ClaimedOperation)
    requires Inv(db) && claim.leaseToken in db.claims && db.claims[claim.leaseToken] == claim
    requires FinishIsDue(Run(db, steps), claim)
    ensures claim.owner in db.lifecycles && db.lifecycles[claim.owner].state.Deleting?
    ensures CanFinish(Run(db, steps), claim, db.lifecycles[claim.owner].generation)
  {
    var found := Run(db, steps);
    HeldBefore(db, steps, claim);
    RunKeepsInv(db, steps);
    assert Staged(db.operations[claim.jobId], db.lifecycles[claim.owner]);
    assert Staged(found.operations[claim.jobId], found.lifecycles[claim.owner]);
    GenerationRises(db, steps, claim.owner);
  }
}
