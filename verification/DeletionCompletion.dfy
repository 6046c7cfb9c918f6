// Which accepted deletions can ever be completed, and what that takes.
module DeletionCompletion {
  import opened Wrappers
  import opened CraftskyCollections
  import opened DeletionTables
  import opened SafetyTombstones
  import opened SafetySchedule
  import opened DeletionTransactions
  import opened DeletionSteps
  import opened DeletionInvariant
  import opened DeletionPreservation
  import opened DeletionRuns
  import opened DeletionSafety

  // --- The last two steps --------------------------------------------------

  lemma FreshToken(used: set<Uuid>) returns (token: Uuid)
    ensures token !in used
  {
    token := 0;
    var above := used;
    while token in used
      invariant forall id :: id in used && id >= token ==> id in above
      decreases above
    {
      above := above - {token};
      token := token + 1;
    }
  }

  // Everything the final check asks for, in a state where the job waits to be claimed.
  ghost predicate ReadyToComplete(db: Db, job: Uuid) {
    && job in db.operations && Claimable(db, db.operations[job])
    && db.operations[job].deletionSession.Some? && db.operations[job].credentialGeneration.Some?
    && db.operations[job].owner in db.lifecycles && db.lifecycles[db.operations[job].owner].state.Deleting?
    && db.lifecycles[db.operations[job].owner].generation > 0
    && SafetyConverged(db, Scope(db, job)) && NoUntrackedWrite(db, Scope(db, job))
  }

  // The claim's fields that the final check looks at.
  function Scope(db: Db, job: Uuid): ClaimedOperation
    requires job in db.operations
  {
    ClaimOf(db.operations[job], job, Lease(0, 0))
  }

  lemma ClaimAndFinish(db: Db, job: Uuid) returns (steps: seq<Step>)
    requires ReadyToComplete(db, job)
    ensures job !in Run(db, steps).operations
    ensures forall step <- steps :: step.ByWorker? || (step.ByService? && step.service.Claim?)
  {
    var token := FreshToken(db.used);
    var claim := ByService(Claim(job, token, 1));
    var finish := ByWorker(token, Finish(db.lifecycles[db.operations[job].owner].generation));
    var claimed := Apply(db, claim).0;
    assert claimed == ClaimDue(db, job, token, 1).0;
    assert SafetyConverged(claimed, claimed.claims[token]);
    assert NoUntrackedWrite(claimed, claimed.claims[token]);
    steps := [claim, finish];
    assert steps[..1] == [claim] && [claim][..0] == [];
    assert Run(db, [claim]) == claimed;
    assert Complete(claimed, claimed.claims[token], finish.call.expected).1 == Done;
  }

  // --- Without any settlement ----------------------------------------------

  predicate Settles(step: Step) {
    step.ByService? && step.service.SettleRecord?
  }

  ghost predicate GoneWithoutSettlement(db: Db, job: Uuid, steps: seq<Step>) {
    job !in Run(db, steps).operations && forall step <- steps :: !Settles(step)
  }

  // A registered write of the deleted generation of which nobody knows the outcome.
  ghost predicate SomeUncertainWrite(journal: seq<Attempt>, owner: Did, generation: int) {
    exists row :: row in journal && Selected(row, owner, generation) && row.key.AtUri? && Registered(row.key.collection)
  }

  lemma {:induction false} NothingToAdopt(
    tombstones: map<Uuid, Tombstone>, operation: Uuid, owner: Did, rows: seq<Attempt>, ids: seq<Uuid>, now: Time)
    requires |ids| >= |rows|
    requires forall row <- rows :: !Adoptable(row, owner)
    requires AdoptRows(tombstones, operation, owner, rows, ids, now).Some?
    ensures AdoptRows(tombstones, operation, owner, rows, ids, now).value == tombstones
    decreases |rows|
  {
    if rows != [] {
      NothingToAdopt(tombstones, operation, owner, rows[..|rows| - 1], ids, now);
    }
  }

  lemma NothingUncertainIsReady(
    db: Db, expected: int, request: AcceptanceRequest, binding: CredentialBinding, ids: seq<Uuid>)
    requires Inv(db) && Accept(db, expected, request, binding, ids).1 == Done
    requires !SomeUncertainWrite(db.journal, request.owner, db.operations[request.jobId].ownerGeneration)
    ensures ReadyToComplete(Accept(db, expected, request, binding, ids).0, request.jobId)
  {
    var job := request.jobId;
    var op := db.operations[job];
    var after := Accept(db, expected, request, binding, ids).0;
    assert Shaped(op) && Staged(op, db.lifecycles[op.owner]);
    var rows := UncertainWrites(db.journal, op.owner, op.ownerGeneration);
    NothingToAdopt(db.tombstones, job, op.owner, rows, ids, db.now);
    assert after.tombstones == db.tombstones;
    forall id | id in after.tombstones
      ensures after.tombstones[id].operation != job
    {
      assert TombstoneOwned(db.tombstones[id], db.operations);
    }
    AdmittedIsRegistered();
  }

  // Exactly when an accepted deletion can be completed with no settlement from
  // outside: when no registered write of its generation was uncertain at acceptance.
  lemma CompletesAloneExactlyWhenNothingUncertain(
    db: Db, expected: int, request: AcceptanceRequest, binding: CredentialBinding, ids: seq<Uuid>)
    requires Inv(db) && Accept(db, expected, request, binding, ids).1 == Done
    ensures (exists steps :: GoneWithoutSettlement(Accept(db, expected, request, binding, ids).0, request.jobId, steps))
            <==> !SomeUncertainWrite(db.journal, request.owner, db.operations[request.jobId].ownerGeneration)
  {
    var job := request.jobId;
    var generation := db.operations[job].ownerGeneration;
    var after := Accept(db, expected, request, binding, ids).0;
    if SomeUncertainWrite(db.journal, request.owner, generation) {
      var row :| row in db.journal && Selected(row, request.owner, generation) && row.key.AtUri?
        && Registered(row.key.collection);
      forall steps | job !in Run(after, steps).operations
        ensures !GoneWithoutSettlement(after, job, steps)
      {
        UncertainWriteAtAcceptanceBlocksCompletion(db, expected, request, binding, ids, row, steps);
        var id :| ByService(SettleRecord(id)) in steps;
        assert Settles(ByService(SettleRecord(id)));
      }
    } else {
      NothingUncertainIsReady(db, expected, request, binding, ids);
      var steps := ClaimAndFinish(after, job);
      assert GoneWithoutSettlement(after, job, steps);
    }
  }

  // --- A write that is never tracked ---------------------------------------

  // A selected write of an accepted job without a tombstone that names it.
  ghost predicate Untracked(db: Db, job: Uuid, index: nat, row: Attempt) {
    && IsAccepted(db, job)
    && index < |db.journal| && db.journal[index] == row
    && Selected(row, db.operations[job].owner, db.operations[job].ownerGeneration)
    && Adoptable(row, db.operations[job].owner)
    && !HasSource(db.tombstones, job, row.source)
  }

  // What could make up for it: the write's outcome becomes known, or an object
  // is inventoried under the very same source.
  predicate Tracks(step: Step, job: Uuid, index: nat, source: string) {
    step.ByService?
    && (step.service == ResolveWrite(index)
        || (step.service.InventoryObject? && step.service.job == job && step.service.source == source))
  }

  // Once every adoptable row is inventoried, adoption adds nothing.
  lemma {:induction false} NothingNewToAdopt(
    tombstones: map<Uuid, Tombstone>, operation: Uuid, owner: Did, rows: seq<Attempt>, ids: seq<Uuid>, now: Time)
    requires |ids| >= |rows|
    requires forall row <- rows :: Adoptable(row, owner) ==> Inventoried(tombstones, operation, row.key)
    requires AdoptRows(tombstones, operation, owner, rows, ids, now).Some?
    ensures AdoptRows(tombstones, operation, owner, rows, ids, now).value == tombstones
    decreases |rows|
  {
    if rows != [] {
      NothingNewToAdopt(tombstones, operation, owner, rows[..|rows| - 1], ids, now);
    }
  }

  lemma SecondInventoryAddsNothing(db: Db, claim: ClaimedOperation, ids: seq<Uuid>)
    requires Inv(db) && AdoptUncertain(db, claim, ids).1 == Done
    ensures AdoptUncertain(db, claim, ids).0.tombstones == db.tombstones
  {
    var job := claim.jobId;
    var rows := UncertainWrites(db.journal, claim.owner, claim.ownerGeneration);
    forall row | row in rows && Adoptable(row, claim.owner)
      ensures Inventoried(db.tombstones, job, row.key)
    {
      assert Covered(db.tombstones, job, db.operations[job], row);
    }
    NothingNewToAdopt(db.tombstones, job, claim.owner, rows, ids, db.now);
  }

  lemma AcceptanceTracksNothing(
    db: Db, expected: int, request: AcceptanceRequest, binding: CredentialBinding, ids: seq<Uuid>,
    job: Uuid, index: nat, row: Attempt)
    requires Inv(db) && Untracked(db, job, index, row)
    ensures Untracked(Accept(db, expected, request, binding, ids).0, job, index, row)
  {
    assert DeletingRow(db, job);
    SecondAcceptanceSparesAccepted(db, expected, request, binding, ids, job);
    var (after, outcome) := Accept(db, expected, request, binding, ids);
    if outcome == Done && HasSource(after.tombstones, job, row.source) {
      var op := db.operations[request.jobId];
      var id :| id in after.tombstones && after.tombstones[id].operation == job
        && after.tombstones[id].source == row.source;
      AdoptionOnlyAdds(db.tombstones, request.jobId, op.owner,
        UncertainWrites(db.journal, op.owner, op.ownerGeneration), ids, db.now, id);
      assert false;
    }
  }

  ghost predicate OnlyDropsTombstones(db: Db, after: Db) {
    && after.journal == db.journal
    && forall id :: id in after.tombstones ==> id in db.tombstones && after.tombstones[id] == db.tombstones[id]
  }

  lemma CancelOnlyDrops(db: Db, expected: int, to: LifecycleState, job: Uuid, owner: Did)
    ensures OnlyDropsTombstones(db, CancelIntent(db, expected, to, job, owner).0)
  {
  }

  lemma DepartureOnlyDrops(db: Db, owner: Did, expected: int)
    ensures OnlyDropsTombstones(db, ProfileDeparture(db, owner, expected).0)
  {
  }

  lemma RemovalTracksNothing(db: Db, step: UserStep, job: Uuid, source: string)
    requires !HasSource(db.tombstones, job, source) && !step.Confirm?
    ensures !HasSource(ApplyUser(db, step).0.tombstones, job, source)
    ensures ApplyUser(db, step).0.journal == db.journal
  {
    if step.Cancel? {
      CancelOnlyDrops(db, step.expected, step.to, step.job, step.owner);
    } else if step.Depart? {
      DepartureOnlyDrops(db, step.owner, step.expected);
    }
  }

  lemma UsersTrackNothing(db: Db, step: UserStep, job: Uuid, index: nat, row: Attempt)
    requires Inv(db) && Untracked(db, job, index, row)
    ensures Untracked(ApplyUser(db, step).0, job, index, row)
  {
    match step
    case Confirm(expected, request, binding, ids) =>
      AcceptanceTracksNothing(db, expected, request, binding, ids, job, index, row);
    case Relogin(owner, session) =>
    case _ =>
      UsersCannotUndoAcceptance(db, step, job);
      RemovalTracksNothing(db, step, job, row.source);
  }

  lemma CallsTrackNothing(db: Db, claim: ClaimedOperation, call: WorkerCall, job: Uuid, index: nat, row: Attempt)
    requires Inv(db) && Untracked(db, job, index, row)
    ensures Untracked(ApplyCall(db, claim, call).0, job, index, row)
  {
    if call.Inventory? {
      if AdoptUncertain(db, claim, call.ids).1 == Done {
        SecondInventoryAddsNothing(db, claim, call.ids);
      }
    } else if call.Finish? {
      CompletionTracksNothing(db, claim, call.expected, job, index, row);
    } else {
      OtherCallsTrackNothing(db, claim, call, job, index, row);
    }
  }

  lemma CompletionTracksNothing(db: Db, claim: ClaimedOperation, expected: int, job: Uuid, index: nat, row: Attempt)
    requires Inv(db) && Untracked(db, job, index, row)
    ensures Untracked(Complete(db, claim, expected).0, job, index, row)
  {
    if claim.jobId == job {
      assert row in db.journal;
      FinalCheckSeesUntracked(db, claim, expected, job, index, row);
    } else {
      OtherCompletionTracksNothing(db, claim, expected, job, index, row);
    }
  }

  lemma OtherCompletionTracksNothing(
    db: Db, claim: ClaimedOperation, expected: int, job: Uuid, index: nat, row: Attempt)
    requires Untracked(db, job, index, row) && claim.jobId != job
    ensures Untracked(Complete(db, claim, expected).0, job, index, row)
  {
  }

  lemma FinalCheckSeesUntracked(db: Db, claim: ClaimedOperation, expected: int, job: Uuid, index: nat, row: Attempt)
    requires Untracked(db, job, index, row) && claim.jobId == job && row in db.journal
    ensures Complete(db, claim, expected).1 != Done
  {
  }

  lemma OtherCallsTrackNothing(db: Db, claim: ClaimedOperation, call: WorkerCall, job: Uuid, index: nat, row: Attempt)
    requires Untracked(db, job, index, row) && !call.Inventory? && !call.Finish?
    ensures Untracked(ApplyCall(db, claim, call).0, job, index, row)
  {
  }

  lemma ServiceTracksNothing(db: Db, step: ServiceStep, job: Uuid, index: nat, row: Attempt)
    requires Untracked(db, job, index, row) && !Tracks(ByService(step), job, index, row.source)
    ensures Untracked(ApplyService(db, step).0, job, index, row)
  {
  }

  lemma {:induction false} UntrackedStaysUntracked(db: Db, steps: seq<Step>, job: Uuid, index: nat, row: Attempt)
    requires Inv(db) && Untracked(db, job, index, row)
    ensures Untracked(Run(db, steps), job, index, row) || exists step <- steps :: Tracks(step, job, index, row.source)
    decreases |steps|
  {
    if steps != [] && forall step <- steps :: !Tracks(step, job, index, row.source) {
      var n := |steps| - 1;
      UntrackedStaysUntracked(db, steps[..n], job, index, row);
      RunKeepsInv(db, steps[..n]);
      var before := Run(db, steps[..n]);
      match steps[n]
      case ByUser(user) => UsersTrackNothing(before, user, job, index, row);
      case ByWorker(token, call) =>
        if token in before.claims {
          CallsTrackNothing(before, before.claims[token], call, job, index, row);
        }
      case ByService(service) =>
        assert steps[n] in steps;
        ServiceTracksNothing(before, service, job, index, row);
    }
  }

  // The second uncertain write of a key at acceptance: over every run the final
  // check keeps failing and the job stays, even once the key's tombstone is
  // settled, unless that very write's outcome becomes known or an object happens to
  // be inventoried under its source.
  lemma SecondWriteOfAKeyIsNeverTracked(
    db: Db, expected: int, request: AcceptanceRequest, binding: CredentialBinding, ids: seq<Uuid>, index: nat,
    steps: seq<Step>)
    requires Inv(db) && Accept(db, expected, request, binding, ids).1 == Done
    requires var generation := db.operations[request.jobId].ownerGeneration;
      && index < |db.journal| && Selected(db.journal[index], request.owner, generation)
      && Adoptable(db.journal[index], request.owner)
      && !NamedFirst(UncertainWrites(db.journal, request.owner, generation), request.owner, db.journal[index].source)
    requires forall step <- steps :: !Tracks(step, request.jobId, index, db.journal[index].source)
    ensures var later := Run(Accept(db, expected, request, binding, ids).0, steps);
      IsAccepted(later, request.jobId) && !NoUntrackedWrite(later, Scope(later, request.jobId))
  {
    var job, row := request.jobId, db.journal[index];
    var op := db.operations[job];
    var after := Accept(db, expected, request, binding, ids).0;
    AcceptKeeps(db, expected, request, binding, ids);
    assert forall id :: id in db.tombstones ==> TombstoneOwned(db.tombstones[id], db.operations);
    TombstonesAreNamedFirst(db.tombstones, job, op.owner, UncertainWrites(db.journal, op.owner, op.ownerGeneration),
      ids, db.now, row.source);
    UntrackedStaysUntracked(after, steps, job, index, row);
    var later := Run(after, steps);
    assert later.journal[index] in later.journal;
  }

  // --- With settlements from outside ---------------------------------------

  ghost predicate OnlyStatesMoved(a: Db, b: Db) {
    && b == a.(tombstones := b.tombstones) && b.tombstones.Keys == a.tombstones.Keys
    && forall id :: id in a.tombstones ==> b.tombstones[id] == a.tombstones[id].(state := b.tombstones[id].state)
  }

  ghost predicate Unsettled(tombstones: map<Uuid, Tombstone>, job: Uuid, pending: set<Uuid>) {
    forall id :: id in tombstones && tombstones[id].operation == job ==>
      tombstones[id].key.PdsRecord? && (id in pending || tombstones[id].state.Settled?)
  }

  lemma MovesCompose(a: Db, b: Db, c: Db)
    requires OnlyStatesMoved(a, b) && OnlyStatesMoved(b, c)
    ensures OnlyStatesMoved(a, c)
  {
  }

  lemma OneSettlement(db: Db, job: Uuid, pending: set<Uuid>, id: Uuid)
    requires Unsettled(db.tombstones, job, pending)
    ensures OnlyStatesMoved(db, Settle(db, id, true))
    ensures Unsettled(Settle(db, id, true).tombstones, job, pending - {id})
  {
  }

  lemma SettleEverything(db: Db, job: Uuid, pending: set<Uuid>) returns (steps: seq<Step>)
    requires Unsettled(db.tombstones, job, pending)
    ensures OnlyStatesMoved(db, Run(db, steps)) && Unsettled(Run(db, steps).tombstones, job, {})
    ensures forall step <- steps :: Settles(step)
    decreases pending
  {
    steps := [];
    if pending != {} {
      var id :| id in pending;
      var next := Settle(db, id, true);
      OneSettlement(db, job, pending, id);
      var rest := SettleEverything(next, job, pending - {id});
      RunFrom(db, ByService(SettleRecord(id)), rest);
      MovesCompose(db, next, Run(next, rest));
      steps := [ByService(SettleRecord(id))] + rest;
    }
  }

  lemma RunFrom(db: Db, step: Step, rest: seq<Step>)
    ensures Run(db, [step] + rest) == Run(Apply(db, step).0, rest)
  {
    assert [step][..0] == [];
    assert Run(db, [step]) == Apply(db, step).0;
    RunsCompose(db, [step], rest);
  }

  ghost predicate GoneWithoutTracking(db: Db, job: Uuid, steps: seq<Step>) {
    job !in Run(db, steps).operations && LearnsNothing(steps)
  }

  predicate LearnsNothing(steps: seq<Step>) {
    forall step <- steps :: step.ByService? ==> !step.service.ResolveWrite? && !step.service.InventoryObject?
  }

  ghost predicate EveryWriteNamedFirst(journal: seq<Attempt>, owner: Did, generation: int) {
    var rows := UncertainWrites(journal, owner, generation);
    forall row <- rows :: Adoptable(row, owner) ==> NamedFirst(rows, owner, row.source)
  }

  lemma NamedFirstIsReady(
    db: Db, expected: int, request: AcceptanceRequest, binding: CredentialBinding, ids: seq<Uuid>, settled: Db)
    requires Inv(db) && Accept(db, expected, request, binding, ids).1 == Done
    requires EveryWriteNamedFirst(db.journal, request.owner, db.operations[request.jobId].ownerGeneration)
    requires OnlyStatesMoved(Accept(db, expected, request, binding, ids).0, settled)
    requires Unsettled(settled.tombstones, request.jobId, {})
    ensures ReadyToComplete(settled, request.jobId)
  {
    var job := request.jobId;
    var op := db.operations[job];
    var after := Accept(db, expected, request, binding, ids).0;
    assert Shaped(op) && Staged(op, db.lifecycles[op.owner]);
    FinalCheckHoldsExactlyWhenNoKeyRepeats(db, expected, request, binding, ids, Scope(after, job));
    forall row <- settled.journal | Selected(row, op.owner, op.ownerGeneration) && OwnedKey(op.owner, row.key)
      && SchemaAdmits(row.key.collection)
      ensures HasSource(settled.tombstones, job, row.source)
    {
      var id :| id in after.tombstones && after.tombstones[id].operation == job
        && after.tombstones[id].source == row.source;
      assert settled.tombstones[id].source == row.source;
    }
  }

  lemma SettleAndFinish(
    db: Db, expected: int, request: AcceptanceRequest, binding: CredentialBinding, ids: seq<Uuid>)
    returns (steps: seq<Step>)
    requires Inv(db) && Accept(db, expected, request, binding, ids).1 == Done
    requires EveryWriteNamedFirst(db.journal, request.owner, db.operations[request.jobId].ownerGeneration)
    ensures GoneWithoutTracking(Accept(db, expected, request, binding, ids).0, request.jobId, steps)
  {
    var job, after := request.jobId, Accept(db, expected, request, binding, ids).0;
    AdoptedAreRecords(db, expected, request, binding, ids);
    var settle := SettleEverything(after, job, after.tombstones.Keys);
    NamedFirstIsReady(db, expected, request, binding, ids, Run(after, settle));
    var finish := ClaimAndFinish(Run(after, settle), job);
    RunsCompose(after, settle, finish);
    steps := settle + finish;
  }

  // Exactly when an accepted deletion can be completed with settlements but without
  // learning any write's outcome: when no key repeats among its uncertain writes.
  lemma CompletesOnceSettledExactlyWhenNoKeyRepeats(
    db: Db, expected: int, request: AcceptanceRequest, binding: CredentialBinding, ids: seq<Uuid>)
    requires Inv(db) && Accept(db, expected, request, binding, ids).1 == Done
    ensures (exists steps :: GoneWithoutTracking(Accept(db, expected, request, binding, ids).0, request.jobId, steps))
            <==> EveryWriteNamedFirst(db.journal, request.owner, db.operations[request.jobId].ownerGeneration)
  {
    var after := Accept(db, expected, request, binding, ids).0;
    if EveryWriteNamedFirst(db.journal, request.owner, db.operations[request.jobId].ownerGeneration) {
      var steps := SettleAndFinish(db, expected, request, binding, ids);
    } else {
      forall steps: seq<Step> | LearnsNothing(steps)
        ensures !GoneWithoutTracking(after, request.jobId, steps)
      {
        RepeatedKeyKeepsTheJob(db, expected, request, binding, ids, steps);
      }
    }
  }

  lemma RepeatedKeyKeepsTheJob(
    db: Db, expected: int, request: AcceptanceRequest, binding: CredentialBinding, ids: seq<Uuid>, steps: seq<Step>)
    requires Inv(db) && Accept(db, expected, request, binding, ids).1 == Done && LearnsNothing(steps)
    requires !EveryWriteNamedFirst(db.journal, request.owner, db.operations[request.jobId].ownerGeneration)
    ensures request.jobId in Run(Accept(db, expected, request, binding, ids).0, steps).operations
  {
    var owner := request.owner;
    var rows := UncertainWrites(db.journal, owner, db.operations[request.jobId].ownerGeneration);
    var row :| row in rows && Adoptable(row, owner) && !NamedFirst(rows, owner, row.source);
    var index :| 0 <= index < |db.journal| && db.journal[index] == row;
    SecondWriteOfAKeyIsNeverTracked(db, expected, request, binding, ids, index, steps);
  }

  lemma AdoptedAreRecords(
    db: Db, expected: int, request: AcceptanceRequest, binding: CredentialBinding, ids: seq<Uuid>)
    requires Inv(db) && Accept(db, expected, request, binding, ids).1 == Done
    ensures var after := Accept(db, expected, request, binding, ids).0;
      forall id :: id in after.tombstones && after.tombstones[id].operation == request.jobId
        ==> after.tombstones[id].key.PdsRecord?
  {
    var op := db.operations[request.jobId];
    var after := Accept(db, expected, request, binding, ids).0;
    assert forall other :: other in db.tombstones ==> TombstoneOwned(db.tombstones[other], db.operations);
    forall id | id in after.tombstones && after.tombstones[id].operation == request.jobId
      ensures after.tombstones[id].key.PdsRecord?
    {
      AdoptionOnlyAdds(db.tombstones, request.jobId, op.owner,
        UncertainWrites(db.journal, op.owner, op.ownerGeneration), ids, db.now, id);
    }
  }
}
