// What a completed deletion guarantees about writes of unknown outcome.
module DeletionSafety {
  import opened Wrappers
  import opened CraftskyCollections
  import opened DeletionTables
  import opened SafetyTombstones
  import opened SafetySchedule
  import opened DeletionTransactions
  import opened DeletionSteps
  import opened DeletionInvariant
  import opened DeletionPreservation
  import opened DeletionRuns

  // --- At completion -------------------------------------------------------

  // Every write of the originating generation that is still uncertain and lies in
  // any of the six registered collections has a settled tombstone, although the
  // final check itself names four collections.
  lemma CompletionIsSafe(db: Db, claim: ClaimedOperation, expected: int, row: Attempt)
    requires Inv(db) && Complete(db, claim, expected).1 == Done
    requires row in db.journal && Selected(row, claim.owner, claim.ownerGeneration)
    ensures OwnedKey(claim.owner, row.key)
    ensures Registered(row.key.collection) ==>
              exists id :: id in db.tombstones && SameIdentity(db.tombstones[id], claim.jobId, PdsRecord(row.key))
                           && db.tombstones[id].state.Settled?
  {
    var op := db.operations[claim.jobId];
    assert Staged(op, db.lifecycles[op.owner]);
    assert Covered(db.tombstones, claim.jobId, op, row);
    if Registered(row.key.collection) {
      var id :| id in db.tombstones && SameIdentity(db.tombstones[id], claim.jobId, PdsRecord(row.key));
      assert TombstoneOwned(db.tombstones[id], db.operations);
      assert OfOperation(db.tombstones[id], claim);
    }
  }

  // Completion takes the operation, its tombstones and every deletion credential
  // of the owner away together.
  lemma CompletionLeavesNoResidue(db: Db, claim: ClaimedOperation, expected: int)
    requires Inv(db) && Complete(db, claim, expected).1 == Done
    ensures var after := Complete(db, claim, expected).0;
      && !HasOperation(after.operations, claim.owner)
      && after.lifecycles[claim.owner].state.Departed?
      && (forall id :: id in after.tombstones ==> after.tombstones[id].owner != claim.owner)
      && (forall k :: k in after.sessions && k.0 == claim.owner ==> after.sessions[k].state.RevocationPending?)
  {
    var after := Complete(db, claim, expected).0;
    forall id | id in after.tombstones
      ensures after.tombstones[id].owner != claim.owner
    {
      assert TombstoneOwned(db.tombstones[id], db.operations);
    }
  }

  // --- Over runs -----------------------------------------------------------

  ghost predicate Blocking(db: Db, id: Uuid, job: Uuid, uri: RecordUri) {
    && IsAccepted(db, job)
    && id in db.tombstones
    && SameIdentity(db.tombstones[id], job, PdsRecord(uri))
    && !db.tombstones[id].state.Settled?
  }

  ghost predicate KeepsTombstone(a: Db, b: Db, id: Uuid)
    requires id in a.tombstones
  {
    id in b.tombstones && b.tombstones[id] == a.tombstones[id]
  }

  // Cancel and departure remove intents only, and tombstones belong to accepted rows.
  lemma IntentRemovalKeepsTombstone(db: Db, step: UserStep, id: Uuid)
    requires id in db.tombstones && IsAccepted(db, db.tombstones[id].operation)
    requires step.Cancel? || step.Depart?
    ensures KeepsTombstone(db, ApplyUser(db, step).0, id)
  {
  }

  lemma AcceptanceKeepsTombstone(
    db: Db, expected: int, request: AcceptanceRequest, binding: CredentialBinding, ids: seq<Uuid>, id: Uuid)
    requires id in db.tombstones && db.tombstones.Keys <= db.used
    ensures KeepsTombstone(db, Accept(db, expected, request, binding, ids).0, id)
  {
    if Accept(db, expected, request, binding, ids).1 == Done {
      var op := db.operations[request.jobId];
      AdoptionOnlyAdds(db.tombstones, request.jobId, op.owner,
        UncertainWrites(db.journal, op.owner, op.ownerGeneration), ids, db.now, id);
    }
  }

  lemma UsersKeepTombstone(db: Db, step: UserStep, id: Uuid)
    requires id in db.tombstones && db.tombstones.Keys <= db.used
    requires IsAccepted(db, db.tombstones[id].operation)
    ensures KeepsTombstone(db, ApplyUser(db, step).0, id)
  {
    match step
    case Cancel(_, _, _, _) => IntentRemovalKeepsTombstone(db, step, id);
    case Depart(_, _) => IntentRemovalKeepsTombstone(db, step, id);
    case Confirm(expected, request, binding, ids) => AcceptanceKeepsTombstone(db, expected, request, binding, ids, id);
    case _ =>
  }

  lemma UsersKeepBlocking(db: Db, step: UserStep, id: Uuid, job: Uuid, uri: RecordUri)
    requires Inv(db) && Blocking(db, id, job, uri)
    ensures Blocking(ApplyUser(db, step).0, id, job, uri)
  {
    UsersKeepTombstone(db, step, id);
    if !step.Relogin? {
      UsersCannotUndoAcceptance(db, step, job);
    }
  }

  lemma InventoryKeepsBlocking(db: Db, claim: ClaimedOperation, ids: seq<Uuid>, id: Uuid, job: Uuid, uri: RecordUri)
    requires Blocking(db, id, job, uri) && db.tombstones.Keys <= db.used
    ensures Blocking(AdoptUncertain(db, claim, ids).0, id, job, uri)
  {
    if AdoptUncertain(db, claim, ids).1 == Done {
      AdoptionOnlyAdds(db.tombstones, claim.jobId, claim.owner,
        UncertainWrites(db.journal, claim.owner, claim.ownerGeneration), ids, db.now, id);
    }
  }

  lemma CompletionRespectsBlocking(db: Db, claim: ClaimedOperation, expected: int, id: Uuid, job: Uuid, uri: RecordUri)
    requires Blocking(db, id, job, uri) && TombstoneOwned(db.tombstones[id], db.operations)
    ensures Blocking(Complete(db, claim, expected).0, id, job, uri)
  {
    if Complete(db, claim, expected).1 == Done && claim.jobId == job {
      assert OfOperation(db.tombstones[id], claim);
    }
  }

  lemma OtherCallsKeepBlocking(db: Db, claim: ClaimedOperation, call: WorkerCall, id: Uuid, job: Uuid, uri: RecordUri)
    requires Blocking(db, id, job, uri) && !call.Inventory? && !call.Finish?
    ensures Blocking(ApplyCall(db, claim, call).0, id, job, uri)
  {
  }

  lemma WorkersKeepBlocking(db: Db, claim: ClaimedOperation, call: WorkerCall, id: Uuid, job: Uuid, uri: RecordUri)
    requires Blocking(db, id, job, uri) && db.tombstones.Keys <= db.used
             && TombstoneOwned(db.tombstones[id], db.operations)
    ensures Blocking(ApplyCall(db, claim, call).0, id, job, uri)
  {
    match call
    case Inventory(ids) => InventoryKeepsBlocking(db, claim, ids, id, job, uri);
    case Finish(expected) => CompletionRespectsBlocking(db, claim, expected, id, job, uri);
    case _ => OtherCallsKeepBlocking(db, claim, call, id, job, uri);
  }

  lemma ServiceKeepsBlocking(db: Db, step: ServiceStep, id: Uuid, job: Uuid, uri: RecordUri)
    requires Blocking(db, id, job, uri) && db.tombstones.Keys <= db.used
    requires step != SettleRecord(id)
    ensures Blocking(ApplyService(db, step).0, id, job, uri)
  {
  }

  lemma StepKeepsBlocking(db: Db, step: Step, id: Uuid, job: Uuid, uri: RecordUri)
    requires Inv(db) && Blocking(db, id, job, uri) && step != ByService(SettleRecord(id))
    ensures Blocking(Apply(db, step).0, id, job, uri)
  {
    match step
    case ByUser(user) => UsersKeepBlocking(db, user, id, job, uri);
    case ByWorker(token, call) =>
      if token in db.claims {
        WorkersKeepBlocking(db, db.claims[token], call, id, job, uri);
      }
    case ByService(service) => ServiceKeepsBlocking(db, service, id, job, uri);
  }

  // An unsettled record tombstone blocks completion until somebody outside the
  // repository's code settles that very tombstone.
  lemma {:induction false} CompletionNeedsExternalSettlement(
    db: Db, steps: seq<Step>, id: Uuid, job: Uuid, uri: RecordUri)
    requires Inv(db) && Blocking(db, id, job, uri)
    ensures Blocking(Run(db, steps), id, job, uri) || ByService(SettleRecord(id)) in steps
    decreases |steps|
  {
    if steps != [] && ByService(SettleRecord(id)) !in steps {
      var n := |steps| - 1;
      CompletionNeedsExternalSettlement(db, steps[..n], id, job, uri);
      RunKeepsInv(db, steps[..n]);
      StepKeepsBlocking(Run(db, steps[..n]), steps[n], id, job, uri);
    }
  }

  // From acceptance to disappearance: if a registered write of the originating
  // generation was uncertain when the deletion was accepted, the operation can
  // only go away after an external settlement of the tombstone for its exact key.
  lemma UncertainWriteAtAcceptanceBlocksCompletion(
    db: Db, expected: int, request: AcceptanceRequest, binding: CredentialBinding, ids: seq<Uuid>, row: Attempt,
    steps: seq<Step>)
    requires Inv(db) && Accept(db, expected, request, binding, ids).1 == Done
    requires row in db.journal && Selected(row, request.owner, db.operations[request.jobId].ownerGeneration)
    requires row.key.AtUri? && Registered(row.key.collection)
    requires request.jobId !in Run(Accept(db, expected, request, binding, ids).0, steps).operations
    ensures exists id :: ByService(SettleRecord(id)) in steps
              && id in Accept(db, expected, request, binding, ids).0.tombstones
              && Accept(db, expected, request, binding, ids).0.tombstones[id].key == PdsRecord(row.key)
  {
    var job := request.jobId;
    var after := Accept(db, expected, request, binding, ids).0;
    AcceptKeeps(db, expected, request, binding, ids);
    NewlyInventoried(db, expected, request, binding, ids, row);
    var id :| Blocking(after, id, job, row.key);
    CompletionNeedsExternalSettlement(after, steps, id, job, row.key);
  }

  // Before acceptance an intent has no tombstone, so what acceptance adopts is pending.
  lemma NewlyInventoried(
    db: Db, expected: int, request: AcceptanceRequest, binding: CredentialBinding, ids: seq<Uuid>, row: Attempt)
    requires Inv(db) && Accept(db, expected, request, binding, ids).1 == Done
    requires row in db.journal && Selected(row, request.owner, db.operations[request.jobId].ownerGeneration)
    requires row.key.AtUri? && Registered(row.key.collection)
    ensures exists id :: Blocking(Accept(db, expected, request, binding, ids).0, id, request.jobId, row.key)
  {
    var op := db.operations[request.jobId];
    var after := Accept(db, expected, request, binding, ids).0;
    NewlyCovered(db, request.jobId, op, ids, row);
    assert Inventoried(after.tombstones, request.jobId, row.key);
    var id :| id in after.tombstones && SameIdentity(after.tombstones[id], request.jobId, PdsRecord(row.key));
    assert forall other :: other in db.tombstones ==> TombstoneOwned(db.tombstones[other], db.operations);
    AdoptionOnlyAdds(db.tombstones, request.jobId, op.owner,
      UncertainWrites(db.journal, op.owner, op.ownerGeneration), ids, db.now, id);
    assert Blocking(after, id, request.jobId, row.key);
  }

  // --- Where the table and the registry disagree ---------------------------

  // The tombstone table's key check knows four collections, the registry six. An
  // otherwise valid acceptance is refused exactly when an uncertain write of the
  // generation is malformed, foreign, or in one of the two business collections.
  lemma AcceptanceRefusedExactlyWhenBlocked(
    db: Db, expected: int, request: AcceptanceRequest, binding: CredentialBinding, ids: seq<Uuid>)
    requires TransitionCheck(db, request.owner, expected, Deleting) == Done
    requires AcceptCheck(db, request, binding) == Done
    requires PreservesCredential(db, request.owner, binding)
    requires FreshIds(db.used, ids) && |ids| >= |db.journal|
    ensures Accept(db, expected, request, binding, ids).1 != Done
            <==> exists row :: row in db.journal
                               && Selected(row, request.owner, db.operations[request.jobId].ownerGeneration)
                               && Blocks(row, request.owner)
  {
    var op := db.operations[request.jobId];
    var rows := UncertainWrites(db.journal, request.owner, op.ownerGeneration);
    AdoptionRefusedExactlyWhenBlocked(db.tombstones, request.jobId, request.owner, rows, ids, db.now);
    if row :| row in db.journal && Selected(row, request.owner, op.ownerGeneration) && Blocks(row, request.owner) {
      assert row in rows;
    }
  }

  // The registered collections whose uncertain writes block acceptance are
  // exactly the two business ones.
  lemma BusinessWritesBlock(row: Attempt, owner: Did)
    requires OwnedKey(owner, row.key)
    ensures Blocks(row, owner) <==> row.key.collection.BusinessEvent? || row.key.collection.BusinessProfile?
  {
    assert REGISTRY[3] == BusinessEvent && REGISTRY[4] == BusinessProfile;
  }

  // The table keeps one tombstone per exact key, named after the first write of
  // that key; the final check looks for one named after each write.
  ghost predicate FirstOfItsKey(rows: seq<Attempt>, owner: Did, i: nat)
    requires i < |rows|
  {
    Adoptable(rows[i], owner) && forall j :: 0 <= j < i && Adoptable(rows[j], owner) ==> rows[j].key != rows[i].key
  }

  ghost predicate NamedFirst(rows: seq<Attempt>, owner: Did, source: string) {
    exists i :: 0 <= i < |rows| && FirstOfItsKey(rows, owner, i) && rows[i].source == source
  }

  ghost predicate SomeOfKey(rows: seq<Attempt>, owner: Did, uri: RecordUri) {
    exists i :: 0 <= i < |rows| && Adoptable(rows[i], owner) && rows[i].key == uri
  }

  lemma {:induction false} AdoptedKeysAreTheRows(
    tombstones: map<Uuid, Tombstone>, operation: Uuid, owner: Did, rows: seq<Attempt>, ids: seq<Uuid>, now: Time,
    uri: RecordUri)
    requires |ids| >= |rows| && FreshIds(tombstones.Keys, ids)
    requires forall id :: id in tombstones ==> tombstones[id].operation != operation
    requires AdoptRows(tombstones, operation, owner, rows, ids, now).Some?
    ensures Inventoried(AdoptRows(tombstones, operation, owner, rows, ids, now).value, operation, uri)
            <==> SomeOfKey(rows, owner, uri)
  {
    var after := AdoptRows(tombstones, operation, owner, rows, ids, now).value;
    if id :| id in after && SameIdentity(after[id], operation, PdsRecord(uri)) {
      AdoptionOnlyAdds(tombstones, operation, owner, rows, ids, now, id);
    }
    if i :| 0 <= i < |rows| && Adoptable(rows[i], owner) && rows[i].key == uri {
      AdoptableRowsAreInventoried(tombstones, operation, owner, rows, ids, now, rows[i]);
    }
  }

  lemma {:induction false} TombstonesAreNamedFirst(
    tombstones: map<Uuid, Tombstone>, operation: Uuid, owner: Did, rows: seq<Attempt>, ids: seq<Uuid>, now: Time,
    source: string)
    requires |ids| >= |rows| && FreshIds(tombstones.Keys, ids)
    requires forall id :: id in tombstones ==> tombstones[id].operation != operation
    requires AdoptRows(tombstones, operation, owner, rows, ids, now).Some?
    ensures HasSource(AdoptRows(tombstones, operation, owner, rows, ids, now).value, operation, source)
            <==> NamedFirst(rows, owner, source)
    decreases |rows|
  {
    if rows != [] {
      var n := |rows| - 1;
      var front, last := rows[..n], rows[n];
      var sofar := AdoptRows(tombstones, operation, owner, front, ids, now).value;
      var after := AdoptRows(tombstones, operation, owner, rows, ids, now).value;
      TombstonesAreNamedFirst(tombstones, operation, owner, front, ids, now, source);
      AdoptedKeysAreTheRows(tombstones, operation, owner, front, ids, now, last.key);
      AdoptionOnlyAdds(tombstones, operation, owner, front, ids, now, ids[n]);
      assert forall i :: 0 <= i < n ==> (FirstOfItsKey(front, owner, i) <==> FirstOfItsKey(rows, owner, i));
      assert FirstOfItsKey(rows, owner, n) <==> after != sofar;
      if HasSource(sofar, operation, source) {
        var id :| id in sofar && sofar[id].operation == operation && sofar[id].source == source;
        assert id in after && after[id] == sofar[id];
      }
      if after != sofar && last.source == source {
        assert after[ids[n]].operation == operation && after[ids[n]].source == source;
      }
      LastNamed(rows, owner, source);
    }
  }

  lemma LastNamed(rows: seq<Attempt>, owner: Did, source: string)
    requires rows != []
    ensures NamedFirst(rows, owner, source) <==>
              NamedFirst(rows[..|rows| - 1], owner, source)
              || (FirstOfItsKey(rows, owner, |rows| - 1) && rows[|rows| - 1].source == source)
  {
    var n := |rows| - 1;
    assert forall i :: 0 <= i < n ==> (FirstOfItsKey(rows[..n], owner, i) <==> FirstOfItsKey(rows, owner, i));
    if NamedFirst(rows[..n], owner, source) {
      var i :| 0 <= i < n && FirstOfItsKey(rows[..n], owner, i) && rows[..n][i].source == source;
      assert FirstOfItsKey(rows, owner, i) && rows[i].source == source;
    }
    if i :| 0 <= i < |rows| && FirstOfItsKey(rows, owner, i) && rows[i].source == source {
      if i < n {
        assert FirstOfItsKey(rows[..n], owner, i) && rows[..n][i].source == source;
      }
    }
  }

  // Right after acceptance the journal half of the final check holds exactly when
  // every admitted uncertain write is, under its source, the first of some key: a
  // second uncertain write of one key keeps the operation from completing even
  // once that key's tombstone is settled.
  lemma FinalCheckHoldsExactlyWhenNoKeyRepeats(
    db: Db, expected: int, request: AcceptanceRequest, binding: CredentialBinding, ids: seq<Uuid>,
    claim: ClaimedOperation)
    requires Inv(db) && Accept(db, expected, request, binding, ids).1 == Done
    requires claim.jobId == request.jobId && claim.owner == request.owner
    requires claim.ownerGeneration == db.operations[request.jobId].ownerGeneration
    ensures var rows := UncertainWrites(db.journal, claim.owner, claim.ownerGeneration);
      NoUntrackedWrite(Accept(db, expected, request, binding, ids).0, claim)
      <==> forall row <- rows :: Adoptable(row, claim.owner) ==> NamedFirst(rows, claim.owner, row.source)
  {
    var after := Accept(db, expected, request, binding, ids).0;
    var rows := UncertainWrites(db.journal, claim.owner, claim.ownerGeneration);
    assert forall id :: id in db.tombstones ==> TombstoneOwned(db.tombstones[id], db.operations);
    AdmittedIsRegistered();
    forall row | row in rows
      ensures HasSource(after.tombstones, claim.jobId, row.source) <==> NamedFirst(rows, claim.owner, row.source)
    {
      TombstonesAreNamedFirst(db.tombstones, claim.jobId, claim.owner, rows, ids, db.now, row.source);
    }
  }
}
