// A tombstone names one key for as long as it is there, and its id is never
// given to another.
module DeletionKeys {
  import opened Wrappers
  import opened CraftskyCollections
  import opened DeletionTables
  import opened SafetyTombstones
  import opened DeletionTransactions
  import opened DeletionSteps
  import opened DeletionInvariant
  import opened DeletionPreservation
  import opened DeletionEffects

  predicate Names(db: Db, id: Uuid, key: SafetyKey) {
    id in db.used && (id in db.tombstones ==> db.tombstones[id].key == key)
  }

  lemma InventoryRenamesNone(db: Db, job: Uuid, owner: Did, generation: int, ids: seq<Uuid>, id: Uuid, key: SafetyKey)
    requires db.tombstones.Keys <= db.used && FreshIds(db.used, ids) && |ids| >= |db.journal|
    requires Names(db, id, key)
    ensures var adopted := Adopted(db, job, owner, generation, ids);
      adopted.Some? && id in adopted.value ==> adopted.value[id].key == key
  {
    InventoryEffect(db, job, owner, generation, ids);
    assert forall other <- ids :: other !in db.used;
  }

  lemma AcceptanceRenamesNone(
    db: Db, expected: int, request: AcceptanceRequest, binding: CredentialBinding, ids: seq<Uuid>, id: Uuid,
    key: SafetyKey)
    requires db.tombstones.Keys <= db.used && Names(db, id, key)
    ensures Names(Accept(db, expected, request, binding, ids).0, id, key)
  {
    if FreshIds(db.used, ids) && |ids| >= |db.journal| && request.jobId in db.operations {
      var generation := db.operations[request.jobId].ownerGeneration;
      InventoryRenamesNone(db, request.jobId, request.owner, generation, ids, id, key);
    }
  }

  lemma UsersRenameNone(db: Db, step: UserStep, id: Uuid, key: SafetyKey)
    requires db.tombstones.Keys <= db.used && Names(db, id, key)
    ensures Names(ApplyUser(db, step).0, id, key)
  {
    match step
    case Confirm(expected, request, binding, ids) =>
      AcceptanceRenamesNone(db, expected, request, binding, ids, id, key);
    case _ => OtherUsersRenameNone(db, step, id, key);
  }

  lemma OtherUsersRenameNone(db: Db, step: UserStep, id: Uuid, key: SafetyKey)
    requires Names(db, id, key) && !step.Confirm?
    ensures Names(ApplyUser(db, step).0, id, key)
  {
  }

  lemma CallsRenameNone(db: Db, claim: ClaimedOperation, call: WorkerCall, id: Uuid, key: SafetyKey)
    requires db.tombstones.Keys <= db.used && Names(db, id, key)
    ensures Names(ApplyCall(db, claim, call).0, id, key)
  {
    if call.Inventory? && FreshIds(db.used, call.ids) && |call.ids| >= |db.journal| {
      InventoryRenamesNone(db, claim.jobId, claim.owner, claim.ownerGeneration, call.ids, id, key);
    }
  }

  lemma ServiceRenamesNone(db: Db, step: ServiceStep, id: Uuid, key: SafetyKey)
    requires Names(db, id, key)
    ensures Names(ApplyService(db, step).0, id, key)
  {
  }

  lemma StepRenamesNone(db: Db, step: Step, id: Uuid, key: SafetyKey)
    requires Inv(db) && Names(db, id, key)
    ensures Names(Apply(db, step).0, id, key)
  {
    match step
    case ByUser(user) => UsersRenameNone(db, user, id, key);
    case ByWorker(token, call) => if token in db.claims { CallsRenameNone(db, db.claims[token], call, id, key); }
    case ByService(service) => ServiceRenamesNone(db, service, id, key);
  }

  // Over any run: if the id still has a tombstone, it is the same key's.
  lemma {:induction false} KeysNeverChange(db: Db, steps: seq<Step>, id: Uuid, key: SafetyKey)
    requires Inv(db) && Names(db, id, key)
    ensures Names(Run(db, steps), id, key)
    decreases |steps|
  {
    if steps != [] {
      var n := |steps| - 1;
      KeysNeverChange(db, steps[..n], id, key);
      RunKeepsInv(db, steps[..n]);
      StepRenamesNone(Run(db, steps[..n]), steps[n], id, key);
    }
  }
}
