// What every reachable database state satisfies. Each clause names the tables it
// is about, so a step that leaves those tables alone keeps it outright.
module DeletionInvariant {
  import opened Wrappers
  import opened CraftskyCollections
  import opened DeletionTables
  import opened SafetyTombstones
  import opened DeletionTransactions

  // An intent row carries only intent fields, an accepted row none of them; a
  // credential generation is there exactly when a session is bound.
  predicate Shaped(op: Operation) {
    && op.ownerGeneration > 0
    && !(op.reauthSession.Some? && op.deletionSession.Some?)
    && (op.credentialGeneration.Some? <==> op.reauthSession.Some? || op.deletionSession.Some?)
    && (if op.status.StatusIntent? then
          && op.acceptedAt.None? && op.deletionSession.None? && op.nextAttemptAt.None? && op.lease.None?
          && op.didHash.Some? && op.intentExpiresAt.Some?
          && (op.proofHash.Some? <==> op.reauthSession.Some?)
        else
          && op.acceptedAt.Some? && op.reauthSession.None? && op.proofHash.None? && op.didHash.None?
             && op.intentExpiresAt.None?
          && (op.Runnable() <==> op.deletionSession.Some?)
          && (op.Runnable() <==> op.nextAttemptAt.Some?)
          && (op.lease.Some? ==> op.Runnable()))
  }

  // An operation row exists only for an owner in deletion, at the matching stage
  // and with the generation the owner was active in.
  predicate Staged(op: Operation, l: Lifecycle) {
    || (l.state.DeletionPending? && op.status.StatusIntent? && op.ownerGeneration == l.generation - 1)
    || (l.state.Deleting? && !op.status.StatusIntent? && op.ownerGeneration == l.generation - 2)
  }

  predicate InDeletion(l: Lifecycle) {
    l.state.DeletionPending? || l.state.Deleting?
  }

  ghost predicate OperationsStaged(lifecycles: map<Did, Lifecycle>, operations: map<Uuid, Operation>) {
    && (forall owner :: owner in lifecycles ==> lifecycles[owner].generation > 0)
    && forall job :: job in operations ==>
         && Shaped(operations[job])
         && operations[job].owner in lifecycles
         && Staged(operations[job], lifecycles[operations[job].owner])
  }

  ghost predicate DeletingOwnersHaveOperation(lifecycles: map<Did, Lifecycle>, operations: map<Uuid, Operation>) {
    forall owner :: owner in lifecycles && InDeletion(lifecycles[owner]) ==> HasOperation(operations, owner)
  }

  ghost predicate OneOperationPerOwner(operations: map<Uuid, Operation>) {
    forall a, b :: a in operations && b in operations && operations[a].owner == operations[b].owner ==> a == b
  }

  // A deletion-only session is the one its live operation references.
  predicate Referenced(operations: map<Uuid, Operation>, owner: Did, session: SessionId, state: SessionState)
    requires state.DeletionOnly?
  {
    && state.operation in operations
    && operations[state.operation].owner == owner
    && operations[state.operation].credentialGeneration == Some(state.credentialGeneration)
    && (operations[state.operation].reauthSession == Some(session)
       || operations[state.operation].deletionSession == Some(session))
  }

  ghost predicate NoOrphanedCredential(operations: map<Uuid, Operation>, sessions: map<(Did, SessionId), Session>) {
    forall k :: k in sessions && sessions[k].state.DeletionOnly? ==> Referenced(operations, k.0, k.1, sessions[k].state)
  }

  // A held lease is the last one handed out for its row, and its holder's copy
  // of the row is current.
  ghost predicate ClaimsKnown(claims: map<Uuid, ClaimedOperation>, used: set<Uuid>) {
    forall token :: token in claims ==>
      token in used && claims[token].leaseToken == token && claims[token].jobId in used
  }

  predicate LeaseIssued(op: Operation, job: Uuid, claims: map<Uuid, ClaimedOperation>) {
    op.lease.Some? ==>
      op.lease.value.token in claims && claims[op.lease.value.token] == ClaimOf(op, job, op.lease.value)
  }

  ghost predicate LeasesIssued(operations: map<Uuid, Operation>, claims: map<Uuid, ClaimedOperation>) {
    forall job :: job in operations ==> LeaseIssued(operations[job], job, claims)
  }

  predicate ExactScope(key: SafetyKey, owner: Did) {
    key.PdsRecord? ==> OwnedKey(owner, key.uri) && SchemaAdmits(key.uri.collection)
  }

  predicate TombstoneOwned(t: Tombstone, operations: map<Uuid, Operation>) {
    && t.operation in operations
    && !operations[t.operation].status.StatusIntent?
    && t.owner == operations[t.operation].owner
    && t.ownerGeneration == operations[t.operation].ownerGeneration
    && ExactScope(t.key, t.owner)
  }

  ghost predicate TombstonesOwned(operations: map<Uuid, Operation>, tombstones: map<Uuid, Tombstone>) {
    && UniqueKeys(tombstones)
    && forall id :: id in tombstones ==> TombstoneOwned(tombstones[id], operations)
  }

  // An accepted operation has inventoried every write of its generation that is
  // still uncertain and in the registry.
  ghost predicate Covered(tombstones: map<Uuid, Tombstone>, job: Uuid, op: Operation, row: Attempt) {
    Selected(row, op.owner, op.ownerGeneration) ==>
      !Blocks(row, op.owner) && (Registered(row.key.collection) ==> Inventoried(tombstones, job, row.key))
  }

  ghost predicate UncertainWritesCovered(
    operations: map<Uuid, Operation>, tombstones: map<Uuid, Tombstone>, journal: seq<Attempt>)
  {
    forall job, row :: job in operations && !operations[job].status.StatusIntent? && row in journal
      ==> Covered(tombstones, job, operations[job], row)
  }

  ghost predicate Inv(db: Db) {
    && OperationsStaged(db.lifecycles, db.operations)
    && DeletingOwnersHaveOperation(db.lifecycles, db.operations)
    && OneOperationPerOwner(db.operations)
    && NoOrphanedCredential(db.operations, db.sessions)
    && ClaimsKnown(db.claims, db.used)
    && LeasesIssued(db.operations, db.claims)
    && db.operations.Keys <= db.used && db.tombstones.Keys <= db.used
    && TombstonesOwned(db.operations, db.tombstones)
    && UncertainWritesCovered(db.operations, db.tombstones, db.journal)
  }

  // --- Views of one job ----------------------------------------------------

  predicate IsIntent(db: Db, job: Uuid) {
    job in db.operations && db.operations[job].status.StatusIntent?
  }

  // No session is deletion-only for the job.
  ghost predicate NoneFor(sessions: map<(Did, SessionId), Session>, job: Uuid) {
    forall k :: k in sessions && sessions[k].state.DeletionOnly? ==> sessions[k].state.operation != job
  }

  // --- One row replaced ----------------------------------------------------

  // The part of a row that lifecycles, tombstones and the journal see.
  predicate SameScope(a: Operation, b: Operation) {
    a.owner == b.owner && a.ownerGeneration == b.ownerGeneration && a.status.StatusIntent? == b.status.StatusIntent?
  }

  lemma RowUpdateKeepsStages(
    lifecycles: map<Did, Lifecycle>, operations: map<Uuid, Operation>, job: Uuid, op: Operation)
    requires OperationsStaged(lifecycles, operations)
    requires DeletingOwnersHaveOperation(lifecycles, operations)
    requires OneOperationPerOwner(operations)
    requires job in operations && SameScope(operations[job], op) && Shaped(op)
    ensures OperationsStaged(lifecycles, operations[job := op])
    ensures DeletingOwnersHaveOperation(lifecycles, operations[job := op])
    ensures OneOperationPerOwner(operations[job := op])
  {
    forall owner | owner in lifecycles && InDeletion(lifecycles[owner])
      ensures HasOperation(operations[job := op], owner)
    {
      var row :| row in operations && operations[row].owner == owner;
      assert operations[job := op][row].owner == owner;
    }
  }

  lemma RowUpdateKeepsSafety(
    operations: map<Uuid, Operation>, tombstones: map<Uuid, Tombstone>, journal: seq<Attempt>, job: Uuid, op: Operation)
    requires TombstonesOwned(operations, tombstones)
    requires UncertainWritesCovered(operations, tombstones, journal)
    requires job in operations && SameScope(operations[job], op)
    ensures TombstonesOwned(operations[job := op], tombstones)
    ensures UncertainWritesCovered(operations[job := op], tombstones, journal)
  {
    forall other, row | other in operations && !operations[job := op][other].status.StatusIntent? && row in journal
      ensures Covered(tombstones, other, operations[job := op][other], row)
    {
      assert Covered(tombstones, other, operations[other], row);
    }
  }

  // --- One row removed, with its tombstones --------------------------------

  lemma RowRemovalKeepsStages(
    lifecycles: map<Did, Lifecycle>, operations: map<Uuid, Operation>, job: Uuid, l: Lifecycle)
    requires OperationsStaged(lifecycles, operations)
    requires DeletingOwnersHaveOperation(lifecycles, operations)
    requires OneOperationPerOwner(operations)
    requires job in operations && !InDeletion(l) && l.generation > 0
    ensures var owner := operations[job].owner;
      && OperationsStaged(lifecycles[owner := l], operations - {job})
      && DeletingOwnersHaveOperation(lifecycles[owner := l], operations - {job})
      && OneOperationPerOwner(operations - {job})
  {
    var owner := operations[job].owner;
    forall other | other in lifecycles && other != owner && InDeletion(lifecycles[other])
      ensures HasOperation(operations - {job}, other)
    {
      var row :| row in operations && operations[row].owner == other;
      assert row in operations - {job};
    }
  }

  lemma RowRemovalKeepsSafety(db: Db, job: Uuid)
    requires TombstonesOwned(db.operations, db.tombstones)
    requires UncertainWritesCovered(db.operations, db.tombstones, db.journal)
    ensures TombstonesOwned(WithoutOperation(db, job).operations, WithoutOperation(db, job).tombstones)
    ensures UncertainWritesCovered(WithoutOperation(db, job).operations, WithoutOperation(db, job).tombstones,
            db.journal)
  {
    var after := WithoutOperation(db, job);
    forall other, row | other in after.operations && !after.operations[other].status.StatusIntent? && row in db.journal
      ensures Covered(after.tombstones, other, after.operations[other], row)
    {
      assert Covered(db.tombstones, other, db.operations[other], row);
      if Selected(row, db.operations[other].owner, db.operations[other].ownerGeneration)
        && Registered(row.key.collection) {
        var id :| id in db.tombstones && SameIdentity(db.tombstones[id], other, PdsRecord(row.key));
        assert id in after.tombstones && SameIdentity(after.tombstones[id], other, PdsRecord(row.key));
      }
    }
  }

  // --- Sessions ------------------------------------------------------------

  // Dropping an owner's only row is safe once all its sessions are revoked, or
  // the one session the row references is.
  lemma RevokingAllOrphansNone(operations: map<Uuid, Operation>, sessions: map<(Did, SessionId), Session>, job: Uuid)
    requires NoOrphanedCredential(operations, sessions) && job in operations
    ensures NoOrphanedCredential(operations - {job}, RevokeAll(sessions, operations[job].owner))
  {
    var after := RevokeAll(sessions, operations[job].owner);
    forall k | k in after && after[k].state.DeletionOnly?
      ensures Referenced(operations - {job}, k.0, k.1, after[k].state)
    {
      assert Referenced(operations, k.0, k.1, sessions[k].state);
    }
  }

  lemma DroppingTheBoundSessionOrphansNone(
    operations: map<Uuid, Operation>, sessions: map<(Did, SessionId), Session>, job: Uuid, session: Option<SessionId>)
    requires NoOrphanedCredential(operations, sessions) && job in operations
    requires operations[job].deletionSession.None? && operations[job].reauthSession == session
    ensures session.Some?
            ==> NoOrphanedCredential(operations - {job}, Revoke(sessions, operations[job].owner, session.value))
    ensures session.None? ==> NoOrphanedCredential(operations - {job}, sessions)
  {
    var after := if session.Some? then Revoke(sessions, operations[job].owner, session.value) else sessions;
    forall k | k in after && after[k].state.DeletionOnly?
      ensures Referenced(operations - {job}, k.0, k.1, after[k].state)
    {
      assert Referenced(operations, k.0, k.1, sessions[k].state);
    }
  }

  lemma RevokingOrphansNone(
    operations: map<Uuid, Operation>, sessions: map<(Did, SessionId), Session>, owner: Did, session: SessionId)
    requires NoOrphanedCredential(operations, sessions)
    ensures NoOrphanedCredential(operations, Revoke(sessions, owner, session))
    ensures NoOrphanedCredential(operations, RevokeAll(sessions, owner))
  {
  }

  lemma LifecycleStepWithoutRowKeepsStages(
    lifecycles: map<Did, Lifecycle>, operations: map<Uuid, Operation>, owner: Did, l: Lifecycle)
    requires OperationsStaged(lifecycles, operations)
    requires DeletingOwnersHaveOperation(lifecycles, operations)
    requires !InDeletion(l) && l.generation > 0
    requires owner in lifecycles ==> !InDeletion(lifecycles[owner])
    ensures OperationsStaged(lifecycles[owner := l], operations)
    ensures DeletingOwnersHaveOperation(lifecycles[owner := l], operations)
  {
  }

  // --- Tombstones ----------------------------------------------------------

  // A tombstone's state may change freely; its identity may not.
  lemma TombstoneStateKeepsSafety(db: Db, id: Uuid, t: Tombstone)
    requires TombstonesOwned(db.operations, db.tombstones)
    requires UncertainWritesCovered(db.operations, db.tombstones, db.journal)
    requires id in db.tombstones
    requires t == db.tombstones[id].(state := t.state, attempts := t.attempts)
    ensures TombstonesOwned(db.operations, db.tombstones[id := t])
    ensures UncertainWritesCovered(db.operations, db.tombstones[id := t], db.journal)
  {
    MoreTombstonesKeepCover(db, db.tombstones[id := t]);
  }

  // Cover only needs the identities to stay.
  lemma MoreTombstonesKeepCover(db: Db, more: map<Uuid, Tombstone>)
    requires UncertainWritesCovered(db.operations, db.tombstones, db.journal)
    requires forall id :: id in db.tombstones ==>
               id in more && SameIdentity(more[id], db.tombstones[id].operation, db.tombstones[id].key)
    ensures UncertainWritesCovered(db.operations, more, db.journal)
  {
    forall job, row | job in db.operations && !db.operations[job].status.StatusIntent? && row in db.journal
      ensures Covered(more, job, db.operations[job], row)
    {
      assert Covered(db.tombstones, job, db.operations[job], row);
      if Selected(row, db.operations[job].owner, db.operations[job].ownerGeneration) && Registered(row.key.collection) {
        var id :| id in db.tombstones && SameIdentity(db.tombstones[id], job, PdsRecord(row.key));
        assert SameIdentity(more[id], job, PdsRecord(row.key));
      }
    }
  }
}
