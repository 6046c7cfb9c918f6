// Every step of every actor keeps the invariant, hence every run does.
module DeletionPreservation {
  import opened Wrappers
  import opened CraftskyCollections
  import opened DeletionTables
  import opened SafetyTombstones
  import opened SafetySchedule
  import opened DeletionTransactions
  import opened DeletionSteps
  import opened DeletionInvariant

  lemma CreateIntentKeeps(db: Db, expected: int, intent: IntentRecord)
    requires Inv(db)
    ensures Inv(CreateIntent(db, expected, intent).0)
  {
    if CreateIntent(db, expected, intent).1 == Done {
      NewIntentKeepsStages(db, intent, Advanced(db.lifecycles[intent.owner], DeletionPending));
      NewIntentKeepsRest(db, intent.jobId, NewIntent(intent, db.lifecycles[intent.owner].generation));
    }
  }

  lemma NewIntentKeepsStages(db: Db, intent: IntentRecord, l: Lifecycle)
    requires Inv(db) && intent.jobId !in db.operations && intent.owner in db.lifecycles
    requires !HasOperation(db.operations, intent.owner)
    requires l.state.DeletionPending? && l.generation == db.lifecycles[intent.owner].generation + 1
    ensures var operations := db.operations[intent.jobId := NewIntent(intent, db.lifecycles[intent.owner].generation)];
      && OperationsStaged(db.lifecycles[intent.owner := l], operations)
      && DeletingOwnersHaveOperation(db.lifecycles[intent.owner := l], operations)
      && OneOperationPerOwner(operations)
  {
    var operations := db.operations[intent.jobId := NewIntent(intent, db.lifecycles[intent.owner].generation)];
    forall owner | owner in db.lifecycles[intent.owner := l] && InDeletion(db.lifecycles[intent.owner := l][owner])
      ensures HasOperation(operations, owner)
    {
      if owner == intent.owner {
        assert operations[intent.jobId].owner == owner;
      } else {
        var row :| row in db.operations && db.operations[row].owner == owner;
        assert operations[row].owner == owner;
      }
    }
  }

  lemma NewIntentKeepsRest(db: Db, job: Uuid, op: Operation)
    requires Inv(db) && job !in db.operations && op.status.StatusIntent? && op.lease.None?
    ensures NoOrphanedCredential(db.operations[job := op], db.sessions)
    ensures LeasesIssued(db.operations[job := op], db.claims)
    ensures TombstonesOwned(db.operations[job := op], db.tombstones)
    ensures UncertainWritesCovered(db.operations[job := op], db.tombstones, db.journal)
  {
    var operations := db.operations[job := op];
    forall other, row | other in operations && !operations[other].status.StatusIntent? && row in db.journal
      ensures Covered(db.tombstones, other, operations[other], row)
    {
      assert Covered(db.tombstones, other, db.operations[other], row);
    }
  }

  lemma RemovalKeeps(db: Db, job: Uuid, l: Lifecycle, sessions: map<(Did, SessionId), Session>)
    requires Inv(db) && job in db.operations
    requires !InDeletion(l) && l.generation > 0
    requires NoOrphanedCredential(db.operations - {job}, sessions)
    ensures Inv(WithoutOperation(db, job).(lifecycles := db.lifecycles[db.operations[job].owner := l],
            sessions := sessions))
  {
    RowRemovalKeepsStages(db.lifecycles, db.operations, job, l);
    RowRemovalKeepsSafety(db, job);
  }

  lemma CancelKeeps(db: Db, expected: int, to: LifecycleState, job: Uuid, owner: Did)
    requires Inv(db)
    ensures Inv(CancelIntent(db, expected, to, job, owner).0)
  {
    var (after, outcome) := CancelIntent(db, expected, to, job, owner);
    if outcome == Done {
      var op := db.operations[job];
      DroppingTheBoundSessionOrphansNone(db.operations, db.sessions, job, op.reauthSession);
      var sessions := if op.reauthSession.Some? then Revoke(db.sessions, owner, op.reauthSession.value)
        else db.sessions;
      RevokingOrphansNone(db.operations - {job}, sessions, owner, "");
      RemovalKeeps(db, job, Advanced(db.lifecycles[owner], to), after.sessions);
      assert after == WithoutOperation(db, job).(lifecycles := after.lifecycles, sessions := after.sessions);
    }
  }

  lemma DepartKeeps(db: Db, owner: Did, expected: int)
    requires Inv(db)
    ensures Inv(ProfileDeparture(db, owner, expected).0)
  {
    var (after, outcome) := ProfileDeparture(db, owner, expected);
    if outcome == Done {
      var l := Advanced(db.lifecycles[owner], Departed);
      if db.lifecycles[owner].state.Active? {
        RevokingOrphansNone(db.operations, db.sessions, owner, "");
        LifecycleStepWithoutRowKeepsStages(db.lifecycles, db.operations, owner, l);
      } else {
        var job := OperationOf(db.operations, owner).value;
        var op := db.operations[job];
        DroppingTheBoundSessionOrphansNone(db.operations, db.sessions, job, op.reauthSession);
        var sessions := if op.reauthSession.Some? then Revoke(db.sessions, owner, op.reauthSession.value)
          else db.sessions;
        RevokingOrphansNone(db.operations - {job}, sessions, owner, "");
        RemovalKeeps(db, job, l, after.sessions);
        assert after == WithoutOperation(db, job).(lifecycles := after.lifecycles, sessions := after.sessions);
      }
    }
  }

  lemma BindKeeps(db: Db, attempt: CallbackAttempt, job: Uuid, generation: int, proof: Digest)
    requires Inv(db)
    ensures Inv(BindReauthentication(db, attempt, job, generation, proof).0)
  {
    var (after, outcome) := BindReauthentication(db, attempt, job, generation, proof);
    if outcome == Done {
      RowUpdateKeepsStages(db.lifecycles, db.operations, job, after.operations[job]);
      RowUpdateKeepsSafety(db.operations, db.tombstones, db.journal, job, after.operations[job]);
      assert LeaseIssued(db.operations[job], job, db.claims);
      forall k | k in after.sessions && after.sessions[k].state.DeletionOnly?
        ensures Referenced(after.operations, k.0, k.1, after.sessions[k].state)
      {
        if k != (attempt.owner, attempt.session) {
          assert Referenced(db.operations, k.0, k.1, db.sessions[k].state);
        }
      }
    }
  }

  lemma AcceptKeeps(db: Db, expected: int, request: AcceptanceRequest, binding: CredentialBinding, ids: seq<Uuid>)
    requires Inv(db)
    ensures Inv(Accept(db, expected, request, binding, ids).0)
  {
    var (after, outcome) := Accept(db, expected, request, binding, ids);
    if outcome == Done {
      var job, owner := request.jobId, request.owner;
      var op := db.operations[job];
      AcceptedKeepsStages(db, job, Advanced(db.lifecycles[owner], Deleting));
      AdoptionKeepsSafety(db, job, after.operations[job], ids);
      forall k | k in after.sessions && after.sessions[k].state.DeletionOnly?
        ensures Referenced(after.operations, k.0, k.1, after.sessions[k].state)
      {
        assert Referenced(db.operations, k.0, k.1, db.sessions[k].state);
      }
      AdoptionUsesIds(db, job, owner, op.ownerGeneration, ids);
    }
  }

  lemma AcceptedKeepsStages(db: Db, job: Uuid, l: Lifecycle)
    requires Inv(db) && job in db.operations && db.operations[job].status.StatusIntent?
    requires db.operations[job].reauthSession.Some?
    requires l.state.Deleting? && l.generation == db.lifecycles[db.operations[job].owner].generation + 1
    ensures var owner, operations := db.operations[job].owner,
            db.operations[job := Accepted(db.operations[job], db.now)];
      && OperationsStaged(db.lifecycles[owner := l], operations)
      && DeletingOwnersHaveOperation(db.lifecycles[owner := l], operations)
      && OneOperationPerOwner(operations)
  {
    var owner, operations := db.operations[job].owner, db.operations[job := Accepted(db.operations[job], db.now)];
    assert Staged(db.operations[job], db.lifecycles[owner]);
    forall other | other in db.lifecycles[owner := l] && InDeletion(db.lifecycles[owner := l][other])
      ensures HasOperation(operations, other)
    {
      if other == owner {
        assert operations[job].owner == owner;
      } else {
        var row :| row in db.operations && db.operations[row].owner == other;
        assert operations[row].owner == other;
      }
    }
  }

  // Adoption for `job`, whose row becomes `op`: ownership, unique keys and cover.
  lemma AdoptionKeepsSafety(db: Db, job: Uuid, op: Operation, ids: seq<Uuid>)
    requires Inv(db) && job in db.operations
    requires !op.status.StatusIntent?
    requires op.owner == db.operations[job].owner && op.ownerGeneration == db.operations[job].ownerGeneration
    requires FreshIds(db.used, ids) && |ids| >= |db.journal|
    requires Adopted(db, job, op.owner, op.ownerGeneration, ids).Some?
    ensures var after := Adopted(db, job, op.owner, op.ownerGeneration, ids).value;
      && TombstonesOwned(db.operations[job := op], after)
      && UncertainWritesCovered(db.operations[job := op], after, db.journal)
  {
    var rows := UncertainWrites(db.journal, op.owner, op.ownerGeneration);
    var after := Adopted(db, job, op.owner, op.ownerGeneration, ids).value;
    assert FreshIds(db.tombstones.Keys, ids);
    AdoptionKeepsKeysUnique(db.tombstones, job, op.owner, rows, ids, db.now);
    forall id | id in after
      ensures TombstoneOwned(after[id], db.operations[job := op])
    {
      AdoptionOnlyAdds(db.tombstones, job, op.owner, rows, ids, db.now, id);
      if id in db.tombstones {
        assert TombstoneOwned(db.tombstones[id], db.operations);
      } else {
        var i :| 0 <= i < |rows| && id == ids[i] && Adoptable(rows[i], op.owner)
          && after[id] == NewTombstone(job, rows[i], db.now);
        assert rows[i] in rows;
      }
    }
    var operations := db.operations[job := op];
    forall other, row | other in operations && !operations[other].status.StatusIntent? && row in db.journal
      ensures Covered(after, other, operations[other], row)
    {
      if other == job {
        NewlyCovered(db, job, op, ids, row);
      } else {
        StillCovered(db, job, op, ids, other, row);
      }
    }
  }

  lemma NewlyCovered(db: Db, job: Uuid, op: Operation, ids: seq<Uuid>, row: Attempt)
    requires FreshIds(db.tombstones.Keys, ids) && |ids| >= |db.journal|
    requires Adopted(db, job, op.owner, op.ownerGeneration, ids).Some?
    requires row in db.journal
    ensures Covered(Adopted(db, job, op.owner, op.ownerGeneration, ids).value, job, op, row)
  {
    var rows := UncertainWrites(db.journal, op.owner, op.ownerGeneration);
    if Selected(row, op.owner, op.ownerGeneration) {
      AdoptionRefusedExactlyWhenBlocked(db.tombstones, job, op.owner, rows, ids, db.now);
      if Registered(row.key.collection) {
        AdoptableRowsAreInventoried(db.tombstones, job, op.owner, rows, ids, db.now, row);
      }
    }
  }

  lemma StillCovered(db: Db, job: Uuid, op: Operation, ids: seq<Uuid>, other: Uuid, row: Attempt)
    requires FreshIds(db.tombstones.Keys, ids) && |ids| >= |db.journal|
    requires Adopted(db, job, op.owner, op.ownerGeneration, ids).Some?
    requires UncertainWritesCovered(db.operations, db.tombstones, db.journal)
    requires other in db.operations && !db.operations[other].status.StatusIntent? && row in db.journal
    ensures Covered(Adopted(db, job, op.owner, op.ownerGeneration, ids).value, other, db.operations[other], row)
  {
    var rows := UncertainWrites(db.journal, op.owner, op.ownerGeneration);
    var after := Adopted(db, job, op.owner, op.ownerGeneration, ids).value;
    assert Covered(db.tombstones, other, db.operations[other], row);
    if Selected(row, db.operations[other].owner, db.operations[other].ownerGeneration)
      && Registered(row.key.collection) {
      var id :| id in db.tombstones && SameIdentity(db.tombstones[id], other, PdsRecord(row.key));
      AdoptionOnlyAdds(db.tombstones, job, op.owner, rows, ids, db.now, id);
      assert SameIdentity(after[id], other, PdsRecord(row.key));
    }
  }

  lemma AdoptionUsesIds(db: Db, job: Uuid, owner: Did, generation: int, ids: seq<Uuid>)
    requires db.tombstones.Keys <= db.used && FreshIds(db.used, ids) && |ids| >= |db.journal|
    requires Adopted(db, job, owner, generation, ids).Some?
    ensures Adopted(db, job, owner, generation, ids).value.Keys <= db.used + (set id <- ids)
  {
    var rows := UncertainWrites(db.journal, owner, generation);
    var after := Adopted(db, job, owner, generation, ids).value;
    forall id | id in after
      ensures id in db.used + (set i <- ids)
    {
      AdoptionOnlyAdds(db.tombstones, job, owner, rows, ids, db.now, id);
    }
  }

  lemma AdoptKeeps(db: Db, claim: ClaimedOperation, ids: seq<Uuid>)
    requires Inv(db)
    ensures Inv(AdoptUncertain(db, claim, ids).0)
  {
    if AdoptUncertain(db, claim, ids).1 == Done {
      var op := db.operations[claim.jobId];
      AdoptionKeepsSafety(db, claim.jobId, op, ids);
      assert db.operations[claim.jobId := op] == db.operations;
      AdoptionUsesIds(db, claim.jobId, claim.owner, claim.ownerGeneration, ids);
    }
  }

  // A change of scheduling fields, credential or lease of one accepted row.
  lemma RowUpdateKeeps(db: Db, job: Uuid, op: Operation, sessions: map<(Did, SessionId), Session>)
    requires Inv(db) && job in db.operations
    requires SameScope(db.operations[job], op) && Shaped(op) && op.lease.None?
    requires NoOrphanedCredential(db.operations[job := op], sessions)
    ensures Inv(db.(operations := db.operations[job := op], sessions := sessions))
  {
    RowUpdateKeepsStages(db.lifecycles, db.operations, job, op);
    RowUpdateKeepsSafety(db.operations, db.tombstones, db.journal, job, op);
    var operations := db.operations[job := op];
    forall other | other in operations
      ensures LeaseIssued(operations[other], other, db.claims)
    {
      assert LeaseIssued(db.operations[other], other, db.claims);
    }
  }

  lemma ClaimKeeps(db: Db, job: Uuid, token: Uuid, duration: int)
    requires Inv(db)
    ensures Inv(ClaimDue(db, job, token, duration).0)
  {
    if ClaimDue(db, job, token, duration).1 == Done {
      LeasedRowKeeps(db, job, Lease(token, db.now + duration));
    }
  }

  lemma LeasedRowKeeps(db: Db, job: Uuid, lease: Lease)
    requires Inv(db) && job in db.operations && db.operations[job].Runnable() && lease.token !in db.used
    ensures Inv(db.(operations := db.operations[job := db.operations[job].(lease := Some(lease))],
                    claims := db.claims[lease.token := ClaimOf(db.operations[job], job, lease)],
                    used := db.used + {lease.token}))
  {
    var op := db.operations[job].(lease := Some(lease));
    RowUpdateKeepsStages(db.lifecycles, db.operations, job, op);
    RowUpdateKeepsSafety(db.operations, db.tombstones, db.journal, job, op);
    SameCredentialOrphansNone(db, job, op);
    NewLeaseIsIssued(db, job, lease);
  }

  lemma NewLeaseIsIssued(db: Db, job: Uuid, lease: Lease)
    requires LeasesIssued(db.operations, db.claims) && ClaimsKnown(db.claims, db.used)
    requires job in db.operations && lease.token !in db.used
    ensures LeasesIssued(db.operations[job := db.operations[job].(lease := Some(lease))],
                         db.claims[lease.token := ClaimOf(db.operations[job], job, lease)])
  {
    var operations := db.operations[job := db.operations[job].(lease := Some(lease))];
    var claims := db.claims[lease.token := ClaimOf(db.operations[job], job, lease)];
    forall other | other in operations
      ensures LeaseIssued(operations[other], other, claims)
    {
      assert LeaseIssued(db.operations[other], other, db.claims);
    }
  }

  lemma SameCredentialOrphansNone(db: Db, job: Uuid, op: Operation)
    requires NoOrphanedCredential(db.operations, db.sessions) && job in db.operations
    requires op.owner == db.operations[job].owner && op.credentialGeneration == db.operations[job].credentialGeneration
    requires op.reauthSession == db.operations[job].reauthSession
             && op.deletionSession == db.operations[job].deletionSession
    ensures NoOrphanedCredential(db.operations[job := op], db.sessions)
  {
    forall k | k in db.sessions && db.sessions[k].state.DeletionOnly?
      ensures Referenced(db.operations[job := op], k.0, k.1, db.sessions[k].state)
    {
      assert Referenced(db.operations, k.0, k.1, db.sessions[k].state);
    }
  }

  lemma FailureKeeps(db: Db, claim: ClaimedOperation, nextAt: Time, nextAttempt: nat)
    requires Inv(db)
    ensures Inv(RecordFailure(db, claim, nextAt, nextAttempt).0)
  {
    var (after, outcome) := RecordFailure(db, claim, nextAt, nextAttempt);
    if outcome == Done {
      SameCredentialOrphansNone(db, claim.jobId, after.operations[claim.jobId]);
      RowUpdateKeeps(db, claim.jobId, after.operations[claim.jobId], db.sessions);
    }
  }

  // When the row lets a session go, that session must no longer be deletion-only.
  lemma ReleasedCredentialOrphansNone(db: Db, job: Uuid, op: Operation, sessions: map<(Did, SessionId), Session>)
    requires Inv(db) && job in db.operations && !db.operations[job].status.StatusIntent?
    requires db.operations[job].deletionSession.Some?
    requires sessions == Revoke(db.sessions, db.operations[job].owner, db.operations[job].deletionSession.value)
    ensures NoOrphanedCredential(db.operations[job := op], sessions)
  {
    forall k | k in sessions && sessions[k].state.DeletionOnly?
      ensures Referenced(db.operations[job := op], k.0, k.1, sessions[k].state)
    {
      assert Referenced(db.operations, k.0, k.1, db.sessions[k].state);
    }
  }

  lemma ExpireCredentialKeeps(db: Db, job: Uuid)
    requires Inv(db)
    ensures Inv(ExpireCredential(db, job).0)
  {
    var (after, outcome) := ExpireCredential(db, job);
    if outcome == Done {
      ReleasedCredentialOrphansNone(db, job, after.operations[job], after.sessions);
      RowUpdateKeeps(db, job, after.operations[job], after.sessions);
    }
  }

  lemma LoseCredentialKeeps(db: Db, claim: ClaimedOperation)
    requires Inv(db)
    ensures Inv(LoseCredential(db, claim).0)
  {
    var (after, outcome) := LoseCredential(db, claim);
    if outcome == Done {
      ReleasedCredentialOrphansNone(db, claim.jobId, after.operations[claim.jobId], after.sessions);
      RowUpdateKeeps(db, claim.jobId, after.operations[claim.jobId], after.sessions);
    }
  }

  lemma RefreshKeeps(db: Db, owner: Did, session: SessionId)
    requires Inv(db)
    ensures Inv(RefreshBoundOAuth(db, owner, session).0)
  {
    var (after, outcome) := RefreshBoundOAuth(db, owner, session);
    if outcome == Done {
      var job := OperationOf(db.operations, owner).value;
      var op := db.operations[job];
      if op.deletionSession.value == session {
        forall k | k in db.sessions && db.sessions[k].state.DeletionOnly?
          ensures Referenced(after.operations, k.0, k.1, db.sessions[k].state)
        {
          assert Referenced(db.operations, k.0, k.1, db.sessions[k].state);
        }
      } else {
        ReleasedCredentialOrphansNone(db, job, after.operations[job], after.sessions);
      }
      RowUpdateKeeps(db, job, after.operations[job], after.sessions);
    }
  }

  lemma CompleteKeeps(db: Db, claim: ClaimedOperation, expected: int)
    requires Inv(db)
    ensures Inv(Complete(db, claim, expected).0)
  {
    var (after, outcome) := Complete(db, claim, expected);
    if outcome == Done {
      RevokingAllOrphansNone(db.operations, db.sessions, claim.jobId);
      RemovalKeeps(db, claim.jobId, Advanced(db.lifecycles[claim.owner], Departed), after.sessions);
      assert after == WithoutOperation(db, claim.jobId).(lifecycles := after.lifecycles, sessions := after.sessions);
    }
  }

  lemma ClaimSafetyKeeps(db: Db, claim: ClaimedOperation)
    requires Inv(db)
    ensures Inv(ClaimSafety(db, claim).0)
  {
    var (after, id, outcome) := ClaimSafety(db, claim);
    if outcome == Done {
      TombstoneStateKeepsSafety(db, id.value, after.tombstones[id.value]);
    }
  }

  lemma ReleaseKeeps(db: Db, id: Uuid, token: Uuid, nextAttemptAt: Time)
    requires Inv(db)
    ensures Inv(ReleaseSafety(db, id, token, nextAttemptAt).0)
  {
    var (after, outcome) := ReleaseSafety(db, id, token, nextAttemptAt);
    if outcome == Done {
      TombstoneStateKeepsSafety(db, id, after.tombstones[id]);
    }
  }

  lemma SettleKeeps(db: Db, id: Uuid, record: bool)
    requires Inv(db)
    ensures Inv(Settle(db, id, record))
  {
    if Settle(db, id, record) != db {
      TombstoneStateKeepsSafety(db, id, Settle(db, id, record).tombstones[id]);
    }
  }

  lemma AdoptObjectKeeps(db: Db, job: Uuid, id: Uuid, key: SafetyKey, source: string)
    requires Inv(db)
    ensures Inv(AdoptObject(db, job, id, key, source))
  {
    var after := AdoptObject(db, job, id, key, source);
    if after != db {
      InsertKeepsKeysUnique(db.tombstones, id, after.tombstones[id]);
      MoreTombstonesKeepCover(db, after.tombstones);
      forall other | other in after.tombstones
        ensures TombstoneOwned(after.tombstones[other], db.operations)
      {
        if other != id {
          assert TombstoneOwned(db.tombstones[other], db.operations);
        }
      }
    }
  }

  // An accepted row belongs to an owner in deletion, and a write is dispatched
  // only for an active one: no new write can enter an accepted row's generation.
  lemma DispatchKeeps(db: Db, write: Attempt)
    requires Inv(db)
    ensures Inv(Dispatch(db, write))
  {
    var after := Dispatch(db, write);
    forall job, row | job in db.operations && !db.operations[job].status.StatusIntent? && row in after.journal
      ensures Covered(db.tombstones, job, db.operations[job], row)
    {
      if row in db.journal {
        assert Covered(db.tombstones, job, db.operations[job], row);
      }
    }
  }

  lemma ResolveKeeps(db: Db, index: nat)
    requires Inv(db)
    ensures Inv(Resolve(db, index))
  {
    var after := Resolve(db, index);
    forall job, row | job in db.operations && !db.operations[job].status.StatusIntent? && row in after.journal
      ensures Covered(db.tombstones, job, db.operations[job], row)
    {
      if row in db.journal {
        assert Covered(db.tombstones, job, db.operations[job], row);
      }
    }
  }

  lemma ActivateKeeps(db: Db, owner: Did, expected: int)
    requires Inv(db)
    ensures Inv(Activate(db, owner, expected).0)
  {
    var (after, outcome) := Activate(db, owner, expected);
    if outcome == Done {
      LifecycleStepWithoutRowKeepsStages(db.lifecycles, db.operations, owner, after.lifecycles[owner]);
    }
  }

  lemma OnboardKeeps(db: Db, owner: Did)
    requires Inv(db)
    ensures Inv(Onboard(db, owner))
  {
    if owner !in db.lifecycles {
      LifecycleStepWithoutRowKeepsStages(db.lifecycles, db.operations, owner, Lifecycle(Departed, 1, 1));
    }
  }

  lemma SessionStepsKeep(db: Db, owner: Did, session: SessionId)
    requires Inv(db)
    ensures Inv(OpenSession(db, owner, session)) && Inv(ConfirmSession(db, owner, session))
  {
  }

  lemma RevokeKeeps(db: Db, owner: Did, session: SessionId)
    requires Inv(db)
    ensures Inv(db.(sessions := Revoke(db.sessions, owner, session)))
  {
    RevokingOrphansNone(db.operations, db.sessions, owner, session);
  }

  // Logging out everywhere moves no lifecycle and creates no deletion-only session.
  lemma LogoutKeeps(db: Db, owner: Did)
    requires Inv(db)
    ensures Inv(LogoutEverywhere(db, owner).0)
  {
    var (after, outcome) := LogoutEverywhere(db, owner);
    if outcome == Done {
      EpochKeepsStages(db, owner, after.lifecycles[owner]);
      forall k | k in after.sessions && after.sessions[k].state.DeletionOnly?
        ensures Referenced(db.operations, k.0, k.1, after.sessions[k].state)
      {
        assert Referenced(db.operations, k.0, k.1, db.sessions[k].state);
      }
    }
  }

  lemma EpochKeepsStages(db: Db, owner: Did, l: Lifecycle)
    requires Inv(db) && owner in db.lifecycles && l == db.lifecycles[owner].(authEpoch := l.authEpoch)
    ensures OperationsStaged(db.lifecycles[owner := l], db.operations)
    ensures DeletingOwnersHaveOperation(db.lifecycles[owner := l], db.operations)
  {
  }

  lemma UserStepKeepsInv(db: Db, step: UserStep)
    requires Inv(db)
    ensures Inv(ApplyUser(db, step).0)
  {
    match step
    case Begin(expected, intent) => CreateIntentKeeps(db, expected, intent);
    case Cancel(expected, to, job, owner) => CancelKeeps(db, expected, to, job, owner);
    case Depart(owner, expected) => DepartKeeps(db, owner, expected);
    case Bind(attempt, job, generation, proof) => BindKeeps(db, attempt, job, generation, proof);
    case Confirm(expected, request, binding, ids) => AcceptKeeps(db, expected, request, binding, ids);
    case Relogin(owner, session) => RefreshKeeps(db, owner, session);
  }

  lemma KeyCallsKeepInv(db: Db, claim: ClaimedOperation, call: WorkerCall)
    requires Inv(db) && (call.Inventory? || call.ClaimKey? || call.ReleaseKey?)
    ensures Inv(ApplyCall(db, claim, call).0)
  {
    match call
    case Inventory(ids) => AdoptKeeps(db, claim, ids);
    case ClaimKey => ClaimSafetyKeeps(db, claim);
    case ReleaseKey(id, nextAttemptAt) => ReleaseKeeps(db, id, claim.leaseToken, nextAttemptAt);
  }

  lemma RowCallsKeepInv(db: Db, claim: ClaimedOperation, call: WorkerCall)
    requires Inv(db) && (call.Fail? || call.Finish? || call.LoseAuthority?)
    ensures Inv(ApplyCall(db, claim, call).0)
  {
    match call
    case Fail(nextAt) => FailureKeeps(db, claim, nextAt, claim.attemptCount + 1);
    case Finish(expected) => CompleteKeeps(db, claim, expected);
    case LoseAuthority => LoseCredentialKeeps(db, claim);
  }

  lemma WorkerCallKeepsInv(db: Db, claim: ClaimedOperation, call: WorkerCall)
    requires Inv(db)
    ensures Inv(ApplyCall(db, claim, call).0)
  {
    if call.Inventory? || call.ClaimKey? || call.ReleaseKey? {
      KeyCallsKeepInv(db, claim, call);
    } else {
      RowCallsKeepInv(db, claim, call);
    }
  }

  predicate OnSessions(step: ServiceStep) {
    || step.OnboardOwner? || step.ActivateOwner? || step.Open? || step.ConfirmHandoff?
    || step.LogoutAll? || step.ExpireBoundSession? || step.RevokeSession?
  }

  lemma SessionStepKeepsInv(db: Db, step: ServiceStep)
    requires Inv(db) && OnSessions(step)
    ensures Inv(ApplyService(db, step).0)
  {
    match step
    case OnboardOwner(owner) => OnboardKeeps(db, owner);
    case ActivateOwner(owner, expected) => ActivateKeeps(db, owner, expected);
    case Open(owner, session) => SessionStepsKeep(db, owner, session);
    case ConfirmHandoff(owner, session) => SessionStepsKeep(db, owner, session);
    case LogoutAll(owner) => LogoutKeeps(db, owner);
    case ExpireBoundSession(job) => ExpireCredentialKeeps(db, job);
    case RevokeSession(owner, session) => RevokeKeeps(db, owner, session);
  }

  lemma ServiceStepKeepsInv(db: Db, step: ServiceStep)
    requires Inv(db)
    ensures Inv(ApplyService(db, step).0)
  {
    if OnSessions(step) {
      SessionStepKeepsInv(db, step);
    } else {
      WorkStepKeepsInv(db, step);
    }
  }

  lemma WorkStepKeepsInv(db: Db, step: ServiceStep)
    requires Inv(db) && !OnSessions(step)
    ensures Inv(ApplyService(db, step).0)
  {
    match step
    case Claim(job, token, duration) => ClaimKeeps(db, job, token, duration);
    case DispatchWrite(write) => DispatchKeeps(db, write);
    case ResolveWrite(index) => ResolveKeeps(db, index);
    case InventoryObject(job, id, key, source) => AdoptObjectKeeps(db, job, id, key, source);
    case SettleObject(id) => SettleKeeps(db, id, false);
    case SettleRecord(id) => SettleKeeps(db, id, true);
    case _ =>
  }

  lemma StepKeepsInv(db: Db, step: Step)
    requires Inv(db)
    ensures Inv(Apply(db, step).0)
  {
    match step
    case ByUser(user) => UserStepKeepsInv(db, user);
    case ByWorker(token, call) => if token in db.claims { WorkerCallKeepsInv(db, db.claims[token], call); }
    case ByService(service) => ServiceStepKeepsInv(db, service);
  }

  lemma {:induction false} RunKeepsInv(db: Db, steps: seq<Step>)
    requires Inv(db)
    ensures Inv(Run(db, steps))
    decreases |steps|
  {
    if steps != [] {
      var n := |steps| - 1;
      RunKeepsInv(db, steps[..n]);
      StepKeepsInv(Run(db, steps[..n]), steps[n]);
    }
  }

  // The empty service is where every run starts.
  const EMPTY: Db := Db(0, map[], {}, map[], map[], map[], [], map[], {})

  lemma ReachableStatesSatisfyInv(steps: seq<Step>)
    ensures Inv(Run(EMPTY, steps))
  {
    RunKeepsInv(EMPTY, steps);
  }
}
