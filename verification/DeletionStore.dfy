// The deletion store: rows updated in place, each method one transaction that
// either commits or restores the rows it found. Between two transactions of one
// caller any other actor may have run.
module DeletionStore {
  import opened Wrappers
  import opened CraftskyCollections
  import opened DeletionTables
  import opened SafetyTombstones
  import opened SafetySchedule
  import opened DeletionTransactions
  import opened DeletionSteps
  import opened DeletionInvariant
  import opened DeletionPreservation
  import opened DeletionEffects
  import opened DeletionWorkEffects

  // One step of a caller: its place in the history, what it found and what it left.
  datatype Deed = Deed(at: nat, found: Db, step: Step, outcome: Outcome, left: Db)

  ghost predicate Happened(d: Deed, start: Db, history: seq<Step>) {
    && d.at < |history| && history[d.at] == d.step
    && d.found == Run(start, history[..d.at])
    && Apply(d.found, d.step) == (d.left, d.outcome)
  }

  ghost predicate IsRecorded(own: seq<Deed>, start: Db, history: seq<Step>, recorded: Db) {
    forall seal: bool {:trigger Unsealed(seal)} :: Unsealed(seal) ==>
      && Inv(start)
      && recorded == Run(start, history)
      && forall d <- own :: Happened(d, start, history)
  }

  lemma RecordedGrows(own: seq<Deed>, start: Db, history: seq<Step>, recorded: Db, step: Step, after: Db)
    requires IsRecorded(own, start, history, recorded) && after == Apply(recorded, step).0
    ensures IsRecorded(own, start, history + [step], after)
    ensures forall outcome :: Apply(recorded, step).1 == outcome ==>
              Happens(Deed(|history|, recorded, step, outcome, after), start, history + [step])
  {
    assert Unsealed(true);
    var longer := history + [step];
    assert longer[..|history|] == history;
    forall d | d in own
      ensures Happened(d, start, longer)
    {
      assert longer[..d.at] == history[..d.at];
    }
  }

  lemma StepIsRecorded(own: seq<Deed>, start: Db, history: seq<Step>, recorded: Db, step: Step, after: Db)
    requires IsRecorded(own, start, history, recorded) && StepLeads(recorded, step, after)
    ensures IsRecorded(own, start, history + [step], after)
  {
    assert Unsealed(true);
    RecordedGrows(own, start, history, recorded, step, after);
  }

  // Sealed, for the same reason.
  ghost predicate Happens(d: Deed, start: Db, history: seq<Step>) {
    forall seal: bool {:trigger Unsealed(seal)} :: Unsealed(seal) ==> Happened(d, start, history)
  }

  lemma OwnGrows(own: seq<Deed>, start: Db, history: seq<Step>, recorded: Db, d: Deed)
    requires IsRecorded(own, start, history, recorded) && Happens(d, start, history)
    ensures IsRecorded(own + [d], start, history, recorded)
  {
    assert Unsealed(true);
  }

  class Store {
    var now: Time
    var lifecycles: map<Did, Lifecycle>
    var profiles: set<Did>
    var operations: map<Uuid, Operation>
    var sessions: map<(Did, SessionId), Session>
    var tombstones: map<Uuid, Tombstone>
    var journal: seq<Attempt>
    var claims: map<Uuid, ClaimedOperation>
    var used: set<Uuid>

    // What other actors do before this caller's n-th transaction.
    const others: nat -> seq<Step>
    var turn: nat

    const start: Db
    ghost var history: seq<Step>   // every step taken since start, by anyone
    ghost var own: seq<Deed>       // this caller's part of it
    ghost var recorded: Db         // where the history has led

    function State(): Db
      reads this
    {
      Db(now, lifecycles, profiles, operations, sessions, tombstones, journal, claims, used)
    }

    ghost predicate Valid()
      reads this
    {
      Recorded() && State() == recorded
    }

    // Sealed: callers see what it says through the lemmas below.
    ghost predicate Recorded()
      reads this`history, this`own, this`recorded
    {
      IsRecorded(own, start, history, recorded)
    }

    // Every state a caller sees is a state of a run of the protocol's steps.
    lemma StateIsReached()
      requires Valid()
      ensures Inv(start) && State() == Run(start, history) && Inv(State())
    {
      assert Unsealed(true);
      RunKeepsInv(start, history);
    }

    lemma IdsAreUsed()
      requires Valid()
      ensures tombstones.Keys <= used
    {
      StateIsReached();
    }

    lemma OwnersHaveOneRow()
      requires Valid()
      ensures OneOperationPerOwner(operations)
    {
      StateIsReached();
    }

    lemma LossHere(claim: ClaimedOperation)
      requires Valid()
      ensures var (after, outcome) := LoseCredential(State(), claim);
        && (outcome == Done <==> CanLose(State(), claim))
        && if outcome == Done then LeftStranded(State(), after, claim.jobId) else after == State()
    {
      StateIsReached();
      LossEffect(State(), claim);
    }

    lemma StartIsSound()
      requires Valid()
      ensures Inv(start)
    {
      assert Unsealed(true);
    }

    lemma OwnStepHappened(i: nat)
      requires Valid() && i < |own|
      ensures Happened(own[i], start, history) && Inv(own[i].found)
    {
      assert Unsealed(true);
      assert own[i] in own;
      RunKeepsInv(start, history[..own[i].at]);
    }

    constructor (db: Db, others: nat -> seq<Step>)
      requires Inv(db)
      ensures Valid() && State() == db && history == [] && own == [] && this.others == others && turn == 0
    {
      now, lifecycles, profiles, operations, sessions := db.now, db.lifecycles, db.profiles, db.operations, db.sessions;
      tombstones, journal, claims, used := db.tombstones, db.journal, db.claims, db.used;
      start, history, own, recorded, this.others, turn := db, [], [], db, others, 0;
    }

    // This caller took one more step, and nobody else did.
    twostate predicate Committed(step: Step, outcome: Outcome)
      reads this
    {
      && Valid() && turn == old(turn)
      && history == old(history) + [step]
      && own == old(own) + [Deed(|old(history)|, old(State()), step, outcome, State())]
    }

    // Time went on: the history and this caller's part of it only grew.
    twostate predicate Grew()
      reads this
    {
      && old(history) <= history && old(own) <= own && old(turn) <= turn
      && forall i :: |old(own)| <= i < |own| ==> |old(history)| <= own[i].at
    }

    ghost method Took(step: Step, outcome: Outcome)
      requires Recorded() && Apply(recorded, step) == (State(), outcome)
      modifies this`history, this`own, this`recorded
      ensures Valid() && history == old(history) + [step]
      ensures own == old(own) + [Deed(|old(history)|, old(recorded), step, outcome, State())]
    {
      RecordedGrows(own, start, history, recorded, step, State());
      OwnGrows(own, start, history + [step], State(), Deed(|history|, recorded, step, outcome, State()));
      own := own + [Deed(|history|, recorded, step, outcome, State())];
      history, recorded := history + [step], State();
    }

    // The rows after somebody else's step.
    method After(step: Step) returns (db: Db)
      ensures StepLeads(State(), step, db)
    {
      db := Apply(State(), step).0;
    }

    method OtherStep(step: Step)
      requires Valid()
      modifies this
      ensures Valid() && turn == old(turn) && own == old(own)
      ensures history == old(history) + [step] && StepLeads(old(State()), step, State())
    {
      var db := After(step);
      StepIsRecorded(own, start, history, recorded, step, db);
      Become(db);
      history, recorded := history + [step], db;
    }

    method Become(db: Db)
      modifies this`now, this`lifecycles, this`profiles, this`operations, this`sessions
      modifies this`tombstones, this`journal, this`claims, this`used
      ensures State() == db
    {
      now, lifecycles, profiles, operations, sessions := db.now, db.lifecycles, db.profiles, db.operations, db.sessions;
      tombstones, journal, claims, used := db.tombstones, db.journal, db.claims, db.used;
    }

    // Another actor's turn.
    method Yield()
      requires Valid()
      modifies this
      ensures Valid() && turn == old(turn) + 1
      ensures history == old(history) + others(old(turn)) && own == old(own)
      ensures Leads(old(State()), others(old(turn)), State())
    {
      var steps := others(turn);
      ghost var before, here := history, State();
      LeadsNowhere(here);
      var i := 0;
      while i < |steps|
        invariant i <= |steps| && Valid() && turn == old(turn) && own == old(own)
        invariant history == before + steps[..i]
        invariant Leads(here, steps[..i], State())
      {
        ghost var there := State();
        OtherStep(steps[i]);
        StepLeadsOn(here, steps[..i], there, steps[i], State());
        assert steps[..i + 1] == steps[..i] + [steps[i]];
        i := i + 1;
      }
      assert steps[..i] == steps;
      turn := turn + 1;
    }

    // Rolls a transaction back.
    method Restore(saved: Db)
      requires now == saved.now && profiles == saved.profiles && journal == saved.journal && claims == saved.claims
      modifies this`lifecycles, this`operations, this`sessions, this`tombstones, this`used
      ensures State() == saved
    {
      lifecycles, operations, sessions, tombstones, used :=
        saved.lifecycles, saved.operations, saved.sessions, saved.tombstones, saved.used;
    }

    // --- The pieces of a transaction -----------------------------------------

    // TransitionWith up to its participant.
    method AdvanceLifecycle(owner: Did, expected: int, to: LifecycleState) returns (outcome: Outcome)
      modifies this`lifecycles
      ensures outcome == TransitionCheck(old(State()), owner, expected, to)
      ensures State() == if outcome.Done? then WithLifecycle(old(State()), owner, to) else old(State())
    {
      if expected <= 0 || to.Terminal? {
        return InvalidTransition;
      }
      if owner !in lifecycles {
        return Failed;
      }
      var current := lifecycles[owner];
      if current.state.Terminal? {
        return TerminalOwner;
      }
      if current.generation != expected {
        return GenerationChanged;
      }
      if !ValidTransition(current.state, to) {
        return InvalidTransition;
      }
      var epoch := current.authEpoch;
      if to.Departed? || (current.state.DeletionPending? && to.Deleting?) {
        epoch := epoch + 1;
      }
      lifecycles := lifecycles[owner := Lifecycle(to, current.generation + 1, epoch)];
      outcome := Done;
    }

    // UPDATE oauth_sessions ... WHERE account_did=owner, one row after another.
    method RevokeSessions(owner: Did, kept: Option<SessionId>, epoch: int)
      modifies this`sessions
      ensures sessions == match kept
                          case None => RevokeAll(old(sessions), owner)
                          case Some(id) => RevokeAllBut(old(sessions), owner, id, epoch)
    {
      var rows := sessions.Keys;
      while rows != {}
        invariant rows <= sessions.Keys == old(sessions).Keys
        invariant forall k :: k in rows ==> sessions[k] == old(sessions)[k]
        invariant forall k :: k in sessions && k !in rows ==>
                    sessions[k] == match kept
                                   case None => RevokeAll(old(sessions), owner)[k]
                                   case Some(id) => RevokeAllBut(old(sessions), owner, id, epoch)[k]
        decreases |rows|
      {
        var k :| k in rows;
        rows := rows - {k};
        if k.0 == owner {
          if kept == Some(k.1) {
            sessions := sessions[k := sessions[k].(authEpoch := epoch)];
          } else {
            sessions := sessions[k := sessions[k].(state := RevocationPending)];
          }
        }
      }
    }

    // DELETE FROM account_deletion_operations; its tombstones go with it.
    method DeleteOperation(job: Uuid)
      modifies this`operations, this`tombstones
      ensures State() == WithoutOperation(old(State()), job)
    {
      operations := operations - {job};
      DeleteTombstones(job);
    }

    method DeleteTombstones(job: Uuid)
      modifies this`tombstones
      ensures tombstones == map id | id in old(tombstones)
              && old(tombstones)[id].operation != job :: old(tombstones)[id]
    {
      var rows := tombstones.Keys;
      while rows != {}
        invariant rows <= old(tombstones).Keys && tombstones.Keys <= old(tombstones).Keys
        invariant forall id :: id in tombstones ==> tombstones[id] == old(tombstones)[id]
        invariant forall id :: id in rows ==> id in tombstones
        invariant forall id :: id in old(tombstones) && id !in rows ==>
                    (id in tombstones <==> old(tombstones)[id].operation != job)
        decreases |rows|
      {
        var id :| id in rows;
        rows := rows - {id};
        if tombstones[id].operation == job {
          tombstones := tombstones - {id};
        }
      }
    }

    // Cancel and departure drop the intent and queue its credential for revocation.
    method DropIntentRow(owner: Did, job: Uuid) returns (outcome: Outcome)
      requires job in operations
      modifies this`operations, this`tombstones, this`sessions
      ensures (State(), outcome) == DropIntent(old(State()), owner, job)
    {
      var reauthSession := operations[job].reauthSession;
      if reauthSession.Some? {
        var key := (owner, reauthSession.value);
        if key !in sessions || !sessions[key].state.DeletionOnly? || sessions[key].state.operation != job {
          return ReauthenticationRequired;
        }
        sessions := sessions[key := sessions[key].(state := RevocationPending)];
      }
      DeleteOperation(job);
      outcome := Done;
    }

    // --- User transactions ---------------------------------------------------

    method CreateIntentWith(expected: int, intent: IntentRecord) returns (outcome: Outcome)
      requires Valid()
      modifies this
      ensures Valid()
      ensures (State(), outcome) == CreateIntent(old(State()), expected, intent)
      ensures outcome == Done <==> CanBegin(old(State()), expected, intent)
      ensures if outcome == Done then Begun(old(State()), State(), intent) else State() == old(State())
      ensures Committed(ByUser(Begin(expected, intent)), outcome)
    {
      BeginEffect(State(), expected, intent);
      outcome := CreateIntentTransaction(expected, intent);
      Took(ByUser(Begin(expected, intent)), outcome);
    }

    method CreateIntentTransaction(expected: int, intent: IntentRecord) returns (outcome: Outcome)
      modifies this`lifecycles, this`operations, this`sessions, this`tombstones, this`used
      ensures (State(), outcome) == CreateIntent(old(State()), expected, intent)
    {
      var saved := State();
      outcome := AdvanceLifecycle(intent.owner, expected, DeletionPending);
      if outcome.Done? {
        if intent.jobId in used {
          outcome := Failed;
        } else if HasOperation(operations, intent.owner) {
          outcome := AlreadyPending;
        } else {
          used := used + {intent.jobId};
          operations := operations[intent.jobId := NewIntent(intent, expected)];
        }
        if !outcome.Done? {
          Restore(saved);
        }
      }
    }

    method CancelIntentWith(expected: int, to: LifecycleState, job: Uuid, owner: Did) returns (outcome: Outcome)
      requires Valid()
      modifies this
      ensures Valid()
      ensures (State(), outcome) == CancelIntent(old(State()), expected, to, job, owner)
      ensures outcome == Done <==> CanCancel(old(State()), expected, to, job, owner)
      ensures if outcome == Done then Canceled(old(State()), State(), to, job, owner) else State() == old(State())
      ensures Committed(ByUser(Cancel(expected, to, job, owner)), outcome)
    {
      CancelEffect(State(), expected, to, job, owner);
      outcome := CancelTransaction(expected, to, job, owner);
      Took(ByUser(Cancel(expected, to, job, owner)), outcome);
    }

    method CancelTransaction(expected: int, to: LifecycleState, job: Uuid, owner: Did) returns (outcome: Outcome)
      modifies this`lifecycles, this`operations, this`sessions, this`tombstones, this`used
      ensures (State(), outcome) == CancelIntent(old(State()), expected, to, job, owner)
    {
      var saved := State();
      outcome := AdvanceLifecycle(owner, expected, to);
      if outcome.Done? {
        outcome := CancelParticipant(saved.lifecycles[owner].state, to, job, owner);
        if outcome.Done? && to.Departed? {
          RevokeSessions(owner, None, 0);
        }
        if !outcome.Done? {
          Restore(saved);
        }
      }
    }

    method CancelParticipant(from: LifecycleState, to: LifecycleState, job: Uuid, owner: Did) returns (outcome: Outcome)
      modifies this`operations, this`tombstones, this`sessions
      ensures (if outcome.Done? then State() else old(State()), outcome) ==
        if !from.DeletionPending? || to !in {Active, Departed} then (old(State()), NotFound)
        else if (owner in profiles) != to.Active? then (old(State()), GenerationChanged)
        else if job !in old(operations) || old(operations)[job].owner != owner then (old(State()), NotFound)
        else if old(operations)[job].status != StatusIntent then (old(State()), PointOfNoReturn)
        else DropIntent(old(State()), owner, job)
    {
      if !from.DeletionPending? || (!to.Active? && !to.Departed?) {
        return NotFound;
      }
      var profileExists := owner in profiles;
      if profileExists != to.Active? {
        return GenerationChanged;
      }
      if job !in operations || operations[job].owner != owner {
        return NotFound;
      }
      if !operations[job].status.StatusIntent? {
        return PointOfNoReturn;
      }
      outcome := DropIntentRow(owner, job);
    }

    method DepartWith(owner: Did, expected: int) returns (outcome: Outcome)
      requires Valid()
      modifies this
      ensures Valid()
      ensures (State(), outcome) == ProfileDeparture(old(State()), owner, expected)
      ensures outcome == Done <==> CanDepart(old(State()), owner, expected)
      ensures if outcome == Done then Left(old(State()), State(), owner) else State() == old(State())
      ensures Committed(ByUser(Depart(owner, expected)), outcome)
    {
      StateIsReached();
      DepartEffect(State(), owner, expected);
      outcome := DepartTransaction(owner, expected);
      Took(ByUser(Depart(owner, expected)), outcome);
    }

    method DepartTransaction(owner: Did, expected: int) returns (outcome: Outcome)
      modifies this`lifecycles, this`operations, this`sessions, this`tombstones, this`used
      ensures (State(), outcome) == ProfileDeparture(old(State()), owner, expected)
    {
      var saved := State();
      outcome := AdvanceLifecycle(owner, expected, Departed);
      if outcome.Done? {
        var from := saved.lifecycles[owner].state;
        if from.DeletionPending? {
          var job := OperationOf(operations, owner);
          if job.None? || !operations[job.value].status.StatusIntent? {
            outcome := NotFound;
          } else {
            outcome := DropIntentRow(owner, job.value);
          }
        } else if !from.Active? {
          outcome := InvalidTransition;
        }
        if outcome.Done? {
          RevokeSessions(owner, None, 0);
        } else {
          Restore(saved);
        }
      }
    }

    method BindReauthenticationWith(attempt: CallbackAttempt, job: Uuid, credentialGeneration: int, proofHash: Digest)
      returns (outcome: Outcome)
      requires Valid()
      modifies this
      ensures Valid()
      ensures (State(), outcome) == BindReauthentication(old(State()), attempt, job, credentialGeneration, proofHash)
      ensures outcome == Done <==> CanBind(old(State()), attempt, job, credentialGeneration)
      ensures if outcome == Done then Bound(old(State()), State(), attempt, job, credentialGeneration, proofHash)
              else State() == old(State())
      ensures Committed(ByUser(Bind(attempt, job, credentialGeneration, proofHash)), outcome)
    {
      BindEffect(State(), attempt, job, credentialGeneration, proofHash);
      outcome := BindTransaction(attempt, job, credentialGeneration, proofHash);
      Took(ByUser(Bind(attempt, job, credentialGeneration, proofHash)), outcome);
    }

    method BindTransaction(attempt: CallbackAttempt, job: Uuid, credentialGeneration: int, proofHash: Digest)
      returns (outcome: Outcome)
      modifies this`lifecycles, this`operations, this`sessions, this`tombstones, this`used
      ensures (State(), outcome) == BindReauthentication(old(State()), attempt, job, credentialGeneration, proofHash)
    {
      var saved := State();
      outcome := BindOperation(attempt, job, credentialGeneration, proofHash);
      if outcome.Done? {
        var key, l := (attempt.owner, attempt.session), lifecycles[attempt.owner];
        if key !in sessions || !sessions[key].state.PendingHandoff?
           || sessions[key].ownerGeneration != l.generation || sessions[key].authEpoch != l.authEpoch {
          Restore(saved);
          outcome := Failed;
        } else {
          sessions := sessions[key := sessions[key].(state := DeletionOnly(job, credentialGeneration))];
        }
      }
    }

    // The authority checks of BindDeletionCredential and its operation binder.
    method BindOperation(attempt: CallbackAttempt, job: Uuid, credentialGeneration: int, proofHash: Digest)
      returns (outcome: Outcome)
      modifies this`operations
      ensures outcome.Done? ==>
                && attempt.owner in lifecycles
                && job in old(operations)
                && operations == old(operations)[job := old(operations)[job].(
                     reauthSession := Some(attempt.session), credentialGeneration := Some(credentialGeneration),
                     proofHash := Some(proofHash))]
                && (BindReauthentication(old(State()), attempt, job, credentialGeneration, proofHash).1.Done? <==>
                      (attempt.owner, attempt.session) in sessions
                      && sessions[(attempt.owner, attempt.session)].state.PendingHandoff?
                      && sessions[(attempt.owner, attempt.session)].ownerGeneration
                         == lifecycles[attempt.owner].generation
                      && sessions[(attempt.owner, attempt.session)].authEpoch == lifecycles[attempt.owner].authEpoch)
                && BindReauthentication(old(State()), attempt, job, credentialGeneration, proofHash).1 in {Done, Failed}
      ensures !outcome.Done? ==>
                outcome == BindReauthentication(old(State()), attempt, job, credentialGeneration, proofHash).1
                && operations == old(operations)
    {
      var owner := attempt.owner;
      if owner !in lifecycles {
        return Failed;
      }
      var l := lifecycles[owner];
      if (!l.state.DeletionPending? && !l.state.Deleting?) || l.generation != attempt.ownerGeneration
        || l.authEpoch != attempt.authEpoch {
        return Failed;
      }
      if credentialGeneration <= 0 || attempt.session == "" {
        return ReauthenticationRequired;
      }
      if job !in operations || operations[job].owner != owner {
        return Failed;
      }
      var op := operations[job];
      if !op.status.StatusIntent? || op.intentExpiresAt.None? || op.intentExpiresAt.value <= now
         || op.credentialGeneration.Some? || op.reauthSession.Some? {
        return ReauthenticationRequired;
      }
      operations := operations[job := op.(reauthSession := Some(attempt.session),
        credentialGeneration := Some(credentialGeneration), proofHash := Some(proofHash))];
      outcome := Done;
    }

    // AcceptTransition: the session participant around the operation's.
    method AcceptWith(expected: int, request: AcceptanceRequest, binding: CredentialBinding, ids: seq<Uuid>)
      returns (outcome: Outcome)
      requires Valid()
      modifies this
      ensures Valid()
      ensures (State(), outcome) == Accept(old(State()), expected, request, binding, ids)
      ensures outcome == Done <==> CanConfirm(old(State()), expected, request, binding, ids)
      ensures if outcome == Done then Confirmed(old(State()), State(), request, binding, ids)
              else State() == old(State())
      ensures Committed(ByUser(Confirm(expected, request, binding, ids)), outcome)
    {
      IdsAreUsed();
      ConfirmEffect(State(), expected, request, binding, ids);
      outcome := AcceptTransaction(expected, request, binding, ids);
      Took(ByUser(Confirm(expected, request, binding, ids)), outcome);
    }

    method AcceptTransaction(expected: int, request: AcceptanceRequest, binding: CredentialBinding, ids: seq<Uuid>)
      returns (outcome: Outcome)
      modifies this`lifecycles, this`operations, this`sessions, this`tombstones, this`used
      ensures (State(), outcome) == Accept(old(State()), expected, request, binding, ids)
    {
      var saved := State();
      outcome := AdvanceLifecycle(request.owner, expected, Deleting);
      if outcome.Done? {
        outcome := AcceptParticipant(request, binding, ids, saved);
        if outcome.Done? {
          if PreservesCredential(saved, request.owner, binding) {
            RevokeSessions(request.owner, Some(binding.session), lifecycles[request.owner].authEpoch);
          } else {
            outcome := Failed;
          }
        }
        if !outcome.Done? {
          Restore(saved);
        }
      }
    }

    // The operation row becomes an accepted job, then the journals are inventoried.
    method AcceptParticipant(request: AcceptanceRequest, binding: CredentialBinding, ids: seq<Uuid>, ghost saved: Db)
      returns (outcome: Outcome)
      requires request.owner in saved.lifecycles && State() == WithLifecycle(saved, request.owner, Deleting)
      modifies this`operations, this`tombstones, this`used
      ensures AcceptCheck(saved, request, binding) != Done ==> outcome == AcceptCheck(saved, request, binding)
      ensures AcceptCheck(saved, request, binding) == Done ==>
                var op := saved.operations[request.jobId];
                if !FreshIds(saved.used, ids) || |ids| < |saved.journal| then outcome == Failed
                else
                  match Adopted(saved, request.jobId, request.owner, op.ownerGeneration, ids)
                  case None => outcome == Failed
                  case Some(adopted) =>
                    && outcome == Done
                    && operations == saved.operations[request.jobId := Accepted(op, saved.now)]
                    && tombstones == adopted
                    && used == saved.used + (set id <- ids)
    {
      if binding.operation != request.jobId || binding.session == "" || binding.credentialGeneration <= 0 {
        return ReauthenticationRequired;
      }
      if request.jobId !in operations || operations[request.jobId].owner != request.owner {
        return Failed;
      }
      var op := operations[request.jobId];
      if op.reauthSession.None? || op.credentialGeneration.None? || op.intentExpiresAt.None? {
        return Failed;
      }
      if !op.status.StatusIntent? || op.reauthSession.value != binding.session
         || op.credentialGeneration.value != binding.credentialGeneration || op.intentExpiresAt.value <= now
         || op.proofHash != Some(Digest(request.reauthProof)) {
        return ReauthenticationRequired;
      }
      if op.didHash != Some(Digest(request.confirmation)) {
        return ConfirmationMismatch;
      }
      operations := operations[request.jobId := op.(status := StatusActive, acceptedAt := Some(now),
        deletionSession := op.reauthSession, reauthSession := None, proofHash := None, didHash := None,
        intentExpiresAt := None, attemptCount := 0, nextAttemptAt := Some(now))];
      outcome := AdoptAttempts(request.jobId, request.owner, op.ownerGeneration, ids);
    }

    // adoptUncertainPDSAttemptsTx: first every selected row is scope-checked, then
    // the kept ones are inserted one by one.
    method AdoptAttempts(job: Uuid, owner: Did, generation: int, ids: seq<Uuid>) returns (outcome: Outcome)
      modifies this`tombstones, this`used
      ensures if !FreshIds(old(used), ids) || |ids| < |journal| then outcome == Failed
              else
                match Adopted(old(State()), job, owner, generation, ids)
                case None => outcome == Failed
                case Some(adopted) => outcome == Done && tombstones == adopted && used == old(used) + (set id <- ids)
    {
      if !FreshIds(used, ids) || |ids| < |journal| {
        return Failed;
      }
      var rows := UncertainWrites(journal, owner, generation);
      var attempts := ScanAttempts(rows, owner);
      if attempts.None? {
        AdoptionRefusedExactlyWhenBlocked(tombstones, job, owner, rows, ids, now);
        return Failed;
      }
      outcome := InsertAttempts(job, owner, rows, attempts.value, ids);
      if outcome.Done? {
        used := used + (set id <- ids);
      }
    }

    // The loop over the scanned rows: fail closed on a malformed or foreign key.
    method ScanAttempts(rows: seq<Attempt>, owner: Did) returns (attempts: Option<seq<nat>>)
      ensures attempts.Some? ==> Kept(attempts.value, rows, owner)
      ensures attempts.None? ==> exists row <- rows :: !OwnedKey(owner, row.key)
    {
      var kept: seq<nat> := [];
      for i := 0 to |rows|
        invariant Kept(kept, rows[..i], owner)
      {
        var row := rows[i];
        if !OwnedKey(owner, row.key) {
          return None;
        }
        assert rows[..i + 1] == rows[..i] + [row];
        ghost var before := kept;
        if Registered(row.key.collection) {
          kept := kept + [i];
        }
        KeptGrows(before, kept, rows, owner, i);
      }
      assert rows[..|rows|] == rows;
      attempts := Some(kept);
    }

    // The loop over the kept rows.
    method InsertAttempts(job: Uuid, owner: Did, rows: seq<Attempt>, attempts: seq<nat>, ids: seq<Uuid>)
      returns (outcome: Outcome)
      requires |rows| <= |ids| && Kept(attempts, rows, owner)
      modifies this`tombstones
      ensures outcome in {Done, Failed}
      ensures outcome == Failed ==> AdoptRows(old(tombstones), job, owner, rows, ids, now) == None
      ensures outcome == Done ==> AdoptRows(old(tombstones), job, owner, rows, ids, now) == Some(tombstones)
    {
      ghost var base := tombstones;
      for k := 0 to |attempts|
        invariant AdoptedUpTo(base, job, owner, rows, ids, now, attempts, k, tombstones)
      {
        var i := attempts[k];
        ghost var sofar := tombstones;
        outcome := InsertAttempt(job, rows[i], ids[i]);
        if outcome.Failed? {
          BlockedRowRefusesAll(base, job, owner, rows, ids, now, i);
          return;
        }
        NextKeptRow(base, job, owner, rows, ids, now, attempts, k, sofar);
      }
      AllRowsOffered(base, job, owner, rows, ids, now, attempts, tombstones);
      outcome := Done;
    }

    // INSERT ... ON CONFLICT DO NOTHING, under the table's key check.
    method InsertAttempt(job: Uuid, row: Attempt, id: Uuid) returns (outcome: Outcome)
      requires row.key.AtUri?
      modifies this`tombstones
      ensures outcome == if SchemaAdmits(row.key.collection) then Done else Failed
      ensures outcome == Done ==> tombstones == WithRow(old(tombstones), job, row, id, now)
    {
      if !SchemaAdmits(row.key.collection) {
        return Failed;
      }
      if !Inventoried(tombstones, job, row.key) {
        tombstones := tombstones[id := NewTombstone(job, row, now)];
      }
      outcome := Done;
    }

    // --- Worker transactions -------------------------------------------------

    // The due operation that waited longest, skipping rows another worker has locked.
    method ClaimDueWith(locked: set<Uuid>, token: Uuid, duration: int)
      returns (claim: Option<ClaimedOperation>, outcome: Outcome)
      requires Valid()
      modifies this
      ensures Valid()
      ensures claim.Some? <==> outcome == Done
      ensures claim.Some? ==>
                var job := claim.value.jobId;
                && FirstClaimable(old(State()), locked, job)
                && (State(), Done) == ClaimDue(old(State()), job, token, duration)
                && claim.value == ClaimOf(old(State()).operations[job], job, Lease(token, now + duration))
                && Committed(ByService(Claim(job, token, duration)), Done)
      ensures claim.Some? <==> duration > 0 && token !in old(used) && exists job :: Claims(old(State()), locked, job)
      ensures claim.Some? ==>
                && FirstToClaim(old(State()), locked, claim.value.jobId)
                && Leased(old(State()), State(), claim.value.jobId, token, duration)
                && claim.value == claims[token]
      ensures claim.None? ==> State() == old(State()) && history == old(history) && own == old(own) && turn == old(turn)
      ensures claim.None? && duration > 0 && token !in old(used) ==>
                && outcome == NotFound
                && forall job :: job in operations && job !in locked ==> !Claimable(State(), operations[job])
    {
      if duration <= 0 || token in used {
        return None, Failed;
      }
      ClaimableWaits(State(), locked);
      var first := FindClaimable(locked);
      if first.None? {
        return None, NotFound;
      }
      FirstClaimableIsFirst(State(), locked, first.value);
      ClaimEffect(State(), first.value, token, duration);
      var granted := LeaseOperation(first.value, token, duration);
      claim, outcome := Some(granted), Done;
    }

    // UPDATE account_deletion_operations SET lease_token=... RETURNING.
    method LeaseOperation(job: Uuid, token: Uuid, duration: int) returns (claim: ClaimedOperation)
      requires Valid() && job in operations && Claimable(State(), operations[job]) && duration > 0 && token !in used
      modifies this
      ensures Committed(ByService(Claim(job, token, duration)), Done)
      ensures (State(), Done) == ClaimDue(old(State()), job, token, duration)
      ensures claim == ClaimOf(old(State()).operations[job], job, Lease(token, old(now) + duration)) && now == old(now)
    {
      var lease := Lease(token, now + duration);
      claim := ClaimOf(operations[job], job, lease);
      operations := operations[job := operations[job].(lease := Some(lease))];
      claims := claims[token := claim];
      used := used + {token};
      Took(ByService(Claim(job, token, duration)), Done);
    }

    method FindClaimable(locked: set<Uuid>) returns (first: Option<Uuid>)
      ensures first.Some? ==> FirstClaimable(State(), locked, first.value)
      ensures first.None? ==> forall job :: job in operations && job !in locked ==> !Claimable(State(), operations[job])
    {
      var rest := operations.Keys - locked;
      first := None;
      while rest != {}
        invariant rest <= operations.Keys - locked
        invariant first.Some? ==>
                    first.value in operations && first.value !in locked && Claimable(State(), operations[first.value])
        invariant forall job ::
                    job in operations && job !in locked && job !in rest && Claimable(State(), operations[job])
                    ==> first.Some? && !WaitsLonger(job, operations[job], first.value, operations[first.value])
        decreases |rest|
      {
        var job :| job in rest;
        rest := rest - {job};
        if Claimable(State(), operations[job])
           && (first.None? || WaitsLonger(job, operations[job], first.value, operations[first.value])) {
          first := Some(job);
        }
      }
    }

    method RecordFailureWith(claim: ClaimedOperation, nextAt: Time, nextAttempt: nat) returns (outcome: Outcome)
      requires Valid() && claim.leaseToken in claims && claims[claim.leaseToken] == claim
      requires nextAttempt == claim.attemptCount + 1
      modifies this
      ensures Valid()
      ensures (State(), outcome) == RecordFailure(old(State()), claim, nextAt, nextAttempt)
      ensures outcome == Done <==> Holds(old(State()), claim)
      ensures if outcome == Done then Rescheduled(old(State()), State(), claim.jobId, nextAt, nextAttempt)
              else State() == old(State())
      ensures Committed(ByWorker(claim.leaseToken, Fail(nextAt)), outcome)
    {
      FailureEffect(State(), claim, nextAt, nextAttempt);
      var job := claim.jobId;
      if job in operations && operations[job].owner == claim.owner
         && operations[job].lease.Some? && operations[job].lease.value.token == claim.leaseToken {
        operations := operations[job := operations[job].(
          status := StatusRetrying, attemptCount := nextAttempt, nextAttemptAt := Some(nextAt), lease := None)];
        outcome := Done;
      } else {
        outcome := NotFound;
      }
      Took(ByWorker(claim.leaseToken, Fail(nextAt)), outcome);
    }

    method AdoptUncertainWith(claim: ClaimedOperation, ids: seq<Uuid>) returns (outcome: Outcome)
      requires Valid() && claim.leaseToken in claims && claims[claim.leaseToken] == claim
      modifies this
      ensures Valid()
      ensures (State(), outcome) == AdoptUncertain(old(State()), claim, ids)
      ensures outcome == Done <==> CanAdopt(old(State()), claim, ids)
      ensures if outcome == Done then InventoryTakenAlone(old(State()), State(), claim, ids)
              else State() == old(State())
      ensures Committed(ByWorker(claim.leaseToken, Inventory(ids)), outcome)
    {
      IdsAreUsed();
      AdoptEffect(State(), claim, ids);
      outcome := AdoptTransaction(claim, ids);
      Took(ByWorker(claim.leaseToken, Inventory(ids)), outcome);
    }

    method AdoptTransaction(claim: ClaimedOperation, ids: seq<Uuid>)
      returns (outcome: Outcome)
      modifies this`lifecycles, this`operations, this`sessions, this`tombstones, this`used
      ensures (State(), outcome) == AdoptUncertain(old(State()), claim, ids)
    {
      var saved := State();
      var job := claim.jobId;
      if job !in operations || operations[job].owner != claim.owner
         || operations[job].ownerGeneration != claim.ownerGeneration || !operations[job].Runnable() {
        outcome := NotFound;
      } else {
        outcome := AdoptAttempts(job, claim.owner, claim.ownerGeneration, ids);
        if !outcome.Done? {
          Restore(saved);
        }
      }
    }

    method ClaimSafetyWith(claim: ClaimedOperation) returns (id: Option<Uuid>, outcome: Outcome)
      requires Valid() && claim.leaseToken in claims && claims[claim.leaseToken] == claim
      modifies this
      ensures Valid()
      ensures (State(), id, outcome) == ClaimSafety(old(State()), claim)
      ensures (outcome == Done <==> CanClaimKey(old(State()), claim)) && (id.Some? <==> outcome == Done)
      ensures if outcome == Done then KeyTaken(old(State()), State(), claim, id.value) else State() == old(State())
      ensures Committed(ByWorker(claim.leaseToken, ClaimKey), outcome)
    {
      ClaimKeyEffect(State(), claim);
      id, outcome := None, NotFound;
      var job := claim.jobId;
      if job in operations && operations[job].owner == claim.owner
         && operations[job].ownerGeneration == claim.ownerGeneration
         && operations[job].lease == Some(Lease(claim.leaseToken, claim.leaseExpiresAt)) {
        var first := FindDueKey(claim);
        if first.Some? {
          if claim.leaseExpiresAt <= now {
            outcome := Failed;
          } else {
            id, outcome := first, Done;
            tombstones := tombstones[first.value := Claimed(tombstones[first.value], claim)];
          }
        }
      }
      Took(ByWorker(claim.leaseToken, ClaimKey), outcome);
    }

    method FindDueKey(claim: ClaimedOperation) returns (first: Option<Uuid>)
      ensures first == NextClaim(tombstones, claim, now)
    {
      var rest := tombstones.Keys;
      first := None;
      while rest != {}
        invariant rest <= tombstones.Keys
        invariant first.Some? ==> first.value in tombstones && Due(tombstones[first.value], claim, now)
        invariant forall id :: id in tombstones && id !in rest && Due(tombstones[id], claim, now) && Some(id) != first
                    ==> first.Some? && Precedes(first.value, tombstones[first.value].state, id, tombstones[id].state)
        decreases |rest|
      {
        var id :| id in rest;
        rest := rest - {id};
        if Due(tombstones[id], claim, now)
           && (first.None? || Precedes(id, tombstones[id].state, first.value, tombstones[first.value].state)) {
          first := Some(id);
        }
      }
      if first.Some? {
        var found := NextClaim(tombstones, claim, now);
        FirstDueIsUnique(tombstones, claim, now, first.value, found.value);
      }
    }

    method ReleaseSafetyWith(claim: ClaimedOperation, id: Uuid, nextAttemptAt: Time) returns (outcome: Outcome)
      requires Valid() && claim.leaseToken in claims && claims[claim.leaseToken] == claim
      modifies this
      ensures Valid()
      ensures (State(), outcome) == ReleaseSafety(old(State()), id, claim.leaseToken, nextAttemptAt)
      ensures outcome == (if InHand(old(State()), id, claim.leaseToken) then Done else LeaseLost)
      ensures State() == if outcome == Done then KeyReleased(old(State()), id, nextAttemptAt) else old(State())
      ensures Committed(ByWorker(claim.leaseToken, ReleaseKey(id, nextAttemptAt)), outcome)
    {
      ReleaseKeyEffect(State(), id, claim.leaseToken, nextAttemptAt);
      if id in tombstones && tombstones[id].state.Reconciling? && tombstones[id].state.lease.token == claim.leaseToken {
        tombstones := tombstones[id := tombstones[id].(state := SafetyPending(nextAttemptAt))];
        outcome := Done;
      } else {
        outcome := LeaseLost;
      }
      Took(ByWorker(claim.leaseToken, ReleaseKey(id, nextAttemptAt)), outcome);
    }

    method CompleteWith(claim: ClaimedOperation, expected: int) returns (outcome: Outcome)
      requires Valid() && claim.leaseToken in claims && claims[claim.leaseToken] == claim
      modifies this
      ensures Valid()
      ensures (State(), outcome) == Complete(old(State()), claim, expected)
      ensures outcome == Done <==> CanFinish(old(State()), claim, expected)
      ensures if outcome == Done then Finished(old(State()), State(), claim) else State() == old(State())
      ensures Committed(ByWorker(claim.leaseToken, Finish(expected)), outcome)
    {
      FinishEffect(State(), claim, expected);
      outcome := CompleteTransaction(claim, expected);
      Took(ByWorker(claim.leaseToken, Finish(expected)), outcome);
    }

    method CompleteTransaction(claim: ClaimedOperation, expected: int) returns (outcome: Outcome)
      modifies this`lifecycles, this`operations, this`sessions, this`tombstones, this`used
      ensures (State(), outcome) == Complete(old(State()), claim, expected)
    {
      var saved := State();
      outcome := AdvanceLifecycle(claim.owner, expected, Departed);
      if outcome.Done? {
        outcome := CompleteParticipant(claim, saved);
        if outcome.Done? {
          RevokeSessions(claim.owner, None, 0);
        } else {
          Restore(saved);
        }
      }
    }

    method CompleteParticipant(claim: ClaimedOperation, before: Db) returns (outcome: Outcome)
      requires claim.owner in before.lifecycles && State() == WithLifecycle(before, claim.owner, Departed)
      modifies this`operations, this`tombstones
      ensures outcome == CompletionCheck(before, claim)
      ensures outcome == Done ==> State() == WithoutOperation(WithLifecycle(before, claim.owner, Departed), claim.jobId)
    {
      if !before.lifecycles[claim.owner].state.Deleting? {
        return NotFound;
      }
      var job := claim.jobId;
      if job !in operations || operations[job].owner != claim.owner
        || operations[job].ownerGeneration != claim.ownerGeneration
         || operations[job].lease.None? || operations[job].lease.value.token != claim.leaseToken {
        return NotFound;
      }
      if operations[job].deletionSession.None? || operations[job].credentialGeneration.None? {
        return Failed;
      }
      var converged := ReadSafetyConverged(claim);
      if !converged {
        return SafetyUnsettled;
      }
      for i := 0 to |journal|
        invariant forall row <- journal[..i] :: Tracked(row, tombstones, claim)
        invariant State() == WithLifecycle(before, claim.owner, Departed)
      {
        var row := journal[i];
        if !Tracked(row, tombstones, claim) {
          return SafetyUnsettled;
        }
        assert journal[..i + 1] == journal[..i] + [row];
      }
      assert journal[..|journal|] == journal;
      DeleteOperation(job);
      outcome := Done;
    }

    // SELECT NOT EXISTS(... state<>'settled').
    method ReadSafetyConverged(claim: ClaimedOperation) returns (converged: bool)
      ensures converged == SafetyConverged(State(), claim)
    {
      var rest := tombstones.Keys;
      while rest != {}
        invariant rest <= tombstones.Keys
        invariant forall id :: id in tombstones && id !in rest && OfOperation(tombstones[id], claim)
                    ==> tombstones[id].state.Settled?
        decreases |rest|
      {
        var id :| id in rest;
        rest := rest - {id};
        if OfOperation(tombstones[id], claim) && !tombstones[id].state.Settled? {
          return false;
        }
      }
      converged := true;
    }

    // --- Credential replacement and loss -------------------------------------

    method RefreshBoundOAuthFromLogin(owner: Did, session: SessionId) returns (refreshed: bool, outcome: Outcome)
      requires Valid()
      modifies this
      ensures Valid()
      ensures (State(), outcome) == RefreshBoundOAuth(old(State()), owner, session)
      ensures outcome == Done <==> exists job :: CanRefresh(old(State()), owner, session, job)
      ensures outcome != Done ==> State() == old(State())
      ensures forall job :: outcome == Done && CanRefresh(old(State()), owner, session, job)
                ==> Refreshed(old(State()), State(), job, session)
      ensures refreshed <==> outcome == Done
      ensures Committed(ByUser(Relogin(owner, session)), outcome)
    {
      OwnersHaveOneRow();
      RefreshEffect(State(), owner, session);
      refreshed, outcome := RefreshTransaction(owner, session);
      Took(ByUser(Relogin(owner, session)), outcome);
    }

    method RefreshTransaction(owner: Did, session: SessionId)
      returns (refreshed: bool, outcome: Outcome)
      modifies this`lifecycles, this`operations, this`sessions, this`tombstones, this`used
      ensures (State(), outcome) == RefreshBoundOAuth(old(State()), owner, session)
      ensures refreshed <==> outcome == Done
    {
      var saved := State();
      refreshed, outcome := false, NotFound;
      var row := OperationOf(operations, owner);
      if row.Some? && operations[row.value].Runnable() {
        var op := operations[row.value];
        if op.deletionSession.None? {
          outcome := Failed;
        } else {
          var oldSession := op.deletionSession.value;
          operations := operations[row.value := op.(deletionSession := Some(session), status := StatusActive,
            attemptCount := 0, nextAttemptAt := Some(now), lease := None)];
          if (owner, session) !in sessions {
            Restore(saved);
            outcome := Failed;
          } else {
            if oldSession != session && (owner, oldSession) in sessions {
              sessions := sessions[(owner, oldSession) := sessions[(owner, oldSession)].(state := RevocationPending)];
            }
            refreshed, outcome := true, Done;
          }
        }
      }
    }

    method LoseCredentialWith(claim: ClaimedOperation) returns (outcome: Outcome)
      requires Valid() && claim.leaseToken in claims && claims[claim.leaseToken] == claim
      modifies this
      ensures Valid()
      ensures (State(), outcome) == LoseCredential(old(State()), claim)
      ensures outcome == Done <==> CanLose(old(State()), claim)
      ensures if outcome == Done then LeftStranded(old(State()), State(), claim.jobId) else State() == old(State())
      ensures Committed(ByWorker(claim.leaseToken, LoseAuthority), outcome)
    {
      LossHere(claim);
      var owner, job := claim.owner, claim.jobId;
      outcome := NotFound;
      if owner in lifecycles && lifecycles[owner].state.Deleting?
        && lifecycles[owner].generation == claim.ownerGeneration + 2
         && HoldsLease(State(), claim) && operations[job].Runnable() && operations[job].lease.value.expiresAt > now
         && operations[job].deletionSession.Some?
            && BoundTo(sessions, owner, operations[job].deletionSession.value, job) {
        var key := (owner, operations[job].deletionSession.value);
        operations := operations[job := operations[job].(status := StatusReauthRequired, deletionSession := None,
          credentialGeneration := None, nextAttemptAt := None, lease := None)];
        sessions := sessions[key := sessions[key].(state := RevocationPending)];
        outcome := Done;
      }
      Took(ByWorker(claim.leaseToken, LoseAuthority), outcome);
    }
  }

  // ORDER BY next_attempt_at, id.
  predicate WaitsLonger(a: Uuid, opA: Operation, b: Uuid, opB: Operation) {
    && opA.nextAttemptAt.Some? && opB.nextAttemptAt.Some?
    && (opA.nextAttemptAt.value < opB.nextAttemptAt.value || (opA.nextAttemptAt == opB.nextAttemptAt && a < b))
  }

  ghost predicate FirstClaimable(db: Db, locked: set<Uuid>, job: Uuid) {
    && job in db.operations && job !in locked && Claimable(db, db.operations[job])
    && forall other :: other in db.operations && other !in locked && Claimable(db, db.operations[other])
         ==> !WaitsLonger(other, db.operations[other], job, db.operations[job])
  }

  lemma FirstClaimableIsFirst(db: Db, locked: set<Uuid>, job: Uuid)
    requires FirstClaimable(db, locked, job)
    ensures FirstToClaim(db, locked, job)
  {
    ClaimableWaits(db, locked);
  }

  // What completion finds inside its transaction.
  function CompletionCheck(db: Db, claim: ClaimedOperation): Outcome
    requires claim.owner in db.lifecycles
  {
    if !db.lifecycles[claim.owner].state.Deleting? then NotFound
    else if !HoldsLease(db, claim) || db.operations[claim.jobId].ownerGeneration != claim.ownerGeneration then NotFound
    else if db.operations[claim.jobId].deletionSession.None?
      || db.operations[claim.jobId].credentialGeneration.None? then Failed
    else if !SafetyConverged(db, claim) || !NoUntrackedWrite(db, claim) then SafetyUnsettled
    else Done
  }

  predicate Tracked(row: Attempt, tombstones: map<Uuid, Tombstone>, claim: ClaimedOperation) {
    Selected(row, claim.owner, claim.ownerGeneration) && OwnedKey(claim.owner, row.key)
      && SchemaAdmits(row.key.collection)
    ==> HasSource(tombstones, claim.jobId, row.source)
  }

  function WithRow(
    tombstones: map<Uuid, Tombstone>, job: Uuid, row: Attempt, id: Uuid, now: Time): map<Uuid, Tombstone> {
    if Inventoried(tombstones, job, row.key) then tombstones else tombstones[id := NewTombstone(job, row, now)]
  }

  predicate RegisteredRow(row: Attempt) {
    row.key.AtUri? && Registered(row.key.collection)
  }

  // The positions of the registered rows, in order.
  ghost predicate Kept(attempts: seq<nat>, rows: seq<Attempt>, owner: Did) {
    && (forall row <- rows :: OwnedKey(owner, row.key))
    && (forall k :: 0 <= k < |attempts| ==> attempts[k] < |rows| && RegisteredRow(rows[attempts[k]]))
    && (forall j, k :: 0 <= j < k < |attempts| ==> attempts[j] < attempts[k])
    && (forall i :: 0 <= i < |rows| && RegisteredRow(rows[i]) ==> i in attempts)
  }

  lemma KeptGrows(before: seq<nat>, after: seq<nat>, rows: seq<Attempt>, owner: Did, i: nat)
    requires i < |rows| && Kept(before, rows[..i], owner) && OwnedKey(owner, rows[i].key)
    requires after == if RegisteredRow(rows[i]) then before + [i] else before
    ensures Kept(after, rows[..i + 1], owner)
  {
    var front, longer := rows[..i], rows[..i + 1];
    assert longer == front + [rows[i]];
    KeptPositionsGrow(before, after, front, longer, i);
    KeptRowsGrow(before, after, front, longer, i);
    KeptOrderGrows(before, after, i);
  }

  lemma KeptOrderGrows(before: seq<nat>, after: seq<nat>, i: nat)
    requires after == before || after == before + [i]
    requires forall k :: 0 <= k < |before| ==> before[k] < i
    requires forall j, k :: 0 <= j < k < |before| ==> before[j] < before[k]
    ensures forall j, k :: 0 <= j < k < |after| ==> after[j] < after[k]
  {
  }

  lemma KeptPositionsGrow(before: seq<nat>, after: seq<nat>, front: seq<Attempt>, longer: seq<Attempt>, i: nat)
    requires i == |front| && |longer| == i + 1 && longer[..i] == front
    requires after == if RegisteredRow(longer[i]) then before + [i] else before
    requires forall k :: 0 <= k < |before| ==> before[k] < |front| && RegisteredRow(front[before[k]])
    ensures forall k :: 0 <= k < |after| ==> after[k] < |longer| && RegisteredRow(longer[after[k]])
  {
    forall k | 0 <= k < |after|
      ensures after[k] < |longer| && RegisteredRow(longer[after[k]])
    {
      if k < |before| {
        assert after[k] == before[k] && longer[before[k]] == front[before[k]];
      }
    }
  }

  lemma KeptRowsGrow(before: seq<nat>, after: seq<nat>, front: seq<Attempt>, longer: seq<Attempt>, i: nat)
    requires i == |front| && |longer| == i + 1 && longer[..i] == front
    requires after == if RegisteredRow(longer[i]) then before + [i] else before
    requires forall j :: 0 <= j < |front| && RegisteredRow(front[j]) ==> j in before
    ensures forall j :: 0 <= j < |longer| && RegisteredRow(longer[j]) ==> j in after
  {
    forall j | 0 <= j < |longer| && RegisteredRow(longer[j])
      ensures j in after
    {
      if j < i {
        assert front[j] == longer[j];
      } else {
        assert after[|after| - 1] == i;
      }
    }
  }

  // The rows before the k-th kept one.
  ghost function Offered(attempts: seq<nat>, rows: seq<Attempt>, k: nat): (n: nat)
    requires k <= |attempts| && forall j :: 0 <= j < |attempts| ==> attempts[j] < |rows|
    ensures n <= |rows|
  {
    if k == 0 then 0 else attempts[k - 1] + 1
  }

  ghost predicate AdoptedUpTo(
    tombstones: map<Uuid, Tombstone>, job: Uuid, owner: Did, rows: seq<Attempt>, ids: seq<Uuid>, now: Time,
    attempts: seq<nat>, k: nat, sofar: map<Uuid, Tombstone>)
    requires |rows| <= |ids| && Kept(attempts, rows, owner) && k <= |attempts|
  {
    AdoptRows(tombstones, job, owner, rows[..Offered(attempts, rows, k)], ids, now) == Some(sofar)
  }

  // No registered row lies between two kept positions, or outside them.
  lemma NothingKeptBetween(attempts: seq<nat>, rows: seq<Attempt>, owner: Did, k: nat, hi: nat)
    requires Kept(attempts, rows, owner) && k <= |attempts|
    requires hi == if k == |attempts| then |rows| else attempts[k]
    ensures Offered(attempts, rows, k) <= hi
    ensures forall i :: Offered(attempts, rows, k) <= i < hi ==> OwnedKey(owner, rows[i].key) && !RegisteredRow(rows[i])
  {
    forall i | Offered(attempts, rows, k) <= i < hi
      ensures OwnedKey(owner, rows[i].key) && !RegisteredRow(rows[i])
    {
      forall n | 0 <= n < |attempts|
        ensures attempts[n] != i
      {
        if n < k {
          assert attempts[n] <= attempts[k - 1];
        } else {
          assert attempts[k] <= attempts[n];
        }
      }
    }
  }

  lemma OneMoreRow(
    tombstones: map<Uuid, Tombstone>, job: Uuid, owner: Did, rows: seq<Attempt>, ids: seq<Uuid>, now: Time, i: nat,
    sofar: map<Uuid, Tombstone>)
    requires i < |rows| <= |ids| && Adoptable(rows[i], owner)
    requires AdoptRows(tombstones, job, owner, rows[..i], ids, now) == Some(sofar)
    ensures AdoptRows(tombstones, job, owner, rows[..i + 1], ids, now)
            == Some(WithRow(sofar, job, rows[i], ids[i], now))
  {
    assert rows[..i + 1][..i] == rows[..i];
  }

  lemma NextKeptRow(
    tombstones: map<Uuid, Tombstone>, job: Uuid, owner: Did, rows: seq<Attempt>, ids: seq<Uuid>, now: Time,
    attempts: seq<nat>, k: nat, sofar: map<Uuid, Tombstone>)
    requires |rows| <= |ids| && Kept(attempts, rows, owner) && k < |attempts|
    requires AdoptedUpTo(tombstones, job, owner, rows, ids, now, attempts, k, sofar)
    requires SchemaAdmits(rows[attempts[k]].key.collection)
    ensures AdoptedUpTo(tombstones, job, owner, rows, ids, now, attempts, k + 1,
                        WithRow(sofar, job, rows[attempts[k]], ids[attempts[k]], now))
  {
    var i := attempts[k];
    NothingKeptBetween(attempts, rows, owner, k, i);
    SkippedRowsAddNothing(tombstones, job, owner, rows, ids, now, Offered(attempts, rows, k), i);
    OneMoreRow(tombstones, job, owner, rows, ids, now, i, sofar);
    assert Offered(attempts, rows, k + 1) == i + 1;
  }

  lemma AllRowsOffered(
    tombstones: map<Uuid, Tombstone>, job: Uuid, owner: Did, rows: seq<Attempt>, ids: seq<Uuid>, now: Time,
    attempts: seq<nat>, adopted: map<Uuid, Tombstone>)
    requires |rows| <= |ids| && Kept(attempts, rows, owner)
    requires AdoptedUpTo(tombstones, job, owner, rows, ids, now, attempts, |attempts|, adopted)
    ensures AdoptRows(tombstones, job, owner, rows, ids, now) == Some(adopted)
  {
    NothingKeptBetween(attempts, rows, owner, |attempts|, |rows|);
    SkippedRowsAddNothing(tombstones, job, owner, rows, ids, now, Offered(attempts, rows, |attempts|), |rows|);
    assert rows[..|rows|] == rows;
  }

  lemma BlockedRowRefusesAll(
    tombstones: map<Uuid, Tombstone>, job: Uuid, owner: Did, rows: seq<Attempt>, ids: seq<Uuid>, now: Time, i: nat)
    requires i < |rows| <= |ids| && Blocks(rows[i], owner)
    ensures AdoptRows(tombstones, job, owner, rows, ids, now) == None
  {
    AdoptionRefusedExactlyWhenBlocked(tombstones, job, owner, rows, ids, now);
  }

  lemma {:induction false} SkippedRowsAddNothing(
    tombstones: map<Uuid, Tombstone>, job: Uuid, owner: Did, rows: seq<Attempt>, ids: seq<Uuid>, now: Time, lo: nat,
    hi: nat)
    requires lo <= hi <= |rows| <= |ids|
    requires forall i :: lo <= i < hi ==> OwnedKey(owner, rows[i].key) && !RegisteredRow(rows[i])
    ensures AdoptRows(tombstones, job, owner, rows[..hi], ids, now)
            == AdoptRows(tombstones, job, owner, rows[..lo], ids, now)
    decreases hi
  {
    if lo < hi {
      SkippedRowsAddNothing(tombstones, job, owner, rows, ids, now, lo, hi - 1);
      assert rows[..hi][..hi - 1] == rows[..hi - 1];
    }
  }
}
