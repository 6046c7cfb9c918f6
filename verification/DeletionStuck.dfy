// Intents whose bound session was revoked under them: nothing ends them any more.
module DeletionStuck {
  import opened Wrappers
  import opened CraftskyCollections
  import opened DeletionTables
  import opened SafetyTombstones
  import opened DeletionTransactions
  import opened DeletionSteps
  import opened DeletionInvariant
  import opened DeletionPreservation

  // --- Bound intents -------------------------------------------------------

  predicate IsBound(db: Db, job: Uuid) {
    IsIntent(db, job) && db.operations[job].reauthSession.Some?
  }

  // The bound session is still deletion-only for the intent.
  predicate Releasable(db: Db, job: Uuid) {
    IsBound(db, job) && BoundTo(db.sessions, db.operations[job].owner, db.operations[job].reauthSession.value, job)
  }

  ghost predicate Stuck(db: Db, job: Uuid) {
    IsBound(db, job) && NoneFor(db.sessions, job)
  }

  ghost function StuckJobs(db: Db): set<Uuid> {
    set job | job in db.operations && Stuck(db, job)
  }

  lemma BoundIsReleasableOrStuck(db: Db, job: Uuid)
    requires Inv(db) && IsBound(db, job)
    ensures Releasable(db, job) <==> !Stuck(db, job)
  {
    assert Shaped(db.operations[job]);
    if !Stuck(db, job) {
      var k :| k in db.sessions && db.sessions[k].state.DeletionOnly? && db.sessions[k].state.operation == job;
      assert Referenced(db.operations, k.0, k.1, db.sessions[k].state);
    }
  }

  // --- What can still be done with an intent -------------------------------

  // An otherwise valid cancellation succeeds exactly when no session is bound or the
  // bound one is still deletion-only for the intent.
  lemma CancelSucceedsExactlyUnlessStuck(db: Db, expected: int, to: LifecycleState, job: Uuid, owner: Did)
    requires Inv(db) && TransitionCheck(db, owner, expected, to) == Done
    requires db.lifecycles[owner].state.DeletionPending? && to in {Active, Departed}
    requires (owner in db.profiles) == to.Active?
    requires IsIntent(db, job) && db.operations[job].owner == owner
    ensures CancelIntent(db, expected, to, job, owner).1 == (if Stuck(db, job) then ReauthenticationRequired else Done)
    ensures Stuck(db, job) <==> IsBound(db, job) && !Releasable(db, job)
  {
    if IsBound(db, job) {
      BoundIsReleasableOrStuck(db, job);
    }
  }

  // So does a profile departure of its owner.
  lemma DepartureSucceedsExactlyUnlessStuck(db: Db, owner: Did, expected: int, job: Uuid)
    requires Inv(db) && TransitionCheck(db, owner, expected, Departed) == Done
    requires IsIntent(db, job) && db.operations[job].owner == owner
    ensures ProfileDeparture(db, owner, expected).1 == (if Stuck(db, job) then ReauthenticationRequired else Done)
  {
    assert Staged(db.operations[job], db.lifecycles[owner]);
    if IsBound(db, job) {
      BoundIsReleasableOrStuck(db, job);
    }
  }

  // --- For ever ------------------------------------------------------------

  ghost predicate StaysStuck(db: Db, after: Db, job: Uuid)
    requires job in db.operations
  {
    Stuck(after, job) && after.operations[job] == db.operations[job]
  }

  lemma CancelKeepsStuck(db: Db, expected: int, to: LifecycleState, dropped: Uuid, owner: Did, job: Uuid)
    requires Stuck(db, job)
    ensures StaysStuck(db, CancelIntent(db, expected, to, dropped, owner).0, job)
  {
  }

  lemma DepartureKeepsStuck(db: Db, owner: Did, expected: int, job: Uuid)
    requires Stuck(db, job)
    ensures StaysStuck(db, ProfileDeparture(db, owner, expected).0, job)
  {
  }

  lemma AcceptanceKeepsStuck(
    db: Db, expected: int, request: AcceptanceRequest, binding: CredentialBinding, ids: seq<Uuid>, job: Uuid)
    requires Stuck(db, job)
    ensures StaysStuck(db, Accept(db, expected, request, binding, ids).0, job)
  {
  }

  lemma OtherUsersKeepStuck(db: Db, step: UserStep, job: Uuid)
    requires Stuck(db, job) && db.operations.Keys <= db.used && (step.Begin? || step.Bind? || step.Relogin?)
    ensures StaysStuck(db, ApplyUser(db, step).0, job)
  {
  }

  lemma UsersKeepStuck(db: Db, step: UserStep, job: Uuid)
    requires Inv(db) && Stuck(db, job)
    ensures StaysStuck(db, ApplyUser(db, step).0, job)
  {
    match step
    case Cancel(expected, to, dropped, owner) => CancelKeepsStuck(db, expected, to, dropped, owner, job);
    case Depart(owner, expected) => DepartureKeepsStuck(db, owner, expected, job);
    case Confirm(expected, request, binding, ids) => AcceptanceKeepsStuck(db, expected, request, binding, ids, job);
    case _ => OtherUsersKeepStuck(db, step, job);
  }

  lemma CallsKeepStuck(db: Db, claim: ClaimedOperation, call: WorkerCall, job: Uuid)
    requires Stuck(db, job) && Shaped(db.operations[job])
    ensures StaysStuck(db, ApplyCall(db, claim, call).0, job)
  {
  }

  lemma ServiceKeepsStuck(db: Db, step: ServiceStep, job: Uuid)
    requires Stuck(db, job)
    ensures StaysStuck(db, ApplyService(db, step).0, job)
  {
  }

  lemma StepKeepsStuck(db: Db, step: Step, job: Uuid)
    requires Inv(db) && Stuck(db, job)
    ensures StaysStuck(db, Apply(db, step).0, job)
  {
    assert Shaped(db.operations[job]);
    match step
    case ByUser(user) => UsersKeepStuck(db, user, job);
    case ByWorker(token, call) => if token in db.claims { CallsKeepStuck(db, db.claims[token], call, job); }
    case ByService(service) => ServiceKeepsStuck(db, service, job);
  }

  // No cancel, expiry, departure, confirmation, callback or other step of any run
  // ends such an intent: the row stays as it is, and its owner pending at the very
  // same generation.
  lemma {:induction false} StuckForever(db: Db, steps: seq<Step>, job: Uuid)
    requires Inv(db) && Stuck(db, job)
    ensures var later, owner := Run(db, steps), db.operations[job].owner;
      && Stuck(later, job) && later.operations[job] == db.operations[job]
      && owner in db.lifecycles && owner in later.lifecycles
      && later.lifecycles[owner].state.DeletionPending?
      && later.lifecycles[owner].generation == db.lifecycles[owner].generation
    decreases |steps|
  {
    RunKeepsInv(db, steps);
    if steps != [] {
      var n := |steps| - 1;
      StuckForever(db, steps[..n], job);
      RunKeepsInv(db, steps[..n]);
      StepKeepsStuck(Run(db, steps[..n]), steps[n], job);
    }
    StuckIsPending(db, job);
    StuckIsPending(Run(db, steps), job);
  }

  lemma StuckIsPending(db: Db, job: Uuid)
    requires Inv(db) && Stuck(db, job)
    ensures var op := db.operations[job];
      && op.owner in db.lifecycles && db.lifecycles[op.owner].state.DeletionPending?
      && db.lifecycles[op.owner].generation == op.ownerGeneration + 1
  {
    assert Staged(db.operations[job], db.lifecycles[db.operations[job].owner]);
  }

  // --- Membership in the meantime ------------------------------------------

  // Nobody changes whether the owner has a profile.
  predicate NoProfileStep(steps: seq<Step>, owner: Did) {
    forall step <- steps :: step.ByService? && step.service.Profile? ==> step.service.owner != owner
  }

  lemma StepKeepsMembership(db: Db, step: Step, owner: Did)
    requires step.ByService? && step.service.Profile? ==> step.service.owner != owner
    ensures owner in Apply(db, step).0.profiles <==> owner in db.profiles
  {
    match step
    case ByUser(user) => UsersKeepProfiles(db, user);
    case ByWorker(token, call) => if token in db.claims { CallsKeepProfiles(db, db.claims[token], call); }
    case ByService(service) => ServiceKeepsMembership(db, service, owner);
  }

  lemma UsersKeepProfiles(db: Db, step: UserStep)
    ensures ApplyUser(db, step).0.profiles == db.profiles
  {
  }

  lemma CallsKeepProfiles(db: Db, claim: ClaimedOperation, call: WorkerCall)
    ensures ApplyCall(db, claim, call).0.profiles == db.profiles
  {
  }

  lemma ServiceKeepsMembership(db: Db, step: ServiceStep, owner: Did)
    requires step.Profile? ==> step.owner != owner
    ensures owner in ApplyService(db, step).0.profiles <==> owner in db.profiles
  {
  }

  lemma {:induction false} MembershipStays(db: Db, steps: seq<Step>, owner: Did)
    requires NoProfileStep(steps, owner)
    ensures owner in Run(db, steps).profiles <==> owner in db.profiles
    decreases |steps|
  {
    if steps != [] {
      MembershipStays(db, steps[..|steps| - 1], owner);
      StepKeepsMembership(Run(db, steps[..|steps| - 1]), steps[|steps| - 1], owner);
    }
  }

  // A stuck intent of this owner.
  ghost predicate StuckFor(db: Db, job: Uuid, owner: Did) {
    Stuck(db, job) && db.operations[job].owner == owner
  }

  lemma StuckLater(before: Db, steps: seq<Step>, after: Db, job: Uuid, owner: Did)
    requires Inv(before) && Leads(before, steps, after) && StuckFor(before, job, owner)
    ensures Inv(after) && StuckFor(after, job, owner)
    ensures owner in before.lifecycles && owner in after.lifecycles && after.lifecycles[owner].state.DeletionPending?
    ensures after.lifecycles[owner].generation == before.lifecycles[owner].generation > 0
  {
    assert Unsealed(true);
    RunKeepsInv(before, steps);
    StuckForever(before, steps, job);
  }

  lemma MembershipLater(before: Db, steps: seq<Step>, after: Db, owner: Did)
    requires Leads(before, steps, after) && NoProfileStep(steps, owner)
    ensures owner in after.profiles <==> owner in before.profiles
  {
    assert Unsealed(true);
    MembershipStays(before, steps, owner);
  }

  // What a cancellation asked for at the right generation is told.
  lemma CancelOfStuck(db: Db, to: LifecycleState, job: Uuid, owner: Did)
    requires Inv(db) && StuckFor(db, job, owner) && to in {Active, Departed}
    requires owner in db.lifecycles && db.lifecycles[owner].state.DeletionPending?
             && db.lifecycles[owner].generation > 0
    ensures CancelIntent(db, db.lifecycles[owner].generation, to, job, owner).1
            == if (owner in db.profiles) == to.Active? then ReauthenticationRequired else GenerationChanged
  {
    if (owner in db.profiles) == to.Active? {
      CancelSucceedsExactlyUnlessStuck(db, db.lifecycles[owner].generation, to, job, owner);
    }
  }

  // --- What a cancellation is told -----------------------------------------

  predicate IntentOf(db: Db, job: Uuid, owner: Did) {
    IsIntent(db, job) && db.operations[job].owner == owner
  }

  // The intent is gone, or stuck, or another transition came first.
  ghost predicate Resolved(db: Db, job: Uuid, owner: Did, outcome: Outcome) {
    match outcome
    case Done | NotFound | PointOfNoReturn | TerminalOwner => !IntentOf(db, job, owner)
    case ReauthenticationRequired => StuckFor(db, job, owner)
    case GenerationChanged => true
    case Failed => owner !in db.lifecycles
    case _ => false
  }

  lemma IntentsArePending(db: Db, job: Uuid, owner: Did)
    requires Inv(db)
    ensures IntentOf(db, job, owner) ==> owner in db.lifecycles && db.lifecycles[owner].state.DeletionPending?
  {
    if IntentOf(db, job, owner) {
      assert Staged(db.operations[job], db.lifecycles[owner]);
    }
  }

  // A cancellation asked for at a generation at which the owner was pending.
  lemma CancelResolves(db: Db, expected: int, to: LifecycleState, job: Uuid, owner: Did)
    requires Inv(db) && expected > 0 && to in {Active, Departed} && owner in db.lifecycles
    requires db.lifecycles[owner].generation == expected ==> db.lifecycles[owner].state.DeletionPending?
    ensures var (after, outcome) := CancelIntent(db, expected, to, job, owner);
      Resolved(after, job, owner, outcome) && outcome != Failed
  {
    IntentsArePending(db, job, owner);
    if CancelIntent(db, expected, to, job, owner).1 == Done {
      CancelRemoves(db, expected, to, job, owner);
    } else {
      RefusalResolves(db, expected, to, job, owner);
    }
  }

  lemma CancelRemoves(db: Db, expected: int, to: LifecycleState, job: Uuid, owner: Did)
    requires CancelIntent(db, expected, to, job, owner).1 == Done
    ensures job !in CancelIntent(db, expected, to, job, owner).0.operations
  {
  }

  lemma RefusalResolves(db: Db, expected: int, to: LifecycleState, job: Uuid, owner: Did)
    requires Inv(db) && expected > 0 && to in {Active, Departed} && owner in db.lifecycles
    requires db.lifecycles[owner].generation == expected ==> db.lifecycles[owner].state.DeletionPending?
    requires IntentOf(db, job, owner) ==> db.lifecycles[owner].state.DeletionPending?
    requires CancelIntent(db, expected, to, job, owner).1 != Done
    ensures CancelIntent(db, expected, to, job, owner).0 == db
    ensures Resolved(db, job, owner, CancelIntent(db, expected, to, job, owner).1)
    ensures CancelIntent(db, expected, to, job, owner).1 != Failed
  {
    var check := TransitionCheck(db, owner, expected, to);
    if check == Done && (owner in db.profiles) == to.Active? && IntentOf(db, job, owner) {
      CancelSucceedsExactlyUnlessStuck(db, expected, to, job, owner);
    }
  }
}
