// What a run must have contained: the transitions behind a generation, and the
// intent and reauthentication behind an acceptance.
module DeletionHistory {
  import opened Wrappers
  import opened CraftskyCollections
  import opened DeletionTables
  import opened SafetyTombstones
  import opened DeletionTransactions
  import opened DeletionSteps
  import opened DeletionInvariant
  import opened DeletionPreservation
  import opened DeletionRuns
  import opened DeletionEffects
  import opened DeletionAuthority
  import opened DeletionCredential

  // --- Generations ---------------------------------------------------------

  datatype Move = Move(owner: Did, expected: int)

  // The lifecycle transition a step commits, with the generation it was asked at.
  function MoveOf(db: Db, step: Step): Option<Move> {
    if Apply(db, step).1 != Done then None
    else
      match step
      case ByUser(Begin(expected, intent)) => Some(Move(intent.owner, expected))
      case ByUser(Cancel(expected, _, _, owner)) => Some(Move(owner, expected))
      case ByUser(Depart(owner, expected)) => Some(Move(owner, expected))
      case ByUser(Confirm(expected, request, _, _)) => Some(Move(request.owner, expected))
      case ByWorker(token, Finish(expected)) =>
        if token in db.claims then Some(Move(db.claims[token].owner, expected)) else None
      case ByService(ActivateOwner(owner, expected)) => Some(Move(owner, expected))
      case _ => None
  }

  // Departing, and passing the point of no return, end every session's epoch.
  predicate Revokes(from: LifecycleState, to: LifecycleState) {
    to.Departed? || (from.DeletionPending? && to.Deleting?)
  }

  ghost predicate MovesOn(a: Lifecycle, b: Lifecycle) {
    && b.generation == a.generation + 1 && ValidTransition(a.state, b.state)
    && b.authEpoch == a.authEpoch + if Revokes(a.state, b.state) then 1 else 0
  }

  // A step moves an owner's lifecycle on by one, asked at its very generation, or
  // leaves its state and generation alone.
  ghost predicate MovesOnlyAsAsked(db: Db, after: Db, move: Option<Move>, owner: Did)
    requires owner in db.lifecycles
  {
    && owner in after.lifecycles
    && var (was, now) := (db.lifecycles[owner], after.lifecycles[owner]);
       if move.Some? && move.value.owner == owner then move.value.expected == was.generation && MovesOn(was, now)
       else now == was.(authEpoch := now.authEpoch)
  }

  // The step logs the owner out everywhere.
  predicate LogsOut(db: Db, step: Step, owner: Did) {
    step == ByService(LogoutAll(owner)) && Apply(db, step).1 == Done
  }

  // What a step adds to an owner's epoch.
  ghost predicate EpochMovesAsCounted(db: Db, after: Db, step: Step, owner: Did)
    requires owner in db.lifecycles && owner in after.lifecycles
  {
    after.lifecycles[owner].authEpoch == db.lifecycles[owner].authEpoch
      + (if RevokesOwner(db, after, step, owner) then 1 else 0) + if LogsOut(db, step, owner) then 1 else 0
  }

  // The step moves the owner past a point that ends its sessions.
  ghost predicate RevokesOwner(db: Db, after: Db, step: Step, owner: Did)
    requires owner in db.lifecycles && owner in after.lifecycles
  {
    && MoveOf(db, step).Some? && MoveOf(db, step).value.owner == owner
    && Revokes(db.lifecycles[owner].state, after.lifecycles[owner].state)
  }

  lemma BeginMoves(db: Db, expected: int, intent: IntentRecord, owner: Did)
    requires owner in db.lifecycles
    ensures MovesOnlyAsAsked(db, CreateIntent(db, expected, intent).0, MoveOf(db, ByUser(Begin(expected, intent))),
            owner)
    ensures EpochMovesAsCounted(db, CreateIntent(db, expected, intent).0, ByUser(Begin(expected, intent)), owner)
  {
  }

  lemma CancelMoves(db: Db, expected: int, to: LifecycleState, job: Uuid, leaving: Did, owner: Did)
    requires owner in db.lifecycles
    ensures MovesOnlyAsAsked(db, CancelIntent(db, expected, to, job, leaving).0,
            MoveOf(db, ByUser(Cancel(expected, to, job, leaving))), owner)
    ensures EpochMovesAsCounted(db, CancelIntent(db, expected, to, job, leaving).0,
            ByUser(Cancel(expected, to, job, leaving)), owner)
  {
    CancelEffect(db, expected, to, job, leaving);
    CancelIsMove(db, expected, to, job, leaving);
  }

  lemma CancelIsMove(db: Db, expected: int, to: LifecycleState, job: Uuid, leaving: Did)
    ensures var step := ByUser(Cancel(expected, to, job, leaving));
      && Apply(db, step) == CancelIntent(db, expected, to, job, leaving)
      && MoveOf(db, step) == if CanCancel(db, expected, to, job, leaving) then Some(Move(leaving, expected)) else None
  {
    CancelEffect(db, expected, to, job, leaving);
  }

  lemma DepartMoves(db: Db, leaving: Did, expected: int, owner: Did)
    requires owner in db.lifecycles
    ensures MovesOnlyAsAsked(db, ProfileDeparture(db, leaving, expected).0,
            MoveOf(db, ByUser(Depart(leaving, expected))), owner)
    ensures EpochMovesAsCounted(db, ProfileDeparture(db, leaving, expected).0, ByUser(Depart(leaving, expected)), owner)
  {
  }

  lemma AcceptMoves(
    db: Db, expected: int, request: AcceptanceRequest, binding: CredentialBinding, ids: seq<Uuid>, owner: Did)
    requires owner in db.lifecycles
    ensures MovesOnlyAsAsked(db, Accept(db, expected, request, binding, ids).0,
                             MoveOf(db, ByUser(Confirm(expected, request, binding, ids))), owner)
    ensures EpochMovesAsCounted(db, Accept(db, expected, request, binding, ids).0,
                                ByUser(Confirm(expected, request, binding, ids)), owner)
  {
  }

  lemma WorkersMove(db: Db, token: Uuid, call: WorkerCall, owner: Did)
    requires owner in db.lifecycles
    ensures MovesOnlyAsAsked(db, ApplyWorker(db, token, call).0, MoveOf(db, ByWorker(token, call)), owner)
    ensures EpochMovesAsCounted(db, ApplyWorker(db, token, call).0, ByWorker(token, call), owner)
  {
  }

  lemma ServiceMoves(db: Db, step: ServiceStep, owner: Did)
    requires owner in db.lifecycles
    ensures MovesOnlyAsAsked(db, ApplyService(db, step).0, MoveOf(db, ByService(step)), owner)
    ensures EpochMovesAsCounted(db, ApplyService(db, step).0, ByService(step), owner)
  {
  }

  lemma StepMoves(db: Db, step: Step, owner: Did)
    requires owner in db.lifecycles
    ensures MovesOnlyAsAsked(db, Apply(db, step).0, MoveOf(db, step), owner)
    ensures EpochMovesAsCounted(db, Apply(db, step).0, step, owner)
  {
    match step
    case ByUser(user) =>
      match user {
        case Begin(expected, intent) => BeginMoves(db, expected, intent, owner);
        case Cancel(expected, to, job, leaving) => CancelMoves(db, expected, to, job, leaving, owner);
        case Depart(leaving, expected) => DepartMoves(db, leaving, expected, owner);
        case Confirm(expected, request, binding, ids) => AcceptMoves(db, expected, request, binding, ids, owner);
        case _ =>
      }
    case ByWorker(token, call) => WorkersMove(db, token, call, owner);
    case ByService(service) => ServiceMoves(db, service, owner);
  }

  // Step k commits the owner's transition out of generation g.
  ghost predicate LeavesAt(db: Db, steps: seq<Step>, k: nat, owner: Did, g: int) {
    k < |steps| && MoveOf(Run(db, steps[..k]), steps[k]) == Some(Move(owner, g))
  }

  lemma LeavesAtPrefix(db: Db, steps: seq<Step>, n: nat, k: nat, owner: Did, g: int)
    requires k < n <= |steps|
    ensures LeavesAt(db, steps[..n], k, owner, g) <==> LeavesAt(db, steps, k, owner, g)
  {
    assert steps[..n][..k] == steps[..k];
  }

  lemma {:induction false} GenerationRises(db: Db, steps: seq<Step>, owner: Did)
    requires owner in db.lifecycles
    ensures owner in Run(db, steps).lifecycles
    ensures db.lifecycles[owner].generation <= Run(db, steps).lifecycles[owner].generation
    decreases |steps|
  {
    if steps != [] {
      var n := |steps| - 1;
      GenerationRises(db, steps[..n], owner);
      StepMoves(Run(db, steps[..n]), steps[n], owner);
    }
  }

  // At the same generation an owner is in the same state.
  lemma {:induction false} StateFollowsGeneration(db: Db, steps: seq<Step>, owner: Did)
    requires owner in db.lifecycles
    ensures owner in Run(db, steps).lifecycles
    ensures db.lifecycles[owner].generation == Run(db, steps).lifecycles[owner].generation
            ==> db.lifecycles[owner].state == Run(db, steps).lifecycles[owner].state
    decreases |steps|
  {
    if steps != [] {
      var n := |steps| - 1;
      GenerationRises(db, steps[..n], owner);
      StateFollowsGeneration(db, steps[..n], owner);
      StepMoves(Run(db, steps[..n]), steps[n], owner);
    }
  }

  // What is left by a step lies between the generations before and after.
  lemma LeavesWithin(db: Db, steps: seq<Step>, owner: Did, k: nat, g: int)
    requires owner in db.lifecycles && LeavesAt(db, steps, k, owner, g)
    ensures owner in Run(db, steps).lifecycles
    ensures db.lifecycles[owner].generation <= g < Run(db, steps).lifecycles[owner].generation
  {
    var front, rest := steps[..k + 1], steps[k + 1..];
    assert front[..k] == steps[..k] && front[k] == steps[k] && front + rest == steps;
    GenerationRises(db, front[..k], owner);
    StepMoves(Run(db, front[..k]), front[k], owner);
    GenerationRises(Run(db, front), rest, owner);
    RunsCompose(db, front, rest);
  }

  // Later transitions leave higher generations.
  lemma LaterLeavesHigher(db: Db, steps: seq<Step>, owner: Did, j: nat, g: int, k: nat, h: int)
    requires owner in db.lifecycles && j < k
    requires LeavesAt(db, steps, j, owner, g) && LeavesAt(db, steps, k, owner, h)
    ensures g < h
  {
    var front := steps[..k];
    LeavesAtPrefix(db, steps, k, j, owner, g);
    LeavesWithin(db, front, owner, j, g);
    StepMoves(Run(db, front), steps[k], owner);
  }

  ghost predicate LeftOnce(db: Db, steps: seq<Step>, owner: Did, g: int) {
    exists k: nat :: LeavesAt(db, steps, k, owner, g) && forall j: nat :: LeavesAt(db, steps, j, owner, g) ==> j == k
  }

  // Whatever generations its actors present: over any run the generations an owner
  // passed are exactly those that one committed transition left, and no two
  // transitions left the same one.
  lemma EachGenerationIsLeftOnce(db: Db, steps: seq<Step>, owner: Did, g: int)
    requires owner in db.lifecycles
    ensures owner in Run(db, steps).lifecycles
    ensures LeftOnce(db, steps, owner, g)
            <==> db.lifecycles[owner].generation <= g < Run(db, steps).lifecycles[owner].generation
  {
    GenerationRises(db, steps, owner);
    if k: nat :| LeavesAt(db, steps, k, owner, g) {
      LeavesWithin(db, steps, owner, k, g);
    }
    if db.lifecycles[owner].generation <= g < Run(db, steps).lifecycles[owner].generation {
      var k := LeavingStep(db, steps, owner, g);
      forall j: nat | LeavesAt(db, steps, j, owner, g)
        ensures j == k
      {
        if j < k {
          LaterLeavesHigher(db, steps, owner, j, g, k, g);
        } else if k < j {
          LaterLeavesHigher(db, steps, owner, k, g, j, g);
        }
      }
    }
  }

  lemma {:induction false} LeavingStep(db: Db, steps: seq<Step>, owner: Did, g: int) returns (k: nat)
    requires owner in db.lifecycles && owner in Run(db, steps).lifecycles
    requires db.lifecycles[owner].generation <= g < Run(db, steps).lifecycles[owner].generation
    ensures LeavesAt(db, steps, k, owner, g)
    decreases |steps|
  {
    var n := |steps| - 1;
    var front := steps[..n];
    GenerationRises(db, front, owner);
    StepMoves(Run(db, front), steps[n], owner);
    if g < Run(db, front).lifecycles[owner].generation {
      k := LeavingStep(db, front, owner, g);
      LeavesAtPrefix(db, steps, n, k, owner, g);
    } else {
      k := n;
    }
  }

  // --- Epochs --------------------------------------------------------------

  ghost function Revocations(db: Db, steps: seq<Step>, owner: Did): nat
    requires owner in db.lifecycles
  {
    if steps == [] then 0
    else
      var n := |steps| - 1;
      GenerationRises(db, steps[..n], owner);
      GenerationRises(db, steps, owner);
      Revocations(db, steps[..n], owner)
        + if RevokesOwner(Run(db, steps[..n]), Run(db, steps), steps[n], owner) then 1 else 0
  }

  ghost function Logouts(db: Db, steps: seq<Step>, owner: Did): nat {
    if steps == [] then 0
    else
      var n := |steps| - 1;
      Logouts(db, steps[..n], owner) + if LogsOut(Run(db, steps[..n]), steps[n], owner) then 1 else 0
  }

  // An owner's epoch counts its departures, its points of no return and the times it
  // was logged out everywhere, nothing else.
  lemma {:induction false} EpochCountsRevocations(db: Db, steps: seq<Step>, owner: Did)
    requires owner in db.lifecycles
    ensures owner in Run(db, steps).lifecycles
    ensures Run(db, steps).lifecycles[owner].authEpoch
            == db.lifecycles[owner].authEpoch + Revocations(db, steps, owner) + Logouts(db, steps, owner)
    decreases |steps|
  {
    if steps != [] {
      var n := |steps| - 1;
      EpochCountsRevocations(db, steps[..n], owner);
      StepMoves(Run(db, steps[..n]), steps[n], owner);
    }
  }

  // --- The life of an intent -----------------------------------------------

  predicate Begins(db: Db, step: Step, job: Uuid) {
    step.ByUser? && step.user.Begin? && step.user.intent.jobId == job && Apply(db, step).1 == Done
  }

  predicate Binds(db: Db, step: Step, job: Uuid) {
    step.ByUser? && step.user.Bind? && step.user.job == job && Apply(db, step).1 == Done
  }

  // The row as this begin wrote it.
  predicate RowBegun(op: Operation, step: Step)
    requires step.ByUser? && step.user.Begin?
  {
    && op.owner == step.user.intent.owner && op.ownerGeneration == step.user.expected
    && op.didHash == Some(step.user.intent.didHash) && op.intentExpiresAt == Some(step.user.intent.expiresAt)
  }

  // The row's reauthentication as this callback wrote it.
  predicate RowBound(op: Operation, step: Step)
    requires step.ByUser? && step.user.Bind?
  {
    && op.owner == step.user.attempt.owner && step.user.attempt.ownerGeneration == op.ownerGeneration + 1
    && op.reauthSession == Some(step.user.attempt.session)
    && op.credentialGeneration == Some(step.user.credentialGeneration)
    && op.proofHash == Some(step.user.proofHash)
  }

  // What a step did to a row that is an intent after it.
  ghost predicate IntentStep(db: Db, after: Db, step: Step, job: Uuid)
    requires job in after.operations
  {
    || (IsIntent(db, job) && after.operations[job] == db.operations[job] && !Begins(db, step, job)
       && !Binds(db, step, job))
    || (Begins(db, step, job) && job !in db.used
        && RowBegun(after.operations[job], step) && after.operations[job].reauthSession.None?)
    || (Binds(db, step, job) && IsIntent(db, job) && db.operations[job].reauthSession.None?
        && RowBound(after.operations[job], step)
        && after.operations[job] == db.operations[job].(reauthSession := after.operations[job].reauthSession,
             credentialGeneration := after.operations[job].credentialGeneration,
               proofHash := after.operations[job].proofHash))
  }

  lemma BeginOnIntent(db: Db, expected: int, intent: IntentRecord, job: Uuid)
    requires IsIntent(CreateIntent(db, expected, intent).0, job) && db.operations.Keys <= db.used
    ensures IntentStep(db, CreateIntent(db, expected, intent).0, ByUser(Begin(expected, intent)), job)
  {
  }

  lemma BindOnIntent(db: Db, attempt: CallbackAttempt, bound: Uuid, generation: int, proof: Digest, job: Uuid)
    requires Inv(db) && IsIntent(BindReauthentication(db, attempt, bound, generation, proof).0, job)
    ensures IntentStep(db, BindReauthentication(db, attempt, bound, generation, proof).0,
            ByUser(Bind(attempt, bound, generation, proof)), job)
  {
    if BindReauthentication(db, attempt, bound, generation, proof).1 == Done {
      assert Staged(db.operations[bound], db.lifecycles[db.operations[bound].owner]);
    }
  }

  lemma OthersOnIntent(db: Db, step: UserStep, job: Uuid)
    requires IsIntent(ApplyUser(db, step).0, job) && !step.Begin? && !step.Bind?
    ensures IsIntent(db, job) && ApplyUser(db, step).0.operations[job] == db.operations[job]
  {
  }

  lemma UsersOnIntent(db: Db, step: UserStep, job: Uuid)
    requires Inv(db) && IsIntent(ApplyUser(db, step).0, job)
    ensures IntentStep(db, ApplyUser(db, step).0, ByUser(step), job)
  {
    match step
    case Begin(expected, intent) => BeginOnIntent(db, expected, intent, job);
    case Bind(attempt, bound, generation, proof) => BindOnIntent(db, attempt, bound, generation, proof, job);
    case _ => OthersOnIntent(db, step, job);
  }

  lemma CallsOnIntent(db: Db, claim: ClaimedOperation, call: WorkerCall, job: Uuid)
    requires IsIntent(ApplyCall(db, claim, call).0, job)
    ensures IsIntent(db, job) && ApplyCall(db, claim, call).0.operations[job] == db.operations[job]
  {
  }

  lemma ServiceOnIntent(db: Db, step: ServiceStep, job: Uuid)
    requires IsIntent(ApplyService(db, step).0, job)
    ensures IsIntent(db, job) && ApplyService(db, step).0.operations[job] == db.operations[job]
  {
  }

  lemma StepOnIntent(db: Db, step: Step, job: Uuid)
    requires Inv(db) && IsIntent(Apply(db, step).0, job)
    ensures IntentStep(db, Apply(db, step).0, step, job)
  {
    match step
    case ByUser(user) => UsersOnIntent(db, user, job);
    case ByWorker(token, call) => if token in db.claims { CallsOnIntent(db, db.claims[token], call, job); }
    case ByService(service) => ServiceOnIntent(db, service, job);
  }

  // --- The binding shown before acceptance ---------------------------------

  // A bound intent row does not change until it stops being an intent.
  lemma {:induction false} BoundIntentIsFrozen(db: Db, steps: seq<Step>, job: Uuid)
    requires Inv(db) && IsIntent(db, job) && db.operations[job].reauthSession.Some?
    ensures PastIntent(Run(db, steps), job)
            || (IsIntent(Run(db, steps), job) && Run(db, steps).operations[job] == db.operations[job])
    decreases |steps|
  {
    if steps != [] {
      var n := |steps| - 1;
      BoundIntentIsFrozen(db, steps[..n], job);
      var before := Run(db, steps[..n]);
      RunKeepsInv(db, steps[..n]);
      RunKeepsInv(db, steps);
      if PastIntent(before, job) {
        StepKeepsPast(before, steps[n], job);
      } else if IsIntent(Run(db, steps), job) {
        StepOnIntent(before, steps[n], job);
      } else {
        UsedStays(before, steps[n]);
      }
    }
  }

  lemma UsedStays(db: Db, step: Step)
    ensures db.used <= Apply(db, step).0.used
  {
    match step
    case ByUser(user) => UsersKeepUsed(db, user);
    case ByWorker(token, call) => if token in db.claims { CallsKeepUsed(db, db.claims[token], call); }
    case ByService(service) => ServiceKeepsUsed(db, service);
  }

  lemma UsersKeepUsed(db: Db, step: UserStep)
    ensures db.used <= ApplyUser(db, step).0.used
  {
  }

  lemma CallsKeepUsed(db: Db, claim: ClaimedOperation, call: WorkerCall)
    ensures db.used <= ApplyCall(db, claim, call).0.used
  {
  }

  lemma ServiceKeepsUsed(db: Db, step: ServiceStep)
    ensures db.used <= ApplyService(db, step).0.used
  {
  }

  // Between reading the binding and accepting with it anything may happen: a later
  // reading with the same request answers exactly while the intent is there and has
  // not expired, and then with the same binding.
  lemma BindingIsStable(db: Db, request: AcceptanceRequest, steps: seq<Step>)
    requires Inv(db) && AcceptanceBinding(db, request).1 == Done
    ensures var later := Run(db, steps);
      && (AcceptanceBinding(later, request).1 == Done
          <==> IsIntent(later, request.jobId) && later.now < db.operations[request.jobId].intentExpiresAt.value)
      && (AcceptanceBinding(later, request).1 == Done ==>
            AcceptanceBinding(later, request) == AcceptanceBinding(db, request))
  {
    BoundIntentIsFrozen(db, steps, request.jobId);
  }

  // --- What came before an acceptance --------------------------------------

  ghost predicate BeginsAt(steps: seq<Step>, k: nat, job: Uuid) {
    k < |steps| && Begins(Run(EMPTY, steps[..k]), steps[k], job)
  }

  ghost predicate BindsAt(steps: seq<Step>, k: nat, job: Uuid) {
    k < |steps| && Binds(Run(EMPTY, steps[..k]), steps[k], job)
  }

  ghost predicate IntentFrom(steps: seq<Step>, b: nat, job: Uuid) {
    forall m: nat :: b < m <= |steps| ==> IsIntent(Run(EMPTY, steps[..m]), job)
  }

  lemma PrefixAgrees(steps: seq<Step>, n: nat, k: nat, job: Uuid)
    requires k < n <= |steps|
    ensures BeginsAt(steps[..n], k, job) <==> BeginsAt(steps, k, job)
    ensures BindsAt(steps[..n], k, job) <==> BindsAt(steps, k, job)
  {
    assert steps[..n][..k] == steps[..k] && steps[..n][k] == steps[k];
  }

  lemma IntentGoesOn(steps: seq<Step>, b: nat, job: Uuid)
    requires steps != [] && IntentFrom(steps[..|steps| - 1], b, job) && IsIntent(Run(EMPTY, steps), job)
    ensures IntentFrom(steps, b, job)
  {
    forall m: nat | b < m <= |steps|
      ensures IsIntent(Run(EMPTY, steps[..m]), job)
    {
      PrefixOfFront(steps, m);
    }
  }

  lemma PrefixOfFront(steps: seq<Step>, m: nat)
    requires m <= |steps|
    ensures m == |steps| ==> steps[..m] == steps
    ensures m < |steps| ==> steps[..|steps| - 1][..m] == steps[..m]
  {
  }

  // The last step of a run that ends with the job as an intent.
  lemma LastOnIntent(steps: seq<Step>, job: Uuid)
    requires steps != [] && IsIntent(Run(EMPTY, steps), job)
    ensures var n, row := |steps| - 1, Run(EMPTY, steps).operations[job];
      var before := Run(EMPTY, steps[..n]);
      || (BeginsAt(steps, n, job) && RowBegun(row, steps[n]) && row.reauthSession.None?)
      || (IsIntent(before, job) && BindsAt(steps, n, job) && RowBound(row, steps[n])
          && row.owner == before.operations[job].owner && row.ownerGeneration == before.operations[job].ownerGeneration
          && row.didHash == before.operations[job].didHash
             && row.intentExpiresAt == before.operations[job].intentExpiresAt)
      || (IsIntent(before, job) && row == before.operations[job])
  {
    ReachableStatesSatisfyInv(steps[..|steps| - 1]);
    StepOnIntent(Run(EMPTY, steps[..|steps| - 1]), steps[|steps| - 1], job);
  }

  // The begin that wrote the row ...
  lemma {:induction false} BegunAt(steps: seq<Step>, job: Uuid) returns (b: nat)
    requires IsIntent(Run(EMPTY, steps), job)
    ensures BeginsAt(steps, b, job) && IntentFrom(steps, b, job)
    ensures RowBegun(Run(EMPTY, steps).operations[job], steps[b])
    decreases |steps|
  {
    var n := |steps| - 1;
    LastOnIntent(steps, job);
    if BeginsAt(steps, n, job) && RowBegun(Run(EMPTY, steps).operations[job], steps[n]) {
      b := n;
      assert steps[..|steps|] == steps;
    } else {
      b := BegunAt(steps[..n], job);
      PrefixAgrees(steps, n, b, job);
      IntentGoesOn(steps, b, job);
    }
  }

  // ... and the callback that bound it.
  lemma {:induction false} BoundAt(steps: seq<Step>, job: Uuid) returns (i: nat)
    requires IsIntent(Run(EMPTY, steps), job) && Run(EMPTY, steps).operations[job].reauthSession.Some?
    ensures BindsAt(steps, i, job) && RowBound(Run(EMPTY, steps).operations[job], steps[i])
    decreases |steps|
  {
    var n := |steps| - 1;
    LastOnIntent(steps, job);
    if BindsAt(steps, n, job) && RowBound(Run(EMPTY, steps).operations[job], steps[n]) {
      i := n;
    } else {
      i := BoundAt(steps[..n], job);
      PrefixAgrees(steps, n, i, job);
    }
  }

  // --- Only once -----------------------------------------------------------

  lemma {:induction false} UsedForever(db: Db, steps: seq<Step>)
    ensures db.used <= Run(db, steps).used
    decreases |steps|
  {
    if steps != [] {
      UsedForever(db, steps[..|steps| - 1]);
      UsedStays(Run(db, steps[..|steps| - 1]), steps[|steps| - 1]);
    }
  }

  lemma RunBetween(steps: seq<Step>, j: nat, k: nat)
    requires j < k <= |steps|
    ensures Run(EMPTY, steps[..k]) == Run(Apply(Run(EMPTY, steps[..j]), steps[j]).0, steps[j + 1..k])
  {
    assert steps[..j + 1][..j] == steps[..j];
    assert steps[..k] == steps[..j + 1] + steps[j + 1..k];
    RunsCompose(EMPTY, steps[..j + 1], steps[j + 1..k]);
  }

  lemma BeginsOnce(steps: seq<Step>, j: nat, k: nat, job: Uuid)
    requires BeginsAt(steps, j, job) && BeginsAt(steps, k, job)
    ensures j == k
  {
    if j < k {
      NoSecondBegin(steps, j, k, job);
    } else if k < j {
      NoSecondBegin(steps, k, j, job);
    }
  }

  lemma NoSecondBegin(steps: seq<Step>, j: nat, k: nat, job: Uuid)
    requires j < k && BeginsAt(steps, j, job)
    ensures !BeginsAt(steps, k, job)
  {
    if k < |steps| {
      RunBetween(steps, j, k);
      UsedForever(Apply(Run(EMPTY, steps[..j]), steps[j]).0, steps[j + 1..k]);
    }
  }

  lemma NoSecondBinding(steps: seq<Step>, j: nat, k: nat, job: Uuid)
    requires j < k && BindsAt(steps, j, job)
    ensures !BindsAt(steps, k, job)
  {
    if BindsAt(steps, k, job) {
      ReachableStatesSatisfyInv(steps[..j]);
      RunBetween(steps, j, k);
      var first, second := steps[j].user, steps[k].user;
      ReauthenticationBindsOnce(Run(EMPTY, steps[..j]), first.attempt, job, first.credentialGeneration, first.proofHash,
        steps[j + 1..k], second.attempt, second.credentialGeneration, second.proofHash);
    }
  }

  lemma BindsOnce(steps: seq<Step>, j: nat, k: nat, job: Uuid)
    requires BindsAt(steps, j, job) && BindsAt(steps, k, job)
    ensures j == k
  {
    if j < k {
      NoSecondBinding(steps, j, k, job);
    } else if k < j {
      NoSecondBinding(steps, k, j, job);
    }
  }

  // What acceptance at n passes on was asked for by the begin at b and confirmed by
  // the callback at i.
  ghost predicate Authorizes(steps: seq<Step>, b: nat, i: nat, n: nat)
    requires b < |steps| && steps[b].ByUser? && steps[b].user.Begin?
    requires i < |steps| && steps[i].ByUser? && steps[i].user.Bind?
    requires n < |steps| && steps[n].ByUser? && steps[n].user.Confirm?
  {
    var begin, bind, confirm := steps[b].user, steps[i].user, steps[n].user;
    && b < i < n
    && confirm.request.owner == begin.intent.owner == bind.attempt.owner
    && begin.intent.didHash == Digest(confirm.request.confirmation)
    && bind.proofHash == Digest(confirm.request.reauthProof)
    && confirm.binding == CredentialBinding(confirm.request.jobId, bind.attempt.session, bind.credentialGeneration)
    && bind.attempt.ownerGeneration == begin.expected + 1 && confirm.expected == begin.expected + 1
  }

  // In every run that accepts a deletion: the intent was begun once and bound once,
  // in this order, by the owner who confirms it, and was there all the time between.
  lemma AcceptanceFollowsOneReauthentication(steps: seq<Step>, n: nat, job: Uuid) returns (b: nat, i: nat)
    requires n < |steps| && steps[n].ByUser? && steps[n].user.Confirm? && steps[n].user.request.jobId == job
    requires Apply(Run(EMPTY, steps[..n]), steps[n]).1 == Done
    ensures BeginsAt(steps, b, job) && BindsAt(steps, i, job) && Authorizes(steps, b, i, n)
    ensures IntentFrom(steps[..n], b, job) && Run(EMPTY, steps[..n]).now < steps[b].user.intent.expiresAt
    ensures forall k: nat :: BeginsAt(steps, k, job) ==> k == b
    ensures forall k: nat :: BindsAt(steps, k, job) ==> k == i
  {
    var before := Run(EMPTY, steps[..n]);
    b := BegunAt(steps[..n], job);
    i := BoundAt(steps[..n], job);
    PrefixAgrees(steps, n, b, job);
    PrefixAgrees(steps, n, i, job);
    forall k: nat | BeginsAt(steps, k, job) ensures k == b { BeginsOnce(steps, k, b, job); }
    forall k: nat | BindsAt(steps, k, job) ensures k == i { BindsOnce(steps, k, i, job); }
    if i <= b {
      BindingNeedsIntent(steps, i, b, job);
    }
    ReachableStatesSatisfyInv(steps[..n]);
    assert Staged(before.operations[job], before.lifecycles[before.operations[job].owner]);
  }

  // A callback binds a job that has been begun.
  lemma BindingNeedsIntent(steps: seq<Step>, i: nat, b: nat, job: Uuid)
    requires BindsAt(steps, i, job) && BeginsAt(steps, b, job)
    ensures b < i
  {
    if i < b {
      ReachableStatesSatisfyInv(steps[..i]);
      RunBetween(steps, i, b);
      UsedStays(Run(EMPTY, steps[..i]), steps[i]);
      UsedForever(Apply(Run(EMPTY, steps[..i]), steps[i]).0, steps[i + 1..b]);
    }
  }
}
