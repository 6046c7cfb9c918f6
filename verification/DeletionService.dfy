// The application service: each call reads, lets others run, and then commits
// one transaction that rechecks what it read.
module DeletionService {
  import opened Wrappers
  import opened CraftskyCollections
  import opened DeletionTables
  import opened SafetyTombstones
  import opened DeletionTransactions
  import opened DeletionSteps
  import opened DeletionInvariant
  import opened DeletionPreservation
  import opened DeletionAuthority
  import opened DeletionRetry
  import opened DeletionStuck
  import opened DeletionStore
  import opened DeletionEffects
  import opened DeletionWorkEffects
  import opened DeletionReadings
  import DeletionHistory

  // --- What a call leaves behind -------------------------------------------

  // Everything the other actors did from one turn up to another.
  ghost function Meanwhile(others: nat -> seq<Step>, first: nat, last: nat): seq<Step>
    requires first <= last
  {
    if first == last then [] else Meanwhile(others, first, last - 1) + others(last - 1)
  }

  // The rows are what the other actors alone would have made of them.
  ghost predicate OnlyOthersActed(store: Store, before: Db, first: nat)
    reads store
  {
    first <= store.turn && Leads(before, Meanwhile(store.others, first, store.turn), store.State())
  }

  // The rows are those of `before`, after what the others did since, and then
  // this caller's last step, which committed.
  ghost predicate LastStepCommitted(store: Store, before: Db, first: nat)
    reads store
  {
    && first <= store.turn && store.own != []
    && var deed := store.own[|store.own| - 1];
       && Leads(before, Meanwhile(store.others, first, store.turn), deed.found)
       && deed.outcome == Done
       && deed.left == store.State()
  }

  // The other actors never change whether the owner has a profile.
  ghost predicate SteadyMembership(others: nat -> seq<Step>, owner: Did) {
    forall n :: NoProfileStep(others(n), owner)
  }

  lemma SteadyMeanwhile(others: nat -> seq<Step>, first: nat, last: nat, owner: Did)
    requires first <= last && SteadyMembership(others, owner)
    ensures NoProfileStep(Meanwhile(others, first, last), owner)
  {
    if first < last {
      SteadyMeanwhile(others, first, last - 1, owner);
      assert NoProfileStep(others(last - 1), owner);
    }
  }

  function GenerationOf(db: Db, owner: Did): int {
    if owner in db.lifecycles then db.lifecycles[owner].generation else 0
  }

  // The rows that decided a call: those its own transaction found, if it came to one.
  ghost function Decisive(store: Store, mine: nat): Db
    reads store
  {
    if |store.own| > mine then store.own[|store.own| - 1].found else store.State()
  }

  // The rows when this much had happened; sealed.
  ghost predicate ReadAs(store: Store, history: seq<Step>, db: Db)
    reads store
  {
    && history <= store.history
    && forall seal: bool {:trigger Unsealed(seal)} :: Unsealed(seal) ==> Inv(db) && Run(store.start, history) == db
  }

  lemma ReadNow(store: Store)
    requires store.Valid()
    ensures ReadAs(store, store.history, store.State())
    ensures forall owner :: owner in store.lifecycles ==> store.lifecycles[owner].generation > 0
  {
    store.StateIsReached();
  }

  // A stuck intent of this owner, in a sound state; sealed.
  ghost predicate WasStuck(db: Db, job: Uuid, owner: Did) {
    forall seal: bool {:trigger Unsealed(seal)} :: Unsealed(seal) ==> Inv(db) && StuckFor(db, job, owner)
  }

  // While membership is steady the target is the one that it called for before.
  ghost predicate TargetFits(others: nat -> seq<Step>, before: Db, owner: Did, target: LifecycleState) {
    SteadyMembership(others, owner) ==> (target.Active? <==> owner in before.profiles)
  }

  // The owner was pending at that generation when this much had happened.
  ghost predicate PendingAt(store: Store, history: seq<Step>, owner: Did, generation: int)
    reads store
  {
    var db := Run(store.start, history);
    && owner in db.lifecycles && db.lifecycles[owner].state.DeletionPending?
    && db.lifecycles[owner].generation == generation > 0
  }

  // So as long as the generation is the same, it is pending.
  lemma PendingUnlessMoved(store: Store, history: seq<Step>, owner: Did, generation: int)
    requires store.Valid() && history <= store.history && PendingAt(store, history, owner, generation)
    ensures Inv(store.State()) && owner in store.lifecycles
    ensures store.lifecycles[owner].generation == generation ==> store.lifecycles[owner].state.DeletionPending?
  {
    store.StateIsReached();
    var since := store.history[|history|..];
    assert store.history == history + since;
    RunsCompose(store.start, history, since);
    DeletionHistory.StateFollowsGeneration(Run(store.start, history), since, owner);
  }

  // What a cancellation resolves to; sealed.
  ghost predicate Concluded(db: Db, job: Uuid, owner: Did, outcome: Outcome) {
    forall seal: bool {:trigger Unsealed(seal)} :: Unsealed(seal) ==> Resolved(db, job, owner, outcome)
  }

  ghost predicate CancelConcludes(db: Db, expected: int, to: LifecycleState, job: Uuid, owner: Did) {
    var (after, outcome) := CancelIntent(db, expected, to, job, owner);
    Concluded(after, job, owner, outcome)
  }

  // What a cancellation of a stuck intent ends with.
  ghost predicate RefusedAsStuck(others: nat -> seq<Step>, owner: Did, outcome: Outcome) {
    && outcome in {ReauthenticationRequired, GenerationChanged}
    && (SteadyMembership(others, owner) ==> outcome == ReauthenticationRequired)
  }

  method Pause(store: Store, ghost before: Db, ghost first: nat)
    requires store.Valid() && OnlyOthersActed(store, before, first)
    modifies store
    ensures store.Valid() && OnlyOthersActed(store, before, first)
    ensures store.Grew() && store.own == old(store.own) && store.turn == old(store.turn) + 1
  {
    ghost var turn, here := store.turn, store.State();
    store.Yield();
    LeadsOn(before, Meanwhile(store.others, first, turn), here, store.others(turn), store.State());
  }

  // A worker's claim is one the store handed out.
  predicate Issued(store: Store, claim: ClaimedOperation)
    reads store
  {
    claim.leaseToken in store.claims && store.claims[claim.leaseToken] == claim
  }

  method PauseHolding(store: Store, claim: ClaimedOperation, ghost before: Db, ghost first: nat)
    requires store.Valid() && OnlyOthersActed(store, before, first) && Issued(store, claim)
    modifies store
    ensures store.Valid() && OnlyOthersActed(store, before, first) && Issued(store, claim)
    ensures store.Grew() && store.own == old(store.own) && store.turn == old(store.turn) + 1
  {
    ghost var turn, here := store.turn, store.State();
    store.StateIsReached();
    store.Yield();
    LeadsOn(before, Meanwhile(store.others, first, turn), here, store.others(turn), store.State());
    LeaseSurvives(here, store.others(turn), store.State(), claim.leaseToken);
  }

  lemma LeaseSurvives(before: Db, steps: seq<Step>, after: Db, token: Uuid)
    requires Inv(before) && Leads(before, steps, after) && token in before.claims
    ensures token in after.claims && after.claims[token] == before.claims[token]
  {
    assert Unsealed(true);
    ClaimsAreKept(before, steps, token);
  }

  // --- Cancellation --------------------------------------------------------

  // A cancellation of this very job, at the generation and for the membership it
  // was asked for.
  ghost predicate CancelDeed(d: Deed, job: Uuid, owner: Did) {
    && d.step.ByUser? && d.step.user.Cancel? && d.step.user.job == job && d.step.user.owner == owner
    && (d.outcome == Done ==> d.left != d.found && IntentRemoved(d, job, owner))
    && (d.outcome != Done ==> d.left == d.found)
    && (d.outcome == GenerationChanged ==> LostRace(d, owner))
  }

  // What a committed cancellation did: an intent row gone, and the owner back in
  // the state that membership calls for, one generation later.
  predicate IntentRemoved(d: Deed, job: Uuid, owner: Did) {
    && job in d.found.operations && d.found.operations[job].status.StatusIntent?
    && d.found.operations[job].owner == owner
    && d.left.operations == d.found.operations - {job}
    && owner in d.found.lifecycles && owner in d.left.lifecycles
    && d.left.lifecycles[owner].state == (if owner in d.found.profiles then Active else Departed)
    && d.left.lifecycles[owner].generation == d.found.lifecycles[owner].generation + 1
  }

  // What this caller read is no longer so.
  predicate LostRace(d: Deed, owner: Did)
    requires d.step.ByUser? && d.step.user.Cancel?
  {
    owner in d.found.lifecycles
    && (d.found.lifecycles[owner].generation != d.step.user.expected
       || (owner in d.found.profiles) != d.step.user.to.Active?)
  }

  // What was recorded since `done` is cancellations, all of them lost but for
  // the last one perhaps.
  ghost predicate CancelledSince(asked: seq<Step>, done: seq<Deed>, history: seq<Step>, own: seq<Deed>, job: Uuid,
                                 owner: Did, lost: bool) {
    && asked <= history && done <= own
    && (forall i :: |done| <= i < |own| ==> |asked| <= own[i].at && CancelDeed(own[i], job, owner))
    && (forall i :: |done| <= i < |own| - (if lost then 0 else 1) ==> own[i].outcome == GenerationChanged)
  }

  // The same, sealed.
  ghost predicate Tried(asked: seq<Step>, done: seq<Deed>, history: seq<Step>, own: seq<Deed>, job: Uuid, owner: Did,
                        lost: bool) {
    forall seal: bool {:trigger Unsealed(seal)} :: Unsealed(seal) ==>
      CancelledSince(asked, done, history, own, job, owner, lost)
  }

  lemma TriedMeans(asked: seq<Step>, done: seq<Deed>, history: seq<Step>, own: seq<Deed>, job: Uuid, owner: Did,
                   lost: bool)
    ensures Tried(asked, done, history, own, job, owner, lost)
            <==> CancelledSince(asked, done, history, own, job, owner, lost)
  {
    assert Unsealed(true);
  }

  lemma TriedAgain(asked: seq<Step>, done: seq<Deed>, known: seq<Step>, sofar: seq<Deed>, history: seq<Step>,
                   own: seq<Deed>, job: Uuid, owner: Did)
    requires Tried(asked, done, known, sofar, job, owner, true)
    requires known <= history && sofar <= own && |own| == |sofar| + 1
    requires |known| <= own[|sofar|].at && CancelDeed(own[|sofar|], job, owner)
    ensures Tried(asked, done, history, own, job, owner, own[|sofar|].outcome == GenerationChanged)
  {
    assert Unsealed(true);
  }

  lemma TriedInVain(asked: seq<Step>, done: seq<Deed>, known: seq<Step>, sofar: seq<Deed>, history: seq<Step>,
                    job: Uuid, owner: Did)
    requires Tried(asked, done, known, sofar, job, owner, true) && known <= history
    ensures Tried(asked, done, history, sofar, job, owner, false)
  {
    assert Unsealed(true);
  }

  method CancelNow(store: Store, expected: int, to: LifecycleState, job: Uuid, owner: Did) returns (outcome: Outcome)
    requires store.Valid() && to in {Active, Departed} && CancelConcludes(store.State(), expected, to, job, owner)
    modifies store
    ensures store.Valid() && store.Grew() && store.turn == old(store.turn)
    ensures |store.own| == |old(store.own)| + 1
    ensures var d := store.own[|store.own| - 1];
      && CancelDeed(d, job, owner) && d.outcome == outcome
      && d.found == old(store.State()) && d.left == store.State()
    ensures outcome == CancelIntent(old(store.State()), expected, to, job, owner).1
    ensures Concluded(store.State(), job, owner, outcome)
  {
    outcome := store.CancelIntentWith(expected, to, job, owner);
  }

  // --- Intents, callbacks and acceptance ------------------------------------

  ghost predicate RefusedDeed(d: Deed) {
    d.outcome != Done && d.left == d.found
  }

  ghost predicate BeginDeed(d: Deed, intent: IntentRecord) {
    && d.step.ByUser? && d.step.user.Begin? && d.step.user.intent == intent
    && (d.outcome != Done ==> RefusedDeed(d))
    && (d.outcome == Done ==>
          && intent.owner in d.found.lifecycles && d.found.lifecycles[intent.owner].state.Active?
          && d.left.operations
             == d.found.operations[intent.jobId := NewIntent(intent, d.found.lifecycles[intent.owner].generation)])
  }

  method BeginNow(store: Store, expected: int, intent: IntentRecord) returns (outcome: Outcome)
    requires store.Valid()
    modifies store
    ensures store.Valid() && store.Grew() && store.turn == old(store.turn)
    ensures |store.own| == |old(store.own)| + 1
    ensures var d := store.own[|store.own| - 1];
      && BeginDeed(d, intent) && d.outcome == outcome && d.step.user.expected == expected
      && d.found == old(store.State()) && d.left == store.State()
      && (outcome == Done <==> CanBegin(d.found, expected, intent))
  {
    outcome := store.CreateIntentWith(expected, intent);
  }

  // An acceptance recorded on the very intent and secrets that were confirmed.
  ghost predicate ConfirmDeed(d: Deed, request: AcceptanceRequest) {
    && d.step.ByUser? && d.step.user.Confirm? && d.step.user.request == request
    && (d.outcome != Done ==> RefusedDeed(d))
    && (d.outcome == Done ==> Authorized(d.found, d.left, request))
  }

  predicate Authorized(found: Db, left: Db, request: AcceptanceRequest) {
    && request.jobId in found.operations && request.jobId in left.operations
    && var op := found.operations[request.jobId];
    && op.status.StatusIntent? && op.owner == request.owner
    && op.intentExpiresAt.Some? && found.now < op.intentExpiresAt.value
    && op.proofHash == Some(Digest(request.reauthProof)) && op.didHash == Some(Digest(request.confirmation))
    && op.reauthSession.Some? && left.operations[request.jobId].deletionSession == op.reauthSession
    && left.operations[request.jobId].acceptedAt == Some(found.now)
  }

  method ConfirmNow(store: Store, expected: int, request: AcceptanceRequest, binding: CredentialBinding, ids: seq<Uuid>)
    returns (outcome: Outcome)
    requires store.Valid()
    modifies store
    ensures store.Valid() && store.Grew() && store.turn == old(store.turn)
    ensures |store.own| == |old(store.own)| + 1
    ensures var d := store.own[|store.own| - 1];
      && ConfirmDeed(d, request) && d.outcome == outcome
      && d.found == old(store.State()) && d.left == store.State()
      && (outcome == Done <==> CanConfirm(d.found, expected, request, binding, ids))
  {
    store.StateIsReached();
    ghost var found := store.State();
    outcome := store.AcceptWith(expected, request, binding, ids);
    if outcome.Done? {
      AcceptanceIsAuthorized(found, expected, request, binding, ids);
    }
  }

  // SELECT COALESCE(deletion_credential_generation,0)+1 of an unbound, unexpired intent.
  function ReauthenticationGeneration(db: Db, job: Uuid, owner: Did): Option<int> {
    if job in db.operations && db.operations[job].owner == owner && db.operations[job].status.StatusIntent?
       && db.operations[job].intentExpiresAt.Some? && db.operations[job].intentExpiresAt.value > db.now
       && db.operations[job].reauthSession.None?
    then Some((match db.operations[job].credentialGeneration case None => 0 case Some(g) => g) + 1)
    else None
  }

  // Every deletion credential has generation one: the counter is never continued.
  lemma CredentialGenerationIsAlwaysOne(steps: seq<Step>, job: Uuid, owner: Did)
    ensures ReauthenticationGeneration(Run(EMPTY, steps), job, owner) in {None, Some(1)}
  {
    ReachableStatesSatisfyInv(steps);
    var db := Run(EMPTY, steps);
    if job in db.operations {
      assert Shaped(db.operations[job]);
    }
  }

  ghost predicate BindDeed(d: Deed, attempt: CallbackAttempt, job: Uuid, generation: int, proof: string) {
    && d.step.ByUser? && d.step.user.Bind? && d.step.user.attempt == attempt && d.step.user.job == job
    && (d.outcome != Done ==> RefusedDeed(d))
    && (d.outcome == Done ==>
          && job in d.found.operations && d.found.operations[job].reauthSession.None?
          && job in d.left.operations && d.left.operations[job].reauthSession == Some(attempt.session)
          && d.left.operations[job].proofHash == Some(Digest(proof))
          && d.left.operations[job].credentialGeneration == Some(generation)
          && (attempt.owner, attempt.session) in d.left.sessions
          && d.left.sessions[(attempt.owner, attempt.session)].state == DeletionOnly(job, generation))
  }

  method BindNow(store: Store, attempt: CallbackAttempt, job: Uuid, generation: int, proof: string)
    returns (outcome: Outcome)
    requires store.Valid()
    modifies store
    ensures store.Valid() && store.Grew() && store.turn == old(store.turn)
    ensures |store.own| == |old(store.own)| + 1
    ensures var d := store.own[|store.own| - 1];
      && BindDeed(d, attempt, job, generation, proof) && d.outcome == outcome
      && d.found == old(store.State()) && d.left == store.State()
      && (outcome == Done <==> CanBind(d.found, attempt, job, generation))
  {
    outcome := store.BindReauthenticationWith(attempt, job, generation, Digest(proof));
  }

  // --- Completion ----------------------------------------------------------

  // A completion: every tombstone of the claim settled, no untracked write, the
  // row and its tombstones gone and the owner departed.
  ghost predicate FinishDeed(d: Deed, claim: ClaimedOperation) {
    && d.step.ByWorker? && d.step.token == claim.leaseToken && d.step.call.Finish?
    && (d.outcome != Done ==> RefusedDeed(d))
    && (d.outcome == Done ==>
          && HoldsLease(d.found, claim)
          && SafetyConverged(d.found, claim) && NoUntrackedWrite(d.found, claim)
          && claim.owner in d.left.lifecycles && d.left.lifecycles[claim.owner].state.Departed?
          && d.left.operations == d.found.operations - {claim.jobId}
          && forall id :: id in d.left.tombstones ==> d.left.tombstones[id].operation != claim.jobId)
  }

  method FinishNow(store: Store, claim: ClaimedOperation, expected: int) returns (outcome: Outcome)
    requires store.Valid() && Issued(store, claim)
    modifies store
    ensures store.Valid() && store.Grew() && store.turn == old(store.turn) && Issued(store, claim)
    ensures |store.own| == |old(store.own)| + 1
    ensures var d := store.own[|store.own| - 1];
      && FinishDeed(d, claim) && d.outcome == outcome
      && d.found == old(store.State()) && d.left == store.State()
      && (outcome == Done <==> CanFinish(d.found, claim, expected))
  {
    outcome := store.CompleteWith(claim, expected);
  }

  datatype StartResult =
    | Started(expiresAt: Time)
    | NotStarted(reason: Outcome)
    | RolledBack
    | RollbackFailed(reason: Outcome)

  class AppService {
    const store: Store
    const intentTTL: int

    constructor (store: Store, intentTTL: int)
      ensures this.store == store && this.intentTTL > 0
    {
      this.store := store;
      this.intentTTL := if intentTTL <= 0 then 600_000_000_000 else intentTTL;
    }

    // The owner's generation, if a deletion of it is pending.
    method ReadCurrent(job: Uuid, owner: Did, ghost before: Db, ghost first: nat)
      returns (generation: Option<int>, refusal: Outcome)
      requires store.Valid() && OnlyOthersActed(store, before, first)
      modifies store
      ensures store.Valid() && OnlyOthersActed(store, before, first)
      ensures store.Grew() && store.own == old(store.own)
      ensures generation.None? ==> refusal in {Failed, PointOfNoReturn} && Concluded(store.State(), job, owner, refusal)
      ensures generation.Some? ==> PendingAt(store, store.history, owner, generation.value)
      ensures WasStuck(before, job, owner) ==> generation == Some(GenerationOf(before, owner))
    {
      Pause(store, before, first);
      store.StateIsReached();
      StillPending(before, first, job, owner);
      IntentsArePending(store.State(), job, owner);
      if owner !in store.lifecycles {
        return None, Failed;
      }
      var current := store.lifecycles[owner];
      if !current.state.DeletionPending? {
        return None, PointOfNoReturn;
      }
      return Some(current.generation), Failed;
    }

    // CancellationTarget: where membership puts the owner.
    method ReadTarget(owner: Did, ghost before: Db, ghost first: nat) returns (target: LifecycleState)
      requires store.Valid() && OnlyOthersActed(store, before, first)
      modifies store
      ensures store.Valid() && OnlyOthersActed(store, before, first)
      ensures store.Grew() && store.own == old(store.own)
      ensures target in {Active, Departed} && TargetFits(store.others, before, owner, target)
    {
      Pause(store, before, first);
      StillMember(before, first, owner);
      target := if owner in store.profiles then Active else Departed;
    }

    // One read, one target, one transaction.
    method TryCancel(job: Uuid, owner: Did, ghost before: Db, ghost first: nat, ghost asked: seq<Step>,
                     ghost done: seq<Deed>)
      returns (outcome: Outcome)
      requires store.Valid() && OnlyOthersActed(store, before, first)
      requires Tried(asked, done, store.history, store.own, job, owner, true)
      modifies store
      ensures store.Valid() && |store.own| <= |old(store.own)| + 1
      ensures Tried(asked, done, store.history, store.own, job, owner, outcome == GenerationChanged)
      ensures outcome in {Done, GenerationChanged} ==> |store.own| > |old(store.own)|
      ensures outcome != Done ==> OnlyOthersActed(store, before, first)
      ensures outcome == Done ==> LastStepCommitted(store, before, first)
      ensures Concluded(store.State(), job, owner, outcome)
      ensures WasStuck(before, job, owner) ==> RefusedAsStuck(store.others, owner, outcome)
    {
      ghost var known, sofar := store.history, store.own;
      var generation, refusal := ReadCurrent(job, owner, before, first);
      if generation.None? {
        TriedInVain(asked, done, known, sofar, store.history, job, owner);
        return refusal;
      }
      ghost var asRead := store.history;
      var target := ReadTarget(owner, before, first);
      Pause(store, before, first);
      CancelWillConclude(asRead, generation.value, target, job, owner);
      StuckIsRefused(before, first, target, job, owner);
      outcome := CancelNow(store, generation.value, target, job, owner);
      TriedAgain(asked, done, known, sofar, store.history, store.own, job, owner);
    }

    // The transaction of a caller that read the owner pending at that generation.
    lemma CancelWillConclude(asRead: seq<Step>, generation: int, target: LifecycleState, job: Uuid, owner: Did)
      requires store.Valid() && asRead <= store.history && PendingAt(store, asRead, owner, generation)
      requires target in {Active, Departed}
      ensures CancelConcludes(store.State(), generation, target, job, owner)
    {
      PendingUnlessMoved(store, asRead, owner, generation);
      CancelResolves(store.State(), generation, target, job, owner);
    }

    // An intent that was stuck before keeps its owner pending at the same generation.
    lemma StillPending(before: Db, first: nat, job: Uuid, owner: Did)
      requires OnlyOthersActed(store, before, first)
      ensures WasStuck(before, job, owner) ==>
                && owner in store.lifecycles && store.lifecycles[owner].state.DeletionPending?
                && store.lifecycles[owner].generation == GenerationOf(before, owner)
    {
      if WasStuck(before, job, owner) {
        assert Unsealed(true);
        StuckLater(before, Meanwhile(store.others, first, store.turn), store.State(), job, owner);
      }
    }

    lemma StuckIsRefused(before: Db, first: nat, target: LifecycleState, job: Uuid, owner: Did)
      requires OnlyOthersActed(store, before, first) && target in {Active, Departed}
      requires TargetFits(store.others, before, owner, target)
      ensures WasStuck(before, job, owner) ==>
                RefusedAsStuck(store.others, owner,
                               DeletionTransactions.CancelIntent(store.State(), GenerationOf(before, owner), target,
                                 job, owner).1)
    {
      StillMember(before, first, owner);
      if WasStuck(before, job, owner) {
        assert Unsealed(true);
        StuckLater(before, Meanwhile(store.others, first, store.turn), store.State(), job, owner);
        CancelOfStuck(store.State(), target, job, owner);
      }
    }

    lemma StillMember(before: Db, first: nat, owner: Did)
      requires OnlyOthersActed(store, before, first)
      ensures SteadyMembership(store.others, owner) ==> (owner in store.profiles <==> owner in before.profiles)
    {
      if SteadyMembership(store.others, owner) {
        SteadyMeanwhile(store.others, first, store.turn, owner);
        MembershipLater(before, Meanwhile(store.others, first, store.turn), store.State(), owner);
      }
    }

    // cancelIntent: two tries. It commits once, or it changes nothing. It ends with
    // the intent gone, by this caller or another, or stuck, or after losing both
    // races.
    method CancelIntent(job: Uuid, owner: Did) returns (outcome: Outcome)
      requires store.Valid()
      modifies store
      ensures store.Valid() && store.Grew() && |store.own| <= |old(store.own)| + 2
      ensures forall i :: |old(store.own)| <= i < |store.own| ==> CancelDeed(store.own[i], job, owner)
      ensures forall i :: |old(store.own)| <= i < |store.own| - 1 ==> store.own[i].outcome == GenerationChanged
      ensures outcome == Done
              ==> |store.own| > |old(store.own)| && LastStepCommitted(store, old(store.State()), old(store.turn))
      ensures outcome != Done ==> OnlyOthersActed(store, old(store.State()), old(store.turn))
      ensures outcome == GenerationChanged ==>
                |store.own| == |old(store.own)| + 2 && store.own[|store.own| - 1].outcome == GenerationChanged
      ensures Resolved(store.State(), job, owner, outcome)
      ensures WasStuck(old(store.State()), job, owner) ==> RefusedAsStuck(store.others, owner, outcome)
    {
      ghost var before, first, asked, done := store.State(), store.turn, store.history, store.own;
      LeadsNowhere(before);
      TriedMeans(asked, done, asked, done, job, owner, true);
      var attempt := 0;
      while attempt < 2
        invariant attempt <= 2 && store.Valid()
        invariant |store.own| == |done| + attempt && Tried(asked, done, store.history, store.own, job, owner, true)
        invariant OnlyOthersActed(store, before, first)
        invariant WasStuck(before, job, owner) && attempt > 0
                  ==> RefusedAsStuck(store.others, owner, GenerationChanged)
      {
        outcome := TryCancel(job, owner, before, first, asked, done);
        TriedMeans(asked, done, store.history, store.own, job, owner, outcome == GenerationChanged);
        assert Unsealed(true);
        if !outcome.GenerationChanged? {
          return;
        }
        attempt := attempt + 1;
      }
      TriedMeans(asked, done, store.history, store.own, job, owner, true);
      outcome := GenerationChanged;
    }

    // The owner was not active, or the transaction, asked for at the generation of an
    // owner that was read active, could not commit.
    ghost predicate CouldNotBegin(mine: nat, owner: Did, job: Uuid)
      requires mine <= |store.own|
      reads store
    {
      if mine == |store.own| then owner !in store.lifecycles || !store.lifecycles[owner].state.Active?
      else
        var d := store.own[|store.own| - 1];
        && d.step.ByUser? && d.step.user.Begin?
        && d.step.user.intent.jobId == job && d.step.user.intent.owner == owner
        && !CanBegin(d.found, d.step.user.expected, d.step.user.intent)
        && exists history, db :: ReadAs(store, history, db) && StandsAt(db, owner, d.step.user.expected, {Active})
    }

    // CreateIntent: begin, then start the OAuth flow; a failed start is taken back.
    method CreateIntent(owner: Did, job: Uuid, startOk: bool) returns (result: StartResult)
      requires store.Valid()
      modifies store
      ensures store.Valid() && store.Grew()
      ensures result.Started? ==>
                && startOk && |store.own| == |old(store.own)| + 1
                && store.own[|store.own| - 1].outcome == Done
                && BeginDeed(store.own[|store.own| - 1], IntentRecord(job, owner, Digest(owner), result.expiresAt))
      ensures result.NotStarted? ==> OnlyOthersActed(store, old(store.State()), old(store.turn))
      ensures result.NotStarted? ==> CouldNotBegin(|old(store.own)|, owner, job)
      ensures result.RolledBack? ==> !startOk && job !in store.operations && owner in store.lifecycles
                                     && store.lifecycles[owner].state in {Active, Departed}
      ensures result.RollbackFailed? ==>
                !startOk && result.reason != Done && Resolved(store.State(), job, owner, result.reason)
    {
      ghost var before, first := store.State(), store.turn;
      LeadsNowhere(before);
      Pause(store, before, first);
      var expiresAt := store.now + intentTTL;
      if owner !in store.lifecycles {
        return NotStarted(Failed);
      }
      var current := store.lifecycles[owner];
      if !current.state.Active? {
        return NotStarted(AlreadyPending);
      }
      ghost var read, readAt := store.State(), store.history;
      ReadNow(store);
      Pause(store, before, first);
      var outcome := BeginNow(store, current.generation, IntentRecord(job, owner, Digest(owner), expiresAt));
      if !outcome.Done? {
        assert ReadAs(store, readAt, read) && StandsAt(read, owner, current.generation, {Active});
        return NotStarted(outcome);
      }
      if startOk {
        return Started(expiresAt);
      }
      outcome := CancelIntent(job, owner);
      if !outcome.Done? {
        return RollbackFailed(outcome);
      }
      assert CancelDeed(store.own[|store.own| - 1], job, owner);
      result := RolledBack;
    }

    // Accept: the intent is checked, and checked again inside the transition. It
    // succeeds whenever the request holds at that moment.
    method Accept(request: AcceptanceRequest, ids: seq<Uuid>) returns (outcome: Outcome)
      requires store.Valid()
      modifies store
      ensures store.Valid() && store.Grew() && |store.own| <= |old(store.own)| + 1
      ensures outcome == Done ==>
                && |store.own| > |old(store.own)| && ConfirmDeed(store.own[|store.own| - 1], request)
                && LastStepCommitted(store, old(store.State()), old(store.turn))
      ensures outcome != Done ==> OnlyOthersActed(store, old(store.State()), old(store.turn))
      ensures outcome == Done <==> RequestHolds(Decisive(store, |old(store.own)|), request, ids)
    {
      ghost var before, first := store.State(), store.turn;
      LeadsNowhere(before);
      Pause(store, before, first);
      var binding;
      binding, outcome := ReadBinding(request);
      ghost var bound, boundAt := store.State(), store.history;
      ReadNow(store);
      if !outcome.Done? {
        NotRead(bound, request, ids);
        return;
      }
      Pause(store, before, first);
      ghost var owned, ownedAt := store.State(), store.history;
      ReadNow(store);
      if request.owner !in store.lifecycles {
        return Failed;
      }
      var current := store.lifecycles[request.owner];
      Pause(store, before, first);
      ConfirmsExactly(boundAt, bound, ownedAt, owned, request, binding, ids);
      outcome := ConfirmNow(store, current.generation, request, binding, ids);
    }

    lemma NotRead(db: Db, request: AcceptanceRequest, ids: seq<Uuid>)
      requires AcceptanceBinding(db, request).1 != Done
      ensures !RequestHolds(db, request, ids)
    {
      if RequestHolds(db, request, ids) {
        BindingIsReadWhileItHolds(db, request, ids);
      }
    }

    // What was read decides exactly as the rows of the transaction do.
    lemma ConfirmsExactly(
      boundAt: seq<Step>, bound: Db, ownedAt: seq<Step>, owned: Db, request: AcceptanceRequest,
      binding: CredentialBinding, ids: seq<Uuid>)
      requires store.Valid() && boundAt <= ownedAt && ReadAs(store, boundAt, bound) && ReadAs(store, ownedAt, owned)
      requires AcceptanceBinding(bound, request) == (Some(binding), Done) && request.owner in owned.lifecycles
      ensures CanConfirm(store.State(), owned.lifecycles[request.owner].generation, request, binding, ids)
              <==> RequestHolds(store.State(), request, ids)
    {
      assert Unsealed(true);
      store.StateIsReached();
      var first, second := ownedAt[|boundAt|..], store.history[|ownedAt|..];
      assert ownedAt == boundAt + first && store.history == ownedAt + second;
      RunsCompose(store.start, boundAt, first);
      RunsCompose(store.start, ownedAt, second);
      if RequestHolds(store.State(), request, ids) {
        ReadingsServeTheTransaction(bound, request, first, second, ids);
      }
    }

    // AcceptanceBinding.
    method ReadBinding(request: AcceptanceRequest) returns (binding: CredentialBinding, outcome: Outcome)
      ensures outcome == AcceptanceBinding(store.State(), request).1
      ensures outcome == Done ==> AcceptanceBinding(store.State(), request).0 == Some(binding)
    {
      binding := CredentialBinding(request.jobId, "", 0);
      if request.jobId !in store.operations || store.operations[request.jobId].owner != request.owner {
        return binding, NotFound;
      }
      var op := store.operations[request.jobId];
      if op.reauthSession.None? || op.credentialGeneration.None? {
        return binding, Failed;
      }
      if !op.status.StatusIntent? || op.intentExpiresAt.None? || op.intentExpiresAt.value <= store.now
         || op.proofHash != Some(Digest(request.reauthProof)) {
        return binding, ReauthenticationRequired;
      }
      if op.didHash != Some(Digest(request.confirmation)) {
        return binding, ConfirmationMismatch;
      }
      binding, outcome := CredentialBinding(request.jobId, op.reauthSession.value, op.credentialGeneration.value), Done;
    }

    // CompleteAttempt: the OAuth callback binds its session to the intent.
    method CompleteAttempt(attempt: CallbackAttempt, job: Uuid, proof: string) returns (outcome: Outcome)
      requires store.Valid()
      modifies store
      ensures store.Valid() && store.Grew() && |store.own| <= |old(store.own)| + 1
      ensures outcome == Done ==>
                && |store.own| > |old(store.own)| && BindDeed(store.own[|store.own| - 1], attempt, job, 1, proof)
                && LastStepCommitted(store, old(store.State()), old(store.turn))
      ensures outcome != Done ==> OnlyOthersActed(store, old(store.State()), old(store.turn))
      ensures outcome == Done <==> CanBind(Decisive(store, |old(store.own)|), attempt, job, 1)
    {
      ghost var before, first := store.State(), store.turn;
      LeadsNowhere(before);
      Pause(store, before, first);
      var generation := ReauthenticationGeneration(store.State(), job, attempt.owner);
      if generation.None? {
        return ReauthenticationRequired;
      }
      store.StateIsReached();
      assert Shaped(store.operations[job]);
      Pause(store, before, first);
      assert generation.value == 1;
      outcome := BindNow(store, attempt, job, generation.value, proof);
    }

    // CompleteAccepted: it succeeds whenever the claim can be completed at the moment
    // of its transaction.
    method CompleteAccepted(claim: ClaimedOperation) returns (outcome: Outcome)
      requires store.Valid() && Issued(store, claim)
      modifies store
      ensures store.Valid() && store.Grew() && Issued(store, claim) && |store.own| <= |old(store.own)| + 1
      ensures |store.own| > |old(store.own)| ==>
                FinishDeed(store.own[|store.own| - 1], claim) && store.own[|store.own| - 1].outcome == outcome
      ensures |store.own| == |old(store.own)| ==> outcome in {Failed, NotFound}
      ensures outcome == Done
              ==> |store.own| > |old(store.own)| && LastStepCommitted(store, old(store.State()), old(store.turn))
      ensures outcome != Done ==> OnlyOthersActed(store, old(store.State()), old(store.turn))
      ensures outcome == Done <==> FinishIsDue(Decisive(store, |old(store.own)|), claim)
    {
      ghost var before, first := store.State(), store.turn;
      LeadsNowhere(before);
      PauseHolding(store, claim, before, first);
      if claim.owner !in store.lifecycles {
        return Failed;
      }
      var current := store.lifecycles[claim.owner];
      if !current.state.Deleting? {
        return NotFound;
      }
      ghost var read, readAt := store.State(), store.history;
      ReadNow(store);
      PauseHolding(store, claim, before, first);
      FinishesAsRead(readAt, read, claim);
      outcome := FinishNow(store, claim, current.generation);
    }

    lemma FinishesAsRead(readAt: seq<Step>, read: Db, claim: ClaimedOperation)
      requires store.Valid() && ReadAs(store, readAt, read)
      requires claim.leaseToken in read.claims && read.claims[claim.leaseToken] == claim
      requires claim.owner in read.lifecycles
      ensures CanFinish(store.State(), claim, read.lifecycles[claim.owner].generation)
              <==> FinishIsDue(store.State(), claim)
    {
      assert Unsealed(true);
      store.StateIsReached();
      var since := store.history[|readAt|..];
      assert store.history == readAt + since;
      RunsCompose(store.start, readAt, since);
      if FinishIsDue(store.State(), claim) {
        GenerationServesTheCompletion(read, since, claim);
      }
    }
  }
}
