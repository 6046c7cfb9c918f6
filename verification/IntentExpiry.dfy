// The expiry sweep: a bounded batch of expired intents, read once and cancelled
// one by one while everything else goes on.
module IntentExpiry {
  import opened Wrappers
  import opened CraftskyCollections
  import opened DeletionTables
  import opened DeletionTransactions
  import opened DeletionSteps
  import opened DeletionInvariant
  import opened DeletionPreservation
  import opened DeletionAuthority
  import opened DeletionStuck
  import opened DeletionEffects
  import opened DeletionStore
  import DeletionHistory
  import opened DeletionService

  datatype ExpiredIntent = ExpiredIntent(jobId: Uuid, owner: Did)

  predicate Expired(db: Db, job: Uuid) {
    && job in db.operations && db.operations[job].status.StatusIntent?
    && db.operations[job].intentExpiresAt.Some? && db.operations[job].intentExpiresAt.value <= db.now
  }

  // The sweep lists exactly the intents whose time is up, and those can no longer be
  // bound or confirmed by anybody.
  lemma ExpiredServesNobody(db: Db, job: Uuid)
    requires Inv(db) && IsIntent(db, job)
    ensures db.operations[job].intentExpiresAt.Some?
    ensures Expired(db, job) <==> db.operations[job].intentExpiresAt.value <= db.now
    ensures Expired(db, job) ==>
              && (forall request: AcceptanceRequest, binding ::
                    request.jobId == job ==> !Confirms(db, request, binding))
              && (forall attempt, generation :: !CanBind(db, attempt, job, generation))
  {
    assert Shaped(db.operations[job]);
  }

  // ORDER BY intent_expires_at, id.
  predicate Sooner(db: Db, a: Uuid, b: Uuid)
    requires Expired(db, a) && Expired(db, b)
  {
    var (atA, atB) := (db.operations[a].intentExpiresAt.value, db.operations[b].intentExpiresAt.value);
    atA < atB || (atA == atB && a < b)
  }

  predicate Lists(intents: seq<ExpiredIntent>, job: Uuid) {
    exists intent <- intents :: intent.jobId == job
  }

  // The first `limit` expired intents, soonest first.
  ghost predicate IsBatch(db: Db, intents: seq<ExpiredIntent>, limit: nat) {
    && |intents| <= limit
    && (forall intent <- intents :: Expired(db, intent.jobId) && intent.owner == db.operations[intent.jobId].owner)
    && (forall i, j :: 0 <= i < j < |intents| ==> Sooner(db, intents[i].jobId, intents[j].jobId))
    && (forall intent <- intents, job :: Expired(db, job) && !Lists(intents, job) ==> Sooner(db, intent.jobId, job))
    && (|intents| < limit ==> forall job :: Expired(db, job) ==> Lists(intents, job))
  }

  // A committed cancellation removed one listed intent, still an intent and still
  // expired, and nothing else.
  ghost predicate Swept(d: Deed, intent: ExpiredIntent) {
    && Expired(d.found, intent.jobId) && d.found.operations[intent.jobId].owner == intent.owner
    && d.left.operations == d.found.operations - {intent.jobId}
  }

  ghost predicate SweepStep(d: Deed, intents: seq<ExpiredIntent>) {
    exists intent :: intent in intents && CancelDeed(d, intent.jobId, intent.owner)
      && (d.outcome == Done ==> Swept(d, intent))
  }

  // The batch of that moment of the run; sealed.
  ghost predicate Batched(start: Db, history: seq<Step>, intents: seq<ExpiredIntent>, limit: nat) {
    forall seal: bool {:trigger Unsealed(seal)} :: Unsealed(seal) ==> IsBatch(Run(start, history), intents, limit)
  }

  lemma BatchMeans(start: Db, history: seq<Step>, intents: seq<ExpiredIntent>, limit: nat)
    ensures Batched(start, history, intents, limit) <==> IsBatch(Run(start, history), intents, limit)
  {
    assert Unsealed(true);
  }

  // The intent was gone by then.
  predicate GoneAt(start: Db, history: seq<Step>, moment: nat, intent: ExpiredIntent) {
    moment <= |history| && !IntentOf(Run(start, history[..moment]), intent.jobId, intent.owner)
  }

  // A cancellation of the intent lost its race.
  ghost predicate RaceLost(d: Deed, intent: ExpiredIntent) {
    CancelDeed(d, intent.jobId, intent.owner) && d.outcome == GenerationChanged
  }

  // Since the listing the intent was gone at some moment, or this process lost a race for it.
  ghost predicate Handled(
    start: Db, listing: nat, done: nat, history: seq<Step>, own: seq<Deed>, intent: ExpiredIntent)
  {
    || (exists moment :: listing <= moment && GoneAt(start, history, moment, intent))
    || (exists i :: done <= i < |own| && RaceLost(own[i], intent))
  }

  // Everything this process did since `done` is such a step, and the first n
  // intents are handled.
  ghost predicate SweptSince(
    start: Db, asked: seq<Step>, done: seq<Deed>, history: seq<Step>, own: seq<Deed>, intents: seq<ExpiredIntent>,
    n: nat)
  {
    && asked <= history && done <= own && n <= |intents|
    && (forall i :: |done| <= i < |own| ==> |asked| <= own[i].at && SweepStep(own[i], intents))
    && (forall k :: 0 <= k < n ==> Handled(start, |asked|, |done|, history, own, intents[k]))
  }

  // The same, sealed.
  ghost predicate SweepSoFar(
    start: Db, asked: seq<Step>, done: seq<Deed>, history: seq<Step>, own: seq<Deed>, intents: seq<ExpiredIntent>,
    n: nat)
  {
    forall seal: bool {:trigger Unsealed(seal)} :: Unsealed(seal) ==>
      SweptSince(start, asked, done, history, own, intents, n)
  }

  lemma SweepMeans(
    start: Db, asked: seq<Step>, done: seq<Deed>, history: seq<Step>, own: seq<Deed>, intents: seq<ExpiredIntent>,
    n: nat)
    ensures SweepSoFar(start, asked, done, history, own, intents, n)
            <==> SweptSince(start, asked, done, history, own, intents, n)
  {
    assert Unsealed(true);
  }

  lemma HandledStays(
    start: Db, listing: nat, done: nat, known: seq<Step>, sofar: seq<Deed>, history: seq<Step>, own: seq<Deed>,
    intent: ExpiredIntent)
    requires Handled(start, listing, done, known, sofar, intent) && known <= history && sofar <= own
    ensures Handled(start, listing, done, history, own, intent)
  {
    if moment :| listing <= moment && GoneAt(start, known, moment, intent) {
      assert history[..moment] == known[..moment];
      assert GoneAt(start, history, moment, intent);
    } else {
      var i :| done <= i < |sofar| && RaceLost(sofar[i], intent);
      assert RaceLost(own[i], intent);
    }
  }

  // One more intent: its cancellation lost its race or left it gone.
  lemma SweepGoesOn(
    start: Db, asked: seq<Step>, done: seq<Deed>, known: seq<Step>, sofar: seq<Deed>, history: seq<Step>,
    own: seq<Deed>, intents: seq<ExpiredIntent>, n: nat, handled: bool)
    requires SweepSoFar(start, asked, done, known, sofar, intents, n) && n < |intents|
    requires SweptSince(start, known, sofar, history, own, intents, 0)
    requires handled ==>
               || (|own| > |sofar| && RaceLost(own[|own| - 1], intents[n]))
               || GoneAt(start, history, |history|, intents[n])
    ensures SweepSoFar(start, asked, done, history, own, intents, if handled then n + 1 else n)
  {
    SweepMeans(start, asked, done, known, sofar, intents, n);
    forall k | 0 <= k < n
      ensures Handled(start, |asked|, |done|, history, own, intents[k])
    {
      HandledStays(start, |asked|, |done|, known, sofar, history, own, intents[k]);
    }
  }

  lemma CancelledIntentIsSwept(start: Db, history: seq<Step>, listing: nat, d: Deed, intent: ExpiredIntent)
    requires Inv(start) && listing <= d.at && Happened(d, start, history)
    requires Expired(Run(start, history[..listing]), intent.jobId)
    requires Run(start, history[..listing]).operations[intent.jobId].owner == intent.owner
    requires CancelDeed(d, intent.jobId, intent.owner)
    ensures d.outcome == Done ==> Swept(d, intent)
  {
    if d.outcome == Done {
      var listed, since := Run(start, history[..listing]), history[listing..d.at];
      assert history[..d.at] == history[..listing] + since;
      RunsCompose(start, history[..listing], since);
      RunKeepsInv(start, history[..listing]);
      var cancel := d.step.user;
      StaleSweepRemovesOnlyTheExpiredIntent(listed, since, intent.jobId, cancel.expected, cancel.to);
    }
  }

  class IntentExpiryProcessor {
    const service: AppService
    const batchSize: nat

    constructor (service: AppService, batchSize: nat)
      ensures this.service == service && this.batchSize == batchSize
    {
      this.service, this.batchSize := service, batchSize;
    }

    method ListExpiredIntents() returns (intents: seq<ExpiredIntent>)
      ensures IsBatch(service.store.State(), intents, batchSize)
    {
      intents := [];
      var rest := service.store.operations.Keys;
      var store := service.store;
      while |intents| < batchSize
        invariant rest <= store.operations.Keys
        invariant forall job :: job in store.operations ==> (job in rest <==> !Lists(intents, job))
        invariant |intents| <= batchSize
        invariant forall intent <- intents :: Expired(store.State(), intent.jobId)
                                              && intent.owner == store.operations[intent.jobId].owner
        invariant forall i, j :: 0 <= i < j < |intents| ==> Sooner(store.State(), intents[i].jobId, intents[j].jobId)
        invariant forall intent <- intents, job :: Expired(store.State(), job) && !Lists(intents, job)
                    ==> Sooner(store.State(), intent.jobId, job)
        decreases batchSize - |intents|
      {
        var first := Soonest(rest);
        if first.None? {
          return;
        }
        var job := first.value;
        ghost var before := intents;
        intents := intents + [ExpiredIntent(job, store.operations[job].owner)];
        rest := rest - {job};
        forall other
          ensures Lists(intents, other) <==> Lists(before, other) || other == job
        {
          assert intents[|before|].jobId == job;
          assert forall intent <- before :: intent in intents;
        }
      }
    }

    method Soonest(candidates: set<Uuid>) returns (first: Option<Uuid>)
      requires candidates <= service.store.operations.Keys
      ensures first.Some? ==>
                && first.value in candidates && Expired(service.store.State(), first.value)
                && forall job :: job in candidates && Expired(service.store.State(), job) && job != first.value
                     ==> Sooner(service.store.State(), first.value, job)
      ensures first.None? ==> forall job :: job in candidates ==> !Expired(service.store.State(), job)
    {
      var store := service.store;
      var rest := candidates;
      first := None;
      while rest != {}
        invariant rest <= candidates
        invariant first.Some? ==>
                    first.value in candidates && first.value !in rest && Expired(store.State(), first.value)
        invariant forall job :: job in candidates && job !in rest && Expired(store.State(), job)
                    ==> first.Some? && (job == first.value || Sooner(store.State(), first.value, job))
        decreases |rest|
      {
        var job :| job in rest;
        rest := rest - {job};
        if Expired(store.State(), job) && (first.None? || Sooner(store.State(), job, first.value)) {
          first := Some(job);
        }
      }
    }

    // Entry n of the batch. `asked` had happened when it was listed, and `stuck`
    // were stuck at the earlier moment `entry`.
    method SweepOne(
      n: nat, intent: ExpiredIntent, ghost intents: seq<ExpiredIntent>, ghost asked: seq<Step>,
      ghost done: seq<Deed>, ghost entry: nat, ghost stuck: set<Uuid>)
      returns (outcome: Outcome)
      requires service.store.Valid() && n < |intents| && intent == intents[n]
      requires Listed(service.store, |asked|, intents)
      requires entry <= |asked| && StuckAt(service.store, entry, stuck)
      requires SweepSoFar(service.store.start, asked, done, service.store.history, service.store.own, intents, n)
      modifies service.store
      ensures service.store.Valid() && old(service.store.turn) <= service.store.turn
      ensures Listed(service.store, |asked|, intents) && StuckAt(service.store, entry, stuck)
      ensures SweepSoFar(service.store.start, asked, done, service.store.history, service.store.own, intents,
                         if outcome == Done || Tolerated(outcome) then n + 1 else n)
      ensures outcome == Done || Tolerated(outcome) || StopsAt(service.store, intent, outcome)
      ensures intent.jobId in stuck ==> RefusedAsStuck(service.store.others, intent.owner, outcome)
    {
      var store := service.store;
      ghost var mine, history := store.own, store.history;
      StuckNow(intent, |asked|, entry, stuck);
      outcome := service.CancelIntent(intent.jobId, intent.owner);
      StuckStays(store.start, history, store.history, entry, stuck);
      ListingStays(store.start, history, store.history, |asked|, intents);
      SweepWentOn(mine, history, intents, n, asked, done, outcome);
    }

    // What the cancellation of entry n adds to the sweep.
    lemma SweepWentOn(
      mine: seq<Deed>, history: seq<Step>, intents: seq<ExpiredIntent>, n: nat, asked: seq<Step>, done: seq<Deed>,
      outcome: Outcome)
      requires service.store.Valid() && history <= service.store.history && mine <= service.store.own
      requires n < |intents| && ListedAt(service.store, |asked|, intents[n])
      requires Listing(service.store.start, history, |asked|, intents[n])
      requires forall i :: |mine| <= i < |service.store.own| ==>
                 && |history| <= service.store.own[i].at
                 && CancelDeed(service.store.own[i], intents[n].jobId, intents[n].owner)
      requires Resolved(service.store.State(), intents[n].jobId, intents[n].owner, outcome)
      requires outcome == GenerationChanged ==>
                 |service.store.own| > |mine|
                 && service.store.own[|service.store.own| - 1].outcome == GenerationChanged
      requires SweepSoFar(service.store.start, asked, done, history, mine, intents, n)
      ensures SweepSoFar(service.store.start, asked, done, service.store.history, service.store.own, intents,
                         if outcome == Done || Tolerated(outcome) then n + 1 else n)
      ensures outcome == Done || Tolerated(outcome) || StopsAt(service.store, intents[n], outcome)
    {
      var store := service.store;
      StepsAreSweeps(mine, history, intents[n], intents, |asked|);
      OutcomeHandles(mine, intents[n], |asked|, outcome);
      SweepGoesOn(store.start, asked, done, history, mine, store.history, store.own, intents, n,
                  outcome == Done || Tolerated(outcome));
    }

    lemma StepsAreSweeps(
      mine: seq<Deed>, history: seq<Step>, intent: ExpiredIntent, intents: seq<ExpiredIntent>, listing: nat)
      requires service.store.Valid() && history <= service.store.history && mine <= service.store.own
      requires intent in intents && Listing(service.store.start, history, listing, intent)
      requires forall i :: |mine| <= i < |service.store.own| ==>
                 && |history| <= service.store.own[i].at
                 && CancelDeed(service.store.own[i], intent.jobId, intent.owner)
      ensures SweptSince(service.store.start, history, mine, service.store.history, service.store.own, intents, 0)
    {
      var store := service.store;
      forall i | |mine| <= i < |store.own|
        ensures SweepStep(store.own[i], intents)
      {
        store.OwnStepHappened(i);
        store.StartIsSound();
        assert store.history[..listing] == history[..listing];
        OpenListing(store.start, history, listing, intent);
        CancelledIntentIsSwept(store.start, store.history, listing, store.own[i], intent);
      }
    }

    lemma OutcomeHandles(mine: seq<Deed>, intent: ExpiredIntent, listing: nat, outcome: Outcome)
      requires service.store.Valid() && ListedAt(service.store, listing, intent)
      requires Resolved(service.store.State(), intent.jobId, intent.owner, outcome)
      requires outcome == GenerationChanged ==>
                 |service.store.own| > |mine|
                 && RaceLost(service.store.own[|service.store.own| - 1], intent)
      ensures var store := service.store;
        if outcome == Done || Tolerated(outcome) then
          || (|store.own| > |mine| && RaceLost(store.own[|store.own| - 1], intent))
          || GoneAt(store.start, store.history, |store.history|, intent)
        else StopsAt(store, intent, outcome)
    {
      GoneNow(intent);
      OwnerIsKnown(intent, listing);
    }

    lemma GoneNow(intent: ExpiredIntent)
      requires service.store.Valid()
      ensures GoneAt(service.store.start, service.store.history, |service.store.history|, intent)
              <==> !IntentOf(service.store.State(), intent.jobId, intent.owner)
    {
      service.store.StateIsReached();
      assert service.store.history[..|service.store.history|] == service.store.history;
    }

    lemma OwnerIsKnown(intent: ExpiredIntent, listing: nat)
      requires service.store.Valid() && ListedAt(service.store, listing, intent)
      ensures intent.owner in service.store.lifecycles
    {
      service.store.StateIsReached();
      OwnerStays(service.store.start, service.store.history, listing, intent);
    }

    // What was stuck when the sweep began is stuck now, and the listed owner's.
    lemma StuckNow(intent: ExpiredIntent, listing: nat, entry: nat, stuck: set<Uuid>)
      requires service.store.Valid() && ListedAt(service.store, listing, intent)
      requires entry <= listing && StuckAt(service.store, entry, stuck)
      ensures intent.jobId in stuck ==> WasStuck(service.store.State(), intent.jobId, intent.owner)
    {
      var store := service.store;
      store.StateIsReached();
      if intent.jobId in stuck {
        StuckThroughout(store.start, store.history, entry, stuck, listing, intent);
      }
    }

    // RunOnce. The batch is the expired intents of one moment, `listing`. Every
    // cancellation it commits removes an expired intent of the batch. An intent
    // counts as processed when it was gone at some moment since, or the race for it
    // was lost; the sweep stops early only at a stuck one, and at the latest at one
    // that was stuck when the sweep began: the intents listed after it are not
    // reached.
    method RunOnce()
      returns (processed: nat, err: Option<Outcome>, ghost intents: seq<ExpiredIntent>, ghost listing: nat)
      requires service.store.Valid()
      modifies service.store
      ensures service.store.Valid() && service.store.Grew()
      ensures |old(service.store.history)| <= listing <= |service.store.history|
      ensures IsBatch(Run(service.store.start, service.store.history[..listing]), intents, batchSize)
      ensures err.None? ==> processed == |intents|
      ensures err.Some? ==> processed < |intents| && StopsAt(service.store, intents[processed], err.value)
      ensures SweptSince(service.store.start, service.store.history[..listing], old(service.store.own),
                         service.store.history, service.store.own, intents, processed)
      ensures forall n :: 0 <= n < |intents| && intents[n].jobId in StuckJobs(old(service.store.State()))
                          && SteadyMembership(service.store.others, intents[n].owner)
                ==> err.Some? && processed <= n
    {
      var store := service.store;
      ghost var stuck, entry, before := StuckJobs(store.State()), |store.history|, store.history;
      StuckAtEntry();
      var batch := ReadBatch(before, entry, stuck);
      ghost var asked, done := store.history, store.own;
      intents, listing := batch, |asked|;
      SweepMeans(store.start, asked, done, asked, done, batch, 0);
      processed, err := 0, None;
      while processed < |batch|
        invariant processed <= |batch| && store.Valid() && old(store.turn) <= store.turn
        invariant Listed(store, listing, batch) && StuckAt(store, entry, stuck)
        invariant SweepSoFar(store.start, asked, done, store.history, store.own, batch, processed)
        invariant forall n :: 0 <= n < processed && batch[n].jobId in stuck
                              ==> !SteadyMembership(store.others, batch[n].owner)
      {
        var outcome := SweepOne(processed, batch[processed], batch, asked, done, entry, stuck);
        if outcome != Done && !Tolerated(outcome) {
          err := Some(outcome);
          break;
        }
        processed := processed + 1;
      }
      SweepMeans(store.start, asked, done, store.history, store.own, batch, processed);
      assert store.history[..listing] == asked;
      BatchMeans(store.start, asked, batch, batchSize);
    }

    // What is expired after the others ran.
    method ReadBatch(ghost before: seq<Step>, ghost entry: nat, ghost stuck: set<Uuid>)
      returns (batch: seq<ExpiredIntent>)
      requires service.store.Valid() && before == service.store.history && StuckAt(service.store, entry, stuck)
      modifies service.store
      ensures service.store.Valid() && service.store.Grew() && service.store.own == old(service.store.own)
      ensures Listed(service.store, |service.store.history|, batch) && StuckAt(service.store, entry, stuck)
      ensures Batched(service.store.start, service.store.history, batch, batchSize)
    {
      service.store.Yield();
      batch := ListExpiredIntents();
      StuckStays(service.store.start, before, service.store.history, entry, stuck);
      ListedNow(batch);
    }

    lemma StuckAtEntry()
      requires service.store.Valid()
      ensures StuckAt(service.store, |service.store.history|, StuckJobs(service.store.State()))
    {
      service.store.StateIsReached();
      assert service.store.history[..|service.store.history|] == service.store.history;
    }

    lemma ListedNow(batch: seq<ExpiredIntent>)
      requires service.store.Valid() && IsBatch(service.store.State(), batch, batchSize)
      ensures Listed(service.store, |service.store.history|, batch)
      ensures Batched(service.store.start, service.store.history, batch, batchSize)
    {
      service.store.StateIsReached();
      assert service.store.history[..|service.store.history|] == service.store.history;
    }
  }

  // The intent was expired at that moment of the run.
  ghost predicate Listing(start: Db, history: seq<Step>, listing: nat, intent: ExpiredIntent) {
    && listing <= |history|
    && forall seal: bool {:trigger Unsealed(seal)} :: Unsealed(seal) ==>
         && Expired(Run(start, history[..listing]), intent.jobId)
         && Run(start, history[..listing]).operations[intent.jobId].owner == intent.owner
  }

  ghost predicate ListedAt(store: Store, listing: nat, intent: ExpiredIntent)
    reads store
  {
    Listing(store.start, store.history, listing, intent)
  }

  ghost predicate Listed(store: Store, listing: nat, batch: seq<ExpiredIntent>)
    reads store
  {
    forall intent <- batch :: ListedAt(store, listing, intent)
  }

  // The sweep stops here: the intent is stuck.
  ghost predicate StopsAt(store: Store, intent: ExpiredIntent, outcome: Outcome)
    reads store
  {
    outcome == ReauthenticationRequired && StuckFor(store.State(), intent.jobId, intent.owner)
  }

  lemma OpenListing(start: Db, history: seq<Step>, listing: nat, intent: ExpiredIntent)
    requires Listing(start, history, listing, intent)
    ensures Expired(Run(start, history[..listing]), intent.jobId)
    ensures Run(start, history[..listing]).operations[intent.jobId].owner == intent.owner
  {
    assert Unsealed(true);
  }

  // The owner of a listed intent is known ever after.
  lemma OwnerStays(start: Db, history: seq<Step>, listing: nat, intent: ExpiredIntent)
    requires Inv(start) && Listing(start, history, listing, intent)
    ensures intent.owner in Run(start, history).lifecycles
  {
    OpenListing(start, history, listing, intent);
    var listed, since := Run(start, history[..listing]), history[listing..];
    RunKeepsInv(start, history[..listing]);
    assert history == history[..listing] + since;
    RunsCompose(start, history[..listing], since);
    DeletionHistory.GenerationRises(listed, since, intent.owner);
  }

  lemma ListingStays(start: Db, history: seq<Step>, longer: seq<Step>, listing: nat, batch: seq<ExpiredIntent>)
    requires history <= longer && forall intent <- batch :: Listing(start, history, listing, intent)
    ensures forall intent <- batch :: Listing(start, longer, listing, intent)
  {
    forall intent | intent in batch
      ensures Listing(start, longer, listing, intent)
    {
      assert Listing(start, history, listing, intent);
      assert longer[..listing] == history[..listing];
    }
  }

  // The jobs were stuck intents at that moment of the run.
  ghost predicate AllStuck(start: Db, history: seq<Step>, entry: nat, stuck: set<Uuid>) {
    && entry <= |history|
    && forall seal: bool {:trigger Unsealed(seal)} :: Unsealed(seal) ==>
         forall job <- stuck :: Stuck(Run(start, history[..entry]), job)
  }

  ghost predicate StuckAt(store: Store, entry: nat, stuck: set<Uuid>)
    reads store
  {
    AllStuck(store.start, store.history, entry, stuck)
  }

  lemma StuckStays(start: Db, history: seq<Step>, longer: seq<Step>, entry: nat, stuck: set<Uuid>)
    requires history <= longer && AllStuck(start, history, entry, stuck)
    ensures AllStuck(start, longer, entry, stuck)
  {
    assert longer[..entry] == history[..entry];
  }

  lemma StuckThroughout(
    start: Db, history: seq<Step>, entry: nat, stuck: set<Uuid>, listing: nat, intent: ExpiredIntent)
    requires Inv(start) && AllStuck(start, history, entry, stuck) && intent.jobId in stuck && entry <= listing
    requires Listing(start, history, listing, intent)
    ensures StuckFor(Run(start, history), intent.jobId, intent.owner)
  {
    assert Unsealed(true);
    RunKeepsInv(start, history[..entry]);
    StuckFrom(start, history, entry, listing, intent.jobId);
    StuckFrom(start, history, entry, |history|, intent.jobId);
    assert history[..|history|] == history;
  }

  lemma StuckFrom(start: Db, history: seq<Step>, m: nat, n: nat, job: Uuid)
    requires m <= n <= |history| && Inv(Run(start, history[..m])) && Stuck(Run(start, history[..m]), job)
    ensures var was, later := Run(start, history[..m]), Run(start, history[..n]);
      Stuck(later, job) && later.operations[job] == was.operations[job]
  {
    StuckForever(Run(start, history[..m]), history[m..n], job);
    assert history[..n] == history[..m] + history[m..n];
    RunsCompose(start, history[..m], history[m..n]);
  }

  // Another transition won after this process read the batch.
  predicate Tolerated(outcome: Outcome) {
    outcome in {NotFound, PointOfNoReturn, GenerationChanged, TerminalOwner}
  }
}
