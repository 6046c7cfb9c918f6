// One deletion attempt: claim an operation, process it in a fixed order, and then
// record the failure or complete.
module DeletionWorker {
  import opened Wrappers
  import opened CraftskyCollections
  import opened DeletionTables
  import opened SafetyTombstones
  import opened SafetySchedule
  import opened DeletionTransactions
  import opened DeletionSteps
  import opened DeletionInvariant
  import opened DeletionRetry
  import opened DeletionCredential
  import opened DeletionWorkEffects
  import opened DeletionKeys
  import opened DeletionReadings
  import opened DeletionStore
  import opened DeletionService
  import opened DeletionClient
  import PdsDeleter
  import RetryPolicy

  datatype ErrorCategory = PrivateCleanup | Reauthentication | Pds

  datatype ProcessResult =
    | Converged
    | Failure(category: ErrorCategory)
    | CredentialLost            // auth.ErrDeletionReauthenticationRequired

  // How the session coordinator takes a failed remote call: it may find the
  // credential unusable, and may report that whether or not it could record it.
  datatype Coordinator = Healthy | Unusable(reportAnyway: bool)

  // --- What a deletion attempt did -----------------------------------------

  predicate CallBy(d: Deed, claim: ClaimedOperation) {
    d.step.ByWorker? && d.step.token == claim.leaseToken
  }

  // The attempt's transactions from the n-th on: inventory, then its remote part.
  predicate InOrder(own: seq<Deed>, n: nat, claim: ClaimedOperation) {
    |own| > n ==>
      && CallBy(own[n], claim) && own[n].step.call.Inventory?
      && (|own| > n + 1 ==> own[n].outcome == Done)
      && RemotePart(own, n + 1, claim)
  }

  // One exact key claimed and perhaps released, then perhaps the credential given up.
  predicate RemotePart(own: seq<Deed>, n: nat, claim: ClaimedOperation) {
    && (forall i :: n <= i < |own| ==> CallBy(own[i], claim))
    && (|own| > n ==> own[n].step.call.ClaimKey?)
    && (|own| > n + 1 ==> own[n + 1].step.call.ReleaseKey? || own[n + 1].step.call.LoseAuthority?)
    && (|own| > n + 2 ==> own[n + 1].step.call.ReleaseKey? && own[n + 2].step.call.LoseAuthority?)
    && |own| <= n + 3
  }

  // So far the credential has been kept.
  predicate NoneGivenUp(own: seq<Deed>, n: nat) {
    |own| <= n + 2 && (|own| == n + 2 ==> own[n + 1].step.ByWorker? && own[n + 1].step.call.ReleaseKey?)
  }

  // A key was released only after its own exact name was deleted, as the first of
  // the remote calls, and the server said that it is gone.
  ghost predicate ReleasedGone(d: Deed, log: seq<Entry>, from: nat) {
    d.step.ByWorker? && d.step.call.ReleaseKey? && d.outcome == Done ==>
      && from < |log| && log[from].ok && d.step.call.nextAttemptAt == d.found.now
      && d.step.call.id in d.found.tombstones
      && match d.found.tombstones[d.step.call.id].key
         case PdsRecord(AtUri(authority, collection, rkey)) => log[from].call == Delete(collection, rkey)
         case _ => false
  }

  ghost predicate OnlyGoneReleased(own: seq<Deed>, n: nat, log: seq<Entry>, from: nat) {
    forall i :: n <= i < |own| ==> ReleasedGone(own[i], log, from)
  }

  lemma GoneStaysGone(own: seq<Deed>, n: nat, log: seq<Entry>, longer: seq<Entry>, from: nat)
    requires OnlyGoneReleased(own, n, log, from) && log <= longer
    ensures OnlyGoneReleased(own, n, longer, from)
  {
    forall i | n <= i < |own|
      ensures ReleasedGone(own[i], longer, from)
    {
      assert ReleasedGone(own[i], log, from);
    }
  }

  // A key claimed by deed n was released by the next one.
  ghost predicate KeyReturned(own: seq<Deed>, n: nat, claim: ClaimedOperation)
    requires n < |own|
  {
    own[n].outcome == Done ==>
      && n + 1 < |own| && own[n + 1].outcome == Done && own[n + 1].step.ByWorker? && own[n + 1].step.call.ReleaseKey?
      && KeyTaken(own[n].found, own[n].left, claim, own[n + 1].step.call.id)
  }

  // When this much had happened the id named this key; sealed.
  ghost predicate NamedAt(start: Db, history: seq<Step>, id: Uuid, uri: RecordUri) {
    forall seal: bool {:trigger Unsealed(seal)} :: Unsealed(seal) ==>
      Inv(Run(start, history)) && Names(Run(start, history), id, PdsRecord(uri))
  }

  // A moment of the run at which the rows were these.
  ghost predicate WasState(start: Db, history: seq<Step>, moment: nat, db: Db) {
    moment <= |history|
    && forall seal: bool {:trigger Unsealed(seal)} :: Unsealed(seal) ==> Run(start, history[..moment]) == db
  }

  lemma WasStateStays(start: Db, history: seq<Step>, longer: seq<Step>, moment: nat, db: Db)
    requires WasState(start, history, moment, db) && history <= longer
    ensures WasState(start, longer, moment, db)
  {
    assert longer[..moment] == history[..moment];
  }

  method CallNow(store: Store, claim: ClaimedOperation, ids: seq<Uuid>) returns (outcome: Outcome)
    requires store.Valid() && Issued(store, claim)
    modifies store
    ensures store.Valid() && store.Grew() && Issued(store, claim)
    ensures |store.own| == |old(store.own)| + 1
    ensures var d := store.own[|store.own| - 1];
      CallBy(d, claim) && d.step.call == Inventory(ids) && d.outcome == outcome
      && (outcome != Done ==> d.left == d.found)
  {
    outcome := store.AdoptUncertainWith(claim, ids);
  }

  lemma DueKeyIsInScope(db: Db, claim: ClaimedOperation, id: Uuid)
    requires TombstonesOwned(db.operations, db.tombstones) && FirstDue(db.tombstones, claim, db.now, id)
    ensures db.tombstones[id].key.PdsRecord?
    ensures OwnedKey(claim.owner, db.tombstones[id].key.uri) && Registered(db.tombstones[id].key.uri.collection)
  {
    assert TombstoneOwned(db.tombstones[id], db.operations);
    AdmittedIsRegistered();
  }

  // ClaimDuePDSSafety: at most one exact key, and it is in the deletion's scope.
  method ClaimKeyNow(store: Store, claim: ClaimedOperation) returns (id: Option<Uuid>, uri: RecordUri, outcome: Outcome)
    requires store.Valid() && Issued(store, claim)
    modifies store
    ensures store.Valid() && store.Grew() && Issued(store, claim)
    ensures |store.own| == |old(store.own)| + 1
    ensures var d := store.own[|store.own| - 1];
      CallBy(d, claim) && d.step.call == ClaimKey && d.outcome == outcome
    ensures id.Some? <==> outcome == Done
    ensures id.Some? ==> KeyTaken(store.own[|store.own| - 1].found, store.own[|store.own| - 1].left, claim, id.value)
    ensures id.Some? ==> id.value in store.tombstones && store.tombstones[id.value].key == PdsRecord(uri)
                         && OwnedKey(claim.owner, uri) && Registered(uri.collection)
                         && NamedAt(store.start, store.history, id.value, uri)
  {
    store.StateIsReached();
    ghost var before := store.State();
    id, outcome := store.ClaimSafetyWith(claim);
    uri := Malformed("");
    if id.Some? {
      DueIsWaiting(before, claim);
      DueKeyIsInScope(before, claim, id.value);
      uri := store.tombstones[id.value].key.uri;
      store.StateIsReached();
    }
  }

  method ReleaseKeyNow(store: Store, claim: ClaimedOperation, id: Uuid) returns (outcome: Outcome)
    requires store.Valid() && Issued(store, claim)
    modifies store
    ensures store.Valid() && store.Grew() && Issued(store, claim)
    ensures |store.own| == |old(store.own)| + 1
    ensures var d := store.own[|store.own| - 1];
      && CallBy(d, claim) && d.step.call == ReleaseKey(id, old(store.now)) && d.outcome == outcome
      && d.found == old(store.State()) && (outcome == Done <==> InHand(d.found, id, claim.leaseToken))
  {
    outcome := store.ReleaseSafetyWith(claim, id, store.now);
  }

  method LoseCredentialNow(store: Store, claim: ClaimedOperation) returns (outcome: Outcome)
    requires store.Valid() && Issued(store, claim)
    modifies store
    ensures store.Valid() && store.Grew() && Issued(store, claim)
    ensures |store.own| == |old(store.own)| + 1
    ensures var d := store.own[|store.own| - 1];
      CallBy(d, claim) && d.step.call == LoseAuthority && d.outcome == outcome
  {
    outcome := store.LoseCredentialWith(claim);
  }

  // The remote calls of one attempt: perhaps the claimed key's delete, then
  // DeleteAll's, each delete of which was listed first.
  ghost predicate RemoteCalls(log: seq<Entry>, after: seq<Entry>, key: Option<RecordUri>, owner: Did) {
    exists middle: seq<Entry>, deletes: nat :: KeyFirst(log, middle, key)
      && PdsDeleter.Sound(middle, after, owner, REGISTRY, deletes)
  }

  predicate KeyFirst(log: seq<Entry>, middle: seq<Entry>, key: Option<RecordUri>) {
    middle == log
    || (key.Some? && key.value.AtUri? && |middle| == |log| + 1 && middle[..|log|] == log
        && middle[|log|].call == Delete(key.value.collection, key.value.rkey))
  }

  datatype Reading = Reading(moment: nat, db: Db)

  // The credential was read, under the claim's own live lease, after the
  // inventory of uncertain writes had committed.
  ghost predicate ReadUnderLease(store: Store, reading: Reading, claim: ClaimedOperation, inventory: Deed)
    reads store
  {
    && WasState(store.start, store.history, reading.moment, reading.db)
    && CredentialReadable(reading.db, claim)
    && inventory.outcome == Done && inventory.at < reading.moment
  }

  // Before the first call of a series the coordinator loaded the credential.
  ghost predicate LoadedFor(store: Store, loading: Reading, claim: ClaimedOperation, binding: CredentialBinding)
    reads store
  {
    WasState(store.start, store.history, loading.moment, loading.db) && LoadsCredential(loading.db, claim, binding)
  }

  // What loads now was not lost before.
  lemma LoadedWasThere(
    start: Db, history: seq<Step>, earlier: Reading, loading: Reading, claim: ClaimedOperation,
    binding: CredentialBinding)
    requires WasState(start, history, earlier.moment, earlier.db)
             && WasState(start, history, loading.moment, loading.db)
    requires earlier.moment <= loading.moment && LoadsCredential(loading.db, claim, binding)
    ensures !CredentialGone(earlier.db, claim.jobId)
  {
    assert Unsealed(true);
    var n, m := earlier.moment, loading.moment;
    assert history[..m] == history[..n] + history[n..m];
    RunsCompose(start, history[..n], history[n..m]);
    if CredentialGone(earlier.db, claim.jobId) {
      LostCredentialNeverReturns(earlier.db, history[n..m], claim.jobId);
    }
  }

  // What can keep the remote part from converging: its key or the key's release was
  // refused, the credential does not load, a call went wrong or no call was left, or
  // some key is not settled.
  ghost predicate Hindered(own: seq<Deed>, n: nat, at: Db, claim: ClaimedOperation, binding: CredentialBinding,
                           log: seq<Entry>, from: nat, spent: bool)
  {
    || (n < |own| && own[n].outcome !in {Done, NotFound})
    || (n + 1 < |own| && own[n + 1].outcome != Done && own[n + 1].step.ByWorker? && own[n + 1].step.call.ReleaseKey?)
    || !LoadsCredential(at, claim, binding)
    || PdsDeleter.TroubleSince(log, from, claim.owner) || spent
    || !EverySettled(at, claim)
  }

  // The credential was given up, or at least reported as lost.
  ghost predicate GivenUp(own: seq<Deed>, claim: ClaimedOperation, coordinator: Coordinator) {
    && coordinator.Unusable? && own != []
    && CallBy(own[|own| - 1], claim) && own[|own| - 1].step.call.LoseAuthority?
    && (own[|own| - 1].outcome == Done || coordinator.reportAnyway)
  }

  // How an owner's server answers the next client, and for how many calls.
  datatype Remote = Remote(onList: OnList, onDelete: OnDelete, deadline: nat, lastCursor: Cursor, remain: Remain,
    contents: Contents)

  class LifecycleProcessor {
    const store: Store
    const servers: Did -> Remote
    const batchSize: int

    constructor (store: Store, servers: Did -> Remote, batchSize: int)
      ensures this.store == store && this.servers == servers && this.batchSize > 0
    {
      this.store, this.servers := store, servers;
      this.batchSize := if batchSize <= 0 then 20 else batchSize;
    }

    ghost predicate Ready(deleter: PdsDeleter.Deleter, claim: ClaimedOperation)
      reads store, deleter.client
    {
      deleter.client.Valid() && deleter.client.owner == claim.owner && deleter.batchSize > 0
    }

    // What becomes of a remote failure.
    method RemoteFailure(claim: ClaimedOperation, coordinator: Coordinator) returns (result: ProcessResult)
      requires store.Valid() && Issued(store, claim)
      modifies store
      ensures store.Valid() && store.Grew() && Issued(store, claim)
      ensures result == if GivenUp(store.own, claim, coordinator) then CredentialLost else Failure(Pds)
      ensures coordinator.Healthy? ==> store.own == old(store.own)
      ensures coordinator.Unusable? ==>
                |store.own| == |old(store.own)| + 1
                && CallBy(store.own[|store.own| - 1], claim) && store.own[|store.own| - 1].step.call.LoseAuthority?
    {
      if coordinator.Healthy? {
        return Failure(Pds);
      }
      var outcome := LoseCredentialNow(store, claim);
      result := if outcome.Done? || coordinator.reportAnyway then CredentialLost else Failure(Pds);
    }

    // Up to the PDS client: nothing remote has happened yet.
    method Prepare(claim: ClaimedOperation, ids: seq<Uuid>, cleanupOk: bool, clientOk: bool)
      returns (result: ProcessResult, credential: Option<CredentialBinding>, ghost reading: Reading)
      requires store.Valid() && Issued(store, claim)
      modifies store
      ensures store.Valid() && store.Grew() && Issued(store, claim)
      ensures |store.own| == |old(store.own)| + 1
      ensures CallBy(store.own[|old(store.own)|], claim) && store.own[|old(store.own)|].step.call == Inventory(ids)
      ensures result.Converged? ==>
                cleanupOk && clientOk && credential.Some?
                  && ReadUnderLease(store, reading, claim, store.own[|old(store.own)|])
                  && credential.value == BindingOf(reading.db, claim.jobId)
      ensures result ==
        if store.own[|old(store.own)|].outcome != Done then Failure(Pds)
        else if !cleanupOk then Failure(PrivateCleanup)
        else if !CredentialReadable(store.State(), claim) || !clientOk then Failure(Reauthentication)
        else Converged
    {
      reading, credential := Reading(0, store.State()), None;
      Wait(claim);
      var adopted := CallNow(store, claim, ids);
      if !adopted.Done? {
        return Failure(Pds), None, reading;
      }
      if !cleanupOk {
        return Failure(PrivateCleanup), None, reading;
      }
      Wait(claim);
      var (bound, readable) := ReadCredential(store.State(), claim);
      ReadEffect(store.State(), claim);
      credential := bound;
      reading := Reading(|store.history|, store.State());
      NoteReading(reading);
      OwnStepsArePast(|store.own| - 1);
      result := if !readable.Done? || !clientOk then Failure(Reauthentication) else Converged;
    }

    // From the safety claim on.
    method Reconcile(
      deleter: PdsDeleter.Deleter, claim: ClaimedOperation, binding: CredentialBinding, coordinator: Coordinator)
      returns (result: ProcessResult, ghost key: Option<RecordUri>, ghost loading: Reading)
      requires store.Valid() && Issued(store, claim) && Ready(deleter, claim)
      modifies store, deleter.client
      ensures store.Valid() && store.Grew() && Issued(store, claim) && deleter.client.Valid()
      ensures |store.own| > |old(store.own)| && RemotePart(store.own, |old(store.own)|, claim)
      ensures OnlyGoneReleased(store.own, |old(store.own)|, deleter.client.log, |old(deleter.client.log)|)
      ensures result.Converged? ==> KeyReturned(store.own, |old(store.own)|, claim)
      ensures result.CredentialLost? ==> GivenUp(store.own, claim, coordinator)
      ensures result.Failure? ==>
                && result == Failure(Pds)
                && Hindered(store.own, |old(store.own)|, store.State(), claim, binding, deleter.client.log,
                            |old(deleter.client.log)|, deleter.client.calls == deleter.client.deadline)
      ensures RemoteCalls(old(deleter.client.log), deleter.client.log, key, claim.owner)
      ensures deleter.client.log != old(deleter.client.log) || result.Converged? ==>
                |old(store.history)| <= loading.moment && LoadedFor(store, loading, claim, binding)
      ensures result.Converged? ==>
                && PdsDeleter.EndsInEmptyScan(deleter.client.log, REGISTRY)
                && SafetyConverged(store.State(), claim)
    {
      result, key, loading := ReconcileDueKey(deleter, claim, binding, coordinator);
      ghost var middle, history := deleter.client.log, store.history;
      if !result.Converged? {
        NoRemoteCalls(middle, None, claim.owner);
        assert PdsDeleter.Sound(middle, middle, claim.owner, REGISTRY, 0);
        return;
      }
      ghost var deletes, again, sofar;
      sofar := store.own;
      result, deletes, again := Empty(deleter, claim, binding, coordinator);
      GoneStaysGone(sofar, |old(store.own)|, middle, deleter.client.log, |old(deleter.client.log)|);
      if middle != old(deleter.client.log) {
        WasStateStays(store.start, history, store.history, loading.moment, loading.db);
      } else {
        loading := again;
      }
    }

    // The same with a client of the owner's server.
    method ReconcileAt(claim: ClaimedOperation, binding: CredentialBinding, coordinator: Coordinator)
      returns (result: ProcessResult, ghost key: Option<RecordUri>, ghost loading: Reading, ghost log: seq<Entry>)
      requires store.Valid() && Issued(store, claim) && batchSize > 0
      modifies store
      ensures store.Valid() && store.Grew() && Issued(store, claim)
      ensures |store.own| > |old(store.own)| && RemotePart(store.own, |old(store.own)|, claim)
      ensures OnlyGoneReleased(store.own, |old(store.own)|, log, 0)
      ensures result.Converged? ==> KeyReturned(store.own, |old(store.own)|, claim)
      ensures result.CredentialLost? ==> GivenUp(store.own, claim, coordinator)
      ensures result.Failure? ==>
                && result == Failure(Pds)
                && Hindered(store.own, |old(store.own)|, store.State(), claim, binding, log, 0,
                            servers(claim.owner).deadline <= |log|)
      ensures RemoteCalls([], log, key, claim.owner)
      ensures log != [] || result.Converged? ==>
                |old(store.history)| <= loading.moment && LoadedFor(store, loading, claim, binding)
      ensures result.Converged? ==> PdsDeleter.EndsInEmptyScan(log, REGISTRY) && SafetyConverged(store.State(), claim)
    {
      var server := servers(claim.owner);
      var client := new Client(claim.owner, server.onList, server.onDelete, server.deadline, server.lastCursor,
        server.remain, server.contents);
      var deleter := new PdsDeleter.Deleter(client, batchSize);
      result, key, loading := Reconcile(deleter, claim, binding, coordinator);
      log := client.log;
    }

    // At most one due key, claimed and reconciled.
    method ReconcileDueKey(
      deleter: PdsDeleter.Deleter, claim: ClaimedOperation, binding: CredentialBinding, coordinator: Coordinator)
      returns (result: ProcessResult, ghost key: Option<RecordUri>, ghost loading: Reading)
      requires store.Valid() && Issued(store, claim) && Ready(deleter, claim)
      modifies store, deleter.client
      ensures store.Valid() && store.Grew() && Issued(store, claim) && deleter.client.Valid()
      ensures |store.own| > |old(store.own)| && RemotePart(store.own, |old(store.own)|, claim)
      ensures result.Converged? ==> NoneGivenUp(store.own, |old(store.own)|)
      ensures OnlyGoneReleased(store.own, |old(store.own)|, deleter.client.log, |old(deleter.client.log)|)
      ensures result.Converged? ==> KeyReturned(store.own, |old(store.own)|, claim)
      ensures result.CredentialLost? ==> GivenUp(store.own, claim, coordinator)
      ensures result.Failure? ==>
                && result == Failure(Pds)
                && Hindered(store.own, |old(store.own)|, store.State(), claim, binding, deleter.client.log,
                            |old(deleter.client.log)|, deleter.client.calls == deleter.client.deadline)
      ensures old(deleter.client.log) <= deleter.client.log
      ensures KeyFirst(old(deleter.client.log), deleter.client.log, key)
      ensures deleter.client.log != old(deleter.client.log) ==>
                |old(store.history)| <= loading.moment && LoadedFor(store, loading, claim, binding)
    {
      loading := Reading(0, store.State());
      Wait(claim);
      var id, uri, claimed := ClaimKeyNow(store, claim);
      if !claimed.Done? && !claimed.NotFound? {
        return Failure(Pds), None, loading;
      }
      result, key := Converged, None;
      if id.Some? {
        result, key, loading := ReconcileKey(deleter, claim, binding, id.value, uri, coordinator);
      }
    }

    // DeleteAll, and then the convergence test.
    method Empty(
      deleter: PdsDeleter.Deleter, claim: ClaimedOperation, binding: CredentialBinding, coordinator: Coordinator)
      returns (result: ProcessResult, ghost deletes: nat, ghost loading: Reading)
      requires store.Valid() && Issued(store, claim) && Ready(deleter, claim)
      modifies store, deleter.client
      ensures store.Valid() && store.Grew() && Issued(store, claim) && deleter.client.Valid()
      ensures |store.own| <= |old(store.own)| + 1
      ensures |store.own| > |old(store.own)| ==>
                CallBy(store.own[|old(store.own)|], claim) && store.own[|old(store.own)|].step.call.LoseAuthority?
      ensures result.CredentialLost? ==> GivenUp(store.own, claim, coordinator)
      ensures result.Failure? ==>
                && result == Failure(Pds)
                && (|| !LoadsCredential(store.State(), claim, binding)
                    || PdsDeleter.TroubleSince(deleter.client.log, |old(deleter.client.log)|, claim.owner)
                    || deleter.client.calls == deleter.client.deadline
                    || !EverySettled(store.State(), claim))
      ensures PdsDeleter.Sound(old(deleter.client.log), deleter.client.log, claim.owner, REGISTRY, deletes)
      ensures deleter.client.log != old(deleter.client.log) || result.Converged? ==>
                |old(store.history)| <= loading.moment && LoadedFor(store, loading, claim, binding)
      ensures result.Converged? ==>
                && PdsDeleter.EndsInEmptyScan(deleter.client.log, REGISTRY)
                && SafetyConverged(store.State(), claim)
    {
      var loads;
      loads, loading := Load(claim, binding);
      if !loads {
        deletes := 0;
        result := Failure(Pds);
        return;
      }
      ghost var history := store.history;
      var counts, err := deleter.DeleteAll();
      deletes := counts.listed;
      if err.Err? {
        result := RemoteFailure(claim, coordinator);
        WasStateStays(store.start, history, store.history, loading.moment, loading.db);
        return;
      }
      Wait(claim);
      WasStateStays(store.start, history, store.history, loading.moment, loading.db);
      SettlementMeans(store.State(), claim);
      var converged := store.ReadSafetyConverged(claim);
      result := if converged then Converged else Failure(Pds);
    }

    // The coordinator before a call to the server.
    method Load(claim: ClaimedOperation, binding: CredentialBinding) returns (loads: bool, ghost loading: Reading)
      requires store.Valid() && Issued(store, claim)
      modifies store
      ensures store.Valid() && store.Grew() && Issued(store, claim) && store.own == old(store.own)
      ensures |old(store.history)| <= loading.moment && WasState(store.start, store.history, loading.moment, loading.db)
      ensures loads <==> LoadsCredential(loading.db, claim, binding)
      ensures loading.db == store.State()
    {
      Wait(claim);
      loads := LoadsCredential(store.State(), claim, binding);
      loading := Reading(|store.history|, store.State());
      NoteReading(loading);
    }

    // RecordPDSSafetyPending: the id still names the key that was deleted.
    method PutBack(claim: ClaimedOperation, id: Uuid, uri: RecordUri, ghost claimedAt: seq<Step>)
      returns (outcome: Outcome)
      requires store.Valid() && Issued(store, claim)
      requires claimedAt <= store.history && NamedAt(store.start, claimedAt, id, uri)
      modifies store
      ensures store.Valid() && store.Grew() && Issued(store, claim) && |store.own| == |old(store.own)| + 1
      ensures var d := store.own[|store.own| - 1];
        && CallBy(d, claim) && d.step.call == ReleaseKey(id, d.found.now) && d.outcome == outcome
        && (outcome == Done ==> id in d.found.tombstones && d.found.tombstones[id].key == PdsRecord(uri))
    {
      Wait(claim);
      StillNamed(claimedAt, id, uri);
      outcome := ReleaseKeyNow(store, claim, id);
    }

    // The claimed key: deleted by its exact name, then put behind the others.
    method ReconcileKey(
      deleter: PdsDeleter.Deleter, claim: ClaimedOperation, binding: CredentialBinding, id: Uuid, uri: RecordUri,
      coordinator: Coordinator)
      returns (result: ProcessResult, ghost key: Option<RecordUri>, ghost loading: Reading)
      requires store.Valid() && Issued(store, claim) && Ready(deleter, claim)
      requires OwnedKey(claim.owner, uri) && Registered(uri.collection)
      requires NamedAt(store.start, store.history, id, uri)
      modifies store, deleter.client
      ensures store.Valid() && store.Grew() && Issued(store, claim) && deleter.client.Valid()
      ensures |store.own| <= |old(store.own)| + 1
      ensures |store.own| > |old(store.own)| ==>
                && CallBy(store.own[|old(store.own)|], claim)
                && (if result.Converged? then store.own[|old(store.own)|].step.call.ReleaseKey?
                    else
                      || store.own[|old(store.own)|].step.call.ReleaseKey?
                      || store.own[|old(store.own)|].step.call.LoseAuthority?)
      ensures OnlyGoneReleased(store.own, |old(store.own)|, deleter.client.log, |old(deleter.client.log)|)
      ensures result.Converged? ==>
                && |store.own| > |old(store.own)| && store.own[|old(store.own)|].outcome == Done
                && store.own[|old(store.own)|].step.call.id == id
      ensures result.CredentialLost? ==> GivenUp(store.own, claim, coordinator)
      ensures result.Failure? ==>
                && result == Failure(Pds)
                && (|| !LoadsCredential(store.State(), claim, binding)
                    || PdsDeleter.TroubleSince(deleter.client.log, |old(deleter.client.log)|, claim.owner)
                    || (|store.own| > |old(store.own)| && store.own[|old(store.own)|].outcome != Done
                        && store.own[|old(store.own)|].step.call.ReleaseKey?))
      ensures KeyFirst(old(deleter.client.log), deleter.client.log, key)
      ensures deleter.client.log != old(deleter.client.log) ==>
                |old(store.history)| <= loading.moment && LoadedFor(store, loading, claim, binding)
    {
      ghost var claimedAt := store.history;
      var loads;
      loads, loading := Load(claim, binding);
      if !loads {
        return Failure(Pds), None, loading;
      }
      ghost var history, from := store.history, |deleter.client.log|;
      var err := deleter.DeleteExact(uri);
      key := Some(uri);
      if err.Err? {
        assert PdsDeleter.Trouble(deleter.client.log[from], claim.owner);
        result := RemoteFailure(claim, coordinator);
        WasStateStays(store.start, history, store.history, loading.moment, loading.db);
        return;
      }
      var released := PutBack(claim, id, uri, claimedAt);
      WasStateStays(store.start, history, store.history, loading.moment, loading.db);
      result := if released.Done? then Converged else Failure(Pds);
    }

    // What each result stands for. The attempt's deeds are own[n..], the first of them
    // its inventory, and `at` are the rows it ended on.
    ghost predicate Accounted(
      result: ProcessResult, own: seq<Deed>, n: nat, at: Db, history: seq<Step>, claim: ClaimedOperation,
      cleanupOk: bool, clientOk: bool, coordinator: Coordinator, reading: Reading, log: seq<Entry>)
    {
      && n < |own|
      && match result
         case Converged => n + 1 < |own| && KeyReturned(own, n + 1, claim)
         case Failure(PrivateCleanup) => own[n].outcome == Done && !cleanupOk
         case Failure(Reauthentication) =>
           own[n].outcome == Done && cleanupOk && (!clientOk || !CredentialReadable(at, claim))
         case Failure(Pds) =>
           || own[n].outcome != Done
           || (&& cleanupOk && clientOk && WasState(store.start, history, reading.moment, reading.db)
               && CredentialReadable(reading.db, claim)
               && Hindered(own, n + 1, at, claim, BindingOf(reading.db, claim.jobId), log, 0,
                           servers(claim.owner).deadline <= |log|))
         case CredentialLost => GivenUp(own, claim, coordinator)
    }

    // The id still names the key that it named then.
    lemma StillNamed(history: seq<Step>, id: Uuid, uri: RecordUri)
      requires store.Valid() && history <= store.history
      requires NamedAt(store.start, history, id, uri)
      ensures id in store.tombstones ==> store.tombstones[id].key == PdsRecord(uri)
    {
      assert Unsealed(true);
      store.StateIsReached();
      var since := store.history[|history|..];
      assert store.history == history + since;
      RunsCompose(store.start, history, since);
      KeysNeverChange(Run(store.start, history), since, id, PdsRecord(uri));
    }

    // Process.
    method Process(claim: ClaimedOperation, ids: seq<Uuid>, cleanupOk: bool, clientOk: bool, coordinator: Coordinator)
      returns (result: ProcessResult, ghost reading: Reading, ghost key: Option<RecordUri>, ghost log: seq<Entry>)
      requires store.Valid() && Issued(store, claim) && batchSize > 0
      modifies store
      ensures store.Valid() && store.Grew() && Issued(store, claim)
      ensures |store.own| > |old(store.own)| && InOrder(store.own, |old(store.own)|, claim)
      ensures OnlyGoneReleased(store.own, |old(store.own)|, log, 0)
      ensures Accounted(result, store.own, |old(store.own)|, store.State(), store.history, claim, cleanupOk, clientOk,
                        coordinator, reading, log)
      ensures log != [] || result.Converged? ==>
                cleanupOk && clientOk && ReadUnderLease(store, reading, claim, store.own[|old(store.own)|])
      ensures RemoteCalls([], log, key, claim.owner)
      ensures result.Converged? ==> PdsDeleter.EndsInEmptyScan(log, REGISTRY) && SafetyConverged(store.State(), claim)
      ensures log != [] || result.Converged? ==> !CredentialGone(old(store.State()), claim.jobId)
    {
      key, log := None, [];
      ghost var entry := Reading(|store.history|, store.State());
      NoteReading(entry);
      ghost var before := store.history;
      NoRemoteCalls(log, None, claim.owner);
      var credential;
      result, credential, reading := Prepare(claim, ids, cleanupOk, clientOk);
      if !result.Converged? {
        return;
      }
      ghost var history := store.history;
      ghost var loading;
      result, key, loading, log := ReconcileAt(claim, credential.value, coordinator);
      WasStateStays(store.start, history, store.history, reading.moment, reading.db);
      if log != [] || result.Converged? {
        WasStateStays(store.start, before, store.history, entry.moment, entry.db);
        LoadedWasThere(store.start, store.history, entry, loading, claim, credential.value);
      }
    }

    lemma NoRemoteCalls(log: seq<Entry>, key: Option<RecordUri>, owner: Did)
      ensures RemoteCalls(log, log, key, owner)
    {
      assert KeyFirst(log, log, key) && PdsDeleter.Sound(log, log, owner, REGISTRY, 0);
    }

    lemma OwnStepsArePast(i: nat)
      requires store.Valid() && i < |store.own|
      ensures store.own[i].at < |store.history|
    {
      store.OwnStepHappened(i);
    }

    // Time passes; the claim stays an issued one.
    method Wait(claim: ClaimedOperation)
      requires store.Valid() && Issued(store, claim)
      modifies store
      ensures store.Valid() && store.Grew() && Issued(store, claim) && store.own == old(store.own)
    {
      LeadsNowhere(store.State());
      PauseHolding(store, claim, store.State(), store.turn);
    }

    lemma NoteReading(reading: Reading)
      requires store.Valid() && reading == Reading(|store.history|, store.State())
      ensures WasState(store.start, store.history, reading.moment, reading.db)
    {
      store.StateIsReached();
      assert store.history[..|store.history|] == store.history;
    }
  }

  // --- The worker ----------------------------------------------------------

  datatype WorkResult =
    | Idle
    | Completed
    | Retried
    | AwaitingCredential
    | NotPersisted            // the failure could not be recorded
    | NotFinalized            // completion failed for another reason

  // The failure was recorded under the claim's own lease: one attempt more, and a
  // retry time that the policy gave for a clock reading made while holding it.
  ghost predicate RecordedFailure(
    d: Deed, claim: ClaimedOperation, policy: RetryPolicy.Policy, hash: (Uuid, int) -> nat, readAt: Time)
  {
    && CallBy(d, claim) && d.outcome == Done
    && d.step.call == Fail(readAt
       + RetryPolicy.NextDelay(policy, hash(claim.jobId, claim.attemptCount + 1), claim.attemptCount + 1))
    && HoldsLease(d.found, claim) && claim.jobId in d.left.operations
    && d.left.operations[claim.jobId].attemptCount == claim.attemptCount + 1
    && d.left.operations[claim.jobId].nextAttemptAt == Some(d.step.call.nextAt)
    && d.left.operations[claim.jobId].lease.None?
  }

  predicate FailedToRecord(own: seq<Deed>, claim: ClaimedOperation) {
    own != [] && CallBy(own[|own| - 1], claim) && own[|own| - 1].step.call.Fail? && own[|own| - 1].outcome != Done
  }

  method FailNow(store: Store, claim: ClaimedOperation, nextAt: Time) returns (outcome: Outcome)
    requires store.Valid() && Issued(store, claim)
    modifies store
    ensures store.Valid() && store.Grew() && Issued(store, claim)
    ensures |store.own| == |old(store.own)| + 1
    ensures var d := store.own[|store.own| - 1];
      && CallBy(d, claim) && d.outcome == outcome && d.step.call == Fail(nextAt)
      && (outcome != Done ==> d.left == d.found)
      && (outcome == Done ==>
            && HoldsLease(d.found, claim) && claim.jobId in d.left.operations
            && d.left.operations[claim.jobId].attemptCount == claim.attemptCount + 1
            && d.left.operations[claim.jobId].nextAttemptAt == Some(nextAt)
            && d.left.operations[claim.jobId].lease.None?)
  {
    outcome := store.RecordFailureWith(claim, nextAt, claim.attemptCount + 1);
  }

  // What the processor ended with: its result, the worker's deeds and the rows by
  // then, and the credential it had read.
  datatype Account = Account(result: ProcessResult, own: seq<Deed>, at: Reading, reading: Reading)

  class Worker {
    const processor: LifecycleProcessor
    const finalizer: AppService
    const leaseDuration: int
    const policy: RetryPolicy.Policy
    const hash: (Uuid, int) -> nat

    constructor (processor: LifecycleProcessor, finalizer: AppService, leaseDuration: int,
                 policy: RetryPolicy.Policy, hash: (Uuid, int) -> nat)
      ensures this.processor == processor && this.finalizer == finalizer && this.leaseDuration == leaseDuration
      ensures this.policy == (if policy.delays == [] then RetryPolicy.DEFAULT else policy) && this.hash == hash
    {
      this.processor, this.finalizer, this.leaseDuration := processor, finalizer, leaseDuration;
      this.policy, this.hash := if policy.delays == [] then RetryPolicy.DEFAULT else policy, hash;
    }

    ghost predicate Valid()
      reads processor.store
    {
      processor.store.Valid() && processor.batchSize > 0 && finalizer.store == processor.store
    }

    method Retry(claim: ClaimedOperation) returns (result: WorkResult, ghost readAt: Time)
      requires Valid() && Issued(processor.store, claim)
      modifies processor.store
      ensures Valid() && processor.store.Grew()
      ensures |processor.store.own| == |old(processor.store.own)| + 1
      ensures result.Retried? ==>
                RecordedFailure(processor.store.own[|old(processor.store.own)|], claim, policy, hash, readAt)
      ensures !result.Retried? ==> result.NotPersisted? && FailedToRecord(processor.store.own, claim)
    {
      var store := processor.store;
      processor.Wait(claim);
      var now := store.now;
      readAt := now;
      var nextAttempt := claim.attemptCount + 1;
      var nextAt := now + RetryPolicy.NextDelay(policy, hash(claim.jobId, nextAttempt), nextAttempt);
      processor.Wait(claim);
      var outcome := FailNow(store, claim, nextAt);
      result := if outcome.Done? then Retried else NotPersisted;
    }

    // From an operation in hand. Completion comes only after a pass that ended
    // with every registered collection's first page empty.
    method Work(claim: ClaimedOperation, ids: seq<Uuid>, cleanupOk: bool, clientOk: bool, coordinator: Coordinator)
      returns (result: WorkResult, ghost readAt: Time, ghost log: seq<Entry>, ghost attempt: Account)
      requires Valid() && Issued(processor.store, claim)
      modifies processor.store
      ensures Valid() && processor.store.Grew() && !result.Idle?
      ensures Attempted(attempt, |old(processor.store.own)|, processor.store.own, processor.store.history, claim,
                        cleanupOk, clientOk, coordinator, log)
      ensures Follows(result, attempt, claim)
      ensures |processor.store.own| > |old(processor.store.own)|
      ensures result.AwaitingCredential? ==> GivenUp(processor.store.own, claim, coordinator)
      ensures result.NotPersisted? ==> FailedToRecord(processor.store.own, claim)
      ensures result.Completed? ==>
                CompletedBy(processor.store, claim, log) && !CredentialGone(old(processor.store.State()), claim.jobId)
      ensures result.Retried? ==>
                RecordedFailure(processor.store.own[|processor.store.own| - 1], claim, policy, hash, readAt)
    {
      readAt := 0;
      var processed;
      processed, log, attempt := Attempt(claim, ids, cleanupOk, clientOk, coordinator);
      if processed.CredentialLost? {
        return AwaitingCredential, 0, log, attempt;
      }
      ghost var history := processor.store.history;
      result, readAt := Follow(claim, processed);
      AttemptStays(attempt, |old(processor.store.own)|, claim, cleanupOk, clientOk, coordinator, log, history);
    }

    // After the processor kept the credential: record the failure, or complete.
    method Follow(claim: ClaimedOperation, processed: ProcessResult) returns (result: WorkResult, ghost readAt: Time)
      requires Valid() && Issued(processor.store, claim) && !processed.CredentialLost?
      modifies processor.store
      ensures Valid() && processor.store.Grew()
      ensures if processed.Failure? then result in {Retried, NotPersisted}
              else Finalized(result, |old(processor.store.own)|, claim)
      ensures result.NotPersisted? ==> FailedToRecord(processor.store.own, claim)
      ensures result.Completed? ==> |processor.store.own| > |old(processor.store.own)|
                                    && CompletionStands(processor.store, claim)
      ensures result.Retried? ==>
                && |processor.store.own| > |old(processor.store.own)|
                && RecordedFailure(processor.store.own[|processor.store.own| - 1], claim, policy, hash, readAt)
    {
      if processed.Failure? {
        result, readAt := Retry(claim);
      } else {
        result, readAt := Conclude(claim);
      }
    }

    // The attempt began with deed n, and its result is accounted for; sealed.
    ghost predicate Attempted(
      attempt: Account, n: nat, own: seq<Deed>, history: seq<Step>, claim: ClaimedOperation, cleanupOk: bool,
      clientOk: bool, coordinator: Coordinator, log: seq<Entry>)
    {
      forall seal: bool {:trigger Unsealed(seal)} :: Unsealed(seal) ==>
        AttemptedBy(attempt, n, own, history, claim, cleanupOk, clientOk, coordinator, log)
    }

    ghost predicate AttemptedBy(
      attempt: Account, n: nat, own: seq<Deed>, history: seq<Step>, claim: ClaimedOperation, cleanupOk: bool,
      clientOk: bool, coordinator: Coordinator, log: seq<Entry>)
    {
      && attempt.own <= own && WasState(processor.store.start, history, attempt.at.moment, attempt.at.db)
      && OnlyGoneReleased(attempt.own, n, log, 0)
      && processor.Accounted(attempt.result, attempt.own, n, attempt.at.db, history, claim, cleanupOk, clientOk,
                             coordinator, attempt.reading, log)
    }

    lemma AttemptStays(
      attempt: Account, n: nat, claim: ClaimedOperation, cleanupOk: bool, clientOk: bool, coordinator: Coordinator,
      log: seq<Entry>, history: seq<Step>)
      requires history <= processor.store.history && attempt.own <= processor.store.own
      requires Attempted(attempt, n, attempt.own, history, claim, cleanupOk, clientOk, coordinator, log)
      ensures Attempted(attempt, n, processor.store.own, processor.store.history, claim, cleanupOk, clientOk,
                        coordinator, log)
    {
      assert Unsealed(true);
      var store := processor.store;
      WasStateStays(store.start, history, store.history, attempt.at.moment, attempt.at.db);
      if WasState(store.start, history, attempt.reading.moment, attempt.reading.db) {
        WasStateStays(store.start, history, store.history, attempt.reading.moment, attempt.reading.db);
      }
    }

    // What the worker made of it: a lost credential is awaited, a failure recorded, and
    // after convergence the job is completed unless it cannot be any more.
    ghost predicate Follows(result: WorkResult, attempt: Account, claim: ClaimedOperation)
      reads processor.store
    {
      var store, n := processor.store, |attempt.own|;
      match attempt.result
      case CredentialLost => result.AwaitingCredential?
      case Failure(_) => result in {Retried, NotPersisted}
      case Converged => Finalized(result, n, claim)
    }

    // The completion was made if it could be; only unsettled safety is retried.
    ghost predicate Finalized(result: WorkResult, n: nat, claim: ClaimedOperation)
      reads processor.store
    {
      match result
      case Completed => true
      case NotFinalized => !FinishIsDue(Decisive(processor.store, n), claim)
      case Retried | NotPersisted =>
        && |processor.store.own| > n + 1 && FinishDeed(processor.store.own[n], claim)
        && processor.store.own[n].outcome == SafetyUnsettled
      case _ => false
    }

    method Attempt(claim: ClaimedOperation, ids: seq<Uuid>, cleanupOk: bool, clientOk: bool, coordinator: Coordinator)
      returns (result: ProcessResult, ghost log: seq<Entry>, ghost attempt: Account)
      requires Valid() && Issued(processor.store, claim)
      modifies processor.store
      ensures Valid() && processor.store.Grew() && Issued(processor.store, claim)
      ensures |processor.store.own| > |old(processor.store.own)|
      ensures attempt.result == result && attempt.own == processor.store.own
      ensures Attempted(attempt, |old(processor.store.own)|, processor.store.own, processor.store.history, claim,
                        cleanupOk, clientOk, coordinator, log)
      ensures result.CredentialLost? ==> GivenUp(processor.store.own, claim, coordinator)
      ensures result.Converged? ==>
                PdsDeleter.EndsInEmptyScan(log, REGISTRY) && !CredentialGone(old(processor.store.State()), claim.jobId)
    {
      ghost var reading, key;
      result, reading, key, log := processor.Process(claim, ids, cleanupOk, clientOk, coordinator);
      attempt := Account(result, processor.store.own, Reading(|processor.store.history|, processor.store.State()),
                         reading);
      processor.NoteReading(attempt.at);
    }

    // After a pass that converged: complete, or retry if something is unsettled again.
    method Conclude(claim: ClaimedOperation) returns (result: WorkResult, ghost readAt: Time)
      requires Valid() && Issued(processor.store, claim)
      modifies processor.store
      ensures Valid() && processor.store.Grew() && result in {Completed, Retried, NotPersisted, NotFinalized}
      ensures Finalized(result, |old(processor.store.own)|, claim)
      ensures result.NotPersisted? ==> FailedToRecord(processor.store.own, claim)
      ensures result.Completed? ==>
                && |processor.store.own| > |old(processor.store.own)|
                && CompletionStands(processor.store, claim)
      ensures result.Retried? ==>
                && |processor.store.own| > |old(processor.store.own)|
                && RecordedFailure(processor.store.own[|processor.store.own| - 1], claim, policy, hash, readAt)
    {
      readAt := 0;
      var finished := Finish(claim);
      if finished.Done? {
        return Completed, 0;
      }
      if finished.SafetyUnsettled? {
        result, readAt := Retry(claim);
        return;
      }
      result := NotFinalized;
    }

    method Finish(claim: ClaimedOperation) returns (outcome: Outcome)
      requires Valid() && Issued(processor.store, claim)
      modifies processor.store
      ensures Valid() && processor.store.Grew() && Issued(processor.store, claim)
      ensures outcome == Done
              ==> |processor.store.own| > |old(processor.store.own)| && CompletionStands(processor.store, claim)
      ensures outcome == Done <==> FinishIsDue(Decisive(processor.store, |old(processor.store.own)|), claim)
      ensures outcome == SafetyUnsettled ==>
                && |processor.store.own| == |old(processor.store.own)| + 1
                && FinishDeed(processor.store.own[|old(processor.store.own)|], claim)
                && processor.store.own[|old(processor.store.own)|].outcome == outcome
    {
      outcome := finalizer.CompleteAccepted(claim);
    }

    method ClaimNext(locked: set<Uuid>, token: Uuid) returns (claim: Option<ClaimedOperation>)
      requires Valid() && token !in processor.store.used && leaseDuration > 0
      modifies processor.store
      ensures Valid() && processor.store.Grew()
      ensures claim.Some? ==>
                && Issued(processor.store, claim.value)
                && FirstToClaim(old(processor.store.State()), locked, claim.value.jobId)
                && claim.value.leaseExpiresAt == old(processor.store.now) + leaseDuration
                && |processor.store.own| == |old(processor.store.own)| + 1
                && (!CredentialGone(processor.store.State(), claim.value.jobId)
                    ==> Usable(old(processor.store.State()), claim.value.jobId))
      ensures claim.None? ==>
                && processor.store.State() == old(processor.store.State())
                && forall job :: !Claims(processor.store.State(), locked, job)
    {
      ghost var before := processor.store.State();
      processor.store.StateIsReached();
      var outcome;
      claim, outcome := processor.store.ClaimDueWith(locked, token, leaseDuration);
      if claim.Some? && !CredentialGone(processor.store.State(), claim.value.jobId) {
        ClaimedWasUsable(before, claim.value.jobId, token, leaseDuration);
      }
    }

    // ProcessOne.
    method ProcessOne(
      locked: set<Uuid>, token: Uuid, ids: seq<Uuid>, cleanupOk: bool, clientOk: bool, coordinator: Coordinator)
      returns (result: WorkResult, claim: Option<ClaimedOperation>, ghost readAt: Time, ghost log: seq<Entry>,
               ghost attempt: Account)
      requires Valid() && token !in processor.store.used && leaseDuration > 0
      modifies processor.store
      ensures Valid() && processor.store.Grew()
      ensures claim.Some? ==>
                && FirstToClaim(old(processor.store.State()), locked, claim.value.jobId)
                && claim.value.leaseExpiresAt == old(processor.store.now) + leaseDuration
                && |processor.store.own| > |old(processor.store.own)|
      ensures result.Idle? <==> claim.None?
      ensures claim.Some? ==>
                && Attempted(attempt, |old(processor.store.own)| + 1, processor.store.own, processor.store.history,
                             claim.value, cleanupOk, clientOk, coordinator, log)
                && Follows(result, attempt, claim.value)
      ensures claim.None? ==>
                && result.Idle? && processor.store.State() == old(processor.store.State()) && log == []
                && forall job :: !Claims(processor.store.State(), locked, job)
      ensures result.Completed? ==>
                && claim.Some? && CompletedBy(processor.store, claim.value, log)
                && Usable(old(processor.store.State()), claim.value.jobId)
      ensures result.Retried? ==>
                claim.Some?
                && RecordedFailure(processor.store.own[|processor.store.own| - 1], claim.value, policy, hash, readAt)
    {
      claim := ClaimNext(locked, token);
      if claim.None? {
        return Idle, None, 0, [], Account(Converged, [], Reading(0, processor.store.State()),
                                          Reading(0, processor.store.State()));
      }
      result, readAt, log, attempt := Work(claim.value, ids, cleanupOk, clientOk, coordinator);
    }
  }

  lemma ClaimedWasUsable(db: Db, job: Uuid, token: Uuid, duration: int)
    requires Inv(db) && ClaimDue(db, job, token, duration).1 == Done
    requires !CredentialGone(ClaimDue(db, job, token, duration).0, job)
    ensures Usable(db, job)
  {
    UsableOrGone(db, job);
    if CredentialGone(db, job) {
      StepKeepsGone(db, ByService(Claim(job, token, duration)), job);
    }
  }

  // The last thing done was the claim's completion, as it stands.
  ghost predicate CompletionStands(store: Store, claim: ClaimedOperation)
    reads store
  {
    && store.own != [] && FinishDeed(store.own[|store.own| - 1], claim)
    && store.own[|store.own| - 1].outcome == Done
    && store.own[|store.own| - 1].left == store.State()
  }

  // ... and it followed remote calls that ended in an empty scan.
  ghost predicate CompletedBy(store: Store, claim: ClaimedOperation, log: seq<Entry>)
    reads store
  {
    CompletionStands(store, claim) && PdsDeleter.EndsInEmptyScan(log, REGISTRY)
  }
}
