// The refreshers: the batch processor, the on-demand refresh and mention
// resolution, each between its claim and its commit at the mercy of the others.
module IdentityRefresh {
  import opened Wrappers
  import opened IdentityCache
  import opened IdentityFencing
  import opened IdentityEffects
  import opened IdentityStore

  // How the resolver answers its n-th lookup.
  class Resolver {
    const onHandle: (nat, Did) -> HandleReply
    const onDid: (nat, Handle) -> DidReply
    var lookups: nat

    constructor (onHandle: (nat, Did) -> HandleReply, onDid: (nat, Handle) -> DidReply)
      ensures this.onHandle == onHandle && this.onDid == onDid && lookups == 0
    {
      this.onHandle, this.onDid, lookups := onHandle, onDid, 0;
    }

    method ResolveHandle(did: Did) returns (reply: HandleReply)
      modifies this
      ensures lookups == old(lookups) + 1 && reply == onHandle(old(lookups), did)
    {
      reply := onHandle(lookups, did);
      lookups := lookups + 1;
    }

    method ResolveDid(handle: Handle) returns (reply: DidReply)
      modifies this
      ensures lookups == old(lookups) + 1 && reply == onDid(old(lookups), handle)
    {
      reply := onDid(lookups, handle);
      lookups := lookups + 1;
    }
  }

  // Each lookup was answered by the resolver, the first before the second.
  ghost predicate Answered(resolver: Resolver, first: nat, did: Did, lookups: Lookups) {
    && lookups.forward == resolver.onHandle(first, did)
    && (lookups.forward.HandleFound? && lookups.forward.handle.Named? ==>
          lookups.backward == resolver.onDid(first + 1, lookups.forward.handle))
  }

  // resolveAuthoritativeHandle.
  method ResolveAuthoritative(resolver: Resolver, did: Did) returns (resolution: Resolution, ghost lookups: Lookups)
    modifies resolver
    ensures resolution == Authoritative(did, lookups)
    ensures Answered(resolver, old(resolver.lookups), did, lookups)
    ensures resolver.lookups == old(resolver.lookups)
            + if lookups.forward.HandleFound? && lookups.forward.handle.Named? then 2 else 1
  {
    var forward := resolver.ResolveHandle(did);
    lookups := Lookups(forward, DidError);
    if forward.HandleError? {
      return Unresolved, lookups;
    }
    if forward.handle.Invalid? {
      return Resolved(Invalid), lookups;
    }
    var backward := resolver.ResolveDid(forward.handle);
    lookups := Lookups(forward, backward);
    match backward {
      case DefinitelyNot => resolution := Resolved(Invalid);
      case DidError => resolution := Unresolved;
      case DidFound(back) =>
        resolution := if back == did then Resolved(forward.handle) else Resolved(Invalid);
    }
  }

  // --- One attempt's commit ------------------------------------------------

  datatype Attempted = CommittedAndInvalidated | Overtaken | Stopped

  // Completes one claimed attempt; a commit is invalidated before anything else.
  method Complete(store: IdentityCacheStore, invalidator: Invalidator, candidate: Candidate, handle: Handle, at: Time,
                  authorized: bool, ghost step: Step) returns (attempted: Attempted)
    requires store.Valid()
    requires (step.Commit? || step.CommitMention?) && step.candidate == candidate && step.at == at
    requires WriteOf(step) == if authorized then Some(handle) else None
    requires AllCovered(store, invalidator)
    modifies store, invalidator
    ensures store.Valid() && AllCovered(store, invalidator)
    ensures old(store.changes) <= store.changes && old(store.history) < store.history
    ensures store.history[|store.history| - 1] == step
    ensures attempted.CommittedAndInvalidated? ==>
              && |store.changes| == |old(store.changes)| + 1
              && authorized
              && candidate.did in store.rows && store.rows[candidate.did] == Row(handle, at)
    ensures !attempted.CommittedAndInvalidated? ==> store.changes == old(store.changes)
    ensures attempted.Stopped? && authorized ==> candidate.did in store.terminal
    ensures attempted.Overtaken? ==> !StillCurrent(store.State(), candidate)
  {
    store.Yield();
    ghost var before, calls := store.rows, invalidator.calls;
    var commit, completion := store.CompleteRefreshTx(candidate, handle, at, authorized, step);
    if completion.Refused? {
      return Stopped;
    }
    if completion.Superseded? {
      return Overtaken;
    }
    ghost var change := Change(before, store.rows);
    InvalidateCommit(invalidator, commit, change, handle);
    forall c | c in store.changes
      ensures Covers(invalidator.calls, c)
    {
      if c != change {
        assert c in old(store.changes);
        CoveredByMore(calls, invalidator.calls[|calls|..], c);
        assert calls + invalidator.calls[|calls|..] == invalidator.calls;
      }
    }
    attempted := CommittedAndInvalidated;
  }

  // Every commit this caller made has been invalidated.
  ghost predicate AllCovered(store: IdentityCacheStore, invalidator: Invalidator)
    reads store, invalidator
  {
    forall change <- store.changes :: Covers(invalidator.calls, change)
  }

  // The candidate was handed out by a claim recorded since then.
  ghost predicate ClaimedSince(store: IdentityCacheStore, from: nat, candidate: Candidate, now: Time)
    reads store
  {
    exists k :: from <= k < |store.history| && ClaimedAt(store.start, store.history, k, candidate, now)
  }

  ghost predicate ClaimedAt(start: Cache, history: seq<Step>, k: nat, candidate: Candidate, now: Time)
    requires k < |history|
  {
    && history[k].Claim? && history[k].did == candidate.did && history[k].now == now
    && IssuedAt(Run(start, history[..k + 1]), candidate)
  }

  lemma ClaimedNow(store: IdentityCacheStore, candidate: Candidate, now: Time)
    requires store.Valid() && IssuedAt(store.State(), candidate) && store.history != []
    requires var last := store.history[|store.history| - 1];
      last.Claim? && last.did == candidate.did && last.now == now
    ensures ClaimedAt(store.start, store.history, |store.history| - 1, candidate, now)
  {
    store.StateIsReached();
    assert store.history[..|store.history|] == store.history;
  }

  lemma ClaimStands(store: IdentityCacheStore, history: seq<Step>, candidate: Candidate, now: Time)
    requires history != [] && history <= store.history
    requires ClaimedAt(store.start, history, |history| - 1, candidate, now)
    ensures ClaimedAt(store.start, store.history, |history| - 1, candidate, now)
  {
    assert store.history[..|history|] == history[..|history|];
  }

  // --- RefreshCurrentHandle ------------------------------------------------

  datatype RefreshResult = Refreshed | NotRefreshed | ClaimRefused | LookupFailed | CommitRefused

  method RefreshCurrentHandle(
    store: IdentityCacheStore, resolver: Resolver, invalidator: Invalidator, did: Did, now: Time)
    returns (result: RefreshResult, ghost lookups: Lookups, ghost claimed: Option<Candidate>)
    requires store.Valid() && AllCovered(store, invalidator)
    modifies store, resolver, invalidator
    ensures store.Valid() && AllCovered(store, invalidator)
    ensures old(store.changes) <= store.changes
    ensures !result.Refreshed? ==> store.changes == old(store.changes)
    ensures claimed.Some? ==> claimed.value.did == did && ClaimedSince(store, |old(store.history)|, claimed.value, now)
    ensures match result
            case Refreshed => claimed.Some?
            case ClaimRefused => did in store.terminal
            case LookupFailed =>
              Answered(resolver, old(resolver.lookups), did, lookups) && Authoritative(did, lookups).Unresolved?
            case NotRefreshed => claimed.Some? && !StillCurrent(store.State(), claimed.value)
            case CommitRefused => did in store.terminal
    ensures result.Refreshed? ==>
              && Authoritative(did, lookups).Resolved?
              && did in store.rows && store.rows[did] == Row(Authoritative(did, lookups).handle, now)
              && Answered(resolver, old(resolver.lookups), did, lookups)
  {
    lookups := Lookups(HandleError, DidError);
    store.Yield();
    var candidate := store.ClaimRefreshTx(did, now);
    claimed := candidate;
    if candidate.None? {
      return ClaimRefused, lookups, None;
    }
    ClaimedNow(store, candidate.value, now);
    ghost var history := store.history;
    var resolution;
    resolution, lookups := ResolveAuthoritative(resolver, did);
    if resolution.Unresolved? {
      return LookupFailed, lookups, claimed;
    }
    var attempted := Complete(store, invalidator, candidate.value, resolution.handle, now, true,
                              Commit(candidate.value, lookups, now));
    ClaimStands(store, history, candidate.value, now);
    result := match attempted
              case CommittedAndInvalidated => Refreshed
              case Overtaken => NotRefreshed
              case Stopped => CommitRefused;
  }

  // --- ResolveMention ------------------------------------------------------

  datatype MentionResult = Found(did: Did, row: Row) | MentionNotFound | IdentityUnavailable | MentionRefused

  predicate NotAMember(c: Cache, did: Did) {
    did == "" || did !in c.profiles || did in c.terminal
  }

  // It is found whenever both directions confirm it for a visible member, the call is
  // authorized and nobody overtakes it: each other answer has its reason.
  method ResolveMention(store: IdentityCacheStore, resolver: Resolver, invalidator: Invalidator,
                        handle: Handle, now: Time, visible: bool, authorized: bool)
    returns (result: MentionResult, ghost lookups: Lookups, ghost claimed: Option<Candidate>)
    requires store.Valid() && AllCovered(store, invalidator)
    modifies store, resolver, invalidator
    ensures store.Valid() && AllCovered(store, invalidator)
    ensures old(store.changes) <= store.changes
    ensures !result.Found? ==> store.changes == old(store.changes)
    ensures result.Found? ==>
              && visible && authorized && result.row == Row(handle, now) && handle.Named?
              && ConfirmedBothWays(result.did, handle, lookups)
              && lookups.backward == resolver.onDid(old(resolver.lookups), handle)
              && lookups.forward == resolver.onHandle(old(resolver.lookups) + 1, result.did)
              && result.did in store.rows && store.rows[result.did] == result.row
    ensures !result.Found? && handle.Named? ==> lookups.backward == resolver.onDid(old(resolver.lookups), handle)
    ensures claimed.Some? ==>
              && lookups.backward == DidFound(claimed.value.did)
              && lookups.forward == resolver.onHandle(old(resolver.lookups) + 1, claimed.value.did)
              && ClaimedSince(store, |old(store.history)|, claimed.value, now)
    ensures match result
            case Found(_, _) => true
            case MentionNotFound =>
              || handle.Invalid? || lookups.backward.DefinitelyNot?
              || (lookups.backward.DidFound? && NotAMember(store.State(), lookups.backward.did))
              || (claimed.Some? && lookups.forward.HandleFound? && lookups.forward.handle != handle)
            case IdentityUnavailable =>
              || lookups.backward.DidError?
              || (claimed.Some? && (lookups.forward.HandleError? || !StillCurrent(store.State(), claimed.value)))
            case MentionRefused =>
              !visible || !authorized || (lookups.backward.DidFound? && lookups.backward.did in store.terminal)
  {
    lookups, claimed := Lookups(HandleError, DidError), None;
    if handle.Invalid? {
      return MentionNotFound, lookups, None;
    }
    var backward := resolver.ResolveDid(handle);
    lookups := Lookups(HandleError, backward);
    if backward.DefinitelyNot? {
      return MentionNotFound, lookups, None;
    }
    if backward.DidError? {
      return IdentityUnavailable, lookups, None;
    }
    var did := backward.did;
    if did == "" {
      return MentionNotFound, lookups, None;
    }
    store.Yield();
    if did !in store.profiles || did in store.terminal {
      return MentionNotFound, lookups, None;
    }
    if !visible {
      return MentionRefused, lookups, None;
    }
    store.Yield();
    var candidate := store.ClaimRefreshTx(did, now);
    if candidate.None? {
      return MentionRefused, lookups, None;
    }
    claimed := candidate;
    ClaimedNow(store, candidate.value, now);
    ghost var history := store.history;
    var forward := resolver.ResolveHandle(did);
    lookups := Lookups(forward, backward);
    if forward.HandleError? {
      return IdentityUnavailable, lookups, claimed;
    }
    if forward.handle != handle {
      return MentionNotFound, lookups, claimed;
    }
    var attempted := Complete(store, invalidator, candidate.value, handle, now, authorized,
                              CommitMention(candidate.value, handle, lookups, now, authorized));
    ClaimStands(store, history, candidate.value, now);
    result := match attempted
              case CommittedAndInvalidated => Found(did, Row(handle, now))
              case Overtaken => IdentityUnavailable
              case Stopped => MentionRefused;
  }

  // --- ProcessBatch --------------------------------------------------------

  predicate Eligible(c: Cache, did: Did, now: Time) {
    && did in c.profiles && did !in c.terminal
    && ((did in c.queue && c.queue[did].tapEvent.Some?) || did !in c.rows || c.rows[did].resolvedAt < now - FRESHNESS)
    && (did in c.queue ==> c.queue[did].nextAttemptAt <= now)
  }

  // COALESCE(next_attempt_at, resolved_at, '-infinity').
  function Waiting(c: Cache, did: Did): Option<Time> {
    if did in c.queue then Some(c.queue[did].nextAttemptAt)
    else if did in c.rows then Some(c.rows[did].resolvedAt) else None
  }

  predicate NoLater(a: Option<Time>, b: Option<Time>) {
    a.None? || (b.Some? && a.value <= b.value)
  }

  // A batch takes eligible DIDs, each once, longest waiting first.
  ghost predicate IsBatch(c: Cache, dids: seq<Did>, limit: nat, now: Time) {
    && |dids| <= limit
    && (forall did <- dids :: Eligible(c, did, now))
    && (forall i, j :: 0 <= i < j < |dids| ==> dids[i] != dids[j] && NoLater(Waiting(c, dids[i]), Waiting(c, dids[j])))
    && (forall did <- dids, other :: Eligible(c, other, now) && other !in dids
           ==> NoLater(Waiting(c, did), Waiting(c, other)))
    && (|dids| < limit ==> forall other :: Eligible(c, other, now) ==> other in dids)
  }

  method SelectDids(store: IdentityCacheStore, limit: nat, now: Time) returns (dids: seq<Did>)
    ensures IsBatch(store.State(), dids, limit, now)
  {
    dids := [];
    var rest := store.profiles;
    while |dids| < limit
      invariant |dids| <= limit && rest <= store.profiles
      invariant forall did :: did in store.profiles ==> (did in rest <==> did !in dids)
      invariant forall did <- dids :: Eligible(store.State(), did, now)
      invariant forall i, j :: 0 <= i < j < |dids| ==>
                  dids[i] != dids[j] && NoLater(Waiting(store.State(), dids[i]), Waiting(store.State(), dids[j]))
      invariant forall did <- dids, other :: Eligible(store.State(), other, now) && other !in dids
                  ==> NoLater(Waiting(store.State(), did), Waiting(store.State(), other))
      decreases limit - |dids|
    {
      var next := LongestWaiting(store, rest, now);
      if next.None? {
        return;
      }
      dids := dids + [next.value];
      rest := rest - {next.value};
    }
  }

  method LongestWaiting(store: IdentityCacheStore, dids: set<Did>, now: Time) returns (first: Option<Did>)
    ensures first.Some? ==>
              && first.value in dids && Eligible(store.State(), first.value, now)
              && forall did :: did in dids && Eligible(store.State(), did, now)
                   ==> NoLater(Waiting(store.State(), first.value), Waiting(store.State(), did))
    ensures first.None? ==> forall did :: did in dids ==> !Eligible(store.State(), did, now)
  {
    var rest := dids;
    first := None;
    while rest != {}
      invariant rest <= dids
      invariant first.Some? ==> first.value in dids && Eligible(store.State(), first.value, now)
      invariant forall did :: did in dids && did !in rest && Eligible(store.State(), did, now)
                  ==> first.Some? && NoLater(Waiting(store.State(), first.value), Waiting(store.State(), did))
      decreases |rest|
    {
      var did :| did in rest;
      rest := rest - {did};
      if Eligible(store.State(), did, now)
         && (first.None? || NoLater(Waiting(store.State(), did), Waiting(store.State(), first.value))) {
        first := Some(did);
      }
    }
  }

  // refreshCandidates: the batch, each DID with the version its queue row has once
  // every missing row is there.
  method RefreshCandidates(store: IdentityCacheStore, limit: nat, now: Time) returns (candidates: seq<Candidate>)
    requires store.Valid()
    modifies store
    ensures store.Valid() && store.changes == old(store.changes) && store.rows == old(store.rows)
    ensures old(store.history) <= store.history
    ensures IsBatch(old(store.State()), DidsOf(candidates), limit, now)
    ensures forall candidate <- candidates :: IssuedAt(store.State(), candidate)
    ensures forall did :: did in old(store.queue) ==> did in store.queue && store.queue[did] == old(store.queue)[did]
  {
    var dids := SelectDids(store, limit, now);
    for i := 0 to |dids|
      invariant store.Valid() && store.changes == old(store.changes) && store.rows == old(store.rows)
      invariant old(store.history) <= store.history
      invariant forall did :: did in old(store.queue)
                  ==> did in store.queue && store.queue[did] == old(store.queue)[did]
      invariant forall j :: 0 <= j < i ==> dids[j] in store.queue
    {
      store.EnsureTx(dids[i], now);
    }
    candidates := [];
    for i := 0 to |dids|
      invariant |candidates| == i
      invariant forall j :: 0 <= j < i ==> candidates[j].did == dids[j] && IssuedAt(store.State(), candidates[j])
    {
      candidates := candidates + [CandidateOf(store.State(), dids[i])];
    }
    assert DidsOf(candidates) == dids;
  }

  function DidsOf(candidates: seq<Candidate>): (dids: seq<Did>)
    ensures |dids| == |candidates| && forall i :: 0 <= i < |dids| ==> dids[i] == candidates[i].did
  {
    if candidates == [] then [] else DidsOf(candidates[..|candidates| - 1]) + [candidates[|candidates| - 1].did]
  }

  class RefreshProcessor {
    const store: IdentityCacheStore
    const resolver: Resolver
    const invalidator: Invalidator
    const batchSize: nat
    const retryDelay: int

    constructor (
      store: IdentityCacheStore, resolver: Resolver, invalidator: Invalidator, batchSize: nat, retryDelay: int)
      ensures this.store == store && this.resolver == resolver && this.invalidator == invalidator
      ensures this.batchSize == batchSize && this.retryDelay == retryDelay
    {
      this.store, this.resolver, this.invalidator := store, resolver, invalidator;
      this.batchSize, this.retryDelay := batchSize, retryDelay;
    }

    // ProcessBatch. Every candidate's answer is acted on: without one its next attempt
    // is put off, with one it is committed unless overtaken. The batch stops only at
    // an owner that has become terminal; every commit up to there has been
    // invalidated.
    method ProcessBatch(now: Time)
      returns (processed: nat, failed: bool, ghost listing: nat, ghost issued: nat,
               ghost candidates: seq<Candidate>, ghost answers: seq<Lookups>)
      requires store.Valid() && AllCovered(store, invalidator)
      modifies store, resolver, invalidator
      ensures store.Valid() && AllCovered(store, invalidator)
      ensures old(store.changes) <= store.changes && |store.changes| <= |old(store.changes)| + batchSize
      ensures |old(store.history)| <= listing <= issued <= |store.history|
      ensures IsBatch(Run(store.start, store.history[..listing]), DidsOf(candidates), batchSize, now)
      ensures forall candidate <- candidates :: IssuedAt(Run(store.start, store.history[..issued]), candidate)
      ensures |answers| <= |candidates| && AllHandled(store.history, issued, candidates, answers, now)
      ensures !failed ==> processed == |candidates| == |answers|
      ensures failed ==> processed == 0 && 0 < |answers| && candidates[|answers| - 1].did in store.terminal
    {
      store.Yield();
      store.StateIsReached();
      ghost var listed := store.history;
      listing := |listed|;
      var batch := RefreshCandidates(store, batchSize, now);
      store.StateIsReached();
      ghost var ensured := store.history;
      issued, candidates, answers := |ensured|, batch, [];
      for i := 0 to |batch|
        invariant store.Valid() && AllCovered(store, invalidator)
        invariant old(store.changes) <= store.changes && |store.changes| <= |old(store.changes)| + i
        invariant listed <= ensured <= store.history
        invariant |answers| == i && AllHandled(store.history, issued, batch, answers, now)
      {
        ghost var history, lookups := store.history, Lookups(HandleError, DidError);
        var stopped;
        stopped, lookups := ProcessCandidate(batch[i], now);
        HandledGrows(history, store.history, issued, batch, answers, lookups, now);
        answers := answers + [lookups];
        if stopped {
          assert store.history[..listing] == listed && store.history[..issued] == ensured;
          return 0, true, listing, issued, batch, answers;
        }
      }
      assert store.history[..listing] == listed && store.history[..issued] == ensured;
      processed, failed := |batch|, false;
    }

    // What the resolver's answer for this candidate calls for.
    ghost function StepFor(candidate: Candidate, lookups: Lookups, now: Time): Step {
      if Authoritative(candidate.did, lookups).Unresolved? then Postpone(candidate, now + retryDelay)
      else Commit(candidate, lookups, now)
    }

    // Each answer was one of the resolver's, and its step was taken since.
    ghost predicate AllHandled(history: seq<Step>, since: nat, candidates: seq<Candidate>, answers: seq<Lookups>,
                               now: Time)
    {
      && |answers| <= |candidates|
      && forall i :: 0 <= i < |answers| ==> IsHandled(history, since, candidates[i], answers[i], now)
    }

    ghost predicate IsHandled(history: seq<Step>, since: nat, candidate: Candidate, lookups: Lookups, now: Time) {
      && (exists n :: Answered(resolver, n, candidate.did, lookups))
      && exists k :: since <= k < |history| && history[k] == StepFor(candidate, lookups, now)
    }

    lemma HandledGrows(
      history: seq<Step>, longer: seq<Step>, since: nat, candidates: seq<Candidate>, answers: seq<Lookups>,
      lookups: Lookups, now: Time)
      requires since <= |history| && history <= longer && |answers| < |candidates|
      requires AllHandled(history, since, candidates, answers, now)
      requires IsHandled(longer, |history|, candidates[|answers|], lookups, now)
      ensures AllHandled(longer, since, candidates, answers + [lookups], now)
    {
      forall i | 0 <= i <= |answers|
        ensures IsHandled(longer, since, candidates[i], (answers + [lookups])[i], now)
      {
        if i < |answers| {
          assert IsHandled(history, since, candidates[i], answers[i], now);
          var k :| since <= k < |history| && history[k] == StepFor(candidates[i], answers[i], now);
          assert longer[k] == history[k];
        }
      }
    }

    method ProcessCandidate(candidate: Candidate, now: Time) returns (stopped: bool, ghost lookups: Lookups)
      requires store.Valid() && AllCovered(store, invalidator)
      modifies store, resolver, invalidator
      ensures store.Valid() && AllCovered(store, invalidator)
      ensures old(store.changes) <= store.changes && |store.changes| <= |old(store.changes)| + 1
      ensures stopped ==> candidate.did in store.terminal
      ensures old(store.history) <= store.history
      ensures Answered(resolver, old(resolver.lookups), candidate.did, lookups)
      ensures IsHandled(store.history, |old(store.history)|, candidate, lookups, now)
    {
      var resolution;
      resolution, lookups := ResolveAuthoritative(resolver, candidate.did);
      if resolution.Unresolved? {
        store.Yield();
        var deferred := store.DeferRefreshTx(candidate, now + retryDelay);
        assert store.history[|store.history| - 1] == StepFor(candidate, lookups, now);
        return false, lookups;
      }
      var attempted := Complete(store, invalidator, candidate, resolution.handle, now, true,
        Commit(candidate, lookups, now));
      assert store.history[|store.history| - 1] == StepFor(candidate, lookups, now);
      stopped := attempted.Stopped?;
    }
  }

  // --- A DID that was put off ----------------------------------------------

  predicate WaitsUntil(c: Cache, did: Did, until: Time) {
    did in c.queue && until <= c.queue[did].nextAttemptAt
  }

  // The step claims or reports the DID, uses up or purges its row, or gives it an
  // earlier time.
  predicate Rouses(c: Cache, step: Step, did: Did, until: Time) {
    match step
    case Claim(other, _, _) => other == did && did !in c.terminal
    case Tap(other, _, _, _) => other == did
    case Commit(candidate, _, _) => candidate.did == did && Commits(c, step)
    case CommitMention(candidate, _, _, _, _) => candidate.did == did && Commits(c, step)
    case Postpone(candidate, at) => candidate.did == did && StillCurrent(c, candidate) && at < until
    case Purge(other) => other == did
    case _ => false
  }

  ghost predicate NothingRouses(c: Cache, steps: seq<Step>, did: Did, until: Time) {
    forall k :: 0 <= k < |steps| ==> !Rouses(Run(c, steps[..k]), steps[k], did, until)
  }

  lemma StepLetsWait(c: Cache, step: Step, did: Did, until: Time)
    requires WaitsUntil(c, did, until) && !Rouses(c, step, did, until)
    ensures WaitsUntil(Apply(c, step), did, until)
  {
  }

  lemma {:induction false} WaitGoesOn(c: Cache, steps: seq<Step>, did: Did, until: Time)
    requires WaitsUntil(c, did, until) && NothingRouses(c, steps, did, until)
    ensures WaitsUntil(Run(c, steps), did, until)
    decreases |steps|
  {
    if steps != [] {
      var n := |steps| - 1;
      assert forall k :: 0 <= k < n ==> steps[..n][..k] == steps[..k];
      WaitGoesOn(c, steps[..n], did, until);
      StepLetsWait(Run(c, steps[..n]), steps[n], did, until);
    }
  }

  // A DID whose answer failed is in no batch before its retry is due, over any run in
  // which nobody claims or reports it and its queue row stays.
  lemma PutOffIsInNoBatch(
    c: Cache, candidate: Candidate, until: Time, steps: seq<Step>, dids: seq<Did>, limit: nat, now: Time)
    requires StillCurrent(c, candidate)
    requires NothingRouses(Apply(c, Postpone(candidate, until)), steps, candidate.did, until)
    requires now < until
    requires IsBatch(Run(Apply(c, Postpone(candidate, until)), steps), dids, limit, now)
    ensures candidate.did !in dids
  {
    DeferEffect(c, candidate, until);
    var later := Run(Apply(c, Postpone(candidate, until)), steps);
    WaitGoesOn(Apply(c, Postpone(candidate, until)), steps, candidate.did, until);
    assert !Eligible(later, candidate.did, now);
  }

  // The order of a batch: DIDs without any row, then by the time they wait for.
  lemma LongerWaitsGoFirst(c: Cache, a: Did, b: Did)
    ensures a !in c.queue && a !in c.rows ==> NoLater(Waiting(c, a), Waiting(c, b))
    ensures a in c.queue && b in c.queue ==>
              (NoLater(Waiting(c, a), Waiting(c, b)) <==> c.queue[a].nextAttemptAt <= c.queue[b].nextAttemptAt)
    ensures a in c.queue && b !in c.queue ==>
              (NoLater(Waiting(c, a), Waiting(c, b))
               <==> b in c.rows && c.queue[a].nextAttemptAt <= c.rows[b].resolvedAt)
    ensures a !in c.queue && a in c.rows && b !in c.queue && b in c.rows ==>
              (NoLater(Waiting(c, a), Waiting(c, b)) <==> c.rows[a].resolvedAt <= c.rows[b].resolvedAt)
  {
  }

  // A member's row is refreshed exactly when it is not held back and either was
  // reported, is missing, or is no longer served as fresh.
  lemma EligibleExactly(c: Cache, did: Did, now: Time)
    ensures Eligible(c, did, now) <==>
            && did in c.profiles && did !in c.terminal
            && !WaitsUntil(c, did, now + 1)
            && (|| (did in c.queue && c.queue[did].tapEvent.Some?)
                || did !in c.rows
                || (c.rows[did].handle.Named? && !FreshMatch(c, c.rows[did].handle, did, now))
                || (c.rows[did].handle.Invalid? && c.rows[did].resolvedAt < now - FRESHNESS))
  {
  }
}
