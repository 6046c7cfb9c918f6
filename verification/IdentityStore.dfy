// The identity cache's store: rows and queue updated in place, with the
// invalidations that each commit calls for.
module IdentityStore {
  import opened Wrappers
  import opened IdentityCache
  import opened IdentityFencing
  import opened IdentityEffects

  // What a commit reports: the DID written, its old and new handle, and the DIDs
  // that lost the new one.
  class RefreshCommit {
    var did: Did
    var handles: seq<Handle>
    var displaced: seq<Did>

    constructor ()
      ensures handles == [] && displaced == []
    {
      did, handles, displaced := "", [], [];
    }
  }

  datatype Invalidation = Invalidation(did: Did, handles: seq<Handle>)

  class Invalidator {
    var calls: seq<Invalidation>

    constructor ()
      ensures calls == []
    {
      calls := [];
    }

    method InvalidateIdentity(did: Did, handles: seq<Handle>)
      modifies this
      ensures calls == old(calls) + [Invalidation(did, handles)]
    {
      calls := calls + [Invalidation(did, handles)];
    }
  }

  // --- What a commit must invalidate ---------------------------------------

  datatype Change = Change(before: map<Did, Row>, after: map<Did, Row>)

  predicate HandleChanged(change: Change, did: Did) {
    did in change.after && (did !in change.before || change.before[did].handle != change.after[did].handle)
  }

  predicate CallFor(calls: seq<Invalidation>, did: Did, handle: Handle) {
    exists call <- calls :: call.did == did && handle in call.handles
  }

  // Every DID whose handle changed is invalidated with the handle it had and the
  // handle it has.
  ghost predicate Covers(calls: seq<Invalidation>, change: Change) {
    forall did :: HandleChanged(change, did) ==>
      && (did in change.before && change.before[did].handle.Named? ==> CallFor(calls, did, change.before[did].handle))
      && (change.after[did].handle.Named? ==> CallFor(calls, did, change.after[did].handle))
  }

  // Nobody is invalidated but the DID written and the DIDs whose handle changed.
  ghost predicate OnlyChanged(calls: seq<Invalidation>, change: Change, did: Did) {
    forall call <- calls :: call.did == did || HandleChanged(change, call.did)
  }

  lemma CoveredByMore(calls: seq<Invalidation>, more: seq<Invalidation>, change: Change)
    requires Covers(calls, change)
    ensures Covers(calls + more, change)
  {
    forall did | HandleChanged(change, did)
      ensures did in change.before && change.before[did].handle.Named?
              ==> CallFor(calls + more, did, change.before[did].handle)
      ensures change.after[did].handle.Named? ==> CallFor(calls + more, did, change.after[did].handle)
    {
      assert forall call <- calls :: call in calls + more;
    }
  }

  predicate Unsealed(seal: bool) {
    true
  }

  class IdentityCacheStore {
    var rows: map<Did, Row>
    var queue: map<Did, Refresh>
    var profiles: set<Did>
    var terminal: set<Did>
    var inserted: nat

    const versionOf: nat -> int        // the version the database gives the n-th queue row
    const others: nat -> seq<Step>     // what others do before this caller's n-th transaction
    var turn: nat

    const start: Cache
    ghost var history: seq<Step>
    ghost var recorded: Cache
    ghost var changes: seq<Change>     // this caller's commits

    function State(): Cache
      reads this
    {
      Cache(rows, queue, profiles, terminal, inserted)
    }

    ghost predicate Valid()
      reads this
    {
      Recorded() && State() == recorded
    }

    ghost predicate Recorded()
      reads this`history, this`recorded
    {
      forall seal: bool {:trigger Unsealed(seal)} :: Unsealed(seal) ==> recorded == Run(start, history)
    }

    lemma StateIsReached()
      requires Valid()
      ensures State() == Run(start, history)
    {
      assert Unsealed(true);
    }

    constructor (c: Cache, versionOf: nat -> int, others: nat -> seq<Step>)
      ensures Valid() && State() == c && history == [] && changes == [] && turn == 0
      ensures this.versionOf == versionOf && this.others == others
    {
      rows, queue, profiles, terminal, inserted := c.rows, c.queue, c.profiles, c.terminal, c.inserted;
      start, history, recorded, changes := c, [], c, [];
      this.versionOf, this.others, turn := versionOf, others, 0;
    }

    ghost method Took(step: Step)
      requires Recorded() && State() == Apply(recorded, step)
      modifies this`history, this`recorded
      ensures Valid() && history == old(history) + [step]
    {
      assert Unsealed(true);
      var longer := history + [step];
      assert longer[..|longer| - 1] == history;
      history, recorded := longer, State();
    }

    method OtherStep(step: Step)
      requires Valid()
      modifies this`rows, this`queue, this`profiles, this`terminal, this`inserted, this`history, this`recorded
      ensures Valid() && history == old(history) + [step]
    {
      var c := Apply(State(), step);
      rows, queue, profiles, terminal, inserted := c.rows, c.queue, c.profiles, c.terminal, c.inserted;
      Took(step);
    }

    method Yield()
      requires Valid()
      modifies this
      ensures Valid() && turn == old(turn) + 1 && changes == old(changes)
      ensures history == old(history) + others(old(turn))
    {
      var steps := others(turn);
      ghost var before := history;
      var i := 0;
      while i < |steps|
        invariant i <= |steps| && Valid() && turn == old(turn) && changes == old(changes)
        invariant history == before + steps[..i]
      {
        OtherStep(steps[i]);
        assert steps[..i + 1] == steps[..i] + [steps[i]];
        i := i + 1;
      }
      assert steps[..i] == steps;
      turn := turn + 1;
    }

    method ClaimRefreshTx(did: Did, now: Time) returns (candidate: Option<Candidate>)
      requires Valid()
      modifies this
      ensures Valid() && turn == old(turn) && changes == old(changes)
      ensures (State(), candidate) == ClaimRefresh(old(State()), did, now, versionOf(old(inserted)))
      ensures candidate.Some? <==> did !in terminal
      ensures if candidate.Some?
              then ClaimedIn(old(State()), State(), did, now, versionOf(old(inserted)), candidate.value)
              else State() == old(State())
      ensures rows == old(rows)
      ensures history == old(history) + [Claim(did, now, versionOf(old(inserted)))]
    {
      ClaimEffect(State(), did, now, versionOf(inserted));
      ghost var step := Claim(did, now, versionOf(inserted));
      candidate := None;
      if did !in terminal {
        if did in queue {
          var r := queue[did];
          queue := queue[did := Refresh(r.version + 1, r.incarnation, now, 0, r.tapEvent)];
        } else {
          queue := queue[did := Refresh(versionOf(inserted), inserted, now, 0, None)];
          inserted := inserted + 1;
        }
        var resolvedAt := if did in rows then Some(rows[did].resolvedAt) else None;
        candidate := Some(Candidate(did, resolvedAt, queue[did].tapEvent, queue[did].version, queue[did].incarnation));
      }
      Took(step);
    }

    // INSERT ... ON CONFLICT(did) DO NOTHING.
    method EnsureTx(did: Did, now: Time)
      requires Valid()
      modifies this`queue, this`inserted, this`history, this`recorded
      ensures Valid() && State() == Ensured(old(State()), did, now, versionOf(old(inserted)))
      ensures if did in old(queue) then State() == old(State())
              else OnlyQueueRow(old(State()), State(), did)
                   && NewRow(old(State()), State(), did, now, versionOf(old(inserted)), None)
      ensures history == old(history) + [Ensure(did, now, versionOf(old(inserted)))]
    {
      EnsureEffect(State(), did, now, versionOf(inserted));
      ghost var step := Ensure(did, now, versionOf(inserted));
      if did !in queue {
        queue := queue[did := Refresh(versionOf(inserted), inserted, now, 0, None)];
        inserted := inserted + 1;
      }
      Took(step);
    }

    method DeferRefreshTx(candidate: Candidate, nextAttempt: Time) returns (deferred: bool)
      requires Valid()
      modifies this
      ensures Valid() && turn == old(turn) && changes == old(changes)
      ensures (State(), deferred) == DeferRefresh(old(State()), candidate, nextAttempt)
      ensures deferred <==> StillCurrent(old(State()), candidate)
      ensures if deferred then PutOff(old(State()), State(), candidate.did, nextAttempt) else State() == old(State())
      ensures history == old(history) + [Postpone(candidate, nextAttempt)]
    {
      DeferEffect(State(), candidate, nextAttempt);
      deferred := candidate.did in queue && queue[candidate.did].version == candidate.version;
      if deferred {
        var r := queue[candidate.did];
        queue := queue[candidate.did := r.(nextAttemptAt := nextAttempt, attemptCount := r.attemptCount + 1)];
      }
      Took(Postpone(candidate, nextAttempt));
    }

    // writeAuthoritativeTx. The commit grows by the old handle, the displaced
    // owners and the new handle.
    method WriteAuthoritative(did: Did, handle: Handle, at: Time, commit: RefreshCommit)
      requires commit.handles == [] && commit.displaced == []
      modifies this`rows, commit
      ensures rows == Written(old(rows), did, handle, at)
      ensures commit.did == did
      ensures commit.handles == (if did in old(rows) then [old(rows)[did].handle] else []) + [handle]
      ensures forall d :: d in commit.displaced <==> Displaces(old(rows), did, handle, d)
    {
      if did in rows {
        commit.handles := commit.handles + [rows[did].handle];
      }
      if handle.Named? {
        ReleaseHandle(did, handle, at, commit);
      }
      assert rows == Released(old(rows), did, handle, at);
      rows := rows[did := Row(handle, at)];
      commit.did := did;
      commit.handles := commit.handles + [handle];
    }

    // UPDATE ... WHERE handle_lower=$2 AND did<>$1 RETURNING did, row by row.
    method ReleaseHandle(did: Did, handle: Handle, at: Time, commit: RefreshCommit)
      requires handle.Named? && commit.displaced == []
      modifies this`rows, commit`displaced
      ensures rows == Released(old(rows), did, handle, at)
      ensures forall d :: d in commit.displaced <==> Displaces(old(rows), did, handle, d)
    {
      var rest := rows.Keys;
      while rest != {}
        invariant rest <= rows.Keys == old(rows).Keys
        invariant forall d :: d in rest ==> rows[d] == old(rows)[d]
        invariant forall d :: d in rows && d !in rest ==> rows[d] == Released(old(rows), did, handle, at)[d]
        invariant forall d :: d in commit.displaced <==> d !in rest && Displaces(old(rows), did, handle, d)
        decreases |rest|
      {
        var d :| d in rest;
        rest := rest - {d};
        if d != did && rows[d].handle == handle {
          rows := rows[d := Row(Invalid, at)];
          commit.displaced := commit.displaced + [d];
        }
      }
    }

    method CompleteRefreshTx(candidate: Candidate, handle: Handle, at: Time, authorized: bool, ghost step: Step)
      returns (commit: RefreshCommit, completion: Completion)
      requires Valid()
      requires (step.Commit? || step.CommitMention?) && step.candidate == candidate && step.at == at
      requires WriteOf(step) == if authorized then Some(handle) else None
      modifies this
      ensures Valid() && turn == old(turn) && fresh(commit)
      ensures completion == (if !authorized then Refused else CompleteRefresh(old(State()), candidate, handle, at).1)
      ensures State() == if completion.Committed? then CompleteRefresh(old(State()), candidate, handle, at).0
              else old(State())
      ensures completion == (if !authorized || candidate.did in terminal then Refused
                             else if StillCurrent(old(State()), candidate) then Committed else Superseded)
      ensures completion.Committed? ==> HandleRecorded(old(State()), State(), candidate.did, handle, at)
      ensures history == old(history) + [step]
      ensures changes == old(changes) + if completion.Committed? then [Change(old(rows), rows)] else []
      ensures completion.Committed? ==> ReportsChange(commit, Change(old(rows), rows), handle)
    {
      CompleteEffect(State(), candidate, handle, at);
      ghost var before := rows;
      commit := new RefreshCommit();
      if !authorized || candidate.did in terminal {
        completion := Refused;
      } else if candidate.did !in queue || queue[candidate.did].version != candidate.version {
        completion := Superseded;
      } else {
        WriteAuthoritative(candidate.did, handle, at, commit);
        queue := queue - {candidate.did};
        changes := changes + [Change(before, rows)];
        completion := Committed;
      }
      Took(step);
    }
  }

  // The commit names everybody whose handle changed, and the handles involved.
  ghost predicate ReportsChange(commit: RefreshCommit, change: Change, handle: Handle)
    reads commit
  {
    && commit.did in change.after && change.after[commit.did].handle == handle
    && handle in commit.handles
    && (commit.did in change.before ==> change.before[commit.did].handle in commit.handles)
    && (forall did :: HandleChanged(change, did) && did != commit.did ==>
          did in change.before && change.before[did].handle == handle && change.after[did].handle.Invalid?)
    && (forall did :: did in commit.displaced <==> HandleChanged(change, did) && did != commit.did)
  }

  // invalidateIdentityCommit.
  method InvalidateCommit(invalidator: Invalidator, commit: RefreshCommit, ghost change: Change, ghost handle: Handle)
    requires ReportsChange(commit, change, handle)
    modifies invalidator
    ensures old(invalidator.calls) <= invalidator.calls
    ensures Covers(invalidator.calls, change)
    ensures OnlyChanged(invalidator.calls[|old(invalidator.calls)|..], change, commit.did)
  {
    ghost var n := |invalidator.calls|;
    invalidator.InvalidateIdentity(commit.did, commit.handles);
    for i := 0 to |commit.displaced|
      invariant old(invalidator.calls) <= invalidator.calls && |invalidator.calls| == n + 1 + i
      invariant invalidator.calls[n] == Invalidation(commit.did, commit.handles)
      invariant forall j :: 0 <= j < i
                  ==> invalidator.calls[n + 1 + j] == Invalidation(commit.displaced[j], commit.handles)
    {
      invalidator.InvalidateIdentity(commit.displaced[i], commit.handles);
    }
    ghost var added := invalidator.calls[n..];
    forall call | call in added
      ensures call.did == commit.did || HandleChanged(change, call.did)
    {
      var j :| 0 <= j < |added| && added[j] == call;
      assert j > 0 ==> added[j] == Invalidation(commit.displaced[j - 1], commit.handles);
    }
    forall did | HandleChanged(change, did)
      ensures did in change.before && change.before[did].handle.Named?
              ==> CallFor(invalidator.calls, did, change.before[did].handle)
      ensures change.after[did].handle.Named? ==> CallFor(invalidator.calls, did, change.after[did].handle)
    {
      if did == commit.did {
        assert invalidator.calls[n] in invalidator.calls;
      } else {
        var j :| 0 <= j < |commit.displaced| && commit.displaced[j] == did;
        assert invalidator.calls[n + 1 + j] in invalidator.calls;
      }
    }
  }
}
