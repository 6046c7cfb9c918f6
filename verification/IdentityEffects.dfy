// What each transaction of the identity cache leaves behind, row by row, and when
// it does.
module IdentityEffects {
  import opened Wrappers
  import opened IdentityCache

  // No other DID's queue row changed, and nothing but the queue did.
  ghost predicate OnlyQueueRow(before: Cache, after: Cache, did: Did) {
    && (forall other :: other != did ==>
          && (other in after.queue <==> other in before.queue)
          && (other in before.queue ==> after.queue[other] == before.queue[other]))
    && after.rows == before.rows && after.profiles == before.profiles && after.terminal == before.terminal
  }

  // The row is new: due at once, with the version given and the next incarnation.
  predicate NewRow(before: Cache, after: Cache, did: Did, now: Time, version: int, event: Option<int>) {
    && did !in before.queue && did in after.queue && after.inserted == before.inserted + 1
    && after.queue[did].version == version && after.queue[did].incarnation == before.inserted
    && after.queue[did].nextAttemptAt == now && after.queue[did].attemptCount == 0 && after.queue[did].tapEvent == event
  }

  // The row is one version on, due at once and without failed attempts.
  predicate Renewed(before: Cache, after: Cache, did: Did, now: Time, event: Option<int>) {
    && did in before.queue && did in after.queue && after.inserted == before.inserted
    && after.queue[did].version == before.queue[did].version + 1
    && after.queue[did].incarnation == before.queue[did].incarnation
    && after.queue[did].nextAttemptAt == now && after.queue[did].attemptCount == 0 && after.queue[did].tapEvent == event
  }

  // A claim renews the row or makes one, and hands out what the row then says.
  ghost predicate ClaimedIn(before: Cache, after: Cache, did: Did, now: Time, version: int, candidate: Candidate) {
    && OnlyQueueRow(before, after, did)
    && (if did in before.queue then Renewed(before, after, did, now, before.queue[did].tapEvent)
        else NewRow(before, after, did, now, version, None))
    && candidate.did == did && candidate.version == after.queue[did].version
    && candidate.incarnation == after.queue[did].incarnation && candidate.tapEvent == after.queue[did].tapEvent
    && candidate.resolvedAt == (if did in before.rows then Some(before.rows[did].resolvedAt) else None)
  }

  lemma ClaimEffect(c: Cache, did: Did, now: Time, insertAs: int)
    ensures var (after, candidate) := ClaimRefresh(c, did, now, insertAs);
      && (candidate.Some? <==> did !in c.terminal)
      && if candidate.Some? then ClaimedIn(c, after, did, now, insertAs, candidate.value) else after == c
  {
  }

  lemma EnsureEffect(c: Cache, did: Did, now: Time, insertAs: int)
    ensures var after := Ensured(c, did, now, insertAs);
      if did in c.queue then after == c
      else OnlyQueueRow(c, after, did) && NewRow(c, after, did, now, insertAs, None)
  {
  }

  lemma ReportEffect(c: Cache, did: Did, event: int, now: Time, insertAs: int)
    ensures var after := TapEnqueue(c, did, event, now, insertAs);
      && OnlyQueueRow(c, after, did)
      && if did in c.queue then Renewed(c, after, did, now, Some(event))
         else NewRow(c, after, did, now, insertAs, Some(event))
  {
  }

  // The candidate's version is still the row's.
  predicate StillCurrent(c: Cache, candidate: Candidate) {
    candidate.did in c.queue && c.queue[candidate.did].version == candidate.version
  }

  // The row keeps its version, and waits after one attempt more.
  ghost predicate PutOff(before: Cache, after: Cache, did: Did, until: Time) {
    && OnlyQueueRow(before, after, did) && after.inserted == before.inserted
    && did in before.queue && did in after.queue
    && after.queue[did]
         == before.queue[did].(nextAttemptAt := until, attemptCount := before.queue[did].attemptCount + 1)
  }

  lemma DeferEffect(c: Cache, candidate: Candidate, until: Time)
    ensures var (after, deferred) := DeferRefresh(c, candidate, until);
      && (deferred <==> StillCurrent(c, candidate))
      && if deferred then PutOff(c, after, candidate.did, until) else after == c
  {
  }

  // The DID has the handle from now on, whoever else had it has none, and every
  // other row is as it was; the queue row is used up.
  ghost predicate HandleRecorded(before: Cache, after: Cache, did: Did, handle: Handle, at: Time) {
    && did in after.rows && after.rows[did] == Row(handle, at)
    && (forall other :: other != did ==>
          && (other in after.rows <==> other in before.rows)
          && (other in before.rows ==>
                after.rows[other] == if handle.Named? && before.rows[other].handle == handle then Row(Invalid, at)
                                     else before.rows[other]))
    && did !in after.queue
    && (forall other :: other != did ==>
          && (other in after.queue <==> other in before.queue)
          && (other in before.queue ==> after.queue[other] == before.queue[other]))
    && after.profiles == before.profiles && after.terminal == before.terminal && after.inserted == before.inserted
  }

  lemma CompleteEffect(c: Cache, candidate: Candidate, handle: Handle, at: Time)
    ensures var (after, completion) := CompleteRefresh(c, candidate, handle, at);
      && completion == (if candidate.did in c.terminal then Refused
                        else if StillCurrent(c, candidate) then Committed else Superseded)
      && if completion == Committed then HandleRecorded(c, after, candidate.did, handle, at) else after == c
  {
  }
}
