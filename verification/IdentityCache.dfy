// The verified identity cache: one row per DID, and a refresh queue whose rows
// carry the version that fences overlapping refreshes.
module IdentityCache {
  import opened Wrappers

  type Did = string
  type Time = int

  // A handle in its normal form; handle.invalid is not a name.
  datatype Handle = Invalid | Named(name: string)

  datatype Row = Row(handle: Handle, resolvedAt: Time)

  // `incarnation` tells apart the rows inserted for one DID one after another.
  datatype Refresh = Refresh(version: int, incarnation: nat, nextAttemptAt: Time, attemptCount: nat,
    tapEvent: Option<int>)

  datatype Cache = Cache(
    rows: map<Did, Row>,
    queue: map<Did, Refresh>,
    profiles: set<Did>,
    terminal: set<Did>,
    inserted: nat)          // queue rows inserted so far

  datatype Candidate = Candidate(did: Did, resolvedAt: Option<Time>, tapEvent: Option<int>, version: int,
    incarnation: nat)

  // --- The resolver's word -------------------------------------------------

  datatype HandleReply = HandleFound(handle: Handle) | HandleError
  datatype DidReply = DidFound(did: Did) | DefinitelyNot | DidError

  // Both lookups of one attempt.
  datatype Lookups = Lookups(forward: HandleReply, backward: DidReply)

  datatype Resolution = Resolved(handle: Handle) | Unresolved

  // resolveAuthoritativeHandle: DID to handle, then that handle back to the DID.
  function Authoritative(did: Did, lookups: Lookups): Resolution {
    if lookups.forward.HandleError? then Unresolved
    else if lookups.forward.handle.Invalid? then Resolved(Invalid)
    else
      match lookups.backward
      case DefinitelyNot => Resolved(Invalid)
      case DidError => Unresolved
      case DidFound(back) => if back == did then Resolved(lookups.forward.handle) else Resolved(Invalid)
  }

  predicate ConfirmedBothWays(did: Did, handle: Handle, lookups: Lookups) {
    lookups.forward == HandleFound(handle) && lookups.backward == DidFound(did)
  }

  // A name is reported exactly when both directions confirm it.
  lemma AuthoritativeExactlyWhenConfirmed(did: Did, lookups: Lookups, name: string)
    ensures Authoritative(did, lookups) == Resolved(Named(name)) <==> ConfirmedBothWays(did, Named(name), lookups)
  {
  }

  // No name is reported exactly when a lookup that answers denies it, and nothing is
  // decided exactly when one that is needed fails.
  lemma DeniedOrUndecided(did: Did, lookups: Lookups)
    ensures Authoritative(did, lookups) == Resolved(Invalid) <==>
            && lookups.forward.HandleFound?
            && (|| lookups.forward.handle == Invalid || lookups.backward == DefinitelyNot
                || (lookups.backward.DidFound? && lookups.backward.did != did))
    ensures Authoritative(did, lookups) == Unresolved <==>
            || lookups.forward == HandleError
            || (lookups.forward.handle.Named? && lookups.backward == DidError)
  {
  }

  // --- Queue transactions --------------------------------------------------

  function Enqueued(c: Cache, did: Did, insertAs: int, now: Time, event: Option<int>): Cache {
    c.(queue := c.queue[did := Refresh(insertAs, c.inserted, now, 0, event)], inserted := c.inserted + 1)
  }

  function Bumped(r: Refresh, now: Time, event: Option<int>): Refresh {
    Refresh(r.version + 1, r.incarnation, now, 0, event)
  }

  function CandidateOf(c: Cache, did: Did): Candidate
    requires did in c.queue
  {
    var r := c.queue[did];
    Candidate(did, if did in c.rows then Some(c.rows[did].resolvedAt) else None, r.tapEvent, r.version, r.incarnation)
  }

  // `insertAs` is the version the database gives a new queue row.
  function ClaimRefresh(c: Cache, did: Did, now: Time, insertAs: int): (Cache, Option<Candidate>) {
    if did in c.terminal then (c, None)
    else
      var claimed := if did in c.queue then
        c.(queue := c.queue[did := Bumped(c.queue[did], now, c.queue[did].tapEvent)])
                     else Enqueued(c, did, insertAs, now, None);
      (claimed, Some(CandidateOf(claimed, did)))
  }

  // One DID of a batch: INSERT ... ON CONFLICT DO NOTHING, then its version.
  function Ensured(c: Cache, did: Did, now: Time, insertAs: int): Cache {
    if did in c.queue then c else Enqueued(c, did, insertAs, now, None)
  }

  function TapEnqueue(c: Cache, did: Did, event: int, now: Time, insertAs: int): Cache {
    if did in c.queue then c.(queue := c.queue[did := Bumped(c.queue[did], now, Some(event))])
    else Enqueued(c, did, insertAs, now, Some(event))
  }

  predicate Current(c: Cache, candidate: Candidate) {
    candidate.did in c.queue && c.queue[candidate.did].version == candidate.version
  }

  function DeferRefresh(c: Cache, candidate: Candidate, nextAttempt: Time): (Cache, bool) {
    if Current(c, candidate) then
      var r := c.queue[candidate.did];
      (c.(queue := c.queue[candidate.did := r.(nextAttemptAt := nextAttempt, attemptCount := r.attemptCount + 1)]),
        true)
    else (c, false)
  }

  // --- The authoritative write ---------------------------------------------

  // Whoever else holds the handle loses it; then the DID's own row is written.
  function Written(rows: map<Did, Row>, did: Did, handle: Handle, at: Time): map<Did, Row> {
    Released(rows, did, handle, at)[did := Row(handle, at)]
  }

  function Released(rows: map<Did, Row>, did: Did, handle: Handle, at: Time): map<Did, Row> {
    map d | d in rows :: if Displaces(rows, did, handle, d) then Row(Invalid, at) else rows[d]
  }

  predicate Displaces(rows: map<Did, Row>, did: Did, handle: Handle, d: Did) {
    d in rows && d != did && handle.Named? && rows[d].handle == handle
  }

  datatype Completion = Refused | Superseded | Committed

  function CompleteRefresh(c: Cache, candidate: Candidate, handle: Handle, at: Time): (Cache, Completion) {
    if candidate.did in c.terminal then (c, Refused)
    else if !Current(c, candidate) then (c, Superseded)
    else (c.(rows := Written(c.rows, candidate.did, handle, at), queue := c.queue - {candidate.did}), Committed)
  }

  // --- Handles are unique --------------------------------------------------

  ghost predicate UniqueHandles(rows: map<Did, Row>) {
    forall a, b :: a in rows && b in rows && rows[a].handle.Named? && rows[a].handle == rows[b].handle ==> a == b
  }

  lemma WriteKeepsHandlesUnique(rows: map<Did, Row>, did: Did, handle: Handle, at: Time)
    requires UniqueHandles(rows)
    ensures UniqueHandles(Written(rows, did, handle, at))
  {
  }

  const FRESHNESS: Time := 24 * 3600

  predicate FreshMatch(c: Cache, handle: Handle, did: Did, now: Time) {
    && did in c.rows && did in c.profiles && did !in c.terminal
    && handle.Named? && c.rows[did].handle == handle
    && c.rows[did].resolvedAt >= now - FRESHNESS
  }
}
