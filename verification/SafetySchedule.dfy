// The order in which one operation's exact keys are claimed for reconciliation,
// and why no key starves.
module SafetySchedule {
  import opened Wrappers
  import opened CraftskyCollections
  import opened DeletionTables

  predicate InScope(t: Tombstone, claim: ClaimedOperation) {
    && t.operation == claim.jobId
    && t.owner == claim.owner
    && t.ownerGeneration == claim.ownerGeneration
    && t.key.PdsRecord?
  }

  predicate Due(t: Tombstone, claim: ClaimedOperation, now: Time) {
    InScope(t, claim) &&
    match t.state
    case SafetyPending(at) => at <= now
    case Reconciling(lease) => lease.expiresAt <= now
    case Settled => false
  }

  // ORDER BY next_attempt_at NULLS FIRST, id. A reconciling row has no next attempt.
  predicate Precedes(idA: Uuid, a: TombstoneState, idB: Uuid, b: TombstoneState) {
    if a.SafetyPending? && b.SafetyPending? then
      a.nextAttemptAt < b.nextAttemptAt || (a.nextAttemptAt == b.nextAttemptAt && idA < idB)
    else if !a.SafetyPending? && !b.SafetyPending? then idA < idB
    else !a.SafetyPending?
  }

  predicate FirstDue(tombstones: map<Uuid, Tombstone>, claim: ClaimedOperation, now: Time, id: Uuid) {
    && id in tombstones && Due(tombstones[id], claim, now)
    && forall other :: other in tombstones && Due(tombstones[other], claim, now) && other != id
         ==> Precedes(id, tombstones[id].state, other, tombstones[other].state)
  }

  // The row ClaimDuePDSSafety selects.
  function NextClaim(tombstones: map<Uuid, Tombstone>, claim: ClaimedOperation, now: Time): (id: Option<Uuid>)
    ensures id.Some? ==> FirstDue(tombstones, claim, now, id.value)
    ensures id.None? ==> forall other :: other in tombstones ==> !Due(tombstones[other], claim, now)
  {
    SomeDueIsFirst(tombstones, claim, now);
    if exists id :: id in tombstones && FirstDue(tombstones, claim, now, id) then
      var id :| id in tombstones && FirstDue(tombstones, claim, now, id);
      Some(id)
    else
      None
  }

  lemma SomeDueIsFirst(tombstones: map<Uuid, Tombstone>, claim: ClaimedOperation, now: Time)
    ensures (forall id :: id in tombstones ==> !Due(tombstones[id], claim, now))
            || exists id :: FirstDue(tombstones, claim, now, id)
  {
    var due := set id | id in tombstones && Due(tombstones[id], claim, now);
    if id :| id in tombstones && Due(tombstones[id], claim, now) {
      assert id in due;
      var least := LeastOf(tombstones, due);
      assert FirstDue(tombstones, claim, now, least);
    }
  }

  lemma LeastOf(tombstones: map<Uuid, Tombstone>, ids: set<Uuid>) returns (least: Uuid)
    requires ids != {} && ids <= tombstones.Keys
    ensures least in ids
    ensures forall other :: other in ids && other != least
              ==> Precedes(least, tombstones[least].state, other, tombstones[other].state)
  {
    var first :| first in ids;
    least := first;
    var rest := ids - {first};
    if rest != {} {
      var best := LeastOf(tombstones, rest);
      if Precedes(best, tombstones[best].state, first, tombstones[first].state) {
        least := best;
      }
      forall other | other in ids && other != least
        ensures Precedes(least, tombstones[least].state, other, tombstones[other].state)
      {
        assert other == first || other in rest;
      }
    } else {
      assert ids == {first};
    }
  }

  lemma FirstDueIsUnique(tombstones: map<Uuid, Tombstone>, claim: ClaimedOperation, now: Time, a: Uuid, b: Uuid)
    requires FirstDue(tombstones, claim, now, a) && FirstDue(tombstones, claim, now, b)
    ensures a == b
  {
  }

  function Claimed(t: Tombstone, claim: ClaimedOperation): Tombstone {
    t.(state := Reconciling(Lease(claim.leaseToken, claim.leaseExpiresAt)), attempts := t.attempts + 1)
  }

  function Released(t: Tombstone, nextAttemptAt: Time): Tombstone {
    t.(state := SafetyPending(nextAttemptAt))
  }

  // One operation attempt whose exact delete succeeds: the key is claimed under
  // the worker's lease and released with the time of the release.
  datatype Visit = Visit(claim: ClaimedOperation, claimedAt: Time, releasedAt: Time)

  ghost function AfterVisit(tombstones: map<Uuid, Tombstone>, visit: Visit): map<Uuid, Tombstone> {
    match NextClaim(tombstones, visit.claim, visit.claimedAt)
    case None => tombstones
    case Some(id) => tombstones[id := Released(Claimed(tombstones[id], visit.claim), visit.releasedAt)]
  }

  ghost function Visited(tombstones: map<Uuid, Tombstone>, visits: seq<Visit>): seq<Uuid> {
    if visits == [] then []
    else
      var rest := Visited(AfterVisit(tombstones, visits[0]), visits[1..]);
      match NextClaim(tombstones, visits[0].claim, visits[0].claimedAt)
      case None => rest
      case Some(id) => [id] + rest
  }

  // The claims of one operation by successive leases, on a strictly advancing clock.
  predicate Successive(visits: seq<Visit>, operation: ClaimedOperation, after: Time) {
    && (forall i :: 0 <= i < |visits| ==>
          && visits[i].claim.jobId == operation.jobId
          && visits[i].claim.owner == operation.owner
          && visits[i].claim.ownerGeneration == operation.ownerGeneration
          && after < visits[i].claimedAt <= visits[i].releasedAt)
    && (forall i, j :: 0 <= i < j < |visits| ==> visits[i].releasedAt < visits[j].claimedAt)
  }

  ghost predicate AllWaiting(tombstones: map<Uuid, Tombstone>, operation: ClaimedOperation, latest: Time) {
    forall id :: id in tombstones && InScope(tombstones[id], operation)
      ==> tombstones[id].state.SafetyPending? && tombstones[id].state.nextAttemptAt <= latest
  }

  ghost function KeysOf(tombstones: map<Uuid, Tombstone>, operation: ClaimedOperation): set<Uuid> {
    set id | id in tombstones && InScope(tombstones[id], operation)
  }

  // Round robin: with every key waiting and as many attempts as keys, each key
  // is claimed exactly once, whatever order the keys were waiting in.
  lemma EveryKeyOncePerRound(
    tombstones: map<Uuid, Tombstone>, operation: ClaimedOperation, visits: seq<Visit>, start: Time)
    requires AllWaiting(tombstones, operation, start)
    requires Successive(visits, operation, start)
    requires |visits| == |KeysOf(tombstones, operation)|
    ensures multiset(Visited(tombstones, visits)) == multiset(KeysOf(tombstones, operation))
  {
    RestOfRound(tombstones, operation, KeysOf(tombstones, operation), visits, start, start);
  }

  // Any window: after k further visits of a round the keys not yet claimed are
  // exactly those that have waited since before the round.
  lemma {:induction false} RestOfRound(
    tombstones: map<Uuid, Tombstone>, operation: ClaimedOperation, unclaimed: set<Uuid>,
    visits: seq<Visit>, start: Time, last: Time)
    requires start <= last
    requires AllWaiting(tombstones, operation, last)
    requires unclaimed <= KeysOf(tombstones, operation)
    requires forall id :: id in KeysOf(tombstones, operation)
               ==> (id in unclaimed <==> tombstones[id].state.nextAttemptAt <= start)
    requires Successive(visits, operation, last)
    requires |visits| == |unclaimed|
    ensures multiset(Visited(tombstones, visits)) == multiset(unclaimed)
    decreases |visits|
  {
    if visits != [] {
      var visit := visits[0];
      var waiting :| waiting in unclaimed;
      assert Due(tombstones[waiting], visit.claim, visit.claimedAt);
      var id := NextClaim(tombstones, visit.claim, visit.claimedAt).value;
      assert InScope(tombstones[id], operation);
      assert id in unclaimed;
      var after := AfterVisit(tombstones, visit);
      var rest := unclaimed - {id};
      assert KeysOf(after, operation) == KeysOf(tombstones, operation);
      RestOfRound(after, operation, rest, visits[1..], start, visit.releasedAt);
      assert unclaimed == rest + {id};
      assert Visited(tombstones, visits) == [id] + Visited(after, visits[1..]);
    } else {
      assert unclaimed == {};
    }
  }
}
