// Every reachable state of the identity cache, and exactly what the version fence
// does and does not promise.
module IdentityRuns {
  import opened Wrappers
  import opened IdentityCache
  import opened IdentityFencing

  ghost predicate Empty(c: Cache) {
    c.rows == map[] && c.queue == map[]
  }

  // --- Uniqueness ----------------------------------------------------------

  lemma {:induction false} ReachableHandlesAreUnique(c: Cache, steps: seq<Step>)
    requires UniqueHandles(c.rows)
    ensures UniqueHandles(Run(c, steps).rows)
    decreases |steps|
  {
    if steps != [] {
      var n := |steps| - 1;
      ReachableHandlesAreUnique(c, steps[..n]);
      StepKeepsHandlesUnique(Run(c, steps[..n]), steps[n]);
    }
  }

  lemma StepKeepsHandlesUnique(c: Cache, step: Step)
    requires UniqueHandles(c.rows)
    ensures UniqueHandles(Apply(c, step).rows)
  {
    if Commits(c, step) {
      WriteKeepsHandlesUnique(c.rows, step.candidate.did, WriteOf(step).value, step.at);
    }
  }

  // FreshByHandle has at most one answer.
  lemma FreshByHandleIsUnambiguous(c: Cache, steps: seq<Step>, handle: Handle, now: Time, a: Did, b: Did)
    requires Empty(c)
    requires FreshMatch(Run(c, steps), handle, a, now) && FreshMatch(Run(c, steps), handle, b, now)
    ensures a == b
  {
    ReachableHandlesAreUnique(c, steps);
  }

  // --- Provenance ----------------------------------------------------------

  // Step i committed exactly this row, and its own lookups confirmed the handle in
  // both directions.
  ghost predicate WrittenBy(c: Cache, steps: seq<Step>, i: nat, did: Did, row: Row) {
    && i < |steps| && Commits(Run(c, steps[..i]), steps[i])
    && steps[i].candidate.did == did && steps[i].at == row.resolvedAt
    && ConfirmedBothWays(did, row.handle, steps[i].lookups)
  }

  lemma WrittenByStays(c: Cache, steps: seq<Step>, i: nat, did: Did, row: Row)
    requires steps != [] && WrittenBy(c, steps[..|steps| - 1], i, did, row)
    ensures WrittenBy(c, steps, i, did, row)
  {
    assert steps[..|steps| - 1][..i] == steps[..i];
  }

  lemma StepWritesRow(c: Cache, step: Step, did: Did)
    requires did in Apply(c, step).rows && Apply(c, step).rows[did].handle.Named?
    ensures (did in c.rows && Apply(c, step).rows[did] == c.rows[did])
            || (&& Commits(c, step) && step.candidate.did == did && step.at == Apply(c, step).rows[did].resolvedAt
                && ConfirmedBothWays(did, Apply(c, step).rows[did].handle, step.lookups))
  {
  }

  // Every name the cache holds was confirmed both ways by the attempt that wrote it.
  lemma {:induction false} NamesWereConfirmedBothWays(c: Cache, steps: seq<Step>, did: Did) returns (i: nat)
    requires Empty(c)
    requires did in Run(c, steps).rows && Run(c, steps).rows[did].handle.Named?
    ensures WrittenBy(c, steps, i, did, Run(c, steps).rows[did])
    decreases |steps|
  {
    var n := |steps| - 1;
    var before := Run(c, steps[..n]);
    StepWritesRow(before, steps[n], did);
    if did in before.rows && Run(c, steps).rows[did] == before.rows[did] {
      i := NamesWereConfirmedBothWays(c, steps[..n], did);
      WrittenByStays(c, steps, i, did, Run(c, steps).rows[did]);
    } else {
      i := n;
    }
  }

  // --- What the fence does not promise -------------------------------------

  const START: Cache := Cache(map[], map[], {}, {}, 0)

  function Both(did: Did, name: string): Lookups {
    Lookups(HandleFound(Named(name)), DidFound(did))
  }

  // Every queue row starts at the schema's default version 1. The first attempt
  // outlives its own row, meets version 1 again on the next one, and overwrites
  // what a later attempt had confirmed, although three claims followed its own.
  lemma DefaultVersionLetsAStaleAttemptCommit(did: Did)
    ensures var slow := Candidate(did, None, None, 1, 0);
      var fast := Candidate(did, None, None, 2, 0);
      var steps := [Claim(did, 0, 1), Claim(did, 1, 1), Commit(fast, Both(did, "new"), 2), Claim(did, 3, 1),
        Commit(slow, Both(did, "old"), 0)];
      && IssuedAt(Run(START, steps[..1]), slow)
      && IssuedAt(Run(START, steps[..2]), fast)
      && BumpsIn(Run(START, steps[..1]), steps[1..4], did) == 2
      && Commits(Run(START, steps[..4]), steps[4])
      && did in Run(START, steps[..4]).rows && Run(START, steps[..4]).rows[did].handle == Named("new")
      && did in Run(START, steps).rows && Run(START, steps).rows[did].handle == Named("old")
  {
    var slow, fast := Candidate(did, None, None, 1, 0), Candidate(did, None, None, 2, 0);
    var s0, s1, s2 := Claim(did, 0, 1), Claim(did, 1, 1), Commit(fast, Both(did, "new"), 2);
    var s3, s4 := Claim(did, 3, 1), Commit(slow, Both(did, "old"), 0);
    var steps := [s0, s1, s2, s3, s4];
    assert steps[..0] == [] && steps[..5] == steps;
    OneStep(START, steps, 0);
    OneStep(START, steps, 1);
    OneStep(START, steps, 2);
    OneStep(START, steps, 3);
    OneStep(START, steps, 4);
    var c1 := Run(START, steps[..1]);
    BumpsStepByStep(c1, s1, s2, s3, did);
    assert steps[1..4] == [s1, s2, s3];
  }

  lemma OneStep(c: Cache, steps: seq<Step>, n: nat)
    requires n < |steps|
    ensures Run(c, steps[..n + 1]) == Apply(Run(c, steps[..n]), steps[n])
  {
    assert steps[..n + 1][..n] == steps[..n];
  }

  lemma BumpsStepByStep(c: Cache, a: Step, b: Step, d: Step, did: Did)
    ensures BumpsIn(c, [a, b, d], did)
         == (if Bumps(c, a, did) then 1 else 0) + (if Bumps(Apply(c, a), b, did) then 1 else 0)
            + (if Bumps(Apply(Apply(c, a), b), d, did) then 1 else 0)
  {
    assert [a, b, d][..2] == [a, b] && [a, b][..1] == [a] && [a][..0] == [];
    assert Run(c, [a]) == Apply(c, a) && Run(c, [a, b]) == Apply(Apply(c, a), b);
    assert BumpsIn(c, [a], did) == if Bumps(c, a, did) then 1 else 0;
    assert BumpsIn(c, [a, b], did) == BumpsIn(c, [a], did) + if Bumps(Apply(c, a), b, did) then 1 else 0;
  }

  // The fence is per DID. A slow attempt on the old owner of a moved handle is
  // overlapped by nobody on its own DID, so it commits after the new owner's and
  // takes the handle back.
  lemma SlowAttemptTakesAMovedHandleBack(a: Did, b: Did)
    requires a != b
    ensures var slow, fast := Candidate(a, None, None, 1, 0), Candidate(b, None, None, 1, 1);
      var steps := [Claim(a, 0, 1), Claim(b, 1, 1), Commit(fast, Both(b, "moved"), 2),
        Commit(slow, Both(a, "moved"), 0)];
      var end := Run(START, steps);
      && BumpsIn(Run(START, steps[..1]), steps[1..3], a) == 0
      && a in end.rows && end.rows[a].handle == Named("moved")
      && b in end.rows && end.rows[b].handle == Invalid
  {
    var slow, fast := Candidate(a, None, None, 1, 0), Candidate(b, None, None, 1, 1);
    var s0, s1 := Claim(a, 0, 1), Claim(b, 1, 1);
    var s2, s3 := Commit(fast, Both(b, "moved"), 2), Commit(slow, Both(a, "moved"), 0);
    var steps := [s0, s1, s2, s3];
    assert steps[..0] == [] && steps[..4] == steps;
    OneStep(START, steps, 0);
    OneStep(START, steps, 1);
    OneStep(START, steps, 2);
    OneStep(START, steps, 3);
    var c1 := Run(START, steps[..1]);
    assert steps[1..3] == [s1, s2];
    assert [s1, s2][..1] == [s1] && [s1][..0] == [];
    assert BumpsIn(c1, [s1], a) == 0 && Run(c1, [s1]) == Apply(c1, s1);
  }

  // --- Exactly when a handle is taken --------------------------------------

  predicate Holds(c: Cache, did: Did, handle: Handle) {
    did in c.rows && c.rows[did].handle == handle
  }

  // The attempt ends up with a handle that b held.
  predicate TakesFrom(c: Cache, step: Step, b: Did)
    requires WriteOf(step).Some?
  {
    var handle := WriteOf(step).value;
    Holds(c, b, handle) && Holds(Apply(c, step), step.candidate.did, handle) && !Holds(Apply(c, step), b, handle)
  }

  // The queue row is bumped or goes away.
  predicate Disturbs(c: Cache, step: Step, did: Did) {
    Bumps(c, step, did) || (did in c.queue && did !in Apply(c, step).queue)
  }

  ghost predicate Undisturbed(c: Cache, steps: seq<Step>, i: nat, k: nat, did: Did)
    requires k <= |steps|
  {
    forall m :: i <= m < k ==> !Disturbs(Run(c, steps[..m]), steps[m], did)
  }

  lemma {:induction false} UndisturbedKeepsRow(c: Cache, steps: seq<Step>, i: nat, k: nat, did: Did)
    requires i <= k <= |steps| && did in Run(c, steps[..i]).queue && Undisturbed(c, steps, i, k, did)
    ensures did in Run(c, steps[..k]).queue
    ensures Run(c, steps[..k]).queue[did].version == Run(c, steps[..i]).queue[did].version
    decreases k
  {
    if i < k {
      UndisturbedKeepsRow(c, steps, i, k - 1, did);
      OneStep(c, steps, k - 1);
      assert !Disturbs(Run(c, steps[..k - 1]), steps[k - 1], did);
      StepMovesVersion(Run(c, steps[..k - 1]), steps[k - 1], did);
    }
  }

  lemma {:induction false} BumpIsCounted(c: Cache, steps: seq<Step>, m: nat, did: Did)
    requires m < |steps| && Bumps(Run(c, steps[..m]), steps[m], did)
    ensures BumpsIn(c, steps, did) > 0
    decreases |steps|
  {
    var n := |steps| - 1;
    if m < n {
      assert steps[..n][..m] == steps[..m];
      BumpIsCounted(c, steps[..n], m, did);
    }
  }

  lemma RunFrom(c: Cache, steps: seq<Step>, i: nat, k: nat)
    requires i <= k <= |steps|
    ensures Run(c, steps[..k]) == Run(Run(c, steps[..i]), steps[i..k])
  {
    assert steps[..k] == steps[..i] + steps[i..k];
    RunsCompose(c, steps[..i], steps[i..k]);
  }

  // An attempt that is current has met its own row, never bumped.
  lemma CurrentMetItsOwnRow(c: Cache, steps: seq<Step>, i: nat, k: nat, candidate: Candidate)
    requires Counted(c) && NeverReused(c, steps) && i <= k <= |steps|
    requires IssuedAt(Run(c, steps[..i]), candidate) && Current(Run(c, steps[..k]), candidate)
    ensures Run(c, steps[..k]).queue[candidate.did].incarnation == Run(c, steps[..i]).queue[candidate.did].incarnation
    ensures BumpsIn(Run(c, steps[..i]), steps[i..k], candidate.did) == 0
  {
    assert steps[..k][..i] == steps[..i] && steps[..k][i..] == steps[i..k];
    PrefixNeverReused(c, steps, k);
    VersionsNeverReturn(c, steps[..k], candidate.did, i);
  }

  lemma BumpBetweenIsCounted(c: Cache, steps: seq<Step>, i: nat, m: nat, k: nat, did: Did)
    requires i <= m < k <= |steps| && Bumps(Run(c, steps[..m]), steps[m], did)
    ensures BumpsIn(Run(c, steps[..i]), steps[i..k], did) > 0
  {
    RunFrom(c, steps, i, m);
    assert steps[i..k][m - i] == steps[m];
    assert steps[i..k][..m - i] == steps[i..m];
    BumpIsCounted(Run(c, steps[..i]), steps[i..k], m - i, did);
  }

  lemma RemovedRowIsAnotherLater(c: Cache, steps: seq<Step>, i: nat, m: nat, k: nat, did: Did)
    requires Counted(c) && i <= m < k <= |steps| && did in Run(c, steps[..i]).queue
    requires did !in Run(c, steps[..m + 1]).queue
    ensures did in Run(c, steps[..k]).queue ==>
              Run(c, steps[..k]).queue[did].incarnation != Run(c, steps[..i]).queue[did].incarnation
  {
    RunFrom(c, steps, m + 1, k);
    RunFrom(c, steps, i, m + 1);
    RunKeepsCounted(c, steps[..i]);
    RunKeepsCounted(c, steps[..m + 1]);
    RunKeepsCounted(Run(c, steps[..i]), steps[i..m + 1]);
    RemovedRowComesBackNew(Run(c, steps[..m + 1]), steps[m + 1..k], did);
  }

  // What disturbs a row at m leaves the attempt behind for good.
  lemma DisturbedIsNotCurrent(c: Cache, steps: seq<Step>, i: nat, m: nat, k: nat, candidate: Candidate)
    requires Counted(c) && NeverReused(c, steps) && i <= m < k <= |steps|
    requires IssuedAt(Run(c, steps[..i]), candidate)
    requires Disturbs(Run(c, steps[..m]), steps[m], candidate.did)
    ensures !Current(Run(c, steps[..k]), candidate)
  {
    if Current(Run(c, steps[..k]), candidate) {
      CurrentMetItsOwnRow(c, steps, i, k, candidate);
      if Bumps(Run(c, steps[..m]), steps[m], candidate.did) {
        BumpBetweenIsCounted(c, steps, i, m, k, candidate.did);
      } else {
        OneStep(c, steps, m);
        RemovedRowIsAnotherLater(c, steps, i, m, k, candidate.did);
      }
    }
  }

  // With versions never used before, an attempt is current exactly when nobody has
  // claimed, reported, completed or purged its DID since it was issued.
  lemma CurrentExactlyWhenUndisturbed(c: Cache, steps: seq<Step>, i: nat, k: nat, candidate: Candidate)
    requires Counted(c) && NeverReused(c, steps) && i <= k <= |steps|
    requires IssuedAt(Run(c, steps[..i]), candidate)
    ensures Current(Run(c, steps[..k]), candidate) <==> Undisturbed(c, steps, i, k, candidate.did)
  {
    if Undisturbed(c, steps, i, k, candidate.did) {
      UndisturbedKeepsRow(c, steps, i, k, candidate.did);
    } else {
      var m :| i <= m < k && Disturbs(Run(c, steps[..m]), steps[m], candidate.did);
      DisturbedIsNotCurrent(c, steps, i, m, k, candidate);
    }
  }

  // Whatever the versions: a completing attempt takes a handle from another DID
  // exactly when that DID holds it and the attempt passes the fence of its own.
  lemma HandleIsTakenExactlyWhenCurrent(c: Cache, step: Step, b: Did)
    requires WriteOf(step).Some? && WriteOf(step).value.Named? && step.candidate.did != b
    ensures TakesFrom(c, step, b)
            <==> Holds(c, b, WriteOf(step).value) && step.candidate.did !in c.terminal && Current(c, step.candidate)
  {
  }

  // A handle that moved to b, confirmed for b after an attempt for a had been
  // issued, is taken back by that attempt exactly when nothing has disturbed a's
  // queue row meanwhile: b's own claims and commits never do.
  lemma MovedHandleIsTakenBackExactly(c: Cache, steps: seq<Step>, i: nat, j: nat, k: nat, b: Did)
    requires Counted(c) && NeverReused(c, steps) && i <= j < k < |steps|
    requires WriteOf(steps[k]).Some? && WriteOf(steps[k]).value.Named?
    requires IssuedAt(Run(c, steps[..i]), steps[k].candidate) && steps[k].candidate.did != b
    requires Commits(Run(c, steps[..j]), steps[j]) && steps[j].candidate.did == b
    requires WriteOf(steps[j]) == WriteOf(steps[k]) && Holds(Run(c, steps[..k]), b, WriteOf(steps[k]).value)
    ensures var a := steps[k].candidate.did;
      TakesFrom(Run(c, steps[..k]), steps[k], b)
      <==> a !in Run(c, steps[..k]).terminal && Undisturbed(c, steps, i, k, a)
  {
    HandleIsTakenExactlyWhenCurrent(Run(c, steps[..k]), steps[k], b);
    CurrentExactlyWhenUndisturbed(c, steps, i, k, steps[k].candidate);
  }
}
