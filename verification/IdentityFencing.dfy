// Runs of the identity cache: which overlapping refresh may commit, and when the
// fence fails.
module IdentityFencing {
  import opened Wrappers
  import opened IdentityCache

  datatype Step =
    | Claim(did: Did, now: Time, insertAs: int)                 // RefreshCurrentHandle, ResolveMention
    | Ensure(did: Did, now: Time, insertAs: int)                // one DID of refreshCandidates
    | Tap(did: Did, event: int, now: Time, insertAs: int)       // a Tap identity event
    | Postpone(candidate: Candidate, nextAttempt: Time)
    | Commit(candidate: Candidate, lookups: Lookups, at: Time)
    | CommitMention(candidate: Candidate, requested: Handle, lookups: Lookups, at: Time, authorized: bool)
    | Purge(did: Did)                                           // terminal owners lose both rows
    | Profile(did: Did, present: bool)

  // What a completing attempt writes, if its lookups let it write at all.
  function WriteOf(step: Step): Option<Handle> {
    match step
    case Commit(candidate, lookups, at) =>
      (match Authoritative(candidate.did, lookups)
       case Resolved(handle) => Some(handle)
       case Unresolved => None)
    case CommitMention(candidate, requested, lookups, at, authorized) =>
      if requested.Named? && ConfirmedBothWays(candidate.did, requested, lookups) && authorized then Some(requested)
        else None
    case _ => None
  }

  function Apply(c: Cache, step: Step): Cache {
    match step
    case Claim(did, now, insertAs) => ClaimRefresh(c, did, now, insertAs).0
    case Ensure(did, now, insertAs) => Ensured(c, did, now, insertAs)
    case Tap(did, event, now, insertAs) => TapEnqueue(c, did, event, now, insertAs)
    case Postpone(candidate, nextAttempt) => DeferRefresh(c, candidate, nextAttempt).0
    case Commit(candidate, lookups, at) =>
      if WriteOf(step).Some? then CompleteRefresh(c, candidate, WriteOf(step).value, at).0 else c
    case CommitMention(candidate, requested, lookups, at, authorized) =>
      if WriteOf(step).Some? then CompleteRefresh(c, candidate, WriteOf(step).value, at).0 else c
    case Purge(did) => c.(rows := c.rows - {did}, queue := c.queue - {did}, terminal := c.terminal + {did})
    case Profile(did, present) => c.(profiles := if present then c.profiles + {did} else c.profiles - {did})
  }

  function Run(c: Cache, steps: seq<Step>): Cache {
    if steps == [] then c else Apply(Run(c, steps[..|steps| - 1]), steps[|steps| - 1])
  }

  predicate Commits(c: Cache, step: Step) {
    && WriteOf(step).Some? && step.candidate.did !in c.terminal && Current(c, step.candidate)
  }

  // --- Versions along a run ------------------------------------------------

  predicate Bumps(c: Cache, step: Step, did: Did) {
    || (step.Claim? && step.did == did && did !in c.terminal)
    || (step.Tap? && step.did == did)
  }

  ghost function BumpsIn(c: Cache, steps: seq<Step>, did: Did): nat {
    if steps == [] then 0
    else
      var n := |steps| - 1;
      BumpsIn(c, steps[..n], did) + if Bumps(Run(c, steps[..n]), steps[n], did) then 1 else 0
  }

  ghost predicate Counted(c: Cache) {
    forall did :: did in c.queue ==> c.queue[did].incarnation < c.inserted
  }

  lemma StepKeepsCounted(c: Cache, step: Step)
    requires Counted(c)
    ensures Counted(Apply(c, step)) && c.inserted <= Apply(c, step).inserted
  {
  }

  lemma {:induction false} RunKeepsCounted(c: Cache, steps: seq<Step>)
    requires Counted(c)
    ensures Counted(Run(c, steps)) && c.inserted <= Run(c, steps).inserted
    decreases |steps|
  {
    if steps != [] {
      RunKeepsCounted(c, steps[..|steps| - 1]);
      StepKeepsCounted(Run(c, steps[..|steps| - 1]), steps[|steps| - 1]);
    }
  }

  // What one step does to a DID's queue row: keeps its version, bumps it, removes
  // it, or inserts a row with the next incarnation.
  lemma StepMovesVersion(c: Cache, step: Step, did: Did)
    ensures did in Apply(c, step).queue && did in c.queue ==>
              && Apply(c, step).queue[did].incarnation == c.queue[did].incarnation
              && Apply(c, step).queue[did].version == c.queue[did].version + if Bumps(c, step, did) then 1 else 0
    ensures did in Apply(c, step).queue && did !in c.queue ==>
              Inserts(c, step, did) && Apply(c, step).queue[did].incarnation == c.inserted
              && Apply(c, step).queue[did].version == step.insertAs
  {
  }

  predicate Inserts(c: Cache, step: Step, did: Did) {
    (step.Claim? || step.Ensure? || step.Tap?) && step.did == did && did !in c.queue
  }

  // While one queue row lives, its version counts the claims and Tap events since.
  lemma {:induction false} VersionCountsBumps(c: Cache, steps: seq<Step>, did: Did)
    requires Counted(c) && did in c.queue
    ensures did in Run(c, steps).queue ==>
              || Run(c, steps).queue[did].incarnation >= c.inserted
              || (&& Run(c, steps).queue[did].incarnation == c.queue[did].incarnation
                  && Run(c, steps).queue[did].version == c.queue[did].version + BumpsIn(c, steps, did))
    decreases |steps|
  {
    if steps != [] {
      var n := |steps| - 1;
      VersionCountsBumps(c, steps[..n], did);
      RunKeepsCounted(c, steps[..n]);
      StepMovesVersion(Run(c, steps[..n]), steps[n], did);
    }
  }

  // --- The fence -----------------------------------------------------------

  predicate IssuedAt(c: Cache, candidate: Candidate) {
    candidate.did in c.queue && candidate == CandidateOf(c, candidate.did)
  }

  // Within one queue row's life: an attempt is current exactly when nobody has
  // claimed the DID, or reported a Tap event for it, since the attempt began.
  lemma CurrentExactlyWhenLatest(c: Cache, steps: seq<Step>, candidate: Candidate)
    requires Counted(c) && IssuedAt(c, candidate)
    requires candidate.did in Run(c, steps).queue
    requires Run(c, steps).queue[candidate.did].incarnation == candidate.incarnation
    ensures Current(Run(c, steps), candidate) <==> BumpsIn(c, steps, candidate.did) == 0
  {
    VersionCountsBumps(c, steps, candidate.did);
  }

  // Across rows the version alone decides. With the schema's default version of 1,
  // an attempt left over from an earlier row is taken for current exactly when the
  // new row has been bumped as often as its own row had been.
  lemma LeftoverAttemptIsCurrentExactly(c: Cache, steps: seq<Step>, candidate: Candidate)
    requires Counted(c) && candidate.did in c.queue && c.queue[candidate.did].version == 1
    requires candidate.incarnation < c.queue[candidate.did].incarnation
    requires candidate.did in Run(c, steps).queue
    requires Run(c, steps).queue[candidate.did].incarnation == c.queue[candidate.did].incarnation
    ensures Current(Run(c, steps), candidate) <==> BumpsIn(c, steps, candidate.did) == candidate.version - 1
  {
    VersionCountsBumps(c, steps, candidate.did);
  }

  // --- With versions that are never used again -----------------------------

  // The step gives its DID's row a version, by inserting or by bumping it.
  predicate GivesVersion(c: Cache, step: Step) {
    && (step.Claim? || step.Ensure? || step.Tap?) && step.did in Apply(c, step).queue
    && (step.did !in c.queue || Apply(c, step).queue[step.did].version != c.queue[step.did].version)
  }

  predicate NotHadBefore(earlier: Cache, c: Cache, step: Step) {
    GivesVersion(c, step) && step.did in earlier.queue
    ==> Apply(c, step).queue[step.did].version != earlier.queue[step.did].version
  }

  predicate Moments(i: int, j: int) {
    true
  }

  // No version given is one that the DID's row had at any time before. Used only
  // where a proof mentions two moments of the run.
  ghost predicate NeverReused(c: Cache, steps: seq<Step>) {
    forall i: int, j: int {:trigger Moments(i, j)} :: Moments(i, j) && 0 <= i <= j < |steps|
      ==> NotHadBefore(Run(c, steps[..i]), Run(c, steps[..j]), steps[j])
  }

  // A version that the row had before was not given by this step.
  lemma KnownVersionIsKept(earlier: Cache, c: Cache, step: Step, did: Did)
    requires NotHadBefore(earlier, c, step)
    requires did in earlier.queue && did in Apply(c, step).queue
    requires Apply(c, step).queue[did].version == earlier.queue[did].version
    ensures did in c.queue && c.queue[did].version == earlier.queue[did].version
    ensures c.queue[did].incarnation == Apply(c, step).queue[did].incarnation && !Bumps(c, step, did)
  {
    StepMovesVersion(c, step, did);
  }

  lemma PrefixNeverReused(c: Cache, steps: seq<Step>, k: nat)
    requires k <= |steps| && NeverReused(c, steps)
    ensures NeverReused(c, steps[..k])
  {
    var front := steps[..k];
    forall i: int, j: int | Moments(i, j) && 0 <= i <= j < |front|
      ensures NotHadBefore(Run(c, front[..i]), Run(c, front[..j]), front[j])
    {
      assert front[..i] == steps[..i] && front[..j] == steps[..j];
    }
  }

  // Meeting a version of a DID again means the same row, untouched by claims and
  // Tap events in between.
  lemma {:induction false} VersionsNeverReturn(c: Cache, steps: seq<Step>, did: Did, i: nat)
    requires Counted(c) && NeverReused(c, steps) && i <= |steps|
    requires did in Run(c, steps[..i]).queue && did in Run(c, steps).queue
    requires Run(c, steps[..i]).queue[did].version == Run(c, steps).queue[did].version
    ensures Run(c, steps[..i]).queue[did].incarnation == Run(c, steps).queue[did].incarnation
    ensures BumpsIn(Run(c, steps[..i]), steps[i..], did) == 0
    decreases |steps|
  {
    if i == |steps| {
      assert steps[..i] == steps && steps[i..] == [];
    } else {
      var n := |steps| - 1;
      var front := steps[..n];
      assert front[..i] == steps[..i];
      assert Moments(i, n);
      KnownVersionIsKept(Run(c, steps[..i]), Run(c, front), steps[n], did);
      PrefixNeverReused(c, steps, n);
      VersionsNeverReturn(c, front, did, i);
      assert steps[i..][..|steps[i..]| - 1] == front[i..];
      RunsCompose(c, front[..i], front[i..]);
      assert front[..i] + front[i..] == front;
    }
  }

  lemma {:induction false} RunsCompose(c: Cache, first: seq<Step>, second: seq<Step>)
    ensures Run(c, first + second) == Run(Run(c, first), second)
    decreases |second|
  {
    if second == [] {
      assert first + second == first;
    } else {
      var n := |second| - 1;
      assert (first + second)[..|first + second| - 1] == first + second[..n];
      RunsCompose(c, first, second[..n]);
    }
  }

  // Only the latest overlapping claim commits, whatever the interleaving; any other
  // attempt leaves rows and queue as they are.
  lemma OnlyTheLatestClaimCommits(c: Cache, steps: seq<Step>, i: nat, k: nat)
    requires Counted(c) && NeverReused(c, steps) && i <= k < |steps|
    requires steps[k].Commit? || steps[k].CommitMention? || steps[k].Postpone?
    requires IssuedAt(Run(c, steps[..i]), steps[k].candidate)
    requires BumpsIn(Run(c, steps[..i]), steps[i..k], steps[k].candidate.did) > 0
    ensures !Current(Run(c, steps[..k]), steps[k].candidate)
    ensures Apply(Run(c, steps[..k]), steps[k]) == Run(c, steps[..k])
  {
    var front := steps[..k];
    assert front[..i] == steps[..i] && front[i..] == steps[i..k];
    PrefixNeverReused(c, steps, k);
    if Current(Run(c, front), steps[k].candidate) {
      VersionsNeverReturn(c, front, steps[k].candidate.did, i);
    }
  }

  // Each version of a DID is consumed by at most one completion.
  lemma VersionsAreConsumedOnce(c: Cache, steps: seq<Step>, j: nat, k: nat)
    requires Counted(c) && NeverReused(c, steps) && j < k < |steps|
    requires Commits(Run(c, steps[..j]), steps[j]) && Commits(Run(c, steps[..k]), steps[k])
    requires steps[j].candidate.did == steps[k].candidate.did
    ensures steps[j].candidate.version != steps[k].candidate.version
  {
    var did := steps[j].candidate.did;
    var front := steps[..k];
    assert front[..j] == steps[..j] && front[..j + 1] == steps[..j + 1];
    assert steps[..j + 1][..j] == steps[..j];
    PrefixNeverReused(c, steps, k);
    if steps[j].candidate.version == steps[k].candidate.version {
      VersionsNeverReturn(c, front, did, j);
    }
    RunKeepsCounted(c, steps[..j]);
    RunKeepsCounted(c, steps[..j + 1]);
    assert front == steps[..j + 1] + steps[j + 1..k];
    RunsCompose(c, steps[..j + 1], steps[j + 1..k]);
    RemovedRowComesBackNew(Run(c, steps[..j + 1]), steps[j + 1..k], did);
  }

  lemma {:induction false} RemovedRowComesBackNew(c: Cache, steps: seq<Step>, did: Did)
    requires Counted(c) && did !in c.queue
    ensures did in Run(c, steps).queue ==> Run(c, steps).queue[did].incarnation >= c.inserted
    decreases |steps|
  {
    if steps != [] {
      var n := |steps| - 1;
      RemovedRowComesBackNew(c, steps[..n], did);
      RunKeepsCounted(c, steps[..n]);
      StepMovesVersion(Run(c, steps[..n]), steps[n], did);
    }
  }

  // --- With versions above all earlier ones --------------------------------

  // Every inserted row's version is above all versions the DID had before.
  ghost predicate AlwaysAbove(c: Cache, steps: seq<Step>) {
    forall i: int, j: int {:trigger Moments(i, j)} :: Moments(i, j) && 0 <= i <= j < |steps|
      ==> AboveEarlier(Run(c, steps[..i]), Run(c, steps[..j]), steps[j])
  }

  predicate AboveEarlier(earlier: Cache, c: Cache, step: Step) {
    (step.Claim? || step.Ensure? || step.Tap?) && step.did !in c.queue && step.did in earlier.queue
    ==> earlier.queue[step.did].version < step.insertAs
  }

  lemma PrefixAlwaysAbove(c: Cache, steps: seq<Step>, k: nat)
    requires k <= |steps| && AlwaysAbove(c, steps)
    ensures AlwaysAbove(c, steps[..k])
  {
    var front := steps[..k];
    forall i: int, j: int | Moments(i, j) && 0 <= i <= j < |front|
      ensures AboveEarlier(Run(c, front[..i]), Run(c, front[..j]), front[j])
    {
      assert front[..i] == steps[..i] && front[..j] == steps[..j];
    }
  }

  lemma {:induction false} VersionsOnlyRise(c: Cache, steps: seq<Step>, did: Did, i: nat)
    requires AlwaysAbove(c, steps) && i <= |steps|
    requires did in Run(c, steps[..i]).queue && did in Run(c, steps).queue
    ensures Run(c, steps[..i]).queue[did].version <= Run(c, steps).queue[did].version
    decreases |steps|
  {
    if i == |steps| {
      assert steps[..i] == steps;
    } else {
      var n := |steps| - 1;
      var front := steps[..n];
      assert front[..i] == steps[..i];
      PrefixAlwaysAbove(c, steps, n);
      StepMovesVersion(Run(c, front), steps[n], did);
      assert Moments(i, n);
      if did in Run(c, front).queue {
        VersionsOnlyRise(c, front, did, i);
      }
    }
  }

  // Then the completions of a DID consume its versions in increasing order.
  lemma VersionsAreConsumedInOrder(c: Cache, steps: seq<Step>, j: nat, k: nat)
    requires AlwaysAbove(c, steps) && j < k < |steps|
    requires Commits(Run(c, steps[..j]), steps[j]) && Commits(Run(c, steps[..k]), steps[k])
    requires steps[j].candidate.did == steps[k].candidate.did
    ensures steps[j].candidate.version < steps[k].candidate.version
  {
    var did := steps[j].candidate.did;
    assert steps[..j + 1][..j] == steps[..j];
    NextRowIsAbove(c, steps, j, k, did);
  }

  // A row that is gone after step j comes back above the version it had.
  lemma {:induction false} NextRowIsAbove(c: Cache, steps: seq<Step>, j: nat, k: nat, did: Did)
    requires AlwaysAbove(c, steps) && j < k <= |steps|
    requires did in Run(c, steps[..j]).queue && did !in Run(c, steps[..j + 1]).queue && did in Run(c, steps[..k]).queue
    ensures Run(c, steps[..j]).queue[did].version < Run(c, steps[..k]).queue[did].version
    decreases k
  {
    var n := k - 1;
    assert steps[..k][..n] == steps[..n];
    StepMovesVersion(Run(c, steps[..n]), steps[n], did);
    assert Moments(j, n);
    if did in Run(c, steps[..n]).queue {
      NextRowIsAbove(c, steps, j, n, did);
    }
  }
}
