// Whole runs of operator commands: concurrent requests, retries, rollbacks and
// commits nobody heard back from.
module ConsoleRuns {
  import opened Wrappers
  import opened ConsoleRequests
  import opened ConsoleCommands

  datatype Step =
    | Command(route: Route, request: Request, handled: Handled, commit: CommitReply)
    | Touched(resource: Resource)                     // another writer updates the row
    | Inserted(resource: Resource, revision: nat)
    | Purged(resource: Resource)

  type Slot = (Actor, IdempotencyKey)

  function Outside(db: Db, step: Step): Db
    requires !step.Command?
  {
    match step
    case Touched(resource) =>
      if resource in db.revisions && resource.table.Triggered?
      then db.(revisions := db.revisions[resource := db.revisions[resource] + 1]) else db
    case Inserted(resource, revision) =>
      if resource in db.revisions then db else db.(revisions := db.revisions[resource := revision])
    case Purged(resource) => db.(revisions := db.revisions - {resource})
  }

  function Apply(db: Db, step: Step): Db {
    if step.Command? then Execute(step.route, db, step.request, step.handled, step.commit).0 else Outside(db, step)
  }

  function ReplyTo(db: Db, step: Step): Reply
    requires step.Command?
  {
    Execute(step.route, db, step.request, step.handled, step.commit).1
  }

  function Run(db: Db, steps: seq<Step>): Db {
    if steps == [] then db else Apply(Run(db, steps[..|steps| - 1]), steps[|steps| - 1])
  }

  const EMPTY: Db := Db(map[], map[], [])

  lemma {:induction false} RunsCompose(db: Db, first: seq<Step>, second: seq<Step>)
    ensures Run(db, first + second) == Run(Run(db, first), second)
    decreases |second|
  {
    if second == [] {
      assert first + second == first;
    } else {
      var n := |second| - 1;
      assert (first + second)[..|first + second| - 1] == first + second[..n];
      RunsCompose(db, first, second[..n]);
    }
  }

  // --- At most one effect per key ------------------------------------------

  function EffectsOf(effects: seq<Effect>, slot: Slot): nat {
    if effects == [] then 0
    else
      var last := effects[|effects| - 1];
      EffectsOf(effects[..|effects| - 1], slot) + if (last.actor, last.key) == slot then 1 else 0
  }

  // A receipt is there exactly for the keys that acted, and they acted once.
  ghost predicate ReceiptsMatch(db: Db) {
    forall slot: Slot :: EffectsOf(db.effects, slot) == if slot in db.receipts then 1 else 0
  }

  // The only state-changing outcome: one effect, with its receipt, for a new key.
  ghost predicate Acted(before: Db, after: Db, slot: Slot) {
    && slot !in before.receipts && slot in after.receipts
    && after.receipts == before.receipts[slot := after.receipts[slot]]
    && |after.effects| == |before.effects| + 1 && after.effects[..|before.effects|] == before.effects
    && var effect := after.effects[|before.effects|];
       && (effect.actor, effect.key) == slot
       && effect.fingerprint == after.receipts[slot].fingerprint
       && effect.revision == after.receipts[slot].body.revision
  }

  lemma CommandsActOrDoNothing(db: Db, step: Step)
    requires step.Command?
    ensures Apply(db, step) == db
            || (Check(step.route, step.request).0.Some?
                && Acted(db, Apply(db, step),
                   (Check(step.route, step.request).0.value.actor, Check(step.route, step.request).0.value.key)))
  {
  }

  lemma StepKeepsMatch(db: Db, step: Step)
    requires ReceiptsMatch(db)
    ensures ReceiptsMatch(Apply(db, step))
  {
    if step.Command? {
      CommandsActOrDoNothing(db, step);
      var after := Apply(db, step);
      if after != db {
        assert after.effects[..|after.effects| - 1] == db.effects;
      }
    }
  }

  // Over any run at most one domain effect commits per actor and key, and exactly
  // one where there is a receipt.
  lemma {:induction false} EffectsCommitOncePerKey(steps: seq<Step>, slot: Slot)
    ensures EffectsOf(Run(EMPTY, steps).effects, slot) == if slot in Run(EMPTY, steps).receipts then 1 else 0
    ensures ReceiptsMatch(Run(EMPTY, steps))
    decreases |steps|
  {
    if steps != [] {
      EffectsCommitOncePerKey(steps[..|steps| - 1], slot);
      StepKeepsMatch(Run(EMPTY, steps[..|steps| - 1]), steps[|steps| - 1]);
    }
  }

  // --- Every success says the same -----------------------------------------

  predicate SpeaksFor(step: Step, slot: Slot) {
    step.Command? && Check(step.route, step.request).0.Some?
    && (Check(step.route, step.request).0.value.actor, Check(step.route, step.request).0.value.key) == slot
  }

  function FingerprintOf(step: Step): Fingerprint
    requires step.Command? && Check(step.route, step.request).0.Some?
  {
    Check(step.route, step.request).0.value.fingerprint
  }

  lemma {:induction false} ReceiptsStay(db: Db, steps: seq<Step>, slot: Slot)
    requires slot in db.receipts
    ensures slot in Run(db, steps).receipts && Run(db, steps).receipts[slot] == db.receipts[slot]
    decreases |steps|
  {
    if steps != [] {
      var n := |steps| - 1;
      ReceiptsStay(db, steps[..n], slot);
      if steps[n].Command? {
        CommandsActOrDoNothing(Run(db, steps[..n]), steps[n]);
      }
    }
  }

  // A success leaves a receipt that says what the success said.
  lemma SuccessLeavesReceipt(db: Db, step: Step, slot: Slot)
    requires SpeaksFor(step, slot) && ReplyTo(db, step).body.Answer?
    ensures slot in Apply(db, step).receipts
    ensures Apply(db, step).receipts[slot]
            == Receipt(FingerprintOf(step), ReplyTo(db, step).status, ReplyTo(db, step).body.body)
  {
  }

  // With a receipt in place, a command for its key replays or conflicts, and
  // changes nothing.
  lemma ReceiptDecides(db: Db, step: Step, slot: Slot)
    requires SpeaksFor(step, slot) && slot in db.receipts
    ensures Apply(db, step) == db
    ensures ReplyTo(db, step) ==
      if FingerprintOf(step) == db.receipts[slot].fingerprint
      then Reply(db.receipts[slot].status, Answer(db.receipts[slot].body), true)
      else Refusal(409, "idempotency_conflict")
  {
  }

  // After one success for a key, every later command for it either replays the
  // same status and body or, being a different request, conflicts; neither
  // changes anything.
  lemma SuccessesForAKeyAgree(db: Db, steps: seq<Step>, slot: Slot, i: nat, j: nat)
    requires i < j < |steps|
    requires SpeaksFor(steps[i], slot) && ReplyTo(Run(db, steps[..i]), steps[i]).body.Answer?
    requires SpeaksFor(steps[j], slot)
    ensures Apply(Run(db, steps[..j]), steps[j]) == Run(db, steps[..j])
    ensures FingerprintOf(steps[j]) == FingerprintOf(steps[i]) ==>
              ReplyTo(Run(db, steps[..j]), steps[j])
                == Reply(ReplyTo(Run(db, steps[..i]), steps[i]).status, ReplyTo(Run(db, steps[..i]), steps[i]).body,
                  true)
    ensures FingerprintOf(steps[j]) != FingerprintOf(steps[i]) ==>
              ReplyTo(Run(db, steps[..j]), steps[j]) == Refusal(409, "idempotency_conflict")
  {
    SuccessLeavesReceipt(Run(db, steps[..i]), steps[i], slot);
    assert steps[..i + 1][..i] == steps[..i];
    assert steps[..j] == steps[..i + 1] + steps[i + 1..j];
    RunsCompose(db, steps[..i + 1], steps[i + 1..j]);
    ReceiptsStay(Run(db, steps[..i + 1]), steps[i + 1..j], slot);
    ReceiptDecides(Run(db, steps[..j]), steps[j], slot);
  }

  // A commit of unknown outcome that did apply: the caller saw an error, and the
  // same request, retried at any later time, gets the answer it should have had.
  lemma RetrySettlesUnknownCommit(db: Db, lost: Step, steps: seq<Step>, slot: Slot)
    requires SpeaksFor(lost, slot) && lost.commit == CommitUnknown(true) && slot !in db.receipts
    requires Apply(db, lost) != db
    ensures var heard := lost.(commit := CommitOk);
      && ReplyTo(db, lost) == UNAVAILABLE
      && ReplyTo(db, heard).body.Answer? && !ReplyTo(db, heard).replayed
      && ReplyTo(Run(Apply(db, lost), steps), lost) == ReplyTo(db, heard).(replayed := true)
      && Apply(Run(Apply(db, lost), steps), lost) == Run(Apply(db, lost), steps)
  {
    var heard := lost.(commit := CommitOk);
    UnknownCommitWrites(db, lost);
    SuccessLeavesReceipt(db, heard, slot);
    ReceiptsStay(Apply(db, lost), steps, slot);
    ReceiptDecides(Run(Apply(db, lost), steps), lost, slot);
  }

  lemma UnknownCommitWrites(db: Db, lost: Step)
    requires lost.Command? && lost.commit == CommitUnknown(true) && Apply(db, lost) != db
    ensures var heard := lost.(commit := CommitOk);
      && ReplyTo(db, lost) == UNAVAILABLE && Apply(db, lost) == Apply(db, heard)
      && ReplyTo(db, heard).body.Answer? && !ReplyTo(db, heard).replayed
  {
  }

  // --- The revision chain --------------------------------------------------

  // A fresh success on a resource.
  predicate Succeeds(db: Db, step: Step, resource: Resource) {
    && step.Command? && ReplyTo(db, step).body.Answer? && !ReplyTo(db, step).replayed
    && step.route.table != NoTable
    && Check(step.route, step.request).0.Some?
    && Target(step.route, step.request, Check(step.route, step.request).0.value.fields) == Some(resource)
  }

  function Expected(step: Step): int
    requires step.Command? && Check(step.route, step.request).0.Some? && step.route.table != NoTable
  {
    Check(step.route, step.request).0.value.expected.value
  }

  function RevisionOf(db: Db, resource: Resource): int {
    if resource in db.revisions then db.revisions[resource] else 0
  }

  // A success found the expected revision and reports the row's new one, which is
  // higher exactly when the row is touched: a trigger sees to that; without one
  // the domain operation must have written the row itself.
  lemma SuccessMovesRevision(db: Db, step: Step, resource: Resource)
    requires Succeeds(db, step, resource)
    ensures RevisionOf(db, resource) == Expected(step)
    ensures RevisionOf(Apply(db, step), resource) == ReplyTo(db, step).body.body.revision >= Expected(step)
    ensures ReplyTo(db, step).body.body.revision > Expected(step)
            <==> step.route.table.Triggered? || resource !in db.revisions || step.handled.updates > 0
  {
  }

  lemma StepKeepsRevision(db: Db, step: Step, resource: Resource)
    requires step != Purged(resource) && resource in db.revisions
    ensures resource in Apply(db, step).revisions && db.revisions[resource] <= Apply(db, step).revisions[resource]
  {
  }

  lemma {:induction false} RevisionsOnlyRise(db: Db, steps: seq<Step>, resource: Resource)
    requires resource in db.revisions && Purged(resource) !in steps
    ensures resource in Run(db, steps).revisions && db.revisions[resource] <= Run(db, steps).revisions[resource]
    decreases |steps|
  {
    if steps != [] {
      var n := |steps| - 1;
      RevisionsOnlyRise(db, steps[..n], resource);
      assert steps[n] in steps;
      StepKeepsRevision(Run(db, steps[..n]), steps[n], resource);
    }
  }

  // A success touched its row: by trigger, insertion or the operation itself.
  predicate Touches(db: Db, step: Step, resource: Resource)
    requires step.Command?
  {
    step.route.table.Triggered? || resource !in db.revisions || step.handled.updates > 0
  }

  // Any two successes on one resource, unless the row was purged in between: the
  // later one expected at least what the earlier one reported, which was above what
  // that one had expected exactly when it touched the row. So no touching success
  // shares its expected revision with another and no update is lost.
  lemma SuccessesFormAChain(db: Db, steps: seq<Step>, resource: Resource, i: nat, j: nat)
    requires i < j < |steps|
    requires Succeeds(Run(db, steps[..i]), steps[i], resource)
    requires Succeeds(Run(db, steps[..j]), steps[j], resource)
    ensures var reported := ReplyTo(Run(db, steps[..i]), steps[i]).body.body.revision;
      && (Expected(steps[i]) < reported <==> Touches(Run(db, steps[..i]), steps[i], resource))
      && (Purged(resource) in steps[i + 1..j] || Expected(steps[i]) <= reported <= Expected(steps[j]))
  {
    SuccessMovesRevision(Run(db, steps[..i]), steps[i], resource);
    SuccessMovesRevision(Run(db, steps[..j]), steps[j], resource);
    SuccessWritesRow(Run(db, steps[..i]), steps[i], resource);
    assert steps[..i + 1][..i] == steps[..i];
    assert steps[..j] == steps[..i + 1] + steps[i + 1..j];
    RunsCompose(db, steps[..i + 1], steps[i + 1..j]);
    if Purged(resource) !in steps[i + 1..j] {
      RevisionsOnlyRise(Run(db, steps[..i + 1]), steps[i + 1..j], resource);
    }
  }

  lemma SuccessWritesRow(db: Db, step: Step, resource: Resource)
    requires Succeeds(db, step, resource)
    ensures resource in Apply(db, step).revisions
  {
  }
}
