// Runs from the empty database that end where the deletion protocol does not do
// what it is for.
module DeletionExamples {
  import opened Wrappers
  import opened CraftskyCollections
  import opened DeletionTables
  import opened SafetyTombstones
  import opened SafetySchedule
  import opened DeletionTransactions
  import opened DeletionSteps
  import opened DeletionInvariant
  import opened DeletionPreservation
  import opened DeletionRuns
  import opened DeletionSafety
  import opened DeletionCredential
  import opened DeletionCompletion
  import opened DeletionStuck

  const JOB: Uuid := 1
  const PROOF: string := "proof"
  const EXPIRY: Time := 600

  // --- Up to the confirmation ----------------------------------------------

  function Dispatches(writes: seq<Attempt>): seq<Step> {
    seq(|writes|, i requires 0 <= i < |writes| => ByService(DispatchWrite(writes[i])))
  }

  // An owner signs up, writes, asks for deletion and reauthenticates.
  function Setup(owner: Did, writes: seq<Attempt>): seq<Step> {
    [ByService(OnboardOwner(owner)), ByService(ActivateOwner(owner, 1))]
    + Dispatches(writes)
    + [ByUser(Begin(2, IntentRecord(JOB, owner, Digest(owner), EXPIRY))),
       ByService(Open(owner, "s")),
       ByUser(Bind(CallbackAttempt(owner, "s", 3, 1), JOB, 1, Digest(PROOF)))]
  }

  predicate WrittenWhileActive(owner: Did, writes: seq<Attempt>) {
    forall write <- writes :: write.owner == owner && write.generation == 2
  }

  function Signed(owner: Did, journal: seq<Attempt>): Db {
    EMPTY.(lifecycles := map[owner := Lifecycle(Active, 2, 1)], journal := journal)
  }

  function Bound(owner: Did, journal: seq<Attempt>): Db {
    Signed(owner, journal).(
      lifecycles := map[owner := Lifecycle(DeletionPending, 3, 1)],
      operations := map[JOB := Operation(owner, 2, StatusIntent, None, Some("s"), None, Some(1), 0, None,
                                         Some(Digest(PROOF)), Some(Digest(owner)), Some(EXPIRY), None)],
      sessions := map[(owner, "s") := Session(DeletionOnly(JOB, 1), 3, 1)],
      used := {JOB})
  }

  lemma RunOne(db: Db, step: Step)
    ensures Run(db, [step]) == Apply(db, step).0
  {
    assert [step][..0] == [];
  }

  lemma RunTwo(db: Db, first: Step, second: Step)
    ensures Run(db, [first, second]) == Apply(Apply(db, first).0, second).0
  {
    assert [first, second][..1] == [first];
    RunOne(db, first);
  }

  lemma SigningUp(owner: Did)
    ensures Run(EMPTY, [ByService(OnboardOwner(owner)), ByService(ActivateOwner(owner, 1))]) == Signed(owner, [])
  {
    RunTwo(EMPTY, ByService(OnboardOwner(owner)), ByService(ActivateOwner(owner, 1)));
    var onboarded := Onboard(EMPTY, owner);
    assert onboarded.lifecycles == map[owner := Lifecycle(Departed, 1, 1)];
    var active := Activate(onboarded, owner, 1);
    assert active.1 == Done;
    assert active.0.lifecycles == map[owner := Lifecycle(Active, 2, 1)];
    assert active.0.sessions == map[];
  }

  lemma WritingOne(owner: Did, journal: seq<Attempt>, write: Attempt)
    requires write.owner == owner && write.generation == 2
    ensures Apply(Signed(owner, journal), ByService(DispatchWrite(write))).0 == Signed(owner, journal + [write])
  {
  }

  lemma {:induction false} Writing(owner: Did, writes: seq<Attempt>)
    requires WrittenWhileActive(owner, writes)
    ensures Run(Signed(owner, []), Dispatches(writes)) == Signed(owner, writes)
    decreases |writes|
  {
    if writes != [] {
      var n := |writes| - 1;
      Writing(owner, writes[..n]);
      assert writes[n] in writes;
      WritingOne(owner, writes[..n], writes[n]);
      assert writes == writes[..n] + [writes[n]];
      LastDispatch(owner, writes);
    }
  }

  lemma LastDispatch(owner: Did, writes: seq<Attempt>)
    requires writes != []
    ensures var n := |writes| - 1;
      Run(Signed(owner, []), Dispatches(writes))
      == Apply(Run(Signed(owner, []), Dispatches(writes[..n])), ByService(DispatchWrite(writes[n]))).0
  {
    assert Dispatches(writes)[..|writes| - 1] == Dispatches(writes[..|writes| - 1]);
  }

  lemma Asking(owner: Did, journal: seq<Attempt>)
    ensures Run(Signed(owner, journal),
                [ByUser(Begin(2, IntentRecord(JOB, owner, Digest(owner), EXPIRY))),
                 ByService(Open(owner, "s")),
                 ByUser(Bind(CallbackAttempt(owner, "s", 3, 1), JOB, 1, Digest(PROOF)))]) == Bound(owner, journal)
  {
    var begin := ByUser(Begin(2, IntentRecord(JOB, owner, Digest(owner), EXPIRY)));
    var open := ByService(Open(owner, "s"));
    var bind := ByUser(Bind(CallbackAttempt(owner, "s", 3, 1), JOB, 1, Digest(PROOF)));
    assert [begin, open, bind][..2] == [begin, open];
    RunTwo(Signed(owner, journal), begin, open);
    Opened(owner, journal, begin, open);
    BindingUp(owner, journal, bind);
  }

  function Reauthenticating(owner: Did, journal: seq<Attempt>): Db {
    Bound(owner, journal).(
      operations := map[JOB := NewIntent(IntentRecord(JOB, owner, Digest(owner), EXPIRY), 2)],
      sessions := map[(owner, "s") := Session(PendingHandoff, 3, 1)])
  }

  lemma Opened(owner: Did, journal: seq<Attempt>, begin: Step, open: Step)
    requires begin == ByUser(Begin(2, IntentRecord(JOB, owner, Digest(owner), EXPIRY)))
    requires open == ByService(Open(owner, "s"))
    ensures Apply(Apply(Signed(owner, journal), begin).0, open).0 == Reauthenticating(owner, journal)
  {
    var begun := Apply(Signed(owner, journal), begin);
    assert begun.1 == Done;
    assert begun.0.lifecycles == map[owner := Lifecycle(DeletionPending, 3, 1)];
    assert begun.0.used == {JOB};
  }

  lemma BindingUp(owner: Did, journal: seq<Attempt>, bind: Step)
    requires bind == ByUser(Bind(CallbackAttempt(owner, "s", 3, 1), JOB, 1, Digest(PROOF)))
    ensures Apply(Reauthenticating(owner, journal), bind).0 == Bound(owner, journal)
  {
    assert Apply(Reauthenticating(owner, journal), bind).1 == Done;
  }

  lemma SetupLeadsToBound(owner: Did, writes: seq<Attempt>)
    requires WrittenWhileActive(owner, writes)
    ensures Run(EMPTY, Setup(owner, writes)) == Bound(owner, writes) && Inv(Bound(owner, writes))
  {
    SigningUp(owner);
    Writing(owner, writes);
    Asking(owner, writes);
    var first := [ByService(OnboardOwner(owner)), ByService(ActivateOwner(owner, 1))];
    var last := [ByUser(Begin(2, IntentRecord(JOB, owner, Digest(owner), EXPIRY))),
                 ByService(Open(owner, "s")),
                 ByUser(Bind(CallbackAttempt(owner, "s", 3, 1), JOB, 1, Digest(PROOF)))];
    RunsCompose(EMPTY, first, Dispatches(writes));
    RunsCompose(EMPTY, first + Dispatches(writes), last);
    ReachableStatesSatisfyInv(Setup(owner, writes));
  }

  // --- The confirmation ----------------------------------------------------

  function Request(owner: Did): AcceptanceRequest {
    AcceptanceRequest(JOB, owner, PROOF, owner)
  }

  const BINDING: CredentialBinding := CredentialBinding(JOB, "s", 1)

  function Write(owner: Did, source: string, collection: Nsid): Attempt {
    Attempt(source, owner, 2, AtUri(owner, collection, "k"), Command, true, true)
  }

  lemma ConfirmationIsValid(owner: Did, writes: seq<Attempt>)
    ensures var db := Bound(owner, writes);
      && TransitionCheck(db, owner, 3, Deleting) == Done && AcceptCheck(db, Request(owner), BINDING) == Done
      && PreservesCredential(db, owner, BINDING)
  {
  }

  // One event written just before asking, outcome unknown: no confirmation of the
  // reauthenticated owner is ever accepted, whatever ids it comes with.
  lemma UncertainEventRefusesAcceptance(owner: Did, ids: seq<Uuid>)
    requires FreshIds({JOB}, ids) && |ids| >= 1
    ensures var db := Run(EMPTY, Setup(owner, [Write(owner, "w", BusinessEvent)]));
      Accept(db, 3, Request(owner), BINDING, ids) == (db, Failed)
  {
    var row := Write(owner, "w", BusinessEvent);
    SetupLeadsToBound(owner, [row]);
    ConfirmationIsValid(owner, [row]);
    AcceptanceRefusedExactlyWhenBlocked(Bound(owner, [row]), 3, Request(owner), BINDING, ids);
    BusinessWritesBlock(row, owner);
    assert row in [row];
  }

  lemma PostsAreAdopted(owner: Did, sources: seq<string>, ids: seq<Uuid>)
    requires FreshIds({JOB}, ids) && |ids| >= |sources|
    ensures var db := Bound(owner, Posts(owner, sources));
      Accept(db, 3, Request(owner), BINDING, ids).1 == Done
  {
    ConfirmationIsValid(owner, Posts(owner, sources));
    AcceptanceRefusedExactlyWhenBlocked(Bound(owner, Posts(owner, sources)), 3, Request(owner), BINDING, ids);
    AdmittedIsRegistered();
  }

  // Uncertain writes of one post, one dispatch for each source.
  function Posts(owner: Did, sources: seq<string>): seq<Attempt> {
    seq(|sources|, i requires 0 <= i < |sources| => Write(owner, sources[i], FeedPost))
  }

  // One post of unknown outcome: the deletion is accepted, and without a settlement
  // from outside nothing that happens afterwards completes it.
  lemma UncertainPostBlocksForever(owner: Did, steps: seq<Step>)
    requires forall step <- steps :: !Settles(step)
    ensures var db := Run(EMPTY, Setup(owner, Posts(owner, ["w"])));
      var (after, outcome) := Accept(db, 3, Request(owner), BINDING, [2]);
      outcome == Done && JOB in Run(after, steps).operations
  {
    var posts := Posts(owner, ["w"]);
    var db := Bound(owner, posts);
    SetupLeadsToBound(owner, posts);
    PostsAreAdopted(owner, ["w"], [2]);
    assert posts[0] in db.journal;
    AdmittedIsRegistered();
    if JOB !in Run(Accept(db, 3, Request(owner), BINDING, [2]).0, steps).operations {
      UncertainWriteAtAcceptanceBlocksCompletion(db, 3, Request(owner), BINDING, [2], posts[0], steps);
      var id :| ByService(SettleRecord(id)) in steps;
      assert Settles(ByService(SettleRecord(id)));
    }
  }

  lemma SecondPostIsNotNamed(owner: Did)
    ensures var posts := Posts(owner, ["w", "v"]);
      Adoptable(posts[1], owner) && !NamedFirst(UncertainWrites(posts, owner, 2), owner, "v")
  {
    var posts := Posts(owner, ["w", "v"]);
    var rows := UncertainWrites(posts, owner, 2);
    AdmittedIsRegistered();
    assert posts[1..] == [posts[1]] && [posts[1]][1..] == [];
    assert UncertainWrites([], owner, 2) == [] && UncertainWrites([posts[1]], owner, 2) == [posts[1]];
    assert rows == [posts[0], posts[1]];
    assert Adoptable(rows[0], owner) && rows[0].key == rows[1].key;
    assert !FirstOfItsKey(rows, owner, 1);
  }

  // Two writes of one post, both of unknown outcome: even with every tombstone
  // settled from outside the job is never completed, as long as the second write's
  // outcome stays unknown.
  lemma SecondUncertainWriteBlocksForever(owner: Did, steps: seq<Step>)
    requires forall step <- steps :: !Tracks(step, JOB, 1, "v")
    ensures var db := Run(EMPTY, Setup(owner, Posts(owner, ["w", "v"])));
      var (after, outcome) := Accept(db, 3, Request(owner), BINDING, [2, 3]);
      outcome == Done && JOB in Run(after, steps).operations
  {
    var posts := Posts(owner, ["w", "v"]);
    var db := Bound(owner, posts);
    SetupLeadsToBound(owner, posts);
    PostsAreAdopted(owner, ["w", "v"], [2, 3]);
    SecondPostIsNotNamed(owner);
    SecondWriteOfAKeyIsNeverTracked(db, 3, Request(owner), BINDING, [2, 3], 1, steps);
  }

  // --- A lost credential ---------------------------------------------------

  function AcceptedDb(owner: Did): Db {
    Accept(Bound(owner, []), 3, Request(owner), BINDING, []).0
  }

  lemma AcceptedIsUsable(owner: Did)
    ensures Accept(Bound(owner, []), 3, Request(owner), BINDING, []).1 == Done
    ensures AcceptedDb(owner) == Run(EMPTY, Setup(owner, []) + [ByUser(Confirm(3, Request(owner), BINDING, []))])
    ensures Inv(AcceptedDb(owner)) && Usable(AcceptedDb(owner), JOB)
    ensures AcceptedDb(owner).operations[JOB].owner == owner
            && AcceptedDb(owner).operations[JOB].deletionSession == Some("s")
    ensures owner in AcceptedDb(owner).lifecycles && (owner, "t") !in AcceptedDb(owner).sessions
  {
    assert Posts(owner, []) == [];
    PostsAreAdopted(owner, [], []);
    SetupLeadsToBound(owner, []);
    AcceptedIsReached(owner);
    BoundBecomesUsable(Bound(owner, []), owner);
  }

  lemma AcceptedIsReached(owner: Did)
    requires Run(EMPTY, Setup(owner, [])) == Bound(owner, [])
    ensures AcceptedDb(owner) == Run(EMPTY, Setup(owner, []) + [ByUser(Confirm(3, Request(owner), BINDING, []))])
  {
    RunsCompose(EMPTY, Setup(owner, []), [ByUser(Confirm(3, Request(owner), BINDING, []))]);
    RunOne(Bound(owner, []), ByUser(Confirm(3, Request(owner), BINDING, [])));
  }

  lemma BoundBecomesUsable(db: Db, owner: Did)
    requires Inv(db) && Accept(db, 3, Request(owner), BINDING, []).1 == Done && (owner, "t") !in db.sessions
    ensures var after := Accept(db, 3, Request(owner), BINDING, []).0;
      && Inv(after) && Usable(after, JOB)
      && after.operations[JOB].owner == owner && after.operations[JOB].deletionSession == Some("s")
      && owner in after.lifecycles && (owner, "t") !in after.sessions
  {
    AcceptKeeps(db, 3, Request(owner), BINDING, []);
  }

  lemma ExpiryStrands(db: Db, job: Uuid)
    requires Inv(db) && Usable(db, job)
    ensures Inv(ExpireCredential(db, job).0) && Stranded(ExpireCredential(db, job).0, job)
  {
    assert Shaped(db.operations[job]);
    StepKeepsInv(db, ByService(ExpireBoundSession(job)));
  }

  lemma ExpiryStrandsForever(db: Db, job: Uuid, steps: seq<Step>)
    requires Inv(db) && Usable(db, job)
    ensures var after := Apply(db, ByService(ExpireBoundSession(job))).0;
      Stranded(after, job) && Stranded(Run(after, steps), job)
  {
    ExpiryStrands(db, job);
    LostCredentialStrandsTheDeletion(ExpireCredential(db, job).0, steps, job);
  }

  // The bound session expires after acceptance: the job stays as it is over every run.
  lemma ExpiredCredentialStrandsForever(owner: Did, steps: seq<Step>)
    ensures var db := Apply(AcceptedDb(owner), ByService(ExpireBoundSession(JOB))).0;
      Stranded(db, JOB) && Stranded(Run(db, steps), JOB)
  {
    AcceptedIsUsable(owner);
    ghost var db := AcceptedDb(owner);
    ExpiryStrandsForever(db, JOB, steps);
  }

  // What the refresh from a login would do, if a sign-in called it while the
  // credential is still good: it replaces the credential, and over every run the job
  // has none any more.
  lemma RefreshFromLoginEndsTheCredential(owner: Did, steps: seq<Step>)
    ensures var signedOn := Apply(AcceptedDb(owner), ByService(Open(owner, "t"))).0;
      var (after, outcome) := Apply(signedOn, ByUser(Relogin(owner, "t")));
      && Usable(signedOn, JOB) && outcome == Done
      && IsAccepted(after, JOB) && after.operations[JOB].Runnable()
      && !Usable(Run(after, steps), JOB)
  {
    AcceptedIsUsable(owner);
    var signedOn := AnotherSessionOpens(AcceptedDb(owner), owner);
    var after := SignedInOver(signedOn, owner);
    CredentialLastsUntilEnded(after, steps, JOB);
  }

  lemma AnotherSessionOpens(db: Db, owner: Did) returns (signedOn: Db)
    requires Inv(db) && Usable(db, JOB) && db.operations[JOB].owner == owner
    requires db.operations[JOB].deletionSession == Some("s") && owner in db.lifecycles
    ensures signedOn == Apply(db, ByService(Open(owner, "t"))).0
    ensures Inv(signedOn) && Usable(signedOn, JOB) && signedOn.operations[JOB] == db.operations[JOB]
    ensures (owner, "t") in signedOn.sessions
  {
    signedOn := OpenSession(db, owner, "t");
    SessionStepsKeep(db, owner, "t");
    OtherServiceEndsNone(db, ByService(Open(owner, "t")).service, JOB);
  }

  lemma SignedInOver(signedOn: Db, owner: Did) returns (after: Db)
    requires Inv(signedOn) && Usable(signedOn, JOB) && signedOn.operations[JOB].owner == owner
    requires signedOn.operations[JOB].deletionSession == Some("s") && (owner, "t") in signedOn.sessions
    ensures Apply(signedOn, ByUser(Relogin(owner, "t"))) == (after, Done)
    ensures Inv(after) && IsAccepted(after, JOB) && after.operations[JOB].Runnable() && !Usable(after, JOB)
  {
    after := RefreshBoundOAuth(signedOn, owner, "t").0;
    RefreshKeeps(signedOn, owner, "t");
    RefreshedOver(signedOn, owner);
  }

  lemma RefreshedOver(signedOn: Db, owner: Did)
    requires Inv(signedOn) && Usable(signedOn, JOB) && signedOn.operations[JOB].owner == owner
    requires signedOn.operations[JOB].deletionSession == Some("s") && (owner, "t") in signedOn.sessions
    ensures var (after, outcome) := RefreshBoundOAuth(signedOn, owner, "t");
      outcome == Done && IsAccepted(after, JOB) && after.operations[JOB].Runnable() && !Usable(after, JOB)
  {
    assert Shaped(signedOn.operations[JOB]);
  }

  // --- Logging out with a bound intent -------------------------------------

  lemma LogoutStrandsBound(owner: Did)
    requires Inv(Bound(owner, []))
    ensures StuckFor(LogoutEverywhere(Bound(owner, []), owner).0, JOB, owner)
    ensures Inv(LogoutEverywhere(Bound(owner, []), owner).0)
  {
    LogoutKeeps(Bound(owner, []), owner);
  }

  // The owner reauthenticates and then logs out everywhere: over every run the intent
  // stays, whoever tries to cancel, expire or confirm it, and the owner stays pending.
  lemma LogoutStrandsTheIntent(owner: Did, steps: seq<Step>)
    ensures var db := Run(EMPTY, Setup(owner, []) + [ByService(LogoutAll(owner))]);
      var later := Run(db, steps);
      && Stuck(db, JOB) && Stuck(later, JOB)
      && owner in later.lifecycles && later.lifecycles[owner].state.DeletionPending?
  {
    SetupLeadsToBound(owner, []);
    LogoutStrandsBound(owner);
    LogoutIsReached(owner);
    var db := LogoutEverywhere(Bound(owner, []), owner).0;
    StuckForeverFor(db, steps, owner);
  }

  lemma LogoutIsReached(owner: Did)
    requires Run(EMPTY, Setup(owner, [])) == Bound(owner, [])
    ensures Run(EMPTY, Setup(owner, []) + [ByService(LogoutAll(owner))]) == LogoutEverywhere(Bound(owner, []), owner).0
  {
    RunsCompose(EMPTY, Setup(owner, []), [ByService(LogoutAll(owner))]);
    RunOne(Bound(owner, []), ByService(LogoutAll(owner)));
  }

  lemma StuckForeverFor(db: Db, steps: seq<Step>, owner: Did)
    requires Inv(db) && StuckFor(db, JOB, owner)
    ensures var later := Run(db, steps);
      Stuck(later, JOB) && owner in later.lifecycles && later.lifecycles[owner].state.DeletionPending?
  {
    StuckForever(db, steps, JOB);
  }
}
