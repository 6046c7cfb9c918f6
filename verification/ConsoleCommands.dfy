// Operator commands: each commits its domain effect together with a receipt, so a
// retried key replays instead of acting twice, and each names the revision it
// expects.
module ConsoleCommands {
  import opened Wrappers
  import opened ConsoleRequests

  type Actor = string
  type IdempotencyKey = string

  // Triggered tables raise a row's revision on every update; the eligibility table
  // has no such trigger, and a missing row there counts as revision 0.
  datatype Table = NoTable | Triggered(name: string) | Eligibility

  datatype Resource = Resource(table: Table, id: string)

  // Digests stand for what they digest.
  datatype Fingerprint = Fingerprint(verb: string, path: string, fields: Fields)

  datatype Body = Body(result: Fields, revision: int)

  datatype Receipt = Receipt(fingerprint: Fingerprint, status: int, body: Body)

  // One committed domain operation.
  datatype Effect = Effect(
    actor: Actor, key: IdempotencyKey, fingerprint: Fingerprint,
    resource: Option<Resource>, expected: int, revision: int)

  datatype Db = Db(
    receipts: map<(Actor, IdempotencyKey), Receipt>,
    revisions: map<Resource, int>,
    effects: seq<Effect>)

  datatype Route = Route(table: Table, validKey: string -> bool, isDid: string -> bool)

  datatype Request = Request(
    actor: Option<Actor>,
    keys: seq<IdempotencyKey>,        // the Idempotency-Key header values
    verb: string, path: string, query: string,
    body: Option<seq<Token>>,         // None: unreadable or too large
    pathId: Option<string>)           // the path's resource id, if it parses

  // What the domain handler did inside the transaction.
  datatype HandlerBody = NoBody | ObjectBody(fields: Fields) | BadBody
  datatype Handled = Handled(
    status: int,        // 0: nothing was written
    body: HandlerBody,
    updates: nat,       // how often it updated the resource's row
    present: bool,      // whether the row is there afterwards
    storable: bool)     // whether the response fits a receipt

  datatype CommitReply = CommitOk | CommitRolledBack | CommitUnknown(applied: bool)

  datatype ReplyBody = Answer(body: Body) | HandlerError | Problem(code: string)
  datatype Reply = Reply(status: int, body: ReplyBody, replayed: bool)

  function Refusal(status: int, code: string): Reply {
    Reply(status, Problem(code), false)
  }

  const UNAVAILABLE: Reply := Refusal(503, "safety_command_unavailable")
  const INVALID: Reply := Refusal(400, "invalid_request")

  // --- The request's own claims --------------------------------------------

  datatype Claim = Claim(actor: Actor, key: IdempotencyKey, fingerprint: Fingerprint, expected: Option<int>,
    fields: Fields)

  // Everything checked before the transaction begins.
  function Check(route: Route, request: Request): (Option<Claim>, Reply) {
    if request.actor.None? then (None, Refusal(401, "moderator_authentication_failed"))
    else if |request.keys| != 1 || !route.validKey(request.keys[0]) then (None, Refusal(400, "invalid_idempotency_key"))
    else if request.body.None? then (None, INVALID)
    else
      var fields := Parse(request.body.value);
      if fields.None? || request.query != "" then (None, INVALID)
      else
        match ExpectedRevision(fields.value)
        case BadRevision => (None, INVALID)
        case NoRevision =>
          if route.table != NoTable then (None, INVALID)
          else (Some(ClaimOf(request, fields.value, None)), INVALID)
        case Revision(n) => (Some(ClaimOf(request, fields.value, Some(n))), INVALID)
  }

  datatype RevisionField = NoRevision | BadRevision | Revision(n: int)

  const MAX_INT64: int := 0x7FFF_FFFF_FFFF_FFFF

  function ExpectedRevision(fields: Fields): RevisionField {
    if "expectedRevision" !in fields then NoRevision
    else if fields["expectedRevision"].Number? && 0 <= fields["expectedRevision"].n <= MAX_INT64
    then Revision(fields["expectedRevision"].n) else BadRevision
  }

  function ClaimOf(request: Request, fields: Fields, expected: Option<int>): Claim
    requires request.actor.Some? && |request.keys| == 1
  {
    Claim(request.actor.value, request.keys[0], Fingerprint(request.verb, request.path, fields), expected,
          fields - {"expectedRevision"})
  }

  function Target(route: Route, request: Request, fields: Fields): Option<Resource> {
    if route.table.Eligibility? then
      if "accountDid" in fields && fields["accountDid"].Text? && route.isDid(fields["accountDid"].s)
      then Some(Resource(Eligibility, fields["accountDid"].s)) else None
    else if request.pathId.Some? then Some(Resource(route.table, request.pathId.value)) else None
  }

  // --- The transaction -----------------------------------------------------

  // The row's revision once the handler is done and the row is sure to be touched.
  function RevisionAfter(db: Db, resource: Resource, handled: Handled, expected: int): int {
    var handledRevision := if resource in db.revisions then db.revisions[resource] + handled.updates
      else 1 + handled.updates;
    if handledRevision == expected && resource.table.Triggered? then handledRevision + 1 else handledRevision
  }

  function FinalStatus(status: int): int {
    if status == 0 || status == 204 then 200 else status
  }

  predicate Storable(handled: Handled) {
    handled.storable && !handled.body.BadBody? && 200 <= FinalStatus(handled.status) <= 299
  }

  function ResultOf(body: HandlerBody): Fields {
    match body
    case ObjectBody(fields) => fields - {"revision"}
    case _ => map[]
  }

  // The effect, the row and the receipt, all or none.
  function Finish(
    db: Db, claim: Claim, resource: Option<Resource>, revision: int, handled: Handled, commit: CommitReply): (Db, Reply)
  {
    var body := Body(ResultOf(handled.body), revision);
    var status := FinalStatus(handled.status);
    var expected := if claim.expected.Some? then claim.expected.value else 0;
    var after := Db(
      db.receipts[(claim.actor, claim.key) := Receipt(claim.fingerprint, status, body)],
      if resource.Some? then db.revisions[resource.value := revision] else db.revisions,
      db.effects + [Effect(claim.actor, claim.key, claim.fingerprint, resource, expected, revision)]);
    match commit
    case CommitOk => (after, Reply(status, Answer(body), false))
    case CommitRolledBack => (db, UNAVAILABLE)
    case CommitUnknown(applied) => (if applied then after else db, UNAVAILABLE)
  }

  function Act(route: Route, db: Db, request: Request, claim: Claim, handled: Handled, commit: CommitReply): (Db, Reply)
    requires route.table != NoTable ==> claim.expected.Some?
  {
    if route.table == NoTable then
      if handled.status >= 400 then (db, Reply(handled.status, HandlerError, false))
      else if !Storable(handled) then (db, UNAVAILABLE)
      else Finish(db, claim, None, 0, handled, commit)
    else
      match Target(route, request, claim.fields)
      case None => (db, INVALID)
      case Some(resource) =>
        if resource !in db.revisions && !route.table.Eligibility? then (db, Refusal(404, "not_found"))
        else
          var revision := if resource in db.revisions then db.revisions[resource] else 0;
          if revision != claim.expected.value then (db, Refusal(409, "resource_revision_conflict"))
          else if handled.status >= 400 then (db, Reply(handled.status, HandlerError, false))
          else if !handled.present || !Storable(handled) then (db, UNAVAILABLE)
          else Finish(db, claim, Some(resource), RevisionAfter(db, resource, handled, revision), handled, commit)
  }

  function Execute(route: Route, db: Db, request: Request, handled: Handled, commit: CommitReply): (Db, Reply) {
    var (claim, refusal) := Check(route, request);
    if claim.None? then (db, refusal)
    else
      var slot := (claim.value.actor, claim.value.key);
      if slot in db.receipts then
        var receipt := db.receipts[slot];
        (db, if receipt.fingerprint != claim.value.fingerprint then Refusal(409, "idempotency_conflict")
             else Reply(receipt.status, Answer(receipt.body), true))
      else Act(route, db, request, claim.value, handled, commit)
  }

  // --- What a command comes to ---------------------------------------------

  // One operator, one usable key, and a JSON object that names the revision it
  // expects, or needs none.
  predicate WellFormed(route: Route, request: Request) {
    && request.actor.Some? && |request.keys| == 1 && route.validKey(request.keys[0])
    && request.body.Some? && Parse(request.body.value).Some? && request.query == ""
    && var fields := Parse(request.body.value).value;
    && (if "expectedRevision" in fields
        then fields["expectedRevision"].Number? && 0 <= fields["expectedRevision"].n <= MAX_INT64
        else route.table == NoTable)
  }

  function SlotOf(request: Request): (Actor, IdempotencyKey)
    requires request.actor.Some? && |request.keys| == 1
  {
    (request.actor.value, request.keys[0])
  }

  function PrintOf(route: Route, request: Request): Fingerprint
    requires WellFormed(route, request)
  {
    Fingerprint(request.verb, request.path, Parse(request.body.value).value)
  }

  function ExpectedOf(route: Route, request: Request): int
    requires WellFormed(route, request)
  {
    var fields := Parse(request.body.value).value;
    if "expectedRevision" in fields then fields["expectedRevision"].n else 0
  }

  // The row the command is about: an account named in the body, or the path's id.
  predicate Names(route: Route, request: Request, resource: Resource)
    requires WellFormed(route, request)
  {
    resource.table == route.table
    && if route.table.Eligibility? then
      var fields := Parse(request.body.value).value;
      && "accountDid" in fields && fields["accountDid"] == Text(resource.id) && route.isDid(resource.id)
    else request.pathId == Some(resource.id)
  }

  // The row is at the expected revision; a missing eligibility row counts as 0.
  predicate AtExpected(route: Route, db: Db, request: Request, resource: Resource)
    requires WellFormed(route, request)
  {
    && Names(route, request, resource)
    && (if resource in db.revisions then db.revisions[resource] == ExpectedOf(route, request)
        else route.table.Eligibility? && ExpectedOf(route, request) == 0)
  }

  // The handler's answer can be kept: a success that fits a receipt.
  predicate Keepable(handled: Handled) {
    && (handled.status == 0 || 200 <= handled.status <= 299) && !handled.body.BadBody? && handled.storable
  }

  // A first command for its key that finds its row as expected and is answered.
  ghost predicate Acts(route: Route, db: Db, request: Request, handled: Handled) {
    && WellFormed(route, request) && SlotOf(request) !in db.receipts && Keepable(handled)
    && (route.table != NoTable ==>
          handled.present && exists resource :: AtExpected(route, db, request, resource))
  }

  // The reply carries what the handler answered, and the row's revision apart.
  ghost predicate Carries(result: Fields, handled: Handled) {
    forall name :: (name in result
                    <==> handled.body.ObjectBody? && name in handled.body.fields && name != "revision")
      && (name in result ==> handled.body.ObjectBody? && name in handled.body.fields
                             && result[name] == handled.body.fields[name])
  }

  // How far the handler's writes, and if there were none the trigger, move the row.
  function MovedTo(db: Db, resource: Resource, handled: Handled, expected: int): int {
    var written := (if resource in db.revisions then db.revisions[resource] else 1) + handled.updates;
    if written == expected && resource.table.Triggered? then written + 1 else written
  }

  // One effect and one receipt, and no row but the command's own is touched.
  ghost predicate Effected(route: Route, before: Db, after: Db, request: Request, handled: Handled, status: int,
                           body: Body)
    requires WellFormed(route, request)
  {
    var slot, fingerprint, expected := SlotOf(request), PrintOf(route, request), ExpectedOf(route, request);
    && Carries(body.result, handled)
    && status == (if handled.status in {0, 204} then 200 else handled.status)
    && after.receipts == before.receipts[slot := Receipt(fingerprint, status, body)]
    && (if route.table == NoTable then
          && body.revision == 0 && after.revisions == before.revisions
          && after.effects == before.effects + [Effect(slot.0, slot.1, fingerprint, None, expected, 0)]
        else
          exists resource ::
            && AtExpected(route, before, request, resource)
            && body.revision == MovedTo(before, resource, handled, expected)
            && after.revisions == before.revisions[resource := body.revision]
            && after.effects
                 == before.effects + [Effect(slot.0, slot.1, fingerprint, Some(resource), expected, body.revision)])
  }

  lemma ClaimsOfWellFormed(route: Route, request: Request)
    ensures Check(route, request).0.Some? <==> WellFormed(route, request)
    ensures WellFormed(route, request) ==>
              var claim := Check(route, request).0.value;
              && (claim.actor, claim.key) == SlotOf(request) && claim.fingerprint == PrintOf(route, request)
              && (route.table != NoTable ==> claim.expected == Some(ExpectedOf(route, request)))
              && (claim.expected.Some? ==> claim.expected.value == ExpectedOf(route, request))
              && (claim.expected.None? ==> ExpectedOf(route, request) == 0)
              && claim.fields == Parse(request.body.value).value - {"expectedRevision"}
  {
  }

  lemma TargetIsNamed(route: Route, request: Request)
    requires WellFormed(route, request) && route.table != NoTable
    ensures var target := Target(route, request, Parse(request.body.value).value - {"expectedRevision"});
      forall resource :: Names(route, request, resource) <==> target == Some(resource)
  {
  }

  lemma ResultCarries(handled: Handled)
    requires !handled.body.BadBody?
    ensures Carries(ResultOf(handled.body), handled)
  {
  }

  lemma TransactionEffect(route: Route, db: Db, request: Request, handled: Handled, commit: CommitReply)
    requires WellFormed(route, request) && SlotOf(request) !in db.receipts
    ensures var (after, reply) := Execute(route, db, request, handled, commit);
      && (Acts(route, db, request, handled) ==>
            && (commit.CommitOk? ==>
                  reply.body.Answer? && !reply.replayed
                  && Effected(route, db, after, request, handled, reply.status, reply.body.body))
            && (!commit.CommitOk? ==> reply == UNAVAILABLE)
            && (commit == CommitUnknown(true) ==>
                  exists status, body :: Effected(route, db, after, request, handled, status, body))
            && (commit in {CommitRolledBack, CommitUnknown(false)} ==> after == db))
      && (!Acts(route, db, request, handled) ==> after == db && !reply.body.Answer?)
  {
    ClaimsOfWellFormed(route, request);
    ResultCarriesIfKept(handled);
    var claim := Check(route, request).0.value;
    if route.table == NoTable {
      if Acts(route, db, request, handled) && commit != CommitRolledBack && commit != CommitUnknown(false) {
        assert Effected(route, db, Execute(route, db, request, handled, commit).0, request, handled,
                        FinalStatus(handled.status), Body(ResultOf(handled.body), 0));
      }
    } else {
      TargetIsNamed(route, request);
      var target := Target(route, request, claim.fields);
      if target.Some? {
        RowDecides(route, db, request, target.value);
        if Acts(route, db, request, handled) && commit != CommitRolledBack && commit != CommitUnknown(false) {
          var revision := RevisionAfter(db, target.value, handled, ExpectedOf(route, request));
          assert AtExpected(route, db, request, target.value);
          assert Effected(route, db, Execute(route, db, request, handled, commit).0, request, handled,
                          FinalStatus(handled.status), Body(ResultOf(handled.body), revision));
        }
      }
    }
  }

  lemma ResultCarriesIfKept(handled: Handled)
    ensures Keepable(handled) ==> Carries(ResultOf(handled.body), handled)
    ensures Keepable(handled) <==> handled.status < 400 && Storable(handled)
  {
  }

  lemma RowDecides(route: Route, db: Db, request: Request, resource: Resource)
    requires WellFormed(route, request) && route.table != NoTable
    requires forall other :: Names(route, request, other) <==> other == resource
    ensures (exists other :: AtExpected(route, db, request, other)) <==> AtExpected(route, db, request, resource)
  {
  }

  // The whole of it: refused at the door, answered from the receipt, or acted on.
  lemma CommandEffect(route: Route, db: Db, request: Request, handled: Handled, commit: CommitReply)
    ensures var (after, reply) := Execute(route, db, request, handled, commit);
      && (!WellFormed(route, request) ==> after == db && reply.body.Problem?)
      && (WellFormed(route, request) && SlotOf(request) in db.receipts ==>
            && after == db
            && var receipt := db.receipts[SlotOf(request)];
               reply == if receipt.fingerprint == PrintOf(route, request)
                        then Reply(receipt.status, Answer(receipt.body), true)
                        else Refusal(409, "idempotency_conflict"))
      && (reply.body.Answer? && !reply.replayed <==> Acts(route, db, request, handled) && commit.CommitOk?)
      && (reply.body.Answer? && !reply.replayed ==>
            Effected(route, db, after, request, handled, reply.status, reply.body.body))
      && (after != db ==> Acts(route, db, request, handled) && (commit.CommitOk? || commit == CommitUnknown(true)))
      && (Acts(route, db, request, handled) && commit == CommitUnknown(true) ==>
            reply == UNAVAILABLE && exists status, body :: Effected(route, db, after, request, handled, status, body))
  {
    ClaimsOfWellFormed(route, request);
    if WellFormed(route, request) && SlotOf(request) !in db.receipts {
      TransactionEffect(route, db, request, handled, commit);
    }
  }

  // What a refusal says: who is asking, which row is missing or has moved on, or the
  // handler's own status.
  lemma RefusalsTellWhy(route: Route, db: Db, request: Request, handled: Handled, commit: CommitReply)
    ensures var reply := Execute(route, db, request, handled, commit).1;
      && (request.actor.None? <==> reply == Refusal(401, "moderator_authentication_failed"))
      && (request.actor.Some? ==>
            (reply == Refusal(400, "invalid_idempotency_key")
             <==> |request.keys| != 1 || !route.validKey(request.keys[0])))
      && (WellFormed(route, request) && SlotOf(request) !in db.receipts && route.table != NoTable ==>
            && ((forall resource :: !Names(route, request, resource)) ==> reply == INVALID)
            && forall resource :: Names(route, request, resource) ==>
                 && (reply == Refusal(404, "not_found")
                     <==> resource !in db.revisions && !route.table.Eligibility?)
                 && (reply == Refusal(409, "resource_revision_conflict")
                     <==> (resource in db.revisions || route.table.Eligibility?)
                          && !AtExpected(route, db, request, resource))
                 && (AtExpected(route, db, request, resource) && handled.status >= 400 ==>
                       reply == Reply(handled.status, HandlerError, false)))
      && (WellFormed(route, request) && SlotOf(request) !in db.receipts ==>
            route.table == NoTable && handled.status >= 400 ==> reply == Reply(handled.status, HandlerError, false))
  {
    ClaimsOfWellFormed(route, request);
    if WellFormed(route, request) && SlotOf(request) !in db.receipts && route.table != NoTable {
      TargetIsNamed(route, request);
      RowRefusals(route, db, request, handled, commit);
    }
  }

  lemma RowRefusals(route: Route, db: Db, request: Request, handled: Handled, commit: CommitReply)
    requires WellFormed(route, request) && SlotOf(request) !in db.receipts && route.table != NoTable
    ensures var reply := Execute(route, db, request, handled, commit).1;
      match Target(route, request, Parse(request.body.value).value - {"expectedRevision"})
      case None => reply == INVALID
      case Some(resource) =>
        var known := resource in db.revisions || route.table.Eligibility?;
        var expected := (if resource in db.revisions then db.revisions[resource] else 0) == ExpectedOf(route, request);
        && (reply == Refusal(404, "not_found") <==> !known)
        && (reply == Refusal(409, "resource_revision_conflict") <==> known && !expected)
        && (known && expected && handled.status >= 400 ==> reply == Reply(handled.status, HandlerError, false))
  {
    ClaimsOfWellFormed(route, request);
  }

  // --- The handler ---------------------------------------------------------

  class CommandServer {
    var receipts: map<(Actor, IdempotencyKey), Receipt>
    var revisions: map<Resource, int>
    var effects: seq<Effect>

    function State(): Db
      reads this
    {
      Db(receipts, revisions, effects)
    }

    constructor ()
      ensures State() == Db(map[], map[], [])
    {
      receipts, revisions, effects := map[], map[], [];
    }

    method Rollback(saved: Db)
      modifies this
      ensures State() == saved
    {
      receipts, revisions, effects := saved.receipts, saved.revisions, saved.effects;
    }

    // ConsoleCommandHandler.
    method Serve(route: Route, request: Request, handled: Handled, commit: CommitReply) returns (reply: Reply)
      modifies this
      ensures (State(), reply) == Execute(route, old(State()), request, handled, commit)
      ensures reply.body.Answer? && !reply.replayed
              <==> Acts(route, old(State()), request, handled) && commit.CommitOk?
      ensures reply.body.Answer? && !reply.replayed ==>
                WellFormed(route, request)
                && Effected(route, old(State()), State(), request, handled, reply.status, reply.body.body)
      ensures WellFormed(route, request) && SlotOf(request) in old(receipts) ==>
                var receipt := old(receipts)[SlotOf(request)];
                reply == if receipt.fingerprint == PrintOf(route, request)
                         then Reply(receipt.status, Answer(receipt.body), true)
                         else Refusal(409, "idempotency_conflict")
      ensures State() != old(State()) ==>
                && Acts(route, old(State()), request, handled)
                && (commit.CommitOk? || (commit == CommitUnknown(true) && reply == UNAVAILABLE))
      ensures Acts(route, old(State()), request, handled) && commit == CommitUnknown(true) ==>
                exists status, body :: Effected(route, old(State()), State(), request, handled, status, body)
    {
      CommandEffect(route, State(), request, handled, commit);
      if request.actor.None? {
        return Refusal(401, "moderator_authentication_failed");
      }
      if |request.keys| != 1 || !route.validKey(request.keys[0]) {
        return Refusal(400, "invalid_idempotency_key");
      }
      var actor, key := request.actor.value, request.keys[0];
      if request.body.None? {
        return INVALID;
      }
      var decoded := DecodeObject(request.body.value);
      if decoded.None? || request.query != "" {
        return INVALID;
      }
      var fields := decoded.value;
      var fingerprint := Fingerprint(request.verb, request.path, fields);
      var expected := None;
      if "expectedRevision" in fields {
        var raw := fields["expectedRevision"];
        if !raw.Number? || raw.n < 0 || raw.n > MAX_INT64 {
          return INVALID;
        }
        expected := Some(raw.n);
        fields := fields - {"expectedRevision"};
      }
      if route.table != NoTable && expected.None? {
        return INVALID;
      }
      if (actor, key) in receipts {
        var receipt := receipts[(actor, key)];
        if receipt.fingerprint != fingerprint {
          return Refusal(409, "idempotency_conflict");
        }
        return Reply(receipt.status, Answer(receipt.body), true);
      }
      assert Check(route, request).0 == Some(ClaimOf(request, Parse(request.body.value).value, expected)) by {
        assert "expectedRevision" !in decoded.value ==> decoded.value - {"expectedRevision"} == decoded.value;
      }
      assert fields == decoded.value - {"expectedRevision"};
      reply := RunCommand(route, request, Claim(actor, key, fingerprint, expected, fields), handled, commit);
    }

    // Inside the transaction: the row is checked, the handler acts, the row is
    // touched if the handler did not, and the receipt is written.
    method RunCommand(route: Route, request: Request, claim: Claim, handled: Handled, commit: CommitReply)
      returns (reply: Reply)
      requires route.table != NoTable ==> claim.expected.Some?
      modifies this
      ensures (State(), reply) == Act(route, old(State()), request, claim, handled, commit)
    {
      var saved := State();
      var revision := 0;
      var resource := None;
      if route.table != NoTable {
        resource := Target(route, request, claim.fields);
        if resource.None? {
          return INVALID;
        }
        if resource.value in revisions {
          revision := revisions[resource.value];
        } else if !route.table.Eligibility? {
          return Refusal(404, "not_found");
        }
        if revision != claim.expected.value {
          return Refusal(409, "resource_revision_conflict");
        }
        revision := if resource.value in revisions then revision + handled.updates else 1 + handled.updates;
        revisions := revisions[resource.value := revision];
      }
      effects := effects + [Effect(claim.actor, claim.key, claim.fingerprint, resource,
                                   if claim.expected.Some? then claim.expected.value else 0, 0)];
      if handled.status >= 400 {
        Rollback(saved);
        return Reply(handled.status, HandlerError, false);
      }
      if route.table != NoTable {
        if !handled.present {
          Rollback(saved);
          return UNAVAILABLE;
        }
        if revision == claim.expected.value && resource.value.table.Triggered? {
          revision := revision + 1;
          revisions := revisions[resource.value := revision];
        }
      }
      if !Storable(handled) {
        Rollback(saved);
        return UNAVAILABLE;
      }
      var n := |effects| - 1;
      effects := effects[..n] + [effects[n].(revision := revision)];
      var body := Body(ResultOf(handled.body), revision);
      var status := FinalStatus(handled.status);
      receipts := receipts[(claim.actor, claim.key) := Receipt(claim.fingerprint, status, body)];
      assert effects[..n] == saved.effects;
      assert revisions == if resource.Some? then saved.revisions[resource.value := revision] else saved.revisions;
      if commit.CommitOk? {
        return Reply(status, Answer(body), false);
      }
      if commit.CommitRolledBack? || !commit.applied {
        Rollback(saved);
      }
      reply := UNAVAILABLE;
    }
  }
}
