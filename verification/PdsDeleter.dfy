// PDSDeleter: converging an owner's registered collections on a paginated server
// whose pages shift while records are deleted.
module PdsDeleter {
  import opened CraftskyCollections
  import opened DeletionClient

  datatype Result = Ok | Err

  class PdsDeletionResult {
    var listed: nat
    var deleteCalls: nat

    constructor ()
      ensures listed == 0 && deleteCalls == 0
    {
      listed, deleteCalls := 0, 0;
    }
  }

  // validateDeletionRecord.
  predicate OwnedRecord(uri: RecordUri, owner: Did, collection: Nsid) {
    uri.AtUri? && uri.authority == owner && uri.collection == collection
  }

  // parsePDSSafetyURI: the only keys that may become deletion authority.
  predicate InDeletionScope(owner: Did, uri: RecordUri) {
    OwnedKey(owner, uri) && Registered(uri.collection)
  }

  // --- What the log says ---------------------------------------------------

  // Every delete names a collection of the pass and a record that an earlier
  // list call of that collection returned as the owner's.
  ghost predicate Justified(log: seq<Entry>, k: nat, owner: Did, collections: seq<Nsid>)
    requires k < |log|
  {
    log[k].call.Delete? ==>
      && log[k].call.collection in collections
      && exists j :: 0 <= j < k && ListsRecord(log[j], owner, log[k].call.collection, log[k].call.rkey)
  }

  predicate ListsRecord(e: Entry, owner: Did, collection: Nsid, rkey: Rkey) {
    e.call.List? && e.call.collection == collection && AtUri(owner, collection, rkey) in e.records
  }

  ghost predicate AllJustified(log: seq<Entry>, from: nat, owner: Did, collections: seq<Nsid>) {
    forall k :: from <= k < |log| ==> Justified(log, k, owner, collections)
  }

  // The call failed, or it listed something that is not a record of the owner's in
  // that collection.
  predicate Trouble(e: Entry, owner: Did) {
    || !e.ok
    || (e.call.List? && exists uri <- e.records :: !OwnedRecord(uri, owner, e.call.collection))
  }

  predicate TroubleSince(log: seq<Entry>, from: nat, owner: Did) {
    exists k :: from <= k < |log| && Trouble(log[k], owner)
  }

  function DeletesIn(log: seq<Entry>): nat {
    if log == [] then 0 else DeletesIn(log[..|log| - 1]) + if log[|log| - 1].call.Delete? then 1 else 0
  }

  // --- What a quiet server's contents do -----------------------------------

  // Deleting within some collections: nothing appears, nothing else changes.
  ghost predicate Shrunk(after: Contents, before: Contents, collections: seq<Nsid>) {
    && (forall c :: Records(after, c) <= Records(before, c))
    && (forall c :: c !in collections ==> Records(after, c) == Records(before, c))
  }

  ghost predicate Emptied(contents: Contents, collections: seq<Nsid>) {
    forall c <- collections :: Records(contents, c) == {}
  }

  function Total(contents: Contents, collections: seq<Nsid>): nat {
    if collections == [] then 0
    else |Records(contents, collections[0])| + Total(contents, collections[1..])
  }

  // The deletes of a pass see the contents the pass began with, or less.
  ghost predicate DeletesWithin(log: seq<Entry>, from: nat, start: Contents, collections: seq<Nsid>) {
    forall k :: from <= k < |log| && log[k].call.Delete? ==>
      log[k].call.collection in collections && Shrunk(log[k].before, start, collections)
  }

  predicate Distinct(collections: seq<Nsid>) {
    forall i, j :: 0 <= i < j < |collections| ==> collections[i] != collections[j]
  }

  // --- One stretch of work over some collections ---------------------------

  // Any server: the log grew by justified calls, `deletes` of them deletes.
  ghost predicate Sound(log: seq<Entry>, after: seq<Entry>, owner: Did, collections: seq<Nsid>, deletes: nat) {
    && log <= after
    && AllJustified(after, |log|, owner, collections)
    && DeletesIn(after) == DeletesIn(log) + deletes
  }

  lemma SoundAppend(log: seq<Entry>, middle: seq<Entry>, e: Entry, owner: Did, collections: seq<Nsid>, deletes: nat)
    requires Sound(log, middle, owner, collections, deletes)
    requires e.call.Delete? ==>
               && e.call.collection in collections
               && exists j :: 0 <= j < |middle| && ListsRecord(middle[j], owner, e.call.collection, e.call.rkey)
    ensures Sound(log, middle + [e], owner, collections, deletes + if e.call.Delete? then 1 else 0)
  {
    var after := middle + [e];
    assert after[..|after| - 1] == middle;
    forall k | |log| <= k < |after|
      ensures Justified(after, k, owner, collections)
    {
      if after[k].call.Delete? {
        assert k < |middle| ==> Justified(middle, k, owner, collections);
        var j :| 0 <= j < k && ListsRecord(middle[j], owner, after[k].call.collection, after[k].call.rkey);
        assert after[j] == middle[j];
      }
    }
  }

  lemma SoundTrans(
    log: seq<Entry>, middle: seq<Entry>, after: seq<Entry>, owner: Did, some: seq<Nsid>, collections: seq<Nsid>, m: nat,
    n: nat)
    requires Sound(log, middle, owner, collections, m) && Sound(middle, after, owner, some, n)
    requires forall c <- some :: c in collections
    ensures Sound(log, after, owner, collections, m + n)
  {
    forall k | |log| <= k < |after|
      ensures Justified(after, k, owner, collections)
    {
      if k < |middle| {
        assert Justified(middle, k, owner, collections);
        if after[k].call.Delete? {
          var j :| 0 <= j < k && ListsRecord(middle[j], owner, middle[k].call.collection, middle[k].call.rkey);
          assert after[j] == middle[j];
        }
      } else {
        assert Justified(after, k, owner, some);
      }
    }
  }

  // A quiet server: contents only shrank, and every delete was made on contents
  // no larger than those the stretch began with.
  ghost predicate Contained(before: Contents, after: Contents, log: seq<Entry>, from: nat, collections: seq<Nsid>) {
    Shrunk(after, before, collections) && DeletesWithin(log, from, before, collections)
  }

  lemma ContainedAppend(
    before: Contents, middle: Contents, after: Contents, log: seq<Entry>, from: nat, collections: seq<Nsid>, e: Entry)
    requires Contained(before, middle, log, from, collections) && from <= |log|
    requires Shrunk(after, middle, collections)
    requires e.call.Delete? ==> e.before == middle && e.call.collection in collections
    ensures Contained(before, after, log + [e], from, collections)
  {
    var longer := log + [e];
    forall k | from <= k < |longer| && longer[k].call.Delete?
      ensures longer[k].call.collection in collections && Shrunk(longer[k].before, before, collections)
    {
      if k < |log| {
        assert log[k].call.Delete?;
      }
    }
  }

  lemma ContainedTrans(
    a: Contents, b: Contents, c: Contents, log: seq<Entry>, after: seq<Entry>, from: nat, collections: seq<Nsid>)
    requires from <= |log| && log <= after
    requires Contained(a, b, log, from, collections) && Contained(b, c, after, |log|, collections)
    ensures Contained(a, c, after, from, collections)
  {
    forall k | from <= k < |after| && after[k].call.Delete?
      ensures after[k].call.collection in collections && Shrunk(after[k].before, a, collections)
    {
      if k < |log| {
        assert log[k] == after[k];
      }
    }
  }

  ghost predicate Lowered(before: Contents, after: Contents, collections: seq<Nsid>, deletes: nat) {
    Total(after, collections) + deletes == Total(before, collections)
  }

  lemma {:induction false} TotalUnchanged(a: Contents, b: Contents, collections: seq<Nsid>)
    requires forall c <- collections :: Records(a, c) == Records(b, c)
    ensures Total(a, collections) == Total(b, collections)
  {
    if collections != [] {
      TotalUnchanged(a, b, collections[1..]);
    }
  }

  lemma {:induction false} DeletingOneLowersTotal(
    contents: Contents, collections: seq<Nsid>, collection: Nsid, rkey: Rkey)
    requires Distinct(collections) && collection in collections && rkey in Records(contents, collection)
    ensures Total(Without(contents, collection, rkey), collections) == Total(contents, collections) - 1
  {
    var after := Without(contents, collection, rkey);
    if collections[0] == collection {
      assert Records(contents, collection) == Records(after, collection) + {rkey};
      TotalUnchanged(contents, after, collections[1..]);
    } else {
      DeletingOneLowersTotal(contents, collections[1..], collection, rkey);
    }
  }

  class Deleter {
    const client: Client
    const batchSize: nat

    constructor (client: Client, batchSize: int)
      ensures this.client == client && this.batchSize == if batchSize <= 0 then 20 else batchSize
    {
      this.client := client;
      this.batchSize := if batchSize <= 0 then 20 else batchSize;
    }

    // DeleteExact: one already-authorized key, checked again before the call. A
    // record that is already gone is a success.
    method DeleteExact(uri: RecordUri) returns (err: Result)
      requires client.Valid()
      modifies client
      ensures client.Valid() && old(client.calls) <= client.calls <= old(client.calls) + 1
      ensures InDeletionScope(client.owner, uri) ==>
                client.log == old(client.log)
                  + [Entry(Delete(uri.collection, uri.rkey), old(client.contents), [], err.Ok?)]
      ensures !InDeletionScope(client.owner, uri) ==>
                err.Err? && client.log == old(client.log) && client.contents == old(client.contents)
      ensures client.Quiet() && InDeletionScope(client.owner, uri) && old(client.calls) < client.deadline ==>
                err.Ok? && client.contents == Without(old(client.contents), uri.collection, uri.rkey)
    {
      if !OwnedKey(client.owner, uri) || !Registered(uri.collection) {
        return Err;
      }
      var reply := client.DeleteRecord(uri.collection, uri.rkey);
      err := if reply.DeleteError? then Err else Ok;
    }

    // One validated record: counted, then deleted.
    method DeleteOne(collection: Nsid, uri: RecordUri, result: PdsDeletionResult,
                     ghost page: nat, ghost base: seq<Entry>, ghost start: Contents, ghost collections: seq<Nsid>,
                     ghost done: nat)
      returns (err: Result)
      requires client.Valid() && collection in collections && Distinct(collections)
      requires OwnedRecord(uri, client.owner, collection)
      requires page < |client.log| && ListsRecord(client.log[page], client.owner, collection, uri.rkey)
      requires Sound(base, client.log, client.owner, collections, done)
      requires client.Quiet() ==>
                 && uri.rkey in Records(client.contents, collection)
                 && Contained(start, client.contents, client.log, |base|, collections)
                 && Lowered(start, client.contents, collections, done)
      modifies client, result
      ensures err.Err? ==> TroubleSince(client.log, |old(client.log)|, client.owner) || client.calls == client.deadline
      ensures client.Valid() && old(client.calls) <= client.calls <= old(client.calls) + 1
      ensures result.listed == old(result.listed) + 1 && result.deleteCalls == old(result.deleteCalls) + 1
      ensures Sound(base, client.log, client.owner, collections, done + 1)
      ensures old(client.log) <= client.log
      ensures client.Quiet() ==>
                && done + 1 <= Total(start, collections)
                && Contained(start, client.contents, client.log, |base|, collections)
                && (err.Err? ==> client.calls == client.deadline)
                && (err.Ok? ==>
                      && client.contents == Without(old(client.contents), collection, uri.rkey)
                      && Lowered(start, client.contents, collections, done + 1))
    {
      ghost var log, before := client.log, client.contents;
      result.listed := result.listed + 1;
      result.deleteCalls := result.deleteCalls + 1;
      var reply := client.DeleteRecord(collection, uri.rkey);
      SoundAppend(base, log, client.log[|log|], client.owner, collections, done);
      if client.Quiet() {
        DeletingOneLowersTotal(before, collections, collection, uri.rkey);
        ContainedAppend(start, before, client.contents, log, |base|, collections, client.log[|log|]);
      }
      err := if reply.DeleteError? then Err else Ok;
    }

    // Deletes the records of one listed page.
    method DeletePage(
      collection: Nsid, records: seq<RecordUri>, ghost collections: seq<Nsid>, result: PdsDeletionResult)
      returns (listed: nat, err: Result)
      requires client.Valid() && collection in collections && Distinct(collections)
      requires |client.log| > 0
      requires var page := client.log[|client.log| - 1];
        page.call.List? && page.call.collection == collection && page.records == records
      requires client.Quiet() ==> OwnRecords(records, client.owner, client.contents, collection)
      modifies client, result
      ensures err.Err? ==>
                TroubleSince(client.log, |old(client.log)| - 1, client.owner) || client.calls == client.deadline
      ensures client.Valid()
      ensures old(client.calls) <= client.calls <= old(client.calls) + listed
      ensures result.listed == old(result.listed) + listed && result.deleteCalls == old(result.deleteCalls) + listed
      ensures Sound(old(client.log), client.log, client.owner, collections, listed)
      ensures listed == 0 ==> client.contents == old(client.contents)
      ensures err.Ok? ==> listed == |records|
      ensures client.Quiet() ==>
                && listed <= Total(old(client.contents), collections)
                && Contained(old(client.contents), client.contents, client.log, |old(client.log)|, collections)
                && (err.Err? ==> client.calls == client.deadline)
                && (err.Ok? ==> Lowered(old(client.contents), client.contents, collections, listed))
    {
      listed := 0;
      ghost var base, start := client.log, client.contents;
      ghost var page := |base| - 1;
      while listed < |records|
        invariant listed == 0 ==> client.contents == start
        invariant client.Valid() && listed <= |records|
        invariant old(client.calls) <= client.calls <= old(client.calls) + listed
        invariant result.listed == old(result.listed) + listed && result.deleteCalls == old(result.deleteCalls) + listed
        invariant base <= client.log && Sound(base, client.log, client.owner, collections, listed)
        invariant client.Quiet() ==>
                    && Contained(start, client.contents, client.log, |base|, collections)
                    && Lowered(start, client.contents, collections, listed)
                    && OwnRecords(records[listed..], client.owner, client.contents, collection)
      {
        var uri := records[listed];
        if !OwnedRecord(uri, client.owner, collection) {
          return listed, Err;
        }
        assert client.log[page] == base[page];
        ghost var rest := records[listed..];
        assert rest[0] == uri && records[listed + 1..] == rest[1..];
        err := DeleteOne(collection, uri, result, page, base, start, collections, listed);
        listed := listed + 1;
        if err.Err? {
          return;
        }
      }
      err := Ok;
    }

    // One page of deletePass: list it, then delete what it lists.
    method DeleteNextPage(collection: Nsid, cursor: Cursor, ghost collections: seq<Nsid>, result: PdsDeletionResult)
      returns (listed: nat, next: Cursor, err: Result)
      requires client.Valid() && collection in collections && Distinct(collections) && batchSize > 0
      modifies client, result
      ensures err.Err? ==> TroubleSince(client.log, |old(client.log)|, client.owner) || client.calls == client.deadline
      ensures client.Valid()
      ensures err.Ok? ==> client.calls > old(client.calls)
      ensures old(client.calls) <= client.calls <= old(client.calls) + 1 + listed
      ensures result.listed == old(result.listed) + listed && result.deleteCalls == old(result.deleteCalls) + listed
      ensures Sound(old(client.log), client.log, client.owner, collections, listed)
      ensures client.Quiet() ==>
                && listed <= Total(old(client.contents), collections)
                && Contained(old(client.contents), client.contents, client.log, |old(client.log)|, collections)
                && (err.Err? ==> client.calls == client.deadline)
                && (err.Ok? ==>
                      && Lowered(old(client.contents), client.contents, collections, listed)
                      && (next != 0 ==> cursor < next <= client.lastCursor)
                      && (listed == 0 ==> client.contents == old(client.contents))
                      && (listed == 0 && client.remain(old(client.contents), collection, cursor) ==>
                            next != 0 && client.remain(old(client.contents), collection, next)))
    {
      ghost var log, before := client.log, client.contents;
      var reply := client.ListRecords(collection, cursor, batchSize);
      ghost var asked := client.log;
      if asked != log {
        SoundAppend(log, log, asked[|log|], client.owner, collections, 0);
        if client.Quiet() {
          ContainedAppend(before, before, before, log, |log|, collections, asked[|log|]);
        }
      }
      if reply.ListError? {
        return 0, 0, Err;
      }
      listed, err := DeletePage(collection, reply.records, collections, result);
      SoundTrans(log, asked, client.log, client.owner, collections, collections, 0, listed);
      next := reply.next;
      if client.Quiet() {
        ContainedTrans(before, before, client.contents, asked, client.log, |log|, collections);
      }
    }

    // Most pages one pass can list of one collection on an orderly server.
    ghost function PagesPerCollection(): nat {
      client.lastCursor + 1
    }

    // deletePass over one collection, from its first page to its last.
    method DeleteCollection(collection: Nsid, ghost collections: seq<Nsid>, result: PdsDeletionResult)
      returns (listed: nat, err: Result)
      requires client.Valid() && collection in collections && Distinct(collections) && batchSize > 0
      modifies client, result
      ensures err.Err? ==> TroubleSince(client.log, |old(client.log)|, client.owner) || client.calls == client.deadline
      ensures client.Valid() && client.calls >= old(client.calls)
      ensures err.Ok? ==> client.calls > old(client.calls)
      ensures result.listed == old(result.listed) + listed && result.deleteCalls == old(result.deleteCalls) + listed
      ensures Sound(old(client.log), client.log, client.owner, collections, listed)
      ensures client.Quiet() ==>
                && listed <= Total(old(client.contents), collections)
                && Contained(old(client.contents), client.contents, client.log, |old(client.log)|, collections)
                && (err.Err? ==> client.calls == client.deadline)
                && client.calls <= old(client.calls) + listed + PagesPerCollection()
                && (err.Ok? ==>
                      && Lowered(old(client.contents), client.contents, collections, listed)
                      && (listed == 0 ==> Records(client.contents, collection) == {}))
    {
      ghost var log, before := client.log, client.contents;
      listed := 0;
      var cursor: Cursor := 0;
      ghost var pages := 0;
      while true
        invariant client.Valid() && client.calls >= old(client.calls)
        invariant pages > 0 ==> client.calls > old(client.calls)
        invariant result.listed == old(result.listed) + listed && result.deleteCalls == old(result.deleteCalls) + listed
        invariant Sound(log, client.log, client.owner, collections, listed)
        invariant client.Quiet() ==>
                    && Contained(before, client.contents, client.log, |log|, collections)
                    && Lowered(before, client.contents, collections, listed)
                    && pages <= cursor <= client.lastCursor
                    && client.calls <= old(client.calls) + listed + pages
                    && (listed == 0 ==>
                          && client.contents == before
                          && (Records(before, collection) != {} ==> client.remain(before, collection, cursor)))
        decreases client.deadline - client.calls
      {
        ghost var middle, here := client.log, client.contents;
        var n, next, failed := DeleteNextPage(collection, cursor, collections, result);
        SoundTrans(log, middle, client.log, client.owner, collections, collections, listed, n);
        if client.Quiet() {
          ContainedTrans(before, here, client.contents, middle, client.log, |log|, collections);
        }
        listed, pages := listed + n, pages + 1;
        if failed.Err? {
          return listed, Err;
        }
        if next == 0 {
          return listed, Ok;
        }
        cursor := next;
      }
    }

    method DeletePass(collections: seq<Nsid>, result: PdsDeletionResult) returns (listed: nat, err: Result)
      requires client.Valid() && Distinct(collections) && batchSize > 0
      modifies client, result
      ensures err.Err? ==> TroubleSince(client.log, |old(client.log)|, client.owner) || client.calls == client.deadline
      ensures client.Valid() && client.calls >= old(client.calls)
      ensures err.Ok? && collections != [] ==> client.calls > old(client.calls)
      ensures result.listed == old(result.listed) + listed && result.deleteCalls == old(result.deleteCalls) + listed
      ensures Sound(old(client.log), client.log, client.owner, collections, listed)
      ensures client.Quiet() ==>
                && listed <= Total(old(client.contents), collections)
                && Contained(old(client.contents), client.contents, client.log, |old(client.log)|, collections)
                && (err.Err? ==> client.calls == client.deadline)
                && client.calls <= old(client.calls) + listed + |collections| * PagesPerCollection()
                && (err.Ok? ==>
                      && Lowered(old(client.contents), client.contents, collections, listed)
                      && (listed == 0 ==> Emptied(client.contents, collections)))
    {
      ghost var log, before, each := client.log, client.contents, PagesPerCollection();
      listed := 0;
      for i := 0 to |collections|
        invariant client.Valid() && client.calls >= old(client.calls)
        invariant i > 0 ==> client.calls > old(client.calls)
        invariant result.listed == old(result.listed) + listed && result.deleteCalls == old(result.deleteCalls) + listed
        invariant Sound(log, client.log, client.owner, collections, listed)
        invariant client.Quiet() ==>
                    && Contained(before, client.contents, client.log, |log|, collections)
                    && Lowered(before, client.contents, collections, listed)
                    && client.calls <= old(client.calls) + listed + i * each
                    && (listed == 0 ==> Emptied(client.contents, collections[..i]))
      {
        ghost var middle, here, spent := client.log, client.contents, client.calls;
        var n, failed := DeleteCollection(collections[i], collections, result);
        SoundTrans(log, middle, client.log, client.owner, collections, collections, listed, n);
        if client.Quiet() {
          CollectionSpends(old(client.calls), spent, client.calls, listed, n, i, |collections|, each);
          ContainedTrans(before, here, client.contents, middle, client.log, |log|, collections);
          assert collections[..i + 1] == collections[..i] + [collections[i]];
        }
        listed := listed + n;
        if failed.Err? {
          return listed, Err;
        }
      }
      err := Ok;
    }

    method ConvergeCollections(collections: seq<Nsid>, result: PdsDeletionResult)
      returns (ghost deletes: nat, err: Result)
      requires client.Valid() && Distinct(collections) && collections != [] && batchSize > 0
      modifies client, result
      ensures err.Err? ==> TroubleSince(client.log, |old(client.log)|, client.owner) || client.calls == client.deadline
      ensures client.Valid() && client.calls >= old(client.calls)
      ensures err.Ok? ==> client.calls > old(client.calls)
      ensures result.listed == old(result.listed) + deletes && result.deleteCalls == old(result.deleteCalls) + deletes
      ensures Sound(old(client.log), client.log, client.owner, collections, deletes)
      ensures client.Quiet() ==>
                && deletes <= Total(old(client.contents), collections)
                && Contained(old(client.contents), client.contents, client.log, |old(client.log)|, collections)
                && (err.Err? ==> client.calls == client.deadline)
                && client.calls <= old(client.calls) + deletes + (deletes + 1) * (|collections| * PagesPerCollection())
                && (err.Ok? ==>
                      && Lowered(old(client.contents), client.contents, collections, deletes)
                      && Emptied(client.contents, collections))
    {
      ghost var log, before := client.log, client.contents;
      ghost var perPass := |collections| * PagesPerCollection();
      ghost var passes, first := 0, client.calls;
      deletes := 0;
      while true
        invariant client.Valid() && client.calls >= old(client.calls)
        invariant result.listed == old(result.listed) + deletes
                  && result.deleteCalls == old(result.deleteCalls) + deletes
        invariant Sound(log, client.log, client.owner, collections, deletes)
        invariant passes <= deletes
        invariant client.Quiet() ==>
                    && Contained(before, client.contents, client.log, |log|, collections)
                    && Lowered(before, client.contents, collections, deletes)
                    && client.calls <= old(client.calls) + deletes + passes * perPass
        decreases client.deadline - client.calls
      {
        ghost var middle, here, spent := client.log, client.contents, client.calls;
        var listed, failed := DeletePass(collections, result);
        SoundTrans(log, middle, client.log, client.owner, collections, collections, deletes, listed);
        if client.Quiet() {
          PassSpends(first, spent, client.calls, deletes, listed, passes, perPass);
        }
        if client.Quiet() {
          ContainedTrans(before, here, client.contents, middle, client.log, |log|, collections);
        }
        deletes := deletes + listed;
        if failed.Err? {
          return deletes, Err;
        }
        if listed == 0 {
          return deletes, Ok;
        }
        passes := passes + 1;
      }
    }

    // The first page of one collection.
    method ScanCollection(collection: Nsid, ghost collections: seq<Nsid>) returns (empty: bool, err: Result)
      requires client.Valid() && batchSize > 0
      modifies client
      ensures err.Err? ==> TroubleSince(client.log, |old(client.log)|, client.owner) || client.calls == client.deadline
      ensures client.Valid() && client.calls <= old(client.calls) + 1
      ensures Sound(old(client.log), client.log, client.owner, collections, 0)
      ensures err.Ok? ==>
                && client.calls == old(client.calls) + 1 && |client.log| == |old(client.log)| + 1
                && client.log[|old(client.log)|].call == List(collection, 0)
                && (empty ==> client.log[|old(client.log)|].records == [])
      ensures client.calls >= old(client.calls)
      ensures client.Quiet() ==>
                && client.contents == old(client.contents)
                && Contained(old(client.contents), client.contents, client.log, |old(client.log)|, [])
                && (err.Err? ==> client.calls == client.deadline)
                && (err.Ok? && Records(client.contents, collection) == {} ==> empty)
    {
      ghost var log := client.log;
      var reply := client.ListRecords(collection, 0, batchSize);
      if client.log != log {
        SoundAppend(log, log, client.log[|log|], client.owner, collections, 0);
      }
      if reply.ListError? {
        return false, Err;
      }
      empty := true;
      var j := 0;
      while j < |reply.records|
        invariant j <= |reply.records| && (empty <==> j == 0)
      {
        if !OwnedRecord(reply.records[j], client.owner, collection) {
          return false, Err;
        }
        empty := false;
        j := j + 1;
      }
      err := Ok;
    }

    // The first page of every collection.
    method ScanEmpty(collections: seq<Nsid>) returns (empty: bool, err: Result)
      requires client.Valid() && batchSize > 0
      modifies client
      ensures err.Err? ==> TroubleSince(client.log, |old(client.log)|, client.owner) || client.calls == client.deadline
      ensures client.Valid()
      ensures old(client.calls) <= client.calls <= old(client.calls) + |collections|
      ensures err.Ok? && collections != [] ==> client.calls > old(client.calls)
      ensures Sound(old(client.log), client.log, client.owner, collections, 0)
      ensures err.Ok? && empty ==> EndsInEmptyScan(client.log, collections)
      ensures client.Quiet() ==>
                && client.contents == old(client.contents)
                && Contained(old(client.contents), client.contents, client.log, |old(client.log)|, [])
                && (err.Err? ==> client.calls == client.deadline)
                && (err.Ok? && Emptied(client.contents, collections) ==> empty)
    {
      ghost var log, here := client.log, client.contents;
      empty := true;
      for i := 0 to |collections|
        invariant client.Valid() && client.calls == old(client.calls) + i
        invariant Sound(log, client.log, client.owner, collections, 0)
        invariant |client.log| == |log| + i
        invariant empty ==> ScannedEmpty(client.log, |log|, collections, i)
        invariant client.Quiet() ==>
                    && client.contents == here && Contained(here, here, client.log, |log|, [])
                    && (Emptied(here, collections) ==> empty)
      {
        ghost var middle := client.log;
        var none;
        none, err := ScanCollection(collections[i], collections);
        SoundTrans(log, middle, client.log, client.owner, collections, collections, 0, 0);
        if client.Quiet() {
          assert Contained(here, here, client.log, |middle|, []);
          ContainedTrans(here, here, here, middle, client.log, |log|, []);
          assert collections[i] in collections;
        }
        if err.Err? {
          return false, Err;
        }
        if empty && none {
          ScanGrows(middle, client.log, |log|, collections, i);
        }
        empty := empty && none;
      }
      if empty {
        ScanIsComplete(client.log, |log|, collections);
      }
      err := Ok;
    }

    // One call of convergeCollections inside DeleteAll.
    method RunStage(i: nat, collections: seq<Nsid>, result: PdsDeletionResult,
                    ghost start: Contents, ghost base: seq<Entry>, ghost first: nat)
      returns (err: Result)
      requires client.Valid() && batchSize > 0 && first <= client.calls
      requires i < 4 && collections == Stage(i)
      requires result.listed == result.deleteCalls
      requires Sound(base, client.log, client.owner, REGISTRY, result.listed)
      requires client.Quiet() ==>
                 AfterStages(i, start, client.contents, client.log, |base|, result.listed, client.calls - first,
                   client.lastCursor)
      modifies client, result
      ensures err.Err? ==> TroubleSince(client.log, |old(client.log)|, client.owner) || client.calls == client.deadline
      ensures old(client.log) <= client.log
      ensures client.Valid() && client.calls >= old(client.calls)
      ensures err.Ok? ==> client.calls > old(client.calls)
      ensures result.listed == result.deleteCalls
      ensures Sound(base, client.log, client.owner, REGISTRY, result.listed)
      ensures client.Quiet() && err.Ok? ==>
                AfterStages(i + 1, start, client.contents, client.log, |base|, result.listed, client.calls - first,
                  client.lastCursor)
      ensures client.Quiet() && err.Err? ==>
                && InOrderFrom(client.log, |base|)
                && client.calls == client.deadline
                && client.calls - first <= CallBound(Total(start, REGISTRY), client.lastCursor)
    {
      ghost var listed, spent, middle, here := result.listed, client.calls - first, client.log, client.contents;
      ghost var deletes;
      deletes, err := ConvergeCollections(collections, result);
      SoundTrans(base, middle, client.log, client.owner, collections, REGISTRY, listed, deletes);
      if client.Quiet() {
        if err.Ok? {
          StageCompletes(i, start, here, client.contents, middle, client.log, |base|, listed, deletes,
                         spent, client.calls - first, client.lastCursor);
        } else {
          StageIsCutShort(i, start, here, client.contents, middle, client.log, |base|, listed, deletes,
                          spent, client.calls - first, client.lastCursor);
        }
      }
    }

    // One round of deleteAll: the stages in order, then the scan.
    method Round(stages: seq<seq<Nsid>>, result: PdsDeletionResult,
                 ghost start: Contents, ghost base: seq<Entry>, ghost first: nat)
      returns (empty: bool, err: Result)
      requires client.Valid() && batchSize > 0 && first <= client.calls
      requires |stages| == 4 && forall i :: 0 <= i < 4 ==> stages[i] == Stage(i)
      requires result.listed == result.deleteCalls
      requires Sound(base, client.log, client.owner, REGISTRY, result.listed)
      requires client.Quiet() ==>
                 AfterStages(0, start, client.contents, client.log, |base|, result.listed, client.calls - first,
                   client.lastCursor)
      modifies client, result
      ensures err.Err? ==> TroubleSince(client.log, |old(client.log)|, client.owner) || client.calls == client.deadline
      ensures client.Valid() && client.calls >= old(client.calls)
      ensures err.Ok? ==> client.calls > old(client.calls)
      ensures result.listed == result.deleteCalls
      ensures Sound(base, client.log, client.owner, REGISTRY, result.listed)
      ensures err.Ok? && empty ==> EndsInEmptyScan(client.log, REGISTRY)
      ensures client.Quiet() ==> InOrderFrom(client.log, |base|)
      ensures client.Quiet() && err.Ok? ==>
                empty && Shrunk(client.contents, start, REGISTRY) && Emptied(client.contents, REGISTRY)
                && result.listed == Total(start, REGISTRY)
      ensures client.Quiet() && err.Err? ==>
                client.calls == client.deadline
                  && client.calls - first <= CallBound(Total(start, REGISTRY), client.lastCursor)
    {
      for i := 0 to 4
        invariant old(client.log) <= client.log
        invariant client.Valid() && client.calls >= old(client.calls) + i
        invariant result.listed == result.deleteCalls
        invariant Sound(base, client.log, client.owner, REGISTRY, result.listed)
        invariant client.Quiet() ==>
                    AfterStages(i, start, client.contents, client.log, |base|, result.listed, client.calls - first,
                      client.lastCursor)
      {
        err := RunStage(i, stages[i], result, start, base, first);
        if err.Err? {
          return false, Err;
        }
      }
      ghost var middle, here := client.log, client.contents;
      empty, err := ScanEmpty(REGISTRY);
      SoundTrans(base, middle, client.log, client.owner, REGISTRY, REGISTRY, result.listed, 0);
      if client.Quiet() {
        assert REGISTRY[..StageStart(4)] == REGISTRY;
        EmptiedTotal(here, REGISTRY);
        SpendingIsBounded(4, result.listed, Total(start, REGISTRY), client.lastCursor);
        ScanKeepsOrder(start, here, middle, client.log, |base|);
      }
    }

    // DeleteAll.
    method DeleteAll() returns (result: PdsDeletionResult, err: Result)
      requires client.Valid() && batchSize > 0
      modifies client
      ensures err.Err? ==> TroubleSince(client.log, |old(client.log)|, client.owner) || client.calls == client.deadline
      ensures client.Valid() && fresh(result)
      ensures result.listed == result.deleteCalls
      ensures Sound(old(client.log), client.log, client.owner, REGISTRY, result.listed)
      ensures err.Ok? ==> EndsInEmptyScan(client.log, REGISTRY)
      ensures client.Quiet() ==>
                && InOrderFrom(client.log, |old(client.log)|)
                && (err.Err? ==>
                      client.deadline - old(client.calls)
                        <= CallBound(Total(old(client.contents), REGISTRY), client.lastCursor))
                && (err.Ok? ==>
                      && Shrunk(client.contents, old(client.contents), REGISTRY)
                      && Emptied(client.contents, REGISTRY)
                      && result.listed == Total(old(client.contents), REGISTRY))
    {
      result := new PdsDeletionResult();
      var collections := REGISTRY;
      var n := |collections|;
      var stages := [collections[..n - 3], collections[n - 3..n - 2], collections[n - 2..n - 1], collections[n - 1..]];
      ghost var start, base, first := client.contents, client.log, client.calls;
      while true
        invariant client.Valid() && fresh(result) && result.listed == result.deleteCalls
        invariant client.calls >= first
        invariant Sound(base, client.log, client.owner, REGISTRY, result.listed)
        invariant client.Quiet()
                  ==> AfterStages(0, start, client.contents, client.log, |base|, result.listed, client.calls - first,
                    client.lastCursor)
        decreases client.deadline - client.calls
      {
        var empty;
        empty, err := Round(stages, result, start, base, first);
        if err.Err? || empty {
          return;
        }
      }
    }
  }

  // The stages are consecutive stretches of the registry.
  function Stage(i: nat): seq<Nsid>
    requires i < 4
  {
    REGISTRY[StageStart(i)..StageStart(i + 1)]
  }

  function StageStart(i: nat): nat {
    if i == 0 then 0 else if i <= 4 then i + 2 else |REGISTRY|
  }

  // On a quiet server, after the first i stages of the first round.
  ghost predicate AfterStages(
    i: nat, start: Contents, contents: Contents, log: seq<Entry>, from: nat, listed: nat, calls: int,
    lastCursor: Cursor)
  {
    && i <= 4
    && Contained(start, contents, log, from, REGISTRY)
    && Lowered(start, contents, REGISTRY, listed)
    && Emptied(contents, REGISTRY[..StageStart(i)])
    && InOrderFrom(log, from)
    && calls <= listed + 3 * (lastCursor + 1) * listed + Allowance(i, lastCursor)
  }

  function Allowance(i: nat, lastCursor: Cursor): nat {
    if i == 0 then 0 else (i + 2) * (lastCursor + 1)
  }

  // The log ends with a scan: the first page of each collection, all empty.
  ghost predicate EndsInEmptyScan(log: seq<Entry>, collections: seq<Nsid>) {
    && |collections| <= |log|
    && forall i :: 0 <= i < |collections| ==>
         var e := log[|log| - |collections| + i];
         e.call == List(collections[i], 0) && e.records == []
  }

  // The scan's calls so far, from a point of the log on.
  ghost predicate ScannedEmpty(log: seq<Entry>, from: nat, collections: seq<Nsid>, n: nat)
    requires n <= |collections|
  {
    && from + n <= |log|
    && forall i :: 0 <= i < n ==> log[from + i].call == List(collections[i], 0) && log[from + i].records == []
  }

  lemma ScanGrows(log: seq<Entry>, longer: seq<Entry>, from: nat, collections: seq<Nsid>, n: nat)
    requires n < |collections| && ScannedEmpty(log, from, collections, n)
    requires log <= longer && |longer| == |log| + 1 == from + n + 1
    requires longer[|log|].call == List(collections[n], 0) && longer[|log|].records == []
    ensures ScannedEmpty(longer, from, collections, n + 1)
  {
    forall i | 0 <= i < n
      ensures longer[from + i].call == List(collections[i], 0) && longer[from + i].records == []
    {
      assert longer[from + i] == log[from + i];
    }
  }

  lemma ScanIsComplete(log: seq<Entry>, from: nat, collections: seq<Nsid>)
    requires ScannedEmpty(log, from, collections, |collections|) && |log| == from + |collections|
    ensures EndsInEmptyScan(log, collections)
  {
    forall i | 0 <= i < |collections|
      ensures log[|log| - |collections| + i].call == List(collections[i], 0)
              && log[|log| - |collections| + i].records == []
    {
      assert |log| - |collections| + i == from + i;
    }
  }

  // What must be gone before a collection's first delete.
  function Prerequisites(collection: Nsid): seq<Nsid> {
    match collection
    case BusinessEvent => [FeedPost, FeedLike, FeedRepost]
    case BusinessProfile => [FeedPost, FeedLike, FeedRepost, BusinessEvent]
    case ActorProfile => [FeedPost, FeedLike, FeedRepost, BusinessEvent, BusinessProfile]
    case _ => []
  }

  ghost predicate InOrderFrom(log: seq<Entry>, from: nat) {
    forall k :: from <= k < |log| && log[k].call.Delete?
      ==> Emptied(log[k].before, Prerequisites(log[k].call.collection))
  }

  // Enough calls for any quiet run over this many records.
  function CallBound(records: nat, lastCursor: Cursor): nat {
    records + 3 * (lastCursor + 1) * (records + 2) + |REGISTRY|
  }

  lemma AddOne(i: nat, n: nat, each: nat)
    requires i < n
    ensures i * each + each == (i + 1) * each <= n * each
  {
  }

  lemma CollectionSpends(first: nat, spent: nat, now: nat, listed: nat, more: nat, i: nat, n: nat, each: nat)
    requires spent <= first + listed + i * each && now <= spent + more + each && i < n
    ensures now <= first + (listed + more) + (i + 1) * each
    ensures now <= first + (listed + more) + n * each
  {
    AddOne(i, n, each);
  }

  lemma PassSpends(first: nat, spent: nat, now: nat, deletes: nat, listed: nat, passes: nat, each: nat)
    requires spent <= first + deletes + passes * each && now <= spent + listed + each && passes <= deletes
    ensures now <= first + (deletes + listed) + (passes + 1) * each
    ensures now <= first + (deletes + listed) + (deletes + listed + 1) * each
  {
    AddOne(passes, deletes + listed + 1, each);
  }

  // --- Stages of a quiet run ------------------------------------------------

  lemma ContainedWidens(
    before: Contents, after: Contents, log: seq<Entry>, from: nat, some: seq<Nsid>, collections: seq<Nsid>)
    requires Contained(before, after, log, from, some)
    requires forall c <- some :: c in collections
    ensures Contained(before, after, log, from, collections)
  {
  }

  lemma {:induction false} TotalOfConcatenation(contents: Contents, a: seq<Nsid>, b: seq<Nsid>)
    ensures Total(contents, a + b) == Total(contents, a) + Total(contents, b)
  {
    if a == [] {
      assert a + b == b;
    } else {
      assert (a + b)[0] == a[0] && (a + b)[1..] == a[1..] + b;
      TotalOfConcatenation(contents, a[1..], b);
    }
  }

  lemma RegistrySplitsAtStage(i: nat, contents: Contents)
    requires i < 4
    ensures Total(contents, REGISTRY)
         == Total(contents, REGISTRY[..StageStart(i)]) + Total(contents, Stage(i))
           + Total(contents, REGISTRY[StageStart(i + 1)..])
  {
    var before, after := REGISTRY[..StageStart(i)], REGISTRY[StageStart(i + 1)..];
    assert REGISTRY == before + (Stage(i) + after);
    TotalOfConcatenation(contents, before, Stage(i) + after);
    TotalOfConcatenation(contents, Stage(i), after);
  }

  lemma StageLeavesTotal(i: nat, contents: Contents, deletes: nat)
    requires i < 4 && deletes <= Total(contents, Stage(i))
    ensures deletes <= Total(contents, REGISTRY)
  {
    RegistrySplitsAtStage(i, contents);
  }

  lemma StageLowersTotal(i: nat, before: Contents, after: Contents, deletes: nat)
    requires i < 4 && Shrunk(after, before, Stage(i)) && Lowered(before, after, Stage(i), deletes)
    ensures Lowered(before, after, REGISTRY, deletes)
  {
    RegistrySplitsAtStage(i, before);
    RegistrySplitsAtStage(i, after);
    TotalUnchanged(before, after, REGISTRY[..StageStart(i)]);
    TotalUnchanged(before, after, REGISTRY[StageStart(i + 1)..]);
  }

  lemma StageEmpties(i: nat, before: Contents, after: Contents)
    requires i < 4 && Shrunk(after, before, Stage(i))
    requires Emptied(before, REGISTRY[..StageStart(i)]) && Emptied(after, Stage(i))
    ensures Emptied(after, REGISTRY[..StageStart(i + 1)])
  {
    assert REGISTRY[..StageStart(i + 1)] == REGISTRY[..StageStart(i)] + Stage(i);
  }

  lemma PrerequisitesComeEarlier(i: nat, collection: Nsid)
    requires i < 4 && collection in Stage(i)
    ensures forall c <- Prerequisites(collection) :: c in REGISTRY[..StageStart(i)]
  {
    var k :| 0 <= k < |Stage(i)| && Stage(i)[k] == collection;
    assert collection == REGISTRY[StageStart(i) + k];
    forall c | c in Prerequisites(collection)
      ensures c in REGISTRY[..StageStart(i)]
    {
      var m :| 0 <= m < |Prerequisites(collection)| && Prerequisites(collection)[m] == c;
      assert c == REGISTRY[m] && m < StageStart(i);
      assert REGISTRY[..StageStart(i)][m] == c;
    }
  }

  // A stage only deletes collections whose prerequisites the earlier stages emptied.
  lemma StageStaysInOrder(i: nat, before: Contents, after: Contents, log: seq<Entry>, longer: seq<Entry>, from: nat)
    requires i < 4 && from <= |log| && log <= longer
    requires InOrderFrom(log, from) && Emptied(before, REGISTRY[..StageStart(i)])
    requires Contained(before, after, longer, |log|, Stage(i))
    ensures InOrderFrom(longer, from)
  {
    forall k | from <= k < |longer| && longer[k].call.Delete?
      ensures Emptied(longer[k].before, Prerequisites(longer[k].call.collection))
    {
      if k < |log| {
        assert longer[k] == log[k];
      } else {
        PrerequisitesComeEarlier(i, longer[k].call.collection);
      }
    }
  }

  lemma {:induction false} EmptiedTotal(contents: Contents, collections: seq<Nsid>)
    requires Emptied(contents, collections)
    ensures Total(contents, collections) == 0
  {
    if collections != [] {
      EmptiedTotal(contents, collections[1..]);
    }
  }

  lemma ScanKeepsOrder(start: Contents, contents: Contents, log: seq<Entry>, longer: seq<Entry>, from: nat)
    requires from <= |log| && log <= longer
    requires InOrderFrom(log, from) && Contained(start, contents, log, from, REGISTRY)
    requires Contained(contents, contents, longer, |log|, [])
    ensures InOrderFrom(longer, from)
  {
    forall k | from <= k < |longer| && longer[k].call.Delete?
      ensures Emptied(longer[k].before, Prerequisites(longer[k].call.collection))
    {
      if k < |log| {
        assert longer[k] == log[k];
      }
    }
  }

  lemma StagesSpend(i: nat, listed: nat, deletes: nat, spent: int, now: int, lastCursor: Cursor)
    requires i < 4
    requires spent <= listed + 3 * (lastCursor + 1) * listed + Allowance(i, lastCursor)
    requires now <= spent + deletes + (deletes + 1) * (|Stage(i)| * (lastCursor + 1))
    ensures now <= (listed + deletes) + 3 * (lastCursor + 1) * (listed + deletes) + Allowance(i + 1, lastCursor)
  {
    var pages := lastCursor + 1;
    assert (deletes + 1) * (|Stage(i)| * pages) <= 3 * pages * deletes + |Stage(i)| * pages by {
      assert |Stage(i)| <= 3;
      if |Stage(i)| != 3 {
        assert |Stage(i)| == 1;
      }
    }
  }

  lemma SpendingIsBounded(i: nat, listed: nat, records: nat, lastCursor: Cursor)
    requires i <= 4 && listed <= records
    ensures listed + 3 * (lastCursor + 1) * listed + Allowance(i, lastCursor) + |REGISTRY|
            <= CallBound(records, lastCursor)
  {
    var pages := lastCursor + 1;
    assert 3 * pages * listed <= 3 * pages * records;
    assert Allowance(i, lastCursor) <= 6 * pages;
  }

  // What one stage did to a quiet server: `deletes` deletes within the stage.
  ghost predicate StageRan(
    i: nat, here: Contents, after: Contents, middle: seq<Entry>, log: seq<Entry>, from: nat, deletes: nat,
    spent: int, now: int, lastCursor: Cursor)
  {
    && i < 4 && from <= |middle| && middle <= log
    && deletes <= Total(here, Stage(i))
    && Contained(here, after, log, |middle|, Stage(i))
    && now <= spent + deletes + (deletes + 1) * (|Stage(i)| * (lastCursor + 1))
  }

  lemma StageCompletes(
    i: nat, start: Contents, here: Contents, after: Contents, middle: seq<Entry>, log: seq<Entry>, from: nat,
    listed: nat, deletes: nat, spent: int, now: int, lastCursor: Cursor)
    requires AfterStages(i, start, here, middle, from, listed, spent, lastCursor)
    requires StageRan(i, here, after, middle, log, from, deletes, spent, now, lastCursor)
    requires Lowered(here, after, Stage(i), deletes) && Emptied(after, Stage(i))
    ensures AfterStages(i + 1, start, after, log, from, listed + deletes, now, lastCursor)
  {
    StageStaysInOrder(i, here, after, middle, log, from);
    StagesSpend(i, listed, deletes, spent, now, lastCursor);
    StageLowersTotal(i, here, after, deletes);
    StageEmpties(i, here, after);
    ContainedWidens(here, after, log, |middle|, Stage(i), REGISTRY);
    ContainedTrans(start, here, after, middle, log, from, REGISTRY);
  }

  lemma StageIsCutShort(
    i: nat, start: Contents, here: Contents, after: Contents, middle: seq<Entry>, log: seq<Entry>, from: nat,
    listed: nat, deletes: nat, spent: int, now: int, lastCursor: Cursor)
    requires AfterStages(i, start, here, middle, from, listed, spent, lastCursor)
    requires StageRan(i, here, after, middle, log, from, deletes, spent, now, lastCursor)
    ensures InOrderFrom(log, from) && now <= CallBound(Total(start, REGISTRY), lastCursor)
  {
    StageStaysInOrder(i, here, after, middle, log, from);
    StagesSpend(i, listed, deletes, spent, now, lastCursor);
    StageLeavesTotal(i, here, deletes);
    SpendingIsBounded(i + 1, listed + deletes, Total(start, REGISTRY), lastCursor);
  }
}
