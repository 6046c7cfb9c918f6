// The personal data server as the deleter sees it: whatever it does with each
// call, with a log of the calls made.
module DeletionClient {
  import opened CraftskyCollections

  type Rkey = string
  // Opaque page cursors; the empty cursor is 0.
  type Cursor = nat
  type Contents = map<Nsid, set<Rkey>>

  function Records(contents: Contents, collection: Nsid): set<Rkey> {
    if collection in contents then contents[collection] else {}
  }

  function Without(contents: Contents, collection: Nsid, rkey: Rkey): Contents {
    contents[collection := Records(contents, collection) - {rkey}]
  }

  datatype ListReply = ListError | Page(records: seq<RecordUri>, next: Cursor)
  datatype DeleteReply = Deleted | RecordNotFound | DeleteError

  datatype Call =
    | List(collection: Nsid, cursor: Cursor)
    | Delete(collection: Nsid, rkey: Rkey)

  // One call, the owner's records just before it, the records it listed, and whether
  // it was answered without an error; the delete of an absent record is no error.
  datatype Entry = Entry(call: Call, before: Contents, records: seq<RecordUri>, ok: bool)

  // How the server answers call number n. The answer may be wrong, and the
  // contents may change under the caller at every call.
  type OnList = (nat, Contents, Nsid, Cursor, nat) -> (Contents, ListReply)
  type OnDelete = (nat, Contents, Nsid, Rkey) -> (Contents, DeleteReply)

  // Whether records of the collection remain at the cursor or after it.
  type Remain = (Contents, Nsid, Cursor) -> bool

  class Client {
    const owner: Did
    const onList: OnList
    const onDelete: OnDelete
    const deadline: nat        // the context ends after this many calls
    const lastCursor: Cursor   // of an orderly server
    const remain: Remain       // of an orderly server
    var contents: Contents
    var calls: nat
    ghost var log: seq<Entry>

    ghost predicate Valid() reads this {
      calls <= deadline && calls <= |log|
    }

    // No concurrent writer, and an orderly server: a page lists records that are
    // there, cursors advance, and an empty page is not the last one while records
    // remain. A page may skip any record.
    ghost predicate Quiet() {
      && (forall n, c, collection, cursor, limit :: OrderlyList(n, c, collection, cursor, limit))
      && (forall n, c, collection, rkey :: OrderlyDelete(n, c, collection, rkey))
      && (forall c, collection :: Records(c, collection) != {} ==> remain(c, collection, 0))
    }

    ghost predicate OrderlyList(n: nat, c: Contents, collection: Nsid, cursor: Cursor, limit: nat) {
      var (after, reply) := onList(n, c, collection, cursor, limit);
      after == c && reply.Page? && OrderlyPage(reply, c, collection, cursor, limit)
    }

    ghost predicate OrderlyPage(page: ListReply, c: Contents, collection: Nsid, cursor: Cursor, limit: nat)
      requires page.Page?
    {
      && OwnRecords(page.records, owner, c, collection)
      && (page.next != 0 ==> cursor < page.next <= lastCursor)
      && (limit > 0 && page.records == [] && remain(c, collection, cursor) ==>
            page.next != 0 && remain(c, collection, page.next))
    }

    ghost predicate OrderlyDelete(n: nat, c: Contents, collection: Nsid, rkey: Rkey) {
      onDelete(n, c, collection, rkey)
        == (Without(c, collection, rkey), if rkey in Records(c, collection) then Deleted else RecordNotFound)
    }

    constructor (owner: Did, onList: OnList, onDelete: OnDelete, deadline: nat, lastCursor: Cursor, remain: Remain,
                 contents: Contents)
      ensures Valid() && log == [] && calls == 0 && this.contents == contents
      ensures this.owner == owner && this.onList == onList && this.onDelete == onDelete
      ensures this.deadline == deadline && this.lastCursor == lastCursor && this.remain == remain
    {
      this.owner, this.onList, this.onDelete := owner, onList, onDelete;
      this.deadline, this.lastCursor, this.remain := deadline, lastCursor, remain;
      this.contents, calls, log := contents, 0, [];
    }

    method ListRecords(collection: Nsid, cursor: Cursor, limit: nat) returns (reply: ListReply)
      requires Valid()
      modifies this
      ensures Valid()
      ensures old(calls) == deadline
              ==> reply.ListError? && calls == old(calls) && contents == old(contents) && log == old(log)
      ensures old(calls) < deadline ==>
                && calls == old(calls) + 1
                && (contents, reply) == onList(old(calls), old(contents), collection, cursor, limit)
                && log == old(log)
                   + [Entry(List(collection, cursor), old(contents), if reply.Page? then reply.records else [],
                            reply.Page?)]
      ensures Quiet() && old(calls) < deadline ==>
                contents == old(contents) && reply.Page? && OrderlyPage(reply, old(contents), collection, cursor, limit)
    {
      if calls == deadline {
        return ListError;
      }
      var n, before := calls, contents;
      assert Quiet() ==> OrderlyList(n, before, collection, cursor, limit);
      var answer := onList(n, before, collection, cursor, limit);
      calls, contents, reply := n + 1, answer.0, answer.1;
      log := log
        + [Entry(List(collection, cursor), before, if reply.Page? then reply.records else [], reply.Page?)];
    }

    method DeleteRecord(collection: Nsid, rkey: Rkey) returns (reply: DeleteReply)
      requires Valid()
      modifies this
      ensures Valid()
      ensures old(calls) == deadline ==> reply.DeleteError? && calls == old(calls) && contents == old(contents)
      ensures old(calls) < deadline ==>
                && calls == old(calls) + 1
                && (contents, reply) == onDelete(old(calls), old(contents), collection, rkey)
      ensures log == old(log) + [Entry(Delete(collection, rkey), old(contents), [], !reply.DeleteError?)]
      ensures Quiet() && old(calls) < deadline ==>
                contents == Without(old(contents), collection, rkey) && !reply.DeleteError?
    {
      var n, before := calls, contents;
      reply := DeleteError;
      if n < deadline {
        assert Quiet() ==> OrderlyDelete(n, before, collection, rkey);
        var answer := onDelete(n, before, collection, rkey);
        calls, contents, reply := n + 1, answer.0, answer.1;
      }
      log := log + [Entry(Delete(collection, rkey), before, [], !reply.DeleteError?)];
    }
  }

  predicate ListedRecord(uri: RecordUri, owner: Did, contents: Contents, collection: Nsid) {
    uri.AtUri? && uri.authority == owner && uri.collection == collection && uri.rkey in Records(contents, collection)
  }

  // A page of distinct records that are there.
  ghost predicate OwnRecords(records: seq<RecordUri>, owner: Did, contents: Contents, collection: Nsid) {
    && (forall i :: 0 <= i < |records| ==> ListedRecord(records[i], owner, contents, collection))
    && (forall i, j :: 0 <= i < j < |records| ==> records[i] != records[j])
  }
}
