// The operator console's lists: filters, cursor checks, and one page of the
// matching rows.
module ConsoleReads {
  import opened Wrappers
  import opened KeysetPaging

  datatype Row = Row(at: int, state: string, scope: string, kind: string, jobState: string, item: string)

  // A read's filters; the empty string filters nothing.
  datatype Filters = Filters(resource: string, scope: string, state: string, kind: string, jobState: string)

  datatype Cursor = Cursor(filters: Filters, key: Key)

  // What the client sends back: something undecodable, or a cursor and the length
  // of its text.
  datatype RawCursor = NoCursor | Garbage | Encoded(cursor: Cursor, length: nat)

  datatype LimitParam = NoLimit | BadLimit | Limit(n: int)

  const ZERO_TIME: int := 0
  const NIL_ID: nat := 0
  const MAX_CURSOR: nat := 1024

  predicate Matches(row: Row, f: Filters) {
    && (f.scope == "" || row.scope == f.scope)
    && (f.kind == "" || row.kind == f.kind)
    && (f.jobState == "" || row.jobState == f.jobState)
    && (f.state == "" || row.state == f.state)
  }

  function Matching(rows: map<nat, Row>, f: Filters): set<Key> {
    set id | id in rows && Matches(rows[id], f) :: Key(rows[id].at, id)
  }

  predicate ValidFilters(f: Filters) {
    && |f.kind| <= 32 && |f.jobState| <= 32 && |f.state| <= 32
    && (f.kind != "" ==> f.resource in {"workflows", "external-intakes", "incidents"})
    && (f.jobState != "" ==> f.resource == "scans")
  }

  predicate AcceptedCursor(raw: RawCursor, f: Filters) {
    raw.Encoded? && raw.length <= MAX_CURSOR && raw.cursor.filters == f
    && raw.cursor.key.at != ZERO_TIME && raw.cursor.key.id != NIL_ID
  }

  function LimitOf(limit: LimitParam): Option<nat> {
    match limit
    case NoLimit => Some(50)
    case BadLimit => None
    case Limit(n) => if 1 <= n <= 100 then Some(n) else None
  }

  datatype Reply = Refused(code: string) | Listed(items: seq<string>, keys: seq<Key>, next: Option<Cursor>)

  predicate KeysMatch(keys: seq<Key>, rows: map<nat, Row>, f: Filters) {
    forall i :: 0 <= i < |keys| ==>
      keys[i].id in rows && Matches(rows[keys[i].id], f) && rows[keys[i].id].at == keys[i].at
  }

  // A page of exactly these rows.
  ghost predicate ShowsPage(reply: Reply, rows: map<nat, Row>, f: Filters, page: Page)
    requires reply.Listed?
  {
    && reply.keys == page.items && |reply.items| == |reply.keys|
    && KeysMatch(reply.keys, rows, f)
    && (forall i :: 0 <= i < |reply.keys| ==> reply.items[i] == rows[reply.keys[i].id].item)
    && reply.next == (match page.next case None => None case Some(key) => Some(Cursor(f, key)))
  }

  // --- What a list answers -------------------------------------------------

  // A limit from 1 to 100, or none for 50.
  predicate Admits(limit: LimitParam, size: nat) {
    match limit
    case NoLimit => size == 50
    case Limit(n) => 1 <= n <= 100 && size == n
    case BadLimit => false
  }

  // Kinds belong to three resources, job states to scans, and no filter but the scope
  // is longer than 32 characters.
  predicate Sensible(f: Filters) {
    && |f.kind| <= 32 && |f.jobState| <= 32 && |f.state| <= 32
    && (f.kind == "" || f.resource == "workflows" || f.resource == "external-intakes" || f.resource == "incidents")
    && (f.jobState == "" || f.resource == "scans")
  }

  // It decodes, is at most 1024 characters long, comes from the same read and names a row.
  predicate Resumes(raw: RawCursor, f: Filters) {
    match raw
    case Encoded(cursor, length) => length <= 1024 && cursor.filters == f && cursor.key.at != 0 && cursor.key.id != 0
    case _ => false
  }

  // The row has every value that is asked for.
  predicate Wanted(row: Row, f: Filters) {
    && f.scope in {"", row.scope} && f.kind in {"", row.kind} && f.jobState in {"", row.jobState}
    && f.state in {"", row.state}
  }

  // Later, or at the same instant with the higher id.
  predicate Newer(a: Key, b: Key) {
    a.at > b.at || (a.at == b.at && a.id > b.id)
  }

  predicate ComesAfter(key: Key, after: Option<Key>) {
    after.None? || Newer(after.value, key)
  }

  // Wanted rows after the cursor, newest first and no more than the limit.
  ghost predicate ShowsWanted(reply: Reply, rows: map<nat, Row>, f: Filters, after: Option<Key>, limit: nat)
    requires reply.Listed?
  {
    && |reply.items| == |reply.keys| <= limit
    && (forall i, j :: 0 <= i < j < |reply.keys| ==> Newer(reply.keys[i], reply.keys[j]))
    && forall i :: 0 <= i < |reply.keys| ==>
         && reply.keys[i].id in rows && rows[reply.keys[i].id].at == reply.keys[i].at
         && Wanted(rows[reply.keys[i].id], f) && ComesAfter(reply.keys[i], after)
         && reply.items[i] == rows[reply.keys[i].id].item
  }

  // A row left out is older than all of them, and the page is full.
  ghost predicate LeavesOlder(reply: Reply, rows: map<nat, Row>, f: Filters, after: Option<Key>, limit: nat)
    requires reply.Listed?
  {
    forall id :: LeftOut(reply.keys, rows, f, after, id) ==>
      |reply.keys| == limit && forall key <- reply.keys :: Newer(key, Key(rows[id].at, id))
  }

  // There is a next cursor exactly when a row is left out, and it names the last row shown.
  ghost predicate PointsOn(reply: Reply, rows: map<nat, Row>, f: Filters, after: Option<Key>)
    requires reply.Listed?
  {
    && (reply.next.Some? <==> exists id :: LeftOut(reply.keys, rows, f, after, id))
    && (reply.next.Some? ==> reply.keys != [] && reply.next.value == Cursor(f, reply.keys[|reply.keys| - 1]))
  }

  ghost predicate IsNextPage(reply: Reply, rows: map<nat, Row>, f: Filters, after: Option<Key>, limit: nat)
    requires reply.Listed?
  {
    && ShowsWanted(reply, rows, f, after, limit) && LeavesOlder(reply, rows, f, after, limit)
    && PointsOn(reply, rows, f, after)
  }

  predicate LeftOut(keys: seq<Key>, rows: map<nat, Row>, f: Filters, after: Option<Key>, id: nat) {
    && id in rows && Wanted(rows[id], f) && ComesAfter(Key(rows[id].at, id), after)
    && Key(rows[id].at, id) !in keys
  }

  lemma MatchingIsWanted(rows: map<nat, Row>, f: Filters)
    ensures forall id :: id in rows ==> (Matches(rows[id], f) <==> Wanted(rows[id], f))
    ensures forall a, b :: Below(a, b) <==> Newer(b, a)
  {
  }

  // The page of the matching rows is the page that is asked for.
  lemma ShownPageIsPage(reply: Reply, rows: map<nat, Row>, f: Filters, after: Option<Key>, limit: nat)
    requires limit > 0 && reply.Listed? && ShowsPage(reply, rows, f, PageOf(Matching(rows, f), after, limit))
    ensures IsNextPage(reply, rows, f, after, limit)
  {
    ShownIsWanted(reply, rows, f, after, limit);
    LeftOutIsOlder(reply, rows, f, after, limit);
    ListedIsWanted(rows, f, after);
    var all := Listing(Remaining(Matching(rows, f), after));
    if reply.next.Some? {
      FirstLeftOut(all, reply.keys, limit);
      assert all[limit] in all;
      assert LeftOut(reply.keys, rows, f, after, all[limit].id);
    }
  }

  lemma ShownIsWanted(reply: Reply, rows: map<nat, Row>, f: Filters, after: Option<Key>, limit: nat)
    requires limit > 0 && reply.Listed? && ShowsPage(reply, rows, f, PageOf(Matching(rows, f), after, limit))
    ensures ShowsWanted(reply, rows, f, after, limit)
  {
    ListedIsWanted(rows, f, after);
    var all := Listing(Remaining(Matching(rows, f), after));
    forall i | 0 <= i < |reply.keys|
      ensures Wanted(rows[reply.keys[i].id], f) && ComesAfter(reply.keys[i], after)
      ensures forall j :: i < j < |reply.keys| ==> Newer(reply.keys[i], reply.keys[j])
    {
      assert reply.keys[i] == all[i] && all[i] in all;
      assert forall j :: i < j < |reply.keys| ==> reply.keys[j] == all[j] && Below(all[j], all[i]);
    }
  }

  lemma LeftOutIsOlder(reply: Reply, rows: map<nat, Row>, f: Filters, after: Option<Key>, limit: nat)
    requires limit > 0 && reply.Listed? && ShowsPage(reply, rows, f, PageOf(Matching(rows, f), after, limit))
    ensures LeavesOlder(reply, rows, f, after, limit)
    ensures reply.next.None? ==> forall id :: !LeftOut(reply.keys, rows, f, after, id)
  {
    ListedIsWanted(rows, f, after);
    forall id | LeftOut(reply.keys, rows, f, after, id)
      ensures |reply.keys| == limit && reply.next.Some?
      ensures forall key <- reply.keys :: Newer(key, Key(rows[id].at, id))
    {
      LeftOutIsBelow(Listing(Remaining(Matching(rows, f), after)), reply.keys, limit, Key(rows[id].at, id));
    }
  }

  lemma ListedIsWanted(rows: map<nat, Row>, f: Filters, after: Option<Key>)
    ensures forall key :: key in Listing(Remaining(Matching(rows, f), after))
              <==> key.id in rows && rows[key.id].at == key.at && Wanted(rows[key.id], f) && ComesAfter(key, after)
  {
    MatchingIsWanted(rows, f);
  }

  lemma LeftOutIsBelow(all: seq<Key>, keys: seq<Key>, limit: nat, key: Key)
    requires limit > 0 && Descending(all) && key in all && key !in keys
    requires keys == if |all| <= limit then all else all[..limit]
    ensures |all| > limit && forall other <- keys :: Newer(other, key)
  {
    var i :| 0 <= i < |all| && all[i] == key;
    assert forall j :: 0 <= j < |keys| ==> keys[j] == all[j] && keys[j] in keys;
    forall other | other in keys
      ensures Newer(other, key)
    {
      var j :| 0 <= j < |keys| && keys[j] == other;
      assert all[j] == other && Below(all[i], all[j]);
    }
  }

  lemma FirstLeftOut(all: seq<Key>, keys: seq<Key>, limit: nat)
    requires 0 < limit < |all| && Descending(all) && keys == all[..limit]
    ensures all[limit] !in keys
  {
    forall i | 0 <= i < limit
      ensures keys[i] != all[limit]
    {
      assert Below(all[limit], all[i]);
    }
  }

  class ConsoleList {
    var rows: map<nat, Row>

    constructor (rows: map<nat, Row>)
      ensures this.rows == rows
    {
      this.rows := rows;
    }

    // ConsoleListHandler, from its checks to its page.
    method List(f: Filters, limit: LimitParam, raw: RawCursor) returns (reply: Reply)
      ensures reply.Listed? <==> LimitOf(limit).Some? && ValidFilters(f) && (raw.NoCursor? || AcceptedCursor(raw, f))
      ensures reply.Listed? ==>
                ShowsPage(reply, rows, f,
                          PageOf(Matching(rows, f), if raw.NoCursor? then None
                            else Some(raw.cursor.key), LimitOf(limit).value))
      ensures reply.Listed? <==>
                (exists size :: Admits(limit, size)) && Sensible(f) && (raw.NoCursor? || Resumes(raw, f))
      ensures reply == Refused("invalid_cursor") <==>
                (exists size :: Admits(limit, size)) && Sensible(f) && !raw.NoCursor? && !Resumes(raw, f)
      ensures forall size :: reply.Listed? && Admits(limit, size) ==>
                IsNextPage(reply, rows, f, if raw.NoCursor? then None else Some(raw.cursor.key), size)
    {
      assert LimitOf(limit).Some? ==> Admits(limit, LimitOf(limit).value);
      var size := LimitOf(limit);
      if size.None? {
        return Refused("invalid_request");
      }
      if !ValidFilters(f) {
        return Refused("invalid_request");
      }
      var after := None;
      if !raw.NoCursor? {
        if !AcceptedCursor(raw, f) {
          return Refused("invalid_cursor");
        }
        after := Some(raw.cursor.key);
      }
      reply := ReadPage(f, after, size.value);
      ShownPageIsPage(reply, rows, f, after, size.value);
    }

    method ReadPage(f: Filters, after: Option<Key>, limit: nat) returns (reply: Reply)
      requires limit > 0
      ensures reply.Listed? && ShowsPage(reply, rows, f, PageOf(Matching(rows, f), after, limit))
    {
      var answer := Query(f, after, limit + 1);
      var page := BuildPage(answer, limit);
      BuiltPageIsPageOf(answer, page, Matching(rows, f), after, limit);
      PageRowsMatch(f, after, limit);
      var items := ItemsOf(page.items);
      reply := Listed(items, page.items, match page.next case None => None case Some(key) => Some(Cursor(f, key)));
    }

    method ItemsOf(keys: seq<Key>) returns (items: seq<string>)
      requires forall i :: 0 <= i < |keys| ==> keys[i].id in rows
      ensures |items| == |keys| && forall i :: 0 <= i < |keys| ==> items[i] == rows[keys[i].id].item
    {
      items := [];
      for i := 0 to |keys|
        invariant |items| == i && forall j :: 0 <= j < i ==> items[j] == rows[keys[j].id].item
      {
        items := items + [rows[keys[i].id].item];
      }
    }

    lemma PageRowsMatch(f: Filters, after: Option<Key>, limit: nat)
      requires limit > 0
      ensures KeysMatch(PageOf(Matching(rows, f), after, limit).items, rows, f)
    {
      var items := PageOf(Matching(rows, f), after, limit).items;
      forall i | 0 <= i < |items|
        ensures items[i] in Matching(rows, f)
      {
        PageIsBelowCursor(Matching(rows, f), after, limit, items[i]);
      }
    }

    // ORDER BY created_at DESC, id DESC LIMIT n over the matching rows below the cursor.
    method Query(f: Filters, after: Option<Key>, n: nat) returns (answer: seq<Key>)
      ensures IsQuery(answer, Matching(rows, f), after, n)
    {
      answer := SelectHighest(Matching(rows, f), after, n);
    }
  }

  // What a client gets that sends every next cursor back: the keys of the pages it
  // was answered, and whether a cursor was refused. `sizeOf` is a cursor's text length.
  datatype Read = Read(keys: seq<Key>, refused: bool)

  predicate Sendable(f: Filters, key: Key, sizeOf: Cursor -> nat) {
    AcceptedCursor(Encoded(Cursor(f, key), sizeOf(Cursor(f, key))), f)
  }

  ghost function ReadOn(rows: set<Key>, f: Filters, after: Option<Key>, limit: nat, sizeOf: Cursor -> nat): Read
    requires limit > 0
    decreases Remaining(rows, after)
  {
    var page := PageOf(rows, after, limit);
    if page.next.None? then Read(page.items, false)
    else if !Sendable(f, page.next.value, sizeOf) then Read(page.items, true)
    else
      NextPageContinues(rows, after, limit);
      var rest := ReadOn(rows, f, page.next, limit, sizeOf);
      Read(page.items + rest.keys, rest.refused)
  }

  // The last key of the k-th full page makes a cursor that comes back refused.
  ghost predicate BreaksAt(keys: seq<Key>, limit: nat, k: nat, f: Filters, sizeOf: Cursor -> nat) {
    && 0 < k * limit < |keys|
    && var last := keys[k * limit - 1];
       last.at == ZERO_TIME || last.id == NIL_ID || sizeOf(Cursor(f, last)) > MAX_CURSOR
  }

  lemma BreaksAtNextPage(keys: seq<Key>, limit: nat, k: nat, f: Filters, sizeOf: Cursor -> nat)
    requires 0 < limit < |keys| && k > 0
    ensures BreaksAt(keys, limit, k + 1, f, sizeOf) <==> BreaksAt(keys[limit..], limit, k, f, sizeOf)
  {
    assert (k + 1) * limit == k * limit + limit;
    assert k * limit >= limit;
    if k * limit < |keys| - limit {
      assert keys[limit..][k * limit - 1] == keys[(k + 1) * limit - 1];
    }
  }

  ghost predicate Breaks(keys: seq<Key>, limit: nat, f: Filters, sizeOf: Cursor -> nat) {
    exists k: nat :: BreaksAt(keys, limit, k, f, sizeOf)
  }

  lemma ShortListingNeverBreaks(keys: seq<Key>, limit: nat, f: Filters, sizeOf: Cursor -> nat)
    requires |keys| <= limit
    ensures !Breaks(keys, limit, f, sizeOf)
  {
    if k: nat :| BreaksAt(keys, limit, k, f, sizeOf) {
      AtLeastOnce(k, limit);
    }
  }

  lemma AtLeastOnce(k: nat, limit: nat)
    ensures k == 0 || k * limit >= limit
  {
  }

  lemma SuffixOf(all: seq<Key>, n: nat, rest: seq<Key>)
    requires n <= |all| && all[..n] + rest == all
    ensures rest == all[n..]
  {
    assert rest == (all[..n] + rest)[n..];
  }

  // After a first page whose cursor is accepted, a longer listing breaks where its rest does.
  lemma RestBreaks(all: seq<Key>, limit: nat, f: Filters, sizeOf: Cursor -> nat)
    requires 0 < limit < |all| && !BreaksAt(all, limit, 1, f, sizeOf)
    ensures Breaks(all, limit, f, sizeOf) <==> Breaks(all[limit..], limit, f, sizeOf)
  {
    if k: nat :| BreaksAt(all, limit, k, f, sizeOf) {
      assert k != 0 && k != 1;
      BreaksAtNextPage(all, limit, k - 1, f, sizeOf);
      assert BreaksAt(all[limit..], limit, k - 1, f, sizeOf);
    }
    if k: nat :| BreaksAt(all[limit..], limit, k, f, sizeOf) {
      assert k != 0;
      BreaksAtNextPage(all, limit, k, f, sizeOf);
      assert BreaksAt(all, limit, k + 1, f, sizeOf);
    }
  }

  lemma FullPage(rows: set<Key>, after: Option<Key>, limit: nat)
    requires limit > 0 && PageOf(rows, after, limit).next.Some?
    ensures var all, page := Listing(Remaining(rows, after)), PageOf(rows, after, limit);
      && limit < |all| && page.items == all[..limit]
      && page.next.value == all[limit - 1]
      && Remaining(rows, page.next) < Remaining(rows, after)
      && Listing(Remaining(rows, page.next)) == all[limit..]
  {
    NextPageContinues(rows, after, limit);
    RestIsListing(rows, after, limit);
    SuffixOf(Listing(Remaining(rows, after)), limit, Listing(Remaining(rows, PageOf(rows, after, limit).next)));
  }

  lemma FirstBreak(all: seq<Key>, limit: nat, f: Filters, sizeOf: Cursor -> nat)
    requires 0 < limit < |all|
    ensures BreaksAt(all, limit, 1, f, sizeOf) <==> !Sendable(f, all[limit - 1], sizeOf)
  {
  }

  // Reading is cut short exactly when some full page ends on a key whose cursor the
  // handler refuses: the zero time, the nil id, or too long a text. Otherwise the
  // client gets the whole listing.
  lemma {:induction false} ReadingStopsExactlyAtRefusedCursors(
    rows: set<Key>, f: Filters, after: Option<Key>, limit: nat, sizeOf: Cursor -> nat)
    requires limit > 0
    ensures var all, read := Listing(Remaining(rows, after)), ReadOn(rows, f, after, limit, sizeOf);
      && (read.refused <==> Breaks(all, limit, f, sizeOf))
      && read.keys <= all
      && (!read.refused ==> read.keys == all)
    decreases Remaining(rows, after)
  {
    var all, page := Listing(Remaining(rows, after)), PageOf(rows, after, limit);
    if page.next.None? {
      ShortListingNeverBreaks(all, limit, f, sizeOf);
    } else {
      FullPage(rows, after, limit);
      FirstBreak(all, limit, f, sizeOf);
      if Sendable(f, page.next.value, sizeOf) {
        ReadingStopsExactlyAtRefusedCursors(rows, f, page.next, limit, sizeOf);
        RestBreaks(all, limit, f, sizeOf);
        PrefixOfPages(all, limit, ReadOn(rows, f, page.next, limit, sizeOf).keys);
      }
    }
  }

  lemma PrefixOfPages(all: seq<Key>, limit: nat, rest: seq<Key>)
    requires limit <= |all| && rest <= all[limit..]
    ensures all[..limit] + rest <= all
    ensures rest == all[limit..] ==> all[..limit] + rest == all
  {
  }

  // Following the cursors lists exactly the matching rows, highest first, each once.
  lemma PagesListMatchingRows(rows: map<nat, Row>, f: Filters, limit: nat)
    requires limit > 0
    ensures Descending(Follow(Matching(rows, f), None, limit))
    ensures forall id :: id in rows && Matches(rows[id], f)
              <==> id in rows && Key(rows[id].at, id) in Follow(Matching(rows, f), None, limit)
    ensures |Follow(Matching(rows, f), None, limit)| == |Matching(rows, f)|
  {
    WholeListing(Matching(rows, f), limit);
  }

  // --- The text of a cursor ------------------------------------------------

  const EMPTY_CURSOR: string :=
    "{\"scope\":\"\",\"resource\":\"\",\"state\":\"\",\"kind\":\"\",\"jobState\":\"\",\"at\":\"\",\"id\":\"\"}"

  // Unpadded base64 of the JSON object, for filters of plain characters; an instant
  // takes at least 20 characters and a uuid 36.
  function TextLength(cursor: Cursor, instant: int -> nat): nat {
    var f := cursor.filters;
    var json := |EMPTY_CURSOR| + |f.scope| + |f.resource| + |f.state| + |f.kind| + |f.jobState|
      + instant(cursor.key.at) + 36;
    (4 * json + 2) / 3
  }

  function Lengths(instant: int -> nat): Cursor -> nat {
    c => TextLength(c, instant)
  }

  const SHORTEST: int -> nat := at => 20

  // The history of an account whose DID is long, but within the 2048 characters a
  // DID may have: the handler answers the first page and refuses its own next cursor.
  lemma LongDidEndsTheReading(rows: set<Key>, did: string, limit: nat, instant: int -> nat)
    requires 0 < limit < |Listing(rows)| && 620 < |did| <= 2048 && forall at :: instant(at) >= 20
    ensures var f := Filters("account-history", did, "", "", "");
      ValidFilters(f) && ReadOn(rows, f, None, limit, Lengths(instant)) == Read(Listing(rows)[..limit], true)
  {
    var f := Filters("account-history", did, "", "", "");
    assert Remaining(rows, None) == rows;
    assert !Sendable(f, Listing(rows)[limit - 1], Lengths(instant));
  }

  // Two cases of such an account, one per page: the second is never shown.
  lemma SecondCaseIsNeverShown()
    ensures var f := Filters("account-history", "did:web:" + seq(640, i => 'a'), "", "", "");
      ReadOn({Key(1, 1), Key(2, 2)}, f, None, 1, Lengths(SHORTEST)) == Read([Key(2, 2)], true)
  {
    var rows, keys := {Key(1, 1), Key(2, 2)}, [Key(2, 2), Key(1, 1)];
    assert keys[0] == Key(2, 2) && keys[1] == Key(1, 1);
    ListingIsUnique(Listing(rows), keys, rows);
    var did := "did:web:" + seq(640, i => 'a');
    LongDidEndsTheReading(rows, did, 1, SHORTEST);
    assert keys[..1] == [Key(2, 2)];
  }
}
