// Keyset pagination: pages cut from a descending listing by the last key seen,
// against the plain listing itself.
module KeysetPaging {
  import opened Wrappers

  // Ids are ordered as the database orders them.
  datatype Key = Key(at: int, id: nat)

  // (created_at, id) < (created_at, id)
  predicate Below(a: Key, b: Key) {
    a.at < b.at || (a.at == b.at && a.id < b.id)
  }

  predicate Descending(keys: seq<Key>) {
    forall i, j :: 0 <= i < j < |keys| ==> Below(keys[j], keys[i])
  }

  // ORDER BY created_at DESC, id DESC, of a set of rows.
  ghost predicate IsListing(keys: seq<Key>, rows: set<Key>) {
    Descending(keys) && forall key :: key in keys <==> key in rows
  }

  ghost predicate HighestOf(rows: set<Key>, highest: Key) {
    highest in rows && forall key :: key in rows && key != highest ==> Below(key, highest)
  }

  lemma HighestExists(rows: set<Key>)
    requires rows != {}
    ensures exists highest :: HighestOf(rows, highest)
  {
    var some :| some in rows;
    var rest := rows - {some};
    if rest == {} {
      assert rows == {some};
      assert HighestOf(rows, some);
    } else {
      HighestExists(rest);
      var top :| HighestOf(rest, top);
      assert forall key :: key in rows ==> key == some || key in rest;
      assert HighestOf(rows, if Below(some, top) then top else some);
    }
  }

  ghost function Highest(rows: set<Key>): (highest: Key)
    requires rows != {}
    ensures HighestOf(rows, highest)
  {
    HighestExists(rows);
    var top :| HighestOf(rows, top);
    top
  }

  ghost function Listing(rows: set<Key>): (keys: seq<Key>)
    ensures IsListing(keys, rows) && |keys| == |rows|
  {
    if rows == {} then []
    else
      var highest := Highest(rows);
      var rest := Listing(rows - {highest});
      assert rows == (rows - {highest}) + {highest};
      assert forall k <- rest :: k in rows - {highest};
      [highest] + rest
  }

  // A listing is determined by its rows.
  lemma {:induction false} ListingIsUnique(a: seq<Key>, b: seq<Key>, rows: set<Key>)
    requires IsListing(a, rows) && IsListing(b, rows)
    ensures a == b
    decreases |a|
  {
    if a == [] {
      assert rows == {};
      assert forall i :: 0 <= i < |b| ==> b[i] in b;
    } else {
      assert a[0] in a;
      assert a[0] in rows;
      assert a[0] in b;
      assert b[0] in rows;
      assert b[0] in a;
      assert a[0] == b[0];
      TailIsListing(a, rows);
      TailIsListing(b, rows);
      ListingIsUnique(a[1..], b[1..], rows - {a[0]});
      assert a == [a[0]] + a[1..] && b == [b[0]] + b[1..];
    }
  }

  lemma TailIsListing(a: seq<Key>, rows: set<Key>)
    requires a != [] && IsListing(a, rows)
    ensures IsListing(a[1..], rows - {a[0]})
  {
    forall key
      ensures key in a[1..] <==> key in rows - {a[0]}
    {
      if key in a[1..] {
        var i :| 0 <= i < |a[1..]| && a[1..][i] == key;
        assert Below(a[i + 1], a[0]);
      }
      if key in rows - {a[0]} {
        var i :| 0 <= i < |a| && a[i] == key;
        assert a[1..][i - 1] == key;
      }
    }
  }

  // --- One page ------------------------------------------------------------

  ghost function Remaining(rows: set<Key>, after: Option<Key>): set<Key> {
    set key | key in rows && (after.None? || Below(key, after.value))
  }

  // The query: at most n rows below the cursor, highest first.
  ghost predicate IsQuery(answer: seq<Key>, rows: set<Key>, after: Option<Key>, n: nat) {
    var all := Listing(Remaining(rows, after));
    answer == if |all| <= n then all else all[..n]
  }

  // ORDER BY created_at DESC, id DESC LIMIT n below the cursor.
  method SelectHighest(rows: set<Key>, after: Option<Key>, n: nat) returns (answer: seq<Key>)
    ensures IsQuery(answer, rows, after, n)
  {
    var below := set key | key in rows && (after.None? || Below(key, after.value));
    assert below == Remaining(rows, after);
    answer := TakeHighest(below, n);
  }

  method TakeHighest(keys: set<Key>, n: nat) returns (answer: seq<Key>)
    ensures answer == if |Listing(keys)| <= n then Listing(keys) else Listing(keys)[..n]
  {
    var rest := keys;
    answer := [];
    while |answer| < n && rest != {}
      invariant |answer| <= n && answer + Listing(rest) == Listing(keys)
      decreases |rest|
    {
      var highest := FindHighest(rest);
      OneMoreListed(answer, rest, highest);
      answer := answer + [highest];
      rest := rest - {highest};
    }
    if rest == {} {
      assert answer == Listing(keys);
    } else {
      assert answer == Listing(keys)[..n];
    }
  }

  method FindHighest(keys: set<Key>) returns (highest: Key)
    requires keys != {}
    ensures HighestOf(keys, highest)
  {
    highest :| highest in keys;
    var rest := keys - {highest};
    while rest != {}
      invariant rest <= keys && highest in keys
      invariant forall key :: key in keys && key !in rest && key != highest ==> Below(key, highest)
      decreases |rest|
    {
      var key :| key in rest;
      rest := rest - {key};
      if Below(highest, key) {
        highest := key;
      }
    }
  }

  lemma OneMoreListed(answer: seq<Key>, rest: set<Key>, highest: Key)
    requires HighestOf(rest, highest)
    ensures answer + Listing(rest) == (answer + [highest]) + Listing(rest - {highest})
  {
    assert Highest(rest) == highest;
    assert Listing(rest) == [highest] + Listing(rest - {highest});
  }

  datatype Page = Page(items: seq<Key>, next: Option<Key>)

  // The rows asked for are one more than the page holds; the extra one only says
  // that there is more.
  method BuildPage(answer: seq<Key>, limit: nat) returns (page: Page)
    requires limit > 0
    ensures page.items == if |answer| <= limit then answer else answer[..limit]
    ensures page.next == if |answer| <= limit then None else Some(answer[limit - 1])
  {
    var items: seq<Key> := [];
    for i := 0 to |answer|
      invariant items == answer[..i]
    {
      items := items + [answer[i]];
    }
    if |items| > limit {
      items := items[..limit];
      return Page(items, Some(items[limit - 1]));
    }
    page := Page(items, None);
  }

  ghost function PageOf(rows: set<Key>, after: Option<Key>, limit: nat): (page: Page)
    requires limit > 0
    ensures |page.items| <= limit && Descending(page.items)
  {
    var all := Listing(Remaining(rows, after));
    if |all| <= limit then Page(all, None) else Page(all[..limit], Some(all[limit - 1]))
  }

  lemma BuiltPageIsPageOf(answer: seq<Key>, page: Page, rows: set<Key>, after: Option<Key>, limit: nat)
    requires limit > 0 && IsQuery(answer, rows, after, limit + 1)
    requires page.items == if |answer| <= limit then answer else answer[..limit]
    requires page.next == if |answer| <= limit then None else Some(answer[limit - 1])
    ensures page == PageOf(rows, after, limit)
  {
  }

  // Cutting a listing after its n-th key leaves the listing of the keys below it.
  lemma CutListing(all: seq<Key>, rows: set<Key>, n: nat)
    requires IsListing(all, rows) && 0 < n <= |all|
    ensures IsListing(all[n..], Remaining(rows, Some(all[n - 1])))
  {
    var last, rest := all[n - 1], all[n..];
    forall key
      ensures key in rest <==> key in Remaining(rows, Some(last))
    {
      if key in rest {
        var i :| 0 <= i < |rest| && rest[i] == key;
        assert all[n + i] == key && all[n + i] in all;
      }
      if key in Remaining(rows, Some(last)) {
        assert key in all;
        var i :| 0 <= i < |all| && all[i] == key;
        assert i >= n;
        assert rest[i - n] == key;
      }
    }
  }

  lemma RemainingOfRemaining(rows: set<Key>, after: Option<Key>, last: Key)
    requires last in Remaining(rows, after)
    ensures Remaining(Remaining(rows, after), Some(last)) == Remaining(rows, Some(last))
    ensures Remaining(rows, Some(last)) < Remaining(rows, after)
  {
    assert last !in Remaining(rows, Some(last));
  }

  // What the next page starts from: exactly the rows not yet listed.
  lemma NextPageContinues(rows: set<Key>, after: Option<Key>, limit: nat)
    requires limit > 0 && PageOf(rows, after, limit).next.Some?
    ensures var next := PageOf(rows, after, limit).next;
      && IsListing(Listing(Remaining(rows, after))[limit..], Remaining(rows, next))
      && Remaining(rows, next) < Remaining(rows, after)
  {
    var all := Listing(Remaining(rows, after));
    assert all[limit - 1] in all;
    CutListing(all, Remaining(rows, after), limit);
    RemainingOfRemaining(rows, after, all[limit - 1]);
  }

  // --- Following the cursors -----------------------------------------------

  ghost function Follow(rows: set<Key>, after: Option<Key>, limit: nat): seq<Key>
    requires limit > 0
    decreases Remaining(rows, after)
  {
    var page := PageOf(rows, after, limit);
    if page.next.None? then page.items
    else
      NextPageContinues(rows, after, limit);
      page.items + Follow(rows, page.next, limit)
  }

  // Over an unchanged store the pages are the plain listing, each row once.
  lemma {:induction false} PagesAreTheListing(rows: set<Key>, after: Option<Key>, limit: nat)
    requires limit > 0
    ensures Follow(rows, after, limit) == Listing(Remaining(rows, after))
    decreases Remaining(rows, after)
  {
    var page := PageOf(rows, after, limit);
    if page.next.Some? {
      NextPageContinues(rows, after, limit);
      PagesAreTheListing(rows, page.next, limit);
      RestIsListing(rows, after, limit);
      assert Follow(rows, after, limit) == page.items + Listing(Remaining(rows, page.next));
    }
  }

  lemma RestIsListing(rows: set<Key>, after: Option<Key>, limit: nat)
    requires limit > 0 && PageOf(rows, after, limit).next.Some?
    ensures PageOf(rows, after, limit).items + Listing(Remaining(rows, PageOf(rows, after, limit).next))
         == Listing(Remaining(rows, after))
  {
    NextPageContinues(rows, after, limit);
    var all := Listing(Remaining(rows, after));
    var next := Remaining(rows, PageOf(rows, after, limit).next);
    ListingIsUnique(all[limit..], Listing(next), next);
    TakeAndDrop(all, limit);
  }

  lemma TakeAndDrop(all: seq<Key>, n: nat)
    requires n <= |all|
    ensures all[..n] + all[n..] == all
  {
  }

  lemma WholeListing(rows: set<Key>, limit: nat)
    requires limit > 0
    ensures Follow(rows, None, limit) == Listing(rows)
  {
    PagesAreTheListing(rows, None, limit);
    assert Remaining(rows, None) == rows;
  }

  // --- While the store changes ---------------------------------------------

  // One store per page fetched; reading ends at a page without a next cursor.
  ghost function FollowOver(stores: seq<set<Key>>, after: Option<Key>, limit: nat): seq<Key>
    requires limit > 0
  {
    if stores == [] then []
    else
      var page := PageOf(stores[0], after, limit);
      page.items + if page.next.None? then [] else FollowOver(stores[1..], page.next, limit)
  }

  ghost predicate ReachesEnd(stores: seq<set<Key>>, after: Option<Key>, limit: nat)
    requires limit > 0
  {
    && stores != []
    && var page := PageOf(stores[0], after, limit);
       page.next.None? || ReachesEnd(stores[1..], page.next, limit)
  }

  lemma PageIsBelowCursor(rows: set<Key>, after: Option<Key>, limit: nat, key: Key)
    requires limit > 0 && key in PageOf(rows, after, limit).items
    ensures key in rows && (after.Some? ==> Below(key, after.value))
    ensures PageOf(rows, after, limit).next.Some? ==>
              key == PageOf(rows, after, limit).next.value || Below(PageOf(rows, after, limit).next.value, key)
  {
    var all := Listing(Remaining(rows, after));
    var items := PageOf(rows, after, limit).items;
    var i :| 0 <= i < |items| && items[i] == key;
    assert all[i] == key;
    assert key in all;
  }

  // Whatever is inserted, deleted or moved meanwhile, no key is ever listed twice.
  lemma {:induction false} ReadingNeverRepeats(stores: seq<set<Key>>, after: Option<Key>, limit: nat)
    requires limit > 0
    ensures Descending(FollowOver(stores, after, limit))
    ensures forall key <- FollowOver(stores, after, limit) :: after.Some? ==> Below(key, after.value)
    decreases |stores|
  {
    if stores != [] {
      var page := PageOf(stores[0], after, limit);
      forall key | key in page.items
        ensures after.Some? ==> Below(key, after.value)
        ensures page.next.Some? ==> key == page.next.value || Below(page.next.value, key)
      {
        PageIsBelowCursor(stores[0], after, limit, key);
      }
      if page.next.Some? {
        var rest := FollowOver(stores[1..], page.next, limit);
        ReadingNeverRepeats(stores[1..], page.next, limit);
        assert page.items[limit - 1] == page.next.value;
        assert page.next.value in page.items;
        ConcatenationDescends(page.items, rest, page.next.value);
      }
    }
  }

  lemma ConcatenationDescends(a: seq<Key>, b: seq<Key>, cut: Key)
    requires Descending(a) && Descending(b)
    requires forall key <- a :: key == cut || Below(cut, key)
    requires forall key <- b :: Below(key, cut)
    ensures Descending(a + b)
  {
    forall i, j | 0 <= i < j < |a + b|
      ensures Below((a + b)[j], (a + b)[i])
    {
      if i < |a| <= j {
        assert a[i] in a && b[j - |a|] in b;
      }
    }
  }

  // A row that is there all along is listed: with ReadingNeverRepeats, exactly once.
  lemma {:induction false} LastingRowsAreListed(stores: seq<set<Key>>, after: Option<Key>, limit: nat, key: Key)
    requires limit > 0 && ReachesEnd(stores, after, limit)
    requires forall rows <- stores :: key in rows
    requires after.Some? ==> Below(key, after.value)
    ensures key in FollowOver(stores, after, limit)
    decreases |stores|
  {
    var rows := stores[0];
    assert rows in stores;
    var page := PageOf(rows, after, limit);
    var all := Listing(Remaining(rows, after));
    assert key in Remaining(rows, after);
    assert key in all;
    if page.next.Some? && key !in page.items {
      var i :| 0 <= i < |all| && all[i] == key;
      assert forall k :: 0 <= k < limit ==> page.items[k] == all[k] && page.items[k] in page.items;
      assert Below(key, all[limit - 1]);
      LastingRowsAreListed(stores[1..], page.next, limit, key);
    }
  }
}
