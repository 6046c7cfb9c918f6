// The extended-network feed: posts by accounts two follows away, each once,
// however many paths lead to its author.
module ExtendedNetwork {
  import opened Wrappers
  import opened KeysetPaging

  // Accounts and posts are ordered as the database orders their identifiers.
  type Did = nat
  type PostId = nat

  datatype Graph = Graph(
    follows: set<(Did, Did)>,
    blocks: set<(Did, Did)>,
    mutes: set<(Did, Did)>,
    members: set<Did>,
    terminal: set<Did>,
    hidden: set<Did>)       // profiles moderation keeps out of sight

  type Language = string

  datatype Post = Post(
    author: Did, createdAt: int, indexedAt: int, sortAt: int,
    reply: bool, imported: bool, langs: set<Language>,
    visible: bool)          // moderation keeps it in sight
  {
    function ActivityAt(): int {
      if createdAt <= indexedAt && createdAt <= sortAt then createdAt
      else if indexedAt <= sortAt then indexedAt
      else sortAt
    }
  }

  // The viewer's own posts, every post for a viewer without content languages, and
  // otherwise the posts in one of them.
  predicate InLanguage(post: Post, viewer: Did, languages: set<Language>) {
    post.author == viewer || languages == {} || exists language :: language in post.langs && language in languages
  }

  predicate Blocked(g: Graph, a: Did, b: Did) {
    (a, b) in g.blocks || (b, a) in g.blocks
  }

  // An account the viewer follows and may be led on by.
  predicate Connection(g: Graph, viewer: Did, c: Did) {
    && (viewer, c) in g.follows && c in g.members && c != viewer
    && viewer !in g.terminal && c !in g.terminal
    && (viewer, c) !in g.mutes && !Blocked(g, viewer, c) && c !in g.hidden
  }

  predicate Path(g: Graph, viewer: Did, c: Did, author: Did) {
    Connection(g, viewer, c) && (c, author) in g.follows && author != viewer && !Blocked(g, c, author)
  }

  predicate Reached(g: Graph, viewer: Did, author: Did) {
    exists edge :: edge in g.follows && edge.1 == author && Path(g, viewer, edge.0, author)
  }

  predicate Eligible(g: Graph, viewer: Did, author: Did) {
    && author in g.members && (viewer, author) !in g.follows
    && (viewer, author) !in g.mutes && !Blocked(g, viewer, author) && author !in g.hidden
  }

  // What the query asks of a post whose author it has let through.
  predicate Presentable(viewer: Did, post: Post, languages: set<Language>) {
    !post.reply && !post.imported && post.visible && InLanguage(post, viewer, languages)
  }

  predicate Shown(g: Graph, viewer: Did, post: Post, languages: set<Language>) {
    Reached(g, viewer, post.author) && Eligible(g, viewer, post.author) && Presentable(viewer, post, languages)
  }

  // Two follows away by way of c, both of them members, and not followed already.
  predicate LeadsTo(g: Graph, viewer: Did, c: Did, author: Did) {
    && (viewer, c) in g.follows && (c, author) in g.follows && (viewer, author) !in g.follows
    && c in g.members && author in g.members && viewer != c && viewer != author
  }

  // A block in either direction between any two of the three, a mute by the viewer, a
  // hidden profile, or the end of the viewer's or the connection's account.
  predicate KeptApart(g: Graph, viewer: Did, c: Did, author: Did) {
    || (viewer, c) in g.blocks || (c, viewer) in g.blocks
    || (viewer, author) in g.blocks || (author, viewer) in g.blocks
    || (c, author) in g.blocks || (author, c) in g.blocks
    || (viewer, c) in g.mutes || (viewer, author) in g.mutes
    || c in g.hidden || author in g.hidden || viewer in g.terminal || c in g.terminal
  }

  // A post is shown exactly when somebody leads to its author whom nothing keeps
  // apart, and it is an original, native, visible one in a language of the viewer's.
  lemma ShownExactly(g: Graph, viewer: Did, post: Post, languages: set<Language>)
    ensures Shown(g, viewer, post, languages) <==>
            && (exists c: Did :: LeadsTo(g, viewer, c, post.author) && !KeptApart(g, viewer, c, post.author))
            && !post.reply && !post.imported && post.visible && (languages == {} || post.langs * languages != {})
  {
    if language :| language in post.langs && language in languages {
      assert language in post.langs * languages;
    }
    if Reached(g, viewer, post.author) && Eligible(g, viewer, post.author) {
      var edge :| edge in g.follows && edge.1 == post.author && Path(g, viewer, edge.0, post.author);
      assert LeadsTo(g, viewer, edge.0, post.author) && !KeptApart(g, viewer, edge.0, post.author);
    }
    if c: Did :| LeadsTo(g, viewer, c, post.author) && !KeptApart(g, viewer, c, post.author) {
      assert (c, post.author) in g.follows && Path(g, viewer, (c, post.author).0, post.author);
    }
  }

  function Feed(g: Graph, posts: map<PostId, Post>, viewer: Did, languages: set<Language>): set<Key> {
    set id | id in posts && Shown(g, viewer, posts[id], languages) :: Key(posts[id].ActivityAt(), id)
  }

  // GROUP BY author, min(connection), over the joined paths.
  method CollapsePaths(g: Graph, viewer: Did) returns (authors: map<Did, Did>)
    ensures forall author :: author in authors <==> Reached(g, viewer, author)
    ensures forall author :: author in authors ==> LeastFollower(g, viewer, author, authors[author])
  {
    authors := map[];
    var edges := g.follows;
    while edges != {}
      invariant edges <= g.follows
      invariant forall author :: author in authors ==> Path(g, viewer, authors[author], author)
      invariant forall edge :: edge in g.follows && edge !in edges && Path(g, viewer, edge.0, edge.1)
                  ==> edge.1 in authors && authors[edge.1] <= edge.0
      decreases |edges|
    {
      var edge :| edge in edges;
      edges := edges - {edge};
      var (c, author) := edge;
      if Path(g, viewer, c, author) {
        if author !in authors || c < authors[author] {
          authors := authors[author := c];
        }
      }
    }
    forall author | author in authors
      ensures Reached(g, viewer, author)
    {
      assert (authors[author], author) in g.follows;
    }
  }

  predicate AllShown(keys: seq<Key>, g: Graph, posts: map<PostId, Post>, viewer: Did, languages: set<Language>) {
    forall i :: 0 <= i < |keys| ==> keys[i].id in posts && Shown(g, viewer, posts[keys[i].id], languages)
  }

  // An item names the least connection that leads to its author.
  predicate LeastFollower(g: Graph, viewer: Did, author: Did, followedBy: Did) {
    Path(g, viewer, followedBy, author)
    && forall edge :: edge in g.follows && edge.1 == author && Path(g, viewer, edge.0, author) ==> followedBy <= edge.0
  }

  datatype FeedItem = FeedItem(key: Key, followedBy: Did)

  class PostStore {
    var graph: Graph
    var posts: map<PostId, Post>

    constructor (graph: Graph, posts: map<PostId, Post>)
      ensures this.graph == graph && this.posts == posts
    {
      this.graph, this.posts := graph, posts;
    }

    // listExtendedNetworkObserved.
    method List(viewer: Did, languages: set<Language>, after: Option<Key>, limit: nat)
      returns (items: seq<FeedItem>, next: Option<Key>)
      requires limit > 0
      ensures var page := PageOf(Feed(graph, posts, viewer, languages), after, limit);
        && next == page.next && |items| == |page.items|
        && forall i :: 0 <= i < |items| ==> items[i].key == page.items[i]
      ensures forall item <- items ::
                && item.key.id in posts && Shown(graph, viewer, posts[item.key.id], languages)
                && LeastFollower(graph, viewer, posts[item.key.id].author, item.followedBy)
                && LeadsTo(graph, viewer, item.followedBy, posts[item.key.id].author)
                && !KeptApart(graph, viewer, item.followedBy, posts[item.key.id].author)
    {
      var authors := CollapsePaths(graph, viewer);
      var answer := Query(viewer, languages, authors, after, limit + 1);
      var page := BuildPage(answer, limit);
      BuiltPageIsPageOf(answer, page, Feed(graph, posts, viewer, languages), after, limit);
      PageShows(viewer, languages, after, limit);
      items := ItemsOf(viewer, languages, page.items, authors);
      next := page.next;
    }

    // The eligible of these authors, joined with their presentable posts.
    method Query(viewer: Did, languages: set<Language>, authors: map<Did, Did>, after: Option<Key>, n: nat)
      returns (answer: seq<Key>)
      requires forall author :: author in authors <==> Reached(graph, viewer, author)
      ensures IsQuery(answer, Feed(graph, posts, viewer, languages), after, n)
    {
      var eligible := set author | author in authors && Eligible(graph, viewer, author);
      var keys := set id | id in posts && posts[id].author in eligible && Presentable(viewer, posts[id], languages)
                    :: Key(posts[id].ActivityAt(), id);
      assert keys == Feed(graph, posts, viewer, languages);
      answer := SelectHighest(keys, after, n);
    }

    method ItemsOf(viewer: Did, languages: set<Language>, keys: seq<Key>, authors: map<Did, Did>)
      returns (items: seq<FeedItem>)
      requires AllShown(keys, graph, posts, viewer, languages)
      requires forall author :: author in authors <==> Reached(graph, viewer, author)
      requires forall author :: author in authors ==> LeastFollower(graph, viewer, author, authors[author])
      ensures |items| == |keys| && forall i :: 0 <= i < |items| ==> items[i].key == keys[i]
      ensures forall item <- items ::
                && item.key.id in posts && Shown(graph, viewer, posts[item.key.id], languages)
                && LeastFollower(graph, viewer, posts[item.key.id].author, item.followedBy)
    {
      items := [];
      for i := 0 to |keys|
        invariant |items| == i && forall j :: 0 <= j < i ==> items[j].key == keys[j]
        invariant forall item <- items ::
                    && item.key.id in posts && Shown(graph, viewer, posts[item.key.id], languages)
                    && LeastFollower(graph, viewer, posts[item.key.id].author, item.followedBy)
      {
        items := items + [FeedItem(keys[i], authors[posts[keys[i].id].author])];
      }
    }

    lemma PageShows(viewer: Did, languages: set<Language>, after: Option<Key>, limit: nat)
      requires limit > 0
      ensures AllShown(PageOf(Feed(graph, posts, viewer, languages), after, limit).items, graph, posts, viewer,
              languages)
    {
      var items := PageOf(Feed(graph, posts, viewer, languages), after, limit).items;
      forall i | 0 <= i < |items|
        ensures items[i] in Feed(graph, posts, viewer, languages)
      {
        PageIsBelowCursor(Feed(graph, posts, viewer, languages), after, limit, items[i]);
      }
    }
  }

  // Following the cursors lists each shown post once, latest activity first.
  lemma PagesListShownPosts(g: Graph, posts: map<PostId, Post>, viewer: Did, languages: set<Language>, limit: nat)
    requires limit > 0
    ensures Descending(Follow(Feed(g, posts, viewer, languages), None, limit))
    ensures forall id :: id in posts && Shown(g, viewer, posts[id], languages)
              <==>
              && id in posts
              && Key(posts[id].ActivityAt(), id) in Follow(Feed(g, posts, viewer, languages), None, limit)
  {
    WholeListing(Feed(g, posts, viewer, languages), limit);
  }

  // One more path to an author already reached changes nothing in the feed.
  lemma ExtraPathChangesNothing(
    g: Graph, posts: map<PostId, Post>, viewer: Did, languages: set<Language>, c: Did, author: Did)
    requires c != viewer && Reached(g, viewer, author)
    ensures Feed(g.(follows := g.follows + {(c, author)}), posts, viewer, languages)
            == Feed(g, posts, viewer, languages)
  {
    var more := g.(follows := g.follows + {(c, author)});
    forall a
      ensures Reached(more, viewer, a) <==> Reached(g, viewer, a)
      ensures Eligible(more, viewer, a) <==> Eligible(g, viewer, a)
    {
      SamePathsElsewhere(g, viewer, c, author, a);
    }
  }

  lemma SamePathsElsewhere(g: Graph, viewer: Did, c: Did, author: Did, a: Did)
    requires c != viewer && Reached(g, viewer, author)
    ensures var more := g.(follows := g.follows + {(c, author)});
      && (Reached(more, viewer, a) <==> Reached(g, viewer, a))
      && (Eligible(more, viewer, a) <==> Eligible(g, viewer, a))
  {
    var more := g.(follows := g.follows + {(c, author)});
    if Reached(more, viewer, a) {
      var edge :| edge in more.follows && edge.1 == a && Path(more, viewer, edge.0, a);
      if edge in g.follows {
        assert Path(g, viewer, edge.0, a);
      } else {
        assert a == author;
      }
    }
    if Reached(g, viewer, a) {
      var edge :| edge in g.follows && edge.1 == a && Path(g, viewer, edge.0, a);
      assert edge in more.follows && Path(more, viewer, edge.0, a);
    }
  }
}
