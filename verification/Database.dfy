/** The requests and labeling tasks as they update the tables in place, each proved against its step on whole tables. */
module Database {
  import opened Options
  import opened Keyset
  import opened SocialModel
  import opened Requests
  import opened Tasks

  /** A database session: the tables that requests and tasks read and write. */
  class Session {
    var users: map<UserId, UserRow>
    var posts: map<PostId, Post>
    var follows: set<(UserId, UserId)>
    var blocks: set<(UserId, UserId)>
    var feed: map<(UserId, PostId), FeedRow>
    var engagement: map<PostId, Engagement>
    var likes: set<(UserId, PostId)>
    var notices: multiset<Notice>
    var labels: map<(PostId, Label), string>
    var embeddings: map<PostId, Vector>

    function Snapshot(): Tables
      reads this
    {
      Tables(users, posts, follows, blocks, feed, engagement, likes, notices, labels, embeddings)
    }

    constructor ()
      ensures Snapshot() == EMPTY
    {
      users, posts, feed, engagement, labels, embeddings := map[], map[], map[], map[], map[], map[];
      follows, blocks, likes, notices := {}, {}, {}, multiset{};
    }
  }

  /** The outcome is that of the step: its tables on success, its error code and untouched tables otherwise. */
  ghost predicate Commits(step: Result<Tables>, before: Tables, after: Tables, r: Result<()>) {
    match step
    case Success(next) => r == Success(()) && after == next
    case Failure(code) => r == Failure(code) && after == before
  }

  // ----- Feed cache maintenance

  /** The feed once the rows of `keys` are present. */
  function Filled(t: Tables, keys: set<(UserId, PostId)>): map<(UserId, PostId), FeedRow>
    requires forall k :: k in keys ==> k.1 in t.posts
  {
    WithRows(t, keys).feed
  }

  /** One more row is inserted unless it is present. */
  lemma FilledNext(t: Tables, keys: set<(UserId, PostId)>, k: (UserId, PostId))
    requires k.1 in t.posts && forall x :: x in keys ==> x.1 in t.posts
    ensures Filled(t, keys + {k}) == WithRow(Filled(t, keys), k, t.posts[k.1])
  {
  }

  function WithRow(feed: map<(UserId, PostId), FeedRow>, k: (UserId, PostId), post: Post): map<(UserId, PostId), FeedRow> {
    if k in feed then feed else feed[k := RowOf(post)]
  }

  /** Adds one row unless it is present. */
  method InsertRow(db: Session, k: (UserId, PostId)) returns (added: bool)
    requires k.1 in db.posts
    modifies db`feed
    ensures db.feed == WithRow(old(db.feed), k, db.posts[k.1]) && (added <==> k !in old(db.feed))
  {
    if k in db.feed {
      return false;
    }
    db.feed := db.feed[k := RowOf(db.posts[k.1])];
    return true;
  }

  /** The feed keys of one owner for a query result. */
  function RowKeys(owner: UserId, rows: seq<Key>): set<(UserId, PostId)> {
    set k | k in rows :: (owner, k.id)
  }

  lemma RowKeysSnoc(owner: UserId, rows: seq<Key>, i: nat)
    requires i < |rows|
    ensures RowKeys(owner, rows[..i + 1]) == RowKeys(owner, rows[..i]) + {(owner, rows[i].id)}
  {
    assert rows[..i + 1] == rows[..i] + [rows[i]];
  }

  /** How many of the keys have no row. */
  ghost function Lacking(t: Tables, keys: set<(UserId, PostId)>): nat {
    |keys - t.feed.Keys|
  }

  /** Copies the followee's newest posts into the follower's feed and returns how many of them had no row. */
  method BackfillFolloweePosts(db: Session, follower: UserId, followee: UserId, limit: nat) returns (added: nat)
    modifies db`feed
    ensures added == Lacking(old(db.Snapshot()), BackfillRows(old(db.Snapshot()), follower, followee, limit))
    ensures db.feed == WithRows(old(db.Snapshot()), BackfillRows(old(db.Snapshot()), follower, followee, limit)).feed
  {
    ghost var t := db.Snapshot();
    var rows := Take(Ordered(LiveKeys(db.Snapshot(), followee)), limit);
    QueryIds(t, follower, followee, limit);
    added := InsertRows(db, follower, rows, t);
    FeedInserted(t, follower, rows, |rows|);
    RowsInserted(t, follower, rows, |rows|);
    assert rows[..|rows|] == rows;
  }

  lemma QueryIds(t: Tables, follower: UserId, followee: UserId, limit: nat)
    ensures var rows := Take(Ordered(LiveKeys(t, followee)), limit);
      && (forall k :: k in rows ==> k.id in t.posts)
      && RowKeys(follower, rows) == BackfillRows(t, follower, followee, limit)
  {
    var rows := Take(Ordered(LiveKeys(t, followee)), limit);
    assert forall k :: k in rows ==> k.id in Backfilled(t, followee, limit);
  }

  /** Every row of the query result is stored. */
  predicate Stored(t: Tables, rows: seq<Key>) {
    forall k :: k in rows ==> k.id in t.posts
  }

  lemma KeysStored(t: Tables, owner: UserId, rows: seq<Key>, i: nat)
    requires Stored(t, rows) && i <= |rows|
    ensures forall x :: x in RowKeys(owner, rows[..i]) ==> x.1 in t.posts
  {
  }

  /** One more result is one more row. */
  lemma FilledSnoc(t: Tables, owner: UserId, rows: seq<Key>, i: nat)
    requires Stored(t, rows) && i < |rows| && rows[i].id in t.posts
    requires forall x :: x in RowKeys(owner, rows[..i]) ==> x.1 in t.posts
    requires forall x :: x in RowKeys(owner, rows[..i + 1]) ==> x.1 in t.posts
    ensures Filled(t, RowKeys(owner, rows[..i + 1]))
         == WithRow(Filled(t, RowKeys(owner, rows[..i])), (owner, rows[i].id), t.posts[rows[i].id])
  {
    RowKeysSnoc(owner, rows, i);
    FilledNext(t, RowKeys(owner, rows[..i]), (owner, rows[i].id));
  }

  lemma NewRowsSnoc(owner: UserId, rows: seq<Key>, i: nat, present: set<(UserId, PostId)>)
    requires i < |rows|
    ensures var k := (owner, rows[i].id);
      |RowKeys(owner, rows[..i + 1]) - present| ==
      |RowKeys(owner, rows[..i]) - present| + if k !in present && k !in RowKeys(owner, rows[..i]) then 1 else 0
  {
    var before, k := RowKeys(owner, rows[..i]) - present, (owner, rows[i].id);
    RowKeysSnoc(owner, rows, i);
    if k !in present && k !in RowKeys(owner, rows[..i]) {
      assert RowKeys(owner, rows[..i + 1]) - present == before + {k};
    } else {
      assert RowKeys(owner, rows[..i + 1]) - present == before;
    }
  }

  lemma FilledKeys(t: Tables, keys: set<(UserId, PostId)>, k: (UserId, PostId))
    requires forall x :: x in keys ==> x.1 in t.posts
    ensures k in Filled(t, keys) <==> k in keys || k in t.feed
  {
  }

  /** The feed after the first `i` results, and how many of them had no row. */
  ghost function FeedAfter(t: Tables, owner: UserId, rows: seq<Key>, i: nat): map<(UserId, PostId), FeedRow>
    requires Stored(t, rows) && i <= |rows|
  {
    if i == 0 then t.feed
    else
      assert rows[i - 1] in rows;
      WithRow(FeedAfter(t, owner, rows, i - 1), (owner, rows[i - 1].id), t.posts[rows[i - 1].id])
  }

  ghost function NewRows(t: Tables, owner: UserId, rows: seq<Key>, i: nat): nat
    requires Stored(t, rows) && i <= |rows|
  {
    if i == 0 then 0
    else
      NewRows(t, owner, rows, i - 1) + if (owner, rows[i - 1].id) !in FeedAfter(t, owner, rows, i - 1) then 1 else 0
  }

  /** The feed with a row for each of the first `i` results. */
  ghost function FilledRows(t: Tables, owner: UserId, rows: seq<Key>, i: nat): map<(UserId, PostId), FeedRow>
    requires Stored(t, rows) && i <= |rows|
  {
    KeysStored(t, owner, rows, i);
    Filled(t, RowKeys(owner, rows[..i]))
  }

  lemma FilledRowsNext(t: Tables, owner: UserId, rows: seq<Key>, i: nat)
    requires Stored(t, rows) && i < |rows|
    ensures rows[i].id in t.posts && FilledRows(t, owner, rows, i + 1)
         == WithRow(FilledRows(t, owner, rows, i), (owner, rows[i].id), t.posts[rows[i].id])
  {
    assert rows[i] in rows;
    KeysStored(t, owner, rows, i);
    KeysStored(t, owner, rows, i + 1);
    FilledSnoc(t, owner, rows, i);
  }

  lemma NoRowsFilled(t: Tables, owner: UserId, rows: seq<Key>)
    requires Stored(t, rows)
    ensures FilledRows(t, owner, rows, 0) == t.feed
  {
    assert RowKeys(owner, rows[..0]) == {};
  }

  /** They are the filled feed and the number of result keys without a row. */
  lemma {:induction false} FeedInserted(t: Tables, owner: UserId, rows: seq<Key>, i: nat)
    requires Stored(t, rows) && i <= |rows|
    ensures FeedAfter(t, owner, rows, i) == FilledRows(t, owner, rows, i)
  {
    if i == 0 {
      NoRowsFilled(t, owner, rows);
    } else {
      FeedInserted(t, owner, rows, i - 1);
      FilledRowsNext(t, owner, rows, i - 1);
    }
  }

  lemma {:induction false} RowsInserted(t: Tables, owner: UserId, rows: seq<Key>, i: nat)
    requires Stored(t, rows) && i <= |rows|
    ensures NewRows(t, owner, rows, i) == Lacking(t, RowKeys(owner, rows[..i]))
  {
    if i == 0 {
      assert RowKeys(owner, rows[..0]) == {};
    } else {
      RowsInserted(t, owner, rows, i - 1);
      NewRowsSnoc(owner, rows, i - 1, t.feed.Keys);
      NoRowYet(t, owner, rows, i - 1);
    }
  }

  lemma NoRowYet(t: Tables, owner: UserId, rows: seq<Key>, i: nat)
    requires Stored(t, rows) && i < |rows|
    ensures var k := (owner, rows[i].id);
      k in FeedAfter(t, owner, rows, i) <==> k in t.feed || k in RowKeys(owner, rows[..i])
  {
    FeedInserted(t, owner, rows, i);
    KeysStored(t, owner, rows, i);
    FilledKeys(t, RowKeys(owner, rows[..i]), (owner, rows[i].id));
  }

  /** The loop of the backfill. */
  method InsertRows(db: Session, owner: UserId, rows: seq<Key>, ghost t: Tables) returns (added: nat)
    requires t.posts == db.posts && t.feed == db.feed && Stored(t, rows)
    modifies db`feed
    ensures db.feed == FeedAfter(t, owner, rows, |rows|) && added == NewRows(t, owner, rows, |rows|)
  {
    added := 0;
    for i := 0 to |rows|
      invariant db.feed == FeedAfter(t, owner, rows, i) && added == NewRows(t, owner, rows, i)
    {
      assert rows[i] in rows;
      var isNew := InsertRow(db, (owner, rows[i].id));
      added := added + if isNew then 1 else 0;
    }
  }

  method RemoveFolloweeFromFeed(db: Session, follower: UserId, followee: UserId)
    modifies db`feed
    ensures db.feed == WithoutAuthor(old(db.feed), follower, followee)
  {
    ghost var before := db.feed;
    var entries := set k | k in db.feed && k.0 == follower && db.feed[k].author == followee;
    while entries != {}
      invariant entries <= db.feed.Keys
      invariant forall k :: k in entries ==> k.0 == follower && before[k].author == followee
      invariant forall k :: k in db.feed ==> k in before && db.feed[k] == before[k]
      invariant forall k :: k in before && k !in db.feed ==> k.0 == follower && before[k].author == followee
      invariant forall k :: k in db.feed && k.0 == follower && before[k].author == followee ==> k in entries
      decreases entries
    {
      var k :| k in entries;
      db.feed := db.feed - {k};
      entries := entries - {k};
    }
  }

  /** The store a successful follow leaves, by its parts. */
  lemma FollowCommits(t: Tables, me: UserId, other: UserId, after: Tables)
    requires FollowRefusal(t, me, other).None?
    requires after.feed == WithRows(t, BackfillRows(t, me, other, BACKFILL_LIMIT)).feed
    requires after.follows == t.follows + {(me, other)} && after.notices == t.notices + multiset{Followed(other, me)}
    requires after == t.(feed := after.feed, follows := after.follows, notices := after.notices)
    ensures Requests.FollowUser(t, me, other) == Success(after)
  {
  }

  /** The backfill, the edge and the notification, once nothing speaks against them. */
  method StoreFollow(db: Session, me: UserId, other: UserId)
    requires FollowRefusal(db.Snapshot(), me, other).None?
    modifies db`follows, db`feed, db`notices
    ensures Requests.FollowUser(old(db.Snapshot()), me, other) == Success(db.Snapshot())
  {
    ghost var t := db.Snapshot();
    var added := BackfillFolloweePosts(db, me, other, BACKFILL_LIMIT);
    db.follows := db.follows + {(me, other)};
    db.notices := db.notices + multiset{Followed(other, me)};
    FollowCommits(t, me, other, db.Snapshot());
  }

  method FollowUser(db: Session, me: UserId, other: UserId) returns (r: Result<()>)
    modifies db
    ensures Commits(Requests.FollowUser(old(db.Snapshot()), me, other), old(db.Snapshot()), db.Snapshot(), r)
  {
    var refusal := FollowRefusal(db.Snapshot(), me, other);
    if refusal.Some? {
      return Failure(refusal.value);
    }
    StoreFollow(db, me, other);
    return Success(());
  }

  method UnfollowUser(db: Session, me: UserId, other: UserId) returns (r: Result<()>)
    modifies db
    ensures Commits(Requests.UnfollowUser(old(db.Snapshot()), me, other), old(db.Snapshot()), db.Snapshot(), r)
  {
    if (me, other) !in db.follows { return Failure(404); }
    db.follows := db.follows - {(me, other)};
    RemoveFolloweeFromFeed(db, me, other);
    return Success(());
  }

  method BlockUser(db: Session, me: UserId, other: UserId) returns (r: Result<()>)
    modifies db
    ensures Commits(Requests.BlockUser(old(db.Snapshot()), me, other), old(db.Snapshot()), db.Snapshot(), r)
  {
    if me !in db.users { return Failure(401); }
    if other == me { return Failure(400); }
    if other !in db.users { return Failure(404); }
    if (me, other) in db.blocks { return Failure(409); }
    ghost var t := db.Snapshot();
    var edges := {(me, other), (other, me)} * db.follows;
    CutEdges(db, edges);
    BothCut(t, me, other, edges);
    db.blocks := db.blocks + {(me, other)};
    return Success(());
  }

  /** The loop of the block request: each edge and the rows it brought are deleted, in any order. */
  method CutEdges(db: Session, edges: set<(UserId, UserId)>)
    modifies db`follows, db`feed
    ensures db.follows == old(db.follows) - edges && db.feed == WithoutEdges(old(db.feed), edges)
  {
    ghost var feed := db.feed;
    var rest := edges;
    ghost var cut: set<(UserId, UserId)> := {};
    while rest != {}
      invariant rest + cut == edges
      invariant db.follows == old(db.follows) - cut && db.feed == WithoutEdges(feed, cut)
      decreases rest
    {
      var edge :| edge in rest;
      RemoveFolloweeFromFeed(db, edge.0, edge.1);
      EdgeRows(WithoutEdges(feed, cut), edge);
      CutsAdd(feed, cut, {edge});
      db.follows := db.follows - {edge};
      rest, cut := rest - {edge}, cut + {edge};
    }
    assert cut == edges;
  }

  lemma EdgeRows(feed: map<(UserId, PostId), FeedRow>, edge: (UserId, UserId))
    ensures WithoutAuthor(feed, edge.0, edge.1) == WithoutEdges(feed, {edge})
  {
  }

  /** The rows that remain when several edges are cut, in any order. */
  function WithoutEdges(feed: map<(UserId, PostId), FeedRow>, cut: set<(UserId, UserId)>): map<(UserId, PostId), FeedRow> {
    map k | k in feed && (k.0, feed[k].author) !in cut :: feed[k]
  }

  lemma CutOne(t: Tables, a: UserId, b: UserId)
    ensures var cut := {(a, b)} * t.follows;
      CutEdge(t, a, b) == t.(follows := t.follows - cut, feed := WithoutEdges(t.feed, cut))
  {
    var cut := {(a, b)} * t.follows;
    if (a, b) in t.follows {
      assert cut == {(a, b)};
      EdgeRows(t.feed, (a, b));
    } else {
      assert cut == {};
      assert WithoutEdges(t.feed, cut) == t.feed;
    }
  }

  lemma CutsAdd(feed: map<(UserId, PostId), FeedRow>, a: set<(UserId, UserId)>, b: set<(UserId, UserId)>)
    ensures WithoutEdges(WithoutEdges(feed, a), b) == WithoutEdges(feed, a + b)
  {
  }

  lemma BothCut(t: Tables, me: UserId, other: UserId, cut: set<(UserId, UserId)>)
    requires me != other && cut == {(me, other), (other, me)} * t.follows
    ensures CutEdge(CutEdge(t, me, other), other, me) == t.(follows := t.follows - cut, feed := WithoutEdges(t.feed, cut))
  {
    var once := CutEdge(t, me, other);
    var first := {(me, other)} * t.follows;
    CutOne(t, me, other);
    CutOne(once, other, me);
    var second := {(other, me)} * once.follows;
    assert second == {(other, me)} * t.follows && cut == first + second;
    assert once.follows - second == t.follows - cut;
    CutsAdd(t.feed, first, second);
  }

  method UnblockUser(db: Session, me: UserId, other: UserId) returns (r: Result<()>)
    modifies db
    ensures Commits(Requests.UnblockUser(old(db.Snapshot()), me, other), old(db.Snapshot()), db.Snapshot(), r)
  {
    if (me, other) !in db.blocks { return Failure(404); }
    db.blocks := db.blocks - {(me, other)};
    return Success(());
  }

  // ----- Posts

  method CreatePost(db: Session, me: UserId, id: PostId, now: int, req: PostRequest) returns (r: Result<()>)
    modifies db
    ensures Commits(Requests.CreatePost(old(db.Snapshot()), me, id, now, req), old(db.Snapshot()), db.Snapshot(), r)
  {
    var row := NewPost(db.Snapshot(), me, id, now, req);
    if row.Failure? {
      return Failure(row.code);
    }
    db.posts := db.posts[id := row.value];
    return Success(());
  }

  method DeletePost(db: Session, me: UserId, p: PostId) returns (r: Result<()>)
    modifies db
    ensures Commits(Requests.DeletePost(old(db.Snapshot()), me, p), old(db.Snapshot()), db.Snapshot(), r)
  {
    if p !in db.posts || db.posts[p].deleted { return Failure(404); }
    if db.posts[p].author != me { return Failure(403); }
    var post := db.posts[p];
    db.posts := db.posts[p := post.(deleted := true)];
    if post.repostOf.Some? && post.repostOf.value in db.engagement {
      var e := db.engagement[post.repostOf.value];
      if e.reposts > 0 {
        db.engagement := db.engagement[post.repostOf.value := e.(reposts := e.reposts - 1)];
      }
    }
    return Success(());
  }

  method HidePost(db: Session, p: PostId) returns (r: Result<()>)
    modifies db
    ensures Commits(Requests.HidePost(old(db.Snapshot()), p), old(db.Snapshot()), db.Snapshot(), r)
  {
    if p !in db.posts { return Failure(404); }
    db.posts := db.posts[p := db.posts[p].(deleted := true)];
    return Success(());
  }

  // ----- Likes

  method LikePost(db: Session, me: UserId, p: PostId) returns (r: Result<()>)
    modifies db
    ensures Commits(Requests.LikePost(old(db.Snapshot()), me, p), old(db.Snapshot()), db.Snapshot(), r)
  {
    if me !in db.users { return Failure(401); }
    var found := LoadReference(db.Snapshot(), p);
    if found.Failure? { return Failure(found.code); }
    var target := found.value;
    if db.posts[target].author == me { return Failure(400); }
    if (me, target) in db.likes { return Failure(409); }
    db.likes := db.likes + {(me, target)};
    if target in db.engagement {
      var e := db.engagement[target];
      db.engagement := db.engagement[target := e.(likes := e.likes + 1)];
    } else {
      db.engagement := db.engagement[target := Engagement(1, 0, 0)];
    }
    db.notices := db.notices + multiset{PostLiked(db.posts[target].author, target, me)};
    return Success(());
  }

  method UnlikePost(db: Session, me: UserId, p: PostId) returns (r: Result<()>)
    modifies db
    ensures Commits(Requests.UnlikePost(old(db.Snapshot()), me, p), old(db.Snapshot()), db.Snapshot(), r)
  {
    var target := p;
    if (me, p) !in db.likes {
      if p !in db.posts || db.posts[p].repostOf.None? || (me, db.posts[p].repostOf.value) !in db.likes {
        return Failure(404);
      }
      target := db.posts[p].repostOf.value;
    }
    db.likes := db.likes - {(me, target)};
    if target in db.engagement && db.engagement[target].likes > 0 {
      var e := db.engagement[target];
      db.engagement := db.engagement[target := e.(likes := e.likes - 1)];
    }
    return Success(());
  }

  // ----- Labeling tasks

  method PublishPost(db: Session, p: PostId) returns (r: Result<()>)
    modifies db
    ensures Commits(Tasks.PublishPost(old(db.Snapshot()), p), old(db.Snapshot()), db.Snapshot(), r)
  {
    if p !in db.posts { return Failure(RAISED); }
    db.posts := db.posts[p := db.posts[p].(status := Published)];
    return Success(());
  }

  method MarkFailed(db: Session, p: PostId)
    modifies db
    ensures db.Snapshot() == Tasks.MarkFailed(old(db.Snapshot()), p)
  {
    if p in db.posts && db.posts[p].status == Processing {
      db.posts := db.posts[p := db.posts[p].(status := Failed)];
    }
  }

  /** `upsert_label`: an existing row gets the new reason, otherwise a row is added. */
  method UpsertLabel(db: Session, p: PostId, kind: Label, reason: string)
    modifies db`labels
    ensures db.labels == old(db.labels)[(p, kind) := reason]
  {
    db.labels := db.labels[(p, kind) := reason];
  }

  method WriteLabel(db: Session, p: PostId, kind: Label, reason: string) returns (r: Result<()>)
    modifies db
    ensures Commits(Requests.WritePostLabel(old(db.Snapshot()), p, kind, reason), old(db.Snapshot()), db.Snapshot(), r)
  {
    if |reason| > 2000 || (kind.Other? && !(1 <= |kind.name| <= 64)) { return Failure(422); }
    UpsertLabel(db, p, kind, reason);
    return Success(());
  }

  method ApplySafetyLabels(db: Session, p: PostId) returns (r: Result<()>)
    modifies db
    ensures Commits(Tasks.ApplySafetyLabels(old(db.Snapshot()), p), old(db.Snapshot()), db.Snapshot(), r)
  {
    if p !in db.posts || Blank(db.posts[p].body) { return Success(()); }
    var hit := DetectNsfw(db.posts[p].body);
    if hit.Some? {
      UpsertLabel(db, p, Nsfw, hit.value);
      UpsertLabel(db, p, DoNotAmplify, "nsfw:" + hit.value);
    }
    return Success(());
  }

  method FanOutPost(db: Session, p: PostId) returns (r: Result<()>)
    modifies db
    ensures Commits(Tasks.FanOutPost(old(db.Snapshot()), p), old(db.Snapshot()), db.Snapshot(), r)
  {
    if p !in db.posts || db.posts[p].status != Published { return Failure(RAISED); }
    if db.posts[p].deleted { return Success(()); }
    ghost var t := db.Snapshot();
    var recipients := Recipients(db.Snapshot(), db.posts[p].author);
    InsertForAll(db, recipients, p, t);
    assert PostKeys(recipients, p) == set u | u in recipients :: (u, p);
    return Success(());
  }

  /** The feed keys of one post for a set of owners. */
  function PostKeys(owners: set<UserId>, p: PostId): (keys: set<(UserId, PostId)>)
    ensures forall k :: k in keys <==> k.0 in owners && k.1 == p
  {
    set u | u in owners :: (u, p)
  }

  lemma PostKeysNext(owners: set<UserId>, u: UserId, p: PostId)
    ensures PostKeys(owners + {u}, p) == PostKeys(owners, p) + {(u, p)}
  {
    forall k
      ensures k in PostKeys(owners + {u}, p) <==> k in PostKeys(owners, p) + {(u, p)}
    {
    }
  }

  /** The recipient loop of the fan-out, in whatever order the set is walked. */
  method InsertForAll(db: Session, recipients: set<UserId>, p: PostId, ghost t: Tables)
    requires p in db.posts && t.posts == db.posts && t.feed == db.feed
    modifies db`feed
    ensures db.feed == Filled(t, PostKeys(recipients, p))
  {
    var rest := recipients;
    ghost var done: set<UserId> := {};
    while rest != {}
      invariant done + rest == recipients
      invariant db.feed == Filled(t, PostKeys(done, p))
      decreases rest
    {
      var u :| u in rest;
      FilledNext(t, PostKeys(done, p), (u, p));
      PostKeysNext(done, u, p);
      var isNew := InsertRow(db, (u, p));
      rest, done := rest - {u}, done + {u};
    }
    assert done == recipients;
  }

  method GenerateEmbedding(db: Session, p: PostId) returns (r: Result<()>)
    modifies db
    ensures Commits(Tasks.GenerateEmbedding(old(db.Snapshot()), p), old(db.Snapshot()), db.Snapshot(), r)
  {
    if p !in db.posts || db.posts[p].status != Published { return Failure(RAISED); }
    db.embeddings := db.embeddings[p := EmbedText(db.posts[p].body)];
    return Success(());
  }

  method IncrementReplyCount(db: Session, p: PostId) returns (r: Result<()>)
    modifies db
    ensures Commits(Tasks.IncrementReplyCount(old(db.Snapshot()), p), old(db.Snapshot()), db.Snapshot(), r)
  {
    if p !in db.posts || db.posts[p].parent.None? || !db.posts[p].Live() { return Success(()); }
    var parent := db.posts[p].parent.value;
    var count := |Replies(db.Snapshot(), parent)|;
    if parent in db.engagement {
      db.engagement := db.engagement[parent := db.engagement[parent].(replies := count)];
    } else {
      db.engagement := db.engagement[parent := Engagement(0, count, 0)];
    }
    return Success(());
  }

  method IncrementRepostCount(db: Session, p: PostId) returns (r: Result<()>)
    modifies db
    ensures Commits(Tasks.IncrementRepostCount(old(db.Snapshot()), p), old(db.Snapshot()), db.Snapshot(), r)
  {
    if p !in db.posts || db.posts[p].repostOf.None? || !db.posts[p].Live() { return Success(()); }
    var original := db.posts[p].repostOf.value;
    var count := |Reposts(db.Snapshot(), original)|;
    if original in db.engagement {
      db.engagement := db.engagement[original := db.engagement[original].(reposts := count)];
    } else {
      db.engagement := db.engagement[original := Engagement(0, 0, count)];
    }
    return Success(());
  }

  /** The notification tells `user` about the reply, or about the repost, `source`. */
  predicate Announces(n: Notice, reply: bool, user: UserId, source: PostId) {
    if reply then n.PostReplied? && n.user == user && n.source == source
    else n.PostReposted? && n.user == user && n.source == source
  }

  /** Scans the stored notifications for one about this reply or repost. */
  method FindNotice(rows: multiset<Notice>, reply: bool, user: UserId, source: PostId) returns (found: bool)
    ensures found <==> exists n :: n in rows && Announces(n, reply, user, source)
  {
    var rest := rows;
    while rest != multiset{}
      invariant rest <= rows
      invariant forall n :: n in rows && Announces(n, reply, user, source) ==> n in rest
      decreases |rest|
    {
      var n :| n in rest;
      if Announces(n, reply, user, source) {
        return true;
      }
      rest := rest[n := 0];
    }
    return false;
  }

  method NotifyReplied(db: Session, p: PostId) returns (r: Result<()>)
    modifies db
    ensures Commits(Tasks.NotifyReplied(old(db.Snapshot()), p), old(db.Snapshot()), db.Snapshot(), r)
  {
    if p !in db.posts || db.posts[p].parent.None? || !db.posts[p].Live() { return Success(()); }
    var post, parent := db.posts[p], db.posts[p].parent.value;
    if parent !in db.posts || db.posts[parent].author == post.author { return Success(()); }
    var found := FindNotice(db.notices, true, db.posts[parent].author, p);
    if !found {
      db.notices := db.notices + multiset{PostReplied(db.posts[parent].author, parent, p, post.author)};
    }
    return Success(());
  }

  method NotifyReposted(db: Session, p: PostId) returns (r: Result<()>)
    modifies db
    ensures Commits(Tasks.NotifyReposted(old(db.Snapshot()), p), old(db.Snapshot()), db.Snapshot(), r)
  {
    if p !in db.posts || db.posts[p].repostOf.None? || !db.posts[p].Live() { return Success(()); }
    var post, original := db.posts[p], db.posts[p].repostOf.value;
    if original !in db.posts || db.posts[original].author == post.author { return Success(()); }
    var found := FindNotice(db.notices, false, db.posts[original].author, p);
    if !found {
      db.notices := db.notices + multiset{PostReposted(db.posts[original].author, original, p, post.author)};
    }
    return Success(());
  }

  method InitEngagement(db: Session, p: PostId) returns (r: Result<()>)
    modifies db
    ensures Commits(Tasks.InitEngagement(old(db.Snapshot()), p), old(db.Snapshot()), db.Snapshot(), r)
  {
    if p !in db.posts || db.posts[p].status != Published { return Failure(RAISED); }
    if p in db.engagement {
      assert db.engagement[p := db.engagement[p]] == db.engagement;
      return Success(());
    }
    db.engagement := db.engagement[p := Engagement(0, 0, 0)];
    return Success(());
  }

  method ValidatePost(db: Session, p: PostId) returns (r: Result<()>)
    ensures Commits(Tasks.ValidatePost(db.Snapshot(), p), db.Snapshot(), db.Snapshot(), r)
  {
    if p !in db.posts { return Failure(RAISED); }
    var post := db.posts[p];
    if Blank(post.body) && post.repostOf.None? { return Failure(RAISED); }
    if post.parent.Some? && !db.Snapshot().IsLive(post.parent.value) { return Failure(RAISED); }
    var target := if post.quoteOf.Some? then post.quoteOf else post.repostOf;
    if target.Some? && !db.Snapshot().IsLive(target.value) { return Failure(RAISED); }
    return Success(());
  }

  /** A task of a plan, run on the stored rows: what the dispatcher's plans execute. */
  method ExecTask(db: Session, task: Task, p: PostId) returns (r: Result<()>)
    modifies db
    ensures Commits(Exec(old(db.Snapshot()), task, p), old(db.Snapshot()), db.Snapshot(), r)
  {
    match task
    case Validate => r := ValidatePost(db, p);
    case Publish => r := PublishPost(db, p);
    case ApplyLabels => r := ApplySafetyLabels(db, p);
    case Embed => r := GenerateEmbedding(db, p);
    case FanOut => r := FanOutPost(db, p);
    case ReplyCount => r := IncrementReplyCount(db, p);
    case NotifyReply => r := NotifyReplied(db, p);
    case RepostCount => r := IncrementRepostCount(db, p);
    case NotifyRepost => r := NotifyReposted(db, p);
    case EngagementInit => r := InitEngagement(db, p);
  }

  // ----- Erasure

  /** The bulk update of the erasure: only posts that are not deleted yet are written. */
  method ErasePosts(db: Session, me: UserId)
    modifies db`posts
    ensures db.posts == Requests.ErasePosts(old(db.Snapshot()), me).posts
  {
    ghost var before := db.posts;
    var rest := set p | p in db.posts && db.posts[p].author == me && !db.posts[p].deleted;
    while rest != {}
      invariant rest <= db.posts.Keys && db.posts.Keys == before.Keys
      invariant forall p :: p in rest ==> before[p].author == me
      invariant forall p :: p in before ==> db.posts[p] == if p in rest then before[p] else Erased(before[p], me)
      decreases rest
    {
      var p :| p in rest;
      db.posts := db.posts[p := db.posts[p].(deleted := true)];
      rest := rest - {p};
    }
  }

  function Erased(post: Post, me: UserId): Post {
    if post.author == me then post.(deleted := true) else post
  }
}
