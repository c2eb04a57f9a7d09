/** The push cache `user_feed` against the pull query over posts and follows. */
module FeedCache {
  import opened Options
  import opened Keyset
  import opened SocialModel
  import opened Requests
  import opened Tasks
  import opened SocialRuns

  // ----- What every reachable store says about feed rows, follows and blocks

  ghost predicate GoodRow(t: Tables, k: (UserId, PostId))
    requires k in t.feed
  {
    && k.1 in t.posts
    && t.posts[k.1].status == Published
    && t.feed[k] == RowOf(t.posts[k.1])
    && (k.0 == t.posts[k.1].author || Follows(t, k.0, t.posts[k.1].author))
  }

  ghost predicate RowsOk(t: Tables) {
    forall k :: k in t.feed ==> GoodRow(t, k)
  }

  ghost predicate EdgesOk(t: Tables) {
    && (forall a, b :: (a, b) in t.follows ==> a != b)
    && (forall a, b :: (a, b) in t.blocks ==> a != b && !Follows(t, a, b) && !Follows(t, b, a))
  }

  ghost predicate CacheOk(t: Tables) {
    RowsOk(t) && EdgesOk(t)
  }

  /** The events that write `user_feed` or `follows`. */
  predicate WritesFeed(e: Event) {
    e.Follow? || e.Unfollow? || e.Block? || (e.RunTask? && e.task == FanOut)
  }

  lemma FeedKept(t: Tables, e: Event)
    requires !WritesFeed(e)
    ensures Step(t, e).feed == t.feed && Step(t, e).follows == t.follows
    ensures Step(t, e).blocks <= t.blocks
  {
    if Attempt(t, e).Success? {
      match e
      case RunTask(task, p) => TaskKeepsFeed(t, task, p);
      case Create(me, id, now, req) => CreateTouches(t, me, id, now, req);
      case Delete(me, p) => DeleteTouches(t, me, p);
      case Like(me, p) => LikeTouches(t, me, p);
      case Unlike(me, p) => UnlikeTouches(t, me, p);
      case _ =>
    }
  }

  lemma TaskKeepsFeed(t: Tables, task: Task, p: PostId)
    requires task != FanOut
    ensures var r := Exec(t, task, p);
      r.Success? ==> r.value.feed == t.feed && r.value.follows == t.follows && r.value.blocks == t.blocks
  {
    match task
    case Validate =>
    case Publish =>
    case ApplyLabels =>
    case Embed =>
    case ReplyCount =>
    case NotifyReply =>
    case RepostCount =>
    case NotifyRepost =>
    case EngagementInit =>
    case FanOut =>
  }

  lemma CacheKeptByOthers(t: Tables, e: Event)
    requires CacheOk(t) && !WritesFeed(e)
    ensures CacheOk(Step(t, e))
  {
    FeedKept(t, e);
    StepEvolves(t, e);
    forall k | k in Step(t, e).feed
      ensures GoodRow(Step(t, e), k)
    {
      assert GoodRow(t, k);
    }
  }

  lemma CacheKeptByFollow(t: Tables, me: UserId, other: UserId)
    requires CacheOk(t) && FollowUser(t, me, other).Success?
    ensures CacheOk(FollowUser(t, me, other).value)
  {
    var next := FollowUser(t, me, other).value;
    forall k | k in next.feed
      ensures GoodRow(next, k)
    {
      assert k in t.feed ==> GoodRow(t, k);
    }
  }

  lemma CacheKeptByCut(t: Tables, a: UserId, b: UserId)
    requires CacheOk(t)
    ensures CacheOk(CutEdge(t, a, b))
  {
    var next := CutEdge(t, a, b);
    forall k | k in next.feed
      ensures GoodRow(next, k)
    {
      assert GoodRow(t, k);
    }
  }

  lemma CacheKeptByBlock(t: Tables, me: UserId, other: UserId)
    requires CacheOk(t) && BlockUser(t, me, other).Success?
    ensures CacheOk(BlockUser(t, me, other).value)
  {
    var once := CutEdge(t, me, other);
    var cut := CutEdge(once, other, me);
    CacheKeptByCut(t, me, other);
    CacheKeptByCut(once, other, me);
    var next := BlockUser(t, me, other).value;
    forall k | k in next.feed
      ensures GoodRow(next, k)
    {
      assert GoodRow(cut, k);
    }
  }

  lemma FannedRow(t: Tables, p: PostId, k: (UserId, PostId))
    requires FanOutPost(t, p).Success? && k in FanOutPost(t, p).value.feed && k !in t.feed
    ensures p in t.posts && t.posts[p].status == Published
    ensures k.1 == p && FanOutPost(t, p).value.feed[k] == RowOf(t.posts[p])
    ensures k.0 == t.posts[p].author || Follows(t, k.0, t.posts[p].author)
  {
  }

  lemma CacheKeptByFanOut(t: Tables, p: PostId)
    requires CacheOk(t) && FanOutPost(t, p).Success?
    ensures CacheOk(FanOutPost(t, p).value)
  {
    var next := FanOutPost(t, p).value;
    forall k | k in next.feed
      ensures GoodRow(next, k)
    {
      if k in t.feed {
        assert GoodRow(t, k);
      } else {
        FannedRow(t, p, k);
      }
    }
  }

  lemma CacheKept(t: Tables, e: Event)
    requires CacheOk(t)
    ensures CacheOk(Step(t, e))
  {
    if !WritesFeed(e) {
      CacheKeptByOthers(t, e);
    } else if Attempt(t, e).Success? {
      match e
      case Follow(me, other) => CacheKeptByFollow(t, me, other);
      case Unfollow(me, other) => CacheKeptByCut(t, me, other);
      case Block(me, other) => CacheKeptByBlock(t, me, other);
      case RunTask(task, p) => CacheKeptByFanOut(t, p);
    }
  }

  /** Whatever the interleaving of requests and labeling tasks: each feed row shows a published post with its author
      and time, its owner is the author or a current follower, and no follow edge crosses a block. */
  lemma {:induction false} CacheAlways(es: seq<Event>)
    ensures CacheOk(Run(EMPTY, es))
  {
    if es != [] {
      CacheAlways(es[..|es| - 1]);
      CacheKept(Run(EMPTY, es[..|es| - 1]), es[|es| - 1]);
    }
  }

  // ----- What the run remembers: the store each edge was created in, and which posts were fanned out

  datatype History = History(atFollow: map<(UserId, UserId), Tables>, fanned: set<PostId>)

  function Remember(h: History, t: Tables, e: Event): History {
    if Attempt(t, e).Failure? then h
    else if e.Follow? then h.(atFollow := h.atFollow[(e.me, e.other) := t])
    else if e.RunTask? && e.task == FanOut then h.(fanned := h.fanned + {e.post})
    else h
  }

  function Recall(es: seq<Event>): History
    decreases |es|
  {
    if es == [] then History(map[], {})
    else Remember(Recall(es[..|es| - 1]), Run(EMPTY, es[..|es| - 1]), es[|es| - 1])
  }

  function LivePosts(t: Tables, author: UserId): set<PostId> {
    set p | p in t.posts && t.posts[p].author == author && t.posts[p].Live()
  }

  /** The posts that the backfill left out when the edge was created. */
  function Missed(h: History, viewer: UserId, author: UserId): set<PostId> {
    if (viewer, author) in h.atFollow then
      var t := h.atFollow[(viewer, author)];
      LivePosts(t, author) - Backfilled(t, author, BACKFILL_LIMIT)
    else {}
  }

  ghost predicate Sees(t: Tables, viewer: UserId, author: UserId) {
    viewer == author || Follows(t, viewer, author)
  }

  /** A live post that was fanned out has a row in every feed that should show it, unless the backfill missed it. */
  ghost predicate Reaches(t: Tables, h: History, viewer: UserId, p: PostId)
    requires p in t.posts
  {
    (t.posts[p].Live() && p in h.fanned && Sees(t, viewer, t.posts[p].author)) ==>
      ((viewer, p) in t.feed || p in Missed(h, viewer, t.posts[p].author))
  }

  ghost predicate CompleteOk(t: Tables, h: History) {
    && (forall p :: p in h.fanned ==> p in t.posts && t.posts[p].status == Published)
    && (forall e :: e in h.atFollow ==> e.0 != e.1)
    && (forall p, viewer :: p in t.posts ==> Reaches(t, h, viewer, p))
  }

  lemma FannedKept(t: Tables, h: History, e: Event)
    requires CompleteOk(t, h)
    ensures var next := Step(t, e);
      var h' := Remember(h, t, e);
      && (forall p :: p in h'.fanned ==> p in next.posts && next.posts[p].status == Published)
      && (forall e :: e in h'.atFollow ==> e.0 != e.1)
  {
    StepEvolves(t, e);
  }

  /** A post that is live and fanned out after a step was so before, unless this step fanned it out. */
  lemma LiveBefore(t: Tables, h: History, e: Event, p: PostId)
    requires CompleteOk(t, h) && p in Step(t, e).posts
    requires Step(t, e).posts[p].Live() && p in h.fanned
    ensures p in t.posts && t.posts[p].Live()
    ensures SameIdentity(t.posts[p], Step(t, e).posts[p])
  {
    StepEvolves(t, e);
  }

  lemma ReachesKeptByOthers(t: Tables, h: History, e: Event, viewer: UserId, p: PostId)
    requires CompleteOk(t, h) && !WritesFeed(e) && p in Step(t, e).posts
    ensures Reaches(Step(t, e), Remember(h, t, e), viewer, p)
  {
    FeedKept(t, e);
    assert Remember(h, t, e) == h;
    if Step(t, e).posts[p].Live() && p in h.fanned {
      LiveBefore(t, h, e, p);
      assert Reaches(t, h, viewer, p);
    }
  }

  lemma FollowAddsRows(t: Tables, me: UserId, other: UserId)
    requires FollowUser(t, me, other).Success?
    ensures var next := FollowUser(t, me, other).value;
      && me != other
      && next.posts == t.posts && next.follows == t.follows + {(me, other)}
      && (forall k :: k in t.feed ==> k in next.feed)
      && (forall q :: q in Backfilled(t, other, BACKFILL_LIMIT) ==> (me, q) in next.feed)
  {
  }

  lemma ReachesKeptByFollow(t: Tables, h: History, me: UserId, other: UserId, viewer: UserId, p: PostId)
    requires CompleteOk(t, h) && FollowUser(t, me, other).Success? && p in t.posts
    ensures Reaches(FollowUser(t, me, other).value, h.(atFollow := h.atFollow[(me, other) := t]), viewer, p)
  {
    FollowAddsRows(t, me, other);
    var author := t.posts[p].author;
    if viewer == me && author == other {
      if t.posts[p].Live() {
        assert p in LivePosts(t, other);
      }
    } else {
      assert Reaches(t, h, viewer, p);
    }
  }

  lemma ReachesKeptByCut(t: Tables, h: History, a: UserId, b: UserId, viewer: UserId, p: PostId)
    requires CompleteOk(t, h) && CacheOk(t) && p in t.posts && a != b
    ensures Reaches(CutEdge(t, a, b), h, viewer, p)
  {
    assert Reaches(t, h, viewer, p);
    if (viewer, p) in t.feed {
      assert GoodRow(t, (viewer, p));
    }
  }

  lemma CompleteKeptByCut(t: Tables, h: History, a: UserId, b: UserId)
    requires CompleteOk(t, h) && CacheOk(t) && a != b
    ensures CompleteOk(CutEdge(t, a, b), h)
  {
    forall p, viewer | p in t.posts
      ensures Reaches(CutEdge(t, a, b), h, viewer, p)
    {
      ReachesKeptByCut(t, h, a, b, viewer, p);
    }
  }

  lemma ReachesKeptByBlock(t: Tables, h: History, me: UserId, other: UserId, viewer: UserId, p: PostId)
    requires CompleteOk(t, h) && CacheOk(t) && p in t.posts && BlockUser(t, me, other).Success?
    ensures Reaches(BlockUser(t, me, other).value, h, viewer, p)
  {
    var once := CutEdge(t, me, other);
    CompleteKeptByCut(t, h, me, other);
    CacheKeptByCut(t, me, other);
    CompleteKeptByCut(once, h, other, me);
    assert Reaches(CutEdge(once, other, me), h, viewer, p);
  }

  lemma ReachesKeptByFanOut(t: Tables, h: History, q: PostId, viewer: UserId, p: PostId)
    requires CompleteOk(t, h) && FanOutPost(t, q).Success? && p in t.posts
    ensures Reaches(FanOutPost(t, q).value, h.(fanned := h.fanned + {q}), viewer, p)
  {
    assert Reaches(t, h, viewer, p);
    if p == q && Sees(t, viewer, t.posts[p].author) {
      assert viewer in Recipients(t, t.posts[p].author) by {
        assert viewer != t.posts[p].author ==> (viewer, t.posts[p].author) in t.follows;
      }
    }
  }

  lemma ReachesKept(t: Tables, h: History, e: Event, viewer: UserId, p: PostId)
    requires CompleteOk(t, h) && CacheOk(t) && WritesFeed(e) && Attempt(t, e).Success? && p in t.posts
    ensures p in Step(t, e).posts && Reaches(Step(t, e), Remember(h, t, e), viewer, p)
  {
    PostsKept(t, e);
    match e
    case Follow(me, other) => ReachesKeptByFollow(t, h, me, other, viewer, p);
    case Unfollow(me, other) => ReachesKeptByCut(t, h, me, other, viewer, p);
    case Block(me, other) => ReachesKeptByBlock(t, h, me, other, viewer, p);
    case RunTask(task, q) => ReachesKeptByFanOut(t, h, q, viewer, p);
  }

  lemma CompleteKept(t: Tables, h: History, e: Event)
    requires CompleteOk(t, h) && CacheOk(t)
    ensures CompleteOk(Step(t, e), Remember(h, t, e))
  {
    FannedKept(t, h, e);
    if WritesFeed(e) {
      PostsKept(t, e);
    }
    forall p, viewer | p in Step(t, e).posts
      ensures Reaches(Step(t, e), Remember(h, t, e), viewer, p)
    {
      if !WritesFeed(e) {
        ReachesKeptByOthers(t, h, e, viewer, p);
      } else if Attempt(t, e).Success? {
        ReachesKept(t, h, e, viewer, p);
      } else {
        assert Reaches(t, h, viewer, p);
      }
    }
  }

  lemma {:induction false} CompleteAlways(es: seq<Event>)
    ensures CompleteOk(Run(EMPTY, es), Recall(es)) && CacheOk(Run(EMPTY, es))
  {
    CacheAlways(es);
    if es != [] {
      var before := es[..|es| - 1];
      CompleteAlways(before);
      CompleteKept(Run(EMPTY, before), Recall(before), es[|es| - 1]);
    }
  }
}
