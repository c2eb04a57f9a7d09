/** Like counters, and what an unpublished post can own, over all runs. */
module Counters {
  import opened Options
  import opened SocialModel
  import opened Requests
  import opened Tasks
  import opened SocialRuns
  import opened References
  import opened FeedCache

  /** The number of Like rows of a post. */
  function Likers(likes: set<(UserId, PostId)>, p: PostId): set<(UserId, PostId)> {
    set l | l in likes && l.1 == p
  }

  /** `like_count` is the number of Like rows; without an engagement row there are none. */
  ghost predicate CountOk(t: Tables, p: PostId) {
    |Likers(t.likes, p)| == if p in t.engagement then t.engagement[p].likes else 0
  }

  ghost predicate CountsOk(t: Tables) {
    forall p: PostId :: CountOk(t, p)
  }

  /** Likes go to published originals. */
  ghost predicate LikeTargetsOk(t: Tables) {
    forall l :: l in t.likes ==>
      l.1 in t.posts && t.posts[l.1].status == Published && t.posts[l.1].repostOf.None?
  }

  lemma LikersAdd(likes: set<(UserId, PostId)>, me: UserId, target: PostId, p: PostId)
    requires (me, target) !in likes
    ensures |Likers(likes + {(me, target)}, p)| == |Likers(likes, p)| + if p == target then 1 else 0
  {
    var after := Likers(likes + {(me, target)}, p);
    if p == target {
      assert after == Likers(likes, p) + {(me, target)};
    } else {
      assert after == Likers(likes, p);
    }
  }

  lemma CountsKeptByLike(t: Tables, me: UserId, q: PostId)
    requires CountsOk(t) && LikePost(t, me, q).Success?
    ensures CountsOk(LikePost(t, me, q).value)
  {
    var target := LoadReference(t, q).value;
    forall p: PostId
      ensures CountOk(LikePost(t, me, q).value, p)
    {
      LikersAdd(t.likes, me, target, p);
      assert CountOk(t, p);
    }
  }

  lemma CountsKeptByUnlike(t: Tables, me: UserId, q: PostId)
    requires CountsOk(t) && UnlikePost(t, me, q).Success?
    ensures CountsOk(UnlikePost(t, me, q).value)
  {
    var target := if (me, q) in t.likes then q else t.posts[q].repostOf.value;
    var rest := t.likes - {(me, target)};
    assert t.likes == rest + {(me, target)};
    forall p: PostId
      ensures CountOk(UnlikePost(t, me, q).value, p)
    {
      LikersAdd(rest, me, target, p);
      assert CountOk(t, p);
    }
  }

  /** Everything else leaves the Like rows and every like count as they are. */
  lemma LikesUntouched(t: Tables, e: Event)
    requires !e.Like? && !e.Unlike?
    ensures Step(t, e).likes == t.likes
    ensures forall p: PostId :: RowOrZero(Step(t, e), p).likes == RowOrZero(t, p).likes
  {
    if e.RunTask? {
      if Attempt(t, e).Success? {
        TaskKeepsLikes(t, e.task, e.post);
      }
    } else if e.Delete? {
    } else {
      EngagementKept(t, e);
    }
  }

  /** The requests that never write engagement, likes or embeddings. */
  lemma EngagementKept(t: Tables, e: Event)
    requires !e.Like? && !e.Unlike? && !e.Delete? && !e.RunTask?
    ensures Step(t, e).likes == t.likes && Step(t, e).engagement == t.engagement
    ensures Step(t, e).embeddings == t.embeddings
  {
    match e
    case Create(me, id, now, req) => if Attempt(t, e).Success? { CreateTouches(t, me, id, now, req); }
    case Follow(me, other) => if Attempt(t, e).Success? { FollowTouches(t, me, other); }
    case Block(me, other) => if Attempt(t, e).Success? { BlockTouches(t, me, other); }
    case SignUp(_, _) =>
    case SetPrivate(_, _) =>
    case Hide(_) =>
    case Erase(_) =>
    case Unfollow(_, _) =>
    case Unblock(_, _) =>
    case WriteLabel(_, _, _) =>
    case Fail(_) =>
    case _ =>
  }

  lemma TaskKeepsLikes(t: Tables, task: Task, q: PostId)
    requires Exec(t, task, q).Success?
    ensures var next := Exec(t, task, q).value;
      next.likes == t.likes && forall p: PostId :: RowOrZero(next, p).likes == RowOrZero(t, p).likes
  {
    match task
    case Validate =>
    case Publish =>
    case ApplyLabels =>
    case Embed =>
    case FanOut =>
    case ReplyCount =>
    case NotifyReply =>
    case RepostCount =>
    case NotifyRepost =>
    case EngagementInit =>
  }

  lemma CountsKept(t: Tables, e: Event)
    requires CountsOk(t)
    ensures CountsOk(Step(t, e))
  {
    if Attempt(t, e).Success? {
      if e.Like? {
        CountsKeptByLike(t, e.me, e.post);
      } else if e.Unlike? {
        CountsKeptByUnlike(t, e.me, e.post);
      } else {
        LikesUntouched(t, e);
        forall p: PostId
          ensures CountOk(Step(t, e), p)
        {
          assert CountOk(t, p);
          assert RowOrZero(Step(t, e), p).likes == RowOrZero(t, p).likes;
        }
      }
    }
  }

  lemma LikeTargetIsOriginal(t: Tables, p: PostId)
    requires ReferencesOk(t.posts) && LoadReference(t, p).Success?
    ensures var target := LoadReference(t, p).value;
      target in t.posts && t.posts[target].status == Published && t.posts[target].repostOf.None?
  {
    assert GoodReferences(t.posts, p);
  }

  lemma LikeAdds(t: Tables, me: UserId, p: PostId)
    requires LikePost(t, me, p).Success?
    ensures var target := LoadReference(t, p); var next := LikePost(t, me, p).value;
      && target.Success?
      && next.likes == t.likes + {(me, target.value)} && next.posts == t.posts
      && next.engagement.Keys == t.engagement.Keys + {target.value} && next.embeddings == t.embeddings
  {
  }

  lemma UnlikeKeeps(t: Tables, me: UserId, p: PostId)
    requires UnlikePost(t, me, p).Success?
    ensures var next := UnlikePost(t, me, p).value;
      && next.likes <= t.likes && next.engagement.Keys == t.engagement.Keys && next.embeddings == t.embeddings
  {
  }

  lemma DeleteKeeps(t: Tables, me: UserId, p: PostId)
    requires DeletePost(t, me, p).Success?
    ensures var next := DeletePost(t, me, p).value;
      && next.likes == t.likes && next.engagement.Keys == t.engagement.Keys && next.embeddings == t.embeddings
  {
  }

  lemma LikeTargetsKept(t: Tables, e: Event)
    requires LikeTargetsOk(t) && ReferencesOk(t.posts)
    ensures LikeTargetsOk(Step(t, e))
  {
    StepEvolves(t, e);
    if e.Like? {
      if Attempt(t, e).Success? {
        LikeAdds(t, e.me, e.post);
        LikeTargetIsOriginal(t, e.post);
      }
    } else if e.Unlike? {
      if Attempt(t, e).Success? {
        UnlikeKeeps(t, e.me, e.post);
      }
    } else {
      LikesUntouched(t, e);
    }
  }

  /** For every post of every reachable store, `like_count` is the number of its Like rows, and a post without an
      engagement row has none; likes only point at published posts that are not reposts. */
  lemma {:induction false} CountsAlways(es: seq<Event>)
    ensures CountsOk(Run(EMPTY, es)) && LikeTargetsOk(Run(EMPTY, es))
  {
    if es != [] {
      var before := Run(EMPTY, es[..|es| - 1]);
      CountsAlways(es[..|es| - 1]);
      ReferencesAlways(es[..|es| - 1]);
      CountsKept(before, es[|es| - 1]);
      LikeTargetsKept(before, es[|es| - 1]);
    }
  }

  // ----- What an unpublished post can own

  ghost predicate PublishedPost(t: Tables, p: PostId) {
    p in t.posts && t.posts[p].status == Published
  }

  /** The reply or repost that a notification is about. */
  function Source(n: Notice): Option<PostId> {
    match n
    case PostReplied(_, _, source, _) => Some(source)
    case PostReposted(_, _, source, _) => Some(source)
    case _ => None
  }

  ghost predicate NoticesPublished(t: Tables) {
    forall n :: n in t.notices && Source(n).Some? ==> PublishedPost(t, Source(n).value)
  }

  /** The tables of counters and vectors only have rows of published posts. */
  ghost predicate RowsPublished(t: Tables) {
    && (forall p :: p in t.embeddings ==> PublishedPost(t, p))
    && (forall p :: p in t.engagement ==> PublishedPost(t, p))
  }

  lemma RowsStayPublished(t: Tables, next: Tables)
    requires RowsPublished(t) && Evolves(t.posts, next.posts)
    requires next.embeddings == t.embeddings
    requires forall p :: p in next.engagement ==> p in t.engagement || PublishedPost(t, p)
    ensures RowsPublished(next)
  {
    assert forall p :: PublishedPost(t, p) ==> PublishedPost(next, p);
  }

  lemma RowsPublishedByRequest(t: Tables, e: Event)
    requires RowsPublished(t) && !e.RunTask?
    ensures RowsPublished(Step(t, e))
  {
    StepEvolves(t, e);
    if Attempt(t, e).Success? {
      if e.Like? {
        LikeAdds(t, e.me, e.post);
      } else if e.Unlike? {
        UnlikeKeeps(t, e.me, e.post);
      } else if e.Delete? {
        DeleteKeeps(t, e.me, e.post);
      } else {
        EngagementKept(t, e);
      }
      RowsStayPublished(t, Step(t, e));
    }
  }

  lemma RowsPublishedByTask(t: Tables, task: Task, p: PostId)
    requires RowsPublished(t) && ReferencesOk(t.posts)
    requires Exec(t, task, p).Success?
    ensures RowsPublished(Exec(t, task, p).value)
  {
    if p in t.posts {
      assert GoodReferences(t.posts, p);
    }
    match task
    case Validate =>
    case Publish =>
    case ApplyLabels =>
    case Embed =>
    case FanOut =>
    case ReplyCount =>
    case NotifyReply =>
    case RepostCount =>
    case NotifyRepost =>
    case EngagementInit =>
  }

  lemma NoticesKept(t: Tables, e: Event)
    requires NoticesPublished(t)
    ensures NoticesPublished(Step(t, e))
  {
    StepEvolves(t, e);
    if e.RunTask? {
      TaskNotices(t, e.task, e.post);
    } else {
      RequestNotices(t, e);
    }
  }

  lemma FollowNotice(t: Tables, me: UserId, other: UserId)
    requires FollowUser(t, me, other).Success?
    ensures FollowUser(t, me, other).value.notices == t.notices + multiset{Followed(other, me)}
  {
  }

  lemma LikeNotice(t: Tables, me: UserId, p: PostId)
    requires LikePost(t, me, p).Success?
    ensures exists user, target :: LikePost(t, me, p).value.notices == t.notices + multiset{PostLiked(user, target, me)}
  {
    var target := LoadReference(t, p).value;
    assert LikePost(t, me, p).value.notices == t.notices + multiset{PostLiked(t.posts[target].author, target, me)};
  }

  lemma RequestNotices(t: Tables, e: Event)
    requires !e.RunTask?
    ensures forall n :: n in Step(t, e).notices && Source(n).Some? ==> n in t.notices
  {
    if Attempt(t, e).Success? {
      match e
      case Follow(me, other) => FollowNotice(t, me, other);
      case Like(me, p) => LikeNotice(t, me, p);
      case Unlike(me, p) => UnlikeTouches(t, me, p);
      case Create(me, id, now, req) => CreateTouches(t, me, id, now, req);
      case Block(me, other) => BlockTouches(t, me, other);
      case Delete(me, p) => DeleteTouches(t, me, p);
      case _ =>
    }
  }

  lemma TaskNotices(t: Tables, task: Task, p: PostId)
    ensures var r := Exec(t, task, p);
      r.Success? ==> forall n :: n in r.value.notices ==> n in t.notices || (Source(n) == Some(p) && PublishedPost(t, p))
  {
    match task
    case Validate =>
    case Publish =>
    case ApplyLabels =>
    case Embed =>
    case FanOut =>
    case ReplyCount =>
    case NotifyReply =>
    case RepostCount =>
    case NotifyRepost =>
    case EngagementInit =>
  }

  lemma {:induction false} RowsPublishedAlways(es: seq<Event>)
    ensures RowsPublished(Run(EMPTY, es)) && NoticesPublished(Run(EMPTY, es))
  {
    if es != [] {
      var before, e := Run(EMPTY, es[..|es| - 1]), es[|es| - 1];
      RowsPublishedAlways(es[..|es| - 1]);
      ReferencesAlways(es[..|es| - 1]);
      NoticesKept(before, e);
      if e.RunTask? {
        if Attempt(before, e).Success? {
          RowsPublishedByTask(before, e.task, e.post);
        }
      } else {
        RowsPublishedByRequest(before, e);
      }
    }
  }

  /** In every reachable store a post that is not published appears in no feed, has no embedding and no engagement row,
      was announced to nobody, and is in no reply or repost count that a recount would store. */
  lemma UnpublishedOwnsNothing(es: seq<Event>, p: PostId)
    requires p in Run(EMPTY, es).posts && Run(EMPTY, es).posts[p].status != Published
    ensures var t := Run(EMPTY, es);
      && (forall u: UserId :: (u, p) !in t.feed)
      && p !in t.embeddings && p !in t.engagement
      && (forall n :: n in t.notices ==> Source(n) != Some(p))
      && (forall u: UserId :: (u, p) !in t.likes)
      && (forall q :: p !in Replies(t, q) && p !in Reposts(t, q))
  {
    var t := Run(EMPTY, es);
    RowsPublishedAlways(es);
    CacheAlways(es);
    CountsAlways(es);
    forall u: UserId
      ensures (u, p) !in t.feed
    {
      assert (u, p) in t.feed ==> GoodRow(t, (u, p));
    }
  }
}
