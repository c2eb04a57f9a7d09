/** Runs of the social store: every committed transaction is one event, in any order and any number of times. */
module SocialRuns {
  import opened Options
  import opened Keyset
  import opened SocialModel
  import opened Requests
  import opened Tasks

  datatype Event =
    | SignUp(user: UserId, isPrivate: bool)
    | SetPrivate(user: UserId, isPrivate: bool)
    | Create(me: UserId, id: PostId, now: int, req: PostRequest)
    | Delete(me: UserId, post: PostId)
    | Hide(post: PostId)
    | Erase(me: UserId)
    | Follow(me: UserId, other: UserId)
    | Unfollow(me: UserId, other: UserId)
    | Block(me: UserId, other: UserId)
    | Unblock(me: UserId, other: UserId)
    | Like(me: UserId, post: PostId)
    | Unlike(me: UserId, post: PostId)
    | WriteLabel(post: PostId, kind: Label, reason: string)
    | RunTask(task: Task, post: PostId)
    | Fail(post: PostId)

  function Attempt(t: Tables, e: Event): Result<Tables> {
    match e
    case SignUp(u, isPrivate) =>
      if u in t.users then Failure(409) else Success(t.(users := t.users[u := UserRow(isPrivate)]))
    case SetPrivate(u, isPrivate) =>
      if u !in t.users then Failure(401) else Success(t.(users := t.users[u := UserRow(isPrivate)]))
    case Create(me, id, now, req) => CreatePost(t, me, id, now, req)
    case Delete(me, p) => DeletePost(t, me, p)
    case Hide(p) => HidePost(t, p)
    case Erase(me) => Success(ErasePosts(t, me))
    case Follow(me, other) => FollowUser(t, me, other)
    case Unfollow(me, other) => UnfollowUser(t, me, other)
    case Block(me, other) => BlockUser(t, me, other)
    case Unblock(me, other) => UnblockUser(t, me, other)
    case Like(me, p) => LikePost(t, me, p)
    case Unlike(me, p) => UnlikePost(t, me, p)
    case WriteLabel(p, kind, reason) => WritePostLabel(t, p, kind, reason)
    case RunTask(task, p) => Exec(t, task, p)
    case Fail(p) => Success(MarkFailed(t, p))
  }

  /** A request or task that fails commits nothing. */
  function Step(t: Tables, e: Event): Tables {
    match Attempt(t, e)
    case Success(next) => next
    case Failure(_) => t
  }

  function Run(t: Tables, es: seq<Event>): Tables
    decreases |es|
  {
    if es == [] then t else Step(Run(t, es[..|es| - 1]), es[|es| - 1])
  }

  lemma RunSnoc(t: Tables, es: seq<Event>, e: Event)
    ensures Run(t, es + [e]) == Step(Run(t, es), e)
  {
    assert (es + [e])[..|es|] == es;
  }

  lemma {:induction false} RunConcat(t: Tables, es: seq<Event>, more: seq<Event>)
    ensures Run(t, es + more) == Run(Run(t, es), more)
    decreases |more|
  {
    if more == [] {
      assert es + more == es;
    } else {
      var init, last := more[..|more| - 1], more[|more| - 1];
      RunConcat(t, es, init);
      assert es + more == es + init + [last];
      RunSnoc(t, es + init, last);
    }
  }

  // ----- Post rows only move forward

  /** Columns that no transaction rewrites. */
  ghost predicate SameIdentity(a: Post, b: Post) {
    && a.author == b.author && a.body == b.body && a.visibility == b.visibility && a.createdAt == b.createdAt
    && a.parent == b.parent && a.root == b.root && a.quoteOf == b.quoteOf && a.repostOf == b.repostOf
  }

  /** Rows are never removed, publication is never undone, deletion is permanent, nothing returns to processing. */
  ghost predicate Forward(a: Post, b: Post) {
    && SameIdentity(a, b)
    && (a.status == Published ==> b.status == Published)
    && (b.status == Processing ==> a.status == Processing)
    && (a.deleted ==> b.deleted)
  }

  ghost predicate Evolves(a: map<PostId, Post>, b: map<PostId, Post>) {
    forall p :: p in a ==> p in b && Forward(a[p], b[p])
  }

  /** Rows that a transition adds are those of a post being created. */
  ghost predicate OnlyCreates(a: map<PostId, Post>, b: map<PostId, Post>, e: Event) {
    forall p :: p in b && p !in a ==> e.Create? && p == e.id
  }

  /** The events that can write the posts table. */
  predicate WritesPosts(e: Event) {
    || e.Create? || e.Delete? || e.Hide? || e.Erase? || e.Fail?
    || (e.RunTask? && e.task == Publish)
  }

  // Which tables a request writes

  lemma CreateTouches(t: Tables, me: UserId, id: PostId, now: int, req: PostRequest)
    requires CreatePost(t, me, id, now, req).Success?
    ensures var next := CreatePost(t, me, id, now, req).value; next == t.(posts := next.posts)
  {
  }

  lemma FollowTouches(t: Tables, me: UserId, other: UserId)
    requires FollowUser(t, me, other).Success?
    ensures var next := FollowUser(t, me, other).value;
      next == t.(feed := next.feed, follows := next.follows, notices := next.notices)
  {
  }

  lemma BlockTouches(t: Tables, me: UserId, other: UserId)
    requires BlockUser(t, me, other).Success?
    ensures var next := BlockUser(t, me, other).value;
      next == t.(feed := next.feed, follows := next.follows, blocks := next.blocks)
  {
  }

  lemma LikeTouches(t: Tables, me: UserId, p: PostId)
    requires LikePost(t, me, p).Success?
    ensures var next := LikePost(t, me, p).value;
      next == t.(likes := next.likes, engagement := next.engagement, notices := next.notices)
  {
  }

  lemma UnlikeTouches(t: Tables, me: UserId, p: PostId)
    requires UnlikePost(t, me, p).Success?
    ensures var next := UnlikePost(t, me, p).value; next == t.(likes := next.likes, engagement := next.engagement)
  {
  }

  lemma DeleteTouches(t: Tables, me: UserId, p: PostId)
    requires DeletePost(t, me, p).Success?
    ensures var next := DeletePost(t, me, p).value; next == t.(posts := next.posts, engagement := next.engagement)
  {
  }

  lemma PostsKept(t: Tables, e: Event)
    requires !WritesPosts(e)
    ensures Step(t, e).posts == t.posts
  {
    if Attempt(t, e).Success? {
      match e
      case RunTask(task, p) => TaskKeepsPosts(t, task, p);
      case Follow(me, other) => FollowTouches(t, me, other);
      case Block(me, other) => BlockTouches(t, me, other);
      case Like(me, p) => LikeTouches(t, me, p);
      case Unlike(me, p) => UnlikeTouches(t, me, p);
      case _ =>
    }
  }

  lemma TaskKeepsPosts(t: Tables, task: Task, p: PostId)
    requires task != Publish
    ensures Exec(t, task, p).Success? ==> Exec(t, task, p).value.posts == t.posts
  {
    match task
    case Validate =>
    case ApplyLabels =>
    case Embed =>
    case FanOut =>
    case ReplyCount =>
    case NotifyReply =>
    case RepostCount =>
    case NotifyRepost =>
    case EngagementInit =>
    case Publish =>
  }

  lemma CreateAdds(t: Tables, me: UserId, id: PostId, now: int, req: PostRequest)
    requires CreatePost(t, me, id, now, req).Success?
    ensures var b := CreatePost(t, me, id, now, req).value.posts;
      id !in t.posts && id in b && b == t.posts[id := b[id]]
  {
  }

  lemma DeleteRewrites(t: Tables, me: UserId, p: PostId)
    requires DeletePost(t, me, p).Success?
    ensures p in t.posts && DeletePost(t, me, p).value.posts == t.posts[p := t.posts[p].(deleted := true)]
  {
  }

  lemma RewriteEvolves(a: map<PostId, Post>, p: PostId, row: Post)
    requires p in a && Forward(a[p], row)
    ensures Evolves(a, a[p := row]) && a[p := row].Keys == a.Keys
  {
  }

  lemma EraseEvolves(t: Tables, me: UserId)
    ensures Evolves(t.posts, ErasePosts(t, me).posts) && ErasePosts(t, me).posts.Keys == t.posts.Keys
  {
  }

  lemma StepEvolves(t: Tables, e: Event)
    ensures Evolves(t.posts, Step(t, e).posts)
    ensures OnlyCreates(t.posts, Step(t, e).posts, e)
  {
    if !WritesPosts(e) {
      PostsKept(t, e);
    } else if Attempt(t, e).Success? {
      if e.Create? {
        CreateAdds(t, e.me, e.id, e.now, e.req);
      } else if e.Erase? {
        EraseEvolves(t, e.me);
      } else if e.Delete? {
        DeleteRewrites(t, e.me, e.post);
        RewriteEvolves(t.posts, e.post, t.posts[e.post].(deleted := true));
      } else if e.Hide? {
        RewriteEvolves(t.posts, e.post, t.posts[e.post].(deleted := true));
      } else if e.Fail? {
        FailEvolves(t, e.post);
      } else {
        RewriteEvolves(t.posts, e.post, t.posts[e.post].(status := Published));
      }
    }
  }

  lemma FailEvolves(t: Tables, p: PostId)
    ensures Evolves(t.posts, MarkFailed(t, p).posts) && MarkFailed(t, p).posts.Keys == t.posts.Keys
  {
  }

  lemma {:induction false} RunEvolves(t: Tables, es: seq<Event>)
    ensures Evolves(t.posts, Run(t, es).posts)
  {
    if es != [] {
      RunEvolves(t, es[..|es| - 1]);
      StepEvolves(Run(t, es[..|es| - 1]), es[|es| - 1]);
    }
  }
}
