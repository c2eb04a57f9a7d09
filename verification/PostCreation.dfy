/** Who may create a post: the answer of the request on the plain columns of users, posts, follows and blocks. */
module PostCreation {
  import opened Options
  import opened SocialModel
  import opened Requests
  import opened SocialRuns
  import opened References

  // ----- What the request asks of the store

  predicate PublishedAndThere(t: Tables, p: PostId) {
    p in t.posts && t.posts[p].status == Published && !t.posts[p].deleted
  }

  /** The viewer's own post, one of an author the viewer follows, or a public post of an account that is not private. */
  predicate Readable(t: Tables, me: UserId, p: PostId)
    requires p in t.posts
  {
    var author := t.posts[p].author;
    || author == me || (me, author) in t.follows
    || (t.posts[p].visibility == Public && (author in t.users ==> !t.users[author].isPrivate))
  }

  predicate NoBlock(t: Tables, a: UserId, b: UserId) {
    (a, b) !in t.blocks && (b, a) !in t.blocks
  }

  /** Where a quote or repost of `p` ends. */
  function Original(t: Tables, p: PostId): PostId
    requires p in t.posts
  {
    if t.posts[p].repostOf.Some? then t.posts[p].repostOf.value else p
  }

  predicate WellFormed(req: PostRequest) {
    && |req.body| <= 2000
    && !(req.parent.Some? && req.quoteOf.Some?)
    && !(req.parent.Some? && req.repostOf.Some?)
    && !(req.quoteOf.Some? && req.repostOf.Some?)
    && (req.repostOf.None? ==> exists i :: 0 <= i < |req.body| && !IsSpace(req.body[i]))
  }

  /** The parent is live; a quoted or reposted post is, and so is the original behind a repost. */
  ghost predicate Found(t: Tables, req: PostRequest) {
    && (req.parent.Some? ==> PublishedAndThere(t, req.parent.value))
    && (forall p :: req.quoteOf == Some(p) || req.repostOf == Some(p) ==>
         PublishedAndThere(t, p) && PublishedAndThere(t, Original(t, p)))
  }

  /** A reply needs a readable parent without a block in either direction, unless the parent is the viewer's own; a quoted or
      reposted original must be readable. */
  ghost predicate Permitted(t: Tables, me: UserId, req: PostRequest)
    requires Found(t, req)
  {
    && (req.parent.Some? ==>
         var p := req.parent.value;
         t.posts[p].author == me || (NoBlock(t, me, t.posts[p].author) && Readable(t, me, p)))
    && (forall p :: req.quoteOf == Some(p) || req.repostOf == Some(p) ==> Readable(t, me, Original(t, p)))
  }

  ghost predicate RepostedAlready(t: Tables, me: UserId, req: PostRequest)
    requires Found(t, req)
  {
    req.repostOf.Some? && exists r :: r in t.posts && !t.posts[r].deleted && t.posts[r].author == me
                                   && t.posts[r].repostOf == Some(Original(t, req.repostOf.value))
  }

  // ----- The answer

  lemma RequestIsWellFormed(req: PostRequest)
    ensures Validated(req) == if WellFormed(req) then Success(if req.repostOf.Some? then req.(body := "") else req)
                              else Failure(422)
  {
    assert Blank(req.body) <==> !exists i :: 0 <= i < |req.body| && !IsSpace(req.body[i]);
  }

  lemma TargetAnswer(t: Tables, me: UserId, p: PostId)
    ensures LoadTarget(t, me, Some(p)) ==
      if !(PublishedAndThere(t, p) && PublishedAndThere(t, Original(t, p))) then Failure(404)
      else if !Readable(t, me, Original(t, p)) then Failure(403)
      else Success(Some(Original(t, p)))
  {
    assert t.IsLive(p) <==> PublishedAndThere(t, p);
    if PublishedAndThere(t, p) {
      assert t.IsLive(Original(t, p)) <==> PublishedAndThere(t, Original(t, p));
    }
  }

  lemma ReplyAnswer(t: Tables, me: UserId, p: PostId)
    ensures t.IsLive(p) <==> PublishedAndThere(t, p)
    ensures PublishedAndThere(t, p) ==>
      (CanReply(t, me, t.posts[p]) <==>
        t.posts[p].author == me || (NoBlock(t, me, t.posts[p].author) && Readable(t, me, p)))
  {
  }

  /** A post is created if and only if the user exists, the request is well formed, what it refers to is live and open to
      the user, no repost is repeated, and the id is new. */
  ghost predicate Admitted(t: Tables, me: UserId, id: PostId, req: PostRequest) {
    && me in t.users && WellFormed(req) && Found(t, req) && Permitted(t, me, req)
    && !RepostedAlready(t, me, req) && id !in t.posts
  }

  /** The code of the first requirement that fails. */
  lemma CreationAnswer(t: Tables, me: UserId, id: PostId, now: int, req: PostRequest)
    ensures var r := CreatePost(t, me, id, now, req);
      && (r.Success? <==> Admitted(t, me, id, req))
      && (r == Failure(401) <==> me !in t.users)
      && (r == Failure(422) <==> me in t.users && !WellFormed(req))
      && (r == Failure(404) <==> me in t.users && WellFormed(req) && !Found(t, req))
      && (r == Failure(403) <==> me in t.users && WellFormed(req) && Found(t, req) && !Permitted(t, me, req))
      && (r == Failure(409) <==>
           me in t.users && WellFormed(req) && Found(t, req) && Permitted(t, me, req) && RepostedAlready(t, me, req))
      && (r == Failure(500) <==>
           && me in t.users && WellFormed(req) && Found(t, req) && Permitted(t, me, req) && !RepostedAlready(t, me, req)
           && id in t.posts)
  {
    if me in t.users {
      RequestIsWellFormed(req);
      if WellFormed(req) {
        if req.parent.Some? {
          ReplyAnswer(t, me, req.parent.value);
        } else if req.quoteOf.Some? {
          TargetAnswer(t, me, req.quoteOf.value);
        } else if req.repostOf.Some? {
          TargetAnswer(t, me, req.repostOf.value);
        }
      }
    }
  }

  /** What is stored: one processing row of the user. A repost has no text; a reply takes visibility and root from its
      parent; quotes and reposts point at the original. */
  lemma CreatedPost(t: Tables, me: UserId, id: PostId, now: int, req: PostRequest)
    requires Admitted(t, me, id, req)
    ensures var r := CreatePost(t, me, id, now, req);
      && r.Success? && id in r.value.posts
      && r.value == t.(posts := t.posts[id := r.value.posts[id]])
      && var row := r.value.posts[id];
      && row.author == me && row.status == Processing && row.createdAt == now && !row.deleted
      && row.body == (if req.repostOf.Some? then "" else req.body)
      && row.parent == req.parent
      && row.visibility == (if req.parent.Some? then t.posts[req.parent.value].visibility else req.visibility)
      && (forall p :: req.quoteOf == Some(p) ==> row.quoteOf == Some(Original(t, p)))
      && (forall p :: req.repostOf == Some(p) ==> row.repostOf == Some(Original(t, p)))
      && (req.quoteOf.None? ==> row.quoteOf.None?) && (req.repostOf.None? ==> row.repostOf.None?)
  {
    CreationAnswer(t, me, id, now, req);
    RequestIsWellFormed(req);
    if req.quoteOf.Some? {
      TargetAnswer(t, me, req.quoteOf.value);
    } else if req.repostOf.Some? {
      TargetAnswer(t, me, req.repostOf.value);
    }
  }

  // ----- Blocks do not matter to quotes and reposts

  /** Without a parent the answer is the same whoever blocks whom; only replies look at blocks. */
  lemma QuotesIgnoreBlocks(t: Tables, blocks: set<(UserId, UserId)>, me: UserId, id: PostId, now: int, req: PostRequest)
    requires req.parent.None?
    ensures CreatePost(t.(blocks := blocks), me, id, now, req).Success? <==> CreatePost(t, me, id, now, req).Success?
  {
    var u := t.(blocks := blocks);
    CreationAnswer(t, me, id, now, req);
    CreationAnswer(u, me, id, now, req);
    assert forall p :: PublishedAndThere(u, p) <==> PublishedAndThere(t, p);
    assert forall p :: p in t.posts ==> (Readable(u, me, p) <==> Readable(t, me, p));
  }

  // ----- One repost per user and original

  ghost predicate OneRepost(posts: map<PostId, Post>) {
    forall p, q :: p in posts && q in posts && SameRepost(posts[p], posts[q]) ==> p == q
  }

  predicate SameRepost(a: Post, b: Post) {
    !a.deleted && !b.deleted && a.author == b.author && a.repostOf.Some? && a.repostOf == b.repostOf
  }

  lemma OneRepostKept(t: Tables, e: Event)
    requires OneRepost(t.posts)
    ensures OneRepost(Step(t, e).posts)
  {
    var next := Step(t, e).posts;
    StepEvolves(t, e);
    forall p, q | p in next && q in next && SameRepost(next[p], next[q])
      ensures p == q
    {
      if p in t.posts && q in t.posts {
        assert SameRepost(t.posts[p], t.posts[q]);
      } else if p != q {
        NewRepost(t, e, if p in t.posts then q else p, if p in t.posts then p else q);
      }
    }
  }

  /** A new repost repeats none that is there. */
  lemma NewRepost(t: Tables, e: Event, p: PostId, q: PostId)
    requires p !in t.posts && p in Step(t, e).posts && q in Step(t, e).posts && p != q
    ensures !SameRepost(Step(t, e).posts[p], Step(t, e).posts[q])
  {
    StepEvolves(t, e);
    CreationAnswer(t, e.me, e.id, e.now, e.req);
    CreatedPost(t, e.me, e.id, e.now, e.req);
    assert q in t.posts && Step(t, e).posts[q] == t.posts[q];
  }

  /** In every reachable store a user has at most one undeleted repost of a post. */
  lemma {:induction false} OneRepostAlways(es: seq<Event>)
    ensures OneRepost(Run(EMPTY, es).posts)
  {
    if es != [] {
      OneRepostAlways(es[..|es| - 1]);
      OneRepostKept(Run(EMPTY, es[..|es| - 1]), es[|es| - 1]);
    }
  }
}
