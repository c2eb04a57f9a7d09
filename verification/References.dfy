/** What every reachable store says about the references between posts, and the thread index built on them. */
module References {
  import opened Options
  import opened Keyset
  import opened SocialModel
  import opened Requests
  import opened Tasks
  import opened SocialRuns

  /** The referenced post exists and has been published; a quote or repost target is never itself a repost. */
  ghost predicate GoodTarget(posts: map<PostId, Post>, target: Option<PostId>, original: bool) {
    target.Some? ==>
      && target.value in posts
      && posts[target.value].status == Published
      && (original ==> posts[target.value].repostOf.None?)
  }

  ghost predicate GoodReferences(posts: map<PostId, Post>, p: PostId)
    requires p in posts
  {
    && GoodTarget(posts, posts[p].parent, false)
    && GoodTarget(posts, posts[p].quoteOf, true)
    && GoodTarget(posts, posts[p].repostOf, true)
    && (posts[p].repostOf.Some? ==> posts[p].parent.None?)
  }

  ghost predicate ReferencesOk(posts: map<PostId, Post>) {
    forall p :: p in posts ==> GoodReferences(posts, p)
  }

  lemma ReferencesEvolve(a: map<PostId, Post>, b: map<PostId, Post>, p: PostId)
    requires Evolves(a, b) && p in a && GoodReferences(a, p)
    ensures GoodReferences(b, p)
  {
  }

  lemma ReferencesKept(t: Tables, e: Event)
    requires ReferencesOk(t.posts)
    ensures ReferencesOk(Step(t, e).posts)
  {
    var b := Step(t, e).posts;
    StepEvolves(t, e);
    forall p | p in b
      ensures GoodReferences(b, p)
    {
      if p in t.posts {
        ReferencesEvolve(t.posts, b, p);
      } else {
        CreatedReferences(t, e.me, p, e.now, e.req);
      }
    }
  }

  lemma CreatedReferences(t: Tables, me: UserId, id: PostId, now: int, req: PostRequest)
    requires ReferencesOk(t.posts) && id !in t.posts
    requires CreatePost(t, me, id, now, req).Success?
    ensures GoodReferences(CreatePost(t, me, id, now, req).value.posts, id)
  {
  }

  lemma {:induction false} ReferencesAlways(es: seq<Event>)
    ensures ReferencesOk(Run(EMPTY, es).posts)
  {
    if es != [] {
      ReferencesAlways(es[..|es| - 1]);
      ReferencesKept(Run(EMPTY, es[..|es| - 1]), es[|es| - 1]);
    }
  }

  /** In every reachable store a reference resolves exactly when the post and, for a repost, its original are live. It
      then resolves to a live post that is no repost: the post itself, or the original it reposts. */
  lemma ReferenceResolves(es: seq<Event>, p: PostId)
    ensures var t := Run(EMPTY, es);
      var r := LoadReference(t, p);
      && (r.Failure? ==> r.code == 404)
      && (r.Success? <==> t.IsLive(p) && (t.posts[p].repostOf.Some? ==> t.IsLive(t.posts[p].repostOf.value)))
      && (r.Success? ==>
           && t.IsLive(r.value) && t.posts[r.value].repostOf.None?
           && r.value == (if t.posts[p].repostOf.Some? then t.posts[p].repostOf.value else p))
  {
    var t := Run(EMPTY, es);
    ReferencesAlways(es);
    assert p in t.posts ==> GoodReferences(t.posts, p);
  }

  // ----- The root index

  /** `path` climbs from `p` by parent links and ends at a post without a parent. */
  ghost predicate RootPath(posts: map<PostId, Post>, p: PostId, path: seq<PostId>) {
    && path != [] && path[0] == p
    && (forall i :: 0 <= i < |path| ==> path[i] in posts)
    && (forall i :: 0 <= i < |path| - 1 ==> posts[path[i]].parent == Some(path[i + 1]))
    && posts[path[|path| - 1]].parent.None?
  }

  /** `root_id` and the visibility agree with the end of the path. */
  ghost predicate Indexed(posts: map<PostId, Post>, p: PostId, path: seq<PostId>)
    requires RootPath(posts, p, path)
  {
    var top := path[|path| - 1];
    && posts[p].root == (if posts[p].parent.None? then None else Some(top))
    && posts[p].visibility == posts[top].visibility
  }

  ghost predicate RootOk(posts: map<PostId, Post>, p: PostId) {
    exists path :: RootPath(posts, p, path) && Indexed(posts, p, path)
  }

  ghost predicate RootsOk(posts: map<PostId, Post>) {
    forall p :: p in posts ==> RootOk(posts, p)
  }

  lemma RootEvolves(a: map<PostId, Post>, b: map<PostId, Post>, p: PostId)
    requires Evolves(a, b) && RootOk(a, p)
    ensures RootOk(b, p)
  {
    var path :| RootPath(a, p, path) && Indexed(a, p, path);
    assert RootPath(b, p, path) && Indexed(b, p, path);
  }

  /** The row create_post stores: a root is its own thread, a reply inherits root and visibility from its parent. */
  ghost predicate Attached(posts: map<PostId, Post>, post: Post) {
    if post.parent.None? then post.root.None?
    else
      && post.parent.value in posts
      && var parent := posts[post.parent.value];
      && post.root == (if parent.root.Some? then parent.root else post.parent)
      && post.visibility == parent.visibility
  }

  lemma CreatedAttached(t: Tables, me: UserId, id: PostId, now: int, req: PostRequest)
    requires CreatePost(t, me, id, now, req).Success?
    ensures id !in t.posts
    ensures var b := CreatePost(t, me, id, now, req).value.posts;
      id in b && b == t.posts[id := b[id]] && Attached(t.posts, b[id]) && b[id].status == Processing
  {
  }

  lemma AttachedRoot(a: map<PostId, Post>, id: PostId, post: Post)
    requires RootsOk(a) && id !in a && Attached(a, post)
    ensures RootOk(a[id := post], id)
  {
    var b := a[id := post];
    if post.parent.None? {
      assert RootPath(b, id, [id]) && Indexed(b, id, [id]);
    } else {
      var parent := post.parent.value;
      assert RootOk(a, parent);
      var path :| RootPath(a, parent, path) && Indexed(a, parent, path);
      var longer := [id] + path;
      LongerPath(a, id, post, path);
      PathStep(a, parent, path);
      assert Indexed(b, id, longer);
    }
  }

  lemma LongerPath(a: map<PostId, Post>, id: PostId, post: Post, path: seq<PostId>)
    requires id !in a && post.parent.Some? && RootPath(a, post.parent.value, path)
    ensures RootPath(a[id := post], id, [id] + path)
  {
    var longer := [id] + path;
    assert forall i :: 0 < i < |longer| ==> longer[i] == path[i - 1];
  }

  lemma RootsKept(t: Tables, e: Event)
    requires RootsOk(t.posts)
    ensures RootsOk(Step(t, e).posts)
  {
    var b := Step(t, e).posts;
    StepEvolves(t, e);
    forall p | p in b
      ensures RootOk(b, p)
    {
      if p in t.posts {
        RootEvolves(t.posts, b, p);
      } else {
        CreatedAttached(t, e.me, p, e.now, e.req);
        AttachedRoot(t.posts, p, b[p]);
      }
    }
  }

  /** In every reachable store each parent chain is finite and `root_id` is its end. */
  lemma {:induction false} RootsAlways(es: seq<Event>)
    ensures RootsOk(Run(EMPTY, es).posts)
  {
    if es != [] {
      RootsAlways(es[..|es| - 1]);
      RootsKept(Run(EMPTY, es[..|es| - 1]), es[|es| - 1]);
    }
  }

  lemma PathStep(posts: map<PostId, Post>, p: PostId, path: seq<PostId>)
    requires RootPath(posts, p, path)
    ensures |path| == 1 <==> posts[p].parent.None?
    ensures |path| > 1 ==> posts[p].parent == Some(path[1]) && RootPath(posts, path[1], path[1..])
  {
    if |path| > 1 {
      assert posts[path[0]].parent == Some(path[1]);
    }
  }

  /** Parent links are functional, so a post has one path to one root. */
  lemma {:induction false} PathUnique(posts: map<PostId, Post>, p: PostId, a: seq<PostId>, b: seq<PostId>)
    requires RootPath(posts, p, a) && RootPath(posts, p, b)
    ensures a == b
    decreases |a|
  {
    PathStep(posts, p, a);
    PathStep(posts, p, b);
    if |a| > 1 {
      PathUnique(posts, a[1], a[1..], b[1..]);
      assert a == [a[0]] + a[1..] && b == [b[0]] + b[1..];
    }
  }
}
