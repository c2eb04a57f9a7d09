/** The flat thread query: one indexed select stands for the recursive definition of a thread. */
module ThreadIndex {
  import opened Options
  import opened SocialModel
  import opened SocialRuns
  import opened References

  /** The root that a stored row names. */
  function StoredRoot(posts: map<PostId, Post>, p: PostId): PostId
    requires p in posts
  {
    if posts[p].root.Some? then posts[p].root.value else p
  }

  /** WHERE live AND (id = root OR root_id = root). */
  function ThreadSelect(posts: map<PostId, Post>, root: PostId): set<PostId> {
    set p | p in posts && posts[p].Live() && (p == root || posts[p].root == Some(root))
  }

  /** The recursive definition: climbing from `p` ends at `root`. */
  ghost predicate BelongsTo(posts: map<PostId, Post>, p: PostId, root: PostId) {
    exists path :: RootPath(posts, p, path) && path[|path| - 1] == root
  }

  lemma StoredRootIsRoot(posts: map<PostId, Post>, p: PostId, root: PostId)
    requires RootsOk(posts) && p in posts
    ensures BelongsTo(posts, p, root) <==> StoredRoot(posts, p) == root
  {
    assert RootOk(posts, p);
    var path :| RootPath(posts, p, path) && Indexed(posts, p, path);
    PathStep(posts, p, path);
    if BelongsTo(posts, p, root) {
      var other :| RootPath(posts, p, other) && other[|other| - 1] == root;
      PathUnique(posts, p, path, other);
    }
  }

  /** In every reachable store, the flat select for a post's thread returns exactly the live posts that climb to the
      same parentless post, whatever was deleted, published or interleaved in between. */
  lemma FlatSelectIsThread(es: seq<Event>, post: PostId, p: PostId)
    requires post in Run(EMPTY, es).posts
    ensures var posts := Run(EMPTY, es).posts;
      var root := StoredRoot(posts, post);
      && root in posts && posts[root].parent.None?
      && (p in ThreadSelect(posts, root) <==> p in posts && posts[p].Live() && BelongsTo(posts, p, root))
      && (p in ThreadSelect(posts, root) ==> posts[p].visibility == posts[root].visibility)
  {
    var posts := Run(EMPTY, es).posts;
    RootsAlways(es);
    var root := StoredRoot(posts, post);
    StoredRootIsRoot(posts, post, root);
    var path :| RootPath(posts, post, path) && path[|path| - 1] == root;
    assert RootPath(posts, root, [root]);
    assert BelongsTo(posts, root, root);
    StoredRootIsRoot(posts, root, root);
    if p in posts {
      StoredRootIsRoot(posts, p, root);
      VisibilityOfRoot(posts, p, root);
      assert posts[p].root == Some(root) || p == root <==> StoredRoot(posts, p) == root;
    }
  }

  lemma VisibilityOfRoot(posts: map<PostId, Post>, p: PostId, root: PostId)
    requires RootsOk(posts) && p in posts && root in posts
    ensures BelongsTo(posts, p, root) ==> posts[p].visibility == posts[root].visibility
  {
    assert RootOk(posts, p);
    var path :| RootPath(posts, p, path) && Indexed(posts, p, path);
    if BelongsTo(posts, p, root) {
      var other :| RootPath(posts, p, other) && other[|other| - 1] == root;
      PathUnique(posts, p, path, other);
    }
  }
}
