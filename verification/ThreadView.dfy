/** The thread page: the selected posts, filtered by policy, closed under visible ancestors and sorted. */
module ThreadView {
  import opened Options
  import opened SocialModel
  import opened SocialRuns
  import opened References
  import opened ThreadIndex
  import opened Sorting

  /** The rows of a list of ids. */
  function Kept(posts: map<PostId, Post>, items: seq<PostId>): map<PostId, Post> {
    map p | p in posts && p in items :: posts[p]
  }

  /** A post survives when it and all its ancestors up to a parentless one are in the table. */
  ghost predicate Survives(kept: map<PostId, Post>, p: PostId) {
    exists path :: RootPath(kept, p, path)
  }

  /** Every parentless post is in `s`, and so is every post whose parent is. */
  ghost predicate Closed(kept: map<PostId, Post>, s: set<PostId>) {
    forall p :: p in kept ==>
      && (kept[p].parent.None? ==> p in s)
      && (kept[p].parent.Some? && kept[p].parent.value in s ==> p in s)
  }

  lemma {:induction false} SurvivorsInClosed(kept: map<PostId, Post>, s: set<PostId>, p: PostId, path: seq<PostId>)
    requires Closed(kept, s) && RootPath(kept, p, path)
    ensures p in s
    decreases |path|
  {
    PathStep(kept, p, path);
    if |path| > 1 {
      SurvivorsInClosed(kept, s, path[1], path[1..]);
    }
  }

  ghost predicate AllSurvive(kept: map<PostId, Post>, s: set<PostId>) {
    forall p :: p in s ==> Survives(kept, p)
  }

  lemma ChildSurvives(kept: map<PostId, Post>, p: PostId, s: set<PostId>)
    requires AllSurvive(kept, s) && p in kept && kept[p].parent.Some? && kept[p].parent.value in s
    ensures AllSurvive(kept, s + {p})
  {
    assert Survives(kept, kept[p].parent.value);
    var path :| RootPath(kept, kept[p].parent.value, path);
    var longer := [p] + path;
    assert forall i :: 0 < i < |longer| ==> longer[i] == path[i - 1];
    assert RootPath(kept, p, longer);
  }

  lemma RootsSurvive(kept: map<PostId, Post>, roots: set<PostId>)
    requires forall p :: p in roots ==> p in kept && kept[p].parent.None?
    ensures AllSurvive(kept, roots)
  {
    forall p | p in roots
      ensures Survives(kept, p)
    {
      assert RootPath(kept, p, [p]);
    }
  }

  /** A closed set of survivors is the least closed set, and holds exactly the survivors. */
  lemma ClosureIsLeast(kept: map<PostId, Post>, visible: set<PostId>)
    requires Closed(kept, visible) && AllSurvive(kept, visible)
    ensures forall p :: p in visible <==> Survives(kept, p)
    ensures forall s :: Closed(kept, s) ==> visible <= s
  {
    forall s, p | Closed(kept, s) && Survives(kept, p)
      ensures p in s
    {
      var path :| RootPath(kept, p, path);
      SurvivorsInClosed(kept, s, p, path);
    }
  }

  /** The post has nothing left to inherit from its parent. */
  predicate Settled(posts: map<PostId, Post>, p: PostId, visible: set<PostId>) {
    p in posts && (posts[p].parent.Some? && posts[p].parent.value in visible ==> p in visible)
  }

  /** One pass over the items: every post whose parent is visible becomes visible. */
  method VisiblePass(posts: map<PostId, Post>, items: seq<PostId>, visible: set<PostId>)
    returns (next: set<PostId>, changed: bool)
    requires forall p :: p in items ==> p in posts
    requires visible <= Kept(posts, items).Keys && AllSurvive(Kept(posts, items), visible)
    ensures visible <= next <= Kept(posts, items).Keys && AllSurvive(Kept(posts, items), next)
    ensures if changed then visible < next
            else visible == next && forall j :: 0 <= j < |items| ==> Settled(posts, items[j], visible)
  {
    next, changed := visible, false;
    for i := 0 to |items|
      invariant visible <= next <= Kept(posts, items).Keys && AllSurvive(Kept(posts, items), next)
      invariant if changed then visible < next
                else visible == next && forall j :: 0 <= j < i ==> Settled(posts, items[j], visible)
    {
      var item := items[i];
      if item !in next && posts[item].parent.Some? && posts[item].parent.value in next {
        ChildSurvives(Kept(posts, items), item, next);
        next := next + {item};
        changed := true;
      }
    }
  }

  /** The closure loop. Its result is the least closed set, which does not depend on the order of `items`. */
  method CloseThread(posts: map<PostId, Post>, items: seq<PostId>) returns (visible: set<PostId>)
    requires forall p :: p in items ==> p in posts
    ensures forall p :: p in visible <==> Survives(Kept(posts, items), p)
    ensures Closed(Kept(posts, items), visible)
    ensures forall s :: Closed(Kept(posts, items), s) ==> visible <= s
  {
    ghost var kept := Kept(posts, items);
    visible := set p | p in items && posts[p].parent.None?;
    RootsSurvive(kept, visible);
    var changed := true;
    while changed
      invariant visible <= kept.Keys && AllSurvive(kept, visible)
      invariant forall p :: p in items && posts[p].parent.None? ==> p in visible
      invariant !changed ==> forall j :: 0 <= j < |items| ==> Settled(posts, items[j], visible)
      decreases kept.Keys - visible, changed
    {
      visible, changed := VisiblePass(posts, items, visible);
    }
    assert Closed(kept, visible);
    ClosureIsLeast(kept, visible);
  }

  /** Hiding one post removes exactly the posts that climb through it. */
  lemma HidingRemovesSubtree(kept: map<PostId, Post>, hidden: PostId, p: PostId, path: seq<PostId>)
    requires RootPath(kept, p, path)
    ensures Survives(kept - {hidden}, p) <==> hidden !in path
  {
    var rest := kept - {hidden};
    if hidden !in path {
      assert RootPath(rest, p, path);
    }
    if Survives(rest, p) {
      var other :| RootPath(rest, p, other);
      assert RootPath(kept, p, other);
      PathUnique(kept, p, path, other);
    }
  }

  // ----- The whole page

  /** The sort key of a thread item: the root first, then replies by time and id. */
  function ThreadKey(posts: map<PostId, Post>, p: PostId): (bool, int, nat) {
    if p in posts then (posts[p].parent.Some?, posts[p].createdAt, p) else (true, 0, p)
  }

  predicate KeyLe(a: (bool, int, nat), b: (bool, int, nat)) {
    (!a.0 && b.0) || (a.0 == b.0 && (a.1 < b.1 || (a.1 == b.1 && a.2 <= b.2)))
  }

  function ThreadOrder(posts: map<PostId, Post>): (PostId, PostId) -> bool {
    (a: PostId, b: PostId) => KeyLe(ThreadKey(posts, a), ThreadKey(posts, b))
  }

  /** `p` is shown on the page of `root`: its chain reaches the root through live posts that the policy lets through. */
  ghost predicate Shown(posts: map<PostId, Post>, root: PostId, passes: set<PostId>, p: PostId) {
    exists path :: ShownBy(posts, root, passes, p, path)
  }

  ghost predicate ShownBy(posts: map<PostId, Post>, root: PostId, passes: set<PostId>, p: PostId, path: seq<PostId>) {
    && RootPath(posts, p, path) && path[|path| - 1] == root
    && forall i :: 0 <= i < |path| ==> posts[path[i]].Live() && path[i] in passes
  }

  lemma {:induction false} PathStaysInThread(posts: map<PostId, Post>, p: PostId, path: seq<PostId>, i: nat)
    requires RootsOk(posts) && RootPath(posts, p, path) && i < |path|
    ensures StoredRoot(posts, path[i]) == path[|path| - 1]
    decreases i
  {
    if i == 0 {
      assert BelongsTo(posts, p, path[|path| - 1]);
      StoredRootIsRoot(posts, p, path[|path| - 1]);
    } else {
      PathStep(posts, p, path);
      PathStaysInThread(posts, path[1], path[1..], i - 1);
    }
  }

  lemma SurvivesIsShown(posts: map<PostId, Post>, items: seq<PostId>, root: PostId, passes: set<PostId>, p: PostId)
    requires RootsOk(posts)
    requires forall q :: q in items <==> q in ThreadSelect(posts, root) && q in passes
    ensures Survives(Kept(posts, items), p) <==> Shown(posts, root, passes, p)
  {
    var kept := Kept(posts, items);
    if Survives(kept, p) {
      var path :| RootPath(kept, p, path);
      assert RootPath(posts, p, path);
      PathStaysInThread(posts, p, path, 0);
      assert p in items;
      assert ShownBy(posts, root, passes, p, path);
    }
    if Shown(posts, root, passes, p) {
      var path :| ShownBy(posts, root, passes, p, path);
      forall i | 0 <= i < |path|
        ensures path[i] in items
      {
        PathStaysInThread(posts, p, path, i);
      }
      assert RootPath(kept, p, path);
    }
  }

  /** What the page holds: the shown posts, each once, in thread order. */
  ghost predicate IsPage(posts: map<PostId, Post>, root: PostId, passes: set<PostId>, page: seq<PostId>) {
    && SortedBy(ThreadOrder(posts), page)
    && Distinct(page)
    && (forall p :: p in page <==> Shown(posts, root, passes, p))
  }

  /** GET /posts/{id}/thread. `rows` is what the database returned for the thread, in any order; `passes` holds the
      posts that the thread policy does not drop. */
  method GetThread(t: Tables, post: PostId, rows: seq<PostId>, passes: set<PostId>) returns (r: Result<seq<PostId>>)
    requires RootsOk(t.posts) && Distinct(rows)
    requires t.IsLive(post) ==> forall p :: p in rows <==> p in ThreadSelect(t.posts, StoredRoot(t.posts, post))
    ensures !t.IsLive(post) ==> r == Failure(404)
    ensures t.IsLive(post) ==>
      r.Success? && IsPage(t.posts, StoredRoot(t.posts, post), passes, r.value)
  {
    if !t.IsLive(post) {
      return Failure(404);
    }
    var root := StoredRoot(t.posts, post);
    var passed := KeepPassing(rows, passes);
    var visible := CloseThread(t.posts, passed);
    var isVisible := (p: PostId) => p in visible;
    PageIsShown(t.posts, root, passes, passed, visible, isVisible);
    r := Success(StableSort(ThreadOrder(t.posts), Filter(isVisible, passed)));
  }

  /** The policy pass over the rows. */
  method KeepPassing(rows: seq<PostId>, passes: set<PostId>) returns (passed: seq<PostId>)
    requires Distinct(rows)
    ensures forall p :: p in passed <==> p in rows && p in passes
    ensures Distinct(passed)
  {
    passed := [];
    for i := 0 to |rows|
      invariant forall p :: p in passed <==> p in rows[..i] && p in passes
      invariant Distinct(passed)
    {
      if rows[i] in passes {
        assert rows[i] !in rows[..i];
        passed := passed + [rows[i]];
      }
    }
    assert rows[..|rows|] == rows;
  }

  lemma SurvivorIsKept(kept: map<PostId, Post>, p: PostId)
    requires Survives(kept, p)
    ensures p in kept
  {
    var path :| RootPath(kept, p, path);
    assert path[0] in kept;
  }

  lemma PageIsShown(posts: map<PostId, Post>, root: PostId, passes: set<PostId>, passed: seq<PostId>,
                    visible: set<PostId>, f: PostId -> bool)
    requires RootsOk(posts) && Distinct(passed)
    requires forall q :: q in passed <==> q in ThreadSelect(posts, root) && q in passes
    requires forall p :: p in visible <==> Survives(Kept(posts, passed), p)
    requires forall p :: f(p) <==> p in visible
    ensures IsPage(posts, root, passes, StableSort(ThreadOrder(posts), Filter(f, passed)))
  {
    var inThread := Filter(f, passed);
    StableSortSorts(ThreadOrder(posts), inThread);
    StableSortMembers(ThreadOrder(posts), inThread);
    FilterMembers(f, passed);
    FilterDistinct(f, passed);
    forall p
      ensures p in inThread <==> Shown(posts, root, passes, p)
    {
      SurvivesIsShown(posts, passed, root, passes, p);
      if Survives(Kept(posts, passed), p) {
        SurvivorIsKept(Kept(posts, passed), p);
      }
    }
  }

  // ----- The order of the page

  lemma ShownRoots(posts: map<PostId, Post>, root: PostId, passes: set<PostId>, p: PostId)
    requires Shown(posts, root, passes, p)
    ensures p in posts && Shown(posts, root, passes, root)
    ensures posts[p].parent.None? <==> p == root
  {
    var path :| ShownBy(posts, root, passes, p, path);
    PathStep(posts, p, path);
    assert ShownBy(posts, root, passes, root, [root]);
  }

  lemma HeadFirst(posts: map<PostId, Post>, page: seq<PostId>, k: nat)
    requires SortedBy(ThreadOrder(posts), page) && k < |page|
    ensures page[0] == page[k] || KeyLe(ThreadKey(posts, page[0]), ThreadKey(posts, page[k]))
  {
    assert k > 0 ==> ThreadOrder(posts)(page[0], page[k]);
  }

  /** `a` stands above `b`: earlier, or at the same time with the smaller id. */
  predicate Earlier(posts: map<PostId, Post>, a: PostId, b: PostId)
    requires a in posts && b in posts
  {
    posts[a].createdAt < posts[b].createdAt || (posts[a].createdAt == posts[b].createdAt && a < b)
  }

  /** A thread page that is not empty starts with the root; the replies follow by time, those of one moment by id. */
  lemma PageOrder(posts: map<PostId, Post>, root: PostId, passes: set<PostId>, page: seq<PostId>)
    requires IsPage(posts, root, passes, page)
    ensures forall p :: p in page ==> p in posts
    ensures page != [] ==> page[0] == root
    ensures forall i, j :: 1 <= i < j < |page| ==> Earlier(posts, page[i], page[j])
  {
    forall p | p in page
      ensures p in posts && root in page && (posts[p].parent.None? <==> p == root)
    {
      ShownRoots(posts, root, passes, p);
    }
    if page != [] {
      assert page[0] in page;
      assert root in page;
      var k :| 0 <= k < |page| && page[k] == root;
      HeadFirst(posts, page, k);
    }
    forall i, j | 1 <= i < j < |page|
      ensures Earlier(posts, page[i], page[j])
    {
      assert page[i] in page && page[j] in page && page[i] != page[j] && page[0] != page[i] && page[0] != page[j];
      assert ThreadOrder(posts)(page[i], page[j]);
    }
  }
}
