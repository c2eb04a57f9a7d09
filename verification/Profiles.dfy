/** The posts and replies tabs of a profile, page by page, while the store keeps changing. */
module Profiles {
  import opened Options
  import opened Keyset
  import opened Pagination
  import opened SocialModel
  import opened Requests
  import opened SocialRuns

  predicate IsSelf(viewer: Option<UserId>, user: UserId) {
    viewer == Some(user)
  }

  predicate ViewerFollows(t: Tables, viewer: Option<UserId>, user: UserId) {
    viewer.Some? && viewer.value != user && Follows(t, viewer.value, user)
  }

  /** The profile exists and is not private, or is the viewer's own, or one the viewer follows. */
  predicate IsOpen(t: Tables, viewer: Option<UserId>, user: UserId) {
    user in t.users && (!t.users[user].isPrivate || IsSelf(viewer, user) || ViewerFollows(t, viewer, user))
  }

  /** A profile tab shows the viewer this post. */
  predicate OnTab(t: Tables, viewer: Option<UserId>, user: UserId, replies: bool, p: PostId) {
    && IsOpen(t, viewer, user)
    && t.IsLive(p) && t.posts[p].author == user
    && t.posts[p].parent.Some? == replies
    && (IsSelf(viewer, user) || ViewerFollows(t, viewer, user) || t.posts[p].visibility == Public)
  }

  function TabKeys(t: Tables, viewer: Option<UserId>, user: UserId, replies: bool): set<Key> {
    set p | p in t.posts && OnTab(t, viewer, user, replies, p) :: KeyOf(t, p)
  }

  predicate PublishedBy(t: Tables, user: UserId, p: PostId) {
    p in t.posts && t.posts[p].author == user && t.posts[p].status == Published && !t.posts[p].deleted
  }

  /** Which tab a post belongs to: replies have a parent. */
  predicate BelongsOn(t: Tables, replies: bool, p: PostId) {
    p in t.posts && (replies <==> t.posts[p].parent.Some?)
  }

  /** The owner and followers see all of a tab; strangers and anonymous viewers see the public posts of an account that is
      not private. */
  lemma TabAudience(t: Tables, viewer: Option<UserId>, user: UserId, replies: bool, p: PostId)
    ensures user !in t.users ==> !OnTab(t, viewer, user, replies, p)
    ensures user in t.users && (viewer == Some(user) || (viewer.Some? && (viewer.value, user) in t.follows)) ==>
      (OnTab(t, viewer, user, replies, p) <==> PublishedBy(t, user, p) && BelongsOn(t, replies, p))
    ensures user in t.users && viewer != Some(user) && (viewer.Some? ==> (viewer.value, user) !in t.follows) ==>
      (OnTab(t, viewer, user, replies, p) <==>
        PublishedBy(t, user, p) && BelongsOn(t, replies, p) && !t.users[user].isPrivate && t.posts[p].visibility == Public)
  {
  }

  lemma ClosedTabIsEmpty(t: Tables, viewer: Option<UserId>, user: UserId, replies: bool, cursor: Option<Key>, limit: nat)
    requires !IsOpen(t, viewer, user)
    ensures Served(TabKeys(t, viewer, user, replies), cursor, limit) == ([], None)
  {
    assert Below(TabKeys(t, viewer, user, replies), cursor) == {};
  }

  /** GET /users/{handle}/posts: the keys of a page of the tab, and the cursor of the next one. */
  method GetUserPosts(t: Tables, viewer: Option<UserId>, user: UserId, replies: bool, cursor: Option<Key>, limit: nat)
    returns (r: Result<(seq<Key>, Option<Key>)>)
    ensures r == if user in t.users then Success(Served(TabKeys(t, viewer, user, replies), cursor, limit)) else Failure(404)
  {
    if user !in t.users {
      return Failure(404);
    }
    if t.users[user].isPrivate && !IsSelf(viewer, user) && !ViewerFollows(t, viewer, user) {
      ClosedTabIsEmpty(t, viewer, user, replies, cursor, limit);
      return Success(([], None));
    }
    var rows := Page(TabKeys(t, viewer, user, replies), cursor, limit + 1);
    var page := Take(rows, limit);
    var next := None;
    if |rows| > limit && page != [] {
      next := Some(page[|page| - 1]);
    }
    assert (page, next) == Cut(rows, limit);
    return Success((page, next));
  }

  /** With a fixed store, paging through a tab lists every post on it exactly once, newest first; the tab of a private
      profile has no posts for a stranger. */
  lemma TabEnumerated(t: Tables, viewer: Option<UserId>, user: UserId, replies: bool, limit: nat, p: PostId)
    requires limit >= 1
    ensures var listed := Concat(Walk(TabKeys(t, viewer, user, replies), None, limit));
      && IsDescending(listed)
      && (p in t.posts ==> (KeyOf(t, p) in listed <==> OnTab(t, viewer, user, replies, p)))
      && |Walk(TabKeys(t, viewer, user, replies), None, limit)| == PageCount(|listed|, limit)
  {
    var keys := TabKeys(t, viewer, user, replies);
    WalkEnumerates(keys, None, limit);
    assert Below(keys, None) == keys;
    if p in t.posts && KeyOf(t, p) in keys {
      var q :| q in t.posts && OnTab(t, viewer, user, replies, q) && KeyOf(t, q) == KeyOf(t, p);
    }
  }

  lemma {:induction false} PrefixEvolves(es: seq<Event>, i: nat, j: nat)
    requires i <= j <= |es|
    ensures Evolves(Run(EMPTY, es[..i]).posts, Run(EMPTY, es[..j]).posts)
    decreases j
  {
    if i < j {
      PrefixEvolves(es, i, j - 1);
      assert es[..j][..j - 1] == es[..j - 1];
      StepEvolves(Run(EMPTY, es[..j - 1]), es[j - 1]);
    }
  }

  /** The tab as each request of a walk finds it: request `i` arrives after the first `cuts[i]` events of the run. */
  function TabsOver(es: seq<Event>, cuts: seq<nat>, viewer: Option<UserId>, user: UserId, replies: bool): (r: seq<set<Key>>)
    requires forall i :: 0 <= i < |cuts| ==> cuts[i] <= |es|
    ensures |r| == |cuts|
    ensures forall i :: 0 <= i < |cuts| ==> r[i] == TabKeys(Run(EMPTY, es[..cuts[i]]), viewer, user, replies)
  {
    seq(|cuts|, i requires 0 <= i < |cuts| => TabKeys(Run(EMPTY, es[..cuts[i]]), viewer, user, replies))
  }

  /** Whatever requests and tasks commit between the pages of a walk, a post that is on the tab at every request is listed
      by the time the walk ends, and nothing is listed twice. A profile that closes in between ends the walk, and its
      posts are then no longer on the tab. */
  lemma WalkOverRun(es: seq<Event>, cuts: seq<nat>, viewer: Option<UserId>, user: UserId, replies: bool, limit: nat, p: PostId)
    requires limit >= 1 && cuts != []
    requires forall i :: 0 <= i < |cuts| ==> cuts[0] <= cuts[i] <= |es|
    requires forall i :: 0 <= i < |cuts| ==> OnTab(Run(EMPTY, es[..cuts[i]]), viewer, user, replies, p)
    ensures var (rows, last, done) := Listed(TabsOver(es, cuts, viewer, user, replies), None, limit);
      var start := Run(EMPTY, es[..cuts[0]]);
      && IsDescending(rows)
      && p in start.posts && (done ==> KeyOf(start, p) in rows)
  {
    assert OnTab(Run(EMPTY, es[..cuts[0]]), viewer, user, replies, p);
    var tables := TabsOver(es, cuts, viewer, user, replies);
    var key := KeyOf(Run(EMPTY, es[..cuts[0]]), p);
    WalkOverChanges(tables, None, limit);
    forall i | 0 <= i < |tables|
      ensures key in tables[i]
    {
      var t := Run(EMPTY, es[..cuts[i]]);
      assert OnTab(t, viewer, user, replies, p);
      PrefixEvolves(es, cuts[0], cuts[i]);
      assert key == KeyOf(t, p);
    }
    assert Throughout(tables, key);
    assert Caught(tables, None, limit, key);
  }
}
