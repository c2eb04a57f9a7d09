/** Follows, blocks, likes and deletions on the plain columns: when each is refused, and exactly which rows it changes. */
module RequestEffects {
  import opened Options
  import opened Keyset
  import opened SocialModel
  import opened Requests
  import opened SocialRuns
  import opened FeedCache
  import opened FeedSources
  import opened PostCreation

  // ----- Accounts

  /** A new user has the chosen setting, and the setting of a user can be changed; nothing else changes. */
  lemma AccountAnswer(t: Tables, u: UserId, isPrivate: bool)
    ensures var r := Attempt(t, SignUp(u, isPrivate));
      && (r.Success? <==> u !in t.users) && (r.Failure? ==> r.code == 409)
      && (r.Success? ==> r.value == t.(users := t.users[u := UserRow(isPrivate)]))
    ensures var r := Attempt(t, SetPrivate(u, isPrivate));
      && (r.Success? <==> u in t.users) && (r.Failure? ==> r.code == 401)
      && (r.Success? ==> r.value == t.(users := t.users[u := UserRow(isPrivate)]))
  {
  }

  // ----- Follow and unfollow

  lemma FollowAnswer(t: Tables, me: UserId, other: UserId)
    ensures var r := FollowUser(t, me, other);
      && (r.Success? <==>
           && me in t.users && other in t.users && me != other
           && (me, other) !in t.blocks && (other, me) !in t.blocks && (me, other) !in t.follows)
      && (r == Failure(401) <==> me !in t.users)
      && (r == Failure(404) <==> me in t.users && other !in t.users)
      && (r == Failure(400) <==>
           me in t.users && other in t.users && (me == other || (me, other) in t.blocks || (other, me) in t.blocks))
      && (r == Failure(409) <==>
           && me in t.users && other in t.users && me != other
           && (me, other) !in t.blocks && (other, me) !in t.blocks && (me, other) in t.follows)
  {
  }

  /** The live posts of the author of `p` that are listed before `p`: later ones, and of equal time those with larger id. */
  function NewerOnes(t: Tables, p: PostId): set<PostId>
    requires p in t.posts
  {
    set q | q in t.posts && PublishedAndThere(t, q) && t.posts[q].author == t.posts[p].author
      && (t.posts[q].createdAt > t.posts[p].createdAt || (t.posts[q].createdAt == t.posts[p].createdAt && q > p))
  }

  predicate AmongNewest(t: Tables, author: UserId, p: PostId, n: nat) {
    PublishedAndThere(t, p) && t.posts[p].author == author && |NewerOnes(t, p)| < n
  }

  lemma SubsetSize<T>(a: set<T>, b: set<T>)
    requires a <= b
    ensures |a| <= |b|
  {
    assert b == a + (b - a);
  }

  lemma StrictSubsetSize<T>(a: set<T>, b: set<T>, x: T)
    requires a <= b && x in b && x !in a
    ensures |a| < |b|
  {
    SubsetSize(a + {x}, b);
  }

  /** The backfill takes the posts with fewer than `n` newer ones. */
  lemma BackfillIsNewest(t: Tables, author: UserId, n: nat, p: PostId)
    ensures p in Backfilled(t, author, n) <==> AmongNewest(t, author, p, n)
  {
    var top := Take(Ordered(LiveKeys(t, author)), n);
    TopKeys(t, author, n);
    if PublishedAndThere(t, p) && t.posts[p].author == author {
      assert p in LivePosts(t, author) && KeyOf(t, p) in LiveKeys(t, author);
      if p in Backfilled(t, author, n) {
        NewerAreBackfilled(t, author, n, p);
        StrictSubsetSize(NewerOnes(t, p), Backfilled(t, author, n), p);
      } else {
        BackfillMisses(t, author, n, p);
        SubsetSize(Backfilled(t, author, n), NewerOnes(t, p));
      }
    }
  }

  lemma NewerAreBackfilled(t: Tables, author: UserId, n: nat, p: PostId)
    requires p in Backfilled(t, author, n)
    ensures NewerOnes(t, p) <= Backfilled(t, author, n)
  {
    forall q | q in NewerOnes(t, p)
      ensures q in Backfilled(t, author, n)
    {
      assert q in LivePosts(t, author);
      if q !in Backfilled(t, author, n) {
        BackfillMisses(t, author, n, q);
      }
    }
  }

  /** A follow adds the edge, one notification to the followed user, and a feed row for each of the 50 newest live posts of
      that user that had none; nothing else changes. */
  lemma FollowEffect(t: Tables, me: UserId, other: UserId)
    requires FollowUser(t, me, other).Success?
    ensures var next := FollowUser(t, me, other).value;
      && next == t.(follows := t.follows + {(me, other)}, notices := t.notices + multiset{Followed(other, me)}, feed := next.feed)
      && (forall k :: k in next.feed <==> k in t.feed || (k.0 == me && AmongNewest(t, other, k.1, 50)))
      && (forall k :: k in t.feed ==> next.feed[k] == t.feed[k])
      && (forall k :: k in next.feed && k !in t.feed ==>
           next.feed[k].author == other && next.feed[k].createdAt == t.posts[k.1].createdAt)
  {
    forall p: PostId
      ensures p in Backfilled(t, other, BACKFILL_LIMIT) <==> AmongNewest(t, other, p, 50)
    {
      BackfillIsNewest(t, other, BACKFILL_LIMIT, p);
    }
  }

  /** Unfollowing needs the edge and removes it with every feed row of that author; nothing else changes. */
  lemma UnfollowAnswer(t: Tables, me: UserId, other: UserId)
    ensures var r := UnfollowUser(t, me, other);
      && (r.Success? <==> (me, other) in t.follows)
      && (r.Failure? ==> r.code == 404)
      && (r.Success? ==>
           && r.value == t.(follows := t.follows - {(me, other)}, feed := r.value.feed)
           && (forall k :: k in r.value.feed <==> k in t.feed && !(k.0 == me && t.feed[k].author == other))
           && (forall k :: k in r.value.feed ==> r.value.feed[k] == t.feed[k]))
  {
  }

  // ----- Block and unblock

  predicate LostByBlock(t: Tables, me: UserId, other: UserId, k: (UserId, PostId))
    requires k in t.feed
  {
    || ((me, other) in t.follows && k.0 == me && t.feed[k].author == other)
    || ((other, me) in t.follows && k.0 == other && t.feed[k].author == me)
  }

  /** A block is refused without an account, of oneself, of an unknown user, or twice. It removes the follow edges in both
      directions with the feed rows they stand for; nothing else changes. */
  lemma BlockAnswer(t: Tables, me: UserId, other: UserId)
    ensures var r := BlockUser(t, me, other);
      && (r.Success? <==> me in t.users && other in t.users && me != other && (me, other) !in t.blocks)
      && (r == Failure(401) <==> me !in t.users)
      && (r == Failure(400) <==> me in t.users && me == other)
      && (r == Failure(404) <==> me in t.users && me != other && other !in t.users)
      && (r == Failure(409) <==> me in t.users && me != other && other in t.users && (me, other) in t.blocks)
      && (r.Success? ==>
           && r.value == t.(blocks := t.blocks + {(me, other)}, follows := t.follows - {(me, other), (other, me)},
                            feed := r.value.feed)
           && (forall k :: k in r.value.feed <==> k in t.feed && !LostByBlock(t, me, other, k))
           && (forall k :: k in r.value.feed ==> r.value.feed[k] == t.feed[k]))
  {
    if BlockUser(t, me, other).Success? {
      var once := CutEdge(t, me, other);
      CutEffect(t, me, other);
      CutEffect(once, other, me);
      assert BlockUser(t, me, other).value == CutEdge(once, other, me).(blocks := t.blocks + {(me, other)});
      assert t.follows - {(me, other), (other, me)} == t.follows - {(me, other)} - {(other, me)};
    }
  }

  lemma CutEffect(t: Tables, a: UserId, b: UserId)
    ensures var next := CutEdge(t, a, b);
      && next == t.(follows := t.follows - {(a, b)}, feed := next.feed)
      && (forall k :: k in next.feed <==> k in t.feed && !((a, b) in t.follows && k.0 == a && t.feed[k].author == b))
      && (forall k :: k in next.feed ==> next.feed[k] == t.feed[k])
  {
  }

  lemma UnblockAnswer(t: Tables, me: UserId, other: UserId)
    ensures var r := UnblockUser(t, me, other);
      && (r.Success? <==> (me, other) in t.blocks) && (r.Failure? ==> r.code == 404)
      && (r.Success? ==> r.value == t.(blocks := t.blocks - {(me, other)}))
  {
  }

  // ----- Like and unlike

  ghost predicate LikeFinds(t: Tables, p: PostId) {
    PublishedAndThere(t, p) && PublishedAndThere(t, Original(t, p))
  }

  function LikesOf(t: Tables, p: PostId): int {
    if p in t.engagement then t.engagement[p].likes else 0
  }

  /** Only the like counter of `p` may differ; a row that was missing starts at zero. */
  ghost predicate OnlyLikes(a: map<PostId, Engagement>, b: map<PostId, Engagement>, p: PostId) {
    && (forall q :: q in b <==> q in a || q == p)
    && (forall q :: q in a && q != p ==> b[q] == a[q])
    && (if p in a then b[p].replies == a[p].replies && b[p].reposts == a[p].reposts
        else b[p].replies == 0 && b[p].reposts == 0)
  }

  /** A like goes to the original, which must be live, by another author and not yet liked. It stores the like, raises the
      counter by one and notifies the author; nothing else changes. Blocks and private accounts play no part. */
  lemma LikeAnswer(t: Tables, me: UserId, p: PostId)
    ensures var r := LikePost(t, me, p);
      && (r == Failure(401) <==> me !in t.users)
      && (r == Failure(404) <==> me in t.users && !LikeFinds(t, p))
      && (me in t.users && LikeFinds(t, p) ==>
           var o := Original(t, p);
           && (r.Success? <==> t.posts[o].author != me && (me, o) !in t.likes)
           && (r == Failure(400) <==> t.posts[o].author == me)
           && (r == Failure(409) <==> t.posts[o].author != me && (me, o) in t.likes)
           && (r.Success? ==>
                && r.value == t.(likes := t.likes + {(me, o)}, engagement := r.value.engagement,
                                 notices := t.notices + multiset{PostLiked(t.posts[o].author, o, me)})
                && OnlyLikes(t.engagement, r.value.engagement, o)
                && LikesOf(r.value, o) == LikesOf(t, o) + 1))
  {
    assert t.IsLive(p) <==> PublishedAndThere(t, p);
    if PublishedAndThere(t, p) {
      assert t.IsLive(Original(t, p)) <==> PublishedAndThere(t, Original(t, p));
    }
  }

  /** What an unlike of `p` takes back: the like of `p` itself, or else of the original that `p` reposts. */
  predicate Unlikes(t: Tables, me: UserId, p: PostId, q: PostId) {
    && (me, q) in t.likes
    && (q == p || ((me, p) !in t.likes && p in t.posts && t.posts[p].repostOf == Some(q)))
  }

  lemma UnlikeAnswer(t: Tables, me: UserId, p: PostId)
    ensures var r := UnlikePost(t, me, p);
      && (r.Success? <==> exists q :: Unlikes(t, me, p, q)) && (r.Failure? ==> r.code == 404)
      && (forall q :: Unlikes(t, me, p, q) ==>
           && r.value == t.(likes := t.likes - {(me, q)}, engagement := r.value.engagement)
           && (q in t.engagement ==> OnlyLikes(t.engagement, r.value.engagement, q))
           && (q !in t.engagement ==> r.value.engagement == t.engagement)
           && LikesOf(r.value, q) == if LikesOf(t, q) > 0 then LikesOf(t, q) - 1 else LikesOf(t, q))
  {
    if (me, p) in t.likes {
      assert Unlikes(t, me, p, p);
    } else if p in t.posts && t.posts[p].repostOf.Some? && (me, t.posts[p].repostOf.value) in t.likes {
      assert Unlikes(t, me, p, t.posts[p].repostOf.value);
    }
  }

  // ----- Deletion

  /** `b` has the rows of `a`, with exactly those of `gone` marked deleted. */
  ghost predicate Deleted(a: map<PostId, Post>, b: map<PostId, Post>, gone: set<PostId>) {
    && a.Keys == b.Keys
    && forall p :: p in a ==> b[p] == if p in gone then a[p].(deleted := true) else a[p]
  }

  /** Only its author may delete a post, and only once; the repost counter of the original falls, not below zero. */
  lemma DeleteAnswer(t: Tables, me: UserId, p: PostId)
    ensures var r := DeletePost(t, me, p);
      && (r.Success? <==> p in t.posts && !t.posts[p].deleted && t.posts[p].author == me)
      && (r == Failure(404) <==> p !in t.posts || t.posts[p].deleted)
      && (r == Failure(403) <==> p in t.posts && !t.posts[p].deleted && t.posts[p].author != me)
      && (r.Success? ==>
           && r.value == t.(posts := r.value.posts, engagement := r.value.engagement)
           && Deleted(t.posts, r.value.posts, {p})
           && r.value.engagement.Keys == t.engagement.Keys
           && forall q :: q in t.engagement ==>
                r.value.engagement[q] == t.engagement[q].(reposts := if t.posts[p].repostOf == Some(q) && t.engagement[q].reposts > 0
                                                                     then t.engagement[q].reposts - 1
                                                                     else t.engagement[q].reposts))
  {
  }

  /** A moderator hides any post there is, deleted or not. */
  lemma HideAnswer(t: Tables, p: PostId)
    ensures var r := HidePost(t, p);
      && (r.Success? <==> p in t.posts) && (r.Failure? ==> r.code == 404)
      && (r.Success? ==> r.value == t.(posts := r.value.posts) && Deleted(t.posts, r.value.posts, {p}))
  {
  }

  /** Erasing an account deletes exactly its posts. */
  lemma EraseEffect(t: Tables, me: UserId)
    ensures var next := ErasePosts(t, me);
      && next == t.(posts := next.posts)
      && Deleted(t.posts, next.posts, set p | p in t.posts && t.posts[p].author == me)
  {
  }

  // ----- Labels by moderators

  /** The label text has one to sixty-four characters and the reason at most two thousand; then the one row is written,
      whether or not there is such a post. */
  lemma LabelWriteAnswer(t: Tables, p: PostId, kind: Label, reason: string)
    ensures var r := WritePostLabel(t, p, kind, reason);
      && (r.Success? <==> |reason| <= 2000 && (kind.Other? ==> 0 < |kind.name| < 65))
      && (r.Failure? ==> r.code == 422)
      && (r.Success? ==>
           && r.value == t.(labels := r.value.labels) && r.value.labels.Keys == t.labels.Keys + {(p, kind)}
           && r.value.labels[(p, kind)] == reason
           && forall k :: k in t.labels && k != (p, kind) ==> r.value.labels[k] == t.labels[k])
  {
  }
}
