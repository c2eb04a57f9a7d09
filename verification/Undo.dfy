/** What the opposite request takes back: follow and unfollow, like and unlike, block and unblock. */
module Undo {
  import opened Options
  import opened SocialModel
  import opened Requests
  import opened Tasks
  import opened SocialRuns
  import opened References
  import opened FeedCache
  import opened Counters
  import opened Database

  // ----- Follow

  lemma RemoveAdded(feed: map<(UserId, PostId), FeedRow>, more: map<(UserId, PostId), FeedRow>, a: UserId, b: UserId)
    requires forall k :: k in feed ==> !(k.0 == a && feed[k].author == b)
    requires forall k :: k in more ==> k.0 == a && more[k].author == b
    ensures WithoutAuthor(more + feed, a, b) == feed
  {
  }

  /** Without the edge no row of the author is in the follower's feed, so deleting the author's rows takes back exactly
      the backfilled ones. */
  lemma BackfillTakenBack(t: Tables, me: UserId, other: UserId)
    requires CacheOk(t) && me != other && !Follows(t, me, other)
    ensures WithoutAuthor(WithRows(t, BackfillRows(t, me, other, BACKFILL_LIMIT)).feed, me, other) == t.feed
  {
    var keys := BackfillRows(t, me, other, BACKFILL_LIMIT);
    forall k | k in t.feed
      ensures !(k.0 == me && t.feed[k].author == other)
    {
      assert GoodRow(t, k);
    }
    RemoveAdded(t.feed, map k | k in keys :: RowOf(t.posts[k.1]), me, other);
  }

  /** From any reachable store: following and unfollowing again changes nothing but the notification. */
  lemma UnfollowUndoesFollow(es: seq<Event>, me: UserId, other: UserId)
    requires Requests.FollowUser(Run(EMPTY, es), me, other).Success?
    ensures var t := Run(EMPTY, es);
      Step(Step(t, Follow(me, other)), Unfollow(me, other)) == t.(notices := t.notices + multiset{Followed(other, me)})
  {
    var t := Run(EMPTY, es);
    CacheAlways(es);
    FollowAddsRows(t, me, other);
    BackfillTakenBack(t, me, other);
    assert t.follows + {(me, other)} - {(me, other)} == t.follows;
  }

  // ----- Like

  lemma LikeThenUnlike(t: Tables, me: UserId, p: PostId)
    requires CountsOk(t) && LikeTargetsOk(t) && ReferencesOk(t.posts) && Requests.LikePost(t, me, p).Success?
    ensures var liked := Requests.LikePost(t, me, p).value;
      var target := LoadReference(t, p).value;
      && Requests.UnlikePost(liked, me, p).Success?
      && Requests.UnlikePost(liked, me, p).value == liked.(
           likes := t.likes, engagement := liked.engagement[target := RowOrZero(t, target)])
  {
    var target := LoadReference(t, p).value;
    var liked := Requests.LikePost(t, me, p).value;
    LikeAdds(t, me, p);
    LikeTargetIsOriginal(t, p);
    assert CountOk(t, target);
    assert target != p ==> (me, p) !in t.likes;
    assert liked.likes - {(me, target)} == t.likes;
  }

  /** From any reachable store: liking and unliking again leaves the likes and all counters as they were; what stays is
      the notification, and possibly a row of zeros. */
  lemma UnlikeUndoesLike(es: seq<Event>, me: UserId, p: PostId)
    requires Requests.LikePost(Run(EMPTY, es), me, p).Success?
    ensures var t := Run(EMPTY, es);
      var after := Step(Step(t, Like(me, p)), Unlike(me, p));
      && after == t.(engagement := after.engagement, notices := after.notices)
      && forall q: PostId :: RowOrZero(after, q) == RowOrZero(t, q)
  {
    var t := Run(EMPTY, es);
    CountsAlways(es);
    ReferencesAlways(es);
    LikeThenUnlike(t, me, p);
    LikeTouches(t, me, p);
  }

  // ----- Block

  /** Unblocking lifts the block alone: the edges in both directions and the rows they brought stay deleted. */
  lemma UnblockRestoresNoEdge(t: Tables, me: UserId, other: UserId)
    requires Requests.BlockUser(t, me, other).Success?
    ensures var edges := {(me, other), (other, me)} * t.follows;
      Step(Step(t, Block(me, other)), Unblock(me, other)) ==
        t.(follows := t.follows - edges, feed := WithoutEdges(t.feed, edges))
  {
    BothCut(t, me, other, {(me, other), (other, me)} * t.follows);
    assert t.blocks + {(me, other)} - {(me, other)} == t.blocks;
  }
}
