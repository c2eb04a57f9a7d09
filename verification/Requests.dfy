/** The user-facing requests: posts, follows, blocks and likes. Each ends in new tables or an HTTP error code. */
module Requests {
  import opened Options
  import opened Keyset
  import opened SocialModel

  const BACKFILL_LIMIT: nat := 50

  datatype PostRequest = PostRequest(
    body: string,
    visibility: Visibility,
    parent: Option<PostId>,
    quoteOf: Option<PostId>,
    repostOf: Option<PostId>)
  {
    function References(): nat {
      (if parent.Some? then 1 else 0) + (if quoteOf.Some? then 1 else 0) + (if repostOf.Some? then 1 else 0)
    }
  }

  /** A public post that refers to nothing. */
  const PLAIN_POST := PostRequest("hello", Public, None, None, None)

  /** Request validation: at most one reference; a repost has no body, anything else must have one, of at most 2000
      characters. */
  function Validated(req: PostRequest): Result<PostRequest> {
    if |req.body| > 2000 || req.References() > 1 then Failure(422)
    else if req.repostOf.Some? then Success(req.(body := ""))
    else if Blank(req.body) then Failure(422)
    else Success(req)
  }

  predicate Follows(t: Tables, a: UserId, b: UserId) {
    (a, b) in t.follows
  }

  /** A private author or a followers-only post is closed to strangers. */
  predicate ClosedTo(t: Tables, viewer: UserId, post: Post) {
    && post.author != viewer
    && !Follows(t, viewer, post.author)
    && ((post.author in t.users && t.users[post.author].isPrivate) || post.visibility == FollowersOnly)
  }

  predicate CanReply(t: Tables, viewer: UserId, parent: Post) {
    parent.author == viewer || (!t.Blocked(viewer, parent.author) && !ClosedTo(t, viewer, parent))
  }

  /** A reference to a repost is redirected to the original post. */
  function LoadReference(t: Tables, p: PostId): (r: Result<PostId>)
    ensures r.Success? ==> t.IsLive(r.value)
  {
    if !t.IsLive(p) then Failure(404)
    else match t.posts[p].repostOf
      case None => Success(p)
      case Some(original) => if t.IsLive(original) then Success(original) else Failure(404)
  }

  /** Resolves an optional quote or repost target and checks that the viewer may see it. */
  function LoadTarget(t: Tables, viewer: UserId, target: Option<PostId>): Result<Option<PostId>> {
    if target.None? then Success(None)
    else
      var p :- LoadReference(t, target.value);
      if ClosedTo(t, viewer, t.posts[p]) then Failure(403) else Success(Some(p))
  }

  predicate AlreadyReposted(t: Tables, viewer: UserId, original: PostId) {
    exists p :: p in t.posts && t.posts[p].author == viewer && t.posts[p].repostOf == Some(original) && !t.posts[p].deleted
  }

  /** The row that a create request stores, or why it is refused. */
  function NewPost(t: Tables, me: UserId, id: PostId, now: int, req: PostRequest): Result<Post> {
    if me !in t.users then Failure(401)
    else
      var r :- Validated(req);
      if r.parent.Some? && !t.IsLive(r.parent.value) then Failure(404)
      else if r.parent.Some? && !CanReply(t, me, t.posts[r.parent.value]) then Failure(403)
      else
        var quoteOf :- LoadTarget(t, me, r.quoteOf);
        var repostOf :- LoadTarget(t, me, r.repostOf);
        if repostOf.Some? && AlreadyReposted(t, me, repostOf.value) then Failure(409)
        else if id in t.posts then Failure(500)
        else
          var (visibility, root) :=
            if r.parent.None? then (r.visibility, None)
            else
              var parent := t.posts[r.parent.value];
              (parent.visibility, if parent.root.Some? then parent.root else r.parent);
          Success(Post(me, r.body, visibility, Processing, now, false, r.parent, root, quoteOf, repostOf))
  }

  function CreatePost(t: Tables, me: UserId, id: PostId, now: int, req: PostRequest): Result<Tables> {
    var row :- NewPost(t, me, id, now, req);
    Success(t.(posts := t.posts[id := row]))
  }

  function DeletePost(t: Tables, me: UserId, p: PostId): Result<Tables> {
    if p !in t.posts || t.posts[p].deleted then Failure(404)
    else if t.posts[p].author != me then Failure(403)
    else
      var gone := t.(posts := t.posts[p := t.posts[p].(deleted := true)]);
      match t.posts[p].repostOf
      case None => Success(gone)
      case Some(original) =>
        if original in t.engagement && t.engagement[original].reposts > 0 then
          var e := t.engagement[original];
          Success(gone.(engagement := t.engagement[original := e.(reposts := e.reposts - 1)]))
        else Success(gone)
  }

  function HidePost(t: Tables, p: PostId): Result<Tables> {
    if p !in t.posts then Failure(404)
    else Success(t.(posts := t.posts[p := t.posts[p].(deleted := true)]))
  }

  /** The part of account erasure that touches posts. */
  function ErasePosts(t: Tables, me: UserId): Tables {
    t.(posts := map p | p in t.posts ::
         if t.posts[p].author == me then t.posts[p].(deleted := true) else t.posts[p])
  }

  /** The keys of an author's live posts. */
  function LiveKeys(t: Tables, author: UserId): set<Key> {
    set p | p in t.posts && t.posts[p].author == author && t.posts[p].Live() :: KeyOf(t, p)
  }

  /** The posts a new follower's feed is filled with: the newest `limit` live posts of the followee. */
  function Backfilled(t: Tables, followee: UserId, limit: nat): (ps: set<PostId>)
    ensures forall p :: p in ps ==> p in t.posts && t.posts[p].author == followee && t.posts[p].Live()
  {
    var top := Take(Ordered(LiveKeys(t, followee)), limit);
    assert forall k :: k in top ==> k in Ordered(LiveKeys(t, followee));
    set k | k in top :: k.id
  }

  /** The rows a new edge brings into the follower's feed. */
  function BackfillRows(t: Tables, follower: UserId, followee: UserId, limit: nat): (keys: set<(UserId, PostId)>)
    ensures forall k :: k in keys ==> k.1 in t.posts
  {
    set p | p in Backfilled(t, followee, limit) :: (follower, p)
  }

  /** Why a follow request is refused, if it is. */
  function FollowRefusal(t: Tables, me: UserId, other: UserId): Option<nat> {
    if me !in t.users then Some(401)
    else if other == me then Some(400)
    else if other !in t.users then Some(404)
    else if t.Blocked(me, other) then Some(400)
    else if Follows(t, me, other) then Some(409)
    else None
  }

  function FollowUser(t: Tables, me: UserId, other: UserId): Result<Tables> {
    match FollowRefusal(t, me, other)
    case Some(code) => Failure(code)
    case None =>
      Success(WithRows(t, BackfillRows(t, me, other, BACKFILL_LIMIT))
              .(follows := t.follows + {(me, other)}, notices := t.notices + multiset{Followed(other, me)}))
  }

  function UnfollowUser(t: Tables, me: UserId, other: UserId): Result<Tables> {
    if !Follows(t, me, other) then Failure(404)
    else Success(t.(follows := t.follows - {(me, other)}, feed := WithoutAuthor(t.feed, me, other)))
  }

  /** Rows lost when the edge `a -> b` is cut; nothing happens without the edge. */
  function CutEdge(t: Tables, a: UserId, b: UserId): Tables {
    if Follows(t, a, b) then
      t.(follows := t.follows - {(a, b)}, feed := WithoutAuthor(t.feed, a, b))
    else t
  }

  function BlockUser(t: Tables, me: UserId, other: UserId): Result<Tables> {
    if me !in t.users then Failure(401)
    else if other == me then Failure(400)
    else if other !in t.users then Failure(404)
    else if (me, other) in t.blocks then Failure(409)
    else
      var cut := CutEdge(CutEdge(t, me, other), other, me);
      Success(cut.(blocks := t.blocks + {(me, other)}))
  }

  function UnblockUser(t: Tables, me: UserId, other: UserId): Result<Tables> {
    if (me, other) !in t.blocks then Failure(404)
    else Success(t.(blocks := t.blocks - {(me, other)}))
  }

  function LikePost(t: Tables, me: UserId, p: PostId): Result<Tables> {
    if me !in t.users then Failure(401)
    else
      var target :- LoadReference(t, p);
      if t.posts[target].author == me then Failure(400)
      else if (me, target) in t.likes then Failure(409)
      else
        var row := if target in t.engagement
                   then var e := t.engagement[target]; e.(likes := e.likes + 1)
                   else Engagement(1, 0, 0);
        Success(t.(likes := t.likes + {(me, target)},
                   engagement := t.engagement[target := row],
                   notices := t.notices + multiset{PostLiked(t.posts[target].author, target, me)}))
  }

  function UnlikePost(t: Tables, me: UserId, p: PostId): Result<Tables> {
    var target :=
      if (me, p) in t.likes then Some(p)
      else if p in t.posts && t.posts[p].repostOf.Some? && (me, t.posts[p].repostOf.value) in t.likes then
        t.posts[p].repostOf
      else None;
    if target.None? then Failure(404)
    else
      var q := target.value;
      var engagement :=
        if q in t.engagement && t.engagement[q].likes > 0
        then t.engagement[q := t.engagement[q].(likes := t.engagement[q].likes - 1)]
        else t.engagement;
      Success(t.(likes := t.likes - {(me, q)}, engagement := engagement))
  }

  /** A moderator labels a post; whether it exists is not checked. */
  function WritePostLabel(t: Tables, p: PostId, kind: Label, reason: string): Result<Tables> {
    if |reason| > 2000 || (kind.Other? && !(1 <= |kind.name| <= 64)) then Failure(422)
    else Success(t.(labels := t.labels[(p, kind) := reason]))
  }
}
