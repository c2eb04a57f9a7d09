/** The tables of the social store, as one value. A committed transaction maps one value to the next. */
module SocialModel {
  import opened Options
  import opened Keyset

  type UserId = nat
  type PostId = nat

  datatype Visibility = Public | FollowersOnly
  datatype Status = Published | Processing | Failed

  datatype UserRow = UserRow(isPrivate: bool)

  /** `deleted` stands for `deleted_at IS NOT NULL`. */
  datatype Post = Post(
    author: UserId,
    body: string,
    visibility: Visibility,
    status: Status,
    createdAt: int,
    deleted: bool,
    parent: Option<PostId>,
    root: Option<PostId>,
    quoteOf: Option<PostId>,
    repostOf: Option<PostId>)
  {
    /** `deleted_at IS NULL AND status = 'published'`. */
    predicate Live() {
      status == Published && !deleted
    }
  }

  /** One row of `user_feed`; the key holds the owner and the post. */
  datatype FeedRow = FeedRow(author: UserId, createdAt: int)

  datatype Engagement = Engagement(likes: int, replies: nat, reposts: nat)

  datatype Notice =
    | Followed(user: UserId, actor: UserId)
    | PostLiked(user: UserId, post: PostId, actor: UserId)
    | PostReplied(user: UserId, post: PostId, source: PostId, actor: UserId)
    | PostReposted(user: UserId, post: PostId, source: PostId, actor: UserId)

  datatype Label = Nsfw | DoNotAmplify | SpamSuspect | Other(name: string)

  /** The embedding of a text; the vector itself is opaque and depends on the text alone. */
  datatype Vector = EmbedText(text: string)

  datatype Tables = Tables(
    users: map<UserId, UserRow>,
    posts: map<PostId, Post>,
    follows: set<(UserId, UserId)>,
    blocks: set<(UserId, UserId)>,
    feed: map<(UserId, PostId), FeedRow>,
    engagement: map<PostId, Engagement>,
    likes: set<(UserId, PostId)>,
    notices: multiset<Notice>,
    labels: map<(PostId, Label), string>,
    embeddings: map<PostId, Vector>)
  {
    predicate IsLive(p: PostId) {
      p in posts && posts[p].Live()
    }

    predicate Blocked(a: UserId, b: UserId) {
      (a, b) in blocks || (b, a) in blocks
    }
  }

  const EMPTY := Tables(map[], map[], {}, {}, map[], map[], {}, multiset{}, map[], map[])

  /** How a post appears in a feed row. */
  function RowOf(post: Post): FeedRow {
    FeedRow(post.author, post.createdAt)
  }

  function KeyOf(t: Tables, p: PostId): Key
    requires p in t.posts
  {
    Key(t.posts[p].createdAt, p)
  }

  /** Whitespace as `str.strip` sees it. */
  predicate IsSpace(c: char) {
    || '\U{0009}' <= c <= '\U{000D}' || '\U{001C}' <= c <= '\U{0020}'
    || c == '\U{0085}' || c == '\U{00A0}' || c == '\U{1680}' || '\U{2000}' <= c <= '\U{200A}'
    || c == '\U{2028}' || c == '\U{2029}' || c == '\U{202F}' || c == '\U{205F}' || c == '\U{3000}'
  }

  predicate Blank(body: string) {
    forall i :: 0 <= i < |body| ==> IsSpace(body[i])
  }

  /** A row is inserted for each key that has none; rows already present stay as they are. */
  function WithRows(t: Tables, keys: set<(UserId, PostId)>): (r: Tables)
    requires forall k :: k in keys ==> k.1 in t.posts
  {
    t.(feed := (map k | k in keys :: RowOf(t.posts[k.1])) + t.feed)
  }

  /** The rows an author contributed to one feed are deleted. */
  function WithoutAuthor(feed: map<(UserId, PostId), FeedRow>, owner: UserId, author: UserId)
    : map<(UserId, PostId), FeedRow>
  {
    map k | k in feed && !(k.0 == owner && feed[k].author == author) :: feed[k]
  }
}
