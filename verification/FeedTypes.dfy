/** The candidates and queries that flow through the feed pipelines. */
module FeedTypes {
  import opened Options
  import opened Keyset
  import opened SocialModel

  datatype Source = InNetwork | Thunder | Oon

  /** A quoted or reposted post as an item shows it. */
  datatype Reference = Reference(id: PostId, author: Option<UserId>, body: string)

  datatype Author = Author(isPrivate: bool, suspended: bool, cred: real)

  /** What is known of a reply's parent; `missing` when it is gone. */
  datatype Parent = Parent(missing: bool, author: Option<UserId>, visibility: Visibility, isPrivate: bool, suspended: bool)

  datatype Engaged = Engaged(likes: int, replies: int)

  datatype Candidate = Candidate(
    id: PostId,
    author: UserId,
    body: string,
    createdAt: int,
    visibility: Visibility,
    parent: Option<PostId>,
    root: Option<PostId>,
    quoteOf: Option<PostId>,
    repostOf: Option<PostId>,
    source: Source,
    similarity: Option<real>,
    affinity: real,
    seen: bool,
    rankScore: Option<real>,
    authorInfo: Author,
    parentInfo: Parent,
    engaged: Engaged,
    quoted: Option<Reference>,
    reposted: Option<Reference>,
    labels: set<Label>,
    authorLabels: set<Label>,
    interstitial: bool)
  {
    function Labels(): set<Label> {
      labels + authorLabels
    }

    function Key(): Key {
      Keyset.Key(createdAt, id)
    }
  }

  const UNKNOWN_AUTHOR := Author(false, false, 50.0)
  const UNKNOWN_PARENT := Parent(false, None, Public, false, false)

  /** `_from_post`: the post's columns, everything else at its default. */
  function FromPost(id: PostId, post: Post, createdAt: int, source: Source, similarity: Option<real>): Candidate {
    Candidate(id, post.author, post.body, createdAt, post.visibility, post.parent, post.root, post.quoteOf, post.repostOf,
              source, similarity, 0.0, false, None, UNKNOWN_AUTHOR, UNKNOWN_PARENT, Engaged(0, 0), None, None, {}, {}, false)
  }

  /** A calendar date. */
  datatype Date = Date(year: int, month: int, day: int)

  datatype FeedQuery = FeedQuery(
    viewer: UserId,
    following: set<UserId>,
    blocked: set<UserId>,
    muted: set<UserId>,
    mutedKeywords: set<string>,
    seen: set<PostId>,
    hidden: set<PostId>,
    notInterested: set<UserId>,
    birthdate: Option<Date>,
    cursor: Option<Key>,
    limit: nat)
}
