/** The labeling tasks that a POST_CREATED event runs. A task commits new tables or raises. */
module Tasks {
  import opened Options
  import opened SocialModel

  /** The code of a task that raised. */
  const RAISED: nat := 0

  datatype Task =
    | Validate | Publish | ApplyLabels | Embed | FanOut
    | ReplyCount | NotifyReply | RepostCount | NotifyRepost | EngagementInit

  const NSFW_KEYWORDS: seq<string> := ["porn", "nsfw", "xxx", "アダルト", "エロ", "裸", "セックス"]

  /** `str.casefold`, one character at a time. Spelled out are the characters whose fold can be part of a built-in keyword:
      the capital letters, the long s, the n after an apostrophe and the w with a ring. All others stay as they are. */
  function Fold(c: char): string {
    if 'A' <= c <= 'Z' then [c - 'A' + 'a']
    else if c == '\U{017F}' then "s"
    else if c == '\U{0149}' then "\U{02BC}n"
    else if c == '\U{1E98}' then "w\U{030A}"
    else [c]
  }

  function Folded(s: string): string {
    if s == "" then "" else Fold(s[0]) + Folded(s[1..])
  }

  predicate Contains(text: string, word: string) {
    exists i :: 0 <= i <= |text| && word <= text[i..]
  }

  /** The first keyword found in the text. */
  function FirstHit(words: seq<string>, text: string): Option<string> {
    if words == [] then None
    else if Contains(text, words[0]) then Some(words[0])
    else FirstHit(words[1..], text)
  }

  function DetectNsfw(body: string): Option<string> {
    match FirstHit(NSFW_KEYWORDS, Folded(body))
    case None => None
    case Some(word) => Some("keyword:" + word)
  }

  function ValidatePost(t: Tables, p: PostId): Result<Tables> {
    if p !in t.posts then Failure(RAISED)
    else
      var post := t.posts[p];
      var target := if post.quoteOf.Some? then post.quoteOf else post.repostOf;
      if Blank(post.body) && post.repostOf.None? then Failure(RAISED)
      else if post.parent.Some? && !t.IsLive(post.parent.value) then Failure(RAISED)
      else if target.Some? && !t.IsLive(target.value) then Failure(RAISED)
      else Success(t)
  }

  function PublishPost(t: Tables, p: PostId): Result<Tables> {
    if p !in t.posts then Failure(RAISED)
    else Success(t.(posts := t.posts[p := t.posts[p].(status := Published)]))
  }

  /** Run after a dispatch that did not succeed; it never raises. */
  function MarkFailed(t: Tables, p: PostId): Tables {
    if p !in t.posts || t.posts[p].status != Processing then t
    else t.(posts := t.posts[p := t.posts[p].(status := Failed)])
  }

  function ApplySafetyLabels(t: Tables, p: PostId): Result<Tables> {
    if p !in t.posts || Blank(t.posts[p].body) then Success(t)
    else
      match DetectNsfw(t.posts[p].body)
      case None => Success(t)
      case Some(hit) => Success(t.(labels := t.labels[(p, Nsfw) := hit][(p, DoNotAmplify) := "nsfw:" + hit]))
  }

  function GenerateEmbedding(t: Tables, p: PostId): Result<Tables> {
    if p !in t.posts || t.posts[p].status != Published then Failure(RAISED)
    else Success(t.(embeddings := t.embeddings[p := EmbedText(t.posts[p].body)]))
  }

  /** Everyone whose feed shows the author: the followers and the author. */
  function Recipients(t: Tables, author: UserId): set<UserId> {
    (set e | e in t.follows && e.1 == author :: e.0) + {author}
  }

  function FanOutPost(t: Tables, p: PostId): Result<Tables> {
    if p !in t.posts || t.posts[p].status != Published then Failure(RAISED)
    else if t.posts[p].deleted then Success(t)
    else Success(WithRows(t, set u | u in Recipients(t, t.posts[p].author) :: (u, p)))
  }

  function Replies(t: Tables, parent: PostId): set<PostId> {
    set p | p in t.posts && t.posts[p].parent == Some(parent) && t.posts[p].Live()
  }

  function Reposts(t: Tables, original: PostId): set<PostId> {
    set p | p in t.posts && t.posts[p].repostOf == Some(original) && t.posts[p].Live()
  }

  function RowOrZero(t: Tables, p: PostId): Engagement {
    if p in t.engagement then t.engagement[p] else Engagement(0, 0, 0)
  }

  function IncrementReplyCount(t: Tables, p: PostId): Result<Tables> {
    if !t.IsLive(p) || t.posts[p].parent.None? then Success(t)
    else
      var parent := t.posts[p].parent.value;
      Success(t.(engagement := t.engagement[parent := RowOrZero(t, parent).(replies := |Replies(t, parent)|)]))
  }

  function IncrementRepostCount(t: Tables, p: PostId): Result<Tables> {
    if !t.IsLive(p) || t.posts[p].repostOf.None? then Success(t)
    else
      var original := t.posts[p].repostOf.value;
      Success(t.(engagement := t.engagement[original := RowOrZero(t, original).(reposts := |Reposts(t, original)|)]))
  }

  /** A notification of this reply is already stored. */
  predicate ReplyNoticed(t: Tables, user: UserId, source: PostId) {
    exists n :: n in t.notices && n.PostReplied? && n.user == user && n.source == source
  }

  predicate RepostNoticed(t: Tables, user: UserId, source: PostId) {
    exists n :: n in t.notices && n.PostReposted? && n.user == user && n.source == source
  }

  function NotifyReplied(t: Tables, p: PostId): Result<Tables> {
    if !t.IsLive(p) || t.posts[p].parent.None? then Success(t)
    else
      var (parent, author) := (t.posts[p].parent.value, t.posts[p].author);
      if parent !in t.posts || t.posts[parent].author == author then Success(t)
      else if ReplyNoticed(t, t.posts[parent].author, p) then Success(t)
      else Success(t.(notices := t.notices + multiset{PostReplied(t.posts[parent].author, parent, p, author)}))
  }

  function NotifyReposted(t: Tables, p: PostId): Result<Tables> {
    if !t.IsLive(p) || t.posts[p].repostOf.None? then Success(t)
    else
      var (original, author) := (t.posts[p].repostOf.value, t.posts[p].author);
      if original !in t.posts || t.posts[original].author == author then Success(t)
      else if RepostNoticed(t, t.posts[original].author, p) then Success(t)
      else Success(t.(notices := t.notices + multiset{PostReposted(t.posts[original].author, original, p, author)}))
  }

  function InitEngagement(t: Tables, p: PostId): Result<Tables> {
    if p !in t.posts || t.posts[p].status != Published then Failure(RAISED)
    else Success(t.(engagement := t.engagement[p := RowOrZero(t, p)]))
  }

  function Exec(t: Tables, task: Task, p: PostId): Result<Tables> {
    match task
    case Validate => ValidatePost(t, p)
    case Publish => PublishPost(t, p)
    case ApplyLabels => ApplySafetyLabels(t, p)
    case Embed => GenerateEmbedding(t, p)
    case FanOut => FanOutPost(t, p)
    case ReplyCount => IncrementReplyCount(t, p)
    case NotifyReply => NotifyReplied(t, p)
    case RepostCount => IncrementRepostCount(t, p)
    case NotifyRepost => NotifyReposted(t, p)
    case EngagementInit => InitEngagement(t, p)
  }
}
