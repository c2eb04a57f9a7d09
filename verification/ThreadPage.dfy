/** The thread page with the thread rules: which posts it shows to a viewer, and which of them are covered. */
module ThreadPage {
  import opened Options
  import opened SocialModel
  import opened SocialRuns
  import opened References
  import opened ThreadIndex
  import opened ThreadView
  import opened FeedTypes
  import opened FeedPipeline
  import opened Policy
  import opened Sorting

  /** A row as the rules see it: in-network, with the author's columns and the labels filled in. */
  function Judged(posts: map<PostId, Post>, hydrate: Candidate -> Candidate, p: PostId): Candidate
    requires p in posts
  {
    hydrate(FromPost(p, posts[p], posts[p].createdAt, InNetwork, None))
  }

  function ThreadVerdict(posts: map<PostId, Post>, q: FeedQuery, env: Env, hydrate: Candidate -> Candidate, p: PostId)
    : Verdict
    requires p in posts
  {
    Decide(THREAD, Context(q, Judged(posts, hydrate, p), env))
  }

  /** The rows that the thread rules let through. */
  function Passing(posts: map<PostId, Post>, q: FeedQuery, env: Env, hydrate: Candidate -> Candidate, rows: seq<PostId>)
    : set<PostId>
  {
    set p | p in rows && p in posts && ThreadVerdict(posts, q, env, hydrate, p) != Drop
  }

  /** The card of a row; a covered one has no body and no references. */
  function Card(posts: map<PostId, Post>, q: FeedQuery, env: Env, hydrate: Candidate -> Candidate, p: PostId): Item
    requires p in posts
  {
    Rendered(Judged(posts, hydrate, p).(interstitial := ThreadVerdict(posts, q, env, hydrate, p) == Interstitial))
  }

  /** The items are the cards of these posts. */
  ghost predicate CardsOf(posts: map<PostId, Post>, q: FeedQuery, env: Env, hydrate: Candidate -> Candidate,
                          page: seq<PostId>, items: seq<Item>) {
    && |items| == |page|
    && forall i :: 0 <= i < |page| ==> page[i] in posts && items[i] == Card(posts, q, env, hydrate, page[i])
  }

  /** The items are the cards of a thread page, in its order. */
  ghost predicate IsThreadResponse(t: Tables, root: PostId, q: FeedQuery, env: Env, hydrate: Candidate -> Candidate,
                                   rows: seq<PostId>, items: seq<Item>) {
    exists page :: IsPage(t.posts, root, Passing(t.posts, q, env, hydrate, rows), page)
      && CardsOf(t.posts, q, env, hydrate, page, items)
  }

  /** The policy loop over the rows. */
  method JudgeRows(posts: map<PostId, Post>, q: FeedQuery, env: Env, hydrate: Candidate -> Candidate, rows: seq<PostId>)
    returns (passing: set<PostId>, covered: set<PostId>)
    requires forall p :: p in rows ==> p in posts
    ensures passing == Passing(posts, q, env, hydrate, rows)
    ensures forall p :: p in covered <==> p in rows && ThreadVerdict(posts, q, env, hydrate, p) == Interstitial
  {
    passing, covered := {}, {};
    for i := 0 to |rows|
      invariant forall p :: p in passing <==> p in rows[..i] && ThreadVerdict(posts, q, env, hydrate, p) != Drop
      invariant forall p :: p in covered <==> p in rows[..i] && ThreadVerdict(posts, q, env, hydrate, p) == Interstitial
    {
      var verdict, name := EvaluateRules(THREAD, Context(q, Judged(posts, hydrate, rows[i]), env));
      if verdict == Drop { continue; }
      if verdict == Interstitial {
        covered := covered + {rows[i]};
      }
      passing := passing + {rows[i]};
    }
    assert rows[..|rows|] == rows;
  }

  /** The loop that empties the covered cards. */
  method CoverCards(posts: map<PostId, Post>, q: FeedQuery, env: Env, hydrate: Candidate -> Candidate, page: seq<PostId>,
                    covered: set<PostId>) returns (items: seq<Item>)
    requires forall p :: p in page ==> p in posts
    requires forall p :: p in page ==> (p in covered <==> ThreadVerdict(posts, q, env, hydrate, p) == Interstitial)
    ensures CardsOf(posts, q, env, hydrate, page, items)
  {
    items := [];
    for i := 0 to |page|
      invariant CardsOf(posts, q, env, hydrate, page[..i], items)
    {
      assert page[i] in page && page[..i + 1] == page[..i] + [page[i]];
      items := items + [Rendered(Judged(posts, hydrate, page[i]).(interstitial := page[i] in covered))];
    }
    assert page[..|page|] == page;
  }

  /** GET /posts/{id}/thread with its rules: the shown posts in thread order, covered where the rules say so. */
  method ThreadResponse(t: Tables, post: PostId, rows: seq<PostId>, q: FeedQuery, env: Env, hydrate: Candidate -> Candidate)
    returns (r: Result<seq<Item>>)
    requires RootsOk(t.posts) && Distinct(rows)
    requires forall p :: p in rows ==> p in t.posts
    requires t.IsLive(post) ==> forall p :: p in rows <==> p in ThreadSelect(t.posts, StoredRoot(t.posts, post))
    ensures !t.IsLive(post) ==> r == Failure(404)
    ensures t.IsLive(post) ==>
      r.Success? && IsThreadResponse(t, StoredRoot(t.posts, post), q, env, hydrate, rows, r.value)
  {
    var passing, covered := JudgeRows(t.posts, q, env, hydrate, rows);
    var page := GetThread(t, post, rows, passing);
    if page.Failure? {
      return Failure(page.code);
    }
    PageRows(t, StoredRoot(t.posts, post), passing, rows, page.value);
    var items := CoverCards(t.posts, q, env, hydrate, page.value, covered);
    return Success(items);
  }

  lemma PageRows(t: Tables, root: PostId, passing: set<PostId>, rows: seq<PostId>, page: seq<PostId>)
    requires IsPage(t.posts, root, passing, page) && forall p :: p in passing ==> p in rows && p in t.posts
    ensures forall p :: p in page ==> p in rows && p in t.posts
  {
    forall p | p in page
      ensures p in rows && p in t.posts
    {
      ShownPasses(t.posts, root, passing, page, p);
    }
  }

  lemma CardCoversNsfw(t: Tables, q: FeedQuery, env: Env, hydrate: Candidate -> Candidate, p: PostId)
    requires KeepsIdentity(hydrate) && p in t.posts && ThreadVerdict(t.posts, q, env, hydrate, p) != Drop
    ensures var item := Card(t.posts, q, env, hydrate, p);
      Nsfw in item.labels ==>
        IsAdult(q.birthdate, env.today) && item == Item(item.id, "", None, None, true, item.labels)
  {
    ListsNested();
    if IsNsfw(Judged(t.posts, hydrate, p)) {
      NsfwInNetwork(THREAD, Context(q, Judged(t.posts, hydrate, p), env));
    }
  }

  /** An item of the response is the card of a stored row that the rules let through. */
  lemma CardAt(posts: map<PostId, Post>, q: FeedQuery, env: Env, hydrate: Candidate -> Candidate, page: seq<PostId>,
               items: seq<Item>, item: Item) returns (p: PostId)
    requires KeepsIdentity(hydrate) && CardsOf(posts, q, env, hydrate, page, items) && item in items
    ensures p in page && p in posts && item == Card(posts, q, env, hydrate, p) && item.id == p
  {
    var i :| 0 <= i < |items| && items[i] == item;
    p := page[i];
    assert Judged(posts, hydrate, p).id == p;
  }

  lemma ItemShown(t: Tables, root: PostId, q: FeedQuery, env: Env, hydrate: Candidate -> Candidate, rows: seq<PostId>,
                  items: seq<Item>, item: Item) returns (p: PostId)
    requires KeepsIdentity(hydrate) && IsThreadResponse(t, root, q, env, hydrate, rows, items) && item in items
    ensures p in t.posts && ThreadVerdict(t.posts, q, env, hydrate, p) != Drop
    ensures item == Card(t.posts, q, env, hydrate, p) && item.id == p
  {
    var passing := Passing(t.posts, q, env, hydrate, rows);
    var page :| IsPage(t.posts, root, passing, page) && CardsOf(t.posts, q, env, hydrate, page, items);
    p := CardAt(t.posts, q, env, hydrate, page, items, item);
    ShownPasses(t.posts, root, passing, page, p);
  }

  lemma ShownPasses(posts: map<PostId, Post>, root: PostId, passing: set<PostId>, page: seq<PostId>, p: PostId)
    requires IsPage(posts, root, passing, page) && p in page
    ensures p in passing
  {
    assert Shown(posts, root, passing, p);
    var path :| ShownBy(posts, root, passing, p, path);
    assert path[0] in passing;
  }

  /** On the thread page too, the item of an NSFW post is shown only to a viewer treated as an adult, and always covered. */
  lemma ThreadCoversNsfw(t: Tables, root: PostId, q: FeedQuery, env: Env, hydrate: Candidate -> Candidate,
                         rows: seq<PostId>, items: seq<Item>, item: Item)
    requires KeepsIdentity(hydrate)
    ensures IsThreadResponse(t, root, q, env, hydrate, rows, items) && item in items && Nsfw in item.labels ==>
      IsAdult(q.birthdate, env.today) && item == Item(item.id, "", None, None, true, item.labels)
  {
    if IsThreadResponse(t, root, q, env, hydrate, rows, items) && item in items {
      var p := ItemShown(t, root, q, env, hydrate, rows, items, item);
      CardCoversNsfw(t, q, env, hydrate, p);
    }
  }
}
