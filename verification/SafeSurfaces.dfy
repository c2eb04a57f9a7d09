/** For You, Following and threads over a reachable store, with the post labels that are stored there: what becomes of the
    items of a labelled post. `Exposure` follows its text into the items of other posts. */
module SafeSurfaces {
  import opened Options
  import opened SocialModel
  import opened Tasks
  import opened SocialRuns
  import opened References
  import opened FeedSources
  import opened FeedTypes
  import opened Ranking
  import opened Blending
  import opened Policy
  import opened FeedPipeline
  import opened FollowingFeed
  import opened ThreadPage
  import opened PostSearch
  import opened SafetyLabels

  // ----- What the surfaces do with stored labels

  function StoredLabels(t: Tables, p: PostId): set<Label> {
    set k | k in t.labels && k.0 == p :: k.1
  }

  /** The hydrators read the post labels from the store. */
  ghost predicate HydratesFrom(t: Tables, hydrate: Candidate -> Candidate) {
    KeepsIdentity(hydrate) && forall c :: hydrate(c).labels == StoredLabels(t, c.id)
  }

  lemma StoredIsNsfw(t: Tables, hydrate: Candidate -> Candidate, c: Candidate)
    requires HydratesFrom(t, hydrate) && (c.id, Nsfw) in t.labels
    ensures IsNsfw(hydrate(c))
  {
    assert (c.id, Nsfw).1 in StoredLabels(t, c.id);
  }

  /** The item reaches a viewer treated as an adult and hides the post. */
  predicate Safe(item: Item, q: FeedQuery, env: Env) {
    IsAdult(q.birthdate, env.today) && item == Item(item.id, "", None, None, true, item.labels)
  }

  lemma HydratedIsNsfw(t: Tables, hydrate: Candidate -> Candidate, cs: seq<Candidate>, d: Candidate, c: Candidate, mark: bool)
    requires HydratesFrom(t, hydrate) && d in Hydrated(hydrate, cs)
    requires SameButScore(c, d.(interstitial := mark)) && (c.id, Nsfw) in t.labels
    ensures IsNsfw(c)
  {
    var i :| 0 <= i < |cs| && hydrate(cs[i]) == d;
    assert c.labels == d.labels && c.id == d.id == cs[i].id;
    StoredIsNsfw(t, hydrate, cs[i]);
  }

  /** The stored label survives every stage of a surface. */
  lemma SurfacedIsNsfw(t: Tables, s: Surface, q: FeedQuery, env: Env, log1p: int -> real,
                       hydrate: Candidate -> Candidate, thunder: seq<Candidate>, oon: seq<Candidate>, c: Candidate)
    requires HydratesFrom(t, hydrate) && (c.id, Nsfw) in t.labels
    requires c in Surfaced(s, q, env, log1p, hydrate, thunder, oon)
    ensures IsNsfw(c)
  {
    var d := SurfacedFrom(s, q, env, log1p, hydrate, thunder, oon, c);
    HydratedIsNsfw(t, hydrate, Gathered(s, q, thunder, oon), d, c, Decide(s.rules, Context(q, d, env)) == Interstitial);
  }

  /** A feed page over a store: a post with a stored label is shown safely. */
  lemma FeedHonoursLabels(t: Tables, s: Surface, q: FeedQuery, env: Env, log1p: int -> real,
                          hydrate: Candidate -> Candidate, thunder: seq<Candidate>, oon: seq<Candidate>, c: Candidate)
    requires s == ForYou(s.weights) || s == Following(s.weights)
    requires HydratesFrom(t, hydrate) && forall d :: d in thunder ==> d.source == InNetwork
    requires c in Selected(q, Surfaced(s, q, env, log1p, hydrate, thunder, oon)).0 && (c.id, Nsfw) in t.labels
    ensures Safe(Rendered(c), q, env)
  {
    assert c in Surfaced(s, q, env, log1p, hydrate, thunder, oon);
    SurfacedIsNsfw(t, s, q, env, log1p, hydrate, thunder, oon, c);
    NsfwIsCovered(s, q, env, log1p, hydrate, thunder, oon, c);
  }

  lemma CardHonoursLabels(t: Tables, q: FeedQuery, env: Env, hydrate: Candidate -> Candidate, p: PostId)
    requires HydratesFrom(t, hydrate) && p in t.posts && ThreadVerdict(t.posts, q, env, hydrate, p) != Drop
    requires (p, Nsfw) in t.labels
    ensures Card(t.posts, q, env, hydrate, p).id == p && Safe(Card(t.posts, q, env, hydrate, p), q, env)
  {
    StoredIsNsfw(t, hydrate, FromPost(p, t.posts[p], t.posts[p].createdAt, InNetwork, None));
    CardCoversNsfw(t, q, env, hydrate, p);
  }

  // ----- For You over a reachable store

  /** The out-of-network candidates: the stored posts of the search result. */
  function OonFetch(t: Tables, hits: seq<Hit>): seq<Candidate> {
    if hits == [] then []
    else if hits[0].post !in t.posts then OonFetch(t, hits[1..])
    else
      var post := t.posts[hits[0].post];
      [FromPost(hits[0].post, post, post.createdAt, Oon, Some(hits[0].similarity))] + OonFetch(t, hits[1..])
  }

  /** One candidate for each hit whose post is stored, in the order of the search, with its similarity. */
  lemma {:induction false} OonInOrder(t: Tables, hits: seq<Hit>)
    requires forall i :: 0 <= i < |hits| ==> hits[i].post in t.posts
    ensures |OonFetch(t, hits)| == |hits|
    ensures forall i :: 0 <= i < |hits| ==>
      var c := OonFetch(t, hits)[i];
      && c.id == hits[i].post && c.similarity == Some(hits[i].similarity) && c.source == Oon
      && c.parent == t.posts[c.id].parent && c.root == t.posts[c.id].root
  {
    if hits != [] {
      assert hits[0].post in t.posts;
      assert forall i :: 0 <= i < |hits[1..]| ==> hits[1..][i] == hits[i + 1];
      OonInOrder(t, hits[1..]);
      assert forall i :: 1 <= i < |hits| ==> OonFetch(t, hits)[i] == OonFetch(t, hits[1..])[i - 1];
    }
  }

  lemma {:induction false} OonIndexed(t: Tables, hits: seq<Hit>)
    requires RootsOk(t.posts)
    ensures WellIndexed(OonFetch(t, hits))
  {
    if hits != [] {
      OonIndexed(t, hits[1..]);
      assert hits[0].post in t.posts ==> RootOk(t.posts, hits[0].post);
    }
  }

  /** The For You candidates of a request before the page is cut. */
  function ForYouRows(t: Tables, w: Weights, q: FeedQuery, env: Env, log1p: int -> real, hydrate: Candidate -> Candidate,
                      hits: seq<Hit>): seq<Candidate> {
    Surfaced(ForYou(w), q, env, log1p, hydrate, ThunderFetch(t, q.viewer, q.cursor, q.limit), OonFetch(t, hits))
  }

  /** For You over any reachable store and search result: distinct posts, one per conversation. */
  lemma ForYouOverStore(es: seq<Event>, w: Weights, q: FeedQuery, env: Env, log1p: int -> real,
                        hydrate: Candidate -> Candidate, hits: seq<Hit>)
    ensures var shown := ForYouRows(Run(EMPTY, es), w, q, env, log1p, hydrate, hits);
      KeepsIdentity(hydrate) ==> DistinctIds(shown) && OnePerConversation(shown)
  {
    if KeepsIdentity(hydrate) {
      RootsAlways(es);
      ThunderCandidates(es, q.viewer, q.cursor, q.limit);
      OonIndexed(Run(EMPTY, es), hits);
      ForYouConversations(w, q, env, log1p, hydrate, ThunderFetch(Run(EMPTY, es), q.viewer, q.cursor, q.limit),
                          OonFetch(Run(EMPTY, es), hits));
    }
  }

  // ----- End to end

  /** A page of either feed over the store shows the items of `p` safely, if any. */
  ghost predicate FeedsSafe(t: Tables, w: Weights, q: FeedQuery, env: Env, log1p: int -> real,
                            hydrate: Candidate -> Candidate, hits: seq<Hit>, p: PostId) {
    && (forall c :: c in Selected(q, ForYouRows(t, w, q, env, log1p, hydrate, hits)).0 && c.id == p ==>
          Safe(Rendered(c), q, env))
    && (forall c :: c in Selected(q, FollowingRows(t, w, q, env, log1p, hydrate)).0 && c.id == p ==>
          Safe(Rendered(c), q, env))
  }

  /** So does the thread page. */
  ghost predicate ThreadSafe(t: Tables, root: PostId, q: FeedQuery, env: Env, hydrate: Candidate -> Candidate,
                             rows: seq<PostId>, p: PostId) {
    forall items: seq<Item>, item: Item :: IsThreadResponse(t, root, q, env, hydrate, rows, items) && item in items && item.id == p ==>
      Safe(item, q, env)
  }

  lemma LabelledFeeds(es: seq<Event>, w: Weights, q: FeedQuery, env: Env, log1p: int -> real,
                      hydrate: Candidate -> Candidate, hits: seq<Hit>, p: PostId)
    requires HydratesFrom(Run(EMPTY, es), hydrate) && (p, Nsfw) in Run(EMPTY, es).labels
    ensures FeedsSafe(Run(EMPTY, es), w, q, env, log1p, hydrate, hits, p)
  {
    var t := Run(EMPTY, es);
    var thunder := ThunderFetch(t, q.viewer, q.cursor, q.limit);
    ThunderCandidates(es, q.viewer, q.cursor, q.limit);
    forall c | c in Selected(q, ForYouRows(t, w, q, env, log1p, hydrate, hits)).0 && c.id == p
      ensures Safe(Rendered(c), q, env)
    {
      FeedHonoursLabels(t, ForYou(w), q, env, log1p, hydrate, thunder, OonFetch(t, hits), c);
    }
    forall c | c in Selected(q, FollowingRows(t, w, q, env, log1p, hydrate)).0 && c.id == p
      ensures Safe(Rendered(c), q, env)
    {
      FeedHonoursLabels(t, Following(w), q, env, log1p, hydrate, thunder, [], c);
    }
  }

  lemma LabelledThread(t: Tables, root: PostId, q: FeedQuery, env: Env, hydrate: Candidate -> Candidate,
                       rows: seq<PostId>, p: PostId)
    requires HydratesFrom(t, hydrate) && (p, Nsfw) in t.labels
    ensures ThreadSafe(t, root, q, env, hydrate, rows, p)
  {
    forall items: seq<Item>, item: Item | IsThreadResponse(t, root, q, env, hydrate, rows, items) && item in items && item.id == p
      ensures Safe(item, q, env)
    {
      var shown := ItemShown(t, root, q, env, hydrate, rows, items, item);
      assert shown == p;
      CardHonoursLabels(t, q, env, hydrate, p);
    }
  }

  /** From the moment the safety task has committed for a flagged post, whatever else happens, no later response of For
      You, Following or a thread has an item of this post that is uncovered or goes to a viewer not treated as an adult.
      Items of other posts that quote or repost it are another matter, see `Exposure.LabelledExposure`. */
  lemma FlaggedStaysCovered(before: seq<Event>, p: PostId, after: seq<Event>, w: Weights, q: FeedQuery, env: Env,
                            log1p: int -> real, hydrate: Candidate -> Candidate, hits: seq<Hit>, root: PostId,
                            rows: seq<PostId>)
    ensures var then_, t := Run(EMPTY, before), Run(EMPTY, before + [RunTask(ApplyLabels, p)] + after);
      p in then_.posts && Flagged(then_.posts[p].body) && HydratesFrom(t, hydrate) ==>
        FeedsSafe(t, w, q, env, log1p, hydrate, hits, p) && ThreadSafe(t, root, q, env, hydrate, rows, p)
  {
    var es := before + [RunTask(ApplyLabels, p)] + after;
    var then_ := Run(EMPTY, before);
    if p in then_.posts && Flagged(then_.posts[p].body) && HydratesFrom(Run(EMPTY, es), hydrate) {
      LabelledForGood(before, p, after);
      LabelledFeeds(es, w, q, env, log1p, hydrate, hits, p);
      LabelledThread(Run(EMPTY, es), root, q, env, hydrate, rows, p);
    }
  }
}
