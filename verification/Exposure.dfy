/** Where the text of a labelled post is printed: not on items of the post itself, but through quotes and reposts. */
module Exposure {
  import opened Options
  import opened Keyset
  import opened SocialModel
  import opened Requests
  import opened Tasks
  import opened SocialRuns
  import opened References
  import opened FeedSources
  import opened FeedTypes
  import opened Ranking
  import opened Blending
  import opened Policy
  import opened FeedPipeline
  import opened FollowingFeed
  import opened ThreadView
  import opened ThreadPage
  import opened PostSearch
  import opened SafetyLabels
  import opened SafeSurfaces
  import opened Pagination
  import opened Profiles

  // ----- References as the hydrator reads them

  /** `to_ref`: the author and text of the referenced post, blank when it is gone; its labels play no part. */
  function ToRef(t: Tables, target: Option<PostId>): Option<Reference> {
    match target
    case None => None
    case Some(p) =>
      if p in t.posts && !t.posts[p].deleted then Some(Reference(p, Some(t.posts[p].author), t.posts[p].body))
      else Some(Reference(p, None, ""))
  }

  /** The hydrators read post labels and references from the store. */
  ghost predicate ReadsStore(t: Tables, hydrate: Candidate -> Candidate) {
    && HydratesFrom(t, hydrate)
    && (forall c :: SameColumns(c, hydrate(c)))
    && (forall c :: hydrate(c).quoted == ToRef(t, c.quoteOf) && hydrate(c).reposted == ToRef(t, c.repostOf))
  }

  predicate SameColumns(c: Candidate, d: Candidate) {
    && d.id == c.id && d.parent == c.parent && d.root == c.root
    && d.author == c.author && d.visibility == c.visibility
    && d.body == c.body && d.quoteOf == c.quoteOf && d.repostOf == c.repostOf
  }

  predicate RefersTo(post: Post, p: PostId) {
    post.quoteOf == Some(p) || post.repostOf == Some(p)
  }

  predicate Prints(r: Option<Reference>, p: PostId, body: string) {
    r.Some? && r.value.id == p && r.value.body == body
  }

  /** The item prints the text of `p`, as its own or as that of a quoted or reposted post. */
  predicate Exposes(item: Item, p: PostId, body: string) {
    (item.id == p && item.body == body) || Prints(item.quoteOf, p, body) || Prints(item.repostOf, p, body)
  }

  /** An item without the label quotes or reposts `p`. */
  predicate Carries(t: Tables, item: Item, p: PostId) {
    item.id in t.posts && Nsfw !in item.labels && RefersTo(t.posts[item.id], p)
  }

  /** The page prints the text of `p` exactly when `p` is not deleted and an item without the label refers to it. */
  ghost predicate ExposedByReferences(t: Tables, items: seq<Item>, p: PostId)
    requires p in t.posts
  {
    (exists item :: item in items && Exposes(item, p, t.posts[p].body)) <==>
      !t.posts[p].deleted && exists item :: item in items && Carries(t, item, p)
  }

  /** A post with a text and a stored label. */
  predicate Labelled(t: Tables, p: PostId) {
    p in t.posts && t.posts[p].body != "" && (p, Nsfw) in t.labels
  }

  // ----- One item

  /** The candidate holds the columns of a stored post. */
  predicate Stored(t: Tables, c: Candidate) {
    && c.id in t.posts
    && c.parent == t.posts[c.id].parent && c.root == t.posts[c.id].root
    && c.author == t.posts[c.id].author && c.visibility == t.posts[c.id].visibility
    && c.body == t.posts[c.id].body && c.quoteOf == t.posts[c.id].quoteOf && c.repostOf == t.posts[c.id].repostOf
  }

  /** Hydrated, and covered exactly when the label is on the post or its author. */
  predicate Decided(t: Tables, c: Candidate) {
    && Stored(t, c)
    && c.quoted == ToRef(t, c.quoteOf) && c.reposted == ToRef(t, c.repostOf)
    && (c.interstitial <==> IsNsfw(c))
    && c.labels == StoredLabels(t, c.id)
  }

  lemma ItemExposes(t: Tables, c: Candidate, p: PostId)
    requires Decided(t, c) && Labelled(t, p)
    ensures Exposes(Rendered(c), p, t.posts[p].body) <==> !t.posts[p].deleted && Carries(t, Rendered(c), p)
  {
    if c.id == p {
      assert (p, Nsfw).1 in StoredLabels(t, p);
    }
  }

  lemma PageExposes(t: Tables, items: seq<Item>, p: PostId)
    requires p in t.posts
    requires forall item :: item in items ==>
      (Exposes(item, p, t.posts[p].body) <==> !t.posts[p].deleted && Carries(t, item, p))
    ensures ExposedByReferences(t, items, p)
  {
  }

  /** Only the label makes a list of rules cover a candidate. */
  lemma CoveredIsNsfw(rules: seq<Rule>, x: Context)
    ensures Decide(rules, x) == Interstitial ==> IsNsfw(x.candidate)
  {
  }

  // ----- The feeds

  predicate AllStored(t: Tables, cs: seq<Candidate>) {
    forall c :: c in cs ==> Stored(t, c)
  }

  lemma {:induction false} CandidatesStored(t: Tables, page: seq<Key>)
    ensures AllStored(t, Candidates(t, page))
  {
    if page != [] {
      CandidatesStored(t, page[1..]);
    }
  }

  lemma {:induction false} OonStored(t: Tables, hits: seq<Hit>)
    ensures AllStored(t, OonFetch(t, hits))
  {
    if hits != [] {
      OonStored(t, hits[1..]);
    }
  }

  lemma GatheredStored(t: Tables, s: Surface, q: FeedQuery, thunder: seq<Candidate>, oon: seq<Candidate>)
    requires AllStored(t, thunder) && AllStored(t, oon)
    ensures AllStored(t, Gathered(s, q, thunder, oon))
  {
    if s.oonRatio.Some? {
      var all, first := Gathered(s, q, thunder, oon), Unseen(thunder, {}, Thunder);
      BlendKeepsBothSources(q.limit, s.oonRatio.value, thunder, oon);
      assert all == first + all[|first|..];
    }
  }

  function PageItems(cs: seq<Candidate>): (items: seq<Item>)
    ensures |items| == |cs| && forall i :: 0 <= i < |cs| ==> items[i] == Rendered(cs[i])
  {
    seq(|cs|, i requires 0 <= i < |cs| => Rendered(cs[i]))
  }

  lemma DecidedFrom(t: Tables, hydrate: Candidate -> Candidate, g: Candidate, c: Candidate, mark: bool)
    requires ReadsStore(t, hydrate) && Stored(t, g)
    requires SameButScore(c, hydrate(g).(interstitial := mark)) && (mark <==> IsNsfw(c))
    ensures Decided(t, c)
  {
    assert SameColumns(g, hydrate(g));
    assert hydrate(g).quoted == ToRef(t, g.quoteOf);
  }

  lemma SelectedMark(s: Surface, q: FeedQuery, env: Env, log1p: int -> real, hydrate: Candidate -> Candidate,
                     thunder: seq<Candidate>, oon: seq<Candidate>, c: Candidate)
    requires s == ForYou(s.weights) || s == Following(s.weights)
    requires KeepsIdentity(hydrate) && forall d :: d in thunder ==> d.source == InNetwork
    requires c in Selected(q, Surfaced(s, q, env, log1p, hydrate, thunder, oon)).0
    ensures c in Surfaced(s, q, env, log1p, hydrate, thunder, oon)
    ensures IsNsfw(c) ==> c.interstitial
  {
    if IsNsfw(c) {
      NsfwIsCovered(s, q, env, log1p, hydrate, thunder, oon, c);
    }
  }

  lemma SelectedDecided(t: Tables, s: Surface, q: FeedQuery, env: Env, log1p: int -> real,
                        hydrate: Candidate -> Candidate, thunder: seq<Candidate>, oon: seq<Candidate>, c: Candidate)
    requires s == ForYou(s.weights) || s == Following(s.weights)
    requires ReadsStore(t, hydrate) && AllStored(t, thunder) && AllStored(t, oon)
    requires forall d :: d in thunder ==> d.source == InNetwork
    requires c in Selected(q, Surfaced(s, q, env, log1p, hydrate, thunder, oon)).0
    ensures Decided(t, c)
  {
    SelectedMark(s, q, env, log1p, hydrate, thunder, oon, c);
    var g, mark := RowFrom(s, q, env, log1p, hydrate, thunder, oon, c);
    GatheredStored(t, s, q, thunder, oon);
    DecidedFrom(t, hydrate, g, c, mark);
  }

  /** The gathered candidate behind a row of a surface, and what the rules decided about it. */
  lemma RowFrom(s: Surface, q: FeedQuery, env: Env, log1p: int -> real, hydrate: Candidate -> Candidate,
                thunder: seq<Candidate>, oon: seq<Candidate>, c: Candidate) returns (g: Candidate, mark: bool)
    requires c in Surfaced(s, q, env, log1p, hydrate, thunder, oon)
    ensures g in Gathered(s, q, thunder, oon) && SameButScore(c, hydrate(g).(interstitial := mark))
    ensures mark ==> IsNsfw(c)
    ensures Decide(s.rules, Context(q, hydrate(g), env)) != Drop
  {
    var gathered := Gathered(s, q, thunder, oon);
    var d := SurfacedFrom(s, q, env, log1p, hydrate, thunder, oon, c);
    var i :| 0 <= i < |gathered| && hydrate(gathered[i]) == d;
    CoveredIsNsfw(s.rules, Context(q, d, env));
    g, mark := gathered[i], Decide(s.rules, Context(q, d, env)) == Interstitial;
  }

  lemma FeedExposure(t: Tables, s: Surface, q: FeedQuery, env: Env, log1p: int -> real,
                     hydrate: Candidate -> Candidate, thunder: seq<Candidate>, oon: seq<Candidate>, p: PostId)
    requires s == ForYou(s.weights) || s == Following(s.weights)
    requires ReadsStore(t, hydrate) && AllStored(t, thunder) && AllStored(t, oon)
    requires forall d :: d in thunder ==> d.source == InNetwork
    requires Labelled(t, p)
    ensures ExposedByReferences(t, PageItems(Selected(q, Surfaced(s, q, env, log1p, hydrate, thunder, oon)).0), p)
  {
    var page := Selected(q, Surfaced(s, q, env, log1p, hydrate, thunder, oon)).0;
    var items := PageItems(page);
    forall item | item in items
      ensures Exposes(item, p, t.posts[p].body) <==> !t.posts[p].deleted && Carries(t, item, p)
    {
      var i :| 0 <= i < |items| && items[i] == item;
      SelectedDecided(t, s, q, env, log1p, hydrate, thunder, oon, page[i]);
      ItemExposes(t, page[i], p);
    }
    PageExposes(t, items, p);
  }

  // ----- The thread page

  lemma CardDecided(t: Tables, q: FeedQuery, env: Env, hydrate: Candidate -> Candidate, r: PostId)
    requires ReadsStore(t, hydrate) && r in t.posts && ThreadVerdict(t.posts, q, env, hydrate, r) != Drop
    ensures Decided(t, Judged(t.posts, hydrate, r).(interstitial := ThreadVerdict(t.posts, q, env, hydrate, r) == Interstitial))
  {
    var row := FromPost(r, t.posts[r], t.posts[r].createdAt, InNetwork, None);
    var x := Context(q, Judged(t.posts, hydrate, r), env);
    assert SameColumns(row, hydrate(row));
    CoveredIsNsfw(THREAD, x);
    ListsNested();
    if IsNsfw(x.candidate) {
      NsfwInNetwork(THREAD, x);
    }
  }

  lemma ThreadExposure(t: Tables, root: PostId, q: FeedQuery, env: Env, hydrate: Candidate -> Candidate,
                       rows: seq<PostId>, items: seq<Item>, p: PostId)
    requires ReadsStore(t, hydrate) && IsThreadResponse(t, root, q, env, hydrate, rows, items) && Labelled(t, p)
    ensures ExposedByReferences(t, items, p)
  {
    forall item | item in items
      ensures Exposes(item, p, t.posts[p].body) <==> !t.posts[p].deleted && Carries(t, item, p)
    {
      var r := ItemShown(t, root, q, env, hydrate, rows, items, item);
      CardDecided(t, q, env, hydrate, r);
      var covered := ThreadVerdict(t.posts, q, env, hydrate, r) == Interstitial;
      ItemExposes(t, Judged(t.posts, hydrate, r).(interstitial := covered), p);
    }
    PageExposes(t, items, p);
  }

  // ----- Over runs

  lemma ThunderStored(es: seq<Event>, viewer: UserId, cursor: Option<Key>, limit: nat)
    ensures var thunder := ThunderFetch(Run(EMPTY, es), viewer, cursor, limit);
      AllStored(Run(EMPTY, es), thunder) && forall c :: c in thunder ==> c.source == InNetwork
  {
    ThunderCandidates(es, viewer, cursor, limit);
    CandidatesStored(Run(EMPTY, es), Page(ThunderKeys(Run(EMPTY, es), viewer), cursor, limit + 1));
  }

  lemma FeedsExposure(es: seq<Event>, p: PostId, s: Surface, q: FeedQuery, env: Env, log1p: int -> real,
                      hydrate: Candidate -> Candidate, hits: seq<Hit>)
    requires s == ForYou(s.weights) || s == Following(s.weights)
    requires ReadsStore(Run(EMPTY, es), hydrate) && Labelled(Run(EMPTY, es), p)
    ensures var t := Run(EMPTY, es);
      var rows := Surfaced(s, q, env, log1p, hydrate, ThunderFetch(t, q.viewer, q.cursor, q.limit), OonFetch(t, hits));
      ExposedByReferences(t, PageItems(Selected(q, rows).0), p)
  {
    var t := Run(EMPTY, es);
    ThunderStored(es, q.viewer, q.cursor, q.limit);
    OonStored(t, hits);
    FeedExposure(t, s, q, env, log1p, hydrate, ThunderFetch(t, q.viewer, q.cursor, q.limit), OonFetch(t, hits), p);
  }

  /** In any reachable store, a page of For You, of Following or of a thread prints the text of a labelled post, to
      whatever viewer, if and only if the post is not deleted and the page has an item without the label that quotes or
      reposts it. */
  lemma LabelledExposure(es: seq<Event>, p: PostId, w: Weights, q: FeedQuery, env: Env, log1p: int -> real,
                         hydrate: Candidate -> Candidate, hits: seq<Hit>, root: PostId, rows: seq<PostId>, items: seq<Item>)
    requires ReadsStore(Run(EMPTY, es), hydrate) && Labelled(Run(EMPTY, es), p)
    ensures var t := Run(EMPTY, es);
      && ExposedByReferences(t, PageItems(Selected(q, ForYouRows(t, w, q, env, log1p, hydrate, hits)).0), p)
      && ExposedByReferences(t, PageItems(Selected(q, FollowingRows(t, w, q, env, log1p, hydrate)).0), p)
      && (IsThreadResponse(t, root, q, env, hydrate, rows, items) ==> ExposedByReferences(t, items, p))
  {
    FeedsExposure(es, p, ForYou(w), q, env, log1p, hydrate, hits);
    FeedsExposure(es, p, Following(w), q, env, log1p, hydrate, []);
    if IsThreadResponse(Run(EMPTY, es), root, q, env, hydrate, rows, items) {
      ThreadExposure(Run(EMPTY, es), root, q, env, hydrate, rows, items, p);
    }
  }

  /** From the commit of the safety task on, a flagged post is one of those. */
  lemma FlaggedIsLabelled(before: seq<Event>, p: PostId, after: seq<Event>)
    requires p in Run(EMPTY, before).posts && Flagged(Run(EMPTY, before).posts[p].body)
    ensures Labelled(Run(EMPTY, before + [RunTask(ApplyLabels, p)] + after), p)
  {
    LabelledForGood(before, p, after);
    RunConcat(EMPTY, before, [RunTask(ApplyLabels, p)] + after);
    RunEvolves(Run(EMPTY, before), [RunTask(ApplyLabels, p)] + after);
    assert before + [RunTask(ApplyLabels, p)] + after == before + ([RunTask(ApplyLabels, p)] + after);
  }

  /** A repost has no text of its own. */
  ghost predicate RepostsBlank(posts: map<PostId, Post>) {
    forall p :: p in posts && posts[p].repostOf.Some? ==> posts[p].body == ""
  }

  lemma CreatedBlank(t: Tables, me: UserId, id: PostId, now: int, req: PostRequest)
    requires CreatePost(t, me, id, now, req).Success?
    ensures var b := CreatePost(t, me, id, now, req).value.posts;
      id in b && (b[id].repostOf.Some? ==> b[id].body == "")
  {
  }

  lemma {:induction false} RepostsBlankAlways(es: seq<Event>)
    ensures RepostsBlank(Run(EMPTY, es).posts)
  {
    if es != [] {
      var t, e := Run(EMPTY, es[..|es| - 1]), es[|es| - 1];
      RepostsBlankAlways(es[..|es| - 1]);
      StepEvolves(t, e);
      if e.Create? && Attempt(t, e).Success? {
        CreatedBlank(t, e.me, e.id, e.now, e.req);
      }
    }
  }

  predicate Moderated(es: seq<Event>, p: PostId) {
    exists e :: e in es && IsModeration(e, p)
  }

  /** A stored label was called for by the text of the post or written by a moderator. */
  lemma {:induction false} LabelOrigin(es: seq<Event>, p: PostId)
    ensures var t := Run(EMPTY, es);
      (p, Nsfw) in t.labels ==> Moderated(es, p) || (p in t.posts && Flagged(t.posts[p].body))
  {
    if es != [] {
      var init, e := es[..|es| - 1], es[|es| - 1];
      LabelOrigin(init, p);
      StepEvolves(Run(EMPTY, init), e);
      StepLabels(Run(EMPTY, init), e, p);
      assert es == init + [e];
    }
  }

  /** So an item that reposts a labelled post has no label, unless a moderator labels the repost or its author: it prints
      the text. */
  lemma RepostExposes(es: seq<Event>, items: seq<Item>, item: Item, p: PostId)
    requires var t := Run(EMPTY, es);
      && p in t.posts && !t.posts[p].deleted && ExposedByReferences(t, items, p)
      && item in items && item.id in t.posts && t.posts[item.id].repostOf == Some(p)
      && !Moderated(es, item.id) && (Nsfw in item.labels ==> (item.id, Nsfw) in t.labels)
    ensures exists shown :: shown in items && Exposes(shown, p, Run(EMPTY, es).posts[p].body)
  {
    RepostsBlankAlways(es);
    LabelOrigin(es, item.id);
    assert Carries(Run(EMPTY, es), item, p);
  }

  // ----- A labelled text before a minor

  /** User 0 posts a text that gets labelled, and reposts it. */
  const REPOSTED: seq<Event> := [
    SignUp(0, false), Create(0, 0, 0, EXPLICIT), RunTask(Publish, 0), RunTask(ApplyLabels, 0), Create(0, 1, 1, REPOST),
    RunTask(Publish, 1)]

  const EXPLICIT := PLAIN_POST.(body := "nsfw")
  const REPOST := PLAIN_POST.(body := "", repostOf := Some(0))
  const ORIGINAL_ROW := Post(0, "nsfw", Public, Published, 0, false, None, None, None, None)
  const REPOST_ROW := Post(0, "", Public, Published, 1, false, None, None, None, Some(0))

  const EXPLICIT_POSTED := SIGNED_UP.(posts := map[0 := ORIGINAL_ROW])
  const BOTH_POSTS: map<PostId, Post> := map[0 := ORIGINAL_ROW, 1 := REPOST_ROW]

  lemma ExplicitPosted()
    ensures Step(Step(SIGNED_UP, Create(0, 0, 0, EXPLICIT)), RunTask(Publish, 0)) == EXPLICIT_POSTED
  {
    assert !IsSpace("nsfw"[0]);
    assert Step(SIGNED_UP, Create(0, 0, 0, EXPLICIT)) == SIGNED_UP.(posts := map[0 := ORIGINAL_ROW.(status := Processing)]);
  }

  lemma TaskLabelsPost(t: Tables, p: PostId)
    requires p in t.posts && Flagged(t.posts[p].body)
    ensures var next := Step(t, RunTask(ApplyLabels, p));
      next == t.(labels := next.labels) && (p, Nsfw) in next.labels && forall k :: k in next.labels ==> k in t.labels || k.0 == p
  {
  }

  lemma ExplicitLabelled()
    ensures var t := Step(EXPLICIT_POSTED, RunTask(ApplyLabels, 0));
      t == EXPLICIT_POSTED.(labels := t.labels) && (0, Nsfw) in t.labels && forall k :: k in t.labels ==> k.0 == 0
  {
    NsfwIsFlagged();
    assert EXPLICIT_POSTED.posts[0].body == "nsfw" && EXPLICIT_POSTED.labels == map[];
    TaskLabelsPost(EXPLICIT_POSTED, 0);
  }

  lemma RepostPublished(t: Tables)
    requires t == EXPLICIT_POSTED.(labels := t.labels)
    ensures Step(Step(t, Create(0, 1, 1, REPOST)), RunTask(Publish, 1)) == t.(posts := BOTH_POSTS)
  {
    assert Step(t, Create(0, 1, 1, REPOST)) == t.(posts := map[0 := ORIGINAL_ROW, 1 := REPOST_ROW.(status := Processing)]);
  }

  lemma RepostedStore()
    ensures var t := Run(EMPTY, REPOSTED);
      t.posts == BOTH_POSTS && (0, Nsfw) in t.labels && forall k :: k in t.labels ==> k.0 == 0
  {
    assert Step(EMPTY, SignUp(0, false)) == SIGNED_UP;
    ExplicitPosted();
    ExplicitLabelled();
    RepostPublished(Step(EXPLICIT_POSTED, RunTask(ApplyLabels, 0)));
    SixEvents(SignUp(0, false), Create(0, 0, 0, EXPLICIT), RunTask(Publish, 0), RunTask(ApplyLabels, 0),
              Create(0, 1, 1, REPOST), RunTask(Publish, 1));
  }

  lemma SixEvents(a: Event, b: Event, c: Event, d: Event, e: Event, f: Event)
    ensures Run(EMPTY, [a, b, c, d, e, f]) == Step(Step(Step(Step(Step(Step(EMPTY, a), b), c), d), e), f)
  {
    FiveEvents(a, b, c, d, e);
    RunSnoc(EMPTY, [a, b, c, d, e], f);
    assert [a, b, c, d, e] + [f] == [a, b, c, d, e, f];
  }

  /** The hydrators over a store, for everything but author labels and rank signals. */
  function FromStore(t: Tables): Candidate -> Candidate {
    (c: Candidate) =>
      c.(labels := StoredLabels(t, c.id), quoted := ToRef(t, c.quoteOf), reposted := ToRef(t, c.repostOf))
  }

  lemma FromStoreReads(t: Tables)
    ensures ReadsStore(t, FromStore(t))
  {
  }

  /** A viewer of ten, who follows and blocks nobody. */
  const CHILD := FeedQuery(9, {}, {}, {}, {}, {}, {}, {}, Some(Date(2010, 1, 1)), None, 20)
  const TODAY := Env(0, Date(2020, 1, 1), (s: string) => s)

  lemma RepostPasses(c: Candidate)
    requires c.author == 0 && !c.authorInfo.suspended && !c.authorInfo.isPrivate && c.visibility == Public
    requires c.Labels() == {}
    ensures Decide(THREAD, Context(CHILD, c, TODAY)) == Allow
  {
    forall r | r in THREAD
      ensures Evaluate(r, Context(CHILD, c, TODAY)) == Allow
    {
      assert !MutedByKeyword(CHILD.mutedKeywords, TODAY.lower(c.body));
    }
  }

  const REPOST_ITEM := Item(1, "", None, Some(Reference(0, Some(0), "nsfw")), false, {})

  lemma RepostCard(t: Tables)
    requires t.posts == BOTH_POSTS && forall k :: k in t.labels ==> k.0 == 0
    ensures ThreadVerdict(t.posts, CHILD, TODAY, FromStore(t), 1) == Allow
    ensures Card(t.posts, CHILD, TODAY, FromStore(t), 1) == REPOST_ITEM
  {
    var row := Judged(t.posts, FromStore(t), 1);
    assert StoredLabels(t, 1) == {};
    assert row.Labels() == {};
    RepostPasses(row);
  }

  /** The thread of the repost prints the labelled text to a minor, uncovered. */
  lemma ShownToMinor()
    ensures var t := Run(EMPTY, REPOSTED);
      && Labelled(t, 0) && ReadsStore(t, FromStore(t)) && !IsAdult(CHILD.birthdate, TODAY.today)
      && IsThreadResponse(t, 1, CHILD, TODAY, FromStore(t), [1], [REPOST_ITEM])
      && Exposes(REPOST_ITEM, 0, t.posts[0].body)
  {
    RepostedStore();
    ChildSees(Run(EMPTY, REPOSTED));
    FromStoreReads(Run(EMPTY, REPOSTED));
  }

  lemma ChildSees(t: Tables)
    requires t.posts == BOTH_POSTS && forall k :: k in t.labels ==> k.0 == 0
    ensures IsThreadResponse(t, 1, CHILD, TODAY, FromStore(t), [1], [REPOST_ITEM])
  {
    var passing := Passing(t.posts, CHILD, TODAY, FromStore(t), [1]);
    RepostCard(t);
    assert 1 in [1];
    assert passing == {1};
    OnlyRepostShown(t.posts, passing);
    assert CardsOf(t.posts, CHILD, TODAY, FromStore(t), [1], [REPOST_ITEM]);
  }

  lemma OnlyRepostShown(posts: map<PostId, Post>, passing: set<PostId>)
    requires posts == BOTH_POSTS && passing == {1}
    ensures IsPage(posts, 1, passing, [1])
  {
    assert RootPath(posts, 1, [1]);
    assert ShownBy(posts, 1, passing, 1, [1]);
    forall p | Shown(posts, 1, passing, p)
      ensures p in [1]
    {
      var path :| ShownBy(posts, 1, passing, p, path);
      assert path[0] in passing;
    }
  }

  // ----- Profile tabs

  /** A card without rules. */
  function PlainCard(t: Tables, p: PostId): Item
    requires p in t.posts
  {
    Item(p, t.posts[p].body, ToRef(t, t.posts[p].quoteOf), ToRef(t, t.posts[p].repostOf), false, {})
  }

  predicate PrintedBy(t: Tables, r: PostId, p: PostId)
    requires p in t.posts
  {
    r in t.posts && Exposes(PlainCard(t, r), p, t.posts[p].body)
  }

  lemma PlainCardExposes(t: Tables, r: PostId, p: PostId)
    requires r in t.posts && p in t.posts && t.posts[p].body != ""
    ensures PrintedBy(t, r, p) <==> r == p || (!t.posts[p].deleted && RefersTo(t.posts[r], p))
  {
  }

  lemma TabListed(t: Tables, viewer: Option<UserId>, user: UserId, replies: bool, limit: nat, k: Key)
    requires limit >= 1 && k in Concat(Walk(TabKeys(t, viewer, user, replies), None, limit))
    ensures OnTab(t, viewer, user, replies, k.id)
  {
    var keys := TabKeys(t, viewer, user, replies);
    WalkEnumerates(keys, None, limit);
    assert Below(keys, None) == keys;
    assert k in Ordered(keys);
  }

  /** Profile tabs apply no rule: paging through a tab prints the text of a post exactly when the post is on it, or is not
      deleted and quoted or reposted by one that is, whatever labels are stored. */
  lemma TabExposes(t: Tables, viewer: Option<UserId>, user: UserId, replies: bool, limit: nat, p: PostId)
    requires limit >= 1 && p in t.posts && t.posts[p].body != ""
    ensures (exists k :: k in Concat(Walk(TabKeys(t, viewer, user, replies), None, limit)) && PrintedBy(t, k.id, p)) <==>
      OnTab(t, viewer, user, replies, p)
      || (!t.posts[p].deleted && exists r :: OnTab(t, viewer, user, replies, r) && RefersTo(t.posts[r], p))
  {
    var listed := Concat(Walk(TabKeys(t, viewer, user, replies), None, limit));
    forall k | k in listed
      ensures OnTab(t, viewer, user, replies, k.id)
      ensures PrintedBy(t, k.id, p) <==> k.id == p || (!t.posts[p].deleted && RefersTo(t.posts[k.id], p))
    {
      TabListed(t, viewer, user, replies, limit, k);
      PlainCardExposes(t, k.id, p);
    }
    forall r | OnTab(t, viewer, user, replies, r)
      ensures KeyOf(t, r) in listed && KeyOf(t, r).id == r
      ensures PrintedBy(t, r, p) <==> r == p || (!t.posts[p].deleted && RefersTo(t.posts[r], p))
    {
      TabEnumerated(t, viewer, user, replies, limit, r);
      PlainCardExposes(t, r, p);
    }
  }
}
