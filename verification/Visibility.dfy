/** What the rule lists decide, written out over query, candidate and time, and what the pages then show. */
module Visibility {
  import opened Options
  import opened Keyset
  import opened SocialModel
  import opened SocialRuns
  import opened References
  import opened FeedTypes
  import opened FeedSources
  import opened Sorting
  import opened Ranking
  import opened Blending
  import opened Policy
  import opened FeedPipeline
  import opened FollowingFeed
  import opened ThreadIndex
  import opened ThreadView
  import opened ThreadPage
  import opened PostCreation
  import opened PostSearch
  import opened SafeSurfaces
  import opened Exposure

  // ----- The conditions

  /** Neither blocked nor muted by the viewer, and not suspended. */
  predicate AuthorWelcome(q: FeedQuery, c: Candidate) {
    c.author !in q.blocked && c.author !in q.muted && !c.authorInfo.suspended
  }

  /** The viewer's own, of a followed author, or public and of an account that is not private. */
  predicate OpenTo(q: FeedQuery, c: Candidate) {
    || c.author == q.viewer || c.author in q.following
    || (!c.authorInfo.isPrivate && c.visibility == Public)
  }

  /** Some muted keyword stands in the lower-cased text. */
  ghost predicate HoldsMutedWord(q: FeedQuery, c: Candidate, env: Env) {
    exists k, i :: k in q.mutedKeywords && k != "" && 0 <= i <= |env.lower(c.body)| && k <= env.lower(c.body)[i..]
  }

  /** Viewers who are known to be under eighteen get no post with the label. */
  predicate AgeFits(q: FeedQuery, c: Candidate, env: Env) {
    (Nsfw in c.labels || Nsfw in c.authorLabels) ==>
      q.birthdate.None? || OnOrBefore(q.birthdate.value.(year := q.birthdate.value.year + 18), env.today)
  }

  /** What every surface asks. */
  ghost predicate Shareable(q: FeedQuery, c: Candidate, env: Env) {
    AuthorWelcome(q, c) && OpenTo(q, c) && !HoldsMutedWord(q, c, env) && AgeFits(q, c, env)
  }

  /** The parent of a reply is there, its author is neither blocked, muted nor suspended, and it is the viewer's own, of a
      followed author, or public and of an account that is not private. */
  predicate ParentFits(q: FeedQuery, c: Candidate) {
    c.parent.Some? ==>
      && !c.parentInfo.missing && c.parentInfo.author.Some?
      && var author := c.parentInfo.author.value;
      && author !in q.blocked && author !in q.muted && !c.parentInfo.suspended
      && (author == q.viewer || author in q.following || (!c.parentInfo.isPrivate && c.parentInfo.visibility == Public))
  }

  /** The feeds also leave out what the viewer hid and replies under a parent that would not be shown. */
  ghost predicate FeedWorthy(q: FeedQuery, c: Candidate, env: Env) {
    Shareable(q, c, env) && c.id !in q.hidden && ParentFits(q, c)
  }

  /** Home also leaves out what is older than 48 hours, and of the out-of-network posts the replies and labelled ones. */
  ghost predicate HomeWorthy(q: FeedQuery, c: Candidate, env: Env) {
    && FeedWorthy(q, c, env)
    && env.now - c.createdAt <= 48 * 3600
    && (c.source == Oon ==>
         c.parent.None? && forall l :: l in c.labels + c.authorLabels ==> l != Nsfw && l != DoNotAmplify && l != SpamSuspect)
  }

  // ----- The lists decide exactly that

  lemma ListMembers(r: Rule)
    ensures r in HOME
    ensures r in FOLLOWING <==> !r.AgeRule? && !r.OonReplyRule? && !r.OonAmplificationRule?
    ensures r in THREAD <==> r in FOLLOWING && !r.HiddenPostRule? && !r.ReplyAncillaryRule?
  {
    HomeHolds(r);
    FollowingHolds(r);
    ThreadHolds(r);
  }

  lemma HomeHolds(r: Rule)
    ensures r in HOME
  {
    assert HOME[0] == HiddenPostRule && HOME[1] == AgeRule && HOME[2] == BlockedAuthorRule && HOME[3] == MutedAuthorRule
      && HOME[4] == MutedKeywordRule && HOME[5] == SuspendedAuthorRule && HOME[6] == PrivateAccountRule;
    assert HOME[7] == FollowersOnlyPostRule && HOME[8] == OonReplyRule && HOME[9] == OonAmplificationRule
      && HOME[10] == ReplyAncillaryRule && HOME[11] == ViewerAgeGateRule && HOME[12] == SensitiveInterstitialRule;
  }

  lemma FollowingHolds(r: Rule)
    ensures r in FOLLOWING <==> !r.AgeRule? && !r.OonReplyRule? && !r.OonAmplificationRule?
  {
    assert FOLLOWING[0] == HiddenPostRule && FOLLOWING[1] == BlockedAuthorRule && FOLLOWING[2] == MutedAuthorRule
      && FOLLOWING[3] == MutedKeywordRule && FOLLOWING[4] == SuspendedAuthorRule && FOLLOWING[5] == PrivateAccountRule;
    assert FOLLOWING[6] == FollowersOnlyPostRule && FOLLOWING[7] == ReplyAncillaryRule
      && FOLLOWING[8] == ViewerAgeGateRule && FOLLOWING[9] == SensitiveInterstitialRule;
  }

  lemma ThreadHolds(r: Rule)
    ensures r in THREAD <==>
      r.BlockedAuthorRule? || r.MutedAuthorRule? || r.MutedKeywordRule? || r.SuspendedAuthorRule? || r.PrivateAccountRule?
      || r.FollowersOnlyPostRule? || r.ViewerAgeGateRule? || r.SensitiveInterstitialRule?
  {
    assert THREAD[0] == BlockedAuthorRule && THREAD[1] == MutedAuthorRule && THREAD[2] == MutedKeywordRule
      && THREAD[3] == SuspendedAuthorRule && THREAD[4] == PrivateAccountRule && THREAD[5] == FollowersOnlyPostRule
      && THREAD[6] == ViewerAgeGateRule && THREAD[7] == SensitiveInterstitialRule;
  }

  /** What each rule of a thread asks. */
  lemma AuthorRules(x: Context)
    ensures var (q, c) := (x.query, x.candidate);
      && (Evaluate(BlockedAuthorRule, x) != Drop <==> c.author !in q.blocked)
      && (Evaluate(MutedAuthorRule, x) != Drop <==> c.author !in q.muted)
      && (Evaluate(SuspendedAuthorRule, x) != Drop <==> !c.authorInfo.suspended)
      && (Evaluate(PrivateAccountRule, x) != Drop && Evaluate(FollowersOnlyPostRule, x) != Drop <==> OpenTo(q, c))
  {
  }

  lemma TextRules(x: Context)
    ensures Evaluate(MutedKeywordRule, x) != Drop <==> !HoldsMutedWord(x.query, x.candidate, x.env)
    ensures Evaluate(ViewerAgeGateRule, x) != Drop <==> AgeFits(x.query, x.candidate, x.env)
    ensures Evaluate(SensitiveInterstitialRule, x) != Drop
  {
    var (q, c) := (x.query, x.candidate);
    if q.birthdate.Some? {
      AdultFromBirthday(q.birthdate.value, x.env.today);
    }
    assert MutedByKeyword(q.mutedKeywords, x.env.lower(c.body)) <==> HoldsMutedWord(q, c, x.env);
  }

  predicate NoneDrops(x: Context) {
    && Evaluate(BlockedAuthorRule, x) != Drop && Evaluate(MutedAuthorRule, x) != Drop
    && Evaluate(MutedKeywordRule, x) != Drop && Evaluate(SuspendedAuthorRule, x) != Drop
    && Evaluate(PrivateAccountRule, x) != Drop && Evaluate(FollowersOnlyPostRule, x) != Drop
    && Evaluate(ViewerAgeGateRule, x) != Drop && Evaluate(SensitiveInterstitialRule, x) != Drop
  }

  lemma ThreadRules(x: Context)
    ensures (forall r :: r in THREAD ==> Evaluate(r, x) != Drop) <==> NoneDrops(x)
  {
    forall r: Rule
      ensures r in THREAD <==>
        r.BlockedAuthorRule? || r.MutedAuthorRule? || r.MutedKeywordRule? || r.SuspendedAuthorRule? || r.PrivateAccountRule?
        || r.FollowersOnlyPostRule? || r.ViewerAgeGateRule? || r.SensitiveInterstitialRule?
    {
      ThreadHolds(r);
    }
  }

  lemma ThreadAnswer(x: Context)
    ensures Decide(THREAD, x) != Drop <==> Shareable(x.query, x.candidate, x.env)
  {
    ThreadRules(x);
    AuthorRules(x);
    TextRules(x);
  }

  lemma HiddenAndParent(x: Context)
    ensures Evaluate(HiddenPostRule, x) != Drop <==> x.candidate.id !in x.query.hidden
    ensures Evaluate(ReplyAncillaryRule, x) != Drop <==> ParentFits(x.query, x.candidate)
  {
  }

  lemma FollowingAnswer(x: Context)
    ensures Decide(FOLLOWING, x) != Drop <==> FeedWorthy(x.query, x.candidate, x.env)
  {
    ThreadAnswer(x);
    HiddenAndParent(x);
    forall r: Rule
      ensures r in FOLLOWING <==> r in THREAD || r.HiddenPostRule? || r.ReplyAncillaryRule?
    {
      ListMembers(r);
    }
  }

  lemma HomeRules(x: Context)
    ensures Evaluate(AgeRule, x) != Drop <==> x.env.now - x.candidate.createdAt <= 48 * 3600
    ensures Evaluate(OonReplyRule, x) != Drop && Evaluate(OonAmplificationRule, x) != Drop <==>
      (x.candidate.source == Oon ==>
        x.candidate.parent.None?
        && forall l :: l in x.candidate.labels + x.candidate.authorLabels ==> l != Nsfw && l != DoNotAmplify && l != SpamSuspect)
  {
  }

  lemma HomeAnswer(x: Context)
    ensures Decide(HOME, x) != Drop <==> HomeWorthy(x.query, x.candidate, x.env)
  {
    FollowingAnswer(x);
    HomeRules(x);
    forall r: Rule
      ensures r in HOME <==> r in FOLLOWING || r.AgeRule? || r.OonReplyRule? || r.OonAmplificationRule?
    {
      ListMembers(r);
    }
  }

  /** What is not dropped is covered exactly when it has the label and is in-network; its viewer is then no minor. */
  lemma CoverAnswer(rules: seq<Rule>, x: Context)
    requires rules == HOME || rules == FOLLOWING || rules == THREAD
    requires Decide(rules, x) != Drop
    ensures Decide(rules, x) == Interstitial <==>
      (Nsfw in x.candidate.labels || Nsfw in x.candidate.authorLabels) && x.candidate.source != Oon
  {
    ListMembers(SensitiveInterstitialRule);
    ListMembers(ViewerAgeGateRule);
    assert Evaluate(ViewerAgeGateRule, x) != Drop;
  }

  // ----- The feed pages

  /** Nothing else is on a page of For You. */
  lemma ForYouShowsWorthy(w: Weights, q: FeedQuery, env: Env, log1p: int -> real, hydrate: Candidate -> Candidate,
                          thunder: seq<Candidate>, oon: seq<Candidate>, c: Candidate)
    requires c in Selected(q, Surfaced(ForYou(w), q, env, log1p, hydrate, thunder, oon)).0
    ensures HomeWorthy(q, c, env)
  {
    var d := SurfacedFrom(ForYou(w), q, env, log1p, hydrate, thunder, oon, c);
    HomeAnswer(Context(q, d, env));
  }

  lemma {:induction false} PassedIf(rules: seq<Rule>, q: FeedQuery, env: Env, cs: seq<Candidate>, i: nat)
    requires i < |cs| && Decide(rules, Context(q, cs[i], env)) != Drop
    ensures cs[i].(interstitial := Decide(rules, Context(q, cs[i], env)) == Interstitial) in Passed(rules, q, env, cs)
  {
    if i > 0 {
      PassedIf(rules, q, env, cs[1..], i - 1);
    }
  }

  /** The label asks for a cover. */
  predicate MustCover(c: Candidate) {
    (Nsfw in c.labels || Nsfw in c.authorLabels) && c.source != Oon
  }

  lemma FollowingPassed(q: FeedQuery, env: Env, all: seq<Candidate>, c: Candidate)
    ensures c in Passed(FOLLOWING, q, env, all) <==>
      exists d :: d in all && FeedWorthy(q, d, env) && c == d.(interstitial := MustCover(d))
  {
    if c in Passed(FOLLOWING, q, env, all) {
      PassedMembers(FOLLOWING, q, env, all, c);
      var d :| d in all && Decide(FOLLOWING, Context(q, d, env)) != Drop
        && c == d.(interstitial := Decide(FOLLOWING, Context(q, d, env)) == Interstitial);
      FollowingAnswer(Context(q, d, env));
      CoverAnswer(FOLLOWING, Context(q, d, env));
    }
    forall d | d in all && FeedWorthy(q, d, env)
      ensures d.(interstitial := MustCover(d)) in Passed(FOLLOWING, q, env, all)
    {
      var i :| 0 <= i < |all| && all[i] == d;
      FollowingAnswer(Context(q, d, env));
      CoverAnswer(FOLLOWING, Context(q, d, env));
      PassedIf(FOLLOWING, q, env, all, i);
    }
  }

  /** The Following rows are exactly the hydrated cache rows that fit, covered where the label asks for it. */
  lemma FollowingShowsWorthy(w: Weights, q: FeedQuery, env: Env, log1p: int -> real, hydrate: Candidate -> Candidate,
                             thunder: seq<Candidate>, c: Candidate)
    ensures c in Surfaced(Following(w), q, env, log1p, hydrate, thunder, []) <==>
      exists g :: g in thunder && FeedWorthy(q, hydrate(g), env) && c == hydrate(g).(interstitial := MustCover(hydrate(g)))
  {
    var all := Hydrated(hydrate, thunder);
    RecencyOrder();
    StableSortMembers(ByRecency(), Passed(FOLLOWING, q, env, all));
    FollowingPassed(q, env, all, c);
    if c in Passed(FOLLOWING, q, env, all) {
      var d :| d in all && FeedWorthy(q, d, env) && c == d.(interstitial := MustCover(d));
      var i :| 0 <= i < |all| && all[i] == d;
      assert thunder[i] in thunder && hydrate(thunder[i]) == d;
    }
    forall g | g in thunder
      ensures hydrate(g) in all
    {
      var i :| 0 <= i < |thunder| && thunder[i] == g;
      assert all[i] == hydrate(g);
    }
  }

  // ----- The thread page

  /** The hydrators keep the columns of the post and fill in the author's. */
  ghost predicate ReadsAuthors(t: Tables, hydrate: Candidate -> Candidate) {
    forall c :: var d := hydrate(c);
      && d.id == c.id && d.author == c.author && d.body == c.body && d.visibility == c.visibility
      && d.createdAt == c.createdAt && d.source == c.source && d.parent == c.parent && d.root == c.root
      && d.authorInfo.isPrivate == (c.author in t.users && t.users[c.author].isPrivate)
  }

  /** A live post may be shown to the viewer in a thread. */
  ghost predicate ThreadWorthy(t: Tables, q: FeedQuery, env: Env, hydrate: Candidate -> Candidate, p: PostId) {
    PublishedAndThere(t, p) && Shareable(q, hydrate(FromPost(p, t.posts[p], t.posts[p].createdAt, InNetwork, None)), env)
  }

  /** The climb from `p` to the root, through such posts only. */
  ghost predicate WorthyPath(t: Tables, root: PostId, q: FeedQuery, env: Env, hydrate: Candidate -> Candidate, p: PostId,
                             path: seq<PostId>) {
    && RootPath(t.posts, p, path) && path[|path| - 1] == root
    && forall i :: 0 <= i < |path| ==> ThreadWorthy(t, q, env, hydrate, path[i])
  }

  lemma ShownIsWorthy(t: Tables, root: PostId, q: FeedQuery, env: Env, hydrate: Candidate -> Candidate, rows: seq<PostId>,
                      p: PostId, path: seq<PostId>)
    requires RootsOk(t.posts) && forall r :: r in rows <==> r in ThreadSelect(t.posts, root)
    ensures ShownBy(t.posts, root, Passing(t.posts, q, env, hydrate, rows), p, path) <==>
            WorthyPath(t, root, q, env, hydrate, p, path)
  {
    if RootPath(t.posts, p, path) && path[|path| - 1] == root {
      forall i | 0 <= i < |path|
        ensures t.posts[path[i]].Live() && path[i] in Passing(t.posts, q, env, hydrate, rows) <==>
                ThreadWorthy(t, q, env, hydrate, path[i])
      {
        PathStaysInThread(t.posts, p, path, i);
        if t.posts[path[i]].Live() {
          PassingIsWorthy(t, q, env, hydrate, rows, path[i]);
        }
      }
    }
  }

  /** The answer of a thread request: an item for a post exactly when the post climbs to the root through posts that are live
      and fit, itself included. */
  lemma ThreadShowsWorthy(t: Tables, root: PostId, q: FeedQuery, env: Env, hydrate: Candidate -> Candidate,
                          rows: seq<PostId>, items: seq<Item>, p: PostId)
    requires RootsOk(t.posts) && ReadsAuthors(t, hydrate) && IsThreadResponse(t, root, q, env, hydrate, rows, items)
    requires forall r :: r in rows <==> r in ThreadSelect(t.posts, root)
    ensures (exists item :: item in items && item.id == p) <==>
      exists path :: WorthyPath(t, root, q, env, hydrate, p, path)
  {
    var passing := Passing(t.posts, q, env, hydrate, rows);
    var page :| IsPage(t.posts, root, passing, page) && CardsOf(t.posts, q, env, hydrate, page, items);
    ItemsArePage(t.posts, q, env, hydrate, page, items, p);
    forall path: seq<PostId>
      ensures ShownBy(t.posts, root, passing, p, path) <==> WorthyPath(t, root, q, env, hydrate, p, path)
    {
      ShownIsWorthy(t, root, q, env, hydrate, rows, p, path);
    }
  }

  lemma PassingIsWorthy(t: Tables, q: FeedQuery, env: Env, hydrate: Candidate -> Candidate, rows: seq<PostId>, p: PostId)
    requires p in t.posts && t.posts[p].Live()
    ensures p in Passing(t.posts, q, env, hydrate, rows) <==> p in rows && ThreadWorthy(t, q, env, hydrate, p)
  {
    ThreadAnswer(Context(q, Judged(t.posts, hydrate, p), env));
  }

  lemma ItemsArePage(posts: map<PostId, Post>, q: FeedQuery, env: Env, hydrate: Candidate -> Candidate, page: seq<PostId>,
                     items: seq<Item>, p: PostId)
    requires (forall c :: hydrate(c).id == c.id) && CardsOf(posts, q, env, hydrate, page, items)
    ensures (exists item :: item in items && item.id == p) <==> p in page
  {
    forall i | 0 <= i < |page|
      ensures items[i].id == page[i] && items[i] in items
    {
      assert Judged(posts, hydrate, page[i]).id == page[i];
    }
  }

  // ----- Over the store

  /** The query hydrators: who the viewer follows, the viewer included, and whom the viewer blocks. */
  ghost predicate ReadsEdges(t: Tables, q: FeedQuery) {
    && (forall u :: u in q.following <==> u == q.viewer || (q.viewer, u) in t.follows)
    && (forall u :: u in q.blocked <==> (q.viewer, u) in t.blocks)
  }

  /** A stored post that the viewer may read: not by somebody the viewer blocks, and the viewer's own, of a followed author,
      or public and of an account that is not private. */
  predicate MayRead(t: Tables, viewer: UserId, p: PostId) {
    p in t.posts && (viewer, t.posts[p].author) !in t.blocks && Readable(t, viewer, p)
  }

  lemma WorthyMayRead(t: Tables, q: FeedQuery, env: Env, hydrate: Candidate -> Candidate, g: Candidate, c: Candidate)
    requires ReadsAuthors(t, hydrate) && ReadsEdges(t, q) && Stored(t, g) && Shareable(q, c, env)
    requires c.id == g.id && c.author == g.author && c.visibility == g.visibility && c.authorInfo == hydrate(g).authorInfo
    ensures MayRead(t, q.viewer, c.id)
  {
    assert hydrate(g).authorInfo.isPrivate == (g.author in t.users && t.users[g.author].isPrivate);
  }

  lemma DecidedMayRead(t: Tables, s: Surface, q: FeedQuery, env: Env, hydrate: Candidate -> Candidate, g: Candidate)
    requires s == ForYou(s.weights) || s == Following(s.weights)
    requires ReadsAuthors(t, hydrate) && ReadsEdges(t, q) && Stored(t, g)
    requires Decide(s.rules, Context(q, hydrate(g), env)) != Drop
    ensures MayRead(t, q.viewer, g.id)
  {
    if s == ForYou(s.weights) {
      HomeAnswer(Context(q, hydrate(g), env));
    } else {
      FollowingAnswer(Context(q, hydrate(g), env));
    }
    WorthyMayRead(t, q, env, hydrate, g, hydrate(g));
  }

  lemma PageMayRead(t: Tables, s: Surface, q: FeedQuery, env: Env, log1p: int -> real, hydrate: Candidate -> Candidate,
                    thunder: seq<Candidate>, oon: seq<Candidate>, c: Candidate)
    requires s == ForYou(s.weights) || s == Following(s.weights)
    requires ReadsAuthors(t, hydrate) && ReadsEdges(t, q) && AllStored(t, thunder) && AllStored(t, oon)
    requires c in Selected(q, Surfaced(s, q, env, log1p, hydrate, thunder, oon)).0
    ensures MayRead(t, q.viewer, c.id)
  {
    var g, mark := RowFrom(s, q, env, log1p, hydrate, thunder, oon, c);
    GatheredStored(t, s, q, thunder, oon);
    DecidedMayRead(t, s, q, env, hydrate, g);
    SameId(t, hydrate, g, c, mark);
  }

  lemma SameId(t: Tables, hydrate: Candidate -> Candidate, g: Candidate, c: Candidate, mark: bool)
    requires ReadsAuthors(t, hydrate) && SameButScore(c, hydrate(g).(interstitial := mark))
    ensures c.id == g.id
  {
    assert hydrate(g).id == g.id;
  }

  /** Over every reachable store: whatever a feed or thread shows, the viewer may read. */
  lemma PagesRespectStore(es: seq<Event>, w: Weights, q: FeedQuery, env: Env, log1p: int -> real,
                          hydrate: Candidate -> Candidate, hits: seq<Hit>, root: PostId, rows: seq<PostId>, items: seq<Item>)
    requires ReadsAuthors(Run(EMPTY, es), hydrate) && ReadsEdges(Run(EMPTY, es), q)
    ensures var t := Run(EMPTY, es);
      && (forall c :: c in Selected(q, ForYouRows(t, w, q, env, log1p, hydrate, hits)).0 ==> MayRead(t, q.viewer, c.id))
      && (forall c :: c in Selected(q, FollowingRows(t, w, q, env, log1p, hydrate)).0 ==> MayRead(t, q.viewer, c.id))
      && (IsThreadResponse(t, root, q, env, hydrate, rows, items) ==>
           forall item :: item in items ==> MayRead(t, q.viewer, item.id))
  {
    var t := Run(EMPTY, es);
    var thunder := ThunderFetch(t, q.viewer, q.cursor, q.limit);
    ThunderStored(es, q.viewer, q.cursor, q.limit);
    OonStored(t, hits);
    forall c | c in Selected(q, ForYouRows(t, w, q, env, log1p, hydrate, hits)).0
      ensures MayRead(t, q.viewer, c.id)
    {
      PageMayRead(t, ForYou(w), q, env, log1p, hydrate, thunder, OonFetch(t, hits), c);
    }
    forall c | c in Selected(q, FollowingRows(t, w, q, env, log1p, hydrate)).0
      ensures MayRead(t, q.viewer, c.id)
    {
      PageMayRead(t, Following(w), q, env, log1p, hydrate, thunder, [], c);
    }
    if IsThreadResponse(t, root, q, env, hydrate, rows, items) {
      forall item | item in items
        ensures MayRead(t, q.viewer, item.id)
      {
        ThreadMayRead(t, root, q, env, hydrate, rows, items, item);
      }
    }
  }

  lemma ThreadMayRead(t: Tables, root: PostId, q: FeedQuery, env: Env, hydrate: Candidate -> Candidate, rows: seq<PostId>,
                      items: seq<Item>, item: Item)
    requires ReadsAuthors(t, hydrate) && ReadsEdges(t, q)
    requires IsThreadResponse(t, root, q, env, hydrate, rows, items) && item in items
    ensures MayRead(t, q.viewer, item.id)
  {
    var p := ItemShown(t, root, q, env, hydrate, rows, items, item);
    var row := FromPost(p, t.posts[p], t.posts[p].createdAt, InNetwork, None);
    ThreadAnswer(Context(q, Judged(t.posts, hydrate, p), env));
    WorthyMayRead(t, q, env, hydrate, row, hydrate(row));
  }

  /** A block works one way for readers: that others block the viewer changes neither the query nor the thread. */
  lemma BlockersStayVisible(t: Tables, blocker: UserId, root: PostId, q: FeedQuery, env: Env, hydrate: Candidate -> Candidate,
                            rows: seq<PostId>, items: seq<Item>)
    requires blocker != q.viewer
    ensures var u := t.(blocks := t.blocks + {(blocker, q.viewer)});
      && (ReadsEdges(u, q) <==> ReadsEdges(t, q))
      && (IsThreadResponse(u, root, q, env, hydrate, rows, items) <==> IsThreadResponse(t, root, q, env, hydrate, rows, items))
  {
  }

  // ----- Conversations are threads

  /** A For You page never has two posts of one thread. */
  lemma OnePerThread(es: seq<Event>, w: Weights, q: FeedQuery, env: Env, log1p: int -> real, hydrate: Candidate -> Candidate,
                     hits: seq<Hit>, i: nat, j: nat, root: PostId)
    requires KeepsIdentity(hydrate)
    requires i < j < |ForYouRows(Run(EMPTY, es), w, q, env, log1p, hydrate, hits)|
    ensures var shown := ForYouRows(Run(EMPTY, es), w, q, env, log1p, hydrate, hits);
      BelongsTo(Run(EMPTY, es).posts, shown[i].id, root) ==> !BelongsTo(Run(EMPTY, es).posts, shown[j].id, root)
  {
    var t := Run(EMPTY, es);
    var shown := ForYouRows(t, w, q, env, log1p, hydrate, hits);
    ForYouOverStore(es, w, q, env, log1p, hydrate, hits);
    RowConversation(es, w, q, env, log1p, hydrate, hits, shown[i], root);
    RowConversation(es, w, q, env, log1p, hydrate, hits, shown[j], root);
  }

  lemma RowConversation(es: seq<Event>, w: Weights, q: FeedQuery, env: Env, log1p: int -> real,
                        hydrate: Candidate -> Candidate, hits: seq<Hit>, c: Candidate, root: PostId)
    requires KeepsIdentity(hydrate) && c in ForYouRows(Run(EMPTY, es), w, q, env, log1p, hydrate, hits)
    ensures c.id in Run(EMPTY, es).posts
    ensures Conversation(c) == root <==> BelongsTo(Run(EMPTY, es).posts, c.id, root)
  {
    var t := Run(EMPTY, es);
    var thunder, oon := ThunderFetch(t, q.viewer, q.cursor, q.limit), OonFetch(t, hits);
    ThunderStored(es, q.viewer, q.cursor, q.limit);
    OonStored(t, hits);
    GatheredStored(t, ForYou(w), q, thunder, oon);
    var g, mark := RowFrom(ForYou(w), q, env, log1p, hydrate, thunder, oon, c);
    RootsAlways(es);
    StoredConversation(t, hydrate, g, c, mark, root);
  }

  lemma StoredConversation(t: Tables, hydrate: Candidate -> Candidate, g: Candidate, c: Candidate, mark: bool, root: PostId)
    requires KeepsIdentity(hydrate) && Stored(t, g) && RootsOk(t.posts)
    requires SameButScore(c, hydrate(g).(interstitial := mark))
    ensures c.id in t.posts && (Conversation(c) == root <==> BelongsTo(t.posts, c.id, root))
  {
    assert hydrate(g).id == g.id && hydrate(g).root == g.root && hydrate(g).parent == g.parent;
    StoredRootIsRoot(t.posts, g.id, root);
  }
}
