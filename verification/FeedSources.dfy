/** The two in-network sources: ThunderSource reads the cache, InNetworkSource reads posts and follows. */
module FeedSources {
  import opened Options
  import opened Keyset
  import opened SocialModel
  import opened Requests
  import opened Tasks
  import opened SocialRuns
  import opened FeedCache
  import opened FeedTypes

  /** The viewer's followees and the viewer. */
  function FollowingIds(t: Tables, viewer: UserId): set<UserId> {
    (set e | e in t.follows && e.0 == viewer :: e.1) + {viewer}
  }

  function ThunderKeys(t: Tables, viewer: UserId): set<Key> {
    set k | k in t.feed && k.0 == viewer && t.IsLive(k.1) :: Key(t.feed[k].createdAt, k.1)
  }

  function InNetworkKeys(t: Tables, viewer: UserId): set<Key> {
    set p | p in t.posts && t.posts[p].author in FollowingIds(t, viewer) && t.posts[p].Live() :: KeyOf(t, p)
  }

  /** The candidates of a page of keys, each under the key's timestamp. */
  function Candidates(t: Tables, page: seq<Key>): seq<Candidate> {
    if page == [] then []
    else if page[0].id !in t.posts then Candidates(t, page[1..])
    else [FromPost(page[0].id, t.posts[page[0].id], page[0].time, InNetwork, None)] + Candidates(t, page[1..])
  }

  function ThunderFetch(t: Tables, viewer: UserId, cursor: Option<Key>, limit: nat): seq<Candidate> {
    Candidates(t, Page(ThunderKeys(t, viewer), cursor, limit + 1))
  }

  function InNetworkFetch(t: Tables, viewer: UserId, cursor: Option<Key>, limit: nat): seq<Candidate> {
    Candidates(t, Page(InNetworkKeys(t, viewer), cursor, limit + 1))
  }

  /** Every live post the viewer should see has been through fan-out. */
  ghost predicate Settled(t: Tables, h: History, viewer: UserId) {
    forall p :: p in t.posts && t.posts[p].Live() && Sees(t, viewer, t.posts[p].author) ==> p in h.fanned
  }

  /** Each followee had at most BACKFILL_LIMIT live posts when the viewer's follow edge was created. */
  ghost predicate SmallFollowees(t: Tables, h: History, viewer: UserId) {
    forall a: UserId :: Follows(t, viewer, a) && (viewer, a) in h.atFollow
      ==> |LivePosts(h.atFollow[(viewer, a)], a)| <= BACKFILL_LIMIT
  }

  lemma SeesIsFollowing(t: Tables, viewer: UserId, author: UserId)
    ensures author in FollowingIds(t, viewer) <==> Sees(t, viewer, author)
  {
    if Follows(t, viewer, author) {
      assert (viewer, author).1 in FollowingIds(t, viewer);
    }
  }

  // ----- The backfill window

  lemma {:induction false} KeysOfPosts(t: Tables, ps: set<PostId>)
    requires ps <= t.posts.Keys
    ensures |set p | p in ps :: KeyOf(t, p)| == |ps|
  {
    var keys := set p | p in ps :: KeyOf(t, p);
    if ps != {} {
      var p :| p in ps;
      var rest := ps - {p};
      KeysOfPosts(t, rest);
      var fewer := set q | q in rest :: KeyOf(t, q);
      assert keys == fewer + {KeyOf(t, p)};
      assert KeyOf(t, p) !in fewer;
    }
  }

  /** The backfill misses exactly the live posts outside the newest `limit`: it misses none when they fit, and a missed
      post has `limit` newer live posts of the same author above it, all of them copied. */
  lemma BackfillMisses(t: Tables, author: UserId, limit: nat, p: PostId)
    requires p in LivePosts(t, author) - Backfilled(t, author, limit)
    ensures |LivePosts(t, author)| > limit
    ensures |Backfilled(t, author, limit)| == limit
    ensures forall q :: q in Backfilled(t, author, limit) ==> Above(KeyOf(t, q), KeyOf(t, p))
  {
    var keys := LiveKeys(t, author);
    var top := Take(Ordered(keys), limit);
    assert keys == set q | q in LivePosts(t, author) :: KeyOf(t, q);
    KeysOfPosts(t, LivePosts(t, author));
    assert KeyOf(t, p) in keys;
    TopKeys(t, author, limit);
    TakeKeepsNewest(keys, limit, KeyOf(t, p));
  }

  lemma TopKeys(t: Tables, author: UserId, limit: nat)
    ensures var top := Take(Ordered(LiveKeys(t, author)), limit);
      && |Backfilled(t, author, limit)| == |top|
      && forall q :: q in t.posts ==> (q in Backfilled(t, author, limit) <==> KeyOf(t, q) in top)
  {
    var top := Take(Ordered(LiveKeys(t, author)), limit);
    forall k | k in top
      ensures k.id in t.posts && KeyOf(t, k.id) == k
    {
      assert k in Ordered(LiveKeys(t, author));
    }
    KeysAndIds(t, top, Backfilled(t, author, limit));
  }

  /** A descending list of stored keys names as many posts as it has entries. */
  lemma KeysAndIds(t: Tables, top: seq<Key>, ids: set<PostId>)
    requires IsDescending(top) && forall k :: k in top ==> k.id in t.posts && KeyOf(t, k.id) == k
    requires ids == set k | k in top :: k.id
    ensures |ids| == |top|
    ensures forall q :: q in t.posts ==> (q in ids <==> KeyOf(t, q) in top)
  {
    var topSet: set<Key> := set k | k in top;
    assert topSet == set q | q in ids :: KeyOf(t, q);
    KeysOfPosts(t, ids);
    DescendingSize(top, topSet);
  }

  lemma {:induction false} DescendingSize(s: seq<Key>, ks: set<Key>)
    requires IsDescending(s) && ks == set k | k in s
    ensures |ks| == |s|
  {
    if s != [] {
      var rest: set<Key> := set k | k in s[1..];
      assert forall k :: k in ks <==> k in s;
      forall k
        ensures k in s[1..] <==> k in s && k != s[0]
      {
        InTail(s, k);
      }
      assert rest == ks - {s[0]};
      DescendingSize(s[1..], rest);
    }
  }

  // ----- Agreement of the two sources

  lemma CacheIsSound(t: Tables, viewer: UserId)
    requires CacheOk(t)
    ensures ThunderKeys(t, viewer) <= InNetworkKeys(t, viewer)
  {
    forall key | key in ThunderKeys(t, viewer)
      ensures key in InNetworkKeys(t, viewer)
    {
      var k :| k in t.feed && k.0 == viewer && t.IsLive(k.1) && key == Key(t.feed[k].createdAt, k.1);
      assert GoodRow(t, k);
      SeesIsFollowing(t, viewer, t.posts[k.1].author);
    }
  }

  /** In every reachable store the cache shows nothing that the pull query would not show. */
  lemma ThunderIsSound(es: seq<Event>, viewer: UserId)
    ensures ThunderKeys(Run(EMPTY, es), viewer) <= InNetworkKeys(Run(EMPTY, es), viewer)
  {
    CacheAlways(es);
    CacheIsSound(Run(EMPTY, es), viewer);
  }

  lemma RowIsKey(t: Tables, viewer: UserId, p: PostId)
    requires CacheOk(t) && t.IsLive(p)
    ensures KeyOf(t, p) in ThunderKeys(t, viewer) <==> (viewer, p) in t.feed
  {
    if (viewer, p) in t.feed {
      assert GoodRow(t, (viewer, p));
    }
  }

  /** Once fan-out has caught up, a post that the cache lacks lies outside the 50 newest at follow time: the edge was
      created when the followee had more than 50 live posts, and 50 of them were newer. */
  lemma ThunderMissesOnlyOldPosts(es: seq<Event>, viewer: UserId, p: PostId)
    requires var t := Run(EMPTY, es);
      Settled(t, Recall(es), viewer) && t.IsLive(p)
      && KeyOf(t, p) in InNetworkKeys(t, viewer) - ThunderKeys(t, viewer)
    ensures var t := Run(EMPTY, es);
      var author := t.posts[p].author;
      && Follows(t, viewer, author)
      && (viewer, author) in Recall(es).atFollow
      && var then_ := Recall(es).atFollow[(viewer, author)];
      && p in LivePosts(then_, author) - Backfilled(then_, author, BACKFILL_LIMIT)
      && |LivePosts(then_, author)| > BACKFILL_LIMIT
      && |Backfilled(then_, author, BACKFILL_LIMIT)| == BACKFILL_LIMIT
      && forall q :: q in Backfilled(then_, author, BACKFILL_LIMIT) ==> Above(KeyOf(then_, q), KeyOf(then_, p))
  {
    var t := Run(EMPTY, es);
    var h := Recall(es);
    CompleteAlways(es);
    var author := t.posts[p].author;
    var q :| q in t.posts && t.posts[q].author in FollowingIds(t, viewer) && t.posts[q].Live() && KeyOf(t, q) == KeyOf(t, p);
    SeesIsFollowing(t, viewer, author);
    RowIsKey(t, viewer, p);
    assert Reaches(t, h, viewer, p);
    BackfillMisses(h.atFollow[(viewer, author)], author, BACKFILL_LIMIT, p);
  }

  /** Push equals pull: when fan-out has caught up and every followee had at most 50 live posts at follow time, both
      sources return the same page for every cursor and limit. */
  lemma ThunderEqualsInNetwork(es: seq<Event>, viewer: UserId, cursor: Option<Key>, limit: nat)
    requires var t := Run(EMPTY, es);
      Settled(t, Recall(es), viewer) && SmallFollowees(t, Recall(es), viewer)
    ensures var t := Run(EMPTY, es);
      ThunderFetch(t, viewer, cursor, limit) == InNetworkFetch(t, viewer, cursor, limit)
  {
    var t := Run(EMPTY, es);
    ThunderIsSound(es, viewer);
    forall key | key in InNetworkKeys(t, viewer)
      ensures key in ThunderKeys(t, viewer)
    {
      var p :| p in t.posts && t.posts[p].author in FollowingIds(t, viewer) && t.posts[p].Live() && KeyOf(t, p) == key;
      if key !in ThunderKeys(t, viewer) {
        ThunderMissesOnlyOldPosts(es, viewer, p);
        assert false;
      }
    }
    assert ThunderKeys(t, viewer) == InNetworkKeys(t, viewer);
  }

  ghost predicate Agree(t: Tables, viewer: UserId) {
    forall cursor, limit :: ThunderFetch(t, viewer, cursor, limit) == InNetworkFetch(t, viewer, cursor, limit)
  }

  /** Every live post of the viewer and the followees has its row. */
  ghost predicate AllRows(t: Tables, viewer: UserId) {
    forall p :: t.IsLive(p) && Sees(t, viewer, t.posts[p].author) ==> (viewer, p) in t.feed
  }

  lemma RowsGiveKeys(t: Tables, viewer: UserId)
    requires CacheOk(t) && AllRows(t, viewer)
    ensures InNetworkKeys(t, viewer) <= ThunderKeys(t, viewer)
  {
    forall key | key in InNetworkKeys(t, viewer)
      ensures key in ThunderKeys(t, viewer)
    {
      var p :| p in t.posts && t.posts[p].author in FollowingIds(t, viewer) && t.posts[p].Live() && KeyOf(t, p) == key;
      SeesIsFollowing(t, viewer, t.posts[p].author);
      RowIsKey(t, viewer, p);
    }
  }

  lemma AgreementGivesRows(t: Tables, viewer: UserId)
    requires CacheOk(t) && Agree(t, viewer) && ThunderKeys(t, viewer) <= InNetworkKeys(t, viewer)
    ensures AllRows(t, viewer)
  {
    var limit := |InNetworkKeys(t, viewer)|;
    SubsetSize(ThunderKeys(t, viewer), InNetworkKeys(t, viewer));
    assert ThunderFetch(t, viewer, None, limit) == InNetworkFetch(t, viewer, None, limit);
    forall p | t.IsLive(p) && Sees(t, viewer, t.posts[p].author)
      ensures (viewer, p) in t.feed
    {
      WholePagesAgree(t, viewer, limit, p);
    }
  }

  lemma KeysAreStored(t: Tables, viewer: UserId)
    requires ThunderKeys(t, viewer) <= InNetworkKeys(t, viewer)
    ensures forall k :: k in InNetworkKeys(t, viewer) ==> k.id in t.posts && KeyOf(t, k.id) == k
    ensures forall k :: k in ThunderKeys(t, viewer) ==> k.id in t.posts && KeyOf(t, k.id) == k
  {
  }

  lemma WholePagesAgree(t: Tables, viewer: UserId, limit: nat, p: PostId)
    requires CacheOk(t) && t.IsLive(p) && Sees(t, viewer, t.posts[p].author)
    requires ThunderKeys(t, viewer) <= InNetworkKeys(t, viewer)
    requires |ThunderKeys(t, viewer)| <= limit && |InNetworkKeys(t, viewer)| <= limit
    requires ThunderFetch(t, viewer, None, limit) == InNetworkFetch(t, viewer, None, limit)
    ensures (viewer, p) in t.feed
  {
    KeysAreStored(t, viewer);
    SeesIsFollowing(t, viewer, t.posts[p].author);
    assert KeyOf(t, p) in InNetworkKeys(t, viewer);
    SamePageSameKey(t, ThunderKeys(t, viewer), InNetworkKeys(t, viewer), limit, p);
    RowIsKey(t, viewer, p);
  }

  /** Two complete pages with the same candidates hold the key of the same posts. */
  lemma SamePageSameKey(t: Tables, a: set<Key>, b: set<Key>, limit: nat, p: PostId)
    requires |a| <= limit && |b| <= limit && p in t.posts
    requires forall k :: k in a ==> k.id in t.posts && KeyOf(t, k.id) == k
    requires forall k :: k in b ==> k.id in t.posts && KeyOf(t, k.id) == k
    requires Candidates(t, Page(a, None, limit + 1)) == Candidates(t, Page(b, None, limit + 1))
    ensures KeyOf(t, p) in a <==> KeyOf(t, p) in b
  {
    WholePage(t, a, limit);
    WholePage(t, b, limit);
  }

  lemma SubsetSize(a: set<Key>, b: set<Key>)
    requires a <= b
    ensures |a| <= |b|
  {
    assert b == a + (b - a);
  }

  lemma AgreeIsAllRows(t: Tables, viewer: UserId)
    requires CacheOk(t)
    ensures Agree(t, viewer) <==> AllRows(t, viewer)
  {
    CacheIsSound(t, viewer);
    if AllRows(t, viewer) {
      RowsGiveKeys(t, viewer);
      assert ThunderKeys(t, viewer) == InNetworkKeys(t, viewer);
    }
    if Agree(t, viewer) {
      AgreementGivesRows(t, viewer);
    }
  }

  /** In a reachable store the sources agree on every page if and only if every live post of the viewer and the followees
      has its row. */
  lemma AgreementCondition(es: seq<Event>, viewer: UserId)
    ensures Agree(Run(EMPTY, es), viewer) <==> AllRows(Run(EMPTY, es), viewer)
  {
    CacheAlways(es);
    AgreeIsAllRows(Run(EMPTY, es), viewer);
  }

  /** A page without cursor that is as long as the table holds every key of it. */
  lemma WholePage(t: Tables, keys: set<Key>, limit: nat)
    requires |keys| <= limit
    requires forall k :: k in keys ==> k.id in t.posts && KeyOf(t, k.id) == k
    ensures forall p :: p in t.posts ==>
      ((exists c :: c in Candidates(t, Page(keys, None, limit + 1)) && c.id == p) <==> KeyOf(t, p) in keys)
  {
    assert keys == Below(keys, None);
    var page := Page(keys, None, limit + 1);
    assert page == Ordered(keys);
    CandidateIds(t, page);
  }

  lemma {:induction false} CandidateIds(t: Tables, page: seq<Key>)
    requires forall k :: k in page ==> k.id in t.posts && KeyOf(t, k.id) == k
    ensures forall p :: p in t.posts ==>
      ((exists c :: c in Candidates(t, page) && c.id == p) <==> KeyOf(t, p) in page)
  {
    if page != [] {
      CandidateIds(t, page[1..]);
      assert page == [page[0]] + page[1..];
      var head := FromPost(page[0].id, t.posts[page[0].id], page[0].time, InNetwork, None);
      assert Candidates(t, page) == [head] + Candidates(t, page[1..]);
    }
  }

  // ----- What a follow request does to the agreement

  /** Before the edge exists the follower has no rows of the author; after it, exactly the backfilled ones. */
  lemma FollowedRows(t: Tables, me: UserId, other: UserId, p: PostId)
    requires CacheOk(t) && FollowUser(t, me, other).Success? && p in LivePosts(t, other)
    ensures (me, p) in FollowUser(t, me, other).value.feed <==> p in Backfilled(t, other, BACKFILL_LIMIT)
  {
    FollowAddsRows(t, me, other);
    assert (me, p) in t.feed ==> GoodRow(t, (me, p));
  }

  /** Rows of other authors are not touched. */
  lemma OtherRows(t: Tables, me: UserId, other: UserId, p: PostId)
    requires FollowUser(t, me, other).Success? && p in t.posts && t.posts[p].author != other
    ensures (me, p) in FollowUser(t, me, other).value.feed <==> (me, p) in t.feed
  {
  }

  lemma FollowSees(t: Tables, me: UserId, other: UserId, author: UserId)
    requires FollowUser(t, me, other).Success?
    ensures Sees(FollowUser(t, me, other).value, me, author) <==> Sees(t, me, author) || author == other
    ensures !Sees(t, me, other)
  {
  }

  /** All live posts of the followee are backfilled exactly when they fit. */
  lemma BackfillFits(t: Tables, author: UserId)
    ensures LivePosts(t, author) <= Backfilled(t, author, BACKFILL_LIMIT) <==> |LivePosts(t, author)| <= BACKFILL_LIMIT
  {
    var live, copied := LivePosts(t, author), Backfilled(t, author, BACKFILL_LIMIT);
    if live <= copied {
      TopKeys(t, author, BACKFILL_LIMIT);
      assert copied == live + (copied - live);
    } else {
      var p :| p in live && p !in copied;
      BackfillMisses(t, author, BACKFILL_LIMIT, p);
    }
  }

  lemma RowsAfterFollow(t: Tables, me: UserId, other: UserId)
    requires CacheOk(t) && FollowUser(t, me, other).Success?
    ensures AllRows(FollowUser(t, me, other).value, me) <==> AllRows(t, me) && |LivePosts(t, other)| <= BACKFILL_LIMIT
  {
    var next := FollowUser(t, me, other).value;
    FollowAddsRows(t, me, other);
    FollowSees(t, me, other, other);
    BackfillFits(t, other);
    forall p | t.IsLive(p)
      ensures t.posts[p].author == other ==>
        p in LivePosts(t, other) && ((me, p) in next.feed <==> p in Backfilled(t, other, BACKFILL_LIMIT))
      ensures t.posts[p].author != other ==> ((me, p) in next.feed <==> (me, p) in t.feed)
      ensures Sees(next, me, t.posts[p].author) <==> Sees(t, me, t.posts[p].author) || t.posts[p].author == other
    {
      FollowSees(t, me, other, t.posts[p].author);
      if t.posts[p].author == other {
        FollowedRows(t, me, other, p);
      } else {
        OtherRows(t, me, other, p);
      }
    }
    RowsSplit(t, next, me, other);
  }

  lemma RowsSplit(t: Tables, next: Tables, me: UserId, other: UserId)
    requires next.posts == t.posts && !Sees(t, me, other)
    requires forall p :: t.IsLive(p) ==>
      && (t.posts[p].author == other ==>
           p in LivePosts(t, other) && ((me, p) in next.feed <==> p in Backfilled(t, other, BACKFILL_LIMIT)))
      && (t.posts[p].author != other ==> ((me, p) in next.feed <==> (me, p) in t.feed))
      && (Sees(next, me, t.posts[p].author) <==> Sees(t, me, t.posts[p].author) || t.posts[p].author == other)
    ensures AllRows(next, me) <==> AllRows(t, me) && LivePosts(t, other) <= Backfilled(t, other, BACKFILL_LIMIT)
  {
  }

  lemma FollowStep(t: Tables, me: UserId, other: UserId, next: Tables)
    requires FollowUser(t, me, other) == Success(next) && CacheOk(t) && CacheOk(next)
    ensures Agree(next, me) <==> Agree(t, me) && |LivePosts(t, other)| <= BACKFILL_LIMIT
  {
    AgreeIsAllRows(t, me);
    AgreeIsAllRows(next, me);
    RowsAfterFollow(t, me, other);
  }

  lemma FollowCommits(t: Tables, me: UserId, other: UserId)
    requires FollowUser(t, me, other).Success? && CacheOk(t)
    ensures FollowUser(t, me, other) == Success(Step(t, Follow(me, other))) && CacheOk(Step(t, Follow(me, other)))
  {
    CacheKept(t, Follow(me, other));
  }

  /** The exact condition at the follow request, in every reachable store: right after it the two sources agree for the
      follower if and only if they agreed before and the followee has at most 50 live posts. */
  lemma FollowKeepsAgreement(es: seq<Event>, me: UserId, other: UserId)
    requires FollowUser(Run(EMPTY, es), me, other).Success?
    ensures Agree(Step(Run(EMPTY, es), Follow(me, other)), me) <==>
            Agree(Run(EMPTY, es), me) && |LivePosts(Run(EMPTY, es), other)| <= BACKFILL_LIMIT
  {
    var t := Run(EMPTY, es);
    CacheAlways(es);
    FollowCommits(t, me, other);
    FollowStep(t, me, other, Step(t, Follow(me, other)));
  }

  // ----- Stores where the sources differ

  /** Users 0 and 1 sign up and user 1 writes `n` posts, each published and fanned out. */
  function Writes(n: nat): seq<Event> {
    if n == 0 then [SignUp(0, false), SignUp(1, false)]
    else Writes(n - 1) + [Create(1, n - 1, n, PLAIN_POST)] + [RunTask(Publish, n - 1)] + [RunTask(FanOut, n - 1)]
  }

  /** What the store holds after `n` posts. */
  ghost predicate Written(t: Tables, n: nat) {
    && 0 in t.users && 1 in t.users && t.follows == {} && t.blocks == {}
    && (forall i: PostId :: i in t.posts <==> i < n)
    && (forall i :: i in t.posts ==> t.posts[i].author == 1 && t.posts[i].Live())
  }

  lemma PlainCreated(t: Tables, n: nat)
    requires Written(t, n)
    ensures Step(t, Create(1, n, n + 1, PLAIN_POST))
         == t.(posts := t.posts[n := PlainRow(n, Processing)])
  {
    assert !IsSpace(PLAIN_POST.body[0]);
  }

  function PlainRow(n: nat, status: Status): Post {
    Post(1, "hello", Public, status, n + 1, false, None, None, None, None)
  }

  lemma WrittenGrows(t: Tables, n: nat)
    requires Written(t, n)
    ensures Written(t.(posts := t.posts[n := PlainRow(n, Published)]), n + 1)
  {
  }

  /** Writing a post and publishing it, in one go. */
  lemma PlainPublished(t: Tables, n: nat)
    requires Written(t, n)
    ensures Step(Step(t, Create(1, n, n + 1, PLAIN_POST)), RunTask(Publish, n))
         == t.(posts := t.posts[n := PlainRow(n, Published)])
  {
    var created := t.(posts := t.posts[n := PlainRow(n, Processing)]);
    PlainCreated(t, n);
    PublishedOne(created, n);
    assert created.posts[n := PlainRow(n, Published)] == t.posts[n := PlainRow(n, Published)];
  }

  lemma OnePostMore(t: Tables, n: nat)
    requires Written(t, n)
    ensures Written(Step(Step(Step(t, Create(1, n, n + 1, PLAIN_POST)), RunTask(Publish, n)), RunTask(FanOut, n)), n + 1)
  {
    PlainPublished(t, n);
    WrittenGrows(t, n);
    FanOutKeepsRest(t.(posts := t.posts[n := PlainRow(n, Published)]), n);
  }

  lemma PublishedOne(t: Tables, p: PostId)
    requires p in t.posts
    ensures Step(t, RunTask(Publish, p)) == t.(posts := t.posts[p := t.posts[p].(status := Published)])
  {
  }

  lemma FanOutKeepsRest(t: Tables, p: PostId)
    ensures var next := Step(t, RunTask(FanOut, p)); next == t.(feed := next.feed)
  {
  }

  lemma ThreeMore(es: seq<Event>, a: Event, b: Event, c: Event)
    ensures Run(EMPTY, es + [a] + [b] + [c]) == Step(Step(Step(Run(EMPTY, es), a), b), c)
  {
    RunSnoc(EMPTY, es, a);
    RunSnoc(EMPTY, es + [a], b);
    RunSnoc(EMPTY, es + [a] + [b], c);
  }

  lemma TwoUsers()
    ensures Written(Run(EMPTY, Writes(0)), 0)
  {
    RunSnoc(EMPTY, [], SignUp(0, false));
    RunSnoc(EMPTY, [] + [SignUp(0, false)], SignUp(1, false));
    assert Writes(0) == [] + [SignUp(0, false)] + [SignUp(1, false)];
  }

  lemma WritesNext(n: nat)
    ensures Run(EMPTY, Writes(n + 1)) ==
      Step(Step(Step(Run(EMPTY, Writes(n)), Create(1, n, n + 1, PLAIN_POST)), RunTask(Publish, n)), RunTask(FanOut, n))
  {
    ThreeMore(Writes(n), Create(1, n, n + 1, PLAIN_POST), RunTask(Publish, n), RunTask(FanOut, n));
  }

  lemma WrittenNext(t: Tables, next: Tables, n: nat)
    requires Written(t, n)
    requires next == Step(Step(Step(t, Create(1, n, n + 1, PLAIN_POST)), RunTask(Publish, n)), RunTask(FanOut, n))
    ensures Written(next, n + 1)
  {
    OnePostMore(t, n);
  }

  lemma {:induction false} WritesStore(n: nat)
    ensures Written(Run(EMPTY, Writes(n)), n)
  {
    if n == 0 {
      TwoUsers();
    } else {
      WritesStore(n - 1);
      WritesNext(n - 1);
      WrittenNext(Run(EMPTY, Writes(n - 1)), Run(EMPTY, Writes(n)), n - 1);
    }
  }

  lemma {:induction false} SizeOfRange(ps: set<PostId>, n: nat)
    requires forall i: PostId :: i in ps <==> i < n
    ensures |ps| == n
  {
    if n == 0 {
      assert ps == {};
    } else {
      SizeOfRange(ps - {n - 1}, n - 1);
    }
  }

  lemma WrittenLive(t: Tables, n: nat)
    requires Written(t, n)
    ensures |LivePosts(t, 1)| == n && FollowUser(t, 0, 1).Success? && AllRows(t, 0)
  {
    SizeOfRange(LivePosts(t, 1), n);
  }

  /** The sources really part: when user 0 then follows user 1, both sources agree for user 0 if and only if there are at
      most 50 posts, although every post has been fanned out. */
  lemma AgreementBreaksAboveFifty(n: nat)
    ensures Agree(Run(EMPTY, Writes(n) + [Follow(0, 1)]), 0) <==> n <= BACKFILL_LIMIT
  {
    WritesStore(n);
    WrittenLive(Run(EMPTY, Writes(n)), n);
    RunSnoc(EMPTY, Writes(n), Follow(0, 1));
    FollowKeepsAgreement(Writes(n), 0, 1);
    AgreementCondition(Writes(n), 0);
  }
}
