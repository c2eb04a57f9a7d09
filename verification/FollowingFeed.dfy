/** The Following surface over the feed cache of a reachable store. */
module FollowingFeed {
  import opened Options
  import opened Keyset
  import opened SocialModel
  import opened SocialRuns
  import opened References
  import opened FeedTypes
  import opened FeedSources
  import opened Sorting
  import opened Ranking
  import opened Blending
  import opened Policy
  import opened FeedPipeline
  import opened Pagination

  function Keys(cs: seq<Candidate>): (r: seq<Key>)
    ensures |r| == |cs| && forall i :: 0 <= i < |cs| ==> r[i] == cs[i].Key()
  {
    seq(|cs|, i requires 0 <= i < |cs| => cs[i].Key())
  }

  lemma {:induction false} CandidateKeys(t: Tables, page: seq<Key>)
    requires forall k :: k in page ==> k.id in t.posts
    ensures Keys(Candidates(t, page)) == page
  {
    if page != [] {
      var rest := Candidates(t, page[1..]);
      CandidateKeys(t, page[1..]);
      assert Candidates(t, page)[1..] == rest;
      assert page == [page[0]] + page[1..];
    }
  }

  lemma {:induction false} CandidatesOfPage(t: Tables, page: seq<Key>)
    ensures forall c :: c in Candidates(t, page) ==>
      c.id in t.posts && c.source == InNetwork && c.parent == t.posts[c.id].parent && c.root == t.posts[c.id].root
  {
    if page != [] {
      CandidatesOfPage(t, page[1..]);
    }
  }

  /** What the cache hands to both surfaces: a keyset page of in-network candidates under their stored root. */
  lemma ThunderCandidates(es: seq<Event>, viewer: UserId, cursor: Option<Key>, limit: nat)
    ensures var t := Run(EMPTY, es);
      var thunder := ThunderFetch(t, viewer, cursor, limit);
      && Keys(thunder) == Page(ThunderKeys(t, viewer), cursor, limit + 1)
      && WellIndexed(thunder) && forall c :: c in thunder ==> c.source == InNetwork
  {
    var t := Run(EMPTY, es);
    var page := Page(ThunderKeys(t, viewer), cursor, limit + 1);
    forall k | k in page
      ensures k.id in t.posts
    {
      assert k in Ordered(Below(ThunderKeys(t, viewer), cursor));
    }
    CandidateKeys(t, page);
    CandidatesOfPage(t, page);
    RootsAlways(es);
    forall c | c in Candidates(t, page) && c.parent.None?
      ensures c.root.None?
    {
      assert RootOk(t.posts, c.id);
    }
  }

  /** `part` is `all` with some rows left out. */
  ghost predicate RowsOf(part: seq<Key>, all: seq<Key>) {
    && IsDescending(part)
    && (forall k :: k in part ==> k in all)
    && (|part| == |all| ==> part == all)
    && |part| <= |all|
  }

  lemma {:induction false} PassedKeys(rules: seq<Rule>, q: FeedQuery, env: Env, cs: seq<Candidate>)
    requires IsDescending(Keys(cs))
    ensures RowsOf(Keys(Passed(rules, q, env, cs)), Keys(cs))
  {
    if cs != [] {
      var verdict := Decide(rules, Context(q, cs[0], env));
      var rest := Passed(rules, q, env, cs[1..]);
      var kept := Passed(rules, q, env, cs);
      assert Keys(cs)[1..] == Keys(cs[1..]);
      PassedKeys(rules, q, env, cs[1..]);
      if verdict == Drop {
        assert kept == rest;
      } else {
        assert Keys(kept) == [cs[0].Key()] + Keys(rest);
        assert Keys(cs) == [cs[0].Key()] + Keys(cs[1..]);
        AllBelowHead(Keys(cs));
        DescendingCons(cs[0].Key(), Keys(rest));
      }
    }
  }

  lemma AllBelowHead(s: seq<Key>)
    requires s != [] && IsDescending(s)
    ensures forall k :: k in s[1..] ==> Above(s[0], k)
  {
  }

  lemma DescendingCons(k: Key, s: seq<Key>)
    requires IsDescending(s) && forall x :: x in s ==> Above(k, x)
    ensures IsDescending([k] + s)
  {
  }

  /** A list that is already newest first is left alone by the chronological sort. */
  lemma {:induction false} SortedStays(cs: seq<Candidate>)
    requires IsDescending(Keys(cs))
    ensures StableSort(ByRecency(), cs) == cs
  {
    if cs != [] {
      assert Keys(cs)[1..] == Keys(cs[1..]);
      SortedStays(cs[1..]);
      assert cs == [cs[0]] + cs[1..];
      if |cs| > 1 {
        assert Above(Keys(cs)[0], Keys(cs)[1]);
      }
    }
  }

  /** The rows of one Following request before the page is cut. */
  function FollowingRows(t: Tables, w: Weights, q: FeedQuery, env: Env, log1p: int -> real,
                         hydrate: Candidate -> Candidate): seq<Candidate> {
    Surfaced(Following(w), q, env, log1p, hydrate, ThunderFetch(t, q.viewer, q.cursor, q.limit), [])
  }

  /** A Following page is strictly newest first, lies below the cursor of the request, and shows only cached posts. When
      the policy drops nothing it is the keyset page of the cache, with a next cursor exactly when more rows remain, so
      that walking it lists the whole cache. */
  lemma FollowingPage(es: seq<Event>, w: Weights, q: FeedQuery, env: Env, log1p: int -> real,
                      hydrate: Candidate -> Candidate)
    requires KeepsIdentity(hydrate) && q.limit >= 1
    ensures var t := Run(EMPTY, es);
      var rows := FollowingRows(t, w, q, env, log1p, hydrate);
      var (page, next) := Selected(q, rows);
      && IsDescending(Keys(page))
      && (forall k :: k in Keys(page) ==> k in ThunderKeys(t, q.viewer) && BelowCursor(q.cursor, k))
      && (|rows| == |ThunderFetch(t, q.viewer, q.cursor, q.limit)| ==>
            (Keys(page), next) == Served(ThunderKeys(t, q.viewer), q.cursor, q.limit))
  {
    var t := Run(EMPTY, es);
    var thunder := ThunderFetch(t, q.viewer, q.cursor, q.limit);
    var hydrated := Hydrated(hydrate, thunder);
    var passed := Passed(FOLLOWING, q, env, hydrated);
    ThunderCandidates(es, q.viewer, q.cursor, q.limit);
    assert Keys(hydrated) == Keys(thunder);
    PassedKeys(FOLLOWING, q, env, hydrated);
    SortedStays(passed);
    PageOfRows(ThunderKeys(t, q.viewer), q, passed, hydrated);
  }

  /** Following, straight from the cache of any reachable store: an NSFW post only reaches a viewer treated as an adult,
      never out of network, and always covered. */
  lemma FollowingCoversNsfw(es: seq<Event>, w: Weights, q: FeedQuery, env: Env, log1p: int -> real,
                            hydrate: Candidate -> Candidate, c: Candidate)
    requires KeepsIdentity(hydrate)
    ensures c in Selected(q, FollowingRows(Run(EMPTY, es), w, q, env, log1p, hydrate)).0 && IsNsfw(c) ==>
      && IsAdult(q.birthdate, env.today) && c.source != Oon
      && Rendered(c) == Item(c.id, "", None, None, true, c.Labels())
  {
    ThunderCandidates(es, q.viewer, q.cursor, q.limit);
    if c in Selected(q, FollowingRows(Run(EMPTY, es), w, q, env, log1p, hydrate)).0 && IsNsfw(c) {
      NsfwIsCovered(Following(w), q, env, log1p, hydrate,
                    ThunderFetch(Run(EMPTY, es), q.viewer, q.cursor, q.limit), [], c);
    }
  }

  lemma PageOfRows(ks: set<Key>, q: FeedQuery, passed: seq<Candidate>, all: seq<Candidate>)
    requires Keys(all) == Page(ks, q.cursor, q.limit + 1) && RowsOf(Keys(passed), Keys(all))
    ensures var (page, next) := Selected(q, passed);
      && IsDescending(Keys(page))
      && (forall k :: k in Keys(page) ==> k in ks && BelowCursor(q.cursor, k))
      && (|passed| == |all| ==> (Keys(page), next) == Served(ks, q.cursor, q.limit))
  {
    SelectedKeys(q, passed);
    TakeRows(Keys(passed), Keys(all), ks, q);
  }

  /** Cutting the page commutes with reading the keys. */
  lemma SelectedKeys(q: FeedQuery, cs: seq<Candidate>)
    ensures var (page, next) := Selected(q, cs); (Keys(page), next) == Cut(Keys(cs), q.limit)
  {
    assert Keys(Take(cs, q.limit)) == Take(Keys(cs), q.limit);
  }

  lemma TakeRows(part: seq<Key>, all: seq<Key>, ks: set<Key>, q: FeedQuery)
    requires all == Page(ks, q.cursor, q.limit + 1) && RowsOf(part, all)
    ensures IsDescending(Take(part, q.limit))
    ensures forall k :: k in Take(part, q.limit) ==> k in ks && BelowCursor(q.cursor, k)
  {
    forall k | k in Take(part, q.limit)
      ensures k in ks && BelowCursor(q.cursor, k)
    {
      assert k in all;
      assert k in Ordered(Below(ks, q.cursor));
    }
  }
}
