/** What each signal is worth: the difference it makes to a score, and the score of a post without any. */
module RankSignals {
  import opened Options
  import opened SocialModel
  import opened FeedTypes
  import opened Sorting
  import opened Ranking

  /** Out-of-network scores are discounted as a whole. */
  function Discount(c: Candidate, w: Weights): real {
    if c.source == Oon then w.oonDiscount else 1.0
  }

  /** How much better `d` scores than `c`. */
  function Gain(q: FeedQuery, c: Candidate, d: Candidate, w: Weights, now: int, log1p: int -> real): real {
    ScoreCandidate(q, d, w, now, log1p) - ScoreCandidate(q, c, w, now, log1p)
  }

  /** What the sums gain is discounted with them. */
  lemma Discounted(a: real, b: real, x: real, discount: real)
    requires b - a == x
    ensures b * discount - a * discount == x * discount
  {
    assert b == a + x;
  }

  lemma ScoreIs(q: FeedQuery, c: Candidate, w: Weights, now: int, log1p: int -> real)
    ensures ScoreCandidate(q, c, w, now, log1p) == Sum(q, c, w, now, log1p) * Discount(c, w)
  {
  }

  lemma GainIs(q: FeedQuery, c: Candidate, p: FeedQuery, d: Candidate, w: Weights, now: int, log1p: int -> real, x: real)
    requires c.source == d.source && Sum(p, d, w, now, log1p) - Sum(q, c, w, now, log1p) == x
    ensures ScoreCandidate(p, d, w, now, log1p) - ScoreCandidate(q, c, w, now, log1p) == x * Discount(c, w)
  {
    ScoreIs(q, c, w, now, log1p);
    ScoreIs(p, d, w, now, log1p);
    Discounted(Sum(q, c, w, now, log1p), Sum(p, d, w, now, log1p), x, Discount(c, w));
  }

  // ----- One signal at a time

  lemma SeenCosts(q: FeedQuery, c: Candidate, w: Weights, now: int, log1p: int -> real)
    ensures Gain(q, c.(seen := false), c.(seen := true), w, now, log1p) == w.seenPenalty * Discount(c, w)
  {
    GainIs(q, c.(seen := false), q, c.(seen := true), w, now, log1p, w.seenPenalty);
  }

  /** Declining an author changes the score of that author's posts only, by the weight. */
  lemma DecliningCosts(q: FeedQuery, c: Candidate, declined: UserId, w: Weights, now: int, log1p: int -> real)
    requires declined !in q.notInterested
    ensures var after := q.(notInterested := q.notInterested + {declined});
      ScoreCandidate(after, c, w, now, log1p) - ScoreCandidate(q, c, w, now, log1p)
        == if c.author == declined then w.notInterestedAuthor * Discount(c, w) else 0.0
  {
    var after := q.(notInterested := q.notInterested + {declined});
    GainIs(q, c, after, c, w, now, log1p, if c.author == declined then w.notInterestedAuthor else 0.0);
  }

  /** Following an author raises that author's posts by the boost, unless the author is the viewer. */
  lemma FollowingHelps(q: FeedQuery, c: Candidate, followed: UserId, w: Weights, now: int, log1p: int -> real)
    requires followed !in q.following
    ensures var after := q.(following := q.following + {followed});
      ScoreCandidate(after, c, w, now, log1p) - ScoreCandidate(q, c, w, now, log1p)
        == if c.author == followed && followed != q.viewer then w.inNetworkBoost * Discount(c, w) else 0.0
  {
    var after := q.(following := q.following + {followed});
    GainIs(q, c, after, c, w, now, log1p, if c.author == followed && followed != q.viewer then w.inNetworkBoost else 0.0);
  }

  /** Likes and replies count alike, through their sum; negative counts are none. */
  lemma ReactionsHelp(q: FeedQuery, c: Candidate, likes: int, replies: int, w: Weights, now: int, log1p: int -> real)
    requires c.engaged.likes >= 0 && c.engaged.replies >= 0
    ensures var after := (if likes > 0 then likes else 0) + if replies > 0 then replies else 0;
      Gain(q, c, c.(engaged := Engaged(likes, replies)), w, now, log1p)
        == (w.engagement * (log1p(after) - log1p(c.engaged.likes + c.engaged.replies))) * Discount(c, w)
  {
    var after := (if likes > 0 then likes else 0) + if replies > 0 then replies else 0;
    var x, y := log1p(after), log1p(c.engaged.likes + c.engaged.replies);
    assert w.engagement * x - w.engagement * y == w.engagement * (x - y);
    GainIs(q, c, q, c.(engaged := Engaged(likes, replies)), w, now, log1p, w.engagement * (x - y));
  }

  lemma AffinityHelps(q: FeedQuery, c: Candidate, more: real, w: Weights, now: int, log1p: int -> real)
    ensures Gain(q, c, c.(affinity := c.affinity + more), w, now, log1p) == (w.authorAffinity * more) * Discount(c, w)
  {
    assert w.authorAffinity * (c.affinity + more) - w.authorAffinity * c.affinity == w.authorAffinity * more;
    GainIs(q, c, q, c.(affinity := c.affinity + more), w, now, log1p, w.authorAffinity * more);
  }

  /** A missing similarity counts as zero. */
  lemma SimilarityHelps(q: FeedQuery, c: Candidate, similarity: real, w: Weights, now: int, log1p: int -> real)
    ensures Gain(q, c.(similarity := None), c.(similarity := Some(similarity)), w, now, log1p)
         == (w.similarity * similarity) * Discount(c, w)
  {
    GainIs(q, c.(similarity := None), q, c.(similarity := Some(similarity)), w, now, log1p, w.similarity * similarity);
  }

  function Clamped(cred: real): real {
    if cred < 0.0 then 0.0 else if cred > 100.0 then 100.0 else cred
  }

  /** The penalty is full at zero credibility, gone at a hundred, and linear in between. */
  lemma CredibilityCosts(q: FeedQuery, c: Candidate, cred: real, w: Weights, now: int, log1p: int -> real)
    ensures Gain(q, c.(authorInfo := c.authorInfo.(cred := 100.0)), c.(authorInfo := c.authorInfo.(cred := cred)), w, now, log1p)
         == (w.lowCredPenalty * ((100.0 - Clamped(cred)) / 100.0)) * Discount(c, w)
  {
    var best, here := c.(authorInfo := c.authorInfo.(cred := 100.0)), c.(authorInfo := c.authorInfo.(cred := cred));
    assert CredFactor(100.0) == 0.0 && CredFactor(cred) == (100.0 - Clamped(cred)) / 100.0;
    GainIs(q, best, q, here, w, now, log1p, w.lowCredPenalty * CredFactor(cred));
  }

  /** The recency signal falls off as one hour over one hour plus the age; posts of the future count as new. */
  lemma RecencyFalls(createdAt: int, now: int)
    ensures createdAt <= now ==> RecencySignal(createdAt, now) * (3600 + (now - createdAt)) as real == 3600.0
    ensures createdAt > now ==> RecencySignal(createdAt, now) == 1.0
  {
    if createdAt <= now {
      var hours := (now - createdAt) as real / 3600.0;
      var r := 1.0 / (1.0 + hours);
      assert RecencySignal(createdAt, now) == r && r * (1.0 + hours) == 1.0;
      assert (3600 + (now - createdAt)) as real == 3600.0 * (1.0 + hours);
      assert r * (3600.0 * (1.0 + hours)) == 3600.0 * (r * (1.0 + hours));
    }
  }

  lemma AgeCosts(q: FeedQuery, c: Candidate, createdAt: int, w: Weights, now: int, log1p: int -> real)
    ensures Gain(q, c, c.(createdAt := createdAt), w, now, log1p)
         == (w.recency * (RecencySignal(createdAt, now) - RecencySignal(c.createdAt, now))) * Discount(c, w)
  {
    var x, y := RecencySignal(createdAt, now), RecencySignal(c.createdAt, now);
    assert w.recency * x - w.recency * y == w.recency * (x - y);
    GainIs(q, c, q, c.(createdAt := createdAt), w, now, log1p, w.recency * (x - y));
  }

  /** What is left without any of them: a new post scores the recency weight. */
  lemma NewPostScores(q: FeedQuery, c: Candidate, w: Weights, now: int, log1p: int -> real)
    requires !c.seen && c.author !in q.notInterested && c.author !in q.following
    requires c.engaged == Engaged(0, 0) && log1p(0) == 0.0 && c.affinity == 0.0 && c.similarity.None?
    requires c.authorInfo.cred == 100.0 && c.createdAt == now
    ensures ScoreCandidate(q, c, w, now, log1p) == w.recency * Discount(c, w)
  {
    ScoreIs(q, c, w, now, log1p);
  }

  /** A stored post as a candidate, before the hydrators: the recency, half of the penalty, and the boost if followed. */
  lemma StoredPostScores(q: FeedQuery, id: PostId, post: Post, w: Weights, now: int, log1p: int -> real)
    requires log1p(0) == 0.0 && post.author !in q.notInterested
    ensures var c := FromPost(id, post, post.createdAt, InNetwork, None);
      ScoreCandidate(q, c, w, now, log1p) ==
        w.recency * RecencySignal(post.createdAt, now) + w.lowCredPenalty * 0.5
        + if post.author in q.following && post.author != q.viewer then w.inNetworkBoost else 0.0
  {
    assert CredFactor(50.0) == 0.5;
  }

  /** The shipped weights in numbers, for an in-network post. */
  lemma ShippedNumbers(q: FeedQuery, c: Candidate, now: int, log1p: int -> real)
    requires c.source != Oon && c.author !in q.notInterested && c.author !in q.following && c.author != q.viewer
    requires c.engaged == Engaged(0, 0)
    ensures Gain(q, c.(seen := false), c.(seen := true), SHIPPED, now, log1p) == -0.35
    ensures ScoreCandidate(q.(notInterested := q.notInterested + {c.author}), c, SHIPPED, now, log1p)
         == ScoreCandidate(q, c, SHIPPED, now, log1p) - 0.45
    ensures ScoreCandidate(q.(following := q.following + {c.author}), c, SHIPPED, now, log1p)
         == ScoreCandidate(q, c, SHIPPED, now, log1p) + 0.22
    ensures Gain(q, c, c.(engaged := Engaged(1, 0)), SHIPPED, now, log1p) == 0.16 * (log1p(1) - log1p(0))
    ensures Gain(q, c, c.(affinity := c.affinity + 1.0), SHIPPED, now, log1p) == 0.08
    ensures Gain(q, c.(similarity := None), c.(similarity := Some(1.0)), SHIPPED, now, log1p) == 0.22
    ensures Gain(q, c.(authorInfo := c.authorInfo.(cred := 100.0)), c.(authorInfo := c.authorInfo.(cred := 0.0)), SHIPPED, now, log1p)
         == -0.25
  {
    SeenCosts(q, c, SHIPPED, now, log1p);
    DecliningCosts(q, c, c.author, SHIPPED, now, log1p);
    FollowingHelps(q, c, c.author, SHIPPED, now, log1p);
    ReactionsHelp(q, c, 1, 0, SHIPPED, now, log1p);
    AffinityHelps(q, c, 1.0, SHIPPED, now, log1p);
    SimilarityHelps(q, c, 1.0, SHIPPED, now, log1p);
    CredibilityCosts(q, c, 0.0, SHIPPED, now, log1p);
  }

  // ----- Seen posts stand below

  /** Neither the id nor a score from before matters. */
  lemma ScoreIgnores(q: FeedQuery, c: Candidate, id: PostId, score: Option<real>, w: Weights, now: int, log1p: int -> real)
    ensures ScoreCandidate(q, c.(id := id, rankScore := score), w, now, log1p) == ScoreCandidate(q, c, w, now, log1p)
  {
  }

  lemma ScoredScore(q: FeedQuery, cs: seq<Candidate>, w: Weights, now: int, log1p: int -> real, c: Candidate)
    requires c in Scored(q, cs, w, now, log1p)
    ensures Score(c) == ScoreCandidate(q, c, w, now, log1p)
  {
    var scored := Scored(q, cs, w, now, log1p);
    var j :| 0 <= j < |scored| && scored[j] == c;
    ScoreIgnores(q, cs[j], cs[j].id, c.rankScore, w, now, log1p);
  }

  /** The scores that the list before damping carries. */
  lemma OrderedScore(q: FeedQuery, cs: seq<Candidate>, w: Weights, now: int, log1p: int -> real, c: Candidate)
    requires c in BestFirst(q, cs, w, now, log1p)
    ensures Score(c) == ScoreCandidate(q, c, w, now, log1p)
  {
    StableSortMembers(ByScore(), Scored(q, cs, w, now, log1p));
    ScoredScore(q, cs, w, now, log1p, c);
  }

  lemma SeenScoresLess(q: FeedQuery, c: Candidate, d: Candidate, w: Weights, now: int, log1p: int -> real)
    requires w.seenPenalty < 0.0 && w.oonDiscount > 0.0 && c.seen
    requires d == c.(id := d.id, seen := false, rankScore := d.rankScore)
    ensures ScoreCandidate(q, c, w, now, log1p) < ScoreCandidate(q, d, w, now, log1p)
  {
    SeenCosts(q, c, w, now, log1p);
    assert c.(seen := true) == c;
    ScoreIgnores(q, c.(seen := false), d.id, d.rankScore, w, now, log1p);
    NegativeProduct(w.seenPenalty, Discount(c, w));
  }

  /** Of two posts that differ only in their ids and in that one was seen, the seen one stands below the other. */
  lemma SeenStandsBelow(q: FeedQuery, cs: seq<Candidate>, w: Weights, now: int, log1p: int -> real, i: nat, j: nat)
    requires w.seenPenalty < 0.0 && w.oonDiscount > 0.0
    requires var ordered := BestFirst(q, cs, w, now, log1p);
      && i < |ordered| && j < |ordered|
      && ordered[i].seen && ordered[j] == ordered[i].(id := ordered[j].id, seen := false, rankScore := ordered[j].rankScore)
    ensures j < i
  {
    var ordered := BestFirst(q, cs, w, now, log1p);
    OrderedScore(q, cs, w, now, log1p, ordered[i]);
    OrderedScore(q, cs, w, now, log1p, ordered[j]);
    SeenScoresLess(q, ordered[i], ordered[j], w, now, log1p);
    StableSortSorts(ByScore(), Scored(q, cs, w, now, log1p));
    InOrder(ordered, i, j);
  }

  lemma InOrder(s: seq<Candidate>, i: nat, j: nat)
    requires SortedBy(ByScore(), s) && i < |s| && j < |s|
    ensures i < j ==> Score(s[i]) >= Score(s[j])
  {
    assert i < j ==> ByScore()(s[i], s[j]);
  }
}
