/** Scoring, and the damping of repeated authors. Scores are reals; `log1p` is a function the caller supplies. */
module Ranking {
  import opened Options
  import opened SocialModel
  import opened FeedTypes
  import opened Sorting
  import Policy

  datatype Weights = Weights(
    recency: real, inNetworkBoost: real, engagement: real, authorAffinity: real, similarity: real, seenPenalty: real,
    notInterestedAuthor: real, oonDiscount: real, lowCredPenalty: real, decay: real, floor: real)

  function Max(a: real, b: real): real {
    if a >= b then a else b
  }

  function Min(a: real, b: real): real {
    if a <= b then a else b
  }

  function RecencySignal(createdAt: int, now: int): (r: real)
    ensures 0.0 < r <= 1.0
    ensures createdAt >= now ==> r == 1.0
  {
    var ageHours := Max((now - createdAt) as real / 3600.0, 0.0);
    1.0 / (1.0 + ageHours)
  }

  function EngagementSignal(engaged: Engaged, log1p: int -> real): real {
    log1p((if engaged.likes > 0 then engaged.likes else 0) + (if engaged.replies > 0 then engaged.replies else 0))
  }

  /** A weight that counts in full or not at all. */
  function Given(b: bool, weight: real): real {
    if b then weight else 0.0
  }

  predicate IsFollowed(q: FeedQuery, c: Candidate) {
    c.author in q.following && c.author != q.viewer
  }

  /** Zero for the best standing, one for the worst. */
  function CredFactor(cred: real): real {
    Max(0.0, Min(1.0, (100.0 - cred) / 100.0))
  }

  /** The weighted sum of the signals. */
  function Sum(q: FeedQuery, c: Candidate, w: Weights, now: int, log1p: int -> real): real {
    w.recency * RecencySignal(c.createdAt, now)
    + Given(IsFollowed(q, c), w.inNetworkBoost)
    + w.engagement * EngagementSignal(c.engaged, log1p)
    + w.authorAffinity * c.affinity
    + w.similarity * (if c.similarity.Some? then c.similarity.value else 0.0)
    + Given(c.seen, w.seenPenalty)
    + Given(c.author in q.notInterested, w.notInterestedAuthor)
    + w.lowCredPenalty * CredFactor(c.authorInfo.cred)
  }

  function ScoreCandidate(q: FeedQuery, c: Candidate, w: Weights, now: int, log1p: int -> real): real {
    if c.source == Oon then Sum(q, c, w, now, log1p) * w.oonDiscount else Sum(q, c, w, now, log1p)
  }

  /** A missing score sorts as zero. */
  function Score(c: Candidate): real {
    if c.rankScore.Some? then c.rankScore.value else 0.0
  }

  function ByScore(): (Candidate, Candidate) -> bool {
    (a: Candidate, b: Candidate) => Score(a) >= Score(b)
  }

  function OfAuthor(a: UserId): Candidate -> bool {
    (c: Candidate) => c.author == a
  }

  function Pow(x: real, k: nat): real {
    if k == 0 then 1.0 else x * Pow(x, k - 1)
  }

  function Factor(decay: real, floor: real, k: nat): real {
    Max(floor, Pow(decay, k))
  }

  function Scaled(c: Candidate, factor: real): Candidate {
    if c.rankScore.Some? then c.(rankScore := Some(c.rankScore.value * factor)) else c
  }

  function Count(seen: map<UserId, nat>, a: UserId): nat {
    if a in seen then seen[a] else 0
  }

  /** Each post scaled by the number of its author's posts before it. */
  function Damped(cs: seq<Candidate>, seen: map<UserId, nat>, decay: real, floor: real): (r: seq<Candidate>)
    ensures |r| == |cs|
  {
    if cs == [] then []
    else
      var k := Count(seen, cs[0].author);
      [Scaled(cs[0], Factor(decay, floor, k))] + Damped(cs[1..], seen[cs[0].author := k + 1], decay, floor)
  }

  /** The next post, scaled by the number of its author's posts so far. */
  function Attenuated(c: Candidate, seen: map<UserId, nat>, decay: real, floor: real): Candidate {
    Scaled(c, Factor(decay, floor, Count(seen, c.author)))
  }

  function CountedOne(seen: map<UserId, nat>, a: UserId): map<UserId, nat> {
    seen[a := Count(seen, a) + 1]
  }

  /** What one iteration leaves to do. */
  lemma DampedNext(total: seq<Candidate>, done: seq<Candidate>, cs: seq<Candidate>, i: nat, seen: map<UserId, nat>,
                   decay: real, floor: real)
    requires i < |cs| && total == done + Damped(cs[i..], seen, decay, floor)
    ensures total == done + [Attenuated(cs[i], seen, decay, floor)]
                     + Damped(cs[i + 1..], CountedOne(seen, cs[i].author), decay, floor)
  {
    assert cs[i..][1..] == cs[i + 1..];
  }

  /** One iteration of the damping loop. */
  method Attenuate(candidates: array<Candidate>, i: nat, seen: map<UserId, nat>, decay: real, floor: real)
    returns (next: map<UserId, nat>)
    requires i < candidates.Length
    modifies candidates
    ensures next == CountedOne(seen, old(candidates[i]).author)
    ensures candidates[..] == old(candidates[..])[i := Attenuated(old(candidates[i]), seen, decay, floor)]
  {
    var count := Count(seen, candidates[i].author);
    candidates[i] := Scaled(candidates[i], Factor(decay, floor, count));
    next := seen[candidates[i].author := count + 1];
  }

  lemma PutNext(done: seq<Candidate>, all: seq<Candidate>, i: nat, c: Candidate)
    requires |done| == i < |all|
    ensures (done + all[i..])[i := c] == done + [c] + all[i + 1..] && (done + all[i..])[i] == all[i]
  {
  }

  /** The scores are attenuated in place, in list order; the sorted list is returned. */
  method ApplyAuthorDiversity(candidates: array<Candidate>, decay: real, floor: real) returns (ranked: seq<Candidate>)
    modifies candidates
    ensures candidates[..] == Damped(old(candidates[..]), map[], decay, floor)
    ensures ranked == StableSort(ByScore(), candidates[..])
  {
    ghost var all := candidates[..];
    ghost var total := Damped(all, map[], decay, floor);
    ghost var done: seq<Candidate> := [];
    var seen: map<UserId, nat> := map[];
    assert all[0..] == all;
    for i := 0 to candidates.Length
      invariant |done| == i && candidates[..] == done + all[i..]
      invariant total == done + Damped(all[i..], seen, decay, floor)
    {
      DampedNext(total, done, all, i, seen, decay, floor);
      ghost var damped := Attenuated(all[i], seen, decay, floor);
      PutNext(done, all, i, damped);
      assert candidates[i] == candidates[..][i];
      seen := Attenuate(candidates, i, seen, decay, floor);
      done := done + [damped];
    }
    ranked := StableSort(ByScore(), candidates[..]);
  }

  function Scored(q: FeedQuery, cs: seq<Candidate>, w: Weights, now: int, log1p: int -> real): (r: seq<Candidate>)
    ensures |r| == |cs|
    ensures forall i :: 0 <= i < |cs| ==> r[i] == cs[i].(rankScore := Some(ScoreCandidate(q, cs[i], w, now, log1p)))
  {
    seq(|cs|, i requires 0 <= i < |cs| => cs[i].(rankScore := Some(ScoreCandidate(q, cs[i], w, now, log1p))))
  }

  /** The list before damping: scored and sorted, best first. */
  function BestFirst(q: FeedQuery, cs: seq<Candidate>, w: Weights, now: int, log1p: int -> real): seq<Candidate> {
    StableSort(ByScore(), Scored(q, cs, w, now, log1p))
  }

  function Ranked(ordered: seq<Candidate>, decay: real, floor: real): seq<Candidate> {
    StableSort(ByScore(), Damped(ordered, map[], decay, floor))
  }

  method RankCandidates(q: FeedQuery, candidates: array<Candidate>, w: Weights, now: int, log1p: int -> real)
    returns (ranked: seq<Candidate>)
    modifies candidates
    ensures ranked == Ranked(BestFirst(q, old(candidates[..]), w, now, log1p), w.decay, w.floor)
  {
    ghost var all := candidates[..];
    for i := 0 to candidates.Length
      invariant candidates[..i] == Scored(q, all, w, now, log1p)[..i]
      invariant candidates[i..] == all[i..]
    {
      assert candidates[i..][0] == all[i..][0];
      candidates[i] := candidates[i].(rankScore := Some(ScoreCandidate(q, candidates[i], w, now, log1p)));
    }
    assert candidates[..] == Scored(q, all, w, now, log1p);
    var ordered := StableSort(ByScore(), candidates[..]);
    var list := new Candidate[|ordered|](i requires 0 <= i < |ordered| => ordered[i]);
    assert list[..] == ordered;
    ranked := ApplyAuthorDiversity(list, w.decay, w.floor);
  }

  // ----- What ranking promises

  lemma ProductNonNegative(a: real, b: real)
    requires a >= 0.0 && b >= 0.0
    ensures a * b >= 0.0
  {
  }

  lemma TimesUnit(x: real, y: real)
    requires 0.0 <= x <= 1.0 && 0.0 <= y
    ensures 0.0 <= x * y <= y
  {
    assert (1.0 - x) * y >= 0.0;
    assert (1.0 - x) * y == y - x * y;
  }

  lemma {:induction false} PowInUnit(x: real, k: nat)
    requires 0.0 <= x <= 1.0
    ensures 0.0 <= Pow(x, k) <= 1.0
  {
    if k > 0 {
      PowInUnit(x, k - 1);
      TimesUnit(x, Pow(x, k - 1));
    }
  }

  lemma {:induction false} PowFalls(x: real, i: nat, j: nat)
    requires 0.0 <= x <= 1.0 && i <= j
    ensures 0.0 <= Pow(x, j) <= Pow(x, i) <= 1.0
    decreases j
  {
    PowInUnit(x, i);
    if i < j {
      PowFalls(x, i, j - 1);
      TimesUnit(x, Pow(x, j - 1));
    }
  }

  /** Factors start at one and never grow. */
  lemma FactorsFall(decay: real, floor: real, i: nat, j: nat)
    requires 0.0 <= decay <= 1.0 && 0.0 <= floor <= 1.0 && i <= j
    ensures 0.0 <= Factor(decay, floor, j) <= Factor(decay, floor, i) <= 1.0
    ensures Factor(decay, floor, 0) == 1.0
  {
    PowFalls(decay, i, j);
  }

  lemma OwnCons(a: UserId, c: Candidate, rest: seq<Candidate>)
    ensures Filter(OfAuthor(a), [c] + rest) == (if c.author == a then [c] else []) + Filter(OfAuthor(a), rest)
  {
    assert ([c] + rest)[1..] == rest;
  }

  /** The posts of one author, the first of them scaled for its `n`-th place. */
  function ScaledFrom(own: seq<Candidate>, n: nat, decay: real, floor: real): (r: seq<Candidate>)
    ensures |r| == |own| && forall k :: 0 <= k < |own| ==> r[k] == Scaled(own[k], Factor(decay, floor, n + k))
  {
    if own == [] then [] else [Scaled(own[0], Factor(decay, floor, n))] + ScaledFrom(own[1..], n + 1, decay, floor)
  }

  lemma OwnStep(a: UserId, head: Candidate, f: real, tail: seq<Candidate>, dampedTail: seq<Candidate>, n: nat,
                decay: real, floor: real)
    requires head.author == a ==> f == Factor(decay, floor, n)
    requires Filter(OfAuthor(a), dampedTail)
          == ScaledFrom(Filter(OfAuthor(a), tail), if head.author == a then n + 1 else n, decay, floor)
    ensures Filter(OfAuthor(a), [Scaled(head, f)] + dampedTail) == ScaledFrom(Filter(OfAuthor(a), [head] + tail), n, decay, floor)
  {
    OwnCons(a, head, tail);
    OwnCons(a, Scaled(head, f), dampedTail);
    assert Scaled(head, f).author == head.author;
    if head.author == a {
      ScaledFromCons(head, Filter(OfAuthor(a), tail), n, decay, floor);
    }
  }

  lemma DampedCons(head: Candidate, tail: seq<Candidate>, seen: map<UserId, nat>, decay: real, floor: real)
    ensures Damped([head] + tail, seen, decay, floor)
         == [Attenuated(head, seen, decay, floor)] + Damped(tail, CountedOne(seen, head.author), decay, floor)
  {
    assert ([head] + tail)[1..] == tail;
  }

  lemma {:induction false} OwnScaled(cs: seq<Candidate>, seen: map<UserId, nat>, decay: real, floor: real, a: UserId)
    ensures Filter(OfAuthor(a), Damped(cs, seen, decay, floor))
         == ScaledFrom(Filter(OfAuthor(a), cs), Count(seen, a), decay, floor)
    decreases |cs|
  {
    if cs != [] {
      assert cs == [cs[0]] + cs[1..];
      OwnScaled(cs[1..], CountedOne(seen, cs[0].author), decay, floor, a);
      OwnHead(cs[0], cs[1..], seen, decay, floor, a);
    }
  }

  lemma OwnHead(head: Candidate, tail: seq<Candidate>, seen: map<UserId, nat>, decay: real, floor: real, a: UserId)
    requires var next := CountedOne(seen, head.author);
      Filter(OfAuthor(a), Damped(tail, next, decay, floor)) == ScaledFrom(Filter(OfAuthor(a), tail), Count(next, a), decay, floor)
    ensures Filter(OfAuthor(a), Damped([head] + tail, seen, decay, floor))
         == ScaledFrom(Filter(OfAuthor(a), [head] + tail), Count(seen, a), decay, floor)
  {
    var next := CountedOne(seen, head.author);
    DampedCons(head, tail, seen, decay, floor);
    OwnStep(a, head, Factor(decay, floor, Count(seen, head.author)), tail, Damped(tail, next, decay, floor), Count(seen, a),
            decay, floor);
  }

  lemma ScaledFromCons(c: Candidate, rest: seq<Candidate>, n: nat, decay: real, floor: real)
    ensures ScaledFrom([c] + rest, n, decay, floor)
         == [Scaled(c, Factor(decay, floor, n))] + ScaledFrom(rest, n + 1, decay, floor)
  {
    assert ([c] + rest)[1..] == rest;
  }

  /** The `k`-th post of an author, in the order before damping, is scaled by `max(floor, decay^k)`. */
  lemma KthPostScaled(cs: seq<Candidate>, seen: map<UserId, nat>, decay: real, floor: real, a: UserId, k: nat)
    requires k < |Filter(OfAuthor(a), cs)|
    ensures |Filter(OfAuthor(a), Damped(cs, seen, decay, floor))| == |Filter(OfAuthor(a), cs)|
    ensures Filter(OfAuthor(a), Damped(cs, seen, decay, floor))[k]
         == Scaled(Filter(OfAuthor(a), cs)[k], Factor(decay, floor, Count(seen, a) + k))
  {
    OwnScaled(cs, seen, decay, floor, a);
  }

  lemma {:induction false} NoneOfAuthor(cs: seq<Candidate>, seen: map<UserId, nat>, decay: real, floor: real, a: UserId)
    requires Filter(OfAuthor(a), cs) == []
    ensures Filter(OfAuthor(a), Damped(cs, seen, decay, floor)) == []
    decreases |cs|
  {
    if cs != [] {
      var n := Count(seen, cs[0].author);
      NoneOfAuthor(cs[1..], seen[cs[0].author := n + 1], decay, floor, a);
      assert Damped(cs, seen, decay, floor)[1..] == Damped(cs[1..], seen[cs[0].author := n + 1], decay, floor);
    }
  }

  lemma {:induction false} SortedFilter(f: Candidate -> bool, cs: seq<Candidate>)
    requires SortedBy(ByScore(), cs)
    ensures SortedBy(ByScore(), Filter(f, cs))
  {
    if cs != [] {
      SortedFilter(f, cs[1..]);
      FilterMembers(f, cs[1..]);
      var rest := Filter(f, cs[1..]);
      forall j | 0 <= j < |rest|
        ensures ByScore()(cs[0], rest[j])
      {
        assert rest[j] in cs[1..];
      }
    }
  }

  lemma ScaledOrder(s: real, t: real, f: real, g: real)
    requires s >= t && s >= 0.0 && 0.0 <= g <= f
    ensures f * s >= g * t
  {
    if t >= 0.0 {
      ProductNonNegative(f - g, s);
      ProductNonNegative(g, s - t);
      assert (f - g) * s == f * s - g * s && g * (s - t) == g * s - g * t;
    } else {
      ProductNonNegative(f, s);
      ProductNonNegative(g, -t);
      assert g * (-t) == -(g * t);
    }
  }

  lemma ScaledPair(a: Candidate, b: Candidate, f: real, g: real)
    requires Score(a) >= Score(b) && Score(a) >= 0.0 && 0.0 <= g <= f
    ensures Score(Scaled(a, f)) >= Score(Scaled(b, g))
  {
    ScaledOrder(Score(a), Score(b), f, g);
  }

  /** Damping leaves the author's posts in their order: the k-th of them before is the k-th after, only scaled. */
  ghost predicate OrderKept(ordered: seq<Candidate>, decay: real, floor: real, a: UserId) {
    var own := Filter(OfAuthor(a), ordered);
    var after := Filter(OfAuthor(a), Ranked(ordered, decay, floor));
    |after| == |own| && forall k :: 0 <= k < |own| ==> after[k] == Scaled(own[k], Factor(decay, floor, k))
  }

  /** The damped score of the k-th of an author's posts. */
  function DampedScore(own: seq<Candidate>, decay: real, floor: real, k: nat): real
    requires k < |own|
  {
    Score(own[k]) * Factor(decay, floor, k)
  }

  /** No post of the author is overtaken by the next one. */
  ghost predicate NoneOvertaken(own: seq<Candidate>, decay: real, floor: real) {
    forall k :: 0 <= k < |own| - 1 ==> DampedScore(own, decay, floor, k) >= DampedScore(own, decay, floor, k + 1)
  }

  lemma ScoreScaled(c: Candidate, f: real)
    ensures Score(Scaled(c, f)) == Score(c) * f
  {
  }

  lemma OwnCount(ordered: seq<Candidate>, decay: real, floor: real, a: UserId)
    ensures |Filter(OfAuthor(a), Damped(ordered, map[], decay, floor))| == |Filter(OfAuthor(a), ordered)|
  {
    if Filter(OfAuthor(a), ordered) == [] {
      NoneOfAuthor(ordered, map[], decay, floor, a);
    } else {
      KthPostScaled(ordered, map[], decay, floor, a, 0);
    }
  }

  /** An author's posts after damping and before the last sort. */
  lemma AuthorDamped(ordered: seq<Candidate>, decay: real, floor: real, a: UserId)
    ensures var own := Filter(OfAuthor(a), ordered);
      var scaled := Filter(OfAuthor(a), Damped(ordered, map[], decay, floor));
      |scaled| == |own| && forall k :: 0 <= k < |own| ==>
        scaled[k] == Scaled(own[k], Factor(decay, floor, k)) && Score(scaled[k]) == DampedScore(own, decay, floor, k)
  {
    var own := Filter(OfAuthor(a), ordered);
    var scaled := Filter(OfAuthor(a), Damped(ordered, map[], decay, floor));
    OwnCount(ordered, decay, floor, a);
    forall k | 0 <= k < |own|
      ensures scaled[k] == Scaled(own[k], Factor(decay, floor, k)) && Score(scaled[k]) == DampedScore(own, decay, floor, k)
    {
      KthPostScaled(ordered, map[], decay, floor, a, k);
      ScoreScaled(own[k], Factor(decay, floor, k));
    }
  }

  lemma {:induction false} AdjacentSorted(cs: seq<Candidate>, i: nat, j: nat)
    requires forall k :: 0 <= k < |cs| - 1 ==> Score(cs[k]) >= Score(cs[k + 1])
    requires i < j < |cs|
    ensures Score(cs[i]) >= Score(cs[j])
    decreases j
  {
    if i + 1 < j {
      AdjacentSorted(cs, i, j - 1);
    }
    assert Score(cs[j - 1]) >= Score(cs[j - 1 + 1]);
  }

  /** The exact condition on the list before damping, for any decay and floor: an author's posts keep their order if and
      only if none of them, scaled for its place, falls below the next one, scaled for its place. */
  lemma AuthorOrderCondition(ordered: seq<Candidate>, decay: real, floor: real, a: UserId)
    ensures OrderKept(ordered, decay, floor, a) <==> NoneOvertaken(Filter(OfAuthor(a), ordered), decay, floor)
  {
    var own := Filter(OfAuthor(a), ordered);
    var damped := Damped(ordered, map[], decay, floor);
    var scaled := Filter(OfAuthor(a), damped);
    AuthorDamped(ordered, decay, floor, a);
    if NoneOvertaken(own, decay, floor) {
      ScaledSorted(own, scaled, decay, floor);
      StableSortKeeps(ByScore(), OfAuthor(a), damped);
    }
    if OrderKept(ordered, decay, floor, a) {
      StableSortSorts(ByScore(), damped);
      SortedFilter(OfAuthor(a), Ranked(ordered, decay, floor));
      KeptNotOvertaken(own, scaled, Filter(OfAuthor(a), Ranked(ordered, decay, floor)), decay, floor);
    }
  }

  lemma ScaledSorted(own: seq<Candidate>, scaled: seq<Candidate>, decay: real, floor: real)
    requires |scaled| == |own| && forall k :: 0 <= k < |own| ==> Score(scaled[k]) == DampedScore(own, decay, floor, k)
    requires NoneOvertaken(own, decay, floor)
    ensures SortedBy(ByScore(), scaled)
  {
    forall i, j | 0 <= i < j < |scaled|
      ensures ByScore()(scaled[i], scaled[j])
    {
      AdjacentSorted(scaled, i, j);
    }
  }

  lemma KeptNotOvertaken(own: seq<Candidate>, scaled: seq<Candidate>, after: seq<Candidate>, decay: real, floor: real)
    requires |scaled| == |own| == |after| && forall k :: 0 <= k < |own| ==> scaled[k] == after[k]
    requires forall k :: 0 <= k < |own| ==> Score(scaled[k]) == DampedScore(own, decay, floor, k)
    requires SortedBy(ByScore(), after)
    ensures NoneOvertaken(own, decay, floor)
  {
    forall k | 0 <= k < |own| - 1
      ensures DampedScore(own, decay, floor, k) >= DampedScore(own, decay, floor, k + 1)
    {
      assert ByScore()(after[k], after[k + 1]);
    }
  }

  /** Every post of the author but the last has a score of at least zero. */
  ghost predicate NonNegativeButLast(own: seq<Candidate>) {
    forall k :: 0 <= k < |own| - 1 ==> Score(own[k]) >= 0.0
  }

  predicate UnitWeights(decay: real, floor: real) {
    0.0 <= decay <= 1.0 && 0.0 <= floor <= 1.0
  }

  /** Whatever the weights, the order is safe exactly for authors with at most their last score negative. */
  lemma AuthorOrderKept(ordered: seq<Candidate>, a: UserId)
    requires SortedBy(ByScore(), ordered)
    ensures (forall decay, floor :: UnitWeights(decay, floor) ==> OrderKept(ordered, decay, floor, a))
      <==> NonNegativeButLast(Filter(OfAuthor(a), ordered))
  {
    var own := Filter(OfAuthor(a), ordered);
    SortedFilter(OfAuthor(a), ordered);
    if NonNegativeButLast(own) {
      forall decay, floor | UnitWeights(decay, floor)
        ensures OrderKept(ordered, decay, floor, a)
      {
        NonNegativeNotOvertaken(own, decay, floor);
        AuthorOrderCondition(ordered, decay, floor, a);
      }
    } else {
      var k :| 0 <= k < |own| - 1 && Score(own[k]) < 0.0;
      var decay := FlippingDecay(own, k);
      AuthorOrderCondition(ordered, decay, 0.0, a);
      assert UnitWeights(decay, 0.0) && !OrderKept(ordered, decay, 0.0, a);
    }
  }

  lemma NonNegativeNotOvertaken(own: seq<Candidate>, decay: real, floor: real)
    requires UnitWeights(decay, floor) && SortedBy(ByScore(), own) && NonNegativeButLast(own)
    ensures NoneOvertaken(own, decay, floor)
  {
    forall k | 0 <= k < |own| - 1
      ensures DampedScore(own, decay, floor, k) >= DampedScore(own, decay, floor, k + 1)
    {
      FactorsFall(decay, floor, k, k + 1);
      assert ByScore()(own[k], own[k + 1]);
      ScaledOrder(Score(own[k]), Score(own[k + 1]), Factor(decay, floor, k), Factor(decay, floor, k + 1));
    }
  }

  lemma {:induction false} PowPositive(x: real, k: nat)
    requires x > 0.0
    ensures Pow(x, k) > 0.0
  {
    if k > 0 {
      PowPositive(x, k - 1);
    }
  }

  /** A negative score that is not the last one is overtaken under a small enough decay. */
  lemma FlippingDecay(own: seq<Candidate>, k: nat) returns (decay: real)
    requires SortedBy(ByScore(), own) && k < |own| - 1 && Score(own[k]) < 0.0
    ensures 0.0 < decay <= 1.0 && !NoneOvertaken(own, decay, 0.0)
  {
    var s, t := Score(own[k]), Score(own[k + 1]);
    assert ByScore()(own[k], own[k + 1]);
    decay := HalfRatio(s, t);
    var p := Pow(decay, k);
    PowPositive(decay, k);
    PowPositive(decay, k + 1);
    assert t * (decay * p) == (t * decay) * p == (s / 2.0) * p;
    ProductNonNegative(-s, p);
    assert (s / 2.0) * p - s * p == ((-s) * p) / 2.0;
    NegativeProduct(s, p);
    assert DampedScore(own, decay, 0.0, k) == s * p && DampedScore(own, decay, 0.0, k + 1) == t * (decay * p);
  }

  lemma HalfRatio(s: real, t: real) returns (d: real)
    requires t <= s < 0.0
    ensures 0.0 < d <= 1.0 && t * d == s / 2.0
  {
    d := s / (2.0 * t);
    assert t * d == s / 2.0;
    if d <= 0.0 {
      ProductNonNegative(-t, -d);
    }
    if d > 1.0 {
      ProductNonNegative(-t, d - 1.0);
    }
  }

  lemma NegativeProduct(s: real, p: real)
    requires s < 0.0 && p > 0.0
    ensures s * p < 0.0
  {
  }

  /** The weights of the shipped configuration. */
  const SHIPPED := Weights(0.28, 0.22, 0.16, 0.08, 0.22, -0.35, -0.45, 0.75, -0.25, 0.45, 0.2)

  /** Scores that flip do occur: under the shipped weights, two unseen out-of-network posts of an account with the default
      standing, 27 and 34 hours old and at the least similarity the search admits, swap places. */
  lemma NegativeScoresFlip(q: FeedQuery, c: Candidate, now: int, log1p: int -> real)
    requires DefaultStranger(q, c) && log1p(0) == 0.0 && c.createdAt == now - 27 * 3600
    ensures var old_ := c.(id := c.id + 1, createdAt := now - 34 * 3600);
      var ordered := BestFirst(q, [c, old_], SHIPPED, now, log1p);
      && |ordered| == 2 && ordered[0].id == c.id && ordered[1].id == old_.id
      && Score(ordered[0]) == -0.06645 && Score(ordered[1]) == -0.06795
      && Ranked(ordered, SHIPPED.decay, SHIPPED.floor)[0].id == old_.id
  {
    var old_ := c.(id := c.id + 1, createdAt := now - 34 * 3600);
    var first, second := c.(rankScore := Some(-0.06645)), old_.(rankScore := Some(-0.06795));
    StrangerScore(q, c, now, log1p, 27);
    StrangerScore(q, old_, now, log1p, 34);
    var scored := Scored(q, [c, old_], SHIPPED, now, log1p);
    assert scored == [first, second];
    TwoInOrder(first, second);
    FlippedPair(first, second);
  }

  /** An unseen out-of-network candidate of a default account, without reactions and barely similar. */
  predicate DefaultStranger(q: FeedQuery, c: Candidate) {
    && c.author !in q.following && Fresh(q, c) && c.source == Oon && c.authorInfo.cred == 50.0
    && c.affinity == 0.0 && c.similarity == Some(0.12) && c.engaged == Engaged(0, 0)
  }

  lemma StrangerScore(q: FeedQuery, c: Candidate, now: int, log1p: int -> real, hours: nat)
    requires DefaultStranger(q, c) && log1p(0) == 0.0 && c.createdAt == now - hours * 3600
    ensures ScoreCandidate(q, c, SHIPPED, now, log1p) == (0.28 / (1 + hours) as real - 0.0986) * 0.75
  {
    HoursOld(now, hours);
    assert SHIPPED.recency * (1.0 / (1 + hours) as real) == 0.28 / (1 + hours) as real;
  }

  lemma HoursOld(now: int, hours: nat)
    ensures RecencySignal(now - hours * 3600, now) == 1.0 / (1 + hours) as real
  {
    assert (hours * 3600) as real == hours as real * 3600.0;
    assert (hours as real * 3600.0) / 3600.0 == hours as real;
  }

  lemma TwoInOrder(a: Candidate, b: Candidate)
    requires Score(a) >= Score(b)
    ensures StableSort(ByScore(), [a, b]) == [a, b]
  {
    assert [a, b][1..] == [b];
    assert StableSort(ByScore(), [b]) == Insert(ByScore(), b, []);
  }

  lemma FlippedPair(first: Candidate, second: Candidate)
    requires first.author == second.author && first.rankScore == Some(-0.06645) && second.rankScore == Some(-0.06795)
    ensures Ranked([first, second], 0.45, 0.2)[0].id == second.id
  {
    var cs, seen := [first, second], map[first.author := 1];
    assert cs[1..] == [second];
    assert Pow(0.45, 1) == 0.45 * Pow(0.45, 0) == 0.45;
    assert Damped([second], seen, 0.45, 0.2) == [Scaled(second, 0.45)];
    var damped := Damped(cs, map[], 0.45, 0.2);
    assert damped == [Scaled(first, 1.0)] + [Scaled(second, 0.45)];
    assert damped[1..] == [Scaled(second, 0.45)];
    assert StableSort(ByScore(), damped[1..]) == Insert(ByScore(), Scaled(second, 0.45), []);
  }

  /** The item that was best before damping stays first, unscaled. */
  lemma TopStays(ordered: seq<Candidate>, decay: real, floor: real)
    requires 0.0 <= decay <= 1.0 && 0.0 <= floor <= 1.0 && SortedBy(ByScore(), ordered)
    requires ordered != [] && Score(ordered[0]) >= 0.0
    ensures Ranked(ordered, decay, floor) != [] && Ranked(ordered, decay, floor)[0] == ordered[0]
  {
    var damped := Damped(ordered, map[], decay, floor);
    FactorsFall(decay, floor, 0, 0);
    assert damped[0] == Scaled(ordered[0], 1.0) == ordered[0];
    forall c | c in damped
      ensures Score(ordered[0]) >= Score(c)
    {
      var i :| 0 <= i < |damped| && damped[i] == c;
      var f := DampedAt(ordered, map[], decay, floor, i);
      if i > 0 {
        assert ByScore()(ordered[0], ordered[i]);
      }
      ScaledPair(ordered[0], ordered[i], 1.0, f);
    }
    var rest := StableSort(ByScore(), damped[1..]);
    StableSortMembers(ByScore(), damped[1..]);
    assert rest != [] ==> rest[0] in damped[1..];
  }

  /** Every factor lies between zero and one, and only the score changes. */
  lemma {:induction false} DampedAt(cs: seq<Candidate>, seen: map<UserId, nat>, decay: real, floor: real, i: nat)
    returns (f: real)
    requires 0.0 <= decay <= 1.0 && 0.0 <= floor <= 1.0 && i < |cs|
    ensures 0.0 <= f <= 1.0 && Damped(cs, seen, decay, floor)[i] == Scaled(cs[i], f)
    decreases |cs|
  {
    var k := Count(seen, cs[0].author);
    if i == 0 {
      f := Factor(decay, floor, k);
      FactorsFall(decay, floor, 0, k);
    } else {
      f := DampedAt(cs[1..], seen[cs[0].author := k + 1], decay, floor, i - 1);
    }
  }

  function Ids(cs: seq<Candidate>): (r: seq<PostId>)
    ensures |r| == |cs| && forall i :: 0 <= i < |cs| ==> r[i] == cs[i].id
  {
    seq(|cs|, i requires 0 <= i < |cs| => cs[i].id)
  }

  lemma IdsConcat(xs: seq<Candidate>, ys: seq<Candidate>)
    ensures Ids(xs + ys) == Ids(xs) + Ids(ys)
  {
  }

  lemma {:induction false} IdsOfPermutation(xs: seq<Candidate>, ys: seq<Candidate>)
    requires multiset(xs) == multiset(ys)
    ensures multiset(Ids(xs)) == multiset(Ids(ys))
    decreases |xs|
  {
    if xs == [] {
      assert |multiset(ys)| == 0;
    } else {
      var before, after := TakeOut(xs, ys);
      IdsOfPermutation(xs[1..], before + after);
      IdsConcat(before, after);
      IdsConcat(before + [xs[0]], after);
      IdsConcat(before, [xs[0]]);
      assert Ids(xs) == [xs[0].id] + Ids(xs[1..]);
      assert Ids([xs[0]]) == [xs[0].id];
    }
  }

  /** Ranking returns every candidate once, best final score first. */
  lemma RankedIsSortedPermutation(q: FeedQuery, cs: seq<Candidate>, w: Weights, now: int, log1p: int -> real)
    ensures var ordered := BestFirst(q, cs, w, now, log1p);
      var ranked := Ranked(ordered, w.decay, w.floor);
      && SortedBy(ByScore(), ordered) && SortedBy(ByScore(), ranked)
      && multiset(Ids(ranked)) == multiset(Ids(cs))
  {
    var scored := Scored(q, cs, w, now, log1p);
    var ordered := StableSort(ByScore(), scored);
    var damped := Damped(ordered, map[], w.decay, w.floor);
    StableSortSorts(ByScore(), scored);
    StableSortSorts(ByScore(), damped);
    IdsOfPermutation(ordered, scored);
    IdsOfPermutation(StableSort(ByScore(), damped), damped);
    assert Ids(scored) == Ids(cs);
    DampedIds(ordered, map[], w.decay, w.floor);
  }

  lemma {:induction false} DampedIds(cs: seq<Candidate>, seen: map<UserId, nat>, decay: real, floor: real)
    ensures Ids(Damped(cs, seen, decay, floor)) == Ids(cs)
    decreases |cs|
  {
    if cs != [] {
      DampedIds(cs[1..], seen[cs[0].author := Count(seen, cs[0].author) + 1], decay, floor);
    }
  }

  // ----- Which scores can be negative

  /** Neither seen nor by an author the viewer declined. */
  predicate Fresh(q: FeedQuery, c: Candidate) {
    !c.seen && c.author !in q.notInterested
  }

  /** The signals that the post itself earns. */
  predicate GoodSignals(c: Candidate) {
    c.affinity >= 0.0 && (c.similarity.Some? ==> c.similarity.value >= 0.0)
  }

  /** The same post but for the signals it earns. */
  predicate SameStanding(c: Candidate, d: Candidate) {
    d == c.(engaged := d.engaged, affinity := d.affinity, similarity := d.similarity)
  }

  predicate ShippedSigns(w: Weights) {
    && w.recency >= 0.0 && w.inNetworkBoost >= 0.0 && w.engagement >= 0.0 && w.authorAffinity >= 0.0
    && w.similarity >= 0.0 && w.oonDiscount > 0.0
  }

  ghost predicate IsLog1p(log1p: int -> real) {
    log1p(0) == 0.0 && forall n :: n >= 0 ==> log1p(n) >= 0.0
  }

  /** What a fresh candidate is sure of. */
  function Standing(q: FeedQuery, c: Candidate, w: Weights, now: int): real {
    w.recency * RecencySignal(c.createdAt, now) + Given(IsFollowed(q, c), w.inNetworkBoost)
    + w.lowCredPenalty * CredFactor(c.authorInfo.cred)
  }

  /** What the signals of the post add. */
  function Earned(c: Candidate, w: Weights, log1p: int -> real): real {
    w.engagement * EngagementSignal(c.engaged, log1p) + w.authorAffinity * c.affinity
    + w.similarity * (if c.similarity.Some? then c.similarity.value else 0.0)
  }

  lemma EarnedSign(c: Candidate, w: Weights, log1p: int -> real)
    requires ShippedSigns(w) && IsLog1p(log1p) && GoodSignals(c)
    ensures Earned(c, w, log1p) >= 0.0
    ensures c.engaged == Engaged(0, 0) && c.affinity == 0.0 && c.similarity.None? ==> Earned(c, w, log1p) == 0.0
  {
    ProductNonNegative(w.engagement, EngagementSignal(c.engaged, log1p));
    ProductNonNegative(w.authorAffinity, c.affinity);
    ProductNonNegative(w.similarity, if c.similarity.Some? then c.similarity.value else 0.0);
  }

  /** The score of a fresh candidate: its standing and what it earned, discounted out of network. */
  lemma FreshScore(q: FeedQuery, c: Candidate, w: Weights, now: int, log1p: int -> real)
    requires Fresh(q, c)
    ensures var sum := Standing(q, c, w, now) + Earned(c, w, log1p);
      ScoreCandidate(q, c, w, now, log1p) == if c.source == Oon then sum * w.oonDiscount else sum
  {
  }

  /** The discount keeps the sign. */
  lemma DiscountSign(sum: real, discount: real)
    requires discount > 0.0
    ensures sum >= 0.0 <==> sum * discount >= 0.0
  {
    if sum >= 0.0 {
      ProductNonNegative(sum, discount);
    } else {
      NegativeProduct(sum, discount);
    }
  }

  lemma FreshSign(q: FeedQuery, c: Candidate, w: Weights, now: int, log1p: int -> real)
    requires ShippedSigns(w) && Fresh(q, c)
    ensures ScoreCandidate(q, c, w, now, log1p) >= 0.0 <==> Standing(q, c, w, now) + Earned(c, w, log1p) >= 0.0
  {
    FreshScore(q, c, w, now, log1p);
    DiscountSign(Standing(q, c, w, now) + Earned(c, w, log1p), w.oonDiscount);
  }

  ghost predicate NeverNegative(q: FeedQuery, c: Candidate, w: Weights, now: int, log1p: int -> real) {
    forall d :: SameStanding(c, d) && GoodSignals(d) ==> ScoreCandidate(q, d, w, now, log1p) >= 0.0
  }

  /** Whatever signals it earns, an unseen candidate scores at least zero if and only if its recency and, for a followed
      author, the in-network boost make up for the author's credibility. */
  lemma ScoreNonNegative(q: FeedQuery, c: Candidate, w: Weights, now: int, log1p: int -> real)
    requires ShippedSigns(w) && IsLog1p(log1p) && Fresh(q, c)
    ensures NeverNegative(q, c, w, now, log1p) <==>
      w.recency * RecencySignal(c.createdAt, now) + Given(IsFollowed(q, c), w.inNetworkBoost)
      >= -w.lowCredPenalty * CredFactor(c.authorInfo.cred)
  {
    var s := Standing(q, c, w, now);
    StandingSign(q, c, w, now);
    forall d | SameStanding(c, d) && GoodSignals(d)
      ensures s >= 0.0 ==> ScoreCandidate(q, d, w, now, log1p) >= 0.0
    {
      EarnedSign(d, w, log1p);
      FreshSign(q, d, w, now, log1p);
      assert Standing(q, d, w, now) == s;
    }
    var bare := c.(engaged := Engaged(0, 0), affinity := 0.0, similarity := None);
    assert SameStanding(c, bare) && GoodSignals(bare);
    EarnedSign(bare, w, log1p);
    FreshSign(q, bare, w, now, log1p);
    assert Standing(q, bare, w, now) == s;
  }

  lemma StandingSign(q: FeedQuery, c: Candidate, w: Weights, now: int)
    ensures Standing(q, c, w, now) >= 0.0 <==>
      w.recency * RecencySignal(c.createdAt, now) + Given(IsFollowed(q, c), w.inNetworkBoost)
      >= -w.lowCredPenalty * CredFactor(c.authorInfo.cred)
  {
    var penalty, factor := w.lowCredPenalty, CredFactor(c.authorInfo.cred);
    assert -penalty * factor == -(penalty * factor);
  }

  /** The same post at any age that home admits. */
  ghost predicate NeverNegativeOnHome(q: FeedQuery, c: Candidate, now: int, log1p: int -> real) {
    forall at: int :: now - at <= Policy.MAX_AGE_HOURS * 3600 ==> NeverNegative(q, c.(createdAt := at), SHIPPED, now, log1p)
  }

  /** Under the shipped weights, for the 48 hours that home shows a post: unseen posts of a followed author never score
      below zero from a standing of about 10 on, those of anyone else only from about 98 on; the default is 50. */
  lemma HomeNonNegative(q: FeedQuery, c: Candidate, now: int, log1p: int -> real)
    requires IsLog1p(log1p) && Fresh(q, c)
    ensures NeverNegativeOnHome(q, c, now, log1p) <==>
      0.25 * CredFactor(c.authorInfo.cred) <= 0.28 / 49.0 + if IsFollowed(q, c) then 0.22 else 0.0
  {
    forall at: int | now - at <= Policy.MAX_AGE_HOURS * 3600
      ensures RecencySignal(at, now) >= 1.0 / 49.0
      ensures NeverNegative(q, c.(createdAt := at), SHIPPED, now, log1p) <==>
        0.25 * CredFactor(c.authorInfo.cred) <= 0.28 * RecencySignal(at, now) + if IsFollowed(q, c) then 0.22 else 0.0
    {
      RecentEnough(at, now);
      ScoreNonNegative(q, c.(createdAt := at), SHIPPED, now, log1p);
    }
    HoursOld(now, 48);
    var oldest := now - 48 * 3600;
    assert RecencySignal(oldest, now) == 1.0 / 49.0;
    assert now - oldest <= Policy.MAX_AGE_HOURS * 3600;
  }

  lemma RecentEnough(at: int, now: int)
    requires now - at <= 48 * 3600
    ensures RecencySignal(at, now) >= 1.0 / 49.0
  {
    var age := Max((now - at) as real / 3600.0, 0.0);
    assert age <= 48.0;
    InverseFalls(1.0 + age, 49.0);
  }

  lemma InverseFalls(a: real, b: real)
    requires 0.0 < a <= b
    ensures 1.0 / a >= 1.0 / b
  {
    var x, y := 1.0 / a, 1.0 / b;
    assert x * a == 1.0 && y * b == 1.0;
    if x < y {
      ProductNonNegative(y - x, a);
      ProductNonNegative(y, b - a);
    }
  }

  /** A default account does score below zero on home: an unseen post, 47 hours old, that the search just admits. */
  lemma DefaultAccountNegative(q: FeedQuery, c: Candidate, now: int, log1p: int -> real)
    requires DefaultStranger(q, c) && log1p(0) == 0.0 && c.createdAt == now - 47 * 3600
    ensures now - c.createdAt <= Policy.MAX_AGE_HOURS * 3600
    ensures ScoreCandidate(q, c, SHIPPED, now, log1p) < 0.0
  {
    StrangerScore(q, c, now, log1p, 47);
  }
}
