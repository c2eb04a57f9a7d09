/** The two feed surfaces: sources, policy, ranking or chronological order, dedupe, page and rendered items. */
module FeedPipeline {
  import opened Options
  import opened Keyset
  import opened SocialModel
  import opened FeedTypes
  import opened Sorting
  import opened Ranking
  import opened Blending
  import opened Policy

  /** How a surface is assembled; `oonRatio` is present when it blends two sources. */
  datatype Surface = Surface(rules: seq<Rule>, weights: Weights, oonRatio: Option<real>, ranks: bool, dedupes: bool)

  function ForYou(weights: Weights): Surface {
    Surface(HOME, weights, Some(0.35), true, true)
  }

  function Following(weights: Weights): Surface {
    Surface(FOLLOWING, weights, None, false, false)
  }

  // ----- Policy

  /** The candidates that the rules do not drop, in order, each marked as covered or not. */
  function Passed(rules: seq<Rule>, q: FeedQuery, env: Env, cs: seq<Candidate>): seq<Candidate> {
    if cs == [] then []
    else
      var verdict := Decide(rules, Context(q, cs[0], env));
      (if verdict == Drop then [] else [cs[0].(interstitial := verdict == Interstitial)])
      + Passed(rules, q, env, cs[1..])
  }

  method ApplyPolicy(rules: seq<Rule>, q: FeedQuery, env: Env, cs: seq<Candidate>) returns (kept: seq<Candidate>)
    ensures kept == Passed(rules, q, env, cs)
  {
    kept := [];
    assert cs[0..] == cs;
    for i := 0 to |cs|
      invariant Passed(rules, q, env, cs) == kept + Passed(rules, q, env, cs[i..])
    {
      var verdict, name := EvaluateRules(rules, Context(q, cs[i], env));
      ghost var rest := Passed(rules, q, env, cs[i + 1..]);
      assert cs[i..][1..] == cs[i + 1..];
      if verdict == Drop {
        assert kept + ([] + rest) == kept + rest;
        continue;
      }
      var c := cs[i].(interstitial := verdict == Interstitial);
      assert kept + ([c] + rest) == kept + [c] + rest;
      kept := kept + [c];
    }
  }

  /** The candidate was decided upon and not dropped; the mark says whether it is covered. */
  ghost predicate Admitted(rules: seq<Rule>, q: FeedQuery, env: Env, c: Candidate, cs: seq<Candidate>) {
    exists d :: d in cs
      && Decide(rules, Context(q, d, env)) != Drop
      && c == d.(interstitial := Decide(rules, Context(q, d, env)) == Interstitial)
  }

  lemma {:induction false} PassedMembers(rules: seq<Rule>, q: FeedQuery, env: Env, cs: seq<Candidate>, c: Candidate)
    requires c in Passed(rules, q, env, cs)
    ensures Admitted(rules, q, env, c, cs)
  {
    var rest := Passed(rules, q, env, cs[1..]);
    if c in rest {
      PassedMembers(rules, q, env, cs[1..], c);
      var d :| d in cs[1..]
        && Decide(rules, Context(q, d, env)) != Drop
        && c == d.(interstitial := Decide(rules, Context(q, d, env)) == Interstitial);
      assert d in cs;
    } else {
      assert cs[0] in cs;
    }
  }

  /** The policy only removes: ids stay distinct. */
  lemma {:induction false} PassedIds(rules: seq<Rule>, q: FeedQuery, env: Env, cs: seq<Candidate>)
    requires DistinctIds(cs)
    ensures DistinctIds(Passed(rules, q, env, cs)) && IdSet(Passed(rules, q, env, cs)) <= IdSet(cs)
  {
    if cs != [] {
      var rest := Passed(rules, q, env, cs[1..]);
      PassedIds(rules, q, env, cs[1..]);
      assert cs == [cs[0]] + cs[1..];
      IdSetCons(cs[0], cs[1..]);
      var head := cs[0].(interstitial := Decide(rules, Context(q, cs[0], env)) == Interstitial);
      IdSetCons(head, rest);
      HeadIdNotInTail(cs);
      DistinctCons(head, rest);
      assert [] + rest == rest;
    }
  }

  lemma HeadIdNotInTail(cs: seq<Candidate>)
    requires cs != [] && DistinctIds(cs)
    ensures cs[0].id !in IdSet(cs[1..]) && DistinctIds(cs[1..])
  {
  }

  // ----- Order and page

  function ByRecency(): (Candidate, Candidate) -> bool {
    (a: Candidate, b: Candidate) => !Above(b.Key(), a.Key())
  }

  function Seen(q: FeedQuery, cs: seq<Candidate>): (r: seq<Candidate>)
    ensures |r| == |cs| && forall i :: 0 <= i < |cs| ==> r[i] == cs[i].(seen := cs[i].id in q.seen)
  {
    seq(|cs|, i requires 0 <= i < |cs| => cs[i].(seen := cs[i].id in q.seen))
  }

  function Arranged(s: Surface, q: FeedQuery, env: Env, log1p: int -> real, cs: seq<Candidate>): seq<Candidate> {
    if s.ranks then Ranked(BestFirst(q, Seen(q, cs), s.weights, env.now, log1p), s.weights.decay, s.weights.floor)
    else StableSort(ByRecency(), cs)
  }

  /** The page and, when more candidates remain, the key of its last item. */
  function Selected(q: FeedQuery, cs: seq<Candidate>): (seq<Candidate>, Option<Key>) {
    var page := Take(cs, q.limit);
    if |cs| > q.limit && page != [] then (page, Some(page[|page| - 1].Key())) else (page, None)
  }

  function Gathered(s: Surface, q: FeedQuery, thunder: seq<Candidate>, oon: seq<Candidate>): seq<Candidate> {
    match s.oonRatio
    case Some(ratio) => Blended(q.limit, ratio, thunder, oon)
    case None => thunder
  }

  /** The hydrators fill in columns; what identifies a candidate stays. */
  ghost predicate KeepsIdentity(hydrate: Candidate -> Candidate) {
    forall c :: hydrate(c).id == c.id && hydrate(c).source == c.source && hydrate(c).parent == c.parent
      && hydrate(c).root == c.root && hydrate(c).createdAt == c.createdAt
  }

  function Hydrated(hydrate: Candidate -> Candidate, cs: seq<Candidate>): (r: seq<Candidate>)
    ensures |r| == |cs| && forall i :: 0 <= i < |cs| ==> r[i] == hydrate(cs[i])
  {
    seq(|cs|, i requires 0 <= i < |cs| => hydrate(cs[i]))
  }

  /** The candidates before the page is cut. */
  function Surfaced(s: Surface, q: FeedQuery, env: Env, log1p: int -> real, hydrate: Candidate -> Candidate,
                    thunder: seq<Candidate>, oon: seq<Candidate>): seq<Candidate> {
    var passed := Passed(s.rules, q, env, Hydrated(hydrate, Gathered(s, q, thunder, oon)));
    var arranged := Arranged(s, q, env, log1p, passed);
    if s.dedupes then Deduped(arranged) else arranged
  }

  /** The loop that flags posts the viewer has seen. */
  method MarkSeen(q: FeedQuery, list: array<Candidate>)
    modifies list
    ensures list[..] == Seen(q, old(list[..]))
  {
    ghost var all := list[..];
    for i := 0 to list.Length
      invariant list[..i] == Seen(q, all)[..i] && list[i..] == all[i..]
    {
      assert list[i..][0] == all[i..][0];
      list[i] := list[i].(seen := list[i].id in q.seen);
    }
    assert list[..] == Seen(q, all);
  }

  method Arrange(s: Surface, q: FeedQuery, env: Env, log1p: int -> real, cs: seq<Candidate>)
    returns (r: seq<Candidate>)
    ensures r == Arranged(s, q, env, log1p, cs)
  {
    if s.ranks {
      var list := new Candidate[|cs|](i requires 0 <= i < |cs| => cs[i]);
      assert list[..] == cs;
      MarkSeen(q, list);
      r := RankCandidates(q, list, s.weights, env.now, log1p);
    } else {
      r := StableSort(ByRecency(), cs);
    }
  }

  method RunPipeline(s: Surface, q: FeedQuery, env: Env, log1p: int -> real, hydrate: Candidate -> Candidate,
             thunder: seq<Candidate>, oon: seq<Candidate>)
    returns (page: seq<Candidate>, next: Option<Key>)
    ensures (page, next) == Selected(q, Surfaced(s, q, env, log1p, hydrate, thunder, oon))
  {
    var candidates := thunder;
    if s.oonRatio.Some? {
      candidates := Blend(q.limit, s.oonRatio.value, thunder, oon);
    }
    assert candidates == Gathered(s, q, thunder, oon);
    candidates := Hydrated(hydrate, candidates);
    candidates := ApplyPolicy(s.rules, q, env, candidates);
    candidates := Arrange(s, q, env, log1p, candidates);
    if s.dedupes {
      candidates := DedupeConversations(candidates);
    }
    assert candidates == Surfaced(s, q, env, log1p, hydrate, thunder, oon);
    page := Take(candidates, q.limit);
    next := if |candidates| > q.limit && page != [] then Some(page[|page| - 1].Key()) else None;
  }

  // ----- Rendered items

  datatype Item = Item(
    id: PostId, body: string, quoteOf: Option<Reference>, repostOf: Option<Reference>, covered: bool, labels: set<Label>)

  function Rendered(c: Candidate): Item {
    if c.interstitial then Item(c.id, "", None, None, true, c.Labels())
    else Item(c.id, c.body, c.quoted, c.reposted, false, c.Labels())
  }

  method PostItems(cs: seq<Candidate>) returns (items: seq<Item>)
    ensures |items| == |cs| && forall i :: 0 <= i < |cs| ==> items[i] == Rendered(cs[i])
  {
    items := [];
    for i := 0 to |cs|
      invariant |items| == i && forall j :: 0 <= j < i ==> items[j] == Rendered(cs[j])
    {
      var c := cs[i];
      var quoteOf := if c.interstitial then None else c.quoted;
      var repostOf := if c.interstitial then None else c.reposted;
      items := items + [Item(c.id, if c.interstitial then "" else c.body, quoteOf, repostOf, c.interstitial, c.Labels())];
    }
  }

  // ----- Where an item comes from

  /** Ranking and sorting change nothing but the score and the seen flag. */
  ghost predicate SameButScore(c: Candidate, d: Candidate) {
    c == d.(rankScore := c.rankScore, seen := c.seen)
  }

  ghost predicate FromList(c: Candidate, cs: seq<Candidate>) {
    exists d :: d in cs && SameButScore(c, d)
  }

  lemma {:induction false} DampedFrom(cs: seq<Candidate>, seen: map<UserId, nat>, decay: real, floor: real, i: nat)
    requires i < |cs|
    ensures SameButScore(Damped(cs, seen, decay, floor)[i], cs[i])
    decreases |cs|
  {
    if i > 0 {
      DampedFrom(cs[1..], seen[cs[0].author := Count(seen, cs[0].author) + 1], decay, floor, i - 1);
    }
  }

  lemma RankedFrom(q: FeedQuery, cs: seq<Candidate>, w: Weights, now: int, log1p: int -> real, c: Candidate)
    requires c in Ranked(BestFirst(q, cs, w, now, log1p), w.decay, w.floor)
    ensures FromList(c, cs)
  {
    var scored := Scored(q, cs, w, now, log1p);
    var ordered := BestFirst(q, cs, w, now, log1p);
    var damped := Damped(ordered, map[], w.decay, w.floor);
    StableSortMembers(ByScore(), damped);
    var i :| 0 <= i < |damped| && damped[i] == c;
    DampedFrom(ordered, map[], w.decay, w.floor, i);
    StableSortMembers(ByScore(), scored);
    assert ordered[i] in scored;
    var j :| 0 <= j < |scored| && scored[j] == ordered[i];
    assert SameButScore(c, cs[j]);
  }

  lemma ArrangedFrom(s: Surface, q: FeedQuery, env: Env, log1p: int -> real, cs: seq<Candidate>, c: Candidate)
    requires c in Arranged(s, q, env, log1p, cs)
    ensures FromList(c, cs)
  {
    if s.ranks {
      var flagged := Seen(q, cs);
      RankedFrom(q, flagged, s.weights, env.now, log1p, c);
      var d :| d in flagged && SameButScore(c, d);
      var j :| 0 <= j < |flagged| && flagged[j] == d;
      assert SameButScore(c, cs[j]);
    } else {
      RecencyOrder();
      StableSortMembers(ByRecency(), cs);
      assert SameButScore(c, c);
    }
  }

  lemma RecencyOrder()
    ensures TotalPreorder(ByRecency())
  {
  }

  lemma {:induction false} DedupeMembers(cs: seq<Candidate>, roots: set<PostId>, orphans: set<PostId>, c: Candidate)
    requires c in DedupeFrom(cs, roots, orphans)
    ensures c in cs
  {
    if c != cs[0] {
      var more := if cs[0].parent.None? || Conversation(cs[0]) in roots || Conversation(cs[0]) in orphans then orphans
                  else orphans + {Conversation(cs[0])};
      DedupeMembers(cs[1..], roots, more, c);
    }
  }

  /** Every surfaced candidate was hydrated, judged by the surface's rules and not dropped. */
  lemma SurfacedFrom(s: Surface, q: FeedQuery, env: Env, log1p: int -> real, hydrate: Candidate -> Candidate,
                     thunder: seq<Candidate>, oon: seq<Candidate>, c: Candidate) returns (d: Candidate)
    requires c in Surfaced(s, q, env, log1p, hydrate, thunder, oon)
    ensures d in Hydrated(hydrate, Gathered(s, q, thunder, oon))
    ensures Decide(s.rules, Context(q, d, env)) != Drop
    ensures SameButScore(c, d.(interstitial := Decide(s.rules, Context(q, d, env)) == Interstitial))
  {
    var all := Hydrated(hydrate, Gathered(s, q, thunder, oon));
    var passed := Passed(s.rules, q, env, all);
    var arranged := Arranged(s, q, env, log1p, passed);
    if s.dedupes {
      DedupeMembers(arranged, WithRoot(arranged), {}, c);
    }
    ArrangedFrom(s, q, env, log1p, passed, c);
    var e :| e in passed && SameButScore(c, e);
    PassedMembers(s.rules, q, env, all, e);
    d :| d in all
      && Decide(s.rules, Context(q, d, env)) != Drop
      && e == d.(interstitial := Decide(s.rules, Context(q, d, env)) == Interstitial);
  }

  // ----- NSFW end to end

  /** The source marks of what a surface gathers: only For You holds out-of-network candidates. */
  lemma GatheredSource(s: Surface, q: FeedQuery, hydrate: Candidate -> Candidate, thunder: seq<Candidate>,
                       oon: seq<Candidate>, d: Candidate)
    requires KeepsIdentity(hydrate) && forall c :: c in thunder ==> c.source == InNetwork
    requires d in Hydrated(hydrate, Gathered(s, q, thunder, oon)) && d.source == Oon
    ensures s.oonRatio.Some?
  {
    var i :| 0 <= i < |Gathered(s, q, thunder, oon)| && d == hydrate(Gathered(s, q, thunder, oon)[i]);
  }

  /** On both surfaces, every returned post that carries the NSFW label, itself or by its author, goes to a viewer treated
      as an adult, is not out of network, and is rendered covered: no body, no quoted and no reposted post. */
  lemma NsfwIsCovered(s: Surface, q: FeedQuery, env: Env, log1p: int -> real, hydrate: Candidate -> Candidate,
                      thunder: seq<Candidate>, oon: seq<Candidate>, c: Candidate)
    requires s == ForYou(s.weights) || s == Following(s.weights)
    requires KeepsIdentity(hydrate) && forall d :: d in thunder ==> d.source == InNetwork
    requires c in Selected(q, Surfaced(s, q, env, log1p, hydrate, thunder, oon)).0 && IsNsfw(c)
    ensures IsAdult(q.birthdate, env.today) && c.source != Oon
    ensures Rendered(c) == Item(c.id, "", None, None, true, c.Labels())
  {
    var d := SurfacedFrom(s, q, env, log1p, hydrate, thunder, oon, c);
    var x := Context(q, d, env);
    ListsNested();
    if d.source == Oon {
      GatheredSource(s, q, hydrate, thunder, oon, d);
      HomeDropsLabeledOon(x);
    }
    NsfwInNetwork(s.rules, x);
  }

  // ----- For You

  lemma DistinctIdsOfPermutation(xs: seq<Candidate>, ys: seq<Candidate>)
    requires multiset(Ids(xs)) == multiset(Ids(ys)) && DistinctIds(xs)
    ensures DistinctIds(ys)
  {
    DistinctCounts(Ids(xs));
    DistinctCounts(Ids(ys));
    assert Distinct(Ids(xs));
    assert Distinct(Ids(ys));
  }

  lemma RankedIds(s: Surface, q: FeedQuery, env: Env, log1p: int -> real, cs: seq<Candidate>)
    requires s.ranks && DistinctIds(cs)
    ensures DistinctIds(Arranged(s, q, env, log1p, cs)) && SortedBy(ByScore(), Arranged(s, q, env, log1p, cs))
  {
    var flagged := Seen(q, cs);
    RankedIsSortedPermutation(q, flagged, s.weights, env.now, log1p);
    assert Ids(flagged) == Ids(cs);
    DistinctIdsOfPermutation(cs, Arranged(s, q, env, log1p, cs));
  }

  /** The ranked For You candidates before dedupe: distinct, best first, and indexed by their root. */
  lemma ForYouCandidates(w: Weights, q: FeedQuery, env: Env, log1p: int -> real, hydrate: Candidate -> Candidate,
                         thunder: seq<Candidate>, oon: seq<Candidate>)
    requires KeepsIdentity(hydrate) && WellIndexed(thunder) && WellIndexed(oon)
    ensures var passed := Passed(HOME, q, env, Hydrated(hydrate, Gathered(ForYou(w), q, thunder, oon)));
      var ranked := Arranged(ForYou(w), q, env, log1p, passed);
      DistinctIds(ranked) && SortedBy(ByScore(), ranked) && WellIndexed(ranked)
  {
    var s := ForYou(w);
    var gathered := Gathered(s, q, thunder, oon);
    var hydrated := Hydrated(hydrate, gathered);
    var passed := Passed(HOME, q, env, hydrated);
    BlendKeepsBothSources(q.limit, 0.35, thunder, oon);
    assert DistinctIds(hydrated);
    PassedIds(HOME, q, env, hydrated);
    RankedIds(s, q, env, log1p, passed);
    BlendedIndexed(q.limit, 0.35, thunder, oon);
    HydratedIndexed(hydrate, gathered);
    forall c | c in Arranged(s, q, env, log1p, passed) && c.parent.None?
      ensures c.root.None?
    {
      ArrangedFrom(s, q, env, log1p, passed, c);
      var e :| e in passed && SameButScore(c, e);
      PassedMembers(HOME, q, env, hydrated, e);
    }
  }

  lemma CopyIndexed(c: Candidate, cs: seq<Candidate>)
    requires WellIndexed(cs) && ComesFrom(c, cs)
    ensures c.parent.None? ==> c.root.None?
  {
  }

  lemma BlendedIndexed(limit: nat, ratio: real, thunder: seq<Candidate>, oon: seq<Candidate>)
    requires WellIndexed(thunder) && WellIndexed(oon)
    ensures WellIndexed(Blended(limit, ratio, thunder, oon))
  {
    var all, first := Blended(limit, ratio, thunder, oon), Unseen(thunder, {}, Thunder);
    BlendKeepsBothSources(limit, ratio, thunder, oon);
    assert all == first + all[|first|..];
    forall c | c in all
      ensures c.parent.None? ==> c.root.None?
    {
      if c in first {
        CopyIndexed(c, thunder);
      } else {
        CopyIndexed(c, oon);
      }
    }
  }

  lemma HydratedIndexed(hydrate: Candidate -> Candidate, cs: seq<Candidate>)
    requires KeepsIdentity(hydrate) && WellIndexed(cs)
    ensures WellIndexed(Hydrated(hydrate, cs))
  {
    forall c | c in Hydrated(hydrate, cs)
      ensures c.parent.None? ==> c.root.None?
    {
      var i :| 0 <= i < |cs| && c == hydrate(cs[i]);
      assert cs[i] in cs;
    }
  }

  /** For You shows each conversation once, in rank order: by its root if that is a candidate, otherwise by the reply with
      the highest final score. */
  lemma ForYouConversations(w: Weights, q: FeedQuery, env: Env, log1p: int -> real, hydrate: Candidate -> Candidate,
                            thunder: seq<Candidate>, oon: seq<Candidate>)
    requires KeepsIdentity(hydrate) && WellIndexed(thunder) && WellIndexed(oon)
    ensures var passed := Passed(HOME, q, env, Hydrated(hydrate, Gathered(ForYou(w), q, thunder, oon)));
      var ranked := Arranged(ForYou(w), q, env, log1p, passed);
      var shown := Surfaced(ForYou(w), q, env, log1p, hydrate, thunder, oon);
      && DistinctIds(shown) && OnePerConversation(shown)
      && shown == Filter(IsRepresentative(ranked), ranked)
      && (forall c :: c in ranked ==>
            var r := Representative(ranked, Conversation(c));
            && r.Some? && r.value in shown
            && (r.value.parent.None? || (forall d :: d in ranked && Conversation(d) == Conversation(c) ==>
                                           d.parent.Some? && Score(r.value) >= Score(d))))
  {
    var passed := Passed(HOME, q, env, Hydrated(hydrate, Gathered(ForYou(w), q, thunder, oon)));
    var ranked := Arranged(ForYou(w), q, env, log1p, passed);
    ForYouCandidates(w, q, env, log1p, hydrate, thunder, oon);
    DedupeIsFilter(ranked);
    DedupeOnePerConversation(ranked);
    forall c, d | c in ranked && d in ranked && Conversation(d) == Conversation(c)
      ensures var r := Representative(ranked, Conversation(c));
        r.Some? && (r.value.parent.None? || (d.parent.Some? && Score(r.value) >= Score(d)))
    {
      BestOfConversation(ranked, Conversation(c), d);
    }
  }

  lemma BestOfConversation(ranked: seq<Candidate>, v: PostId, d: Candidate)
    requires SortedBy(ByScore(), ranked) && d in ranked && Conversation(d) == v
    ensures var r := Representative(ranked, v);
      r.Some? && (r.value.parent.None? || (d.parent.Some? && Score(r.value) >= Score(d)))
  {
    FirstIs(HeadOf(v), ranked);
    FirstIs(MemberOf(v), ranked);
    assert MemberOf(v)(d);
    if First(HeadOf(v), ranked).None? {
      assert !HeadOf(v)(d);
      FirstIsBest(MemberOf(v), ranked, d);
    }
  }

  lemma {:induction false} FirstIsBest(f: Candidate -> bool, cs: seq<Candidate>, d: Candidate)
    requires SortedBy(ByScore(), cs) && d in cs && f(d)
    ensures First(f, cs).Some? && Score(First(f, cs).value) >= Score(d)
  {
    if f(cs[0]) {
      var i :| 0 <= i < |cs| && cs[i] == d;
      assert i > 0 ==> ByScore()(cs[0], cs[i]);
    } else {
      FirstIsBest(f, cs[1..], d);
    }
  }
}
