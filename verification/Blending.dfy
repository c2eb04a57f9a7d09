/** Merging the candidate sources, one item per conversation, and the module slot. */
module Blending {
  import opened Options
  import opened Keyset
  import opened SocialModel
  import opened FeedTypes
  import opened Sorting
  import opened Ranking

  const WHO_TO_FOLLOW_POSITION: nat := 6

  /** Candidates whose id is new, in order, each marked with its source. */
  function Unseen(cs: seq<Candidate>, seen: set<PostId>, source: Source): seq<Candidate> {
    if cs == [] then []
    else if cs[0].id in seen then Unseen(cs[1..], seen, source)
    else [cs[0].(source := source)] + Unseen(cs[1..], seen + {cs[0].id}, source)
  }

  function IdSet(cs: seq<Candidate>): set<PostId> {
    set c | c in cs :: c.id
  }

  function OonCap(limit: nat, ratio: real): nat {
    var share := (limit as real * ratio).Floor;
    if share > 1 then share else 1
  }

  function Blended(limit: nat, ratio: real, thunder: seq<Candidate>, oon: seq<Candidate>): seq<Candidate> {
    Unseen(thunder, {}, Thunder) + Take(Unseen(oon, IdSet(thunder), Oon), OonCap(limit, ratio))
  }

  lemma {:induction false} UnseenNext(cs: seq<Candidate>, i: nat, seen: set<PostId>, source: Source)
    requires i < |cs|
    ensures Unseen(cs[i..], seen, source) ==
            if cs[i].id in seen then Unseen(cs[i + 1..], seen, source)
            else [cs[i].(source := source)] + Unseen(cs[i + 1..], seen + {cs[i].id}, source)
  {
    assert cs[i..][1..] == cs[i + 1..];
  }

  lemma IdSetSnoc(cs: seq<Candidate>, i: nat)
    requires i < |cs|
    ensures IdSet(cs[..i + 1]) == IdSet(cs[..i]) + {cs[i].id}
  {
    assert cs[..i + 1] == cs[..i] + [cs[i]];
  }

  method Blend(limit: nat, ratio: real, thunder: seq<Candidate>, oon: seq<Candidate>) returns (merged: seq<Candidate>)
    ensures merged == Blended(limit, ratio, thunder, oon)
  {
    var seenIds: set<PostId>;
    merged, seenIds := BlendThunder(thunder);
    ghost var first := merged;
    var cap, added := OonCap(limit, ratio), 0;
    ghost var picked: seq<Candidate> := [];
    ghost var all := Unseen(oon, IdSet(thunder), Oon);
    assert oon[0..] == oon && all == [] + all;
    for i := 0 to |oon|
      invariant merged == first + picked && |picked| == added <= cap
      invariant all == picked + Unseen(oon[i..], seenIds, Oon)
    {
      UnseenStep(all, picked, oon, i, seenIds, Oon);
      if oon[i].id in seenIds { continue; }
      if added >= cap { break; }
      seenIds := seenIds + {oon[i].id};
      merged := merged + [oon[i].(source := Oon)];
      picked := picked + [oon[i].(source := Oon)];
      added := added + 1;
    }
    assert picked == Take(all, cap);
  }

  /** The in-network loop. */
  method BlendThunder(thunder: seq<Candidate>) returns (merged: seq<Candidate>, seenIds: set<PostId>)
    ensures merged == Unseen(thunder, {}, Thunder) && seenIds == IdSet(thunder)
  {
    merged, seenIds := [], {};
    ghost var all := Unseen(thunder, {}, Thunder);
    assert thunder[0..] == thunder && all == [] + all;
    for i := 0 to |thunder|
      invariant seenIds == IdSet(thunder[..i])
      invariant all == merged + Unseen(thunder[i..], seenIds, Thunder)
    {
      UnseenStep(all, merged, thunder, i, seenIds, Thunder);
      IdSetSnoc(thunder, i);
      if thunder[i].id in seenIds {
        assert seenIds == seenIds + {thunder[i].id};
        continue;
      }
      seenIds := seenIds + {thunder[i].id};
      merged := merged + [thunder[i].(source := Thunder)];
    }
    assert thunder[..|thunder|] == thunder;
  }

  /** One iteration: `done` is the part of `all` that has been emitted. */
  lemma UnseenStep(all: seq<Candidate>, done: seq<Candidate>, cs: seq<Candidate>, i: nat, seen: set<PostId>, source: Source)
    requires i < |cs| && all == done + Unseen(cs[i..], seen, source)
    ensures all == if cs[i].id in seen then done + Unseen(cs[i + 1..], seen, source)
                   else done + [cs[i].(source := source)] + Unseen(cs[i + 1..], seen + {cs[i].id}, source)
  {
    UnseenNext(cs, i, seen, source);
    OneByOne(done, cs[i].(source := source), Unseen(cs[i + 1..], seen + {cs[i].id}, source));
  }

  lemma OneByOne<T>(done: seq<T>, x: T, rest: seq<T>)
    ensures done + ([x] + rest) == done + [x] + rest
  {
  }

  ghost predicate DistinctIds(cs: seq<Candidate>) {
    forall i, j :: 0 <= i < j < |cs| ==> cs[i].id != cs[j].id
  }

  /** The candidate is one of `cs`, up to the source mark. */
  ghost predicate ComesFrom(c: Candidate, cs: seq<Candidate>) {
    exists d :: d in cs && c == d.(source := c.source)
  }

  lemma {:induction false} UnseenIds(cs: seq<Candidate>, seen: set<PostId>, source: Source)
    ensures IdSet(Unseen(cs, seen, source)) == IdSet(cs) - seen
    ensures DistinctIds(Unseen(cs, seen, source))
  {
    if cs != [] {
      assert cs == [cs[0]] + cs[1..];
      IdSetCons(cs[0], cs[1..]);
      if cs[0].id in seen {
        UnseenIds(cs[1..], seen, source);
      } else {
        var rest := Unseen(cs[1..], seen + {cs[0].id}, source);
        UnseenIds(cs[1..], seen + {cs[0].id}, source);
        IdSetCons(cs[0].(source := source), rest);
        DistinctCons(cs[0].(source := source), rest);
      }
    }
  }

  lemma DistinctCons(c: Candidate, cs: seq<Candidate>)
    requires DistinctIds(cs) && c.id !in IdSet(cs)
    ensures DistinctIds([c] + cs)
  {
    assert forall j :: 0 <= j < |cs| ==> cs[j] in cs && cs[j].id in IdSet(cs);
  }

  lemma {:induction false} UnseenMembers(cs: seq<Candidate>, seen: set<PostId>, source: Source, c: Candidate)
    requires c in Unseen(cs, seen, source)
    ensures c.source == source && ComesFrom(c, cs)
  {
    if cs[0].id !in seen && c == cs[0].(source := source) {
      assert cs[0] in cs;
    } else {
      UnseenMembers(cs[1..], if cs[0].id in seen then seen else seen + {cs[0].id}, source, c);
      var d :| d in cs[1..] && c == d.(source := c.source);
      assert d in cs;
    }
  }

  lemma IdSetCons(c: Candidate, cs: seq<Candidate>)
    ensures IdSet([c] + cs) == {c.id} + IdSet(cs)
  {
    assert forall d :: d in [c] + cs <==> d == c || d in cs;
  }

  lemma FirstPart(thunder: seq<Candidate>)
    ensures var first := Unseen(thunder, {}, Thunder);
      && DistinctIds(first) && IdSet(first) == IdSet(thunder)
      && forall c :: c in first ==> c.source == Thunder && ComesFrom(c, thunder) && c.id in IdSet(thunder)
  {
    var first := Unseen(thunder, {}, Thunder);
    UnseenIds(thunder, {}, Thunder);
    forall c | c in first
      ensures c.source == Thunder && ComesFrom(c, thunder) && c.id in IdSet(thunder)
    {
      assert c.id in IdSet(first);
      UnseenMembers(thunder, {}, Thunder, c);
    }
  }

  lemma SecondPart(cap: nat, seen: set<PostId>, oon: seq<Candidate>)
    ensures var second := Take(Unseen(oon, seen, Oon), cap);
      && DistinctIds(second) && |second| <= cap && IdSet(Unseen(oon, seen, Oon)) == IdSet(oon) - seen
      && forall c :: c in second ==> c.source == Oon && ComesFrom(c, oon) && c.id !in seen
  {
    var fresh_ := Unseen(oon, seen, Oon);
    UnseenIds(oon, seen, Oon);
    forall c | c in Take(fresh_, cap)
      ensures c.source == Oon && ComesFrom(c, oon) && c.id !in seen
    {
      assert c in fresh_ && c.id in IdSet(fresh_);
      UnseenMembers(oon, seen, Oon, c);
    }
  }

  /** Blended candidates have distinct ids: first every in-network post once, then as many new out-of-network posts as the
      quota allows. */
  lemma BlendKeepsBothSources(limit: nat, ratio: real, thunder: seq<Candidate>, oon: seq<Candidate>)
    ensures var first := Unseen(thunder, {}, Thunder);
      var all := Blended(limit, ratio, thunder, oon);
      && DistinctIds(all)
      && first <= all
      && (forall c :: c in first ==> c.source == Thunder && ComesFrom(c, thunder))
      && IdSet(first) == IdSet(thunder)
      && (forall c :: c in all[|first|..] ==> c.source == Oon && ComesFrom(c, oon) && c.id !in IdSet(thunder))
      && |all| - |first| <= OonCap(limit, ratio)
      && (|all| - |first| < OonCap(limit, ratio) ==> IdSet(all) == IdSet(thunder) + IdSet(oon))
  {
    var first, fresh_ := Unseen(thunder, {}, Thunder), Unseen(oon, IdSet(thunder), Oon);
    var second := Take(fresh_, OonCap(limit, ratio));
    FirstPart(thunder);
    SecondPart(OonCap(limit, ratio), IdSet(thunder), oon);
    assert Blended(limit, ratio, thunder, oon)[|first|..] == second;
    if |second| < OonCap(limit, ratio) {
      assert second == fresh_;
      IdSetConcat(first, second);
    }
  }

  lemma IdSetConcat(a: seq<Candidate>, b: seq<Candidate>)
    ensures IdSet(a + b) == IdSet(a) + IdSet(b)
  {
    assert forall d :: d in a + b <==> d in a || d in b;
  }

  // ----- One item per conversation

  function Conversation(c: Candidate): PostId {
    if c.root.Some? then c.root.value else c.id
  }

  function WithRoot(cs: seq<Candidate>): set<PostId> {
    set c | c in cs && c.parent.None? :: Conversation(c)
  }

  /** The loop from a given point on. */
  function DedupeFrom(cs: seq<Candidate>, roots: set<PostId>, orphans: set<PostId>): seq<Candidate> {
    if cs == [] then []
    else if cs[0].parent.None? then [cs[0]] + DedupeFrom(cs[1..], roots, orphans)
    else if Conversation(cs[0]) in roots || Conversation(cs[0]) in orphans then DedupeFrom(cs[1..], roots, orphans)
    else [cs[0]] + DedupeFrom(cs[1..], roots, orphans + {Conversation(cs[0])})
  }

  function Deduped(cs: seq<Candidate>): seq<Candidate> {
    DedupeFrom(cs, WithRoot(cs), {})
  }

  method DedupeConversations(candidates: seq<Candidate>) returns (kept: seq<Candidate>)
    ensures kept == Deduped(candidates)
  {
    var roots := set c | c in candidates && c.parent.None? :: Conversation(c);
    var orphans: set<PostId> := {};
    kept := [];
    assert candidates[0..] == candidates;
    for i := 0 to |candidates|
      invariant Deduped(candidates) == kept + DedupeFrom(candidates[i..], roots, orphans)
    {
      var c := candidates[i];
      assert candidates[i..][1..] == candidates[i + 1..];
      ghost var rest := DedupeFrom(candidates[i + 1..], roots, orphans);
      ghost var restWith := DedupeFrom(candidates[i + 1..], roots, orphans + {Conversation(c)});
      assert kept + ([c] + rest) == kept + [c] + rest && kept + ([c] + restWith) == kept + [c] + restWith;
      if c.parent.None? {
        kept := kept + [c];
        continue;
      }
      if Conversation(c) in roots || Conversation(c) in orphans { continue; }
      orphans := orphans + {Conversation(c)};
      kept := kept + [c];
    }
  }

  /** A post without a parent heads its own conversation, as the stored index guarantees. */
  ghost predicate WellIndexed(cs: seq<Candidate>) {
    forall c :: c in cs && c.parent.None? ==> c.root.None?
  }

  function First(f: Candidate -> bool, cs: seq<Candidate>): Option<Candidate> {
    if cs == [] then None else if f(cs[0]) then Some(cs[0]) else First(f, cs[1..])
  }

  function HeadOf(v: PostId): Candidate -> bool {
    (c: Candidate) => c.parent.None? && Conversation(c) == v
  }

  function MemberOf(v: PostId): Candidate -> bool {
    (c: Candidate) => Conversation(c) == v
  }

  /** The item that stands for a conversation: its root if that is a candidate, otherwise its first reply. */
  function Representative(cs: seq<Candidate>, v: PostId): Option<Candidate> {
    var head := First(HeadOf(v), cs);
    if head.Some? then head else First(MemberOf(v), cs)
  }

  function IsRepresentative(cs: seq<Candidate>): Candidate -> bool {
    (c: Candidate) => Representative(cs, Conversation(c)) == Some(c)
  }

  lemma {:induction false} FirstFound(f: Candidate -> bool, before: seq<Candidate>, c: Candidate, after: seq<Candidate>)
    requires f(c)
    ensures var found := First(f, before + [c] + after);
      if exists d :: d in before && f(d) then found.Some? && found.value in before && f(found.value) else found == Some(c)
  {
    var all := before + [c] + after;
    if before == [] {
      assert all[0] == c;
    } else {
      assert all[0] == before[0] && all[1..] == before[1..] + [c] + after;
      FirstFound(f, before[1..], c, after);
      assert before == [before[0]] + before[1..];
    }
  }

  lemma {:induction false} FirstIs(f: Candidate -> bool, cs: seq<Candidate>)
    ensures First(f, cs).Some? <==> exists c :: c in cs && f(c)
    ensures First(f, cs).Some? ==> First(f, cs).value in cs && f(First(f, cs).value)
  {
    if cs != [] {
      FirstIs(f, cs[1..]);
      assert cs == [cs[0]] + cs[1..];
    }
  }

  /** The conversations of the replies kept so far. */
  function Orphans(done: seq<Candidate>, roots: set<PostId>): set<PostId> {
    set c | c in done && c.parent.Some? && Conversation(c) !in roots :: Conversation(c)
  }

  lemma OrphansSnoc(done: seq<Candidate>, c: Candidate, roots: set<PostId>)
    ensures Orphans(done + [c], roots) ==
            Orphans(done, roots) + if c.parent.Some? && Conversation(c) !in roots then {Conversation(c)} else {}
  {
    assert forall d :: d in done + [c] <==> d in done || d == c;
  }

  /** Whether the loop keeps a candidate is whether it represents its conversation. */
  lemma KeptIsRepresentative(cs: seq<Candidate>, done: seq<Candidate>, c: Candidate, after: seq<Candidate>)
    requires cs == done + [c] + after && WellIndexed(cs) && DistinctIds(cs)
    ensures var roots := WithRoot(cs);
      IsRepresentative(cs)(c) <==>
        c.parent.None? || (Conversation(c) !in roots && Conversation(c) !in Orphans(done, roots))
  {
    var roots, v := WithRoot(cs), Conversation(c);
    assert cs[|done|] == c;
    assert forall i :: 0 <= i < |done| ==> cs[i] == done[i];
    assert c !in done;
    if c.parent.None? {
      FirstFound(HeadOf(v), done, c, after);
      forall d | d in done
        ensures !HeadOf(v)(d)
      {
        assert d.id != c.id && d in cs;
      }
    } else if v in roots {
      FirstIs(HeadOf(v), cs);
      var head :| head in cs && head.parent.None? && Conversation(head) == v;
      assert HeadOf(v)(head);
    } else {
      FirstIs(HeadOf(v), cs);
      FirstFound(MemberOf(v), done, c, after);
      NoHeads(cs, v);
      if v in Orphans(done, roots) {
        var d :| d in done && d.parent.Some? && Conversation(d) == v;
        assert MemberOf(v)(d);
      } else {
        forall d | d in done
          ensures !MemberOf(v)(d)
        {
          assert d in cs && !HeadOf(v)(d);
        }
      }
    }
  }

  lemma NoHeads(cs: seq<Candidate>, v: PostId)
    ensures v !in WithRoot(cs) <==> forall d :: d in cs ==> !HeadOf(v)(d)
  {
    if d :| d in cs && HeadOf(v)(d) {
      assert Conversation(d) in WithRoot(cs);
    }
  }

  lemma {:induction false} DedupeFromIsFilter(cs: seq<Candidate>, done: seq<Candidate>, rest: seq<Candidate>)
    requires cs == done + rest && WellIndexed(cs) && DistinctIds(cs)
    ensures DedupeFrom(rest, WithRoot(cs), Orphans(done, WithRoot(cs))) == Filter(IsRepresentative(cs), rest)
    decreases |rest|
  {
    if rest != [] {
      var roots := WithRoot(cs);
      assert cs == done + [rest[0]] + rest[1..];
      KeptIsRepresentative(cs, done, rest[0], rest[1..]);
      OrphansSnoc(done, rest[0], roots);
      assert cs == (done + [rest[0]]) + rest[1..];
      DedupeFromIsFilter(cs, done + [rest[0]], rest[1..]);
      if rest[0].parent.None? || Conversation(rest[0]) in roots || Conversation(rest[0]) in Orphans(done, roots) {
        assert Orphans(done + [rest[0]], roots) == Orphans(done, roots);
      }
    }
  }

  /** Dedupe keeps, in order, exactly the candidates that stand for their conversation. */
  lemma DedupeIsFilter(cs: seq<Candidate>)
    requires WellIndexed(cs) && DistinctIds(cs)
    ensures Deduped(cs) == Filter(IsRepresentative(cs), cs)
  {
    assert Orphans([], WithRoot(cs)) == {};
    assert cs == [] + cs;
    DedupeFromIsFilter(cs, [], cs);
  }

  ghost predicate OnePerConversation(cs: seq<Candidate>) {
    forall i, j :: 0 <= i < j < |cs| ==> Conversation(cs[i]) != Conversation(cs[j])
  }

  /** Every conversation among the candidates is shown by exactly one item: its representative. */
  lemma DedupeOnePerConversation(cs: seq<Candidate>)
    requires WellIndexed(cs) && DistinctIds(cs)
    ensures OnePerConversation(Deduped(cs)) && DistinctIds(Deduped(cs))
    ensures forall c :: c in cs ==>
      var r := Representative(cs, Conversation(c));
      r.Some? && r.value in Deduped(cs) && Conversation(r.value) == Conversation(c)
    ensures forall c :: c in Deduped(cs) ==> c in cs
  {
    DedupeIsFilter(cs);
    FilterMembers(IsRepresentative(cs), cs);
    DistinctFromIds(cs);
    FilterDistinct(IsRepresentative(cs), cs);
    var kept := Deduped(cs);
    forall i, j | 0 <= i < j < |kept|
      ensures Conversation(kept[i]) != Conversation(kept[j]) && kept[i].id != kept[j].id
    {
      assert kept[i] in kept && kept[j] in kept;
      SameIdSame(cs, kept[i], kept[j]);
    }
    forall c | c in cs
      ensures var r := Representative(cs, Conversation(c));
        r.Some? && r.value in kept && Conversation(r.value) == Conversation(c)
    {
      FirstIs(HeadOf(Conversation(c)), cs);
      FirstIs(MemberOf(Conversation(c)), cs);
      assert MemberOf(Conversation(c))(c);
    }
  }

  lemma DistinctFromIds(cs: seq<Candidate>)
    requires DistinctIds(cs)
    ensures Distinct(cs)
  {
  }

  lemma SameIdSame(cs: seq<Candidate>, a: Candidate, b: Candidate)
    requires DistinctIds(cs) && a in cs && b in cs
    ensures a.id == b.id ==> a == b
  {
  }

  /** Deduplicating again changes nothing. */
  lemma DedupeIdempotent(cs: seq<Candidate>)
    requires WellIndexed(cs) && DistinctIds(cs)
    ensures Deduped(Deduped(cs)) == Deduped(cs)
  {
    DedupeOnePerConversation(cs);
    var kept := Deduped(cs);
    assert kept == [] + kept;
    NothingDropped(kept, [], kept);
    assert Orphans([], WithRoot(kept)) == {};
  }

  lemma {:induction false} NothingDropped(cs: seq<Candidate>, done: seq<Candidate>, rest: seq<Candidate>)
    requires OnePerConversation(cs) && cs == done + rest
    ensures DedupeFrom(rest, WithRoot(cs), Orphans(done, WithRoot(cs))) == rest
    decreases |rest|
  {
    if rest != [] {
      var c, roots := rest[0], WithRoot(cs);
      assert cs == (done + [c]) + rest[1..] && cs[|done|] == c;
      NothingDropped(cs, done + [c], rest[1..]);
      OrphansSnoc(done, c, roots);
      assert rest == [c] + rest[1..];
      if c.parent.Some? {
        forall d | d in cs && Conversation(d) == Conversation(c)
          ensures d == c
        {
          var i :| 0 <= i < |cs| && cs[i] == d;
        }
        assert Conversation(c) !in roots;
        forall d | d in done
          ensures Conversation(d) != Conversation(c)
        {
          var i :| 0 <= i < |done| && done[i] == d;
          assert cs[i] == d;
        }
      } else {
        assert Orphans(done + [c], roots) == Orphans(done, roots);
      }
    }
  }

  // ----- The module slot

  /** The module lands in the sixth place, or at the end of a shorter page, and the items keep their order. */
  method InsertWhoToFollow<T>(items: seq<T>, item: T) returns (r: seq<T>)
    ensures |r| == |items| + 1
    ensures var k := if |items| < WHO_TO_FOLLOW_POSITION - 1 then |items| else WHO_TO_FOLLOW_POSITION - 1;
      r[k] == item && r[..k] + r[k + 1..] == items
    ensures |items| >= 5 ==> r[5] == item
  {
    var k := if |items| < WHO_TO_FOLLOW_POSITION - 1 then |items| else WHO_TO_FOLLOW_POSITION - 1;
    r := items[..k] + [item] + items[k..];
  }

  /** The shares of For You: at most thirty-five out-of-network posts in a hundred, but always room for one; when there is
      room left, no new one was left out. */
  lemma OonShare(limit: nat, thunder: seq<Candidate>, oon: seq<Candidate>)
    ensures var all := Blended(limit, 0.35, thunder, oon);
      var n := |all| - |Unseen(thunder, {}, Thunder)|;
      && (n <= 1 || 100 * n <= 35 * limit)
      && (n == 0 || 100 * (n + 1) <= 35 * limit ==> IdSet(all) == IdSet(thunder) + IdSet(oon))
  {
    BlendKeepsBothSources(limit, 0.35, thunder, oon);
    var cap := OonCap(limit, 0.35);
    assert cap as real <= limit as real * 0.35 < (cap + 1) as real || (cap == 1 && limit as real * 0.35 < 2.0);
  }
}
