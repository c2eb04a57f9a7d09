/** The out-of-network search: a greedy pass over rows in descending similarity, capped per author and in total. */
module PostSearch {
  import opened SocialModel
  import opened Keyset
  import opened Sorting

  const MIN_SIMILARITY: real := 0.12
  const MAX_PER_AUTHOR: nat := 2

  datatype Hit = Hit(post: PostId, author: UserId, similarity: real)

  /** The posts and authors that carry a label which drops them out of network. */
  datatype Blocked = Blocked(posts: set<PostId>, authors: set<UserId>)

  predicate Eligible(hit: Hit, blocked: Blocked) {
    hit.similarity >= MIN_SIMILARITY && hit.post !in blocked.posts && hit.author !in blocked.authors
  }

  /** The picks that belong to one author. */
  function ByAuthor(rows: seq<Hit>, picks: set<nat>, author: UserId): (s: set<nat>)
    ensures s <= picks
  {
    set i | i in picks && i < |rows| && rows[i].author == author
  }

  /** Whether the pass keeps row `i` after the picks `before`; reaching the limit ends the pass. */
  predicate Keeps(rows: seq<Hit>, blocked: Blocked, limit: int, before: set<nat>, i: nat)
    requires i < |rows|
  {
    && (before == {} || |before| < limit)
    && Eligible(rows[i], blocked)
    && |ByAuthor(rows, before, rows[i].author)| < MAX_PER_AUTHOR
  }

  /** The indices that the greedy pass has picked after `n` rows. */
  function Picks(rows: seq<Hit>, blocked: Blocked, limit: int, n: nat): (picks: set<nat>)
    requires n <= |rows|
    ensures forall i :: i in picks ==> i < n && Eligible(rows[i], blocked)
  {
    if n == 0 then {}
    else
      var before := Picks(rows, blocked, limit, n - 1);
      if Keeps(rows, blocked, limit, before, n - 1) then before + {n - 1} else before
  }

  /** The picked rows in their order. */
  function Listed(rows: seq<Hit>, picks: set<nat>, n: nat): seq<Hit>
    requires n <= |rows|
  {
    if n == 0 then []
    else Listed(rows, picks, n - 1) + if n - 1 in picks then [rows[n - 1]] else []
  }

  lemma {:induction false} ListedBelow(rows: seq<Hit>, picks: set<nat>, n: nat, i: nat)
    requires n <= i && n <= |rows|
    ensures Listed(rows, picks + {i}, n) == Listed(rows, picks, n)
  {
    if n > 0 {
      ListedBelow(rows, picks, n - 1, i);
    }
  }

  lemma {:induction false} PassEnded(rows: seq<Hit>, blocked: Blocked, limit: int, i: nat, n: nat)
    requires i <= n <= |rows|
    requires var picks := Picks(rows, blocked, limit, i); picks != {} && |picks| >= limit
    ensures Picks(rows, blocked, limit, n) == Picks(rows, blocked, limit, i)
    decreases n
  {
    if i < n {
      PassEnded(rows, blocked, limit, i, n - 1);
    }
  }

  lemma {:induction false} ListedNoMore(rows: seq<Hit>, picks: set<nat>, i: nat, n: nat)
    requires i <= n <= |rows| && forall k :: k in picks ==> k < i
    ensures Listed(rows, picks, n) == Listed(rows, picks, i)
    decreases n
  {
    if i < n {
      ListedNoMore(rows, picks, i, n - 1);
    }
  }

  lemma ByAuthorAdd(rows: seq<Hit>, picks: set<nat>, i: nat, author: UserId)
    requires i < |rows| && i !in picks
    ensures |ByAuthor(rows, picks + {i}, author)| == |ByAuthor(rows, picks, author)| + if rows[i].author == author then 1 else 0
  {
    var after := ByAuthor(rows, picks + {i}, author);
    if rows[i].author == author {
      assert after == ByAuthor(rows, picks, author) + {i};
    } else {
      assert after == ByAuthor(rows, picks, author);
    }
  }

  /** `per_author.get(author, 0)`. */
  function CountOf(perAuthor: map<UserId, nat>, a: UserId): nat {
    if a in perAuthor then perAuthor[a] else 0
  }

  /** The counts dictionary agrees with the picks. */
  ghost predicate Counted(rows: seq<Hit>, picks: set<nat>, perAuthor: map<UserId, nat>) {
    forall a: UserId :: CountOf(perAuthor, a) == |ByAuthor(rows, picks, a)|
  }

  lemma CountedAdd(rows: seq<Hit>, picks: set<nat>, perAuthor: map<UserId, nat>, i: nat, count: nat)
    requires Counted(rows, picks, perAuthor) && i < |rows| && i !in picks && count == CountOf(perAuthor, rows[i].author)
    ensures Counted(rows, picks + {i}, perAuthor[rows[i].author := count + 1])
  {
    forall a: UserId
      ensures CountOf(perAuthor[rows[i].author := count + 1], a) == |ByAuthor(rows, picks + {i}, a)|
    {
      ByAuthorAdd(rows, picks, i, a);
      assert CountOf(perAuthor, a) == |ByAuthor(rows, picks, a)|;
    }
  }

  /** The state of the loop before row `i`: what has been kept, and how often each author occurs in it. */
  ghost predicate Filtering(rows: seq<Hit>, blocked: Blocked, limit: int, i: nat, kept: seq<Hit>, perAuthor: map<UserId, nat>) {
    && i <= |rows|
    && var picks := Picks(rows, blocked, limit, i);
    kept == Listed(rows, picks, i) && |kept| == |picks| && Counted(rows, picks, perAuthor)
  }

  lemma KeepsWhen(rows: seq<Hit>, blocked: Blocked, limit: int, i: nat, kept: seq<Hit>, perAuthor: map<UserId, nat>)
    requires Filtering(rows, blocked, limit, i, kept, perAuthor) && i < |rows| && (kept == [] || |kept| < limit)
    ensures Keeps(rows, blocked, limit, Picks(rows, blocked, limit, i), i)
      <==> Eligible(rows[i], blocked) && CountOf(perAuthor, rows[i].author) < MAX_PER_AUTHOR
  {
    assert CountOf(perAuthor, rows[i].author) == |ByAuthor(rows, Picks(rows, blocked, limit, i), rows[i].author)|;
    assert kept == [] ==> |Picks(rows, blocked, limit, i)| == 0;
  }

  lemma RowSkipped(rows: seq<Hit>, blocked: Blocked, limit: int, i: nat, kept: seq<Hit>, perAuthor: map<UserId, nat>)
    requires Filtering(rows, blocked, limit, i, kept, perAuthor) && i < |rows|
    requires !Keeps(rows, blocked, limit, Picks(rows, blocked, limit, i), i)
    ensures Filtering(rows, blocked, limit, i + 1, kept, perAuthor)
  {
    ListedNoMore(rows, Picks(rows, blocked, limit, i), i, i + 1);
  }

  lemma RowKept(rows: seq<Hit>, blocked: Blocked, limit: int, i: nat, kept: seq<Hit>, perAuthor: map<UserId, nat>)
    requires Filtering(rows, blocked, limit, i, kept, perAuthor) && i < |rows|
    requires Keeps(rows, blocked, limit, Picks(rows, blocked, limit, i), i)
    ensures var author := rows[i].author;
      Filtering(rows, blocked, limit, i + 1, kept + [rows[i]], perAuthor[author := CountOf(perAuthor, author) + 1])
  {
    var picks := Picks(rows, blocked, limit, i);
    CountedAdd(rows, picks, perAuthor, i, CountOf(perAuthor, rows[i].author));
    ListedBelow(rows, picks, i, i);
  }

  lemma RowsDone(rows: seq<Hit>, blocked: Blocked, limit: int, i: nat, kept: seq<Hit>, perAuthor: map<UserId, nat>)
    requires Filtering(rows, blocked, limit, i, kept, perAuthor) && kept != [] && |kept| >= limit
    ensures kept == Listed(rows, Picks(rows, blocked, limit, |rows|), |rows|)
  {
    assert |Picks(rows, blocked, limit, i)| > 0;
    PassEnded(rows, blocked, limit, i, |rows|);
    ListedNoMore(rows, Picks(rows, blocked, limit, i), i, |rows|);
  }

  /** One iteration; reaching the limit ends the loop. */
  method FilterRow(rows: seq<Hit>, blocked: Blocked, limit: int, i: nat, kept: seq<Hit>, perAuthor: map<UserId, nat>)
    returns (next: seq<Hit>, counts: map<UserId, nat>, full: bool)
    requires Filtering(rows, blocked, limit, i, kept, perAuthor) && i < |rows| && (kept == [] || |kept| < limit)
    ensures Filtering(rows, blocked, limit, i + 1, next, counts)
    ensures if full then next != [] && |next| >= limit else next == [] || |next| < limit
  {
    var hit := rows[i];
    var count := CountOf(perAuthor, hit.author);
    KeepsWhen(rows, blocked, limit, i, kept, perAuthor);
    if !Eligible(hit, blocked) || count >= MAX_PER_AUTHOR {
      RowSkipped(rows, blocked, limit, i, kept, perAuthor);
      return kept, perAuthor, false;
    }
    RowKept(rows, blocked, limit, i, kept, perAuthor);
    next, counts := kept + [hit], perAuthor[hit.author := count + 1];
    full := |next| >= limit;
  }

  method PostFilter(rows: seq<Hit>, blocked: Blocked, limit: int) returns (kept: seq<Hit>)
    ensures kept == Listed(rows, Picks(rows, blocked, limit, |rows|), |rows|)
  {
    var perAuthor: map<UserId, nat> := map[];
    kept := [];
    for i := 0 to |rows|
      invariant Filtering(rows, blocked, limit, i, kept, perAuthor)
      invariant kept == [] || |kept| < limit
    {
      var full;
      kept, perAuthor, full := FilterRow(rows, blocked, limit, i, kept, perAuthor);
      if full {
        RowsDone(rows, blocked, limit, i + 1, kept, perAuthor);
        return;
      }
    }
  }

  /** The picks before row `i`. */
  function Prior(picks: set<nat>, i: nat): set<nat> {
    set k | k in picks && k < i
  }

  lemma {:induction false} PriorPicks(rows: seq<Hit>, blocked: Blocked, limit: int, n: nat, i: nat)
    requires i <= n <= |rows|
    ensures Prior(Picks(rows, blocked, limit, n), i) == Picks(rows, blocked, limit, i)
    ensures i < n ==> (i in Picks(rows, blocked, limit, n) <==> i in Picks(rows, blocked, limit, i + 1))
    decreases n
  {
    if i < n {
      PriorPicks(rows, blocked, limit, n - 1, i);
    }
  }

  /** A row is picked if and only if its similarity reaches 0.12, neither post nor author is labelled, fewer than two of its
      author are picked before it, and the limit is not reached before it, unless it would be the first pick. */
  lemma PickedWhen(rows: seq<Hit>, blocked: Blocked, limit: int, i: nat)
    requires i < |rows|
    ensures var prior := Prior(Picks(rows, blocked, limit, |rows|), i);
      i in Picks(rows, blocked, limit, |rows|) <==>
        && rows[i].similarity >= 0.12 && rows[i].post !in blocked.posts && rows[i].author !in blocked.authors
        && |set k | k in prior && k < |rows| && rows[k].author == rows[i].author| < 2
        && (|prior| < limit || prior == {})
  {
    var prior := Picks(rows, blocked, limit, i);
    PriorPicks(rows, blocked, limit, |rows|, i);
    assert ByAuthor(rows, prior, rows[i].author) == set k | k in prior && k < |rows| && rows[k].author == rows[i].author;
  }

  // ----- Feasible selections and their weight

  ghost predicate CapsHold(rows: seq<Hit>, s: set<nat>) {
    forall a: UserId :: |ByAuthor(rows, s, a)| <= MAX_PER_AUTHOR
  }

  /** A choice among the first `n` rows that respects eligibility and both caps. */
  ghost predicate Feasible(rows: seq<Hit>, blocked: Blocked, limit: int, s: set<nat>, n: nat)
    requires n <= |rows|
  {
    && (forall i :: i in s ==> i < n && Eligible(rows[i], blocked))
    && |s| <= limit
    && CapsHold(rows, s)
  }

  /** The total of `w` over the chosen ones of the first `n` rows. */
  function Weight(w: seq<real>, s: set<nat>, n: nat): real
    requires n <= |w|
  {
    if n == 0 then 0.0 else Weight(w, s, n - 1) + if n - 1 in s then w[n - 1] else 0.0
  }

  /** Never increasing along the rows, never negative on an eligible row. */
  ghost predicate Descending(rows: seq<Hit>, blocked: Blocked, w: seq<real>) {
    && |w| == |rows|
    && (forall i, j :: 0 <= i < j < |w| ==> w[i] >= w[j])
    && (forall i :: 0 <= i < |w| && Eligible(rows[i], blocked) ==> w[i] >= 0.0)
  }

  lemma {:induction false} WeightAdd(w: seq<real>, s: set<nat>, i: nat, n: nat)
    requires n <= |w| && i !in s
    ensures Weight(w, s + {i}, n) == Weight(w, s, n) + if i < n then w[i] else 0.0
  {
    if n > 0 {
      WeightAdd(w, s, i, n - 1);
    }
  }

  lemma PartSize(rows: seq<Hit>, s: set<nat>, a: UserId)
    ensures |s - ByAuthor(rows, s, a)| == |s| - |ByAuthor(rows, s, a)|
  {
    assert s == (s - ByAuthor(rows, s, a)) + ByAuthor(rows, s, a);
  }

  lemma OtherAuthors(rows: seq<Hit>, s: set<nat>, a: UserId, b: UserId)
    requires a != b
    ensures ByAuthor(rows, s - ByAuthor(rows, s, a), b) == ByAuthor(rows, s, b)
    ensures ByAuthor(rows, s - ByAuthor(rows, s, a), a) == {}
  {
  }

  /** A larger selection has more picks of some author. */
  lemma {:induction false} AuthorWithMore(rows: seq<Hit>, s: set<nat>, t: set<nat>) returns (a: UserId)
    requires |s| < |t| && forall i :: i in t ==> i < |rows|
    ensures |ByAuthor(rows, s, a)| < |ByAuthor(rows, t, a)|
    decreases |t|
  {
    var i :| i in t;
    var first := rows[i].author;
    a := first;
    if |ByAuthor(rows, s, a)| >= |ByAuthor(rows, t, a)| {
      PartSize(rows, s, first);
      PartSize(rows, t, first);
      assert i in ByAuthor(rows, t, first);
      var rest := t - ByAuthor(rows, t, first);
      a := AuthorWithMore(rows, s - ByAuthor(rows, s, first), rest);
      assert ByAuthor(rows, rest, a) != {};
      if a != first {
        OtherAuthors(rows, s, first, a);
        OtherAuthors(rows, t, first, a);
      }
    }
  }

  lemma {:induction false} PicksFeasible(rows: seq<Hit>, blocked: Blocked, limit: int, n: nat)
    requires n <= |rows| && limit >= 1
    ensures Feasible(rows, blocked, limit, Picks(rows, blocked, limit, n), n)
  {
    if n > 0 {
      PicksFeasible(rows, blocked, limit, n - 1);
      var before := Picks(rows, blocked, limit, n - 1);
      forall a: UserId
        ensures |ByAuthor(rows, Picks(rows, blocked, limit, n), a)| <= MAX_PER_AUTHOR
      {
        ByAuthorAdd(rows, before, n - 1, a);
      }
    } else {
      assert forall a: UserId :: ByAuthor(rows, {}, a) == {};
    }
  }

  lemma SubsetSize(a: set<nat>, b: set<nat>)
    ensures a <= b ==> |a| <= |b|
  {
    if a <= b {
      assert b == a + (b - a);
    }
  }

  /** The exchange step: a pick of an author that `s` uses less can stand in for any further row. */
  lemma Exchange(rows: seq<Hit>, blocked: Blocked, limit: int, s: set<nat>, t: set<nat>, a: UserId, n: nat) returns (j: nat)
    requires n <= |rows| && |s| < limit && CapsHold(rows, s)
    requires forall i :: i in s ==> i < n && Eligible(rows[i], blocked)
    requires Feasible(rows, blocked, limit, t, n)
    requires |ByAuthor(rows, s, a)| < |ByAuthor(rows, t, a)|
    ensures j in t && j !in s && Feasible(rows, blocked, limit, s + {j}, n)
  {
    SubsetSize(ByAuthor(rows, t, a), ByAuthor(rows, s, a));
    j :| j in ByAuthor(rows, t, a) && j !in ByAuthor(rows, s, a);
    assert |ByAuthor(rows, t, a)| <= MAX_PER_AUTHOR;
    forall b: UserId
      ensures |ByAuthor(rows, s + {j}, b)| <= MAX_PER_AUTHOR
    {
      ByAuthorAdd(rows, s, j, b);
    }
  }

  lemma CapsShrink(rows: seq<Hit>, s: set<nat>, i: nat)
    requires CapsHold(rows, s) && i in s && i < |rows|
    ensures CapsHold(rows, s - {i})
  {
    forall a: UserId
      ensures |ByAuthor(rows, s - {i}, a)| <= MAX_PER_AUTHOR
    {
      assert s == (s - {i}) + {i};
      ByAuthorAdd(rows, s - {i}, i, a);
    }
  }

  /** When the pass skips a row of `s`, the pass already has more picks of some author than the rest of `s`. */
  lemma SkippedRow(rows: seq<Hit>, blocked: Blocked, limit: int, s: set<nat>, n: nat) returns (a: UserId)
    requires n < |rows| && limit >= 1 && Feasible(rows, blocked, limit, s, n + 1)
    requires n in s && !Keeps(rows, blocked, limit, Picks(rows, blocked, limit, n), n)
    ensures |ByAuthor(rows, s - {n}, a)| < |ByAuthor(rows, Picks(rows, blocked, limit, n), a)|
  {
    var t := Picks(rows, blocked, limit, n);
    var rest := s - {n};
    assert s == rest + {n};
    if t != {} && |t| >= limit {
      a := AuthorWithMore(rows, rest, t);
    } else {
      a := rows[n].author;
      ByAuthorAdd(rows, rest, n, a);
      assert |ByAuthor(rows, s, a)| <= MAX_PER_AUTHOR;
    }
  }

  /** The selection without its last row is feasible among the earlier rows. */
  lemma FeasibleRest(rows: seq<Hit>, blocked: Blocked, limit: int, s: set<nat>, n: nat)
    requires n < |rows| && Feasible(rows, blocked, limit, s, n + 1)
    ensures Feasible(rows, blocked, limit, s - {n}, n) && (n in s ==> |s - {n}| == |s| - 1)
  {
    if n in s {
      CapsShrink(rows, s, n);
    } else {
      assert s - {n} == s;
    }
  }

  lemma WeightSplit(w: seq<real>, s: set<nat>, n: nat)
    requires n < |w|
    ensures Weight(w, s, n + 1) == Weight(w, s - {n}, n) + if n in s then w[n] else 0.0
  {
    if n in s {
      assert s == (s - {n}) + {n};
      WeightAdd(w, s - {n}, n, n);
    } else {
      assert s - {n} == s;
    }
  }

  /** A selection of the first `n + 1` rows with a row that the pass skipped weighs no more than one of the first `n`. */
  lemma Exchanged(rows: seq<Hit>, blocked: Blocked, limit: int, w: seq<real>, s: set<nat>, n: nat) returns (r: set<nat>)
    requires n < |rows| && limit >= 1 && Descending(rows, blocked, w) && Feasible(rows, blocked, limit, s, n + 1)
    requires n in s && !Keeps(rows, blocked, limit, Picks(rows, blocked, limit, n), n)
    ensures Feasible(rows, blocked, limit, r, n) && Weight(w, s, n + 1) <= Weight(w, r, n)
  {
    var t, rest := Picks(rows, blocked, limit, n), s - {n};
    FeasibleRest(rows, blocked, limit, s, n);
    WeightSplit(w, s, n);
    var a := SkippedRow(rows, blocked, limit, s, n);
    PicksFeasible(rows, blocked, limit, n);
    var j := Exchange(rows, blocked, limit, rest, t, a, n);
    WeightAdd(w, rest, j, n);
    r := rest + {j};
  }

  /** One row less: some feasible selection of the earlier rows is at least as close to the greedy weight. */
  lemma OneRowLess(rows: seq<Hit>, blocked: Blocked, limit: int, w: seq<real>, s: set<nat>, n: nat) returns (r: set<nat>)
    requires n < |rows| && limit >= 1 && Descending(rows, blocked, w) && Feasible(rows, blocked, limit, s, n + 1)
    ensures Feasible(rows, blocked, limit, r, n)
    ensures Weight(w, s, n + 1) - Weight(w, Picks(rows, blocked, limit, n + 1), n + 1)
         <= Weight(w, r, n) - Weight(w, Picks(rows, blocked, limit, n), n)
  {
    PicksWeight(rows, blocked, limit, w, n);
    if n in s && !Keeps(rows, blocked, limit, Picks(rows, blocked, limit, n), n) {
      r := Exchanged(rows, blocked, limit, w, s, n);
    } else {
      FeasibleRest(rows, blocked, limit, s, n);
      WeightSplit(w, s, n);
      r := s - {n};
    }
  }

  /** No feasible selection outweighs the greedy one. */
  lemma {:induction false} GreedyOptimal(rows: seq<Hit>, blocked: Blocked, limit: int, w: seq<real>, s: set<nat>, n: nat)
    requires n <= |rows| && limit >= 1 && Descending(rows, blocked, w)
    requires Feasible(rows, blocked, limit, s, n)
    ensures Weight(w, s, n) <= Weight(w, Picks(rows, blocked, limit, n), n)
    decreases n
  {
    if n > 0 {
      var r := OneRowLess(rows, blocked, limit, w, s, n - 1);
      GreedyOptimal(rows, blocked, limit, w, r, n - 1);
    }
  }

  lemma PicksWeight(rows: seq<Hit>, blocked: Blocked, limit: int, w: seq<real>, n: nat)
    requires n < |rows| && Descending(rows, blocked, w)
    ensures var t := Picks(rows, blocked, limit, n);
      var kept := Keeps(rows, blocked, limit, t, n);
      && Weight(w, Picks(rows, blocked, limit, n + 1), n + 1) == Weight(w, t, n) + (if kept then w[n] else 0.0)
      && (kept ==> w[n] >= 0.0)
  {
    var t := Picks(rows, blocked, limit, n);
    WeightSplit(w, t + {n}, n);
    assert (t + {n}) - {n} == t;
    WeightSplit(w, t, n);
    assert t - {n} == t;
  }

  function Similarities(rows: seq<Hit>): seq<real> {
    seq(|rows|, i requires 0 <= i < |rows| => rows[i].similarity)
  }

  function Ones(n: nat): seq<real> {
    seq(n, i => 1.0)
  }

  lemma {:induction false} WeightOfOnes(s: set<nat>, m: nat, n: nat)
    requires n <= m && forall i :: i in s ==> i < n
    ensures Weight(Ones(m), s, n) == |s| as real
    decreases n
  {
    if n == 0 {
      assert s == {};
    } else if n - 1 in s {
      var rest := s - {n - 1};
      assert s == rest + {n - 1};
      WeightAdd(Ones(m), rest, n - 1, n);
      WeightAdd(Ones(m), rest, n - 1, n - 1);
      WeightOfOnes(rest, m, n - 1);
    } else {
      WeightOfOnes(s, m, n - 1);
    }
  }

  /** The order that both search queries return their rows in. */
  ghost predicate BySimilarity(rows: seq<Hit>) {
    forall i, j :: 0 <= i < j < |rows| ==> rows[i].similarity >= rows[j].similarity
  }

  /** For rows in descending similarity and a limit of at least one, the filter's choice respects both caps, and no other
      choice of eligible rows within the caps has a larger total similarity or more rows. */
  lemma FilterIsOptimal(rows: seq<Hit>, blocked: Blocked, limit: int, s: set<nat>)
    requires BySimilarity(rows) && limit >= 1 && Feasible(rows, blocked, limit, s, |rows|)
    ensures var picks := Picks(rows, blocked, limit, |rows|);
      && Feasible(rows, blocked, limit, picks, |rows|)
      && Weight(Similarities(rows), s, |rows|) <= Weight(Similarities(rows), picks, |rows|)
      && |s| <= |picks|
  {
    var picks := Picks(rows, blocked, limit, |rows|);
    PicksFeasible(rows, blocked, limit, |rows|);
    GreedyOptimal(rows, blocked, limit, Similarities(rows), s, |rows|);
    GreedyOptimal(rows, blocked, limit, Ones(|rows|), s, |rows|);
    WeightOfOnes(s, |rows|, |rows|);
    WeightOfOnes(picks, |rows|, |rows|);
  }

  /** The limit is only checked after a row was kept, so a limit of zero or less still returns the first eligible row:
      the result is within the limit exactly when the limit is positive, or it is zero and no row is eligible. */
  lemma {:induction false} LimitRespected(rows: seq<Hit>, blocked: Blocked, limit: int, n: nat)
    requires n <= |rows|
    ensures |Picks(rows, blocked, limit, n)| <= limit <==>
            limit >= 1 || (limit == 0 && forall i :: 0 <= i < n ==> !Eligible(rows[i], blocked))
  {
    if limit >= 1 {
      PicksFeasible(rows, blocked, limit, n);
    } else if n > 0 {
      LimitRespected(rows, blocked, limit, n - 1);
      NoneWithoutPicks(rows, blocked, limit, n - 1);
      NoneWithoutPicks(rows, blocked, limit, n);
    }
  }

  lemma {:induction false} NoneWithoutPicks(rows: seq<Hit>, blocked: Blocked, limit: int, n: nat)
    requires n <= |rows|
    ensures Picks(rows, blocked, limit, n) == {} <==> forall i :: 0 <= i < n ==> !Eligible(rows[i], blocked)
  {
    if n > 0 {
      NoneWithoutPicks(rows, blocked, limit, n - 1);
      var before := Picks(rows, blocked, limit, n - 1);
      if before == {} {
        assert ByAuthor(rows, before, rows[n - 1].author) == {};
      }
    }
  }

  // ----- The rows that the filter is given

  function Closest(): (Hit, Hit) -> bool {
    (a: Hit, b: Hit) => a.similarity >= b.similarity
  }

  /** Over-fetch: the best `max(4 * limit, 40)` rows of the query. */
  function Fetched(found: seq<Hit>, limit: int): seq<Hit> {
    Take(StableSort(Closest(), found), if 4 * limit > 40 then 4 * limit else 40)
  }

  /** The window: four rows for each one asked for, and no fewer than forty; what is left out is no closer. */
  lemma FetchedWindow(found: seq<Hit>, limit: int)
    ensures limit <= 10 && |found| <= 40 ==> |Fetched(found, limit)| == |found|
    ensures limit <= 10 && |found| > 40 ==> |Fetched(found, limit)| == 40
    ensures limit > 10 ==> |Fetched(found, limit)| == if |found| <= 4 * limit then |found| else 4 * limit
    ensures forall i, hit :: hit in found && hit !in Fetched(found, limit) && 0 <= i < |Fetched(found, limit)| ==>
      Fetched(found, limit)[i].similarity >= hit.similarity
  {
    var all, some := StableSort(Closest(), found), Fetched(found, limit);
    StableSortSorts(Closest(), found);
    StableSortMembers(Closest(), found);
    assert |all| == |multiset(all)| == |multiset(found)|;
    forall i, hit | hit in found && hit !in some && 0 <= i < |some|
      ensures some[i].similarity >= hit.similarity
    {
      var j :| 0 <= j < |all| && all[j] == hit;
      assert some[i] == all[i];
      assert j >= |some|;
      assert Closest()(all[i], all[j]);
    }
  }

  lemma FetchedInOrder(found: seq<Hit>, limit: int)
    ensures BySimilarity(Fetched(found, limit))
    ensures multiset(Fetched(found, limit)) <= multiset(found)
  {
    StableSortSorts(Closest(), found);
    var all, some := StableSort(Closest(), found), Fetched(found, limit);
    assert all == some + all[|some|..];
    assert forall i :: 0 <= i < |some| ==> some[i] == all[i];
    assert forall i, j :: 0 <= i < j < |some| ==> Closest()(some[i], some[j]);
  }
}
