/** Hashtag trends: buckets per tag, filled row by row and ranked by score. */
module Trends {
  import opened SocialModel
  import opened Keyset
  import opened Sorting

  /** A query row: the hashtags extracted from the body, the author, and the like count or zero. */
  datatype TagRow = TagRow(tags: set<string>, author: UserId, likes: int)

  datatype Bucket = Bucket(posts: nat, likes: int, authors: set<UserId>)

  datatype TrendItem = TrendItem(term: string, score: int, posts: nat, authors: nat)

  // ----- What a bucket counts

  function PostsOf(rows: seq<TagRow>, tag: string): nat {
    if rows == [] then 0 else PostsOf(rows[..|rows| - 1], tag) + if tag in rows[|rows| - 1].tags then 1 else 0
  }

  function LikesOf(rows: seq<TagRow>, tag: string): int {
    if rows == [] then 0
    else LikesOf(rows[..|rows| - 1], tag) + if tag in rows[|rows| - 1].tags then rows[|rows| - 1].likes else 0
  }

  function AuthorsOf(rows: seq<TagRow>, tag: string): set<UserId> {
    set r | r in rows && tag in r.tags :: r.author
  }

  function BucketOf(rows: seq<TagRow>, tag: string): Bucket {
    Bucket(PostsOf(rows, tag), LikesOf(rows, tag), AuthorsOf(rows, tag))
  }

  function Tags(rows: seq<TagRow>): set<string> {
    set r, t | r in rows && t in r.tags :: t
  }

  const NO_BUCKET := Bucket(0, 0, {})

  /** The bucket after one more row that has the tag. */
  function Added(b: Bucket, row: TagRow): Bucket {
    Bucket(b.posts + 1, b.likes + row.likes, b.authors + {row.author})
  }

  ghost predicate StatsOk(stats: map<string, Bucket>, rows: seq<TagRow>) {
    stats.Keys == Tags(rows) && forall t :: t in stats ==> stats[t] == BucketOf(rows, t)
  }

  lemma AuthorsSnoc(rows: seq<TagRow>, row: TagRow, tag: string)
    ensures AuthorsOf(rows + [row], tag) == AuthorsOf(rows, tag) + if tag in row.tags then {row.author} else {}
  {
    assert forall r :: r in rows + [row] <==> r in rows || r == row;
  }

  lemma TagsSnoc(rows: seq<TagRow>, row: TagRow)
    ensures Tags(rows + [row]) == Tags(rows) + row.tags
  {
    assert forall r :: r in rows + [row] <==> r in rows || r == row;
  }

  lemma BucketSnoc(rows: seq<TagRow>, row: TagRow, tag: string)
    ensures BucketOf(rows + [row], tag) == if tag in row.tags then Added(BucketOf(rows, tag), row) else BucketOf(rows, tag)
  {
    assert (rows + [row])[..|rows|] == rows;
    AuthorsSnoc(rows, row, tag);
  }

  lemma {:induction false} UntaggedBucket(rows: seq<TagRow>, tag: string)
    requires tag !in Tags(rows)
    ensures BucketOf(rows, tag) == NO_BUCKET
  {
    if rows != [] {
      var before, last := rows[..|rows| - 1], rows[|rows| - 1];
      assert rows == before + [last];
      TagsSnoc(before, last);
      UntaggedBucket(before, tag);
      BucketSnoc(before, last, tag);
    }
  }

  // ----- The aggregation loops

  /** The inner loop: every tag of one row, in whatever order the set is walked. */
  method AddRow(stats: map<string, Bucket>, row: TagRow) returns (next: map<string, Bucket>)
    ensures next.Keys == stats.Keys + row.tags
    ensures forall t :: t in next ==>
      next[t] == if t in row.tags then Added(if t in stats then stats[t] else NO_BUCKET, row) else stats[t]
  {
    next := stats;
    var rest := row.tags;
    while rest != {}
      invariant rest <= row.tags && next.Keys == stats.Keys + (row.tags - rest)
      invariant forall t :: t in next ==>
        next[t] == if t in row.tags - rest then Added(if t in stats then stats[t] else NO_BUCKET, row) else stats[t]
      decreases rest
    {
      var t :| t in rest;
      var bucket := if t in next then next[t] else NO_BUCKET;
      next := next[t := Bucket(bucket.posts + 1, bucket.likes + row.likes, bucket.authors + {row.author})];
      rest := rest - {t};
    }
  }

  method Aggregate(rows: seq<TagRow>) returns (stats: map<string, Bucket>)
    ensures StatsOk(stats, rows)
  {
    stats := map[];
    for i := 0 to |rows|
      invariant StatsOk(stats, rows[..i])
    {
      var next := AddRow(stats, rows[i]);
      assert rows[..i + 1] == rows[..i] + [rows[i]];
      StatsNext(stats, next, rows[..i], rows[i]);
      stats := next;
    }
    assert rows[..|rows|] == rows;
  }

  lemma StatsNext(stats: map<string, Bucket>, next: map<string, Bucket>, rows: seq<TagRow>, row: TagRow)
    requires StatsOk(stats, rows) && next.Keys == stats.Keys + row.tags
    requires forall t :: t in next ==>
      next[t] == if t in row.tags then Added(if t in stats then stats[t] else NO_BUCKET, row) else stats[t]
    ensures StatsOk(next, rows + [row])
  {
    TagsSnoc(rows, row);
    forall t | t in next
      ensures next[t] == BucketOf(rows + [row], t)
    {
      BucketSnoc(rows, row, t);
      if t !in stats {
        UntaggedBucket(rows, t);
      }
    }
  }

  // ----- Ranking

  function ItemFor(term: string, b: Bucket): TrendItem {
    TrendItem(term, 2 * |b.authors| + b.posts + b.likes, b.posts, |b.authors|)
  }

  predicate LexLe(a: string, b: string) {
    a == "" || (b != "" && (a[0] < b[0] || (a[0] == b[0] && LexLe(a[1..], b[1..]))))
  }

  lemma {:induction false} LexTotal(a: string, b: string)
    ensures LexLe(a, b) || LexLe(b, a)
    ensures LexLe(a, b) && LexLe(b, a) ==> a == b
  {
    if a != "" && b != "" && a[0] == b[0] {
      LexTotal(a[1..], b[1..]);
      assert a == [a[0]] + a[1..] && b == [b[0]] + b[1..];
    }
  }

  lemma {:induction false} LexTransitive(a: string, b: string, c: string)
    requires LexLe(a, b) && LexLe(b, c)
    ensures LexLe(a, c)
  {
    if a != "" && a[0] == b[0] == c[0] {
      LexTransitive(a[1..], b[1..], c[1..]);
    }
  }

  /** The sort key `(-score, term)`. */
  function ByRank(): (TrendItem, TrendItem) -> bool {
    (a: TrendItem, b: TrendItem) => a.score > b.score || (a.score == b.score && LexLe(a.term, b.term))
  }

  lemma RankIsOrder()
    ensures TotalPreorder(ByRank())
  {
    forall a: TrendItem, b: TrendItem
      ensures ByRank()(a, b) || ByRank()(b, a)
    {
      LexTotal(a.term, b.term);
    }
    forall a: TrendItem, b: TrendItem, c: TrendItem | ByRank()(a, b) && ByRank()(b, c)
      ensures ByRank()(a, c)
    {
      if a.score == b.score == c.score {
        LexTransitive(a.term, b.term, c.term);
      }
    }
  }

  ghost predicate IsItem(rows: seq<TagRow>, item: TrendItem) {
    item.term in Tags(rows) && item == ItemFor(item.term, BucketOf(rows, item.term))
  }

  /** One item per tag that occurs, by score descending and term ascending. */
  ghost predicate FullRanking(rows: seq<TagRow>, full: seq<TrendItem>) {
    && SortedBy(ByRank(), full)
    && Distinct(full)
    && forall item :: item in full <==> IsItem(rows, item)
  }

  ghost predicate IsTrendList(rows: seq<TagRow>, limit: nat, r: seq<TrendItem>) {
    exists full :: FullRanking(rows, full) && r == Take(full, limit)
  }

  /** The second loop: one item per bucket, in dictionary order. */
  method ItemsOf(stats: map<string, Bucket>) returns (items: seq<TrendItem>)
    ensures Distinct(items)
    ensures forall item :: item in items <==> item.term in stats && item == ItemFor(item.term, stats[item.term])
  {
    items := [];
    var rest := stats.Keys;
    while rest != {}
      invariant rest <= stats.Keys && Distinct(items)
      invariant forall item :: item in items <==>
        item.term in stats.Keys - rest && item == ItemFor(item.term, stats[item.term])
      decreases rest
    {
      var term :| term in rest;
      assert forall item :: item in items ==> item.term != term;
      items := items + [ItemFor(term, stats[term])];
      rest := rest - {term};
    }
  }

  method GetTrends(rows: seq<TagRow>, limit: nat) returns (r: seq<TrendItem>)
    ensures IsTrendList(rows, limit, r)
  {
    var stats := Aggregate(rows);
    var items := ItemsOf(stats);
    var ranked := StableSort(ByRank(), items);
    RankIsOrder();
    StableSortSorts(ByRank(), items);
    StableSortMembers(ByRank(), items);
    assert FullRanking(rows, ranked);
    r := Take(ranked, limit);
  }

  // ----- Independence of the row order

  lemma {:induction false} CountsConcat(a: seq<TagRow>, b: seq<TagRow>, tag: string)
    ensures PostsOf(a + b, tag) == PostsOf(a, tag) + PostsOf(b, tag)
    ensures LikesOf(a + b, tag) == LikesOf(a, tag) + LikesOf(b, tag)
    decreases |b|
  {
    if b == [] {
      assert a + b == a;
    } else {
      assert (a + b)[..|a + b| - 1] == a + b[..|b| - 1];
      CountsConcat(a, b[..|b| - 1], tag);
    }
  }

  lemma {:induction false} CountsIgnoreOrder(xs: seq<TagRow>, ys: seq<TagRow>, tag: string)
    requires multiset(xs) == multiset(ys)
    ensures PostsOf(xs, tag) == PostsOf(ys, tag) && LikesOf(xs, tag) == LikesOf(ys, tag)
    decreases |xs|
  {
    if xs == [] {
      assert |multiset(ys)| == 0;
    } else {
      var before, after := TakeOut(xs, ys);
      CountsIgnoreOrder(xs[1..], before + after, tag);
      assert xs == [xs[0]] + xs[1..];
      CountsConcat([xs[0]], xs[1..], tag);
      CountsConcat(before + [xs[0]], after, tag);
      CountsConcat(before, [xs[0]], tag);
      CountsConcat(before, after, tag);
    }
  }

  lemma SameMembers(xs: seq<TagRow>, ys: seq<TagRow>)
    requires multiset(xs) == multiset(ys)
    ensures forall r :: r in xs <==> r in ys
  {
    forall r
      ensures r in xs <==> r in ys
    {
      assert r in xs <==> r in multiset(xs);
    }
  }

  lemma BucketIgnoresOrder(xs: seq<TagRow>, ys: seq<TagRow>, tag: string)
    requires multiset(xs) == multiset(ys)
    ensures BucketOf(xs, tag) == BucketOf(ys, tag) && (tag in Tags(xs) <==> tag in Tags(ys))
  {
    CountsIgnoreOrder(xs, ys, tag);
    SameMembers(xs, ys);
    assert AuthorsOf(xs, tag) == AuthorsOf(ys, tag);
  }

  lemma RankingUnique(rows: seq<TagRow>, a: seq<TrendItem>, b: seq<TrendItem>)
    requires FullRanking(rows, a) && FullRanking(rows, b)
    ensures a == b
  {
    DistinctSame(a, b);
    RankIsOrder();
    forall x, y | x in a && y in a && ByRank()(x, y) && ByRank()(y, x)
      ensures x == y
    {
      LexTotal(x.term, y.term);
    }
    SortedUnique(ByRank(), a, b);
  }

  lemma DistinctSame(a: seq<TrendItem>, b: seq<TrendItem>)
    requires Distinct(a) && Distinct(b) && forall x :: x in a <==> x in b
    ensures multiset(a) == multiset(b)
  {
    DistinctCounts(a);
    DistinctCounts(b);
    forall x
      ensures multiset(a)[x] == multiset(b)[x]
    {
      assert x in a <==> x in multiset(a);
      assert x in b <==> x in multiset(b);
    }
  }

  /** The list depends neither on the order of the query rows nor on how sets and dictionaries are walked. */
  lemma TrendsIgnoreOrder(xs: seq<TagRow>, ys: seq<TagRow>, limit: nat, r: seq<TrendItem>, s: seq<TrendItem>)
    requires multiset(xs) == multiset(ys) && IsTrendList(xs, limit, r) && IsTrendList(ys, limit, s)
    ensures r == s
  {
    var a :| FullRanking(xs, a) && r == Take(a, limit);
    var b :| FullRanking(ys, b) && s == Take(b, limit);
    forall item
      ensures IsItem(xs, item) <==> IsItem(ys, item)
    {
      BucketIgnoresOrder(xs, ys, item.term);
    }
    RankingUnique(xs, a, b);
  }

  // ----- Conservation

  /** Single users cannot inflate the author count: it never exceeds the number of posts. */
  lemma {:induction false} AuthorsAtMostPosts(rows: seq<TagRow>, tag: string)
    ensures |AuthorsOf(rows, tag)| <= PostsOf(rows, tag)
  {
    if rows == [] {
      assert AuthorsOf(rows, tag) == {};
    } else {
      var before, last := rows[..|rows| - 1], rows[|rows| - 1];
      assert rows == before + [last];
      AuthorsAtMostPosts(before, tag);
      AuthorsSnoc(before, last, tag);
    }
  }

  function TotalPosts(items: seq<TrendItem>): nat {
    if items == [] then 0 else items[0].posts + TotalPosts(items[1..])
  }

  function TotalTags(rows: seq<TagRow>): nat {
    if rows == [] then 0 else TotalTags(rows[..|rows| - 1]) + |rows[|rows| - 1].tags|
  }

  function PostsOver(terms: seq<string>, rows: seq<TagRow>): nat {
    if terms == [] then 0 else PostsOf(rows, terms[0]) + PostsOver(terms[1..], rows)
  }

  function Hits(terms: seq<string>, tags: set<string>): nat {
    if terms == [] then 0 else (if terms[0] in tags then 1 else 0) + Hits(terms[1..], tags)
  }

  lemma {:induction false} HitsAreTags(terms: seq<string>, tags: set<string>)
    requires Distinct(terms) && forall t :: t in tags ==> t in terms
    ensures Hits(terms, tags) == |tags|
  {
    if terms == [] {
      assert tags == {};
    } else {
      var rest := tags - {terms[0]};
      assert terms == [terms[0]] + terms[1..];
      HitsAreTags(terms[1..], rest);
      OthersHit(terms[1..], tags, terms[0]);
    }
  }

  lemma {:induction false} OthersHit(terms: seq<string>, tags: set<string>, t: string)
    requires t !in terms
    ensures Hits(terms, tags) == Hits(terms, tags - {t})
  {
    if terms != [] {
      OthersHit(terms[1..], tags, t);
    }
  }

  lemma {:induction false} PostsOverSnoc(terms: seq<string>, rows: seq<TagRow>, row: TagRow)
    ensures PostsOver(terms, rows + [row]) == PostsOver(terms, rows) + Hits(terms, row.tags)
  {
    assert (rows + [row])[..|rows|] == rows;
    if terms != [] {
      PostsOverSnoc(terms[1..], rows, row);
    }
  }

  lemma {:induction false} NoPostsOver(terms: seq<string>)
    ensures PostsOver(terms, []) == 0
  {
    if terms != [] {
      NoPostsOver(terms[1..]);
    }
  }

  lemma {:induction false} PostsOverIsTotal(terms: seq<string>, rows: seq<TagRow>)
    requires Distinct(terms) && forall t :: t in Tags(rows) ==> t in terms
    ensures PostsOver(terms, rows) == TotalTags(rows)
    decreases |rows|
  {
    if rows == [] {
      NoPostsOver(terms);
    } else {
      var before, last := rows[..|rows| - 1], rows[|rows| - 1];
      assert rows == before + [last];
      TagsSnoc(before, last);
      PostsOverIsTotal(terms, before);
      PostsOverSnoc(terms, before, last);
      HitsAreTags(terms, last.tags);
    }
  }

  function Terms(items: seq<TrendItem>): (r: seq<string>)
    ensures |r| == |items| && forall i :: 0 <= i < |items| ==> r[i] == items[i].term
  {
    if items == [] then [] else [items[0].term] + Terms(items[1..])
  }

  lemma {:induction false} TotalIsOver(rows: seq<TagRow>, items: seq<TrendItem>)
    requires forall item :: item in items ==> IsItem(rows, item)
    ensures TotalPosts(items) == PostsOver(Terms(items), rows)
  {
    if items != [] {
      assert items[0] in items && IsItem(rows, items[0]);
      TotalIsOver(rows, items[1..]);
    }
  }

  /** Over all terms the post counts add up to the distinct hashtags per post, summed over the rows. */
  lemma PostCountsConserved(rows: seq<TagRow>, full: seq<TrendItem>)
    requires FullRanking(rows, full)
    ensures TotalPosts(full) == TotalTags(rows)
    ensures forall item :: item in full ==> item.authors <= item.posts
  {
    TotalIsOver(rows, full);
    var terms := Terms(full);
    forall i, j | 0 <= i < j < |terms|
      ensures terms[i] != terms[j]
    {
      assert full[i] in full && full[j] in full;
      assert IsItem(rows, full[i]) && IsItem(rows, full[j]);
    }
    forall t | t in Tags(rows)
      ensures t in terms
    {
      var item := ItemFor(t, BucketOf(rows, t));
      assert IsItem(rows, item);
      var i :| 0 <= i < |full| && full[i] == item;
      assert terms[i] == t;
    }
    PostsOverIsTotal(terms, rows);
    forall item | item in full
      ensures item.authors <= item.posts
    {
      assert IsItem(rows, item);
      AuthorsAtMostPosts(rows, item.term);
    }
  }

  // ----- What a trend is, on the query rows

  /** The rows with the tag. */
  function Tagged(rows: seq<TagRow>, tag: string): set<nat> {
    set i: nat | i < |rows| && tag in rows[i].tags
  }

  function SumLikes(rows: seq<TagRow>, ids: set<nat>, n: nat): int
    requires n <= |rows|
  {
    if n == 0 then 0 else SumLikes(rows, ids, n - 1) + if n - 1 in ids then rows[n - 1].likes else 0
  }

  lemma {:induction false} PostsAreTagged(rows: seq<TagRow>, tag: string, n: nat)
    requires n <= |rows|
    ensures PostsOf(rows[..n], tag) == |Tagged(rows[..n], tag)|
    ensures LikesOf(rows[..n], tag) == SumLikes(rows, Tagged(rows, tag), n)
  {
    if n > 0 {
      PostsAreTagged(rows, tag, n - 1);
      assert rows[..n] == rows[..n - 1] + [rows[n - 1]];
      assert rows[..n][..n - 1] == rows[..n - 1];
      var before := Tagged(rows[..n - 1], tag);
      assert Tagged(rows[..n], tag) == if tag in rows[n - 1].tags then before + {n - 1} else before;
    } else {
      assert rows[..0] == [] && Tagged(rows[..0], tag) == {};
    }
  }

  /** A tag is listed exactly when a row has it. Twice the distinct authors, plus the posts, plus all their likes. */
  lemma TrendScore(rows: seq<TagRow>, item: TrendItem)
    ensures IsItem(rows, item) <==>
      var ids := Tagged(rows, item.term);
      && ids != {}
      && item.posts == |ids|
      && item.authors == |set i | i in ids && i < |rows| :: rows[i].author|
      && item.score == 2 * item.authors + item.posts + SumLikes(rows, ids, |rows|)
  {
    var ids := Tagged(rows, item.term);
    var authors := set i | i in ids && i < |rows| :: rows[i].author;
    PostsAreTagged(rows, item.term, |rows|);
    assert rows[..|rows|] == rows;
    AuthorsOnRows(rows, item.term);
    TagOnRows(rows, item.term);
  }

  lemma TagOnRows(rows: seq<TagRow>, tag: string)
    ensures tag in Tags(rows) <==> Tagged(rows, tag) != {}
  {
    if tag in Tags(rows) {
      var r :| r in rows && tag in r.tags;
      var i :| 0 <= i < |rows| && rows[i] == r;
      assert i in Tagged(rows, tag);
    }
    if i :| i in Tagged(rows, tag) {
      assert rows[i] in rows;
    }
  }

  lemma AuthorsOnRows(rows: seq<TagRow>, tag: string)
    ensures AuthorsOf(rows, tag) == set i | i in Tagged(rows, tag) && i < |rows| :: rows[i].author
  {
    forall r | r in rows && tag in r.tags
      ensures exists i :: i in Tagged(rows, tag) && i < |rows| && rows[i].author == r.author
    {
      var i :| 0 <= i < |rows| && rows[i] == r;
      assert i in Tagged(rows, tag);
    }
    forall i | i in Tagged(rows, tag)
      ensures rows[i].author in AuthorsOf(rows, tag)
    {
      assert rows[i] in rows;
    }
  }

  /** Dictionary order: a prefix, or smaller at the first place where they differ. */
  lemma {:induction false} LexIsDictionary(a: string, b: string)
    ensures LexLe(a, b) <==> a <= b || SmallerFirst(a, b)
  {
    if a != "" && b != "" {
      var x, y := a[1..], b[1..];
      assert a == [a[0]] + x && b == [b[0]] + y;
      if a[0] == b[0] {
        LexIsDictionary(x, y);
        SmallerCons(a[0], x, y);
        assert a <= b <==> x <= y;
      } else {
        assert DiffersAt(a, b, 0);
        forall k: nat
          ensures DiffersAt(a, b, k) ==> k == 0
        {
          assert k > 0 && k <= |a| && k <= |b| ==> a[..k][0] == a[0] && b[..k][0] == b[0];
        }
      }
    }
  }

  /** At the first place where they differ, `a` is smaller. */
  ghost predicate SmallerFirst(a: string, b: string) {
    exists k: nat :: DiffersAt(a, b, k) && a[k] < b[k]
  }

  lemma DiffersCons(c: char, x: string, y: string, k: nat)
    ensures DiffersAt(x, y, k) <==> DiffersAt([c] + x, [c] + y, k + 1)
  {
    if k < |x| && k < |y| {
      var a, b := [c] + x, [c] + y;
      assert a[..k + 1] == [c] + x[..k] && b[..k + 1] == [c] + y[..k];
      assert x[..k] == a[..k + 1][1..] && y[..k] == b[..k + 1][1..];
    }
  }

  lemma SmallerCons(c: char, x: string, y: string)
    ensures SmallerFirst(x, y) <==> SmallerFirst([c] + x, [c] + y)
  {
    var a, b := [c] + x, [c] + y;
    forall k: nat
      ensures DiffersAt(x, y, k) <==> DiffersAt(a, b, k + 1)
    {
      DiffersCons(c, x, y, k);
    }
    if SmallerFirst(x, y) {
      var k: nat :| DiffersAt(x, y, k) && x[k] < y[k];
      assert DiffersAt(a, b, k + 1) && a[k + 1] < b[k + 1];
    }
    if SmallerFirst(a, b) {
      var k: nat :| DiffersAt(a, b, k) && a[k] < b[k];
      assert DiffersAt(x, y, k - 1);
    }
  }

  predicate DiffersAt(a: string, b: string, k: nat) {
    k < |a| && k < |b| && a[..k] == b[..k] && a[k] != b[k]
  }

  /** A higher score, or the same score and a term that comes first in dictionary order. */
  ghost predicate Outranks(a: TrendItem, b: TrendItem) {
    a.score > b.score || (a.score == b.score && a.term != b.term && (a.term <= b.term || SmallerFirst(a.term, b.term)))
  }

  lemma RankIsOutranking(a: TrendItem, b: TrendItem)
    requires ByRank()(a, b) && a.term != b.term
    ensures Outranks(a, b)
  {
    LexIsDictionary(a.term, b.term);
  }

  /** The list descends in rank, and what it leaves out is outranked by all that it shows; nothing is left out while there
      is room. */
  lemma TrendOrder(rows: seq<TagRow>, limit: nat, r: seq<TrendItem>)
    requires IsTrendList(rows, limit, r)
    ensures |r| <= limit && forall i :: 0 <= i < |r| ==> IsItem(rows, r[i])
    ensures forall i, j :: 0 <= i < j < |r| ==> Outranks(r[i], r[j])
    ensures forall item :: IsItem(rows, item) && item !in r ==>
      |r| == limit && forall i :: 0 <= i < |r| ==> Outranks(r[i], item)
  {
    var full :| FullRanking(rows, full) && r == Take(full, limit);
    forall i, j | 0 <= i < j < |full|
      ensures Outranks(full[i], full[j])
    {
      assert full[i] in full && full[j] in full && full[i] != full[j];
      assert ByRank()(full[i], full[j]);
      RankIsOutranking(full[i], full[j]);
    }
    assert forall i :: 0 <= i < |r| ==> r[i] == full[i] && full[i] in full;
    forall item | IsItem(rows, item) && item !in r
      ensures |r| == limit && forall i :: 0 <= i < |r| ==> Outranks(r[i], item)
    {
      assert item in full;
      var j :| 0 <= j < |full| && full[j] == item;
      assert j >= |r|;
    }
  }
}
