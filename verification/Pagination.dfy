/** Walking a keyset-paginated list page by page, over a fixed table and over one that changes between requests. */
module Pagination {
  import opened Options
  import opened Keyset

  /** The page and the next cursor out of the fetched rows: one row more than the page holds means that more is left. */
  function Cut(rows: seq<Key>, limit: nat): (seq<Key>, Option<Key>) {
    var page := Take(rows, limit);
    (page, if |rows| > limit && page != [] then Some(page[|page| - 1]) else None)
  }

  function Served(ks: set<Key>, cursor: Option<Key>, limit: nat): (seq<Key>, Option<Key>) {
    Cut(Page(ks, cursor, limit + 1), limit)
  }

  lemma CutShape(all: seq<Key>, limit: nat)
    requires limit >= 1
    ensures var (page, next) := Cut(Take(all, limit + 1), limit);
      && page == Take(all, limit)
      && (next.Some? <==> |all| > limit)
      && (next.Some? ==> |page| == limit && next.value == page[limit - 1])
      && (next.None? ==> page == all)
  {
    assert Take(Take(all, limit + 1), limit) == Take(all, limit);
  }

  /** A page is the top of what lies below the cursor; the next cursor exists when something is left below it. */
  lemma ServedShape(ks: set<Key>, cursor: Option<Key>, limit: nat)
    requires limit >= 1
    ensures var (page, next) := Served(ks, cursor, limit);
      && page == Take(Ordered(Below(ks, cursor)), limit)
      && (next.Some? <==> |Below(ks, cursor)| > limit)
      && (next.Some? ==> |page| == limit && next.value == page[limit - 1])
      && (next.None? ==> page == Ordered(Below(ks, cursor)))
  {
    CutShape(Ordered(Below(ks, cursor)), limit);
  }

  lemma TailIsBelow(s: seq<Key>, n: nat, k: Key)
    requires IsDescending(s) && 1 <= n <= |s|
    ensures k in s[n..] <==> k in s && Above(s[n - 1], k)
  {
    var tail := s[n..];
    if k in tail {
      var i :| 0 <= i < |tail| && tail[i] == k;
      assert s[n + i] == k;
    }
    if k in s && Above(s[n - 1], k) {
      var i :| 0 <= i < |s| && s[i] == k;
      assert i >= n;
      assert tail[i - n] == k;
    }
  }

  /** What follows the first rows of an ordered list is the ordered rest below the last of them. */
  lemma OrderedSplits(ks: set<Key>, n: nat)
    requires 1 <= n <= |ks|
    ensures var s := Ordered(ks);
      s[n..] == Ordered(Below(ks, Some(s[n - 1]))) && |Below(ks, Some(s[n - 1]))| == |ks| - n
  {
    var s := Ordered(ks);
    var rest := Below(ks, Some(s[n - 1]));
    forall k
      ensures k in s[n..] <==> k in rest
    {
      TailIsBelow(s, n, k);
    }
    SizeOfDescending(s[n..], rest);
    DescendingUnique(s[n..], Ordered(rest));
  }

  lemma {:induction false} SizeOfDescending(s: seq<Key>, ks: set<Key>)
    requires IsDescending(s) && forall k :: k in s <==> k in ks
    ensures |s| == |ks|
  {
    if s == [] {
      assert ks == {};
    } else {
      forall k
        ensures k in s[1..] <==> k in ks - {s[0]}
      {
        InTail(s, k);
      }
      SizeOfDescending(s[1..], ks - {s[0]});
    }
  }

  lemma BelowNext(ks: set<Key>, cursor: Option<Key>, k: Key)
    requires BelowCursor(cursor, k)
    ensures Below(Below(ks, cursor), Some(k)) == Below(ks, Some(k))
  {
  }

  /** One page of a fixed table: the cursor moves past exactly the listed rows. */
  lemma PageMoves(ks: set<Key>, cursor: Option<Key>, limit: nat)
    requires limit >= 1
    ensures var (page, next) := Served(ks, cursor, limit);
      next.Some? ==>
        && Ordered(Below(ks, cursor)) == page + Ordered(Below(ks, next))
        && |Below(ks, next)| == |Below(ks, cursor)| - limit
  {
    var (page, next) := Served(ks, cursor, limit);
    ServedShape(ks, cursor, limit);
    if next.Some? {
      var s := Ordered(Below(ks, cursor));
      OrderedSplits(Below(ks, cursor), limit);
      assert next.value in s;
      BelowNext(ks, cursor, next.value);
      assert s == s[..limit] + s[limit..];
    }
  }

  // ----- A fixed table

  /** All pages from a cursor on. */
  function Walk(ks: set<Key>, cursor: Option<Key>, limit: nat): seq<seq<Key>>
    requires limit >= 1
    decreases |Below(ks, cursor)|
  {
    var (page, next) := Served(ks, cursor, limit);
    PageMoves(ks, cursor, limit);
    ServedShape(ks, cursor, limit);
    if next.None? then [page] else [page] + Walk(ks, next, limit)
  }

  function Concat(pages: seq<seq<Key>>): seq<Key> {
    if pages == [] then [] else pages[0] + Concat(pages[1..])
  }

  /** The requests needed for `n` rows. */
  function PageCount(n: nat, limit: nat): nat
    requires limit >= 1
  {
    var full := (n + limit - 1) / limit;
    if full > 1 then full else 1
  }

  lemma ProductStep(x: int, y: int, b: nat)
    requires x + 1 <= y
    ensures x * b + b <= y * b
  {
    assert (y - x - 1) * b >= 0;
  }

  lemma QuotientUnique(a: nat, b: nat, q: nat, r: nat)
    requires b >= 1 && a == q * b + r && r < b
    ensures a / b == q
  {
    var p, s := a / b, a % b;
    assert a == p * b + s;
    if p < q {
      ProductStep(p, q, b);
    } else if q < p {
      ProductStep(q, p, b);
    }
  }

  lemma QuotientStep(a: nat, b: nat)
    requires b >= 1
    ensures (a + b) / b == a / b + 1
  {
    var q, r := a / b, a % b;
    assert a == q * b + r;
    assert a + b == (q + 1) * b + r;
    QuotientUnique(a + b, b, q + 1, r);
  }

  lemma OneFewer(n: nat, limit: nat)
    requires n > limit >= 1
    ensures PageCount(n, limit) == 1 + PageCount(n - limit, limit)
  {
    QuotientStep(n - limit + limit - 1, limit);
    QuotientStep(n - limit - 1, limit);
  }

  lemma OneRequest(n: nat, limit: nat)
    requires n <= limit && limit >= 1
    ensures PageCount(n, limit) == 1
  {
    if n == 0 {
      QuotientUnique(limit - 1, limit, 0, limit - 1);
    } else {
      QuotientStep(n - 1, limit);
      QuotientUnique(n - 1, limit, 0, n - 1);
    }
  }

  lemma WalkCons(ks: set<Key>, cursor: Option<Key>, limit: nat)
    requires limit >= 1
    ensures var (page, next) := Served(ks, cursor, limit);
      var walk := Walk(ks, cursor, limit);
      if next.None? then |walk| == 1 && Concat(walk) == page
      else |walk| == 1 + |Walk(ks, next, limit)| && Concat(walk) == page + Concat(Walk(ks, next, limit))
  {
    var (page, next) := Served(ks, cursor, limit);
    var walk := Walk(ks, cursor, limit);
    if next.None? {
      assert walk == [page] && walk[1..] == [];
      assert page + Concat([]) == page;
    } else {
      assert walk[1..] == Walk(ks, next, limit);
    }
  }

  lemma {:induction false} WalkContents(ks: set<Key>, cursor: Option<Key>, limit: nat)
    requires limit >= 1
    ensures Concat(Walk(ks, cursor, limit)) == Ordered(Below(ks, cursor))
    decreases |Below(ks, cursor)|
  {
    var next := Served(ks, cursor, limit).1;
    PageMoves(ks, cursor, limit);
    ServedShape(ks, cursor, limit);
    WalkCons(ks, cursor, limit);
    if next.Some? {
      WalkContents(ks, next, limit);
    }
  }

  lemma {:induction false} WalkLength(ks: set<Key>, cursor: Option<Key>, limit: nat)
    requires limit >= 1
    ensures |Walk(ks, cursor, limit)| == PageCount(|Below(ks, cursor)|, limit)
    decreases |Below(ks, cursor)|
  {
    var next := Served(ks, cursor, limit).1;
    PageMoves(ks, cursor, limit);
    ServedShape(ks, cursor, limit);
    WalkCons(ks, cursor, limit);
    if next.None? {
      OneRequest(|Below(ks, cursor)|, limit);
    } else {
      WalkLength(ks, next, limit);
      OneFewer(|Below(ks, cursor)|, limit);
    }
  }

  /** Walking a fixed table lists everything below the cursor once, in order, in `max(1, ceil(n / limit))` requests. */
  lemma WalkEnumerates(ks: set<Key>, cursor: Option<Key>, limit: nat)
    requires limit >= 1
    ensures Concat(Walk(ks, cursor, limit)) == Ordered(Below(ks, cursor))
    ensures |Walk(ks, cursor, limit)| == PageCount(|Below(ks, cursor)|, limit)
  {
    WalkContents(ks, cursor, limit);
    WalkLength(ks, cursor, limit);
  }

  // ----- A table that changes between requests

  /** The rows listed when the i-th request meets the table `tables[i]`, and the cursor where the walk stands. */
  function Listed(tables: seq<set<Key>>, cursor: Option<Key>, limit: nat): (seq<Key>, Option<Key>, bool)
  {
    if tables == [] then ([], cursor, false)
    else
      var (page, next) := Served(tables[0], cursor, limit);
      if next.None? then (page, cursor, true)
      else
        var (more, last, done) := Listed(tables[1..], next, limit);
        (page + more, last, done)
  }

  ghost predicate Throughout(tables: seq<set<Key>>, k: Key) {
    forall i :: 0 <= i < |tables| ==> k in tables[i]
  }

  lemma DescendingConcat(a: seq<Key>, b: seq<Key>, k: Key)
    requires IsDescending(a) && IsDescending(b) && a != [] && a[|a| - 1] == k
    requires forall x :: x in b ==> Above(k, x)
    ensures IsDescending(a + b)
  {
    forall i, j | 0 <= i < j < |a + b|
      ensures Above((a + b)[i], (a + b)[j])
    {
      if i < |a| <= j {
        assert b[j - |a|] in b;
      }
    }
  }

  /** The rows of one more page, listed before the rest of the walk. */
  lemma PageBefore(ks: set<Key>, cursor: Option<Key>, limit: nat, more: seq<Key>)
    requires limit >= 1 && Served(ks, cursor, limit).1.Some?
    requires IsDescending(more) && forall k :: k in more ==> BelowCursor(Served(ks, cursor, limit).1, k)
    ensures var rows := Served(ks, cursor, limit).0 + more;
      IsDescending(rows) && forall k :: k in rows ==> BelowCursor(cursor, k)
  {
    var (page, next) := Served(ks, cursor, limit);
    ServedShape(ks, cursor, limit);
    PageBelow(ks, cursor, limit);
    DescendingConcat(page, more, next.value);
    assert next.value in page;
  }

  lemma PageBelow(ks: set<Key>, cursor: Option<Key>, limit: nat)
    requires limit >= 1
    ensures IsDescending(Served(ks, cursor, limit).0)
    ensures forall k :: k in Served(ks, cursor, limit).0 ==> k in ks && BelowCursor(cursor, k)
  {
    var page := Served(ks, cursor, limit).0;
    ServedShape(ks, cursor, limit);
    forall k | k in page
      ensures k in ks && BelowCursor(cursor, k)
    {
      assert k in Ordered(Below(ks, cursor));
    }
  }

  /** The listed rows hold `k` if it was there throughout and lies between the cursor and where the walk stands. */
  ghost predicate Caught(tables: seq<set<Key>>, cursor: Option<Key>, limit: nat, k: Key) {
    var (rows, last, done) := Listed(tables, cursor, limit);
    Throughout(tables, k) && BelowCursor(cursor, k) && (done || !BelowCursor(last, k)) ==> k in rows
  }

  lemma {:induction false} ThroughoutIsCaught(tables: seq<set<Key>>, cursor: Option<Key>, limit: nat, k: Key)
    requires limit >= 1
    ensures Caught(tables, cursor, limit, k)
    decreases |tables|
  {
    if tables != [] && Throughout(tables, k) && BelowCursor(cursor, k) {
      var (page, next) := Served(tables[0], cursor, limit);
      assert k in tables[0];
      if next.None? {
        ServedShape(tables[0], cursor, limit);
        assert k in Below(tables[0], cursor);
      } else {
        FoundOnPageOrBelow(tables[0], cursor, limit, k);
        ThroughoutTail(tables, k);
        ThroughoutIsCaught(tables[1..], next, limit, k);
      }
    }
  }

  lemma ThroughoutTail(tables: seq<set<Key>>, k: Key)
    requires tables != [] && Throughout(tables, k)
    ensures Throughout(tables[1..], k)
  {
  }

  lemma {:induction false} ListedDescends(tables: seq<set<Key>>, cursor: Option<Key>, limit: nat)
    requires limit >= 1
    ensures var rows := Listed(tables, cursor, limit).0;
      IsDescending(rows) && forall k :: k in rows ==> BelowCursor(cursor, k)
    decreases |tables|
  {
    if tables != [] {
      var (page, next) := Served(tables[0], cursor, limit);
      if next.None? {
        PageBelow(tables[0], cursor, limit);
      } else {
        ListedDescends(tables[1..], next, limit);
        PageBefore(tables[0], cursor, limit, Listed(tables[1..], next, limit).0);
      }
    }
  }

  /** Whatever is inserted or deleted between the requests, the listed rows descend strictly from the starting cursor, so
      none repeats, and once the walk has ended every row below the start that was there throughout has been listed;
      before that, every such row that is not below the cursor reached. */
  lemma WalkOverChanges(tables: seq<set<Key>>, cursor: Option<Key>, limit: nat)
    requires limit >= 1
    ensures var rows := Listed(tables, cursor, limit).0;
      && IsDescending(rows)
      && (forall k :: k in rows ==> BelowCursor(cursor, k))
      && (forall k :: Caught(tables, cursor, limit, k))
  {
    ListedDescends(tables, cursor, limit);
    forall k
      ensures Caught(tables, cursor, limit, k)
    {
      ThroughoutIsCaught(tables, cursor, limit, k);
    }
  }

  /** A row below the cursor is on the page or below the next cursor. */
  lemma FoundOnPageOrBelow(ks: set<Key>, cursor: Option<Key>, limit: nat, k: Key)
    requires limit >= 1 && k in ks && BelowCursor(cursor, k) && Served(ks, cursor, limit).1.Some?
    ensures k in Served(ks, cursor, limit).0 || BelowCursor(Served(ks, cursor, limit).1, k)
  {
    var (page, next) := Served(ks, cursor, limit);
    PageMoves(ks, cursor, limit);
    assert k in Ordered(Below(ks, cursor));
    if k !in page {
      assert k in Ordered(Below(ks, next));
    }
  }
}
