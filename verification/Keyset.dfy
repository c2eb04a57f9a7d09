/** Rows ordered by `created_at DESC, id DESC`, which every feed query and every cursor in the repository uses. */
module Keyset {
  import opened Options

  /** The sort key of a row: its timestamp, ties broken by its id. */
  datatype Key = Key(time: int, id: nat)

  /** `a` is listed before `b`. */
  predicate Above(a: Key, b: Key) {
    a.time > b.time || (a.time == b.time && a.id > b.id)
  }

  /** The row lies strictly below the cursor; no cursor admits every row. */
  predicate BelowCursor(cursor: Option<Key>, k: Key) {
    cursor.None? || Above(cursor.value, k)
  }

  ghost predicate IsDescending(s: seq<Key>) {
    forall i, j :: 0 <= i < j < |s| ==> Above(s[i], s[j])
  }

  lemma {:induction false} NewestExists(ks: set<Key>)
    requires ks != {}
    ensures exists k :: k in ks && forall x :: x in ks ==> x == k || Above(k, x)
  {
    var k :| k in ks;
    var rest := ks - {k};
    assert ks == rest + {k};
    if rest != {} {
      NewestExists(rest);
      var m :| m in rest && forall x :: x in rest ==> x == m || Above(m, x);
      if Above(k, m) {
        assert forall x :: x in ks ==> x == k || Above(k, x);
      } else {
        assert forall x :: x in ks ==> x == m || Above(m, x);
      }
    }
  }

  function Newest(ks: set<Key>): (k: Key)
    requires ks != {}
    ensures k in ks && forall x :: x in ks ==> x == k || Above(k, x)
  {
    NewestExists(ks);
    var k :| k in ks && forall x :: x in ks ==> x == k || Above(k, x);
    k
  }

  /** ORDER BY created_at DESC, id DESC. */
  function Ordered(ks: set<Key>): (s: seq<Key>)
    ensures forall k :: k in s <==> k in ks
    ensures IsDescending(s) && |s| == |ks|
    decreases ks
  {
    if ks == {} then []
    else
      var k := Newest(ks);
      [k] + Ordered(ks - {k})
  }

  /** The first `n` entries of a list, as LIMIT and slicing do. */
  function Take<T>(s: seq<T>, n: nat): (r: seq<T>)
    ensures r <= s && |r| == (if n <= |s| then n else |s|)
  {
    if n <= |s| then s[..n] else s
  }

  function Below(ks: set<Key>, cursor: Option<Key>): set<Key> {
    set k | k in ks && BelowCursor(cursor, k)
  }

  /** One keyset query: filter by cursor, order, limit. */
  function Page(ks: set<Key>, cursor: Option<Key>, n: nat): (s: seq<Key>) {
    Take(Ordered(Below(ks, cursor)), n)
  }

  /** The order is total, so a descending list is determined by its elements. */
  lemma {:induction false} DescendingUnique(s: seq<Key>, t: seq<Key>)
    requires IsDescending(s) && IsDescending(t) && |s| == |t|
    requires forall k :: k in s <==> k in t
    ensures s == t
  {
    if s != [] {
      assert s[0] in t && t[0] in s;
      assert s[0] == t[0];
      forall k
        ensures k in s[1..] <==> k in t[1..]
      {
        InTail(s, k);
        InTail(t, k);
      }
      DescendingUnique(s[1..], t[1..]);
      assert s == [s[0]] + s[1..] && t == [t[0]] + t[1..];
    }
  }

  lemma InTail(s: seq<Key>, k: Key)
    requires s != [] && IsDescending(s)
    ensures k in s[1..] <==> k in s && k != s[0]
  {
    assert s == [s[0]] + s[1..];
    if k in s[1..] {
      var i :| 0 <= i < |s[1..]| && s[1..][i] == k;
      assert Above(s[0], s[i + 1]);
    }
  }

  /** What LIMIT leaves out is below everything it keeps; nothing is left out when the rows fit. */
  lemma TakeKeepsNewest(ks: set<Key>, n: nat, out: Key)
    requires out in ks && out !in Take(Ordered(ks), n)
    ensures |ks| > n && |Take(Ordered(ks), n)| == n
    ensures forall k :: k in Take(Ordered(ks), n) ==> Above(k, out)
  {
    SplitAt(Ordered(ks), n, out);
  }

  lemma SplitAt(s: seq<Key>, n: nat, out: Key)
    requires IsDescending(s) && out in s && out !in Take(s, n)
    ensures |s| > n
    ensures forall k :: k in s[..n] ==> Above(k, out)
  {
    var i :| 0 <= i < |s| && s[i] == out;
    assert forall j :: 0 <= j < |Take(s, n)| ==> s[j] == Take(s, n)[j];
  }
}
