/** Stable sorting by a key order, as Python's `sort` and `sorted` do it. */
module Sorting {

  /** A total preorder: elements may tie. */
  ghost predicate TotalPreorder<T(!new)>(le: (T, T) -> bool) {
    && (forall a, b :: le(a, b) || le(b, a))
    && (forall a, b, c :: le(a, b) && le(b, c) ==> le(a, c))
  }

  ghost predicate SortedBy<T>(le: (T, T) -> bool, s: seq<T>) {
    forall i, j :: 0 <= i < j < |s| ==> le(s[i], s[j])
  }

  /** Places `x` before the first element it may precede. */
  function Insert<T>(le: (T, T) -> bool, x: T, s: seq<T>): seq<T> {
    if s == [] || le(x, s[0]) then [x] + s else [s[0]] + Insert(le, x, s[1..])
  }

  function StableSort<T>(le: (T, T) -> bool, s: seq<T>): seq<T> {
    if s == [] then [] else Insert(le, s[0], StableSort(le, s[1..]))
  }

  function Filter<T>(f: T -> bool, s: seq<T>): seq<T> {
    if s == [] then []
    else if f(s[0]) then [s[0]] + Filter(f, s[1..])
    else Filter(f, s[1..])
  }

  lemma {:induction false} InsertElements<T>(le: (T, T) -> bool, x: T, s: seq<T>)
    ensures multiset(Insert(le, x, s)) == multiset{x} + multiset(s)
    ensures |Insert(le, x, s)| == 1 + |s|
  {
    if s != [] && !le(x, s[0]) {
      InsertElements(le, x, s[1..]);
      assert s == [s[0]] + s[1..];
    }
  }

  lemma {:induction false} InsertSorted<T(!new)>(le: (T, T) -> bool, x: T, s: seq<T>)
    requires TotalPreorder(le) && SortedBy(le, s)
    ensures SortedBy(le, Insert(le, x, s))
  {
    if s != [] {
      if le(x, s[0]) {
        assert forall j :: 0 < j < |s| ==> le(s[0], s[j]);
        assert forall j :: 0 <= j < |s| ==> le(x, s[j]);
      } else {
        var rest := Insert(le, x, s[1..]);
        InsertSorted(le, x, s[1..]);
        InsertElements(le, x, s[1..]);
        forall j | 0 <= j < |rest|
          ensures le(s[0], rest[j])
        {
          assert rest[j] in multiset(rest);
          assert rest[j] == x || rest[j] in s[1..];
        }
      }
    }
  }

  /** The result is a sorted permutation. */
  lemma {:induction false} StableSortSorts<T(!new)>(le: (T, T) -> bool, s: seq<T>)
    requires TotalPreorder(le)
    ensures SortedBy(le, StableSort(le, s))
    ensures multiset(StableSort(le, s)) == multiset(s)
    ensures |StableSort(le, s)| == |s|
  {
    if s != [] {
      StableSortSorts(le, s[1..]);
      InsertSorted(le, s[0], StableSort(le, s[1..]));
      InsertElements(le, s[0], StableSort(le, s[1..]));
      assert s == [s[0]] + s[1..];
    }
  }

  lemma {:induction false} InsertFiltered<T>(le: (T, T) -> bool, f: T -> bool, x: T, s: seq<T>)
    requires f(x) ==> forall y :: y in s && f(y) ==> le(x, y)
    ensures Filter(f, Insert(le, x, s)) == if f(x) then [x] + Filter(f, s) else Filter(f, s)
  {
    if s == [] || le(x, s[0]) {
      assert ([x] + s)[1..] == s;
    } else {
      InsertFiltered(le, f, x, s[1..]);
      assert Insert(le, x, s)[1..] == Insert(le, x, s[1..]);
    }
  }

  lemma {:induction false} FilterMembers<T>(f: T -> bool, s: seq<T>)
    ensures forall y :: y in Filter(f, s) <==> y in s && f(y)
    ensures |Filter(f, s)| <= |s|
  {
    if s != [] {
      FilterMembers(f, s[1..]);
    }
  }

  lemma {:induction false} FilterAll<T>(f: T -> bool, s: seq<T>)
    requires forall y :: y in s ==> f(y)
    ensures Filter(f, s) == s
  {
    if s != [] {
      FilterAll(f, s[1..]);
    }
  }

  lemma {:induction false} FilterNone<T>(f: T -> bool, s: seq<T>)
    requires forall y :: y in s ==> !f(y)
    ensures Filter(f, s) == []
  {
    if s != [] {
      FilterNone(f, s[1..]);
    }
  }

  lemma {:induction false} FilterSnoc<T>(f: T -> bool, s: seq<T>, x: T)
    ensures Filter(f, s + [x]) == Filter(f, s) + if f(x) then [x] else []
  {
    if s == [] {
      assert s + [x] == [x];
    } else {
      assert (s + [x])[1..] == s[1..] + [x];
      FilterSnoc(f, s[1..], x);
    }
  }

  /** Stability: a selection of the input that is already in order keeps its order, ties included. */
  lemma {:induction false} StableSortKeeps<T(!new)>(le: (T, T) -> bool, f: T -> bool, s: seq<T>)
    requires TotalPreorder(le) && SortedBy(le, Filter(f, s))
    ensures Filter(f, StableSort(le, s)) == Filter(f, s)
  {
    if s != [] {
      var tail := Filter(f, s[1..]);
      var rest := StableSort(le, s[1..]);
      if f(s[0]) {
        assert Filter(f, s)[1..] == tail;
      }
      StableSortKeeps(le, f, s[1..]);
      StableSortSorts(le, s[1..]);
      FilterMembers(f, s[1..]);
      if f(s[0]) {
        forall y | y in rest && f(y)
          ensures le(s[0], y)
        {
          assert y in multiset(s[1..]);
          assert y in tail;
          var j :| 0 <= j < |tail| && tail[j] == y;
          assert Filter(f, s)[0] == s[0] && Filter(f, s)[j + 1] == y;
        }
      }
      InsertFiltered(le, f, s[0], rest);
    }
  }

  lemma MiddleCounts<T>(before: seq<T>, x: T, after: seq<T>)
    ensures multiset(before + [x] + after) == multiset(before + after) + multiset{x}
  {
    assert multiset(before + [x] + after) == multiset(before) + multiset{x} + multiset(after);
    assert multiset(before + after) == multiset(before) + multiset(after);
  }

  /** Any element of a permutation of `xs` can be taken out together with the head of `xs`. */
  lemma TakeOut<T>(xs: seq<T>, ys: seq<T>) returns (before: seq<T>, after: seq<T>)
    requires xs != [] && multiset(xs) == multiset(ys)
    ensures ys == before + [xs[0]] + after
    ensures multiset(xs[1..]) == multiset(before + after)
  {
    assert xs[0] in multiset(ys);
    var i :| 0 <= i < |ys| && ys[i] == xs[0];
    before, after := ys[..i], ys[i + 1..];
    assert ys == before + [xs[0]] + after;
    assert xs == [] + [xs[0]] + xs[1..] && [] + xs[1..] == xs[1..];
    MiddleCounts(before, xs[0], after);
    MiddleCounts([], xs[0], xs[1..]);
    CancelOne(multiset(xs[1..]), multiset(before + after), xs[0]);
  }

  lemma CancelOne<T>(a: multiset<T>, b: multiset<T>, x: T)
    requires a + multiset{x} == b + multiset{x}
    ensures a == b
  {
    assert a == a + multiset{x} - multiset{x};
    assert b == b + multiset{x} - multiset{x};
  }

  ghost predicate Distinct<T>(s: seq<T>) {
    forall i, j :: 0 <= i < j < |s| ==> s[i] != s[j]
  }

  lemma {:induction false} DistinctCounts<T>(s: seq<T>)
    ensures Distinct(s) <==> forall x :: multiset(s)[x] <= 1
  {
    if s != [] {
      var tail := s[1..];
      assert s == [s[0]] + tail;
      DistinctCounts(tail);
      assert s[0] in tail <==> multiset(tail)[s[0]] > 0;
      if Distinct(s) {
        assert forall i :: 0 <= i < |tail| ==> tail[i] == s[i + 1];
        assert s[0] !in tail;
      }
      if forall x :: multiset(s)[x] <= 1 {
        assert forall x :: multiset(tail)[x] <= multiset(s)[x];
        assert multiset(s)[s[0]] == 1 + multiset(tail)[s[0]];
        assert s[0] !in tail;
      }
    }
  }

  /** Sorting neither adds, drops nor repeats elements. */
  lemma StableSortMembers<T(!new)>(le: (T, T) -> bool, s: seq<T>)
    requires TotalPreorder(le)
    ensures forall x :: x in StableSort(le, s) <==> x in s
    ensures Distinct(s) ==> Distinct(StableSort(le, s))
  {
    StableSortSorts(le, s);
    DistinctCounts(s);
    DistinctCounts(StableSort(le, s));
    forall x
      ensures x in StableSort(le, s) <==> x in s
    {
      assert x in StableSort(le, s) <==> x in multiset(StableSort(le, s));
    }
  }

  lemma {:induction false} FilterDistinct<T>(f: T -> bool, s: seq<T>)
    requires Distinct(s)
    ensures Distinct(Filter(f, s))
  {
    if s != [] {
      FilterDistinct(f, s[1..]);
      FilterMembers(f, s[1..]);
    }
  }

  /** Elements that tie are equal. */
  ghost predicate NoTies<T>(le: (T, T) -> bool, s: seq<T>) {
    forall a, b :: a in s && b in s && le(a, b) && le(b, a) ==> a == b
  }

  lemma SortedHeads<T>(le: (T, T) -> bool, s: seq<T>, t: seq<T>)
    requires NoTies(le, s) && SortedBy(le, s) && SortedBy(le, t) && multiset(s) == multiset(t) && s != []
    requires forall a :: a in s ==> le(a, a)
    ensures t != [] && s[0] == t[0]
  {
    assert |s| == |multiset(s)| && |t| == |multiset(t)|;
    assert s[0] in multiset(t) && t[0] in multiset(s);
    var i :| 0 <= i < |t| && t[i] == s[0];
    var j :| 0 <= j < |s| && s[j] == t[0];
    assert le(t[0], s[0]) && le(s[0], t[0]);
  }

  lemma SameTails<T>(s: seq<T>, t: seq<T>)
    requires s != [] && t != [] && s[0] == t[0] && multiset(s) == multiset(t)
    ensures multiset(s[1..]) == multiset(t[1..])
  {
    assert s == [s[0]] + s[1..] && t == [t[0]] + t[1..];
    assert multiset(s[1..]) == multiset(s) - multiset{s[0]};
    assert multiset(t[1..]) == multiset(t) - multiset{t[0]};
  }

  lemma {:induction false} SortedUnique<T>(le: (T, T) -> bool, s: seq<T>, t: seq<T>)
    requires NoTies(le, s) && SortedBy(le, s) && SortedBy(le, t) && multiset(s) == multiset(t)
    requires forall a :: a in s ==> le(a, a)
    ensures s == t
  {
    if s == [] {
      assert |t| == |multiset(t)| == 0;
    } else {
      SortedHeads(le, s, t);
      SameTails(s, t);
      SortedUnique(le, s[1..], t[1..]);
      assert s == [s[0]] + s[1..] && t == [t[0]] + t[1..];
    }
  }
}
