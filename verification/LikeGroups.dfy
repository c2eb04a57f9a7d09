/** The like entries in terms of the liker: who shares an entry, where it stands, and what it shows. */
module LikeGroups {
  import opened Options
  import opened Sorting
  import opened Notifications

  /** Two rows are shown by one entry. */
  ghost predicate Together(items: seq<Row>, a: Row, b: Row) {
    exists first :: first in FirstRows(items) && a in Members(items, first) && b in Members(items, first)
  }

  lemma OpenersOf(items: seq<Row>, r: Row)
    requires r in items && IsLike(r)
    ensures exists first :: first in FirstRows(items) && IsLike(first) && LikeKey(first) == LikeKey(r)
  {
    var key := LikeKey(r);
    var group := Filter(LikeOf(key), items);
    FilterMembers(LikeOf(key), items);
    assert LikeOf(key)(r) && r in group;
    LikesOnce(items, key);
    FilterMembers(LikeOf(key), FirstRows(items));
    var first := group[0];
    assert Filter(LikeOf(key), FirstRows(items)) == [first];
    assert first in Filter(LikeOf(key), FirstRows(items));
  }

  lemma TogetherIsKey(items: seq<Row>, a: Row, b: Row)
    requires a in items && b in items && a.kind == "post_liked" && b.kind == "post_liked"
    ensures Together(items, a, b) <==> LikeKey(a) == LikeKey(b)
  {
    forall first | first in FirstRows(items)
      ensures a in Members(items, first) <==> IsLike(first) && LikeKey(first) == LikeKey(a)
      ensures b in Members(items, first) <==> IsLike(first) && LikeKey(first) == LikeKey(b)
    {
      FilterMembers(LikeOf(LikeKey(first)), items);
    }
    OpenersOf(items, a);
  }

  /** Likes are folded by the id of the liker; without one by the handle; a like with neither stands alone under its own
      id. One name space holds all three. */
  lemma LikesTogether(items: seq<Row>, a: Row, b: Row)
    requires a in items && b in items && a.kind == "post_liked" && b.kind == "post_liked"
    ensures a.payload.likerId != "" && b.payload.likerId != "" ==>
      (Together(items, a, b) <==> a.payload.likerId == b.payload.likerId)
    ensures a.payload.likerId == "" == b.payload.likerId && a.payload.likerHandle != "" && b.payload.likerHandle != "" ==>
      (Together(items, a, b) <==> a.payload.likerHandle == b.payload.likerHandle)
    ensures a.payload.likerId != "" && b.payload.likerId == "" && b.payload.likerHandle != "" ==>
      (Together(items, a, b) <==> a.payload.likerId == b.payload.likerHandle)
    ensures a.payload.likerId == "" == a.payload.likerHandle && b.payload.likerId == "" == b.payload.likerHandle ==>
      (Together(items, a, b) <==> a.id == b.id)
    ensures a.payload.likerId != "" && b.payload.likerId == "" == b.payload.likerHandle ==>
      (Together(items, a, b) <==> a.payload.likerId == b.id)
    ensures a.payload.likerId == "" && a.payload.likerHandle != "" && b.payload.likerId == "" == b.payload.likerHandle ==>
      (Together(items, a, b) <==> a.payload.likerHandle == b.id)
  {
    TogetherIsKey(items, a, b);
  }

  /** Any other notification shares its entry with none. */
  lemma OthersAlone(items: seq<Row>, a: Row, b: Row)
    requires a in items && b in items && a.kind != "post_liked"
    ensures Together(items, a, b) <==> a == b
  {
    forall first | first in FirstRows(items)
      ensures a in Members(items, first) <==> first == a
    {
      FilterMembers(LikeOf(LikeKey(first)), items);
    }
    OthersOnce(items);
    FilterMembers(NotLike(), FirstRows(items));
    FilterMembers(NotLike(), items);
    assert NotLike()(a);
  }

  // ----- The entry of one liker

  /** The row is a like by `name`: its liker id, without one its handle, without either its own id. */
  function LikedBy(name: string): Row -> bool {
    (r: Row) =>
      r.kind == "post_liked"
      && ((r.payload.likerId != "" && r.payload.likerId == name)
          || (r.payload.likerId == "" && r.payload.likerHandle != "" && r.payload.likerHandle == name)
          || (r.payload.likerId == "" && r.payload.likerHandle == "" && r.id == name))
  }

  lemma {:induction false} SameFilter(f: Row -> bool, g: Row -> bool, items: seq<Row>)
    requires forall r :: f(r) <==> g(r)
    ensures Filter(f, items) == Filter(g, items)
  {
    if items != [] {
      SameFilter(f, g, items[1..]);
    }
  }

  lemma LikedByIsKey(name: string, items: seq<Row>)
    ensures Filter(LikedBy(name), items) == Filter(LikeOf(name), items)
  {
    SameFilter(LikedBy(name), LikeOf(name), items);
  }

  /** Place `a` is where the list first names the post. */
  ghost predicate FirstNamed(group: seq<Row>, id: string, a: nat) {
    a < |group| && group[a].payload.postId == id && forall c :: 0 <= c < a ==> group[c].payload.postId != id
  }

  lemma {:induction false} NamedFirst(group: seq<Row>, id: string)
    requires id in PostIds(group)
    ensures exists a :: FirstNamed(group, id, a)
  {
    var before, last := group[..|group| - 1], group[|group| - 1];
    PostsConserved(before);
    if id in PostIds(before) {
      NamedFirst(before, id);
      var a :| FirstNamed(before, id, a);
      assert FirstNamed(group, id, a);
    } else {
      assert forall c :: 0 <= c < |before| ==> before[c] in before && group[c] == before[c];
      assert FirstNamed(group, id, |before|);
    }
  }

  /** The posts of an entry come in the order in which its rows first name them. */
  lemma {:induction false} PostsInOrder(group: seq<Row>, i: nat, j: nat, a: nat, b: nat)
    requires i < j < |PostIds(group)|
    requires FirstNamed(group, PostIds(group)[i], a) && FirstNamed(group, PostIds(group)[j], b)
    ensures a < b
  {
    var before, last := group[..|group| - 1], group[|group| - 1];
    assert group == before + [last];
    var ids := PostIds(before);
    ShorterNamed(before, last, ids[i], a);
    if j < |ids| {
      ShorterNamed(before, last, ids[j], b);
      PostsInOrder(before, i, j, a, b);
    } else {
      NotNamed(before, last.payload.postId);
      assert forall c :: 0 <= c < |before| ==> group[c] == before[c];
    }
  }

  lemma NotNamed(group: seq<Row>, id: string)
    requires id != "" && id !in PostIds(group)
    ensures forall c :: 0 <= c < |group| ==> group[c].payload.postId != id
  {
    PostsConserved(group);
    assert forall c :: 0 <= c < |group| ==> group[c] in group;
  }

  lemma ShorterNamed(before: seq<Row>, last: Row, id: string, a: nat)
    requires id in PostIds(before) && FirstNamed(before + [last], id, a)
    ensures FirstNamed(before, id, a)
  {
    var group := before + [last];
    PostsConserved(before);
    var r :| r in before && r.payload.postId == id;
    var c :| 0 <= c < |before| && before[c] == r;
    assert group[c] == r;
    assert a <= c;
    assert forall k :: 0 <= k < |before| ==> group[k] == before[k];
  }

  predicate ShowsPost(posts: seq<PostRef>, id: string) {
    exists k :: 0 <= k < |posts| && posts[k].id == id
  }

  /** Each post that a row of the group names, once, with its preview. */
  ghost predicate PostsOf(group: seq<Row>, previews: map<string, string>, posts: seq<PostRef>) {
    && (forall id :: ShowsPost(posts, id) <==> id != "" && exists r :: r in group && r.payload.postId == id)
    && (forall k, l :: 0 <= k < l < |posts| ==> posts[k].id != posts[l].id)
    && (forall k :: 0 <= k < |posts| ==> posts[k].body == if posts[k].id in previews then previews[posts[k].id] else "")
  }

  lemma RefsArePosts(group: seq<Row>, previews: map<string, string>)
    ensures PostsOf(group, previews, Refs(previews, PostIds(group)))
  {
    var ids, posts := PostIds(group), Refs(previews, PostIds(group));
    PostsConserved(group);
    assert forall k :: 0 <= k < |posts| ==> posts[k].id == ids[k];
    forall id
      ensures ShowsPost(posts, id) <==> id in ids
    {
      if id in ids {
        var k :| 0 <= k < |ids| && ids[k] == id;
        assert posts[k].id == id;
      }
    }
  }

  /** The likes by one name form exactly one entry. It is opened by the first of them, shows the posts they name, each once
      and with its preview, and is unread exactly when one of them is. */
  lemma LikerEntry(items: seq<Row>, previews: map<string, string>, name: string)
    requires exists r :: r in items && LikedBy(name)(r)
    ensures var likes := Filter(LikedBy(name), items);
      && likes != [] && Filter(LikedBy(name), FirstRows(items)) == [likes[0]]
      && var e := Show(items, previews, likes[0]);
      && e.Grouped? && e.newest == likes[0] && PostsOf(likes, previews, e.posts)
      && (if exists r :: r in likes && r.readAt.None? then e.readAt == None else e.readAt == likes[0].readAt)
  {
    var likes := Filter(LikedBy(name), items);
    LikedByIsKey(name, items);
    LikedByIsKey(name, FirstRows(items));
    FilterMembers(LikedBy(name), items);
    LikesOnce(items, name);
    assert likes[0] in likes && LikedBy(name)(likes[0]);
    assert Members(items, likes[0]) == likes;
    RefsArePosts(likes, previews);
  }

  /** Any other notification is shown as it is. */
  lemma OtherEntry(items: seq<Row>, previews: map<string, string>, r: Row)
    requires r.kind != "post_liked"
    ensures Show(items, previews, r) == Plain(r)
  {
  }

  // ----- The order of the entries

  lemma {:induction false} OpenersAreRows(items: seq<Row>, r: Row)
    requires r in FirstRows(items)
    ensures r in items
  {
    FirstOpensGroup(items, r);
  }

  /** The entries keep the order of the rows that open them. */
  lemma {:induction false} EntriesInOrder(items: seq<Row>, i: nat, j: nat)
    requires i < j < |FirstRows(items)|
    ensures exists a, b :: 0 <= a < b < |items| && items[a] == FirstRows(items)[i] && items[b] == FirstRows(items)[j]
  {
    var before, last := items[..|items| - 1], items[|items| - 1];
    if j < |FirstRows(before)| {
      EntriesInOrder(before, i, j);
      var a, b :| 0 <= a < b < |before| && before[a] == FirstRows(before)[i] && before[b] == FirstRows(before)[j];
      assert items[a] == before[a] && items[b] == before[b];
    } else {
      OpenersAreRows(before, FirstRows(before)[i]);
      var a :| 0 <= a < |before| && before[a] == FirstRows(before)[i];
      assert items[a] == before[a] && items[|items| - 1] == last;
    }
  }
}
