/** The notification list: likes of one liker are folded into one entry, everything else is shown as it is. */
module Notifications {
  import opened Options
  import opened Sorting

  /** The payload fields that the grouping reads; an absent field and an empty one are both falsy. */
  datatype Payload = Payload(likerId: string, likerHandle: string, postId: string)

  datatype Row = Row(id: string, kind: string, payload: Payload, readAt: Option<int>, createdAt: int)

  datatype PostRef = PostRef(id: string, body: string)

  /** A presented entry: a row as it is, or the likes of one liker under the newest of them. */
  datatype Entry = Plain(row: Row) | Grouped(newest: Row, posts: seq<PostRef>, readAt: Option<int>)

  /** An entry's place in the output. */
  datatype Slot = LikeSlot(key: string) | OtherSlot(key: string)

  predicate IsLike(r: Row) {
    r.kind == "post_liked"
  }

  function LikeKey(r: Row): string {
    if r.payload.likerId != "" then r.payload.likerId
    else if r.payload.likerHandle != "" then r.payload.likerHandle
    else r.id
  }

  function LikeOf(key: string): Row -> bool {
    (r: Row) => IsLike(r) && LikeKey(r) == key
  }

  function NotLike(): Row -> bool {
    (r: Row) => !IsLike(r)
  }

  function LikeKeys(items: seq<Row>): set<string> {
    set r | r in items && IsLike(r) :: LikeKey(r)
  }

  /** The rows that open an entry: every other row, and the first like of each liker. */
  function FirstRows(items: seq<Row>): seq<Row> {
    if items == [] then []
    else
      var before, last := items[..|items| - 1], items[|items| - 1];
      FirstRows(before) + if IsLike(last) && LikeKey(last) in LikeKeys(before) then [] else [last]
  }

  /** The posts of a group in order of first appearance. */
  function PostIds(group: seq<Row>): seq<string> {
    if group == [] then []
    else
      var before, id := PostIds(group[..|group| - 1]), group[|group| - 1].payload.postId;
      if id == "" || id in before then before else before + [id]
  }

  function Body(previews: map<string, string>, id: string): string {
    if id in previews then previews[id] else ""
  }

  function Refs(previews: map<string, string>, ids: seq<string>): (r: seq<PostRef>)
    ensures |r| == |ids| && forall i :: 0 <= i < |ids| ==> r[i] == PostRef(ids[i], Body(previews, ids[i]))
  {
    if ids == [] then [] else Refs(previews, ids[..|ids| - 1]) + [PostRef(ids[|ids| - 1], Body(previews, ids[|ids| - 1]))]
  }

  /** Unread as soon as one member is. */
  function GroupReadAt(group: seq<Row>): Option<int> {
    if group == [] || exists r :: r in group && r.readAt.None? then None else group[0].readAt
  }

  /** The rows behind the entry that `first` opens. */
  function Members(items: seq<Row>, first: Row): seq<Row> {
    if IsLike(first) then Filter(LikeOf(LikeKey(first)), items) else [first]
  }

  function Show(items: seq<Row>, previews: map<string, string>, first: Row): Entry {
    if !IsLike(first) then Plain(first)
    else
      var group := Members(items, first);
      Grouped(first, Refs(previews, PostIds(group)), GroupReadAt(group))
  }

  ghost predicate DistinctRows(items: seq<Row>) {
    forall i, j :: 0 <= i < j < |items| ==> items[i].id != items[j].id
  }

  function SlotOf(r: Row): Slot {
    if IsLike(r) then LikeSlot(LikeKey(r)) else OtherSlot(r.id)
  }

  // ----- The presentation loops

  lemma PrefixSnoc(items: seq<Row>, i: nat)
    requires i < |items|
    ensures items[..i + 1] == items[..i] + [items[i]]
    ensures items[..i + 1][..i] == items[..i]
  {
  }

  lemma LikeKeysSnoc(items: seq<Row>, i: nat)
    requires i < |items|
    ensures LikeKeys(items[..i + 1]) == LikeKeys(items[..i]) + if IsLike(items[i]) then {LikeKey(items[i])} else {}
  {
    PrefixSnoc(items, i);
  }

  /** The dictionary of groups holds, per liker, the likes seen so far in order. */
  ghost predicate GroupsOk(groups: map<string, seq<Row>>, items: seq<Row>) {
    && groups.Keys == LikeKeys(items)
    && forall k :: k in groups ==> groups[k] == Filter(LikeOf(k), items)
  }

  lemma GroupsNext(groups: map<string, seq<Row>>, items: seq<Row>, i: nat)
    requires i < |items| && GroupsOk(groups, items[..i])
    ensures var k := LikeKey(items[i]);
      var next := if !IsLike(items[i]) then groups
                  else groups[k := (if k in groups then groups[k] else []) + [items[i]]];
      GroupsOk(next, items[..i + 1])
  {
    var k := LikeKey(items[i]);
    PrefixSnoc(items, i);
    LikeKeysSnoc(items, i);
    forall key: string
      ensures Filter(LikeOf(key), items[..i + 1]) ==
              Filter(LikeOf(key), items[..i]) + if LikeOf(key)(items[i]) then [items[i]] else []
    {
      FilterSnoc(LikeOf(key), items[..i], items[i]);
    }
    if k !in groups {
      NoLikes(items[..i], k);
    }
  }

  lemma NoLikes(items: seq<Row>, key: string)
    requires key !in LikeKeys(items)
    ensures Filter(LikeOf(key), items) == []
  {
    forall r | r in items
      ensures !LikeOf(key)(r)
    {
      assert IsLike(r) ==> LikeKey(r) in LikeKeys(items);
    }
    FilterNone(LikeOf(key), items);
  }

  ghost predicate OthersOk(others: map<string, Row>, items: seq<Row>) {
    forall r :: r in items && !IsLike(r) ==> r.id in others && others[r.id] == r
  }

  ghost predicate OrderOk(order: seq<Slot>, first: seq<Row>) {
    |order| == |first| && forall j :: 0 <= j < |first| ==> order[j] == SlotOf(first[j])
  }

  lemma OthersNext(others: map<string, Row>, items: seq<Row>, i: nat)
    requires i < |items| && DistinctRows(items) && OthersOk(others, items[..i])
    ensures OthersOk(if IsLike(items[i]) then others else others[items[i].id := items[i]], items[..i + 1])
  {
    PrefixSnoc(items, i);
    forall r | r in items[..i]
      ensures r.id != items[i].id
    {
      var j :| 0 <= j < i && items[j] == r;
    }
  }

  lemma OrderNext(order: seq<Slot>, items: seq<Row>, i: nat)
    requires i < |items| && OrderOk(order, FirstRows(items[..i]))
    ensures OrderOk(if IsLike(items[i]) && LikeKey(items[i]) in LikeKeys(items[..i]) then order
                    else order + [SlotOf(items[i])], FirstRows(items[..i + 1]))
  {
    PrefixSnoc(items, i);
    assert FirstRows(items[..i]) + [] == FirstRows(items[..i]);
  }

  /** The first loop: groups in a dictionary, places in a list. */
  method CollectRows(items: seq<Row>) returns (groups: map<string, seq<Row>>, order: seq<Slot>, others: map<string, Row>)
    requires DistinctRows(items)
    ensures GroupsOk(groups, items) && OrderOk(order, FirstRows(items)) && OthersOk(others, items)
  {
    groups, order, others := map[], [], map[];
    assert LikeKeys([]) == {};
    for i := 0 to |items|
      invariant GroupsOk(groups, items[..i])
      invariant OrderOk(order, FirstRows(items[..i]))
      invariant OthersOk(others, items[..i])
    {
      var item := items[i];
      GroupsNext(groups, items, i);
      OrderNext(order, items, i);
      OthersNext(others, items, i);
      if IsLike(item) {
        var key := LikeKey(item);
        if key !in groups {
          groups, order := groups[key := []], order + [LikeSlot(key)];
        }
        groups := groups[key := groups[key] + [item]];
      } else {
        others := others[item.id := item];
        order := order + [OtherSlot(item.id)];
      }
    }
    assert items[..|items|] == items;
  }

  /** The posts of one group, each once. */
  method GroupPosts(group: seq<Row>, previews: map<string, string>) returns (posts: seq<PostRef>)
    ensures posts == Refs(previews, PostIds(group))
  {
    posts := [];
    var seen: set<string> := {};
    for i := 0 to |group|
      invariant posts == Refs(previews, PostIds(group[..i]))
      invariant forall id :: id in seen <==> id in PostIds(group[..i])
    {
      PrefixSnoc(group, i);
      var id := group[i].payload.postId;
      if id == "" || id in seen { continue; }
      RefsSnoc(previews, PostIds(group[..i]), id);
      seen := seen + {id};
      posts := posts + [PostRef(id, Body(previews, id))];
    }
    assert group[..|group|] == group;
  }

  lemma RefsSnoc(previews: map<string, string>, ids: seq<string>, id: string)
    ensures Refs(previews, ids + [id]) == Refs(previews, ids) + [PostRef(id, Body(previews, id))]
  {
    assert (ids + [id])[..|ids|] == ids;
  }

  /** The first row of a liker opens the liker's group. */
  lemma {:induction false} FirstOpensGroup(items: seq<Row>, r: Row)
    requires r in FirstRows(items)
    ensures r in items
    ensures IsLike(r) ==> Filter(LikeOf(LikeKey(r)), items) != [] && Filter(LikeOf(LikeKey(r)), items)[0] == r
  {
    var before, last := items[..|items| - 1], items[|items| - 1];
    assert items == before + [last];
    FilterSnoc(LikeOf(LikeKey(r)), before, last);
    if r in FirstRows(before) {
      FirstOpensGroup(before, r);
    } else if IsLike(r) {
      NoLikes(before, LikeKey(r));
    }
  }

  /** What the dictionaries hold for a row that opens an entry. */
  lemma SlotFound(items: seq<Row>, groups: map<string, seq<Row>>, others: map<string, Row>, r: Row)
    requires GroupsOk(groups, items) && OthersOk(others, items) && r in FirstRows(items)
    ensures if IsLike(r) then
              && LikeKey(r) in groups && groups[LikeKey(r)] == Filter(LikeOf(LikeKey(r)), items)
              && groups[LikeKey(r)] != [] && groups[LikeKey(r)][0] == r
            else r.id in others && others[r.id] == r
  {
    FirstOpensGroup(items, r);
  }

  method GroupEntry(group: seq<Row>, previews: map<string, string>) returns (e: Entry)
    requires group != []
    ensures e == Grouped(group[0], Refs(previews, PostIds(group)), GroupReadAt(group))
  {
    var posts := GroupPosts(group, previews);
    var unread := exists r :: r in group && r.readAt.None?;
    e := Grouped(group[0], posts, if unread then None else group[0].readAt);
  }

  method Present(ghost items: seq<Row>, groups: map<string, seq<Row>>, others: map<string, Row>, slot: Slot,
                 previews: map<string, string>, ghost first: Row) returns (e: Entry)
    requires GroupsOk(groups, items) && OthersOk(others, items) && first in FirstRows(items) && slot == SlotOf(first)
    ensures e == Show(items, previews, first)
  {
    SlotFound(items, groups, others, first);
    match slot
    case OtherSlot(key) =>
      e := Plain(others[key]);
    case LikeSlot(key) =>
      e := GroupEntry(groups[key], previews);
  }

  method PresentNotifications(items: seq<Row>, previews: map<string, string>) returns (presented: seq<Entry>)
    requires DistinctRows(items)
    ensures var first := FirstRows(items);
      |presented| == |first| && forall j :: 0 <= j < |first| ==> presented[j] == Show(items, previews, first[j])
  {
    var groups, order, others := CollectRows(items);
    ghost var first := FirstRows(items);
    presented := [];
    for j := 0 to |order|
      invariant |presented| == j && forall k :: 0 <= k < j ==> presented[k] == Show(items, previews, first[k])
    {
      var e := Present(items, groups, others, order[j], previews, first[j]);
      presented := presented + [e];
    }
  }

  // ----- What the grouping conserves

  /** Every notification that is not a like opens exactly one entry of its own, in the original order. */
  lemma {:induction false} OthersOnce(items: seq<Row>)
    ensures Filter(NotLike(), FirstRows(items)) == Filter(NotLike(), items)
  {
    if items != [] {
      var before, last := items[..|items| - 1], items[|items| - 1];
      assert items == before + [last];
      OthersOnce(before);
      FilterSnoc(NotLike(), before, last);
      FilterSnoc(NotLike(), FirstRows(before), last);
      assert FirstRows(before) + [] == FirstRows(before);
    }
  }

  /** All likes of one liker form exactly one entry, opened by the first of them. */
  lemma {:induction false} LikesOnce(items: seq<Row>, key: string)
    ensures var group := Filter(LikeOf(key), items);
      Filter(LikeOf(key), FirstRows(items)) == if group == [] then [] else [group[0]]
  {
    if items != [] {
      var before, last := items[..|items| - 1], items[|items| - 1];
      assert items == before + [last];
      LikesOnce(before, key);
      FilterSnoc(LikeOf(key), before, last);
      FilterSnoc(LikeOf(key), FirstRows(before), last);
      assert FirstRows(before) + [] == FirstRows(before);
      FilterMembers(LikeOf(key), before);
      if key !in LikeKeys(before) {
        NoLikes(before, key);
      } else {
        var r :| r in before && IsLike(r) && LikeKey(r) == key;
        assert LikeOf(key)(r);
      }
    }
  }

  /** The post list of a group has no duplicates and holds exactly the posts its members name. */
  lemma {:induction false} PostsConserved(group: seq<Row>)
    ensures Distinct(PostIds(group))
    ensures forall id :: id in PostIds(group) <==> id != "" && exists r :: r in group && r.payload.postId == id
  {
    if group != [] {
      var before, last := group[..|group| - 1], group[|group| - 1];
      assert group == before + [last];
      PostsConserved(before);
      assert forall r :: r in group <==> r in before || r == last;
    }
  }

  /** A group is unread exactly when one of its members is. */
  lemma GroupUnread(items: seq<Row>, previews: map<string, string>, first: Row)
    requires first in FirstRows(items) && IsLike(first)
    ensures var e := Show(items, previews, first);
      && e.Grouped? && e.newest == first
      && (e.readAt.None? <==> exists r :: r in items && LikeOf(LikeKey(first))(r) && r.readAt.None?)
  {
    FirstOpensGroup(items, first);
    var group := Filter(LikeOf(LikeKey(first)), items);
    FilterMembers(LikeOf(LikeKey(first)), items);
    assert group[0] in group;
  }

  /** The number of rows behind an entry. */
  function RowsBehind(items: seq<Row>, first: Row): nat {
    |Members(items, first)|
  }

  function TotalBehind(items: seq<Row>, firsts: seq<Row>): nat {
    if firsts == [] then 0
    else TotalBehind(items, firsts[..|firsts| - 1]) + RowsBehind(items, firsts[|firsts| - 1])
  }

  lemma {:induction false} TotalNext(before: seq<Row>, last: Row, firsts: seq<Row>)
    ensures TotalBehind(before + [last], firsts) == TotalBehind(before, firsts)
            + if IsLike(last) then |Filter(LikeOf(LikeKey(last)), firsts)| else 0
  {
    if firsts != [] {
      var rest, r := firsts[..|firsts| - 1], firsts[|firsts| - 1];
      assert firsts == rest + [r];
      TotalNext(before, last, rest);
      FilterSnoc(LikeOf(LikeKey(r)), before, last);
      FilterSnoc(LikeOf(LikeKey(last)), rest, r);
    }
  }

  /** The row joins the entry of an earlier one. */
  predicate Joins(before: seq<Row>, r: Row) {
    IsLike(r) && LikeKey(r) in LikeKeys(before)
  }

  lemma TotalGrows(before: seq<Row>, last: Row)
    ensures TotalBehind(before + [last], FirstRows(before)) ==
            TotalBehind(before, FirstRows(before)) + if Joins(before, last) then 1 else 0
  {
    TotalNext(before, last, FirstRows(before));
    if IsLike(last) {
      var key := LikeKey(last);
      LikesOnce(before, key);
      if Joins(before, last) {
        SomeLike(before, key);
      } else {
        NoLikes(before, key);
      }
    }
  }

  lemma SomeLike(items: seq<Row>, key: string)
    requires key in LikeKeys(items)
    ensures Filter(LikeOf(key), items) != []
  {
    FilterMembers(LikeOf(key), items);
    var r :| r in items && IsLike(r) && LikeKey(r) == key;
    assert LikeOf(key)(r);
  }

  lemma OpenerAlone(before: seq<Row>, last: Row)
    requires !Joins(before, last)
    ensures |Members(before + [last], last)| == 1
  {
    if IsLike(last) {
      NoLikes(before, LikeKey(last));
      FilterSnoc(LikeOf(LikeKey(last)), before, last);
    }
  }

  lemma FirstRowsSnoc(before: seq<Row>, last: Row)
    ensures FirstRows(before + [last]) == if Joins(before, last) then FirstRows(before) else FirstRows(before) + [last]
  {
    assert (before + [last])[..|before|] == before;
    assert FirstRows(before) + [] == FirstRows(before);
  }

  lemma TotalSnoc(items: seq<Row>, firsts: seq<Row>, r: Row)
    ensures TotalBehind(items, firsts + [r]) == TotalBehind(items, firsts) + |Members(items, r)|
  {
    assert (firsts + [r])[..|firsts|] == firsts;
  }

  /** No row is lost and none counted twice: the entries stand for as many rows as there are. */
  lemma {:induction false} RowsConserved(items: seq<Row>)
    ensures TotalBehind(items, FirstRows(items)) == |items|
  {
    if items != [] {
      var before, last := items[..|items| - 1], items[|items| - 1];
      assert items == before + [last];
      RowsConserved(before);
      TotalGrows(before, last);
      FirstRowsSnoc(before, last);
      if !Joins(before, last) {
        OpenerAlone(before, last);
        TotalSnoc(items, FirstRows(before), last);
      }
    }
  }
}
