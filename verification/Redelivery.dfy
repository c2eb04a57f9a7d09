/** Dispatching an event: the post's status machine, redelivery of the same event, and the commit order of a wave. */
module Redelivery {
  import opened Options
  import opened Sorting
  import opened SocialModel
  import opened Tasks
  import opened SocialRuns
  import opened FeedCache
  import opened Dispatch

  // ----- Status machine

  lemma TryKeepsPosts(t: Tables, task: Task, p: PostId, faults: set<Task>)
    requires task != Publish
    ensures Try(t, task, p, faults).posts == t.posts
  {
    TaskKeepsPosts(t, task, p);
  }

  lemma {:induction false} TryAllKeepsPosts(tasks: seq<Task>, t: Tables, p: PostId, faults: set<Task>)
    requires Publish !in tasks
    ensures TryAll(tasks, t, p, faults).posts == t.posts
  {
    if tasks != [] {
      TryKeepsPosts(t, tasks[0], p, faults);
      TryAllKeepsPosts(tasks[1..], Try(t, tasks[0], p, faults), p, faults);
    }
  }

  /** A task that raises whatever the other tables hold makes the sequence fail. */
  lemma {:induction false} SomeRaises(tasks: seq<Task>, t: Tables, p: PostId, faults: set<Task>)
    requires Publish !in tasks && Embed in tasks
    requires p !in t.posts || t.posts[p].status != Published
    ensures AnyRaises(tasks, t, p, faults)
  {
    if tasks[0] != Embed {
      TryKeepsPosts(t, tasks[0], p, faults);
      SomeRaises(tasks[1..], Try(t, tasks[0], p, faults), p, faults);
    }
  }

  /** `b` has the rows of `a`, except that the row of `p` may have another status. */
  ghost predicate OnlyStatus(a: map<PostId, Post>, b: map<PostId, Post>, p: PostId) {
    p in a && p in b && b == a[p := a[p].(status := b[p].status)]
  }

  lemma PublishOnlyStatus(t: Tables, p: PostId, faults: set<Task>)
    requires p in t.posts
    ensures var published := AfterPublish(t, p, faults);
      && OnlyStatus(t.posts, published.posts, p)
      && (published.posts[p].status == if Publishes(t, p, faults) then Published else t.posts[p].status)
  {
  }

  lemma FailOnlyStatus(t: Tables, p: PostId)
    requires p in t.posts
    ensures var failed := MarkFailed(t, p);
      && OnlyStatus(t.posts, failed.posts, p)
      && (failed.posts[p].status == if t.posts[p].status == Processing then Failed else t.posts[p].status)
  {
  }

  /** After any dispatch, with exceptions injected anywhere, an existing post is not left processing; a published post
      stays published; a processing post is published exactly when validate and publish ran without raising, even if
      later plans fail, and is marked failed otherwise. */
  lemma DispatchSettles(t: Tables, p: PostId, faults: set<Task>)
    requires p in t.posts
    ensures var (ok, final) := DispatchResult(PLANS, p, faults, t);
      && p in final.posts
      && SameIdentity(t.posts[p], final.posts[p]) && final.posts[p].deleted == t.posts[p].deleted
      && final.posts[p].status != Processing
      && (final.posts[p].status == Published <==> Publishes(t, p, faults) || t.posts[p].status == Published)
      && (ok ==> Publishes(t, p, faults))
      && (forall q :: q in t.posts && q != p ==> q in final.posts && final.posts[q] == t.posts[q])
  {
    DispatchShape(t, p, faults);
    LaterMembers(Publish);
    LaterMembers(Embed);
    var published := AfterPublish(t, p, faults);
    var done := TryAll(Later(), published, p, faults);
    TryAllKeepsPosts(Later(), published, p, faults);
    PublishOnlyStatus(t, p, faults);
    FailOnlyStatus(done, p);
    if published.posts[p].status != Published {
      SomeRaises(Later(), published, p, faults);
    }
  }

  /** Under any interleaving: once a run holds the commit of publish or mark-failed for an existing post, the post is
      not processing from there on, whatever the other requests and tasks do. */
  lemma SettledForever(before: seq<Event>, e: Event, after: seq<Event>, p: PostId)
    requires p in Run(EMPTY, before).posts
    requires e == RunTask(Publish, p) || e == Fail(p)
    ensures var t := Run(Step(Run(EMPTY, before), e), after);
      p in t.posts && t.posts[p].status != Processing
  {
    StepEvolves(Run(EMPTY, before), e);
    RunEvolves(Step(Run(EMPTY, before), e), after);
  }

  // ----- Which tables a task writes

  lemma TaskFrame(t: Tables, task: Task, p: PostId)
    requires task != Publish && Exec(t, task, p).Success?
    ensures var next := Exec(t, task, p).value;
      && next.users == t.users && next.posts == t.posts && next.follows == t.follows
      && (task != ApplyLabels ==> next.labels == t.labels)
      && (task != Embed ==> next.embeddings == t.embeddings)
      && (task != FanOut ==> next.feed == t.feed)
  {
    if task in REPLY_TASKS {
      CountFrame(t, t, ReplyCount, p);
      CountFrame(t, t, RepostCount, p);
      NoticeFrame(t, t, NotifyReply, p);
      NoticeFrame(t, t, NotifyRepost, p);
    }
  }

  /** Stored notifications stay; engagement rows stay, and only the recount of its own column changes a row's column. */
  lemma TaskGrows(t: Tables, task: Task, p: PostId)
    requires task != Publish && Exec(t, task, p).Success?
    ensures var next := Exec(t, task, p).value;
      && t.notices <= next.notices
      && (forall q :: q in t.engagement ==> q in next.engagement)
      && (forall q :: q in t.engagement && task != ReplyCount ==> next.engagement[q].replies == t.engagement[q].replies)
      && (forall q :: q in t.engagement && task != RepostCount ==> next.engagement[q].reposts == t.engagement[q].reposts)
  {
    match task
    case Validate =>
    case ApplyLabels =>
    case Embed =>
    case FanOut =>
    case ReplyCount =>
    case NotifyReply =>
    case RepostCount =>
    case NotifyRepost =>
    case EngagementInit =>
    case Publish =>
  }

  // ----- A task that has nothing left to do

  /** Executing it again would change nothing: it does not apply to the post, or its result is stored. */
  ghost predicate Quiet(t: Tables, task: Task, p: PostId) {
    match task
    case Validate => true
    case Publish => p in t.posts ==> t.posts[p].status == Published
    case ApplyLabels =>
      p in t.posts && !Blank(t.posts[p].body) && DetectNsfw(t.posts[p].body).Some? ==>
        var hit := DetectNsfw(t.posts[p].body).value;
        && (p, Nsfw) in t.labels && t.labels[(p, Nsfw)] == hit
        && (p, DoNotAmplify) in t.labels && t.labels[(p, DoNotAmplify)] == "nsfw:" + hit
    case Embed =>
      p in t.posts && t.posts[p].status == Published ==>
        p in t.embeddings && t.embeddings[p] == EmbedText(t.posts[p].body)
    case FanOut =>
      t.IsLive(p) ==> forall u :: u in Recipients(t, t.posts[p].author) ==> (u, p) in t.feed
    case ReplyCount =>
      t.IsLive(p) && t.posts[p].parent.Some? ==>
        var parent := t.posts[p].parent.value;
        parent in t.engagement && t.engagement[parent].replies == |Replies(t, parent)|
    case RepostCount =>
      t.IsLive(p) && t.posts[p].repostOf.Some? ==>
        var original := t.posts[p].repostOf.value;
        original in t.engagement && t.engagement[original].reposts == |Reposts(t, original)|
    case NotifyReply =>
      t.IsLive(p) && t.posts[p].parent.Some? ==>
        var parent := t.posts[p].parent.value;
        parent in t.posts && t.posts[parent].author != t.posts[p].author ==> ReplyNoticed(t, t.posts[parent].author, p)
    case NotifyRepost =>
      t.IsLive(p) && t.posts[p].repostOf.Some? ==>
        var original := t.posts[p].repostOf.value;
        original in t.posts && t.posts[original].author != t.posts[p].author ==>
          RepostNoticed(t, t.posts[original].author, p)
    case EngagementInit =>
      p in t.posts && t.posts[p].status == Published ==> p in t.engagement
  }

  lemma QuietIsFixed(t: Tables, task: Task, p: PostId)
    requires Quiet(t, task, p)
    ensures Try(t, task, p, {}) == t
  {
    match task
    case Validate =>
    case Publish =>
    case ApplyLabels => LabelsFixed(t, p);
    case Embed => EmbedFixed(t, p);
    case FanOut => FanOutFixed(t, p);
    case ReplyCount => CountFixed(t, p);
    case RepostCount => CountFixed(t, p);
    case NotifyReply =>
    case NotifyRepost =>
    case EngagementInit => InitFixed(t, p);
  }

  lemma LabelsFixed(t: Tables, p: PostId)
    requires Quiet(t, ApplyLabels, p)
    ensures ApplySafetyLabels(t, p) == Success(t)
  {
    if p in t.posts && !Blank(t.posts[p].body) && DetectNsfw(t.posts[p].body).Some? {
      var hit := DetectNsfw(t.posts[p].body).value;
      assert t.labels[(p, Nsfw) := hit][(p, DoNotAmplify) := "nsfw:" + hit] == t.labels;
    }
  }

  lemma EmbedFixed(t: Tables, p: PostId)
    requires Quiet(t, Embed, p)
    ensures Try(t, Embed, p, {}) == t
  {
    if p in t.posts && t.posts[p].status == Published {
      assert t.embeddings[p := EmbedText(t.posts[p].body)] == t.embeddings;
    }
  }

  lemma FanOutFixed(t: Tables, p: PostId)
    requires Quiet(t, FanOut, p)
    ensures Try(t, FanOut, p, {}) == t
  {
    if t.IsLive(p) {
      assert FanOutPost(t, p).value.feed == t.feed;
    }
  }

  lemma CountFixed(t: Tables, p: PostId)
    ensures Quiet(t, ReplyCount, p) ==> IncrementReplyCount(t, p) == Success(t)
    ensures Quiet(t, RepostCount, p) ==> IncrementRepostCount(t, p) == Success(t)
  {
    if Quiet(t, ReplyCount, p) {
      assert IncrementReplyCount(t, p).value.engagement == t.engagement;
    }
    if Quiet(t, RepostCount, p) {
      assert IncrementRepostCount(t, p).value.engagement == t.engagement;
    }
  }

  lemma InitFixed(t: Tables, p: PostId)
    requires Quiet(t, EngagementInit, p)
    ensures Try(t, EngagementInit, p, {}) == t
  {
    if p in t.posts && t.posts[p].status == Published {
      assert t.engagement[p := RowOrZero(t, p)] == t.engagement;
    }
  }

  lemma QuietAfter(t: Tables, task: Task, p: PostId)
    ensures Quiet(Try(t, task, p, {}), task, p)
  {
    match task
    case Validate =>
    case Publish =>
    case ApplyLabels => LabelsStored(t, p);
    case Embed =>
    case FanOut => FanOutReaches(t, p);
    case ReplyCount => ReplyCountStored(t, p);
    case RepostCount => RepostCountStored(t, p);
    case NotifyReply => ReplyNoticeStored(t, p);
    case NotifyRepost => RepostNoticeStored(t, p);
    case EngagementInit =>
  }

  lemma LabelsStored(t: Tables, p: PostId)
    ensures Quiet(Try(t, ApplyLabels, p, {}), ApplyLabels, p)
  {
  }

  /** A recount stores the number of live posts that point at the target. */
  lemma ReplyCountStored(t: Tables, p: PostId)
    ensures Quiet(Try(t, ReplyCount, p, {}), ReplyCount, p)
  {
    if t.IsLive(p) && t.posts[p].parent.Some? {
      var parent := t.posts[p].parent.value;
      assert Replies(Try(t, ReplyCount, p, {}), parent) == Replies(t, parent);
    }
  }

  lemma RepostCountStored(t: Tables, p: PostId)
    ensures Quiet(Try(t, RepostCount, p, {}), RepostCount, p)
  {
    if t.IsLive(p) && t.posts[p].repostOf.Some? {
      var original := t.posts[p].repostOf.value;
      assert Reposts(Try(t, RepostCount, p, {}), original) == Reposts(t, original);
    }
  }

  lemma FanOutReaches(t: Tables, p: PostId)
    ensures Quiet(Try(t, FanOut, p, {}), FanOut, p)
  {
    if t.IsLive(p) {
      var next := Try(t, FanOut, p, {});
      var keys := set u | u in Recipients(t, t.posts[p].author) :: (u, p);
      assert next == WithRows(t, keys);
      forall u | u in Recipients(next, next.posts[p].author)
        ensures (u, p) in next.feed
      {
        assert (u, p) in keys;
      }
    }
  }

  lemma ReplyNoticeStored(t: Tables, p: PostId)
    ensures Quiet(Try(t, NotifyReply, p, {}), NotifyReply, p)
  {
    ReplyAdds(t, p);
    if t.IsLive(p) && t.posts[p].parent.Some? && t.posts[p].parent.value in t.posts {
      var parent := t.posts[p].parent.value;
      var user := t.posts[parent].author;
      if user != t.posts[p].author && !ReplyNoticed(t, user, p) {
        assert PostReplied(user, parent, p, t.posts[p].author) in AddedReply(t, p);
      }
    }
  }

  lemma RepostNoticeStored(t: Tables, p: PostId)
    ensures Quiet(Try(t, NotifyRepost, p, {}), NotifyRepost, p)
  {
    RepostAdds(t, p);
    if t.IsLive(p) && t.posts[p].repostOf.Some? && t.posts[p].repostOf.value in t.posts {
      var original := t.posts[p].repostOf.value;
      var user := t.posts[original].author;
      if user != t.posts[p].author && !RepostNoticed(t, user, p) {
        assert PostReposted(user, original, p, t.posts[p].author) in AddedRepost(t, p);
      }
    }
  }

  /** No other task of the event undoes a finished one. */
  lemma QuietKept(t: Tables, task: Task, other: Task, p: PostId)
    requires Quiet(t, task, p) && other != Publish && other != task
    ensures Quiet(Try(t, other, p, {}), task, p)
  {
    if Exec(t, other, p).Success? {
      TaskFrame(t, other, p);
      TaskGrows(t, other, p);
      var next := Exec(t, other, p).value;
      match task
      case Validate =>
      case Publish =>
      case ApplyLabels =>
      case Embed =>
      case FanOut =>
      case ReplyCount => assert t.IsLive(p) && t.posts[p].parent.Some? ==> Replies(next, t.posts[p].parent.value) == Replies(t, t.posts[p].parent.value);
      case RepostCount => assert t.IsLive(p) && t.posts[p].repostOf.Some? ==> Reposts(next, t.posts[p].repostOf.value) == Reposts(t, t.posts[p].repostOf.value);
      case NotifyReply => NoticesStay(t.notices, next.notices);
      case NotifyRepost => NoticesStay(t.notices, next.notices);
      case EngagementInit =>
    }
  }

  lemma NoticesStay(a: multiset<Notice>, b: multiset<Notice>)
    requires a <= b
    ensures forall n :: n in a ==> n in b
  {
  }

  lemma {:induction false} QuietThroughAll(tasks: seq<Task>, t: Tables, task: Task, p: PostId)
    requires Publish !in tasks && Quiet(t, task, p)
    ensures Quiet(TryAll(tasks, t, p, {}), task, p)
  {
    if tasks != [] {
      if tasks[0] == task {
        QuietAfter(t, task, p);
      } else {
        QuietKept(t, task, tasks[0], p);
      }
      QuietThroughAll(tasks[1..], Try(t, tasks[0], p, {}), task, p);
    }
  }

  lemma {:induction false} AllQuietAfter(tasks: seq<Task>, t: Tables, task: Task, p: PostId)
    requires Publish !in tasks && task in tasks
    ensures Quiet(TryAll(tasks, t, p, {}), task, p)
  {
    var next := Try(t, tasks[0], p, {});
    if tasks[0] == task {
      QuietAfter(t, task, p);
      QuietThroughAll(tasks[1..], next, task, p);
    } else {
      AllQuietAfter(tasks[1..], next, task, p);
    }
  }

  lemma {:induction false} AllQuietFixed(tasks: seq<Task>, t: Tables, p: PostId)
    requires forall task :: task in tasks ==> Quiet(t, task, p)
    ensures TryAll(tasks, t, p, {}) == t
  {
    if tasks != [] {
      QuietIsFixed(t, tasks[0], p);
      AllQuietFixed(tasks[1..], t, p);
    }
  }

  // ----- Redelivery

  /** Whether a task raises depends on the posts alone, so a sequence without publish raises as a whole or not. */
  lemma {:induction false} RaisesByPosts(tasks: seq<Task>, t: Tables, u: Tables, p: PostId)
    requires Publish !in tasks && Validate !in tasks
    requires p in t.posts <==> p in u.posts
    requires p in t.posts ==> (t.posts[p].status == Published <==> u.posts[p].status == Published)
    ensures AnyRaises(tasks, t, p, {}) <==> AnyRaises(tasks, u, p, {})
  {
    if tasks != [] {
      TryKeepsPosts(t, tasks[0], p, {});
      TryKeepsPosts(u, tasks[0], p, {});
      RaisesByPosts(tasks[1..], Try(t, tasks[0], p, {}), Try(u, tasks[0], p, {}), p);
    }
  }

  /** Marking a post failed leaves every finished task finished. */
  lemma QuietAfterFail(t: Tables, task: Task, p: PostId)
    requires Quiet(t, task, p) && task != Publish
    ensures Quiet(MarkFailed(t, p), task, p)
  {
    var next := MarkFailed(t, p);
    if next != t {
      assert !next.IsLive(p) && !t.IsLive(p);
    }
  }

  /** Validation answers the same after the post itself was published or marked failed. */
  lemma ValidateAgain(t: Tables, u: Tables, p: PostId)
    requires forall q :: q in t.posts <==> q in u.posts
    requires forall q :: q in t.posts && q != p ==> u.posts[q] == t.posts[q]
    requires p in t.posts ==>
      && SameIdentity(t.posts[p], u.posts[p]) && u.posts[p].deleted == t.posts[p].deleted
      && (u.posts[p].status == Published <==> ValidatePost(t, p).Success? || t.posts[p].status == Published)
    ensures ValidatePost(u, p).Success? <==> ValidatePost(t, p).Success?
  {
  }

  /** After a delivery nothing is left to do for any task after publication. */
  lemma QuietAtTheEnd(t: Tables, p: PostId)
    ensures forall task :: task in Later() ==> Quiet(DispatchResult(PLANS, p, {}, t).1, task, p)
  {
    var published := AfterPublish(t, p, {});
    DispatchShape(t, p, {});
    LaterMembers(Publish);
    forall task | task in Later()
      ensures Quiet(DispatchResult(PLANS, p, {}, t).1, task, p)
    {
      AllQuietAfter(Later(), published, task, p);
      QuietAfterFail(TryAll(Later(), published, p, {}), task, p);
    }
  }

  /** The first plan answers as before and writes nothing new. */
  lemma PublishSettled(t: Tables, p: PostId)
    ensures var final := DispatchResult(PLANS, p, {}, t).1;
      AfterPublish(final, p, {}) == final && (Publishes(final, p, {}) <==> Publishes(t, p, {}))
  {
    DispatchPosts(t, p);
    if p in t.posts {
      DispatchSettles(t, p, {});
      PublishSettledIn(t, DispatchResult(PLANS, p, {}, t).1, p);
    }
  }

  lemma PublishSettledIn(t: Tables, final: Tables, p: PostId)
    requires p in t.posts && final.posts.Keys == t.posts.Keys
    requires forall q :: q in t.posts && q != p ==> final.posts[q] == t.posts[q]
    requires SameIdentity(t.posts[p], final.posts[p]) && final.posts[p].deleted == t.posts[p].deleted
    requires final.posts[p].status == Published <==> Publishes(t, p, {}) || t.posts[p].status == Published
    ensures AfterPublish(final, p, {}) == final && (Publishes(final, p, {}) <==> Publishes(t, p, {}))
  {
    ValidateAgain(t, final, p);
    PublishAgain(t, final, p);
  }

  /** A delivery neither adds nor removes post rows. */
  lemma DispatchPosts(t: Tables, p: PostId)
    ensures DispatchResult(PLANS, p, {}, t).1.posts.Keys == t.posts.Keys
  {
    DispatchShape(t, p, {});
    LaterMembers(Publish);
    TryAllKeepsPosts(Later(), AfterPublish(t, p, {}), p, {});
  }

  /** The later plans raise in the second delivery if and only if they did in the first. */
  lemma RaisesAgain(t: Tables, p: PostId)
    ensures var final := DispatchResult(PLANS, p, {}, t).1;
      AnyRaises(Later(), AfterPublish(t, p, {}), p, {}) <==> AnyRaises(Later(), final, p, {})
  {
    var final := DispatchResult(PLANS, p, {}, t).1;
    LaterMembers(Publish);
    LaterMembers(Validate);
    DispatchPosts(t, p);
    if p in t.posts {
      DispatchSettles(t, p, {});
    }
    RaisesByPosts(Later(), AfterPublish(t, p, {}), final, p);
  }

  /** Delivering the same event twice in a row, without injected exceptions, leaves exactly the tables of one delivery,
      with the same verdict: from any store, for any post. */
  lemma RedeliveryIsIdempotent(t: Tables, p: PostId)
    ensures var once := DispatchResult(PLANS, p, {}, t);
      DispatchResult(PLANS, p, {}, once.1) == once
  {
    var final := DispatchResult(PLANS, p, {}, t).1;
    DispatchShape(t, p, {});
    DispatchShape(final, p, {});
    QuietAtTheEnd(t, p);
    PublishSettled(t, p);
    RaisesAgain(t, p);
    AllQuietFixed(Later(), final, p);
    FailedStays(t, p);
  }

  /** Marking the post failed again changes nothing. */
  lemma FailedStays(t: Tables, p: PostId)
    ensures MarkFailed(DispatchResult(PLANS, p, {}, t).1, p) == DispatchResult(PLANS, p, {}, t).1
  {
    DispatchPosts(t, p);
    if p in t.posts {
      DispatchSettles(t, p, {});
    }
  }

  /** Publishing a published post writes nothing new. */
  lemma PublishAgain(t: Tables, final: Tables, p: PostId)
    requires p in t.posts && p in final.posts
    requires Publishes(final, p, {}) ==> final.posts[p].status == Published
    ensures AfterPublish(final, p, {}) == final
  {
    assert Publishes(final, p, {}) ==> final.posts[p := final.posts[p].(status := Published)] == final.posts;
  }

  // ----- The commit order of the reply wave

  const REPLY_TASKS: set<Task> := {ReplyCount, NotifyReply, RepostCount, NotifyRepost}

  lemma ReplyTasksCommute(t: Tables, a: Task, b: Task, p: PostId)
    requires a in REPLY_TASKS && b in REPLY_TASKS
    ensures Try(Try(t, a, p, {}), b, p, {}) == Try(Try(t, b, p, {}), a, p, {})
  {
    if a != b {
      if {a, b} == {ReplyCount, RepostCount} {
        CountsCommute(t, p);
      } else if {a, b} == {NotifyReply, NotifyRepost} {
        NoticesCommute(t, p);
      } else if a in {ReplyCount, RepostCount} {
        CountAndNoticeCommute(t, a, b, p);
      } else {
        CountAndNoticeCommute(t, b, a, p);
      }
    }
  }

  function WithReplies(t: Tables, q: PostId): map<PostId, Engagement> {
    t.engagement[q := RowOrZero(t, q).(replies := |Replies(t, q)|)]
  }

  function WithReposts(t: Tables, q: PostId): map<PostId, Engagement> {
    t.engagement[q := RowOrZero(t, q).(reposts := |Reposts(t, q)|)]
  }

  lemma CountsCommute(t: Tables, p: PostId)
    ensures Try(Try(t, ReplyCount, p, {}), RepostCount, p, {}) == Try(Try(t, RepostCount, p, {}), ReplyCount, p, {})
  {
    if t.IsLive(p) && t.posts[p].parent.Some? && t.posts[p].repostOf.Some? {
      var parent, original := t.posts[p].parent.value, t.posts[p].repostOf.value;
      var a, b := t.(engagement := WithReplies(t, parent)), t.(engagement := WithReposts(t, original));
      ReplyCountWrites(t, p);
      RepostCountWrites(t, p);
      ReplyCountWrites(b, p);
      RepostCountWrites(a, p);
      ColumnsCommute(t, parent, original);
    }
  }

  lemma ReplyCountWrites(t: Tables, p: PostId)
    requires t.IsLive(p) && t.posts[p].parent.Some?
    ensures Try(t, ReplyCount, p, {}) == t.(engagement := WithReplies(t, t.posts[p].parent.value))
  {
  }

  lemma RepostCountWrites(t: Tables, p: PostId)
    requires t.IsLive(p) && t.posts[p].repostOf.Some?
    ensures Try(t, RepostCount, p, {}) == t.(engagement := WithReposts(t, t.posts[p].repostOf.value))
  {
  }

  lemma ColumnsCommute(t: Tables, parent: PostId, original: PostId)
    ensures WithReposts(t.(engagement := WithReplies(t, parent)), original)
         == WithReplies(t.(engagement := WithReposts(t, original)), parent)
  {
    var a, b := t.(engagement := WithReplies(t, parent)), t.(engagement := WithReposts(t, original));
    assert Reposts(a, original) == Reposts(t, original);
    assert Replies(b, parent) == Replies(t, parent);
    assert parent != original ==> RowOrZero(a, original) == RowOrZero(t, original);
    assert parent != original ==> RowOrZero(b, parent) == RowOrZero(t, parent);
  }

  /** What a notification task adds. */
  function AddedReply(t: Tables, p: PostId): multiset<Notice> {
    if !t.IsLive(p) || t.posts[p].parent.None? || t.posts[p].parent.value !in t.posts then multiset{}
    else
      var (parent, author) := (t.posts[p].parent.value, t.posts[p].author);
      var user := t.posts[parent].author;
      if user == author || ReplyNoticed(t, user, p) then multiset{} else multiset{PostReplied(user, parent, p, author)}
  }

  function AddedRepost(t: Tables, p: PostId): multiset<Notice> {
    if !t.IsLive(p) || t.posts[p].repostOf.None? || t.posts[p].repostOf.value !in t.posts then multiset{}
    else
      var (original, author) := (t.posts[p].repostOf.value, t.posts[p].author);
      var user := t.posts[original].author;
      if user == author || RepostNoticed(t, user, p) then multiset{} else multiset{PostReposted(user, original, p, author)}
  }

  lemma ReplyAdds(t: Tables, p: PostId)
    ensures Try(t, NotifyReply, p, {}) == t.(notices := t.notices + AddedReply(t, p))
  {
    assert t.notices + multiset{} == t.notices;
  }

  lemma RepostAdds(t: Tables, p: PostId)
    ensures Try(t, NotifyRepost, p, {}) == t.(notices := t.notices + AddedRepost(t, p))
  {
    assert t.notices + multiset{} == t.notices;
  }

  lemma NoticedByKind(t: Tables, more: multiset<Notice>, user: UserId, p: PostId)
    ensures (forall n :: n in more ==> n.PostReplied?) ==>
      (RepostNoticed(t.(notices := t.notices + more), user, p) <==> RepostNoticed(t, user, p))
    ensures (forall n :: n in more ==> n.PostReposted?) ==>
      (ReplyNoticed(t.(notices := t.notices + more), user, p) <==> ReplyNoticed(t, user, p))
  {
    var u := t.(notices := t.notices + more);
    assert forall n :: n in u.notices <==> n in t.notices || n in more;
  }

  lemma AddedKinds(t: Tables, p: PostId)
    ensures forall n :: n in AddedReply(t, p) ==> n.PostReplied?
    ensures forall n :: n in AddedRepost(t, p) ==> n.PostReposted?
  {
  }

  lemma NoticesCommute(t: Tables, p: PostId)
    ensures Try(Try(t, NotifyReply, p, {}), NotifyRepost, p, {}) == Try(Try(t, NotifyRepost, p, {}), NotifyReply, p, {})
  {
    var replied, reposted := AddedReply(t, p), AddedRepost(t, p);
    var a, b := t.(notices := t.notices + replied), t.(notices := t.notices + reposted);
    ReplyAdds(t, p);
    RepostAdds(t, p);
    RepostAdds(a, p);
    ReplyAdds(b, p);
    AddedKinds(t, p);
    AddedByKind(t, replied, reposted, p);
    assert t.notices + replied + reposted == t.notices + reposted + replied;
  }

  lemma AddedByKind(t: Tables, replied: multiset<Notice>, reposted: multiset<Notice>, p: PostId)
    requires forall n :: n in replied ==> n.PostReplied?
    requires forall n :: n in reposted ==> n.PostReposted?
    ensures AddedRepost(t.(notices := t.notices + replied), p) == AddedRepost(t, p)
    ensures AddedReply(t.(notices := t.notices + reposted), p) == AddedReply(t, p)
  {
    if t.IsLive(p) {
      if t.posts[p].repostOf.Some? && t.posts[p].repostOf.value in t.posts {
        NoticedByKind(t, replied, t.posts[t.posts[p].repostOf.value].author, p);
      }
      if t.posts[p].parent.Some? && t.posts[p].parent.value in t.posts {
        NoticedByKind(t, reposted, t.posts[t.posts[p].parent.value].author, p);
      }
    }
  }

  /** A recount reads and writes the engagement table, a notification the notices. */
  lemma CountFrame(t: Tables, u: Tables, a: Task, p: PostId)
    requires a in {ReplyCount, RepostCount} && t.posts == u.posts && t.engagement == u.engagement
    ensures Try(t, a, p, {}) == t.(engagement := Try(t, a, p, {}).engagement)
    ensures Try(u, a, p, {}) == u.(engagement := Try(t, a, p, {}).engagement)
  {
    if a == ReplyCount {
      ReplyCountFrame(t, u, p);
    } else {
      RepostCountFrame(t, u, p);
    }
  }

  lemma ReplyCountFrame(t: Tables, u: Tables, p: PostId)
    requires t.posts == u.posts && t.engagement == u.engagement
    ensures Try(t, ReplyCount, p, {}) == t.(engagement := Try(t, ReplyCount, p, {}).engagement)
    ensures Try(u, ReplyCount, p, {}) == u.(engagement := Try(t, ReplyCount, p, {}).engagement)
  {
    if t.IsLive(p) && t.posts[p].parent.Some? {
      ReplyCountWrites(t, p);
      ReplyCountWrites(u, p);
      assert Replies(t, t.posts[p].parent.value) == Replies(u, t.posts[p].parent.value);
    }
  }

  lemma RepostCountFrame(t: Tables, u: Tables, p: PostId)
    requires t.posts == u.posts && t.engagement == u.engagement
    ensures Try(t, RepostCount, p, {}) == t.(engagement := Try(t, RepostCount, p, {}).engagement)
    ensures Try(u, RepostCount, p, {}) == u.(engagement := Try(t, RepostCount, p, {}).engagement)
  {
    if t.IsLive(p) && t.posts[p].repostOf.Some? {
      RepostCountWrites(t, p);
      RepostCountWrites(u, p);
      assert Reposts(t, t.posts[p].repostOf.value) == Reposts(u, t.posts[p].repostOf.value);
    }
  }

  lemma NoticeFrame(t: Tables, u: Tables, b: Task, p: PostId)
    requires b in {NotifyReply, NotifyRepost} && t.posts == u.posts && t.notices == u.notices
    ensures Try(t, b, p, {}) == t.(notices := Try(t, b, p, {}).notices)
    ensures Try(u, b, p, {}) == u.(notices := Try(t, b, p, {}).notices)
  {
    ReplyAdds(t, p);
    RepostAdds(t, p);
    ReplyAdds(u, p);
    RepostAdds(u, p);
  }

  lemma CountAndNoticeCommute(t: Tables, a: Task, b: Task, p: PostId)
    requires a in {ReplyCount, RepostCount} && b in {NotifyReply, NotifyRepost}
    ensures Try(Try(t, a, p, {}), b, p, {}) == Try(Try(t, b, p, {}), a, p, {})
  {
    CountFrame(t, t, a, p);
    NoticeFrame(t, t, b, p);
    var counted, noticed := Try(t, a, p, {}), Try(t, b, p, {});
    NoticeFrame(t, counted, b, p);
    CountFrame(t, noticed, a, p);
  }

  /** The four tasks of the reply plan never raise. */
  lemma {:induction false} ReplyTasksNeverRaise(tasks: seq<Task>, t: Tables, p: PostId)
    requires forall a :: a in tasks ==> a in REPLY_TASKS
    ensures !AnyRaises(tasks, t, p, {})
  {
    if tasks != [] {
      assert tasks[0] in REPLY_TASKS;
      ReplyTasksNeverRaise(tasks[1..], Try(t, tasks[0], p, {}), p);
    }
  }

  lemma TryAllCons(a: Task, rest: seq<Task>, t: Tables, p: PostId)
    ensures TryAll([a] + rest, t, p, {}) == TryAll(rest, Try(t, a, p, {}), p, {})
  {
    assert ([a] + rest)[1..] == rest;
  }

  lemma {:induction false} MoveToFront(before: seq<Task>, a: Task, after: seq<Task>, t: Tables, p: PostId)
    requires a in REPLY_TASKS && forall b :: b in before ==> b in REPLY_TASKS
    ensures TryAll(before + [a] + after, t, p, {}) == TryAll([a] + before + after, t, p, {})
  {
    if before == [] {
      assert before + [a] + after == [a] + before + after;
    } else {
      var b, rest := before[0], before[1..];
      assert b in REPLY_TASKS;
      assert before + [a] + after == [b] + (rest + [a] + after);
      assert [a] + rest + after == [a] + (rest + after);
      assert [a] + before + after == [a] + ([b] + (rest + after));
      MoveToFront(rest, a, after, Try(t, b, p, {}), p);
      TryAllCons(b, rest + [a] + after, t, p);
      TryAllCons(a, rest + after, Try(t, b, p, {}), p);
      TryAllCons(a, [b] + (rest + after), t, p);
      TryAllCons(b, rest + after, Try(t, a, p, {}), p);
      ReplyTasksCommute(t, a, b, p);
    }
  }

  /** The tasks of a gathered wave may commit in any order: every order of the reply wave leaves the same tables. */
  lemma {:induction false} AnyCommitOrder(xs: seq<Task>, ys: seq<Task>, t: Tables, p: PostId)
    requires multiset(xs) == multiset(ys) && forall a :: a in xs ==> a in REPLY_TASKS
    ensures TryAll(xs, t, p, {}) == TryAll(ys, t, p, {})
    decreases |xs|
  {
    if xs == [] {
      assert |multiset(ys)| == 0;
    } else {
      var a := xs[0];
      var before, after := TakeOut(xs, ys);
      ReplyMembers(xs, before + after);
      assert a in REPLY_TASKS;
      MoveToFront(before, a, after, t, p);
      var front := [a] + before + after;
      assert front[1..] == before + after;
      AnyCommitOrder(xs[1..], before + after, Try(t, a, p, {}), p);
    }
  }

  /** Tables and verdict of the wave are the same in every commit order. */
  lemma CommitOrderIrrelevant(xs: seq<Task>, ys: seq<Task>, t: Tables, p: PostId)
    requires multiset(xs) == multiset(ys) && forall a :: a in xs ==> a in REPLY_TASKS
    ensures TryAll(xs, t, p, {}) == TryAll(ys, t, p, {})
    ensures !AnyRaises(xs, t, p, {}) && !AnyRaises(ys, t, p, {})
  {
    assert forall a :: a in ys ==> a in multiset(ys);
    AnyCommitOrder(xs, ys, t, p);
    ReplyTasksNeverRaise(xs, t, p);
    ReplyTasksNeverRaise(ys, t, p);
  }

  lemma ReplyMembers(xs: seq<Task>, rest: seq<Task>)
    requires xs != [] && multiset(xs[1..]) == multiset(rest)
    requires forall a :: a in xs ==> a in REPLY_TASKS
    ensures forall a :: a in rest ==> a in REPLY_TASKS
  {
    forall a | a in rest
      ensures a in REPLY_TASKS
    {
      assert a in multiset(rest);
      assert a in xs[1..];
    }
  }
}
