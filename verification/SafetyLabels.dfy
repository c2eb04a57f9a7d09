/** The labels that the safety task writes: which posts get them, and that they are never lost. */
module SafetyLabels {
  import opened Options
  import opened SocialModel
  import opened Requests
  import opened Tasks
  import opened SocialRuns
  import opened Dispatch
  import opened Redelivery
  import opened Interleaving

  /** The body calls for the labels. */
  predicate Flagged(body: string) {
    !Blank(body) && DetectNsfw(body).Some?
  }

  // ----- Which posts a dispatch labels

  lemma TryLabels(t: Tables, task: Task, p: PostId, faults: set<Task>)
    requires p in t.posts && task != Publish
    ensures (p, Nsfw) in Try(t, task, p, faults).labels <==>
            (p, Nsfw) in t.labels || (task == ApplyLabels && task !in faults && Flagged(t.posts[p].body))
  {
    if task != ApplyLabels && Exec(t, task, p).Success? {
      TaskFrame(t, task, p);
    }
  }

  lemma {:induction false} TryAllLabels(tasks: seq<Task>, t: Tables, p: PostId, faults: set<Task>)
    requires p in t.posts && Publish !in tasks
    ensures (p, Nsfw) in TryAll(tasks, t, p, faults).labels <==>
            (p, Nsfw) in t.labels || (ApplyLabels in tasks && ApplyLabels !in faults && Flagged(t.posts[p].body))
  {
    if tasks != [] {
      TryLabels(t, tasks[0], p, faults);
      TryKeepsPosts(t, tasks[0], p, faults);
      TryAllLabels(tasks[1..], Try(t, tasks[0], p, faults), p, faults);
    }
  }

  /** A dispatch labels an unlabelled post if and only if its body is flagged and the safety task is not interrupted;
      whether the post is published plays no part. */
  lemma DispatchLabels(t: Tables, p: PostId, faults: set<Task>)
    requires p in t.posts && (p, Nsfw) !in t.labels
    ensures (p, Nsfw) in DispatchResult(PLANS, p, faults, t).1.labels <==>
            ApplyLabels !in faults && Flagged(t.posts[p].body)
  {
    DispatchShape(t, p, faults);
    LaterMembers(Publish);
    LaterMembers(ApplyLabels);
    PublishOnlyStatus(t, p, faults);
    TryAllLabels(Later(), AfterPublish(t, p, faults), p, faults);
  }

  /** So a processing post ends failed and labelled exactly when the first plan raises and the safety task finds a word. */
  lemma FailedAndLabelled(t: Tables, p: PostId, faults: set<Task>)
    requires p in t.posts && t.posts[p].status == Processing && (p, Nsfw) !in t.labels
    ensures var final := DispatchResult(PLANS, p, faults, t).1;
      p in final.posts
      && (final.posts[p].status == Failed && (p, Nsfw) in final.labels <==>
            !Publishes(t, p, faults) && ApplyLabels !in faults && Flagged(t.posts[p].body))
  {
    DispatchSettles(t, p, faults);
    DispatchLabels(t, p, faults);
  }

  /** User 0 publishes a post, answers it with a flagged text and deletes the first post before the answer is dispatched. */
  const ORPHANED: seq<Event> := [
    SignUp(0, false), Create(0, 0, 0, PLAIN_POST), RunTask(Publish, 0), Create(0, 1, 1, REPLY), Delete(0, 0)]

  const FIRST_ROW := Post(0, "hello", Public, Published, 0, true, None, None, None, None)
  const REPLY_ROW := Post(0, "nsfw", Public, Processing, 1, false, Some(0), Some(0), None, None)

  const SIGNED_UP := EMPTY.(users := map[0 := UserRow(false)])
  const HELLO_ROW := FIRST_ROW.(deleted := false)
  const POSTED := SIGNED_UP.(posts := map[0 := HELLO_ROW])
  const REPLY := PLAIN_POST.(body := "nsfw", parent := Some(0))

  lemma FirstPosted()
    ensures Step(Step(SIGNED_UP, Create(0, 0, 0, PLAIN_POST)), RunTask(Publish, 0)) == POSTED
  {
    assert !IsSpace("hello"[0]);
    assert Step(SIGNED_UP, Create(0, 0, 0, PLAIN_POST)) == SIGNED_UP.(posts := map[0 := HELLO_ROW.(status := Processing)]);
  }

  lemma ReplyPosted()
    ensures Step(POSTED, Create(0, 1, 1, REPLY)) == SIGNED_UP.(posts := map[0 := HELLO_ROW, 1 := REPLY_ROW])
  {
    assert !IsSpace("nsfw"[0]);
  }

  lemma FirstDeleted()
    ensures Step(SIGNED_UP.(posts := map[0 := HELLO_ROW, 1 := REPLY_ROW]), Delete(0, 0))
         == SIGNED_UP.(posts := map[0 := FIRST_ROW, 1 := REPLY_ROW])
  {
  }

  lemma OrphanedStore()
    ensures Run(EMPTY, ORPHANED) == SIGNED_UP.(posts := map[0 := FIRST_ROW, 1 := REPLY_ROW])
  {
    assert Step(EMPTY, SignUp(0, false)) == SIGNED_UP;
    FirstPosted();
    ReplyPosted();
    FirstDeleted();
    FiveEvents(SignUp(0, false), Create(0, 0, 0, PLAIN_POST), RunTask(Publish, 0), Create(0, 1, 1, REPLY), Delete(0, 0));
  }

  lemma FiveEvents(a: Event, b: Event, c: Event, d: Event, e: Event)
    ensures Run(EMPTY, [a, b, c, d, e]) == Step(Step(Step(Step(Step(EMPTY, a), b), c), d), e)
  {
    var none: seq<Event> := [];
    RunSnoc(EMPTY, none, a);
    RunSnoc(EMPTY, none + [a], b);
    RunSnoc(EMPTY, none + [a] + [b], c);
    RunSnoc(EMPTY, none + [a] + [b] + [c], d);
    RunSnoc(EMPTY, none + [a] + [b] + [c] + [d], e);
    FiveInARow(a, b, c, d, e);
  }

  lemma FiveInARow<T>(a: T, b: T, c: T, d: T, e: T)
    ensures [a, b, c, d, e] == [] + [a] + [b] + [c] + [d] + [e]
  {
  }

  lemma {:induction false} WordFound(words: seq<string>, text: string, word: string)
    requires word in words && Contains(text, word)
    ensures FirstHit(words, text).Some?
  {
    if words[0] != word {
      WordFound(words[1..], text, word);
    }
  }

  lemma NsfwIsFlagged()
    ensures Flagged("nsfw")
  {
    var text := "nsfw";
    assert !IsSpace(text[0]);
    assert text[1..] == "sfw" && text[2..] == "fw" && text[3..] == "w";
    assert Folded("w") == "w" && Folded("fw") == "fw";
    assert Folded("sfw") == "sfw";
    assert Folded(text) == text;
    assert text <= text[0..];
    assert NSFW_KEYWORDS[1] == "nsfw";
    WordFound(NSFW_KEYWORDS, text, "nsfw");
  }

  /** Such a post is reachable, without any injected exception: it ends failed and carries the label. */
  lemma FailedPostWithLabel()
    ensures var final := DispatchResult(PLANS, 1, {}, Run(EMPTY, ORPHANED)).1;
      1 in final.posts && final.posts[1].status == Failed && (1, Nsfw) in final.labels
  {
    OrphanedStore();
    NsfwIsFlagged();
    OrphanRaises(Run(EMPTY, ORPHANED));
    FailedAndLabelled(Run(EMPTY, ORPHANED), 1, {});
  }

  lemma OrphanRaises(t: Tables)
    requires t == SIGNED_UP.(posts := map[0 := FIRST_ROW, 1 := REPLY_ROW])
    ensures 1 in t.posts && t.posts[1] == REPLY_ROW && (1, Nsfw) !in t.labels && !Publishes(t, 1, {})
  {
  }

  // ----- Labels are never lost

  lemma TaskKeepsLabels(t: Tables, task: Task, p: PostId)
    requires Exec(t, task, p).Success?
    ensures forall k :: k in t.labels ==> k in Exec(t, task, p).value.labels
  {
    if task != ApplyLabels && task != Publish {
      TaskFrame(t, task, p);
    }
  }

  lemma LabelsStay(t: Tables, e: Event)
    ensures forall k :: k in t.labels ==> k in Step(t, e).labels
  {
    if Attempt(t, e).Success? {
      match e
      case RunTask(task, p) => TaskKeepsLabels(t, task, p);
      case Create(me, id, now, req) => CreateTouches(t, me, id, now, req);
      case Delete(me, p) => DeleteTouches(t, me, p);
      case Follow(me, other) => FollowTouches(t, me, other);
      case Block(me, other) => BlockTouches(t, me, other);
      case Like(me, p) => LikeTouches(t, me, p);
      case Unlike(me, p) => UnlikeTouches(t, me, p);
      case _ =>
    }
  }

  lemma {:induction false} LabelsStayOverRun(t: Tables, es: seq<Event>)
    ensures forall k :: k in t.labels ==> k in Run(t, es).labels
  {
    if es != [] {
      LabelsStayOverRun(t, es[..|es| - 1]);
      LabelsStay(Run(t, es[..|es| - 1]), es[|es| - 1]);
    }
  }

  /** Once the safety task has committed for a flagged post, the label is there in every later store. */
  lemma LabelledForGood(before: seq<Event>, p: PostId, after: seq<Event>)
    requires p in Run(EMPTY, before).posts && Flagged(Run(EMPTY, before).posts[p].body)
    ensures (p, Nsfw) in Run(EMPTY, before + [RunTask(ApplyLabels, p)] + after).labels
  {
    RunSnoc(EMPTY, before, RunTask(ApplyLabels, p));
    RunConcat(EMPTY, before + [RunTask(ApplyLabels, p)], after);
    LabelsStayOverRun(Run(EMPTY, before + [RunTask(ApplyLabels, p)]), after);
  }

  // ----- Who writes the label, and when

  predicate IsModeration(e: Event, p: PostId) {
    e.WriteLabel? && e.post == p && e.kind == Nsfw && |e.reason| <= 2000
  }

  /** The two writers: the safety task of a post with a flagged body, and a moderator. */
  predicate Marks(e: Event, p: PostId, body: string) {
    IsModeration(e, p) || (e == RunTask(ApplyLabels, p) && Flagged(body))
  }

  /** One event: the label appears exactly when one of them commits. */
  lemma StepLabels(t: Tables, e: Event, p: PostId)
    ensures (p, Nsfw) in Step(t, e).labels <==>
            (p, Nsfw) in t.labels || (if p in t.posts then Marks(e, p, t.posts[p].body) else IsModeration(e, p))
  {
    if Attempt(t, e).Success? {
      match e
      case RunTask(task, q) => TaskLabels(t, task, q, p);
      case Create(me, id, now, req) => CreateTouches(t, me, id, now, req);
      case Delete(me, q) => DeleteTouches(t, me, q);
      case Follow(me, other) => FollowTouches(t, me, other);
      case Block(me, other) => BlockTouches(t, me, other);
      case Like(me, q) => LikeTouches(t, me, q);
      case Unlike(me, q) => UnlikeTouches(t, me, q);
      case _ =>
    }
  }

  lemma TaskLabels(t: Tables, task: Task, q: PostId, p: PostId)
    requires Exec(t, task, q).Success?
    ensures (p, Nsfw) in Exec(t, task, q).value.labels <==>
            (p, Nsfw) in t.labels || (task == ApplyLabels && q == p && p in t.posts && Flagged(t.posts[p].body))
  {
    if task != ApplyLabels && task != Publish {
      TaskFrame(t, task, q);
    }
  }

  predicate MarkedIn(es: seq<Event>, p: PostId, body: string) {
    exists e :: e in es && Marks(e, p, body)
  }

  lemma MarkedInSnoc(init: seq<Event>, last: Event, p: PostId, body: string)
    ensures MarkedIn(init + [last], p, body) <==> MarkedIn(init, p, body) || Marks(last, p, body)
  {
    if Marks(last, p, body) {
      assert last in init + [last];
    }
    if MarkedIn(init, p, body) {
      var e :| e in init && Marks(e, p, body);
      assert e in init + [last];
    }
  }

  lemma {:induction false} RunLabels(t: Tables, es: seq<Event>, p: PostId)
    requires p in t.posts
    ensures p in Run(t, es).posts && Run(t, es).posts[p].body == t.posts[p].body
    ensures (p, Nsfw) in Run(t, es).labels <==> (p, Nsfw) in t.labels || MarkedIn(es, p, t.posts[p].body)
  {
    RunEvolves(t, es);
    if es != [] {
      var init, last := es[..|es| - 1], es[|es| - 1];
      RunLabels(t, init, p);
      StepLabels(Run(t, init), last, p);
      assert es == init + [last];
      MarkedInSnoc(init, last, p, t.posts[p].body);
    }
  }

  predicate MarkedInGaps(gaps: seq<seq<Event>>, p: PostId, body: string) {
    exists gap :: gap in gaps && MarkedIn(gap, p, body)
  }

  lemma MarkedInGapsCons(gaps: seq<seq<Event>>, p: PostId, body: string)
    requires gaps != []
    ensures MarkedInGaps(gaps, p, body) <==> MarkedIn(gaps[0], p, body) || MarkedInGaps(gaps[1..], p, body)
  {
    assert gaps == [gaps[0]] + gaps[1..];
  }

  lemma {:induction false} GapsLabel(tasks: seq<Task>, gaps: seq<seq<Event>>, t: Tables, p: PostId, faults: set<Task>)
    requires |gaps| == |tasks| && Publish !in tasks && p in t.posts
    ensures var (final, body) := (WithGaps(tasks, gaps, t, p, faults).1, t.posts[p].body);
      && p in final.posts && final.posts[p].body == body
      && ((p, Nsfw) in final.labels <==>
           || (p, Nsfw) in t.labels || MarkedInGaps(gaps, p, body)
           || (ApplyLabels in tasks && ApplyLabels !in faults && Flagged(body)))
  {
    if tasks != [] {
      var here := Run(t, gaps[0]);
      RunLabels(t, gaps[0], p);
      TryLabels(here, tasks[0], p, faults);
      TryKeepsPosts(here, tasks[0], p, faults);
      GapsLabel(tasks[1..], gaps[1..], Try(here, tasks[0], p, faults), p, faults);
      MarkedInGapsCons(gaps, p, t.posts[p].body);
    }
  }

  /** The label is written in one of the gaps: by another delivery, or by a moderator. */
  predicate MarkedBetween(g: Gaps, p: PostId, body: string) {
    MarkedIn(g.first, p, body) || MarkedIn(g.second, p, body) || MarkedInGaps(g.later, p, body) || MarkedIn(g.last, p, body)
  }

  /** The first plan writes no label: until the safety task commits, a flagged post is published without one. */
  lemma PublishedBeforeLabelled(t: Tables, p: PostId, faults: set<Task>, g: Gaps)
    requires p in t.posts
    ensures var (next, body) := (AfterFirstPlan(t, p, faults, g), t.posts[p].body);
      && p in next.posts && next.posts[p].body == body
      && (BothSucceed(t, p, faults, g) ==> IsPublished(next, p))
      && ((p, Nsfw) in next.labels <==>
           (p, Nsfw) in t.labels || MarkedIn(g.first, p, body) || MarkedIn(g.second, p, body))
  {
    FirstPlanPublishes(t, p, faults, g);
    RunLabels(t, g.first, p);
    RunLabels(Run(t, g.first), g.second, p);
  }

  /** Whatever commits between its tasks: a dispatch ends with an unlabelled post labelled exactly when its safety task
      is not interrupted and the body is flagged, or somebody else wrote the label meanwhile. */
  lemma InterleavedLabels(t: Tables, p: PostId, faults: set<Task>, later: seq<Task>, g: Gaps)
    requires p in t.posts && (p, Nsfw) !in t.labels && |g.later| == |later| && Publish !in later
    ensures var (final, body) := (Interleaved(t, p, faults, later, g).1, t.posts[p].body);
      (p, Nsfw) in final.labels <==>
        (ApplyLabels in later && ApplyLabels !in faults && Flagged(body)) || MarkedBetween(g, p, body)
  {
    var next := AfterFirstPlan(t, p, faults, g);
    var done := WithGaps(later, g.later, next, p, faults).1;
    PublishedBeforeLabelled(t, p, faults, g);
    GapsLabel(later, g.later, next, p, faults);
    RunLabels(done, g.last, p);
  }

  /** So a flagged post is published and unlabelled when its dispatch returns exactly when the safety task was interrupted
      and nobody else labelled it. The other plans do not wait for that task. */
  lemma PublishedUnlabelled(t: Tables, p: PostId, faults: set<Task>, later: seq<Task>, g: Gaps)
    requires p in t.posts && (p, Nsfw) !in t.labels && |g.later| == |later| && multiset(later) == multiset(Later())
    requires Flagged(t.posts[p].body)
    ensures var final := Interleaved(t, p, faults, later, g).1;
      IsPublished(final, p) && (p, Nsfw) !in final.labels <==>
        && (IsPublished(t, p) || BothSucceed(t, p, faults, g) || PublishedBetween(g, p))
        && ApplyLabels in faults && !MarkedBetween(g, p, t.posts[p].body)
  {
    LaterMembers(Publish);
    LaterMembers(ApplyLabels);
    assert forall task :: task in later <==> task in multiset(later);
    assert forall task :: task in Later() <==> task in multiset(Later());
    InterleavedSettles(t, p, faults, later, g);
    InterleavedLabels(t, p, faults, later, g);
  }

  lemma TryFans(t: Tables, task: Task, p: PostId, faults: set<Task>)
    requires t.IsLive(p) && task != Publish
    ensures var next := Try(t, task, p, faults);
      && next.posts == t.posts && next.follows == t.follows && next.feed.Keys >= t.feed.Keys
      && (task == FanOut && task !in faults ==> forall u :: u in Recipients(t, t.posts[p].author) ==> (u, p) in next.feed)
  {
    if Exec(t, task, p).Success? {
      TaskFrame(t, task, p);
    }
  }

  lemma {:induction false} TryAllFans(tasks: seq<Task>, t: Tables, p: PostId, faults: set<Task>)
    requires t.IsLive(p) && Publish !in tasks && FanOut !in faults
    ensures var final := TryAll(tasks, t, p, faults);
      && final.feed.Keys >= t.feed.Keys
      && (FanOut in tasks ==> forall u :: u in Recipients(t, t.posts[p].author) ==> (u, p) in final.feed)
  {
    if tasks != [] {
      TryFans(t, tasks[0], p, faults);
      TryAllFans(tasks[1..], Try(t, tasks[0], p, faults), p, faults);
    }
  }

  /** When the safety task is interrupted, the flagged post still reaches the feed of its author and every follower. */
  lemma UnlabelledFansOut(t: Tables, p: PostId)
    requires p in t.posts && !t.posts[p].deleted && (p, Nsfw) !in t.labels && Publishes(t, p, {ApplyLabels})
    ensures var (ok, final) := DispatchResult(PLANS, p, {ApplyLabels}, t);
      && final.IsLive(p) && (p, Nsfw) !in final.labels
      && forall u :: u in Recipients(t, t.posts[p].author) ==> (u, p) in final.feed
  {
    var faults := {ApplyLabels};
    var published := AfterPublish(t, p, faults);
    DispatchShape(t, p, faults);
    DispatchSettles(t, p, faults);
    DispatchLabels(t, p, faults);
    LaterMembers(Publish);
    LaterMembers(FanOut);
    TryAllFans(Later(), published, p, faults);
  }
}
