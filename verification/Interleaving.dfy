/** A dispatch whose tasks commit one by one while other requests, tasks and deliveries commit in between. */
module Interleaving {
  import opened Options
  import opened SocialModel
  import opened Tasks
  import opened SocialRuns
  import opened Dispatch
  import opened Redelivery

  /** What commits before validate, before publish, before each later task, and before the failure mark. */
  datatype Gaps = Gaps(first: seq<Event>, second: seq<Event>, later: seq<seq<Event>>, last: seq<Event>)

  /** The later tasks, each after its gap: whether one raised, and the store they leave. */
  function WithGaps(tasks: seq<Task>, gaps: seq<seq<Event>>, t: Tables, p: PostId, faults: set<Task>): (bool, Tables)
    requires |gaps| == |tasks|
  {
    if tasks == [] then (false, t)
    else
      var here := Run(t, gaps[0]);
      var (raised, final) := WithGaps(tasks[1..], gaps[1..], Try(here, tasks[0], p, faults), p, faults);
      (Raises(here, tasks[0], p, faults) || raised, final)
  }

  predicate Validates(t: Tables, p: PostId, faults: set<Task>, g: Gaps) {
    !Raises(Run(t, g.first), Validate, p, faults)
  }

  /** The store in which publish starts, or would start. */
  function BeforePublish(t: Tables, g: Gaps): Tables {
    Run(Run(t, g.first), g.second)
  }

  /** Validate and, after its gap, publish run without raising. */
  predicate BothSucceed(t: Tables, p: PostId, faults: set<Task>, g: Gaps) {
    Validates(t, p, faults, g) && !Raises(BeforePublish(t, g), Publish, p, faults)
  }

  function AfterFirstPlan(t: Tables, p: PostId, faults: set<Task>, g: Gaps): Tables {
    if Validates(t, p, faults, g) then Try(BeforePublish(t, g), Publish, p, faults) else BeforePublish(t, g)
  }

  /** The verdict of an interleaved dispatch and the store when it returns; `later` lists the tasks of the other plans in
      the order in which they commit. */
  function Interleaved(t: Tables, p: PostId, faults: set<Task>, later: seq<Task>, g: Gaps): (bool, Tables)
    requires |g.later| == |later|
  {
    var (raised, done) := WithGaps(later, g.later, AfterFirstPlan(t, p, faults, g), p, faults);
    var final := Run(done, g.last);
    if BothSucceed(t, p, faults, g) && !raised then (true, final) else (false, MarkFailed(final, p))
  }

  // ----- It is the dispatch

  function NoEvents(n: nat): (r: seq<seq<Event>>)
    ensures |r| == n
  {
    seq(n, i => [])
  }

  lemma {:induction false} WithoutGaps(tasks: seq<Task>, t: Tables, p: PostId, faults: set<Task>)
    ensures WithGaps(tasks, NoEvents(|tasks|), t, p, faults) == (AnyRaises(tasks, t, p, faults), TryAll(tasks, t, p, faults))
  {
    if tasks != [] {
      assert NoEvents(|tasks|)[1..] == NoEvents(|tasks| - 1);
      WithoutGaps(tasks[1..], Try(t, tasks[0], p, faults), p, faults);
    }
  }

  /** With nothing in between it is the dispatch of the six plans. */
  lemma NoGapsIsDispatch(t: Tables, p: PostId, faults: set<Task>)
    ensures Interleaved(t, p, faults, Later(), Gaps([], [], NoEvents(|Later()|), [])) == DispatchResult(PLANS, p, faults, t)
  {
    DispatchShape(t, p, faults);
    WithoutGaps(Later(), AfterPublish(t, p, faults), p, faults);
  }

  /** A task attempt is an event of a run, or nothing when its exception was injected. */
  lemma TryIsStep(t: Tables, task: Task, p: PostId, faults: set<Task>)
    ensures Try(t, task, p, faults) == if task in faults then t else Step(t, RunTask(task, p))
  {
  }

  lemma AfterTry(t: Tables, es: seq<Event>, task: Task, p: PostId, faults: set<Task>) returns (more: seq<Event>)
    ensures Run(t, more) == Try(Run(t, es), task, p, faults)
  {
    TryIsStep(Run(t, es), task, p, faults);
    RunSnoc(t, es, RunTask(task, p));
    more := if task in faults then es else es + [RunTask(task, p)];
  }

  lemma {:induction false} WithGapsIsRun(tasks: seq<Task>, gaps: seq<seq<Event>>, t: Tables, p: PostId, faults: set<Task>)
    returns (es: seq<Event>)
    requires |gaps| == |tasks|
    ensures Run(t, es) == WithGaps(tasks, gaps, t, p, faults).1
  {
    if tasks == [] {
      es := [];
    } else {
      var first := AfterTry(t, gaps[0], tasks[0], p, faults);
      var rest := WithGapsIsRun(tasks[1..], gaps[1..], Run(t, first), p, faults);
      RunConcat(t, first, rest);
      es := first + rest;
    }
  }

  /** An interleaved dispatch is a run, so whatever holds in every reachable store holds when it returns. */
  lemma InterleavedIsRun(t: Tables, p: PostId, faults: set<Task>, later: seq<Task>, g: Gaps) returns (es: seq<Event>)
    requires |g.later| == |later|
    ensures Run(t, es) == Interleaved(t, p, faults, later, g).1
  {
    RunConcat(t, g.first, g.second);
    es := g.first + g.second;
    if Validates(t, p, faults, g) {
      es := AfterTry(t, es, Publish, p, faults);
    }
    var rest := WithGapsIsRun(later, g.later, Run(t, es), p, faults);
    RunConcat(t, es, rest);
    RunConcat(t, es + rest, g.last);
    es := es + rest + g.last;
    if !Interleaved(t, p, faults, later, g).0 {
      RunSnoc(t, es, Fail(p));
      es := es + [Fail(p)];
    }
  }

  // ----- The status machine

  ghost predicate IsPublished(t: Tables, p: PostId) {
    p in t.posts && t.posts[p].status == Published
  }

  /** Rewriting a row without changing whether it is published changes no other status. */
  lemma RewritePublishes(a: map<PostId, Post>, q: PostId, row: Post, p: PostId)
    requires p in a && q in a && (row.status == Published <==> a[q].status == Published)
    ensures a[q := row][p].status == Published <==> a[p].status == Published
  {
  }

  lemma WritesPublish(t: Tables, e: Event, p: PostId)
    requires p in t.posts && WritesPosts(e) && !e.RunTask? && Attempt(t, e).Success?
    ensures p in Step(t, e).posts && (Step(t, e).posts[p].status == Published <==> t.posts[p].status == Published)
  {
    if e.Create? {
      CreateAdds(t, e.me, e.id, e.now, e.req);
    } else if e.Delete? {
      DeleteRewrites(t, e.me, e.post);
      RewritePublishes(t.posts, e.post, t.posts[e.post].(deleted := true), p);
    } else if e.Hide? {
      RewritePublishes(t.posts, e.post, t.posts[e.post].(deleted := true), p);
    } else if e.Fail? {
      FailPublishes(t, e.post, p);
    }
  }

  /** Only the publish task of the post publishes it. */
  lemma StepPublishes(t: Tables, e: Event, p: PostId)
    requires p in t.posts
    ensures p in Step(t, e).posts
    ensures IsPublished(Step(t, e), p) <==> IsPublished(t, p) || e == RunTask(Publish, p)
  {
    if !WritesPosts(e) {
      PostsKept(t, e);
    } else if e.RunTask? {
      TaskPublishes(t, e.post, p);
    } else if Attempt(t, e).Success? {
      WritesPublish(t, e, p);
    }
  }

  lemma TaskPublishes(t: Tables, q: PostId, p: PostId)
    requires p in t.posts
    ensures IsPublished(Step(t, RunTask(Publish, q)), p) <==> IsPublished(t, p) || q == p
  {
  }

  lemma FailPublishes(t: Tables, q: PostId, p: PostId)
    requires p in t.posts
    ensures IsPublished(MarkFailed(t, q), p) <==> IsPublished(t, p)
  {
  }

  lemma {:induction false} RunPublishes(t: Tables, es: seq<Event>, p: PostId)
    requires p in t.posts
    ensures p in Run(t, es).posts
    ensures IsPublished(Run(t, es), p) <==> IsPublished(t, p) || RunTask(Publish, p) in es
  {
    if es != [] {
      var init, last := es[..|es| - 1], es[|es| - 1];
      RunPublishes(t, init, p);
      StepPublishes(Run(t, init), last, p);
      assert es == init + [last];
    }
  }

  predicate PublishedIn(gaps: seq<seq<Event>>, p: PostId) {
    exists i :: 0 <= i < |gaps| && RunTask(Publish, p) in gaps[i]
  }

  lemma {:induction false} GapsPublish(tasks: seq<Task>, gaps: seq<seq<Event>>, t: Tables, p: PostId, faults: set<Task>)
    requires |gaps| == |tasks| && Publish !in tasks && p in t.posts
    ensures var final := WithGaps(tasks, gaps, t, p, faults).1;
      p in final.posts && (IsPublished(final, p) <==> IsPublished(t, p) || PublishedIn(gaps, p))
  {
    if tasks != [] {
      var here := Run(t, gaps[0]);
      RunPublishes(t, gaps[0], p);
      TryKeepsPosts(here, tasks[0], p, faults);
      GapsPublish(tasks[1..], gaps[1..], Try(here, tasks[0], p, faults), p, faults);
      PublishedInCons(gaps, p);
    }
  }

  lemma PublishedInCons(gaps: seq<seq<Event>>, p: PostId)
    requires gaps != []
    ensures PublishedIn(gaps, p) <==> RunTask(Publish, p) in gaps[0] || PublishedIn(gaps[1..], p)
  {
    if PublishedIn(gaps[1..], p) {
      var i :| 0 <= i < |gaps[1..]| && RunTask(Publish, p) in gaps[1..][i];
      assert gaps[i + 1] == gaps[1..][i];
    }
    if PublishedIn(gaps, p) {
      var i :| 0 <= i < |gaps| && RunTask(Publish, p) in gaps[i];
      assert i > 0 ==> gaps[1..][i - 1] == gaps[i];
    }
  }

  /** Another delivery publishes the post in one of the gaps. */
  predicate PublishedBetween(g: Gaps, p: PostId) {
    || RunTask(Publish, p) in g.first || RunTask(Publish, p) in g.second
    || PublishedIn(g.later, p) || RunTask(Publish, p) in g.last
  }

  lemma FirstPlanPublishes(t: Tables, p: PostId, faults: set<Task>, g: Gaps)
    requires p in t.posts
    ensures var next := AfterFirstPlan(t, p, faults, g);
      p in next.posts
      && (IsPublished(next, p) <==>
           (IsPublished(t, p) || BothSucceed(t, p, faults, g) || RunTask(Publish, p) in g.first + g.second))
  {
    RunPublishes(t, g.first, p);
    RunPublishes(Run(t, g.first), g.second, p);
  }

  /** Whatever commits between its tasks, and with exceptions injected anywhere, a dispatch leaves an existing post not
      processing. The post is published when the dispatch returns if and only if it was before, or validate and publish
      succeeded, even when later plans fail, or another delivery published it meanwhile. */
  lemma InterleavedSettles(t: Tables, p: PostId, faults: set<Task>, later: seq<Task>, g: Gaps)
    requires p in t.posts && |g.later| == |later| && Publish !in later
    ensures var (ok, final) := Interleaved(t, p, faults, later, g);
      && p in final.posts && final.posts[p].status != Processing
      && (IsPublished(final, p) <==> IsPublished(t, p) || BothSucceed(t, p, faults, g) || PublishedBetween(g, p))
  {
    var next := AfterFirstPlan(t, p, faults, g);
    var done := WithGaps(later, g.later, next, p, faults).1;
    FirstPlanPublishes(t, p, faults, g);
    GapsPublish(later, g.later, next, p, faults);
    RunPublishes(done, g.last, p);
    FailOnlyStatus(Run(done, g.last), p);
  }
}
