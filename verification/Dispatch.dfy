/** `dispatch_event` for POST_CREATED: six plans in order over one event, then failure marking. */
module Dispatch {
  import opened Options
  import opened Sorting
  import opened Scheduler
  import opened SocialModel
  import opened Tasks
  import opened SocialRuns
  import opened FeedCache

  datatype PlanKey = PublishKey | SafetyKey | EmbeddingKey | FanOutKey | ReplyKey | EngagementKey

  datatype Plan = Plan(key: PlanKey, order: int, tasks: seq<Task>, deps: map<Task, set<Task>>)

  const POST_PUBLISH := Plan(PublishKey, 0, [Validate, Publish], map[Validate := {}, Publish := {Validate}])
  const SAFETY := Plan(SafetyKey, 15, [ApplyLabels], map[ApplyLabels := {}])
  const EMBEDDING := Plan(EmbeddingKey, 25, [Embed], map[Embed := {}])
  const FANOUT := Plan(FanOutKey, 50, [FanOut], map[FanOut := {}])
  const REPLY := Plan(ReplyKey, 75, [ReplyCount, NotifyReply, RepostCount, NotifyRepost],
                      map[ReplyCount := {}, NotifyReply := {}, RepostCount := {}, NotifyRepost := {}])
  const ENGAGEMENT := Plan(EngagementKey, 100, [EngagementInit], map[EngagementInit := {}])

  const PLANS: seq<Plan> := [POST_PUBLISH, SAFETY, EMBEDDING, FANOUT, REPLY, ENGAGEMENT]

  function ByOrder(): (Plan, Plan) -> bool {
    (a: Plan, b: Plan) => a.order <= b.order
  }

  /** `build_event_plan_index`: the registered plans sorted by ORDER. */
  function PlanIndex(registry: seq<Plan>): seq<Plan> {
    StableSort(ByOrder(), registry)
  }

  /** The plan registered under an order. */
  function PlanAt(order: int): Plan {
    if order == 0 then POST_PUBLISH else if order == 15 then SAFETY else if order == 25 then EMBEDDING
    else if order == 50 then FANOUT else if order == 75 then REPLY else ENGAGEMENT
  }

  lemma OrderNamesPlan(plan: Plan)
    requires plan in PLANS
    ensures PlanAt(plan.order) == plan
  {
  }

  /** The plans run in the same order however their modules were imported. */
  lemma RegistrationOrderIrrelevant(registry: seq<Plan>)
    requires multiset(registry) == multiset(PLANS)
    ensures PlanIndex(registry) == PLANS
  {
    StableSortSorts(ByOrder(), registry);
    forall a, b | a in PLANS && b in PLANS && ByOrder()(a, b) && ByOrder()(b, a)
      ensures a == b
    {
      OrderNamesPlan(a);
      OrderNamesPlan(b);
    }
    PlansSorted();
    SortedUnique(ByOrder(), PLANS, PlanIndex(registry));
  }

  lemma PlansSorted()
    ensures SortedBy(ByOrder(), PLANS)
  {
    var orders := [0, 15, 25, 50, 75, 100];
    assert forall i :: 0 <= i < |PLANS| ==> PLANS[i].order == orders[i];
  }

  /** Runs one task of the event about post `p`; a task in `faults` raises before it commits. */
  function ExecFor(p: PostId, faults: set<Task>): Executor<Task, Tables> {
    (task: Task, t: Tables) => if task in faults then Failure(RAISED) else Exec(t, task, p)
  }

  /** The plans from the first one on; every plan runs, whatever the others returned. */
  function RunPlans(plans: seq<Plan>, p: PostId, faults: set<Task>, t: Tables): (bool, Tables) {
    if plans == [] then (true, t)
    else
      var r := PlanResult(plans[0].tasks, plans[0].deps, ExecFor(p, faults), t);
      var rest := RunPlans(plans[1..], p, faults, r.state);
      (r.ok && rest.0, rest.1)
  }

  function DispatchResult(plans: seq<Plan>, p: PostId, faults: set<Task>, t: Tables): (bool, Tables) {
    var (ok, done) := RunPlans(plans, p, faults, t);
    if ok then (true, done) else (false, MarkFailed(done, p))
  }

  method DispatchEvent(plans: seq<Plan>, p: PostId, faults: set<Task>, t: Tables) returns (success: bool, final: Tables)
    ensures plans == [] ==> !success && final == t
    ensures plans != [] ==> (success, final) == DispatchResult(plans, p, faults, t)
  {
    if plans == [] {
      return false, t;
    }
    success, final := true, t;
    assert plans[0..] == plans;
    for i := 0 to |plans|
      invariant RunPlans(plans, p, faults, t) ==
                var rest := RunPlans(plans[i..], p, faults, final); (success && rest.0, rest.1)
    {
      assert plans[i..][1..] == plans[i + 1..];
      var ok, next, waves, raised, deadlock := RunPlan(plans[i].tasks, plans[i].deps, ExecFor(p, faults), final);
      success, final := success && ok, next;
    }
    if !success {
      final := MarkFailed(final, p);
    }
  }

  // ----- What a dispatch does, task by task

  /** The store after one task: a task that raises leaves it alone. */
  function Try(t: Tables, task: Task, p: PostId, faults: set<Task>): Tables {
    match ExecFor(p, faults)(task, t)
    case Success(next) => next
    case Failure(_) => t
  }

  predicate Raises(t: Tables, task: Task, p: PostId, faults: set<Task>) {
    ExecFor(p, faults)(task, t).Failure?
  }

  function TryAll(tasks: seq<Task>, t: Tables, p: PostId, faults: set<Task>): Tables {
    if tasks == [] then t else TryAll(tasks[1..], Try(t, tasks[0], p, faults), p, faults)
  }

  predicate AnyRaises(tasks: seq<Task>, t: Tables, p: PostId, faults: set<Task>) {
    tasks != [] && (Raises(t, tasks[0], p, faults) || AnyRaises(tasks[1..], Try(t, tasks[0], p, faults), p, faults))
  }

  lemma {:induction false} WaveIsTryAll(tasks: seq<Task>, t: Tables, p: PostId, faults: set<Task>)
    ensures var r := RunWave(ExecFor(p, faults), tasks, t);
      r.0 == TryAll(tasks, t, p, faults) && (r.1 != [] <==> AnyRaises(tasks, t, p, faults))
  {
    if tasks != [] {
      WaveIsTryAll(tasks[1..], Try(t, tasks[0], p, faults), p, faults);
    }
  }

  /** A plan without dependencies is one wave. */
  lemma FlatPlan(tasks: seq<Task>, deps: map<Task, set<Task>>, t: Tables, p: PostId, faults: set<Task>)
    requires tasks != [] && forall n :: n in tasks ==> Deps(deps, n) == {}
    ensures var r := PlanResult(tasks, deps, ExecFor(p, faults), t);
      r.state == TryAll(tasks, t, p, faults) && (r.ok <==> !AnyRaises(tasks, t, p, faults))
  {
    ReadyAll(tasks, deps, {});
    assert tasks[0] in Members(tasks);
    WaveIsTryAll(tasks, t, p, faults);
    var exec := ExecFor(p, faults);
    var (next, raised) := RunWave(exec, tasks, t);
    var none: set<Task> := {};
    assert none + Members(tasks) == Members(tasks);
    assert PlanResult(tasks, deps, exec, t) ==
           if raised != [] then Outcome(false, false, next, [] + [tasks], raised)
           else RunFrom(tasks, deps, exec, none + Members(tasks), next, [] + [tasks]);
  }

  lemma PublishWaves()
    ensures Ready(POST_PUBLISH.tasks, POST_PUBLISH.deps, {}) == [Validate]
    ensures Ready(POST_PUBLISH.tasks, POST_PUBLISH.deps, {Validate}) == [Publish]
    ensures Ready(POST_PUBLISH.tasks, POST_PUBLISH.deps, {Validate, Publish}) == []
  {
    var tasks := POST_PUBLISH.tasks;
    assert tasks[1..] == [Publish];
    assert [Publish][1..] == [];
    assert IsReady(POST_PUBLISH.deps, {}, Validate) && !IsReady(POST_PUBLISH.deps, {}, Publish);
    assert !IsReady(POST_PUBLISH.deps, {Validate}, Validate) && IsReady(POST_PUBLISH.deps, {Validate}, Publish);
  }

  /** The post is published exactly when both tasks of the first plan ran without raising. */
  predicate Publishes(t: Tables, p: PostId, faults: set<Task>) {
    !Raises(t, Validate, p, faults) && !Raises(t, Publish, p, faults)
  }

  /** Publish waits for validate, so it is skipped when validate raises. */
  lemma PublishPlan(t: Tables, p: PostId, faults: set<Task>)
    ensures var r := PlanResult(POST_PUBLISH.tasks, POST_PUBLISH.deps, ExecFor(p, faults), t);
      && (r.ok <==> Publishes(t, p, faults))
      && r.state == (if Publishes(t, p, faults) then PublishPost(t, p).value else t)
  {
    PublishWaves();
    var exec, tasks, deps := ExecFor(p, faults), POST_PUBLISH.tasks, POST_PUBLISH.deps;
    assert Members(tasks) == {Validate, Publish} by {
      assert tasks[0] == Validate && tasks[1] == Publish;
    }
    assert Members([Validate]) == {Validate};
    assert {} + Members([Validate]) == {Validate};
    WaveIsTryAll([Validate], t, p, faults);
    WaveIsTryAll([Publish], t, p, faults);
    var (next, raised) := RunWave(exec, [Validate], t);
    assert next == t && (raised != [] <==> Raises(t, Validate, p, faults));
    var none: set<Task> := {};
    assert PlanResult(tasks, deps, exec, t) ==
           if raised != [] then Outcome(false, false, t, [] + [[Validate]], raised)
           else RunFrom(tasks, deps, exec, {Validate}, t, [] + [[Validate]]);
    if raised == [] {
      var (last, failed) := RunWave(exec, [Publish], t);
      assert Members([Publish]) == {Publish};
      assert {Validate} + Members([Publish]) == {Validate, Publish};
      var waves := [] + [[Validate]] + [[Publish]];
      assert RunFrom(tasks, deps, exec, {Validate}, t, [] + [[Validate]]) ==
             if failed != [] then Outcome(false, false, last, waves, failed)
             else RunFrom(tasks, deps, exec, {Validate, Publish}, last, waves);
    }
  }

  lemma {:induction false} TryAllConcat(a: seq<Task>, b: seq<Task>, t: Tables, p: PostId, faults: set<Task>)
    ensures TryAll(a + b, t, p, faults) == TryAll(b, TryAll(a, t, p, faults), p, faults)
    ensures AnyRaises(a + b, t, p, faults) <==>
            AnyRaises(a, t, p, faults) || AnyRaises(b, TryAll(a, t, p, faults), p, faults)
  {
    if a == [] {
      assert a + b == b;
    } else {
      assert (a + b)[1..] == a[1..] + b;
      TryAllConcat(a[1..], b, Try(t, a[0], p, faults), p, faults);
    }
  }

  /** The plan's tasks do not wait for one another. */
  predicate FlatOne(plan: Plan) {
    plan.tasks != [] && forall n :: n in plan.tasks ==> Deps(plan.deps, n) == {}
  }

  predicate FlatPlans(plans: seq<Plan>) {
    forall plan :: plan in plans ==> FlatOne(plan)
  }

  function AllTasks(plans: seq<Plan>): seq<Task> {
    if plans == [] then [] else plans[0].tasks + AllTasks(plans[1..])
  }

  lemma {:induction false} FlatPlansRun(plans: seq<Plan>, t: Tables, p: PostId, faults: set<Task>)
    requires FlatPlans(plans)
    ensures RunPlans(plans, p, faults, t)
         == (!AnyRaises(AllTasks(plans), t, p, faults), TryAll(AllTasks(plans), t, p, faults))
  {
    if plans != [] {
      assert FlatOne(plans[0]);
      FlatPlan(plans[0].tasks, plans[0].deps, t, p, faults);
      var next := TryAll(plans[0].tasks, t, p, faults);
      FlatPlansRun(plans[1..], next, p, faults);
      TryAllConcat(plans[0].tasks, AllTasks(plans[1..]), t, p, faults);
    }
  }

  /** The tasks of the plans after the first one, in order. */
  function Later(): seq<Task> {
    AllTasks(PLANS[1..])
  }

  function AfterPublish(t: Tables, p: PostId, faults: set<Task>): Tables {
    if Publishes(t, p, faults) then PublishPost(t, p).value else t
  }

  /** The dispatch of the six plans as a straight line. */
  lemma DispatchShape(t: Tables, p: PostId, faults: set<Task>)
    ensures var (ok, final) := DispatchResult(PLANS, p, faults, t);
      var published := AfterPublish(t, p, faults);
      var done := TryAll(Later(), published, p, faults);
      && (ok <==> Publishes(t, p, faults) && !AnyRaises(Later(), published, p, faults))
      && final == if ok then done else MarkFailed(done, p)
  {
    PublishPlan(t, p, faults);
    LaterIsFlat();
    FlatPlansRun(PLANS[1..], AfterPublish(t, p, faults), p, faults);
  }

  lemma LaterPlans()
    ensures PLANS[1..] == [SAFETY] + ([EMBEDDING] + ([FANOUT] + ([REPLY] + ([ENGAGEMENT] + []))))
  {
  }

  lemma LaterIsFlat()
    ensures FlatPlans(PLANS[1..])
  {
    LaterPlans();
    assert FlatOne(SAFETY);
    assert FlatOne(EMBEDDING);
    assert FlatOne(FANOUT);
    ReplyIsFlat();
    assert FlatOne(ENGAGEMENT);
  }

  lemma ReplyIsFlat()
    ensures FlatOne(REPLY)
  {
  }

  lemma AllTasksCons(plan: Plan, rest: seq<Plan>)
    ensures AllTasks([plan] + rest) == plan.tasks + AllTasks(rest)
  {
    assert ([plan] + rest)[1..] == rest;
  }

  lemma LaterTasks()
    ensures Later() == [ApplyLabels, Embed, FanOut, ReplyCount, NotifyReply, RepostCount, NotifyRepost, EngagementInit]
  {
    LaterPlans();
    AllTasksCons(ENGAGEMENT, []);
    AllTasksCons(REPLY, [ENGAGEMENT] + []);
    AllTasksCons(FANOUT, [REPLY] + ([ENGAGEMENT] + []));
    AllTasksCons(EMBEDDING, [FANOUT] + ([REPLY] + ([ENGAGEMENT] + [])));
    AllTasksCons(SAFETY, [EMBEDDING] + ([FANOUT] + ([REPLY] + ([ENGAGEMENT] + []))));
  }

  lemma LaterMembers(task: Task)
    ensures task in Later() <==> task != Validate && task != Publish
  {
    LaterTasks();
    var all := [ApplyLabels, Embed, FanOut, ReplyCount, NotifyReply, RepostCount, NotifyRepost, EngagementInit];
    assert all[0] == ApplyLabels && all[1] == Embed && all[2] == FanOut && all[3] == ReplyCount;
    assert all[4] == NotifyReply && all[5] == RepostCount && all[6] == NotifyRepost && all[7] == EngagementInit;
  }
}
