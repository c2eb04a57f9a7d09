/** `run_plan`: tasks run in waves, each wave holding every task whose dependencies have completed. */
module Scheduler {
  import opened Options
  import opened Sorting

  /** A task maps the store to a new one, or raises and leaves it alone. */
  type Executor<!N, !S> = (N, S) -> Result<S>

  /** `waves` logs the tasks that were started, `raised` those that raised; both feed `ctx.errors`. */
  datatype Outcome<N, S> = Outcome(ok: bool, deadlock: bool, state: S, waves: seq<seq<N>>, raised: seq<N>)

  /** `dependencies.get(name, set())`. */
  function Deps<N(==)>(deps: map<N, set<N>>, name: N): set<N> {
    if name in deps then deps[name] else {}
  }

  predicate IsReady<N(==)>(deps: map<N, set<N>>, completed: set<N>, name: N) {
    name !in completed && Deps(deps, name) <= completed
  }

  function Ready<N(==)>(tasks: seq<N>, deps: map<N, set<N>>, completed: set<N>): seq<N> {
    Filter(name => IsReady(deps, completed, name), tasks)
  }

  function Members<N(==)>(names: seq<N>): set<N> {
    set n | n in names
  }

  /** One gathered wave: every task runs, whatever the others do. */
  function RunWave<N(==), S>(exec: Executor<N, S>, wave: seq<N>, state: S): (r: (S, seq<N>))
    ensures forall n :: n in r.1 ==> n in wave
  {
    if wave == [] then (state, [])
    else
      match exec(wave[0], state)
      case Success(next) => RunWave(exec, wave[1..], next)
      case Failure(_) =>
        var (next, raised) := RunWave(exec, wave[1..], state);
        (next, [wave[0]] + raised)
  }

  lemma ReadyMembers<N>(tasks: seq<N>, deps: map<N, set<N>>, completed: set<N>)
    ensures forall n :: n in Ready(tasks, deps, completed) <==> n in tasks && IsReady(deps, completed, n)
  {
    FilterMembers(name => IsReady(deps, completed, name), tasks);
  }

  lemma ReadyAll<N>(tasks: seq<N>, deps: map<N, set<N>>, completed: set<N>)
    requires forall n :: n in tasks ==> IsReady(deps, completed, n)
    ensures Ready(tasks, deps, completed) == tasks
  {
    FilterAll(name => IsReady(deps, completed, name), tasks);
  }

  /** A nonempty wave leaves fewer tasks waiting. */
  lemma WaveShrinks<N>(tasks: seq<N>, deps: map<N, set<N>>, completed: set<N>)
    requires Ready(tasks, deps, completed) != []
    ensures Members(tasks) - (completed + Members(Ready(tasks, deps, completed))) < Members(tasks) - completed
  {
    ReadyMembers(tasks, deps, completed);
    var first := Ready(tasks, deps, completed)[0];
    assert IsReady(deps, completed, first) && first in tasks;
    assert first in Members(tasks);
    assert first in Members(tasks) - completed;
  }

  /** The loop from a given point on. */
  function RunFrom<N(==), S>(tasks: seq<N>, deps: map<N, set<N>>, exec: Executor<N, S>,
                      completed: set<N>, state: S, waves: seq<seq<N>>): Outcome<N, S>
    decreases Members(tasks) - completed
  {
    if Members(tasks) <= completed then Outcome(true, false, state, waves, [])
    else
      var ready := Ready(tasks, deps, completed);
      if ready == [] then Outcome(false, true, state, waves, [])
      else
        var (next, raised) := RunWave(exec, ready, state);
        if raised != [] then Outcome(false, false, next, waves + [ready], raised)
        else
          WaveShrinks(tasks, deps, completed);
          RunFrom(tasks, deps, exec, completed + Members(ready), next, waves + [ready])
  }

  function PlanResult<N(==), S>(tasks: seq<N>, deps: map<N, set<N>>, exec: Executor<N, S>, state: S): Outcome<N, S> {
    RunFrom(tasks, deps, exec, {}, state, [])
  }

  /** `run_plan` with its loop; `tasks` are the names it is given, in dictionary order. */
  method RunPlan<N(==), S>(tasks: seq<N>, deps: map<N, set<N>>, exec: Executor<N, S>, state: S)
    returns (ok: bool, final: S, waves: seq<seq<N>>, raised: seq<N>, deadlock: bool)
    ensures Outcome(ok, deadlock, final, waves, raised) == PlanResult(tasks, deps, exec, state)
  {
    var completed: set<N> := {};
    waves, final, raised := [], state, [];
    while !(Members(tasks) <= completed)
      invariant raised == []
      invariant PlanResult(tasks, deps, exec, state) == RunFrom(tasks, deps, exec, completed, final, waves)
      decreases Members(tasks) - completed
    {
      var ready := Ready(tasks, deps, completed);
      if ready == [] {
        return false, final, waves, raised, true;
      }
      WaveShrinks(tasks, deps, completed);
      var next, failures := GatherWave(exec, ready, final);
      final, raised, waves := next, failures, waves + [ready];
      if raised != [] {
        return false, final, waves, raised, false;
      }
      completed := completed + Members(ready);
    }
    return true, final, waves, raised, false;
  }

  method GatherWave<N(==), S>(exec: Executor<N, S>, wave: seq<N>, state: S) returns (final: S, raised: seq<N>)
    ensures (final, raised) == RunWave(exec, wave, state)
  {
    final, raised := state, [];
    assert wave[0..] == wave && [] + RunWave(exec, wave, state).1 == RunWave(exec, wave, state).1;
    for i := 0 to |wave|
      invariant RunWave(exec, wave, state) ==
                var rest := RunWave(exec, wave[i..], final); (rest.0, raised + rest.1)
    {
      assert wave[i..][1..] == wave[i + 1..];
      assert forall more: seq<N> :: raised + ([wave[i]] + more) == raised + [wave[i]] + more;
      match exec(wave[i], final)
      case Success(next) => final := next;
      case Failure(_) => raised := raised + [wave[i]];
    }
    assert raised + [] == raised;
  }

  // ----- The log of waves

  function Done<N(==)>(waves: seq<seq<N>>): set<N> {
    set w, n | 0 <= w < |waves| && n in waves[w] :: n
  }

  ghost predicate HasDepIn<N(!new)>(deps: map<N, set<N>>, name: N, wave: seq<N>) {
    exists d :: d in Deps(deps, name) && d in wave
  }

  /** What the log says: tasks run once, after all their dependencies and in the first wave where that is possible. */
  ghost predicate LogOk<N(!new)>(tasks: seq<N>, deps: map<N, set<N>>, waves: seq<seq<N>>) {
    && (forall w, n :: 0 <= w < |waves| && n in waves[w] ==> n in tasks && Deps(deps, n) <= Done(waves[..w]))
    && (forall v, w, n :: 0 <= v < w < |waves| && n in waves[v] ==> n !in waves[w])
    && (forall v, w, n :: 0 <= v < w < |waves| && w == v + 1 && n in waves[w] ==> HasDepIn(deps, n, waves[v]))
    && (forall w :: 0 <= w < |waves| ==> Distinct(waves[w]))
  }

  /** No task still waiting could have run in the last wave. */
  ghost predicate NoneLate<N(!new)>(tasks: seq<N>, deps: map<N, set<N>>, waves: seq<seq<N>>) {
    forall n :: |waves| > 0 && n in tasks && n !in Done(waves) ==> !(Deps(deps, n) <= Done(waves[..|waves| - 1]))
  }

  lemma DoneSnoc<N(!new)>(waves: seq<seq<N>>, wave: seq<N>)
    ensures Done(waves + [wave]) == Done(waves) + Members(wave)
  {
    var all := waves + [wave];
    forall n | n in Members(wave)
      ensures n in Done(all)
    {
      assert all[|waves|] == wave;
    }
    forall n | n in Done(waves)
      ensures n in Done(all)
    {
      var w :| 0 <= w < |waves| && n in waves[w];
      assert all[w] == waves[w];
    }
  }

  lemma LogGrows<N(!new)>(tasks: seq<N>, deps: map<N, set<N>>, waves: seq<seq<N>>)
    requires LogOk(tasks, deps, waves) && NoneLate(tasks, deps, waves) && Distinct(tasks)
    ensures var all := waves + [Ready(tasks, deps, Done(waves))];
      LogOk(tasks, deps, all) && NoneLate(tasks, deps, all)
  {
    var ready := Ready(tasks, deps, Done(waves));
    var all := waves + [ready];
    ReadyMembers(tasks, deps, Done(waves));
    FilterDistinct(name => IsReady(deps, Done(waves), name), tasks);
    DoneSnoc(waves, ready);
    assert all[..|waves|] == waves;
    assert forall w :: 0 <= w <= |waves| ==> all[..w] == waves[..w];
    forall v, w, n | 0 <= v < w < |all| && w == v + 1 && n in all[w]
      ensures HasDepIn(deps, n, all[v])
    {
      if w == |waves| {
        DoneSnoc(waves[..v], waves[v]);
        assert waves == waves[..v] + [waves[v]];
        assert !(Deps(deps, n) <= Done(waves[..v]));
        var d :| d in Deps(deps, n) && d !in Done(waves[..v]);
        assert d in Done(waves);
      }
    }
  }

  // ----- Dependency chains

  /** Each task of the chain is a dependency of the next one. */
  ghost predicate IsChain<N(!new)>(tasks: seq<N>, deps: map<N, set<N>>, c: seq<N>) {
    && c != []
    && (forall i :: 0 <= i < |c| ==> c[i] in tasks)
    && (forall i, j :: 0 <= i < j < |c| && j == i + 1 ==> c[i] in Deps(deps, c[j]))
  }

  ghost predicate EndsIn<N(!new)>(tasks: seq<N>, deps: map<N, set<N>>, c: seq<N>, name: N) {
    IsChain(tasks, deps, c) && c[|c| - 1] == name
  }

  ghost predicate Acyclic<N(!new)>(tasks: seq<N>, deps: map<N, set<N>>) {
    forall c :: IsChain(tasks, deps, c) && |c| > 1 ==> c[0] != c[|c| - 1]
  }

  /** Every dependency of a task names a task. */
  ghost predicate NamesKnown<N(!new)>(tasks: seq<N>, deps: map<N, set<N>>) {
    forall n :: n in tasks ==> Deps(deps, n) <= Members(tasks)
  }

  /** Along a chain the waves climb by at least one per link. */
  lemma {:induction false} ChainClimbs<N(!new)>(tasks: seq<N>, deps: map<N, set<N>>, waves: seq<seq<N>>, c: seq<N>, w: nat)
    returns (first: nat)
    requires LogOk(tasks, deps, waves) && w < |waves|
    requires IsChain(tasks, deps, c) && c[|c| - 1] in waves[w]
    ensures first < |waves| && c[0] in waves[first] && first + |c| <= w + 1
    decreases |c|
  {
    if |c| == 1 {
      first := w;
    } else {
      var shorter := c[..|c| - 1];
      var d := shorter[|shorter| - 1];
      assert d in Deps(deps, c[|c| - 1]);
      assert d in Done(waves[..w]);
      var v :| 0 <= v < w && d in waves[..w][v];
      first := ChainClimbs(tasks, deps, waves, shorter, v);
    }
  }

  /** A task of wave `w` ends a chain of `w + 1` tasks. */
  lemma {:induction false} ChainExists<N(!new)>(tasks: seq<N>, deps: map<N, set<N>>, waves: seq<seq<N>>, name: N, w: nat)
    returns (c: seq<N>)
    requires LogOk(tasks, deps, waves) && w < |waves| && name in waves[w]
    ensures EndsIn(tasks, deps, c, name) && |c| == w + 1
    decreases w
  {
    if w == 0 {
      c := [name];
    } else {
      assert HasDepIn(deps, name, waves[w - 1]);
      var d :| d in Deps(deps, name) && d in waves[w - 1];
      var shorter := ChainExists(tasks, deps, waves, d, w - 1);
      c := shorter + [name];
    }
  }

  /** A task's wave is the length of the longest dependency chain that ends in it, counted in links. */
  lemma WaveIsLongestChain<N(!new)>(tasks: seq<N>, deps: map<N, set<N>>, waves: seq<seq<N>>, name: N, w: nat)
    requires LogOk(tasks, deps, waves) && w < |waves| && name in waves[w]
    ensures exists c :: EndsIn(tasks, deps, c, name) && |c| == w + 1
    ensures forall c :: EndsIn(tasks, deps, c, name) ==> |c| <= w + 1
  {
    var witness_ := ChainExists(tasks, deps, waves, name, w);
    forall c | EndsIn(tasks, deps, c, name)
      ensures |c| <= w + 1
    {
      var first := ChainClimbs(tasks, deps, waves, c, w);
    }
  }

  /** When every task has run, all names are known and there is no cycle. */
  lemma AllDoneIsAcyclic<N(!new)>(tasks: seq<N>, deps: map<N, set<N>>, waves: seq<seq<N>>)
    requires LogOk(tasks, deps, waves) && Members(tasks) <= Done(waves)
    ensures NamesKnown(tasks, deps) && Acyclic(tasks, deps)
  {
    forall n | n in tasks
      ensures Deps(deps, n) <= Members(tasks)
    {
      assert n in Done(waves);
      var w :| 0 <= w < |waves| && n in waves[w];
      forall d | d in Deps(deps, n)
        ensures d in tasks
      {
        assert d in Done(waves[..w]);
        var v :| 0 <= v < w && d in waves[..w][v];
        assert d in waves[v];
      }
    }
    forall c | IsChain(tasks, deps, c) && |c| > 1
      ensures c[0] != c[|c| - 1]
    {
      var last := c[|c| - 1];
      assert last in Done(waves);
      var w :| 0 <= w < |waves| && last in waves[w];
      var first := ChainClimbs(tasks, deps, waves, c, w);
      assert first < w;
    }
  }

  // ----- Deadlock

  /** Every task of `stuck` waits for a dependency inside `stuck`. */
  ghost predicate Stuck<N(!new)>(deps: map<N, set<N>>, stuck: set<N>) {
    forall n {:trigger WaitsIn(deps, n, stuck)} :: n in stuck ==> WaitsIn(deps, n, stuck)
  }

  ghost predicate WaitsIn<N(!new)>(deps: map<N, set<N>>, name: N, stuck: set<N>) {
    exists d :: d in Deps(deps, name) && d in stuck
  }

  lemma ChainCons<N(!new)>(tasks: seq<N>, deps: map<N, set<N>>, d: N, c: seq<N>)
    requires IsChain(tasks, deps, c) && d in tasks && d in Deps(deps, c[0])
    ensures IsChain(tasks, deps, [d] + c)
  {
    var longer := [d] + c;
    assert forall i :: 0 < i < |longer| ==> longer[i] == c[i - 1];
    forall i, j | 0 <= i < j < |longer| && j == i + 1
      ensures longer[i] in Deps(deps, longer[j])
    {
      if i > 0 {
        assert c[i - 1] in Deps(deps, c[j - 1]);
      }
    }
  }

  lemma ChainSlice<N(!new)>(tasks: seq<N>, deps: map<N, set<N>>, c: seq<N>, i: nat, j: nat)
    requires IsChain(tasks, deps, c) && i < j <= |c|
    ensures IsChain(tasks, deps, c[i..j])
  {
    var part := c[i..j];
    assert forall k :: 0 <= k < |part| ==> part[k] == c[i + k];
  }

  lemma {:induction false} LongChain<N(!new)>(tasks: seq<N>, deps: map<N, set<N>>, stuck: set<N>, length: nat) returns (c: seq<N>)
    requires stuck != {} && stuck <= Members(tasks) && Stuck(deps, stuck) && length > 0
    ensures IsChain(tasks, deps, c) && |c| == length && forall n :: n in c ==> n in stuck
    decreases length
  {
    if length == 1 {
      var n :| n in stuck;
      c := [n];
    } else {
      var shorter := LongChain(tasks, deps, stuck, length - 1);
      assert shorter[0] in stuck && WaitsIn(deps, shorter[0], stuck);
      var d :| d in Deps(deps, shorter[0]) && d in stuck;
      ChainCons(tasks, deps, d, shorter);
      c := [d] + shorter;
    }
  }

  lemma {:induction false} Pigeonhole<N(!new)>(c: seq<N>, pool: set<N>) returns (i: nat, j: nat)
    requires |c| > |pool| && forall k :: 0 <= k < |c| ==> c[k] in pool
    ensures i < j < |c| && c[i] == c[j]
    decreases |c|
  {
    if c[0] in c[1..] {
      var k :| 0 <= k < |c[1..]| && c[1..][k] == c[0];
      i, j := 0, k + 1;
    } else {
      assert forall k :: 0 <= k < |c[1..]| ==> c[1..][k] == c[k + 1];
      i, j := Pigeonhole(c[1..], pool - {c[0]});
      i, j := i + 1, j + 1;
    }
  }

  /** A stuck set of tasks contains a cycle. */
  lemma StuckHasCycle<N(!new)>(tasks: seq<N>, deps: map<N, set<N>>, stuck: set<N>)
    requires stuck != {} && stuck <= Members(tasks) && Stuck(deps, stuck)
    ensures !Acyclic(tasks, deps)
  {
    var c := LongChain(tasks, deps, stuck, |stuck| + 1);
    var i, j := Pigeonhole(c, stuck);
    var cycle := c[i..j + 1];
    ChainSlice(tasks, deps, c, i, j + 1);
    assert cycle[0] == cycle[|cycle| - 1];
  }

  /** A deadlock is only reported when a dependency is missing or a cycle exists. */
  lemma UnreadyWaits<N(!new)>(tasks: seq<N>, deps: map<N, set<N>>, completed: set<N>, n: N)
    requires Ready(tasks, deps, completed) == [] && NamesKnown(tasks, deps) && n in tasks && n !in completed
    ensures WaitsIn(deps, n, Members(tasks) - completed)
  {
    ReadyMembers(tasks, deps, completed);
    assert n !in Ready(tasks, deps, completed);
    var d :| d in Deps(deps, n) && d !in completed;
    assert d in Members(tasks) - completed;
  }

  lemma DeadlockIsReal<N(!new)>(tasks: seq<N>, deps: map<N, set<N>>, completed: set<N>)
    requires !(Members(tasks) <= completed) && Ready(tasks, deps, completed) == [] && NamesKnown(tasks, deps)
    ensures !Acyclic(tasks, deps)
  {
    var stuck := Members(tasks) - completed;
    var waiting :| waiting in Members(tasks) && waiting !in completed;
    assert waiting in stuck;
    forall n | n in stuck
      ensures WaitsIn(deps, n, stuck)
    {
      UnreadyWaits(tasks, deps, completed, n);
    }
    StuckHasCycle(tasks, deps, stuck);
  }

  // ----- The whole run

  lemma {:induction false} RunFromCorrect<N(!new), S>(tasks: seq<N>, deps: map<N, set<N>>, exec: Executor<N, S>,
                                             completed: set<N>, state: S, waves: seq<seq<N>>)
    requires Distinct(tasks) && completed == Done(waves)
    requires LogOk(tasks, deps, waves) && NoneLate(tasks, deps, waves)
    ensures var r := RunFrom(tasks, deps, exec, completed, state, waves);
      && LogOk(tasks, deps, r.waves)
      && (r.ok <==> NamesKnown(tasks, deps) && Acyclic(tasks, deps) && r.raised == [])
      && (r.ok ==> Members(tasks) <= Done(r.waves))
      && (r.deadlock ==> r.raised == [] && !(NamesKnown(tasks, deps) && Acyclic(tasks, deps)))
      && (!r.ok && !r.deadlock ==> r.raised != [])
      && (forall n :: n in r.raised ==> n in Done(r.waves))
    decreases Members(tasks) - completed
  {
    var ready := Ready(tasks, deps, completed);
    ReadyMembers(tasks, deps, completed);
    if Members(tasks) <= completed {
      AllDoneIsAcyclic(tasks, deps, waves);
    } else if ready == [] {
      if NamesKnown(tasks, deps) {
        DeadlockIsReal(tasks, deps, completed);
      }
    } else {
      LogGrows(tasks, deps, waves);
      DoneSnoc(waves, ready);
      var (next, raised) := RunWave(exec, ready, state);
      if raised == [] {
        WaveShrinks(tasks, deps, completed);
        RunFromCorrect(tasks, deps, exec, completed + Members(ready), next, waves + [ready]);
      }
    }
  }

  /** `run_plan` returns true exactly when every dependency names a task, the graph is acyclic and no started task
      raised; then every task ran. In every outcome each task starts at most once, after its dependencies, in the wave
      equal to its longest chain, and a deadlock verdict means that a name is missing or a cycle exists. */
  lemma PlanCorrect<N(!new), S>(tasks: seq<N>, deps: map<N, set<N>>, exec: Executor<N, S>, state: S)
    requires Distinct(tasks)
    ensures var r := PlanResult(tasks, deps, exec, state);
      && (r.ok <==> NamesKnown(tasks, deps) && Acyclic(tasks, deps) && r.raised == [])
      && (r.ok ==> Members(tasks) <= Done(r.waves))
      && LogOk(tasks, deps, r.waves)
      && (r.deadlock ==> !(NamesKnown(tasks, deps) && Acyclic(tasks, deps)))
      && (forall w, n :: 0 <= w < |r.waves| && n in r.waves[w] ==>
        && (exists c :: EndsIn(tasks, deps, c, n) && |c| == w + 1)
        && (forall c :: EndsIn(tasks, deps, c, n) ==> |c| <= w + 1))
  {
    var r := PlanResult(tasks, deps, exec, state);
    RunFromCorrect(tasks, deps, exec, {}, state, []);
    forall w: nat, n | w < |r.waves| && n in r.waves[w]
      ensures exists c :: EndsIn(tasks, deps, c, n) && |c| == w + 1
      ensures forall c :: EndsIn(tasks, deps, c, n) ==> |c| <= w + 1
    {
      WaveIsLongestChain(tasks, deps, r.waves, n, w);
    }
  }
}
