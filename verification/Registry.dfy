/** The plan registry: plan classes register at import time, and an index by event type is built from them. */
module Registry {
  import opened Sorting
  import opened Dispatch

  datatype PlanClass = PlanClass(plan: Plan, events: seq<string>)

  /** The plan once for each mention of the event. */
  function Mentions(plan: Plan, events: seq<string>, event: string): seq<Plan> {
    if events == [] then []
    else Mentions(plan, events[..|events| - 1], event) + if events[|events| - 1] == event then [plan] else []
  }

  /** The plans of an event in registration order. */
  function Entries(classes: seq<PlanClass>, event: string): seq<Plan> {
    if classes == [] then []
    else
      var last := classes[|classes| - 1];
      Entries(classes[..|classes| - 1], event) + Mentions(last.plan, last.events, event)
  }

  /** The dictionary holds these entries for an event, and has no key for an event without any. */
  ghost predicate HoldsAt(index: map<string, seq<Plan>>, event: string, entries: seq<Plan>) {
    if event in index then index[event] == entries && entries != [] else entries == []
  }

  /** All classes in `done` are indexed. */
  ghost predicate Indexed(index: map<string, seq<Plan>>, done: seq<PlanClass>) {
    forall e: string :: HoldsAt(index, e, Entries(done, e))
  }

  /** All classes in `done` and some events of one more are indexed. */
  ghost predicate PartlyIndexed(index: map<string, seq<Plan>>, done: seq<PlanClass>, plan: Plan, events: seq<string>) {
    forall e: string :: HoldsAt(index, e, Entries(done, e) + Mentions(plan, events, e))
  }

  class PlanRegistry {
    var classes: seq<PlanClass>

    /** No class is registered twice. */
    ghost predicate Valid()
      reads this
    {
      Distinct(classes)
    }

    constructor ()
      ensures Valid() && classes == []
    {
      classes := [];
    }

    /** `register_plan`: the class is registered after the call, earlier classes keep their places, and nothing else joins. */
    method Register(c: PlanClass)
      requires Valid()
      modifies this
      ensures Valid() && old(classes) <= classes
      ensures forall d :: d in classes <==> d in old(classes) || d == c
    {
      if c !in classes {
        classes := classes + [c];
      }
    }

    /** Importing the plan modules, some of them repeatedly. */
    method RegisterAll(cs: seq<PlanClass>)
      requires Valid()
      modifies this
      ensures Valid() && old(classes) <= classes
      ensures forall d :: d in classes <==> d in old(classes) || d in cs
    {
      for i := 0 to |cs|
        invariant Valid() && old(classes) <= classes
        invariant forall d :: d in classes <==> d in old(classes) || d in cs[..i]
      {
        Register(cs[i]);
      }
    }

    method BuildEventPlanIndex() returns (index: map<string, seq<Plan>>)
      ensures forall e: string :: (e in index <==> Entries(classes, e) != [])
      ensures forall e: string :: e in index ==> index[e] == PlanIndex(Entries(classes, e))
    {
      var grouped := GroupByEvent(classes);
      index := map e | e in grouped :: PlanIndex(grouped[e]);
      assert forall e: string :: HoldsAt(grouped, e, Entries(classes, e));
    }
  }

  method GroupByEvent(classes: seq<PlanClass>) returns (index: map<string, seq<Plan>>)
    ensures Indexed(index, classes)
  {
    index := map[];
    for i := 0 to |classes|
      invariant Indexed(index, classes[..i])
    {
      index := AddClass(index, classes[..i], classes[i]);
      assert classes[..i + 1] == classes[..i] + [classes[i]];
    }
    assert classes[..|classes|] == classes;
  }

  /** The inner loop: `setdefault(event, []).append(plan)` for each event of one class. */
  method AddClass(index: map<string, seq<Plan>>, ghost done: seq<PlanClass>, c: PlanClass)
    returns (next: map<string, seq<Plan>>)
    requires Indexed(index, done)
    ensures Indexed(next, done + [c])
  {
    next := index;
    assert forall e: string :: HoldsAt(index, e, Entries(done, e)) && Entries(done, e) + [] == Entries(done, e);
    for j := 0 to |c.events|
      invariant PartlyIndexed(next, done, c.plan, c.events[..j])
    {
      EventAdded(next, done, c.plan, c.events, j);
      next := Appended(next, c.events[j], c.plan);
    }
    assert c.events[..|c.events|] == c.events;
    assert (done + [c])[..|done|] == done;
    assert forall e: string :: HoldsAt(next, e, Entries(done, e) + Mentions(c.plan, c.events, e));
  }

  function Appended(index: map<string, seq<Plan>>, event: string, plan: Plan): map<string, seq<Plan>> {
    index[event := (if event in index then index[event] else []) + [plan]]
  }

  lemma EventAdded(index: map<string, seq<Plan>>, done: seq<PlanClass>, plan: Plan, events: seq<string>, j: nat)
    requires j < |events| && PartlyIndexed(index, done, plan, events[..j])
    ensures PartlyIndexed(Appended(index, events[j], plan), done, plan, events[..j + 1])
  {
    forall e: string
      ensures HoldsAt(Appended(index, events[j], plan), e, Entries(done, e) + Mentions(plan, events[..j + 1], e))
    {
      assert HoldsAt(index, e, Entries(done, e) + Mentions(plan, events[..j], e));
      EntryAdded(index, done, plan, events, j, e);
    }
  }

  lemma EntryAdded(index: map<string, seq<Plan>>, done: seq<PlanClass>, plan: Plan, events: seq<string>, j: nat, e: string)
    requires j < |events| && HoldsAt(index, e, Entries(done, e) + Mentions(plan, events[..j], e))
    ensures HoldsAt(Appended(index, events[j], plan), e, Entries(done, e) + Mentions(plan, events[..j + 1], e))
  {
    var before, some := Entries(done, e), Mentions(plan, events[..j], e);
    assert events[..j + 1][..j] == events[..j];
    if events[j] == e {
      assert before + (some + [plan]) == before + some + [plan];
    } else {
      assert some + [] == some;
    }
  }

  // ----- A plan is executed once per event

  lemma {:induction false} MentionsOf(plan: Plan, events: seq<string>, event: string)
    ensures forall x :: x in Mentions(plan, events, event) <==> x == plan && event in events
    ensures event !in events ==> Mentions(plan, events, event) == []
    ensures Distinct(events) ==> |Mentions(plan, events, event)| <= 1
  {
    if events != [] {
      var init, last := events[..|events| - 1], events[|events| - 1];
      MentionsOf(plan, init, event);
      assert events == init + [last];
      if Distinct(events) && last == event {
        LastIsNew(init, last);
      }
    }
  }

  lemma LastIsNew<T>(init: seq<T>, last: T)
    requires Distinct(init + [last])
    ensures last !in init && Distinct(init)
  {
    var all := init + [last];
    assert all[|init|] == last;
    assert forall i :: 0 <= i < |init| ==> all[i] == init[i];
  }

  lemma AppendDistinct<T>(a: seq<T>, b: seq<T>)
    requires Distinct(a) && |b| <= 1 && forall x :: x in b ==> x !in a
    ensures Distinct(a + b)
  {
    assert |b| == 1 ==> b[0] in b;
  }

  lemma {:induction false} EntriesOf(classes: seq<PlanClass>, event: string)
    ensures forall x :: x in Entries(classes, event) <==> exists c :: c in classes && c.plan == x && event in c.events
  {
    if classes != [] {
      var init, last := classes[..|classes| - 1], classes[|classes| - 1];
      EntriesOf(init, event);
      MentionsOf(last.plan, last.events, event);
      assert classes == init + [last];
    }
  }

  /** Different classes are different plans, and none lists an event twice. */
  ghost predicate WellDeclared(classes: seq<PlanClass>) {
    && (forall c, d :: c in classes && d in classes && c.plan == d.plan ==> c == d)
    && (forall c :: c in classes ==> Distinct(c.events))
  }

  /** In a valid registry an event meets each of its plans exactly once, however often the plan's module was imported. */
  lemma {:induction false} EachPlanOnce(classes: seq<PlanClass>, event: string)
    requires Distinct(classes) && WellDeclared(classes)
    ensures Distinct(Entries(classes, event))
    ensures forall x :: x in Entries(classes, event) <==> exists c :: c in classes && c.plan == x && event in c.events
  {
    EntriesOf(classes, event);
    if classes != [] {
      var init, last := classes[..|classes| - 1], classes[|classes| - 1];
      assert classes == init + [last];
      LastIsNew(init, last);
      assert last in classes;
      EachPlanOnce(init, event);
      MentionsOf(last.plan, last.events, event);
      NotInInit(init, last, event);
      AppendDistinct(Entries(init, event), Mentions(last.plan, last.events, event));
    }
  }

  lemma NotInInit(init: seq<PlanClass>, last: PlanClass, event: string)
    requires Distinct(init + [last]) && WellDeclared(init + [last])
    ensures last.plan !in Entries(init, event)
  {
    EntriesOf(init, event);
    var all := init + [last];
    assert all[|init|] == last;
    forall c | c in init
      ensures c.plan != last.plan
    {
      var i :| 0 <= i < |init| && init[i] == c;
      assert all[i] == c && c in all && last in all;
    }
  }
}
