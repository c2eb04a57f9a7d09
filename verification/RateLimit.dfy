/** The fixed-window rate limiter: one counter per key, which expires a window after its first request. */
module RateLimit {
  import opened Options

  type Positive = n: nat | n > 0 witness 1

  /** A Redis key: absent, or counting since `start`. */
  datatype Counter = Idle | Counting(start: int, count: Positive)

  /** A request at some time; `up` says whether Redis answers it. */
  datatype Arrival = Arrival(time: int, up: bool)

  /** INCR, and EXPIRE on the first increment, as one step; an expired key counts from one again. */
  function Incremented(c: Counter, now: int, window: nat): (next: Counter)
    ensures next.Counting?
  {
    match c
    case Idle => Counting(now, 1)
    case Counting(start, count) => if now >= start + window then Counting(now, 1) else Counting(start, count + 1)
  }

  /** The key after an arrival; a failing Redis counts nothing. */
  function After(c: Counter, a: Arrival, window: nat): Counter {
    if a.up then Incremented(c, a.time, window) else c
  }

  /** The limiter fails open. */
  predicate Admitted(c: Counter, a: Arrival, limit: nat, window: nat) {
    !a.up || Incremented(c, a.time, window).count <= limit
  }

  /** A connection to the counters of one action and identity each. */
  class Redis {
    var keys: map<string, Counter>

    constructor ()
      ensures keys == map[]
    {
      keys := map[];
    }
  }

  function Lookup(keys: map<string, Counter>, key: string): Counter {
    if key in keys then keys[key] else Idle
  }

  method IncrWithExpire(redis: Redis, key: string, now: int, up: bool, window: nat) returns (count: Option<nat>)
    modifies redis
    ensures if up then
              var next := Incremented(if key in old(redis.keys) then old(redis.keys)[key] else Idle, now, window);
              count == Some(next.count) && redis.keys == old(redis.keys)[key := next]
            else count == None && redis.keys == old(redis.keys)
  {
    if !up {
      return None;
    }
    var c := Lookup(redis.keys, key);
    if c.Counting? && now >= c.start + window {
      c := Idle;
    }
    var n: nat := if c.Counting? then c.count + 1 else 1;
    if n == 1 {
      redis.keys := redis.keys[key := Counting(now, 1)];
    } else {
      redis.keys := redis.keys[key := c.(count := n)];
    }
    return Some(n);
  }

  /** A rate-limited request: refused with 429 when its count exceeds the limit; other keys are not touched. */
  method Check(redis: Redis, key: string, a: Arrival, limit: nat, window: nat) returns (r: Result<()>)
    modifies redis
    ensures key in old(redis.keys) ==>
      r == if Admitted(old(redis.keys)[key], a, limit, window) then Success(()) else Failure(429)
    ensures key !in old(redis.keys) ==> r == if Admitted(Idle, a, limit, window) then Success(()) else Failure(429)
    ensures a.up ==> redis.keys == old(redis.keys)[key := After(if key in old(redis.keys) then old(redis.keys)[key] else Idle, a, window)]
    ensures !a.up ==> redis.keys == old(redis.keys)
  {
    var count := IncrWithExpire(redis, key, a.time, a.up, window);
    if count.None? {
      return Success(());
    }
    if count.value > limit {
      return Failure(429);
    }
    return Success(());
  }

  // ----- Bounds over runs

  ghost predicate InOrder(arrivals: seq<Arrival>) {
    forall i, j :: 0 <= i < j < |arrivals| ==> arrivals[i].time <= arrivals[j].time
  }

  ghost predicate NotBefore(arrivals: seq<Arrival>, time: int) {
    forall i :: 0 <= i < |arrivals| ==> arrivals[i].time >= time
  }

  predicate Within(a: Arrival, from_: int, window: nat) {
    from_ <= a.time < from_ + window
  }

  /** How many arrivals of the interval that starts at `from_` and is one window long are counted and admitted. */
  function Passed(c: Counter, arrivals: seq<Arrival>, limit: nat, window: nat, from_: int): nat
    decreases |arrivals|
  {
    if arrivals == [] then 0
    else
      var a := arrivals[0];
      (if a.up && Within(a, from_, window) && Admitted(c, a, limit, window) then 1 else 0)
      + Passed(After(c, a, window), arrivals[1..], limit, window, from_)
  }

  function Room(c: Counter, limit: nat): nat {
    if c.Idle? then limit else if c.count >= limit then 0 else limit - c.count
  }

  lemma Rest(arrivals: seq<Arrival>)
    requires arrivals != [] && InOrder(arrivals)
    ensures InOrder(arrivals[1..]) && NotBefore(arrivals[1..], arrivals[0].time)
  {
  }

  /** Once a counter has started inside the interval, it covers the rest of it. */
  lemma {:induction false} LastCounter(c: Counter, arrivals: seq<Arrival>, limit: nat, window: nat, from_: int)
    requires InOrder(arrivals) && c.Counting? && c.start >= from_ && NotBefore(arrivals, c.start)
    ensures Passed(c, arrivals, limit, window, from_) <= Room(c, limit)
    decreases |arrivals|
  {
    if arrivals != [] {
      Rest(arrivals);
      var a := arrivals[0];
      var next := After(c, a, window);
      LastCounter(next, arrivals[1..], limit, window, from_);
      if a.up && a.time >= c.start + window {
        OutsideForever(next, arrivals[1..], limit, window, from_);
      }
    }
  }

  lemma {:induction false} OutsideForever(c: Counter, arrivals: seq<Arrival>, limit: nat, window: nat, from_: int)
    requires NotBefore(arrivals, from_ + window)
    ensures Passed(c, arrivals, limit, window, from_) == 0
    decreases |arrivals|
  {
    if arrivals != [] {
      assert arrivals[0].time >= from_ + window;
      OutsideForever(After(c, arrivals[0], window), arrivals[1..], limit, window, from_);
    }
  }

  /** From the start of the interval on, the running counter fills up and at most one more follows. */
  lemma {:induction false} FirstCounter(c: Counter, arrivals: seq<Arrival>, limit: nat, window: nat, from_: int)
    requires InOrder(arrivals) && NotBefore(arrivals, from_) && c.Counting? && c.start < from_
    ensures Passed(c, arrivals, limit, window, from_) <= Room(c, limit) + limit
    decreases |arrivals|
  {
    if arrivals != [] {
      Rest(arrivals);
      var a := arrivals[0];
      var next := After(c, a, window);
      assert a.time >= from_;
      if next.start < from_ {
        FirstCounter(next, arrivals[1..], limit, window, from_);
      } else {
        LastCounter(next, arrivals[1..], limit, window, from_);
      }
    }
  }

  lemma {:induction false} AnyCounter(c: Counter, arrivals: seq<Arrival>, limit: nat, window: nat, from_: int)
    requires InOrder(arrivals) && limit >= 1
    requires c.Counting? ==> c.start < from_
    ensures Passed(c, arrivals, limit, window, from_) <= 2 * limit - 1
    decreases |arrivals|
  {
    if arrivals != [] {
      Rest(arrivals);
      var a := arrivals[0];
      if a.time < from_ || !a.up {
        AnyCounter(After(c, a, window), arrivals[1..], limit, window, from_);
      } else {
        var next := After(c, a, window);
        if next.start < from_ {
          FirstCounter(next, arrivals[1..], limit, window, from_);
        } else {
          LastCounter(next, arrivals[1..], limit, window, from_);
        }
      }
    }
  }

  /** Any half-open interval as long as the window has at most `2 * limit - 1` counted requests let through, and none when
      the limit is zero; an arrival that Redis does not answer is let through but neither counts nor resets a counter. */
  lemma IntervalBound(arrivals: seq<Arrival>, limit: nat, window: nat, from_: int)
    requires InOrder(arrivals)
    ensures Passed(Idle, arrivals, limit, window, from_) <= if limit == 0 then 0 else 2 * limit - 1
  {
    if limit == 0 {
      NoneAdmitted(Idle, arrivals, window, from_);
    } else {
      AnyCounter(Idle, arrivals, limit, window, from_);
    }
  }

  lemma {:induction false} NoneAdmitted(c: Counter, arrivals: seq<Arrival>, window: nat, from_: int)
    ensures Passed(c, arrivals, 0, window, from_) == 0
    decreases |arrivals|
  {
    if arrivals != [] {
      NoneAdmitted(After(c, arrivals[0], window), arrivals[1..], window, from_);
    }
  }

  // ----- The bound is reached

  function Burst(time: int, n: nat): seq<Arrival> {
    seq(n, i => Arrival(time, true))
  }

  lemma BurstTail(time: int, n: nat)
    requires n > 0
    ensures Burst(time, n)[0] == Arrival(time, true) && Burst(time, n)[1..] == Burst(time, n - 1)
  {
  }

  /** A burst inside the interval and inside a running counter fills the counter's room. */
  lemma {:induction false} BurstFills(c: Counter, time: int, n: nat, more: seq<Arrival>, limit: nat, window: nat, from_: int)
    requires c.Counting? && time < c.start + window && from_ <= time < from_ + window && n <= Room(c, limit)
    ensures Passed(c, Burst(time, n) + more, limit, window, from_)
         == n + Passed(Counting(c.start, c.count + n), more, limit, window, from_)
    decreases n
  {
    if n == 0 {
      assert Burst(time, n) + more == more;
    } else {
      BurstTail(time, n);
      assert (Burst(time, n) + more)[1..] == Burst(time, n - 1) + more;
      BurstFills(Counting(c.start, c.count + 1), time, n - 1, more, limit, window, from_);
    }
  }

  /** One early request, `limit - 1` at the end of its window and `limit` at the start of the next. */
  function Straddling(limit: nat, window: nat): seq<Arrival>
    requires limit >= 1
  {
    [Arrival(0, true)] + (Burst(window - 1, limit - 1) + (Burst(window, limit) + []))
  }

  /** The bound is tight for every limit and every window of at least two time units. */
  lemma BoundIsReached(limit: nat, window: nat)
    requires limit >= 1 && window >= 2
    ensures InOrder(Straddling(limit, window))
    ensures Passed(Idle, Straddling(limit, window), limit, window, window - 1) == 2 * limit - 1
  {
    var all := Straddling(limit, window);
    var late := Burst(window, limit) + [];
    assert all[1..] == Burst(window - 1, limit - 1) + late;
    BurstFills(Counting(0, 1), window - 1, limit - 1, late, limit, window, window - 1);
    BurstTail(window, limit);
    assert late[1..] == Burst(window, limit - 1) + [];
    BurstFills(Counting(window, 1), window, limit - 1, [], limit, window, window - 1);
  }

  // ----- Each window

  function CounterAt(arrivals: seq<Arrival>, window: nat, i: nat): Counter
    requires i <= |arrivals|
  {
    if i == 0 then Idle else After(CounterAt(arrivals, window, i - 1), arrivals[i - 1], window)
  }

  /** The arrival is counted and starts a counter. */
  predicate Opens(arrivals: seq<Arrival>, window: nat, i: nat)
    requires i < |arrivals|
  {
    var c := CounterAt(arrivals, window, i);
    arrivals[i].up && (c.Counting? ==> arrivals[i].time >= c.start + window)
  }

  /** How many arrivals from the i-th up to the j-th, excluding it, Redis answers. */
  function Answered(arrivals: seq<Arrival>, i: nat, j: nat): nat
    requires i <= j <= |arrivals|
    decreases j
  {
    if i == j then 0 else Answered(arrivals, i, j - 1) + if arrivals[j - 1].up then 1 else 0
  }

  lemma {:induction false} CounterInWindow(arrivals: seq<Arrival>, window: nat, i: nat, j: nat)
    requires InOrder(arrivals) && i < j <= |arrivals| && Opens(arrivals, window, i)
    requires forall k :: i <= k < j ==> arrivals[k].time < arrivals[i].time + window
    ensures Answered(arrivals, i, j) > 0
    ensures CounterAt(arrivals, window, j) == Counting(arrivals[i].time, Answered(arrivals, i, j))
    decreases j
  {
    if i + 1 < j {
      CounterInWindow(arrivals, window, i, j - 1);
    } else {
      assert Answered(arrivals, i, i) == 0;
    }
  }

  /** In any run, with any outages: of the requests that Redis answers in one window, exactly the first `limit` pass. */
  lemma WindowAdmitsFirst(arrivals: seq<Arrival>, limit: nat, window: nat, i: nat, j: nat)
    requires InOrder(arrivals) && i <= j < |arrivals| && Opens(arrivals, window, i)
    requires arrivals[j].up && arrivals[j].time < arrivals[i].time + window
    ensures Admitted(CounterAt(arrivals, window, j), arrivals[j], limit, window) <==> Answered(arrivals, i, j) < limit
  {
    CounterInWindow(arrivals, window, i, j + 1);
    assert Incremented(CounterAt(arrivals, window, j), arrivals[j].time, window) == CounterAt(arrivals, window, j + 1);
  }

  /** A counter that an arrival starts lets at most `limit` counted requests through before it expires. */
  lemma WindowFromOpening(c: Counter, a: Arrival, rest: seq<Arrival>, limit: nat, window: nat)
    requires a.up && (c.Counting? ==> a.time >= c.start + window) && InOrder([a] + rest)
    ensures Passed(c, [a] + rest, limit, window, a.time) <= limit
  {
    assert ([a] + rest)[1..] == rest;
    Rest([a] + rest);
    if limit == 0 {
      NoneAdmitted(c, [a] + rest, window, a.time);
    } else {
      LastCounter(After(c, a, window), rest, limit, window, a.time);
    }
  }

  /** Whatever came before lies outside the window that the i-th arrival opens. */
  lemma {:induction false} EarlierAnswers(arrivals: seq<Arrival>, window: nat, i: nat, j: nat)
    requires InOrder(arrivals) && j < i <= |arrivals| && arrivals[j].up && window > 0
    ensures CounterAt(arrivals, window, i).Counting?
    ensures arrivals[j].time < CounterAt(arrivals, window, i).start + window
    decreases i
  {
    if j + 1 < i {
      EarlierAnswers(arrivals, window, i - 1, j);
    }
  }

  lemma {:induction false} SkipBefore(arrivals: seq<Arrival>, limit: nat, window: nat, from_: int, i: nat, j: nat)
    requires j <= i <= |arrivals|
    requires forall k :: j <= k < i && arrivals[k].up ==> arrivals[k].time < from_
    ensures Passed(CounterAt(arrivals, window, j), arrivals[j..], limit, window, from_)
         == Passed(CounterAt(arrivals, window, i), arrivals[i..], limit, window, from_)
    decreases i - j
  {
    if j < i {
      assert arrivals[j..][0] == arrivals[j] && arrivals[j..][1..] == arrivals[j + 1..];
      SkipBefore(arrivals, limit, window, from_, i, j + 1);
    }
  }

  /** For any sequence of request times, with any outages, each window accepts at most `limit` counted requests. */
  lemma WindowBound(arrivals: seq<Arrival>, limit: nat, window: nat, i: nat)
    requires InOrder(arrivals) && i < |arrivals| && Opens(arrivals, window, i)
    ensures Passed(Idle, arrivals, limit, window, arrivals[i].time) <= limit
  {
    if window == 0 {
      EmptyInterval(Idle, arrivals, limit, arrivals[i].time);
    } else {
      forall k | 0 <= k < i && arrivals[k].up
        ensures arrivals[k].time < arrivals[i].time
      {
        EarlierAnswers(arrivals, window, i, k);
      }
      assert arrivals[0..] == arrivals && arrivals[i..] == [arrivals[i]] + arrivals[i + 1..];
      SkipBefore(arrivals, limit, window, arrivals[i].time, i, 0);
      WindowFromOpening(CounterAt(arrivals, window, i), arrivals[i], arrivals[i + 1..], limit, window);
    }
  }

  lemma {:induction false} EmptyInterval(c: Counter, arrivals: seq<Arrival>, limit: nat, from_: int)
    ensures Passed(c, arrivals, limit, 0, from_) == 0
    decreases |arrivals|
  {
    if arrivals != [] {
      EmptyInterval(After(c, arrivals[0], 0), arrivals[1..], limit, from_);
    }
  }
}
