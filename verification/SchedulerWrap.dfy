/** Intervals so long that 64-bit sums of ticks wrap: exactly when the pace is still kept. */
module SchedulerWrap {
  import opened Unsigned
  import opened Scheduler
  import opened SchedulerSafety
  import opened SchedulerPace
  import opened SchedulerRuns
  import opened SchedulerLimits

  /** The task in flight was due by a clock reading. */
  predicate OnClock(s: State) {
    && (s.loop.Fetched? ==> s.loop.task.tick <= s.loop.now < s.range)
    && (s.loop.Executed? ==> s.loop.task.tick < s.range)
  }

  lemma StepKeepsOnClock(s: State, a: Action)
    requires OnClock(s) && Enabled(s, a)
    ensures OnClock(Apply(s, a))
  {
  }

  lemma {:induction false} RunOnClocks(run: seq<State>, actions: seq<Action>, k: nat)
    requires Behaviour(run, actions) && k < |run|
    ensures OnClock(run[k])
    decreases k
  {
    if k > 0 {
      RunOnClocks(run, actions, k - 1);
      StepKeepsOnClock(run[k - 1], actions[k - 1]);
    }
  }

  /** Re-insertion moves the tick of a task with this interval back. */
  predicate MovesBack(s: State, interval: nat) {
    && s.loop.Executed? && s.loop.task.interval == interval > 0 && s.loop.task.name in s.names
    && ReInsert(s).queue[s.loop.task.id].tick < s.loop.task.tick
  }

  /** A task registered and run at the last clock reading. */
  lemma LateThread(range: Range, interval: nat) returns (s: State)
    requires 0 < interval < U64 && range > 0
    ensures Reaches(s) && Ids(s) && s.names == {"p"} && s.range == range && s.clock == range - 1 && s.queue == map[]
    ensures s.loop == Executed(Task(1, "p", false, interval, 0, 0, 0, [], range - 1))
    ensures s.made == map[1 := s.loop.task] && History(s, 1) == [Tick(range - 1, range - 1, true)]
  {
    s := OneThread(range, interval, range - 1);
    s := FetchAndRun(s, 1, range - 1);
  }

  /** For every clock range: some reachable re-insertion of a task with this interval moves its tick
      back, exactly when a reading and the interval can add up to 2^64. */
  lemma MovesBackIff(range: Range, interval: nat)
    requires 0 < interval < U64 && range > 0
    ensures (exists s :: Reaches(s) && s.range == range && MovesBack(s, interval)) <==> interval > U64 - range
  {
    if interval > U64 - range {
      var s := LateThread(range, interval);
      assert MovesBack(s, interval);
    } else {
      forall s | Reaches(s) && s.range == range ensures !MovesBack(s, interval) {
        var run: seq<State>, actions: seq<Action> :| Behaviour(run, actions) && run[|actions|] == s;
        RunOnClocks(run, actions, |actions|);
      }
    }
  }

  /** A clock reading plus one interval fits in 64 bits, and so do two intervals; or else two
      intervals wrap, but to at least the greatest lateness. */
  predicate PlainInterval(interval: nat, range: Range) {
    Unwrapped(interval, range) && (interval < U64 / 2 || 2 * interval - U64 >= range - 1)
  }

  /** Punctual within two intervals, and ticks one interval apart or counted from a late fetch. */
  ghost predicate PlainLaw(h: seq<Tick>, interval: nat, range: Range) {
    && (forall k :: 0 <= k < |h| ==> Punctual(h[k], 2 * interval, range))
    && (forall j, k :: 0 <= j < |h| && 0 <= k < |h| && k == j + 1 ==> Follows(h[j], h[k], interval))
  }

  predicate Follows(e: Tick, f: Tick, interval: nat) {
    f.due == (if e.ran then e.due else e.at) + interval && e.at <= f.at
  }

  predicate Runs(s: State, id: nat, interval: nat, range: Range) {
    s.range == range && id in s.made && s.made[id].interval == interval && s.made[id].countLimit == 0
  }

  /** In every reachable state every periodic task with this interval has kept the plain law. */
  ghost predicate KeepsPlainLaw(interval: nat, range: Range) {
    forall s, id :: Reaches(s) && Runs(s, id, interval, range) ==> PlainLaw(History(s, id), interval, range)
  }

  lemma ReachedTicks(s: State, id: nat, interval: nat)
    requires Reaches(s) && Runs(s, id, interval, s.range) && interval > 0
    ensures TickLaw(History(s, id), interval, s.range)
  {
    var run: seq<State>, actions: seq<Action> :| Behaviour(run, actions) && run[|actions|] == s;
    PeriodicTicks(run, actions, |actions|, id);
  }

  lemma LawIsPlain(h: seq<Tick>, interval: nat, range: Range)
    requires TickLaw(h, interval, range) && 0 < interval < U64 && PlainInterval(interval, range)
    ensures PlainLaw(h, interval, range)
  {
    forall k | 0 <= k < |h| ensures Punctual(h[k], 2 * interval, range) {
      assert Punctual(h[k], Patience(interval), range);
    }
    forall j, k | 0 <= j < |h| && 0 <= k < |h| && k == j + 1 ensures Follows(h[j], h[k], interval) {
      assert Succeeds(h[j], h[k], interval) && Punctual(h[j], Patience(interval), range);
    }
  }

  /** Two intervals wrap to less than the greatest lateness: a tick is reset although it is less than
      two intervals late. */
  lemma EarlyReset(range: Range, interval: nat) returns (s: State)
    requires U64 / 2 <= interval < U64 && 2 * interval - U64 < range - 1
    ensures Reaches(s) && Runs(s, 1, interval, range) && !PlainLaw(History(s, 1), interval, range)
  {
    s := OneThread(range, interval, 0);
    s := FetchAndRun(s, 1, range - 1);
    assert !Punctual(History(s, 1)[0], 2 * interval, range);
  }

  /** A reading and the interval add up to 2^64: the tick after the first lies before it. */
  lemma WrappedTick(range: Range, interval: nat) returns (s: State)
    requires U64 - range < interval < U64 && range > 0
    ensures Reaches(s) && Runs(s, 1, interval, range) && !PlainLaw(History(s, 1), interval, range)
  {
    s := LateThread(range, interval);
    s := Go(s, DoReInsert);
    s := FetchAndRun(s, 1, range - 1);
    assert !Follows(History(s, 1)[0], History(s, 1)[1], interval);
  }

  /** For every clock range, the plain law holds in all runs exactly for these intervals. */
  lemma PlainLawIff(range: Range, interval: nat)
    requires 0 < interval < U64 && range > 0
    ensures KeepsPlainLaw(interval, range) <==> PlainInterval(interval, range)
  {
    if PlainInterval(interval, range) {
      forall s, id | Reaches(s) && Runs(s, id, interval, range) ensures PlainLaw(History(s, id), interval, range) {
        ReachedTicks(s, id, interval);
        LawIsPlain(History(s, id), interval, range);
      }
    } else if Unwrapped(interval, range) {
      var s := EarlyReset(range, interval);
    } else {
      var s := WrappedTick(range, interval);
    }
  }

  // The rate ------------------------------------------------------------------------------

  /** In every reachable state, every clock window of length T holds at most T / interval + 3 body
      executions of each periodic task with this interval. */
  ghost predicate KeepsRate(interval: nat, range: Range)
    requires interval > 0
  {
    forall s, id, a: int, b: int {:trigger Reaches(s), Runs(s, id, interval, range), Window(a, b)} ::
      Reaches(s) && Runs(s, id, interval, range) && Window(a, b) ==>
        Executions(History(s, id), |History(s, id)|, a, b) <= (b - a) / interval + 3
  }

  predicate Window(a: int, b: int) { a <= b }

  /** A reading and the interval can add up to 2^64, in a clock range of at most a third of that. */
  predicate Wraps(interval: nat, range: Range) { U64 - range < interval < U64 && 3 * range <= U64 }

  /** Then each tick lies 2^64 - interval before the last. */
  lemma {:induction false} TicksFall(h: seq<Tick>, interval: nat, range: Range, k: nat)
    requires TickLaw(h, interval, range) && Wraps(interval, range) && k < |h|
    ensures h[k].due == h[0].due - k * (U64 - interval)
    decreases k
  {
    if k > 0 {
      TicksFall(h, interval, range, k - 1);
      FallsOnce(h, interval, range, k);
      assert k * (U64 - interval) == (k - 1) * (U64 - interval) + (U64 - interval);
    }
  }

  lemma FallsOnce(h: seq<Tick>, interval: nat, range: Range, k: nat)
    requires TickLaw(h, interval, range) && Wraps(interval, range) && 0 < k < |h|
    ensures h[k].due == h[k - 1].due - (U64 - interval)
  {
    var e, f := h[k - 1], h[k];
    assert Succeeds(e, f, interval) && Punctual(e, Patience(interval), range) && Punctual(f, Patience(interval), range);
    assert Patience(interval) == 2 * interval - U64;
  }

  lemma {:induction false} AtMost(h: seq<Tick>, k: nat, a: int, b: int)
    requires k <= |h|
    ensures Executions(h, k, a, b) <= k
  {
    if k > 0 {
      AtMost(h, k - 1, a, b);
    }
  }

  lemma FewTicks(h: seq<Tick>, interval: nat, range: Range)
    requires TickLaw(h, interval, range) && Wraps(interval, range) && 3 * (U64 - interval) >= range
    ensures |h| <= 3
  {
    if |h| > 3 {
      assert Punctual(h[0], Patience(interval), range);
      TicksFall(h, interval, range, 3);
    }
  }

  lemma RateHolds(s: State, id: nat, interval: nat, range: Range, a: int, b: int)
    requires Reaches(s) && Runs(s, id, interval, range) && a <= b && 0 < interval < U64
    requires 3 * (U64 - interval) >= range && 3 * range <= U64
    ensures Executions(History(s, id), |History(s, id)|, a, b) <= (b - a) / interval + 3
  {
    if Unwrapped(interval, range) {
      UnwrappedRate(s, id, interval, range, a, b);
    } else {
      ReachedTicks(s, id, interval);
      FewTicks(History(s, id), interval, range);
      AtMost(History(s, id), |History(s, id)|, a, b);
      NoLess(b - a, interval);
    }
  }

  lemma UnwrappedRate(s: State, id: nat, interval: nat, range: Range, a: int, b: int)
    requires Reaches(s) && Runs(s, id, interval, range) && a <= b && 0 < interval && Unwrapped(interval, range)
    ensures Executions(History(s, id), |History(s, id)|, a, b) <= (b - a) / interval + 3
  {
    var run: seq<State>, actions: seq<Action> :| Behaviour(run, actions) && run[|actions|] == s;
    RateBound(run, actions, |actions|, id, a, b);
  }

  lemma NoLess(t: nat, i: nat)
    requires i > 0
    ensures t / i >= 0
  {
  }

  /** Re-insert, fetch and run the only task again, at the same clock reading. */
  lemma RunAgain(s: State, d: nat) returns (t: State)
    requires 0 < 3 * d < s.range && 3 * s.range <= U64 && Reaches(s) && Ids(s) && s.loop.Executed? && s.queue == map[]
    requires s.loop.task.name in s.names && s.loop.task.name != ""
    requires s.loop.task.interval == U64 - d && s.loop.task.countLimit == 0
    requires d <= s.loop.task.tick < s.range && s.clock == s.range - 1
    requires s.loop.task.tick >= s.range - 1 - 2 * d
    ensures Reaches(t) && Ids(t) && t.queue == map[] && t.names == s.names
    ensures t.clock == s.clock && t.made == s.made && t.range == s.range
    ensures t.loop == Executed(s.loop.task.(tick := s.loop.task.tick - d))
    ensures History(t, s.loop.task.id) == History(s, s.loop.task.id) + [Tick(s.loop.task.tick - d, s.clock, true)]
  {
    var task := s.loop.task;
    t := Go(s, DoReInsert);
    assert t.queue == map[task.id := task.(tick := task.tick - d)];
    t := FetchAndRun(t, task.id, s.clock);
  }

  /** Four executions at one clock reading. */
  lemma FourAtOnce(range: Range, interval: nat) returns (s: State)
    requires 0 < interval < U64 && 3 * (U64 - interval) < range && 3 * range <= U64
    ensures Reaches(s) && Runs(s, 1, interval, range)
    ensures |History(s, 1)| == 4 &&
      forall k :: 0 <= k < 4 ==> History(s, 1)[k].ran && History(s, 1)[k].at == range - 1
  {
    var d := U64 - interval;
    s := LateThread(range, interval);
    assert Runs(s, 1, interval, range);
    s := RunAgain(s, d);
    s := RunAgain(s, d);
    s := RunAgain(s, d);
  }

  lemma FourCount(h: seq<Tick>, at: nat)
    requires |h| == 4 && forall k :: 0 <= k < 4 ==> h[k].ran && h[k].at == at
    ensures Executions(h, 4, at, at) == 4
  {
    assert Executions(h, 1, at, at) == 1;
    assert Executions(h, 2, at, at) == 2;
    assert Executions(h, 3, at, at) == 3;
  }

  lemma FourInNoTime(range: Range, interval: nat)
    requires 0 < interval < U64 && 3 * (U64 - interval) < range && 3 * range <= U64
    ensures !KeepsRate(interval, range)
  {
    var s := FourAtOnce(range, interval);
    var at := range - 1;
    FourCount(History(s, 1), at);
    assert Window(at, at) && (at - at) / interval == 0;
  }

  /** For every clock range of at most a third of 2^64, the rate bound holds in all runs exactly when
      2^64 exceeds the interval by at least a third of the range. */
  lemma RateIff(range: Range, interval: nat)
    requires 0 < interval < U64 && 0 < 3 * range <= U64
    ensures KeepsRate(interval, range) <==> 3 * (U64 - interval) >= range
  {
    if 3 * (U64 - interval) >= range {
      forall s, id, a: int, b: int | Reaches(s) && Runs(s, id, interval, range) && Window(a, b)
        ensures Executions(History(s, id), |History(s, id)|, a, b) <= (b - a) / interval + 3
      {
        RateHolds(s, id, interval, range, a, b);
      }
    } else {
      FourInNoTime(range, interval);
    }
  }
}
