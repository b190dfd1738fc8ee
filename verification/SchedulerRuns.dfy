/** What every run of the scheduler guarantees. */
module SchedulerRuns {
  import opened Unsigned
  import opened Scheduler
  import opened SchedulerSafety
  import opened SchedulerPace

  ghost predicate Behaviour(run: seq<State>, actions: seq<Action>) {
    Execution(run, actions) && run[0] == Start(run[0].range)
  }

  lemma {:induction false} RunSafety(run: seq<State>, actions: seq<Action>, k: nat)
    requires Behaviour(run, actions) && k < |run|
    ensures Ids(run[k]) && NoEmptyName(run[k]) && Capacity(run[k]) && Wakeful(run[k])
    decreases k
  {
    if k > 0 {
      RunSafety(run, actions, k - 1);
      StepKeepsIds(run[k - 1], actions[k - 1]);
      StepKeepsNoEmptyName(run[k - 1], actions[k - 1]);
      StepKeepsCapacity(run[k - 1], actions[k - 1]);
      StepKeepsWakeful(run[k - 1], actions[k - 1]);
    }
  }

  /** Queued plus in flight never exceed 129; at most 128 are queued while one is in flight. */
  lemma CapacityBound(run: seq<State>, actions: seq<Action>, k: nat)
    requires Behaviour(run, actions) && k < |run|
    ensures |Pending(run[k])| <= MAX_WATCH_NUM + 1
    ensures Busy(run[k]) ==> |run[k].queue| <= MAX_WATCH_NUM
  {
    RunSafety(run, actions, k);
    var s := run[k];
    if Busy(s) {
      assert Pending(s).Keys == s.queue.Keys + {s.loop.task.id};
      assert |Pending(s)| == |Pending(s).Keys| && |s.queue| == |s.queue.Keys|;
    }
  }

  /** While the loop sleeps, nothing queued is due before nextWeakUpTime_ unless it was notified. */
  lemma SleepsSafely(run: seq<State>, actions: seq<Action>, k: nat, id: nat)
    requires Behaviour(run, actions) && k < |run| && run[k].loop.Asleep? && !run[k].notified && id in run[k].queue
    ensures run[k].wake <= run[k].queue[id].tick
  {
    RunSafety(run, actions, k);
  }

  lemma {:induction false} PaceHolds(run: seq<State>, actions: seq<Action>, k: nat, id: nat)
    requires Behaviour(run, actions) && k < |run|
    ensures OnceOk(run[k], id) && LawOk(run[k], id)
    decreases k
  {
    if k > 0 {
      PaceHolds(run, actions, k - 1, id);
      RunSafety(run, actions, k - 1);
      StepKeepsOnce(run[k - 1], actions[k - 1], id);
      StepKeepsLaw(run[k - 1], actions[k - 1], id);
    }
  }

  /** An accepted timer runs at most once, never before its deadline, and not after being cancelled. */
  lemma TimerRunsOnce(run: seq<State>, actions: seq<Action>, k: nat, id: nat)
    requires Behaviour(run, actions) && k < |run| && id in run[k].made && run[k].made[id].oneShot
    ensures var h := History(run[k], id);
      && |h| <= 1
      && (h != [] ==> h[0].ran && h[0].at >= run[k].made[id].tick)
      && (id in run[k].cancelled ==> h == [])
  {
    PaceHolds(run, actions, k, id);
  }

  /** Every timer counter with an interval runs at every attempt, and its ticks are one interval apart
      in 64 bits. */
  lemma CounterTicks(run: seq<State>, actions: seq<Action>, k: nat, id: nat)
    requires Behaviour(run, actions) && k < |run| && id in run[k].made
    requires run[k].made[id].interval > 0 && run[k].made[id].countLimit > 0
    ensures var h, i := History(run[k], id), run[k].made[id].interval;
      && (forall m :: 0 <= m < |h| ==> h[m].ran && h[m].due <= h[m].at)
      && (forall m, n :: 0 <= m < |h| && 0 <= n < |h| && n == m + 1 ==> h[n].due == (h[m].due + i) % U64)
  {
    PaceHolds(run, actions, k, id);
    var h, i := History(run[k], id), run[k].made[id].interval;
    forall m, n | 0 <= m < |h| && 0 <= n < |h| && n == m + 1 ensures h[n].due == (h[m].due + i) % U64 {
      assert Succeeds(h[m], h[n], i) && Punctual(h[m], U64, run[k].range);
    }
  }

  /** Every periodic task obeys the tick law, whatever its interval. */
  lemma PeriodicTicks(run: seq<State>, actions: seq<Action>, k: nat, id: nat)
    requires Behaviour(run, actions) && k < |run| && id in run[k].made && Ticking(run[k].made[id])
    ensures TickLaw(History(run[k], id), run[k].made[id].interval, run[k].range)
  {
    PaceHolds(run, actions, k, id);
  }

  // Rate ----------------------------------------------------------------------------------

  /** Body executions among the first `k` attempts, at clock readings from `a` to `b`. */
  function Executions(h: seq<Tick>, k: nat, a: int, b: int): nat
    requires k <= |h|
  {
    if k == 0 then 0
    else Executions(h, k - 1, a, b) + if h[k - 1].ran && a <= h[k - 1].at <= b then 1 else 0
  }

  /** A clock reading and one interval fit in 64 bits. */
  predicate Unwrapped(interval: nat, range: Range) { interval + range <= U64 }

  /** Ticks are one interval apart; after a late reset, further by more than the patience, which is
      two intervals if these fit in 64 bits. */
  lemma TicksAdvance(h: seq<Tick>, interval: nat, range: Range, k: nat)
    requires TickLaw(h, interval, range) && Unwrapped(interval, range) && 0 < k < |h|
    ensures h[k].due >= h[k - 1].due + interval
    ensures h[k - 1].ran ==> h[k].due == h[k - 1].due + interval
    ensures !h[k - 1].ran ==> h[k].due > h[k - 1].due + Patience(interval) + interval
    ensures !h[k - 1].ran && interval < U64 / 2 ==> h[k].due > h[k - 1].due + 3 * interval
  {
    assert Succeeds(h[k - 1], h[k], interval) && Punctual(h[k - 1], Patience(interval), range);
  }

  lemma {:induction false} ExecutionsSpread(h: seq<Tick>, interval: nat, range: Range, k: nat, a: int, b: int)
    requires TickLaw(h, interval, range) && Unwrapped(interval, range) && k <= |h| && a <= b
    ensures var n := Executions(h, k, a, b);
      n > 0 ==>
        && k > 0 && h[k - 1].due + interval >= a - 2 * interval + n * interval
        && (n - 1) * interval <= b - a + 2 * interval
    decreases k
  {
    if k > 0 {
      ExecutionsSpread(h, interval, range, k - 1, a, b);
      if k > 1 {
        TicksAdvance(h, interval, range, k - 1);
      }
      Distribute(Executions(h, k - 1, a, b), -1, interval);
      assert Punctual(h[k - 1], Patience(interval), range) && Patience(interval) <= 2 * interval;
      assert h[k - 1].due <= h[k - 1].at && (h[k - 1].ran ==> h[k - 1].at <= h[k - 1].due + 2 * interval);
    }
  }

  /** Any clock window of length T holds at most T / interval + 3 body executions. */
  lemma RateBound(run: seq<State>, actions: seq<Action>, k: nat, id: nat, a: int, b: int)
    requires Behaviour(run, actions) && k < |run| && id in run[k].made && Ticking(run[k].made[id]) && a <= b
    requires Unwrapped(run[k].made[id].interval, run[k].range)
    ensures var h := History(run[k], id);
      Executions(h, |h|, a, b) <= (b - a) / run[k].made[id].interval + 3
  {
    var h, i := History(run[k], id), run[k].made[id].interval;
    PeriodicTicks(run, actions, k, id);
    ExecutionsSpread(h, i, run[k].range, |h|, a, b);
    QuotientBound(Executions(h, |h|, a, b), i, b - a);
  }

  lemma QuotientBound(n: nat, i: nat, t: nat)
    requires i > 0 && (n > 0 ==> (n - 1) * i <= t + 2 * i)
    ensures n <= t / i + 3
  {
    if n > 0 {
      Below(t, i);
      Distribute(n - 1, 2, i);
      CancelFactor(n - 3, t / i + 1, i);
    }
  }

  lemma Below(t: nat, i: nat)
    requires i > 0
    ensures t < (t / i + 1) * i
  {
    assert t == t / i * i + t % i;
  }

  lemma Distribute(x: int, y: int, i: nat)
    ensures (x - y) * i == x * i - y * i
  {
  }

  lemma CancelFactor(x: int, y: int, i: nat)
    requires i > 0 && x * i < y * i
    ensures x < y
  {
  }
}
