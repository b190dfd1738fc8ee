/** The scheduler's tick law and the probe machine together: how soon after posting a probe the
    watchdog may decide to kill. */
module Escalation {
  import opened Scheduler
  import opened SchedulerSafety
  import opened SchedulerPace
  import opened SchedulerRuns
  import opened SchedulerLimits
  import HandlerProbe

  /** The attempts at which the task body ran; the k-th one is the k-th check of its handler. */
  function Checks(h: seq<Tick>): seq<Tick> {
    if h == [] then [] else
      var last := h[|h| - 1];
      Checks(h[..|h| - 1]) + if last.ran then [last] else []
  }

  /** Checks are at most two intervals late, and their ticks at least one interval apart. */
  ghost predicate Paced(c: seq<Tick>, interval: nat, range: Range) {
    && (forall k :: 0 <= k < |c| ==> c[k].due <= c[k].at <= c[k].due + 2 * interval && c[k].at < range)
    && (forall j, k :: 0 <= j < |c| && 0 <= k < |c| && k == j + 1 ==> c[k].due >= c[j].due + interval)
  }

  lemma PacedExtends(c: seq<Tick>, interval: nat, range: Range, e: Tick)
    requires Paced(c, interval, range) && e.due <= e.at <= e.due + 2 * interval && e.at < range
    requires c != [] ==> e.due >= c[|c| - 1].due + interval
    ensures Paced(c + [e], interval, range)
  {
  }

  lemma LawOfPrefix(h: seq<Tick>, interval: nat, range: Range)
    requires TickLaw(h, interval, range) && Unwrapped(interval, range) && h != []
    ensures TickLaw(h[..|h| - 1], interval, range)
    ensures var e := h[|h| - 1]; e.due <= e.at < range && (e.ran ==> e.at <= e.due + 2 * interval)
    ensures |h| > 1 ==> h[..|h| - 1][|h| - 2] == h[|h| - 2] && h[|h| - 1].due >= h[|h| - 2].due + interval
  {
    assert Punctual(h[|h| - 1], Patience(interval), range) && Patience(interval) <= 2 * interval;
    if |h| > 1 {
      TicksAdvance(h, interval, range, |h| - 1);
    }
  }

  lemma {:induction false} ChecksArePaced(h: seq<Tick>, interval: nat, range: Range)
    requires TickLaw(h, interval, range) && Unwrapped(interval, range)
    ensures Paced(Checks(h), interval, range)
    ensures Checks(h) != [] ==> h != [] && Checks(h)[|Checks(h)| - 1].due <= h[|h| - 1].due
  {
    if h != [] {
      var init, last := h[..|h| - 1], h[|h| - 1];
      LawOfPrefix(h, interval, range);
      ChecksArePaced(init, interval, range);
      if last.ran {
        PacedExtends(Checks(init), interval, range, last);
      }
    }
  }

  lemma {:induction false} PacedApart(c: seq<Tick>, interval: nat, range: Range, j: nat, k: nat)
    requires Paced(c, interval, range) && j <= k < |c|
    ensures c[k].due >= c[j].due + (k - j) * interval
    decreases k
  {
    if j < k {
      PacedApart(c, interval, range, j, k - 1);
      assert (k - j) * interval == (k - 1 - j) * interval + interval;
    }
  }

  lemma PacedDelay(c: seq<Tick>, interval: nat, range: Range, j: nat, k: nat)
    requires Paced(c, interval, range) && j + 2 <= k < |c|
    ensures c[k].at - c[j].at >= 2 * interval - (c[j].at - c[j].due) && c[j].at - c[j].due <= 2 * interval
    ensures 2 * interval >= range ==> c[k].at > c[j].at
  {
    PacedApart(c, interval, range, j, k);
    Twice(k - j, interval);
  }

  lemma Twice(n: nat, i: nat)
    requires n >= 2
    ensures n * i >= 2 * i
  {
  }

  lemma CreatedEarlier(probes: seq<HandlerProbe.State>, actions: seq<HandlerProbe.Action>, m: nat, k: nat)
    requires HandlerProbe.Execution(probes, actions) && m < |probes|
    requires k < |probes[m].log| && probes[m].log[k].verdict == HandlerProbe.Waiting
    ensures var probe := probes[m].log[k].probe; probe in probes[m].postedAt && probes[m].postedAt[probe] + 2 <= k
  {
    HandlerProbe.RunKeepsInv(probes, actions, m);
    assert HandlerProbe.Warned(probes[m], k);
  }

  /** If the probe created by check j gets a full wait at check k, the two checks are at least two
      intervals apart, less the lateness of check j; and that lateness is at most two intervals.
      So they are apart if two intervals exceed the clock's range. */
  lemma KillDelay(run: seq<State>, actions: seq<Action>, n: nat, id: nat,
                  probes: seq<HandlerProbe.State>, probeActions: seq<HandlerProbe.Action>, m: nat, k: nat, j: nat)
    requires Behaviour(run, actions) && n < |run| && id in run[n].made && Ticking(run[n].made[id])
    requires Unwrapped(run[n].made[id].interval, run[n].range)
    requires HandlerProbe.Execution(probes, probeActions) && m < |probes|
    requires |probes[m].log| <= |Checks(History(run[n], id))|
    requires k < |probes[m].log| && probes[m].log[k].verdict == HandlerProbe.Waiting
    requires probes[m].log[k].probe in probes[m].postedAt && j == probes[m].postedAt[probes[m].log[k].probe]
    ensures var c, i := Checks(History(run[n], id)), run[n].made[id].interval;
      && j + 2 <= k
      && c[k].at - c[j].at >= 2 * i - (c[j].at - c[j].due)
      && c[j].at - c[j].due <= 2 * i
      && (2 * i >= run[n].range ==> c[k].at > c[j].at)
  {
    CreatedEarlier(probes, probeActions, m, k);
    PeriodicTicks(run, actions, n, id);
    var i := run[n].made[id].interval;
    ChecksArePaced(History(run[n], id), i, run[n].range);
    PacedDelay(Checks(History(run[n], id)), i, run[n].range, j, k);
  }

  // The bound is attained: three checks at one clock reading ------------------------------

  /** Fetch, run and re-insert the only task. */
  lemma Round(s: State, id: nat, now: nat) returns (t: State)
    requires Reaches(s) && Ids(s) && s.loop.Ready? && Readable(s, now)
    requires s.queue.Keys == {id} && s.queue[id].tick <= now <= s.queue[id].tick + 2 * s.queue[id].interval
    requires Ticking(s.queue[id]) && 2 * s.queue[id].interval < s.range
    requires s.queue[id].tick + s.queue[id].interval < s.range
    requires s.queue[id].name != "" && s.queue[id].name in s.names
    ensures Reaches(t) && Ids(t) && t.loop.Ready? && t.clock == now && t.queue.Keys == {id} && t.names == s.names
    ensures t.queue[id] == s.queue[id].(tick := s.queue[id].tick + s.queue[id].interval)
    ensures History(t, id) == History(s, id) + [Tick(s.queue[id].tick, now, true)]
    ensures t.made == s.made && t.range == s.range
  {
    var task := s.queue[id];
    RunOnClock(task, now);
    t := FetchAndRun(s, id, now);
    t := Go(t, DoReInsert);
  }

  /** A watchdog thread held up for two intervals runs three checks at one clock reading. */
  lemma ThreeAtOnce(range: Range, interval: nat) returns (s: State)
    requires 0 < interval && 2 * interval < range
    ensures Reaches(s) && s.range == range && 1 in s.made && Ticking(s.made[1]) && s.made[1].interval == interval
    ensures var c := Checks(History(s, 1)); |c| == 3 && c[0].at == c[2].at && c[0].at - c[0].due == 2 * interval
  {
    s := ThreeRounds(range, interval);
    var h := History(s, 1);
    ThreeChecks(h[0], h[1], h[2]);
    assert h == [h[0], h[1], h[2]];
  }

  lemma ThreeRounds(range: Range, interval: nat) returns (s: State)
    requires 0 < interval && 2 * interval < range
    ensures Reaches(s) && s.range == range && 1 in s.made && Ticking(s.made[1]) && s.made[1].interval == interval
    ensures |History(s, 1)| == 3 && History(s, 1)[0].due == 0
    ensures forall k :: 0 <= k < 3 ==> History(s, 1)[k].ran && History(s, 1)[k].at == 2 * interval
  {
    s := OneThread(range, interval, 0);
    s := Round(s, 1, 2 * interval);
    s := Round(s, 1, 2 * interval);
    RunOnClock(s.queue[1], 2 * interval);
    s := FetchAndRun(s, 1, 2 * interval);
  }

  lemma ThreeChecks(a: Tick, b: Tick, c: Tick)
    requires a.ran && b.ran && c.ran
    ensures Checks([a, b, c]) == [a, b, c]
  {
    assert [a][..0] == [] && [a, b][..1] == [a] && [a, b, c][..2] == [a, b];
    assert Checks([a]) == [a];
    assert Checks([a, b]) == [a, b];
  }

  /** The probe side of it: no completion between three checks. */
  lemma ThreeChecksWait() returns (probes: seq<HandlerProbe.State>, actions: seq<HandlerProbe.Action>)
    ensures HandlerProbe.Execution(probes, actions) && |probes| == 6
    ensures var s := probes[5];
      && s.queued == {1} && |s.log| == 3 && s.log[2] == HandlerProbe.Check(HandlerProbe.Waiting, 1)
      && 1 in s.postedAt && s.postedAt[1] == 0
  {
    var post := HandlerProbe.Schedule(true);
    actions := [HandlerProbe.Evaluate, post, HandlerProbe.Evaluate, post, HandlerProbe.Evaluate];
    var a := HandlerProbe.Apply(HandlerProbe.Start(true), actions[0]);
    var b := HandlerProbe.Apply(a, actions[1]);
    var c := HandlerProbe.Apply(b, actions[2]);
    var d := HandlerProbe.Apply(c, actions[3]);
    var e := HandlerProbe.Apply(d, actions[4]);
    probes := [HandlerProbe.Start(true), a, b, c, d, e];
  }

  /** For every interval below half the clock's range a kill with no time gone by is possible: a run
      of the scheduler and one of a probe, as in KillDelay with n, m, j and k the last state, 5, 0
      and 2, in which checks j and k read the same clock value. */
  lemma ZeroDelayIsPossible(range: Range, interval: nat)
      returns (run: seq<State>, actions: seq<Action>,
               probes: seq<HandlerProbe.State>, probeActions: seq<HandlerProbe.Action>)
    requires 0 < interval && 2 * interval < range
    ensures Behaviour(run, actions) && HandlerProbe.Execution(probes, probeActions) && |probes| == 6
    ensures var s := run[|actions|];
      s.range == range && 1 in s.made && Ticking(s.made[1]) && s.made[1].interval == interval
    ensures var c, p := Checks(History(run[|actions|], 1)), probes[5];
      && |p.log| == |c| == 3 && p.log[2].verdict == HandlerProbe.Waiting
      && p.log[2].probe in p.postedAt && p.postedAt[p.log[2].probe] == 0
      && c[2].at - c[0].at == 0
  {
    var s := ThreeAtOnce(range, interval);
    run, actions :| Behaviour(run, actions) && run[|actions|] == s;
    probes, probeActions := ThreeChecksWait();
  }
}
