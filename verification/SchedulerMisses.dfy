/** Triggers sent to a timer counter while it is in flight are lost: exactly which counters may then
    differ from the reference. */
module SchedulerMisses {
  import opened Unsigned
  import opened Scheduler
  import opened SchedulerSafety
  import opened SchedulerPace
  import opened SchedulerRuns
  import opened SchedulerLimits
  import opened SchedulerCounters
  import TimerCount

  /** Step `a` sends a trigger or clear to the counter `id` while that is in flight. */
  predicate Misses(s: State, a: Action, id: nat) { a.DoTrigger? && Flying(s, id) && s.loop.task.name == a.name }

  /** What step `a` means to the counter `id`, if triggers found it wherever it is pending. */
  function SentOf(s: State, a: Action, id: nat): seq<TimerCount.Op> {
    if Misses(s, a, id) then [if a.add then TimerCount.Trigger(a.now) else TimerCount.Clear] else OpOf(s, a, id)
  }

  function Sent(run: seq<State>, actions: seq<Action>, n: nat, id: nat): seq<TimerCount.Op>
    requires n <= |actions| && n <= |run|
  {
    if n == 0 then [] else Sent(run, actions, n - 1, id) + SentOf(run[n - 1], actions[n - 1], id)
  }

  ghost predicate NeverMisses(run: seq<State>, actions: seq<Action>, n: nat, id: nat) {
    forall m :: 0 <= m < n && m < |run| && m < |actions| ==> !Misses(run[m], actions[m], id)
  }

  lemma {:induction false} NothingMissed(run: seq<State>, actions: seq<Action>, n: nat, id: nat)
    requires n <= |actions| && n <= |run| && NeverMisses(run, actions, n, id)
    ensures Sent(run, actions, n, id) == Ops(run, actions, n, id)
  {
    if n > 0 {
      NothingMissed(run, actions, n - 1, id);
    }
  }

  /** In every run in which nothing is sent to it in flight, a counter reports as the reference does
      that keeps every trigger sent since the last report or clear. */
  lemma CounterAgreesOnSent(run: seq<State>, actions: seq<Action>, n: nat, id: nat)
    requires Behaviour(run, actions) && n < |run| && id in run[n].made && run[n].made[id].countLimit > 0
    requires NeverMisses(run, actions, n, id) && TimerCount.Clocked(Sent(run, actions, n, id), 0)
    ensures var t := run[n].made[id];
      Reports(run, actions, n, id)
      == TimerCount.ReferenceAnswers([], Sent(run, actions, n, id), t.countLimit, t.timeLimit)
  {
    NothingMissed(run, actions, n, id);
    CounterAgrees(run, actions, n, id);
  }

  // Which counters can differ ---------------------------------------------------------------

  ghost predicate Agrees(run: seq<State>, actions: seq<Action>, id: nat, count: nat, limit: nat)
    requires |actions| <= |run|
  {
    var sent := Sent(run, actions, |actions|, id);
    Reports(run, actions, |actions|, id) == TimerCount.ReferenceAnswers([], sent, count, limit)
  }

  /** A run with such a counter, to which triggers are sent in the order of the clock. */
  ghost predicate Counter(run: seq<State>, actions: seq<Action>, id: nat, count: nat, limit: nat) {
    && Behaviour(run, actions) && Counts(run[|actions|], id, count, limit)
    && TimerCount.Clocked(Sent(run, actions, |actions|, id), 0)
  }

  /** In every run, whatever is sent in flight, every counter with these limits agrees. */
  ghost predicate AlwaysAgrees(count: nat, limit: nat) {
    forall run: seq<State>, actions: seq<Action>, id: nat ::
      Counter(run, actions, id, count, limit) ==> Agrees(run, actions, id, count, limit)
  }

  /** The checks among `ops`. */
  function Checks(ops: seq<TimerCount.Op>): nat {
    if ops == [] then 0 else Checks(ops[..|ops| - 1]) + if ops[|ops| - 1].Check? then 1 else 0
  }

  /** `n` answers, all no. */
  predicate AllNo(answers: seq<bool>, n: nat) { |answers| == n && forall k :: 0 <= k < n ==> !answers[k] }

  lemma {:induction false} ChecksFrom(ops: seq<TimerCount.Op>)
    requires ops != []
    ensures Checks(ops) == Checks(ops[1..]) + if ops[0].Check? then 1 else 0
  {
    if |ops| > 1 {
      ChecksFrom(ops[..|ops| - 1]);
      assert ops[..|ops| - 1][1..] == ops[1..][..|ops| - 2];
    }
  }

  /** With a time limit of 0 no burst is short enough. */
  lemma {:induction false} ReferenceNever(log: seq<nat>, ops: seq<TimerCount.Op>, count: nat, now: nat)
    requires count > 0 && TimerCount.Sorted(log, now) && TimerCount.Clocked(ops, now)
    ensures AllNo(TimerCount.ReferenceAnswers(log, ops, count, 0), Checks(ops))
    decreases |ops|
  {
    if ops != [] {
      ChecksFrom(ops);
      match ops[0] {
        case Trigger(t) => ReferenceNever(log + [t], ops[1..], count, t);
        case Clear => ReferenceNever([], ops[1..], count, now);
        case Check => ReferenceNever(log, ops[1..], count, now);
      }
    }
  }

  /** Such a counter answers no to every check. */
  ghost predicate Silent(s: State, id: nat, count: nat) { id in s.made ==> Counts(s, id, count, 0) }

  lemma ReportsNever(s: State, a: Action, id: nat, count: nat)
    requires Ids(s) && Enabled(s, a) && Silent(Apply(s, a), id, count)
    ensures Silent(s, id, count) && |SentOf(s, a, id)| <= 1
    ensures ReportOf(s, a, id) == if SentOf(s, a, id) != [] && SentOf(s, a, id)[0].Check? then [false] else []
  {
    if id in s.made {
      StepKeepsMade(s, a, id);
    }
  }

  lemma NoMore(ops: seq<TimerCount.Op>, op: seq<TimerCount.Op>, reports: seq<bool>, report: seq<bool>)
    requires AllNo(reports, Checks(ops)) && |op| <= 1
    requires report == if op != [] && op[0].Check? then [false] else []
    ensures AllNo(reports + report, Checks(ops + op))
  {
    if op == [] {
      assert ops + op == ops;
    } else {
      ChecksAfter(ops, op[0]);
      assert ops + op == ops + [op[0]];
    }
  }

  lemma ChecksAfter(ops: seq<TimerCount.Op>, op: TimerCount.Op)
    ensures Checks(ops + [op]) == Checks(ops) + if op.Check? then 1 else 0
  {
    assert (ops + [op])[..|ops|] == ops;
  }

  lemma {:induction false} CounterNever(run: seq<State>, actions: seq<Action>, n: nat, id: nat, count: nat)
    requires Behaviour(run, actions) && n < |run| && Silent(run[n], id, count)
    ensures AllNo(Reports(run, actions, n, id), Checks(Sent(run, actions, n, id)))
    decreases n
  {
    if n > 0 {
      var s, a := run[n - 1], actions[n - 1];
      RunSafety(run, actions, n - 1);
      ReportsNever(s, a, id, count);
      CounterNever(run, actions, n - 1, id, count);
      NoMore(Sent(run, actions, n - 1, id), SentOf(s, a, id), Reports(run, actions, n - 1, id), ReportOf(s, a, id));
    }
  }

  /** `s` is reached by a run in which `sent` was sent to the counter and it gave `reports`. */
  ghost predicate ReachedWith(s: State, id: nat, sent: seq<TimerCount.Op>, reports: seq<bool>) {
    exists run: seq<State>, actions: seq<Action> :: EndsIn(run, actions, s, id, sent, reports)
  }

  ghost predicate EndsIn(run: seq<State>, actions: seq<Action>, s: State, id: nat,
                         sent: seq<TimerCount.Op>, reports: seq<bool>) {
    && Behaviour(run, actions) && run[|actions|] == s
    && Sent(run, actions, |actions|, id) == sent && Reports(run, actions, |actions|, id) == reports
  }

  lemma {:induction false} SamePrefix(run: seq<State>, actions: seq<Action>,
                                      run': seq<State>, actions': seq<Action>, n: nat, id: nat)
    requires n <= |actions| && n <= |run| && run <= run' && actions <= actions'
    ensures Sent(run, actions, n, id) == Sent(run', actions', n, id)
    ensures Reports(run, actions, n, id) == Reports(run', actions', n, id)
  {
    if n > 0 {
      SamePrefix(run, actions, run', actions', n - 1, id);
    }
  }

  lemma GoWith(s: State, a: Action, id: nat, sent: seq<TimerCount.Op>, reports: seq<bool>) returns (t: State)
    requires ReachedWith(s, id, sent, reports) && Enabled(s, a)
    ensures t == Apply(s, a) && Ids(t) && ReachedWith(t, id, sent + SentOf(s, a, id), reports + ReportOf(s, a, id))
  {
    t := Apply(s, a);
    var run: seq<State>, actions: seq<Action> :| EndsIn(run, actions, s, id, sent, reports);
    Extend(run, actions, a);
    OneMoreStep(run, actions, a, t, id);
    assert EndsIn(run + [t], actions + [a], t, id, sent + SentOf(s, a, id), reports + ReportOf(s, a, id));
  }

  lemma OneMoreStep(run: seq<State>, actions: seq<Action>, a: Action, t: State, id: nat)
    requires |run| == |actions| + 1
    ensures var run', actions', s := run + [t], actions + [a], run[|actions|];
      && run'[|actions'|] == t
      && Sent(run', actions', |actions'|, id) == Sent(run, actions, |actions|, id) + SentOf(s, a, id)
      && Reports(run', actions', |actions'|, id) == Reports(run, actions, |actions|, id) + ReportOf(s, a, id)
  {
    SamePrefix(run, actions, run + [t], actions + [a], |actions|, id);
  }

  function Zeros(n: nat): seq<TimerCount.Op> { if n == 0 then [] else Zeros(n - 1) + [TimerCount.Trigger(0)] }

  function FreshCounter(count: nat, limit: nat): Task { Task(1, "c", false, limit / 2, 0, limit, count, [], 0) }

  lemma RegisteredCounter(count: nat, limit: nat) returns (s: State)
    requires count > 0 && 0 < limit < U32
    ensures ReachedWith(s, 1, [], []) && Ids(s) && s.loop.Ready? && s.clock == 0 && s.range == 1
    ensures s.queue == s.made == map[1 := FreshCounter(count, limit)]
  {
    StartsWithNothing();
    s := GoWith(Start(1), DoInsert(TimerCounter("c", limit, count), 0), 1, [], []);
    FirstInsert(count, limit);
  }

  lemma StartsWithNothing()
    ensures ReachedWith(Start(1), 1, [], [])
  {
    var none: seq<Action> := [];
    assert EndsIn([Start(1)], none, Start(1), 1, [], []);
  }

  lemma FirstInsert(count: nat, limit: nat)
    requires count > 0 && 0 < limit < U32
    ensures var s := Insert(Start(1), TimerCounter("c", limit, count), 0);
      s.queue == s.made == map[1 := FreshCounter(count, limit)] && s.loop.Ready? && s.clock == 0 && s.range == 1
  {
    assert LimitedName("c") == "c";
    assert Build(TimerCounter("c", limit, count), 1, 0) == FreshCounter(count, limit);
  }

  /** A counter just fetched. */
  lemma FetchedCounter(count: nat, limit: nat) returns (s: State)
    requires count > 0 && 0 < limit < U32
    ensures ReachedWith(s, 1, [], []) && Ids(s) && Counts(s, 1, count, limit) && s.range == 1
    ensures s.queue == map[] && s.loop == Fetched(FreshCounter(count, limit), 0)
  {
    s := RegisteredCounter(count, limit);
    assert IsTop(s.queue, 1) && s.queue - {1} == map[];
    s := GoWith(s, DoFetch(0, 1, false), 1, [], []);
  }

  /** The counter has been fetched, and nothing is queued. */
  predicate Away(s: State) {
    s.loop.Fetched? && s.loop.task.id == 1 && s.loop.task.name == "c" && s.queue == map[] && s.range == 1
  }

  lemma MissStep(s: State)
    requires Away(s)
    ensures var a := DoTrigger("c", true, 0); Enabled(s, a) && Apply(s, a) == s
    ensures SentOf(s, DoTrigger("c", true, 0), 1) == [TimerCount.Trigger(0)]
    ensures ReportOf(s, DoTrigger("c", true, 0), 1) == []
  {
    assert Trigger(s, "c", true, 0).queue == map[];
  }

  /** Triggers sent now are all missed. */
  lemma {:induction false} MissMany(s: State, n: nat)
    requires ReachedWith(s, 1, [], []) && Away(s)
    ensures ReachedWith(s, 1, Zeros(n), [])
  {
    if n > 0 {
      MissMany(s, n - 1);
      MissStep(s);
      var t := GoWith(s, DoTrigger("c", true, 0), 1, Zeros(n - 1), []);
    }
  }

  lemma {:induction false} ZerosAt(n: nat, k: nat)
    requires k < n
    ensures |Zeros(n)| == n && Zeros(n)[k] == TimerCount.Trigger(0)
  {
    if n > 1 {
      ZerosAt(n - 1, if k < n - 1 then k else 0);
    }
  }

  /** `n` triggers at time 0 and then a check: the reference sees them all. */
  lemma {:induction false} ReferenceReports(log: seq<nat>, ops: seq<TimerCount.Op>, count: nat, limit: nat)
    requires count > 0 && limit > 0 && ops != [] && ops[|ops| - 1] == TimerCount.Check
    requires |log| + |ops| - 1 >= count && (forall k :: 0 <= k < |log| ==> log[k] == 0)
    requires forall k :: 0 <= k < |ops| - 1 ==> ops[k] == TimerCount.Trigger(0)
    ensures TimerCount.ReferenceAnswers(log, ops, count, limit) == [true] && TimerCount.Clocked(ops, 0)
    decreases |ops|
  {
    if |ops| > 1 {
      ReferenceReports(log + [0], ops[1..], count, limit);
    } else {
      var last := |log| - 1;
      assert log[last] - log[0] < limit;
      assert TimerCount.Burst(log, count, limit);
      assert ops[1..] == [];
    }
  }

  /** As many triggers as the counter waits for, sent between its fetch and its check, go unnoticed. */
  lemma MissedBurst(count: nat, limit: nat) returns (run: seq<State>, actions: seq<Action>)
    requires count > 0 && 0 < limit < U32
    ensures Counter(run, actions, 1, count, limit) && !Agrees(run, actions, 1, count, limit)
  {
    var t := MissedRun(count, limit);
    var sent := Zeros(count) + [TimerCount.Check];
    run, actions :| EndsIn(run, actions, t, 1, sent, [false]);
    BurstSent(count, limit);
  }

  lemma MissedRun(count: nat, limit: nat) returns (t: State)
    requires count > 0 && 0 < limit < U32
    ensures ReachedWith(t, 1, Zeros(count) + [TimerCount.Check], [false]) && Counts(t, 1, count, limit)
  {
    var s := FetchedCounter(count, limit);
    MissMany(s, count);
    assert SentOf(s, DoRun, 1) == [TimerCount.Check] && ReportOf(s, DoRun, 1) == [false];
    t := GoWith(s, DoRun, 1, Zeros(count), []);
    StepKeepsMade(s, DoRun, 1);
    assert [] + [false] == [false];
  }

  lemma BurstSent(count: nat, limit: nat)
    requires count > 0 && limit > 0
    ensures var sent := Zeros(count) + [TimerCount.Check];
      TimerCount.ReferenceAnswers([], sent, count, limit) == [true] && TimerCount.Clocked(sent, 0)
  {
    var sent := Zeros(count) + [TimerCount.Check];
    ZerosAt(count, 0);
    forall k | 0 <= k < count ensures sent[k] == TimerCount.Trigger(0) {
      ZerosAt(count, k);
    }
    ReferenceReports([], sent, count, limit);
  }

  /** Counters agree in all runs with the reference on all triggers sent, exactly if their time limit,
      narrowed to 32 bits, is 0, so that they never report. */
  lemma AlwaysAgreesIff(count: nat, limit: nat)
    requires count > 0 && limit < U32
    ensures AlwaysAgrees(count, limit) <==> limit == 0
  {
    if limit > 0 {
      var run, actions := MissedBurst(count, limit);
    } else {
      forall run: seq<State>, actions: seq<Action>, id: nat | Counter(run, actions, id, count, 0)
        ensures Agrees(run, actions, id, count, 0)
      {
        CounterNever(run, actions, |actions|, id, count);
        ReferenceNever([], Sent(run, actions, |actions|, id), count, 0);
      }
    }
  }
}
