/** Timer-count tasks inside scheduler runs: a trigger reaches a counter only while it is queued, and
    on the triggers that reach it a counter reports as the unpruned reference does. */
module SchedulerCounters {
  import opened Scheduler
  import opened SchedulerSafety
  import opened SchedulerPace
  import opened SchedulerRuns
  import opened SchedulerLimits
  import TimerCount

  /** What step `a` means to the counter `id`: a trigger or clear that finds it queued, or its check. */
  function OpOf(s: State, a: Action, id: nat): seq<TimerCount.Op> {
    match a
    case DoTrigger(name, add, now) =>
      if id in s.queue && s.queue[id].name == name
      then [if add then TimerCount.Trigger(now) else TimerCount.Clear] else []
    case DoRun => if s.loop.Fetched? && s.loop.task.id == id then [TimerCount.Check] else []
    case _ => []
  }

  /** What the counter `id` answers in step `a`, if that is its check. */
  function ReportOf(s: State, a: Action, id: nat): seq<bool> {
    if a.DoRun? && s.loop.Fetched? && s.loop.task.id == id then
      var t := s.loop.task;
      [t.countLimit > 0 && TimerCount.AnyShort(t.triggers, t.countLimit, t.timeLimit)]
    else []
  }

  function Ops(run: seq<State>, actions: seq<Action>, n: nat, id: nat): seq<TimerCount.Op>
    requires n <= |actions| && n <= |run|
  {
    if n == 0 then [] else Ops(run, actions, n - 1, id) + OpOf(run[n - 1], actions[n - 1], id)
  }

  function Reports(run: seq<State>, actions: seq<Action>, n: nat, id: nat): seq<bool>
    requires n <= |actions| && n <= |run|
  {
    if n == 0 then [] else Reports(run, actions, n - 1, id) + ReportOf(run[n - 1], actions[n - 1], id)
  }

  /** Wherever the task `id` is pending, its trigger log is `log`. */
  predicate Logs(s: State, id: nat, log: seq<nat>) {
    (id in s.queue ==> s.queue[id].triggers == log) && (Flying(s, id) ==> s.loop.task.triggers == log)
  }

  predicate Counts(s: State, id: nat, count: nat, limit: nat) {
    id in s.made && s.made[id].countLimit == count > 0 && s.made[id].timeLimit == limit
  }

  /** The log after one step. */
  function After(log: seq<nat>, ops: seq<TimerCount.Op>, count: nat, limit: nat): seq<nat>
    requires count > 0
  {
    if ops == [] then log else TimerCount.LogStep(log, ops[0], count, limit)
  }

  lemma TriggerLogs(s: State, a: Action, id: nat, log: seq<nat>, count: nat, limit: nat)
    requires Ids(s) && Counts(s, id, count, limit) && Logs(s, id, log) && Enabled(s, a) && a.DoTrigger?
    ensures Logs(Apply(s, a), id, After(log, OpOf(s, a, id), count, limit))
  {
  }

  lemma RunLogs(s: State, id: nat, log: seq<nat>, count: nat, limit: nat)
    requires Ids(s) && Counts(s, id, count, limit) && Logs(s, id, log) && s.loop.Fetched?
    ensures Logs(Run(s), id, After(log, OpOf(s, DoRun, id), count, limit))
    ensures ReportOf(s, DoRun, id) == if s.loop.task.id == id then [TimerCount.AnyShort(log, count, limit)] else []
  {
  }

  lemma InsertLogs(s: State, r: Request, now: nat, id: nat, log: seq<nat>)
    requires Ids(s) && id in s.made && Logs(s, id, log)
    ensures Logs(Insert(s, r, now), id, log)
  {
    if !Refused(r) {
      BuildFacts(r, s.lastId + 1, now);
    }
  }

  lemma FetchLogs(s: State, a: Action, id: nat, log: seq<nat>)
    requires Ids(s) && Logs(s, id, log) && Enabled(s, a) && (a.DoFetch? || a.DoRetire?)
    ensures Logs(Apply(s, a), id, log)
  {
  }

  lemma QuietLogs(s: State, a: Action, id: nat, log: seq<nat>)
    requires Ids(s) && Logs(s, id, log) && Enabled(s, a)
    requires !a.DoInsert? && !a.DoTrigger? && !a.DoRun? && !a.DoFetch? && !a.DoRetire?
    ensures Logs(Apply(s, a), id, log)
  {
  }

  lemma StepLogs(s: State, a: Action, id: nat, log: seq<nat>, count: nat, limit: nat)
    requires Ids(s) && Counts(s, id, count, limit) && Logs(s, id, log) && Enabled(s, a)
    ensures Logs(Apply(s, a), id, After(log, OpOf(s, a, id), count, limit))
    ensures ReportOf(s, a, id) ==
      if OpOf(s, a, id) == [] then [] else TimerCount.AnswerTo(log, OpOf(s, a, id)[0], count, limit)
  {
    match a {
      case DoTrigger(_, _, _) => TriggerLogs(s, a, id, log, count, limit);
      case DoRun => RunLogs(s, id, log, count, limit);
      case DoInsert(r, now) => InsertLogs(s, r, now, id, log);
      case DoFetch(_, _, _) => FetchLogs(s, a, id, log);
      case DoRetire(_, _, _, _) => FetchLogs(s, a, id, log);
      case _ => QuietLogs(s, a, id, log);
    }
  }

  /** A task not made yet takes no part, and is made with an empty log. */
  lemma UnmadeStep(s: State, a: Action, id: nat)
    requires Ids(s) && id !in s.made && Enabled(s, a)
    ensures OpOf(s, a, id) == [] && ReportOf(s, a, id) == []
    ensures id in Apply(s, a).made ==> Logs(Apply(s, a), id, [])
  {
    if a.DoInsert? {
      if !Refused(a.request) {
        BuildFacts(a.request, s.lastId + 1, a.now);
      }
    } else {
      StepKeepsIds(s, a);
    }
  }

  /** `ops` and `reports` are the counter's so far: its log is what they leave, and the reports are
      the pruned log's answers. */
  ghost predicate Tracked(s: State, id: nat, ops: seq<TimerCount.Op>, reports: seq<bool>) {
    if id !in s.made then ops == [] && reports == []
    else
      var count, limit := s.made[id].countLimit, s.made[id].timeLimit;
      count > 0 ==>
        Logs(s, id, TimerCount.LogAfter([], ops, count, limit)) && reports == TimerCount.Answers([], ops, count, limit)
  }

  lemma MadeStep(s: State, a: Action, id: nat, ops: seq<TimerCount.Op>, reports: seq<bool>, count: nat, limit: nat)
    requires Ids(s) && Counts(s, id, count, limit) && Enabled(s, a)
    requires Logs(s, id, TimerCount.LogAfter([], ops, count, limit)) &&
      reports == TimerCount.Answers([], ops, count, limit)
    ensures var ops', reports' := ops + OpOf(s, a, id), reports + ReportOf(s, a, id);
      && Logs(Apply(s, a), id, TimerCount.LogAfter([], ops', count, limit))
      && reports' == TimerCount.Answers([], ops', count, limit)
  {
    var log, op := TimerCount.LogAfter([], ops, count, limit), OpOf(s, a, id);
    StepLogs(s, a, id, log, count, limit);
    if op == [] {
      assert ops + op == ops;
    } else {
      assert op == [op[0]];
      TimerCount.OneMore([], ops, op[0], count, limit);
    }
  }

  lemma StepTracked(s: State, a: Action, id: nat, ops: seq<TimerCount.Op>, reports: seq<bool>)
    requires Ids(s) && Enabled(s, a) && Tracked(s, id, ops, reports)
    ensures Tracked(Apply(s, a), id, ops + OpOf(s, a, id), reports + ReportOf(s, a, id))
  {
    if id !in s.made {
      UnmadeStep(s, a, id);
    } else {
      StepKeepsMade(s, a, id);
      if s.made[id].countLimit > 0 {
        MadeStep(s, a, id, ops, reports, s.made[id].countLimit, s.made[id].timeLimit);
      }
    }
  }

  lemma {:induction false} RunTracked(run: seq<State>, actions: seq<Action>, n: nat, id: nat)
    requires Behaviour(run, actions) && n < |run|
    ensures Tracked(run[n], id, Ops(run, actions, n, id), Reports(run, actions, n, id))
    decreases n
  {
    if n > 0 {
      RunTracked(run, actions, n - 1, id);
      RunSafety(run, actions, n - 1);
      StepTracked(run[n - 1], actions[n - 1], id, Ops(run, actions, n - 1, id), Reports(run, actions, n - 1, id));
    }
  }

  /** In every run, if the triggers that found it queued carry the readings of a non-decreasing clock,
      a counter reports at exactly the checks at which the reference reports that keeps all of them
      since the last report or clear. */
  lemma CounterAgrees(run: seq<State>, actions: seq<Action>, n: nat, id: nat)
    requires Behaviour(run, actions) && n < |run| && id in run[n].made && run[n].made[id].countLimit > 0
    requires TimerCount.Clocked(Ops(run, actions, n, id), 0)
    ensures var t := run[n].made[id];
      Reports(run, actions, n, id)
      == TimerCount.ReferenceAnswers([], Ops(run, actions, n, id), t.countLimit, t.timeLimit)
  {
    var t := run[n].made[id];
    RunTracked(run, actions, n, id);
    TimerCount.PruningAgrees(Ops(run, actions, n, id), t.countLimit, t.timeLimit);
  }
}
