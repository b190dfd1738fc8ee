/** Runs of a handler task with its memory readings: when a check decides to kill, and how long low
    memory defers that. */
module WatchdogChecks {
  import opened Unsigned
  import opened WatchdogTaskObject
  import HandlerProbe
  import LowMemory

  datatype Task = Task(config: Config, lowMemory: bool)

  datatype State = State(probe: HandlerProbe.State, memory: LowMemory.State)

  datatype Action =
    | Read(now: nat, mem: int)             // Run() reads the available memory
    | Check(t: Clocks)                     // EvaluateCheckerState
    | Probe(step: HandlerProbe.Action)     // a posting or a completion

  predicate Enabled(s: State, a: Action) {
    match a
    case Read(_, _) => true
    case Check(_) => !s.probe.midCheck
    case Probe(step) => !step.Evaluate? && HandlerProbe.Enabled(s.probe, step)
  }

  /** What the low-memory strategy sees of a step. */
  function Seen(task: Task, s: State, a: Action): LowMemory.Event {
    if !task.lowMemory then LowMemory.Passes else
      match a
      case Read(now, mem) => LowMemory.Sampled(now, mem)
      case Check(t) =>
        var verdict := HandlerProbe.Judge(s.probe);
        if verdict == HandlerProbe.Completed then LowMemory.Completes
        else if verdict == HandlerProbe.WaitedHalf || task.config.callback then LowMemory.Passes
        else LowMemory.Waits(t.send, t.status, t.exit)
      case Probe(_) => LowMemory.Passes
  }

  function Apply(task: Task, s: State, a: Action): State
    requires Enabled(s, a)
  {
    State(match a
          case Read(_, _) => s.probe
          case Check(_) => HandlerProbe.Evaluated(s.probe)
          case Probe(step) => HandlerProbe.Apply(s.probe, step),
          LowMemory.Apply(s.memory, Seen(task, s, a)))
  }

  /** The events that a check decides on. */
  function Decided(task: Task, s: State, t: Clocks): set<Event> {
    Decide(task.config, HandlerProbe.Judge(s.probe)) - if task.lowMemory then Deferred(s.memory, t) else {}
  }

  ghost predicate Execution(task: Task, run: seq<State>, actions: seq<Action>) {
    && |run| == |actions| + 1 && run[0].probe == HandlerProbe.Start(run[0].probe.handler)
    && forall k {:trigger actions[k]} :: 0 <= k < |actions| ==>
         Enabled(run[k], actions[k]) && run[k + 1] == Apply(task, run[k], actions[k])
  }

  /** A check changes the low-memory state as WatchdogTask.EvaluateCheckerState does. */
  lemma CheckRemembers(task: Task, s: State, t: Clocks)
    requires Enabled(s, Check(t))
    ensures Apply(task, s, Check(t)).memory ==
      if task.lowMemory then Remembered(s.memory, HandlerProbe.Judge(s.probe), task.config.callback, t) else s.memory
  {
  }

  lemma {:induction false} RunKeepsInv(task: Task, run: seq<State>, actions: seq<Action>, k: nat)
    requires Execution(task, run, actions) && k < |run|
    ensures HandlerProbe.Inv(run[k].probe)
    decreases k
  {
    if k > 0 {
      RunKeepsInv(task, run, actions, k - 1);
      var s, a := run[k - 1], actions[k - 1];
      if a.Check? {
        HandlerProbe.EvaluateKeepsInv(s.probe);
      } else if a.Probe? {
        HandlerProbe.StepKeepsInv(s.probe, a.step);
      }
    }
  }

  predicate CanKill(c: Config) { !c.callback && (!c.ipcFull || (c.flagRecovery && !c.func)) }

  /** In every run a check decides to kill exactly if the task can kill, the current probe was created
      two or more checks before and has not been run, and low memory does not defer the exit. */
  lemma KillIff(task: Task, run: seq<State>, actions: seq<Action>, n: nat)
    requires Execution(task, run, actions) && n < |actions| && actions[n].Check?
    ensures var s, t, p := run[n], actions[n].t, run[n].probe;
      && (p.current > 0 ==> p.current in p.postedAt)
      && (Kill in Decided(task, s, t) <==>
            && CanKill(task.config)
            && p.current > 0 && p.current !in p.done && p.postedAt[p.current] + 2 <= |p.log|
            && !(task.lowMemory && LowMemory.SkipsExit(s.memory, t.status, t.exit)))
  {
    RunKeepsInv(task, run, actions, n);
    HandlerProbe.JudgeIff(run[n].probe);
  }

  // Deferral --------------------------------------------------------------------------------

  /** Check n is a full wait. */
  predicate FullWait(run: seq<State>, actions: seq<Action>, n: nat) {
    n < |actions| && n < |run| && actions[n].Check? && HandlerProbe.Judge(run[n].probe) == HandlerProbe.Waiting
  }

  predicate Completes(run: seq<State>, actions: seq<Action>, n: nat) {
    n < |actions| && n < |run| && actions[n].Check? && HandlerProbe.Judge(run[n].probe) == HandlerProbe.Completed
  }

  /** Check a is a full wait that is deferred with no deferral on record. */
  ghost predicate FirstDeferral(task: Task, run: seq<State>, actions: seq<Action>, a: nat) {
    && FullWait(run, actions, a) && run[a].memory.freeze == 0
    && Kill !in Decided(task, run[a], actions[a].t) && actions[a].t.exit > 0
  }

  /** From a to before b no check says Completed, and every full wait reads the clock within a minute
      after time `first`. */
  ghost predicate WithinMinute(run: seq<State>, actions: seq<Action>, a: nat, b: nat, first: nat) {
    && (forall k :: a <= k < b ==> !Completes(run, actions, k))
    && (forall k :: a <= k < b && FullWait(run, actions, k) ==>
          first <= actions[k].t.exit <= first + LowMemory.MAX_LOW_MEMORY_FREEZE_TIME)
  }

  /** The run as the low-memory strategy sees it. */
  lemma SeenRun(task: Task, run: seq<State>, actions: seq<Action>)
      returns (memories: seq<LowMemory.State>, events: seq<LowMemory.Event>)
    requires Execution(task, run, actions)
    ensures LowMemory.Execution(memories, events) && |events| == |actions| && |memories| == |run|
    ensures forall k :: 0 <= k < |run| ==> memories[k] == run[k].memory
    ensures forall k :: 0 <= k < |actions| ==> events[k] == Seen(task, run[k], actions[k])
  {
    memories := seq(|run|, k requires 0 <= k < |run| => run[k].memory);
    events := seq(|actions|, k requires 0 <= k < |actions| => Seen(task, run[k], actions[k]));
    forall k | 0 <= k < |events| ensures memories[k + 1] == LowMemory.Apply(memories[k], events[k]) {
      assert run[k + 1] == Apply(task, run[k], actions[k]);
    }
  }

  /** In every run of a task that can kill, with the low-memory strategy on: after the first deferral
      and while no check says Completed, a full wait kills exactly unless memory is low and it comes
      within a minute of that deferral; so the first full wait after the minute kills. */
  lemma DeferredForOneMinute(task: Task, run: seq<State>, actions: seq<Action>, a: nat, b: nat)
    requires Execution(task, run, actions) && task.lowMemory && CanKill(task.config)
    requires FirstDeferral(task, run, actions, a) && a < b && FullWait(run, actions, b)
    requires WithinMinute(run, actions, a + 1, b, actions[a].t.exit)
    requires actions[a].t.exit <= actions[b].t.exit < U64
    ensures Kill in Decided(task, run[b], actions[b].t) <==>
      !(LowMemory.Low(run[b].memory, actions[b].t.status)
        && actions[b].t.exit - actions[a].t.exit <= LowMemory.MAX_LOW_MEMORY_FREEZE_TIME)
  {
    var memories, events := SeenRun(task, run, actions);
    forall k | a + 1 <= k < b
      ensures !events[k].Completes?
      ensures events[k].Waits? ==>
        actions[a].t.exit <= events[k].exit <= actions[a].t.exit + LowMemory.MAX_LOW_MEMORY_FREEZE_TIME
    {
      assert events[k] == Seen(task, run[k], actions[k]) && !Completes(run, actions, k);
      assert events[k].Waits? ==> FullWait(run, actions, k);
    }
    assert events[a] == Seen(task, run[a], actions[a]) && events[b] == Seen(task, run[b], actions[b]);
    LowMemory.DeferredForOneMinute(memories, events, a, b);
  }

  // All events ------------------------------------------------------------------------------

  /** The current probe has not been run and was created `age` or more checks before. */
  predicate Pending(p: HandlerProbe.State, age: nat) {
    p.current > 0 && p.current !in p.done && p.current in p.postedAt && p.postedAt[p.current] + age <= |p.log|
  }

  /** In every run, what a check sends: for a handler task a warning on a probe of the check before and a
      block on an older one, unless low memory has sent one already; for the IPC-full task the same
      under its own names, if it logs; and nothing with a callback. */
  lemma EventsIff(task: Task, run: seq<State>, actions: seq<Action>, n: nat)
    requires Execution(task, run, actions) && n < |actions| && actions[n].Check?
    ensures var s, t, c, p := run[n], actions[n].t, task.config, run[n].probe;
      var events := Decided(task, s, t);
      && (ServiceWarning in events <==> !c.callback && !c.ipcFull && Pending(p, 1) && !Pending(p, 2))
      && (IpcFullWarning in events <==> !c.callback && c.ipcFull && c.flagLog && Pending(p, 1) && !Pending(p, 2))
      && (ServiceBlock in events <==>
            && !c.callback && !c.ipcFull && Pending(p, 2)
            && !(task.lowMemory && LowMemory.Low(s.memory, t.send) && s.memory.hadSend))
      && (IpcFull in events <==> !c.callback && c.ipcFull && c.flagLog && Pending(p, 2))
  {
    RunKeepsInv(task, run, actions, n);
    HandlerProbe.JudgeIff(run[n].probe);
  }

  /** In every run with the strategy on, a check finds memory low exactly if some reading of 1 to 512000
      was taken within the last 60000 ms. */
  lemma LowIff(task: Task, run: seq<State>, actions: seq<Action>, k: nat, now: nat)
    requires Execution(task, run, actions) && k < |run| && task.lowMemory && run[0].memory.lastLow == 0 && now < U64
    requires forall j :: 0 <= j < k && ReadsLow(actions, j) ==> 0 < actions[j].now <= now
    requires forall i, j :: 0 <= i < j < k && ReadsLow(actions, i) && ReadsLow(actions, j) ==>
      actions[i].now <= actions[j].now
    ensures LowMemory.Low(run[k].memory, now) <==>
      exists j :: 0 <= j < k && ReadsLow(actions, j) && now - actions[j].now <= 60000
  {
    var memories, events := SeenRun(task, run, actions);
    forall j | 0 <= j < k
      ensures LowMemory.ReadsLow(events, j) <==> ReadsLow(actions, j)
      ensures ReadsLow(actions, j) ==> events[j].now == actions[j].now
    {
      assert events[j] == Seen(task, run[j], actions[j]);
    }
    LowMemory.LowIff(memories, events, k, now);
    assert memories[k] == run[k].memory;
  }

  predicate ReadsLow(actions: seq<Action>, j: nat) {
    j < |actions| && actions[j].Read? && 0 < actions[j].mem <= 512000
  }
}
