/** What a handler check decides, with and without the low-memory strategy. */
module WatchdogTaskObject {
  import opened HandlerProbe
  import LowMemory
  import opened Unsigned

  /** How the task was registered, as far as EvaluateCheckerState depends on it. */
  datatype Config = Config(ipcFull: bool, callback: bool, func: bool, flagLog: bool, flagRecovery: bool)

  datatype Event = ServiceWarning | ServiceBlock | IpcFullWarning | IpcFull | Kill

  /** EvaluateCheckerState without the low-memory strategy; `func` strips the recovery flag. */
  function Decide(c: Config, v: Verdict): set<Event> {
    if v == Completed || c.callback then {}
    else if v == WaitedHalf then
      if !c.ipcFull then {ServiceWarning} else if c.flagLog then {IpcFullWarning} else {}
    else
      (if !c.ipcFull then {ServiceBlock} else if c.flagLog then {IpcFull} else {})
      + (if !c.ipcFull || (c.flagRecovery && !c.func) then {Kill} else {})
  }

  /** Clock readings of one check: in the event test, the status test and the exit test. */
  datatype Clocks = Clocks(send: nat, status: nat, exit: nat)

  /** What the low-memory strategy takes back from a decision. */
  function Deferred(m: LowMemory.State, t: Clocks): set<Event> {
    (if LowMemory.Low(m, t.send) && m.hadSend then {ServiceBlock} else {})
    + (if LowMemory.SkipsExit(m, t.status, t.exit) then {Kill} else {})
  }

  /** What a check does to the low-memory state: a callback hides all verdicts but Completed. */
  function Remembered(m: LowMemory.State, v: Verdict, callback: bool, t: Clocks): LowMemory.State {
    if v == Completed then LowMemory.Apply(m, LowMemory.Completes)
    else if v == WaitedHalf || callback then m
    else LowMemory.Apply(m, LowMemory.Waits(t.send, t.status, t.exit))
  }

  class WatchdogTask {
    const checker: HandlerChecker
    const ipcFull: bool
    const callback: bool
    const func: bool
    const lowMemoryCheck: bool
    var flagLog: bool
    var flagRecovery: bool
    var reportCount: nat
    var lastLowMemoryTime: nat
    var lastLowMemoryFreezeTime: nat
    var hadSendEvent: bool

    ghost function Registered(): Config
      reads this
    {
      Config(ipcFull, callback, func, flagLog, flagRecovery)
    }

    ghost function Memory(): LowMemory.State
      reads this
    {
      LowMemory.State(lastLowMemoryTime, lastLowMemoryFreezeTime, hadSendEvent)
    }

    /** The low-memory strategy is for handler tasks only. */
    predicate Valid() { lowMemoryCheck ==> !ipcFull }

    constructor (checker: HandlerChecker, c: Config, renderService: bool)
      ensures Valid() && this.checker == checker && Registered() == c && reportCount == 0
      ensures lowMemoryCheck == (renderService && !c.ipcFull) && Memory() == LowMemory.State(0, 0, false)
    {
      this.checker, ipcFull, callback, func := checker, c.ipcFull, c.callback, c.func;
      lowMemoryCheck, flagLog, flagRecovery := renderService && !c.ipcFull, c.flagLog, c.flagRecovery;
      reportCount, lastLowMemoryTime, lastLowMemoryFreezeTime, hadSendEvent := 0, 0, 0, false;
    }

    /** The memory reading at the head of Run(). */
    method NoteAvailableMemory(now: nat, mem: int)
      modifies this
      ensures Memory() == if lowMemoryCheck then LowMemory.Apply(old(Memory()), LowMemory.Sampled(now, mem))
                          else old(Memory())
      ensures Registered() == old(Registered()) && reportCount == old(reportCount)
    {
      if lowMemoryCheck && mem > 0 && mem <= LowMemory.BELOW_MEM_SIZE {
        lastLowMemoryTime := now;
      }
    }

    method IsLowMemoryStatus(now: nat) returns (low: bool)
      ensures low == (lowMemoryCheck && LowMemory.Low(Memory(), now))
    {
      if !lowMemoryCheck {
        return false;
      }
      if lastLowMemoryTime == 0 {
        return false;
      }
      return Minus(now, lastLowMemoryTime) <= LowMemory.LOW_MEMORY_CHECK_WINDOW;
    }

    method ShouldSkipSendEventForLowMemory(now: nat) returns (skip: bool)
      requires lowMemoryCheck
      modifies this`hadSendEvent
      ensures Memory() == LowMemory.AfterSend(old(Memory()), now)
      ensures skip == (LowMemory.Low(old(Memory()), now) && old(hadSendEvent))
    {
      var low := IsLowMemoryStatus(now);
      if !low {
        return false;
      }
      skip := hadSendEvent;
      hadSendEvent := true;
    }

    method ShouldSkipExitForLowMemory(status: nat, exit: nat) returns (skip: bool)
      requires lowMemoryCheck
      modifies this`lastLowMemoryFreezeTime
      ensures Memory() == LowMemory.AfterExit(old(Memory()), status, exit)
      ensures skip == LowMemory.SkipsExit(old(Memory()), status, exit)
    {
      var low := IsLowMemoryStatus(status);
      if !low {
        return false;
      }
      if lastLowMemoryFreezeTime == 0 {
        lastLowMemoryFreezeTime := exit;
        return true;
      }
      if Minus(exit, lastLowMemoryFreezeTime) <= LowMemory.MAX_LOW_MEMORY_FREEZE_TIME {
        return true;
      }
      lastLowMemoryFreezeTime := 0;
      return false;
    }

    method HandleWaitedHalfState() returns (events: set<Event>)
      modifies this`reportCount
      ensures reportCount == old(reportCount) + 1
      ensures events == Decide(Registered().(callback := false), WaitedHalf)
    {
      reportCount := reportCount + 1;
      events := {};
      if !ipcFull {
        events := {ServiceWarning};
      } else if flagLog {
        events := {IpcFullWarning};
      }
    }

    method HandleWaitedFullState(t: Clocks) returns (events: set<Event>)
      requires Valid() && (func ==> !flagRecovery)
      modifies this`reportCount, this`hadSendEvent, this`lastLowMemoryFreezeTime
      ensures reportCount == old(reportCount) + 1
      ensures events == Decide(Registered().(callback := false), Waiting)
                        - if lowMemoryCheck then Deferred(old(Memory()), t) else {}
      ensures Memory() == if lowMemoryCheck then Remembered(old(Memory()), Waiting, false, t) else old(Memory())
    {
      reportCount := reportCount + 1;
      events := {};
      var skip := false;
      if !ipcFull {
        if lowMemoryCheck {
          skip := ShouldSkipSendEventForLowMemory(t.send);
        }
        if !skip {
          events := {ServiceBlock};
        }
      } else if flagLog {
        events := {IpcFull};
      }
      if !ipcFull || flagRecovery {
        skip := false;
        if lowMemoryCheck {
          skip := ShouldSkipExitForLowMemory(t.status, t.exit);
        }
        if !skip {
          events := events + {Kill};
        }
      }
    }

    /** The events decided on, less those the low-memory strategy takes back; the count of reports on
        this block; and a callback of the IPC-full task costs it the recovery flag for good. */
    method EvaluateCheckerState(t: Clocks) returns (events: set<Event>)
      requires Valid()
      modifies this, checker
      ensures checker.View() == Evaluated(old(checker.View()))
      ensures events == Decide(old(Registered()), old(Judge(checker.View())))
                        - if lowMemoryCheck then Deferred(old(Memory()), t) else {}
      ensures Memory() == if lowMemoryCheck then Remembered(old(Memory()), old(Judge(checker.View())), callback, t)
                          else old(Memory())
      ensures reportCount == if old(checker.isCompleted) then 0 else old(reportCount) + if callback then 0 else 1
      ensures flagLog == old(flagLog) && flagRecovery == (old(flagRecovery) && (old(checker.isCompleted) || !func))
    {
      var waitState := checker.GetCheckState();
      if waitState == Completed {
        reportCount := 0;
        if lowMemoryCheck {
          lastLowMemoryFreezeTime, hadSendEvent := 0, false;
        }
        return {};
      }
      if func {
        flagRecovery := false;
      }
      if callback {
        return {};
      }
      if waitState == WaitedHalf {
        events := HandleWaitedHalfState();
      } else {
        events := HandleWaitedFullState(t);
      }
    }

    /** A check is an evaluation and then a scheduling step.  If `completes`, the watched thread runs
        the current probe between the two; `accepted` is PostTask's answer. */
    method RunHandlerCheckerTask(completes: bool, accepted: bool, t: Clocks) returns (events: set<Event>)
      requires Valid() && (completes ==> checker.current in checker.queued)
      modifies this, checker
      ensures var e := Evaluated(old(checker.View()));
        checker.View() == Scheduled(if completes then Apply(e, Complete(e.current)) else e, accepted)
      ensures events == Decide(old(Registered()), old(Judge(checker.View())))
                        - if lowMemoryCheck then Deferred(old(Memory()), t) else {}
      ensures Memory() == if lowMemoryCheck then Remembered(old(Memory()), old(Judge(checker.View())), callback, t)
                          else old(Memory())
      ensures reportCount == if old(checker.isCompleted) then 0 else old(reportCount) + if callback then 0 else 1
      ensures flagLog == old(flagLog) && flagRecovery == (old(flagRecovery) && (old(checker.isCompleted) || !func))
    {
      events := EvaluateCheckerState(t);
      if completes {
        checker.RunProbe(checker.current);
      }
      checker.ScheduleCheck(accepted);
    }
  }

  // Decisions over runs -------------------------------------------------------------------

  /** Every kill at check k follows a warning at an earlier check on the same probe.  The probe was
      created before that warning; no check in between judged it completed, and up to check k the
      watched thread had not run it.  For a handler task the warning is a SERVICE_WARNING and every
      check after it a SERVICE_BLOCK. */
  lemma KillIsWarned(run: seq<State>, actions: seq<Action>, n: nat, k: nat, c: Config)
    requires Execution(run, actions) && n < |run| && k < |run[n].log| && Kill in Decide(c, run[n].log[k].verdict)
    ensures var s, probe := run[n], run[n].log[k].probe;
      && probe in s.postedAt && s.postedAt[probe] + 2 <= k
      && (forall m :: s.postedAt[probe] < m <= k ==> s.log[m].probe == probe && s.log[m].verdict != Completed)
      && (forall m :: 0 <= m <= n && |run[m].log| <= k ==> probe !in run[m].done)
      && (!c.ipcFull ==> Decide(c, s.log[s.postedAt[probe] + 1].verdict) == {ServiceWarning})
      && (!c.ipcFull ==>
            forall m :: s.postedAt[probe] + 1 < m <= k ==> Decide(c, s.log[m].verdict) == {ServiceBlock, Kill})
  {
    RunKeepsInv(run, actions, n);
    assert Warned(run[n], k);
    forall m | 0 <= m <= n && |run[m].log| <= k ensures run[n].log[k].probe !in run[m].done {
      NotDoneBefore(run, actions, m, n, k);
    }
  }
}
