/** The watchdog object: its queue and registry are updated in place; each method is one step of
    the scheduler machine. */
module WatchdogInnerObject {
  import opened Scheduler
  import opened SchedulerSafety
  import opened SchedulerPace
  import opened SchedulerRequests
  import TimerCount
  import opened Unsigned

  const INVALID_ID: int := -1

  lemma {:induction false} TopExists(queue: map<nat, Task>)
    requires queue != map[]
    ensures exists id :: IsTop(queue, id)
    decreases |queue|
  {
    var id :| id in queue;
    var rest := queue - {id};
    if rest == map[] {
      assert forall other :: other in queue && other != id ==> other in rest;
      assert IsTop(queue, id);
    } else {
      assert |rest| == |rest.Keys| && |queue| == |queue.Keys| && rest.Keys == queue.Keys - {id};
      TopExists(rest);
      var top :| IsTop(rest, top);
      var best := if queue[id].tick <= queue[top].tick then id else top;
      assert forall other :: other in queue ==> other == id || other in rest;
      assert IsTop(queue, best);
    }
  }

  /** checkerQueue_.top(): some task with the earliest tick. */
  method Top(queue: map<nat, Task>) returns (id: nat)
    requires queue != map[]
    ensures IsTop(queue, id)
  {
    TopExists(queue);
    id :| id in queue && IsTop(queue, id);
  }

  method Pop(queue: map<nat, Task>) returns (id: nat, task: Task, rest: map<nat, Task>)
    requires queue != map[]
    ensures IsTop(queue, id) && task == queue[id] && rest == queue - {id} && |rest| < |queue|
  {
    id := Top(queue);
    task, rest := queue[id], queue - {id};
    assert |rest| == |rest.Keys| && |queue| == |queue.Keys| && rest.Keys == queue.Keys - {id};
  }

  /** `tmp` holds the kept part of what has been drained from `all`; `left` is still to come. */
  ghost predicate Drained(all: map<nat, Task>, left: map<nat, Task>, tmp: map<nat, Task>, keep: Task -> bool) {
    && (forall id :: id in left ==> id in all && left[id] == all[id])
    && (forall id :: id in tmp <==> id in all && id !in left && keep(all[id]))
    && (forall id :: id in tmp ==> tmp[id] == all[id])
  }

  lemma DrainedStep(all: map<nat, Task>, left: map<nat, Task>, tmp: map<nat, Task>, keep: Task -> bool, top: nat)
    requires Drained(all, left, tmp, keep) && top in left
    ensures Drained(all, left - {top}, if keep(left[top]) then tmp[top := left[top]] else tmp, keep)
  {
  }

  /** The drain-and-rebuild loop of RemoveXCollieTask. */
  method DrainTimer(queue: map<nat, Task>, id: nat) returns (tmpQueue: map<nat, Task>)
    requires forall k :: k in queue ==> queue[k].id == k
    ensures tmpQueue == if id in queue && queue[id].timeout != 0 then queue - {id} else queue
  {
    var left := queue;
    tmpQueue := map[];
    ghost var keep := (t: Task) => t.id != id || t.timeout == 0;
    while left != map[]
      invariant Drained(queue, left, tmpQueue, keep)
      decreases |left|
    {
      var top, task, rest := Pop(left);
      DrainedStep(queue, left, tmpQueue, keep, top);
      if task.id != id || task.timeout == 0 {
        tmpQueue := tmpQueue[top := task];
      }
      left := rest;
    }
  }

  /** The drain-and-rebuild loop of RemoveInnerTask; `erase` is set by a removed periodic task. */
  method DrainName(queue: map<nat, Task>, name: string) returns (tmpQueue: map<nat, Task>, erase: bool)
    ensures tmpQueue == map id | id in queue && queue[id].name != name :: queue[id]
    ensures erase <==> exists id :: id in queue && queue[id].name == name && !queue[id].oneShot
  {
    var left := queue;
    tmpQueue, erase := map[], false;
    ghost var keep := (t: Task) => t.name != name;
    while left != map[]
      invariant Drained(queue, left, tmpQueue, keep)
      invariant erase <==> exists id :: id in queue && id !in left && queue[id].name == name && !queue[id].oneShot
      decreases |left|
    {
      var top, task, rest := Pop(left);
      DrainedStep(queue, left, tmpQueue, keep, top);
      if task.name != name {
        tmpQueue := tmpQueue[top := task];
      } else {
        erase := erase || !task.oneShot;
      }
      left := rest;
    }
  }

  /** The size tells whether anything was removed. */
  lemma RemovalShows(queue: map<nat, Task>, rest: map<nat, Task>, name: string)
    requires rest == map id | id in queue && queue[id].name != name :: queue[id]
    ensures |rest| != |queue| <==> exists id :: id in queue && queue[id].name == name
  {
    assert |rest| == |rest.Keys| && |queue| == |queue.Keys|;
    assert queue.Keys == rest.Keys + (queue.Keys - rest.Keys);
    if k :| k in queue && queue[k].name == name {
      assert k in queue.Keys - rest.Keys;
    } else {
      assert queue.Keys == rest.Keys;
    }
  }

  /** The drain-and-rebuild loop of TriggerTimerCountTask. */
  method DrainTriggering(queue: map<nat, Task>, name: string, add: bool, now: nat) returns (tmpQueue: map<nat, Task>)
    ensures tmpQueue == map id | id in queue :: Triggered(queue[id], name, add, now)
  {
    var left := queue;
    tmpQueue := map[];
    while left != map[]
      invariant forall id :: id in left ==> id in queue && left[id] == queue[id]
      invariant forall id :: id in tmpQueue <==> id in queue && id !in left
      invariant forall id :: id in tmpQueue ==> tmpQueue[id] == Triggered(queue[id], name, add, now)
      decreases |left|
    {
      var top, task, rest := Pop(left);
      tmpQueue := tmpQueue[top := Triggered(task, name, add, now)];
      left := rest;
    }
  }

  /** The step that a fetch takes when `top` is on top of the queue, and then `next`. */
  function Fetching(s: State, now: nat, stop: bool, finished: bool, kick: bool, top: nat, next: nat): Action {
    if stop then DoStop
    else if top in s.queue && Retires(s.queue[top], finished) then DoRetire(now, top, next, kick)
    else DoFetch(now, top, kick)
  }

  /** A fetch retires its top task exactly if that has no name, or is one of four checkers and finished. */
  lemma FetchDecides(s: State, now: nat, finished: bool, kick: bool, top: nat, next: nat)
    requires top in s.queue
    ensures Fetching(s, now, false, finished, kick, top, next) ==
      if s.queue[top].name == ""
         || (finished && s.queue[top].name in {"ThreadSampler", "AppStartSample", "TraceCollector", "FreezeSampler"})
      then DoRetire(now, top, next, kick) else DoFetch(now, top, kick)
    ensures Fetching(s, now, true, finished, kick, top, next) == DoStop
  {
  }

  ghost predicate Steps(s: State, t: State, a: Action) { Enabled(s, a) && t == Apply(s, a) }

  /** The fetch takes such a step for some top task, and the one below it if that is retired. */
  ghost predicate Fetches(s: State, t: State, now: nat, stop: bool, finished: bool, kick: bool) {
    exists top: nat, next: nat :: Steps(s, t, Fetching(s, now, stop, finished, kick, top, next))
  }

  lemma FetchIsStep(s: State, now: nat, finished: bool, kick: bool, top: nat)
    requires s.loop.Ready? && Readable(s, now)
    requires s.queue != map[] ==> IsTop(s.queue, top) && !Retires(s.queue[top], finished)
    ensures Fetches(s, Take(s, now, top, kick), now, false, finished, kick)
  {
    assert Steps(s, Take(s, now, top, kick), Fetching(s, now, false, finished, kick, top, top));
  }

  lemma RetireIsStep(s: State, now: nat, finished: bool, kick: bool, top: nat, next: nat)
    requires s.loop.Ready? && Readable(s, now) && IsTop(s.queue, top) && Retires(s.queue[top], finished)
    requires s.queue - {top} != map[] ==> IsTop(s.queue - {top}, next)
    ensures Fetches(s, Take(Retire(s, top), now, next, kick), now, false, finished, kick)
  {
    assert Steps(s, Take(Retire(s, top), now, next, kick), Fetching(s, now, false, finished, kick, top, next));
  }

  class WatchdogInner {
    var checkerQueue: map<nat, Task>
    var taskNameSet: set<string>
    var nextWeakUpTime: nat
    var curId: nat
    var loop: Loop
    ghost const range: Range
    var clock: nat
    ghost var notified: bool
    ghost var made: map<nat, Task>
    ghost var ticks: map<nat, seq<Tick>>
    ghost var cancelled: set<nat>

    ghost function View(): State
      reads this
    {
      State(checkerQueue, taskNameSet, loop, nextWeakUpTime, notified, range, clock, curId, made, ticks, cancelled)
    }

    constructor (ghost range: Range)
      ensures View() == Start(range)
    {
      this.range := range;
      checkerQueue, taskNameSet, nextWeakUpTime, curId, loop, clock := map[], {}, U64 - 1, 0, Ready, 0;
      notified, made, ticks, cancelled := false, map[], map[], {};
    }

    method InsertWatchdogTaskLocked(task: Task) returns (id: int)
      modifies this
      ensures View() == Push(old(View()), task)
      ensures id == if Accepts(old(View()), task) then task.id else 0
    {
      curId := task.id;
      if !task.oneShot && task.name in taskNameSet {
        return 0;
      }
      if |checkerQueue| >= MAX_WATCH_NUM {
        return 0;
      }
      checkerQueue, made := checkerQueue[task.id := task], made[task.id := task];
      if !task.oneShot {
        taskNameSet := taskNameSet + {task.name};
      }
      if task.tick < nextWeakUpTime {
        notified := true;
      }
      return task.id;
    }

    /** AddThread, RunOneShotTask, RunXCollieTask, RunPeriodicalTask and SetTimerCountTask.  They all
        do nothing unless `usable`: not in the spawner, with a handler or callback, and a priority in
        range where one is given.  AddThread returns a status, the timers an id, the others nothing. */
    method Register(request: Request, usable: bool, now: nat) returns (code: int)
      modifies this
      ensures View() == if usable then Insert(old(View()), request, now) else old(View())
      ensures request.Thread? ==> code == if usable && Welcome(old(View()), request) then 0 else INVALID_ID
      ensures request.Timer? || request.TimerCounter? ==>
        code == if !usable || Refused(request) then INVALID_ID
                else if Welcome(old(View()), request) then old(curId) + 1 else 0
    {
      if !usable || Refused(request) {
        return INVALID_ID;
      }
      code := InsertWatchdogTaskLocked(Build(request, curId + 1, now));
      if request.Thread? {
        code := if code == 0 then INVALID_ID else 0;
      }
    }

    method RemoveXCollieTask(id: nat)
      requires Ids(View())
      modifies this
      ensures View() == Cancel(old(View()), id)
    {
      if id in checkerQueue && checkerQueue[id].timeout != 0 {
        cancelled := cancelled + {id};
      }
      checkerQueue := DrainTimer(checkerQueue, id);
    }

    method RemoveInnerTask(name: string) returns (removed: bool)
      modifies this
      ensures View() == Remove(old(View()), name)
      ensures removed <==> name != "" && exists id :: id in old(checkerQueue) && old(checkerQueue)[id].name == name
    {
      if name == "" {
        return false;
      }
      var size := |checkerQueue|;
      var tmpQueue, erase := DrainName(checkerQueue, name);
      if erase {
        taskNameSet := taskNameSet - {name};
      }
      RemovalShows(checkerQueue, tmpQueue, name);
      checkerQueue := tmpQueue;
      removed := |checkerQueue| != size;
    }

    method TriggerTimerCountTask(name: string, add: bool, now: nat)
      modifies this
      ensures View() == Trigger(old(View()), name, add, now)
    {
      checkerQueue := DrainTriggering(checkerQueue, name, add, now);
    }

    /** FetchNextTask and the wake-up bookkeeping around it; `finished` and `kick` are the flags the
        task bodies and the process set. */
    method FetchNextTask(now: nat, isNeedStop: bool, finished: bool, kick: bool)
      requires loop == Ready && clock <= now < range
      modifies this
      ensures Fetches(old(View()), View(), now, isNeedStop, finished, kick)
    {
      ghost var s := View();
      if isNeedStop {
        DropAll();
        assert Steps(s, View(), Fetching(s, now, true, finished, kick, 0, 0));
      } else {
        FetchTop(now, finished, kick);
      }
    }

    method DropAll()
      requires loop == Ready
      modifies this
      ensures View() == Apply(old(View()), DoStop)
    {
      while checkerQueue != map[]
        invariant View() == old(View()).(queue := checkerQueue)
        decreases |checkerQueue|
      {
        var _, _, rest := Pop(checkerQueue);
        checkerQueue := rest;
      }
      loop := Halted;
    }

    method FetchTop(now: nat, finished: bool, kick: bool)
      requires loop == Ready && clock <= now < range
      modifies this
      ensures Fetches(old(View()), View(), now, false, finished, kick)
    {
      ghost var s := View();
      if checkerQueue == map[] {
        TakeTop(now, 0, kick);
        FetchIsStep(s, now, finished, kick, 0);
        return;
      }
      var top := Top(checkerQueue);
      if Retires(checkerQueue[top], finished) {
        RetireTop(top);
        var next := 0;
        if checkerQueue != map[] {
          next := Top(checkerQueue);
        }
        TakeTop(now, next, kick);
        RetireIsStep(s, now, finished, kick, top, next);
      } else {
        TakeTop(now, top, kick);
        FetchIsStep(s, now, finished, kick, top);
      }
    }

    /** CheckCurrentTaskLocked on a task that it retires. */
    method RetireTop(top: nat)
      requires top in checkerQueue
      modifies this
      ensures View() == Retire(old(View()), top)
    {
      var name := checkerQueue[top].name;
      checkerQueue := checkerQueue - {top};
      if name != "" {
        taskNameSet := taskNameSet - {name};
      }
    }

    method TakeTop(now: nat, id: nat, kick: bool)
      requires checkerQueue != map[] ==> id in checkerQueue
      modifies this
      ensures View() == Take(old(View()), now, id, kick)
    {
      var left := DEFAULT_TIMEOUT;
      if checkerQueue != map[] {
        var task := checkerQueue[id];
        if task.tick > now {
          left := task.tick - now;
          if task.name == KICK_WATCHDOG_TASK && left > KICK_WATCHDOG_INTERVAL && kick {
            left := KICK_WATCHDOG_INTERVAL;
          }
        } else {
          checkerQueue, loop := checkerQueue - {id}, Fetched(task, now);
          nextWeakUpTime, clock := now, now;
          return;
        }
      }
      nextWeakUpTime, clock, loop, notified := (now + left) % U64, now, Asleep, false;
    }

    /** task.Run(now) on the fetched task: a timer counter checks its triggers; any other periodic
        task that is more than two intervals late is reset instead of run. */
    method RunFetched() returns (ran: bool, reported: bool)
      requires loop.Fetched?
      modifies this
      ensures View() == Run(old(View()))
      ensures var t, now := old(loop.task), old(loop.now);
        && History(View(), t.id) == old(History(View(), loop.task.id)) + [Tick(t.tick, now, ran)]
        && (Ticking(t) && t.tick <= now < U64 ==>
              (ran <==> now - t.tick <= Patience(t.interval)) && loop.task == if ran then t else t.(tick := now))
        && (reported <==> t.countLimit > 0 && TimerCount.AnyShort(t.triggers, t.countLimit, t.timeLimit))
    {
      var task, now := loop.task, loop.now;
      ghost var before := History(View(), task.id);
      ran, reported := true, false;
      if task.countLimit > 0 {
        var kept;
        reported, kept := TimerCount.CheckTriggers(task.triggers, task.countLimit, task.timeLimit);
        task := task.(triggers := kept);
      } else {
        var blockedThresholdMs := 2 * task.interval % U64;
        if task.interval != 0 && Minus(now, task.tick) > blockedThresholdMs {
          ran := false;
          task := task.(tick := now);
        }
      }
      ticks := ticks[task.id := before + [Tick(loop.task.tick, now, ran)]];
      loop := Executed(task);
    }

    method ReInsertTaskIfNeed()
      requires loop.Executed?
      modifies this
      ensures View() == ReInsert(old(View()))
    {
      var task := loop.task;
      loop := Ready;
      if task.interval == 0 || task.name !in taskNameSet {
        return;
      }
      checkerQueue := checkerQueue[task.id := task.(tick := (task.tick + task.interval) % U64)];
    }
  }
}
