/** The watchdog scheduler: a deadline-ordered queue, a registry of periodic names, at most one
    task outside the queue, and the loop that sleeps, fetches, runs and re-inserts. */
module Scheduler {
  import TimerCount
  import opened Unsigned

  /** The range of the millisecond clock: readings stay below it. */
  type Range = r: nat | r <= U64

  const MAX_WATCH_NUM := 128
  const MAX_NAME_SIZE := 128
  const DEFAULT_TIMEOUT := 60000
  const KICK_WATCHDOG_INTERVAL := 30000
  const KICK_WATCHDOG_TASK := "Kick_Watchdog_Task"
  /** The checkers that the fetch itself retires: stack, app start, trace and freeze sampling. */
  const RESERVED: set<string> := {"ThreadSampler", "AppStartSample", "TraceCollector", "FreezeSampler"}

  datatype Task = Task(
    id: nat,
    name: string,
    oneShot: bool,          // isOneshotTask
    interval: nat,          // checkInterval
    timeout: nat,
    timeLimit: nat,
    countLimit: nat,
    triggers: seq<nat>,     // triggerTimes
    tick: nat               // nextTickTime
  )

  /** The five ways to register a task. */
  datatype Request =
    | Thread(name: string, interval: nat)
    | OneShot(name: string, delay: nat)
    | Timer(name: string, timeout: nat)
    | Periodic(name: string, interval: nat, delay: nat)
    | TimerCounter(name: string, timeLimit: nat, countLimit: int)

  /** Arguments the entry points turn away. */
  predicate Refused(r: Request) {
    || r.name == ""
    || (r.Timer? && r.timeout == 0)
    || (r.TimerCounter? && (r.timeLimit == 0 || r.countLimit <= 0))
  }

  function LimitedName(name: string): string {
    if |name| > MAX_NAME_SIZE then name[..MAX_NAME_SIZE] else name
  }

  /** The WatchdogTask constructors; timeout and timeLimit are narrowed to 32 bits. */
  function Build(r: Request, id: nat, now: nat): Task
    requires !Refused(r)
  {
    var name := LimitedName(r.name);
    match r
    case Thread(_, interval) => Task(id, name, false, interval, 0, 0, 0, [], now)
    case OneShot(_, delay) => Task(id, name, true, 0, 0, 0, 0, [], (now + delay) % U64)
    case Timer(_, timeout) => Task(id, name, true, 0, timeout % U32, 0, 0, [], (now + timeout % U32) % U64)
    case Periodic(_, interval, delay) => Task(id, name, false, interval, 0, 0, 0, [], (now + delay) % U64)
    case TimerCounter(_, timeLimit, countLimit) =>
      Task(id, name, false, timeLimit % U32 / 2, 0, timeLimit % U32, countLimit, [], now)
  }

  /** Where the watchdog thread is. */
  datatype Loop =
    | Ready
    | Fetched(task: Task, now: nat)
    | Executed(task: Task)
    | Asleep
    | Halted

  /** One execution attempt of a task: due at `due`, fetched at `at`; `ran` unless it was reset as late. */
  datatype Tick = Tick(due: nat, at: nat, ran: bool)

  datatype State = State(
    queue: map<nat, Task>,       // checkerQueue_, by task id
    names: set<string>,          // taskNameSet_
    loop: Loop,
    wake: nat,                   // nextWeakUpTime_
    notified: bool,              // history: notify_all since the loop went to sleep
    range: Range,                // the clock's range, for the whole run
    clock: nat,                  // the loop's last clock reading
    lastId: nat,                 // WatchdogTask::curId
    made: map<nat, Task>,        // history: accepted tasks, as built
    ticks: map<nat, seq<Tick>>,  // history: execution attempts, by task id
    cancelled: set<nat>          // history: timers cancelled while queued
  )

  function Start(range: Range): State {
    State(map[], {}, Ready, U64 - 1, false, range, 0, 0, map[], map[], {})
  }

  predicate IsTop(queue: map<nat, Task>, id: nat) {
    id in queue && forall other :: other in queue ==> queue[id].tick <= queue[other].tick
  }

  /** InsertWatchdogTaskLocked: a periodic name may be registered once, and the queue is bounded. */
  predicate Accepts(s: State, t: Task) { (t.oneShot || t.name !in s.names) && |s.queue| < MAX_WATCH_NUM }

  function Push(s: State, t: Task): State {
    if !Accepts(s, t) then s.(lastId := t.id) else
      s.(queue := s.queue[t.id := t],
         names := if t.oneShot then s.names else s.names + {t.name},
         notified := s.notified || t.tick < s.wake,
         lastId := t.id,
         made := s.made[t.id := t])
  }

  function Insert(s: State, r: Request, now: nat): State {
    if Refused(r) then s else Push(s, Build(r, s.lastId + 1, now))
  }

  /** RemoveXCollieTask. */
  function Cancel(s: State, id: nat): State {
    if id in s.queue && s.queue[id].timeout != 0
    then s.(queue := s.queue - {id}, cancelled := s.cancelled + {id})
    else s
  }

  /** RemoveInnerTask. */
  function Remove(s: State, name: string): State {
    if name == "" then s else
      s.(queue := map id | id in s.queue && s.queue[id].name != name :: s.queue[id],
         names := if exists id :: id in s.queue && s.queue[id].name == name && !s.queue[id].oneShot
                  then s.names - {name} else s.names)
  }

  function Triggered(t: Task, name: string, add: bool, now: nat): Task {
    if t.name == name then t.(triggers := if add then t.triggers + [now] else []) else t
  }

  /** TriggerTimerCountTask. */
  function Trigger(s: State, name: string, add: bool, now: nat): State {
    s.(queue := map id | id in s.queue :: Triggered(s.queue[id], name, add, now))
  }

  /** CheckCurrentTaskLocked on the top task: is it retired, and is its name released? */
  predicate Retires(t: Task, finished: bool) { t.name == "" || (t.name in RESERVED && finished) }

  function Retire(s: State, id: nat): State
    requires id in s.queue
  {
    s.(queue := s.queue - {id}, names := s.names - (if s.queue[id].name == "" then {} else {s.queue[id].name}))
  }

  function Sleep(s: State, now: nat, left: nat): State {
    s.(loop := Asleep, wake := (now + left) % U64, notified := false, clock := now)
  }

  /** FetchNextTask once the top task has been checked: sleep until it is due, or take it. */
  function Take(s: State, now: nat, id: nat, kick: bool): State
    requires s.queue != map[] ==> id in s.queue
  {
    if s.queue == map[] then Sleep(s, now, DEFAULT_TIMEOUT) else
      var t := s.queue[id];
      if t.tick > now then
        var left := t.tick - now;
        var kicks := t.name == KICK_WATCHDOG_TASK && left > KICK_WATCHDOG_INTERVAL && kick;
        Sleep(s, now, if kicks then KICK_WATCHDOG_INTERVAL else left)
      else
        s.(queue := s.queue - {id}, loop := Fetched(t, now), wake := now, clock := now)
  }

  /** WatchdogTask::Run in the default build. */
  function RunTask(t: Task, now: nat): (Task, bool) {
    if t.countLimit > 0 then
      (t.(triggers := TimerCount.Checked(t.triggers, t.countLimit, t.timeLimit)), true)
    else if t.interval != 0 && Minus(now, t.tick) > 2 * t.interval % U64 then
      (t.(tick := now), false)
    else
      (t, true)
  }

  function History(s: State, id: nat): seq<Tick> { if id in s.ticks then s.ticks[id] else [] }

  function Run(s: State): State
    requires s.loop.Fetched?
  {
    var t, now := s.loop.task, s.loop.now;
    var (t', ran) := RunTask(t, now);
    s.(loop := Executed(t'), ticks := s.ticks[t.id := History(s, t.id) + [Tick(t.tick, now, ran)]])
  }

  /** ReInsertTaskIfNeed: no capacity check. */
  function ReInsert(s: State): State
    requires s.loop.Executed?
  {
    var t := s.loop.task;
    var s := s.(loop := Ready);
    if t.interval == 0 || t.name !in s.names then s else
      s.(queue := s.queue[t.id := t.(tick := (t.tick + t.interval) % U64)])
  }

  datatype Action =
    | DoInsert(request: Request, now: nat)
    | DoCancel(id: nat)
    | DoRemove(name: string)
    | DoTrigger(name: string, add: bool, now: nat)
    | DoErase(name: string)             // taskNameSet_.erase outside the queue operations
    | DoRetire(now: nat, top: nat, next: nat, kick: bool)  // a fetch that retires the top task first
    | DoFetch(now: nat, top: nat, kick: bool)              // a fetch that does not
    | DoStop                            // a fetch after isNeedStop_ was set
    | DoRun
    | DoReInsert
    | DoWake

  predicate Readable(s: State, now: nat) { s.clock <= now < s.range }

  predicate Enabled(s: State, a: Action) {
    match a
    case DoInsert(_, now) => now < s.range
    case DoCancel(_) => true
    case DoRemove(_) => true
    case DoTrigger(_, _, now) => now < s.range
    case DoErase(_) => true
    case DoRetire(now, top, next, _) =>
      && s.loop.Ready? && Readable(s, now) && IsTop(s.queue, top) && Retires(s.queue[top], true)
      && (s.queue - {top} != map[] ==> IsTop(s.queue - {top}, next))
    case DoFetch(now, top, _) =>
      s.loop.Ready? && Readable(s, now) && (s.queue != map[] ==> IsTop(s.queue, top) && s.queue[top].name != "")
    case DoStop => s.loop.Ready?
    case DoRun => s.loop.Fetched?
    case DoReInsert => s.loop.Executed?
    case DoWake => s.loop.Asleep?
  }

  function Apply(s: State, a: Action): State
    requires Enabled(s, a)
  {
    match a
    case DoInsert(r, now) => Insert(s, r, now)
    case DoCancel(id) => Cancel(s, id)
    case DoRemove(name) => Remove(s, name)
    case DoTrigger(name, add, now) => Trigger(s, name, add, now)
    case DoErase(name) => s.(names := s.names - {name})
    case DoRetire(now, top, next, kick) => Take(Retire(s, top), now, next, kick)
    case DoFetch(now, top, kick) => Take(s, now, top, kick)
    case DoStop => s.(queue := map[], loop := Halted)
    case DoRun => Run(s)
    case DoReInsert => ReInsert(s)
    case DoWake => s.(loop := Ready)
  }

  ghost predicate Execution(run: seq<State>, actions: seq<Action>) {
    && |run| == |actions| + 1
    && forall k {:trigger actions[k]} :: 0 <= k < |actions| ==>
         Enabled(run[k], actions[k]) && run[k + 1] == Apply(run[k], actions[k])
  }

  /** Tasks queued or in flight. */
  function Pending(s: State): map<nat, Task> {
    if s.loop.Fetched? || s.loop.Executed? then s.queue[s.loop.task.id := s.loop.task] else s.queue
  }
}
