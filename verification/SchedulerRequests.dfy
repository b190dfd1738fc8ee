/** What a caller of the scheduler gets, in terms of what was asked: when a registered task is attempted,
    and what cancelling, removing, fetching and stopping do. */
module SchedulerRequests {
  import opened Unsigned
  import opened Scheduler
  import opened SchedulerSafety
  import opened SchedulerPace
  import opened SchedulerRuns
  import opened SchedulerLimits
  import TimerCount
  import SchedulerCounters

  // Registering -----------------------------------------------------------------------------

  /** When the first attempt is due: timeouts and time limits count in 32 bits. */
  function Due(r: Request, now: nat): nat {
    match r
    case Thread(_, _) => now
    case OneShot(_, delay) => now + delay
    case Timer(_, timeout) => now + timeout % 0x1_0000_0000
    case Periodic(_, _, delay) => now + delay
    case TimerCounter(_, _, _) => now
  }

  /** How far apart attempts are due; 0 for a single one. */
  function Period(r: Request): nat {
    match r
    case Thread(_, interval) => interval
    case Periodic(_, interval, _) => interval
    case TimerCounter(_, timeLimit, _) => timeLimit % 0x1_0000_0000 / 2
    case OneShot(_, _) => 0
    case Timer(_, _) => 0
  }

  predicate IsOnce(r: Request) { r.OneShot? || r.Timer? }

  /** Usable arguments, a name not registered unless it is a one-shot, and room for one of 128. */
  predicate Welcome(s: State, r: Request) {
    && r.name != "" && (r.Timer? ==> r.timeout > 0) && (r.TimerCounter? ==> r.timeLimit > 0 && r.countLimit > 0)
    && (IsOnce(r) || LimitedName(r.name) !in s.names) && |s.queue| < 128
  }

  /** At most 128 characters of a name count. */
  lemma NamesAreLimited(name: string)
    ensures LimitedName(name) <= name && (|name| <= 128 ==> LimitedName(name) == name)
    ensures |name| > 128 ==> |LimitedName(name)| == 128
  {
  }

  lemma BuiltAsAsked(r: Request, id: nat, now: nat)
    requires !Refused(r) && now < U64
    ensures var t := Build(r, id, now);
      && t.id == id && t.name == LimitedName(r.name) && t.tick == Due(r, now) % U64 && t.interval == Period(r)
      && (t.oneShot <==> IsOnce(r)) && (t.countLimit > 0 <==> r.TimerCounter?)
      && (r.TimerCounter? ==> t.countLimit == r.countLimit && t.timeLimit == r.timeLimit % 0x1_0000_0000)
      && t.timeout == if r.Timer? then r.timeout % 0x1_0000_0000 else 0
  {
  }

  /** A welcome request is taken; one that is not changes neither queue nor registry. */
  lemma WelcomeIsTaken(s: State, r: Request, now: nat)
    requires Ids(s) && now < U64
    ensures var t, id := Insert(s, r, now), s.lastId + 1;
      if Welcome(s, r)
      then
        && id in t.queue && id in t.made && t.made[id] == Build(r, id, now)
        && (IsOnce(r) || LimitedName(r.name) in t.names)
      else t.queue == s.queue && t.names == s.names && t.made == s.made
  {
    if !Refused(r) {
      BuiltAsAsked(r, s.lastId + 1, now);
    }
  }

  /** Step j takes the request r at clock reading now, as task id. */
  ghost predicate Takes(run: seq<State>, actions: seq<Action>, j: nat, r: Request, now: nat, id: nat) {
    && Behaviour(run, actions) && j < |actions| && actions[j] == DoInsert(r, now)
    && Welcome(run[j], r) && id == run[j].lastId + 1
  }

  lemma TakenStays(run: seq<State>, actions: seq<Action>, j: nat, k: nat, r: Request, now: nat, id: nat)
    requires Takes(run, actions, j, r, now, id) && j < k < |run|
    ensures now < U64 && id in run[k].made && run[k].made[id] == Build(r, id, now)
  {
    RunSafety(run, actions, j);
    WelcomeIsTaken(run[j], r, now);
    MadeStays(run, actions, j + 1, k, id);
  }

  lemma {:induction false} LaterAttempts(h: seq<Tick>, interval: nat, patience: nat, range: Range, m: nat)
    requires LawWith(h, interval, patience, range) && m < |h|
    ensures h[m].at >= h[0].at && h[0].at >= h[0].due
    decreases m
  {
    if m > 0 {
      LaterAttempts(h, interval, patience, range, m - 1);
      assert Succeeds(h[m - 1], h[m], interval);
    } else {
      assert Punctual(h[0], patience, range);
    }
  }

  /** In every run, and for every kind of request: the first attempt of a task is due when the request
      says, in 64 bits, and no attempt comes before that.  Without a period there is at most one
      attempt, and it runs.  With one, each attempt is due one period, in 64 bits, after the last one
      was due, or was fetched if it was reset; it is reset exactly if it is not a timer counter and
      more than two periods late. */
  lemma AttemptsAsAsked(run: seq<State>, actions: seq<Action>, j: nat, k: nat, r: Request, now: nat, id: nat)
    requires Takes(run, actions, j, r, now, id) && j < k < |run|
    ensures var h, p := History(run[k], id), Period(r);
      && (h != [] ==> h[0].due == Due(r, now) % U64)
      && (forall m :: 0 <= m < |h| ==> h[m].at >= Due(r, now) % U64)
      && (p == 0 ==> |h| <= 1 && (h != [] ==> h[0].ran))
      && (p > 0 ==> forall m :: 0 <= m < |h| ==>
            (h[m].ran <==> r.TimerCounter? || h[m].at - h[m].due <= 2 * p % U64))
      && (p > 0 ==> forall m, n :: 0 <= m < |h| && 0 <= n < |h| && n == m + 1 ==>
            h[n].due == ((if h[m].ran then h[m].due else h[m].at) + p) % U64)
  {
    TakenStays(run, actions, j, k, r, now, id);
    BuiltAsAsked(r, id, now);
    PaceHolds(run, actions, k, id);
    if Period(r) > 0 {
      LawAsAsked(History(run[k], id), Build(r, id, now), run[k].range);
    }
  }

  lemma LawAsAsked(h: seq<Tick>, made: Task, range: Range)
    requires made.interval > 0 && LawWith(h, made.interval, PatienceOf(made), range)
    ensures forall m :: 0 <= m < |h| ==> h[m].at >= h[0].due
    ensures forall m :: 0 <= m < |h| ==>
      (h[m].ran <==> made.countLimit > 0 || h[m].at - h[m].due <= 2 * made.interval % U64)
    ensures forall m, n :: 0 <= m < |h| && 0 <= n < |h| && n == m + 1 ==>
      h[n].due == ((if h[m].ran then h[m].due else h[m].at) + made.interval) % U64
  {
    forall m | 0 <= m < |h|
      ensures h[m].at >= h[0].due
      ensures h[m].ran <==> made.countLimit > 0 || h[m].at - h[m].due <= 2 * made.interval % U64
    {
      LaterAttempts(h, made.interval, PatienceOf(made), range, m);
      assert Punctual(h[m], PatienceOf(made), range);
    }
    forall m, n | 0 <= m < |h| && 0 <= n < |h| && n == m + 1
      ensures h[n].due == ((if h[m].ran then h[m].due else h[m].at) + made.interval) % U64
    {
      assert Succeeds(h[m], h[n], made.interval);
    }
  }

  /** A timer never runs before its timeout has passed. */
  lemma NoTimerIsEarly(run: seq<State>, actions: seq<Action>, j: nat, k: nat, name: string, timeout: nat,
                       now: nat, m: nat)
    requires j < k < |run| && Takes(run, actions, j, Timer(name, timeout), now, run[j].lastId + 1)
    requires now + timeout % 0x1_0000_0000 < U64 && m < |History(run[k], run[j].lastId + 1)|
    ensures History(run[k], run[j].lastId + 1)[m].at >= now + timeout % 0x1_0000_0000
  {
    AttemptsAsAsked(run, actions, j, k, Timer(name, timeout), now, run[j].lastId + 1);
  }

  /** A counter reports as the reference does with the limits of its request. */
  lemma CountsAsAsked(run: seq<State>, actions: seq<Action>, j: nat, k: nat, r: Request, now: nat, id: nat)
    requires Takes(run, actions, j, r, now, id) && r.TimerCounter? && j < k < |run|
    requires TimerCount.Clocked(SchedulerCounters.Ops(run, actions, k, id), 0)
    ensures r.countLimit > 0
    ensures var ops := SchedulerCounters.Ops(run, actions, k, id);
      SchedulerCounters.Reports(run, actions, k, id)
      == TimerCount.ReferenceAnswers([], ops, r.countLimit, r.timeLimit % 0x1_0000_0000)
  {
    TakenStays(run, actions, j, k, r, now, id);
    BuiltAsAsked(r, id, now);
    SchedulerCounters.CounterAgrees(run, actions, k, id);
  }

  // Cancelling ------------------------------------------------------------------------------

  /** Over every run: while a task is queued, cancelling takes it off the queue exactly if it was asked
      for as a timer and its timeout survives the narrowing to 32 bits. */
  lemma CancelWorksIff(run: seq<State>, actions: seq<Action>, j: nat, k: nat, r: Request, now: nat, id: nat)
    requires Takes(run, actions, j, r, now, id) && j < k < |run| && id in run[k].queue
    ensures id !in Cancel(run[k], id).queue <==> r.Timer? && r.timeout % 0x1_0000_0000 != 0
  {
    TakenStays(run, actions, j, k, r, now, id);
    BuiltAsAsked(r, id, now);
    RunSafety(run, actions, k);
    assert Same(run[k].queue[id], run[k].made[id]);
  }

  /** Cancelling, in any state, leaves everything but the task of that id as it was. */
  lemma CancelFrame(s: State, id: nat)
    ensures var t := Cancel(s, id);
      && t.queue - {id} == s.queue - {id}
      && t == s.(queue := t.queue, cancelled := t.cancelled) && t.cancelled - {id} == s.cancelled - {id}
  {
    assert (s.queue - {id}) - {id} == s.queue - {id};
  }

  lemma CancelMarks(s: State, id: nat)
    requires id in s.queue && id !in Cancel(s, id).queue
    ensures id in Cancel(s, id).cancelled
  {
  }

  lemma {:induction false} StaysCancelled(run: seq<State>, actions: seq<Action>, j: nat, k: nat, id: nat)
    requires Behaviour(run, actions) && j <= k < |run| && id in run[j].cancelled
    ensures id in run[k].cancelled
    decreases k
  {
    if j < k {
      StaysCancelled(run, actions, j, k - 1, id);
      CancelledGrows(run[k - 1], actions[k - 1]);
    }
  }

  lemma CancelledGrows(s: State, a: Action)
    requires Enabled(s, a)
    ensures s.cancelled <= Apply(s, a).cancelled
  {
  }

  /** A timer cancelled while it is queued is never attempted. */
  lemma CancelledNeverRuns(run: seq<State>, actions: seq<Action>, i: nat, j: nat, k: nat, r: Request, now: nat, id: nat)
    requires Takes(run, actions, i, r, now, id) && r.Timer? && r.timeout % 0x1_0000_0000 != 0
    requires i < j < k < |run| && id in run[j].queue && actions[j] == DoCancel(id)
    ensures History(run[k], id) == []
  {
    CancelWorksIff(run, actions, i, j, r, now, id);
    CancelMarks(run[j], id);
    StaysCancelled(run, actions, j + 1, k, id);
    TakenStays(run, actions, i, k, r, now, id);
    BuiltAsAsked(r, id, now);
    PaceHolds(run, actions, k, id);
  }

  // Removing by name ------------------------------------------------------------------------

  predicate Queued(s: State, name: string) { exists id :: id in s.queue && s.queue[id].name == name }

  predicate PeriodicQueued(s: State, name: string) {
    exists id :: id in s.queue && s.queue[id].name == name && !s.queue[id].oneShot
  }

  /** Removal takes every queued task of a name and nothing else, and releases the name exactly if one
      of them was periodic. */
  lemma RemovesExactly(s: State, name: string)
    requires name != ""
    ensures var t := Remove(s, name);
      && !Queued(t, name)
      && (forall id :: id in s.queue && s.queue[id].name != name ==> id in t.queue && t.queue[id] == s.queue[id])
      && t.queue.Keys <= s.queue.Keys
      && t.names == (if PeriodicQueued(s, name) then s.names - {name} else s.names)
      && t == s.(queue := t.queue, names := t.names)
  {
  }

  /** After its periodic task has been removed, a name can be registered again. */
  lemma RemovedCanReturn(run: seq<State>, actions: seq<Action>, j: nat, name: string, r: Request, now: nat)
    requires Behaviour(run, actions) && j + 1 < |actions| && actions[j] == DoRemove(name) && name != ""
    requires PeriodicQueued(run[j], name) && actions[j + 1] == DoInsert(r, now)
    requires !Refused(r) && !IsOnce(r) && LimitedName(r.name) == name && |run[j + 1].queue| < 128
    ensures run[j + 1].lastId + 1 in run[j + 2].queue && name in run[j + 2].names
  {
    assert run[j + 1] == Remove(run[j], name);
    RemovesExactly(run[j], name);
    assert Welcome(run[j + 1], r);
    RunSafety(run, actions, j + 1);
    WelcomeIsTaken(run[j + 1], r, now);
    assert run[j + 2] == Insert(run[j + 1], r, now);
  }

  // Fetching --------------------------------------------------------------------------------

  /** A fetch takes the top task, one of the earliest, if that is due.  If not, the loop sleeps until
      it is due, or for 30 s if it is the kicking task, further away than that, and kicking is on;
      with nothing queued for 60 s. */
  lemma FetchTakesDue(s: State, now: nat, top: nat, kick: bool)
    requires Ids(s) && Enabled(s, DoFetch(now, top, kick))
    ensures var t := Apply(s, DoFetch(now, top, kick));
      && t.clock == now && t.made == s.made && t.ticks == s.ticks && t.names == s.names
      && (s.queue == map[] ==> t.loop.Asleep? && t.wake == (now + 60000) % U64 && t.queue == s.queue)
      && (s.queue != map[] && s.queue[top].tick <= now ==>
            && t.loop == Fetched(s.queue[top], now) && t.queue == s.queue - {top}
            && forall id :: id in t.queue ==> s.queue[top].tick <= t.queue[id].tick)
      && (s.queue != map[] && s.queue[top].tick > now ==>
            && t.loop.Asleep? && t.queue == s.queue && !t.notified
            && t.wake == if Kicks(s.queue[top], now) && kick then (now + 30000) % U64 else s.queue[top].tick % U64)
  {
  }

  predicate Kicks(t: Task, now: nat) { t.name == "Kick_Watchdog_Task" && t.tick - now > 30000 }

  /** A finished checker on top is retired: it is no longer pending and its name is free. */
  lemma FinishedIsRetired(s: State, now: nat, top: nat, next: nat, kick: bool)
    requires Ids(s) && s.loop.Ready? && Readable(s, now) && IsTop(s.queue, top)
    requires s.queue[top].name in {"ThreadSampler", "AppStartSample", "TraceCollector", "FreezeSampler"}
    requires s.queue - {top} != map[] ==> IsTop(s.queue - {top}, next)
    ensures Enabled(s, DoRetire(now, top, next, kick))
    ensures var t := Apply(s, DoRetire(now, top, next, kick));
      top !in Pending(t) && s.queue[top].name !in t.names && t.names == s.names - {s.queue[top].name}
  {
  }

  /** No other task is retired but one without a name, of which there is none. */
  lemma OthersAreNotRetired(s: State, a: Action)
    requires Ids(s) && NoEmptyName(s) && Enabled(s, a) && a.DoRetire?
    ensures s.queue[a.top].name in {"ThreadSampler", "AppStartSample", "TraceCollector", "FreezeSampler"}
  {
  }

  /** A notify is issued only for a task that has just been queued and is due before the loop wakes. */
  lemma NotifiesForEarlier(s: State, a: Action)
    requires Ids(s) && Enabled(s, a) && !s.notified && Apply(s, a).notified
    ensures var t := Apply(s, a);
      a.DoInsert? && s.lastId + 1 !in s.queue && s.lastId + 1 in t.queue && t.queue[s.lastId + 1].tick < s.wake
  {
    if a.DoInsert? && !Refused(a.request) {
      BuildFacts(a.request, s.lastId + 1, a.now);
    }
  }

  // Stopping --------------------------------------------------------------------------------

  lemma HaltedStays(s: State, a: Action)
    requires s.loop.Halted? && Enabled(s, a)
    ensures Apply(s, a).loop.Halted? && Apply(s, a).ticks == s.ticks
  {
  }

  /** A stop empties the queue, and nothing is ever attempted again. */
  lemma {:induction false} StopIsFinal(run: seq<State>, actions: seq<Action>, j: nat, k: nat)
    requires Behaviour(run, actions) && j < k < |run| && actions[j] == DoStop
    ensures run[j + 1].queue == map[] && run[k].loop.Halted? && run[k].ticks == run[j].ticks
    decreases k
  {
    assert run[j + 1] == Apply(run[j], DoStop);
    if k > j + 1 {
      StopIsFinal(run, actions, j, k - 1);
      HaltedStays(run[k - 1], actions[k - 1]);
    }
  }
}
