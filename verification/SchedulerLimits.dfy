/** Where the scheduler's guarantees end: bounds that are attained, and timers that stay. */
module SchedulerLimits {
  import opened Unsigned
  import opened Scheduler
  import opened SchedulerSafety
  import opened SchedulerRuns
  import opened SchedulerNames

  ghost predicate Reaches(s: State) {
    exists run: seq<State>, actions: seq<Action> :: Behaviour(run, actions) && run[|actions|] == s
  }

  lemma StartReaches(range: Range)
    ensures Reaches(Start(range))
  {
    var none: seq<Action> := [];
    assert Behaviour([Start(range)], none);
  }

  lemma Extend(run: seq<State>, actions: seq<Action>, a: Action)
    requires Behaviour(run, actions) && Enabled(run[|actions|], a)
    ensures Behaviour(run + [Apply(run[|actions|], a)], actions + [a]) && Ids(Apply(run[|actions|], a))
  {
    var run', actions' := run + [Apply(run[|actions|], a)], actions + [a];
    assert Behaviour(run', actions');
    RunSafety(run', actions', |actions'|);
  }

  lemma Go(s: State, a: Action) returns (t: State)
    requires Reaches(s) && Enabled(s, a)
    ensures t == Apply(s, a) && Reaches(t) && Ids(t)
  {
    t := Apply(s, a);
    var run: seq<State>, actions: seq<Action> :| Behaviour(run, actions) && run[|actions|] == s;
    Extend(run, actions, a);
    assert (run + [t])[|actions + [a]|] == t;
  }

  lemma FillOne(s: State) returns (t: State)
    requires Reaches(s) && Ids(s) && s.loop.Executed? && |s.queue| < MAX_WATCH_NUM && s.range > 0
    ensures Reaches(t) && Ids(t) && |t.queue| == |s.queue| + 1
    ensures t.loop == s.loop && t.names == s.names && t.range == s.range
  {
    t := Go(s, DoInsert(OneShot("x", 5), 0));
    InsertOneShot(s);
  }

  lemma InsertOneShot(s: State)
    requires Ids(s) && |s.queue| < MAX_WATCH_NUM
    ensures var t := Insert(s, OneShot("x", 5), 0);
      |t.queue| == |s.queue| + 1 && t.loop == s.loop && t.names == s.names && t.range == s.range
  {
    var task := Build(OneShot("x", 5), s.lastId + 1, 0);
    assert task.oneShot && task.id == s.lastId + 1 && task.id !in s.queue;
    PushAddsOne(s, task);
  }

  lemma PushAddsOne(s: State, task: Task)
    requires task.oneShot && task.id !in s.queue && Accepts(s, task)
    ensures var t := Push(s, task);
      |t.queue| == |s.queue| + 1 && t.loop == s.loop && t.names == s.names && t.range == s.range
  {
    assert s.queue[task.id := task].Keys == s.queue.Keys + {task.id};
    assert |s.queue[task.id := task]| == |s.queue[task.id := task].Keys| && |s.queue| == |s.queue.Keys|;
  }

  /** One-shots fill the queue while a task is in flight. */
  lemma {:induction false} Fill(s: State, n: nat) returns (t: State)
    requires Reaches(s) && Ids(s) && s.loop.Executed? && |s.queue| + n <= MAX_WATCH_NUM && s.range > 0
    ensures Reaches(t) && Ids(t) && |t.queue| == |s.queue| + n && t.loop == s.loop && t.names == s.names
    decreases n
  {
    t := s;
    if n > 0 {
      t := FillOne(s);
      t := Fill(t, n - 1);
    }
  }

  lemma OneThread(range: Range, interval: nat, now: nat) returns (s: State)
    requires now < range
    ensures Reaches(s) && Ids(s) && s.loop.Ready? && s.range == range && s.clock == 0
    ensures s.ticks == map[] && s.names == {"p"}
    ensures s.made == s.queue == map[1 := Task(1, "p", false, interval, 0, 0, 0, [], now)]
  {
    StartReaches(range);
    s := Go(Start(range), DoInsert(Thread("p", interval), now));
  }

  lemma FirstTaskInFlight(range: Range) returns (s: State)
    requires range > 0
    ensures s.range == range && Reaches(s) && Ids(s) && s.queue == map[] && s.loop.Executed?
    ensures s.loop.task.name == "p" && s.loop.task.interval > 0 && !s.loop.task.oneShot && "p" in s.names
  {
    s := OneThread(range, 1, 0);
    assert IsTop(s.queue, 1);
    s := Go(s, DoFetch(0, 1, false));
    s := Go(s, DoRun);
  }

  /** The bound of 129 pending tasks is attained. */
  lemma CapacityAttained(range: Range) returns (s: State)
    requires range > 0
    ensures Reaches(s) && |s.queue| == MAX_WATCH_NUM + 1
  {
    s := FirstTaskInFlight(range);
    s := Fill(s, MAX_WATCH_NUM);
    var full := s;
    s := Go(full, DoReInsert);
    assert s.queue.Keys == full.queue.Keys + {full.loop.task.id};
    assert |s.queue| == |s.queue.Keys| && |full.queue| == |full.queue.Keys|;
  }

  /** Two periodic tasks of one name can be pending once a name has been erased in flight. */
  lemma DuplicatesReachable(range: Range) returns (s: State)
    requires range > 0
    ensures Reaches(s) && !Unique(Pending(s))
  {
    s := FirstTaskInFlight(range);
    var twin := Build(Thread("p", 1), s.lastId + 1, 0);
    assert |s.queue| == 0;
    assert twin.id == s.lastId + 1 && !twin.oneShot && twin.name == "p";
    EraseThenRegisterDuplicates(s, twin);
    s := Go(s, DoErase("p"));
    assert Insert(s, Thread("p", 1), 0) == Push(s, twin);
    s := Go(s, DoInsert(Thread("p", 1), 0));
    s := Go(s, DoReInsert);
  }

  /** Fetch and run the only task. */
  lemma FetchAndRun(s: State, id: nat, now: nat) returns (t: State)
    requires Reaches(s) && Ids(s) && s.loop.Ready? && Readable(s, now)
    requires s.queue.Keys == {id} && s.queue[id].tick <= now && s.queue[id].name != ""
    ensures Reaches(t) && Ids(t) && t.loop == Executed(RunTask(s.queue[id], now).0) && t.clock == now
    ensures t.queue == map[] && t.names == s.names && t.made == s.made && t.range == s.range
    ensures History(t, id) == History(s, id) + [Tick(s.queue[id].tick, now, RunTask(s.queue[id], now).1)]
  {
    assert IsTop(s.queue, id) && s.queue - {id} == map[];
    t := Go(s, DoFetch(now, id, false));
    t := Go(t, DoRun);
  }

  lemma StepKeepsMade(s: State, a: Action, id: nat)
    requires Ids(s) && Enabled(s, a) && id in s.made
    ensures id in Apply(s, a).made && Apply(s, a).made[id] == s.made[id]
  {
    if a.DoInsert? {
      if !Refused(a.request) {
        BuildFacts(a.request, s.lastId + 1, a.now);
      }
    } else {
      StepKeepsIds(s, a);
    }
  }

  lemma {:induction false} MadeStays(run: seq<State>, actions: seq<Action>, j: nat, k: nat, id: nat)
    requires Behaviour(run, actions) && j <= k < |run| && id in run[j].made
    ensures id in run[k].made && run[k].made[id] == run[j].made[id]
    decreases k
  {
    if j < k {
      MadeStays(run, actions, j, k - 1, id);
      RunSafety(run, actions, k - 1);
      StepKeepsMade(run[k - 1], actions[k - 1], id);
    }
  }
}
