/** Invariants of every scheduler run: identity, capacity, the name registry and wake-ups. */
module SchedulerSafety {
  import opened Scheduler

  predicate Busy(s: State) { s.loop.Fetched? || s.loop.Executed? }

  /** Same task, up to its trigger log and deadline. */
  predicate Same(a: Task, b: Task) {
    && a.id == b.id && a.name == b.name && a.oneShot == b.oneShot && a.interval == b.interval
    && a.timeout == b.timeout && a.timeLimit == b.timeLimit && a.countLimit == b.countLimit
  }

  predicate Known(s: State, t: Task) { t.id in s.made && Same(t, s.made[t.id]) }

  /** Every pending task was made once, under its own id, and is pending in one place only. */
  ghost predicate Ids(s: State) {
    && (forall id :: id in s.made ==> id <= s.lastId)
    && (forall id :: id in s.queue ==> s.queue[id].id == id && Known(s, s.queue[id]))
    && (Busy(s) ==> Known(s, s.loop.task) && s.loop.task.id !in s.queue)
  }

  /** From `s` to `t` pending tasks only disappear, or move between queue and flight. */
  ghost predicate Shrinks(s: State, t: State) {
    && t.made == s.made && t.lastId == s.lastId
    && Shrunk(Pending(s), Pending(t))
  }

  ghost predicate Shrunk(p: map<nat, Task>, q: map<nat, Task>) {
    forall id :: id in q ==> id in p && Same(q[id], p[id])
  }

  lemma TakeShrinks(s: State, now: nat, id: nat, kick: bool)
    requires Ids(s) && !Busy(s) && (s.queue != map[] ==> id in s.queue)
    ensures var t := Take(s, now, id, kick); Ids(t) && Shrinks(s, t)
  {
  }

  lemma RetireShrinks(s: State, id: nat)
    requires Ids(s) && !Busy(s) && id in s.queue
    ensures var t := Retire(s, id); Ids(t) && Shrinks(s, t)
  {
  }

  lemma FetchShrinks(s: State, a: Action)
    requires Ids(s) && Enabled(s, a) && (a.DoFetch? || a.DoRetire?)
    ensures Shrinks(s, Apply(s, a)) && Ids(Apply(s, a))
  {
    match a {
      case DoFetch(now, top, kick) => TakeShrinks(s, now, top, kick);
      case DoRetire(now, top, next, kick) =>
        RetireShrinks(s, top);
        TakeShrinks(Retire(s, top), now, next, kick);
    }
  }

  lemma RunShrinks(s: State)
    requires Ids(s) && s.loop.Fetched?
    ensures Ids(Run(s)) && Shrinks(s, Run(s))
  {
    assert Same(RunTask(s.loop.task, s.loop.now).0, s.loop.task);
  }

  lemma ReInsertShrinks(s: State)
    requires Ids(s) && s.loop.Executed?
    ensures Ids(ReInsert(s)) && Shrinks(s, ReInsert(s))
  {
  }

  lemma RemoveShrinks(s: State, name: string)
    requires Ids(s)
    ensures Ids(Remove(s, name)) && Shrinks(s, Remove(s, name))
  {
  }

  lemma TriggerShrinks(s: State, name: string, add: bool, now: nat)
    requires Ids(s)
    ensures Ids(Trigger(s, name, add, now)) && Shrinks(s, Trigger(s, name, add, now))
  {
  }

  lemma CancelShrinks(s: State, id: nat)
    requires Ids(s)
    ensures Ids(Cancel(s, id)) && Shrinks(s, Cancel(s, id))
  {
  }

  lemma PushKeepsIds(s: State, t: Task)
    requires Ids(s) && t.id == s.lastId + 1
    ensures Ids(Push(s, t))
  {
  }

  lemma BuildFacts(r: Request, id: nat, now: nat)
    requires !Refused(r)
    ensures var t := Build(r, id, now);
      && t.id == id && t.name == LimitedName(r.name) && t.name != "" && t.triggers == []
      && (t.oneShot <==> r.OneShot? || r.Timer?) && (t.oneShot ==> t.interval == 0 && t.countLimit == 0)
      && (t.timeout != 0 ==> t.oneShot)
  {
  }

  lemma InsertKeepsIds(s: State, r: Request, now: nat)
    requires Ids(s)
    ensures Ids(Insert(s, r, now))
  {
    if Refused(r) {
      assert Insert(s, r, now) == s;
    } else {
      var t := Build(r, s.lastId + 1, now);
      assert t.id == s.lastId + 1;
      assert Insert(s, r, now) == Push(s, t);
      PushKeepsIds(s, t);
    }
  }

  lemma SmallShrinks(s: State, a: Action)
    requires Ids(s) && Enabled(s, a) && (a.DoErase? || a.DoStop? || a.DoWake?)
    ensures Ids(Apply(s, a)) && Shrinks(s, Apply(s, a))
  {
  }

  lemma StepKeepsIds(s: State, a: Action)
    requires Ids(s) && Enabled(s, a)
    ensures Ids(Apply(s, a))
    ensures a.DoInsert? || Shrinks(s, Apply(s, a))
  {
    match a {
      case DoInsert(r, now) => InsertKeepsIds(s, r, now);
      case DoCancel(id) => CancelShrinks(s, id);
      case DoRemove(name) => RemoveShrinks(s, name);
      case DoTrigger(name, add, now) => TriggerShrinks(s, name, add, now);
      case DoRetire(_, _, _, _) => FetchShrinks(s, a);
      case DoFetch(_, _, _) => FetchShrinks(s, a);
      case DoRun => RunShrinks(s);
      case DoReInsert => ReInsertShrinks(s);
      case _ => SmallShrinks(s, a);
    }
  }

  // Capacity ------------------------------------------------------------------------------

  /** Re-insertion is not checked against the capacity, so one more may be queued when none is in flight. */
  ghost predicate Capacity(s: State) {
    |s.queue| <= MAX_WATCH_NUM + (if Busy(s) then 0 else 1)
  }

  lemma SubmapSize(m: map<nat, Task>, n: map<nat, Task>)
    requires m.Keys <= n.Keys
    ensures |m| <= |n|
  {
    assert |m| == |m.Keys| && |n| == |n.Keys|;
    assert n.Keys == m.Keys + (n.Keys - m.Keys);
  }

  lemma TakeSize(s: State, now: nat, id: nat, kick: bool)
    requires !Busy(s) && (s.queue != map[] ==> id in s.queue)
    ensures var t := Take(s, now, id, kick); |t.queue| + (if Busy(t) then 1 else 0) == |s.queue|
  {
    if s.queue != map[] {
      assert |s.queue| == |s.queue.Keys| && |s.queue - {id}| == |(s.queue - {id}).Keys|;
      assert (s.queue - {id}).Keys == s.queue.Keys - {id};
    }
  }

  lemma EditKeepsCapacity(s: State, a: Action)
    requires Capacity(s) && Enabled(s, a) && (a.DoRemove? || a.DoTrigger? || a.DoCancel?)
    ensures Capacity(Apply(s, a))
  {
    SubmapSize(Apply(s, a).queue, s.queue);
  }

  lemma FetchKeepsCapacity(s: State, a: Action)
    requires Capacity(s) && Enabled(s, a) && (a.DoFetch? || a.DoRetire?)
    ensures Capacity(Apply(s, a))
  {
    match a {
      case DoFetch(now, top, kick) => TakeSize(s, now, top, kick);
      case DoRetire(now, top, next, kick) =>
        SubmapSize(Retire(s, top).queue, s.queue);
        TakeSize(Retire(s, top), now, next, kick);
    }
  }

  lemma StepKeepsCapacity(s: State, a: Action)
    requires Ids(s) && Capacity(s) && Enabled(s, a)
    ensures Capacity(Apply(s, a))
  {
    if a.DoRemove? || a.DoTrigger? || a.DoCancel? {
      EditKeepsCapacity(s, a);
    } else if a.DoFetch? || a.DoRetire? {
      FetchKeepsCapacity(s, a);
    }
  }

  // Registry ------------------------------------------------------------------------------

  ghost predicate Registered(pending: map<nat, Task>, names: set<string>) {
    forall id :: id in pending && !pending[id].oneShot ==> pending[id].name in names
  }

  predicate Clash(a: Task, b: Task) { !a.oneShot && !b.oneShot && a.name == b.name }

  ghost predicate Unique(pending: map<nat, Task>) {
    forall i, j :: i in pending && j in pending && Clash(pending[i], pending[j]) ==> i == j
  }

  ghost predicate Registry(s: State) { Registered(Pending(s), s.names) && Unique(Pending(s)) }

  /** Some pending periodic task has this name. */
  ghost predicate Bears(s: State, name: string) { BearsIn(Pending(s), name) }

  ghost predicate BearsIn(pending: map<nat, Task>, name: string) {
    exists id :: id in pending && !pending[id].oneShot && pending[id].name == name
  }

  lemma ShrinkKeepsRegistry(s: State, t: State)
    requires Registry(s) && Shrinks(s, t) && s.names <= t.names
    ensures Registry(t)
  {
  }

  lemma AddKeepsUnique(pending: map<nat, Task>, names: set<string>, t: Task)
    requires Registered(pending, names) && Unique(pending) && (t.oneShot || t.name !in names)
    ensures Unique(pending[t.id := t])
  {
  }

  lemma PendingAfterPush(s: State, t: Task)
    requires Ids(s) && t.id == s.lastId + 1
    ensures Pending(Push(s, t)) == if Accepts(s, t) then Pending(s)[t.id := t] else Pending(s)
  {
  }

  lemma PushKeepsRegistry(s: State, t: Task)
    requires Ids(s) && Registry(s) && t.id == s.lastId + 1
    ensures Registry(Push(s, t))
  {
    PendingAfterPush(s, t);
    if Accepts(s, t) {
      AddKeepsUnique(Pending(s), s.names, t);
    }
  }

  lemma RemoveKeepsRegistry(s: State, name: string)
    requires Ids(s) && Registry(s)
    ensures Registry(Remove(s, name))
  {
    RemoveShrinks(s, name);
    var t := Remove(s, name);
    if k :| name != "" && k in s.queue && s.queue[k].name == name && !s.queue[k].oneShot {
      forall id | id in Pending(t) && !Pending(t)[id].oneShot ensures Pending(t)[id].name != name {
        assert k in Pending(s) && k !in Pending(t) && Same(Pending(t)[id], Pending(s)[id]);
        assert !Clash(Pending(s)[id], Pending(s)[k]);
      }
    }
  }

  /** Retiring the top task keeps the registry exactly when it is not a one-shot under the name
      of some pending periodic task. */
  lemma RetireKeepsRegistryIff(s: State, id: nat)
    requires Ids(s) && Registry(s) && !Busy(s) && id in s.queue && s.queue[id].name != ""
    ensures Registry(Retire(s, id)) <==> !(s.queue[id].oneShot && Bears(s, s.queue[id].name))
  {
    var t, top := Retire(s, id), s.queue[id];
    RetireShrinks(s, id);
    if top.oneShot && Bears(s, top.name) {
      var k :| k in Pending(s) && !Pending(s)[k].oneShot && Pending(s)[k].name == top.name;
      assert k in Pending(t) && Pending(t)[k].name !in t.names;
    } else {
      forall k | k in Pending(t) && !Pending(t)[k].oneShot ensures Pending(t)[k].name in t.names {
        assert Pending(t)[k] == Pending(s)[k] && k != id;
        assert !Clash(Pending(s)[k], top);
      }
    }
  }

  lemma NamesKept(s: State, a: Action)
    requires Enabled(s, a) && !a.DoInsert? && !a.DoRemove? && !a.DoRetire? && !a.DoErase?
    ensures Apply(s, a).names == s.names
  {
  }

  lemma InsertKeepsRegistry(s: State, r: Request, now: nat)
    requires Ids(s) && Registry(s)
    ensures Registry(Insert(s, r, now))
  {
    if Refused(r) {
      assert Insert(s, r, now) == s;
    } else {
      var t := Build(r, s.lastId + 1, now);
      assert t.id == s.lastId + 1;
      assert Insert(s, r, now) == Push(s, t);
      PushKeepsRegistry(s, t);
    }
  }

  lemma QuietKeepsRegistry(s: State, a: Action)
    requires Ids(s) && Registry(s) && Enabled(s, a) && !a.DoInsert? && !a.DoRemove? && !a.DoRetire? && !a.DoErase?
    ensures Registry(Apply(s, a))
  {
    NamesKept(s, a);
    StepKeepsIds(s, a);
    ShrinkKeepsRegistry(s, Apply(s, a));
  }

  /** No accepted task has an empty name. */
  ghost predicate NoEmptyName(s: State) { forall id :: id in s.made ==> s.made[id].name != "" }

  lemma StepKeepsNoEmptyName(s: State, a: Action)
    requires Ids(s) && NoEmptyName(s) && Enabled(s, a)
    ensures NoEmptyName(Apply(s, a))
  {
    if a.DoInsert? && !Refused(a.request) {
      BuildFacts(a.request, s.lastId + 1, a.now);
    } else {
      StepKeepsIds(s, a);
    }
  }

  // Wake-ups ------------------------------------------------------------------------------

  /** While the loop sleeps, nothing queued is due before it wakes, or it has been notified. */
  ghost predicate Wakeful(s: State) {
    s.loop.Asleep? && !s.notified ==> forall id :: id in s.queue ==> s.wake <= s.queue[id].tick
  }

  lemma TakeIsWakeful(s: State, now: nat, id: nat, kick: bool)
    requires s.queue != map[] ==> IsTop(s.queue, id)
    ensures Wakeful(Take(s, now, id, kick))
  {
  }

  lemma StepKeepsWakeful(s: State, a: Action)
    requires Ids(s) && Wakeful(s) && Enabled(s, a)
    ensures Wakeful(Apply(s, a))
  {
    match a {
      case DoFetch(now, top, kick) => TakeIsWakeful(s, now, top, kick);
      case DoRetire(now, top, next, kick) => TakeIsWakeful(Retire(s, top), now, next, kick);
      case _ =>
    }
  }
}
