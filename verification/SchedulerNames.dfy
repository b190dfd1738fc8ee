/** When two pending periodic tasks can share a name: exactly when a name is registered while a
    pending task still bears it, which takes a name erased behind the queue's back. */
module SchedulerNames {
  import opened Scheduler
  import opened SchedulerSafety
  import opened SchedulerRuns

  /** The insert is accepted, periodic, and takes the name of a pending periodic task. */
  ghost predicate Doubles(s: State, a: Action) {
    a.DoInsert? && !Refused(a.request) &&
    var t := Build(a.request, s.lastId + 1, a.now);
    !t.oneShot && Accepts(s, t) && Bears(s, t.name)
  }

  lemma ShrinkKeepsUnique(s: State, t: State)
    requires Unique(Pending(s)) && Shrinks(s, t)
    ensures Unique(Pending(t))
  {
  }

  lemma PushUniqueIff(s: State, t: Task)
    requires Ids(s) && Unique(Pending(s)) && t.id == s.lastId + 1
    ensures Unique(Pending(Push(s, t))) <==> !(!t.oneShot && Accepts(s, t) && Bears(s, t.name))
  {
    PendingAfterPush(s, t);
    if Accepts(s, t) {
      AddUniqueIff(Pending(s), t);
    }
  }

  lemma AddUniqueIff(pending: map<nat, Task>, t: Task)
    requires Unique(pending) && t.id !in pending
    ensures Unique(pending[t.id := t]) <==> !(!t.oneShot && BearsIn(pending, t.name))
  {
    var more := pending[t.id := t];
    if !t.oneShot && BearsIn(pending, t.name) {
      var id :| id in pending && !pending[id].oneShot && pending[id].name == t.name;
      assert Clash(more[id], more[t.id]);
    }
  }

  /** Every step, erasures and retirements included, keeps names unique unless it doubles one. */
  lemma StepUniqueIff(s: State, a: Action)
    requires Ids(s) && Unique(Pending(s)) && Enabled(s, a)
    ensures Unique(Pending(Apply(s, a))) <==> !Doubles(s, a)
  {
    if a.DoInsert? {
      InsertUniqueIff(s, a.request, a.now);
    } else {
      StepKeepsIds(s, a);
      ShrinkKeepsUnique(s, Apply(s, a));
    }
  }

  lemma InsertUniqueIff(s: State, r: Request, now: nat)
    requires Ids(s) && Unique(Pending(s))
    ensures Unique(Pending(Insert(s, r, now))) <==> !Doubles(s, DoInsert(r, now))
  {
    if Refused(r) {
      assert Insert(s, r, now) == s;
    } else {
      var t := Build(r, s.lastId + 1, now);
      assert t.id == s.lastId + 1;
      assert Insert(s, r, now) == Push(s, t);
      PushUniqueIff(s, t);
    }
  }

  ghost predicate AlwaysUnique(run: seq<State>, n: nat) {
    forall k :: 0 <= k <= n && k < |run| ==> Unique(Pending(run[k]))
  }

  ghost predicate NeverDoubles(run: seq<State>, actions: seq<Action>, n: nat) {
    forall j :: 0 <= j < n && j < |actions| && j < |run| ==> !Doubles(run[j], actions[j])
  }

  /** The step from j to j + 1 breaks uniqueness exactly if it doubles a name. */
  ghost predicate BreaksByDoubling(run: seq<State>, actions: seq<Action>, j: nat) {
    j < |actions| && j + 1 < |run| &&
    (Unique(Pending(run[j])) ==> (Unique(Pending(run[j + 1])) <==> !Doubles(run[j], actions[j])))
  }

  lemma {:induction false} UniqueFrom(run: seq<State>, actions: seq<Action>, n: nat)
    requires n < |run| && Unique(Pending(run[0])) && forall j :: 0 <= j < n ==> BreaksByDoubling(run, actions, j)
    ensures AlwaysUnique(run, n) <==> NeverDoubles(run, actions, n)
  {
    if n > 0 {
      UniqueFrom(run, actions, n - 1);
      assert BreaksByDoubling(run, actions, n - 1);
    }
  }

  lemma RunBreaksByDoubling(run: seq<State>, actions: seq<Action>, j: nat)
    requires Behaviour(run, actions) && j < |actions|
    ensures BreaksByDoubling(run, actions, j)
  {
    RunSafety(run, actions, j);
    if Unique(Pending(run[j])) {
      StepUniqueIff(run[j], actions[j]);
    }
  }

  /** In every run, names stay unique up to state n exactly if no step before n doubles one. */
  lemma NamesUniqueIff(run: seq<State>, actions: seq<Action>, n: nat)
    requires Behaviour(run, actions) && n < |run|
    ensures AlwaysUnique(run, n) <==> NeverDoubles(run, actions, n)
  {
    forall j | 0 <= j < n ensures BreaksByDoubling(run, actions, j) {
      RunBreaksByDoubling(run, actions, j);
    }
    UniqueFrom(run, actions, n);
  }

  // The registry --------------------------------------------------------------------------

  /** The step takes away the name of a task that stays pending: a direct erasure, or the
      retirement of a one-shot under that name. */
  ghost predicate Exposes(s: State, a: Action) {
    || (a.DoErase? && Bears(s, a.name))
    || (a.DoRetire? && a.top in s.queue && s.queue[a.top].oneShot && Bears(s, s.queue[a.top].name))
  }

  lemma EraseRegistryIff(s: State, name: string)
    requires Registry(s)
    ensures Registry(s.(names := s.names - {name})) <==> !Bears(s, name)
  {
    assert Pending(s.(names := s.names - {name})) == Pending(s);
  }

  lemma TakeKeepsPending(s: State, now: nat, id: nat, kick: bool)
    requires Ids(s) && !Busy(s) && (s.queue != map[] ==> id in s.queue)
    ensures var t := Take(s, now, id, kick); Pending(t) == Pending(s) && t.names == s.names
  {
  }

  lemma RetireRegistryIff(s: State, now: nat, top: nat, next: nat, kick: bool)
    requires Ids(s) && Registry(s) && !Busy(s) && top in s.queue && s.queue[top].name != ""
    requires Retire(s, top).queue != map[] ==> next in Retire(s, top).queue
    ensures Registry(Take(Retire(s, top), now, next, kick)) <==> !(s.queue[top].oneShot && Bears(s, s.queue[top].name))
  {
    RetireShrinks(s, top);
    RetireKeepsRegistryIff(s, top);
    TakeKeepsPending(Retire(s, top), now, next, kick);
  }

  /** Every step keeps pending periodic names registered and distinct, unless it exposes one. */
  lemma StepRegistryIff(s: State, a: Action)
    requires Ids(s) && Registry(s) && NoEmptyName(s) && Enabled(s, a)
    ensures Registry(Apply(s, a)) <==> !Exposes(s, a)
  {
    match a {
      case DoErase(name) => EraseRegistryIff(s, name);
      case DoRetire(now, top, next, kick) => RetireRegistryIff(s, now, top, next, kick);
      case DoInsert(r, now) => InsertKeepsRegistry(s, r, now);
      case DoRemove(name) => RemoveKeepsRegistry(s, name);
      case _ => QuietKeepsRegistry(s, a);
    }
  }

  ghost predicate AlwaysRegistered(run: seq<State>, n: nat) {
    forall k :: 0 <= k <= n && k < |run| ==> Registry(run[k])
  }

  ghost predicate NeverExposes(run: seq<State>, actions: seq<Action>, n: nat) {
    forall j :: 0 <= j < n && j < |actions| && j < |run| ==> !Exposes(run[j], actions[j])
  }

  ghost predicate BreaksByExposing(run: seq<State>, actions: seq<Action>, j: nat) {
    j < |actions| && j + 1 < |run| && (Registry(run[j]) ==> (Registry(run[j + 1]) <==> !Exposes(run[j], actions[j])))
  }

  lemma {:induction false} RegisteredFrom(run: seq<State>, actions: seq<Action>, n: nat)
    requires n < |run| && Registry(run[0]) && forall j :: 0 <= j < n ==> BreaksByExposing(run, actions, j)
    ensures AlwaysRegistered(run, n) <==> NeverExposes(run, actions, n)
  {
    if n > 0 {
      RegisteredFrom(run, actions, n - 1);
      assert BreaksByExposing(run, actions, n - 1);
    }
  }

  lemma RunBreaksByExposing(run: seq<State>, actions: seq<Action>, j: nat)
    requires Behaviour(run, actions) && j < |actions|
    ensures BreaksByExposing(run, actions, j)
  {
    RunSafety(run, actions, j);
    if Registry(run[j]) {
      StepRegistryIff(run[j], actions[j]);
    }
  }

  /** In every run, up to state n: every pending periodic task is registered and no two share a
      name, exactly if no step before n exposes a name. */
  lemma RegistryIff(run: seq<State>, actions: seq<Action>, n: nat)
    requires Behaviour(run, actions) && n < |run|
    ensures AlwaysRegistered(run, n) <==> NeverExposes(run, actions, n)
  {
    forall j | 0 <= j < n ensures BreaksByExposing(run, actions, j) {
      RunBreaksByExposing(run, actions, j);
    }
    RegisteredFrom(run, actions, n);
  }

  // A name erased while its task is in flight -----------------------------------------------

  /** At most one pending periodic task has this name. */
  ghost predicate UniqueName(s: State, name: string) {
    forall i, j :: i in Pending(s) && j in Pending(s) && BothNamed(Pending(s)[i], Pending(s)[j], name) ==> i == j
  }

  predicate BothNamed(a: Task, b: Task, name: string) { Named(a, name) && Named(b, name) }

  predicate Named(t: Task, name: string) { !t.oneShot && t.name == name }

  predicate InFlight(s: State, name: string) { Busy(s) && Named(s.loop.task, name) }

  /** A request to register a periodic task of this name, while the queue has room. */
  predicate Asks(s: State, a: Action, name: string) {
    && a.DoInsert? && !Refused(a.request) && !a.request.OneShot? && !a.request.Timer?
    && LimitedName(a.request.name) == name && |s.queue| < MAX_WATCH_NUM
  }

  /** The task of this name is in flight, no other has the name, and it is not registered. */
  ghost predicate Erased(s: State, name: string) { InFlight(s, name) && name !in s.names && UniqueName(s, name) }

  lemma PushTwin(s: State, t: Task, name: string)
    requires Ids(s) && InFlight(s, name) && t.id == s.lastId + 1 && Named(t, name) && Accepts(s, t)
    ensures !UniqueName(Push(s, t), name)
  {
    PendingAfterPush(s, t);
    var more, id := Pending(Push(s, t)), s.loop.task.id;
    assert id in more && t.id in more && id != t.id && Named(more[t.id], name) && Named(more[id], name);
  }

  lemma PushOther(s: State, t: Task, name: string)
    requires Ids(s) && Erased(s, name) && t.id == s.lastId + 1 && !(Named(t, name) && Accepts(s, t))
    ensures Erased(Push(s, t), name)
  {
    PendingAfterPush(s, t);
    var u := Push(s, t);
    forall i, j | i in Pending(u) && j in Pending(u) && Named(Pending(u)[i], name) && Named(Pending(u)[j], name)
      ensures i == j
    {
      assert i in Pending(s) && Named(Pending(s)[i], name) && j in Pending(s) && Named(Pending(s)[j], name);
    }
  }

  /** An unregistered name is asked for exactly by an insert that is accepted under it. */
  lemma AskIsAccepted(s: State, r: Request, now: nat, name: string)
    requires !Refused(r) && name !in s.names
    ensures var t := Build(r, s.lastId + 1, now);
      t.id == s.lastId + 1 && (Asks(s, DoInsert(r, now), name) <==> Named(t, name) && Accepts(s, t))
  {
    BuildFacts(r, s.lastId + 1, now);
  }

  lemma PushInFlight(s: State, t: Task, name: string)
    requires Ids(s) && Erased(s, name) && t.id == s.lastId + 1
    ensures if Named(t, name) && Accepts(s, t) then !UniqueName(Push(s, t), name) else Erased(Push(s, t), name)
  {
    if Named(t, name) && Accepts(s, t) {
      PushTwin(s, t, name);
    } else {
      PushOther(s, t, name);
    }
  }

  lemma InsertInFlight(s: State, r: Request, now: nat, name: string)
    requires Ids(s) && Erased(s, name)
    ensures if Asks(s, DoInsert(r, now), name)
            then !UniqueName(Insert(s, r, now), name) else Erased(Insert(s, r, now), name)
  {
    if Refused(r) {
      assert Insert(s, r, now) == s;
    } else {
      var t := Build(r, s.lastId + 1, now);
      AskIsAccepted(s, r, now, name);
      assert Insert(s, r, now) == Push(s, t);
      PushInFlight(s, t, name);
    }
  }

  lemma ShrinkKeepsUniqueName(s: State, t: State, name: string)
    requires Shrinks(s, t) && UniqueName(s, name)
    ensures UniqueName(t, name)
  {
    forall i, j | i in Pending(t) && j in Pending(t) && Named(Pending(t)[i], name) && Named(Pending(t)[j], name)
      ensures i == j
    {
      assert Named(Pending(s)[i], name) && Named(Pending(s)[j], name);
    }
  }

  /** Until its task is re-inserted, an erased name stays unregistered and unique unless asked for. */
  lemma ErasedStep(s: State, a: Action, name: string)
    requires Ids(s) && Enabled(s, a) && !a.DoReInsert? && Erased(s, name)
    ensures if Asks(s, a, name) then !UniqueName(Apply(s, a), name) else Erased(Apply(s, a), name)
  {
    if a.DoInsert? {
      InsertInFlight(s, a.request, a.now, name);
    } else {
      StepKeepsIds(s, a);
      ShrinkKeepsUniqueName(s, Apply(s, a), name);
      if a.DoRun? {
        RunShrinks(s);
      }
    }
  }

  lemma ErasureStep(s: State, name: string)
    requires InFlight(s, name) && UniqueName(s, name)
    ensures Erased(Apply(s, DoErase(name)), name)
  {
    assert Pending(Apply(s, DoErase(name))) == Pending(s);
  }

  lemma DroppedStep(s: State, name: string)
    requires Ids(s) && s.loop.Executed? && Erased(s, name)
    ensures !Bears(ReInsert(s), name)
  {
    var t := ReInsert(s);
    forall id | id in Pending(t) && !Pending(t)[id].oneShot ensures Pending(t)[id].name != name {
      assert id in Pending(s) && Pending(s)[id] == Pending(t)[id];
      assert Named(Pending(s)[s.loop.task.id], name);
      assert !Named(Pending(s)[id], name);
    }
  }

  /** What step m does to an erased name. */
  ghost predicate StepsOn(run: seq<State>, actions: seq<Action>, m: nat, name: string) {
    && m < |actions| && m + 1 < |run|
    && (Erased(run[m], name) ==>
          if Asks(run[m], actions[m], name) then !UniqueName(run[m + 1], name) else Erased(run[m + 1], name))
  }

  ghost predicate Doubled(run: seq<State>, j: nat, n: nat, name: string) {
    exists m :: j < m <= n && m < |run| && !UniqueName(run[m], name)
  }

  ghost predicate Asked(run: seq<State>, actions: seq<Action>, j: nat, n: nat, name: string) {
    exists m :: j < m < n && m < |run| && m < |actions| && Asks(run[m], actions[m], name)
  }

  lemma {:induction false} FirstAskDoubles(run: seq<State>, actions: seq<Action>, j: nat, n: nat, name: string)
    requires j < n < |run| && Erased(run[j + 1], name) && forall m :: j < m < n ==> StepsOn(run, actions, m, name)
    ensures Doubled(run, j, n, name) <==> Asked(run, actions, j, n, name)
    ensures !Asked(run, actions, j, n, name) ==> Erased(run[n], name)
    decreases n
  {
    if n > j + 1 {
      FirstAskDoubles(run, actions, j, n - 1, name);
      assert StepsOn(run, actions, n - 1, name);
    }
  }

  /** The task in flight at j has its name erased by step j and is not re-inserted before n. */
  ghost predicate ErasedInFlight(run: seq<State>, actions: seq<Action>, j: nat, n: nat, name: string) {
    && Behaviour(run, actions) && j < n < |run| && InFlight(run[j], name) && UniqueName(run[j], name)
    && actions[j] == DoErase(name) && forall m :: j < m < n ==> actions[m] != DoReInsert
  }

  lemma RunStepsOn(run: seq<State>, actions: seq<Action>, m: nat, name: string)
    requires Behaviour(run, actions) && m < |actions| && actions[m] != DoReInsert
    ensures StepsOn(run, actions, m, name)
  {
    RunSafety(run, actions, m);
    if Erased(run[m], name) {
      ErasedStep(run[m], actions[m], name);
    }
  }

  /** After a name is erased in flight, and until its task is re-inserted, two pending tasks come
      to share the name exactly if it is asked for again.  If it is not, the re-insertion drops the
      task, and nothing pending bears the name. */
  lemma ErasedDoublesIffAsked(run: seq<State>, actions: seq<Action>, j: nat, n: nat, name: string)
    requires ErasedInFlight(run, actions, j, n, name)
    ensures Doubled(run, j, n, name) <==> Asked(run, actions, j, n, name)
    ensures !Asked(run, actions, j, n, name) && n < |actions| && actions[n] == DoReInsert ==> !Bears(run[n + 1], name)
  {
    ErasureStep(run[j], name);
    forall m | j < m < n ensures StepsOn(run, actions, m, name) {
      RunStepsOn(run, actions, m, name);
    }
    FirstAskDoubles(run, actions, j, n, name);
    if !Asked(run, actions, j, n, name) && n < |actions| && actions[n] == DoReInsert {
      RunSafety(run, actions, n);
      DroppedStep(run[n], name);
    }
  }

  // Orderly runs --------------------------------------------------------------------------

  /** Nothing erases a name behind the queue's back, and no one-shot bears a checker's name. */
  predicate Orderly(a: Action) {
    && !a.DoErase?
    && (a.DoInsert? && (a.request.OneShot? || a.request.Timer?) ==> LimitedName(a.request.name) !in RESERVED)
  }

  /** One-shots bear no checker's name. */
  ghost predicate Reserves(s: State) {
    forall id :: id in s.made ==> s.made[id].name != "" && (s.made[id].oneShot ==> s.made[id].name !in RESERVED)
  }

  lemma StepKeepsReserves(s: State, a: Action)
    requires Ids(s) && Reserves(s) && Enabled(s, a) && Orderly(a)
    ensures Reserves(Apply(s, a))
  {
    if a.DoInsert? && !Refused(a.request) {
      BuildFacts(a.request, s.lastId + 1, a.now);
    } else {
      StepKeepsIds(s, a);
    }
  }

  lemma {:induction false} OrderlyRun(run: seq<State>, actions: seq<Action>, k: nat)
    requires Behaviour(run, actions) && k < |run| && forall a :: a in actions ==> Orderly(a)
    ensures Reserves(run[k])
    decreases k
  {
    if k > 0 {
      OrderlyRun(run, actions, k - 1);
      RunSafety(run, actions, k - 1);
      assert actions[k - 1] in actions;
      StepKeepsReserves(run[k - 1], actions[k - 1]);
    }
  }

  lemma OrderlyStep(s: State, a: Action)
    requires Ids(s) && Reserves(s) && Enabled(s, a) && Orderly(a)
    ensures !Exposes(s, a)
  {
  }

  /** Orderly runs expose no name; so in them names are registered and unique. */
  lemma NamesUnique(run: seq<State>, actions: seq<Action>, n: nat)
    requires Behaviour(run, actions) && n < |run| && forall a :: a in actions ==> Orderly(a)
    ensures AlwaysRegistered(run, n) && AlwaysUnique(run, n)
  {
    forall j | 0 <= j < n ensures !Exposes(run[j], actions[j]) {
      OrderlyRun(run, actions, j);
      RunSafety(run, actions, j);
      assert actions[j] in actions;
      OrderlyStep(run[j], actions[j]);
    }
    RegistryIff(run, actions, n);
  }

  // A witness -----------------------------------------------------------------------------

  /** Erasing the name of a task in flight and registering it again queues two tasks of that name. */
  lemma EraseThenRegisterDuplicates(s: State, twin: Task)
    requires Ids(s) && s.loop.Executed? && !s.loop.task.oneShot && s.loop.task.interval > 0
    requires twin.id == s.lastId + 1 && !twin.oneShot && twin.name == s.loop.task.name && |s.queue| < MAX_WATCH_NUM
    ensures var again := Push(Apply(s, DoErase(twin.name)), twin);
      again.loop.Executed? && !Unique(Pending(ReInsert(again)))
  {
    var t := s.loop.task;
    var queue := Pending(ReInsert(Push(Apply(s, DoErase(twin.name)), twin)));
    assert t.id in queue && twin.id in queue && t.id != twin.id;
    assert Clash(queue[t.id], queue[twin.id]);
  }
}
