/** When tasks run: one-shot timers at most once and never early, periodic tasks on their ticks. */
module SchedulerPace {
  import opened Unsigned
  import opened Scheduler
  import opened SchedulerSafety

  predicate Flying(s: State, id: nat) { Busy(s) && s.loop.task.id == id }

  // Tasks without an interval ---------------------------------------------------------------

  /** A task without an interval, as every one-shot is, is untouched until its only run, at or after
      its deadline; a cancelled one never runs. */
  predicate OnceOk(s: State, id: nat) {
    var h := History(s, id);
    if id !in s.made then h == [] && id !in s.cancelled
    else
      && (s.made[id].oneShot ==> s.made[id].interval == 0)
      && (s.made[id].interval == 0 ==>
            && (id in s.queue ==> h == [] && s.queue[id].tick == s.made[id].tick && id !in s.cancelled)
            && (Flying(s, id) ==> id !in s.cancelled)
            && (Flying(s, id) && s.loop.Fetched? ==> h == [] && s.loop.task.tick == s.made[id].tick <= s.loop.now)
            && (h != [] ==> |h| == 1 && h[0].ran && h[0].due == s.made[id].tick <= h[0].at && id !in s.cancelled))
  }

  lemma PushKeepsOnce(s: State, t: Task, id: nat)
    requires Ids(s) && OnceOk(s, id) && t.id == s.lastId + 1 && (t.oneShot ==> t.interval == 0 && t.countLimit == 0)
    ensures OnceOk(Push(s, t), id)
  {
  }

  lemma TakeKeepsOnce(s: State, now: nat, top: nat, kick: bool, id: nat)
    requires Ids(s) && !Busy(s) && OnceOk(s, id) && (s.queue != map[] ==> top in s.queue)
    ensures OnceOk(Take(s, now, top, kick), id)
  {
  }

  lemma RunKeepsOnce(s: State, id: nat)
    requires Ids(s) && s.loop.Fetched? && OnceOk(s, id)
    ensures OnceOk(Run(s), id)
  {
  }

  lemma EditKeepsOnce(s: State, a: Action, id: nat)
    requires Ids(s) && OnceOk(s, id) && Enabled(s, a) && (a.DoCancel? || a.DoRemove? || a.DoTrigger?)
    ensures OnceOk(Apply(s, a), id)
  {
  }

  lemma InsertKeepsOnce(s: State, r: Request, now: nat, id: nat)
    requires Ids(s) && OnceOk(s, id)
    ensures OnceOk(Insert(s, r, now), id)
  {
    if Refused(r) {
      assert Insert(s, r, now) == s;
    } else {
      var t := Build(r, s.lastId + 1, now);
      assert t.id == s.lastId + 1 && (t.oneShot ==> t.interval == 0 && t.countLimit == 0) by {
        BuildFacts(r, s.lastId + 1, now);
      }
      assert Insert(s, r, now) == Push(s, t);
      PushKeepsOnce(s, t, id);
    }
  }

  lemma RetireKeepsOnce(s: State, now: nat, top: nat, next: nat, kick: bool, id: nat)
    requires Ids(s) && !Busy(s) && OnceOk(s, id) && top in s.queue
    requires Retire(s, top).queue != map[] ==> next in Retire(s, top).queue
    ensures OnceOk(Take(Retire(s, top), now, next, kick), id)
  {
    RetireShrinks(s, top);
    TakeKeepsOnce(Retire(s, top), now, next, kick, id);
  }

  lemma StepKeepsOnce(s: State, a: Action, id: nat)
    requires Ids(s) && OnceOk(s, id) && Enabled(s, a)
    ensures OnceOk(Apply(s, a), id)
  {
    match a {
      case DoInsert(r, now) => InsertKeepsOnce(s, r, now, id);
      case DoFetch(now, top, kick) => TakeKeepsOnce(s, now, top, kick, id);
      case DoRetire(now, top, next, kick) => RetireKeepsOnce(s, now, top, next, kick, id);
      case DoRun => RunKeepsOnce(s, id);
      case DoCancel(_) => EditKeepsOnce(s, a, id);
      case DoRemove(_) => EditKeepsOnce(s, a, id);
      case DoTrigger(_, _, _) => EditKeepsOnce(s, a, id);
      case _ =>
    }
  }

  // Tasks with an interval ------------------------------------------------------------------

  /** A periodic task that is not a timer counter. */
  predicate Ticking(t: Task) { t.interval > 0 && t.countLimit == 0 }

  /** How late a tick may be before it is reset: two intervals, in 64 bits. */
  function Patience(interval: nat): nat { 2 * interval % U64 }

  /** The tick that follows: one interval on, counted from the fetch when it was reset as late. */
  function NextDue(e: Tick, interval: nat): nat { ((if e.ran then e.due else e.at) + interval) % U64 }

  /** The body runs unless its tick is later than `patience`; the next tick as above. */
  ghost predicate LawWith(h: seq<Tick>, interval: nat, patience: nat, range: Range) {
    && (forall k :: 0 <= k < |h| ==> Punctual(h[k], patience, range))
    && (forall j, k :: 0 <= j < |h| && 0 <= k < |h| && k == j + 1 ==> Succeeds(h[j], h[k], interval))
  }

  ghost predicate TickLaw(h: seq<Tick>, interval: nat, range: Range) {
    LawWith(h, interval, Patience(interval), range)
  }

  /** A timer counter is never too late. */
  function PatienceOf(t: Task): nat { if t.countLimit > 0 then U64 else Patience(t.interval) }

  predicate Punctual(e: Tick, patience: nat, range: Range) {
    e.due <= e.at < range && (e.ran <==> e.at - e.due <= patience)
  }

  predicate Succeeds(e: Tick, f: Tick, interval: nat) { f.due == NextDue(e, interval) && e.at <= f.at }

  function Expected(h: seq<Tick>, made: Task): nat {
    if h == [] then made.tick else NextDue(h[|h| - 1], made.interval)
  }

  ghost predicate LawOk(s: State, id: nat) {
    var h := History(s, id);
    if id !in s.made then h == []
    else s.made[id].interval > 0 ==>
      && LawWith(h, s.made[id].interval, PatienceOf(s.made[id]), s.range)
      && (h != [] ==> h[0].due == s.made[id].tick && h[|h| - 1].at <= s.clock < s.range)
      && (id in s.queue ==> s.queue[id].tick == Expected(h, s.made[id]))
      && (Flying(s, id) && s.loop.Fetched? ==>
            s.loop.task.tick == Expected(h, s.made[id]) && s.loop.task.tick <= s.loop.now == s.clock < s.range)
      && (Flying(s, id) && s.loop.Executed? ==>
            h != [] && (s.loop.task.tick + s.made[id].interval) % U64 == NextDue(h[|h| - 1], s.made[id].interval))
  }

  lemma PushFrame(s: State, t: Task, id: nat)
    requires t.id != id
    ensures var u := Push(s, t);
      && History(u, id) == History(s, id) && u.loop == s.loop && u.clock == s.clock && u.range == s.range
      && (id in u.made <==> id in s.made) && (id in s.made ==> u.made[id] == s.made[id])
      && (id in u.queue <==> id in s.queue) && (id in s.queue ==> u.queue[id] == s.queue[id])
  {
  }

  lemma PushStarts(s: State, t: Task)
    requires Ids(s) && t.id == s.lastId + 1
    ensures var u := Push(s, t);
      && History(u, t.id) == History(s, t.id) && !Flying(u, t.id)
      && (t.id in u.made && t.id in u.queue ==> u.queue[t.id].tick == u.made[t.id].tick)
  {
  }

  lemma PushKeepsLaw(s: State, t: Task, id: nat)
    requires Ids(s) && LawOk(s, id) && t.id == s.lastId + 1
    ensures LawOk(Push(s, t), id)
  {
    if t.id != id {
      PushFrame(s, t, id);
    } else {
      PushStarts(s, t);
    }
  }

  lemma TakeKeepsLaw(s: State, now: nat, top: nat, kick: bool, id: nat)
    requires Ids(s) && !Busy(s) && LawOk(s, id) && (s.queue != map[] ==> top in s.queue) && Readable(s, now)
    ensures LawOk(Take(s, now, top, kick), id)
  {
  }

  lemma RunOnClock(t: Task, now: nat)
    requires t.interval > 0 && t.tick <= now < U64
    ensures t.countLimit == 0 ==>
      RunTask(t, now) == if now - t.tick > Patience(t.interval) then (t.(tick := now), false) else (t, true)
    ensures var (t', ran) := RunTask(t, now);
      (ran <==> now - t.tick <= PatienceOf(t)) && t'.tick == if ran then t.tick else now
  {
    assert (now - t.tick) % U64 == now - t.tick;
  }

  lemma LawExtends(h: seq<Tick>, interval: nat, patience: nat, range: Range, e: Tick)
    requires LawWith(h, interval, patience, range) && Punctual(e, patience, range)
    requires h != [] ==> Succeeds(h[|h| - 1], e, interval)
    ensures LawWith(h + [e], interval, patience, range)
  {
  }

  lemma RunKeepsLaw(s: State, id: nat)
    requires Ids(s) && s.loop.Fetched? && LawOk(s, id)
    ensures LawOk(Run(s), id)
  {
    var t, now, h := s.loop.task, s.loop.now, History(s, id);
    if t.id == id && s.made[id].interval > 0 {
      RunOnClock(t, now);
      LawExtends(h, t.interval, PatienceOf(t), s.range, Tick(t.tick, now, now - t.tick <= PatienceOf(t)));
    }
  }

  lemma ReInsertKeepsLaw(s: State, id: nat)
    requires Ids(s) && s.loop.Executed? && LawOk(s, id)
    ensures LawOk(ReInsert(s), id)
  {
  }

  lemma EditKeepsLaw(s: State, a: Action, id: nat)
    requires Ids(s) && LawOk(s, id) && Enabled(s, a) && (a.DoCancel? || a.DoRemove? || a.DoTrigger?)
    ensures LawOk(Apply(s, a), id)
  {
  }

  lemma InsertKeepsLaw(s: State, r: Request, now: nat, id: nat)
    requires Ids(s) && LawOk(s, id)
    ensures LawOk(Insert(s, r, now), id)
  {
    if Refused(r) {
      assert Insert(s, r, now) == s;
    } else {
      var t := Build(r, s.lastId + 1, now);
      assert t.id == s.lastId + 1;
      assert Insert(s, r, now) == Push(s, t);
      PushKeepsLaw(s, t, id);
    }
  }

  lemma RetireKeepsLaw(s: State, now: nat, top: nat, next: nat, kick: bool, id: nat)
    requires Ids(s) && !Busy(s) && LawOk(s, id) && top in s.queue && Readable(s, now)
    requires Retire(s, top).queue != map[] ==> next in Retire(s, top).queue
    ensures LawOk(Take(Retire(s, top), now, next, kick), id)
  {
    RetireShrinks(s, top);
    TakeKeepsLaw(Retire(s, top), now, next, kick, id);
  }

  lemma StepKeepsLaw(s: State, a: Action, id: nat)
    requires Ids(s) && LawOk(s, id) && Enabled(s, a)
    ensures LawOk(Apply(s, a), id)
  {
    match a {
      case DoInsert(r, now) => InsertKeepsLaw(s, r, now, id);
      case DoFetch(now, top, kick) => TakeKeepsLaw(s, now, top, kick, id);
      case DoRetire(now, top, next, kick) => RetireKeepsLaw(s, now, top, next, kick, id);
      case DoRun => RunKeepsLaw(s, id);
      case DoReInsert => ReInsertKeepsLaw(s, id);
      case DoCancel(_) => EditKeepsLaw(s, a, id);
      case DoRemove(_) => EditKeepsLaw(s, a, id);
      case DoTrigger(_, _, _) => EditKeepsLaw(s, a, id);
      case _ =>
    }
  }
}
