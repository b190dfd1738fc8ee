/** The handler probe: a check evaluates the outstanding probe, then posts a new one if the last
    has completed; the watched thread completes probes whenever it gets round to them. */
module HandlerProbe {

  datatype Verdict = Completed | WaitedHalf | Waiting

  /** One check of the task: its verdict on the probe then current (0 before the first). */
  datatype Check = Check(verdict: Verdict, probe: nat)

  datatype State = State(
    handler: bool,             // the checker has a handler to post to
    isCompleted: bool,
    taskSlow: bool,
    midCheck: bool,            // between GetCheckState and ScheduleCheck
    current: nat,              // number of probes so far; the last one is current
    queued: set<nat>,          // probes in the watched thread's queue
    done: set<nat>,            // history: probes the watched thread has run
    postedAt: map<nat, nat>,   // history: the check that created each probe
    log: seq<Check>            // history: all checks
  )

  datatype Action =
    | Evaluate                   // GetCheckState
    | Schedule(accepted: bool)   // ScheduleCheck, and whether PostTask took the probe
    | Complete(probe: nat)       // the watched thread runs a queued probe

  function Start(handler: bool): State { State(handler, true, false, false, 0, {}, {}, map[], []) }

  function Judge(s: State): Verdict {
    if s.isCompleted then Completed else if !s.taskSlow then WaitedHalf else Waiting
  }

  function Evaluated(s: State): State {
    s.(taskSlow := !s.isCompleted, midCheck := true, log := s.log + [Check(Judge(s), s.current)])
  }

  /** The compare-and-swap succeeds exactly on a completed probe; without a handler nothing is done. */
  function Scheduled(s: State, accepted: bool): State
    requires s.log != []
  {
    if !s.handler || !s.isCompleted then s.(midCheck := false) else
      var probe := s.current + 1;
      s.(isCompleted := false, taskSlow := false, midCheck := false, current := probe,
         queued := if accepted then s.queued + {probe} else s.queued, postedAt := s.postedAt[probe := |s.log| - 1])
  }

  predicate Enabled(s: State, a: Action) {
    match a
    case Evaluate => !s.midCheck
    case Schedule(_) => s.midCheck && s.log != []
    case Complete(probe) => probe in s.queued
  }

  function Apply(s: State, a: Action): State
    requires Enabled(s, a)
  {
    match a
    case Evaluate => Evaluated(s)
    case Schedule(accepted) => Scheduled(s, accepted)
    case Complete(probe) => s.(isCompleted := true, queued := s.queued - {probe}, done := s.done + {probe})
  }

  ghost predicate Execution(run: seq<State>, actions: seq<Action>) {
    && |run| == |actions| + 1 && run[0] == Start(run[0].handler)
    && forall k {:trigger actions[k]} :: 0 <= k < |actions| ==>
         Enabled(run[k], actions[k]) && run[k + 1] == Apply(run[k], actions[k])
  }

  class HandlerChecker {
    const handler: bool
    var isCompleted: bool
    var taskSlow: bool
    ghost var midCheck: bool
    ghost var current: nat
    ghost var queued: set<nat>
    ghost var done: set<nat>
    ghost var postedAt: map<nat, nat>
    ghost var log: seq<Check>

    ghost function View(): State
      reads this
    {
      State(handler, isCompleted, taskSlow, midCheck, current, queued, done, postedAt, log)
    }

    constructor (handler: bool)
      ensures View() == Start(handler)
    {
      this.handler, isCompleted, taskSlow := handler, true, false;
      midCheck, current, queued, done, postedAt, log := false, 0, {}, {}, map[], [];
    }

    method GetCheckState() returns (verdict: Verdict)
      modifies this
      ensures View() == Evaluated(old(View())) && verdict == Judge(old(View()))
    {
      midCheck, log := true, log + [Check(Judge(View()), current)];
      if isCompleted {
        taskSlow := false;
        return Completed;
      }
      if !taskSlow {
        taskSlow := true;
        return WaitedHalf;
      }
      return Waiting;
    }

    /** `accepted` is PostTask's answer, should a probe be posted. */
    method ScheduleCheck(accepted: bool)
      requires log != []
      modifies this
      ensures View() == Scheduled(old(View()), accepted)
    {
      midCheck := false;
      if !handler {
        return;
      }
      if !isCompleted {
        return;
      }
      isCompleted, taskSlow := false, false;
      current := current + 1;
      postedAt := postedAt[current := |log| - 1];
      if accepted {
        queued := queued + {current};
      }
    }

    /** The posted task, on the watched thread. */
    method RunProbe(ghost probe: nat)
      requires probe in queued
      modifies this
      ensures View() == Apply(old(View()), Complete(probe))
    {
      queued, done := queued - {probe}, done + {probe};
      isCompleted := true;
    }
  }

  // ---------------------------------------------------------------------------------------

  /** Checks j + 1 .. k all judged `probe` uncompleted: the first a half wait, the rest full waits. */
  predicate Escalates(log: seq<Check>, j: int, k: int, probe: nat)
    requires 0 <= j <= k < |log|
  {
    forall m :: j < m <= k ==> log[m] == Check(if m == j + 1 then WaitedHalf else Waiting, probe)
  }

  /** A full wait at check k escalates from the check that created the probe. */
  predicate Warned(s: State, k: nat)
    requires k < |s.log|
  {
    var probe := s.log[k].probe;
    s.log[k].verdict == Waiting ==>
      probe in s.postedAt && s.postedAt[probe] + 2 <= k && Escalates(s.log, s.postedAt[probe], k, probe)
  }

  ghost predicate Inv(s: State) {
    && (forall p :: p in s.postedAt <==> 1 <= p <= s.current)
    && (forall p :: p in s.postedAt ==> s.postedAt[p] < |s.log|)
    && (s.isCompleted <==> s.current == 0 || s.current in s.done)
    && (forall p :: p in s.queued ==> p == s.current > 0 && p !in s.done)
    && (forall p :: p in s.done ==> 1 <= p <= s.current)
    && (s.midCheck ==> s.log != []) && (!s.handler ==> s.current == 0)
    && (forall k :: 0 <= k < |s.log| ==> Warned(s, k))
    && (s.current == 0 ==> !s.taskSlow && forall k :: 0 <= k < |s.log| ==> s.log[k].verdict == Completed)
    && (s.current > 0 ==> OnTrack(s, s.postedAt[s.current]))
  }

  /** The checks since the current probe was created. */
  predicate OnTrack(s: State, j: nat) {
    var last := |s.log| - 1;
    && j <= last
    && (s.taskSlow ==> j < last && Escalates(s.log, j, last, s.current))
    && (!s.taskSlow && !s.isCompleted ==> j == last)
    && (!s.taskSlow && s.isCompleted ==> j == last || (s.midCheck && s.log[last].verdict == Completed))
  }

  lemma EvaluateKeepsInv(s: State)
    requires Inv(s) && !s.midCheck
    ensures Inv(Evaluated(s))
  {
    var t, n := Evaluated(s), |s.log|;
    forall k | 0 <= k < |t.log| ensures Warned(t, k) {
      if k < n {
        assert Warned(s, k) && t.log[k] == s.log[k];
      }
    }
  }

  lemma ScheduleKeepsInv(s: State, accepted: bool)
    requires Inv(s) && s.midCheck
    ensures Inv(Scheduled(s, accepted))
  {
    var t := Scheduled(s, accepted);
    forall k | 0 <= k < |t.log| ensures Warned(t, k) {
      assert Warned(s, k);
    }
  }

  lemma StepKeepsInv(s: State, a: Action)
    requires Inv(s) && Enabled(s, a)
    ensures Inv(Apply(s, a)) && s.done <= Apply(s, a).done && s.log <= Apply(s, a).log
  {
    match a {
      case Evaluate => EvaluateKeepsInv(s);
      case Schedule(accepted) => ScheduleKeepsInv(s, accepted);
      case Complete(_) =>
        forall k | 0 <= k < |s.log| ensures Warned(Apply(s, a), k) {
          assert Warned(s, k);
        }
    }
  }

  lemma {:induction false} RunKeepsInv(run: seq<State>, actions: seq<Action>, k: nat)
    requires Execution(run, actions) && k < |run|
    ensures Inv(run[k])
    decreases k
  {
    if k > 0 {
      RunKeepsInv(run, actions, k - 1);
      StepKeepsInv(run[k - 1], actions[k - 1]);
    }
  }

  /** At most one probe is outstanding, and only while it is uncompleted. */
  lemma OneOutstanding(run: seq<State>, actions: seq<Action>, k: nat, p: nat, q: nat)
    requires Execution(run, actions) && k < |run| && p in run[k].queued && q in run[k].queued
    ensures p == q == run[k].current && p !in run[k].done && !run[k].isCompleted
  {
    RunKeepsInv(run, actions, k);
  }

  // Verdicts ------------------------------------------------------------------------------

  /** A check says Completed exactly when the watched thread has run the current probe, if any. */
  lemma VerdictIsTrue(run: seq<State>, actions: seq<Action>, n: nat)
    requires Execution(run, actions) && n < |actions| && actions[n] == Evaluate
    ensures var s, t := run[n], run[n + 1];
      t.log[|s.log|].verdict == Completed <==> s.current == 0 || s.current in s.done
  {
    RunKeepsInv(run, actions, n);
  }

  lemma JudgeIff(s: State)
    requires Inv(s) && !s.midCheck
    ensures s.current > 0 ==> s.current in s.postedAt
    ensures Judge(s) == WaitedHalf <==> s.current > 0 && s.current !in s.done && s.postedAt[s.current] + 1 == |s.log|
    ensures Judge(s) == Waiting <==> s.current > 0 && s.current !in s.done && s.postedAt[s.current] + 2 <= |s.log|
  {
  }

  /** Check k gets a half wait exactly on an uncompleted probe created by the check before it, and a
      full wait exactly on an uncompleted probe created two or more checks before it. */
  lemma WaitIff(run: seq<State>, actions: seq<Action>, n: nat)
    requires Execution(run, actions) && n < |actions| && actions[n] == Evaluate
    ensures var s, k, t := run[n], |run[n].log|, run[n + 1];
      && (s.current > 0 ==> s.current in s.postedAt)
      && (t.log[k].verdict == WaitedHalf <==> s.current > 0 && s.current !in s.done && s.postedAt[s.current] + 1 == k)
      && (t.log[k].verdict == Waiting <==> s.current > 0 && s.current !in s.done && s.postedAt[s.current] + 2 <= k)
  {
    RunKeepsInv(run, actions, n);
    JudgeIff(run[n]);
  }

  lemma {:induction false} DoneGrows(run: seq<State>, actions: seq<Action>, m: nat, n: nat)
    requires Execution(run, actions) && m <= n < |run|
    ensures run[m].done <= run[n].done && run[m].log <= run[n].log
    decreases n
  {
    if m < n {
      DoneGrows(run, actions, m, n - 1);
      RunKeepsInv(run, actions, n - 1);
      StepKeepsInv(run[n - 1], actions[n - 1]);
    }
  }

  /** Until a check that judges it uncompleted, a probe has not been run. */
  lemma {:induction false} NotDoneBefore(run: seq<State>, actions: seq<Action>, m: nat, n: nat, k: nat)
    requires Execution(run, actions) && m <= n < |run| && |run[m].log| <= k < |run[n].log|
    requires run[n].log[k].verdict != Completed
    ensures run[n].log[k].probe !in run[m].done
    decreases n
  {
    RunKeepsInv(run, actions, n - 1);
    StepKeepsInv(run[n - 1], actions[n - 1]);
    if k < |run[n - 1].log| {
      NotDoneBefore(run, actions, m, n - 1, k);
    } else {
      DoneGrows(run, actions, m, n - 1);
    }
  }

  // Refused postings ----------------------------------------------------------------------

  /** Step j creates a probe that PostTask does not take. */
  predicate RefusedAt(run: seq<State>, actions: seq<Action>, j: nat) {
    j < |actions| && j < |run| && actions[j] == Schedule(false) && run[j].handler && run[j].isCompleted
  }

  /** A refused probe stays current and uncompleted for ever, and nothing is queued again. */
  lemma {:induction false} RefusedStays(run: seq<State>, actions: seq<Action>, j: nat, k: nat)
    requires Execution(run, actions) && RefusedAt(run, actions, j) && j < k < |run|
    ensures var s := run[k];
      && !s.isCompleted && s.queued == {} && s.current == run[j].current + 1
      && s.current in s.postedAt && s.postedAt[s.current] == |run[j].log| - 1 && |run[j].log| <= |s.log|
    decreases k
  {
    if k == j + 1 {
      RunKeepsInv(run, actions, j);
    } else {
      RefusedStays(run, actions, j, k - 1);
      assert run[k] == Apply(run[k - 1], actions[k - 1]);
    }
  }

  lemma {:induction false} StaysQueued(run: seq<State>, actions: seq<Action>, k: nat)
    requires Execution(run, actions) && k < |run| && forall j :: 0 <= j < k ==> !RefusedAt(run, actions, j)
    ensures run[k].isCompleted || run[k].current in run[k].queued
    decreases k
  {
    if k > 0 {
      StaysQueued(run, actions, k - 1);
      assert !RefusedAt(run, actions, k - 1);
    }
  }

  /** A check judges a probe uncompleted that does not wait in the watched thread's queue exactly if
      some posting before it was refused. */
  lemma FalseBlockIffRefused(run: seq<State>, actions: seq<Action>, n: nat)
    requires Execution(run, actions) && n < |actions| && actions[n] == Evaluate
    ensures var s, t := run[n], run[n + 1];
      (t.log[|s.log|].verdict != Completed && s.current !in s.queued) <==>
        exists j :: 0 <= j < n && RefusedAt(run, actions, j)
  {
    RunKeepsInv(run, actions, n);
    if j :| 0 <= j < n && RefusedAt(run, actions, j) {
      RefusedStays(run, actions, j, n);
    } else {
      StaysQueued(run, actions, n);
    }
  }

  /** After a refused posting the next check gets a half wait and every later one a full wait. */
  lemma RefusedPostEscalates(run: seq<State>, actions: seq<Action>, j: nat, n: nat)
    requires Execution(run, actions) && RefusedAt(run, actions, j) && j < n < |actions| && actions[n] == Evaluate
    ensures var s, t := run[n], run[n + 1];
      t.log[|s.log|] == Check(if |s.log| == |run[j].log| then WaitedHalf else Waiting, run[j].current + 1)
  {
    RunKeepsInv(run, actions, n);
    RefusedStays(run, actions, j, n);
    WaitIff(run, actions, n);
  }

  // Posting and completing ------------------------------------------------------------------

  /** A scheduling step creates a probe exactly if there is a handler and the last probe, if any, has been
      run; PostTask's answer decides whether it is queued. */
  lemma PostsIff(run: seq<State>, actions: seq<Action>, n: nat)
    requires Execution(run, actions) && n < |actions| && actions[n].Schedule?
    ensures var s, t := run[n], run[n + 1];
      if s.handler && (s.current == 0 || s.current in s.done)
      then
        && t.current == s.current + 1 && t.current in t.postedAt && t.postedAt[t.current] == |s.log| - 1
        && t.queued == (if actions[n].accepted then {t.current} else {}) && t.current !in t.done
      else t.current == s.current && t.queued == s.queued && t.postedAt == s.postedAt
  {
    RunKeepsInv(run, actions, n);
    RunKeepsInv(run, actions, n + 1);
  }

  /** A probe that the watched thread runs leaves the queue, and counts as run for good. */
  lemma CompletesForGood(run: seq<State>, actions: seq<Action>, n: nat, k: nat)
    requires Execution(run, actions) && n < k < |run| && n < |actions| && actions[n].Complete?
    ensures actions[n].probe in run[k].done && actions[n].probe !in run[k].queued
  {
    DoneGrows(run, actions, n + 1, k);
    RunKeepsInv(run, actions, k);
  }
}
