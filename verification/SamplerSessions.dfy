/** What every sampling session guarantees, whatever the interleaving. */
module SamplerSessions {
  import opened SamplerRing

  ghost predicate Reaches(s: Ring, t: Ring) {
    exists run: seq<Ring>, actions: seq<Action> ::
      Execution(run, actions) && run[0] == s && run[|actions|] == t
  }

  lemma ReachesSelf(s: Ring)
    ensures Reaches(s, s)
  {
    var none: seq<Action> := [];
    assert Execution([s], none);
  }

  lemma ReachesStep(s: Ring, t: Ring, a: Action)
    requires Reaches(s, t) && Enabled(t, a)
    ensures Reaches(s, Apply(t, a))
  {
    var run: seq<Ring>, actions: seq<Action> :|
      Execution(run, actions) && run[0] == s && run[|actions|] == t;
    var run', actions' := run + [Apply(t, a)], actions + [a];
    assert Execution(run', actions');
    assert run'[|actions'|] == Apply(t, a);
  }

  lemma {:induction false} RunKeepsInv(run: seq<Ring>, actions: seq<Action>, k: nat)
    requires Execution(run, actions) && Inv(run[0]) && k < |run|
    ensures Inv(run[k])
    decreases k
  {
    if k > 0 {
      RunKeepsInv(run, actions, k - 1);
      StepKeepsInv(run[k - 1], actions[k - 1]);
    }
  }

  lemma {:induction false} HistoriesOnlyGrow(run: seq<Ring>, actions: seq<Action>, j: nat, k: nat)
    requires Execution(run, actions) && Inv(run[0]) && j <= k < |run|
    ensures run[j].published <= run[k].published && run[j].listed <= run[k].listed
    decreases k
  {
    if j < k {
      HistoriesOnlyGrow(run, actions, j, k - 1);
      RunKeepsInv(run, actions, k - 1);
      StepKeepsHistories(run[k - 1], actions[k - 1]);
    }
  }

  ghost predicate Session(run: seq<Ring>, actions: seq<Action>, index: nat, recording: bool, capacity: nat) {
    index < 2 && Execution(run, actions) && run[0] == Start(index, index, recording, capacity)
  }

  /** In every interleaving the listed stacks are a prefix of the published ones, in order,
      each a whole capture of its own; at most two wait, intact in their slots; at most one
      signal is undelivered, and it is for slot writeIndex. */
  lemma SessionSafety(run: seq<Ring>, actions: seq<Action>, index: nat, recording: bool, capacity: nat, k: nat)
    requires Session(run, actions, index, recording, capacity) && k < |run|
    ensures var s := run[k];
      && Shape(s)
      && s.listed <= s.published && |s.published| <= |s.listed| + 2
      && (forall i :: 0 <= i < |s.published| ==> s.published[i].content.Full?)
      && (forall i, j :: 0 <= i < j < |s.published| ==> s.published[i].content.capture < s.published[j].content.capture)
      && (|s.published| > |s.listed| ==> Holds(s.slots[Head(s)], s.published[|s.listed|]))
      && (|s.published| > |s.listed| + 1 ==> Holds(s.slots[1 - Head(s)], s.published[|s.listed| + 1]))
      && s.pending <= 1
      && (s.pending == 1 ==> Requested(s.slots[s.writeIndex]) && !Capturing(s))
  {
    StartHasInv(index, recording, capacity);
    RunKeepsInv(run, actions, k);
  }

  /** The i-th recorded submitter id belongs to the i-th listed stack. */
  lemma SubmitterPairing(run: seq<Ring>, actions: seq<Action>, index: nat, capacity: nat, k: nat, i: nat)
    requires Session(run, actions, index, true, capacity) && k < |run|
    requires i < |run[k].listed| && i < capacity
    ensures i < |run[k].ids| && run[k].listed[i].content == Full(run[k].ids[i].capture)
  {
    StartHasInv(index, true, capacity);
    RunKeepsInv(run, actions, k);
    ConfigurationFixed(run, actions, k);
  }

  lemma {:induction false} ConfigurationFixed(run: seq<Ring>, actions: seq<Action>, k: nat)
    requires Execution(run, actions) && k < |run|
    ensures run[k].recording == run[0].recording && run[k].capacity == run[0].capacity
    decreases k
  {
    if k > 0 {
      ConfigurationFixed(run, actions, k - 1);
      QuietStep(run[k - 1], actions[k - 1]);
    }
  }

  // ---------------------------------------------------------------------------------------
  // A request whose signal never fills its slot.

  /** Slot writeIndex is requested, but nothing is left that could fill it. */
  predicate Wedged(s: Ring) {
    && Shape(s) && Requested(s.slots[s.writeIndex])
    && s.pending == 0 && !Capturing(s) && !s.watchdog.QueueSignal?
  }

  predicate LosesRequest(a: Action) { a.SignalFails? || a.HandlerBails? }

  /** The watchdog is in GetWriteContext(). */
  predicate Looking(pc: WatchdogPc) { pc.Idle? || pc.LoadRequest? || pc.LoadSnapshot? || pc.LoadProcess? }

  lemma LookingNeverWedges(s: Ring, now: nat)
    requires Core(s) && !Wedged(s) && Looking(s.watchdog)
    ensures !Wedged(WatchdogStep(s, now))
  {
  }

  lemma DrainNeverWedges(s: Ring, now: nat)
    requires Core(s) && !Wedged(s) && !Looking(s.watchdog)
    ensures !Wedged(WatchdogStep(s, now))
  {
  }

  lemma HandlerNeverWedges(s: Ring, now: nat, id: nat)
    requires Core(s) && !Wedged(s) && !s.handler.Off?
    ensures !Wedged(HandlerStep(s, now, id))
  {
  }

  lemma WedgesExactlyOnLoss(s: Ring, a: Action)
    requires Core(s) && Enabled(s, a) && !Wedged(s)
    ensures Wedged(Apply(s, a)) <==> LosesRequest(a)
  {
    match a {
      case WatchdogRuns(now) =>
        if Looking(s.watchdog) {
          LookingNeverWedges(s, now);
        } else {
          DrainNeverWedges(s, now);
        }
      case HandlerRuns(now, id) => HandlerNeverWedges(s, now, id);
      case _ =>
    }
  }

  /** While wedged, the watchdog never gets past GetWriteContext. */
  lemma WedgedRequest(s: Ring, now: nat)
    requires Core(s) && Wedged(s) && Looking(s.watchdog)
    ensures Wedged(WatchdogStep(s, now))
  {
  }

  lemma WedgedDrain(s: Ring, now: nat)
    requires Core(s) && Wedged(s) && !Looking(s.watchdog)
    ensures Wedged(WatchdogStep(s, now))
  {
  }

  lemma WedgedWatchdog(s: Ring, now: nat)
    requires Core(s) && Wedged(s)
    ensures var t := WatchdogStep(s, now);
      Wedged(t) && t.published == s.published && t.handler == s.handler
  {
    if Looking(s.watchdog) {
      WedgedRequest(s, now);
    } else {
      WedgedDrain(s, now);
    }
    WatchdogFrame(s, now);
  }

  lemma WatchdogFrame(s: Ring, now: nat)
    requires Shape(s)
    ensures WatchdogStep(s, now).published == s.published && WatchdogStep(s, now).handler == s.handler
  {
  }

  lemma WedgedStays(s: Ring, a: Action)
    requires Core(s) && Enabled(s, a) && Wedged(s)
    ensures var t := Apply(s, a);
      && Wedged(t)
      && |t.published| + Bit(Publishing(t)) == |s.published| + Bit(Publishing(s))
  {
    if a.WatchdogRuns? {
      WedgedWatchdog(s, a.now);
    }
  }

  lemma {:induction false} WedgedFrom(run: seq<Ring>, actions: seq<Action>, j: nat, k: nat)
    requires Execution(run, actions) && Inv(run[0]) && j <= k < |run| && Wedged(run[j])
    ensures Wedged(run[k]) &&
      |run[k].published| + Bit(Publishing(run[k])) == |run[j].published| + Bit(Publishing(run[j]))
    decreases k
  {
    if j < k {
      WedgedFrom(run, actions, j, k - 1);
      RunKeepsInv(run, actions, k - 1);
      WedgedStays(run[k - 1], actions[k - 1]);
    }
  }

  /** One failed system call, or one handler that finds sp outside the stack, ends sampling for
      the session: after it nothing is published but the capture that was already under way. */
  lemma LossEndsSampling(run: seq<Ring>, actions: seq<Action>, index: nat, recording: bool, capacity: nat,
                         j: nat, k: nat)
    requires Session(run, actions, index, recording, capacity)
    requires j < k < |run| && LosesRequest(actions[j])
    ensures Wedged(run[k])
    ensures |run[k].published| <= |run[j].published| + Bit(Publishing(run[j]))
  {
    StartHasInv(index, recording, capacity);
    RunKeepsInv(run, actions, j);
    QuietStep(run[j], actions[j]);
    WedgesExactlyOnLoss(run[j], actions[j]);
    WedgedFrom(run, actions, j + 1, k);
  }

  /** Over every session: the ring is blocked exactly if some step so far has lost a request. */
  lemma {:induction false} WedgedIffLost(run: seq<Ring>, actions: seq<Action>, index: nat, recording: bool,
                                         capacity: nat, k: nat)
    requires Session(run, actions, index, recording, capacity) && k < |run|
    ensures Wedged(run[k]) <==> exists j :: 0 <= j < k && LosesRequest(actions[j])
    decreases k
  {
    if k > 0 {
      WedgedIffLost(run, actions, index, recording, capacity, k - 1);
      StartHasInv(index, recording, capacity);
      RunKeepsInv(run, actions, k - 1);
      LossStep(run[k - 1], actions[k - 1]);
    }
  }

  lemma LossStep(s: Ring, a: Action)
    requires Core(s) && Enabled(s, a)
    ensures Wedged(Apply(s, a)) <==> Wedged(s) || LosesRequest(a)
  {
    if Wedged(s) {
      WedgedStays(s, a);
    } else {
      WedgesExactlyOnLoss(s, a);
    }
  }
}
