/** What the recorded values are: every submitter id and every timestamp is the reading of the step that
    stored it. */
module SamplerRecords {
  import opened SamplerRing
  import opened SamplerSessions

  // Submitter ids ---------------------------------------------------------------------------

  /** Step j is the handler of invocation `capture` reading the submitter id `id`, with room for it. */
  predicate Reads(run: seq<Ring>, actions: seq<Action>, j: nat, capture: nat, id: nat) {
    && j < |actions| && j < |run| && actions[j].HandlerRuns? && actions[j].id == id
    && run[j].handler.RecordSubmitter? && run[j].captures == capture
    && run[j].recording && |run[j].ids| < run[j].capacity
  }

  lemma StepIds(s: Ring, a: Action)
    requires Enabled(s, a)
    ensures Apply(s, a).ids ==
      if a.HandlerRuns? && s.handler.RecordSubmitter? && s.recording && |s.ids| < s.capacity
      then s.ids + [SubmitterId(s.captures, a.id)] else s.ids
  {
    QuietStep(s, a);
  }

  lemma {:induction false} IdsGrow(run: seq<Ring>, actions: seq<Action>, j: nat, k: nat)
    requires Execution(run, actions) && j <= k < |run|
    ensures run[j].ids <= run[k].ids
    decreases k
  {
    if j < k {
      IdsGrow(run, actions, j, k - 1);
      StepIds(run[k - 1], actions[k - 1]);
    }
  }

  /** What was read is kept, at the position it was read for. */
  lemma ReadIsKept(run: seq<Ring>, actions: seq<Action>, j: nat, k: nat, capture: nat, id: nat)
    requires Execution(run, actions) && j < k < |run| && Reads(run, actions, j, capture, id)
    ensures |run[j].ids| < |run[k].ids| && run[k].ids[|run[j].ids|] == SubmitterId(capture, id)
  {
    StepIds(run[j], actions[j]);
    IdsGrow(run, actions, j + 1, k);
  }

  /** Whatever is recorded was read. */
  lemma {:induction false} RecordedWasRead(run: seq<Ring>, actions: seq<Action>, k: nat, i: nat) returns (j: nat)
    requires Execution(run, actions) && k < |run| && run[0].ids == [] && i < |run[k].ids|
    ensures j < k && |run[j].ids| == i && Reads(run, actions, j, run[k].ids[i].capture, run[k].ids[i].value)
    decreases k
  {
    StepIds(run[k - 1], actions[k - 1]);
    if i < |run[k - 1].ids| {
      j := RecordedWasRead(run, actions, k - 1, i);
    } else {
      j := k - 1;
    }
  }

  lemma DistinctCaptures(s: Ring, a: nat, b: nat)
    requires Inv(s) && a < b < |s.ids|
    ensures s.ids[a].capture < s.ids[b].capture
  {
    if b < |s.published| {
      assert s.published[a].content.capture < s.published[b].content.capture;
    } else {
      assert s.published[a] == s.published[|s.published| - 1]
          || s.published[a].content.capture < s.published[|s.published| - 1].content.capture;
    }
  }

  lemma OneIdPerCapture(s: Ring, a: nat, b: nat)
    requires Inv(s) && a < |s.ids| && b < |s.ids|
    ensures s.ids[a].capture == s.ids[b].capture <==> a == b
  {
    if a < b {
      DistinctCaptures(s, a, b);
    } else if b < a {
      DistinctCaptures(s, b, a);
    }
  }

  /** In every session with recording on: the id held for the i-th listed stack is the one that the
      handler invocation which captured that stack read.  So a submitter is printed under the stack
      exactly if that reading was not 0. */
  lemma PrintedIsRead(run: seq<Ring>, actions: seq<Action>, index: nat, capacity: nat, j: nat, k: nat, i: nat, id: nat)
    requires Session(run, actions, index, true, capacity) && j < k < |run|
    requires i < |run[k].listed| && i < capacity && run[k].listed[i].content.Full?
    requires Reads(run, actions, j, run[k].listed[i].content.capture, id)
    ensures i < |run[k].ids| && run[k].ids[i].value == id
  {
    SubmitterPairing(run, actions, index, capacity, k, i);
    ReadIsKept(run, actions, j, k, run[k].listed[i].content.capture, id);
    StartHasInv(index, true, capacity);
    RunKeepsInv(run, actions, k);
    OneIdPerCapture(run[k], i, |run[j].ids|);
  }

  /** And there is such a reading for every listed stack within the capacity. */
  lemma PrintedWasRead(run: seq<Ring>, actions: seq<Action>, index: nat, capacity: nat, k: nat, i: nat)
      returns (j: nat, id: nat)
    requires Session(run, actions, index, true, capacity) && k < |run| && i < |run[k].listed| && i < capacity
    ensures j < k && run[k].listed[i].content.Full? && Reads(run, actions, j, run[k].listed[i].content.capture, id)
  {
    SubmitterPairing(run, actions, index, capacity, k, i);
    j := RecordedWasRead(run, actions, k, i);
    id := run[k].ids[i].value;
  }

  // Times -----------------------------------------------------------------------------------

  /** The stack that step j publishes carries that step's clock reading, for good. */
  lemma PublishedAsRead(run: seq<Ring>, actions: seq<Action>, index: nat, recording: bool, capacity: nat,
                        j: nat, k: nat)
    requires Session(run, actions, index, recording, capacity) && j < k < |run|
    requires actions[j].HandlerRuns? && run[j].handler.Publish?
    ensures var n := |run[j].published|;
      && n < |run[k].published| && run[k].published[n] == Stack(Full(run[j].captures), actions[j].now)
      && (n < |run[k].listed| ==> run[k].listed[n] == Stack(Full(run[j].captures), actions[j].now))
  {
    StartHasInv(index, recording, capacity);
    RunKeepsInv(run, actions, j);
    RunKeepsInv(run, actions, k);
    PublishStep(run[j], actions[j]);
    HistoriesOnlyGrow(run, actions, j + 1, k);
  }

  lemma PublishStep(s: Ring, a: Action)
    requires Core(s) && Enabled(s, a) && a.HandlerRuns? && s.handler.Publish?
    ensures Apply(s, a).published == s.published + [Stack(Full(s.captures), a.now)]
  {
  }

  datatype Field = RequestTime | SnapshotTime | ProcessTime

  function Time(slot: Slot, f: Field): nat {
    match f
    case RequestTime => slot.requestTime
    case SnapshotTime => slot.snapshotTime
    case ProcessTime => slot.processTime
  }

  /** Step `a` stores its clock reading in field `f` of slot i. */
  predicate Stores(s: Ring, a: Action, i: nat, f: Field) {
    match f
    case RequestTime => a.WatchdogRuns? && s.watchdog == StoreRequest(i)
    case SnapshotTime => a.HandlerRuns? && s.handler == Publish(i)
    case ProcessTime => a.WatchdogRuns? && s.watchdog == StoreProcess(i)
  }

  lemma WatchdogTimes(s: Ring, now: nat, i: nat, f: Field)
    requires Shape(s) && i < 2
    ensures |WatchdogStep(s, now).slots| == 2
    ensures var t := Time(WatchdogStep(s, now).slots[i], f);
      if Stores(s, WatchdogRuns(now), i, f) then t == now else t == Time(s.slots[i], f) || t == 0
  {
  }

  lemma HandlerLeavesOther(s: Ring, now: nat, id: nat, i: nat)
    requires Shape(s) && i < 2 && !s.handler.Off? && i != s.handler.i
    ensures |HandlerStep(s, now, id).slots| == 2 && HandlerStep(s, now, id).slots[i] == s.slots[i]
  {
  }

  lemma HandlerOwn(s: Ring, now: nat, id: nat)
    requires Shape(s) && !s.handler.Off?
    ensures |HandlerStep(s, now, id).slots| == 2
    ensures var before, after := s.slots[s.handler.i], HandlerStep(s, now, id).slots[s.handler.i];
      && after.requestTime == before.requestTime
      && after.snapshotTime == (if s.handler.Publish? then now else before.snapshotTime)
      && after.processTime == (if s.handler.ClearProcess? then 0 else before.processTime)
  {
  }

  lemma HandlerTimes(s: Ring, now: nat, id: nat, i: nat, f: Field)
    requires Shape(s) && i < 2 && !s.handler.Off?
    ensures |HandlerStep(s, now, id).slots| == 2
    ensures var t := Time(HandlerStep(s, now, id).slots[i], f);
      if Stores(s, HandlerRuns(now, id), i, f) then t == now else t == Time(s.slots[i], f) || t == 0
  {
    if i == s.handler.i {
      HandlerOwn(s, now, id);
    } else {
      HandlerLeavesOther(s, now, id, i);
    }
  }

  lemma StepTimes(s: Ring, a: Action, i: nat, f: Field)
    requires Enabled(s, a) && i < 2
    ensures |Apply(s, a).slots| == 2
    ensures var t := Time(Apply(s, a).slots[i], f);
      if Stores(s, a, i, f) then t == a.now else t == Time(s.slots[i], f) || t == 0
  {
    match a {
      case WatchdogRuns(now) => WatchdogTimes(s, now, i, f);
      case HandlerRuns(now, id) => HandlerTimes(s, now, id, i, f);
      case _ =>
    }
  }

  /** Every timestamp that is set is the clock reading of the step that stored it. */
  lemma {:induction false} TimesAreRead(run: seq<Ring>, actions: seq<Action>, k: nat, i: nat, f: Field) returns (j: nat)
    requires Execution(run, actions) && k < |run| && i < 2 && |run[k].slots| == 2
    requires Shape(run[0]) && Time(run[0].slots[i], f) == 0 && Time(run[k].slots[i], f) != 0
    ensures j < k && Stores(run[j], actions[j], i, f) && actions[j].now == Time(run[k].slots[i], f)
    decreases k
  {
    StepTimes(run[k - 1], actions[k - 1], i, f);
    if Stores(run[k - 1], actions[k - 1], i, f) {
      j := k - 1;
    } else {
      j := TimesAreRead(run, actions, k - 1, i, f);
    }
  }
}
