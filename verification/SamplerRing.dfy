/** The two-slot sampling ring shared by the watchdog thread and the signal handler on the
    sampled thread.  Every load and store of a shared field is one step, so a run is an
    arbitrary interleaving of the two threads over sequentially consistent memory. */
module SamplerRing {

  /** What a slot's registers and stack buffer hold.  `capture` numbers handler invocations. */
  datatype Content = Blank | Partial(capture: nat) | Full(capture: nat)

  datatype Slot = Slot(requestTime: nat, snapshotTime: nat, processTime: nat, content: Content)

  /** A stack as published by the handler, and as listed by the watchdog after unwinding. */
  datatype Stack = Stack(content: Content, snapshotTime: nat)

  /** A submitter id, tagged with the handler invocation that recorded it. */
  datatype SubmitterId = SubmitterId(capture: nat, value: nat)

  /** Program points of the watchdog thread: the next access it will make. */
  datatype WatchdogPc =
    | Idle
    | LoadRequest(i: nat) | LoadSnapshot(i: nat) | LoadProcess(i: nat)
    | StoreRequest(i: nat) | QueueSignal(i: nat)
    | Drain | ReadRequest(i: nat) | ReadSnapshot(i: nat) | AdvanceRead(i: nat)
    | Stamp(i: nat) | Unwind(i: nat, time: nat)
    | ClearRequest(i: nat) | ClearSnapshot(i: nat) | StoreProcess(i: nat)

  /** Program points of the signal handler. */
  datatype HandlerPc =
    | Off
    | GuardSnapshot(i: nat) | GuardProcess(i: nat)
    | CopyRegisters(i: nat) | CopyStack(i: nat) | RecordSubmitter(i: nat)
    | AdvanceWrite(i: nat) | ClearProcess(i: nat) | Publish(i: nat)

  datatype Ring = Ring(
    slots: seq<Slot>,
    writeIndex: nat,
    readIndex: nat,
    watchdog: WatchdogPc,
    handler: HandlerPc,
    pending: nat,             // queued, undelivered signals
    captures: nat,            // handler invocations so far
    recording: bool,          // recordSubmitterStack_
    capacity: nat,            // submitterStackIdsMaxSize_
    ids: seq<SubmitterId>,    // submitterStackIds_[..submitterStackIdIndex_]
    published: seq<Stack>,    // history: stores of snapshotTime by the handler
    listed: seq<Stack>        // timeStampedPcsList_
  )

  datatype Action =
    | WatchdogRuns(now: nat)          // the watchdog's next access
    | CollectBegins                   // CollectStack instead of Sample
    | SignalFails                     // the queueing system call reports an error
    | SignalArrives                   // the handler starts on the sampled thread
    | HandlerRuns(now: nat, id: nat)  // the handler's next access
    | HandlerBails                    // sp lies outside the stack

  const EMPTY_SLOT := Slot(0, 0, 0, Blank)

  function Start(readIndex: nat, writeIndex: nat, recording: bool, capacity: nat): Ring {
    Ring([EMPTY_SLOT, EMPTY_SLOT], writeIndex, readIndex, Idle, Off, 0, 0, recording, capacity, [], [], [])
  }

  /** A zeroed ring with the indices and the undelivered signals that the last session left. */
  function Inherit(readIndex: nat, writeIndex: nat, pending: nat, recording: bool, capacity: nat): Ring {
    Start(readIndex, writeIndex, recording, capacity).(pending := pending)
  }

  predicate Shape(s: Ring) {
    && |s.slots| == 2 && s.writeIndex < 2 && s.readIndex < 2
    && (!s.watchdog.Idle? && !s.watchdog.Drain? ==> s.watchdog.i < 2)
    && (!s.handler.Off? ==> s.handler.i < 2)
  }

  function Store(s: Ring, i: nat, slot: Slot): Ring
    requires i < |s.slots|
  {
    s.(slots := s.slots[i := slot])
  }

  /** Sample(): GetWriteContext, the request, the signal, then the drain loop. */
  function WatchdogStep(s: Ring, now: nat): (t: Ring)
    requires Shape(s)
  {
    match s.watchdog
    case Idle => s.(watchdog := LoadRequest(s.writeIndex))
    case LoadRequest(i) =>
      s.(watchdog := if s.slots[i].requestTime > 0 then LoadSnapshot(i) else StoreRequest(i))
    case LoadSnapshot(i) =>
      s.(watchdog := if s.slots[i].snapshotTime == 0 then Drain else LoadProcess(i))
    case LoadProcess(i) =>
      s.(watchdog := if s.slots[i].processTime == 0 then Drain else StoreRequest(i))
    case StoreRequest(i) =>
      Store(s, i, s.slots[i].(requestTime := now)).(watchdog := QueueSignal(i))
    case QueueSignal(i) => s.(pending := s.pending + 1, watchdog := Drain)
    case Drain => s.(watchdog := ReadRequest(s.readIndex))
    case ReadRequest(i) =>
      s.(watchdog := if s.slots[i].requestTime == 0 then Idle else ReadSnapshot(i))
    case ReadSnapshot(i) =>
      s.(watchdog := if s.slots[i].snapshotTime == 0 then Idle else AdvanceRead(i))
    case AdvanceRead(i) => s.(readIndex := (i + 1) % 2, watchdog := Stamp(i))
    case Stamp(i) => s.(watchdog := Unwind(i, s.slots[i].snapshotTime))
    case Unwind(i, time) =>
      s.(listed := s.listed + [Stack(s.slots[i].content, time)], watchdog := ClearRequest(i))
    case ClearRequest(i) => Store(s, i, s.slots[i].(requestTime := 0)).(watchdog := ClearSnapshot(i))
    case ClearSnapshot(i) => Store(s, i, s.slots[i].(snapshotTime := 0)).(watchdog := StoreProcess(i))
    case StoreProcess(i) => Store(s, i, s.slots[i].(processTime := now)).(watchdog := Drain)
  }

  /** WriteContext() on the sampled thread. */
  function HandlerStep(s: Ring, now: nat, id: nat): (t: Ring)
    requires Shape(s) && !s.handler.Off?
  {
    match s.handler
    case GuardSnapshot(i) =>
      s.(handler := if s.slots[i].snapshotTime > 0 then GuardProcess(i) else CopyRegisters(i))
    case GuardProcess(i) =>
      s.(handler := if s.slots[i].processTime == 0 then Off else CopyRegisters(i))
    case CopyRegisters(i) =>
      Store(s, i, s.slots[i].(content := Partial(s.captures))).(handler := CopyStack(i))
    case CopyStack(i) =>
      Store(s, i, s.slots[i].(content := Full(s.captures))).(handler := RecordSubmitter(i))
    case RecordSubmitter(i) =>
      s.(ids := if s.recording && |s.ids| < s.capacity then s.ids + [SubmitterId(s.captures, id)] else s.ids,
         handler := AdvanceWrite(i))
    case AdvanceWrite(i) => s.(writeIndex := (i + 1) % 2, handler := ClearProcess(i))
    case ClearProcess(i) => Store(s, i, s.slots[i].(processTime := 0)).(handler := Publish(i))
    case Publish(i) =>
      Store(s, i, s.slots[i].(snapshotTime := now)).(
        published := s.published + [Stack(s.slots[i].content, now)], handler := Off)
  }

  /** Clock readings are positive: zero is the "unset" value of the three timestamps. */
  predicate Enabled(s: Ring, a: Action) {
    && Shape(s)
    && match a
       case WatchdogRuns(now) => now > 0
       case CollectBegins => s.watchdog.Idle?
       case SignalFails => s.watchdog.QueueSignal?
       case SignalArrives => s.handler.Off? && s.pending > 0
       case HandlerRuns(now, _) => !s.handler.Off? && now > 0
       case HandlerBails => s.handler.CopyStack?
  }

  function Apply(s: Ring, a: Action): (t: Ring)
    requires Enabled(s, a)
  {
    match a
    case WatchdogRuns(now) => WatchdogStep(s, now)
    case CollectBegins => s.(watchdog := Drain)
    case SignalFails => s.(watchdog := Drain)
    case SignalArrives =>
      s.(pending := s.pending - 1, captures := s.captures + 1, handler := GuardSnapshot(s.writeIndex))
    case HandlerRuns(now, id) => HandlerStep(s, now, id)
    case HandlerBails => s.(handler := Off)
  }

  /** `run` is a finite execution: consecutive states are related by the matching action. */
  ghost predicate Execution(run: seq<Ring>, actions: seq<Action>) {
    && |run| == |actions| + 1
    && forall k {:trigger actions[k]} :: 0 <= k < |actions| ==>
         Enabled(run[k], actions[k]) && run[k + 1] == Apply(run[k], actions[k])
  }

  // ---------------------------------------------------------------------------------------
  // The invariant.  Positions are relative to `Head`, the slot of the oldest unlisted stack.

  predicate Requested(s: Slot) { s.requestTime > 0 && s.snapshotTime == 0 }

  predicate Holds(slot: Slot, stack: Stack) {
    && slot.requestTime > 0 && slot.snapshotTime == stack.snapshotTime && slot.processTime == 0
    && slot.content == stack.content && stack.snapshotTime > 0
  }

  /** The handler still works on slot writeIndex. */
  predicate Capturing(s: Ring) {
    s.handler.GuardSnapshot? || s.handler.CopyRegisters? || s.handler.CopyStack? ||
    s.handler.RecordSubmitter? || s.handler.AdvanceWrite?
  }

  /** The handler has moved writeIndex on, but not yet published the slot it filled. */
  predicate Publishing(s: Ring) { s.handler.ClearProcess? || s.handler.Publish? }

  predicate Clearing(s: Ring) { s.watchdog.ClearRequest? || s.watchdog.ClearSnapshot? || s.watchdog.StoreProcess? }

  predicate Taken(s: Ring) { s.watchdog.Stamp? || s.watchdog.Unwind? }

  function Bit(b: bool): nat { if b then 1 else 0 }

  function Head(s: Ring): nat
    requires s.readIndex < 2
  {
    if Taken(s) then 1 - s.readIndex else s.readIndex
  }

  function Unlisted(s: Ring): int { |s.published| - |s.listed| }

  predicate Indices(s: Ring)
    requires Shape(s)
  {
    var n := Unlisted(s) + Bit(Publishing(s));
    && 0 <= Unlisted(s) && n + Bit(Clearing(s)) <= 2
    && s.writeIndex == (if n == 1 then 1 - Head(s) else Head(s))
  }

  predicate Slots(s: Ring)
    requires Shape(s) && Indices(s)
  {
    var n, h, l := Unlisted(s), Head(s), |s.listed|;
    // published, not yet listed
    && (n >= 1 ==> Holds(s.slots[h], s.published[l]))
    && (n >= 2 ==> Holds(s.slots[1 - h], s.published[l + 1]))
    // a slot that holds nothing published and is not being cleared has no snapshot time
    && (n == 0 ==> s.slots[h].snapshotTime == 0)
    && (n < 2 && !Clearing(s) ==> s.slots[1 - h].snapshotTime == 0)
    // and no request either, unless the request is the current one
    && (n == 0 && !Clearing(s) && !Publishing(s) ==> s.slots[1 - h].requestTime == 0)
    // the slot the handler is about to publish, and the slot the watchdog is clearing
    && (Publishing(s) ==>
          && s.handler.i == (if n == 0 then h else 1 - h)
          && Requested(s.slots[s.handler.i]) && s.slots[s.handler.i].content == Full(s.captures))
    && (s.handler.Publish? ==> s.slots[s.handler.i].processTime == 0)
    && (Clearing(s) ==> s.watchdog.i == 1 - h)
  }

  /** At most one request is under way, and it is for slot writeIndex. */
  predicate Request(s: Ring)
    requires Shape(s)
  {
    var w := s.slots[s.writeIndex];
    && !s.handler.GuardProcess?
    && s.pending + Bit(Capturing(s)) <= 1
    && (s.pending > 0 || Capturing(s) ==> Requested(w))
    && (Capturing(s) ==> s.handler.i == s.writeIndex)
    && (s.handler.CopyStack? ==> w.content == Partial(s.captures))
    && (s.handler.RecordSubmitter? || s.handler.AdvanceWrite? ==> w.content == Full(s.captures))
  }

  /** What the watchdog thread may rely on at each program point. */
  predicate WatchdogView(s: Ring)
    requires Shape(s) && Indices(s)
  {
    var n := Unlisted(s);
    match s.watchdog
    case Idle => true
    case Drain => true
    case LoadRequest(i) => i != s.writeIndex ==> s.slots[i].requestTime > 0
    case LoadSnapshot(i) => s.slots[i].requestTime > 0
    case LoadProcess(i) => s.slots[i].requestTime > 0 && s.slots[i].snapshotTime > 0
    case StoreRequest(i) => i == s.writeIndex && s.slots[i].requestTime == 0 && s.pending == 0 && !Capturing(s)
    case QueueSignal(i) => i == s.writeIndex && Requested(s.slots[i]) && s.pending == 0 && !Capturing(s)
    case ReadRequest(i) => i == s.readIndex
    case ReadSnapshot(i) => i == s.readIndex && s.slots[i].requestTime > 0
    case AdvanceRead(i) => i == s.readIndex && n > 0
    case Stamp(i) => i == Head(s) && n > 0
    case Unwind(i, time) => i == Head(s) && n > 0 && time == s.published[|s.listed|].snapshotTime
    case ClearRequest(i) => s.slots[i].snapshotTime > 0 && s.slots[i].processTime == 0 && s.slots[i].requestTime > 0
    case ClearSnapshot(i) => s.slots[i].snapshotTime > 0 && s.slots[i].requestTime == 0
    case StoreProcess(i) => s.slots[i].requestTime == 0 && s.slots[i].snapshotTime == 0
  }

  /** Listed stacks are a prefix of the published ones; each came whole from its own capture. */
  ghost predicate Histories(s: Ring) {
    && s.listed <= s.published
    && (forall k :: 0 <= k < |s.published| ==> s.published[k].content.Full?)
    && (forall j, k :: 0 <= j < k < |s.published| ==> s.published[j].content.capture < s.published[k].content.capture)
    && (|s.published| > 0 ==> s.published[|s.published| - 1].content.capture + Bit(!s.handler.Off?) <= s.captures)
  }

  ghost predicate Submitters(s: Ring) {
    var recorded := |s.published| + Bit(s.handler.AdvanceWrite? || Publishing(s));
    && |s.ids| == (if !s.recording then 0 else if recorded < s.capacity then recorded else s.capacity)
    && (forall k :: 0 <= k < |s.ids| && k < |s.published| ==> s.published[k].content == Full(s.ids[k].capture))
    && (|s.published| < |s.ids| ==> s.ids[|s.published|].capture == s.captures)
  }

  predicate Core(s: Ring) {
    Shape(s) && Indices(s) && Slots(s) && Request(s) && WatchdogView(s)
  }

  ghost predicate Inv(s: Ring) {
    Core(s) && Histories(s) && Submitters(s)
  }

  lemma StartHasInv(i: nat, recording: bool, capacity: nat)
    requires i < 2
    ensures Inv(Start(i, i, recording, capacity))
  {
  }

  // Every step keeps the invariant; the cases follow the program points.

  lemma WriteCheckKeepsCore(s: Ring, now: nat)
    requires Core(s) && (s.watchdog.Idle? || s.watchdog.LoadRequest?)
    ensures Core(WatchdogStep(s, now))
  {
  }

  lemma SnapshotCheckKeepsCore(s: Ring, now: nat)
    requires Core(s) && s.watchdog.LoadSnapshot?
    ensures Core(WatchdogStep(s, now))
  {
  }

  lemma RequestKeepsCore(s: Ring, now: nat)
    requires Core(s) && now > 0 && (s.watchdog.LoadProcess? || s.watchdog.StoreRequest?)
    ensures Core(WatchdogStep(s, now))
  {
  }

  lemma QueueKeepsCore(s: Ring, now: nat)
    requires Core(s) && s.watchdog.QueueSignal?
    ensures Core(WatchdogStep(s, now)) && Core(Apply(s, SignalFails))
  {
  }

  lemma ReadCheckKeepsCore(s: Ring, now: nat)
    requires Core(s) && (s.watchdog.Drain? || s.watchdog.ReadRequest?)
    ensures Core(WatchdogStep(s, now))
  {
  }

  lemma ReadSnapshotKeepsCore(s: Ring, now: nat)
    requires Core(s) && s.watchdog.ReadSnapshot?
    ensures Core(WatchdogStep(s, now))
  {
  }

  lemma TakeKeepsCore(s: Ring, now: nat)
    requires Core(s) && (s.watchdog.AdvanceRead? || s.watchdog.Stamp? || s.watchdog.Unwind?)
    ensures Core(WatchdogStep(s, now))
  {
  }

  lemma ClearRequestKeepsCore(s: Ring, now: nat)
    requires Core(s) && s.watchdog.ClearRequest?
    ensures Core(WatchdogStep(s, now))
  {
  }

  lemma ClearSnapshotKeepsCore(s: Ring, now: nat)
    requires Core(s) && s.watchdog.ClearSnapshot?
    ensures Core(WatchdogStep(s, now))
  {
  }

  lemma StoreProcessKeepsCore(s: Ring, now: nat)
    requires Core(s) && now > 0 && s.watchdog.StoreProcess?
    ensures Core(WatchdogStep(s, now))
  {
  }

  lemma GuardKeepsCore(s: Ring, now: nat, id: nat)
    requires Core(s) && (s.handler.GuardSnapshot? || s.handler.CopyRegisters?)
    ensures Core(HandlerStep(s, now, id))
  {
  }

  lemma CopyKeepsCore(s: Ring, now: nat, id: nat)
    requires Core(s) && (s.handler.CopyStack? || s.handler.RecordSubmitter?)
    ensures Core(HandlerStep(s, now, id))
  {
  }

  lemma AdvanceKeepsCore(s: Ring, now: nat, id: nat)
    requires Core(s) && s.handler.AdvanceWrite?
    ensures Core(HandlerStep(s, now, id))
  {
  }

  lemma PublishKeepsCore(s: Ring, now: nat, id: nat)
    requires Core(s) && now > 0 && s.handler.Publish?
    ensures Core(HandlerStep(s, now, id))
  {
  }

  lemma ClearProcessKeepsCore(s: Ring, now: nat, id: nat)
    requires Core(s) && s.handler.ClearProcess?
    ensures Core(HandlerStep(s, now, id))
  {
  }

  lemma SignalKeepsCore(s: Ring)
    requires Core(s) && Enabled(s, SignalArrives)
    ensures Core(Apply(s, SignalArrives))
  {
  }

  lemma BailKeepsCore(s: Ring)
    requires Core(s) && Enabled(s, HandlerBails)
    ensures Core(Apply(s, HandlerBails))
  {
  }

  lemma CollectKeepsCore(s: Ring)
    requires Core(s) && Enabled(s, CollectBegins)
    ensures Core(Apply(s, CollectBegins))
  {
  }

  lemma StepKeepsCore(s: Ring, a: Action)
    requires Core(s) && Enabled(s, a)
    ensures Core(Apply(s, a))
  {
    match a {
      case WatchdogRuns(now) =>
        if s.watchdog.Idle? || s.watchdog.LoadRequest? {
          WriteCheckKeepsCore(s, now);
        } else if s.watchdog.LoadSnapshot? {
          SnapshotCheckKeepsCore(s, now);
        } else if s.watchdog.LoadProcess? || s.watchdog.StoreRequest? {
          RequestKeepsCore(s, now);
        } else if s.watchdog.QueueSignal? {
          QueueKeepsCore(s, now);
        } else if s.watchdog.Drain? || s.watchdog.ReadRequest? {
          ReadCheckKeepsCore(s, now);
        } else if s.watchdog.ReadSnapshot? {
          ReadSnapshotKeepsCore(s, now);
        } else if s.watchdog.ClearRequest? {
          ClearRequestKeepsCore(s, now);
        } else if s.watchdog.ClearSnapshot? {
          ClearSnapshotKeepsCore(s, now);
        } else if s.watchdog.StoreProcess? {
          StoreProcessKeepsCore(s, now);
        } else {
          TakeKeepsCore(s, now);
        }
      case SignalFails => QueueKeepsCore(s, 1);
      case HandlerRuns(now, id) =>
        if s.handler.GuardSnapshot? || s.handler.CopyRegisters? {
          GuardKeepsCore(s, now, id);
        } else if s.handler.AdvanceWrite? {
          AdvanceKeepsCore(s, now, id);
        } else if s.handler.ClearProcess? {
          ClearProcessKeepsCore(s, now, id);
        } else if s.handler.Publish? {
          PublishKeepsCore(s, now, id);
        } else {
          CopyKeepsCore(s, now, id);
        }
      case SignalArrives => SignalKeepsCore(s);
      case HandlerBails => BailKeepsCore(s);
      case CollectBegins => CollectKeepsCore(s);
    }
  }

  predicate Lists(s: Ring, a: Action) { a.WatchdogRuns? && s.watchdog.Unwind? }

  predicate Publishes(s: Ring, a: Action) { a.HandlerRuns? && s.handler.Publish? }

  predicate Records(s: Ring, a: Action) { a.HandlerRuns? && s.handler.RecordSubmitter? }

  /** Only three kinds of step touch the histories. */
  lemma QuietStep(s: Ring, a: Action)
    requires Enabled(s, a)
    ensures var t := Apply(s, a);
      && t.recording == s.recording && t.capacity == s.capacity
      && (!Publishes(s, a) ==> t.published == s.published)
      && (!Lists(s, a) ==> t.listed == s.listed)
      && (!Records(s, a) ==> t.ids == s.ids)
      && t.captures == s.captures + Bit(a.SignalArrives?)
      && (s.handler.Off? && !a.SignalArrives? ==> t.handler.Off?)
  {
  }

  lemma ListingKeepsHistories(s: Ring, now: nat)
    requires Core(s) && Histories(s) && s.watchdog.Unwind?
    ensures Histories(WatchdogStep(s, now)) && s.listed <= WatchdogStep(s, now).listed
  {
    var t := WatchdogStep(s, now);
    assert t.listed[|s.listed|] == s.published[|s.listed|];
  }

  lemma PublishingKeepsHistories(s: Ring, now: nat, id: nat)
    requires Core(s) && Histories(s) && s.handler.Publish?
    ensures Histories(HandlerStep(s, now, id)) && s.published <= HandlerStep(s, now, id).published
  {
  }

  lemma StepKeepsHistories(s: Ring, a: Action)
    requires Core(s) && Histories(s) && Enabled(s, a)
    ensures Histories(Apply(s, a))
    ensures s.published <= Apply(s, a).published && s.listed <= Apply(s, a).listed
  {
    QuietStep(s, a);
    if Lists(s, a) {
      ListingKeepsHistories(s, a.now);
    } else if Publishes(s, a) {
      PublishingKeepsHistories(s, a.now, a.id);
    }
  }

  lemma HandlerKeepsSubmitters(s: Ring, now: nat, id: nat)
    requires Core(s) && Histories(s) && Submitters(s) && !s.handler.Off?
    ensures Submitters(HandlerStep(s, now, id))
  {
  }

  lemma StepKeepsSubmitters(s: Ring, a: Action)
    requires Core(s) && Histories(s) && Submitters(s) && Enabled(s, a)
    ensures Submitters(Apply(s, a))
  {
    if a.HandlerRuns? {
      HandlerKeepsSubmitters(s, a.now, a.id);
    } else {
      QuietStep(s, a);
      OthersKeepHandler(s, a);
    }
  }

  /** Between two steps of its own the handler is stopped only by a signal or a bail-out. */
  lemma OthersKeepHandler(s: Ring, a: Action)
    requires Enabled(s, a) && !a.HandlerRuns?
    ensures !a.SignalArrives? && !a.HandlerBails? ==> Apply(s, a).handler == s.handler
  {
  }

  lemma StepKeepsInv(s: Ring, a: Action)
    requires Inv(s) && Enabled(s, a)
    ensures Inv(Apply(s, a))
  {
    StepKeepsCore(s, a);
    StepKeepsHistories(s, a);
    StepKeepsSubmitters(s, a);
  }
}
