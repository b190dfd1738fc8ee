/** The sampler object.  Its methods run on the watchdog thread; `Interrupts` stands between
    any two of their shared accesses and lets the signal handler run as far as it likes. */
module ThreadSamplerObject {
  import opened SamplerRing
  import opened SamplerSessions

  predicate Fresh(s: Ring) {
    s.readIndex < 2 && s == Start(s.readIndex, s.readIndex, s.recording, s.capacity)
  }

  /** Some session from a zeroed ring with equal indices ends in state `s`. */
  ghost predicate Reached(s: Ring) {
    exists start :: Fresh(start) && Reaches(start, s)
  }

  lemma StartReached(index: nat, recording: bool, capacity: nat)
    requires index < 2
    ensures Reached(Start(index, index, recording, capacity))
  {
    var start := Start(index, index, recording, capacity);
    ReachesSelf(start);
    assert Fresh(start);
  }

  lemma StepReached(s: Ring, a: Action)
    requires Reached(s) && Enabled(s, a)
    ensures Reached(Apply(s, a))
  {
    var start :| Fresh(start) && Reaches(start, s);
    ReachesStep(start, s, a);
  }

  lemma ReachedInv(s: Ring)
    requires Reached(s)
    ensures Inv(s)
  {
    var start :| Fresh(start) && Reaches(start, s);
    var run: seq<Ring>, actions: seq<Action> :|
      Execution(run, actions) && run[0] == start && run[|actions|] == s;
    StartHasInv(start.readIndex, start.recording, start.capacity);
    RunKeepsInv(run, actions, |actions|);
  }

  /** Stacks that can still reach the list before the next request. */
  function Work(s: Ring): int { Unlisted(s) + s.pending + Bit(!s.handler.Off?) }

  lemma WorkBound(s: Ring)
    requires Reached(s)
    ensures Shape(s) && 0 <= Unlisted(s) && 0 <= Work(s) <= 2 && s.listed <= s.published
  {
    ReachedInv(s);
  }

  /** A stack waits to be listed, a request for one is under way, or a lost request blocks the ring. */
  predicate Underway(s: Ring) { Work(s) > 0 || Wedged(s) }

  /** GetWriteContext() turns a request away only if another one is under way. */
  lemma RefusedWhenUnderway(s: Ring)
    requires Core(s) && (s.watchdog.LoadSnapshot? || s.watchdog.LoadProcess?)
    ensures Underway(s)
  {
  }

  lemma HandlerKeepsUnderway(s: Ring, a: Action)
    requires Core(s) && Enabled(s, a) && ByHandler(a) && Underway(s)
    ensures Underway(Apply(s, a))
  {
    if Wedged(s) {
      WedgedStays(s, a);
    } else if a.HandlerBails? {
      WedgesExactlyOnLoss(s, a);
    }
  }

  predicate ByHandler(a: Action) { a.SignalArrives? || a.HandlerRuns? || a.HandlerBails? }

  /** Nothing the handler does disturbs the watchdog thread's own variables. */
  lemma HandlerFrame(s: Ring, a: Action)
    requires Reached(s) && Enabled(s, a) && ByHandler(a)
    ensures var t := Apply(s, a);
      && Reached(t) && t.watchdog == s.watchdog && t.listed == s.listed
      && s.published <= t.published && Work(t) <= Work(s)
      && (Underway(s) ==> Underway(t))
  {
    ReachedInv(s);
    StepReached(s, a);
    StepKeepsHistories(s, a);
    if Underway(s) {
      HandlerKeepsUnderway(s, a);
    }
  }

  /** The control flow of Sample() and ProcessStackBuffer(). */
  predicate Follows(p: WatchdogPc, q: WatchdogPc) {
    match p
    case Idle => q.LoadRequest?
    case LoadRequest(_) => q.LoadSnapshot? || q.StoreRequest?
    case LoadSnapshot(_) => q.LoadProcess? || q.Drain?
    case LoadProcess(_) => q.Drain?
    case StoreRequest(_) => q.QueueSignal?
    case QueueSignal(_) => q.Drain?
    case Drain => q.ReadRequest?
    case ReadRequest(_) => q.ReadSnapshot? || q.Idle?
    case ReadSnapshot(_) => q.AdvanceRead? || q.Idle?
    case AdvanceRead(_) => q.Stamp?
    case Stamp(_) => q.Unwind?
    case Unwind(_, _) => q.ClearRequest?
    case ClearRequest(_) => q.ClearSnapshot?
    case ClearSnapshot(_) => q.StoreProcess?
    case StoreProcess(_) => q.Drain?
  }

  /** A slot whose requestTime is set is never requested again: LoadProcess leads to Drain. */
  lemma AccessFlow(s: Ring, now: nat)
    requires Core(s)
    ensures Follows(s.watchdog, WatchdogStep(s, now).watchdog)
  {
  }

  lemma AccessEffect(s: Ring, now: nat)
    requires Shape(s)
    ensures var t := WatchdogStep(s, now);
      && t.published == s.published && t.handler == s.handler
      && |t.listed| == |s.listed| + Bit(s.watchdog.Unwind?) && s.listed <= t.listed
      && t.pending == s.pending + Bit(s.watchdog.QueueSignal?)
  {
  }

  /** A drain loop that gives up has listed everything published. */
  lemma GivesUpWhenDone(s: Ring, now: nat)
    requires Inv(s) && (s.watchdog.ReadRequest? || s.watchdog.ReadSnapshot?) && WatchdogStep(s, now).watchdog.Idle?
    ensures s.published == s.listed
  {
  }

  /** The accesses from which SendSampleRequest() returns. */
  predicate Posts(pc: WatchdogPc) { pc.LoadSnapshot? || pc.LoadProcess? || pc.QueueSignal? }

  lemma AccessKeepsUnderway(s: Ring, now: nat)
    requires Core(s) && !s.watchdog.Unwind?
    ensures var t := WatchdogStep(s, now);
      Underway(s) || Posts(s.watchdog) ==> Underway(t)
  {
    AccessEffect(s, now);
    if s.watchdog.LoadSnapshot? || s.watchdog.LoadProcess? {
      RefusedWhenUnderway(s);
    }
    if Wedged(s) {
      WedgedWatchdog(s, now);
    }
  }

  /** One watchdog access: where control goes, and what happens to the list. */
  lemma AccessFrame(s: Ring, now: nat)
    requires Reached(s) && now > 0
    ensures Shape(s)
    ensures var t := WatchdogStep(s, now);
      && Reached(t) && Follows(s.watchdog, t.watchdog) && t.published == s.published
      && s.listed <= t.listed && |t.listed| == |s.listed| + Bit(s.watchdog.Unwind?)
      && Work(t) == Work(s) + Bit(s.watchdog.QueueSignal?) - Bit(s.watchdog.Unwind?)
      && ((s.watchdog.ReadRequest? || s.watchdog.ReadSnapshot?) && t.watchdog.Idle? ==> s.published == s.listed)
      && (!s.watchdog.Unwind? && (Underway(s) || Posts(s.watchdog)) ==> Underway(t))
  {
    WorkBound(s);
    assert Follows(s.watchdog, WatchdogStep(s, now).watchdog) by {
      ReachedInv(s);
      AccessFlow(s, now);
    }
    AccessEffect(s, now);
    StepReached(s, WatchdogRuns(now));
    if !s.watchdog.Unwind? {
      assert Underway(s) || Posts(s.watchdog) ==> Underway(WatchdogStep(s, now)) by {
        ReachedInv(s);
        AccessKeepsUnderway(s, now);
      }
    }
    if (s.watchdog.ReadRequest? || s.watchdog.ReadSnapshot?) && WatchdogStep(s, now).watchdog.Idle? {
      assert s.published == s.listed by {
        ReachedInv(s);
        GivesUpWhenDone(s, now);
      }
    }
  }

  datatype Option<T> = None | Some(value: T)

  /** A printed stack with the submitter stack printed under it, if any. */
  datatype Entry = Entry(stack: Stack, submitter: Option<SubmitterId>)

  /** `e` is the k-th listed stack, with the k-th submitter id if that was recorded and is not zero. */
  predicate Prints(e: Entry, s: Ring, k: nat) {
    && k < |s.listed| && e.stack == s.listed[k]
    && (e.submitter.Some? <==> s.recording && k < s.capacity && k < |s.ids| && s.ids[k].value != 0)
    && (e.submitter.Some? ==> e.submitter.value == s.ids[k])
  }

  predicate Paired(e: Entry) {
    e.submitter.Some? ==> e.stack.content == Full(e.submitter.value.capture)
  }

  class ThreadSampler {
    var slots: seq<Slot>
    var writeIndex: nat
    var readIndex: nat
    var submitterStackIds: seq<SubmitterId>
    var timeStampedPcsList: seq<Stack>
    const recordSubmitterStack: bool
    const submitterStackIdsMaxSize: nat
    var pendingSignals: nat
    var handlerPc: HandlerPc
    var watchdogPc: WatchdogPc
    var captures: nat
    ghost var published: seq<Stack>

    ghost function View(): Ring
      reads this
    {
      Ring(slots, writeIndex, readIndex, watchdogPc, handlerPc, pendingSignals, captures, recordSubmitterStack,
           submitterStackIdsMaxSize, submitterStackIds, published, timeStampedPcsList)
    }

    /** Init() over a freshly mapped buffer; the indices and the undelivered signals are whatever the
        last session left. */
    constructor (readIndex: nat, writeIndex: nat, pending: nat, recording: bool, collectStackCount: nat)
      requires readIndex < 2 && writeIndex < 2
      ensures View() == Inherit(readIndex, writeIndex, pending, recording, collectStackCount)
      ensures readIndex == writeIndex && pending == 0 ==> Reached(View())
    {
      slots := [EMPTY_SLOT, EMPTY_SLOT];
      this.readIndex, this.writeIndex := readIndex, writeIndex;
      submitterStackIds, timeStampedPcsList, published := [], [], [];
      recordSubmitterStack, submitterStackIdsMaxSize := recording, collectStackCount;
      pendingSignals, handlerPc, watchdogPc, captures := pending, Off, Idle, 0;
      new;
      if readIndex == writeIndex && pending == 0 {
        StartReached(readIndex, recording, collectStackCount);
      }
    }

    /** WriteContext(), one access. */
    method HandlerAccess(now: nat, id: nat)
      requires Shape(View()) && handlerPc != Off
      modifies this
      ensures View() == HandlerStep(old(View()), now, id)
    {
      var i := handlerPc.i;
      match handlerPc {
        case GuardSnapshot(_) =>
          handlerPc := if slots[i].snapshotTime > 0 then GuardProcess(i) else CopyRegisters(i);
        case GuardProcess(_) =>
          handlerPc := if slots[i].processTime == 0 then Off else CopyRegisters(i);
        case CopyRegisters(_) =>
          slots, handlerPc := slots[i := slots[i].(content := Partial(captures))], CopyStack(i);
        case CopyStack(_) =>
          slots, handlerPc := slots[i := slots[i].(content := Full(captures))], RecordSubmitter(i);
        case RecordSubmitter(_) =>
          if recordSubmitterStack && |submitterStackIds| < submitterStackIdsMaxSize {
            submitterStackIds := submitterStackIds + [SubmitterId(captures, id)];
          }
          handlerPc := AdvanceWrite(i);
        case AdvanceWrite(_) =>
          writeIndex, handlerPc := (i + 1) % 2, ClearProcess(i);
        case ClearProcess(_) =>
          slots, handlerPc := slots[i := slots[i].(processTime := 0)], Publish(i);
        case Publish(_) =>
          published := published + [Stack(slots[i].content, now)];
          slots, handlerPc := slots[i := slots[i].(snapshotTime := now)], Off;
      }
    }

    /** At most one delivery, handler access or bail-out, at any clock reading. */
    method Interrupt()
      requires Reached(View())
      modifies this
      ensures Reached(View())
      ensures watchdogPc == old(watchdogPc) && timeStampedPcsList == old(timeStampedPcsList)
      ensures old(published) <= published && Work(View()) <= old(Work(View()))
      ensures old(Underway(View())) ==> Underway(View())
    {
      ghost var s := View();
      WorkBound(s);
      var now: nat, id: nat, bails: bool := *, *, *;
      if handlerPc == Off && pendingSignals > 0 {
        HandlerFrame(s, SignalArrives);
        pendingSignals, captures, handlerPc := pendingSignals - 1, captures + 1, GuardSnapshot(writeIndex);
      } else if handlerPc.CopyStack? && bails {
        HandlerFrame(s, HandlerBails);
        handlerPc := Off;
      } else if handlerPc != Off {
        HandlerFrame(s, HandlerRuns(now + 1, id));
        HandlerAccess(now + 1, id);
      }
    }

    method Interrupts()
      requires Reached(View())
      modifies this
      ensures Reached(View())
      ensures watchdogPc == old(watchdogPc) && timeStampedPcsList == old(timeStampedPcsList)
      ensures old(published) <= published && Work(View()) <= old(Work(View()))
      ensures old(Underway(View())) ==> Underway(View())
    {
      var steps: nat := *;
      while steps > 0
        invariant Reached(View())
        invariant watchdogPc == old(watchdogPc) && timeStampedPcsList == old(timeStampedPcsList)
        invariant old(published) <= published && Work(View()) <= old(Work(View()))
        invariant old(Underway(View())) ==> Underway(View())
      {
        Interrupt();
        steps := steps - 1;
      }
    }

    /** Sample() and ProcessStackBuffer(), one access. */
    method WatchdogAccess(now: nat)
      requires Shape(View())
      modifies this
      ensures View() == WatchdogStep(old(View()), now)
    {
      match watchdogPc {
        case Idle => watchdogPc := LoadRequest(writeIndex);
        case LoadRequest(i) =>
          watchdogPc := if slots[i].requestTime > 0 then LoadSnapshot(i) else StoreRequest(i);
        case LoadSnapshot(i) => watchdogPc := if slots[i].snapshotTime == 0 then Drain else LoadProcess(i);
        case LoadProcess(i) => watchdogPc := if slots[i].processTime == 0 then Drain else StoreRequest(i);
        case StoreRequest(i) =>
          slots, watchdogPc := slots[i := slots[i].(requestTime := now)], QueueSignal(i);
        case QueueSignal(i) => pendingSignals, watchdogPc := pendingSignals + 1, Drain;
        case Drain => watchdogPc := ReadRequest(readIndex);
        case ReadRequest(i) => watchdogPc := if slots[i].requestTime == 0 then Idle else ReadSnapshot(i);
        case ReadSnapshot(i) => watchdogPc := if slots[i].snapshotTime == 0 then Idle else AdvanceRead(i);
        case AdvanceRead(i) => readIndex, watchdogPc := (i + 1) % 2, Stamp(i);
        case Stamp(i) => watchdogPc := Unwind(i, slots[i].snapshotTime);
        case Unwind(i, time) =>
          timeStampedPcsList := timeStampedPcsList + [Stack(slots[i].content, time)];
          watchdogPc := ClearRequest(i);
        case ClearRequest(i) => slots, watchdogPc := slots[i := slots[i].(requestTime := 0)], ClearSnapshot(i);
        case ClearSnapshot(i) => slots, watchdogPc := slots[i := slots[i].(snapshotTime := 0)], StoreProcess(i);
        case StoreProcess(i) => slots, watchdogPc := slots[i := slots[i].(processTime := now)], Drain;
      }
    }

    /** One access of the watchdog thread, and whatever the handler does before the next one. */
    method Access(now: nat)
      requires Reached(View()) && now > 0
      modifies this
      ensures Reached(View()) && Follows(old(watchdogPc), watchdogPc)
      ensures old(published) <= published && old(timeStampedPcsList) <= timeStampedPcsList
      ensures |timeStampedPcsList| == |old(timeStampedPcsList)| + Bit(old(watchdogPc).Unwind?)
      ensures Work(View()) <= old(Work(View())) + Bit(old(watchdogPc).QueueSignal?) - Bit(old(watchdogPc).Unwind?)
      ensures (old(watchdogPc).ReadRequest? || old(watchdogPc).ReadSnapshot?) && watchdogPc.Idle?
              ==> old(published) <= timeStampedPcsList
      ensures !old(watchdogPc).Unwind? && (old(Underway(View())) || Posts(old(watchdogPc))) ==> Underway(View())
    {
      AccessFrame(View(), now);
      WatchdogAccess(now);
      Interrupts();
    }

    /** Posts a request and its signal if slot writeIndex is free; `queued` is the system call's
        answer.  Either way a request is then under way, unless one has been lost. */
    method SendSampleRequest(now: nat, queued: bool)
      requires Reached(View()) && watchdogPc == Idle && now > 0
      modifies this
      ensures Reached(View()) && watchdogPc == Drain && Underway(View())
      ensures old(published) <= published && timeStampedPcsList == old(timeStampedPcsList)
    {
      Access(now);
      while !watchdogPc.Drain? && !watchdogPc.QueueSignal?
        invariant Reached(View()) && old(published) <= published && timeStampedPcsList == old(timeStampedPcsList)
        invariant Requesting(watchdogPc) > 0 && (watchdogPc.Drain? ==> Underway(View()))
        decreases Requesting(watchdogPc)
      {
        Access(now);
      }
      if watchdogPc.QueueSignal? {
        if queued {
          Access(now);
        } else {
          LostRequest(View());
          watchdogPc := Drain;
        }
      }
    }

    /** The drain loop ends under every interleaving, after at most two stacks, and lists all
        that was published when it began. */
    method ProcessStackBuffer(now: nat)
      requires Reached(View()) && watchdogPc == Drain && now > 0
      modifies this
      ensures Reached(View()) && watchdogPc == Idle
      ensures old(timeStampedPcsList) <= timeStampedPcsList && old(published) <= timeStampedPcsList
      ensures |timeStampedPcsList| <= |old(timeStampedPcsList)| + 2
      ensures old(Underway(View())) ==> Underway(View()) || |timeStampedPcsList| > |old(timeStampedPcsList)|
    {
      WorkBound(View());
      var found := GetReadContext(now);
      while found
        invariant Reached(View()) && old(published) <= published
        invariant old(timeStampedPcsList) <= timeStampedPcsList && 0 <= Work(View())
        invariant |timeStampedPcsList| + Work(View()) <= |old(timeStampedPcsList)| + 2
        invariant old(Underway(View())) ==> Underway(View()) || |timeStampedPcsList| > |old(timeStampedPcsList)|
        invariant if found then watchdogPc.Stamp? else watchdogPc == Idle && old(published) <= timeStampedPcsList
        decreases Work(View())
      {
        ListAndClear(now);
        found := GetReadContext(now);
        WorkBound(View());
      }
    }

    /** GetReadContext(): a null result means that everything published so far is listed. */
    method GetReadContext(now: nat) returns (found: bool)
      requires Reached(View()) && watchdogPc == Drain && now > 0
      modifies this
      ensures Reached(View()) && timeStampedPcsList == old(timeStampedPcsList) && old(published) <= published
      ensures Work(View()) <= old(Work(View())) && (old(Underway(View())) ==> Underway(View()))
      ensures if found then watchdogPc.Stamp? else watchdogPc == Idle && old(published) <= timeStampedPcsList
    {
      Access(now);
      found := ReadSlot(now);
      if found {
        Access(now);
      }
    }

    /** The two loads of GetReadContext(). */
    method ReadSlot(now: nat) returns (found: bool)
      requires Reached(View()) && watchdogPc.ReadRequest? && now > 0
      modifies this
      ensures Reached(View()) && timeStampedPcsList == old(timeStampedPcsList) && old(published) <= published
      ensures Work(View()) <= old(Work(View())) && (old(Underway(View())) ==> Underway(View()))
      ensures if found then watchdogPc.AdvanceRead? else watchdogPc == Idle && old(published) <= timeStampedPcsList
    {
      Access(now);
      if watchdogPc.Idle? { return false; }
      Access(now);
      return !watchdogPc.Idle?;
    }

    /** Stamps, unwinds and lists the slot that was taken, then the three clearing stores. */
    method ListAndClear(now: nat)
      requires Reached(View()) && watchdogPc.Stamp? && now > 0
      modifies this
      ensures Reached(View()) && watchdogPc == Drain && old(published) <= published
      ensures |timeStampedPcsList| == |old(timeStampedPcsList)| + 1 && old(timeStampedPcsList) <= timeStampedPcsList
      ensures Work(View()) < old(Work(View()))
    {
      Access(now);
      Access(now);
      Access(now);
      Access(now);
      Access(now);
    }

    /** Sample(): whatever was published when it was called is listed when it returns; and it has
        listed a stack, or one is still under way, unless a request has been lost. */
    method Sample(now: nat, queued: bool)
      requires Reached(View()) && watchdogPc == Idle && now > 0
      modifies this
      ensures Reached(View()) && watchdogPc == Idle
      ensures old(timeStampedPcsList) <= timeStampedPcsList && old(published) <= timeStampedPcsList
      ensures Underway(View()) || |timeStampedPcsList| > |old(timeStampedPcsList)|
    {
      SendSampleRequest(now, queued);
      ProcessStackBuffer(now);
    }

    /** CollectStack() in the list format: drains, then formats; false if nothing is listed. */
    method CollectStack(now: nat) returns (found: bool, entries: seq<Entry>)
      requires Reached(View()) && watchdogPc == Idle && now > 0
      modifies this
      ensures Reached(View()) && old(published) <= timeStampedPcsList
      ensures found <==> timeStampedPcsList != []
      ensures |entries| == |timeStampedPcsList|
      ensures forall k :: 0 <= k < |entries| ==> Prints(entries[k], View(), k) && Paired(entries[k])
    {
      WorkBound(View());
      StepReached(View(), CollectBegins);
      watchdogPc := Drain;
      ProcessStackBuffer(now);
      if timeStampedPcsList == [] {
        return false, [];
      }
      found := true;
      entries := FormatStacks();
    }

    /** One entry per listed stack, in order, with the submitter id that the stack's own capture
        recorded, if it is in the id array and not zero. */
    method FormatStacks() returns (entries: seq<Entry>)
      requires Reached(View())
      ensures |entries| == |timeStampedPcsList|
      ensures forall k :: 0 <= k < |entries| ==> Prints(entries[k], View(), k) && Paired(entries[k])
    {
      ReachedPairing(View());
      entries := [];
      for k := 0 to |timeStampedPcsList|
        invariant |entries| == k
        invariant forall j :: 0 <= j < k ==> Prints(entries[j], View(), j) && Paired(entries[j])
      {
        var submitter := None;
        if recordSubmitterStack && k < submitterStackIdsMaxSize && submitterStackIds[k].value != 0 {
          submitter := Some(submitterStackIds[k]);
        }
        entries := entries + [Entry(timeStampedPcsList[k], submitter)];
      }
    }
  }

  /** A failed system call leaves the slot requested for good. */
  lemma LostRequest(s: Ring)
    requires Reached(s) && s.watchdog.QueueSignal?
    ensures Shape(s) && Reached(Apply(s, SignalFails)) && Wedged(Apply(s, SignalFails))
  {
    WorkBound(s);
    StepReached(s, SignalFails);
    assert Wedged(Apply(s, SignalFails)) by {
      ReachedInv(s);
      WedgesExactlyOnLoss(s, SignalFails);
    }
  }

  /** Accesses left before SendSampleRequest has decided. */
  function Requesting(pc: WatchdogPc): nat {
    match pc
    case LoadRequest(_) => 4
    case LoadSnapshot(_) => 3
    case LoadProcess(_) => 2
    case StoreRequest(_) => 2
    case Drain => 1
    case QueueSignal(_) => 1
    case _ => 0
  }

  lemma ReachedPairing(s: Ring)
    requires Reached(s)
    ensures forall k :: s.recording && 0 <= k < |s.listed| && k < s.capacity ==>
      k < |s.ids| && s.listed[k].content == Full(s.ids[k].capture)
  {
    ReachedInv(s);
  }
}
