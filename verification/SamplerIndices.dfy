/** Deinit leaves the two indices where they are and cancels no signal, so a session may start with
    the indices apart or with a signal that nobody in it asked for.  Listing in publication order is
    then lost: it holds exactly when the indices start equal and no signal is left over. */
module SamplerIndices {
  import opened SamplerRing
  import opened SamplerSessions

  // Stretches of a run in which the two threads take turns ----------------------------------

  lemma Go(s: Ring, t: Ring, a: Action) returns (u: Ring)
    requires Reaches(s, t) && Enabled(t, a)
    ensures u == Apply(t, a) && Reaches(s, u)
  {
    u := Apply(t, a);
    ReachesStep(s, t, a);
  }

  /** A request for an unrequested slot, and its signal. */
  lemma RequestOnce(s: Ring, t: Ring) returns (u: Ring)
    requires Reaches(s, t) && Shape(t) && t.watchdog.Idle? && t.slots[t.writeIndex].requestTime == 0
    ensures Reaches(s, u)
    ensures var i := t.writeIndex;
      u == t.(slots := t.slots[i := t.slots[i].(requestTime := 1)], pending := t.pending + 1, watchdog := Drain)
  {
    u := Go(s, t, WatchdogRuns(1));
    u := Go(s, u, WatchdogRuns(1));
    u := Go(s, u, WatchdogRuns(1));
    u := Go(s, u, WatchdogRuns(1));
  }

  /** The signal arrives and passes the handler's guard. */
  lemma SignalOnce(s: Ring, t: Ring) returns (u: Ring)
    requires Reaches(s, t) && Shape(t) && t.handler.Off? && t.pending > 0
    requires t.slots[t.writeIndex].snapshotTime == 0 || t.slots[t.writeIndex].processTime > 0
    ensures Reaches(s, u)
    ensures u == t.(pending := t.pending - 1, captures := t.captures + 1, handler := CopyRegisters(t.writeIndex))
  {
    u := Go(s, t, SignalArrives);
    u := Go(s, u, HandlerRuns(1, 0));
    if u.handler.GuardProcess? {
      u := Go(s, u, HandlerRuns(1, 0));
    }
  }

  lemma FillOnce(s: Ring, t: Ring) returns (u: Ring)
    requires Reaches(s, t) && Shape(t) && t.handler == CopyRegisters(t.writeIndex)
    ensures Reaches(s, u)
    ensures var i := t.writeIndex;
      u == t.(slots := t.slots[i := t.slots[i].(content := Full(t.captures))], ids := u.ids, handler := AdvanceWrite(i))
  {
    u := Go(s, t, HandlerRuns(1, 0));
    u := Go(s, u, HandlerRuns(1, 0));
    u := Go(s, u, HandlerRuns(1, 0));
  }

  lemma PublishOnce(s: Ring, t: Ring) returns (u: Ring)
    requires Reaches(s, t) && Shape(t) && t.handler == AdvanceWrite(t.writeIndex)
    ensures Reaches(s, u)
    ensures var i := t.writeIndex; var slot := t.slots[i];
      u == t.(slots := t.slots[i := slot.(snapshotTime := 1, processTime := 0)], writeIndex := 1 - i, handler := Off,
              published := t.published + [Stack(slot.content, 1)])
  {
    var i := t.writeIndex;
    u := Go(s, t, HandlerRuns(1, 0));
    assert u == t.(writeIndex := 1 - i, handler := ClearProcess(i));
    u := Go(s, u, HandlerRuns(1, 0));
    assert u.handler == Publish(i) && u.slots == t.slots[i := t.slots[i].(processTime := 0)];
    u := Go(s, u, HandlerRuns(1, 0));
  }

  /** The stack of capture n, published at time 1. */
  function Captured(n: nat): Stack { Stack(Full(n), 1) }

  /** The signal arrives and the handler captures, undisturbed. */
  lemma CaptureOnce(s: Ring, t: Ring) returns (u: Ring)
    requires Reaches(s, t) && Shape(t) && t.handler.Off? && t.pending > 0
    requires t.slots[t.writeIndex].snapshotTime == 0 || t.slots[t.writeIndex].processTime > 0
    ensures Reaches(s, u)
    ensures var i, n := t.writeIndex, t.captures + 1;
      u == t.(slots := t.slots[i := Slot(t.slots[i].requestTime, 1, 0, Full(n))], writeIndex := 1 - i,
              pending := t.pending - 1, captures := n, ids := u.ids, published := t.published + [Captured(n)])
  {
    var i, n := t.writeIndex, t.captures + 1;
    var a := SignalOnce(s, t);
    var b := FillOnce(s, a);
    assert b.slots == t.slots[i := t.slots[i].(content := Full(n))] && b.writeIndex == i;
    u := PublishOnce(s, b);
    assert u.slots == t.slots[i := Slot(t.slots[i].requestTime, 1, 0, Full(n))];
  }

  /** The drain loop finds nothing to take in slot readIndex. */
  lemma GiveUpOnce(s: Ring, t: Ring) returns (u: Ring)
    requires Reaches(s, t) && Shape(t) && t.watchdog.Drain?
    requires t.slots[t.readIndex].requestTime == 0 || t.slots[t.readIndex].snapshotTime == 0
    ensures Reaches(s, u) && u == t.(watchdog := Idle)
  {
    u := Go(s, t, WatchdogRuns(1));
    u := Go(s, u, WatchdogRuns(1));
    if !u.watchdog.Idle? {
      u := Go(s, u, WatchdogRuns(1));
    }
  }

  /** Slot readIndex is ready to be taken. */
  predicate Takeable(t: Ring) {
    && Shape(t) && t.watchdog.Drain?
    && t.slots[t.readIndex].requestTime > 0 && t.slots[t.readIndex].snapshotTime > 0
  }

  lemma LookOnce(s: Ring, t: Ring) returns (u: Ring)
    requires Reaches(s, t) && Takeable(t)
    ensures Reaches(s, u) && u == t.(watchdog := AdvanceRead(t.readIndex))
  {
    u := Go(s, t, WatchdogRuns(1));
    u := Go(s, u, WatchdogRuns(1));
    u := Go(s, u, WatchdogRuns(1));
  }

  lemma TakeOnce(s: Ring, t: Ring) returns (u: Ring)
    requires Reaches(s, t) && Takeable(t)
    ensures Reaches(s, u) && u == t.(watchdog := Stamp(t.readIndex), readIndex := 1 - t.readIndex)
  {
    u := LookOnce(s, t);
    u := Go(s, u, WatchdogRuns(1));
  }

  lemma UnwindOnce(s: Ring, t: Ring) returns (u: Ring)
    requires Reaches(s, t) && Shape(t) && t.watchdog.Stamp?
    ensures Reaches(s, u)
    ensures var i := t.watchdog.i; var slot := t.slots[i];
      u == t.(listed := t.listed + [Stack(slot.content, slot.snapshotTime)], watchdog := ClearRequest(i))
  {
    u := Go(s, t, WatchdogRuns(1));
    u := Go(s, u, WatchdogRuns(1));
  }

  lemma ClearOnce(s: Ring, t: Ring) returns (u: Ring)
    requires Reaches(s, t) && Shape(t) && t.watchdog.ClearRequest?
    ensures Reaches(s, u)
    ensures var i := t.watchdog.i;
      u == t.(slots := t.slots[i := t.slots[i].(requestTime := 0, snapshotTime := 0)], watchdog := StoreProcess(i))
  {
    u := Go(s, t, WatchdogRuns(1));
    u := Go(s, u, WatchdogRuns(1));
  }

  /** The drain loop takes and lists the stack in slot readIndex, and stops before its last store. */
  lemma ListOnce(s: Ring, t: Ring) returns (u: Ring)
    requires Reaches(s, t) && Takeable(t)
    ensures Reaches(s, u)
    ensures var i := t.readIndex; var slot := t.slots[i];
      u == t.(slots := t.slots[i := slot.(requestTime := 0, snapshotTime := 0)], readIndex := 1 - i,
              listed := t.listed + [Stack(slot.content, slot.snapshotTime)], watchdog := StoreProcess(i))
  {
    u := TakeOnce(s, t);
    u := UnwindOnce(s, u);
    u := ClearOnce(s, u);
  }

  lemma FinishOnce(s: Ring, t: Ring) returns (u: Ring)
    requires Reaches(s, t) && Shape(t) && t.watchdog.StoreProcess?
    ensures Reaches(s, u)
    ensures var i := t.watchdog.i; u == t.(slots := t.slots[i := t.slots[i].(processTime := 1)], watchdog := Drain)
  {
    u := Go(s, t, WatchdogRuns(1));
  }

  // Indices apart ---------------------------------------------------------------------------

  /** With the indices apart, the second capture is listed first. */
  lemma ApartListsOutOfOrder(readIndex: nat, pending: nat, recording: bool, capacity: nat) returns (u: Ring)
    requires readIndex < 2
    ensures Reaches(Inherit(readIndex, 1 - readIndex, pending, recording, capacity), u) && !(u.listed <= u.published)
  {
    var s := Inherit(readIndex, 1 - readIndex, pending, recording, capacity);
    ReachesSelf(s);
    u := RequestOnce(s, s);
    u := CaptureOnce(s, u);
    u := GiveUpOnce(s, u);
    u := RequestOnce(s, u);
    u := CaptureOnce(s, u);
    u := ListOnce(s, u);
    assert u.listed[0] == Captured(2) && u.published[0] == Captured(1);
  }

  // A signal left over ----------------------------------------------------------------------

  /** The ring with slot i holding `a` and the other one `b`, and no handler running. */
  predicate At(u: Ring, i: nat, a: Slot, b: Slot, writeIndex: nat, readIndex: nat, watchdog: WatchdogPc) {
    && i < 2 && Shape(u) && u.slots[i] == a && u.slots[1 - i] == b && u.handler.Off?
    && u.writeIndex == writeIndex && u.readIndex == readIndex && u.watchdog == watchdog
  }

  predicate Has(u: Ring, pending: nat, captures: nat, published: seq<Stack>, listed: seq<Stack>) {
    u.pending == pending && u.captures == captures && u.published == published && u.listed == listed
  }

  /** Capture 1 comes after the first drain, so that two signals are queued while it is listed. */
  lemma TwoSignals(s: Ring, i: nat, p: nat) returns (u: Ring)
    requires i < 2 && s == Inherit(i, i, p, s.recording, s.capacity) && p > 0
    ensures Reaches(s, u) && Has(u, p + 1, 1, [Captured(1)], [Captured(1)])
    ensures At(u, i, Slot(0, 0, 0, Full(1)), Slot(1, 0, 0, Blank), 1 - i, 1 - i, StoreProcess(i))
  {
    ReachesSelf(s);
    u := RequestOnce(s, s);
    u := GiveUpOnce(s, u);
    u := CaptureOnce(s, u);
    assert At(u, i, Slot(1, 1, 0, Full(1)), EMPTY_SLOT, 1 - i, i, Idle) && Has(u, p, 1, [Captured(1)], []);
    u := RequestOnce(s, u);
    u := ListOnce(s, u);
  }

  /** Captures 2 and 3 both land before the last store to slot i, which then marks 3 as processed. */
  lemma LateStore(s: Ring, t: Ring, i: nat, p: nat) returns (u: Ring)
    requires i < 2 && Reaches(s, t) && p > 0 && Has(t, p + 1, 1, [Captured(1)], [Captured(1)])
    requires At(t, i, Slot(0, 0, 0, Full(1)), Slot(1, 0, 0, Blank), 1 - i, 1 - i, StoreProcess(i))
    ensures Reaches(s, u) && Has(u, p - 1, 3, [Captured(1), Captured(2), Captured(3)], [Captured(1)])
    ensures At(u, i, Slot(0, 1, 1, Full(3)), Slot(1, 1, 0, Full(2)), 1 - i, 1 - i, Drain)
  {
    u := CaptureOnce(s, t);
    assert At(u, i, Slot(0, 0, 0, Full(1)), Slot(1, 1, 0, Full(2)), i, 1 - i, StoreProcess(i));
    u := CaptureOnce(s, u);
    assert At(u, i, Slot(0, 1, 0, Full(3)), Slot(1, 1, 0, Full(2)), 1 - i, 1 - i, StoreProcess(i));
    u := FinishOnce(s, u);
  }

  /** Stack 2 is listed, and capture 4 fills its slot; stack 3 is not taken, for want of a request. */
  lemma FourthCapture(s: Ring, t: Ring, i: nat, p: nat) returns (u: Ring)
    requires i < 2 && Reaches(s, t) && p > 0 && Has(t, p - 1, 3, [Captured(1), Captured(2), Captured(3)], [Captured(1)])
    requires At(t, i, Slot(0, 1, 1, Full(3)), Slot(1, 1, 0, Full(2)), 1 - i, 1 - i, Drain)
    ensures Reaches(s, u) && At(u, i, Slot(0, 1, 1, Full(3)), Slot(1, 1, 0, Full(4)), i, i, Idle)
    ensures Has(u, p - 1, 4, [Captured(1), Captured(2), Captured(3), Captured(4)], [Captured(1), Captured(2)])
  {
    u := ListOnce(s, t);
    u := FinishOnce(s, u);
    u := GiveUpOnce(s, u);
    assert At(u, i, Slot(0, 1, 1, Full(3)), Slot(0, 0, 1, Full(2)), 1 - i, i, Idle);
    u := RequestOnce(s, u);
    u := CaptureOnce(s, u);
    assert At(u, i, Slot(0, 1, 1, Full(3)), Slot(1, 1, 0, Full(4)), i, i, Drain);
    u := GiveUpOnce(s, u);
  }

  /** Capture 5 overwrites stack 3, which was published and never listed. */
  lemma StrayOverwrites(index: nat, pending: nat, recording: bool, capacity: nat) returns (u: Ring)
    requires index < 2 && pending > 0
    ensures Reaches(Inherit(index, index, pending, recording, capacity), u) && !(u.listed <= u.published)
  {
    var s := Inherit(index, index, pending, recording, capacity);
    u := TwoSignals(s, index, pending);
    u := LateStore(s, u, index, pending);
    u := FourthCapture(s, u, index, pending);
    u := RequestOnce(s, u);
    u := CaptureOnce(s, u);
    u := ListOnce(s, u);
    assert u.listed[2] == Captured(5) && u.published[2] == Captured(3);
  }

  // Exactly when ----------------------------------------------------------------------------

  ghost predicate AlwaysInOrder(start: Ring) {
    forall t :: Reaches(start, t) ==> t.listed <= t.published
  }

  /** Every reachable state lists a prefix of what was published, exactly if the session starts with
      equal indices and no signal left over. */
  lemma InOrderIff(readIndex: nat, writeIndex: nat, pending: nat, recording: bool, capacity: nat)
    requires readIndex < 2 && writeIndex < 2
    ensures AlwaysInOrder(Inherit(readIndex, writeIndex, pending, recording, capacity))
            <==> readIndex == writeIndex && pending == 0
  {
    var s := Inherit(readIndex, writeIndex, pending, recording, capacity);
    if readIndex != writeIndex {
      var u := ApartListsOutOfOrder(readIndex, pending, recording, capacity);
    } else if pending > 0 {
      var u := StrayOverwrites(readIndex, pending, recording, capacity);
    } else {
      forall t | Reaches(s, t) ensures t.listed <= t.published {
        var run: seq<Ring>, actions: seq<Action> :|
          Execution(run, actions) && run[0] == s && run[|actions|] == t;
        SessionSafety(run, actions, readIndex, recording, capacity, |actions|);
      }
    }
  }

  // What a session leaves to the next one ---------------------------------------------------

  /** Between two calls the indices are apart exactly when one stack is published, or about to
      be, and not listed. */
  lemma ApartIffOneUnlisted(run: seq<Ring>, actions: seq<Action>, index: nat, recording: bool, capacity: nat, k: nat)
    requires Session(run, actions, index, recording, capacity) && k < |run| && run[k].watchdog.Idle?
    ensures run[k].readIndex != run[k].writeIndex <==> Unlisted(run[k]) + Bit(Publishing(run[k])) == 1
  {
    StartHasInv(index, recording, capacity);
    RunKeepsInv(run, actions, k);
  }

  /** A session that ends between two calls, with no handler running, and of whose undelivered signals
      `left` arrive only in the next one, leaves that one in order exactly if no signal is left and
      the number of its unlisted stacks is not one. */
  lemma NextSessionInOrderIff(run: seq<Ring>, actions: seq<Action>, index: nat, recording: bool, capacity: nat, k: nat,
                              left: nat, nextRecording: bool, nextCapacity: nat)
    requires Session(run, actions, index, recording, capacity) && k < |run|
    requires run[k].watchdog.Idle? && run[k].handler.Off? && left <= run[k].pending
    ensures Shape(run[k])
    ensures AlwaysInOrder(Inherit(run[k].readIndex, run[k].writeIndex, left, nextRecording, nextCapacity))
            <==> Unlisted(run[k]) != 1 && left == 0
  {
    SessionSafety(run, actions, index, recording, capacity, k);
    ApartIffOneUnlisted(run, actions, index, recording, capacity, k);
    InOrderIff(run[k].readIndex, run[k].writeIndex, left, nextRecording, nextCapacity);
  }

  /** A session can end with the indices apart: a request, a drain that finds nothing yet, and only
      then the capture. */
  lemma ApartReachable(index: nat, recording: bool, capacity: nat) returns (u: Ring)
    requires index < 2
    ensures Reaches(Start(index, index, recording, capacity), u)
    ensures u.watchdog.Idle? && u.handler.Off? && u.pending == 0 && u.readIndex == index && u.writeIndex == 1 - index
  {
    var s := Start(index, index, recording, capacity);
    ReachesSelf(s);
    u := RequestOnce(s, s);
    u := GiveUpOnce(s, u);
    u := CaptureOnce(s, u);
  }

  /** And with equal indices, nothing published and a signal left over: the same without the capture. */
  lemma StrayReachable(index: nat, recording: bool, capacity: nat) returns (u: Ring)
    requires index < 2
    ensures Reaches(Start(index, index, recording, capacity), u)
    ensures u.watchdog.Idle? && u.handler.Off? && u.pending == 1 && u.readIndex == u.writeIndex && u.published == []
  {
    var s := Start(index, index, recording, capacity);
    ReachesSelf(s);
    u := RequestOnce(s, s);
    u := GiveUpOnce(s, u);
  }
}
