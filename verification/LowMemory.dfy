/** The low-memory strategy: while memory has been short within the last minute, a full wait
    defers the kill, for at most a minute from the first deferral. */
module LowMemory {
  import opened Unsigned

  const LOW_MEMORY_CHECK_WINDOW := 60000
  const MAX_LOW_MEMORY_FREEZE_TIME := 60000
  const BELOW_MEM_SIZE := 512000

  datatype State = State(lastLow: nat, freeze: nat, hadSend: bool)

  /** What happens to the task: clock readings are taken one after the other within an event. */
  datatype Event =
    | Sampled(now: nat, mem: int)                   // Run() reads the available memory
    | Passes                                        // anything that leaves the strategy alone
    | Completes                                     // COMPLETED verdict
    | Waits(send: nat, status: nat, exit: nat)      // WAITING verdict, with its three clock readings

  predicate Low(s: State, now: nat) { s.lastLow != 0 && Minus(now, s.lastLow) <= LOW_MEMORY_CHECK_WINDOW }

  function AfterSend(s: State, now: nat): State { if Low(s, now) then s.(hadSend := true) else s }

  predicate SkipsExit(s: State, status: nat, exit: nat) {
    Low(s, status) && (s.freeze == 0 || Minus(exit, s.freeze) <= MAX_LOW_MEMORY_FREEZE_TIME)
  }

  function AfterExit(s: State, status: nat, exit: nat): State {
    if !Low(s, status) then s
    else if s.freeze == 0 then s.(freeze := exit)
    else if Minus(exit, s.freeze) <= MAX_LOW_MEMORY_FREEZE_TIME then s
    else s.(freeze := 0)
  }

  function Apply(s: State, e: Event): State {
    match e
    case Sampled(now, mem) => if 0 < mem <= BELOW_MEM_SIZE then s.(lastLow := now) else s
    case Passes => s
    case Completes => s.(freeze := 0, hadSend := false)
    case Waits(send, status, exit) => AfterExit(AfterSend(s, send), status, exit)
  }

  /** A full wait decides to kill unless the exit is skipped. */
  predicate Kills(s: State, e: Event) { e.Waits? && !SkipsExit(s, e.status, e.exit) }

  predicate Defers(s: State, e: Event) { e.Waits? && SkipsExit(s, e.status, e.exit) }

  /** A full wait sends SERVICE_BLOCK unless one was already sent in low memory. */
  predicate Sends(s: State, e: Event) { e.Waits? && !(Low(s, e.send) && s.hadSend) }

  // ---------------------------------------------------------------------------------------

  ghost predicate Execution(run: seq<State>, events: seq<Event>) {
    |run| == |events| + 1 &&
    forall k {:trigger events[k]} :: 0 <= k < |events| ==> run[k + 1] == Apply(run[k], events[k])
  }

  /** Event `a` is the first deferral of its kind: no deferral is on record before it. */
  ghost predicate FirstDeferral(run: seq<State>, events: seq<Event>, a: nat) {
    a < |events| && a < |run| && run[a].freeze == 0 && Defers(run[a], events[a]) && events[a].exit > 0
  }

  /** From `a` to before `b` no verdict was COMPLETED, and every full wait read the clock within a
      minute after time `first`. */
  ghost predicate WithinMinute(events: seq<Event>, a: nat, b: nat, first: nat) {
    && b <= |events|
    && (forall k :: a <= k < b ==> !events[k].Completes?)
    && (forall k :: a <= k < b && events[k].Waits? ==> first <= events[k].exit <= first + MAX_LOW_MEMORY_FREEZE_TIME)
  }

  lemma {:induction false} FreezeHolds(run: seq<State>, events: seq<Event>, a: nat, b: nat)
    requires Execution(run, events) && FirstDeferral(run, events, a) && a < b
    requires WithinMinute(events, a + 1, b, events[a].exit)
    ensures run[b].freeze == events[a].exit
    decreases b
  {
    if b > a + 1 {
      FreezeHolds(run, events, a, b - 1);
      assert run[b] == Apply(run[b - 1], events[b - 1]);
    } else {
      assert run[b] == Apply(run[a], events[a]);
    }
  }

  /** Until a minute after the first deferral a full wait is deferred exactly when memory has been
      low within the last minute; the first full wait after that minute decides to kill. */
  lemma DeferredForOneMinute(run: seq<State>, events: seq<Event>, a: nat, b: nat)
    requires Execution(run, events) && FirstDeferral(run, events, a) && a < b < |events| && events[b].Waits?
    requires WithinMinute(events, a + 1, b, events[a].exit) && events[a].exit <= events[b].exit < U64
    ensures Defers(run[b], events[b]) <==>
      Low(run[b], events[b].status) && events[b].exit - events[a].exit <= MAX_LOW_MEMORY_FREEZE_TIME
    ensures events[b].exit > events[a].exit + MAX_LOW_MEMORY_FREEZE_TIME ==> Kills(run[b], events[b])
  {
    FreezeHolds(run, events, a, b);
  }

  /** In low memory SERVICE_BLOCK is sent at most once per block. */
  lemma {:induction false} BlockSentOnce(run: seq<State>, events: seq<Event>, a: nat, b: nat)
    requires Execution(run, events) && a < b < |events| && events[a].Waits? && Low(run[a], events[a].send)
    requires forall k :: a <= k < b ==> !events[k].Completes?
    ensures run[b].hadSend && (events[b].Waits? && Low(run[b], events[b].send) ==> !Sends(run[b], events[b]))
    decreases b
  {
    assert run[b] == Apply(run[b - 1], events[b - 1]);
    if b > a + 1 {
      BlockSentOnce(run, events, a, b - 1);
    }
  }

  // What the state remembers ----------------------------------------------------------------

  /** Event j read an available memory of 1 to 512000. */
  predicate ReadsLow(events: seq<Event>, j: nat) {
    j < |events| && events[j].Sampled? && 0 < events[j].mem <= 512000
  }

  /** The low readings up to k follow a clock that starts after 0 and has not passed `now`. */
  ghost predicate Clocked(events: seq<Event>, k: nat, now: nat) {
    && (forall j :: 0 <= j < k && ReadsLow(events, j) ==> 0 < events[j].now <= now)
    && (forall i, j :: 0 <= i < j < k && ReadsLow(events, i) && ReadsLow(events, j) ==> events[i].now <= events[j].now)
  }

  lemma {:induction false} LastReading(run: seq<State>, events: seq<Event>, k: nat)
    requires Execution(run, events) && k < |run| && run[0].lastLow == 0
    ensures
      || (run[k].lastLow == 0 && forall j :: 0 <= j < k ==> !ReadsLow(events, j) || events[j].now == 0)
      || (exists i :: 0 <= i < k && ReadsLow(events, i) && events[i].now == run[k].lastLow
                      && forall j :: i < j < k ==> !ReadsLow(events, j))
    decreases k
  {
    if k > 0 {
      LastReading(run, events, k - 1);
      assert run[k] == Apply(run[k - 1], events[k - 1]);
      if ReadsLow(events, k - 1) {
        assert run[k].lastLow == events[k - 1].now;
      }
    }
  }

  /** Over every run: memory counts as low exactly if some reading of 1 to 512000 was taken within the
      last 60000 ms. */
  lemma LowIff(run: seq<State>, events: seq<Event>, k: nat, now: nat)
    requires Execution(run, events) && k < |run| && run[0].lastLow == 0 && Clocked(events, k, now) && now < U64
    ensures Low(run[k], now) <==> exists j :: 0 <= j < k && ReadsLow(events, j) && now - events[j].now <= 60000
  {
    LastReading(run, events, k);
    if i :| 0 <= i < k && ReadsLow(events, i) && events[i].now == run[k].lastLow
            && forall j :: i < j < k ==> !ReadsLow(events, j) {
      MinusExact(now, run[k].lastLow);
    }
  }

  /** Event j is a full wait in low memory. */
  predicate WaitsLow(run: seq<State>, events: seq<Event>, j: nat) {
    j < |events| && j < |run| && events[j].Waits? && Low(run[j], events[j].send)
  }

  /** Over every run: a SERVICE_BLOCK counts as sent exactly if there has been a full wait in low memory
      since the last completed verdict. */
  lemma {:induction false} HadSendIff(run: seq<State>, events: seq<Event>, k: nat)
    requires Execution(run, events) && k < |run| && !run[0].hadSend
    ensures run[k].hadSend <==>
      exists i :: 0 <= i < k && WaitsLow(run, events, i) && forall j :: i < j < k ==> !events[j].Completes?
    decreases k
  {
    if k > 0 {
      HadSendIff(run, events, k - 1);
      assert run[k] == Apply(run[k - 1], events[k - 1]);
      if events[k - 1].Waits? && Low(run[k - 1], events[k - 1].send) {
        assert WaitsLow(run, events, k - 1);
      }
    }
  }

  /** A kill that low memory can defer no longer starts over: the next full wait in low memory, with no
      other in between, is deferred again. */
  lemma {:induction false} StartsOver(run: seq<State>, events: seq<Event>, b: nat, c: nat)
    requires Execution(run, events) && b < c <= |events| && events[b].Waits?
    requires Low(run[b], events[b].status) && Kills(run[b], events[b])
    requires forall k :: b < k < c ==> !events[k].Waits?
    ensures run[c].freeze == 0
    ensures c < |events| && events[c].Waits? && Low(run[c], events[c].status) ==> Defers(run[c], events[c])
    decreases c
  {
    if c == b + 1 {
      assert run[c] == Apply(run[b], events[b]);
    } else {
      StartsOver(run, events, b, c - 1);
      assert run[c] == Apply(run[c - 1], events[c - 1]);
    }
  }
}
