/** The timer-count task: a log of trigger times, pruned after each check, that reports when
    `countLimit` triggers fall within less than `timeLimit` milliseconds. */
module TimerCount {
  import opened Unsigned

  /** The window of `count` entries that ends at position `end` is short. */
  predicate Short(log: seq<nat>, end: nat, count: nat, timeLimit: nat)
    requires 0 < count <= end <= |log|
  {
    Minus(log[end - 1], log[end - count]) < timeLimit
  }

  predicate AnyShort(log: seq<nat>, count: nat, timeLimit: nat)
    requires count > 0
  {
    exists end :: count <= end <= |log| && Short(log, end, count, timeLimit)
  }

  /** What a check that reports nothing keeps. */
  function Pruned(log: seq<nat>, count: nat): seq<nat> {
    if |log| > 2 * count then log[|log| - count..] else log
  }

  function Checked(log: seq<nat>, count: nat, timeLimit: nat): seq<nat>
    requires count > 0
  {
    if AnyShort(log, count, timeLimit) then [] else Pruned(log, count)
  }

  /** TimerCountTask(): scans the windows from the newest back, then clears or prunes. */
  method CheckTriggers(triggerTimes: seq<nat>, countLimit: nat, timeLimit: nat) returns (reported: bool, kept: seq<nat>)
    requires countLimit > 0
    ensures reported <==> AnyShort(triggerTimes, countLimit, timeLimit)
    ensures kept == Checked(triggerTimes, countLimit, timeLimit)
  {
    var size := |triggerTimes|;
    while size >= countLimit
      invariant size <= |triggerTimes|
      invariant forall end :: size < end <= |triggerTimes| && countLimit <= end ==>
        !Short(triggerTimes, end, countLimit, timeLimit)
    {
      var timeInterval := Minus(triggerTimes[size - 1], triggerTimes[size - countLimit]);
      if timeInterval < timeLimit {
        assert Short(triggerTimes, size, countLimit, timeLimit);
        return true, [];
      }
      size := size - 1;
    }
    kept := triggerTimes;
    if |triggerTimes| > countLimit * 2 {
      kept := triggerTimes[|triggerTimes| - countLimit..];
    }
    reported := false;
  }

  // ---------------------------------------------------------------------------------------
  // Whole histories.

  datatype Op = Trigger(now: nat) | Clear | Check

  /** The answers of the checks in `ops`, keeping the pruned log. */
  function Answers(log: seq<nat>, ops: seq<Op>, count: nat, timeLimit: nat): seq<bool>
    requires count > 0
    decreases |ops|
  {
    if ops == [] then [] else
      match ops[0]
      case Trigger(now) => Answers(log + [now], ops[1..], count, timeLimit)
      case Clear => Answers([], ops[1..], count, timeLimit)
      case Check =>
        [AnyShort(log, count, timeLimit)] + Answers(Checked(log, count, timeLimit), ops[1..], count, timeLimit)
  }

  /** Some `count` of the triggers span less than `timeLimit`. */
  predicate Burst(log: seq<nat>, count: nat, timeLimit: nat) {
    exists first, last :: 0 <= first <= last < |log| && last - first + 1 >= count && log[last] - log[first] < timeLimit
  }

  /** The reference: every trigger since the last report or clear is kept. */
  function ReferenceAnswers(log: seq<nat>, ops: seq<Op>, count: nat, timeLimit: nat): seq<bool>
    decreases |ops|
  {
    if ops == [] then [] else
      match ops[0]
      case Trigger(now) => ReferenceAnswers(log + [now], ops[1..], count, timeLimit)
      case Clear => ReferenceAnswers([], ops[1..], count, timeLimit)
      case Check =>
        var burst := Burst(log, count, timeLimit);
        [burst] + ReferenceAnswers(if burst then [] else log, ops[1..], count, timeLimit)
  }

  /** Triggers carry the readings of a non-decreasing 64-bit clock, none before `now`. */
  predicate Clocked(ops: seq<Op>, now: nat) {
    ops == [] ||
    if ops[0].Trigger? then now <= ops[0].now < U64 && Clocked(ops[1..], ops[0].now) else Clocked(ops[1..], now)
  }

  predicate Sorted(log: seq<nat>, now: nat) {
    && (forall i, j :: 0 <= i <= j < |log| ==> log[i] <= log[j])
    && (forall i :: 0 <= i < |log| ==> log[i] <= now) && now < U64
  }

  /** Time from the first to the last of `count` consecutive triggers. */
  function Span(log: seq<nat>, first: nat, count: nat): int
    requires 0 < count && first + count <= |log|
  {
    log[first + count - 1] as int - log[first] as int
  }

  /** `kept` is what pruning left of `full`: no short window begins before it. */
  ghost predicate Keeps(kept: seq<nat>, full: seq<nat>, count: nat, timeLimit: nat)
    requires count > 0
  {
    && |kept| <= |full| && kept == full[|full| - |kept|..]
    && (|kept| < |full| ==> count <= |kept|)
    && forall first :: 0 <= first < |full| - |kept| && first + count <= |full| ==> Span(full, first, count) >= timeLimit
  }

  lemma ShortIsBurst(kept: seq<nat>, full: seq<nat>, count: nat, timeLimit: nat, now: nat, end: nat)
    requires count > 0 && Sorted(full, now) && Keeps(kept, full, count, timeLimit)
    requires count <= end <= |kept| && Short(kept, end, count, timeLimit)
    ensures Burst(full, count, timeLimit)
  {
    var d := |full| - |kept|;
    var first, last := d + end - count, d + end - 1;
    assert full[last] == kept[end - 1] && full[first] == kept[end - count];
    MinusExact(full[last], full[first]);
  }

  /** In a sorted log a burst contains one of `count` consecutive triggers. */
  lemma NarrowBurst(full: seq<nat>, count: nat, timeLimit: nat, now: nat) returns (first: nat)
    requires count > 0 && Sorted(full, now) && Burst(full, count, timeLimit)
    ensures first + count <= |full| && Span(full, first, count) < timeLimit
  {
    var f, last :| 0 <= f <= last < |full| && last - f + 1 >= count && full[last] - full[f] < timeLimit;
    first := f;
    assert full[first + count - 1] <= full[last];
  }

  lemma BurstIsShort(kept: seq<nat>, full: seq<nat>, count: nat, timeLimit: nat, now: nat)
    requires count > 0 && Sorted(full, now) && Keeps(kept, full, count, timeLimit) && Burst(full, count, timeLimit)
    ensures AnyShort(kept, count, timeLimit)
  {
    var first := NarrowBurst(full, count, timeLimit, now);
    var d := |full| - |kept|;
    var start := first - d;
    assert 0 <= start;
    assert kept[start] == full[first] && kept[start + count - 1] == full[first + count - 1];
    MinusExact(full[first + count - 1], full[first]);
    assert Short(kept, start + count, count, timeLimit);
  }

  lemma SameVerdict(kept: seq<nat>, full: seq<nat>, count: nat, timeLimit: nat, now: nat)
    requires count > 0 && Sorted(full, now) && Keeps(kept, full, count, timeLimit)
    ensures AnyShort(kept, count, timeLimit) <==> Burst(full, count, timeLimit)
  {
    if AnyShort(kept, count, timeLimit) {
      var end :| count <= end <= |kept| && Short(kept, end, count, timeLimit);
      ShortIsBurst(kept, full, count, timeLimit, now, end);
    }
    if Burst(full, count, timeLimit) {
      BurstIsShort(kept, full, count, timeLimit, now);
    }
  }

  lemma CheckKeeps(kept: seq<nat>, full: seq<nat>, count: nat, timeLimit: nat, now: nat)
    requires count > 0 && Sorted(full, now) && Keeps(kept, full, count, timeLimit) && !Burst(full, count, timeLimit)
    ensures Keeps(Pruned(kept, count), full, count, timeLimit)
    ensures |Pruned(kept, count)| <= 2 * count
  {
    forall first | 0 <= first && first + count <= |full| ensures Span(full, first, count) >= timeLimit {
      var last := first + count - 1;
      assert full[last] - full[first] >= timeLimit;
    }
  }

  lemma TriggerKeeps(kept: seq<nat>, full: seq<nat>, count: nat, timeLimit: nat, now: nat)
    requires count > 0 && Keeps(kept, full, count, timeLimit)
    ensures Keeps(kept + [now], full + [now], count, timeLimit)
  {
    var full' := full + [now];
    forall first | 0 <= first < |full| - |kept| && first + count <= |full'|
      ensures Span(full', first, count) >= timeLimit {
      assert Span(full', first, count) == Span(full, first, count);
    }
  }

  lemma {:induction false} PruningAgreesFrom(kept: seq<nat>, full: seq<nat>, ops: seq<Op>,
                                            count: nat, timeLimit: nat, now: nat)
    requires count > 0 && Sorted(full, now) && Keeps(kept, full, count, timeLimit) && Clocked(ops, now)
    ensures Answers(kept, ops, count, timeLimit) == ReferenceAnswers(full, ops, count, timeLimit)
    decreases |ops|
  {
    if ops != [] {
      match ops[0] {
        case Trigger(t) =>
          TriggerKeeps(kept, full, count, timeLimit, t);
          PruningAgreesFrom(kept + [t], full + [t], ops[1..], count, timeLimit, t);
        case Clear => PruningAgreesFrom([], [], ops[1..], count, timeLimit, now);
        case Check =>
          SameVerdict(kept, full, count, timeLimit, now);
          if Burst(full, count, timeLimit) {
            PruningAgreesFrom([], [], ops[1..], count, timeLimit, now);
          } else {
            CheckKeeps(kept, full, count, timeLimit, now);
            PruningAgreesFrom(Pruned(kept, count), full, ops[1..], count, timeLimit, now);
          }
      }
    }
  }

  /** Over every history the pruned log gives exactly the reference's answers. */
  lemma PruningAgrees(ops: seq<Op>, count: nat, timeLimit: nat)
    requires count > 0 && Clocked(ops, 0)
    ensures Answers([], ops, count, timeLimit) == ReferenceAnswers([], ops, count, timeLimit)
  {
    PruningAgreesFrom([], [], ops, count, timeLimit, 0);
  }

  /** After any check at most `2 * count` trigger times are kept. */
  lemma CheckBoundsLog(log: seq<nat>, count: nat, timeLimit: nat)
    requires count > 0
    ensures |Checked(log, count, timeLimit)| <= 2 * count
  {
  }

  // One operation at a time ---------------------------------------------------------------

  function LogStep(log: seq<nat>, op: Op, count: nat, timeLimit: nat): seq<nat>
    requires count > 0
  {
    match op
    case Trigger(now) => log + [now]
    case Clear => []
    case Check => Checked(log, count, timeLimit)
  }

  /** The log that `ops` leave. */
  function LogAfter(log: seq<nat>, ops: seq<Op>, count: nat, timeLimit: nat): seq<nat>
    requires count > 0
    decreases |ops|
  {
    if ops == [] then log else LogAfter(LogStep(log, ops[0], count, timeLimit), ops[1..], count, timeLimit)
  }

  function AnswerTo(log: seq<nat>, op: Op, count: nat, timeLimit: nat): seq<bool>
    requires count > 0
  {
    if op.Check? then [AnyShort(log, count, timeLimit)] else []
  }

  lemma {:induction false} OneMore(log: seq<nat>, ops: seq<Op>, op: Op, count: nat, timeLimit: nat)
    requires count > 0
    ensures var last := LogAfter(log, ops, count, timeLimit);
      && LogAfter(log, ops + [op], count, timeLimit) == LogStep(last, op, count, timeLimit)
      && Answers(log, ops + [op], count, timeLimit)
         == Answers(log, ops, count, timeLimit) + AnswerTo(last, op, count, timeLimit)
    decreases |ops|
  {
    if ops != [] {
      assert (ops + [op])[1..] == ops[1..] + [op];
      OneMore(LogStep(log, ops[0], count, timeLimit), ops[1..], op, count, timeLimit);
    }
  }
}
