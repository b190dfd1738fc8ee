/** The three-entry cache of sampled stacks, against a partial map from key to stamped value. */
module SampleStackMap {
  import opened Unsigned

  const SAMPLE_STACK_MAP_MAX_SIZE := 3
  const SAMPLE_STACK_MAP_EXPIRE_MS := 120000
  const SAMPLE_STACK_MAP_VALUE_MAX_SIZE := 262144

  datatype Entry = Entry(key: string, value: string, timestamp: nat, valid: bool)

  datatype Stamped = Stamped(value: string, timestamp: nat)

  type Cache = map<string, Stamped>

  // The abstract operations ---------------------------------------------------------------

  /** By unsigned 64-bit subtraction, as everywhere. */
  predicate Expired(timestamp: nat, now: nat) { Minus(now, timestamp) > SAMPLE_STACK_MAP_EXPIRE_MS }

  function Live(m: Cache, now: nat): Cache {
    map key | key in m && !Expired(m[key].timestamp, now) :: m[key]
  }

  /** `victim` has a timestamp no later than any other. */
  predicate Oldest(m: Cache, victim: string) {
    victim in m && forall key :: key in m ==> m[victim].timestamp <= m[key].timestamp
  }

  /** `after` results from Set: replace, add, or evict some oldest binding and add. */
  ghost predicate IsSet(before: Cache, key: string, value: string, expiry: nat, now: nat, after: Cache) {
    var live := Live(before, expiry);
    if |value| > SAMPLE_STACK_MAP_VALUE_MAX_SIZE then after == before
    else if key in live || |live| < SAMPLE_STACK_MAP_MAX_SIZE then after == live[key := Stamped(value, now)]
    else exists victim :: Oldest(live, victim) && after == (live - {victim})[key := Stamped(value, now)]
  }

  // The array -----------------------------------------------------------------------------

  function Stamp(e: Entry): Stamped { Stamped(e.value, e.timestamp) }

  /** Valid entries bind distinct keys, and the map has exactly their bindings. */
  ghost predicate Represents(entries: seq<Entry>, m: Cache) {
    && |entries| == SAMPLE_STACK_MAP_MAX_SIZE
    && (forall i, j :: 0 <= i < j < |entries| && entries[i].valid && entries[j].valid ==>
          entries[i].key != entries[j].key)
    && (forall i :: 0 <= i < |entries| && entries[i].valid ==>
          entries[i].key in m && m[entries[i].key] == Stamp(entries[i]))
    && (forall key :: key in m ==> Bound(entries, key) && m[key].timestamp < U64)
  }

  predicate Bound(entries: seq<Entry>, key: string) {
    exists i :: 0 <= i < |entries| && entries[i].valid && entries[i].key == key
  }

  function KeyOf(e: Entry): set<string> { if e.valid then {e.key} else {} }

  lemma KeysAre(entries: seq<Entry>, m: Cache)
    requires Represents(entries, m)
    ensures m.Keys == KeyOf(entries[0]) + KeyOf(entries[1]) + KeyOf(entries[2])
  {
    forall key | key in m ensures key in KeyOf(entries[0]) + KeyOf(entries[1]) + KeyOf(entries[2]) {
      assert Bound(entries, key);
    }
  }

  /** The map is full exactly when every entry is valid. */
  lemma FullIffAllValid(entries: seq<Entry>, m: Cache)
    requires Represents(entries, m)
    ensures |m| <= 3 && (|m| == 3 <==> entries[0].valid && entries[1].valid && entries[2].valid)
  {
    KeysAre(entries, m);
    var a, b, c := KeyOf(entries[0]), KeyOf(entries[1]), KeyOf(entries[2]);
    assert |m| == |m.Keys| && a !! b && (a + b) !! c;
    assert |a + b| == |a| + |b| && |a + b + c| == |a + b| + |c|;
  }

  /** Storing at the entry that the scan of Set() picked is a Set of the map. */
  lemma StoreIsSet(before: Cache, expiry: nat, entries: seq<Entry>, idx: nat, e: Entry)
    requires Represents(entries, Live(before, expiry)) && idx < 3 && |e.value| <= SAMPLE_STACK_MAP_VALUE_MAX_SIZE
    requires var live := Live(before, expiry);
      && (e.key in live ==> entries[idx].valid && entries[idx].key == e.key)
      && (e.key !in live && entries[idx].valid ==>
            entries[0].valid && entries[1].valid && entries[2].valid && Oldest(live, entries[idx].key))
    ensures var live := Live(before, expiry);
      IsSet(before, e.key, e.value, expiry, e.timestamp,
            (if entries[idx].valid then live - {entries[idx].key} else live)[e.key := Stamp(e)])
  {
    var live := Live(before, expiry);
    FullIffAllValid(entries, live);
    if e.key in live {
      assert (live - {e.key})[e.key := Stamp(e)] == live[e.key := Stamp(e)];
    }
  }

  lemma ExpiryRepresents(before: seq<Entry>, m: Cache, after: seq<Entry>, now: nat)
    requires Represents(before, m) && |after| == 3
    requires forall j :: 0 <= j < 3 ==>
      after[j] == before[j].(valid := before[j].valid && !Expired(before[j].timestamp, now))
    ensures Represents(after, Live(m, now))
  {
    var live := Live(m, now);
    forall key | key in live ensures Bound(after, key) {
      assert Bound(before, key);
      var i :| 0 <= i < 3 && before[i].valid && before[i].key == key;
      assert after[i].valid && after[i].key == key;
    }
  }

  /** Storing over an entry that has this key, is free, or is given up. */
  lemma StoreRepresents(before: seq<Entry>, m: Cache, idx: nat, e: Entry)
    requires Represents(before, m) && idx < 3 && e.valid && e.timestamp < U64
    requires (before[idx].valid && before[idx].key == e.key) || e.key !in m
    ensures Represents(before[idx := e], (if before[idx].valid then m - {before[idx].key} else m)[e.key := Stamp(e)])
  {
    var m' := if before[idx].valid then m - {before[idx].key} else m;
    var cleared := before[idx := before[idx].(valid := false)];
    if before[idx].valid {
      DropRepresents(before, m, idx);
    } else {
      assert cleared == before;
    }
    assert cleared[idx := e] == before[idx := e];
    FillRepresents(cleared, m', idx, e);
  }

  /** Storing a new key in a free entry. */
  lemma FillRepresents(before: seq<Entry>, m: Cache, idx: nat, e: Entry)
    requires Represents(before, m) && idx < 3 && e.valid && e.timestamp < U64 && !before[idx].valid && e.key !in m
    ensures Represents(before[idx := e], m[e.key := Stamp(e)])
  {
    var after := before[idx := e];
    forall key | key in m[e.key := Stamp(e)] ensures Bound(after, key) {
      if key == e.key {
        assert after[idx].key == key;
      } else {
        assert Bound(before, key);
        var i :| 0 <= i < 3 && before[i].valid && before[i].key == key;
        assert after[i].valid && after[i].key == key;
      }
    }
  }

  lemma DropRepresents(before: seq<Entry>, m: Cache, idx: nat)
    requires Represents(before, m) && idx < 3 && before[idx].valid
    ensures Represents(before[idx := before[idx].(valid := false)], m - {before[idx].key})
  {
    var after := before[idx := before[idx].(valid := false)];
    forall key | key in m - {before[idx].key} ensures Bound(after, key) {
      assert Bound(before, key);
      var i :| 0 <= i < 3 && before[i].valid && before[i].key == key;
      assert after[i].valid && after[i].key == key;
    }
  }

  class SampleStackMap {
    var entries: array<Entry>
    ghost var contents: Cache

    ghost predicate Valid()
      reads this, entries
    {
      entries.Length == SAMPLE_STACK_MAP_MAX_SIZE && Represents(entries[..], contents)
    }

    constructor ()
      ensures Valid() && fresh(entries) && contents == map[]
    {
      entries := new Entry[3](_ => Entry("", "", 0, false));
      contents := map[];
    }

    method ExpireOldEntries(now: nat)
      requires Valid()
      modifies this, entries
      ensures Valid() && entries == old(entries) && contents == Live(old(contents), now)
    {
      ghost var before := entries[..];
      for i := 0 to 3
        invariant entries == old(entries) && entries.Length == 3 && contents == old(contents)
        invariant forall j :: i <= j < 3 ==> entries[j] == before[j]
        invariant forall j :: 0 <= j < i ==>
          entries[j] == before[j].(valid := before[j].valid && !Expired(before[j].timestamp, now))
      {
        if entries[i].valid && Minus(now, entries[i].timestamp) > SAMPLE_STACK_MAP_EXPIRE_MS {
          entries[i] := entries[i].(valid := false);
        }
      }
      contents := Live(contents, now);
      ExpiryRepresents(before, old(contents), entries[..], now);
    }

    /** Set(): `expiry` and `now` are the clock readings of the expiry pass and of the store. */
    method Set(key: string, value: string, expiry: nat, now: nat)
      requires Valid() && now < U64
      modifies this, entries
      ensures Valid() && entries == old(entries)
      ensures IsSet(old(contents), key, value, expiry, now, contents)
    {
      if |value| > SAMPLE_STACK_MAP_VALUE_MAX_SIZE {
        return;
      }
      ExpireOldEntries(expiry);
      var idx := Choose(key);
      ghost var live, before := contents, entries[..];
      var e := Entry(key, value, now, true);
      StoreIsSet(old(contents), expiry, before, idx, e);
      StoreRepresents(before, live, idx, e);
      contents := (if before[idx].valid then live - {before[idx].key} else live)[key := Stamp(e)];
      entries[idx] := e;
      assert entries[..] == before[idx := e];
    }

    /** The scan of Set(): the entry of this key, else the last free one, else the first oldest one. */
    method Choose(key: string) returns (idx: nat)
      requires Valid()
      ensures idx < 3
      ensures key in contents ==> entries[idx].valid && entries[idx].key == key
      ensures key !in contents && entries[idx].valid ==>
        entries[0].valid && entries[1].valid && entries[2].valid && Oldest(contents, entries[idx].key)
    {
      var oldestIdx: nat, oldestTime, emptyIdx: nat := 0, U64 - 1, 3;
      for i := 0 to 3
        invariant oldestIdx < 3 && (emptyIdx == 3 || (emptyIdx < i && !entries[emptyIdx].valid))
        invariant forall j :: 0 <= j < i && entries[j].valid ==>
          entries[j].key != key && oldestTime <= entries[j].timestamp
        invariant emptyIdx == 3 ==> forall j :: 0 <= j < i ==> entries[j].valid
        invariant oldestTime == U64 - 1 || entries[oldestIdx].timestamp == oldestTime
      {
        if entries[i].valid && entries[i].key == key {
          return i;
        }
        if !entries[i].valid {
          emptyIdx := i;
        } else if entries[i].timestamp < oldestTime {
          oldestTime := entries[i].timestamp;
          oldestIdx := i;
        }
      }
      idx := if emptyIdx < 3 then emptyIdx else oldestIdx;
      if emptyIdx == 3 {
        forall k | k in contents ensures contents[entries[idx].key].timestamp <= contents[k].timestamp {
          assert Bound(entries[..], k);
        }
      }
      assert !Bound(entries[..], key);
    }

    /** GetAndRemove(): the live value of the key, which is then gone; or the empty string. */
    method GetAndRemove(key: string, now: nat) returns (value: string)
      requires Valid()
      modifies this, entries
      ensures Valid() && entries == old(entries)
      ensures var live := Live(old(contents), now);
        contents == live - {key} && value == if key in live then live[key].value else ""
    {
      ExpireOldEntries(now);
      ghost var before := entries[..];
      for i := 0 to 3
        invariant Valid() && entries == old(entries) && entries[..] == before && contents == Live(old(contents), now)
        invariant forall j :: 0 <= j < i && before[j].valid ==> before[j].key != key
      {
        if entries[i].valid && entries[i].key == key {
          value := entries[i].value;
          DropRepresents(before, contents, i);
          entries[i] := entries[i].(valid := false);
          contents := contents - {key};
          assert entries[..] == before[i := before[i].(valid := false)];
          return;
        }
      }
      assert !Bound(before, key);
      value := "";
    }
  }

  // Whole histories -----------------------------------------------------------------------

  datatype Op = SetOp(key: string, value: string, expiry: nat, now: nat) | TakeOp(key: string, now: nat)

  ghost predicate Step(m: Cache, op: Op, after: Cache) {
    match op
    case SetOp(key, value, expiry, now) => IsSet(m, key, value, expiry, now, after)
    case TakeOp(key, now) => after == Live(m, now) - {key}
  }

  ghost predicate History(run: seq<Cache>, ops: seq<Op>) {
    |run| == |ops| + 1 && forall k {:trigger ops[k]} :: 0 <= k < |ops| ==> Step(run[k], ops[k], run[k + 1])
  }

  function Sets(ops: seq<Op>): nat {
    if ops == [] then 0 else Sets(ops[..|ops| - 1]) + if ops[|ops| - 1].SetOp? then 1 else 0
  }

  /** The operations leave `key` alone, see it unexpired, and stamp later than `stamp`. */
  predicate Spares(op: Op, key: string, stamp: nat) {
    op.key != key &&
    match op
    case SetOp(_, _, expiry, now) => !Expired(stamp, expiry) && now > stamp
    case TakeOp(_, now) => !Expired(stamp, now)
  }

  function Newer(m: Cache, stamp: nat): set<string> { set key | key in m && m[key].timestamp > stamp }

  /** `key` is bound as stored, no other binding has its stamp, and at most `sets` are newer. */
  ghost predicate Survives(m: Cache, key: string, bound: Stamped, sets: nat) {
    && key in m && m[key] == bound && |m| <= 3
    && (forall other :: other in m && other != key ==> m[other].timestamp != bound.timestamp)
    && |Newer(m, bound.timestamp)| <= sets
  }

  lemma SubsetSize(a: set<string>, b: set<string>)
    requires a <= b
    ensures |a| <= |b|
  {
    assert b == a + (b - a);
  }

  lemma FewerSurvive(m: Cache, sub: Cache, key: string, bound: Stamped, sets: nat)
    requires Survives(m, key, bound, sets) && key in sub && sub.Keys <= m.Keys &&
      forall k :: k in sub ==> sub[k] == m[k]
    ensures Survives(sub, key, bound, sets)
  {
    SubsetSize(sub.Keys, m.Keys);
    assert |sub| == |sub.Keys| && |m| == |m.Keys|;
    SubsetSize(Newer(sub, bound.timestamp), Newer(m, bound.timestamp));
  }

  lemma AddedSurvives(m: Cache, other: string, st: Stamped, key: string, bound: Stamped, sets: nat)
    requires Survives(m, key, bound, sets) && other != key && st.timestamp > bound.timestamp && (other in m || |m| < 3)
    ensures Survives(m[other := st], key, bound, sets + 1)
  {
    var after := m[other := st];
    assert after.Keys == m.Keys + {other};
    assert |after| == |after.Keys| && |m| == |m.Keys|;
    SubsetSize(Newer(after, bound.timestamp), Newer(m, bound.timestamp) + {other});
  }

  /** With fewer than two newer bindings, a full map never gives up this key. */
  lemma VictimIsOther(m: Cache, victim: string, key: string, bound: Stamped, sets: nat)
    requires Survives(m, key, bound, sets) && sets < 2 && |m| == 3 && Oldest(m, victim)
    ensures victim != key
  {
    assert |m.Keys| == |m|;
    if victim == key {
      SubsetSize(m.Keys - {key}, Newer(m, bound.timestamp));
      assert false;
    }
  }

  lemma StepSpares(m: Cache, op: Op, after: Cache, key: string, bound: Stamped, sets: nat)
    requires Survives(m, key, bound, sets) && Step(m, op, after) && Spares(op, key, bound.timestamp) &&
      (op.SetOp? ==> sets < 2)
    ensures Survives(after, key, bound, sets + if op.SetOp? then 1 else 0)
  {
    match op {
      case TakeOp(k, now) => FewerSurvive(m, after, key, bound, sets);
      case SetOp(k, value, expiry, now) =>
        var live, st := Live(m, expiry), Stamped(value, now);
        if |value| <= SAMPLE_STACK_MAP_VALUE_MAX_SIZE {
          FewerSurvive(m, live, key, bound, sets);
          if k in live || |live| < SAMPLE_STACK_MAP_MAX_SIZE {
            AddedSurvives(live, k, st, key, bound, sets);
          } else {
            var victim :| Oldest(live, victim) && after == (live - {victim})[k := st];
            VictimIsOther(live, victim, key, bound, sets);
            var rest := live - {victim};
            FewerSurvive(live, rest, key, bound, sets);
            assert |rest| == |rest.Keys| && rest.Keys == live.Keys - {victim} && |live| == |live.Keys|;
            AddedSurvives(rest, k, st, key, bound, sets);
          }
        }
    }
  }

  /** A key just stored, newer than everything else, survives any history with at most two Sets,
      as long as no operation is on it and it has not expired. */
  lemma {:induction false} SurvivesTwoSets(run: seq<Cache>, ops: seq<Op>, key: string, bound: Stamped)
    requires History(run, ops) && Survives(run[0], key, bound, 0) && Sets(ops) <= 2
    requires forall op :: op in ops ==> Spares(op, key, bound.timestamp)
    ensures Survives(run[|ops|], key, bound, Sets(ops))
    decreases |ops|
  {
    if ops != [] {
      var n := |ops| - 1;
      assert History(run[..n + 1], ops[..n]) by {
        assert forall k :: 0 <= k < n ==> ops[..n][k] == ops[k];
      }
      SurvivesTwoSets(run[..n + 1], ops[..n], key, bound);
      assert ops[n] in ops && Step(run[n], ops[n], run[n + 1]);
      StepSpares(run[n], ops[n], run[n + 1], key, bound, Sets(ops[..n]));
    }
  }

  /** Set adds its binding to some of the old ones, among which there is room for it. */
  lemma SetShape(m: Cache, key: string, value: string, expiry: nat, now: nat, after: Cache) returns (base: Cache)
    requires IsSet(m, key, value, expiry, now, after) && |m| <= 3 && |value| <= SAMPLE_STACK_MAP_VALUE_MAX_SIZE
    ensures base.Keys <= m.Keys && (forall k :: k in base ==> base[k] == m[k]) && (key in base || |base| < 3)
    ensures after == base[key := Stamped(value, now)]
  {
    base := Live(m, expiry);
    SubsetSize(base.Keys, m.Keys);
    assert |base| == |base.Keys| && |m| == |m.Keys|;
    if key !in base && |base| == 3 {
      var victim :| Oldest(base, victim) && after == (base - {victim})[key := Stamped(value, now)];
      assert (base - {victim}).Keys == base.Keys - {victim};
      base := base - {victim};
      assert |base| == |base.Keys|;
    }
  }

  lemma AddSize(m: Cache, base: Cache, key: string, st: Stamped)
    requires base.Keys <= m.Keys && |m| <= 3 && (key in base || |base| < 3)
    ensures |base[key := st]| <= 3
  {
    SubsetSize(base.Keys, m.Keys);
    assert base[key := st].Keys == base.Keys + {key};
    assert |base| == |base.Keys| && |m| == |m.Keys| && |base[key := st]| == |base[key := st].Keys|;
  }

  /** Right after Set stamps a key later than everything else, nothing is newer than it. */
  lemma SetIsNewest(m: Cache, key: string, value: string, expiry: nat, now: nat, after: Cache)
    requires IsSet(m, key, value, expiry, now, after) && |m| <= 3 && |value| <= SAMPLE_STACK_MAP_VALUE_MAX_SIZE
    requires forall k :: k in m ==> m[k].timestamp < now
    ensures Survives(after, key, Stamped(value, now), 0)
  {
    var base := SetShape(m, key, value, expiry, now, after);
    AddSize(m, base, key, Stamped(value, now));
    assert Newer(after, now) == {};
  }

  /** Sets carry strictly increasing timestamps. */
  ghost predicate Increasing(ops: seq<Op>) {
    forall i, j :: 0 <= i < j < |ops| && ops[i].SetOp? && ops[j].SetOp? ==> ops[i].now < ops[j].now
  }

  /** The timestamp of the last Set among the first `n` operations, or -1. */
  function LastNow(ops: seq<Op>, n: nat): int
    requires n <= |ops|
  {
    if n == 0 then -1 else if ops[n - 1].SetOp? then ops[n - 1].now else LastNow(ops, n - 1)
  }

  lemma {:induction false} LastNowBelow(ops: seq<Op>, n: nat, k: nat)
    requires Increasing(ops) && n <= k < |ops| && ops[k].SetOp?
    ensures LastNow(ops, n) < ops[k].now
  {
    if n > 0 {
      LastNowBelow(ops, n - 1, k);
    }
  }

  ghost predicate Stamps(m: Cache, last: int) {
    |m| <= 3 && forall key :: key in m ==> m[key].timestamp <= last
  }

  /** Every binding is an old one or has the operation's timestamp. */
  ghost predicate Inherits(m: Cache, op: Op, after: Cache) {
    forall key :: key in after ==> (key in m && after[key] == m[key]) || (op.SetOp? && after[key].timestamp == op.now)
  }

  lemma StepKeepsSize(m: Cache, op: Op, after: Cache)
    requires Step(m, op, after) && |m| <= 3
    ensures |after| <= 3 && Inherits(m, op, after)
  {
    match op {
      case TakeOp(_, _) =>
        SubsetSize(after.Keys, m.Keys);
        assert |m| == |m.Keys| && |after| == |after.Keys|;
      case SetOp(key, value, expiry, now) =>
        if |value| <= SAMPLE_STACK_MAP_VALUE_MAX_SIZE {
          var base := SetShape(m, key, value, expiry, now, after);
          AddSize(m, base, key, Stamped(value, now));
        }
    }
  }

  lemma StepKeepsStamps(m: Cache, op: Op, after: Cache, last: int, next: int)
    requires Step(m, op, after) && Stamps(m, last) && last <= next && (op.SetOp? ==> op.now <= next)
    ensures Stamps(after, next)
  {
    StepKeepsSize(m, op, after);
  }

  lemma {:induction false} HistoryStamps(run: seq<Cache>, ops: seq<Op>, n: nat)
    requires History(run, ops) && run[0] == map[] && n <= |ops|
    requires forall k: nat :: k < |ops| && ops[k].SetOp? ==> LastNow(ops, k) < ops[k].now
    ensures Stamps(run[n], LastNow(ops, n))
    decreases n
  {
    if n > 0 {
      HistoryStamps(run, ops, n - 1);
      StepKeepsStamps(run[n - 1], ops[n - 1], run[n], LastNow(ops, n - 1), LastNow(ops, n));
    }
  }

  /** From an empty cache with increasing timestamps: a key set by operation `j` keeps its value
      through every continuation with at most two Sets, if no later operation is on that key and
      none finds it expired. */
  lemma SetSurvivesTwoSets(run: seq<Cache>, ops: seq<Op>, j: nat)
    requires History(run, ops) && run[0] == map[] && Increasing(ops)
    requires j < |ops| && ops[j].SetOp? && |ops[j].value| <= SAMPLE_STACK_MAP_VALUE_MAX_SIZE
    requires Sets(ops[j + 1..]) <= 2
    requires forall k :: j < k < |ops| ==>
      ops[k].key != ops[j].key && !Expired(ops[j].now, if ops[k].SetOp? then ops[k].expiry else ops[k].now)
    ensures ops[j].key in run[|ops|] && run[|ops|][ops[j].key] == Stamped(ops[j].value, ops[j].now)
  {
    var op, rest, later := ops[j], ops[j + 1..], run[j + 1..];
    forall k: nat | k < |ops| && ops[k].SetOp? ensures LastNow(ops, k) < ops[k].now {
      LastNowBelow(ops, k, k);
    }
    HistoryStamps(run, ops, j);
    assert Step(run[j], op, run[j + 1]);
    SetIsNewest(run[j], op.key, op.value, op.expiry, op.now, run[j + 1]);
    assert History(later, rest) by {
      forall k | 0 <= k < |rest| ensures Step(later[k], rest[k], later[k + 1]) {
        assert rest[k] == ops[j + 1 + k];
      }
    }
    SurvivesTwoSets(later, rest, op.key, Stamped(op.value, op.now));
  }

  /** A value just set can be taken for 120000 ms and no longer, whatever else is set with it. */
  lemma TakeableFor120Seconds(m: Cache, key: string, value: string, expiry: nat, now: nat, after: Cache, later: nat)
    requires IsSet(m, key, value, expiry, now, after) && |value| <= 262144 && now <= later < U64
    ensures key in Live(after, later) <==> later - now <= 120000
    ensures later - now <= 120000 ==> Live(after, later)[key].value == value
  {
    MinusExact(later, now);
  }

  /** A value of more than 262144 characters is not set. */
  lemma TooLargeIsIgnored(m: Cache, key: string, value: string, expiry: nat, now: nat, after: Cache)
    requires IsSet(m, key, value, expiry, now, after) && |value| > 262144
    ensures after == m
  {
  }
}
