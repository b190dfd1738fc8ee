/** The jank sampler: which configurations can be set, and how long one sampling session lasts. */
module JankSession {

  const MAX_SAMPLE_STACK_TIMES := 2500
  const SAMPLE_INTERVAL_MIN := 50
  const SAMPLE_INTERVAL_MAX := 500
  const SAMPLE_COUNT_MIN := 1
  const SAMPLE_EXTRA_COUNT := 4
  const SAMPLE_REPORT_TIMES_MIN := 1
  const SAMPLE_REPORT_TIMES_MAX := 3
  const IGNORE_STARTUP_TIME_MIN := 3
  const SAMPLE_DEFAULT_INTERVAL := 150
  const SAMPLE_DEFAULT_COUNT := 10
  const SAMPLE_DEFAULT_REPORT_TIMES := 1
  const DEFAULT_IGNORE_STARTUP_TIME := 10
  const DETECT_STACK_COUNT := 2
  const INT32_MAX_DIGITS := 10
  const SAMPLE_STACK_MAP_SIZE := 5
  const SAMPLE_TRACE_MAP_SIZE := 1

  // Configuration -------------------------------------------------------------------------

  type Params = map<string, string>

  predicate IsDigit(c: char) { '0' <= c <= '9' }

  predicate IsNum(s: string) { forall k :: 0 <= k < |s| ==> IsDigit(s[k]) }

  function ToInt(s: string): nat
    requires IsNum(s)
  {
    if s == "" then 0 else ToInt(s[..|s| - 1]) * 10 + (s[|s| - 1] as int - '0' as int)
  }

  /** ConvertStrToNum; -1 stands for anything unusable. */
  function ConvertStrToNum(params: Params, key: string, defaultValue: int): int {
    if key !in params then (if defaultValue < 0 then -1 else defaultValue)
    else if params[key] == "" && defaultValue >= 0 then defaultValue
    else if params[key] != "" && |params[key]| < INT32_MAX_DIGITS && IsNum(params[key]) then ToInt(params[key])
    else -1
  }

  /** The part of jankParamsMap that a sampling session reads. */
  datatype Config = Config(logType: int, interval: int, count: int, ignore: int, autoStop: bool)

  const DEFAULT_CONFIG := Config(0, SAMPLE_DEFAULT_INTERVAL, SAMPLE_DEFAULT_COUNT, DEFAULT_IGNORE_STARTUP_TIME, false)

  predicate AutoStopUsable(params: Params) {
    "auto_stop_sampling" in params ==> params["auto_stop_sampling"] in {"", "true", "false"}
  }

  predicate AutoStops(params: Params) { "auto_stop_sampling" in params && params["auto_stop_sampling"] == "true" }

  /** CheckSampleParam; `required` rejects missing keys, otherwise they take their defaults. */
  function Checked(c: Config, params: Params, required: bool): (Config, bool) {
    var interval := ConvertStrToNum(params, "sample_interval", if required then -1 else SAMPLE_DEFAULT_INTERVAL);
    if interval < SAMPLE_INTERVAL_MIN || interval > SAMPLE_INTERVAL_MAX then (c, false) else
      var ignore := ConvertStrToNum(params, "ignore_startup_time",
        if required then -1 else DEFAULT_IGNORE_STARTUP_TIME);
      if ignore < IGNORE_STARTUP_TIME_MIN then (c, false) else
        var count := ConvertStrToNum(params, "sample_count", if required then -1 else SAMPLE_DEFAULT_COUNT);
        if count < SAMPLE_COUNT_MIN || count > MAX_SAMPLE_STACK_TIMES / interval - SAMPLE_EXTRA_COUNT
        then (c, false) else
          var times := ConvertStrToNum(params, "report_times_per_app",
            if required then -1 else SAMPLE_DEFAULT_REPORT_TIMES);
          if times < SAMPLE_REPORT_TIMES_MIN || times > SAMPLE_REPORT_TIMES_MAX || !AutoStopUsable(params)
          then (c, false)
          else (Config(1, interval, count, ignore, AutoStops(params)), true)
  }

  /** SetEventConfig. */
  function AfterEvent(c: Config, params: Params): Config {
    var logType := ConvertStrToNum(params, "log_type", -1);
    if params == map[] then c
    else if logType == 0 || logType == 2 then
      if |params| != SAMPLE_TRACE_MAP_SIZE then c
      else if logType == 2 then c.(logType := 2) else DEFAULT_CONFIG
    else if logType == 1 && |params| == SAMPLE_STACK_MAP_SIZE then Checked(c, params, true).0
    else c
  }

  /** ConfigEventPolicy. */
  function AfterPolicy(c: Config, params: Params): Config {
    var logType := ConvertStrToNum(params, "log_type", 0);
    if logType == 2 then c.(logType := 2)
    else if logType == 0 then (if AutoStopUsable(params) then DEFAULT_CONFIG.(autoStop := AutoStops(params)) else c)
    else if logType == 1 then Checked(c, params, false).0
    else c
  }

  /** jankParamsMap and the methods that write it. */
  class JankParams {
    var logType: int
    var sampleInterval: int
    var sampleCount: int
    var ignoreStartUpTime: int
    var autoStopSampling: bool

    ghost function View(): Config
      reads this
    {
      Config(logType, sampleInterval, sampleCount, ignoreStartUpTime, autoStopSampling)
    }

    constructor ()
      ensures View() == DEFAULT_CONFIG
    {
      logType, sampleInterval, sampleCount := 0, SAMPLE_DEFAULT_INTERVAL, SAMPLE_DEFAULT_COUNT;
      ignoreStartUpTime, autoStopSampling := DEFAULT_IGNORE_STARTUP_TIME, false;
    }

    /** A trace-only configuration keeps the sampling parameters. */
    method UpdateJankParam(params: Config)
      modifies this
      ensures View() == if params.logType == 2 then old(View()).(logType := 2) else params
    {
      logType := params.logType;
      if params.logType == 2 {
        return;
      }
      sampleInterval, sampleCount := params.interval, params.count;
      ignoreStartUpTime, autoStopSampling := params.ignore, params.autoStop;
    }

    method CheckSampleParam(params: Params, keyNeedExist: bool) returns (ok: bool)
      modifies this
      ensures (View(), ok) == Checked(old(View()), params, keyNeedExist)
    {
      var interval := ConvertStrToNum(params, "sample_interval", if keyNeedExist then -1 else SAMPLE_DEFAULT_INTERVAL);
      if interval < SAMPLE_INTERVAL_MIN || interval > SAMPLE_INTERVAL_MAX {
        return false;
      }
      var ignore := ConvertStrToNum(params, "ignore_startup_time",
        if keyNeedExist then -1 else DEFAULT_IGNORE_STARTUP_TIME);
      if ignore < IGNORE_STARTUP_TIME_MIN {
        return false;
      }
      var count := ConvertStrToNum(params, "sample_count", if keyNeedExist then -1 else SAMPLE_DEFAULT_COUNT);
      var maxSampleCount := MAX_SAMPLE_STACK_TIMES / interval - SAMPLE_EXTRA_COUNT;
      if count < SAMPLE_COUNT_MIN || count > maxSampleCount {
        return false;
      }
      var times := ConvertStrToNum(params, "report_times_per_app",
        if keyNeedExist then -1 else SAMPLE_DEFAULT_REPORT_TIMES);
      if times < SAMPLE_REPORT_TIMES_MIN || times > SAMPLE_REPORT_TIMES_MAX || !AutoStopUsable(params) {
        return false;
      }
      UpdateJankParam(Config(1, interval, count, ignore, AutoStops(params)));
      return true;
    }

    /** -1 leaves everything as it was; 0 means that the asked-for log type is in force. */
    method SetEventConfig(params: Params) returns (code: int)
      modifies this
      ensures View() == AfterEvent(old(View()), params)
      ensures code == 0 || (code == -1 && View() == old(View()))
      ensures code == 0 ==> View().logType == ConvertStrToNum(params, "log_type", -1)
    {
      if params == map[] {
        return -1;
      }
      var kind := ConvertStrToNum(params, "log_type", -1);
      if kind == 0 || kind == 2 {
        if |params| != SAMPLE_TRACE_MAP_SIZE {
          return -1;
        }
        UpdateJankParam(DEFAULT_CONFIG.(logType := kind));
        return 0;
      }
      if kind != 1 || |params| != SAMPLE_STACK_MAP_SIZE {
        return -1;
      }
      var ok := CheckSampleParam(params, true);
      return if ok then 0 else -1;
    }

    method ConfigEventPolicy(params: Params) returns (code: int)
      modifies this
      ensures View() == AfterPolicy(old(View()), params)
      ensures code == 0 || (code == -1 && View() == old(View()))
      ensures code == 0 ==> View().logType == ConvertStrToNum(params, "log_type", 0)
    {
      var kind := ConvertStrToNum(params, "log_type", 0);
      if kind == 0 || kind == 2 {
        if kind == 0 && !AutoStopUsable(params) {
          return -1;
        }
        UpdateJankParam(DEFAULT_CONFIG.(logType := kind, autoStop := kind == 0 && AutoStops(params)));
        return 0;
      }
      if kind != 1 {
        return -1;
      }
      var ok := CheckSampleParam(params, false);
      return if ok then 0 else -1;
    }
  }

  datatype Call = Event(params: Params) | Policy(params: Params)

  function Configured(calls: seq<Call>): Config {
    if calls == [] then DEFAULT_CONFIG else
      var c := Configured(calls[..|calls| - 1]);
      match calls[|calls| - 1]
      case Event(params) => AfterEvent(c, params)
      case Policy(params) => AfterPolicy(c, params)
  }

  predicate Sound(c: Config) {
    && c.interval > 0 && c.count >= 1
    && (c.count + SAMPLE_EXTRA_COUNT) * c.interval <= MAX_SAMPLE_STACK_TIMES
  }

  lemma CheckedIsSound(c: Config, params: Params, required: bool)
    requires Sound(c)
    ensures Sound(Checked(c, params, required).0)
  {
    var (d, ok) := Checked(c, params, required);
    if ok {
      assert d.interval >= SAMPLE_INTERVAL_MIN && d.count >= 1;
      QuotientFits(d.count + SAMPLE_EXTRA_COUNT, d.interval);
    } else {
      assert d == c;
    }
  }

  lemma QuotientFits(n: nat, interval: nat)
    requires interval > 0 && n <= MAX_SAMPLE_STACK_TIMES / interval
    ensures n * interval <= MAX_SAMPLE_STACK_TIMES
  {
    var q := MAX_SAMPLE_STACK_TIMES / interval;
    Scale(n, q, interval);
    assert q * interval + MAX_SAMPLE_STACK_TIMES % interval == MAX_SAMPLE_STACK_TIMES;
  }

  lemma Scale(x: int, y: int, i: int)
    requires x <= y && i > 0
    ensures x * i <= y * i
  {
  }

  /** Whatever is configured, sample count plus four, times the interval, fits in 2.5 s. */
  lemma {:induction false} ReachableConfigIsSound(calls: seq<Call>)
    ensures Sound(Configured(calls))
  {
    if calls != [] {
      var c := Configured(calls[..|calls| - 1]);
      ReachableConfigIsSound(calls[..|calls| - 1]);
      CheckedIsSound(c, calls[|calls| - 1].params, true);
      CheckedIsSound(c, calls[|calls| - 1].params, false);
    }
  }

  // The session ---------------------------------------------------------------------------

  /** What one body execution meets: may sampling start, is the sampler loaded, does the event
      timer want a sample, is automatic stopping on. */
  datatype World = World(startable: bool, loaded: bool, timer: bool, autoStop: bool)

  datatype Session = Session(detector: int, collect: int, finished: bool, reports: int)

  const FRESH := Session(0, 0, false, 0)

  /** stackContent_ and the sampling task of StartProfileMainThread. */
  class StackContent {
    var detectorCount: int
    var collectCount: int
    var isMainThreadStackEnabled: bool
    var reports: int

    ghost function View(): Session
      reads this
    {
      Session(detectorCount, collectCount, isMainThreadStackEnabled, reports)
    }

    constructor ()
      ensures View() == FRESH
    {
      detectorCount, collectCount, isMainThreadStackEnabled, reports := 0, 0, false, 0;
    }

    method SampleTask(sampleCount: int, w: World)
      modifies this
      ensures View() == Sampled(old(View()), sampleCount, w)
    {
      if (detectorCount == 0 && collectCount == 0 && !w.startable) || !w.loaded {
        isMainThreadStackEnabled := true;
        return;
      }
      if 0 < collectCount < sampleCount {
        if w.autoStop && !w.timer {
          collectCount := sampleCount;
          return;
        }
        collectCount := collectCount + 1;
      } else if collectCount == sampleCount {
        isMainThreadStackEnabled, reports := true, reports + 1;
        return;
      } else if w.timer {
        collectCount := collectCount + 1;
      } else {
        detectorCount := detectorCount + 1;
      }
      if detectorCount == DETECT_STACK_COUNT {
        isMainThreadStackEnabled := true;
      }
    }
  }

  function Sampled(s: Session, count: int, w: World): Session {
    if (s.detector == 0 && s.collect == 0 && !w.startable) || !w.loaded then s.(finished := true)
    else if 0 < s.collect < count && w.autoStop && !w.timer then s.(collect := count)
    else if s.collect == count then s.(finished := true, reports := s.reports + 1)
    else
      var t := if 0 < s.collect < count || w.timer then s.(collect := s.collect + 1)
        else s.(detector := s.detector + 1);
      if t.detector == DETECT_STACK_COUNT then t.(finished := true) else t
  }

  function Executions(worlds: seq<World>, count: int): Session {
    if worlds == [] then FRESH else Sampled(Executions(worlds[..|worlds| - 1], count), count, worlds[|worlds| - 1])
  }

  /** Unfinished, the counters move by at least one per execution; finished, it reported at most once
      and only if it collected. */
  predicate Progress(s: Session, count: int, n: nat) {
    && 0 <= s.detector <= DETECT_STACK_COUNT && 0 <= s.collect <= count
    && (!s.finished ==> s.detector < DETECT_STACK_COUNT && n <= s.detector + s.collect && s.reports == 0)
  }

  lemma {:induction false} SessionProgress(worlds: seq<World>, count: int)
    requires count >= 1 && forall k :: 0 <= k < |worlds| ==> !Executions(worlds[..k], count).finished
    ensures Progress(Executions(worlds, count), count, |worlds|)
    ensures Executions(worlds, count).reports <= 1
  {
    if worlds != [] {
      var n := |worlds| - 1;
      var init := worlds[..n];
      forall k | 0 <= k < |init| ensures !Executions(init[..k], count).finished {
        assert init[..k] == worlds[..k];
      }
      SessionProgress(init, count);
      assert init == worlds[..n] && !Executions(worlds[..n], count).finished;
    }
  }

  /** Every session raises its finish flag within count + 2 executions, whatever the world answers. */
  lemma SessionFinishes(worlds: seq<World>, count: int)
    requires count >= 1 && |worlds| >= count + 2
    ensures exists k :: 0 <= k <= count + 2 && k <= |worlds| && Executions(worlds[..k], count).finished
  {
    if forall k :: 0 <= k <= count + 2 ==> !Executions(worlds[..k], count).finished {
      var w := worlds[..count + 2];
      forall k | 0 <= k < |w| ensures !Executions(w[..k], count).finished {
        assert w[..k] == worlds[..k];
      }
      SessionProgress(w, count);
      assert false;
    }
  }

  /** So under every reachable configuration a session lasts less than 2.5 s of ticks. */
  lemma NominalLength(calls: seq<Call>)
    ensures var c := Configured(calls); (c.count + 2) * c.interval < MAX_SAMPLE_STACK_TIMES
  {
    ReachableConfigIsSound(calls);
    var c := Configured(calls);
    Scale(c.count + 3, c.count + SAMPLE_EXTRA_COUNT, c.interval);
    assert (c.count + 3) * c.interval == (c.count + 2) * c.interval + c.interval;
  }

  // What a session does ---------------------------------------------------------------------

  /** A world in which sampling may go on and the event timer always wants a sample. */
  predicate Busy(w: World) { w.startable && w.loaded && w.timer }

  /** If the event timer always answers yes, a session takes one sample at each of its first `count`
      executions, and finishes and reports at the next. */
  lemma {:induction false} FullSession(worlds: seq<World>, count: int)
    requires count >= 1 && |worlds| <= count + 1 && forall k :: 0 <= k < |worlds| ==> Busy(worlds[k])
    ensures Executions(worlds, count) ==
      if |worlds| <= count then Session(0, |worlds|, false, 0) else Session(0, count, true, 1)
    decreases |worlds|
  {
    if worlds != [] {
      FullSession(worlds[..|worlds| - 1], count);
      assert Busy(worlds[|worlds| - 1]);
    }
  }

  /** If it answers no twice at the start, the session finishes with no sample and no report. */
  lemma QuietSession(a: World, b: World, count: int)
    requires count >= 1 && a.startable && a.loaded && !a.timer && b.loaded && !b.timer
    ensures Executions([a], count) == Session(1, 0, false, 0) && Executions([a, b], count) == Session(2, 0, true, 0)
  {
    assert [a][..0] == [] && [a, b][..1] == [a];
    assert Executions([a], count) == Sampled(FRESH, count, a);
  }

  /** Before the first sample, a yes takes it, a first no is counted and a second one finishes the session;
      a session that cannot start, or has lost its sampler, finishes without a report. */
  lemma Detecting(s: Session, count: int, w: World)
    requires count >= 1 && s.collect == 0 && 0 <= s.detector < 2 && !s.finished
    ensures Sampled(s, count, w) ==
      if !w.loaded || (s.detector == 0 && !w.startable) then s.(finished := true)
      else if w.timer then s.(collect := 1)
      else s.(detector := s.detector + 1, finished := s.detector == 1)
  {
  }

  /** While collecting, a no stops the session early if automatic stopping is on, and the next execution
      reports; otherwise it is sampled like a yes. */
  lemma AutoStop(s: Session, count: int, w: World, next: World)
    requires 0 < s.collect < count && 0 <= s.detector < 2 && !s.finished && w.loaded && !w.timer && next.loaded
    ensures var t := Sampled(s, count, w);
      if w.autoStop
      then !t.finished && Sampled(t, count, next).finished && Sampled(t, count, next).reports == s.reports + 1
      else t == s.(collect := s.collect + 1)
  {
  }

  // Settings in decimal ---------------------------------------------------------------------

  function Digit(n: nat): char
    requires n < 10
  {
    ('0' as int + n) as char
  }

  function Decimal(n: nat): string { if n < 10 then [Digit(n)] else Decimal(n / 10) + [Digit(n % 10)] }

  function Power(d: nat): nat { if d == 0 then 1 else 10 * Power(d - 1) }

  lemma {:induction false} DecimalIsRead(n: nat)
    ensures Decimal(n) != "" && IsNum(Decimal(n)) && ToInt(Decimal(n)) == n
  {
    if n < 10 {
      assert Decimal(n)[..0] == "";
    } else {
      DecimalIsRead(n / 10);
      var s := Decimal(n);
      assert s[..|s| - 1] == Decimal(n / 10);
    }
  }

  lemma {:induction false} DecimalLength(n: nat, d: nat)
    requires d > 0 && n < Power(d)
    ensures |Decimal(n)| <= d
  {
    if n >= 10 {
      assert d > 1;
      DecimalLength(n / 10, d - 1);
    }
  }

  /** A number below 10^9, written in decimal, is read back. */
  lemma NumberIsRead(params: Params, key: string, n: nat, defaultValue: int)
    requires n < 1000000000 && key in params && params[key] == Decimal(n)
    ensures ConvertStrToNum(params, key, defaultValue) == n
  {
    DecimalIsRead(n);
    assert Power(9) == 1000000000 by {
      assert Power(1) == 10 && Power(2) == 100 && Power(3) == 1000 && Power(4) == 10000 && Power(5) == 100000;
      assert Power(6) == 1000000 && Power(7) == 10000000 && Power(8) == 100000000;
    }
    DecimalLength(n, 9);
  }

  /** The five settings of a stack-sampling event, in decimal. */
  function Asking(interval: nat, ignore: nat, count: nat, times: nat): Params {
    map["log_type" := Decimal(1), "sample_interval" := Decimal(interval), "ignore_startup_time" := Decimal(ignore),
        "sample_count" := Decimal(count), "report_times_per_app" := Decimal(times)]
  }

  lemma AskingHasFive(interval: nat, ignore: nat, count: nat, times: nat)
    ensures |Asking(interval, ignore, count, times)| == 5
  {
    var m := Asking(interval, ignore, count, times);
    assert |m| == |m.Keys|;
    assert m.Keys == {"log_type", "sample_interval", "ignore_startup_time", "sample_count", "report_times_per_app"};
  }

  /** Settings are taken over exactly if they are in range: an interval of 50 to 500 ms, at least 3 s to
      ignore, 1 to 3 reports, and a positive count that leaves room for four more in 2.5 s. */
  lemma SettingsAreTakenIff(c: Config, interval: nat, ignore: nat, count: nat, times: nat)
    requires interval < 1000000000 && ignore < 1000000000 && count < 1000000000 && times < 1000000000
    ensures AfterEvent(c, Asking(interval, ignore, count, times)) ==
      if 50 <= interval <= 500 && ignore >= 3 && 1 <= count <= 2500 / interval - 4 && 1 <= times <= 3
      then Config(1, interval, count, ignore, false) else c
  {
    var m := Asking(interval, ignore, count, times);
    AskingHasFive(interval, ignore, count, times);
    NumberIsRead(m, "log_type", 1, -1);
    NumberIsRead(m, "sample_interval", interval, -1);
    NumberIsRead(m, "ignore_startup_time", ignore, -1);
    NumberIsRead(m, "sample_count", count, -1);
    NumberIsRead(m, "report_times_per_app", times, -1);
  }

  /** A policy that names nothing but stack sampling gets the defaults. */
  lemma PolicyDefaults(c: Config)
    ensures AfterPolicy(c, map["log_type" := Decimal(1)]) == Config(1, 150, 10, 10, false)
  {
    NumberIsRead(map["log_type" := Decimal(1)], "log_type", 1, 0);
  }

  /** The same five settings with automatic stopping named, as a policy. */
  function AskingPolicy(interval: nat, ignore: nat, count: nat, times: nat, autoStop: bool): Params {
    Asking(interval, ignore, count, times)["auto_stop_sampling" := if autoStop then "true" else "false"]
  }

  lemma PolicyIsTakenIff(c: Config, interval: nat, ignore: nat, count: nat, times: nat, autoStop: bool)
    requires interval < 1000000000 && ignore < 1000000000 && count < 1000000000 && times < 1000000000
    ensures AfterPolicy(c, AskingPolicy(interval, ignore, count, times, autoStop)) ==
      if 50 <= interval <= 500 && ignore >= 3 && 1 <= count <= 2500 / interval - 4 && 1 <= times <= 3
      then Config(1, interval, count, ignore, autoStop) else c
  {
    var m := AskingPolicy(interval, ignore, count, times, autoStop);
    NumberIsRead(m, "log_type", 1, 0);
    NumberIsRead(m, "sample_interval", interval, 150);
    NumberIsRead(m, "ignore_startup_time", ignore, 10);
    NumberIsRead(m, "sample_count", count, 10);
    NumberIsRead(m, "report_times_per_app", times, 1);
  }

  /** Log type 0 resets everything to its default, log type 2 changes nothing else. */
  lemma OtherLogTypes(c: Config)
    ensures AfterEvent(c, map["log_type" := Decimal(0)]) == Config(0, 150, 10, 10, false)
    ensures AfterPolicy(c, map["log_type" := Decimal(0)]) == Config(0, 150, 10, 10, false)
    ensures AfterEvent(c, map["log_type" := Decimal(2)]) == c.(logType := 2)
    ensures AfterPolicy(c, map["log_type" := Decimal(2)]) == c.(logType := 2)
  {
    NumberIsRead(map["log_type" := Decimal(0)], "log_type", 0, -1);
    NumberIsRead(map["log_type" := Decimal(0)], "log_type", 0, 0);
    NumberIsRead(map["log_type" := Decimal(2)], "log_type", 2, -1);
    NumberIsRead(map["log_type" := Decimal(2)], "log_type", 2, 0);
  }
}
