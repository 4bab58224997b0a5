/**
 * The weather driver `main` (Parser.py:15-50): it walks the log in order, quantizes each row's
 * epoch onto the series, fetches and interpolates a day of weather whenever the `dia` label
 * changes, checkpoints every `saveInterval` rows and once more at the end. `WeatherLoop` and
 * `WeatherRun` state it as a fold over the rows; `RunWeather` is the loop itself.
 */
module WeatherDriver {
  import opened Wrappers
  import opened Failures
  import Quantizer
  import opened SensorLog
  import WeatherDay
  import opened WeatherPipeline
  import Checkpoint

  /** A call of the forecast service: the row that opened the day and the slot passed as its time. */
  datatype FetchCall = FetchCall(row: nat, slot: int)

  /**
   * What the driver takes from outside: the step in minutes (from user.json), the checkpoint
   * interval, the local clock turning `dia + hora` into an epoch, and the forecast service
   * returning the hourly records for a slot.
   */
  datatype WeatherEnv = WeatherEnv(stepMinutes: int, saveInterval: int, clock: string -> int,
                                   fetch: int -> seq<WeatherDay.HourlyRecord>)

  /**
   * The driver's variables: `current_day`, `data_set`, `time_series`, `save_count`, the stored
   * table, and a record of the forecast calls made and of the series length at each save.
   */
  datatype WeatherState = WeatherState(currentDay: string, dataSet: Option<seq<WeatherDay.Slot>>,
                                       timeSeries: seq<int>, saveCount: nat, table: seq<WeatherRow>,
                                       fetches: seq<FetchCall>, checkpoints: seq<nat>)

  function WeatherInit(db: seq<WeatherRow>): WeatherState
  {
    WeatherState("", None, [], 0, db, [], [])
  }

  /** `interpolate_data` on a fetched result, as the slots `data_set.append` stacks. */
  function DayData(hourly: seq<WeatherDay.HourlyRecord>, stepMinutes: int): Result<seq<WeatherDay.Slot>, Failure>
  {
    match WeatherDay.DaySeries(hourly, stepMinutes)
    case Err(e) => Err(e)
    case Ok(f) =>
      WeatherDay.DaySeriesKeys(hourly, stepMinutes);
      Ok(WeatherDay.FrameRows(f))
  }

  function AppendDay(ds: Option<seq<WeatherDay.Slot>>, day: seq<WeatherDay.Slot>): seq<WeatherDay.Slot>
  {
    if ds.None? then day else ds.value + day
  }

  /** The day-change branch at row `i`, whose slot is `slot`. */
  function DayChange(env: WeatherEnv, log: Log, s: WeatherState, i: nat, slot: int): Result<WeatherState, Failure>
    requires i < |log.rows|
  {
    if s.currentDay == log.rows[i].dia then Ok(s)
    else
      match DayData(env.fetch(slot), env.stepMinutes)
      case Err(e) => Err(e)
      case Ok(day) =>
        Ok(s.(currentDay := log.rows[i].dia, dataSet := Some(AppendDay(s.dataSet, day)),
              fetches := s.fetches + [FetchCall(i, slot)]))
  }

  /** A save of everything gathered so far into the stored table. */
  function Checkpointed(log: Log, s: WeatherState): Result<WeatherState, Failure>
  {
    match SaveWeather(log, s.dataSet, s.timeSeries, s.table)
    case Err(e) => Err(e)
    case Ok(t) => Ok(s.(table := t, checkpoints := s.checkpoints + [|s.timeSeries|]))
  }

  /** `save_count += 1` and `time_series.append(unix_time)`. */
  function Counted(s: WeatherState, slot: int): WeatherState
  {
    s.(saveCount := s.saveCount + 1, timeSeries := s.timeSeries + [slot])
  }

  /** The checkpoint test at the end of a pass. */
  function AfterDay(env: WeatherEnv, log: Log, s: WeatherState): Result<WeatherState, Failure>
  {
    if env.saveInterval > 0 && s.saveCount % env.saveInterval == 0 then Checkpointed(log, s) else Ok(s)
  }

  /** One pass of the loop body for row `i`. */
  function WeatherStep(env: WeatherEnv, log: Log, s: WeatherState, i: nat): Result<WeatherState, Failure>
    requires i < |log.rows|
  {
    match Quantizer.FormatTime(RowEpoch(env.clock, log.rows[i]), env.stepMinutes)
    case Err(e) => Err(e)
    case Ok(slot) =>
      match DayChange(env, log, Counted(s, slot), i, slot)
      case Err(e) => Err(e)
      case Ok(s') => AfterDay(env, log, s')
  }

  /** The state after the first `k` rows, or the exception that stopped the loop. */
  function WeatherLoop(env: WeatherEnv, log: Log, db: seq<WeatherRow>, k: nat): Result<WeatherState, Failure>
    requires k <= |log.rows|
  {
    if k == 0 then Ok(WeatherInit(db))
    else
      match WeatherLoop(env, log, db, k - 1)
      case Err(e) => Err(e)
      case Ok(s) => WeatherStep(env, log, s, k - 1)
  }

  /** The whole run: the loop over every row, then the final save. */
  function WeatherRun(env: WeatherEnv, log: Log, db: seq<WeatherRow>): Result<WeatherState, Failure>
  {
    match WeatherLoop(env, log, db, |log.rows|)
    case Err(e) => Err(e)
    case Ok(s) => Checkpointed(log, s)
  }

  lemma LoopNext(env: WeatherEnv, log: Log, db: seq<WeatherRow>, i: nat, s: WeatherState)
    requires i < |log.rows| && WeatherLoop(env, log, db, i) == Ok(s)
    ensures WeatherLoop(env, log, db, i + 1) == WeatherStep(env, log, s, i)
  {
  }

  /** How one pass is composed: quantize and count, the day-change branch, then the checkpoint test. */
  lemma StepParts(env: WeatherEnv, log: Log, s: WeatherState, i: nat, slot: int, changed: WeatherState)
    requires i < |log.rows|
    requires Quantizer.FormatTime(RowEpoch(env.clock, log.rows[i]), env.stepMinutes) == Ok(slot)
    requires DayChange(env, log, Counted(s, slot), i, slot) == Ok(changed)
    ensures WeatherStep(env, log, s, i) == AfterDay(env, log, changed)
  {
  }

  lemma RunIsFinalSave(env: WeatherEnv, log: Log, db: seq<WeatherRow>, s: WeatherState)
    requires WeatherLoop(env, log, db, |log.rows|) == Ok(s)
    ensures WeatherRun(env, log, db) == Checkpointed(log, s)
  {
  }

  /** An exception inside the loop is the outcome of the run. */
  lemma {:induction false} LoopFailureIsFinal(env: WeatherEnv, log: Log, db: seq<WeatherRow>, k: nat)
    requires k <= |log.rows| && WeatherLoop(env, log, db, k).Err?
    ensures WeatherRun(env, log, db) == Err(WeatherLoop(env, log, db, k).error)
    decreases |log.rows| - k
  {
    if k < |log.rows| {
      assert WeatherLoop(env, log, db, k + 1) == WeatherLoop(env, log, db, k);
      LoopFailureIsFinal(env, log, db, k + 1);
    }
  }

  // ----- what the loop has done after `k` rows -----

  /** The forecast calls made at the given day-start rows, each passing that row's slot. */
  function FetchesAt(starts: seq<nat>, ts: seq<int>): seq<FetchCall>
    requires forall m :: 0 <= m < |starts| ==> starts[m] < |ts|
  {
    seq(|starts|, m requires 0 <= m < |starts| => FetchCall(starts[m], ts[starts[m]]))
  }

  /** `data_set` after the given calls: their interpolated days stacked in call order, or the failure of one. */
  function Gathered(env: WeatherEnv, fetches: seq<FetchCall>): Result<Option<seq<WeatherDay.Slot>>, Failure>
  {
    if fetches == [] then Ok(None)
    else
      match Gathered(env, fetches[..|fetches| - 1])
      case Err(e) => Err(e)
      case Ok(ds) =>
        match DayData(env.fetch(fetches[|fetches| - 1].slot), env.stepMinutes)
        case Err(e) => Err(e)
        case Ok(day) => Ok(Some(AppendDay(ds, day)))
  }

  /** `time_series` after the first `k` rows: each row's epoch quantized to the step. */
  ghost predicate SlotsOf(env: WeatherEnv, log: Log, k: nat, ts: seq<int>)
    requires k <= |log.rows|
  {
    |ts| == k &&
    forall j :: 0 <= j < k ==> Quantizer.FormatTime(RowEpoch(env.clock, log.rows[j]), env.stepMinutes) == Ok(ts[j])
  }

  /** The day bookkeeping after the first `k` rows: the last day seen, one call per day start, and their weather. */
  ghost predicate DaysOf(env: WeatherEnv, log: Log, k: nat, s: WeatherState)
    requires k <= |log.rows| && |s.timeSeries| == k
  {
    && s.currentDay == DayBefore(log.rows, k)
    && s.fetches == FetchesAt(DayStarts(log.rows, k), s.timeSeries)
    && Gathered(env, s.fetches) == Ok(s.dataSet)
  }

  /**
   * The state the driver has after the first `k` rows: one quantized slot and one count per row,
   * the last row's day as `current_day`, one forecast call per day start, the weather of exactly
   * those calls, and one checkpoint per completed interval.
   */
  ghost predicate Traced(env: WeatherEnv, log: Log, k: nat, s: WeatherState)
    requires k <= |log.rows|
  {
    && SlotsOf(env, log, k, s.timeSeries) && s.saveCount == k
    && DaysOf(env, log, k, s)
    && s.checkpoints == Multiples(k, env.saveInterval)
  }

  /** A pass that succeeds went through a quantized slot, the day-change branch and the checkpoint test. */
  lemma StepDecomposed(env: WeatherEnv, log: Log, s: WeatherState, i: nat, t: WeatherState)
    returns (slot: int, changed: WeatherState)
    requires i < |log.rows| && WeatherStep(env, log, s, i) == Ok(t)
    ensures Quantizer.FormatTime(RowEpoch(env.clock, log.rows[i]), env.stepMinutes) == Ok(slot)
    ensures DayChange(env, log, Counted(s, slot), i, slot) == Ok(changed)
    ensures AfterDay(env, log, changed) == Ok(t)
  {
    slot := Quantizer.FormatTime(RowEpoch(env.clock, log.rows[i]), env.stepMinutes).value;
    changed := DayChange(env, log, Counted(s, slot), i, slot).value;
  }

  /** The day-change branch fetches once when the label differs and touches nothing but the day, the weather and the calls. */
  lemma DayChangeEffects(env: WeatherEnv, log: Log, c: WeatherState, i: nat, slot: int, d: WeatherState)
    requires i < |log.rows| && DayChange(env, log, c, i, slot) == Ok(d)
    ensures d.timeSeries == c.timeSeries && d.saveCount == c.saveCount
    ensures d.table == c.table && d.checkpoints == c.checkpoints
    ensures d.currentDay == log.rows[i].dia
    ensures d.fetches == c.fetches + if c.currentDay != log.rows[i].dia then [FetchCall(i, slot)] else []
    ensures c.currentDay == log.rows[i].dia ==> d.dataSet == c.dataSet
    ensures c.currentDay != log.rows[i].dia ==>
      DayData(env.fetch(slot), env.stepMinutes).Ok? &&
      d.dataSet == Some(AppendDay(c.dataSet, DayData(env.fetch(slot), env.stepMinutes).value))
  {
  }

  /** The checkpoint test saves exactly when the count is a positive multiple of the interval, and changes nothing else. */
  lemma AfterDayEffects(env: WeatherEnv, log: Log, c: WeatherState, t: WeatherState)
    requires AfterDay(env, log, c) == Ok(t)
    ensures t.timeSeries == c.timeSeries && t.saveCount == c.saveCount && t.currentDay == c.currentDay
    ensures t.dataSet == c.dataSet && t.fetches == c.fetches
    ensures var due := env.saveInterval > 0 && c.saveCount % env.saveInterval == 0;
      t.checkpoints == c.checkpoints + (if due then [|c.timeSeries|] else [])
    ensures env.saveInterval > 0 && c.saveCount % env.saveInterval == 0 ==>
      SaveWeather(log, c.dataSet, c.timeSeries, c.table) == Ok(t.table)
    ensures !(env.saveInterval > 0 && c.saveCount % env.saveInterval == 0) ==> t.table == c.table
  {
  }

  lemma FetchesAtLonger(starts: seq<nat>, ts: seq<int>, x: int)
    requires forall m :: 0 <= m < |starts| ==> starts[m] < |ts|
    ensures FetchesAt(starts, ts + [x]) == FetchesAt(starts, ts)
  {
  }

  lemma FetchesAtNewStart(starts: seq<nat>, ts: seq<int>)
    requires forall m :: 0 <= m < |starts| ==> starts[m] < |ts|
    requires |ts| > 0
    ensures FetchesAt(starts + [|ts| - 1], ts) == FetchesAt(starts, ts) + [FetchCall(|ts| - 1, ts[|ts| - 1])]
  {
  }

  lemma GatheredOneMore(env: WeatherEnv, fetches: seq<FetchCall>, f: FetchCall)
    ensures Gathered(env, fetches + [f]) ==
      match Gathered(env, fetches)
      case Err(e) => Err(e)
      case Ok(ds) =>
        match DayData(env.fetch(f.slot), env.stepMinutes)
        case Err(e) => Err(e)
        case Ok(day) => Ok(Some(AppendDay(ds, day)))
  {
    assert (fetches + [f])[..|fetches + [f]| - 1] == fetches;
  }

  /** A successful pass appends row `k`'s slot to the series, counts it, and checkpoints on the interval. */
  lemma StepTracesSeries(env: WeatherEnv, log: Log, k: nat, s: WeatherState, t: WeatherState)
    requires k < |log.rows| && WeatherStep(env, log, s, k) == Ok(t)
    requires SlotsOf(env, log, k, s.timeSeries) && s.saveCount == k && s.checkpoints == Multiples(k, env.saveInterval)
    ensures SlotsOf(env, log, k + 1, t.timeSeries) && t.saveCount == k + 1
    ensures t.checkpoints == Multiples(k + 1, env.saveInterval)
  {
    var slot, changed := StepDecomposed(env, log, s, k, t);
    DayChangeEffects(env, log, Counted(s, slot), k, slot, changed);
    AfterDayEffects(env, log, changed, t);
    MultiplesNext(k, env.saveInterval);
    SlotsExtend(env, log, k, s.timeSeries, slot);
  }

  lemma SlotsExtend(env: WeatherEnv, log: Log, k: nat, ts: seq<int>, slot: int)
    requires k < |log.rows| && SlotsOf(env, log, k, ts)
    requires Quantizer.FormatTime(RowEpoch(env.clock, log.rows[k]), env.stepMinutes) == Ok(slot)
    ensures SlotsOf(env, log, k + 1, ts + [slot])
  {
    assert forall j :: 0 <= j < k ==> (ts + [slot])[j] == ts[j];
  }

  /** A successful pass opens row `k`'s day exactly when it is a day start, with one call at its slot. */
  lemma StepTracesDays(env: WeatherEnv, log: Log, k: nat, s: WeatherState, t: WeatherState)
    requires k < |log.rows| && WeatherStep(env, log, s, k) == Ok(t)
    requires |s.timeSeries| == k && DaysOf(env, log, k, s)
    ensures |t.timeSeries| == k + 1 && DaysOf(env, log, k + 1, t)
  {
    var slot, changed := StepDecomposed(env, log, s, k, t);
    DayChangeEffects(env, log, Counted(s, slot), k, slot, changed);
    AfterDayEffects(env, log, changed, t);
    var starts := DayStarts(log.rows, k);
    assert t.timeSeries == s.timeSeries + [slot];
    FetchesAtLonger(starts, s.timeSeries, slot);
    if IsDayStart(log.rows, k) {
      assert DayStarts(log.rows, k + 1) == starts + [k];
      FetchesAtNewStart(starts, t.timeSeries);
      GatheredOneMore(env, s.fetches, FetchCall(k, slot));
    } else {
      assert DayStarts(log.rows, k + 1) == starts;
    }
  }

  /** A successful pass over row `k` extends the trace of the first `k` rows to `k + 1`. */
  lemma StepTraced(env: WeatherEnv, log: Log, k: nat, s: WeatherState, t: WeatherState)
    requires k < |log.rows| && Traced(env, log, k, s) && WeatherStep(env, log, s, k) == Ok(t)
    ensures Traced(env, log, k + 1, t)
  {
    StepTracesSeries(env, log, k, s, t);
    StepTracesDays(env, log, k, s, t);
  }

  /** Whatever row count the loop reaches without an exception, its state is the trace of those rows. */
  lemma {:induction false} LoopTraced(env: WeatherEnv, log: Log, db: seq<WeatherRow>, k: nat)
    requires k <= |log.rows| && WeatherLoop(env, log, db, k).Ok?
    ensures Traced(env, log, k, WeatherLoop(env, log, db, k).value)
  {
    if k > 0 {
      assert WeatherLoop(env, log, db, k - 1).Ok?;
      var s := WeatherLoop(env, log, db, k - 1).value;
      LoopTraced(env, log, db, k - 1);
      LoopNext(env, log, db, k - 1, s);
      StepTraced(env, log, k - 1, s, WeatherLoop(env, log, db, k).value);
    }
  }

  /** `row` opened a day on which the driver called the forecast service. */
  ghost predicate FetchedRow(fetches: seq<FetchCall>, row: nat)
  {
    exists m :: 0 <= m < |fetches| && fetches[m].row == row
  }

  /**
   * After the first `k` rows the driver has called the forecast service once for each row that
   * opens a day, and for no other row, in row order, each time with that row's quantized slot.
   */
  lemma FetchOncePerDayStart(env: WeatherEnv, log: Log, k: nat, s: WeatherState)
    requires k <= |log.rows| && Traced(env, log, k, s)
    ensures forall m :: 0 <= m < |s.fetches| ==>
      s.fetches[m].row < k && IsDayStart(log.rows, s.fetches[m].row) &&
      Quantizer.FormatTime(RowEpoch(env.clock, log.rows[s.fetches[m].row]), env.stepMinutes) == Ok(s.fetches[m].slot)
    ensures forall i: nat :: i < k && IsDayStart(log.rows, i) ==> FetchedRow(s.fetches, i)
    ensures forall a, b :: 0 <= a < b < |s.fetches| ==> s.fetches[a].row < s.fetches[b].row
  {
    var starts := DayStarts(log.rows, k);
    forall m | 0 <= m < |s.fetches|
      ensures s.fetches[m].row < k && IsDayStart(log.rows, s.fetches[m].row)
      ensures Quantizer.FormatTime(RowEpoch(env.clock, log.rows[s.fetches[m].row]), env.stepMinutes) == Ok(s.fetches[m].slot)
    {
      assert s.fetches[m] == FetchCall(starts[m], s.timeSeries[starts[m]]);
      assert starts[m] in starts;
    }
    forall i: nat | i < k && IsDayStart(log.rows, i) ensures FetchedRow(s.fetches, i) {
      assert i in starts;
      var m :| 0 <= m < |starts| && starts[m] == i;
      assert s.fetches[m].row == i;
    }
  }

  /** A date that comes back after another date is fetched again, at a row after the other date. */
  lemma ReappearingDayFetchedAgain(env: WeatherEnv, log: Log, k: nat, s: WeatherState, i: nat, m: nat, j: nat)
    requires k <= |log.rows| && Traced(env, log, k, s)
    requires i < m < j < k && log.rows[i].dia == log.rows[j].dia && log.rows[m].dia != log.rows[j].dia
    ensures exists n :: 0 <= n < |s.fetches| && m < s.fetches[n].row <= j && log.rows[s.fetches[n].row].dia == log.rows[j].dia
  {
    ReappearingDayStartsAgain(log.rows, k, i, m, j);
    var p :| m < p <= j && p in DayStarts(log.rows, k) && log.rows[p].dia == log.rows[j].dia;
    FetchOncePerDayStart(env, log, k, s);
    assert FetchedRow(s.fetches, p);
  }

  /**
   * A run that completes has one quantized slot per row, one forecast call per day start with the
   * weather of exactly those calls, and a checkpoint at every positive multiple of the interval
   * plus the final one, each saving the whole series gathered so far.
   */
  lemma RunTraced(env: WeatherEnv, log: Log, db: seq<WeatherRow>)
    requires WeatherRun(env, log, db).Ok?
    ensures var s := WeatherRun(env, log, db).value;
      && SlotsOf(env, log, |log.rows|, s.timeSeries) && s.saveCount == |log.rows|
      && DaysOf(env, log, |log.rows|, s)
      && s.checkpoints == Multiples(|log.rows|, env.saveInterval) + [|log.rows|]
  {
    var n := |log.rows|;
    assert WeatherLoop(env, log, db, n).Ok?;
    LoopTraced(env, log, db, n);
  }

  /** The table a completed run leaves ascends by time and holds each `hora` once. */
  lemma RunTableOrdered(env: WeatherEnv, log: Log, db: seq<WeatherRow>)
    requires WeatherRun(env, log, db).Ok?
    ensures Checkpoint.SortedBy(WeatherRun(env, log, db).value.table, RowTime)
    ensures forall a, b :: 0 <= a < |WeatherRun(env, log, db).value.table| && 0 <= b < |WeatherRun(env, log, db).value.table| && a != b ==>
      WeatherRun(env, log, db).value.table[a].hora != WeatherRun(env, log, db).value.table[b].hora
  {
    var s := WeatherLoop(env, log, db, |log.rows|).value;
    SavedWeatherOrdered(log, s.dataSet, s.timeSeries, s.table);
  }

  /** A step of zero minutes stops the driver at the first row with a division by zero. */
  lemma ZeroStepFails(env: WeatherEnv, log: Log, db: seq<WeatherRow>)
    requires env.stepMinutes == 0 && |log.rows| > 0
    ensures WeatherRun(env, log, db) == Err(ZeroStep)
  {
    assert WeatherLoop(env, log, db, 1) == Err(ZeroStep);
    LoopFailureIsFinal(env, log, db, 1);
  }

  /** A log that already has a `time` column never completes: at the latest the final save rejects it. */
  lemma TimeColumnFails(env: WeatherEnv, log: Log, db: seq<WeatherRow>)
    requires log.hasTimeColumn
    ensures WeatherRun(env, log, db).Err?
    ensures WeatherLoop(env, log, db, |log.rows|).Ok? ==> WeatherRun(env, log, db) == Err(TimeColumnExists)
  {
    if WeatherLoop(env, log, db, |log.rows|).Ok? {
      LoopTraced(env, log, db, |log.rows|);
    }
  }

  /** An empty log reaches the final save with no weather data, which the join rejects. */
  lemma EmptyLogFails(env: WeatherEnv, log: Log, db: seq<WeatherRow>)
    requires log.rows == [] && !log.hasTimeColumn
    ensures WeatherRun(env, log, db) == Err(NoWeatherData)
  {
  }

  // ----- the stored table an exception leaves behind -----

  /**
   * The stored table once the loop has tried the first `k` rows: the table of the last state it
   * reached. A pass that raises stops the driver before it writes anything, so the file keeps what
   * the last checkpoint wrote.
   */
  function LastStored(env: WeatherEnv, log: Log, db: seq<WeatherRow>, k: nat): seq<WeatherRow>
    requires k <= |log.rows|
  {
    if k == 0 then db
    else
      match WeatherLoop(env, log, db, k)
      case Ok(s) => s.table
      case Err(_) => LastStored(env, log, db, k - 1)
  }

  /** The stored table when the run ends: what the final save wrote, or the last table written before the exception. */
  function StoredAfterRun(env: WeatherEnv, log: Log, db: seq<WeatherRow>): seq<WeatherRow>
  {
    match WeatherRun(env, log, db)
    case Ok(s) => s.table
    case Err(_) => LastStored(env, log, db, |log.rows|)
  }

  lemma FailedLoopStays(env: WeatherEnv, log: Log, db: seq<WeatherRow>, j: nat)
    requires 0 < j <= |log.rows| && WeatherLoop(env, log, db, j - 1).Err?
    ensures WeatherLoop(env, log, db, j).Err?
  {
  }

  lemma LastStoredOfFailed(env: WeatherEnv, log: Log, db: seq<WeatherRow>, j: nat)
    requires 0 < j <= |log.rows| && WeatherLoop(env, log, db, j).Err?
    ensures LastStored(env, log, db, j) == LastStored(env, log, db, j - 1)
  {
  }

  lemma LastStoredOfReached(env: WeatherEnv, log: Log, db: seq<WeatherRow>, j: nat, s: WeatherState)
    requires j <= |log.rows| && WeatherLoop(env, log, db, j) == Ok(s)
    ensures LastStored(env, log, db, j) == s.table
  {
  }

  /** Once the pass over row `k - 1` has raised, the stored table stays the one held before it. */
  lemma {:induction false} LastStoredAfterFailure(env: WeatherEnv, log: Log, db: seq<WeatherRow>, k: nat, j: nat)
    requires 0 < k <= j <= |log.rows| && WeatherLoop(env, log, db, k).Err?
    ensures WeatherLoop(env, log, db, j).Err? && LastStored(env, log, db, j) == LastStored(env, log, db, k - 1)
    decreases j
  {
    if j == k {
      LastStoredOfFailed(env, log, db, k);
    } else {
      LastStoredAfterFailure(env, log, db, k, j - 1);
      FailedLoopStays(env, log, db, j);
      LastStoredOfFailed(env, log, db, j);
    }
  }

  /**
   * When the pass over row `k - 1` raises, the run fails and the stored table is the one the
   * driver held before that pass: the checkpoints already written survive the exception.
   */
  lemma FailureKeepsStoredTable(env: WeatherEnv, log: Log, db: seq<WeatherRow>, k: nat, s: WeatherState)
    requires 0 < k <= |log.rows|
    requires WeatherLoop(env, log, db, k - 1) == Ok(s) && WeatherLoop(env, log, db, k).Err?
    ensures WeatherRun(env, log, db).Err? && StoredAfterRun(env, log, db) == s.table
  {
    LoopFailureIsFinal(env, log, db, k);
    LastStoredAfterFailure(env, log, db, k, |log.rows|);
    LastStoredOfReached(env, log, db, k - 1, s);
  }

  /** When only the final save raises, the stored table is the one the last periodic checkpoint wrote. */
  lemma FinalSaveFailureKeepsStoredTable(env: WeatherEnv, log: Log, db: seq<WeatherRow>, s: WeatherState)
    requires WeatherLoop(env, log, db, |log.rows|) == Ok(s) && Checkpointed(log, s).Err?
    ensures WeatherRun(env, log, db).Err? && StoredAfterRun(env, log, db) == s.table
  {
    RunIsFinalSave(env, log, db, s);
  }

  /**
   * The pass over row `k - 1` changes the stored table only when `k` is a positive multiple of the
   * interval, and then to the save of everything gathered after that row.
   */
  lemma TableChangesAtCheckpoints(env: WeatherEnv, log: Log, db: seq<WeatherRow>, k: nat)
    requires 0 < k <= |log.rows| && WeatherLoop(env, log, db, k).Ok?
    ensures WeatherLoop(env, log, db, k - 1).Ok?
    ensures var s, t := WeatherLoop(env, log, db, k - 1).value, WeatherLoop(env, log, db, k).value;
      if CheckpointDue(k, env.saveInterval) then SaveWeather(log, t.dataSet, t.timeSeries, s.table) == Ok(t.table)
      else t.table == s.table
  {
    var s := WeatherLoop(env, log, db, k - 1).value;
    var t := WeatherLoop(env, log, db, k).value;
    LoopTraced(env, log, db, k - 1);
    LoopNext(env, log, db, k - 1, s);
    var slot, changed := StepDecomposed(env, log, s, k - 1, t);
    DayChangeEffects(env, log, Counted(s, slot), k - 1, slot, changed);
    AfterDayEffects(env, log, changed, t);
  }

  /**
   * Between two checkpoints the stored table stays as the earlier one left it: if no positive
   * multiple of the interval lies in `(c, k]`, the table after `k` rows is the table after `c`.
   */
  lemma {:induction false} TableSinceCheckpoint(env: WeatherEnv, log: Log, db: seq<WeatherRow>, c: nat, k: nat, t: WeatherState)
    returns (u: WeatherState)
    requires c <= k <= |log.rows| && WeatherLoop(env, log, db, k) == Ok(t)
    requires forall m :: c < m <= k ==> !CheckpointDue(m, env.saveInterval)
    ensures WeatherLoop(env, log, db, c) == Ok(u) && u.table == t.table
    decreases k
  {
    if c == k {
      u := t;
    } else {
      assert !CheckpointDue(k, env.saveInterval);
      var s := TableKeptOffCheckpoint(env, log, db, k, t);
      assert forall m :: c < m <= k - 1 ==> !CheckpointDue(m, env.saveInterval);
      u := TableSinceCheckpoint(env, log, db, c, k - 1, s);
    }
  }

  lemma TableKeptOffCheckpoint(env: WeatherEnv, log: Log, db: seq<WeatherRow>, k: nat, t: WeatherState) returns (s: WeatherState)
    requires 0 < k <= |log.rows| && WeatherLoop(env, log, db, k) == Ok(t)
    requires !CheckpointDue(k, env.saveInterval)
    ensures WeatherLoop(env, log, db, k - 1) == Ok(s) && t.table == s.table
  {
    TableChangesAtCheckpoints(env, log, db, k);
    s := WeatherLoop(env, log, db, k - 1).value;
  }

  /** The forecast request for a slot and the interpolation of its result (Parser.py:41-42). */
  method FetchDay(env: WeatherEnv, slot: int) returns (r: Result<seq<WeatherDay.Slot>, Failure>)
    ensures r == DayData(env.fetch(slot), env.stepMinutes)
  {
    var result := env.fetch(slot);
    var dayData := WeatherDay.InterpolateData(result, env.stepMinutes);
    if dayData.Err? {
      return Err(dayData.error);
    }
    WeatherDay.DaySeriesKeys(result, env.stepMinutes);
    r := Ok(WeatherDay.FrameRows(dayData.value));
  }

  /** One pass of the loop body of Parser.py:32-49 over row `i`. */
  method ProcessRow(env: WeatherEnv, log: Log, s: WeatherState, i: nat) returns (r: Result<WeatherState, Failure>)
    requires i < |log.rows|
    ensures r == WeatherStep(env, log, s, i)
  {
    var saveCount := s.saveCount + 1;
    var formatted := Quantizer.FormatTime(RowEpoch(env.clock, log.rows[i]), env.stepMinutes);
    if formatted.Err? {
      return Err(formatted.error);
    }
    var unixTime := formatted.value;
    var timeSeries := s.timeSeries + [unixTime];
    ghost var counted := Counted(s, unixTime);
    var currentDay, dataSet, fetches := s.currentDay, s.dataSet, s.fetches;
    if currentDay != log.rows[i].dia {
      currentDay := log.rows[i].dia;
      var dayData := FetchDay(env, unixTime);
      if dayData.Err? {
        return Err(dayData.error);
      }
      var day := dayData.value;
      if dataSet.None? {
        dataSet := Some(day);
      } else {
        dataSet := Some(dataSet.value + day);
      }
      fetches := fetches + [FetchCall(i, unixTime)];
    }
    var changed := WeatherState(currentDay, dataSet, timeSeries, saveCount, s.table, fetches, s.checkpoints);
    assert DayChange(env, log, counted, i, unixTime) == Ok(changed);
    StepParts(env, log, s, i, unixTime, changed);
    if env.saveInterval > 0 && saveCount % env.saveInterval == 0 {
      r := SaveCheckpoint(log, changed);
    } else {
      r := Ok(changed);
    }
  }

  /** `save(dfa, data_set, time_series)` called from the driver, recording the series length it saved. */
  method SaveCheckpoint(log: Log, s: WeatherState) returns (r: Result<WeatherState, Failure>)
    ensures r == Checkpointed(log, s)
  {
    var saved := SaveWeather(log, s.dataSet, s.timeSeries, s.table);
    if saved.Err? {
      return Err(saved.error);
    }
    r := Ok(s.(table := saved.value, checkpoints := s.checkpoints + [|s.timeSeries|]));
  }

  /** Rows `0..i` processed from state `s`: the pass over row `i` yields the fold's next state. */
  method Advance(env: WeatherEnv, log: Log, db: seq<WeatherRow>, s: WeatherState, i: nat) returns (r: Result<WeatherState, Failure>)
    requires i < |log.rows| && WeatherLoop(env, log, db, i) == Ok(s)
    ensures r == WeatherLoop(env, log, db, i + 1)
    ensures r.Err? ==> WeatherRun(env, log, db) == Err(r.error)
  {
    LoopNext(env, log, db, i, s);
    r := ProcessRow(env, log, s, i);
    if r.Err? {
      LoopFailureIsFinal(env, log, db, i + 1);
    }
  }

  /** The unconditional save after the loop (Parser.py:50). */
  method FinalSave(env: WeatherEnv, log: Log, db: seq<WeatherRow>, s: WeatherState) returns (r: Result<WeatherState, Failure>)
    requires WeatherLoop(env, log, db, |log.rows|) == Ok(s)
    ensures r == WeatherRun(env, log, db)
  {
    RunIsFinalSave(env, log, db, s);
    r := SaveCheckpoint(log, s);
  }

  /** `main` as Parser.py:28-50 runs it: every row in order, then the final save. */
  method RunWeather(env: WeatherEnv, log: Log, db: seq<WeatherRow>) returns (r: Result<WeatherState, Failure>)
    ensures r == WeatherRun(env, log, db)
  {
    var state := WeatherInit(db);
    for i := 0 to |log.rows|
      invariant WeatherLoop(env, log, db, i) == Ok(state)
    {
      var next := Advance(env, log, db, state, i);
      if next.Err? {
        return Err(next.error);
      }
      state := next.value;
    }
    r := FinalSave(env, log, db, state);
  }
}
