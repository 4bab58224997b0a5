/**
 * The solar driver `main` (Parser-Sun.py:16-39): it walks the log in order, quantizes each row's
 * epoch, appends the sun's altitude at that slot to the series, notes the `dia` label, checkpoints
 * every `saveInterval` rows and once more at the end. `SolarLoop` and `SolarRun` state it as a fold
 * over the rows; `RunSolar` is the loop itself.
 */
module SolarDriver {
  import opened Wrappers
  import opened Failures
  import Quantizer
  import opened SensorLog
  import opened SolarPipeline
  import Checkpoint

  /** A call of the altitude routine: the two coordinates and the slot passed to it. */
  datatype AltitudeCall = AltitudeCall(lat: real, lon: real, slot: int)

  /**
   * What the driver takes from outside: the step in minutes and the location (from user.json),
   * the checkpoint interval, the local clock turning `dia + hora` into an epoch, and the altitude
   * routine.
   */
  datatype SolarEnv = SolarEnv(stepMinutes: int, saveInterval: int, clock: string -> int,
                               latitude: real, longitude: real, altitude: (real, real, int) -> real)

  /**
   * The driver's variables: `current_day`, `sun_series`, `save_count`, the stored table, and a
   * record of the altitude calls made and of the series length at each save.
   */
  datatype SolarState = SolarState(currentDay: string, sunSeries: seq<real>, saveCount: nat, table: seq<SolarRow>,
                                   calls: seq<AltitudeCall>, checkpoints: seq<nat>)

  function SolarInit(db: seq<SolarRow>): SolarState
  {
    SolarState("", [], 0, db, [], [])
  }

  /** The altitude call made for a slot: the location's first coordinate is passed twice. */
  function CallFor(env: SolarEnv, slot: int): AltitudeCall
  {
    AltitudeCall(env.latitude, env.latitude, slot)
  }

  /** `save_count += 1` and `sun_series.append(get_altitude(...))` for a row quantized to `slot`. */
  function Sampled(env: SolarEnv, s: SolarState, slot: int): SolarState
  {
    var call := CallFor(env, slot);
    s.(saveCount := s.saveCount + 1, sunSeries := s.sunSeries + [env.altitude(call.lat, call.lon, call.slot)],
       calls := s.calls + [call])
  }

  /** The day-change branch: it only records the new label. */
  function DayNoted(s: SolarState, dia: string): SolarState
  {
    if s.currentDay != dia then s.(currentDay := dia) else s
  }

  /** A save of the whole series into the stored table. */
  function Checkpointed(log: Log, s: SolarState): Result<SolarState, Failure>
  {
    match SaveSolar(log, s.sunSeries, s.table)
    case Err(e) => Err(e)
    case Ok(t) => Ok(s.(table := t, checkpoints := s.checkpoints + [|s.sunSeries|]))
  }

  /** The checkpoint test at the end of a pass. */
  function AfterDay(env: SolarEnv, log: Log, s: SolarState): Result<SolarState, Failure>
  {
    if env.saveInterval > 0 && s.saveCount % env.saveInterval == 0 then Checkpointed(log, s) else Ok(s)
  }

  /** One pass of the loop body for row `i`. */
  function SolarStep(env: SolarEnv, log: Log, s: SolarState, i: nat): Result<SolarState, Failure>
    requires i < |log.rows|
  {
    match Quantizer.FormatTime(RowEpoch(env.clock, log.rows[i]), env.stepMinutes)
    case Err(e) => Err(e)
    case Ok(slot) => AfterDay(env, log, DayNoted(Sampled(env, s, slot), log.rows[i].dia))
  }

  /** The state after the first `k` rows, or the exception that stopped the loop. */
  function SolarLoop(env: SolarEnv, log: Log, db: seq<SolarRow>, k: nat): Result<SolarState, Failure>
    requires k <= |log.rows|
  {
    if k == 0 then Ok(SolarInit(db))
    else
      match SolarLoop(env, log, db, k - 1)
      case Err(e) => Err(e)
      case Ok(s) => SolarStep(env, log, s, k - 1)
  }

  /** The whole run: the loop over every row, then the final save. */
  function SolarRun(env: SolarEnv, log: Log, db: seq<SolarRow>): Result<SolarState, Failure>
  {
    match SolarLoop(env, log, db, |log.rows|)
    case Err(e) => Err(e)
    case Ok(s) => Checkpointed(log, s)
  }

  lemma LoopNext(env: SolarEnv, log: Log, db: seq<SolarRow>, i: nat, s: SolarState)
    requires i < |log.rows| && SolarLoop(env, log, db, i) == Ok(s)
    ensures SolarLoop(env, log, db, i + 1) == SolarStep(env, log, s, i)
  {
  }

  lemma RunIsFinalSave(env: SolarEnv, log: Log, db: seq<SolarRow>, s: SolarState)
    requires SolarLoop(env, log, db, |log.rows|) == Ok(s)
    ensures SolarRun(env, log, db) == Checkpointed(log, s)
  {
  }

  /** An exception inside the loop is the outcome of the run. */
  lemma {:induction false} LoopFailureIsFinal(env: SolarEnv, log: Log, db: seq<SolarRow>, k: nat)
    requires k <= |log.rows| && SolarLoop(env, log, db, k).Err?
    ensures SolarRun(env, log, db) == Err(SolarLoop(env, log, db, k).error)
    decreases |log.rows| - k
  {
    if k < |log.rows| {
      assert SolarLoop(env, log, db, k + 1) == SolarLoop(env, log, db, k);
      LoopFailureIsFinal(env, log, db, k + 1);
    }
  }

  /**
   * The label the driver holds has no influence on a pass: after it `current_day` is the row's
   * label either way, and the series, the count, the calls and the table come out the same.
   */
  lemma DayLabelIsInert(env: SolarEnv, log: Log, s: SolarState, i: nat, d: string)
    requires i < |log.rows|
    ensures SolarStep(env, log, s.(currentDay := d), i) == SolarStep(env, log, s, i)
  {
    match Quantizer.FormatTime(RowEpoch(env.clock, log.rows[i]), env.stepMinutes)
    case Err(_) =>
    case Ok(slot) =>
      assert DayNoted(Sampled(env, s.(currentDay := d), slot), log.rows[i].dia)
          == DayNoted(Sampled(env, s, slot), log.rows[i].dia);
  }

  // ----- what the loop has done after `k` rows -----

  /**
   * The series after the first `k` rows: one altitude per row, taken at that row's quantized
   * epoch, with the location's first coordinate passed as both coordinates.
   */
  ghost predicate SampledRows(env: SolarEnv, log: Log, k: nat, s: SolarState)
    requires k <= |log.rows|
  {
    && |s.sunSeries| == k && |s.calls| == k
    && forall j :: 0 <= j < k ==>
         && Quantizer.FormatTime(RowEpoch(env.clock, log.rows[j]), env.stepMinutes) == Ok(s.calls[j].slot)
         && s.calls[j].lat == env.latitude && s.calls[j].lon == env.latitude
         && s.sunSeries[j] == env.altitude(s.calls[j].lat, s.calls[j].lon, s.calls[j].slot)
  }

  /** The state after the first `k` rows: sampled rows, one count each, the last label, and the checkpoints. */
  ghost predicate Traced(env: SolarEnv, log: Log, k: nat, s: SolarState)
    requires k <= |log.rows|
  {
    && SampledRows(env, log, k, s) && s.saveCount == k
    && s.currentDay == DayBefore(log.rows, k)
    && s.checkpoints == Multiples(k, env.saveInterval)
  }

  /** A pass that succeeds went through a quantized slot, a sample and the checkpoint test. */
  lemma StepDecomposed(env: SolarEnv, log: Log, s: SolarState, i: nat, t: SolarState) returns (slot: int)
    requires i < |log.rows| && SolarStep(env, log, s, i) == Ok(t)
    ensures Quantizer.FormatTime(RowEpoch(env.clock, log.rows[i]), env.stepMinutes) == Ok(slot)
    ensures AfterDay(env, log, Sampled(env, s, slot).(currentDay := log.rows[i].dia)) == Ok(t)
  {
    slot := Quantizer.FormatTime(RowEpoch(env.clock, log.rows[i]), env.stepMinutes).value;
    assert DayNoted(Sampled(env, s, slot), log.rows[i].dia) == Sampled(env, s, slot).(currentDay := log.rows[i].dia);
  }

  /** The checkpoint test saves exactly when the count is a positive multiple of the interval, and changes nothing else. */
  lemma AfterDayEffects(env: SolarEnv, log: Log, c: SolarState, t: SolarState)
    requires AfterDay(env, log, c) == Ok(t)
    ensures t.sunSeries == c.sunSeries && t.saveCount == c.saveCount && t.currentDay == c.currentDay
    ensures t.calls == c.calls
    ensures var due := env.saveInterval > 0 && c.saveCount % env.saveInterval == 0;
      t.checkpoints == c.checkpoints + (if due then [|c.sunSeries|] else [])
    ensures env.saveInterval > 0 && c.saveCount % env.saveInterval == 0 ==>
      SaveSolar(log, c.sunSeries, c.table) == Ok(t.table)
    ensures !(env.saveInterval > 0 && c.saveCount % env.saveInterval == 0) ==> t.table == c.table
  {
  }

  lemma SampledExtend(env: SolarEnv, log: Log, k: nat, s: SolarState, slot: int)
    requires k < |log.rows| && SampledRows(env, log, k, s)
    requires Quantizer.FormatTime(RowEpoch(env.clock, log.rows[k]), env.stepMinutes) == Ok(slot)
    ensures SampledRows(env, log, k + 1, Sampled(env, s, slot))
  {
    var n := Sampled(env, s, slot);
    assert forall j :: 0 <= j < k ==> n.calls[j] == s.calls[j] && n.sunSeries[j] == s.sunSeries[j];
  }

  /** A successful pass over row `k` extends the trace of the first `k` rows to `k + 1`. */
  lemma StepTraced(env: SolarEnv, log: Log, k: nat, s: SolarState, t: SolarState)
    requires k < |log.rows| && Traced(env, log, k, s) && SolarStep(env, log, s, k) == Ok(t)
    ensures Traced(env, log, k + 1, t)
  {
    var slot := StepDecomposed(env, log, s, k, t);
    var c := Sampled(env, s, slot).(currentDay := log.rows[k].dia);
    AfterDayEffects(env, log, c, t);
    MultiplesNext(k, env.saveInterval);
    SampledExtend(env, log, k, s, slot);
  }

  /** Whatever row count the loop reaches without an exception, its state is the trace of those rows. */
  lemma {:induction false} LoopTraced(env: SolarEnv, log: Log, db: seq<SolarRow>, k: nat)
    requires k <= |log.rows| && SolarLoop(env, log, db, k).Ok?
    ensures Traced(env, log, k, SolarLoop(env, log, db, k).value)
  {
    if k > 0 {
      assert SolarLoop(env, log, db, k - 1).Ok?;
      var s := SolarLoop(env, log, db, k - 1).value;
      LoopTraced(env, log, db, k - 1);
      LoopNext(env, log, db, k - 1, s);
      StepTraced(env, log, k - 1, s, SolarLoop(env, log, db, k).value);
    }
  }

  /**
   * A run that completes has one altitude per row, each at that row's quantized epoch, and a
   * checkpoint at every positive multiple of the interval plus the final one, each saving the
   * whole series gathered so far.
   */
  lemma RunTraced(env: SolarEnv, log: Log, db: seq<SolarRow>)
    requires SolarRun(env, log, db).Ok?
    ensures var s := SolarRun(env, log, db).value;
      && SampledRows(env, log, |log.rows|, s) && s.saveCount == |log.rows|
      && s.checkpoints == Multiples(|log.rows|, env.saveInterval) + [|log.rows|]
  {
    assert SolarLoop(env, log, db, |log.rows|).Ok?;
    LoopTraced(env, log, db, |log.rows|);
  }

  /** The table a completed run leaves ascends by time and holds each (`hora`, `dia`) once. */
  lemma RunTableOrdered(env: SolarEnv, log: Log, db: seq<SolarRow>)
    requires SolarRun(env, log, db).Ok?
    ensures Checkpoint.SortedBy(SolarRun(env, log, db).value.table, RowTime)
    ensures Checkpoint.UniqueKeys(SolarRun(env, log, db).value.table, RowKey)
  {
    var s := SolarLoop(env, log, db, |log.rows|).value;
    var rows := AttachAngles(log.rows[..|s.sunSeries|], s.sunSeries);
    Checkpoint.MergeProperties(s.table, rows, RowTime, RowKey);
  }

  /** A step of zero minutes stops the driver at the first row with a division by zero. */
  lemma ZeroStepFails(env: SolarEnv, log: Log, db: seq<SolarRow>)
    requires env.stepMinutes == 0 && |log.rows| > 0
    ensures SolarRun(env, log, db) == Err(ZeroStep)
  {
    assert SolarLoop(env, log, db, 1) == Err(ZeroStep);
    LoopFailureIsFinal(env, log, db, 1);
  }

  /** A log without a `time` column never completes: at the latest the final save rejects it. */
  lemma TimeColumnMissingFails(env: SolarEnv, log: Log, db: seq<SolarRow>)
    requires !log.hasTimeColumn
    ensures SolarRun(env, log, db).Err?
    ensures SolarLoop(env, log, db, |log.rows|).Ok? ==> SolarRun(env, log, db) == Err(TimeColumnMissing)
  {
    if SolarLoop(env, log, db, |log.rows|).Ok? {
      LoopTraced(env, log, db, |log.rows|);
    }
  }

  // ----- the stored table an exception leaves behind -----

  /**
   * The stored table once the loop has tried the first `k` rows: the table of the last state it
   * reached. A pass that raises stops the driver before it writes anything, so the file keeps what
   * the last checkpoint wrote.
   */
  function LastStored(env: SolarEnv, log: Log, db: seq<SolarRow>, k: nat): seq<SolarRow>
    requires k <= |log.rows|
  {
    if k == 0 then db
    else
      match SolarLoop(env, log, db, k)
      case Ok(s) => s.table
      case Err(_) => LastStored(env, log, db, k - 1)
  }

  /** The stored table when the run ends: what the final save wrote, or the last table written before the exception. */
  function StoredAfterRun(env: SolarEnv, log: Log, db: seq<SolarRow>): seq<SolarRow>
  {
    match SolarRun(env, log, db)
    case Ok(s) => s.table
    case Err(_) => LastStored(env, log, db, |log.rows|)
  }

  lemma FailedLoopStays(env: SolarEnv, log: Log, db: seq<SolarRow>, j: nat)
    requires 0 < j <= |log.rows| && SolarLoop(env, log, db, j - 1).Err?
    ensures SolarLoop(env, log, db, j).Err?
  {
  }

  lemma LastStoredOfFailed(env: SolarEnv, log: Log, db: seq<SolarRow>, j: nat)
    requires 0 < j <= |log.rows| && SolarLoop(env, log, db, j).Err?
    ensures LastStored(env, log, db, j) == LastStored(env, log, db, j - 1)
  {
  }

  lemma LastStoredOfReached(env: SolarEnv, log: Log, db: seq<SolarRow>, j: nat, s: SolarState)
    requires j <= |log.rows| && SolarLoop(env, log, db, j) == Ok(s)
    ensures LastStored(env, log, db, j) == s.table
  {
  }

  /** Once the pass over row `k - 1` has raised, the stored table stays the one held before it. */
  lemma {:induction false} LastStoredAfterFailure(env: SolarEnv, log: Log, db: seq<SolarRow>, k: nat, j: nat)
    requires 0 < k <= j <= |log.rows| && SolarLoop(env, log, db, k).Err?
    ensures SolarLoop(env, log, db, j).Err? && LastStored(env, log, db, j) == LastStored(env, log, db, k - 1)
    decreases j
  {
    if j == k {
      LastStoredOfFailed(env, log, db, k);
    } else {
      LastStoredAfterFailure(env, log, db, k, j - 1);
      FailedLoopStays(env, log, db, j);
      LastStoredOfFailed(env, log, db, j);
    }
  }

  /**
   * When the pass over row `k - 1` raises, the run fails and the stored table is the one the
   * driver held before that pass: the checkpoints already written survive the exception.
   */
  lemma FailureKeepsStoredTable(env: SolarEnv, log: Log, db: seq<SolarRow>, k: nat, s: SolarState)
    requires 0 < k <= |log.rows|
    requires SolarLoop(env, log, db, k - 1) == Ok(s) && SolarLoop(env, log, db, k).Err?
    ensures SolarRun(env, log, db).Err? && StoredAfterRun(env, log, db) == s.table
  {
    LoopFailureIsFinal(env, log, db, k);
    LastStoredAfterFailure(env, log, db, k, |log.rows|);
    LastStoredOfReached(env, log, db, k - 1, s);
  }

  /** When only the final save raises, the stored table is the one the last periodic checkpoint wrote. */
  lemma FinalSaveFailureKeepsStoredTable(env: SolarEnv, log: Log, db: seq<SolarRow>, s: SolarState)
    requires SolarLoop(env, log, db, |log.rows|) == Ok(s) && Checkpointed(log, s).Err?
    ensures SolarRun(env, log, db).Err? && StoredAfterRun(env, log, db) == s.table
  {
    RunIsFinalSave(env, log, db, s);
  }

  /**
   * The pass over row `k - 1` changes the stored table only when `k` is a positive multiple of the
   * interval, and then to the save of everything gathered after that row.
   */
  lemma TableChangesAtCheckpoints(env: SolarEnv, log: Log, db: seq<SolarRow>, k: nat)
    requires 0 < k <= |log.rows| && SolarLoop(env, log, db, k).Ok?
    ensures SolarLoop(env, log, db, k - 1).Ok?
    ensures var s, t := SolarLoop(env, log, db, k - 1).value, SolarLoop(env, log, db, k).value;
      if CheckpointDue(k, env.saveInterval) then SaveSolar(log, t.sunSeries, s.table) == Ok(t.table)
      else t.table == s.table
  {
    var s := SolarLoop(env, log, db, k - 1).value;
    var t := SolarLoop(env, log, db, k).value;
    LoopTraced(env, log, db, k - 1);
    LoopNext(env, log, db, k - 1, s);
    var slot := StepDecomposed(env, log, s, k - 1, t);
    AfterDayEffects(env, log, Sampled(env, s, slot).(currentDay := log.rows[k - 1].dia), t);
  }

  /**
   * Between two checkpoints the stored table stays as the earlier one left it: if no positive
   * multiple of the interval lies in `(c, k]`, the table after `k` rows is the table after `c`.
   */
  lemma {:induction false} TableSinceCheckpoint(env: SolarEnv, log: Log, db: seq<SolarRow>, c: nat, k: nat, t: SolarState)
    returns (u: SolarState)
    requires c <= k <= |log.rows| && SolarLoop(env, log, db, k) == Ok(t)
    requires forall m :: c < m <= k ==> !CheckpointDue(m, env.saveInterval)
    ensures SolarLoop(env, log, db, c) == Ok(u) && u.table == t.table
    decreases k
  {
    if c == k {
      u := t;
    } else {
      assert !CheckpointDue(k, env.saveInterval);
      var s := TableKeptOffCheckpoint(env, log, db, k, t);
      assert forall m :: c < m <= k - 1 ==> !CheckpointDue(m, env.saveInterval);
      u := TableSinceCheckpoint(env, log, db, c, k - 1, s);
    }
  }

  lemma TableKeptOffCheckpoint(env: SolarEnv, log: Log, db: seq<SolarRow>, k: nat, t: SolarState) returns (s: SolarState)
    requires 0 < k <= |log.rows| && SolarLoop(env, log, db, k) == Ok(t)
    requires !CheckpointDue(k, env.saveInterval)
    ensures SolarLoop(env, log, db, k - 1) == Ok(s) && t.table == s.table
  {
    TableChangesAtCheckpoints(env, log, db, k);
    s := SolarLoop(env, log, db, k - 1).value;
  }

  /** The altitude request for one slot (Parser-Sun.py:29). */
  method SunAngle(env: SolarEnv, slot: int) returns (angle: real, call: AltitudeCall)
    ensures call == CallFor(env, slot) && angle == env.altitude(call.lat, call.lon, call.slot)
  {
    call := AltitudeCall(env.latitude, env.latitude, slot);
    angle := env.altitude(env.latitude, env.latitude, slot);
  }

  /** One pass of the loop body of Parser-Sun.py:26-38 over row `i`. */
  method ProcessRow(env: SolarEnv, log: Log, s: SolarState, i: nat) returns (r: Result<SolarState, Failure>)
    requires i < |log.rows|
    ensures r == SolarStep(env, log, s, i)
  {
    var saveCount := s.saveCount + 1;
    var formatted := Quantizer.FormatTime(RowEpoch(env.clock, log.rows[i]), env.stepMinutes);
    if formatted.Err? {
      return Err(formatted.error);
    }
    var unixTime := formatted.value;
    var angle, call := SunAngle(env, unixTime);
    var sunSeries := s.sunSeries + [angle];
    var currentDay := s.currentDay;
    if currentDay != log.rows[i].dia {
      currentDay := log.rows[i].dia;
    }
    var noted := SolarState(currentDay, sunSeries, saveCount, s.table, s.calls + [call], s.checkpoints);
    assert noted == DayNoted(Sampled(env, s, unixTime), log.rows[i].dia);
    if env.saveInterval > 0 && saveCount % env.saveInterval == 0 {
      r := SaveCheckpoint(log, noted);
    } else {
      r := Ok(noted);
    }
  }

  /** `save(dfa, sun_series)` called from the driver, recording the series length it saved. */
  method SaveCheckpoint(log: Log, s: SolarState) returns (r: Result<SolarState, Failure>)
    ensures r == Checkpointed(log, s)
  {
    var saved := SaveSolar(log, s.sunSeries, s.table);
    if saved.Err? {
      return Err(saved.error);
    }
    r := Ok(s.(table := saved.value, checkpoints := s.checkpoints + [|s.sunSeries|]));
  }

  /** Rows `0..i` processed from state `s`: the pass over row `i` yields the fold's next state. */
  method Advance(env: SolarEnv, log: Log, db: seq<SolarRow>, s: SolarState, i: nat) returns (r: Result<SolarState, Failure>)
    requires i < |log.rows| && SolarLoop(env, log, db, i) == Ok(s)
    ensures r == SolarLoop(env, log, db, i + 1)
    ensures r.Err? ==> SolarRun(env, log, db) == Err(r.error)
  {
    LoopNext(env, log, db, i, s);
    r := ProcessRow(env, log, s, i);
    if r.Err? {
      LoopFailureIsFinal(env, log, db, i + 1);
    }
  }

  /** The unconditional save after the loop (Parser-Sun.py:39). */
  method FinalSave(env: SolarEnv, log: Log, db: seq<SolarRow>, s: SolarState) returns (r: Result<SolarState, Failure>)
    requires SolarLoop(env, log, db, |log.rows|) == Ok(s)
    ensures r == SolarRun(env, log, db)
  {
    RunIsFinalSave(env, log, db, s);
    r := SaveCheckpoint(log, s);
  }

  /** `main` as Parser-Sun.py:22-39 runs it: every row in order, then the final save. */
  method RunSolar(env: SolarEnv, log: Log, db: seq<SolarRow>) returns (r: Result<SolarState, Failure>)
    ensures r == SolarRun(env, log, db)
  {
    var state := SolarInit(db);
    for i := 0 to |log.rows|
      invariant SolarLoop(env, log, db, i) == Ok(state)
    {
      var next := Advance(env, log, db, state, i);
      if next.Err? {
        return Err(next.error);
      }
      state := next.value;
    }
    r := FinalSave(env, log, db, state);
  }
}
