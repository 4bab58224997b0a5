/**
 * One day of forecast data turned into a frame (`interpolate_data` and `to_celsius`, Parser.py).
 * The forecast's hourly records are written into a 24-row table, combined by time key with an
 * all-unset grid of 288 slots, and then interpolated column by column.
 */
module WeatherDay {
  import opened Wrappers
  import opened Failures
  import Quantizer
  import Interpolation
  import SensorLog

  /** The variables the darksky hourly record may carry, under the API's names. */
  datatype Field = Temperature | DewPoint | CloudCover | PrecipProbability | PrecipIntensity | Visibility | UvIndex

  /** One hourly record of the forecast: its epoch and the variables it carries. */
  datatype HourlyRecord = HourlyRecord(time: int, values: map<Field, real>)

  /** A row of the 24-row source table: its time key and one cell per output column. */
  datatype HourlyRow = HourlyRow(time: int, cells: seq<Option<real>>)

  /** One slot of a day frame: its time key and one cell per output column. */
  datatype Slot = Slot(time: int, cells: seq<Option<real>>)

  /**
   * A day frame: sorted keys and the seven columns outTemperature, dewPoint, cloudCover,
   * precipProbability, precipIntensity, visibility and uvIndex, each as long as the keys.
   */
  datatype DayFrame = DayFrame(keys: seq<int>, columns: seq<Interpolation.Column>)

  const HOURS := 24
  const GRID_SLOTS := 288
  const COLUMN_COUNT := 7
  const SECONDS_PER_HOUR := 3600

  /** The field that feeds output column `c`, in column order. */
  function SourceField(c: nat): Field
    requires c < COLUMN_COUNT
  {
    match c
    case 0 => Temperature
    case 1 => DewPoint
    case 2 => CloudCover
    case 3 => PrecipProbability
    case 4 => PrecipIntensity
    case 5 => Visibility
    case _ => UvIndex
  }

  /** `to_celsius`: the Celsius value of a Fahrenheit temperature, so converting back recovers it. */
  function ToCelsius(f: real): (c: real)
    ensures ToFahrenheit(c) == f
  {
    (f - 32.0) * 5.0 / 9.0
  }

  function ToFahrenheit(c: real): real
  {
    c * 9.0 / 5.0 + 32.0
  }

  lemma CelsiusFixedPoints()
    ensures ToCelsius(32.0) == 0.0 && ToCelsius(212.0) == 100.0
  {
  }

  lemma CelsiusStrictlyIncreasing(a: real, b: real)
    requires a < b
    ensures ToCelsius(a) < ToCelsius(b)
  {
  }

  // ----- the slot grid: `np.arange(start_time, finish_time, interval_step)` -----

  /** Ceiling division, for either sign of `b`. */
  function CeilDiv(a: int, b: int): int
    requires b != 0
  {
    -Quantizer.FloorDiv(-a, b)
  }

  lemma CeilDivBounds(a: int, b: int)
    requires b != 0
    ensures b > 0 ==> b * CeilDiv(a, b) - b < a <= b * CeilDiv(a, b)
    ensures b < 0 ==> b * CeilDiv(a, b) <= a < b * CeilDiv(a, b) - b
  {
    Quantizer.FloorDivBounds(-a, b);
  }

  /** The number of entries of `np.arange(start, stop, step)`: `ceil((stop - start) / step)`, at least 0. */
  function ArangeLength(start: int, stop: int, step: int): nat
    requires step != 0
  {
    var n := CeilDiv(stop - start, step);
    if n < 0 then 0 else n
  }

  /** `np.arange(start, stop, step)`: for a positive step, every grid point in `[start, stop)`. */
  function Arange(start: int, stop: int, step: int): (r: seq<int>)
    requires step != 0
    ensures |r| == ArangeLength(start, stop, step)
  {
    seq(ArangeLength(start, stop, step), k => start + k * step)
  }

  /** For a positive step the grid points are `start`, `start + step`, ... and all lie in `[start, stop)`. */
  lemma ArangeWithin(start: int, stop: int, step: int)
    requires step > 0
    ensures forall k :: 0 <= k < |Arange(start, stop, step)| ==>
      start <= Arange(start, stop, step)[k] < stop && Arange(start, stop, step)[k] == start + k * step
  {
    var r := Arange(start, stop, step);
    forall k | 0 <= k < |r| ensures start <= r[k] < stop {
      GridPointBelowStop(stop - start, step, k);
    }
  }

  /** The `k`-th grid point before the last stays below the stop offset. */
  lemma GridPointBelowStop(span: int, step: int, k: nat)
    requires step > 0 && k < CeilDiv(span, step)
    ensures k * step < span
  {
    var n := CeilDiv(span, step);
    CeilDivBounds(span, step);
    assert k * step <= (n - 1) * step by {
      assert (n - 1) * step - k * step == (n - 1 - k) * step;
      assert (n - 1 - k) * step >= 0;
    }
  }

  /** For a positive step, `ceil(span / step)` is 288 exactly when the span is over 287 and at most 288 steps. */
  lemma {:induction false} CeilDivIs288(span: int, step: int)
    requires step > 0
    ensures CeilDiv(span, step) == GRID_SLOTS <==> 287 * step < span <= 288 * step
  {
    var n := CeilDiv(span, step);
    CeilDivBounds(span, step);
    if n == GRID_SLOTS {
      assert 287 * step < span <= 288 * step;
    } else if n < GRID_SLOTS {
      assert step * n <= step * 287 by { assert step * (287 - n) >= 0; }
    } else {
      assert step * n - step >= step * 288 by { assert step * (n - 289) >= 0; }
    }
  }

  /** For a positive step the grid has exactly 288 slots when the span is over 287 and at most 288 steps. */
  lemma ArangeHas288(start: int, stop: int, step: int)
    requires step > 0
    ensures |Arange(start, stop, step)| == GRID_SLOTS <==> 287 * step < stop - start <= 288 * step
  {
    CeilDivIs288(stop - start, step);
  }

  /** A negative step yields an empty grid over a forward span. */
  lemma NegativeStepGridIsEmpty(start: int, stop: int, step: int)
    requires step < 0 && start < stop
    ensures ArangeLength(start, stop, step) == 0
  {
    var n := CeilDiv(stop - start, step);
    CeilDivBounds(stop - start, step);
    if n >= 1 {
      assert step * (n - 1) <= 0 by { MulNonPositive(step, n - 1); }
    }
  }

  lemma MulNonPositive(a: int, b: int)
    requires a < 0 && b >= 0
    ensures a * b <= 0
  {
  }

  /** Over the span of a regular day of hourly records the grid has 288 slots exactly for a 5-minute step. */
  lemma {:induction false} RegularDayGrid(start: int, stepMinutes: int)
    requires stepMinutes != 0
    ensures |Arange(start, start + HOURS * SECONDS_PER_HOUR, Quantizer.StepSeconds(stepMinutes))| == GRID_SLOTS
        <==> stepMinutes == 5
  {
    var step := Quantizer.StepSeconds(stepMinutes);
    if stepMinutes > 0 {
      ArangeHas288(start, start + 86400, step);
      assert 287 * step == 17220 * stepMinutes;
      assert 288 * step == 17280 * stepMinutes;
    } else {
      NegativeStepGridIsEmpty(start, start + 86400, step);
    }
  }

  // ----- the union of the grid keys and the hourly keys, sorted, as a pandas index union -----

  function InsertKey(s: seq<int>, x: int): (r: seq<int>)
    requires SensorLog.StrictlyIncreasing(s)
    ensures SensorLog.StrictlyIncreasing(r)
    ensures forall y :: y in r <==> y in s || y == x
  {
    if s == [] then [x]
    else if x < s[0] then [x] + s
    else if x == s[0] then s
    else
      var rest := InsertKey(s[1..], x);
      assert forall j :: 0 <= j < |rest| ==> s[0] < rest[j] by {
        forall j | 0 <= j < |rest| ensures s[0] < rest[j] {
          assert rest[j] in rest;
          if rest[j] != x {
            assert rest[j] in s[1..];
            var m :| 0 <= m < |s[1..]| && s[1..][m] == rest[j];
            assert s[m + 1] == rest[j];
          }
        }
      }
      [s[0]] + rest
  }

  /** The distinct values of `xs` in ascending order. */
  function SortedKeys(xs: seq<int>): (r: seq<int>)
    ensures SensorLog.StrictlyIncreasing(r)
    ensures forall y :: y in r <==> y in xs
  {
    if xs == [] then []
    else InsertKey(SortedKeys(xs[..|xs| - 1]), xs[|xs| - 1])
  }

  // ----- the 24-row source table `rdf` -----

  /** The cell of output column `c` for one hourly record: its variable, temperature in Celsius. */
  function CellOf(d: HourlyRecord, c: nat): Option<real>
    requires c < COLUMN_COUNT
  {
    var f := SourceField(c);
    if f !in d.values then None
    else if c == 0 then Some(ToCelsius(d.values[f]))
    else Some(d.values[f])
  }

  function SourceRow(d: HourlyRecord): HourlyRow
  {
    HourlyRow(d.time, seq(COLUMN_COUNT, c requires 0 <= c < COLUMN_COUNT => CellOf(d, c)))
  }

  /** The source table: one row per record among the first `n`. */
  function HourlyTable(hourly: seq<HourlyRecord>, n: nat): seq<HourlyRow>
    requires n <= |hourly|
  {
    seq(n, i requires 0 <= i < n => SourceRow(hourly[i]))
  }

  /** One `if <variable> in d: rdf.at[i, <column>] = ...` of that loop, for output column `c`. */
  method WriteIfPresent(cells: seq<Option<real>>, d: HourlyRecord, c: nat) returns (r: seq<Option<real>>)
    requires c < COLUMN_COUNT == |cells| && cells[c].None?
    ensures |r| == COLUMN_COUNT && r[c] == CellOf(d, c)
    ensures forall k :: 0 <= k < COLUMN_COUNT && k != c ==> r[k] == cells[k]
  {
    r := cells;
    var f := SourceField(c);
    if f in d.values {
      r := r[c := if c == 0 then Some(ToCelsius(d.values[f])) else Some(d.values[f])];
    }
  }

  /** One pass of that loop: each variable the record carries is written into its cell. */
  method FillRow(d: HourlyRecord) returns (cells: seq<Option<real>>)
    ensures cells == SourceRow(d).cells
  {
    cells := [None, None, None, None, None, None, None];
    cells := WriteIfPresent(cells, d, 0);
    cells := WriteIfPresent(cells, d, 1);
    cells := WriteIfPresent(cells, d, 2);
    cells := WriteIfPresent(cells, d, 3);
    cells := WriteIfPresent(cells, d, 4);
    cells := WriteIfPresent(cells, d, 5);
    cells := WriteIfPresent(cells, d, 6);
  }

  /** The loop of Parser.py:86-103: each record's cells are set one variable at a time. */
  method BuildHourlyTable(hourly: seq<HourlyRecord>) returns (rows: seq<HourlyRow>)
    requires |hourly| >= HOURS
    ensures rows == HourlyTable(hourly, HOURS)
  {
    rows := [];
    var i := 0;
    while i < HOURS
      invariant 0 <= i <= HOURS
      invariant rows == HourlyTable(hourly, i)
    {
      var d := hourly[i];
      var cells := FillRow(d);
      assert cells == SourceRow(d).cells;
      assert HourlyTable(hourly, i + 1) == HourlyTable(hourly, i) + [SourceRow(d)];
      rows := rows + [HourlyRow(d.time, cells)];
      i := i + 1;
    }
  }

  predicate DistinctTimes(rows: seq<HourlyRow>)
  {
    forall i, j :: 0 <= i < |rows| && 0 <= j < |rows| && i != j ==> rows[i].time != rows[j].time
  }

  /** The index `set_index('time')` gives the source table: a time is in it exactly when some row carries it. */
  function Times(rows: seq<HourlyRow>): (r: seq<int>)
    ensures |r| == |rows|
    ensures forall k :: k in r <==> exists i :: 0 <= i < |rows| && rows[i].time == k
  {
    if rows == [] then [] else [rows[0].time] + Times(rows[1..])
  }

  /** The source row whose key is `k`, if any. */
  function FindHour(rows: seq<HourlyRow>, k: int): (r: Option<nat>)
    ensures r.Some? ==> r.value < |rows| && rows[r.value].time == k
    ensures r.None? ==> forall i :: 0 <= i < |rows| ==> rows[i].time != k
  {
    if rows == [] then None
    else if rows[0].time == k then Some(0)
    else
      match FindHour(rows[1..], k)
      case None => None
      case Some(i) => Some(i + 1)
  }

  predicate WellFormedRows(rows: seq<HourlyRow>)
  {
    forall i :: 0 <= i < |rows| ==> |rows[i].cells| == COLUMN_COUNT
  }

  /** `combine_first` of the all-unset grid with the source table: at key `k`, the source cell or unset. */
  function CombinedCell(rows: seq<HourlyRow>, k: int, c: nat): Option<real>
    requires WellFormedRows(rows) && c < COLUMN_COUNT
  {
    match FindHour(rows, k)
    case None => None
    case Some(i) => rows[i].cells[c]
  }

  function Combine(rows: seq<HourlyRow>, grid: seq<int>): DayFrame
    requires WellFormedRows(rows)
  {
    var keys := SortedKeys(grid + Times(rows));
    DayFrame(keys, seq(COLUMN_COUNT, c requires 0 <= c < COLUMN_COUNT =>
      seq(|keys|, j requires 0 <= j < |keys| => CombinedCell(rows, keys[j], c))))
  }

  /** `interpolate_data(data, step)` as a value: the day frame, or the exception that aborts it. */
  function DaySeries(hourly: seq<HourlyRecord>, stepMinutes: int): Result<DayFrame, Failure>
  {
    if |hourly| < HOURS then Err(MissingHourlyRecords)
    else if Quantizer.StepSeconds(stepMinutes) == 0 then Err(ZeroStep)
    else
      var grid := Arange(hourly[0].time, hourly[HOURS - 1].time + SECONDS_PER_HOUR, Quantizer.StepSeconds(stepMinutes));
      if |grid| != GRID_SLOTS then Err(GridSizeMismatch)
      else
        var rows := HourlyTable(hourly, HOURS);
        if !DistinctTimes(rows) then Err(DuplicateHourlyTime)
        else
          var combined := Combine(rows, grid);
          Ok(DayFrame(combined.keys, seq(COLUMN_COUNT, c requires 0 <= c < COLUMN_COUNT =>
            Interpolation.Interpolate(combined.columns[c]))))
  }

  /** `interpolate_data`, step by step as Parser.py:53-110 runs it. */
  method InterpolateData(hourly: seq<HourlyRecord>, stepMinutes: int) returns (r: Result<DayFrame, Failure>)
    ensures r == DaySeries(hourly, stepMinutes)
  {
    if |hourly| < HOURS {
      return Err(MissingHourlyRecords);
    }
    var startTime := hourly[0].time;
    var finishTime := hourly[HOURS - 1].time + SECONDS_PER_HOUR;
    var intervalStep := stepMinutes * 60;
    if intervalStep == 0 {
      return Err(ZeroStep);
    }
    var grid := Arange(startTime, finishTime, intervalStep);
    if |grid| != GRID_SLOTS {
      return Err(GridSizeMismatch);
    }
    var rows := BuildHourlyTable(hourly);
    if !DistinctTimes(rows) {
      return Err(DuplicateHourlyTime);
    }
    var combined := Combine(rows, grid);
    var columns := seq(COLUMN_COUNT, c requires 0 <= c < COLUMN_COUNT => Interpolation.Interpolate(combined.columns[c]));
    r := Ok(DayFrame(combined.keys, columns));
  }

  /** The slots of a day frame, in key order, as `data_set.append` stacks them. */
  function FrameRows(f: DayFrame): seq<Slot>
    requires |f.columns| == COLUMN_COUNT
    requires forall c :: 0 <= c < COLUMN_COUNT ==> |f.columns[c]| == |f.keys|
  {
    seq(|f.keys|, j requires 0 <= j < |f.keys| =>
      Slot(f.keys[j], seq(COLUMN_COUNT, c requires 0 <= c < COLUMN_COUNT => f.columns[c][j])))
  }

  // ----- what a successful day frame holds -----

  /** The grid `interpolate_data` builds for these records and step. */
  function DayGrid(hourly: seq<HourlyRecord>, stepMinutes: int): seq<int>
    requires |hourly| >= HOURS && stepMinutes != 0
  {
    Arange(hourly[0].time, hourly[HOURS - 1].time + SECONDS_PER_HOUR, Quantizer.StepSeconds(stepMinutes))
  }

  /** A frame is produced only from at least 24 records, a nonzero step and a grid of exactly 288 slots. */
  lemma DaySeriesRequirements(hourly: seq<HourlyRecord>, stepMinutes: int)
    ensures |hourly| < HOURS ==> DaySeries(hourly, stepMinutes) == Err(MissingHourlyRecords)
    ensures |hourly| >= HOURS && stepMinutes == 0 ==> DaySeries(hourly, stepMinutes) == Err(ZeroStep)
    ensures DaySeries(hourly, stepMinutes).Ok? ==>
      |hourly| >= HOURS && stepMinutes != 0 && |DayGrid(hourly, stepMinutes)| == GRID_SLOTS
  {
  }

  lemma FindHourDistinct(rows: seq<HourlyRow>, i: nat)
    requires i < |rows| && DistinctTimes(rows)
    ensures FindHour(rows, rows[i].time) == Some(i)
  {
  }

  /**
   * Before interpolation, a key that is only a grid slot is unset in every column, and a key that
   * is an hourly time holds that record's cell: its variable, or unset when the record lacks it.
   */
  lemma {:induction false} CombinedCells(hourly: seq<HourlyRecord>, grid: seq<int>, j: nat, c: nat)
    requires |hourly| >= HOURS && DistinctTimes(HourlyTable(hourly, HOURS))
    requires c < COLUMN_COUNT && j < |Combine(HourlyTable(hourly, HOURS), grid).keys|
    ensures var f := Combine(HourlyTable(hourly, HOURS), grid);
      (forall i :: 0 <= i < HOURS ==> hourly[i].time != f.keys[j]) ==> f.columns[c][j].None?
    ensures var f := Combine(HourlyTable(hourly, HOURS), grid);
      forall i :: 0 <= i < HOURS && hourly[i].time == f.keys[j] ==>
        f.columns[c][j] == CellOf(hourly[i], c) &&
        (SourceField(c) !in hourly[i].values ==> f.columns[c][j].None?)
  {
    var rows := HourlyTable(hourly, HOURS);
    var f := Combine(rows, grid);
    assert f.columns[c][j] == CombinedCell(rows, f.keys[j], c);
    forall i | 0 <= i < HOURS && hourly[i].time == f.keys[j]
      ensures f.columns[c][j] == CellOf(hourly[i], c)
    {
      FindHourDistinct(rows, i);
    }
  }

  /** A frame's keys are ascending, and they are the grid slots together with the hourly times. */
  lemma {:induction false} DaySeriesKeys(hourly: seq<HourlyRecord>, stepMinutes: int)
    requires DaySeries(hourly, stepMinutes).Ok?
    ensures var f := DaySeries(hourly, stepMinutes).value;
      && SensorLog.StrictlyIncreasing(f.keys)
      && |f.columns| == COLUMN_COUNT
      && (forall c :: 0 <= c < COLUMN_COUNT ==> |f.columns[c]| == |f.keys|)
      && (forall y :: y in f.keys <==> y in DayGrid(hourly, stepMinutes) || y in Times(HourlyTable(hourly, HOURS)))
  {
    var f := DaySeries(hourly, stepMinutes).value;
    var grid := DayGrid(hourly, stepMinutes);
    var rows := HourlyTable(hourly, HOURS);
    assert f.keys == SortedKeys(grid + Times(rows));
    forall y ensures y in f.keys <==> y in grid || y in Times(rows) {
      assert y in grid + Times(rows) <==> y in grid || y in Times(rows);
    }
  }

  /**
   * Each hourly record's time is a key of the frame, and every variable the record carries appears
   * there unchanged by interpolation; temperature appears converted to Celsius.
   */
  lemma {:induction false} HourlyValueAtItsKey(hourly: seq<HourlyRecord>, stepMinutes: int, i: nat) returns (j: nat)
    requires DaySeries(hourly, stepMinutes).Ok? && i < HOURS
    ensures var f := DaySeries(hourly, stepMinutes).value;
      && j < |f.keys| && f.keys[j] == hourly[i].time
      && |f.columns| == COLUMN_COUNT
      && (forall c :: 0 <= c < COLUMN_COUNT && CellOf(hourly[i], c).Some? ==>
            |f.columns[c]| == |f.keys| && f.columns[c][j] == CellOf(hourly[i], c))
      && (Temperature in hourly[i].values ==>
            |f.columns[0]| == |f.keys| && f.columns[0][j] == Some(ToCelsius(hourly[i].values[Temperature])))
  {
    var f := DaySeries(hourly, stepMinutes).value;
    var grid := DayGrid(hourly, stepMinutes);
    var rows := HourlyTable(hourly, HOURS);
    var combined := Combine(rows, grid);
    assert rows[i].time == hourly[i].time;
    assert hourly[i].time in grid + Times(rows);
    assert hourly[i].time in combined.keys;
    j :| 0 <= j < |combined.keys| && combined.keys[j] == hourly[i].time;
    forall c | 0 <= c < COLUMN_COUNT && CellOf(hourly[i], c).Some?
      ensures |f.columns[c]| == |f.keys| && f.columns[c][j] == CellOf(hourly[i], c)
    {
      CombinedCells(hourly, grid, j, c);
      assert f.columns[c] == Interpolation.Interpolate(combined.columns[c]);
    }
  }

  /** Hourly records one hour apart, as the forecast delivers a day. */
  predicate RegularDay(hourly: seq<HourlyRecord>)
  {
    |hourly| >= HOURS && forall i :: 0 <= i < HOURS ==> hourly[i].time == hourly[0].time + SECONDS_PER_HOUR * i
  }

  /** For a regular day the 288-row frame fits only a 5-minute step: every other step is an error. */
  lemma {:induction false} RegularDayNeedsFiveMinuteStep(hourly: seq<HourlyRecord>, stepMinutes: int)
    requires RegularDay(hourly)
    ensures DaySeries(hourly, stepMinutes).Ok? <==> stepMinutes == 5
  {
    if stepMinutes != 0 {
      RegularDayGrid(hourly[0].time, stepMinutes);
      assert hourly[HOURS - 1].time + SECONDS_PER_HOUR == hourly[0].time + HOURS * SECONDS_PER_HOUR;
      var rows := HourlyTable(hourly, HOURS);
      assert DistinctTimes(rows) by {
        forall i, j | 0 <= i < HOURS && 0 <= j < HOURS && i != j ensures rows[i].time != rows[j].time {
          assert rows[i].time == hourly[0].time + SECONDS_PER_HOUR * i;
          assert rows[j].time == hourly[0].time + SECONDS_PER_HOUR * j;
        }
      }
    }
  }
}
