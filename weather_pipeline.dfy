/**
 * The weather variant's checkpoint `save` (Parser.py:113-132) and its driver `main`
 * (Parser.py:15-50).
 */
module WeatherPipeline {
  import opened Wrappers
  import opened Failures
  import Quantizer
  import opened SensorLog
  import WeatherDay
  import Checkpoint

  /** A row of the stored weather table: the log row keyed by its slot, with the slot's seven variables. */
  datatype WeatherRow = WeatherRow(time: int, dia: string, hora: string, temperatura: real, ligado: int,
                                   weather: seq<Option<real>>)

  function RowTime(r: WeatherRow): int { r.time }

  /** The weather table deduplicates on `hora` alone. */
  function RowHora(r: WeatherRow): string { r.hora }

  function Enrich(row: SensorRow, t: int, cells: seq<Option<real>>): WeatherRow
  {
    WeatherRow(t, row.dia, row.hora, row.temperatura, row.ligado, cells)
  }

  /** The cells a left-join row gets when no slot has its key. */
  function NoWeather(): seq<Option<real>>
  {
    seq(WeatherDay.COLUMN_COUNT, _ => None)
  }

  // ----- ndfa.join(data_set) -----

  /** The slots of the weather data keyed `t`, in order. */
  function Matching(ds: seq<WeatherDay.Slot>, t: int): (r: seq<WeatherDay.Slot>)
    ensures forall m :: 0 <= m < |r| ==> r[m] in ds && r[m].time == t
    ensures (exists i :: 0 <= i < |ds| && ds[i].time == t) ==> r != []
  {
    if ds == [] then []
    else
      var rest := Matching(ds[1..], t);
      assert forall i :: 1 <= i < |ds| ==> ds[i] == ds[1..][i - 1];
      if ds[0].time == t then [ds[0]] + rest else rest
  }

  /**
   * A non-unique key matches every slot it keys, as often as the weather data holds that slot,
   * and nothing else.
   */
  lemma {:induction false} MatchingComplete(ds: seq<WeatherDay.Slot>, t: int)
    ensures forall x :: multiset(Matching(ds, t))[x] == if x.time == t then multiset(ds)[x] else 0
  {
    if ds != [] {
      MatchingComplete(ds[1..], t);
      assert ds == [ds[0]] + ds[1..];
      assert multiset(ds) == multiset{ds[0]} + multiset(ds[1..]);
      if ds[0].time == t {
        assert Matching(ds, t) == [ds[0]] + Matching(ds[1..], t);
        assert multiset(Matching(ds, t)) == multiset{ds[0]} + multiset(Matching(ds[1..], t));
      } else {
        assert Matching(ds, t) == Matching(ds[1..], t);
      }
    }
  }

  /** Matching over stacked weather data keeps the stacking order: the first part's matches come first. */
  lemma {:induction false} MatchingConcat(a: seq<WeatherDay.Slot>, b: seq<WeatherDay.Slot>, t: int)
    ensures Matching(a + b, t) == Matching(a, t) + Matching(b, t)
  {
    if a == [] {
      assert a + b == b;
    } else {
      var c := a + b;
      assert c != [] && c[0] == a[0] && c[1..] == a[1..] + b;
      MatchingConcat(a[1..], b, t);
      assert Matching(c[1..], t) == Matching(a[1..], t) + Matching(b, t);
      if a[0].time == t {
        assert Matching(c, t) == [a[0]] + Matching(c[1..], t);
        assert Matching(a, t) == [a[0]] + Matching(a[1..], t);
        assert [a[0]] + (Matching(a[1..], t) + Matching(b, t)) == ([a[0]] + Matching(a[1..], t)) + Matching(b, t);
      } else {
        assert Matching(c, t) == Matching(c[1..], t);
        assert Matching(a, t) == Matching(a[1..], t);
      }
    }
  }

  /** The rows a left join makes of one log row: one per matching slot, or one with no weather. */
  function JoinRow(row: SensorRow, t: int, ds: seq<WeatherDay.Slot>): seq<WeatherRow>
  {
    var matches := Matching(ds, t);
    if matches == [] then [Enrich(row, t, NoWeather())]
    else seq(|matches|, k requires 0 <= k < |matches| => Enrich(row, t, matches[k].cells))
  }

  /** The left join of the keyed log rows with the weather data, in log order. */
  function JoinWeather(rows: seq<SensorRow>, ts: seq<int>, ds: seq<WeatherDay.Slot>): seq<WeatherRow>
    requires |rows| == |ts|
  {
    if rows == [] then [] else JoinRow(rows[0], ts[0], ds) + JoinWeather(rows[1..], ts[1..], ds)
  }

  predicate DistinctSlotTimes(ds: seq<WeatherDay.Slot>)
  {
    forall i, j :: 0 <= i < |ds| && 0 <= j < |ds| && i != j ==> ds[i].time != ds[j].time
  }

  /** The weather a log row keyed `t` receives when slot keys are distinct. */
  function CellsAt(ds: seq<WeatherDay.Slot>, t: int): seq<Option<real>>
  {
    var matches := Matching(ds, t);
    if matches == [] then NoWeather() else matches[0].cells
  }

  lemma {:induction false} MatchingNone(ds: seq<WeatherDay.Slot>, t: int)
    requires forall i :: 0 <= i < |ds| ==> ds[i].time != t
    ensures Matching(ds, t) == []
  {
    if ds != [] {
      forall i | 0 <= i < |ds[1..]| ensures ds[1..][i].time != t {
        assert ds[1..][i] == ds[i + 1];
      }
      MatchingNone(ds[1..], t);
    }
  }

  lemma {:induction false} MatchingDistinct(ds: seq<WeatherDay.Slot>, t: int)
    requires DistinctSlotTimes(ds)
    ensures |Matching(ds, t)| <= 1
  {
    if ds != [] {
      assert DistinctSlotTimes(ds[1..]) by {
        forall i, j | 0 <= i < |ds[1..]| && 0 <= j < |ds[1..]| && i != j ensures ds[1..][i].time != ds[1..][j].time {
          assert ds[1..][i] == ds[i + 1] && ds[1..][j] == ds[j + 1];
        }
      }
      MatchingDistinct(ds[1..], t);
      if ds[0].time == t {
        forall i | 0 <= i < |ds[1..]| ensures ds[1..][i].time != t {
          assert ds[1..][i] == ds[i + 1];
        }
        MatchingNone(ds[1..], t);
      }
    }
  }

  /** `x` is log row `row` keyed `t`, carrying the weather of a slot keyed `t`, or none. */
  predicate JoinedFrom(x: WeatherRow, row: SensorRow, t: int, ds: seq<WeatherDay.Slot>)
  {
    && x.time == t && x.dia == row.dia && x.hora == row.hora
    && x.temperatura == row.temperatura && x.ligado == row.ligado
    && (x.weather == NoWeather() || exists slot :: slot in ds && slot.time == t && slot.cells == x.weather)
  }

  /** Every joined row is one of the given log rows, keyed by its slot, with that slot's weather or none. */
  lemma {:induction false} JoinOrigin(rows: seq<SensorRow>, ts: seq<int>, ds: seq<WeatherDay.Slot>)
    requires |rows| == |ts|
    ensures forall m :: 0 <= m < |JoinWeather(rows, ts, ds)| ==>
      exists j :: 0 <= j < |rows| && JoinedFrom(JoinWeather(rows, ts, ds)[m], rows[j], ts[j], ds)
  {
    if rows == [] {
      assert JoinWeather(rows, ts, ds) == [];
    } else {
      JoinOrigin(rows[1..], ts[1..], ds);
      var head := JoinRow(rows[0], ts[0], ds);
      var tail := JoinWeather(rows[1..], ts[1..], ds);
      var out := JoinWeather(rows, ts, ds);
      assert out == head + tail;
      forall m | 0 <= m < |out| ensures exists j :: 0 <= j < |rows| && JoinedFrom(out[m], rows[j], ts[j], ds) {
        if m < |head| {
          var matches := Matching(ds, ts[0]);
          if matches != [] {
            assert matches[m] in ds && matches[m].time == ts[0];
          }
          assert JoinedFrom(out[m], rows[0], ts[0], ds);
        } else {
          assert out[m] == tail[m - |head|];
          var j :| 0 <= j < |rows[1..]| && JoinedFrom(tail[m - |head|], rows[1..][j], ts[1..][j], ds);
          assert rows[1..][j] == rows[j + 1] && ts[1..][j] == ts[j + 1];
          assert JoinedFrom(out[m], rows[j + 1], ts[j + 1], ds);
        }
      }
    }
  }

  /**
   * With distinct slot keys the join keeps exactly the given log rows, in order, row `j` keyed by
   * `ts[j]` and carrying the weather of the slot with that key, or none.
   */
  lemma {:induction false} JoinOneToOne(rows: seq<SensorRow>, ts: seq<int>, ds: seq<WeatherDay.Slot>)
    requires |rows| == |ts| && DistinctSlotTimes(ds)
    ensures var out := JoinWeather(rows, ts, ds);
      |out| == |rows| && forall j :: 0 <= j < |rows| ==> out[j] == Enrich(rows[j], ts[j], CellsAt(ds, ts[j]))
  {
    if rows != [] {
      JoinOneToOne(rows[1..], ts[1..], ds);
      MatchingDistinct(ds, ts[0]);
      var out := JoinWeather(rows, ts, ds);
      assert JoinRow(rows[0], ts[0], ds) == [Enrich(rows[0], ts[0], CellsAt(ds, ts[0]))];
      forall j | 1 <= j < |rows| ensures out[j] == Enrich(rows[j], ts[j], CellsAt(ds, ts[j])) {
        assert rows[1..][j - 1] == rows[j] && ts[1..][j - 1] == ts[j];
      }
    }
  }

  // ----- save(dfa, data_set, time_series) -----

  /**
   * One checkpoint: the first `|ts|` log rows keyed by `ts`, left-joined with the weather data,
   * merged into the stored table by time and deduplicated on `hora`; or the exception that aborts it.
   */
  function SaveWeather(log: Log, ds: Option<seq<WeatherDay.Slot>>, ts: seq<int>, table: seq<WeatherRow>)
    : Result<seq<WeatherRow>, Failure>
  {
    if |ts| > |log.rows| then Err(SeriesLongerThanLog)
    else if log.hasTimeColumn then Err(TimeColumnExists)
    else if ds.None? then Err(NoWeatherData)
    else Ok(Checkpoint.Merge(table, JoinWeather(log.rows[..|ts|], ts, ds.value), RowTime, RowHora))
  }

  /** A save fails exactly when the series is longer than the log, the log has a `time` column, or there is no weather data. */
  lemma SaveWeatherFails(log: Log, ds: Option<seq<WeatherDay.Slot>>, ts: seq<int>, table: seq<WeatherRow>)
    ensures SaveWeather(log, ds, ts, table).Err? <==> |ts| > |log.rows| || log.hasTimeColumn || ds.None?
    ensures |ts| > |log.rows| ==> SaveWeather(log, ds, ts, table) == Err(SeriesLongerThanLog)
    ensures |ts| <= |log.rows| && log.hasTimeColumn ==> SaveWeather(log, ds, ts, table) == Err(TimeColumnExists)
    ensures |ts| <= |log.rows| && !log.hasTimeColumn && ds.None? ==> SaveWeather(log, ds, ts, table) == Err(NoWeatherData)
  {
  }

  /** After a save the table ascends by time and no two rows share a `hora`. */
  lemma SavedWeatherOrdered(log: Log, ds: Option<seq<WeatherDay.Slot>>, ts: seq<int>, table: seq<WeatherRow>)
    requires SaveWeather(log, ds, ts, table).Ok?
    ensures var r := SaveWeather(log, ds, ts, table).value;
      && Checkpoint.SortedBy(r, RowTime)
      && (forall i, j :: 0 <= i < |r| && 0 <= j < |r| && i != j ==> r[i].hora != r[j].hora)
  {
    var joined := JoinWeather(log.rows[..|ts|], ts, ds.value);
    var r := SaveWeather(log, ds, ts, table).value;
    Checkpoint.MergeProperties(table, joined, RowTime, RowHora);
    assert forall i, j :: 0 <= i < |r| && 0 <= j < |r| && i != j ==> RowHora(r[i]) != RowHora(r[j]);
  }

  /** Every saved row is a stored row or one of the first `|ts|` log rows keyed by its slot. */
  lemma SavedWeatherRowsOrigin(log: Log, ds: Option<seq<WeatherDay.Slot>>, ts: seq<int>, table: seq<WeatherRow>)
    requires SaveWeather(log, ds, ts, table).Ok?
    ensures var r := SaveWeather(log, ds, ts, table).value;
      forall m :: 0 <= m < |r| ==>
        r[m] in table || exists j :: 0 <= j < |ts| && JoinedFrom(r[m], log.rows[j], ts[j], ds.value)
  {
    var rows := log.rows[..|ts|];
    var joined := JoinWeather(rows, ts, ds.value);
    var r := SaveWeather(log, ds, ts, table).value;
    Checkpoint.MergeProperties(table, joined, RowTime, RowHora);
    JoinOrigin(rows, ts, ds.value);
    forall m | 0 <= m < |r| ensures r[m] in table || exists j :: 0 <= j < |ts| && JoinedFrom(r[m], log.rows[j], ts[j], ds.value) {
      if r[m] !in table {
        assert r[m] in joined;
        var k :| 0 <= k < |joined| && joined[k] == r[m];
        var j :| 0 <= j < |rows| && JoinedFrom(joined[k], rows[j], ts[j], ds.value);
        assert rows[j] == log.rows[j];
      }
    }
  }

  /** Some row of `r` has time of day `hora` at a time no later than `t`. */
  ghost predicate HoraKept(r: seq<WeatherRow>, hora: string, t: int)
  {
    exists m :: 0 <= m < |r| && r[m].hora == hora && r[m].time <= t
  }

  /** The `hora` of row `x`, one of the merged inputs, survives on a row no later than `x`. */
  lemma MergedHoraKept(table: seq<WeatherRow>, joined: seq<WeatherRow>, x: WeatherRow)
    requires x in table + joined
    ensures HoraKept(Checkpoint.Merge(table, joined, RowTime, RowHora), x.hora, x.time)
  {
    var r := Checkpoint.Merge(table, joined, RowTime, RowHora);
    var m := Checkpoint.MergeCoverIndex(table, joined, RowTime, RowHora, x);
    Checkpoint.MergeKeepsEarliest(table, joined, RowTime, RowHora, x);
    assert RowHora(r[m]) == RowHora(x);
    assert RowTime(r[m]) <= RowTime(x);
  }

  /** Every `hora` of the stored table and of the first `|ts|` log rows survives, on its earliest row. */
  lemma SavedWeatherKeepsHoras(log: Log, ds: Option<seq<WeatherDay.Slot>>, ts: seq<int>, table: seq<WeatherRow>)
    requires SaveWeather(log, ds, ts, table).Ok?
    ensures forall x :: x in table ==> HoraKept(SaveWeather(log, ds, ts, table).value, x.hora, x.time)
    ensures forall j :: 0 <= j < |ts| ==> HoraKept(SaveWeather(log, ds, ts, table).value, log.rows[j].hora, ts[j])
  {
    var rows := log.rows[..|ts|];
    var joined := JoinWeather(rows, ts, ds.value);
    assert SaveWeather(log, ds, ts, table).value == Checkpoint.Merge(table, joined, RowTime, RowHora);
    forall x | x in table ensures HoraKept(Checkpoint.Merge(table, joined, RowTime, RowHora), x.hora, x.time) {
      MergedHoraKept(table, joined, x);
    }
    forall j | 0 <= j < |ts| ensures HoraKept(Checkpoint.Merge(table, joined, RowTime, RowHora), log.rows[j].hora, ts[j]) {
      var x := JoinedRowOf(rows, ts, ds.value, j);
      MergedHoraKept(table, joined, x);
    }
  }

  /** Each log row given to the join appears in its result, keyed by its slot. */
  lemma {:induction false} JoinedRowOf(rows: seq<SensorRow>, ts: seq<int>, ds: seq<WeatherDay.Slot>, j: nat) returns (x: WeatherRow)
    requires |rows| == |ts| && j < |rows|
    ensures x in JoinWeather(rows, ts, ds) && x.hora == rows[j].hora && x.time == ts[j]
  {
    var head := JoinRow(rows[0], ts[0], ds);
    assert JoinWeather(rows, ts, ds) == head + JoinWeather(rows[1..], ts[1..], ds);
    if j == 0 {
      x := head[0];
    } else {
      x := JoinedRowOf(rows[1..], ts[1..], ds, j - 1);
    }
  }

  /** Saving the same series and weather again leaves the table exactly as the first save left it. */
  lemma SaveWeatherIdempotent(log: Log, ds: Option<seq<WeatherDay.Slot>>, ts: seq<int>, table: seq<WeatherRow>)
    requires SaveWeather(log, ds, ts, table).Ok?
    ensures SaveWeather(log, ds, ts, SaveWeather(log, ds, ts, table).value) == SaveWeather(log, ds, ts, table)
  {
    Checkpoint.MergeIdempotent(table, JoinWeather(log.rows[..|ts|], ts, ds.value), RowTime, RowHora);
  }

  /**
   * Saving the same series and weather again under ANY tie order of the time sort: for every
   * time-sorted arrangement `p` of the saved table plus the same joined rows, deduplicating `p` on
   * `hora` yields exactly the (`hora`, time) pairs of the first save.
   */
  lemma ResaveWeatherAnyTieOrder(log: Log, ds: Option<seq<WeatherDay.Slot>>, ts: seq<int>, table: seq<WeatherRow>,
                                 p: seq<WeatherRow>)
    requires SaveWeather(log, ds, ts, table).Ok?
    requires Checkpoint.SortedBy(p, RowTime)
    requires multiset(p) == multiset(SaveWeather(log, ds, ts, table).value + JoinWeather(log.rows[..|ts|], ts, ds.value))
    ensures var saved, again := SaveWeather(log, ds, ts, table).value, Checkpoint.DropDuplicates(p, RowHora);
      && (forall i :: 0 <= i < |again| ==> Checkpoint.MergedPair(saved, again[i], RowTime, RowHora))
      && (forall n :: 0 <= n < |saved| ==> Checkpoint.MergedPair(again, saved[n], RowTime, RowHora))
  {
    var joined := JoinWeather(log.rows[..|ts|], ts, ds.value);
    assert SaveWeather(log, ds, ts, table).value == Checkpoint.Merge(table, joined, RowTime, RowHora);
    Checkpoint.ResaveKeepsOnlyMergedKeys(table, joined, p, RowTime, RowHora);
    Checkpoint.ResaveKeepsEveryMergedKey(table, joined, p, RowTime, RowHora);
  }

  /**
   * Deduplicating on `hora` alone drops a new row whose time of day is already stored, even when
   * it belongs to another day: for each `hora` only the earliest row survives.
   */
  lemma SameHoraOfLaterDayDropped(log: Log, ds: Option<seq<WeatherDay.Slot>>, ts: seq<int>, table: seq<WeatherRow>,
                                  x: WeatherRow, j: nat)
    requires SaveWeather(log, ds, ts, table).Ok?
    requires x in table && j < |ts| && log.rows[j].hora == x.hora && x.time < ts[j]
    ensures forall m :: 0 <= m < |SaveWeather(log, ds, ts, table).value| ==>
      SaveWeather(log, ds, ts, table).value[m].hora == x.hora ==> SaveWeather(log, ds, ts, table).value[m].time <= x.time
  {
    var joined := JoinWeather(log.rows[..|ts|], ts, ds.value);
    var out := SaveWeather(log, ds, ts, table).value;
    assert out == Checkpoint.Merge(table, joined, RowTime, RowHora);
    assert x in table + joined;
    Checkpoint.MergeKeepsEarliest(table, joined, RowTime, RowHora, x);
    forall m | 0 <= m < |out| && out[m].hora == x.hora
      ensures out[m].time <= x.time
    {
      assert RowHora(out[m]) == RowHora(x);
    }
  }
}
