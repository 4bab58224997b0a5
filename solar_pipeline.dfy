/**
 * The solar variant's checkpoint `save` (Parser-Sun.py:42-58): the first `|series|` log rows get
 * the sun angles by position, are indexed by the log's own `time` column, and are merged into the
 * stored table by time, deduplicated on the pair (`hora`, `dia`).
 */
module SolarPipeline {
  import opened Wrappers
  import opened Failures
  import opened SensorLog
  import Checkpoint

  /** A row of the stored solar table: the log row indexed by its own `time`, with its sun angle. */
  datatype SolarRow = SolarRow(time: int, sunAngle: real, dia: string, hora: string, temperatura: real, ligado: int)

  function RowTime(r: SolarRow): int { r.time }

  /** The solar table deduplicates on time of day and date together. */
  function RowKey(r: SolarRow): (string, string) { (r.hora, r.dia) }

  /** `ndfa.insert(loc=0, column='sun_angle', ...)` on one row, then `set_index('time')`. */
  function Attach(row: SensorRow, angle: real): SolarRow
  {
    SolarRow(row.time, angle, row.dia, row.hora, row.temperatura, row.ligado)
  }

  /** The kept log rows with the series attached by position. */
  function AttachAngles(rows: seq<SensorRow>, series: seq<real>): seq<SolarRow>
    requires |rows| == |series|
  {
    seq(|rows|, j requires 0 <= j < |rows| => Attach(rows[j], series[j]))
  }

  /**
   * One checkpoint: the first `|series|` log rows with the angles attached, merged into the stored
   * table; or the exception that aborts it.
   */
  function SaveSolar(log: Log, series: seq<real>, table: seq<SolarRow>): Result<seq<SolarRow>, Failure>
  {
    if |series| > |log.rows| then Err(SeriesLongerThanLog)
    else if !log.hasTimeColumn then Err(TimeColumnMissing)
    else Ok(Checkpoint.Merge(table, AttachAngles(log.rows[..|series|], series), RowTime, RowKey))
  }

  /** A save fails exactly when the series is longer than the log or the log has no `time` column to index by. */
  lemma SaveSolarFails(log: Log, series: seq<real>, table: seq<SolarRow>)
    ensures SaveSolar(log, series, table).Err? <==> |series| > |log.rows| || !log.hasTimeColumn
    ensures |series| > |log.rows| ==> SaveSolar(log, series, table) == Err(SeriesLongerThanLog)
    ensures |series| <= |log.rows| && !log.hasTimeColumn ==> SaveSolar(log, series, table) == Err(TimeColumnMissing)
  {
  }

  /** After a save the table ascends by time and no two rows share the pair (`hora`, `dia`). */
  lemma SavedSolarOrdered(log: Log, series: seq<real>, table: seq<SolarRow>)
    requires SaveSolar(log, series, table).Ok?
    ensures Checkpoint.SortedBy(SaveSolar(log, series, table).value, RowTime)
    ensures forall i, j :: 0 <= i < |SaveSolar(log, series, table).value| && 0 <= j < |SaveSolar(log, series, table).value| && i != j ==>
      var r := SaveSolar(log, series, table).value;
      r[i].hora != r[j].hora || r[i].dia != r[j].dia
  {
    var rows := AttachAngles(log.rows[..|series|], series);
    var r := SaveSolar(log, series, table).value;
    Checkpoint.MergeProperties(table, rows, RowTime, RowKey);
    assert forall i, j :: 0 <= i < |r| && 0 <= j < |r| && i != j ==> RowKey(r[i]) != RowKey(r[j]);
  }

  /** The row a save adds for log row `j`: that row, at its own time, carrying angle `j` of the series. */
  lemma AttachedRow(log: Log, series: seq<real>, j: nat)
    requires |series| <= |log.rows| && j < |series|
    ensures Attach(log.rows[j], series[j]) in AttachAngles(log.rows[..|series|], series)
  {
    assert AttachAngles(log.rows[..|series|], series)[j] == Attach(log.rows[j], series[j]);
  }

  /**
   * Every saved row is a stored row or one of the first `|series|` log rows carrying the angle at
   * its own position.
   */
  lemma SavedSolarRowsOrigin(log: Log, series: seq<real>, table: seq<SolarRow>)
    requires SaveSolar(log, series, table).Ok?
    ensures forall m :: 0 <= m < |SaveSolar(log, series, table).value| ==>
      var x := SaveSolar(log, series, table).value[m];
      x in table || exists j :: 0 <= j < |series| && x == Attach(log.rows[j], series[j])
  {
    var rows := AttachAngles(log.rows[..|series|], series);
    var r := SaveSolar(log, series, table).value;
    Checkpoint.MergeProperties(table, rows, RowTime, RowKey);
    forall m | 0 <= m < |r| ensures r[m] in table || exists j :: 0 <= j < |series| && r[m] == Attach(log.rows[j], series[j]) {
      if r[m] !in table {
        assert r[m] in rows;
        var j :| 0 <= j < |rows| && rows[j] == r[m];
        assert r[m] == Attach(log.rows[j], series[j]);
      }
    }
  }

  /** Some row of `r` has time of day `hora` and date `dia` at a time no later than `t`. */
  ghost predicate KeyKept(r: seq<SolarRow>, hora: string, dia: string, t: int)
  {
    exists m :: 0 <= m < |r| && r[m].hora == hora && r[m].dia == dia && r[m].time <= t
  }

  lemma MergedKeyKept(table: seq<SolarRow>, rows: seq<SolarRow>, x: SolarRow)
    requires x in table + rows
    ensures KeyKept(Checkpoint.Merge(table, rows, RowTime, RowKey), x.hora, x.dia, x.time)
  {
    var r := Checkpoint.Merge(table, rows, RowTime, RowKey);
    var m := Checkpoint.MergeCoverIndex(table, rows, RowTime, RowKey, x);
    Checkpoint.MergeKeepsEarliest(table, rows, RowTime, RowKey, x);
    assert RowKey(r[m]) == RowKey(x);
    assert RowTime(r[m]) <= RowTime(x);
  }

  /** Every (`hora`, `dia`) of the stored table and of the first `|series|` log rows survives, on its earliest row. */
  lemma SavedSolarKeepsKeys(log: Log, series: seq<real>, table: seq<SolarRow>)
    requires SaveSolar(log, series, table).Ok?
    ensures forall x :: x in table ==> KeyKept(SaveSolar(log, series, table).value, x.hora, x.dia, x.time)
    ensures forall j :: 0 <= j < |series| ==>
      KeyKept(SaveSolar(log, series, table).value, log.rows[j].hora, log.rows[j].dia, log.rows[j].time)
  {
    var rows := AttachAngles(log.rows[..|series|], series);
    assert SaveSolar(log, series, table).value == Checkpoint.Merge(table, rows, RowTime, RowKey);
    forall x | x in table ensures KeyKept(Checkpoint.Merge(table, rows, RowTime, RowKey), x.hora, x.dia, x.time) {
      MergedKeyKept(table, rows, x);
    }
    forall j | 0 <= j < |series|
      ensures KeyKept(Checkpoint.Merge(table, rows, RowTime, RowKey), log.rows[j].hora, log.rows[j].dia, log.rows[j].time)
    {
      AttachedRow(log, series, j);
      MergedKeyKept(table, rows, Attach(log.rows[j], series[j]));
    }
  }

  /**
   * Saving the same series again under ANY tie order of the time sort: for every time-sorted
   * arrangement `p` of the saved table plus the same new rows, deduplicating `p` on (`hora`, `dia`)
   * yields exactly the key/time pairs of the first save.
   */
  lemma ResaveSolarAnyTieOrder(log: Log, series: seq<real>, table: seq<SolarRow>, p: seq<SolarRow>)
    requires SaveSolar(log, series, table).Ok?
    requires Checkpoint.SortedBy(p, RowTime)
    requires multiset(p) == multiset(SaveSolar(log, series, table).value + AttachAngles(log.rows[..|series|], series))
    ensures var saved, again := SaveSolar(log, series, table).value, Checkpoint.DropDuplicates(p, RowKey);
      && (forall i :: 0 <= i < |again| ==> Checkpoint.MergedPair(saved, again[i], RowTime, RowKey))
      && (forall n :: 0 <= n < |saved| ==> Checkpoint.MergedPair(again, saved[n], RowTime, RowKey))
  {
    var rows := AttachAngles(log.rows[..|series|], series);
    assert SaveSolar(log, series, table).value == Checkpoint.Merge(table, rows, RowTime, RowKey);
    Checkpoint.ResaveKeepsOnlyMergedKeys(table, rows, p, RowTime, RowKey);
    Checkpoint.ResaveKeepsEveryMergedKey(table, rows, p, RowTime, RowKey);
  }

  /** Saving the same series again leaves the table exactly as the first save left it. */
  lemma SaveSolarIdempotent(log: Log, series: seq<real>, table: seq<SolarRow>)
    requires SaveSolar(log, series, table).Ok?
    ensures SaveSolar(log, series, SaveSolar(log, series, table).value) == SaveSolar(log, series, table)
  {
    Checkpoint.MergeIdempotent(table, AttachAngles(log.rows[..|series|], series), RowTime, RowKey);
  }
}
