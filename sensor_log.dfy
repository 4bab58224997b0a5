/**
 * The sensor log both drivers walk: rows of `dia` (date label), `hora` (time-of-day label),
 * `temperatura` and `ligado`, read in file order, and the two schedules the drivers derive
 * from that order: the rows where the day label changes, and the checkpoint counts.
 */
module SensorLog {

  /**
   * One log row. `time` is the row's own `time` cell, which only matters when the log has
   * a `time` column (`Log.hasTimeColumn`).
   */
  datatype SensorRow = SensorRow(dia: string, hora: string, temperatura: real, ligado: int, time: int)

  datatype Log = Log(rows: seq<SensorRow>, hasTimeColumn: bool)

  /** The epoch the driver reads for a row: the local clock applied to `dia + hora`. */
  function RowEpoch(clock: string -> int, row: SensorRow): int
  {
    clock(row.dia + row.hora)
  }

  /** The driver's `current_day` when it reaches row `i`: empty at the start, else the previous row's day. */
  function DayBefore(rows: seq<SensorRow>, i: nat): string
    requires i <= |rows|
  {
    if i == 0 then "" else rows[i - 1].dia
  }

  /** Row `i` opens a day: its label differs from `current_day`. */
  predicate IsDayStart(rows: seq<SensorRow>, i: nat)
    requires i < |rows|
  {
    rows[i].dia != DayBefore(rows, i)
  }

  /** Ascending without repeats: row positions, checkpoint counts and index keys alike. */
  predicate StrictlyIncreasing(s: seq<int>)
  {
    forall a, b :: 0 <= a < b < |s| ==> s[a] < s[b]
  }

  /** The rows among the first `k` that open a day, in order. */
  function DayStarts(rows: seq<SensorRow>, k: nat): (r: seq<nat>)
    requires k <= |rows|
    ensures forall i: nat :: i in r <==> i < k && IsDayStart(rows, i)
    ensures StrictlyIncreasing(r)
    ensures forall m :: 0 <= m < |r| ==> r[m] < k
  {
    if k == 0 then []
    else
      var before := DayStarts(rows, k - 1);
      if IsDayStart(rows, k - 1) then before + [k - 1] else before
  }

  /** The processed-row counts in `1..k` at which a checkpoint fires: positive multiples of `interval`. */
  function Multiples(k: nat, interval: int): (r: seq<nat>)
    ensures forall j: nat :: j in r <==> 1 <= j <= k && interval > 0 && j % interval == 0
    ensures StrictlyIncreasing(r)
    ensures forall m :: 0 <= m < |r| ==> 1 <= r[m] <= k
  {
    if k == 0 then []
    else
      var before := Multiples(k - 1, interval);
      if interval > 0 && k % interval == 0 then before + [k] else before
  }

  /** The driver checkpoints after its `count`-th row: the interval is positive and divides the count. */
  predicate CheckpointDue(count: int, interval: int)
  {
    interval > 0 && count % interval == 0
  }

  /** One more processed row adds its count exactly when it is a positive multiple of the interval. */
  lemma MultiplesNext(k: nat, interval: int)
    ensures Multiples(k + 1, interval) == Multiples(k, interval) + if interval > 0 && (k + 1) % interval == 0 then [k + 1] else []
  {
  }

  lemma SmallMultipleIsZero(x: int, d: int)
    requires d > 0 && -d < x * d < d
    ensures x == 0
  {
  }

  /** Euclidean division is determined by quotient and remainder. */
  lemma DivModUnique(n: int, d: int, q: int, r: int)
    requires d > 0 && n == q * d + r && 0 <= r < d
    ensures n / d == q && n % d == r
  {
    var q', r' := n / d, n % d;
    assert (q - q') * d == r' - r;
    SmallMultipleIsZero(q - q', d);
  }

  /** A checkpoint fires once per completed interval: `k / interval` times among the first `k` rows. */
  lemma {:induction false} MultiplesCount(k: nat, interval: int)
    requires interval > 0
    ensures |Multiples(k, interval)| == k / interval
  {
    if k > 0 {
      MultiplesCount(k - 1, interval);
      var q, r := (k - 1) / interval, (k - 1) % interval;
      assert k - 1 == q * interval + r;
      if r == interval - 1 {
        assert k == (q + 1) * interval + 0;
        DivModUnique(k, interval, q + 1, 0);
        assert Multiples(k, interval) == Multiples(k - 1, interval) + [k];
      } else {
        assert k == q * interval + (r + 1);
        DivModUnique(k, interval, q, r + 1);
        assert Multiples(k, interval) == Multiples(k - 1, interval);
      }
    }
  }

  /**
   * A day that comes back after another one is opened again: when row `i` and row `j` carry the
   * same label and some row `m` between them carries another, a row after `m` and no later than
   * `j` is a day start with that label.
   */
  lemma {:induction false} ReappearingDayStartsAgain(rows: seq<SensorRow>, k: nat, i: nat, m: nat, j: nat)
    requires i < m < j < k <= |rows|
    requires rows[i].dia == rows[j].dia && rows[m].dia != rows[j].dia
    ensures exists p :: m < p <= j && p in DayStarts(rows, k) && rows[p].dia == rows[j].dia
    decreases j
  {
    if rows[j - 1].dia != rows[j].dia {
      assert IsDayStart(rows, j);
      assert j in DayStarts(rows, k);
    } else {
      assert m < j - 1;
      ReappearingDayStartsAgain(rows, k, i, m, j - 1);
    }
  }

  /**
   * A run of rows with one label opens at most one day, at its first row: the rows after it add
   * no day start.
   */
  lemma {:induction false} SameDayStartsOnce(rows: seq<SensorRow>, i: nat, j: nat)
    requires i <= j < |rows|
    requires forall p :: i <= p <= j ==> rows[p].dia == rows[i].dia
    ensures DayStarts(rows, j + 1) == DayStarts(rows, i + 1)
    decreases j - i
  {
    if i < j {
      SameDayStartsOnce(rows, i, j - 1);
      assert rows[j - 1].dia == rows[j].dia;
      assert DayStarts(rows, j + 1) == DayStarts(rows, j);
    }
  }
}
