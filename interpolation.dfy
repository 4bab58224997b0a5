/**
 * Column interpolation as `DataFrame.interpolate()` does it with its defaults (Parser.py:109):
 * method 'linear', which spaces the rows equally by position and ignores the index values, and
 * limit direction 'forward'. A gap between two known cells gets the straight line between them;
 * cells before a column's first known cell stay unset; cells after its last known cell take
 * that last value. An unset cell (NaN) is `None`.
 */
module Interpolation {
  import opened Wrappers

  type Column = seq<Option<real>>

  predicate UnsetUpTo(col: Column, j: int)
    requires j < |col|
  {
    forall m :: 0 <= m <= j ==> col[m].None?
  }

  /** The last known cell strictly before position `j`, if any. */
  function LastKnownBefore(col: Column, j: nat): (r: Option<nat>)
    requires j <= |col|
    ensures r.Some? ==> r.value < j && col[r.value].Some?
    ensures r.Some? ==> forall m :: r.value < m < j ==> col[m].None?
    ensures r.None? ==> forall m :: 0 <= m < j ==> col[m].None?
    decreases j
  {
    if j == 0 then None
    else if col[j - 1].Some? then Some(j - 1)
    else LastKnownBefore(col, j - 1)
  }

  /** The first known cell strictly after position `j`, if any. */
  function FirstKnownAfter(col: Column, j: nat): (r: Option<nat>)
    requires j < |col|
    ensures r.Some? ==> j < r.value < |col| && col[r.value].Some?
    ensures r.Some? ==> forall m :: j < m < r.value ==> col[m].None?
    ensures r.None? ==> forall m :: j < m < |col| ==> col[m].None?
    decreases |col| - j
  {
    if j + 1 == |col| then None
    else if col[j + 1].Some? then Some(j + 1)
    else FirstKnownAfter(col, j + 1)
  }

  /** The point `num / den` of the way from `a` to `b`. */
  function Lerp(a: real, b: real, num: nat, den: nat): real
    requires den > 0
  {
    a + (b - a) * (num as real) / (den as real)
  }

  function FillCell(col: Column, j: nat): Option<real>
    requires j < |col|
  {
    if col[j].Some? then col[j]
    else
      match LastKnownBefore(col, j)
      case None => None
      case Some(i) =>
        match FirstKnownAfter(col, j)
        case None => col[i]
        case Some(k) => Some(Lerp(col[i].value, col[k].value, j - i, k - i))
  }

  /** The interpolated column, cell by cell. */
  function Interpolate(col: Column): (r: Column)
    ensures |r| == |col|
  {
    seq(|col|, j requires 0 <= j < |col| => FillCell(col, j))
  }

  /** Known cells are kept, and a cell is left unset exactly when no cell at or before it is known. */
  lemma InterpolateKeepsKnown(col: Column)
    ensures forall j :: 0 <= j < |col| && col[j].Some? ==> Interpolate(col)[j] == col[j]
    ensures forall j :: 0 <= j < |col| ==> (Interpolate(col)[j].None? <==> UnsetUpTo(col, j))
  {
    var r := Interpolate(col);
    forall j | 0 <= j < |col|
      ensures r[j].None? <==> UnsetUpTo(col, j)
    {
      if col[j].None? && LastKnownBefore(col, j).Some? {
        assert !UnsetUpTo(col, j);
      }
    }
  }

  /** A convex combination of two values lies between them. */
  lemma LerpBetween(a: real, b: real, num: nat, den: nat)
    requires 0 < num < den
    ensures a <= b ==> a <= Lerp(a, b, num, den) <= b
    ensures b <= a ==> b <= Lerp(a, b, num, den) <= a
  {
    var f := (num as real) / (den as real);
    assert 0.0 < f < 1.0;
    assert Lerp(a, b, num, den) == a + (b - a) * f;
    if a <= b {
      assert (b - a) * f >= 0.0;
      assert (b - a) * (1.0 - f) >= 0.0;
    } else {
      assert (a - b) * f >= 0.0;
      assert (a - b) * (1.0 - f) >= 0.0;
    }
  }

  /** Cells `i` and `k` of a column are known and every cell between them is unset. */
  predicate ConsecutiveKnown(col: Column, i: nat, k: nat)
  {
    i < k < |col| && col[i].Some? && col[k].Some? && forall m :: i < m < k ==> col[m].None?
  }

  lemma FilledBetween(x: Option<real>, a: real, b: real, num: nat, den: nat)
    requires 0 < num < den && x == Some(Lerp(a, b, num, den))
    ensures x.Some?
    ensures a <= b ==> a <= x.value <= b
    ensures b <= a ==> b <= x.value <= a
  {
    LerpBetween(a, b, num, den);
  }

  /**
   * A cell strictly between two consecutive known cells `i` and `k` of a column is filled with
   * the value on the line between them, by position.
   */
  lemma GapFilledOnLine(col: Column, i: nat, j: nat, k: nat)
    requires ConsecutiveKnown(col, i, k) && i < j < k
    ensures Interpolate(col)[j] == Some(Lerp(col[i].value, col[k].value, j - i, k - i))
  {
    assert LastKnownBefore(col, j) == Some(i);
    assert FirstKnownAfter(col, j) == Some(k);
    assert Interpolate(col)[j] == FillCell(col, j);
  }

  /** Such a cell therefore lies between the two known values. */
  lemma GapBetweenAnchors(col: Column, i: nat, j: nat, k: nat)
    requires ConsecutiveKnown(col, i, k) && i < j < k
    ensures Interpolate(col)[j].Some?
    ensures col[i].value <= col[k].value ==> col[i].value <= Interpolate(col)[j].value <= col[k].value
    ensures col[k].value <= col[i].value ==> col[k].value <= Interpolate(col)[j].value <= col[i].value
  {
    GapFilledOnLine(col, i, j, k);
    FilledBetween(Interpolate(col)[j], col[i].value, col[k].value, j - i, k - i);
  }

  /** After a column's last known cell, every cell repeats that cell's value. */
  lemma {:induction false} TrailingGapRepeatsLast(col: Column, i: nat, j: nat)
    requires i < j < |col|
    requires col[i].Some?
    requires forall m :: i < m < |col| ==> col[m].None?
    ensures Interpolate(col)[j] == col[i]
  {
    var before := LastKnownBefore(col, j);
    assert before == Some(i);
    assert FirstKnownAfter(col, j).None?;
    assert Interpolate(col)[j] == FillCell(col, j);
  }

  /** A column with no known cell stays entirely unset. */
  lemma AllUnsetStaysUnset(col: Column)
    requires forall m :: 0 <= m < |col| ==> col[m].None?
    ensures forall j :: 0 <= j < |col| ==> Interpolate(col)[j].None?
  {
    InterpolateKeepsKnown(col);
  }
}
