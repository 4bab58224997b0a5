/**
 * The time quantizer `format_time`, identical in Parser.py and Parser-Sun.py: an epoch is rounded
 * to the nearest multiple of the step, a midpoint rounding up, by `(t + step/2) // step * step`.
 * The epoch arrives already computed; the ISO label rendered beside it is not modelled.
 */
module Quantizer {
  import opened Wrappers
  import opened Failures

  /** Python's floor division `a // b`, for either sign of `b`. */
  function FloorDiv(a: int, b: int): int
    requires b != 0
  {
    if b > 0 then a / b else (-a) / (-b)
  }

  /** `a // b` is the largest multiple count below `a`: `b * q` lies within one `b` of `a`. */
  lemma FloorDivBounds(a: int, b: int)
    requires b != 0
    ensures b > 0 ==> b * FloorDiv(a, b) <= a < b * FloorDiv(a, b) + b
    ensures b < 0 ==> b * FloorDiv(a, b) + b < a <= b * FloorDiv(a, b)
  {
    if b < 0 {
      var q := (-a) / (-b);
      assert (-b) * q <= -a < (-b) * q + (-b);
      assert b * q == -((-b) * q);
    }
  }

  /** The step in seconds; always a multiple of 60, hence even. */
  function StepSeconds(stepMinutes: int): int
  {
    stepMinutes * 60
  }

  /** `format_time`: the slot epoch of `t`, or Python's ZeroDivisionError for a zero step. */
  function FormatTime(t: int, stepMinutes: int): (r: Result<int, Failure>)
    ensures r.Err? <==> stepMinutes == 0
    ensures r.Err? ==> r.error == ZeroStep
  {
    if stepMinutes == 0 then Err(ZeroStep)
    else
      // `step / 2` is exact because the step is even, as Python's true division is here
      var step := StepSeconds(stepMinutes);
      Ok(FloorDiv(t + step / 2, step) * step)
  }

  /**
   * The rounding `format_time` does: the slot is a multiple of the step, and for a positive step
   * the one multiple in `(t - step/2, t + step/2]`; a negative step mirrors the interval.
   */
  lemma FormatTimeRounds(t: int, stepMinutes: int)
    requires stepMinutes != 0
    ensures FormatTime(t, stepMinutes).value % StepSeconds(stepMinutes) == 0
    ensures stepMinutes > 0 ==> t - stepMinutes * 30 < FormatTime(t, stepMinutes).value <= t + stepMinutes * 30
    ensures stepMinutes < 0 ==> t + stepMinutes * 30 <= FormatTime(t, stepMinutes).value < t - stepMinutes * 30
  {
    var step := StepSeconds(stepMinutes);
    assert step / 2 == stepMinutes * 30;
    var q := FloorDiv(t + step / 2, step);
    FloorDivBounds(t + step / 2, step);
    MultipleOfStep(q, step);
    assert FormatTime(t, stepMinutes).value == q * step;
    assert step * q == q * step;
  }

  lemma MultipleOfStep(q: int, step: int)
    requires step != 0
    ensures (q * step) % step == 0
  {
    var r := (q * step) % step;
    var d := (q * step) / step;
    assert q * step == step * d + r;
    assert step * (q - d) == r;
    if r != 0 {
      if q - d > 0 {
        MulAtLeast(step, q - d);
      } else {
        MulAtLeast(step, d - q);
      }
      assert false;
    }
  }

  /** |s * k| >= |s| for a nonzero k. */
  lemma MulAtLeast(s: int, k: int)
    requires k >= 1
    ensures s > 0 ==> s * k >= s
    ensures s < 0 ==> s * k <= s
  {
    if s > 0 {
      assert s * k == s + s * (k - 1);
      assert s * (k - 1) >= 0;
    } else if s < 0 {
      assert s * k == s + s * (k - 1);
      assert s * (k - 1) <= 0;
    }
  }

  /** Two multiples of a nonzero step less than a step apart are equal. */
  lemma {:induction false} MultiplesApart(x: int, y: int, step: int)
    requires step != 0 && x % step == 0 && y % step == 0
    requires x - y < (if step > 0 then step else -step)
    requires y - x < (if step > 0 then step else -step)
    ensures x == y
  {
    var a, b := x / step, y / step;
    assert x == step * a && y == step * b;
    assert x - y == step * (a - b);
    if a - b >= 1 {
      MulAtLeast(step, a - b);
      assert false;
    } else if b - a >= 1 {
      MulAtLeast(step, b - a);
      assert false;
    }
  }

  /** An epoch already on the grid is its own slot, for either sign of the step. */
  lemma {:induction false} AlignedIsFixed(t: int, stepMinutes: int)
    requires stepMinutes != 0 && t % StepSeconds(stepMinutes) == 0
    ensures FormatTime(t, stepMinutes) == Ok(t)
  {
    var r := FormatTime(t, stepMinutes).value;
    var step := StepSeconds(stepMinutes);
    FormatTimeRounds(t, stepMinutes);
    MultiplesApart(r, t, step);
  }

  /** Quantizing a slot again gives the same slot. */
  lemma {:induction false} FormatTimeIdempotent(t: int, stepMinutes: int)
    requires stepMinutes != 0
    ensures FormatTime(FormatTime(t, stepMinutes).value, stepMinutes) == FormatTime(t, stepMinutes)
  {
    FormatTimeRounds(t, stepMinutes);
    AlignedIsFixed(FormatTime(t, stepMinutes).value, stepMinutes);
  }

  /** One step below a multiple of the step is again a multiple. */
  lemma PreviousMultiple(s: int, step: int)
    requires step != 0 && s % step == 0
    ensures (s - step) % step == 0
  {
    var d := s / step;
    assert s == step * d;
    MultipleOfStep(d - 1, step);
    assert (d - 1) * step == step * d - step;
  }

  /** The midpoint rule: an epoch exactly half a step before a slot boundary `s` rounds up to `s`. */
  lemma {:induction false} MidpointRoundsUp(s: int, stepMinutes: int)
    requires stepMinutes > 0 && s % StepSeconds(stepMinutes) == 0
    ensures FormatTime(s - stepMinutes * 30, stepMinutes) == Ok(s)
  {
    var t := s - stepMinutes * 30;
    FormatTimeRounds(t, stepMinutes);
    var r := FormatTime(t, stepMinutes).value;
    assert s - StepSeconds(stepMinutes) < r <= s;
    MultiplesApart(r, s, StepSeconds(stepMinutes));
  }

  /** One second earlier than the midpoint rounds down to the previous slot. */
  lemma {:induction false} BelowMidpointRoundsDown(s: int, stepMinutes: int)
    requires stepMinutes > 0 && s % StepSeconds(stepMinutes) == 0
    ensures FormatTime(s - stepMinutes * 30 - 1, stepMinutes) == Ok(s - StepSeconds(stepMinutes))
  {
    var step := StepSeconds(stepMinutes);
    var t := s - stepMinutes * 30 - 1;
    PreviousMultiple(s, step);
    FormatTimeRounds(t, stepMinutes);
    var r := FormatTime(t, stepMinutes).value;
    assert s - step - step < r <= s - 1;
    MultiplesApart(r, s - step, step);
  }

  /** With a ten-minute step, 300 s before a boundary rounds up and 301 s before rounds down. */
  lemma TenMinuteExample()
    ensures FormatTime(6000 - 300, 10) == Ok(6000)
    ensures FormatTime(6000 - 301, 10) == Ok(5400)
  {
    MidpointRoundsUp(6000, 10);
    BelowMidpointRoundsDown(6000, 10);
  }
}
