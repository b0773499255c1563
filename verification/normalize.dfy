/**
 * The piecewise-linear normaliser used by every quality sub-score
 * (`normalizeValue` in src/commands/evaluate/utils.ts).
 *
 * Numbers are modelled as reals: NaN, infinities and rounding do not exist,
 * so npm-pd's "invalid result" guard becomes the one case in which the
 * interpolation would divide by zero, and that case is proved unreachable.
 */
module Normalize {
  import opened Wrappers

  /** A calibration point: inputs at `value` map to `norm`. */
  datatype ScoreStep = ScoreStep(value: real, norm: real)

  /** the error npm-pd throws ("Invalid value or steps"). */
  datatype NormalizeError = InvalidValueOrSteps

  /** Steps listed in ascending order of `value`. */
  predicate Ascending(steps: seq<ScoreStep>)
  {
    forall p, q :: 0 <= p < q < |steps| ==> steps[p].value <= steps[q].value
  }

  /**
   * The index of the last step whose value is at or below `v`, or -1 when
   * there is none (lodash `findLastIndex`).
   */
  function FindLastIndex(steps: seq<ScoreStep>, v: real): (i: int)
    ensures -1 <= i < |steps|
    ensures 0 <= i ==> steps[i].value <= v
    ensures forall j :: i < j < |steps| ==> v < steps[j].value
    decreases |steps|
  {
    if |steps| == 0 then -1
    else if steps[|steps| - 1].value <= v then |steps| - 1
    else FindLastIndex(steps[..|steps| - 1], v)
  }

  /**
   * Map `v` through the calibration `steps`: below every step it clamps to
   * the first norm, at or beyond the last step to the last norm, and in
   * between it interpolates linearly between the bracketing steps.
   * The error branch never fires: the chosen step is the LAST one at or
   * below `v`, so the next step lies strictly above `v` and the span is
   * positive, whether or not the steps are sorted.
   */
  function NormalizeValue(v: real, steps: seq<ScoreStep>): (r: Result<real, NormalizeError>)
    requires |steps| > 0
    ensures r.Ok?
  {
    var i := FindLastIndex(steps, v);
    if i == -1 then Ok(steps[0].norm)
    else if i >= |steps| - 1 then Ok(steps[|steps| - 1].norm)
    else if steps[i + 1].value - steps[i].value == 0.0 then Err(InvalidValueOrSteps)
    else Ok(Line(steps[i], steps[i + 1], v))
  }

  /** The straight line through two steps of different value, taken at `v`. */
  function Line(low: ScoreStep, high: ScoreStep, v: real): real
    requires high.value - low.value != 0.0
  {
    low.norm + (high.norm - low.norm) * (v - low.value) / (high.value - low.value)
  }

  function Min(a: real, b: real): real { if a <= b then a else b }
  function Max(a: real, b: real): real { if a <= b then b else a }

  /** Below every step the result is the first step's norm. */
  lemma ClampLow(v: real, steps: seq<ScoreStep>)
    requires |steps| > 0
    requires forall j :: 0 <= j < |steps| ==> v < steps[j].value
    ensures NormalizeValue(v, steps) == Ok(steps[0].norm)
  {
  }

  /** At or beyond the last step the result is the last step's norm. */
  lemma ClampHigh(v: real, steps: seq<ScoreStep>)
    requires |steps| > 0
    requires steps[|steps| - 1].value <= v
    ensures NormalizeValue(v, steps) == Ok(steps[|steps| - 1].norm)
  {
  }

  /**
   * For ascending steps and `v` in [steps[i].value, steps[i+1].value), the
   * result is the linear interpolation between those two steps, and it is
   * exactly steps[i].norm when `v` sits on step i.
   */
  lemma Interpolates(v: real, steps: seq<ScoreStep>, i: nat)
    requires Ascending(steps)
    requires i + 1 < |steps|
    requires steps[i].value <= v < steps[i + 1].value
    ensures FindLastIndex(steps, v) == i
    ensures NormalizeValue(v, steps) == Ok(Line(steps[i], steps[i + 1], v))
    ensures v == steps[i].value ==> NormalizeValue(v, steps) == Ok(steps[i].norm)
  {
    var k := FindLastIndex(steps, v);
    assert k == i;
    if v == steps[i].value {
      LineAtLow(steps[i], steps[i + 1]);
    }
  }

  /** The line through two steps passes through the lower one. */
  lemma LineAtLow(low: ScoreStep, high: ScoreStep)
    requires high.value - low.value != 0.0
    ensures Line(low, high, low.value) == low.norm
  {
    assert (high.norm - low.norm) * (low.value - low.value) == 0.0;
  }

  /** A quotient x / d with 0 <= x < d lies in [0, 1). */
  lemma FractionBelowOne(x: real, d: real)
    requires 0.0 <= x < d
    ensures 0.0 <= x / d < 1.0
  {
    var t := x / d;
    assert t * d == x;
  }

  /** Multiplying before or after the division gives the same quotient. */
  lemma MulDiv(d: real, x: real, s: real)
    requires s != 0.0
    ensures d * x / s == d * (x / s)
  {
  }

  /** t * d lies between 0 and d for t in [0, 1]. */
  lemma ScaledBetween(d: real, t: real)
    requires 0.0 <= t <= 1.0
    ensures Min(0.0, d) <= d * t <= Max(0.0, d)
  {
    if d >= 0.0 {
      assert d * t <= d * 1.0;
    } else {
      assert d * t >= d * 1.0;
    }
  }

  /**
   * Whatever the input, an interpolated result lies in the closed interval
   * between the norms of the two bracketing steps.
   */
  lemma InterpolationBracketed(v: real, steps: seq<ScoreStep>)
    requires |steps| > 0
    requires 0 <= FindLastIndex(steps, v) < |steps| - 1
    ensures var i := FindLastIndex(steps, v);
      Min(steps[i].norm, steps[i + 1].norm) <= NormalizeValue(v, steps).value <= Max(steps[i].norm, steps[i + 1].norm)
  {
    var i := FindLastIndex(steps, v);
    assert NormalizeValue(v, steps) == Ok(Line(steps[i], steps[i + 1], v));
    LineBetween(steps[i], steps[i + 1], v);
  }

  /** Between two steps the line stays between their norms. */
  lemma LineBetween(low: ScoreStep, high: ScoreStep, v: real)
    requires low.value <= v < high.value
    ensures Min(low.norm, high.norm) <= Line(low, high, v) <= Max(low.norm, high.norm)
  {
    var span := high.value - low.value;
    var t := (v - low.value) / span;
    FractionBelowOne(v - low.value, span);
    ScaledBetween(high.norm - low.norm, t);
    MulDiv(high.norm - low.norm, v - low.value, span);
  }

  /**
   * Two-step calibration [(a, na), (b, nb)] with a < b, the shape every
   * extractor uses: below a it gives na (and at a as well), from b on it
   * gives nb, in between the straight line, and it never leaves [na, nb].
   */
  lemma TwoSteps(v: real, a: real, na: real, b: real, nb: real)
    requires a < b
    ensures var r := NormalizeValue(v, [ScoreStep(a, na), ScoreStep(b, nb)]).value;
      && (v <= a ==> r == na)
      && (b <= v ==> r == nb)
      && (a <= v < b ==> r == na + (nb - na) * (v - a) / (b - a))
      && Min(na, nb) <= r <= Max(na, nb)
  {
    var steps := [ScoreStep(a, na), ScoreStep(b, nb)];
    if v < a {
      ClampLow(v, steps);
    } else if b <= v {
      ClampHigh(v, steps);
    } else {
      Interpolates(v, steps, 0);
      InterpolationBracketed(v, steps);
    }
  }

  /**
   * `normalizeValue(v, [low, high])`, the two-step form every extractor
   * uses, with what TwoSteps proves about it.
   */
  function Calibrate(v: real, low: ScoreStep, high: ScoreStep): (r: real)
    requires low.value < high.value
    ensures v <= low.value ==> r == low.norm
    ensures high.value <= v ==> r == high.norm
    ensures low.value <= v < high.value ==> r == Line(low, high, v)
    ensures Min(low.norm, high.norm) <= r <= Max(low.norm, high.norm)
  {
    TwoSteps(v, low.value, low.norm, high.value, high.norm);
    NormalizeValue(v, [low, high]).value
  }

  /**
   * Calibrations that start at (0, 0) scale: a non-negative input v gives
   * min(v, b) / b of the top norm.
   */
  lemma FromZero(v: real, b: real, top: real)
    requires 0.0 <= v && 0.0 < b
    ensures Calibrate(v, ScoreStep(0.0, 0.0), ScoreStep(b, top)) == Min(v, b) / b * top
  {
    if v < b {
      MulDiv(top, v, b);
      assert Line(ScoreStep(0.0, 0.0), ScoreStep(b, top), v) == top * (v / b);
    }
  }

  /**
   * The README calibration [(0, 0), (400, 1)]: inputs at or below 0 give 0,
   * inputs from 400 on give 1, and inputs in between give v / 400.
   */
  lemma ReadmeCalibration(v: real)
    ensures var r := NormalizeValue(v, [ScoreStep(0.0, 0.0), ScoreStep(400.0, 1.0)]).value;
      && (v <= 0.0 ==> r == 0.0)
      && (400.0 <= v ==> r == 1.0)
      && (0.0 < v < 400.0 ==> r == v / 400.0)
  {
    TwoSteps(v, 0.0, 0.0, 400.0, 1.0);
  }
}
