/**
 * The one-dimensional Kalman filter of `kalman1D` (main.js), under a
 * random-walk state model: the true value drifts by process noise of
 * variance Q between steps, and each measurement adds noise of variance R.
 *
 * Numbers are exact reals standing in for JavaScript doubles.
 */
module Kalman {
  import opened Wrappers

  /** The filter's transient state: the current estimate and its variance. */
  datatype FilterState = FilterState(x: real, p: real)

  /** Default configuration of `kalman1D` and of its only caller. */
  const DefaultQ: real := 0.02
  const DefaultR: real := 0.25
  const DefaultP0: real := 1.0

  /** A configuration under which every division of the recursion is defined. */
  predicate ValidConfig(q: real, r: real, p0: real) {
    q >= 0.0 && r > 0.0 && p0 >= 0.0
  }

  /** `v` lies in the closed interval spanned by `a` and `b` (in either order). */
  predicate Between(v: real, a: real, b: real) {
    (a <= v <= b) || (b <= v <= a)
  }

  /** `v` lies in the open interval spanned by `a` and `b` (in either order). */
  predicate StrictlyBetween(v: real, a: real, b: real) {
    (a < v < b) || (b < v < a)
  }

  /** The Kalman gain for predicted variance `predicted` and measurement noise `r`. */
  function Gain(predicted: real, r: real): (k: real)
    requires predicted >= 0.0 && r > 0.0
    ensures 0.0 <= k < 1.0
    ensures predicted > 0.0 ==> 0.0 < k
  {
    var d := predicted + r;
    DivMul(predicted, d);
    UnitBounds(predicted / d, d);
    predicted / d
  }

  /** The weight left on the prior estimate is R/(P'+R). */
  lemma GainComplement(predicted: real, r: real)
    requires predicted >= 0.0 && r > 0.0
    ensures (1.0 - Gain(predicted, r)) * (predicted + r) == r
  {
    var d := predicted + r;
    DivMul(predicted, d);
    DivMul(r, d);
    assert (predicted / d + r / d) * d == (predicted / d) * d + (r / d) * d;
    Cancel(predicted / d + r / d, 1.0, d);
  }

  /**
   * The variance after the update, `(1 - K)·P'`, for predicted variance P':
   * it stays below R, and it is positive when P' is.
   */
  function Posterior(predicted: real, r: real): (v: real)
    requires predicted >= 0.0 && r > 0.0
    ensures 0.0 <= v < r
    ensures predicted > 0.0 ==> 0.0 < v
  {
    var k := Gain(predicted, r);
    PosteriorFacts(predicted, r);
    (1.0 - k) * predicted
  }

  /** The updated variance is R·P'/(P'+R), written without division. */
  lemma PosteriorFacts(predicted: real, r: real)
    requires predicted >= 0.0 && r > 0.0
    ensures var v := (1.0 - Gain(predicted, r)) * predicted;
      v * (predicted + r) == r * predicted && 0.0 <= v < r && (predicted > 0.0 ==> 0.0 < v)
  {
    var k := Gain(predicted, r);
    var v := (1.0 - k) * predicted;
    var d := predicted + r;
    GainComplement(predicted, r);
    assert v * d == ((1.0 - k) * d) * predicted;
    assert v * d == r * predicted;
    MulNonneg(1.0 - k, predicted);
    if predicted > 0.0 {
      MulPos(1.0 - k, predicted);
    }
    MulPos(r, r);
    assert r * d == r * predicted + r * r;
    MulLess(v, r, d);
  }

  /** The updated variance is R·P'/(P'+R) for the predicted variance P'. */
  lemma PosteriorClosedForm(predicted: real, r: real)
    requires predicted >= 0.0 && r > 0.0
    ensures Posterior(predicted, r) == r * predicted / (predicted + r)
  {
    var d := predicted + r;
    var v := Posterior(predicted, r);
    PosteriorFacts(predicted, r);
    assert v * d == r * predicted;
    DivMul(r * predicted, d);
    Cancel(v, r * predicted / d, d);
  }

  /**
   * One step of the recursion: predict (P + Q), compute the gain, move the
   * estimate towards the measurement `z` and shrink the variance.
   */
  function Step(s: FilterState, z: real, q: real, r: real): (t: FilterState)
    requires s.p >= 0.0 && q >= 0.0 && r > 0.0
    ensures 0.0 <= t.p < r
    ensures s.p + q > 0.0 ==> 0.0 < t.p
  {
    var predicted := s.p + q;
    var k := Gain(predicted, r);
    FilterState(s.x + k * (z - s.x), Posterior(predicted, r))
  }

  /**
   * A step moves the estimate towards the measurement without overshooting
   * it, and strictly so when the predicted variance is positive.
   */
  lemma StepBetween(s: FilterState, z: real, q: real, r: real)
    requires s.p >= 0.0 && q >= 0.0 && r > 0.0
    ensures Between(Step(s, z, q, r).x, s.x, z)
    ensures s.p + q > 0.0 && s.x != z ==> StrictlyBetween(Step(s, z, q, r).x, s.x, z)
  {
    MoveBetween(s.x, z, Gain(s.p + q, r));
  }

  // Arithmetic facts the solver does not find on its own.

  lemma DivMul(a: real, d: real)
    requires d > 0.0
    ensures (a / d) * d == a
  {
  }

  lemma Cancel(x: real, y: real, d: real)
    requires d > 0.0 && x * d == y * d
    ensures x == y
  {
    assert (x - y) * d == 0.0;
  }

  lemma UnitBounds(k: real, d: real)
    requires d > 0.0
    ensures k * d >= 0.0 ==> k >= 0.0
    ensures k * d > 0.0 ==> k > 0.0
    ensures k * d < d ==> k < 1.0
  {
    if k < 0.0 {
      assert k * d < 0.0;
    }
    if k == 0.0 {
      assert k * d == 0.0;
    }
    if k >= 1.0 {
      assert k * d >= d;
    }
  }

  lemma MulLess(a: real, b: real, d: real)
    requires d > 0.0 && a * d < b * d
    ensures a < b
  {
    if a >= b {
      MulNonneg(a - b, d);
    }
  }

  lemma MulNonneg(a: real, b: real)
    requires a >= 0.0 && b >= 0.0
    ensures a * b >= 0.0
  {
  }

  lemma MulPos(a: real, b: real)
    requires a > 0.0 && b > 0.0
    ensures a * b > 0.0
  {
  }

  lemma MoveBetween(x: real, z: real, k: real)
    requires 0.0 <= k < 1.0
    ensures Between(x + k * (z - x), x, z)
    ensures 0.0 < k && x != z ==> StrictlyBetween(x + k * (z - x), x, z)
  {
    if x <= z {
      MulNonneg(k, z - x);
      MulNonneg(1.0 - k, z - x);
      if 0.0 < k && x < z {
        MulPos(k, z - x);
        MulPos(1.0 - k, z - x);
      }
    } else {
      MulNonneg(k, x - z);
      MulNonneg(1.0 - k, x - z);
      if 0.0 < k {
        MulPos(k, x - z);
        MulPos(1.0 - k, x - z);
      }
    }
  }

  /** The states after each step of the recursion, one per measurement, in order. */
  function Run(s: FilterState, zs: seq<real>, q: real, r: real): (states: seq<FilterState>)
    requires s.p >= 0.0 && q >= 0.0 && r > 0.0
    ensures |states| == |zs|
    ensures forall i :: 0 <= i < |states| ==> 0.0 <= states[i].p < r
    decreases |zs|
  {
    if zs == [] then []
    else
      var t := Step(s, zs[0], q, r);
      [t] + Run(t, zs[1..], q, r)
  }

  /** The estimates of a sequence of states. */
  function Estimates(states: seq<FilterState>): (xs: seq<real>)
    ensures |xs| == |states|
    ensures forall i :: 0 <= i < |states| ==> xs[i] == states[i].x
  {
    seq(|states|, i requires 0 <= i < |states| => states[i].x)
  }

  /**
   * What `kalman1D(zs, {Q: q, R: r, x0, P0: p0})` returns: `[]` for no
   * measurements, otherwise the estimate after each step, starting from
   * `x0` or, when `x0` is absent, from the first measurement.
   */
  function Filter(zs: seq<real>, q: real, r: real, x0: Option<real>, p0: real): (xs: seq<real>)
    requires ValidConfig(q, r, p0)
    ensures |xs| == |zs|
  {
    if |zs| == 0 then []
    else Estimates(Run(FilterState(x0.GetOr(zs[0]), p0), zs, q, r))
  }

  /**
   * `kalman1D` as written: one pass over the measurements, updating the
   * estimate and the variance in place and pushing each new estimate.
   */
  method Kalman1D(zs: seq<real>, q: real, r: real, x0: Option<real>, p0: real) returns (xs: seq<real>)
    requires ValidConfig(q, r, p0)
    ensures |xs| == |zs|
    ensures xs == Filter(zs, q, r, x0, p0)
  {
    var n := |zs|;
    if n == 0 {
      return [];
    }
    var x := if x0 != None then x0.value else zs[0];
    var p := p0;
    xs := [];
    for k := 0 to n
      invariant p >= 0.0
      invariant xs + Estimates(Run(FilterState(x, p), zs[k..], q, r)) == Filter(zs, q, r, x0, p0)
    {
      ghost var before := FilterState(x, p);
      x, p := PredictUpdate(x, p, zs[k], q, r);
      xs := xs + [x];
      RunCons(before, zs[k..], q, r);
      assert zs[k..][1..] == zs[k + 1..];
    }
    assert zs[n..] == [];
  }

  /**
   * The body of `kalman1D`'s loop for one measurement `z`: predict the
   * variance, compute the gain, update the estimate and shrink the variance.
   */
  method PredictUpdate(x0: real, p0: real, z: real, q: real, r: real) returns (x: real, p: real)
    requires p0 >= 0.0 && q >= 0.0 && r > 0.0
    ensures FilterState(x, p) == Step(FilterState(x0, p0), z, q, r)
  {
    x, p := x0, p0;
    // predict
    p := p + q;
    // update
    var gain := p / (p + r);
    x := x + gain * (z - x);
    p := (1.0 - gain) * p;
  }

  lemma RunCons(s: FilterState, zs: seq<real>, q: real, r: real)
    requires s.p >= 0.0 && q >= 0.0 && r > 0.0
    requires zs != []
    ensures var t := Step(s, zs[0], q, r);
      Estimates(Run(s, zs, q, r)) == [t.x] + Estimates(Run(t, zs[1..], q, r))
  {
  }

  /** The state before step `i` of a run from `s` that produced `states`. */
  function Prior(s: FilterState, states: seq<FilterState>, i: nat): FilterState
    requires i <= |states|
  {
    if i == 0 then s else states[i - 1]
  }

  /** Each state of a run is one `Step` from the state before it, on the measurement of that index. */
  lemma {:induction false} RunStep(s: FilterState, zs: seq<real>, q: real, r: real, i: nat)
    requires s.p >= 0.0 && q >= 0.0 && r > 0.0
    requires i < |zs|
    ensures Prior(s, Run(s, zs, q, r), i).p >= 0.0
    ensures Run(s, zs, q, r)[i] == Step(Prior(s, Run(s, zs, q, r), i), zs[i], q, r)
    decreases i
  {
    var t := Step(s, zs[0], q, r);
    var states := Run(s, zs, q, r);
    var tail := Run(t, zs[1..], q, r);
    assert states == [t] + tail;
    if i > 0 {
      RunStep(t, zs[1..], q, r, i - 1);
      assert Prior(s, states, i) == Prior(t, tail, i - 1);
      assert states[i] == tail[i - 1] && zs[i] == zs[1..][i - 1];
    }
  }

  /**
   * With Q > 0 and R > 0, at every step the gain is strictly inside (0, 1)
   * and the updated variance is the `Posterior` of the predicted variance P'
   * (that is R·P'/(P'+R), by PosteriorClosedForm), strictly between 0 and R:
   * the variance never diverges.
   */
  lemma StepwiseBounds(s: FilterState, zs: seq<real>, q: real, r: real)
    requires s.p >= 0.0 && q > 0.0 && r > 0.0
    ensures forall i :: 0 <= i < |zs| ==>
      0.0 < Gain(Prior(s, Run(s, zs, q, r), i).p + q, r) < 1.0 &&
      Run(s, zs, q, r)[i].p == Posterior(Prior(s, Run(s, zs, q, r), i).p + q, r) &&
      0.0 < Run(s, zs, q, r)[i].p < r
  {
    var states := Run(s, zs, q, r);
    forall i | 0 <= i < |zs|
      ensures 0.0 < Gain(Prior(s, states, i).p + q, r) < 1.0
      ensures states[i].p == Posterior(Prior(s, states, i).p + q, r)
      ensures 0.0 < states[i].p < r
    {
      RunStep(s, zs, q, r, i);
    }
  }

  /** The variances of a run depend only on its length, never on the measurements. */
  lemma {:induction false} VarianceIndependentOfMeasurements(s1: FilterState, zs1: seq<real>, s2: FilterState, zs2: seq<real>, q: real, r: real)
    requires s1.p >= 0.0 && q >= 0.0 && r > 0.0
    requires s2.p == s1.p && |zs2| == |zs1|
    ensures forall i :: 0 <= i < |zs1| ==> Run(s1, zs1, q, r)[i].p == Run(s2, zs2, q, r)[i].p
    decreases |zs1|
  {
    if zs1 != [] {
      var t1 := Step(s1, zs1[0], q, r);
      var t2 := Step(s2, zs2[0], q, r);
      VarianceIndependentOfMeasurements(t1, zs1[1..], t2, zs2[1..], q, r);
    }
  }

  /** A larger predicted variance never gives a smaller updated variance. */
  lemma PosteriorMonotone(a: real, b: real, r: real)
    requires 0.0 <= a <= b && r > 0.0
    ensures Posterior(a, r) <= Posterior(b, r)
  {
    var va, vb := Posterior(a, r), Posterior(b, r);
    var da, db := a + r, b + r;
    assert (va - vb) * (da * db) == (va * da) * db - (vb * db) * da;
    assert (va - vb) * (da * db) == (r * r) * (a - b);
    MulPos(da, db);
    MulNonneg(r * r, b - a);
    if va > vb {
      MulPos(va - vb, da * db);
    }
  }

  /**
   * Once a step does not raise the variance, no later step does: from the
   * defaults (P0 = 1 >= R = 0.25) on, the variance only goes down.
   */
  lemma {:induction false} VarianceNonIncreasing(s: FilterState, zs: seq<real>, q: real, r: real)
    requires s.p >= 0.0 && q >= 0.0 && r > 0.0
    requires Posterior(s.p + q, r) <= s.p
    ensures forall i :: 0 <= i < |zs| ==> Run(s, zs, q, r)[i].p <= Prior(s, Run(s, zs, q, r), i).p
    decreases |zs|
  {
    if zs != [] {
      var t := Step(s, zs[0], q, r);
      PosteriorMonotone(t.p + q, s.p + q, r);
      VarianceNonIncreasing(t, zs[1..], q, r);
      var states := Run(s, zs, q, r);
      var tail := Run(t, zs[1..], q, r);
      assert states == [t] + tail;
      forall i | 1 <= i < |zs|
        ensures Prior(s, states, i) == Prior(t, tail, i - 1) && states[i] == tail[i - 1]
      {
      }
    }
  }

  /**
   * Starting from a variance of at least R, as the defaults do (P0 = 1,
   * R = 0.25), the variance never increases from one step to the next.
   */
  lemma LargeInitialVarianceNonIncreasing(x: real, zs: seq<real>, q: real, r: real, p0: real)
    requires q >= 0.0 && r > 0.0 && p0 >= r
    ensures var s := FilterState(x, p0);
      forall i :: 0 <= i < |zs| ==> Run(s, zs, q, r)[i].p <= Prior(s, Run(s, zs, q, r), i).p
  {
    assert Posterior(p0 + q, r) <= p0;
    VarianceNonIncreasing(FilterState(x, p0), zs, q, r);
  }

  /** A measurement equal to the estimate leaves the estimate exactly where it is, at every step. */
  lemma {:induction false} RunConstant(s: FilterState, zs: seq<real>, q: real, r: real)
    requires s.p >= 0.0 && q >= 0.0 && r > 0.0
    requires forall i :: 0 <= i < |zs| ==> zs[i] == s.x
    ensures forall i :: 0 <= i < |zs| ==> Run(s, zs, q, r)[i].x == s.x
    decreases |zs|
  {
    if zs != [] {
      var t := Step(s, zs[0], q, r);
      RunConstant(t, zs[1..], q, r);
    }
  }

  /** Without `x0`, a constant input comes back unchanged. */
  lemma FilterConstant(zs: seq<real>, q: real, r: real, p0: real)
    requires ValidConfig(q, r, p0)
    requires forall i :: 0 <= i < |zs| ==> zs[i] == zs[0]
    ensures Filter(zs, q, r, None, p0) == zs
  {
    if zs != [] {
      RunConstant(FilterState(zs[0], p0), zs, q, r);
    }
  }

  /** If the start and every measurement lie in [lo, hi], so does every state's estimate. */
  lemma {:induction false} RunWithin(s: FilterState, zs: seq<real>, q: real, r: real, lo: real, hi: real)
    requires s.p >= 0.0 && q >= 0.0 && r > 0.0
    requires lo <= s.x <= hi
    requires forall i :: 0 <= i < |zs| ==> lo <= zs[i] <= hi
    ensures forall i :: 0 <= i < |zs| ==> lo <= Run(s, zs, q, r)[i].x <= hi
    decreases |zs|
  {
    if zs != [] {
      var t := Step(s, zs[0], q, r);
      StepBetween(s, zs[0], q, r);
      RunWithin(t, zs[1..], q, r, lo, hi);
    }
  }

  /** If the initial estimate and all measurements lie in [lo, hi], every output does. */
  lemma FilterWithin(zs: seq<real>, q: real, r: real, x0: Option<real>, p0: real, lo: real, hi: real)
    requires ValidConfig(q, r, p0)
    requires x0.Some? ==> lo <= x0.value <= hi
    requires forall i :: 0 <= i < |zs| ==> lo <= zs[i] <= hi
    ensures forall i :: 0 <= i < |zs| ==> lo <= Filter(zs, q, r, x0, p0)[i] <= hi
  {
    if zs != [] {
      RunWithin(FilterState(x0.GetOr(zs[0]), p0), zs, q, r, lo, hi);
    }
  }

  /**
   * Each output is a convex combination of the previous estimate and the
   * current measurement: it lies between them, strictly when they differ
   * and Q > 0.
   */
  lemma FilterConvex(zs: seq<real>, q: real, r: real, x0: Option<real>, p0: real, i: nat)
    requires ValidConfig(q, r, p0)
    requires i < |zs|
    ensures var previous := if i == 0 then x0.GetOr(zs[0]) else Filter(zs, q, r, x0, p0)[i - 1];
      Between(Filter(zs, q, r, x0, p0)[i], previous, zs[i]) &&
      (q > 0.0 && previous != zs[i] ==> StrictlyBetween(Filter(zs, q, r, x0, p0)[i], previous, zs[i]))
  {
    var s0 := FilterState(x0.GetOr(zs[0]), p0);
    RunStep(s0, zs, q, r, i);
    StepBetween(Prior(s0, Run(s0, zs, q, r), i), zs[i], q, r);
  }

  /** Two measurements through the default filter: 70 then 70 + 2804/5979 (about 70.469). */
  lemma TwoPointTrace()
    ensures Filter([70.0, 71.0], DefaultQ, DefaultR, None, DefaultP0) == [70.0, 70.0 + 2804.0 / 5979.0]
  {
    var s0 := FilterState(70.0, 1.0);
    assert Gain(1.02, 0.25) == 102.0 / 127.0;
    var s1 := Step(s0, 70.0, 0.02, 0.25);
    assert s1 == FilterState(70.0, 25.5 / 127.0);
    assert Gain(25.5 / 127.0 + 0.02, 0.25) == 2804.0 / 5979.0;
    var s2 := Step(s1, 71.0, 0.02, 0.25);
    assert s2.x == 70.0 + 2804.0 / 5979.0;
    assert [70.0, 71.0][1..] == [71.0];
    assert Run(s0, [70.0, 71.0], 0.02, 0.25) == [s1, s2];
  }
}
