/** Linear normalisation of a value between two bounds, guarded against a
    degenerate range. */
module Rescale {

  /** Relative and absolute tolerance of the closeness test. */
  datatype Tolerance = Tolerance(rtol: real, atol: real)

  /** The tolerances the array library uses by default. */
  const DefaultTolerance: Tolerance := Tolerance(0.00001, 0.00000001)

  predicate ValidTolerance(t: Tolerance) {
    t.rtol >= 0.0 && t.atol >= 0.0
  }

  function Abs(x: real): real {
    if x < 0.0 then -x else x
  }

  /** `a` is close to `b` (the reference value) within tolerance `t`. */
  predicate AllClose(t: Tolerance, a: real, b: real) {
    Abs(a - b) <= t.atol + t.rtol * Abs(b)
  }

  /** Where `a` lies between `lo` and `hi`, as a fraction of the range: 0 when
      the bounds are close, `(a - lo) / (hi - lo)` otherwise (not clamped). */
  function Rescale(t: Tolerance, a: real, lo: real, hi: real): (r: real)
    requires ValidTolerance(t)
    ensures AllClose(t, lo, hi) ==> r == 0.0
    ensures !AllClose(t, lo, hi) ==> lo != hi && lo + r * (hi - lo) == a
  {
    if AllClose(t, lo, hi) then 0.0 else (a - lo) / (hi - lo)
  }

  /** The inverse map: the point at fraction `f` of the range. */
  function Unscale(f: real, lo: real, hi: real): real {
    lo + f * (hi - lo)
  }

  /** Round trips between values and fractions, for a range that is not degenerate. */
  lemma RescaleUnscaleRoundTrip(t: Tolerance, a: real, f: real, lo: real, hi: real)
    requires ValidTolerance(t) && !AllClose(t, lo, hi)
    ensures Unscale(Rescale(t, a, lo, hi), lo, hi) == a
    ensures Rescale(t, Unscale(f, lo, hi), lo, hi) == f
  {
    var d := hi - lo;
    assert d != 0.0;
    var x := Unscale(f, lo, hi);
    assert x - lo == f * d;
    assert Rescale(t, x, lo, hi) == (f * d) / d;
  }

  /** The bounds themselves map to 0 and 1; a degenerate range maps everything to 0. */
  lemma RescaleEndpoints(t: Tolerance, lo: real, hi: real, x: real)
    requires ValidTolerance(t)
    ensures !AllClose(t, lo, hi) ==> Rescale(t, lo, lo, hi) == 0.0 && Rescale(t, hi, lo, hi) == 1.0
    ensures Rescale(t, x, lo, lo) == 0.0
  {
    if !AllClose(t, lo, hi) {
      assert (hi - lo) / (hi - lo) == 1.0;
    }
  }

  /** On an increasing range the fraction grows with the value. */
  lemma RescaleMonotone(t: Tolerance, a: real, b: real, lo: real, hi: real)
    requires ValidTolerance(t) && lo < hi && !AllClose(t, lo, hi)
    requires a <= b
    ensures Rescale(t, a, lo, hi) <= Rescale(t, b, lo, hi)
  {
    var d := hi - lo;
    var ra, rb := Rescale(t, a, lo, hi), Rescale(t, b, lo, hi);
    assert (rb - ra) * d == b - a;
  }

  /** With the default tolerances: 5 is halfway between 0 and 10, and a range of
      width zero gives 0. */
  lemma RescaleDefaultExamples(x: real)
    ensures Rescale(DefaultTolerance, 5.0, 0.0, 10.0) == 0.5
    ensures Rescale(DefaultTolerance, 0.0, 0.0, 10.0) == 0.0
    ensures Rescale(DefaultTolerance, 10.0, 0.0, 10.0) == 1.0
    ensures Rescale(DefaultTolerance, x, 3.0, 3.0) == 0.0
  {
  }
}
