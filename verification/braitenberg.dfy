/** How the controller reads the steering matrices: the angular-rate
    contribution of a detection grid is its cell-by-cell dot product with a
    steering matrix. These lemmas fix the sign convention of the two matrices. */
module Braitenberg {
  import opened Grids
  import opened Steering
  import opened Classes
  import opened Detection

  function RowDot(a: seq<real>, b: seq<real>): real
    requires |a| == |b|
    decreases |a|
  {
    if |a| == 0 then 0.0 else a[0] * b[0] + RowDot(a[1..], b[1..])
  }

  /** Sum over all cells of `a[i][j] * b[i][j]`. */
  function Dot(a: seq<seq<real>>, b: seq<seq<real>>, h: nat, w: nat): real
    requires HasShape(a, h, w) && HasShape(b, h, w)
    decreases h
  {
    if h == 0 then 0.0 else RowDot(a[0], b[0]) + Dot(a[1..], b[1..], h - 1, w)
  }

  /** When every product `a[k] * b[k]` has the sign of `s` (or is zero), so does
      their sum: `s = 1.0` gives a non-negative sum, `s = -1.0` a non-positive one. */
  lemma {:induction false} RowDotSign(a: seq<real>, b: seq<real>, s: real)
    requires |a| == |b|
    requires forall k :: 0 <= k < |a| ==> s * (a[k] * b[k]) >= 0.0
    ensures s * RowDot(a, b) >= 0.0
    decreases |a|
  {
    if |a| > 0 {
      assert forall k :: 0 <= k < |a| - 1 ==> a[1..][k] * b[1..][k] == a[k + 1] * b[k + 1];
      RowDotSign(a[1..], b[1..], s);
      assert s * RowDot(a, b) == s * (a[0] * b[0]) + s * RowDot(a[1..], b[1..]);
    }
  }

  /** `RowDotSign` for whole grids. */
  lemma {:induction false} DotSign(a: seq<seq<real>>, b: seq<seq<real>>, h: nat, w: nat, s: real)
    requires HasShape(a, h, w) && HasShape(b, h, w)
    requires forall i, j :: 0 <= i < h && 0 <= j < w ==> s * (a[i][j] * b[i][j]) >= 0.0
    ensures s * Dot(a, b, h, w) >= 0.0
    decreases h
  {
    if h > 0 {
      RowDotSign(a[0], b[0], s);
      assert forall i, j :: 0 <= i < h - 1 && 0 <= j < w ==> a[1..][i][j] * b[1..][i][j] == a[i + 1][j] * b[i + 1][j];
      DotSign(a[1..], b[1..], h - 1, w, s);
      assert s * Dot(a, b, h, w) == s * RowDot(a[0], b[0]) + s * Dot(a[1..], b[1..], h - 1, w);
    }
  }

  /** Markings seen through the left matrix never turn the robot the positive
      way, and markings seen through the right matrix never turn it the negative way. */
  lemma SteeringSigns(m: seq<seq<real>>, h: nat, w: nat)
    requires HasShape(m, h, w)
    requires forall i, j :: 0 <= i < h && 0 <= j < w ==> m[i][j] >= 0.0
    ensures Dot(LeftSteerMatrix(h, w), m, h, w) <= 0.0
    ensures Dot(RightSteerMatrix(h, w), m, h, w) >= 0.0
  {
    var l, r := LeftSteerMatrix(h, w), RightSteerMatrix(h, w);
    forall i, j | 0 <= i < h && 0 <= j < w
      ensures -1.0 * (l[i][j] * m[i][j]) >= 0.0 && 1.0 * (r[i][j] * m[i][j]) >= 0.0
    {
      assert l[i][j] == LeftGain || l[i][j] == 0.0;
      assert r[i][j] == RightGain || r[i][j] == 0.0;
    }
    DotSign(l, m, h, w, -1.0);
    DotSign(r, m, h, w, 1.0);
  }

  lemma DotZero(a: seq<seq<real>>, b: seq<seq<real>>, h: nat, w: nat)
    requires HasShape(a, h, w) && HasShape(b, h, w)
    requires forall i, j :: 0 <= i < h && 0 <= j < w ==> a[i][j] * b[i][j] == 0.0
    ensures Dot(a, b, h, w) == 0.0
  {
    forall i, j | 0 <= i < h && 0 <= j < w ensures -1.0 * (a[i][j] * b[i][j]) >= 0.0 && 1.0 * (a[i][j] * b[i][j]) >= 0.0 {
    }
    DotSign(a, b, h, w, -1.0);
    DotSign(a, b, h, w, 1.0);
  }

  /** The left matrix gives zero on any grid that is zero on the left half, and
      the right matrix on any grid that is zero on the right half. */
  lemma SteeringBlindOutsideItsHalf(g: seq<seq<real>>, h: nat, w: nat)
    requires HasShape(g, h, w)
    ensures (forall i, j :: 0 <= i < h && 0 <= j < Half(w) ==> g[i][j] == 0.0) ==>
      Dot(LeftSteerMatrix(h, w), g, h, w) == 0.0
    ensures (forall i, j :: 0 <= i < h && Half(w) <= j < w ==> g[i][j] == 0.0) ==>
      Dot(RightSteerMatrix(h, w), g, h, w) == 0.0
  {
    var l, r := LeftSteerMatrix(h, w), RightSteerMatrix(h, w);
    if forall i, j :: 0 <= i < h && 0 <= j < Half(w) ==> g[i][j] == 0.0 {
      forall i, j | 0 <= i < h && 0 <= j < w ensures l[i][j] * g[i][j] == 0.0 {
        if j >= Half(w) { assert l[i][j] == 0.0; }
      }
      DotZero(l, g, h, w);
    }
    if forall i, j :: 0 <= i < h && Half(w) <= j < w ==> g[i][j] == 0.0 {
      forall i, j | 0 <= i < h && 0 <= j < w ensures r[i][j] * g[i][j] == 0.0 {
        if j < Half(w) { assert r[i][j] == 0.0; }
      }
      DotZero(r, g, h, w);
    }
  }

  /** Each steering matrix is blind to the other side's detections: the left
      matrix gives zero on the right detection grid and vice versa. */
  lemma SteeringIgnoresOtherSide(mask: seq<seq<real>>, labels: seq<seq<int>>, cm: ClassMap, avoid: bool)
    requires IsRect(mask)
    requires DetectLaneMarkings(mask, labels, cm, avoid).Success?
    ensures var h, w := |mask|, Width(mask);
      var r := DetectLaneMarkings(mask, labels, cm, avoid).value;
      && Dot(LeftSteerMatrix(h, w), r.right, h, w) == 0.0
      && Dot(RightSteerMatrix(h, w), r.left, h, w) == 0.0
  {
    var h, w := |mask|, Width(mask);
    var r := DetectLaneMarkings(mask, labels, cm, avoid).value;
    DetectionSides(mask, labels, cm, avoid);
    SteeringBlindOutsideItsHalf(r.right, h, w);
    SteeringBlindOutsideItsHalf(r.left, h, w);
  }
}
