/** Two-dimensional grids (row-major, row 0 at the top of the image) and the
    handful of array operations the controller helpers are built from: filled
    grids, block assignment through slices, element-wise products and sums, and
    the 0/1 indicator of a label comparison. */
module Grids {

  /** `g` has `h` rows of `w` cells each. */
  predicate HasShape<T>(g: seq<seq<T>>, h: nat, w: nat) {
    |g| == h && forall i :: 0 <= i < h ==> |g[i]| == w
  }

  /** Number of columns of a grid (read off its first row). */
  function Width<T>(g: seq<seq<T>>): nat {
    if |g| == 0 then 0 else |g[0]|
  }

  /** Every row of `g` is as long as the first: `g` is a proper 2-D array. */
  predicate IsRect<T>(g: seq<seq<T>>) {
    HasShape(g, |g|, Width(g))
  }

  /** Integer half of a width or height, as floor division. */
  function Half(n: nat): nat {
    n / 2
  }

  /** An `h` by `w` grid holding `v` everywhere. */
  function Fill<T>(h: nat, w: nat, v: T): (g: seq<seq<T>>)
    ensures HasShape(g, h, w)
    ensures forall i, j :: 0 <= i < h && 0 <= j < w ==> g[i][j] == v
  {
    seq(h, _ => seq(w, _ => v))
  }

  function Zeros(h: nat, w: nat): (g: seq<seq<real>>)
    ensures HasShape(g, h, w)
    ensures forall i, j :: 0 <= i < h && 0 <= j < w ==> g[i][j] == 0.0
  {
    Fill(h, w, 0.0)
  }

  function Ones(h: nat, w: nat): (g: seq<seq<real>>)
    ensures HasShape(g, h, w)
    ensures forall i, j :: 0 <= i < h && 0 <= j < w ==> g[i][j] == 1.0
  {
    Fill(h, w, 1.0)
  }

  /** The slice assignment `g[r0:r1, c0:c1] = v`. Slice bounds beyond the edge
      of the grid select up to the edge, and an empty range selects nothing. */
  function AssignBlock(g: seq<seq<real>>, h: nat, w: nat, r0: nat, r1: nat, c0: nat, c1: nat, v: real)
    : (r: seq<seq<real>>)
    requires HasShape(g, h, w)
    ensures HasShape(r, h, w)
    ensures forall i, j :: 0 <= i < h && 0 <= j < w && r0 <= i < r1 && c0 <= j < c1 ==> r[i][j] == v
    ensures forall i, j :: 0 <= i < h && 0 <= j < w && !(r0 <= i < r1 && c0 <= j < c1) ==> r[i][j] == g[i][j]
  {
    seq(h, i requires 0 <= i < h =>
      seq(w, j requires 0 <= j < w =>
        if r0 <= i < r1 && c0 <= j < c1 then v else g[i][j]))
  }

  /** Element-wise product of two grids of one shape. */
  function Mul(a: seq<seq<real>>, b: seq<seq<real>>, h: nat, w: nat): (r: seq<seq<real>>)
    requires HasShape(a, h, w) && HasShape(b, h, w)
    ensures HasShape(r, h, w)
    ensures forall i, j :: 0 <= i < h && 0 <= j < w ==> r[i][j] == a[i][j] * b[i][j]
  {
    seq(h, i requires 0 <= i < h => seq(w, j requires 0 <= j < w => a[i][j] * b[i][j]))
  }

  /** Element-wise sum of two grids of one shape. */
  function Add(a: seq<seq<real>>, b: seq<seq<real>>, h: nat, w: nat): (r: seq<seq<real>>)
    requires HasShape(a, h, w) && HasShape(b, h, w)
    ensures HasShape(r, h, w)
    ensures forall i, j :: 0 <= i < h && 0 <= j < w ==> r[i][j] == a[i][j] + b[i][j]
  {
    seq(h, i requires 0 <= i < h => seq(w, j requires 0 <= j < w => a[i][j] + b[i][j]))
  }

  /** Every cell multiplied by the scalar `c`. */
  function Scale(a: seq<seq<real>>, h: nat, w: nat, c: real): (r: seq<seq<real>>)
    requires HasShape(a, h, w)
    ensures HasShape(r, h, w)
    ensures forall i, j :: 0 <= i < h && 0 <= j < w ==> r[i][j] == a[i][j] * c
  {
    seq(h, i requires 0 <= i < h => seq(w, j requires 0 <= j < w => a[i][j] * c))
  }

  /** The boolean grid `labels == id`, read as 1.0 where true and 0.0 where
      false, as it is when it takes part in arithmetic. */
  function Indicator(labels: seq<seq<int>>, h: nat, w: nat, id: int): (r: seq<seq<real>>)
    requires HasShape(labels, h, w)
    ensures HasShape(r, h, w)
    ensures forall i, j :: 0 <= i < h && 0 <= j < w ==> (r[i][j] == 1.0 <==> labels[i][j] == id)
    ensures forall i, j :: 0 <= i < h && 0 <= j < w ==> (r[i][j] == 0.0 <==> labels[i][j] != id)
  {
    seq(h, i requires 0 <= i < h => seq(w, j requires 0 <= j < w => if labels[i][j] == id then 1.0 else 0.0))
  }

  /** Two grids of one shape are equal when they agree cell by cell. */
  lemma GridsEqual(a: seq<seq<real>>, b: seq<seq<real>>, h: nat, w: nat)
    requires HasShape(a, h, w) && HasShape(b, h, w)
    requires forall i, j :: 0 <= i < h && 0 <= j < w ==> a[i][j] == b[i][j]
    ensures a == b
  {
    forall i | 0 <= i < h ensures a[i] == b[i] {
      assert forall j :: 0 <= j < w ==> a[i][j] == b[i][j];
    }
  }
}
