/** The static steering-gain matrices of the Braitenberg lane follower: zero
    everywhere except a band of bottom rows in one half of the image. */
module Steering {
  import opened Grids

  /** Gain of a left-band pixel (a negative angular-rate contribution). */
  const LeftGain: real := -0.01
  /** Gain of a right-band pixel (a positive angular-rate contribution). */
  const RightGain: real := 0.01

  /** First row of the steering band: the integer part of `h * 5 / 8`. */
  function BandStartRow(h: nat): nat {
    (h * 5) / 8
  }

  /** Zeros of shape (h, w) with the block of rows from `BandStartRow(h)` down and
      columns left of `Half(w)` set to `LeftGain`. */
  function LeftSteerMatrix(h: nat, w: nat): (m: seq<seq<real>>)
    ensures HasShape(m, h, w)
    ensures forall i, j :: 0 <= i < h && 0 <= j < w ==>
      (m[i][j] == LeftGain <==> i >= BandStartRow(h) && j < Half(w))
    ensures forall i, j :: 0 <= i < h && 0 <= j < w ==>
      (m[i][j] == 0.0 <==> !(i >= BandStartRow(h) && j < Half(w)))
  {
    AssignBlock(Zeros(h, w), h, w, BandStartRow(h), h, 0, Half(w), LeftGain)
  }

  /** Zeros of shape (h, w) with the block of rows from `BandStartRow(h)` down and
      columns from `Half(w)` rightwards set to `RightGain`. */
  function RightSteerMatrix(h: nat, w: nat): (m: seq<seq<real>>)
    ensures HasShape(m, h, w)
    ensures forall i, j :: 0 <= i < h && 0 <= j < w ==>
      (m[i][j] == RightGain <==> i >= BandStartRow(h) && j >= Half(w))
    ensures forall i, j :: 0 <= i < h && 0 <= j < w ==>
      (m[i][j] == 0.0 <==> !(i >= BandStartRow(h) && j >= Half(w)))
  {
    AssignBlock(Zeros(h, w), h, w, BandStartRow(h), h, Half(w), w, RightGain)
  }

  /** The two matrices never both act on one pixel, and together they cover the
      whole band: below the band start every pixel carries exactly one gain. */
  lemma SteerMatricesSplitBand(h: nat, w: nat)
    ensures forall i, j :: 0 <= i < h && 0 <= j < w ==>
      LeftSteerMatrix(h, w)[i][j] == 0.0 || RightSteerMatrix(h, w)[i][j] == 0.0
    ensures forall i, j :: 0 <= i < h && 0 <= j < w ==>
      (i >= BandStartRow(h) <==> RightSteerMatrix(h, w)[i][j] - LeftSteerMatrix(h, w)[i][j] == 0.01)
  {
  }

  /** The steering band lies inside the lower half of the image: it starts at or
      below the horizon row `Half(h)` that lane detection crops at, so neither
      matrix has a non-zero weight in the cropped rows. */
  lemma BandBelowHorizon(h: nat, w: nat)
    ensures Half(h) <= BandStartRow(h) <= h
    ensures forall i, j :: 0 <= i < Half(h) && 0 <= j < w ==>
      LeftSteerMatrix(h, w)[i][j] == 0.0 && RightSteerMatrix(h, w)[i][j] == 0.0
  {
    var q := h / 2;
    assert h == 2 * q + h % 2;
    assert h * 5 == 8 * q + (2 * q + 5 * (h % 2));
    assert (h * 5) / 8 >= q;
  }
}
