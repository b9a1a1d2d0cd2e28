/** Lane-marking detection: splits an input grid into the part that belongs to
    the left (yellow, dashed) marking and the part that belongs to the right
    (white, solid) marking, and discards the upper half of the image. */
module Detection {
  import opened Results
  import opened Classes
  import opened Grids

  /** The two detection grids: left marking and right marking. */
  datatype LaneMasks = LaneMasks(left: seq<seq<real>>, right: seq<seq<real>>)

  /** A pixel survives in the left grid: it is below the horizon row, in the left
      half, and (unless class filtering is off) labelled as yellow lane. */
  predicate KeptLeft(h: nat, w: nat, i: nat, j: nat, classOk: bool) {
    i >= Half(h) && j < Half(w) && classOk
  }

  /** A pixel survives in the right grid: it is below the horizon row, in the
      right half, and (unless class filtering is off) labelled as white lane. */
  predicate KeptRight(h: nat, w: nat, i: nat, j: nat, classOk: bool) {
    i >= Half(h) && j >= Half(w) && classOk
  }

  /** The class masks: all ones when `avoid` is set; otherwise the indicators of
      the yellow-lane and white-lane ids, looked up in that order. */
  function ClassMasks(labels: seq<seq<int>>, cm: ClassMap, avoid: bool, h: nat, w: nat)
    : (r: Result<(seq<seq<real>>, seq<seq<real>>)>)
    ensures avoid ==> r == Success((Ones(h, w), Ones(h, w)))
    ensures !avoid && YellowLane !in cm ==> r == Failure(MissingClass(YellowLane))
    ensures !avoid && YellowLane in cm && WhiteLane !in cm ==> r == Failure(MissingClass(WhiteLane))
    ensures !avoid && YellowLane in cm && WhiteLane in cm && !HasShape(labels, h, w) ==> r == Failure(ShapeMismatch)
    ensures !avoid && YellowLane in cm && WhiteLane in cm && HasShape(labels, h, w) ==>
      r == Success((Indicator(labels, h, w, cm[YellowLane]), Indicator(labels, h, w, cm[WhiteLane])))
  {
    if avoid then Success((Ones(h, w), Ones(h, w)))
    else
      var names := [YellowLane, WhiteLane];
      match FirstMissing(cm, names)
      case Some(k) => Failure(MissingClass(k))
      case None =>
        assert names[0] in cm && names[1] in cm;
        if !HasShape(labels, h, w) then Failure(ShapeMismatch)
        else Success((Indicator(labels, h, w, cm[YellowLane]), Indicator(labels, h, w, cm[WhiteLane])))
  }

  /** The detector of the live lane follower. `mask` is the grid to be split;
      `labels` is consulted only when `avoid` is false. */
  function DetectLaneMarkings(mask: seq<seq<real>>, labels: seq<seq<int>>, cm: ClassMap, avoid: bool)
    : (r: Result<LaneMasks>)
    requires IsRect(mask)
    // Errors: only the class-filtered mode can fail, with the first missing key, then a shape mismatch.
    ensures avoid ==> r.Success?
    ensures !avoid ==> (r.Success? <==> YellowLane in cm && WhiteLane in cm && HasShape(labels, |mask|, Width(mask)))
    ensures !avoid && YellowLane !in cm ==> r == Failure(MissingClass(YellowLane))
    ensures !avoid && YellowLane in cm && WhiteLane !in cm ==> r == Failure(MissingClass(WhiteLane))
    ensures !avoid && YellowLane in cm && WhiteLane in cm && !HasShape(labels, |mask|, Width(mask)) ==>
      r == Failure(ShapeMismatch)
    // Both grids have the input's shape.
    ensures r.Success? ==> HasShape(r.value.left, |mask|, Width(mask)) && HasShape(r.value.right, |mask|, Width(mask))
    // Horizon crop: every row above the middle is zero in both grids.
    ensures r.Success? ==> forall i, j :: 0 <= i < Half(|mask|) && 0 <= j < Width(mask) ==>
      r.value.left[i][j] == 0.0 && r.value.right[i][j] == 0.0
    // Edge-only mode: the input itself on the kept side of the split, zero elsewhere.
    ensures avoid ==> forall i, j :: 0 <= i < |mask| && 0 <= j < Width(mask) ==>
      && r.value.left[i][j] == (if KeptLeft(|mask|, Width(mask), i, j, true) then mask[i][j] else 0.0)
      && r.value.right[i][j] == (if KeptRight(|mask|, Width(mask), i, j, true) then mask[i][j] else 0.0)
    // Class-filtered mode: additionally only yellow-lane pixels on the left, white-lane on the right.
    ensures !avoid && r.Success? ==>
      HasShape(labels, |mask|, Width(mask)) && YellowLane in cm && WhiteLane in cm &&
      forall i, j :: 0 <= i < |mask| && 0 <= j < Width(mask) ==>
        && r.value.left[i][j] ==
             (if KeptLeft(|mask|, Width(mask), i, j, labels[i][j] == cm[YellowLane]) then mask[i][j] else 0.0)
        && r.value.right[i][j] ==
             (if KeptRight(|mask|, Width(mask), i, j, labels[i][j] == cm[WhiteLane]) then mask[i][j] else 0.0)
    // No pixel is reported on both sides.
    ensures r.Success? ==> forall i, j :: 0 <= i < |mask| && 0 <= j < Width(mask) ==>
      r.value.left[i][j] == 0.0 || r.value.right[i][j] == 0.0
  {
    var h := |mask|;
    var w := Width(mask);
    var upperHalf := Half(h);
    var leftColumns := AssignBlock(Ones(h, w), h, w, 0, h, Half(w), w + 1, 0.0);
    var rightColumns := AssignBlock(Ones(h, w), h, w, 0, h, 0, Half(w), 0.0);
    match ClassMasks(labels, cm, avoid, h, w)
    case Failure(e) => Failure(e)
    case Success((leftClass, rightClass)) =>
      var leftEdge := Mul(Mul(mask, leftColumns, h, w), leftClass, h, w);
      var rightEdge := Mul(Mul(mask, rightColumns, h, w), rightClass, h, w);
      Success(LaneMasks(
        AssignBlock(leftEdge, h, w, 0, upperHalf, 0, w, 0.0),
        AssignBlock(rightEdge, h, w, 0, upperHalf, 0, w, 0.0)))
  }

  /** Edge-only mode loses nothing below the horizon: the left and right grids
      add up to the input with its upper half zeroed. */
  lemma EdgeOnlyHalvesAddUp(mask: seq<seq<real>>, labels: seq<seq<int>>, cm: ClassMap)
    requires IsRect(mask)
    ensures var r := DetectLaneMarkings(mask, labels, cm, true);
      r.Success? &&
      Add(r.value.left, r.value.right, |mask|, Width(mask))
        == AssignBlock(mask, |mask|, Width(mask), 0, Half(|mask|), 0, Width(mask), 0.0)
  {
    var h, w := |mask|, Width(mask);
    var r := DetectLaneMarkings(mask, labels, cm, true);
    var sum := Add(r.value.left, r.value.right, h, w);
    var cropped := AssignBlock(mask, h, w, 0, Half(h), 0, w, 0.0);
    forall i, j | 0 <= i < h && 0 <= j < w ensures sum[i][j] == cropped[i][j] {
      if i >= Half(h) && j < Half(w) {
        assert r.value.left[i][j] == mask[i][j] && r.value.right[i][j] == 0.0;
      }
    }
    GridsEqual(sum, cropped, h, w);
  }

  /** Class filtering only removes pixels: each filtered grid is the edge-only
      grid multiplied by the indicator of its lane class. */
  lemma FilteredIsEdgeOnlyTimesClass(mask: seq<seq<real>>, labels: seq<seq<int>>, cm: ClassMap)
    requires IsRect(mask)
    requires YellowLane in cm && WhiteLane in cm && HasShape(labels, |mask|, Width(mask))
    ensures var h, w := |mask|, Width(mask);
      var filtered := DetectLaneMarkings(mask, labels, cm, false);
      var edges := DetectLaneMarkings(mask, labels, cm, true);
      && filtered.Success?
      && filtered.value.left == Mul(edges.value.left, Indicator(labels, h, w, cm[YellowLane]), h, w)
      && filtered.value.right == Mul(edges.value.right, Indicator(labels, h, w, cm[WhiteLane]), h, w)
  {
    var h, w := |mask|, Width(mask);
    var filtered := DetectLaneMarkings(mask, labels, cm, false);
    var edges := DetectLaneMarkings(mask, labels, cm, true);
    var yellow := Indicator(labels, h, w, cm[YellowLane]);
    var white := Indicator(labels, h, w, cm[WhiteLane]);
    var l := Mul(edges.value.left, yellow, h, w);
    var rr := Mul(edges.value.right, white, h, w);
    forall i, j | 0 <= i < h && 0 <= j < w
      ensures filtered.value.left[i][j] == l[i][j] && filtered.value.right[i][j] == rr[i][j]
    {
    }
    GridsEqual(filtered.value.left, l, h, w);
    GridsEqual(filtered.value.right, rr, h, w);
  }

  /** Detection is a projection: running it again on its own left (right) grid,
      with the same labels and mode, gives that left (right) grid back. */
  lemma DetectionIdempotent(mask: seq<seq<real>>, labels: seq<seq<int>>, cm: ClassMap, avoid: bool)
    requires IsRect(mask)
    requires DetectLaneMarkings(mask, labels, cm, avoid).Success?
    ensures var r := DetectLaneMarkings(mask, labels, cm, avoid);
      && IsRect(r.value.left) && IsRect(r.value.right)
      && DetectLaneMarkings(r.value.left, labels, cm, avoid).Success?
      && DetectLaneMarkings(r.value.left, labels, cm, avoid).value.left == r.value.left
      && DetectLaneMarkings(r.value.right, labels, cm, avoid).Success?
      && DetectLaneMarkings(r.value.right, labels, cm, avoid).value.right == r.value.right
  {
    var h, w := |mask|, Width(mask);
    var r := DetectLaneMarkings(mask, labels, cm, avoid);
    var left, right := r.value.left, r.value.right;
    assert Width(left) == w && Width(right) == w by {
      if h > 0 { assert |left[0]| == w && |right[0]| == w; }
    }
    var again := DetectLaneMarkings(left, labels, cm, avoid);
    var again' := DetectLaneMarkings(right, labels, cm, avoid);
    forall i, j | 0 <= i < h && 0 <= j < w
      ensures again.value.left[i][j] == left[i][j] && again'.value.right[i][j] == right[i][j]
    {
    }
    GridsEqual(again.value.left, left, h, w);
    GridsEqual(again'.value.right, right, h, w);
  }

  /** The left grid is zero on the right half and the right grid is zero on the left half. */
  lemma DetectionSides(mask: seq<seq<real>>, labels: seq<seq<int>>, cm: ClassMap, avoid: bool)
    requires IsRect(mask)
    requires DetectLaneMarkings(mask, labels, cm, avoid).Success?
    ensures var r := DetectLaneMarkings(mask, labels, cm, avoid).value;
      forall i, j :: 0 <= i < |mask| && 0 <= j < Width(mask) ==>
        (j < Half(Width(mask)) ==> r.right[i][j] == 0.0) && (j >= Half(Width(mask)) ==> r.left[i][j] == 0.0)
  {
  }
}
