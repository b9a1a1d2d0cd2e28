/** Per-pixel weight grids for visual servoing, built from a label grid: each
    pixel gets the weight of its class, or zero for classes the mode ignores. */
module Servoing {
  import opened Results
  import opened Classes
  import opened Grids

  /** Weights of the plain lane-following mode. */
  const VanillaWeights: map<string, real> := map[WhiteLane := 1.5, YellowLane := 3.5]

  /** Weights of the obstacle-aware mode; the yellow lane is not weighted. */
  const ObstacleWeights: map<string, real> :=
    map[WhiteLane := 1.5, Duckiebot := 1.5, Duck := 2.0, Sign := 1.0]

  /** Sum of white-lane and yellow-lane indicators weighted 1.5 and 3.5; the
      white-lane id is looked up first. */
  function VanillaServoingMask(labels: seq<seq<int>>, cm: ClassMap): (r: Result<seq<seq<real>>>)
    requires IsRect(labels)
    ensures r.Success? <==> WhiteLane in cm && YellowLane in cm
    ensures WhiteLane !in cm ==> r == Failure(MissingClass(WhiteLane))
    ensures WhiteLane in cm && YellowLane !in cm ==> r == Failure(MissingClass(YellowLane))
    ensures r.Success? ==> HasShape(r.value, |labels|, Width(labels))
    // A pixel of neither lane class weighs nothing; every weight is non-negative.
    ensures r.Success? ==> forall i, j :: 0 <= i < |labels| && 0 <= j < Width(labels) ==>
      && r.value[i][j] >= 0.0
      && (labels[i][j] != cm[WhiteLane] && labels[i][j] != cm[YellowLane] ==> r.value[i][j] == 0.0)
  {
    var h, w := |labels|, Width(labels);
    var names := [WhiteLane, YellowLane];
    match FirstMissing(cm, names)
    case Some(k) => Failure(MissingClass(k))
    case None =>
      assert names[0] in cm && names[1] in cm;
      Success(Add(
        Scale(Indicator(labels, h, w, cm[WhiteLane]), h, w, 1.5),
        Scale(Indicator(labels, h, w, cm[YellowLane]), h, w, 3.5), h, w))
  }

  /** Sum of white-lane, duckiebot, duck and sign indicators weighted 1.5, 1.5,
      2.0 and 1.0; the ids are looked up in that order. */
  function ObstacleServoingMask(labels: seq<seq<int>>, cm: ClassMap): (r: Result<seq<seq<real>>>)
    requires IsRect(labels)
    ensures r.Success? <==> WhiteLane in cm && Duckiebot in cm && Duck in cm && Sign in cm
    ensures WhiteLane !in cm ==> r == Failure(MissingClass(WhiteLane))
    ensures WhiteLane in cm && Duckiebot !in cm ==> r == Failure(MissingClass(Duckiebot))
    ensures WhiteLane in cm && Duckiebot in cm && Duck !in cm ==> r == Failure(MissingClass(Duck))
    ensures WhiteLane in cm && Duckiebot in cm && Duck in cm && Sign !in cm ==> r == Failure(MissingClass(Sign))
    ensures r.Success? ==> HasShape(r.value, |labels|, Width(labels))
    // A pixel of none of the four classes weighs nothing; every weight is non-negative.
    ensures r.Success? ==> forall i, j :: 0 <= i < |labels| && 0 <= j < Width(labels) ==>
      && r.value[i][j] >= 0.0
      && ((&& labels[i][j] != cm[WhiteLane] && labels[i][j] != cm[Duckiebot]
           && labels[i][j] != cm[Duck] && labels[i][j] != cm[Sign]) ==> r.value[i][j] == 0.0)
  {
    var h, w := |labels|, Width(labels);
    var names := [WhiteLane, Duckiebot, Duck, Sign];
    match FirstMissing(cm, names)
    case Some(k) =>
      FirstMissingUnique(cm, names);
      assert names[0] == WhiteLane && names[1] == Duckiebot && names[2] == Duck;
      Failure(MissingClass(k))
    case None =>
      assert names[0] in cm && names[1] in cm && names[2] in cm && names[3] in cm;
      Success(Add(Add(Add(
        Scale(Indicator(labels, h, w, cm[WhiteLane]), h, w, 1.5),
        Scale(Indicator(labels, h, w, cm[Duckiebot]), h, w, 1.5), h, w),
        Scale(Indicator(labels, h, w, cm[Duck]), h, w, 2.0), h, w),
        Indicator(labels, h, w, cm[Sign]), h, w))
  }

  /** With distinct lane ids the plain mask is the weight-table lookup: 1.5 on
      white lane, 3.5 on yellow lane, 0 on any other label. */
  lemma VanillaMatchesWeightTable(labels: seq<seq<int>>, cm: ClassMap)
    requires IsRect(labels)
    requires DistinctIds(cm, VanillaWeights.Keys)
    ensures var r := VanillaServoingMask(labels, cm);
      r.Success? && forall i, j :: 0 <= i < |labels| && 0 <= j < Width(labels) ==>
        r.value[i][j] == TableWeight(VanillaWeights, cm, labels[i][j])
  {
    var r := VanillaServoingMask(labels, cm);
    assert WhiteLane in VanillaWeights && YellowLane in VanillaWeights;
    forall i, j | 0 <= i < |labels| && 0 <= j < Width(labels)
      ensures r.value[i][j] == TableWeight(VanillaWeights, cm, labels[i][j])
    {
      var l := labels[i][j];
      if l == cm[WhiteLane] {
        TableWeightOfClass(VanillaWeights, cm, WhiteLane);
      } else if l == cm[YellowLane] {
        TableWeightOfClass(VanillaWeights, cm, YellowLane);
      } else {
        TableWeightOfOther(VanillaWeights, cm, l);
      }
    }
  }

  /** With pairwise distinct ids the obstacle mask is the weight-table lookup:
      1.5 on white lane and duckiebot, 2.0 on duck, 1.0 on sign, 0 on any other
      label, the yellow lane included. */
  lemma ObstacleMatchesWeightTable(labels: seq<seq<int>>, cm: ClassMap)
    requires IsRect(labels)
    requires DistinctIds(cm, ObstacleWeights.Keys)
    ensures var r := ObstacleServoingMask(labels, cm);
      r.Success? && forall i, j :: 0 <= i < |labels| && 0 <= j < Width(labels) ==>
        r.value[i][j] == TableWeight(ObstacleWeights, cm, labels[i][j])
  {
    var r := ObstacleServoingMask(labels, cm);
    assert WhiteLane in ObstacleWeights && Duckiebot in ObstacleWeights;
    assert Duck in ObstacleWeights && Sign in ObstacleWeights;
    forall i, j | 0 <= i < |labels| && 0 <= j < Width(labels)
      ensures r.value[i][j] == TableWeight(ObstacleWeights, cm, labels[i][j])
    {
      var l := labels[i][j];
      if l == cm[WhiteLane] {
        TableWeightOfClass(ObstacleWeights, cm, WhiteLane);
      } else if l == cm[Duckiebot] {
        TableWeightOfClass(ObstacleWeights, cm, Duckiebot);
      } else if l == cm[Duck] {
        TableWeightOfClass(ObstacleWeights, cm, Duck);
      } else if l == cm[Sign] {
        TableWeightOfClass(ObstacleWeights, cm, Sign);
      } else {
        TableWeightOfOther(ObstacleWeights, cm, l);
      }
    }
  }

  /** The obstacle mode ignores the yellow lane: a yellow-lane pixel weighs 0
      whenever its id differs from each of the four weighted ones (which may
      share ids among themselves). */
  lemma ObstacleIgnoresYellowLane(labels: seq<seq<int>>, cm: ClassMap)
    requires IsRect(labels)
    requires WhiteLane in cm && Duckiebot in cm && Duck in cm && Sign in cm && YellowLane in cm
    requires cm[YellowLane] != cm[WhiteLane] && cm[YellowLane] != cm[Duckiebot]
    requires cm[YellowLane] != cm[Duck] && cm[YellowLane] != cm[Sign]
    ensures var r := ObstacleServoingMask(labels, cm);
      r.Success? && forall i, j :: 0 <= i < |labels| && 0 <= j < Width(labels) && labels[i][j] == cm[YellowLane] ==>
        r.value[i][j] == 0.0
  {
  }
}
