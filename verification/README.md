# Lane-following integration helpers, modelled in Dafny

This project models the integration helpers of a Braitenberg-style lane
follower for a small vision-guided robot. The helpers take a semantic
segmentation of a camera frame, which is a grid of class labels plus a map
from class names to label ids. From it they build:

- two static **steering matrices**: −0.01 on a band of bottom rows in the left
  half of the image, +0.01 on the same rows in the right half;
- the **lane-marking detector**: it splits an input grid into a left
  (yellow-lane) grid and a right (white-lane) grid and zeroes the upper half of
  the image (the horizon crop). In `avoid` mode it keeps every pixel instead of
  filtering by class;
- two **servoing weight masks**: a per-pixel class weight. The plain mode
  weights white lane 1.5 and yellow lane 3.5. The obstacle mode weights white
  lane 1.5, duckiebot 1.5, duck 2.0 and sign 1.0;
- **rescale**: a linear normalisation that returns 0 when the two bounds are
  close.

Grids are `seq<seq<T>>` with a shape predicate (`Grids.HasShape`). Module
`Grids` defines the array operations once: filled grids, slice assignment with
bounds clamped at the edge, element-wise product and sum, scaling, and the 0/1
indicator of `labels == id`. Each helper is written as the same composition
of these operations that the source performs. For the steering matrices and the detector, the contract
states each cell in closed form. For the servoing masks, the contract states
the shape, non-negativity and zero on unweighted labels. The per-label weights
come from the weight-table lemmas, when the class ids are distinct. Further
lemmas relate the helpers to each other.

Where the source raises, the model returns a `Results.Result`:

- a class name missing from the map gives `MissingClass(name)`, naming the first
  name the source looks up that is missing;
- in class-filtered detection, a label grid whose shape differs from the input
  gives `ShapeMismatch`.

In `avoid` mode the class map and the labels are never consulted.

Modules: `Results`, `Classes`, `Grids`, `Steering`, `Detection`, `Servoing`,
`Rescale`, `Braitenberg`. `Braitenberg` is the consumer side. The controller
that turns detections into wheel commands is not part of this model. A
cell-by-cell dot product stands in for it, and it is used only to state the
sign convention of the steering matrices.

Two behaviours of the code worth stating:

- The steering generators validate nothing about the shape beyond what the
  array constructor and the pair unpacking reject. Any h, w ≥ 0 is accepted
  and nothing is raised.
- The comments at integration.py:89 and :110 say two thirds, but the code
  crops rows [0, ⌊h/2⌋). The model crops half.

## Model

| member | source | states |
|---|---|---|
| `Steering.LeftSteerMatrix` | solution/src/dino_segmentation/src/integration.py:16-20 | shape (h, w); cell (i, j) is −0.01 exactly when i ≥ ⌊5h/8⌋ and j < ⌊w/2⌋, and 0 exactly everywhere else |
| `Steering.RightSteerMatrix` | solution/src/dino_segmentation/src/integration.py:34-38 | shape (h, w); cell (i, j) is +0.01 exactly when i ≥ ⌊5h/8⌋ and j ≥ ⌊w/2⌋, and 0 exactly everywhere else |
| `Steering.SteerMatricesSplitBand` | solution/src/dino_segmentation/src/integration.py:16-38 | no pixel carries both gains; right minus left is 0.01 exactly on the band rows, so the two matrices partition the band |
| `Steering.BandBelowHorizon` | solution/src/dino_segmentation/src/integration.py:20 | the band start ⌊5h/8⌋ lies between the horizon row ⌊h/2⌋ and h, and both matrices are zero on every cell of the rows [0, ⌊h/2⌋) that detection crops |
| `Classes.FirstMissing` | solution/src/dino_segmentation/src/integration.py:103-104 | returns no name iff every required name is a key; otherwise returns a missing name all of whose predecessors are keys |
| `Classes.FirstMissingAt` | solution/src/dino_segmentation/src/integration.py:103-104 | the reported missing name is determined by position: it is the missing name whose predecessors are all present |
| `Detection.DetectLaneMarkings` | solution/src/dino_segmentation/src/integration.py:87-117 | avoid mode always succeeds; filtered mode succeeds iff both keys are present and the shapes agree, reporting the first missing key; outputs have the input's shape; rows above ⌊h/2⌋ are zero; below them the left cell is the input when j < ⌊w/2⌋ (and, when filtering, the label is the yellow id) and 0 otherwise, the right cell likewise for j ≥ ⌊w/2⌋ and white; no pixel is reported on both sides |
| `Detection.EdgeOnlyHalvesAddUp` | solution/src/dino_segmentation/src/integration.py:93-112 | in avoid mode left + right equals the input with its upper half zeroed: the column split loses and duplicates nothing |
| `Detection.FilteredIsEdgeOnlyTimesClass` | solution/src/dino_segmentation/src/integration.py:99-108 | each class-filtered grid is the avoid-mode grid times the indicator of its lane class |
| `Detection.DetectionIdempotent` | solution/src/dino_segmentation/src/integration.py:107-112 | running detection again on its own left (right) output with the same labels and mode gives that output back |
| `Detection.DetectionSides` | solution/src/dino_segmentation/src/integration.py:93-96 | the left grid is zero on columns ≥ ⌊w/2⌋ and the right grid on columns < ⌊w/2⌋ |
| `Servoing.VanillaServoingMask` | solution/src/dino_segmentation/src/integration.py:128-131 | fails with the first missing of white-lane, yellow-lane; otherwise has the labels' shape, non-negative weights, and 0 on every pixel of neither lane id |
| `Servoing.VanillaMatchesWeightTable` | solution/src/dino_segmentation/src/integration.py:130 | with distinct lane ids every cell is the table weight of its label: white 1.5, yellow 3.5, anything else 0 |
| `Servoing.ObstacleServoingMask` | solution/src/dino_segmentation/src/integration.py:135-140 | fails with the first missing of white-lane, duckiebot, duck, sign; otherwise has the labels' shape, non-negative weights, and 0 on every pixel of none of the four ids |
| `Servoing.ObstacleMatchesWeightTable` | solution/src/dino_segmentation/src/integration.py:138-139 | with pairwise distinct ids every cell is the table weight of its label: white lane and duckiebot 1.5, duck 2.0, sign 1.0, anything else 0 |
| `Servoing.ObstacleIgnoresYellowLane` | solution/src/dino_segmentation/src/integration.py:138-139 | a yellow-lane pixel weighs 0 in the obstacle mask whenever its id differs from each of the four weighted ids, which may share ids among themselves |
| `Rescale.Rescale` | solution/src/dino_segmentation/src/integration.py:122-125 | 0 when the bounds are close; otherwise the bounds differ and lo + r·(hi − lo) = a |
| `Rescale.RescaleUnscaleRoundTrip` | solution/src/dino_segmentation/src/integration.py:125 | on a range that is not degenerate, rescale and the linear map lo + f·(hi − lo) are inverse to each other in both directions |
| `Rescale.RescaleEndpoints` | solution/src/dino_segmentation/src/integration.py:123-125 | lo maps to 0 and hi to 1 when the bounds are not close; a range of width zero maps every value to 0 |
| `Rescale.RescaleMonotone` | solution/src/dino_segmentation/src/integration.py:125 | on an increasing, non-degenerate range the result is monotone in the value |
| `Rescale.RescaleDefaultExamples` | solution/src/dino_segmentation/src/integration.py:122-125 | with the default tolerances 5, 0 and 10 in [0, 10] give 0.5, 0 and 1, and [3, 3] gives 0 |
| `Braitenberg.SteeringSigns` | solution/src/dino_segmentation/src/integration.py:16-38 | on a non-negative detection grid the left matrix's response is ≤ 0 and the right matrix's is ≥ 0 |
| `Braitenberg.SteeringBlindOutsideItsHalf` | solution/src/dino_segmentation/src/integration.py:16-38 | the left matrix responds 0 to a grid that is zero on the left half, the right matrix to one that is zero on the right half |
| `Braitenberg.SteeringIgnoresOtherSide` | solution/src/dino_segmentation/src/integration.py:16-112 | the left matrix responds 0 to the right detection grid and the right matrix responds 0 to the left one |

## Left out

- Floating point: cells are exact reals. float32 versus float64 is not
  modelled. `int(h * 5 / 8)` is modelled as exact floor division, which leaves
  out float rounding for very large heights.
- Detection.DetectLaneMarkings: a NaN or infinity in the input grid is not
  modelled. Below row ⌊h/2⌋ the source gives NaN wherever a column factor or
  class factor at integration.py:107-108 is 0, and the model gives 0. Rows
  above ⌊h/2⌋ are overwritten with 0 at :111-112 in both.
- Negative or non-pair shapes are not representable: dimensions are `nat` and
  grids are two-dimensional. The source rejects them in the array constructor
  at :18/:36 or in the unpacking at :16/:34.
- Closeness in rescale: `Rescale.AllClose` has the array library's formula
  |lo − hi| ≤ atol + rtol·|hi|. The tolerances are a parameter, whose default is
  `Rescale.DefaultTolerance`. The lemmas hold for every non-negative tolerance.
- Broadcasting: grids of different but broadcast-compatible shapes are not
  modelled. In class-filtered detection, any shape difference between labels and
  input gives `ShapeMismatch`.
- An image of height 0 has width 0 in this model (`Grids.Width`), because an
  empty sequence of rows carries no width.
- Servoing.VanillaMatchesWeightTable: characterises the mask only when the two
  lane ids are distinct. With a shared id the source adds both weights, and the
  model does the same; `Servoing.VanillaServoingMask` then promises only
  non-negativity and zero on other labels.
- Servoing.ObstacleMatchesWeightTable: characterises the mask only for pairwise
  distinct ids, for the same reason.
- The commented-out variants of the steering rows, the detector and the obstacle
  weights are dead code and are not modelled. So is the unused image-library
  import.
- The controller that combines matrices and masks into wheel commands is
  outside these helpers. `Braitenberg.Dot` only stands in for its summation.
