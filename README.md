# Floor-detecting occupancy grid: a verified model

This project models the two parts of a mobile robot's mapping pipeline.

- The occupancy grid (grid.py) is a square byte map. It starts with every
  cell at 100 (unknown). Each camera frame is cut into a lattice of image
  patches, and the patches are handled column by column, from the row
  nearest the camera to the farthest:
  - an obstacle patch writes 0 over its ground footprint and ends its column;
  - a floor patch writes 150, but only when its footprint is non-empty and
    holds no 255 (explored) cell.

  Each pose reading wipes the map to 127 when the robot's origin id has
  changed, then marks a 30 x 30 block around the robot as 255.
- The pixel classifier (classifiers.py) is fitted once from N calibration
  patches. Its default threshold is 1.05 times the worst mean self-distance.
  A query patch is floor when its mean squared pixel difference to all
  calibration patches is strictly below the threshold.

Layout:

- `grid_model.dfy` (module `GridModel`): the cell codes and the patch
  lattice. It also holds what one `process_patch` call and one
  `update_location` call do, written as functions of the grid before the
  call (`ProcessPatchSpec`, `ProcessPatchTrace`, `UpdateLocationSpec`).
- `occupancy_grid.dfy` (module `OccupancyGrids`): class `OccupancyGrid`.
  - It holds an `array2<byte>` buffer and the stored origin id.
  - Its methods change the buffer in place. Each is proved to leave the
    buffer (`View()`) equal to the matching `GridModel` function of the old
    buffer.
  - Its invariant `Valid()` says the buffer is `gridSize x gridSize` and
    holds only the five codes 0, 100, 127, 150 and 255.
- `grid_lemmas.dfy` (module `GridProperties`): what those functions promise.
  This covers the per-patch write rules, which patches a call classifies
  and in what order, which cells it may change, and the reset, stamp and
  idempotence of `update_location`.
- `classifiers.dfy` (module `Classifiers`): the classifier family as a closed
  datatype (`Base`, `Pixel`).
  - The pixel classifier's fitting and decision are pure functions.
  - Every Python exception is returned as an `Err` value.
- `classifier_lemmas.dfy` (module `ClassifierProperties`): threshold
  fitting, the decision as an average of per-patch MSEs, self-inclusion and
  its zero-threshold edge case, and the uint8 finding below.
- `wrappers.dfy`: `Option` and `Result`.

Inputs the model takes as parameters:

- The robot's pose (`origin_id`, `position.x`, `position.y`) is passed to
  `UpdateLocation` and to the constructor.
- A camera frame is a `GridModel.Frame`. For each lattice rectangle it gives
  the classifier's verdict and the grid cells that the projection and
  rasterisation produce. The only thing assumed of those cells is that they
  lie inside the grid.
- `ProcessPatch` returns, as a ghost value, the sequence of lattice patches
  it classified.

Where the code does less than its own comments say, the model follows the
code:

- The code table at grid.py:5-9 lists 100 as unexplored/unknown and has no
  entry for 127. The reset at grid.py:102 nevertheless fills the map with 127.
- The comment at classifiers.py:30 says the fitted threshold tries to include
  all calibration patches. That is not guaranteed: with identical calibration
  patches the threshold is 0, and the strict `<` at classifiers.py:37 then
  rejects every patch, the calibration patch itself included
  (`IdenticalCalibrationRejectsEverything`).
- The comment at grid.py:86 says a floor patch leaves a visited cell alone.
  That protection is per patch, not per call: within one call an obstacle
  can overwrite a 255 cell with 0 (grid.py:77-79), and a floor patch of a
  later column can then write 150 there (`ExploredCellCanEndAsFloor`).
- The comment at grid.py:112 describes a 30 x 30 block around the robot.
  Near the grid edge the stamp follows Python's slice rules instead. A
  negative start index counts from the far end, so for a grid of 30 or more
  cells a robot index in [-15, 15) marks nothing (`StampNearLowEdgeIsEmpty`).

## Model

| member | source | states |
|---|---|---|
| OccupancyGrids.OccupancyGrid.constructor | grid.py:18-23 | the buffer is grid_size x grid_size with every cell 100; the stored id is the robot's origin id; the patch and grid sizes are recorded |
| OccupancyGrids.OccupancyGrid.PaintCells | grid.py:79 | fancy-index assignment: the listed cells get the code, every other cell is unchanged |
| OccupancyGrids.OccupancyGrid.FootprintMax | grid.py:87-88 | returns a footprint cell's value that no footprint cell exceeds (`np.max` of the footprint) |
| OccupancyGrids.OccupancyGrid.MarkFloor | grid.py:84-90 | a floor verdict on a non-empty footprint: the buffer equals `ApplyPatch` of the old buffer, so 150 over the footprint unless its maximum is 255 |
| OccupancyGrids.OccupancyGrid.ApplyPatchInPlace | grid.py:75-90 | the buffer after one classified patch equals `ApplyPatch` of the old buffer |
| OccupancyGrids.OccupancyGrid.ClassifyPatch | grid.py:49-90 | the verdict returned is the classifier's verdict on the rectangle of lattice patch (i, j), and the buffer equals `ApplyPatch` of the old buffer for that rectangle's footprint |
| OccupancyGrids.OccupancyGrid.ProcessColumn | grid.py:47-83 | one column from `h_patch_num` down to row 0 with the break after an obstacle; the buffer equals `ScanColumn` of the old buffer and the classified patches are `ColumnTrace` |
| OccupancyGrids.OccupancyGrid.ProcessColumns | grid.py:44-90 | columns lo to hi in increasing order; the buffer equals `ScanLattice` of the old buffer and the classified patches are `LatticeTrace` |
| OccupancyGrids.OccupancyGrid.ProcessPatch | grid.py:36-90 | the lattice bounds `h_patch_num` and `w_patch_num`; columns from `-w_patch_num` to `w_patch_num`; the buffer equals `ProcessPatchSpec` of the old one; the classified patches, in order, are `ProcessPatchTrace`; the codes invariant is kept |
| OccupancyGrids.OccupancyGrid.StampInPlace | grid.py:109-114 | the block selected by the two Python slices becomes 255 and nothing else changes |
| OccupancyGrids.OccupancyGrid.UpdateLocation | grid.py:93-114 | a new origin id gives a fresh buffer of 127s and stores the id; then the stamp is applied at `int(x) + grid_size//2`, `int(y) + grid_size//2`; the same id keeps the same array |
| GridModel.Filled | grid.py:22 | `np.full((n, n), v)`: an n x n grid whose every cell is v (used for the initial 100s and, in `ResetIfMoved`, for the 127s of grid.py:102) |
| GridModel.ApplyPatch | grid.py:75-90 | one classified patch: 0 over the footprint for an obstacle; for floor, 150 over the footprint when it is non-empty and its maximum is not 255, else no change; its meaning is stated by `ObstaclePatchOverwrites`, `FloorPatchWholeFootprint` and `FloorPatchKeepsExplored` |
| GridModel.HPatchNum | grid.py:39-40 | `h_patch_num`, the last row index of the lattice, with Python's floor division; the lattice bounds it gives are stated by `LatticeInsideFrame` |
| GridModel.WPatchNum | grid.py:41-42 | `w_patch_num`, the columns running from `-w_patch_num` to `w_patch_num`; the bounds it gives are stated by `LatticeInsideFrame` and `OddWidthLatticeCrossesFrameEdge` |
| GridModel.PatchRect | grid.py:49-55 | the rectangle (x1, y1, x2, y2) of lattice patch (i, j); where it lies in the frame is stated by `LatticeInsideFrame` |
| GridModel.ScanColumn | grid.py:47-83 | one column scanned from row i down to 0, stopping after the first obstacle; keeps the grid square; what it writes and where is stated by `ScanColumnWrites` and `ScanColumnFrame`, and the method proved equal to it is `ProcessColumn` |
| GridModel.ScanLattice | grid.py:44-83 | columns j to w scanned in increasing order; keeps the grid square; its writes and frame are stated by `ScanLatticeWrites` and `ScanLatticeFrame` |
| GridModel.ProcessPatchSpec | grid.py:44-83 | the whole `process_patch` call as a function of the old grid; keeps the grid square; `ProcessPatchWritesOnlyObstacleOrFloor` and `ProcessPatchFrame` state what it may change, and `ProcessPatch` is proved equal to it |
| GridModel.ProcessPatchTrace | grid.py:44-83 | the patches one call classifies, in order; which ones is stated by `ProcessPatchTraceExact`, their order by `ProcessPatchTraceOrdered` |
| GridModel.Processed | grid.py:44-83 | patch (i, j) lies in the lattice and all nearer patches of its column are floor; `ProcessPatchTraceExact` proves it holds exactly of the classified patches |
| GridModel.GridIndex | grid.py:109-110 | `int(x) + grid_size // 2`; its truncation is stated by `Trunc`, and `FreshGridFirstLocation` fixes its value at the origin |
| GridModel.ResetIfMoved | grid.py:100-103 | a changed origin id gives an all-127 grid, the same id the old grid; keeps the size; stated cell by cell by `UpdateLocationCells` and `ResetForgetsOldMap` |
| GridModel.UpdateLocationSpec | grid.py:93-114 | the whole `update_location` call: reset if moved, then the stamp, and the new id; keeps the size; stated cell by cell by `UpdateLocationCells`, with `UpdateLocationIdempotent` and `ResetForgetsOldMap` |
| GridModel.MaxOf | grid.py:88 | `np.max` of a non-empty footprint: an element of it that no element exceeds |
| GridModel.Trunc | grid.py:109-110 | Python `int()` of a float truncates toward zero |
| GridModel.SliceBound | grid.py:113-114 | Python's normalisation of a slice bound: clipped to the length, negative bounds counted from the end |
| GridModel.Stamp | grid.py:113-114 | a cell becomes 255 exactly when its row and column lie in the two normalised slices; other cells keep their value |
| GridModel.Paint | grid.py:79 | the listed cells hold the written code and all other cells keep theirs |
| GridProperties.MaxTestIsExploredTest | grid.py:88 | for a non-empty footprint, `np.max(...) != 255` holds iff no footprint cell is 255 |
| GridProperties.ObstaclePatchOverwrites | grid.py:75-79 | an obstacle patch sets every footprint cell to 0, explored cells included, and changes nothing else |
| GridProperties.FloorPatchWholeFootprint | grid.py:84-90 | a floor patch writes 150 over its whole footprint iff the footprint is non-empty and holds no 255; otherwise the grid is unchanged, including the footprint's non-explored cells |
| GridProperties.FloorPatchKeepsExplored | grid.py:86-90 | a floor patch never changes a 255 cell |
| GridProperties.ColumnTraceMembers | grid.py:47-83 | in one column the patches classified are exactly the rows down to and including the first obstacle |
| GridProperties.LatticeTraceMembers | grid.py:44-47 | a call classifies a patch iff its column is in range and the patch is classified in its own column's scan |
| GridProperties.ProcessPatchTraceExact | grid.py:39-83 | patch (i, j) is classified iff `-w_patch_num <= j <= w_patch_num`, `0 <= i <= h_patch_num` and every nearer patch of column j is floor |
| GridProperties.ObstacleEndsColumn | grid.py:81-83 | after an obstacle at row i of column j, no patch of column j with a smaller row is classified |
| GridProperties.ColumnTraceOrdered | grid.py:47 | within a column, patches are classified from the largest row index down |
| GridProperties.LatticeTraceOrdered | grid.py:44 | the column scans are concatenated with columns increasing |
| GridProperties.ProcessPatchTraceOrdered | grid.py:44-47 | a whole call classifies column by column, left to right, each from the nearest row to the farthest |
| GridProperties.ScanColumnWrites | grid.py:47-90 | one column leaves each cell at its old value, 0 or 150 |
| GridProperties.ScanLatticeWrites | grid.py:44-90 | so do several columns in sequence |
| GridProperties.ProcessPatchWritesOnlyObstacleOrFloor | grid.py:75-90 | `process_patch` writes only 0 and 150, so a grid of codes stays a grid of codes |
| GridProperties.ScanColumnFrame | grid.py:47-90 | a cell outside the footprints of a column's classified patches keeps its value |
| GridProperties.ScanLatticeFrame | grid.py:44-90 | the same for a range of columns |
| GridProperties.ProcessPatchFrame | grid.py:71-90 | a cell covered by no classified patch's footprint is unchanged by the call; this includes the cells of unclassified patches beyond an obstacle |
| GridProperties.ExploredCellCanEndAsFloor | grid.py:75-90 | on a 1 x 1 grid holding 255, an obstacle in column -1 followed by floor patches in columns 0 and 1 leaves the cell at 150 |
| GridProperties.LatticeInsideFrame | grid.py:38-55 | every lattice patch starts at or below row `120 - ph//2`, ends by row 240 (241 for odd ph), and lies in columns 0 to 320 (321 for odd pw) |
| GridProperties.OddWidthLatticeCrossesFrameEdge | grid.py:41-55 | with 3 x 3 patches `w_patch_num` is 53 and the last column's rectangle is columns 318 to 321, past the 320-column frame, so the odd-width bound of `LatticeInsideFrame` is reached |
| GridProperties.StampInterior | grid.py:109-114 | when 15 <= gx, gy <= grid_size - 15 the stamp is exactly [gx-15, gx+15) x [gy-15, gy+15) |
| GridProperties.StampNearLowEdgeIsEmpty | grid.py:113-114 | on a grid of at least 30 cells, a robot row index in [-15, 15) marks nothing |
| GridProperties.StampIdempotent | grid.py:113-114 | stamping the same block twice equals stamping it once |
| GridProperties.UpdateLocationCells | grid.py:100-114 | each cell after the call: 255 inside the stamp, else 127 if the id changed, else its old value; the new id is stored |
| GridProperties.UpdateLocationIdempotent | grid.py:93-114 | a second call with the same pose and id leaves grid and id as the first left them |
| GridProperties.ResetForgetsOldMap | grid.py:100-103 | after an id change the result does not depend on the old grid's contents, and every cell is 127 or 255 |
| GridProperties.FreshGridFirstLocation | grid.py:106-114 | a fresh 100 x 100 grid after a call at (0, 0) with the same id: [35, 65) x [35, 65) is 255 and every other cell is 100 |
| Classifiers.SqDist | classifiers.py:37 | the summed squared pixel difference is non-negative |
| Classifiers.MeanSqDiff | classifiers.py:37 | the mean over all N·H·W·C elements is NaN exactly when there are no elements, and is non-negative otherwise |
| Classifiers.MaxNum | classifiers.py:32 | `np.max` of the self-distances is NaN iff one is NaN; otherwise it is one of them and none exceeds it |
| Classifiers.Below | classifiers.py:37 | the strict `<` of two floats: false when either side is NaN; `ClassifyIsAverageMseTest` states the decision through it |
| Classifiers.Split | classifiers.py:31 | the calibration array splits into N patches of H·W·C elements; `SplitBlocks` states which elements each holds |
| Classifiers.Patches | classifiers.py:31 | `for patch in patches` over a 4-D array: N patches of H·W·C elements; `PatchesAreBlocks` states that patch k is the k-th row-major block |
| Classifiers.Scaled | classifiers.py:32 | `* 1.05`, with NaN staying NaN; stated inside `WorstSelfDistance` |
| Classifiers.SelfDistances | classifiers.py:31 | the list `mses`: one mean squared difference per calibration patch against the whole array; `WorstSelfDistance` states the threshold in terms of them |
| Classifiers.AutoThreshold | classifiers.py:31-32 | `np.max(mses) * 1.05`; its meaning is stated by `WorstSelfDistance`, `AutoThresholdIsScaledWorstSelfDistance` and `AutoThresholdOfEmptyPatchesIsNaN` |
| Classifiers.Fit | classifiers.py:17-32 | a non-4-D array fails with an assertion error; a given threshold is stored unchanged; with no threshold an empty set fails (`np.max([])`); otherwise the calibration array is stored |
| Classifiers.Classify | classifiers.py:34-37 | fails with an index error for an empty calibration set and with an assertion error for a query whose shape differs from a calibration patch's; otherwise returns a verdict |
| Classifiers.Call | classifiers.py:10-11 | the base classifier's call always fails; the pixel classifier's call is `Classify` |
| ClassifierProperties.SplitBlocks | classifiers.py:31 | block k of the split is elements k·p up to (k+1)·p of the data, in order |
| ClassifierProperties.PatchesAreBlocks | classifiers.py:31 | patch k of a 4-D array is elements k·H·W·C up to (k+1)·H·W·C of its row-major data |
| ClassifierProperties.SqDistZeroIff | classifiers.py:37 | the exact squared distance is 0 iff the two patches are equal |
| ClassifierProperties.AutoThresholdIsScaledWorstSelfDistance | classifiers.py:31-32 | with no threshold given, it is 1.05 times a self-distance (one patch against all N) that no other self-distance exceeds |
| ClassifierProperties.WorstSelfDistance | classifiers.py:31-32 | for N non-empty patches the fitted threshold is 1.05 times the self-distance of some patch, and no patch's self-distance is larger |
| ClassifierProperties.AutoThresholdOfEmptyPatchesIsNaN | classifiers.py:31-32 | with H·W·C = 0 the fitted threshold is NaN |
| ClassifierProperties.SumPatchMseIsScaledTotal | classifiers.py:37 | the per-patch MSEs sum to the total squared difference divided by H·W·C |
| ClassifierProperties.MeanIsAverageOfPatchMses | classifiers.py:37 | the mean over all elements equals the average of the N per-patch MSEs |
| ClassifierProperties.ClassifyIsAverageMseTest | classifiers.py:34-37 | a well-shaped query is floor iff the threshold is a number and the average per-patch MSE is strictly below it |
| ClassifierProperties.CalibrationPatchesAreFloor | classifiers.py:31-37 | with a fitted threshold above 0, every calibration patch classifies as floor |
| ClassifierProperties.IdenticalCalibrationRejectsEverything | classifiers.py:31-37 | identical calibration patches give threshold 0 (NaN for empty patches), and then no query classifies as floor |
| ClassifierProperties.AllEqualTotal | classifiers.py:31 | a patch's total squared difference to copies of itself is 0 |
| ClassifierProperties.ThreeBlackPatches | classifiers.py:17-37 | any all-zero 3 x 1 x 1 x 3 calibration array fits with threshold 0, so both a black and a white query are obstacles |
| ClassifierProperties.Uint8SqDiff | classifiers.py:37 | the uint8 squared difference of two pixels lies in [0, 256) |
| ClassifierProperties.Uint8MeanSqDiff | classifiers.py:37 | `np.mean((patch - self.patches)**2)` on uint8 arrays, each squared difference reduced modulo 256; NaN for zero elements; what it gets wrong is stated by `Uint8DistanceCollision` and `Uint8AcceptsDistantPatch` |
| ClassifierProperties.Uint8DistanceCollision | classifiers.py:37 | under uint8 arithmetic the patches 16 and 0 are at distance 0, while the exact distance is 256 |
| ClassifierProperties.Uint8AcceptsDistantPatch | classifiers.py:31-37 | calibration 0 and 1 with query 128: under uint8 arithmetic the query's mean distance 1/2 is below the fitted threshold 21/40 |
| ClassifierProperties.ExactAcceptsOnlyCalibrationLevels | classifiers.py:31-37 | the same calibration array fits, and with exact arithmetic a 1 x 1 x 1 query is floor iff its level is 0 or 1, so 128 is rejected |

## Left out

- `OccupancyGrid.show` (grid.py:117-123): OpenCV window display, which is user interface.
- Colour conversion and patch extraction with `cv2.cvtColor` (grid.py:57): the patch pixels never reach the model. The classifier's verdict on each lattice rectangle is an input (`Frame.isFloor`).
- The ground projection, the base-to-world transform, the `int()` of the projected corners and the `skimage.draw.polygon` rasteriser (grid.py:61-72): these are foreign libraries and floating-point geometry. The footprint of each rectangle is an input (`Frame.footprint`). It is assumed only to lie inside the grid, and it may be empty.
- OccupancyGrids.OccupancyGrid.ProcessPatch: requires a positive patch size. With a zero size the source raises `ZeroDivisionError` (grid.py:39-42), and that crash is not modelled. Negative sizes are excluded too, although the source does not crash on them: a negative height makes `h_patch_num` negative and a negative width makes `w_patch_num` negative (grid.py:39-42), so the row loop at grid.py:47 or the column loop at grid.py:44 is empty, and the call classifies nothing and leaves the grid unchanged.
- A classifier that raises during `process_patch` (for example on a shape mismatch) is not modelled. The grid sees each verdict as a boolean.
- The robot object is not stored. The pose is read when the call is made, so `origin_id`, `position.x` and `position.y` are passed as parameters. The origin id is an `int` standing for an opaque comparable token.
- Classifiers.Classify: pixels are mathematical integers. The uint8 wrap-around of `patch - self.patches` and of `**2` (classifiers.py:31, 37) is not part of the main model; see Findings.
- Floating point: the 1.05 factor is the exact rational 21/20, means are exact rationals, and a supplied threshold is a `real`. The only float behaviour modelled is NaN, for the mean of zero elements.
- Classifiers.Fit: `self.patches = patches` (classifiers.py:25) keeps a reference to the caller's array, so a later change to that array changes the classifier. The model stores the array as a value and does not capture that aliasing.
- Classifiers.Fit: the `isinstance(patches, np.ndarray)` half of the assertion (classifiers.py:23) is not modelled, because inputs are always arrays (`NdArray`, a shape plus row-major data).
- The rest of the classifier family is not part of this model. The hue, LBP and composite classifiers do not appear in the source.
- scikit_calssifiers.py, the offline prototyping script, is not part of this model. It does file loading, LBP histograms, floating-point KL divergence and printing.
- Concurrency: none in the source. Every call is synchronous.

## Findings

| source | as written | input that shows it | evidently intended | confidence | as-written member | corrected member |
|---|---|---|---|---|---|---|
| classifiers.py:37 | `(patch - self.patches)**2` on uint8 image arrays wraps modulo 256 after the subtraction and again after the square, so the pixel distance is `d^2 mod 256` | calibration patches with grey levels 0 and 1 (shape 2 x 1 x 1 x 1) and the query 128: the wrapped mean is 1/2, below the fitted threshold 21/40, so 128 is called floor | the true squared difference, which is 0 only for equal patches (`SqDistZeroIff`) and rejects 128 (mean 16256.5) | not executed; it holds when the patches are uint8 arrays, as camera images usually are | ClassifierProperties.Uint8AcceptsDistantPatch | ClassifierProperties.ExactAcceptsOnlyCalibrationLevels |
