/**
 * Value-level model of the occupancy grid: the cell codes, the patch
 * lattice, and what one call of `process_patch` and one call of
 * `update_location` do to the grid, written as functions of the grid
 * before the call. The class in occupancy_grid.dfy is proved against
 * these functions.
 */
module GridModel {

  /** A grid cell holds a numpy uint8. */
  type byte = b: int | 0 <= b < 256

  const UNKNOWN: byte := 100
  const FLOOR: byte := 150
  const OBSTACLE: byte := 0
  const EXPLORED: byte := 255
  /** The value `update_location` fills the grid with when the origin changes. */
  const RESET: byte := 127

  predicate IsCode(b: byte)
  {
    b == UNKNOWN || b == FLOOR || b == OBSTACLE || b == EXPLORED || b == RESET
  }

  /** A grid buffer read row by row: `g[r][c]` is `self.grid[r, c]`. */
  type Grid = seq<seq<byte>>

  /** A (row, column) index into the grid. */
  type Cell = (int, int)

  predicate Square(g: Grid)
  {
    forall r | 0 <= r < |g| :: |g[r]| == |g|
  }

  predicate InGrid(c: Cell, n: int)
  {
    0 <= c.0 < n && 0 <= c.1 < n
  }

  predicate CellsIn(cells: seq<Cell>, n: int)
  {
    forall k | 0 <= k < |cells| :: InGrid(cells[k], n)
  }

  predicate AllCodes(g: Grid)
  {
    forall r, c | 0 <= r < |g| && 0 <= c < |g[r]| :: IsCode(g[r][c])
  }

  /** Two grids of the same shape that agree on every cell are equal. */
  lemma SameGrid(a: Grid, b: Grid)
    requires |a| == |b| && forall r | 0 <= r < |a| :: |a[r]| == |b[r]|
    requires forall r, c | 0 <= r < |a| && 0 <= c < |a[r]| :: a[r][c] == b[r][c]
    ensures a == b
  {
    forall r | 0 <= r < |a|
      ensures a[r] == b[r]
    {
    }
  }

  /** `np.full((n, n), v)`. */
  function Filled(n: nat, v: byte): (g: Grid)
    ensures |g| == n && Square(g)
    ensures forall r, c | 0 <= r < n && 0 <= c < n :: g[r][c] == v
  {
    seq(n, _ => seq(n, _ => v))
  }

  /** The fancy-index assignment `grid[rows, cols] = v` for the cells listed. */
  function Paint(g: Grid, cells: seq<Cell>, v: byte): (h: Grid)
    ensures |h| == |g| && forall r | 0 <= r < |g| :: |h[r]| == |g[r]|
    ensures forall r, c | 0 <= r < |g| && 0 <= c < |g[r]| ::
              h[r][c] == if (r, c) in cells then v else g[r][c]
  {
    seq(|g|, r requires 0 <= r < |g| =>
      seq(|g[r]|, c requires 0 <= c < |g[r]| => if (r, c) in cells then v else g[r][c]))
  }

  /** The fancy-index read `grid[rows, cols]`. */
  function Values(g: Grid, cells: seq<Cell>): (vs: seq<byte>)
    requires Square(g) && CellsIn(cells, |g|)
    ensures |vs| == |cells|
    ensures forall k | 0 <= k < |cells| :: vs[k] == g[cells[k].0][cells[k].1]
  {
    seq(|cells|, k requires 0 <= k < |cells| => g[cells[k].0][cells[k].1])
  }

  /** `np.max` of a non-empty array. */
  function MaxOf(vs: seq<byte>): (m: byte)
    requires |vs| > 0
    ensures m in vs
    ensures forall k | 0 <= k < |vs| :: vs[k] <= m
  {
    if |vs| == 1 then vs[0]
    else
      var rest := MaxOf(vs[1..]);
      if vs[0] < rest then rest else vs[0]
  }

  /** Some cell of the footprint is currently marked explored. */
  predicate AnyExplored(g: Grid, cells: seq<Cell>)
    requires Square(g) && CellsIn(cells, |g|)
  {
    exists k | 0 <= k < |cells| :: g[cells[k].0][cells[k].1] == EXPLORED
  }

  /**
   * One classified patch: an obstacle overwrites its footprint with 0; a
   * floor patch writes 150 only when the footprint is non-empty and its
   * maximum is not 255, and otherwise leaves the grid as it is.
   */
  function ApplyPatch(g: Grid, cells: seq<Cell>, floor: bool): Grid
    requires Square(g) && CellsIn(cells, |g|)
  {
    if !floor then Paint(g, cells, OBSTACLE)
    else if |cells| > 0 && MaxOf(Values(g, cells)) != EXPLORED then Paint(g, cells, FLOOR)
    else g
  }

  // ---------------------------------------------------------------------
  // The patch lattice of one camera frame

  /** Pixel (row, column) of the camera centre in a 240 x 320 frame. */
  const CENTER_ROW: int := 120
  const CENTER_COL: int := 160

  /** Image rectangle `image[x1:x2, y1:y2]` of one lattice patch. */
  datatype Rect = Rect(x1: int, y1: int, x2: int, y2: int)

  /** `h_patch_num`: the largest row index of the lattice (Python floor division). */
  function HPatchNum(ph: int): int
    requires ph > 0
  {
    (CENTER_ROW - ph / 2) / ph
  }

  /** `w_patch_num`: columns run from `-w_patch_num` to `w_patch_num`. */
  function WPatchNum(pw: int): int
    requires pw > 0
  {
    (CENTER_COL - pw / 2) / pw
  }

  /** The rectangle of lattice patch (i, j): row i below the centre, column j beside it. */
  function PatchRect(ph: int, pw: int, i: int, j: int): Rect
  {
    var x1 := (CENTER_ROW - ph / 2) + ph * i;
    var y1 := (CENTER_COL - pw / 2) + pw * j;
    Rect(x1, y1, x1 + ph, y1 + pw)
  }

  /**
   * One camera frame as the grid sees it through its collaborators: the
   * patch size, the classifier's verdict on the patch cut out of each
   * rectangle (true is floor), and the cells the rasteriser returns for the
   * ground projection of each rectangle.
   */
  datatype Frame = Frame(patchH: int, patchW: int, isFloor: Rect -> bool, footprint: Rect -> seq<Cell>)
  {
    /** The patch size is positive and every footprint lies inside an n x n grid. */
    ghost predicate Sound(n: int)
    {
      patchH > 0 && patchW > 0 && forall r: Rect :: CellsIn(footprint(r), n)
    }

    function H(): int
      requires patchH > 0
    {
      HPatchNum(patchH)
    }

    function W(): int
      requires patchW > 0
    {
      WPatchNum(patchW)
    }

    predicate Floor(i: int, j: int)
    {
      isFloor(PatchRect(patchH, patchW, i, j))
    }

    function Footprint(i: int, j: int): seq<Cell>
    {
      footprint(PatchRect(patchH, patchW, i, j))
    }
  }

  /**
   * Column j of the scan from row i down to row 0: each patch is applied
   * in turn, and the first obstacle ends the column.
   */
  function ScanColumn(g: Grid, f: Frame, j: int, i: int): (h: Grid)
    requires Square(g) && f.Sound(|g|)
    ensures |h| == |g| && Square(h)
    decreases i + 1
  {
    if i < 0 then g
    else
      var next := ApplyPatch(g, f.Footprint(i, j), f.Floor(i, j));
      if !f.Floor(i, j) then next else ScanColumn(next, f, j, i - 1)
  }

  /** Columns j, j + 1, ..., w of the scan, each from row hMax down. */
  function ScanLattice(g: Grid, f: Frame, j: int, w: int, hMax: int): (h: Grid)
    requires Square(g) && f.Sound(|g|)
    ensures |h| == |g| && Square(h)
    decreases w - j + 1
  {
    if j > w then g
    else ScanLattice(ScanColumn(g, f, j, hMax), f, j + 1, w, hMax)
  }

  /** One column of the lattice scan, as the loop of `process_patch` takes it. */
  lemma LatticeStep(g: Grid, h: Grid, f: Frame, j: int, w: int, hMax: int)
    requires Square(g) && f.Sound(|g|) && j <= w
    requires h == ScanColumn(g, f, j, hMax)
    ensures ScanLattice(g, f, j, w, hMax) == ScanLattice(h, f, j + 1, w, hMax)
  {
  }

  /** The grid after `process_patch` on frame f. */
  function ProcessPatchSpec(g: Grid, f: Frame): (h: Grid)
    requires Square(g) && f.Sound(|g|)
    ensures |h| == |g| && Square(h)
  {
    ScanLattice(g, f, -f.W(), f.W(), f.H())
  }

  /** `process_patch` is the lattice scan over the columns lo..hi it computes. */
  lemma ProcessPatchIsLatticeScan(g: Grid, f: Frame, lo: int, hi: int)
    requires Square(g) && f.Sound(|g|) && lo == -f.W() && hi == f.W()
    ensures ProcessPatchSpec(g, f) == ScanLattice(g, f, lo, hi, f.H())
  {
  }

  /** The (row, column) lattice indices classified in column j, rows i down to 0, in order. */
  function ColumnTrace(f: Frame, j: int, i: int): seq<(int, int)>
    decreases i + 1
  {
    if i < 0 then []
    else if !f.Floor(i, j) then [(i, j)]
    else [(i, j)] + ColumnTrace(f, j, i - 1)
  }

  /** One row of the column scan, as the loop of `process_patch` takes it. */
  lemma ColumnStep(g: Grid, h: Grid, f: Frame, j: int, i: int)
    requires Square(g) && f.Sound(|g|) && i >= 0
    requires h == ApplyPatch(g, f.Footprint(i, j), f.Floor(i, j))
    ensures ScanColumn(g, f, j, i) == if f.Floor(i, j) then ScanColumn(h, f, j, i - 1) else h
  {
  }

  /** The trace of one row of the column scan. */
  lemma ColumnTraceStep(f: Frame, j: int, i: int, t: seq<(int, int)>)
    requires i >= 0
    ensures t + ColumnTrace(f, j, i) ==
            if f.Floor(i, j) then (t + [(i, j)]) + ColumnTrace(f, j, i - 1) else t + [(i, j)]
  {
    var rest := ColumnTrace(f, j, i - 1);
    if f.Floor(i, j) {
      assert ColumnTrace(f, j, i) == [(i, j)] + rest;
      assert t + ([(i, j)] + rest) == (t + [(i, j)]) + rest;
    }
  }

  function LatticeTrace(f: Frame, j: int, w: int, hMax: int): seq<(int, int)>
    decreases w - j + 1
  {
    if j > w then []
    else ColumnTrace(f, j, hMax) + LatticeTrace(f, j + 1, w, hMax)
  }

  /** Appending column j to the trace of columns j0..j - 1 gives the trace of columns j0..j. */
  lemma {:induction false} LatticeTraceSnoc(f: Frame, j0: int, last: int, j: int, hMax: int, t: seq<(int, int)>, c: seq<(int, int)>)
    requires j0 <= j && j == last + 1
    requires t == LatticeTrace(f, j0, last, hMax) && c == ColumnTrace(f, j, hMax)
    ensures t + c == LatticeTrace(f, j0, j, hMax)
    decreases j - j0
  {
    if j0 < j {
      var rest := LatticeTrace(f, j0 + 1, last, hMax);
      LatticeTraceSnoc(f, j0 + 1, last, j, hMax, rest, c);
      assert t + c == ColumnTrace(f, j0, hMax) + (rest + c);
    }
  }

  /** The lattice patches `process_patch` classifies, in the order it does. */
  function ProcessPatchTrace(f: Frame): seq<(int, int)>
    requires f.patchH > 0 && f.patchW > 0
  {
    LatticeTrace(f, -f.W(), f.W(), f.H())
  }

  /**
   * Independent description of the classified patches: patch (i, j) lies
   * in the lattice and every patch nearer the camera in its column is floor.
   */
  predicate Processed(f: Frame, i: int, j: int)
    requires f.patchH > 0 && f.patchW > 0
  {
    -f.W() <= j <= f.W() && 0 <= i <= f.H() &&
    forall k | i < k <= f.H() :: f.Floor(k, j)
  }

  // ---------------------------------------------------------------------
  // update_location

  /** Half the side of the robot's square footprint, in cells. */
  const HALF_FOOTPRINT: int := 15

  /** Python's normalisation of one bound of a slice `a[lo:hi]` on an axis of length n. */
  function SliceBound(x: int, n: nat): (b: nat)
    ensures b <= n
    ensures 0 <= x <= n ==> b == x
    ensures x > n ==> b == n
    ensures -(n as int) <= x < 0 ==> b == x + n
    ensures x < -(n as int) ==> b == 0
  {
    if x < 0 then (if x + n < 0 then 0 else x + n)
    else if x > n then n
    else x
  }

  /** Index k is selected by the slice `a[lo:hi]` on an axis of length n. */
  predicate InSlice(k: int, lo: int, hi: int, n: nat)
  {
    SliceBound(lo, n) <= k < SliceBound(hi, n)
  }

  /** Python's `int()` of a float: truncation toward zero. */
  function Trunc(x: real): (t: int)
    ensures x >= 0.0 ==> 0 <= t && t as real <= x < t as real + 1.0
    ensures x < 0.0 ==> t <= 0 && t as real - 1.0 < x <= t as real
  {
    if x >= 0.0 then x.Floor else -((-x).Floor)
  }

  /** Grid index of a world coordinate: `int(x) + grid_size // 2`. */
  function GridIndex(x: real, n: nat): int
  {
    Trunc(x) + n / 2
  }

  /** `grid[gx-15:gx+15, gy-15:gy+15] = 255`, with Python's slice rules. */
  function Stamp(g: Grid, gx: int, gy: int): (h: Grid)
    requires Square(g)
    ensures |h| == |g| && Square(h)
    ensures forall r, c | 0 <= r < |g| && 0 <= c < |g| ::
              h[r][c] == if InSlice(r, gx - HALF_FOOTPRINT, gx + HALF_FOOTPRINT, |g|) &&
                            InSlice(c, gy - HALF_FOOTPRINT, gy + HALF_FOOTPRINT, |g|)
                         then EXPLORED else g[r][c]
  {
    var n := |g|;
    seq(n, r requires 0 <= r < n =>
      seq(n, c requires 0 <= c < n =>
        if InSlice(r, gx - HALF_FOOTPRINT, gx + HALF_FOOTPRINT, n) &&
           InSlice(c, gy - HALF_FOOTPRINT, gy + HALF_FOOTPRINT, n)
        then EXPLORED else g[r][c]))
  }

  /** The grid before the stamp: wiped to 127 when the origin id changed. */
  function ResetIfMoved(g: Grid, storedId: int, originId: int): (h: Grid)
    requires Square(g)
    ensures |h| == |g| && Square(h)
  {
    if originId != storedId then Filled(|g|, RESET) else g
  }

  /** Grid after `update_location` for the pose (originId, x, y), and the id it stores. */
  function UpdateLocationSpec(g: Grid, storedId: int, originId: int, x: real, y: real): (res: (Grid, int))
    requires Square(g)
    ensures |res.0| == |g| && Square(res.0)
  {
    var n := |g|;
    (Stamp(ResetIfMoved(g, storedId, originId), GridIndex(x, n), GridIndex(y, n)), originId)
  }
}
