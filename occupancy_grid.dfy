/**
 * The occupancy grid object: a square byte buffer updated in place by
 * `ProcessPatch` (one camera frame) and `UpdateLocation` (one pose
 * reading). Each method is proved to leave the buffer equal to the
 * corresponding function of GridModel applied to the buffer before the call.
 */
module OccupancyGrids {
  import opened GridModel

  class OccupancyGrid {
    const patchH: int
    const patchW: int
    const gridSize: nat
    var grid: array2<byte>
    /** The origin id of the pose the map was last built against. */
    var id: int

    ghost predicate Shaped()
      reads this
    {
      grid.Length0 == gridSize && grid.Length1 == gridSize
    }

    /** The buffer read as a value. */
    ghost function View(): (g: Grid)
      reads this, grid
      requires Shaped()
      ensures |g| == gridSize && Square(g)
      ensures forall r, c | 0 <= r < gridSize && 0 <= c < gridSize :: g[r][c] == grid[r, c]
    {
      var a, n := grid, gridSize;
      seq(n, r requires 0 <= r < n reads a =>
        seq(n, c requires 0 <= c < n reads a => a[r, c]))
    }

    /** The buffer is grid_size x grid_size and holds only the five codes. */
    ghost predicate Valid()
      reads this, grid
    {
      Shaped() && AllCodes(View())
    }

    constructor (originId: int, patchH: int, patchW: int, gridSize: nat := 3000)
      ensures Valid() && fresh(grid)
      ensures this.patchH == patchH && this.patchW == patchW && this.gridSize == gridSize
      ensures View() == Filled(gridSize, UNKNOWN)
      ensures id == originId
    {
      this.patchH := patchH;
      this.patchW := patchW;
      this.gridSize := gridSize;
      grid := new byte[gridSize, gridSize]((_, _) => UNKNOWN);
      id := originId;
      new;
      SameGrid(View(), Filled(gridSize, UNKNOWN));
    }

    /** `self.grid[rows, cols] = v`. */
    method PaintCells(cells: seq<Cell>, v: byte)
      requires Valid() && CellsIn(cells, gridSize) && IsCode(v)
      modifies grid
      ensures Valid()
      ensures View() == Paint(old(View()), cells, v)
    {
      forall k | 0 <= k < |cells| {
        grid[cells[k].0, cells[k].1] := v;
      }
      SameGrid(View(), Paint(old(View()), cells, v));
    }

    /** `np.max(self.grid[rows, cols])` for a non-empty footprint. */
    method FootprintMax(cells: seq<Cell>) returns (m: byte)
      requires Valid() && CellsIn(cells, gridSize) && |cells| > 0
      ensures exists k | 0 <= k < |cells| :: m == grid[cells[k].0, cells[k].1]
      ensures forall k | 0 <= k < |cells| :: grid[cells[k].0, cells[k].1] <= m
    {
      m := grid[cells[0].0, cells[0].1];
      var k := 1;
      while k < |cells|
        invariant 1 <= k <= |cells|
        invariant exists q | 0 <= q < k :: m == grid[cells[q].0, cells[q].1]
        invariant forall q | 0 <= q < k :: grid[cells[q].0, cells[q].1] <= m
      {
        if m < grid[cells[k].0, cells[k].1] {
          m := grid[cells[k].0, cells[k].1];
        }
        k := k + 1;
      }
    }

    /** Lines 84-90 of `process_patch`: a floor verdict writes 150 unless the footprint holds an explored cell. */
    method MarkFloor(cells: seq<Cell>)
      requires Valid() && CellsIn(cells, gridSize) && |cells| > 0
      modifies grid
      ensures Valid()
      ensures View() == ApplyPatch(old(View()), cells, true)
    {
      var m := FootprintMax(cells);
      assert m == MaxOf(Values(View(), cells)) by {
        ghost var vs := Values(View(), cells);
        assert m in vs && forall q | 0 <= q < |vs| :: vs[q] <= m;
      }
      if m != EXPLORED {
        PaintCells(cells, FLOOR);
      }
    }

    /** Lines 75-90 of `process_patch` for one classified patch with footprint `cells`. */
    method ApplyPatchInPlace(cells: seq<Cell>, floor: bool)
      requires Valid() && CellsIn(cells, gridSize)
      modifies grid
      ensures Valid()
      ensures View() == ApplyPatch(old(View()), cells, floor)
    {
      if !floor {
        PaintCells(cells, OBSTACLE);
      } else if |cells| > 0 {
        MarkFloor(cells);
      }
    }

    /** Lines 49-90 of `process_patch` for lattice patch (i, j): cut out its rectangle, classify it and apply the verdict. */
    method ClassifyPatch(f: Frame, i: int, j: int) returns (floor: bool)
      requires Valid() && f.Sound(gridSize)
      modifies grid
      ensures Valid()
      ensures floor == f.Floor(i, j)
      ensures View() == ApplyPatch(old(View()), f.Footprint(i, j), floor)
    {
      var rect := PatchRect(f.patchH, f.patchW, i, j);
      floor := f.isFloor(rect);
      ApplyPatchInPlace(f.footprint(rect), floor);
    }

    /**
     * One lattice column j of `process_patch`, from row `h_patch_num` down
     * to row 0, stopping after the first obstacle.
     */
    method ProcessColumn(f: Frame, j: int) returns (ghost trace: seq<(int, int)>)
      requires Valid() && f.Sound(gridSize)
      modifies grid
      ensures Valid()
      ensures View() == ScanColumn(old(View()), f, j, f.H())
      ensures trace == ColumnTrace(f, j, f.H())
    {
      var i := (CENTER_ROW - f.patchH / 2) / f.patchH;
      ghost var spec := ScanColumn(View(), f, j, i);
      ghost var full := ColumnTrace(f, j, i);
      trace := [];
      while i >= 0
        invariant Valid()
        invariant ScanColumn(View(), f, j, i) == spec
        invariant trace + ColumnTrace(f, j, i) == full
        decreases i + 1
      {
        ghost var before := View();
        var floor := ClassifyPatch(f, i, j);
        ColumnStep(before, View(), f, j, i);
        ColumnTraceStep(f, j, i, trace);
        trace := trace + [(i, j)];
        if !floor {
          break;
        }
        i := i - 1;
      }
    }

    /** The column loop `for j in range(lo, hi + 1)` of `process_patch`. */
    method ProcessColumns(f: Frame, lo: int, hi: int) returns (ghost trace: seq<(int, int)>)
      requires Valid() && f.Sound(gridSize)
      modifies grid
      ensures Valid()
      ensures View() == ScanLattice(old(View()), f, lo, hi, f.H())
      ensures trace == LatticeTrace(f, lo, hi, f.H())
    {
      var hNum := f.H();
      var j := lo;
      ghost var done := j - 1;
      ghost var spec := ScanLattice(View(), f, lo, hi, hNum);
      trace := [];
      while j <= hi
        invariant lo <= j && (j <= hi + 1 || j == lo) && done == j - 1
        invariant Valid()
        invariant ScanLattice(View(), f, j, hi, hNum) == spec
        invariant trace == LatticeTrace(f, lo, done, hNum)
        decreases hi - j + 1
      {
        ghost var before := View();
        ghost var column;
        column := ProcessColumn(f, j);
        LatticeStep(before, View(), f, j, hi, hNum);
        LatticeTraceSnoc(f, lo, done, j, hNum, trace, column);
        trace := trace + column;
        done, j := j, j + 1;
      }
      assert LatticeTrace(f, lo, done, hNum) == LatticeTrace(f, lo, hi, hNum);
    }

    /**
     * `process_patch`: the classifier verdict and the rasterised footprint
     * of each lattice rectangle are supplied by the caller; columns are
     * scanned left to right.
     */
    method ProcessPatch(isFloor: Rect -> bool, footprint: Rect -> seq<Cell>) returns (ghost trace: seq<(int, int)>)
      requires Valid() && patchH > 0 && patchW > 0
      requires forall r: Rect :: CellsIn(footprint(r), gridSize)
      modifies grid
      ensures Valid()
      ensures View() == ProcessPatchSpec(old(View()), Frame(patchH, patchW, isFloor, footprint))
      ensures trace == ProcessPatchTrace(Frame(patchH, patchW, isFloor, footprint))
    {
      var f := Frame(patchH, patchW, isFloor, footprint);
      assert f.Sound(gridSize);
      var lo, hi := -f.W(), f.W();
      ProcessPatchIsLatticeScan(View(), f, lo, hi);
      trace := ProcessColumns(f, lo, hi);
    }

    /** `self.grid[gx-15:gx+15, gy-15:gy+15] = 255`. */
    method StampInPlace(gx: int, gy: int)
      requires Valid()
      modifies grid
      ensures Valid()
      ensures View() == Stamp(old(View()), gx, gy)
    {
      var r0, r1 := SliceBound(gx - HALF_FOOTPRINT, gridSize), SliceBound(gx + HALF_FOOTPRINT, gridSize);
      var c0, c1 := SliceBound(gy - HALF_FOOTPRINT, gridSize), SliceBound(gy + HALF_FOOTPRINT, gridSize);
      forall r, c | r0 <= r < r1 && c0 <= c < c1 {
        grid[r, c] := EXPLORED;
      }
      SameGrid(View(), Stamp(old(View()), gx, gy));
    }

    /**
     * `update_location` for the pose (originId, x, y): wipe the grid to 127
     * and store the new id when the origin changed, then mark the 30 x 30
     * block around the robot as explored.
     */
    method UpdateLocation(originId: int, x: real, y: real)
      requires Valid()
      modifies this, grid
      ensures Valid()
      ensures (View(), id) == UpdateLocationSpec(old(View()), old(id), originId, x, y)
      ensures originId == old(id) ==> grid == old(grid)
      ensures originId != old(id) ==> fresh(grid)
    {
      if originId != id {
        grid := new byte[gridSize, gridSize]((_, _) => RESET);
        id := originId;
        SameGrid(View(), Filled(gridSize, RESET));
      }
      assert View() == ResetIfMoved(old(View()), old(id), originId);
      StampInPlace(Trunc(x) + gridSize / 2, Trunc(y) + gridSize / 2);
    }
  }
}
