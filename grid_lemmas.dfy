/**
 * What `process_patch` and `update_location` promise, proved about the
 * functions of GridModel that the OccupancyGrid methods are verified against.
 */
module GridProperties {
  import opened GridModel

  // ---------------------------------------------------------------------
  // One classified patch

  /** The `np.max(...) != 255` test is exactly "no footprint cell is explored". */
  lemma MaxTestIsExploredTest(g: Grid, cells: seq<Cell>)
    requires Square(g) && CellsIn(cells, |g|) && |cells| > 0
    ensures MaxOf(Values(g, cells)) != EXPLORED <==> !AnyExplored(g, cells)
  {
    var vs := Values(g, cells);
    if AnyExplored(g, cells) {
      var k :| 0 <= k < |cells| && g[cells[k].0][cells[k].1] == EXPLORED;
      assert vs[k] == EXPLORED;
    }
    if MaxOf(vs) == EXPLORED {
      var k :| 0 <= k < |vs| && vs[k] == MaxOf(vs);
      assert g[cells[k].0][cells[k].1] == EXPLORED;
    }
  }

  /** An obstacle patch writes 0 over its whole footprint, explored cells included, and nothing else. */
  lemma ObstaclePatchOverwrites(g: Grid, cells: seq<Cell>)
    requires Square(g) && CellsIn(cells, |g|)
    ensures forall r, c | 0 <= r < |g| && 0 <= c < |g| ::
              ApplyPatch(g, cells, false)[r][c] == if (r, c) in cells then OBSTACLE else g[r][c]
  {
  }

  /**
   * A floor patch writes 150 over its whole footprint when the footprint is
   * non-empty and holds no explored cell; otherwise it changes nothing, not
   * even the footprint cells that are not explored.
   */
  lemma FloorPatchWholeFootprint(g: Grid, cells: seq<Cell>)
    requires Square(g) && CellsIn(cells, |g|)
    ensures |cells| > 0 && !AnyExplored(g, cells) ==>
              forall r, c | 0 <= r < |g| && 0 <= c < |g| ::
                ApplyPatch(g, cells, true)[r][c] == if (r, c) in cells then FLOOR else g[r][c]
    ensures |cells| == 0 || AnyExplored(g, cells) ==> ApplyPatch(g, cells, true) == g
  {
    if |cells| > 0 {
      MaxTestIsExploredTest(g, cells);
    }
  }

  /** A floor patch never turns an explored cell into anything else. */
  lemma FloorPatchKeepsExplored(g: Grid, cells: seq<Cell>, r: int, c: int)
    requires Square(g) && CellsIn(cells, |g|)
    requires 0 <= r < |g| && 0 <= c < |g| && g[r][c] == EXPLORED
    ensures ApplyPatch(g, cells, true)[r][c] == EXPLORED
  {
    if (r, c) in cells && |cells| > 0 {
      var k :| 0 <= k < |cells| && cells[k] == (r, c);
      assert Values(g, cells)[k] == EXPLORED;
      MaxTestIsExploredTest(g, cells);
    }
  }

  // ---------------------------------------------------------------------
  // Which patches one call classifies

  /** Column j, rows i down to 0: exactly the rows down to and including the first obstacle. */
  lemma {:induction false} ColumnTraceMembers(f: Frame, j: int, i: int, p: (int, int))
    ensures p in ColumnTrace(f, j, i) <==>
              p.1 == j && 0 <= p.0 <= i && forall k | p.0 < k <= i :: f.Floor(k, j)
    decreases i + 1
  {
    if i >= 0 && f.Floor(i, j) {
      ColumnTraceMembers(f, j, i - 1, p);
    }
  }

  lemma {:induction false} LatticeTraceMembers(f: Frame, j: int, w: int, hMax: int, p: (int, int))
    ensures p in LatticeTrace(f, j, w, hMax) <==> j <= p.1 <= w && p in ColumnTrace(f, p.1, hMax)
    decreases w - j + 1
  {
    if j <= w {
      LatticeTraceMembers(f, j + 1, w, hMax, p);
      ColumnTraceMembers(f, j, hMax, p);
    }
  }

  /** `process_patch` classifies patch (i, j) if and only if it is in the lattice and every nearer patch of its column is floor. */
  lemma ProcessPatchTraceExact(f: Frame, i: int, j: int)
    requires f.patchH > 0 && f.patchW > 0
    ensures (i, j) in ProcessPatchTrace(f) <==> Processed(f, i, j)
  {
    LatticeTraceMembers(f, -f.W(), f.W(), f.H(), (i, j));
    ColumnTraceMembers(f, j, f.H(), (i, j));
  }

  /** After an obstacle at row i of column j, no farther patch (smaller row) of that column is classified. */
  lemma ObstacleEndsColumn(f: Frame, i: int, j: int, k: int)
    requires f.patchH > 0 && f.patchW > 0
    requires 0 <= i <= f.H() && !f.Floor(i, j) && k < i
    ensures (k, j) !in ProcessPatchTrace(f)
  {
    ProcessPatchTraceExact(f, k, j);
  }

  /** Patch a comes before patch b in the scan: an earlier column, or the same column and a nearer row. */
  predicate ScanBefore(a: (int, int), b: (int, int))
  {
    a.1 < b.1 || (a.1 == b.1 && a.0 > b.0)
  }

  predicate InScanOrder(t: seq<(int, int)>)
  {
    forall p, q | 0 <= p < q < |t| :: ScanBefore(t[p], t[q])
  }

  lemma {:induction false} ColumnTraceOrdered(f: Frame, j: int, i: int)
    ensures InScanOrder(ColumnTrace(f, j, i))
    decreases i + 1
  {
    if i >= 0 && f.Floor(i, j) {
      var rest := ColumnTrace(f, j, i - 1);
      ColumnTraceOrdered(f, j, i - 1);
      forall q | 0 <= q < |rest|
        ensures rest[q].1 == j && rest[q].0 < i
      {
        ColumnTraceMembers(f, j, i - 1, rest[q]);
      }
      var t := ColumnTrace(f, j, i);
      assert t == [(i, j)] + rest;
      forall p, q | 0 <= p < q < |t|
        ensures ScanBefore(t[p], t[q])
      {
        if p > 0 {
          assert t[p] == rest[p - 1] && t[q] == rest[q - 1];
        } else {
          assert t[q] == rest[q - 1];
        }
      }
    }
  }

  lemma {:induction false} LatticeTraceOrdered(f: Frame, j: int, w: int, hMax: int)
    ensures InScanOrder(LatticeTrace(f, j, w, hMax))
    ensures forall q | 0 <= q < |LatticeTrace(f, j, w, hMax)| :: LatticeTrace(f, j, w, hMax)[q].1 >= j
    decreases w - j + 1
  {
    if j <= w {
      var col := ColumnTrace(f, j, hMax);
      var rest := LatticeTrace(f, j + 1, w, hMax);
      ColumnTraceOrdered(f, j, hMax);
      LatticeTraceOrdered(f, j + 1, w, hMax);
      forall q | 0 <= q < |col|
        ensures col[q].1 == j
      {
        ColumnTraceMembers(f, j, hMax, col[q]);
      }
      var t := col + rest;
      forall p, q | 0 <= p < q < |t|
        ensures ScanBefore(t[p], t[q])
      {
        if q < |col| {
          assert t[p] == col[p] && t[q] == col[q];
        } else if p >= |col| {
          assert t[p] == rest[p - |col|] && t[q] == rest[q - |col|];
        } else {
          assert t[p] == col[p] && t[q] == rest[q - |col|];
        }
      }
    }
  }

  /** Columns left to right, and within a column from the nearest row to the farthest. */
  lemma ProcessPatchTraceOrdered(f: Frame)
    requires f.patchH > 0 && f.patchW > 0
    ensures InScanOrder(ProcessPatchTrace(f))
  {
    LatticeTraceOrdered(f, -f.W(), f.W(), f.H());
  }

  // ---------------------------------------------------------------------
  // What one call writes

  /** Every cell of h either kept its value from g or holds 0 or 150. */
  ghost predicate OnlyObstacleOrFloorWritten(g: Grid, h: Grid)
    requires |h| == |g| && Square(g) && Square(h)
  {
    forall r, c | 0 <= r < |g| && 0 <= c < |g| ::
      h[r][c] == g[r][c] || h[r][c] == OBSTACLE || h[r][c] == FLOOR
  }

  lemma {:induction false} ScanColumnWrites(g: Grid, f: Frame, j: int, i: int)
    requires Square(g) && f.Sound(|g|)
    ensures OnlyObstacleOrFloorWritten(g, ScanColumn(g, f, j, i))
    decreases i + 1
  {
    if i >= 0 && f.Floor(i, j) {
      var next := ApplyPatch(g, f.Footprint(i, j), true);
      ScanColumnWrites(next, f, j, i - 1);
    }
  }

  lemma {:induction false} ScanLatticeWrites(g: Grid, f: Frame, j: int, w: int, hMax: int)
    requires Square(g) && f.Sound(|g|)
    ensures OnlyObstacleOrFloorWritten(g, ScanLattice(g, f, j, w, hMax))
    decreases w - j + 1
  {
    if j <= w {
      ScanColumnWrites(g, f, j, hMax);
      ScanLatticeWrites(ScanColumn(g, f, j, hMax), f, j + 1, w, hMax);
    }
  }

  /** `process_patch` writes no code but 0 and 150, so it keeps the grid inside the five codes. */
  lemma ProcessPatchWritesOnlyObstacleOrFloor(g: Grid, f: Frame)
    requires Square(g) && f.Sound(|g|)
    ensures OnlyObstacleOrFloorWritten(g, ProcessPatchSpec(g, f))
    ensures AllCodes(g) ==> AllCodes(ProcessPatchSpec(g, f))
  {
    ScanLatticeWrites(g, f, -f.W(), f.W(), f.H());
  }

  /** No footprint of a listed patch covers cell c. */
  predicate Uncovered(f: Frame, t: seq<(int, int)>, c: Cell)
  {
    forall q | 0 <= q < |t| :: c !in f.Footprint(t[q].0, t[q].1)
  }

  lemma {:induction false} ScanColumnFrame(g: Grid, f: Frame, j: int, i: int, c: Cell)
    requires Square(g) && f.Sound(|g|) && InGrid(c, |g|)
    requires Uncovered(f, ColumnTrace(f, j, i), c)
    ensures ScanColumn(g, f, j, i)[c.0][c.1] == g[c.0][c.1]
    decreases i + 1
  {
    if i >= 0 {
      var t := ColumnTrace(f, j, i);
      assert t[0] == (i, j);
      var next := ApplyPatch(g, f.Footprint(i, j), f.Floor(i, j));
      ApplyPatchFrame(g, f.Footprint(i, j), f.Floor(i, j), c);
      if f.Floor(i, j) {
        var rest := ColumnTrace(f, j, i - 1);
        assert t == [(i, j)] + rest;
        assert Uncovered(f, rest, c) by {
          forall q | 0 <= q < |rest|
            ensures c !in f.Footprint(rest[q].0, rest[q].1)
          {
            assert rest[q] == t[q + 1];
          }
        }
        ScanColumnFrame(next, f, j, i - 1, c);
      }
    }
  }

  /** One classified patch leaves every cell outside its footprint alone. */
  lemma ApplyPatchFrame(g: Grid, cells: seq<Cell>, floor: bool, c: Cell)
    requires Square(g) && CellsIn(cells, |g|) && InGrid(c, |g|) && c !in cells
    ensures ApplyPatch(g, cells, floor)[c.0][c.1] == g[c.0][c.1]
  {
  }

  lemma {:induction false} ScanLatticeFrame(g: Grid, f: Frame, j: int, w: int, hMax: int, c: Cell)
    requires Square(g) && f.Sound(|g|) && InGrid(c, |g|)
    requires Uncovered(f, LatticeTrace(f, j, w, hMax), c)
    ensures ScanLattice(g, f, j, w, hMax)[c.0][c.1] == g[c.0][c.1]
    decreases w - j + 1
  {
    if j <= w {
      var col := ColumnTrace(f, j, hMax);
      var rest := LatticeTrace(f, j + 1, w, hMax);
      assert LatticeTrace(f, j, w, hMax) == col + rest;
      assert forall q | 0 <= q < |col| :: col[q] == (col + rest)[q];
      assert forall q | 0 <= q < |rest| :: rest[q] == (col + rest)[q + |col|];
      ScanColumnFrame(g, f, j, hMax, c);
      ScanLatticeFrame(ScanColumn(g, f, j, hMax), f, j + 1, w, hMax, c);
    }
  }

  /**
   * A cell that no classified patch's footprint covers keeps its value;
   * in particular the footprints of the patches beyond an obstacle are not
   * written unless a classified patch covers them too.
   */
  lemma ProcessPatchFrame(g: Grid, f: Frame, c: Cell)
    requires Square(g) && f.Sound(|g|) && InGrid(c, |g|)
    requires forall i, j | Processed(f, i, j) :: c !in f.Footprint(i, j)
    ensures ProcessPatchSpec(g, f)[c.0][c.1] == g[c.0][c.1]
  {
    ProcessedUncovered(f, c);
    ScanLatticeFrame(g, f, -f.W(), f.W(), f.H(), c);
  }

  /** No patch of the trace covers c when no processed patch does. */
  lemma ProcessedUncovered(f: Frame, c: Cell)
    requires f.patchH > 0 && f.patchW > 0
    requires forall i, j | Processed(f, i, j) :: c !in f.Footprint(i, j)
    ensures Uncovered(f, ProcessPatchTrace(f), c)
  {
    var t := ProcessPatchTrace(f);
    forall q | 0 <= q < |t|
      ensures c !in f.Footprint(t[q].0, t[q].1)
    {
      var i, j := t[q].0, t[q].1;
      assert (i, j) in t;
      ProcessPatchTraceExact(f, i, j);
    }
  }

  /**
   * The explored mark is kept per patch, not per call: an obstacle in one
   * column can overwrite an explored cell with 0, and a floor patch of a
   * later column that covers the same cell then writes 150 there.
   */
  lemma ExploredCellCanEndAsFloor()
    ensures var f := Frame(120, 100, (r: Rect) => r.y1 != 10, (r: Rect) => [(0, 0)]);
            f.Sound(1) && ProcessPatchSpec([[EXPLORED]], f) == [[FLOOR]]
  {
    var f := Frame(120, 100, (r: Rect) => r.y1 != 10, (r: Rect) => [(0, 0)]);
    assert f.H() == 0 && f.W() == 1;
    var g0: Grid := [[EXPLORED]];
    assert !f.Floor(0, -1) && f.Floor(0, 0) && f.Floor(0, 1);
    var g1 := ScanColumn(g0, f, -1, 0);
    assert g1 == Paint(g0, [(0, 0)], OBSTACLE);
    SameGrid(g1, [[OBSTACLE]]);
    var g2 := ScanColumn(g1, f, 0, 0);
    assert Values(g1, [(0, 0)]) == [OBSTACLE];
    assert g2 == Paint(g1, [(0, 0)], FLOOR);
    SameGrid(g2, [[FLOOR]]);
    var g3 := ScanColumn(g2, f, 1, 0);
    assert Values(g2, [(0, 0)]) == [FLOOR];
    assert g3 == Paint(g2, [(0, 0)], FLOOR);
    SameGrid(g3, [[FLOOR]]);
    assert ScanLattice(g3, f, 2, 1, 0) == g3;
  }

  // ---------------------------------------------------------------------
  // The patch lattice

  /**
   * Every lattice patch starts at or below the row half a patch above the
   * camera centre and lies within the 320 columns of the frame (one column
   * past it for an odd patch width).
   */
  lemma LatticeInsideFrame(ph: int, pw: int, i: int, j: int)
    requires ph > 0 && pw > 0
    requires 0 <= i <= HPatchNum(ph) && -WPatchNum(pw) <= j <= WPatchNum(pw)
    ensures PatchRect(ph, pw, i, j).x1 >= CENTER_ROW - ph / 2
    ensures PatchRect(ph, pw, i, j).x2 <= 2 * CENTER_ROW + ph % 2
    ensures 0 <= PatchRect(ph, pw, i, j).y1
    ensures PatchRect(ph, pw, i, j).y2 <= 2 * CENTER_COL + pw % 2
  {
    var h, w := HPatchNum(ph), WPatchNum(pw);
    FloorDivBelow(CENTER_ROW - ph / 2, ph);
    FloorDivBelow(CENTER_COL - pw / 2, pw);
    MulMonotone(ph, 0, i);
    MulMonotone(ph, i, h);
    MulMonotone(pw, j, w);
    MulMonotone(pw, -w, j);
  }

  /**
   * The odd-width bound is reached: with 3 x 3 patches the last column of the
   * lattice is 53 and its rectangle spans columns 318 to 321, one past the
   * 320-column frame, so the slice of the image holds only two columns.
   */
  lemma OddWidthLatticeCrossesFrameEdge()
    ensures WPatchNum(3) == 53
    ensures PatchRect(3, 3, 0, WPatchNum(3)).y1 == 318
    ensures PatchRect(3, 3, 0, WPatchNum(3)).y2 == 2 * CENTER_COL + 1
  {
  }

  /** Floor division times the divisor does not exceed the dividend. */
  lemma FloorDivBelow(n: int, d: int)
    requires d > 0
    ensures d * (n / d) <= n
  {
  }

  /** Multiplying by a positive factor keeps the order, and commutes with negation. */
  lemma MulMonotone(a: int, x: int, y: int)
    requires a > 0 && x <= y
    ensures a * x <= a * y && a * -x == -(a * x) && a * -y == -(a * y)
  {
    assert a * y - a * x == a * (y - x);
  }

  // ---------------------------------------------------------------------
  // update_location

  /** Away from the edges the stamp is exactly the block [gx-15, gx+15) x [gy-15, gy+15). */
  lemma StampInterior(g: Grid, gx: int, gy: int)
    requires Square(g)
    requires HALF_FOOTPRINT <= gx <= |g| - HALF_FOOTPRINT && HALF_FOOTPRINT <= gy <= |g| - HALF_FOOTPRINT
    ensures forall r, c | 0 <= r < |g| && 0 <= c < |g| ::
              Stamp(g, gx, gy)[r][c] ==
                if gx - HALF_FOOTPRINT <= r < gx + HALF_FOOTPRINT && gy - HALF_FOOTPRINT <= c < gy + HALF_FOOTPRINT
                then EXPLORED else g[r][c]
  {
    var n := |g|;
    assert SliceBound(gx - HALF_FOOTPRINT, n) == gx - HALF_FOOTPRINT;
    assert SliceBound(gx + HALF_FOOTPRINT, n) == gx + HALF_FOOTPRINT;
    assert SliceBound(gy - HALF_FOOTPRINT, n) == gy - HALF_FOOTPRINT;
    assert SliceBound(gy + HALF_FOOTPRINT, n) == gy + HALF_FOOTPRINT;
  }

  /**
   * Python's slice rules near the low edge: for a grid of at least 30
   * cells, a robot index in [-15, 15) selects no row at all, so nothing is
   * marked.
   */
  lemma StampNearLowEdgeIsEmpty(g: Grid, gx: int, gy: int)
    requires Square(g) && |g| >= 2 * HALF_FOOTPRINT
    requires -HALF_FOOTPRINT <= gx < HALF_FOOTPRINT
    ensures Stamp(g, gx, gy) == g
  {
    SameGrid(Stamp(g, gx, gy), g);
  }

  lemma StampIdempotent(g: Grid, gx: int, gy: int)
    requires Square(g)
    ensures Stamp(Stamp(g, gx, gy), gx, gy) == Stamp(g, gx, gy)
  {
    SameGrid(Stamp(Stamp(g, gx, gy), gx, gy), Stamp(g, gx, gy));
  }

  /** Every cell after `update_location`: 255 in the stamp, else 127 after a reset, else its old value. */
  lemma UpdateLocationCells(g: Grid, storedId: int, originId: int, x: real, y: real)
    requires Square(g)
    ensures var n := |g|;
            var gx, gy := GridIndex(x, n), GridIndex(y, n);
            forall r, c | 0 <= r < n && 0 <= c < n ::
              UpdateLocationSpec(g, storedId, originId, x, y).0[r][c] ==
                if InSlice(r, gx - HALF_FOOTPRINT, gx + HALF_FOOTPRINT, n) &&
                   InSlice(c, gy - HALF_FOOTPRINT, gy + HALF_FOOTPRINT, n) then EXPLORED
                else if originId != storedId then RESET
                else g[r][c]
    ensures UpdateLocationSpec(g, storedId, originId, x, y).1 == originId
  {
  }

  /** A second call with the same pose and origin id leaves grid and id as the first call left them. */
  lemma UpdateLocationIdempotent(g: Grid, storedId: int, originId: int, x: real, y: real)
    requires Square(g)
    ensures var once := UpdateLocationSpec(g, storedId, originId, x, y);
            UpdateLocationSpec(once.0, once.1, originId, x, y) == once
  {
    var n := |g|;
    var once := UpdateLocationSpec(g, storedId, originId, x, y);
    StampIdempotent(ResetIfMoved(g, storedId, originId), GridIndex(x, n), GridIndex(y, n));
    assert ResetIfMoved(once.0, once.1, originId) == once.0;
  }

  /** After an origin change nothing of the old map survives: the result depends only on the grid size and the pose. */
  lemma ResetForgetsOldMap(g1: Grid, g2: Grid, storedId: int, originId: int, x: real, y: real)
    requires Square(g1) && Square(g2) && |g1| == |g2| && originId != storedId
    ensures UpdateLocationSpec(g1, storedId, originId, x, y) == UpdateLocationSpec(g2, storedId, originId, x, y)
    ensures var h := UpdateLocationSpec(g1, storedId, originId, x, y).0;
            forall r, c | 0 <= r < |h| && 0 <= c < |h| :: h[r][c] == RESET || h[r][c] == EXPLORED
  {
    assert ResetIfMoved(g1, storedId, originId) == ResetIfMoved(g2, storedId, originId);
  }

  /**
   * A fresh 100 x 100 grid after one `update_location` at position (0, 0)
   * with an unchanged origin: the block [35, 65) x [35, 65) is explored and
   * every other cell is still unknown.
   */
  lemma FreshGridFirstLocation(id: int)
    ensures var h := UpdateLocationSpec(Filled(100, UNKNOWN), id, id, 0.0, 0.0).0;
            forall r, c | 0 <= r < 100 && 0 <= c < 100 ::
              h[r][c] == if 35 <= r < 65 && 35 <= c < 65 then EXPLORED else UNKNOWN
  {
    assert GridIndex(0.0, 100) == 50;
    StampInterior(Filled(100, UNKNOWN), 50, 50);
  }
}
