/**
 * Properties of the pixel classifier: what the fitted threshold is, how a
 * query is decided, self-inclusion of the calibration patches and its
 * edge case, and the uint8 arithmetic of the code as written.
 */
module ClassifierProperties {
  import opened Wrappers
  import opened Classifiers

  // ---------------------------------------------------------------------
  // Squared distance

  lemma {:induction false} SqDistSelf(a: seq<int>)
    ensures SqDist(a, a) == 0
  {
    if a != [] {
      SqDistSelf(a[1..]);
    }
  }

  /** The exact squared distance vanishes only between equal patches. */
  lemma {:induction false} SqDistZeroIff(a: seq<int>, b: seq<int>)
    requires |a| == |b|
    ensures SqDist(a, b) == 0 <==> a == b
  {
    if a == [] {
    } else {
      SqDistZeroIff(a[1..], b[1..]);
      SquareZeroIff(a[0] - b[0]);
      if a == b {
        assert a[1..] == b[1..];
      }
      if a[0] == b[0] && a[1..] == b[1..] {
        assert a == [a[0]] + a[1..] && b == [b[0]] + b[1..];
      }
    }
  }

  /** A square is never negative, and it is 0 only for 0. */
  lemma SquareZeroIff(d: int)
    ensures d * d >= 0 && (d * d == 0 <==> d == 0)
  {
    if d > 0 { assert d * d >= d; } else if d < 0 { assert d * d >= -d; }
  }

  // ---------------------------------------------------------------------
  // The calibration patches

  /** Block k of the split is elements k * p up to (k + 1) * p of the data, in order. */
  lemma SplitBlocks(data: seq<int>, n: nat, p: nat)
    requires |data| == n * p
    ensures forall k | 0 <= k < n ::
              (k + 1) * p <= |data| && Split(data, n, p)[k] == data[k * p .. (k + 1) * p]
  {
    forall k | 0 <= k < n
      ensures (k + 1) * p <= |data| && Split(data, n, p)[k] == data[k * p .. (k + 1) * p]
    {
      SplitBlockAt(data, n, p, k);
    }
  }

  /** One block of the split, with its bounds written as products. */
  lemma SplitBlockAt(data: seq<int>, n: nat, p: nat, k: nat)
    requires |data| == n * p && k < n
    ensures (k + 1) * p <= |data| && Split(data, n, p)[k] == data[k * p .. (k + 1) * p]
  {
    OffsetIsProduct(n, p);
    OffsetIsProduct(k, p);
    OffsetIsProduct(k + 1, p);
    SplitBlock(data, n, p, k);
  }

  /** k * p written as k additions of p, so that the induction below stays linear. */
  function Offset(k: nat, p: nat): nat
  {
    if k == 0 then 0 else Offset(k - 1, p) + p
  }

  lemma {:induction false} OffsetIsProduct(k: nat, p: nat)
    ensures Offset(k, p) == k * p
  {
    if k > 0 {
      OffsetIsProduct(k - 1, p);
      assert k * p == (k - 1) * p + p;
    }
  }

  lemma {:induction false} OffsetMonotone(k: nat, n: nat, p: nat)
    requires k <= n
    ensures Offset(k, p) <= Offset(n, p)
    decreases n - k
  {
    if k < n {
      OffsetMonotone(k, n - 1, p);
    }
  }

  lemma {:induction false} SplitBlock(data: seq<int>, n: nat, p: nat, k: nat)
    requires |data| == n * p && |data| == Offset(n, p) && k < n
    ensures Offset(k + 1, p) <= |data|
    ensures Split(data, n, p)[k] == data[Offset(k, p) .. Offset(k + 1, p)]
    decreases k
  {
    OffsetMonotone(k + 1, n, p);
    var rest := data[p..];
    SplitHead(data, n, p);
    if k > 0 {
      var lo, hi := Offset(k - 1, p), Offset(k, p);
      SplitBlock(rest, n - 1, p, k - 1);
      assert Split(data, n, p)[k] == rest[lo .. hi];
      assert rest[lo .. hi] == data[p + lo .. p + hi];
    }
  }

  lemma SplitHead(data: seq<int>, n: nat, p: nat)
    requires |data| == n * p && n > 0
    ensures |data[p..]| == (n - 1) * p
    ensures Split(data, n, p) == [data[..p]] + Split(data[p..], n - 1, p)
  {
  }

  /** `for patch in patches` yields the N consecutive row-major blocks of H * W * C elements. */
  lemma PatchesAreBlocks(t: NdArray, k: int)
    requires |t.shape| == 4 && 0 <= k < t.shape[0]
    ensures (k + 1) * PatchSize(t) <= |t.data|
    ensures Patches(t)[k] == t.data[k * PatchSize(t) .. (k + 1) * PatchSize(t)]
  {
    SplitBlocks(t.data, t.shape[0], PatchSize(t));
  }

  // ---------------------------------------------------------------------
  // The fitted threshold

  /**
   * With no threshold given (and a non-empty calibration set of non-empty
   * patches), the threshold is 1.05 times a self-distance that no other
   * self-distance exceeds.
   */
  lemma AutoThresholdIsScaledWorstSelfDistance(t: NdArray)
    requires |t.shape| == 4 && t.shape[0] > 0 && PatchSize(t) > 0
    ensures Fit(t, None).Ok?
    ensures var ps := Patches(t);
            exists k | 0 <= k < |ps| ::
              MeanSqDiff(ps[k], ps).Real? &&
              Fit(t, None).value.threshold == Real(MeanSqDiff(ps[k], ps).value * WIGGLE) &&
              forall q | 0 <= q < |ps| :: MeanSqDiff(ps[q], ps).value <= MeanSqDiff(ps[k], ps).value
  {
    var ps := Patches(t);
    WorstSelfDistance(ps, PatchSize(t));
    assert Fit(t, None).value.threshold == AutoThreshold(ps, PatchSize(t));
  }

  lemma WorstSelfDistance(ps: seq<seq<int>>, p: nat)
    requires |ps| > 0 && p > 0 && forall k | 0 <= k < |ps| :: |ps[k]| == p
    ensures exists k | 0 <= k < |ps| ::
              MeanSqDiff(ps[k], ps).Real? &&
              AutoThreshold(ps, p) == Real(MeanSqDiff(ps[k], ps).value * WIGGLE) &&
              forall q | 0 <= q < |ps| :: MeanSqDiff(ps[q], ps).value <= MeanSqDiff(ps[k], ps).value
  {
    var ds := SelfDistances(ps, p);
    assert forall k | 0 <= k < |ds| :: ds[k] == MeanSqDiff(ps[k], ps) && ds[k].Real?;
    var m := MaxNum(ds);
    assert m.Real?;
    var k :| 0 <= k < |ds| && ds[k] == m;
    assert forall q | 0 <= q < |ps| :: MeanSqDiff(ps[q], ps).value <= m.value by {
      forall q | 0 <= q < |ps|
        ensures MeanSqDiff(ps[q], ps).value <= m.value
      {
        assert ds[q] == MeanSqDiff(ps[q], ps);
      }
    }
    assert MeanSqDiff(ps[k], ps) == m;
  }

  /** With empty patches every mean is NaN, and so is the fitted threshold. */
  lemma AutoThresholdOfEmptyPatchesIsNaN(t: NdArray)
    requires |t.shape| == 4 && t.shape[0] > 0 && PatchSize(t) == 0
    ensures Fit(t, None) == Ok(PixelClassifier(t, NaN))
  {
    var ps := Patches(t);
    assert SelfDistances(ps, 0)[0].NaN?;
  }

  // ---------------------------------------------------------------------
  // The decision

  /** `np.mean((q - p)**2)` for one calibration patch p. */
  function PatchMse(q: seq<int>, p: seq<int>): real
    requires |q| == |p| && |q| > 0
  {
    SqDist(q, p) as real / |q| as real
  }

  /** The mean of the per-patch MSEs against all calibration patches. */
  function AveragePatchMse(q: seq<int>, ps: seq<seq<int>>): real
    requires |q| > 0 && |ps| > 0 && forall k | 0 <= k < |ps| :: |ps[k]| == |q|
  {
    SumPatchMse(q, ps) / |ps| as real
  }

  function SumPatchMse(q: seq<int>, ps: seq<seq<int>>): real
    requires |q| > 0 && forall k | 0 <= k < |ps| :: |ps[k]| == |q|
  {
    if ps == [] then 0.0 else PatchMse(q, ps[0]) + SumPatchMse(q, ps[1..])
  }

  lemma {:induction false} SumPatchMseIsScaledTotal(q: seq<int>, ps: seq<seq<int>>)
    requires |q| > 0 && forall k | 0 <= k < |ps| :: |ps[k]| == |q|
    ensures SumPatchMse(q, ps) == TotalSqDist(q, ps) as real / |q| as real
  {
    if ps != [] {
      SumPatchMseIsScaledTotal(q, ps[1..]);
      var p := |q| as real;
      assert SqDist(q, ps[0]) as real / p + TotalSqDist(q, ps[1..]) as real / p
          == (SqDist(q, ps[0]) + TotalSqDist(q, ps[1..])) as real / p;
    }
  }

  /** The mean over all N * H * W * C elements equals the average of the N per-patch MSEs. */
  lemma MeanIsAverageOfPatchMses(q: seq<int>, ps: seq<seq<int>>)
    requires |q| > 0 && |ps| > 0 && forall k | 0 <= k < |ps| :: |ps[k]| == |q|
    ensures MeanSqDiff(q, ps) == Real(AveragePatchMse(q, ps))
  {
    SumPatchMseIsScaledTotal(q, ps);
    var t, p, n := TotalSqDist(q, ps) as real, |q| as real, |ps| as real;
    MulAsReal(|ps|, |q|);
    DivDiv(t, p, n);
    assert AveragePatchMse(q, ps) == (t / p) / n;
    assert MeanSqDiff(q, ps) == Real(t / (n * p));
  }

  lemma MulAsReal(a: nat, b: nat)
    ensures (a * b) as real == a as real * b as real
  {
  }

  lemma DivDiv(t: real, p: real, n: real)
    requires p > 0.0 && n > 0.0
    ensures (t / p) / n == t / (n * p)
  {
    var a := t / p;
    var b := a / n;
    assert a * p == t;
    assert b * n == a;
    assert b * (n * p) == t;
  }

  /**
   * A well-shaped query against a non-empty calibration set of non-empty
   * patches is floor iff the average of its per-patch MSEs is strictly
   * below a non-NaN threshold.
   */
  lemma ClassifyIsAverageMseTest(c: Fitted, patch: NdArray)
    requires c.patches.shape[0] > 0 && patch.shape == c.patches.shape[1..] && PatchSize(c.patches) > 0
    ensures |patch.data| == PatchSize(c.patches)
    ensures Classify(c, patch) ==
              Ok(c.threshold.Real? && AveragePatchMse(patch.data, Patches(c.patches)) < c.threshold.value)
  {
    MeanIsAverageOfPatchMses(patch.data, Patches(c.patches));
  }

  /**
   * Self-inclusion: with the fitted threshold positive, every calibration
   * patch, presented as a query of the calibration shape, is floor.
   */
  lemma CalibrationPatchesAreFloor(t: NdArray, c: Fitted, k: int)
    requires Fit(t, None) == Ok(c)
    requires c.threshold.Real? && c.threshold.value > 0.0
    requires 0 <= k < t.shape[0]
    ensures Classify(c, Tensor(t.shape[1..], Patches(t)[k])) == Ok(true)
  {
    var ps := Patches(t);
    var ds := SelfDistances(ps, PatchSize(t));
    var m := MaxNum(ds);
    assert c.threshold == Scaled(m);
    assert ds[k] == MeanSqDiff(ps[k], ps);
    assert ds[k].value <= m.value;
    assert m.value * WIGGLE > m.value;
  }

  /**
   * The edge case of the strict comparison: when all calibration patches
   * are identical the fitted threshold is 0 (NaN for empty patches) and no
   * query at all is floor, not even a calibration patch.
   */
  lemma IdenticalCalibrationRejectsEverything(t: NdArray, c: Fitted, patch: NdArray)
    requires Fit(t, None) == Ok(c)
    requires forall k | 0 <= k < t.shape[0] :: Patches(t)[k] == Patches(t)[0]
    ensures c.threshold == if PatchSize(t) > 0 then Real(0.0) else NaN
    ensures Classify(c, patch) != Ok(true)
  {
    var ps := Patches(t);
    var ds := SelfDistances(ps, PatchSize(t));
    if PatchSize(t) > 0 {
      AllEqualTotal(ps[0], ps);
      forall k | 0 <= k < |ds|
        ensures ds[k] == Real(0.0)
      {
        assert ps[k] == ps[0];
        assert ds[k] == MeanSqDiff(ps[0], ps);
      }
      var m := MaxNum(ds);
      var k :| 0 <= k < |ds| && ds[k] == m;
    } else {
      assert ds[0].NaN?;
    }
  }

  lemma {:induction false} AllEqualTotal(p: seq<int>, ps: seq<seq<int>>)
    requires forall k | 0 <= k < |ps| :: ps[k] == p
    ensures TotalSqDist(p, ps) == 0
  {
    if ps != [] {
      SqDistSelf(p);
      AllEqualTotal(p, ps[1..]);
    }
  }

  /**
   * Three all-black 1 x 1 x 3 calibration patches: the fitted threshold is
   * 0, so neither a black nor a white query patch is classified as floor.
   */
  lemma ThreeBlackPatches(t: NdArray)
    requires t.shape == [3, 1, 1, 3] && forall i | 0 <= i < |t.data| :: t.data[i] == 0
    ensures Fit(t, None).Ok?
    ensures Fit(t, None).value.threshold == Real(0.0)
    ensures Classify(Fit(t, None).value, Tensor([1, 1, 3], [0, 0, 0])) == Ok(false)
    ensures Classify(Fit(t, None).value, Tensor([1, 1, 3], [255, 255, 255])) == Ok(false)
  {
    assert t.shape[1..] == [1, 1, 3] && Product([1, 1, 3]) == 3;
    UniformSplit(t.data, 3, 3, 0);
    var c := Fit(t, None).value;
    IdenticalCalibrationRejectsEverything(t, c, Tensor([1, 1, 3], [0, 0, 0]));
    IdenticalCalibrationRejectsEverything(t, c, Tensor([1, 1, 3], [255, 255, 255]));
  }

  /** A calibration array whose every pixel is v splits into identical patches of v. */
  lemma {:induction false} UniformSplit(data: seq<int>, n: nat, p: nat, v: int)
    requires |data| == n * p && forall i | 0 <= i < |data| :: data[i] == v
    ensures forall k | 0 <= k < n :: Split(data, n, p)[k] == seq(p, _ => v)
  {
    if n > 0 {
      assert |data[p..]| == (n - 1) * p;
      UniformSplit(data[p..], n - 1, p, v);
      assert data[..p] == seq(p, _ => v);
    }
  }

  // ---------------------------------------------------------------------
  // The code as written, on uint8 images

  /** numpy uint8 arithmetic: `(a - b)**2` wraps modulo 256 after the subtraction and after the square. */
  function Uint8SqDiff(a: int, b: int): (d: int)
    ensures 0 <= d < 256
  {
    var diff := (a - b) % 256;
    (diff * diff) % 256
  }

  function Uint8SqDist(a: seq<int>, b: seq<int>): int
    requires |a| == |b|
  {
    if a == [] then 0 else Uint8SqDiff(a[0], b[0]) + Uint8SqDist(a[1..], b[1..])
  }

  /** `np.mean((q - ps)**2)` when q and ps are uint8 arrays. */
  function Uint8MeanSqDiff(q: seq<int>, ps: seq<seq<int>>): Num
    requires forall k | 0 <= k < |ps| :: |ps[k]| == |q|
  {
    if |ps| == 0 || |q| == 0 then NaN
    else Real(Uint8TotalSqDist(q, ps) as real / (|ps| * |q|) as real)
  }

  function Uint8TotalSqDist(q: seq<int>, ps: seq<seq<int>>): int
    requires forall k | 0 <= k < |ps| :: |ps[k]| == |q|
  {
    if ps == [] then 0 else Uint8SqDist(q, ps[0]) + Uint8TotalSqDist(q, ps[1..])
  }

  /** Under uint8 arithmetic two different patches can be at distance 0. */
  lemma Uint8DistanceCollision()
    ensures Uint8SqDist([16], [0]) == 0 && SqDist([16], [0]) == 256
  {
  }

  /**
   * Calibration patches 0 and 1 (1 x 1 x 1 grey levels) and the query 128:
   * under uint8 arithmetic the query's mean distance is 1/2, below the
   * fitted threshold 21/40, so the code as written calls it floor.
   */
  lemma Uint8AcceptsDistantPatch()
    ensures var ps := [[0], [1]];
            var uint8Threshold := Scaled(MaxNum([Uint8MeanSqDiff([0], ps), Uint8MeanSqDiff([1], ps)]));
            Below(Uint8MeanSqDiff([128], ps), uint8Threshold)
  {
    var ps := [[0], [1]];
    assert Uint8SqDiff(128, 0) == 0 && Uint8SqDiff(128, 1) == 1;
    assert Uint8MeanSqDiff([128], ps) == Real(0.5);
    assert Uint8MeanSqDiff([0], ps) == Real(0.5) && Uint8MeanSqDiff([1], ps) == Real(0.5);
    assert MaxNum([Real(0.5), Real(0.5)]) == Real(0.5);
  }

  /**
   * The same calibration set with exact arithmetic: a 1 x 1 x 1 query is
   * floor exactly when its grey level is one of the calibration levels 0
   * and 1, so in particular 128 is an obstacle.
   */
  lemma ExactAcceptsOnlyCalibrationLevels(t: NdArray, v: int)
    requires t.shape == [2, 1, 1, 1] && t.data == [0, 1]
    ensures Fit(t, None).Ok?
    ensures Classify(Fit(t, None).value, Tensor([1, 1, 1], [v])) == Ok(v == 0 || v == 1)
  {
    var ps := [[0], [1]];
    TwoLevelPatches(t);
    assert SelfDistances(ps, 1) == [Real(0.5), Real(0.5)] by {
      TwoLevelDistance(0);
      TwoLevelDistance(1);
    }
    assert Fit(t, None).value.threshold == Real(0.5 * WIGGLE);
    TwoLevelDistance(v);
    SquareSumAtMostOne(v);
  }

  /** The calibration array 2 x 1 x 1 x 1 holding 0 and 1 splits into the patches [0] and [1]. */
  lemma TwoLevelPatches(t: NdArray)
    requires t.shape == [2, 1, 1, 1] && t.data == [0, 1]
    ensures Patches(t) == [[0], [1]]
  {
    assert t.shape[1..] == [1, 1, 1] && Product([1, 1, 1]) == 1;
    assert t.data[1..] == [1] && t.data[..1] == [0] && [1][..1] == [1] && [1][1..] == [];
    assert Split([1], 1, 1) == [[1]] + Split([], 0, 1);
  }

  /** The mean squared difference of the level v to the patches [0] and [1]. */
  lemma TwoLevelDistance(v: int)
    ensures MeanSqDiff([v], [[0], [1]]) == Real((v * v + (v - 1) * (v - 1)) as real / 2.0)
  {
    var ps := [[0], [1]];
    assert SqDist([v], [0]) == v * v + SqDist([], []);
    assert SqDist([v], [1]) == (v - 1) * (v - 1) + SqDist([], []);
    assert TotalSqDist([v], ps) == SqDist([v], [0]) + (SqDist([v], [1]) + TotalSqDist([v], []));
  }

  /** Only the levels 0 and 1 are at total squared distance at most 1 from both 0 and 1. */
  lemma SquareSumAtMostOne(v: int)
    ensures v * v + (v - 1) * (v - 1) <= 1 <==> v == 0 || v == 1
  {
    if v >= 2 {
      assert v * v >= 2 * v;
    } else if v <= -1 {
      assert (v - 1) * (v - 1) >= -2 * (v - 1);
    }
  }
}
