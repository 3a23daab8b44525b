/**
 * The patch classifiers: the abstract base whose call always fails, and
 * the pixel classifier, which is fitted once from N calibration patches
 * and then decides "floor" for a query patch when its mean squared pixel
 * difference to all calibration patches is strictly below a threshold.
 * Pixels are mathematical integers and means are exact rationals.
 */
module Classifiers {
  import opened Wrappers

  /** Number of elements of an array of the given shape. */
  function Product(shape: seq<nat>): nat
  {
    if shape == [] then 1 else shape[0] * Product(shape[1..])
  }

  /** A numpy array of pixels: its shape and its elements in row-major order. */
  datatype Tensor = Tensor(shape: seq<nat>, data: seq<int>)

  type NdArray = t: Tensor | |t.data| == Product(t.shape) witness Tensor([], [0])

  /** A float result: NaN (numpy's mean of no elements) or an exact value. */
  datatype Num = NaN | Real(value: real)

  /** Python's `a < b` on floats: false whenever either side is NaN. */
  predicate Below(a: Num, b: Num)
  {
    a.Real? && b.Real? && a.value < b.value
  }

  /** The exceptions the classifier code can raise. */
  datatype Error = AssertionError | IndexError | ValueError | NotImplementedError

  // ---------------------------------------------------------------------
  // Distances

  /** Sum over elements of the squared difference: `np.sum((a - b)**2)`. */
  function SqDist(a: seq<int>, b: seq<int>): (d: int)
    requires |a| == |b|
    ensures d >= 0
  {
    if a == [] then 0 else (a[0] - b[0]) * (a[0] - b[0]) + SqDist(a[1..], b[1..])
  }

  /** Sum of the squared differences between q and each patch of ps. */
  function TotalSqDist(q: seq<int>, ps: seq<seq<int>>): (d: int)
    requires forall k | 0 <= k < |ps| :: |ps[k]| == |q|
    ensures d >= 0
  {
    if ps == [] then 0 else SqDist(q, ps[0]) + TotalSqDist(q, ps[1..])
  }

  /**
   * `np.mean((q - ps)**2)` over all |ps| * p elements of the broadcast
   * difference; NaN when there are no elements.
   */
  function MeanSqDiff(q: seq<int>, ps: seq<seq<int>>): (m: Num)
    requires forall k | 0 <= k < |ps| :: |ps[k]| == |q|
    ensures m.NaN? <==> |ps| == 0 || |q| == 0
    ensures m.Real? ==> m.value >= 0.0
  {
    if |ps| == 0 || |q| == 0 then NaN
    else Real(TotalSqDist(q, ps) as real / (|ps| * |q|) as real)
  }

  /** `np.max` of a non-empty list of floats: NaN if any element is NaN, else the largest. */
  function MaxNum(xs: seq<Num>): (m: Num)
    requires |xs| > 0
    ensures m.NaN? <==> exists k | 0 <= k < |xs| :: xs[k].NaN?
    ensures m.Real? ==> (exists k | 0 <= k < |xs| :: xs[k] == m) &&
                        forall k | 0 <= k < |xs| :: xs[k].value <= m.value
  {
    if |xs| == 1 then xs[0]
    else
      var rest := MaxNum(xs[1..]);
      assert forall k | 1 <= k < |xs| :: xs[k] == xs[1..][k - 1];
      if xs[0].NaN? || rest.NaN? then NaN
      else if xs[0].value < rest.value then rest
      else xs[0]
  }

  /** The factor 1.05 of "wiggle room" above the worst self-distance. */
  const WIGGLE: real := 21.0 / 20.0

  function Scaled(m: Num): Num
  {
    if m.NaN? then NaN else Real(m.value * WIGGLE)
  }

  /** The list `mses` of the constructor: each calibration patch against all of them. */
  function SelfDistances(ps: seq<seq<int>>, p: nat): (ds: seq<Num>)
    requires forall k | 0 <= k < |ps| :: |ps[k]| == p
    ensures |ds| == |ps|
  {
    seq(|ps|, k requires 0 <= k < |ps| => MeanSqDiff(ps[k], ps))
  }

  /** The threshold fitted when none is supplied: 1.05 times the largest self-distance. */
  function AutoThreshold(ps: seq<seq<int>>, p: nat): Num
    requires |ps| > 0 && forall k | 0 <= k < |ps| :: |ps[k]| == p
  {
    Scaled(MaxNum(SelfDistances(ps, p)))
  }

  // ---------------------------------------------------------------------
  // The calibration array

  /** The n consecutive blocks of p elements of data. */
  function Split(data: seq<int>, n: nat, p: nat): (ps: seq<seq<int>>)
    requires |data| == n * p
    ensures |ps| == n && forall k | 0 <= k < n :: |ps[k]| == p
  {
    if n == 0 then []
    else
      assert |data[p..]| == (n - 1) * p;
      [data[..p]] + Split(data[p..], n - 1, p)
  }

  /** Elements per calibration patch: H * W * C. */
  function PatchSize(t: NdArray): nat
    requires |t.shape| == 4
  {
    Product(t.shape[1..])
  }

  /** The patches `patches[0]`, ..., `patches[N-1]` of an N x H x W x C array, flattened. */
  function Patches(t: NdArray): (ps: seq<seq<int>>)
    requires |t.shape| == 4
    ensures |ps| == t.shape[0] && forall k | 0 <= k < |ps| :: |ps[k]| == PatchSize(t)
  {
    Split(t.data, t.shape[0], PatchSize(t))
  }

  // ---------------------------------------------------------------------
  // The classifiers

  /** A fitted pixel classifier: the calibration array (always 4-D) and the threshold. */
  datatype PixelClassifier = PixelClassifier(patches: NdArray, threshold: Num)

  type Fitted = c: PixelClassifier | |c.patches.shape| == 4
    witness PixelClassifier(Tensor([0, 0, 0, 0], []), NaN)

  /**
   * `PixelClassifier(patches, threshold)`: the array must be 4-D; a given
   * threshold is stored as it is, otherwise it is fitted, which fails on an
   * empty calibration set because `np.max([])` raises.
   */
  function Fit(patches: NdArray, threshold: Option<real>): (r: Result<Fitted, Error>)
    ensures |patches.shape| != 4 ==> r == Err(AssertionError)
    ensures |patches.shape| == 4 && threshold.None? && patches.shape[0] == 0 ==> r == Err(ValueError)
    ensures r.Ok? ==> r.value.patches == patches
    ensures r.Ok? && threshold.Some? ==> r.value.threshold == Real(threshold.value)
    ensures r.Err? <==> |patches.shape| != 4 || (threshold.None? && patches.shape[0] == 0)
  {
    if |patches.shape| != 4 then Err(AssertionError)
    else if threshold.Some? then Ok(PixelClassifier(patches, Real(threshold.value)))
    else if patches.shape[0] == 0 then Err(ValueError)
    else Ok(PixelClassifier(patches, AutoThreshold(Patches(patches), PatchSize(patches))))
  }

  /**
   * `classifier(patch)`: `patches[0]` must exist and the query must have
   * its shape; then floor iff the mean squared difference is below the threshold.
   */
  function Classify(c: Fitted, patch: NdArray): (r: Result<bool, Error>)
    ensures c.patches.shape[0] == 0 ==> r == Err(IndexError)
    ensures c.patches.shape[0] > 0 && patch.shape != c.patches.shape[1..] ==> r == Err(AssertionError)
    ensures r.Err? <==> c.patches.shape[0] == 0 || patch.shape != c.patches.shape[1..]
  {
    if c.patches.shape[0] == 0 then Err(IndexError)
    else if patch.shape != c.patches.shape[1..] then Err(AssertionError)
    else Ok(Below(MeanSqDiff(patch.data, Patches(c.patches)), c.threshold))
  }

  /** The closed family of classifiers a robot can hold (only these two are in the source). */
  datatype PatchClassifier = Base | Pixel(pixel: Fitted)

  /** `classifier(patch)` for any member of the family; the base class raises. */
  function Call(c: PatchClassifier, patch: NdArray): (r: Result<bool, Error>)
    ensures c.Base? ==> r == Err(NotImplementedError)
    ensures c.Pixel? ==> r == Classify(c.pixel, patch)
  {
    match c
    case Base => Err(NotImplementedError)
    case Pixel(p) => Classify(p, patch)
  }
}
