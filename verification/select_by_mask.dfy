/** The Select Image Batch by Mask node (`ImageBatchSelectByMask.select`).

    Pixel values are exact reals; the float32 arithmetic of the tensor library
    is not modelled. */
module SelectByMask {
  import opened Wrappers
  import opened Batches

  /** One pixel: its channel values. */
  type Pixel = seq<real>

  /** One mask image: rows of pixels. */
  type Grid = seq<seq<Pixel>>

  /** Why the final concatenation can fail: the selected items have different shapes. */
  datatype CatError = ShapeMismatch

  /** Every pixel of `row` has `channels` values. */
  predicate RowShaped(row: seq<Pixel>, channels: nat) {
    forall c :: 0 <= c < |row| ==> |row[c]| == channels
  }

  /** The grid has the shape `d` and at least channel 0 exists. */
  predicate Conforms(g: Grid, d: Dims) {
    && d.channels >= 1
    && |g| == d.height
    && forall r :: 0 <= r < |g| ==> |g[r]| == d.width && RowShaped(g[r], d.channels)
  }

  /** A mask batch as the tensor library holds it: every item of the batch's shape. */
  predicate WellShaped(masks: Batch<Grid>) {
    && masks.dims.channels >= 1
    && forall i :: 0 <= i < |masks.items| ==> Conforms(masks.items[i], masks.dims)
  }

  /** Luminance of one pixel: the weighted sum of R, G and B for a three-channel
      mask, channel 0 for any other channel count. */
  function Luma(p: Pixel, channels: nat): real
    requires |p| == channels >= 1
  {
    if channels == 3 then 0.299 * p[0] + 0.587 * p[1] + 0.114 * p[2] else p[0]
  }

  function RowSum(row: seq<Pixel>, channels: nat): real
    requires channels >= 1 && RowShaped(row, channels)
  {
    if |row| == 0 then 0.0 else Luma(row[0], channels) + RowSum(row[1..], channels)
  }

  function GridSum(g: Grid, channels: nat): real
    requires channels >= 1 && forall r :: 0 <= r < |g| ==> RowShaped(g[r], channels)
  {
    if |g| == 0 then 0.0 else RowSum(g[0], channels) + GridSum(g[1..], channels)
  }

  /** Spatial mean of the luminance; None where the tensor library yields NaN,
      that is for a mask with no pixels. */
  function MeanLuma(g: Grid, d: Dims): (r: Option<real>)
    requires Conforms(g, d)
    ensures r.None? <==> d.height * d.width == 0
  {
    if d.height * d.width == 0 then None
    else Some(GridSum(g, d.channels) / ((d.height * d.width) as real))
  }

  /** Item i comes from batch A exactly when the mean is below the threshold;
      a NaN mean compares false and so picks B. */
  predicate PicksA(g: Grid, d: Dims, threshold: real)
    requires Conforms(g, d)
    ensures PicksA(g, d, threshold) ==> d.height * d.width > 0
  {
    var m := MeanLuma(g, d);
    m.Some? && m.value < threshold
  }

  /** Number of items processed: the shortest of the three batches. */
  function Common<T>(a: Batch<T>, b: Batch<T>, masks: Batch<Grid>): nat {
    Min(Min(|a.items|, |b.items|), |masks.items|)
  }

  /** Item i of the selection: A's item or B's item at the same index. */
  function Chosen<T>(a: Batch<T>, b: Batch<T>, masks: Batch<Grid>, threshold: real, i: nat): T
    requires WellShaped(masks) && i < Common(a, b, masks)
  {
    if PicksA(masks.items[i], masks.dims, threshold) then a.items[i] else b.items[i]
  }

  /** The node. Length mismatches and an A/B shape mismatch only warn; the
      concatenation then fails only if items of both shapes were picked. */
  method Select<T>(a: Batch<T>, b: Batch<T>, masks: Batch<Grid>, threshold: real)
    returns (r: Result<Batch<T>, CatError>)
    requires Common(a, b, masks) > 0 ==> WellShaped(masks)
    ensures Common(a, b, masks) == 0 ==> r == Ok(Batch(a.dims, []))
    ensures r.Err? <==>
              && a.dims != b.dims
              && (exists i :: 0 <= i < Common(a, b, masks) && PicksA(masks.items[i], masks.dims, threshold))
              && (exists j :: 0 <= j < Common(a, b, masks) && !PicksA(masks.items[j], masks.dims, threshold))
    ensures r.Ok? ==> |r.value.items| == Common(a, b, masks)
    ensures r.Ok? ==> forall i :: 0 <= i < Common(a, b, masks) ==>
              r.value.items[i] == Chosen(a, b, masks, threshold, i)
    ensures r.Ok? && Common(a, b, masks) > 0 ==>
              r.value.dims == if PicksA(masks.items[0], masks.dims, threshold) then a.dims else b.dims
  {
    var n := Common(a, b, masks);
    if n == 0 {
      return Ok(Batch(a.dims, []));
    }
    var out: seq<T> := [];
    var sawA, sawB := false, false;
    var i := 0;
    while i < n
      invariant 0 <= i <= n
      invariant |out| == i
      invariant forall k :: 0 <= k < i ==> out[k] == Chosen(a, b, masks, threshold, k)
      invariant sawA <==> exists k :: 0 <= k < i && PicksA(masks.items[k], masks.dims, threshold)
      invariant sawB <==> exists k :: 0 <= k < i && !PicksA(masks.items[k], masks.dims, threshold)
    {
      var mask := masks.items[i];
      var mean := MeanLuma(mask, masks.dims);
      if mean.Some? && mean.value < threshold {
        out := out + [a.items[i]];
        sawA := true;
      } else {
        out := out + [b.items[i]];
        sawB := true;
      }
      i := i + 1;
    }
    if sawA && sawB && a.dims != b.dims {
      return Err(ShapeMismatch);
    }
    var first := PicksA(masks.items[0], masks.dims, threshold);
    r := Ok(Batch(if first then a.dims else b.dims, out));
  }

  /** Every channel value of every pixel of `row` is `x`. */
  predicate UniformRow(row: seq<Pixel>, x: real) {
    forall c, k :: 0 <= c < |row| && 0 <= k < |row[c]| ==> row[c][k] == x
  }

  /** Every channel value of every pixel is `x`. */
  predicate Uniform(g: Grid, x: real) {
    forall r :: 0 <= r < |g| ==> UniformRow(g[r], x)
  }

  /** Every channel value of the pixel lies in [0, 1], the tensor library's image range. */
  predicate UnitPixel(p: Pixel) {
    forall k :: 0 <= k < |p| ==> 0.0 <= p[k] <= 1.0
  }

  /** Every pixel of the mask has its values in [0, 1]. */
  predicate InUnit(g: Grid) {
    forall r, c :: 0 <= r < |g| && 0 <= c < |g[r]| ==> UnitPixel(g[r][c])
  }

  /** `n` copies of `v` added up; keeps the sum lemmas free of products. */
  function Repeat(v: real, n: nat): real {
    if n == 0 then 0.0 else v + Repeat(v, n - 1)
  }

  lemma {:induction false} RepeatIsProduct(v: real, n: nat)
    ensures Repeat(v, n) == v * (n as real)
  {
    if n > 0 {
      RepeatIsProduct(v, n - 1);
    }
  }

  /** The rows after the first keep the row width and pixel shape. */
  lemma RowsTail(g: Grid, channels: nat, w: nat)
    requires |g| > 0
    requires forall r :: 0 <= r < |g| ==> |g[r]| == w && RowShaped(g[r], channels)
    ensures forall r :: 0 <= r < |g| - 1 ==> |g[1..][r]| == w && RowShaped(g[1..][r], channels)
  {
  }

  /** A pixel in the image range has a luminance in [0, 1]: the three weights
      are non-negative and sum to one. */
  lemma LumaInUnit(p: Pixel, channels: nat)
    requires |p| == channels >= 1 && UnitPixel(p)
    ensures 0.0 <= Luma(p, channels) <= 1.0
  {
  }

  /** A row of pixels with values in [0, 1] has a luminance sum between 0 and its length. */
  lemma {:induction false} RowSumBounds(row: seq<Pixel>, channels: nat)
    requires channels >= 1 && RowShaped(row, channels)
    requires forall c :: 0 <= c < |row| ==> UnitPixel(row[c])
    ensures 0.0 <= RowSum(row, channels) <= |row| as real
  {
    if |row| > 0 {
      LumaInUnit(row[0], channels);
      RowSumBounds(row[1..], channels);
    }
  }

  /** A mask of rows of `w` pixels with values in [0, 1] has a luminance sum
      between 0 and `w` added up once per row. */
  lemma {:induction false} GridSumBounds(g: Grid, channels: nat, w: nat)
    requires channels >= 1
    requires forall r :: 0 <= r < |g| ==> |g[r]| == w && RowShaped(g[r], channels)
    requires InUnit(g)
    ensures 0.0 <= GridSum(g, channels) <= Repeat(w as real, |g|)
  {
    if |g| > 0 {
      var rest := g[1..];
      RowSumBounds(g[0], channels);
      assert InUnit(rest) by {
        forall r, c | 0 <= r < |rest| && 0 <= c < |rest[r]|
          ensures UnitPixel(rest[r][c])
        {
          assert rest[r] == g[r + 1];
        }
      }
      RowsTail(g, channels, w);
      GridSumBounds(rest, channels, w);
    }
  }

  /** A pixel whose channels all hold `x` has luminance `x`: the weights sum to one. */
  lemma LumaOfUniformPixel(p: Pixel, channels: nat, x: real)
    requires |p| == channels >= 1
    requires forall k :: 0 <= k < |p| ==> p[k] == x
    ensures Luma(p, channels) == x
  {
  }

  /** A uniform row's luminance sum is `x` once per pixel. */
  lemma {:induction false} RowSumUniform(row: seq<Pixel>, channels: nat, x: real)
    requires channels >= 1 && RowShaped(row, channels)
    requires UniformRow(row, x)
    ensures RowSum(row, channels) == Repeat(x, |row|)
  {
    if |row| > 0 {
      LumaOfUniformPixel(row[0], channels, x);
      var rest := row[1..];
      assert UniformRow(rest, x) by {
        forall c, k | 0 <= c < |rest| && 0 <= k < |rest[c]|
          ensures rest[c][k] == x
        {
          assert rest[c] == row[c + 1];
        }
      }
      RowSumUniform(rest, channels, x);
    }
  }

  /** The rows after the first of a uniform grid form a uniform grid. */
  lemma UniformTail(g: Grid, x: real)
    requires |g| > 0 && Uniform(g, x)
    ensures Uniform(g[1..], x)
  {
  }

  /** A uniform grid's luminance sum is one uniform row's sum once per row. */
  lemma {:induction false} GridSumUniform(g: Grid, channels: nat, w: nat, x: real)
    requires channels >= 1
    requires forall r :: 0 <= r < |g| ==> |g[r]| == w && RowShaped(g[r], channels)
    requires Uniform(g, x)
    ensures GridSum(g, channels) == Repeat(Repeat(x, w), |g|)
  {
    if |g| > 0 {
      RowSumUniform(g[0], channels, x);
      UniformTail(g, x);
      RowsTail(g, channels, w);
      GridSumUniform(g[1..], channels, w, x);
    }
  }

  /** A non-empty mask whose every value is `x` has mean luminance exactly `x`. */
  lemma {:induction false} MeanOfUniform(g: Grid, d: Dims, x: real)
    requires Conforms(g, d) && d.height >= 1 && d.width >= 1
    requires Uniform(g, x)
    ensures MeanLuma(g, d) == Some(x)
  {
    var w := d.width as real;
    var h := d.height as real;
    GridSumUniform(g, d.channels, d.width, x);
    RepeatIsProduct(x, d.width);
    RepeatIsProduct(x * w, d.height);
    ProductAsReal(d.height, d.width);
    ScaleThenDivide(x, w, h);
    var total := GridSum(g, d.channels);
    var n := (d.height * d.width) as real;
    assert |g| == d.height;
    assert Repeat(x, d.width) == x * w;
    assert total == Repeat(x * w, d.height);
    assert total == x * w * h;
    assert MeanLuma(g, d) == Some(total / n);
    assert total / n == x;
  }

  lemma ProductAsReal(h: nat, w: nat)
    ensures (h * w) as real == (w as real) * (h as real)
    ensures h >= 1 && w >= 1 ==> h * w >= 1
  {
  }

  lemma RatioInUnit(sum: real, n: real)
    requires n > 0.0 && 0.0 <= sum <= n
    ensures 0.0 <= sum / n <= 1.0
  {
  }

  lemma ScaleThenDivide(x: real, w: real, h: real)
    requires w >= 1.0 && h >= 1.0
    ensures (x * w * h) / (w * h) == x
  {
    assert w * h > 0.0;
    assert x * w * h == x * (w * h);
  }

  /** A non-empty mask with values in [0, 1] has a mean luminance in [0, 1]. */
  lemma MeanInUnit(g: Grid, d: Dims)
    requires Conforms(g, d) && d.height * d.width > 0 && InUnit(g)
    ensures 0.0 <= MeanLuma(g, d).value <= 1.0
  {
    GridSumBounds(g, d.channels, d.width);
    RepeatIsProduct(d.width as real, d.height);
    ProductAsReal(d.height, d.width);
    RatioInUnit(GridSum(g, d.channels), (d.height * d.width) as real);
  }

  /** For masks in the image range, a threshold of zero always selects B and a
      threshold above one selects A for every mask with pixels. */
  lemma UnitMaskThresholds(g: Grid, d: Dims, threshold: real)
    requires Conforms(g, d) && InUnit(g)
    ensures PicksA(g, d, threshold) ==> threshold > 0.0
    ensures d.height * d.width > 0 && threshold > 1.0 ==> PicksA(g, d, threshold)
  {
    if d.height * d.width > 0 {
      MeanInUnit(g, d);
    }
  }

  /** An all-black mask with a positive threshold selects A. */
  lemma BlackMaskPicksA(g: Grid, d: Dims, threshold: real)
    requires Conforms(g, d) && d.height >= 1 && d.width >= 1
    requires Uniform(g, 0.0) && threshold > 0.0
    ensures PicksA(g, d, threshold)
  {
    MeanOfUniform(g, d, 0.0);
  }

  /** An all-white mask with a threshold of at most one selects B. */
  lemma WhiteMaskPicksB(g: Grid, d: Dims, threshold: real)
    requires Conforms(g, d) && d.height >= 1 && d.width >= 1
    requires Uniform(g, 1.0) && threshold <= 1.0
    ensures !PicksA(g, d, threshold)
  {
    MeanOfUniform(g, d, 1.0);
  }

  /** A mask without pixels has a NaN mean and selects B at every threshold. */
  lemma EmptyMaskPicksB(g: Grid, d: Dims, threshold: real)
    requires Conforms(g, d) && d.height * d.width == 0
    ensures !PicksA(g, d, threshold)
  {
  }

  /** Raising the threshold never turns an A-selection into a B-selection. */
  lemma ThresholdMonotone(g: Grid, d: Dims, t1: real, t2: real)
    requires Conforms(g, d) && t1 <= t2
    ensures PicksA(g, d, t1) ==> PicksA(g, d, t2)
  {
  }
}
