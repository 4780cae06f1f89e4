/** Sobel edge detection helpers: the two Sobel kernels, the original
    nested-loop filter (symmetric padding, kernel not flipped, so a
    correlation) and the rescaling of edge strengths to [0, 255]. */
module EdgeHelpers {
  import opened Images
  import opened Windows

  const SobelX: Grid := [[-1, 0, 1], [-2, 0, 2], [-1, 0, 1]]
  const SobelY: Grid := [[-1, -2, -1], [0, 0, 0], [1, 2, 1]]

  /** get_sobel_kernels: the horizontal and the vertical 3 × 3 operator. */
  function GetSobelKernels(): (k: (Grid, Grid))
    ensures Rect(k.0) && |k.0| == 3 && Width(k.0) == 3
    ensures Rect(k.1) && |k.1| == 3 && Width(k.1) == 3
    ensures k.1 == Transpose(k.0)
    ensures KernelSum(k.0) == 0 && KernelSum(k.1) == 0
  {
    assert Transpose(SobelX) == SobelY by {
      var t := Transpose(SobelX);
      assert t[0] == SobelY[0] && t[1] == SobelY[1] && t[2] == SobelY[2];
    }
    (SobelX, SobelY)
  }

  // ---------------------------------------------------------------------
  // apply_convolution
  // ---------------------------------------------------------------------

  /** What apply_convolution accepts: a two-dimensional image, a square
      kernel, and a pad of kernel_size // 2 that one mirror can fill. */
  predicate SymmetricDomain(image: Grid, kernel: Grid) {
    Rect(image) && Rect(kernel) && Width(kernel) == |kernel|
    && |kernel| / 2 <= |image| && |kernel| / 2 <= Width(image)
  }

  /** output[i, j] of apply_convolution: the window of the symmetric-padded
      image at (i, j), multiplied entry by entry with the unflipped kernel. */
  function EdgeResponse(image: Grid, kernel: Grid, i: nat, j: nat): int
    requires SymmetricDomain(image, kernel) && i < |image| && j < Width(image)
  {
    WindowInside(image, kernel, i, j);
    Correlate(PadSymmetric(image, |kernel| / 2), kernel, i, j)
  }

  /** Every window of the padded image lies inside it. */
  lemma WindowInside(image: Grid, kernel: Grid, i: nat, j: nat)
    requires SymmetricDomain(image, kernel) && i < |image| && j < Width(image)
    ensures Fits(PadSymmetric(image, |kernel| / 2), kernel, i, j)
  {
    var k := |kernel|;
    assert k <= 2 * (k / 2) + 1;
  }

  /** The original slow filter: fills a zero-initialised height × width
      buffer pixel by pixel. */
  method ApplyConvolution(image: Grid, kernel: Grid) returns (output: array2<int>)
    requires SymmetricDomain(image, kernel)
    ensures fresh(output)
    ensures output.Length0 == |image| && output.Length1 == Width(image)
    ensures forall i, j :: 0 <= i < output.Length0 && 0 <= j < output.Length1 ==>
      output[i, j] == EdgeResponse(image, kernel, i, j)
  {
    var height, width := |image|, Width(image);
    var kernelSize := |kernel|;
    var padSize := kernelSize / 2;
    var padded := PadSymmetric(image, padSize);
    output := new int[height, width]((_, _) => 0);
    for i := 0 to height
      invariant forall i', j' :: 0 <= i' < i && 0 <= j' < width ==>
        output[i', j'] == EdgeResponse(image, kernel, i', j')
    {
      for j := 0 to width
        invariant forall i', j' :: 0 <= i' < i && 0 <= j' < width ==>
          output[i', j'] == EdgeResponse(image, kernel, i', j')
        invariant forall j' :: 0 <= j' < j ==> output[i, j'] == EdgeResponse(image, kernel, i, j')
      {
        WindowInside(image, kernel, i, j);
        output[i, j] := Correlate(padded, kernel, i, j);
      }
    }
  }

  /** The filter is linear in the kernel: negating the kernel negates every
      output sample. */
  lemma NegatedKernel(image: Grid, kernel: Grid, i: nat, j: nat)
    requires SymmetricDomain(image, kernel) && i < |image| && j < Width(image)
    ensures SymmetricDomain(image, Neg(kernel))
    ensures EdgeResponse(image, Neg(kernel), i, j) == -EdgeResponse(image, kernel, i, j)
  {
    CorrelateNeg(PadSymmetric(image, |kernel| / 2), kernel, i, j);
  }

  /** A flat image of value v gives v times the kernel sum everywhere. */
  lemma ConstantImage(image: Grid, kernel: Grid, v: int, i: nat, j: nat)
    requires SymmetricDomain(image, kernel) && i < |image| && j < Width(image)
    requires Constant(image, v)
    ensures EdgeResponse(image, kernel, i, j) == v * KernelSum(kernel)
  {
    var p := |kernel| / 2;
    PadSymmetricConstant(image, p, v);
    CorrelateConstant(PadSymmetric(image, p), kernel, i, j, v);
  }

  /** Both Sobel kernels sum to zero, so a flat image (the all-zero image
      among them) has no edges anywhere. */
  lemma SobelFlatImage(image: Grid, v: int, i: nat, j: nat)
    requires Rect(image) && i < |image| && j < Width(image) && Constant(image, v)
    ensures SymmetricDomain(image, SobelX) && SymmetricDomain(image, SobelY)
    ensures EdgeResponse(image, SobelX, i, j) == 0
    ensures EdgeResponse(image, SobelY, i, j) == 0
  {
    var k := GetSobelKernels();
    ConstantImage(image, SobelX, v, i, j);
    ConstantImage(image, SobelY, v, i, j);
  }

  // ---------------------------------------------------------------------
  // normalize_edges
  // ---------------------------------------------------------------------

  /** The samples of a two-dimensional array in row-major order. */
  function Flatten(g: seq<seq<real>>): (s: seq<real>)
    ensures forall y, x :: 0 <= y < |g| && 0 <= x < |g[y]| ==> g[y][x] in s
    ensures forall e :: e in s ==> exists y, x :: 0 <= y < |g| && 0 <= x < |g[y]| && g[y][x] == e
  {
    if g == [] then []
    else
      var front := g[..|g| - 1];
      var s := Flatten(front) + g[|g| - 1];
      assert forall y, x :: 0 <= y < |front| && 0 <= x < |front[y]| ==> front[y][x] == g[y][x];
      s
  }

  /** edges.min() */
  function MinOf(s: seq<real>): (m: real)
    requires |s| > 0
    ensures m in s && forall e :: e in s ==> m <= e
  {
    if |s| == 1 then s[0]
    else
      var rest := MinOf(s[1..]);
      assert forall e :: e in s ==> e == s[0] || e in s[1..];
      if s[0] <= rest then s[0] else rest
  }

  /** edges.max() */
  function MaxOf(s: seq<real>): (m: real)
    requires |s| > 0
    ensures m in s && forall e :: e in s ==> e <= m
  {
    if |s| == 1 then s[0]
    else
      var rest := MaxOf(s[1..]);
      assert forall e :: e in s ==> e == s[0] || e in s[1..];
      if s[0] >= rest then s[0] else rest
  }

  /** One sample: rescale [lo, hi] to [0, 1], multiply by the sensitivity,
      clip to [0, 1], scale to [0, 255] and truncate (astype(np.uint8)). */
  function NormalizeSample(e: real, lo: real, hi: real, sensitivity: real): (r: int)
    requires lo < hi
    ensures 0 <= r <= 255
  {
    var c := Clip01((e - lo) / (hi - lo) * sensitivity);
    (c * 255.0).Floor
  }

  /** np.clip(t, 0, 1) */
  function Clip01(t: real): (c: real)
    ensures 0.0 <= c <= 1.0
    ensures 0.0 <= t <= 1.0 ==> c == t
    ensures t < 0.0 ==> c == 0.0
    ensures t > 1.0 ==> c == 1.0
  {
    if t < 0.0 then 0.0 else if t > 1.0 then 1.0 else t
  }

  /** With sensitivity 1.0 the smallest edge strength maps to 0 and the
      largest to 255. */
  lemma NormalizeExtremes(lo: real, hi: real)
    requires lo < hi
    ensures NormalizeSample(lo, lo, hi, 1.0) == 0
    ensures NormalizeSample(hi, lo, hi, 1.0) == 255
  {
    assert (hi - lo) / (hi - lo) == 1.0;
    assert (lo - lo) / (hi - lo) == 0.0;
  }

  /** normalize_edges. The division by max - min puts a flat input outside
      its domain. */
  function NormalizeEdges(edges: seq<seq<real>>, sensitivity: real): (r: seq<seq<int>>)
    requires Flatten(edges) != [] && MinOf(Flatten(edges)) < MaxOf(Flatten(edges))
    ensures |r| == |edges| && forall y :: 0 <= y < |r| ==> |r[y]| == |edges[y]|
    ensures forall y, x :: 0 <= y < |r| && 0 <= x < |r[y]| ==> 0 <= r[y][x] <= 255
    ensures sensitivity == 1.0 ==> forall y, x :: 0 <= y < |r| && 0 <= x < |r[y]| ==>
      (edges[y][x] == MinOf(Flatten(edges)) ==> r[y][x] == 0) &&
      (edges[y][x] == MaxOf(Flatten(edges)) ==> r[y][x] == 255)
  {
    var lo, hi := MinOf(Flatten(edges)), MaxOf(Flatten(edges));
    NormalizeExtremes(lo, hi);
    seq(|edges|, y requires 0 <= y < |edges| =>
      seq(|edges[y]|, x requires 0 <= x < |edges[y]| => NormalizeSample(edges[y][x], lo, hi, sensitivity)))
  }

  /** With a non-negative sensitivity the rescaling keeps the order of edge
      strengths. */
  lemma NormalizeMonotone(e1: real, e2: real, lo: real, hi: real, sensitivity: real)
    requires lo < hi && e1 <= e2 && 0.0 <= sensitivity
    ensures NormalizeSample(e1, lo, hi, sensitivity) <= NormalizeSample(e2, lo, hi, sensitivity)
  {
    var d := hi - lo;
    assert (e1 - lo) / d <= (e2 - lo) / d by {
      assert (e2 - lo) / d - (e1 - lo) / d == (e2 - e1) / d;
    }
    var t1 := (e1 - lo) / d * sensitivity;
    var t2 := (e2 - lo) / d * sensitivity;
    assert t1 <= t2;
    var c1, c2 := Clip01(t1), Clip01(t2);
    assert c1 <= c2;
    assert c1 * 255.0 <= c2 * 255.0;
  }
}
