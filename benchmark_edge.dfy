/** The benchmark's reference filter old_convolution: the same symmetric
    padding and nested loop as apply_convolution, but the kernel is flipped
    on both axes before each window sum, so it computes a true convolution. */
module BenchmarkEdge {
  import opened Images
  import opened Windows
  import opened EdgeHelpers

  /** output[i, j] of old_convolution: the convolution of the
      symmetric-padded image with the kernel at (i, j). */
  function OldResponse(image: Grid, kernel: Grid, i: nat, j: nat): int
    requires SymmetricDomain(image, kernel) && i < |image| && j < Width(image)
  {
    WindowInside(image, kernel, i, j);
    Convolve(PadSymmetric(image, |kernel| / 2), kernel, i, j)
  }

  /** old_convolution flips the kernel once per pixel and correlates the
      window with the flipped kernel. */
  method OldConvolution(image: Grid, kernel: Grid) returns (output: array2<int>)
    requires SymmetricDomain(image, kernel)
    ensures fresh(output)
    ensures output.Length0 == |image| && output.Length1 == Width(image)
    ensures forall i, j :: 0 <= i < output.Length0 && 0 <= j < output.Length1 ==>
      output[i, j] == OldResponse(image, kernel, i, j)
  {
    var height, width := |image|, Width(image);
    var kernelSize := |kernel|;
    var padSize := kernelSize / 2;
    var padded := PadSymmetric(image, padSize);
    output := new int[height, width]((_, _) => 0);
    for i := 0 to height
      invariant forall i', j' :: 0 <= i' < i && 0 <= j' < width ==>
        output[i', j'] == OldResponse(image, kernel, i', j')
    {
      for j := 0 to width
        invariant forall i', j' :: 0 <= i' < i && 0 <= j' < width ==>
          output[i', j'] == OldResponse(image, kernel, i', j')
        invariant forall j' :: 0 <= j' < j ==> output[i, j'] == OldResponse(image, kernel, i, j')
      {
        WindowInside(image, kernel, i, j);
        var flipped := Flip(kernel);
        CorrelateFlip(padded, kernel, i, j);
        output[i, j] := Correlate(padded, flipped, i, j);
      }
    }
  }

  /** old_convolution is apply_convolution run on the doubly flipped kernel. */
  lemma OldIsApplyOfFlipped(image: Grid, kernel: Grid, i: nat, j: nat)
    requires SymmetricDomain(image, kernel) && i < |image| && j < Width(image)
    ensures SymmetricDomain(image, Flip(kernel))
    ensures OldResponse(image, kernel, i, j) == EdgeResponse(image, Flip(kernel), i, j)
  {
    WindowInside(image, kernel, i, j);
    CorrelateFlip(PadSymmetric(image, |kernel| / 2), kernel, i, j);
  }

  /** The horizontal Sobel kernel is antisymmetric about its centre. */
  lemma FlipSobelX()
    ensures Flip(SobelX) == Neg(SobelX)
  {
    var f, n := Flip(SobelX), Neg(SobelX);
    assert f[0] == n[0] && f[1] == n[1] && f[2] == n[2];
  }

  /** So on sobel_x, the kernel the benchmark times, old_convolution
      returns the negation of apply_convolution at every pixel. */
  lemma OldSobelIsNegated(image: Grid, i: nat, j: nat)
    requires SymmetricDomain(image, SobelX) && i < |image| && j < Width(image)
    ensures OldResponse(image, SobelX, i, j) == -EdgeResponse(image, SobelX, i, j)
  {
    OldIsApplyOfFlipped(image, SobelX, i, j);
    FlipSobelX();
    NegatedKernel(image, SobelX, i, j);
  }
}
