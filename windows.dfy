/** The arithmetic shared by the three sliding-window filters of the
    repository: numpy's 'symmetric' and 'reflect' boundary padding, the
    window sum of a padded grid against a kernel (correlation: the kernel is
    not flipped), the double flip that turns it into a true convolution, and
    the facts about them that the filters rely on. */
module Windows {
  import opened Images

  // ---------------------------------------------------------------------
  // Padding index maps: padded position k of an axis of length n padded by
  // p on both sides reads input position ...Index(n, p, k).
  // ---------------------------------------------------------------------

  /** numpy mode 'symmetric': the mirror includes the edge sample. Only one
      reflection is modelled, hence p <= n. */
  function SymmetricIndex(n: nat, p: nat, k: nat): (r: nat)
    requires p <= n && k < n + 2 * p
    ensures r < n
  {
    if k < p then p - 1 - k
    else if k < n + p then k - p
    else 2 * n + p - 1 - k
  }

  /** numpy mode 'reflect': the mirror is centred on the edge sample, which
      is not repeated. Only one reflection is modelled, hence p < n. */
  function ReflectIndex(n: nat, p: nat, k: nat): (r: nat)
    requires p == 0 || p < n
    requires k < n + 2 * p
    ensures r < n
  {
    if k < p then p - k
    else if k < n + p then k - p
    else 2 * n + p - 2 - k
  }

  /** The two maps differ exactly in whether the border sample is doubled:
      symmetric padding mirrors about the gap between positions p-1 and p,
      reflect padding mirrors about position p itself. */
  lemma PaddingMirrors(n: nat, p: nat, k: nat)
    requires 0 < p < n && k < p
    ensures SymmetricIndex(n, p, k) == SymmetricIndex(n, p, 2 * p - 1 - k)
    ensures ReflectIndex(n, p, k) == ReflectIndex(n, p, 2 * p - k)
    ensures SymmetricIndex(n, p, n + 2 * p - 1 - k) == SymmetricIndex(n, p, n + k)
    ensures ReflectIndex(n, p, n + 2 * p - 1 - k) == ReflectIndex(n, p, n + k - 1)
    ensures SymmetricIndex(n, p, p - 1) == 0 && ReflectIndex(n, p, p - 1) == 1
  {
  }

  // ---------------------------------------------------------------------
  // Padded grids
  // ---------------------------------------------------------------------

  /** np.pad(g, p, mode='symmetric') of a two-dimensional array. */
  function PadSymmetric(g: Grid, p: nat): (r: Grid)
    requires Rect(g) && p <= |g| && p <= Width(g)
    ensures Rect(r) && |r| == |g| + 2 * p && Width(r) == Width(g) + 2 * p
    ensures forall k, l :: 0 <= k < |r| && 0 <= l < |r[k]| ==>
      r[k][l] == g[SymmetricIndex(|g|, p, k)][SymmetricIndex(Width(g), p, l)]
  {
    SymmetricRows(g, p, |g| + 2 * p)
  }

  /** The first m rows of the symmetric-padded grid. */
  function SymmetricRows(g: Grid, p: nat, m: nat): (r: Grid)
    requires Rect(g) && p <= |g| && p <= Width(g) && m <= |g| + 2 * p
    ensures |r| == m && forall k :: 0 <= k < m ==> |r[k]| == Width(g) + 2 * p
    ensures forall k, l :: 0 <= k < m && 0 <= l < Width(g) + 2 * p ==>
      r[k][l] == g[SymmetricIndex(|g|, p, k)][SymmetricIndex(Width(g), p, l)]
  {
    if m == 0 then []
    else
      var row := g[SymmetricIndex(|g|, p, m - 1)];
      SymmetricRows(g, p, m - 1) +
        [seq(Width(g) + 2 * p, l requires 0 <= l < Width(g) + 2 * p => row[SymmetricIndex(Width(g), p, l)])]
  }

  /** np.pad(g, ((ph, ph), (pw, pw)), mode='reflect') of a two-dimensional array. */
  function PadReflect(g: Grid, ph: nat, pw: nat): (r: Grid)
    requires Rect(g) && (ph == 0 || ph < |g|) && (pw == 0 || pw < Width(g))
    ensures Rect(r) && |r| == |g| + 2 * ph && Width(r) == Width(g) + 2 * pw
    ensures forall k, l :: 0 <= k < |r| && 0 <= l < |r[k]| ==>
      r[k][l] == g[ReflectIndex(|g|, ph, k)][ReflectIndex(Width(g), pw, l)]
  {
    ReflectRows(g, ph, pw, |g| + 2 * ph)
  }

  /** The first m rows of the reflect-padded grid. */
  function ReflectRows(g: Grid, ph: nat, pw: nat, m: nat): (r: Grid)
    requires Rect(g) && (ph == 0 || ph < |g|) && (pw == 0 || pw < Width(g)) && m <= |g| + 2 * ph
    ensures |r| == m && forall k :: 0 <= k < m ==> |r[k]| == Width(g) + 2 * pw
    ensures forall k, l :: 0 <= k < m && 0 <= l < Width(g) + 2 * pw ==>
      r[k][l] == g[ReflectIndex(|g|, ph, k)][ReflectIndex(Width(g), pw, l)]
  {
    if m == 0 then []
    else
      var row := g[ReflectIndex(|g|, ph, m - 1)];
      ReflectRows(g, ph, pw, m - 1) +
        [seq(Width(g) + 2 * pw, l requires 0 <= l < Width(g) + 2 * pw => row[ReflectIndex(Width(g), pw, l)])]
  }

  /** Both paddings keep the input unchanged in the interior. */
  lemma PaddedInterior(g: Grid, ph: nat, pw: nat, y: nat, x: nat)
    requires Rect(g) && y < |g| && x < Width(g)
    ensures ph == pw && ph <= |g| && ph <= Width(g) ==> PadSymmetric(g, ph)[y + ph][x + ph] == g[y][x]
    ensures (ph == 0 || ph < |g|) && (pw == 0 || pw < Width(g)) ==> PadReflect(g, ph, pw)[y + ph][x + pw] == g[y][x]
  {
    if ph == pw && ph <= |g| && ph <= Width(g) {
      var r := PadSymmetric(g, ph);
      assert SymmetricIndex(|g|, ph, y + ph) == y && SymmetricIndex(Width(g), ph, x + ph) == x;
      assert r[y + ph][x + ph] == g[y][x];
    }
    if (ph == 0 || ph < |g|) && (pw == 0 || pw < Width(g)) {
      var r := PadReflect(g, ph, pw);
      assert ReflectIndex(|g|, ph, y + ph) == y && ReflectIndex(Width(g), pw, x + pw) == x;
      assert r[y + ph][x + pw] == g[y][x];
    }
  }

  /** Padding brings in no new sample values. */
  lemma PadSymmetricConstant(g: Grid, p: nat, v: int)
    requires Rect(g) && p <= |g| && p <= Width(g) && Constant(g, v)
    ensures Constant(PadSymmetric(g, p), v)
  {
    var r := PadSymmetric(g, p);
    forall y, x | 0 <= y < |r| && 0 <= x < |r[y]| ensures r[y][x] == v {
      assert r[y][x] == g[SymmetricIndex(|g|, p, y)][SymmetricIndex(Width(g), p, x)];
    }
  }

  lemma PadReflectConstant(g: Grid, ph: nat, pw: nat, v: int)
    requires Rect(g) && (ph == 0 || ph < |g|) && (pw == 0 || pw < Width(g)) && Constant(g, v)
    ensures Constant(PadReflect(g, ph, pw), v)
  {
    var r := PadReflect(g, ph, pw);
    forall y, x | 0 <= y < |r| && 0 <= x < |r[y]| ensures r[y][x] == v {
      assert r[y][x] == g[ReflectIndex(|g|, ph, y)][ReflectIndex(Width(g), pw, x)];
    }
  }

  // ---------------------------------------------------------------------
  // Window sums: np.sum(padded[i:i+kh, j:j+kw] * kernel)
  // ---------------------------------------------------------------------

  /** The kernel placed with its top-left corner at (i, j) lies inside P. */
  predicate Fits(P: Grid, K: Grid, i: nat, j: nat) {
    Rect(P) && Rect(K) && i + |K| <= |P| && j + Width(K) <= Width(P)
  }

  /** Sum over b < n of P[i+a][j+b] * K[a][b]: one kernel row. */
  function RowSum(P: Grid, K: Grid, i: nat, j: nat, a: nat, n: nat): int
    requires Fits(P, K, i, j) && a < |K| && n <= Width(K)
  {
    if n == 0 then 0
    else RowSum(P, K, i, j, a, n - 1) + P[i + a][j + n - 1] * K[a][n - 1]
  }

  /** Sum of the first m kernel rows. */
  function WindowSum(P: Grid, K: Grid, i: nat, j: nat, m: nat): int
    requires Fits(P, K, i, j) && m <= |K|
  {
    if m == 0 then 0
    else WindowSum(P, K, i, j, m - 1) + RowSum(P, K, i, j, m - 1, Width(K))
  }

  /** The correlation of P with K at (i, j): the kernel is not flipped. */
  function Correlate(P: Grid, K: Grid, i: nat, j: nat): int
    requires Fits(P, K, i, j)
  {
    WindowSum(P, K, i, j, |K|)
  }

  // ---------------------------------------------------------------------
  // Kernel sums, negation and flipping
  // ---------------------------------------------------------------------

  function RowTotal(K: Grid, a: nat, n: nat): int
    requires a < |K| && n <= |K[a]|
  {
    if n == 0 then 0 else RowTotal(K, a, n - 1) + K[a][n - 1]
  }

  function Total(K: Grid, m: nat): int
    requires Rect(K) && m <= |K|
  {
    if m == 0 then 0 else Total(K, m - 1) + RowTotal(K, m - 1, Width(K))
  }

  /** Sum of all kernel entries. */
  function KernelSum(K: Grid): int
    requires Rect(K)
  {
    Total(K, |K|)
  }

  /** The kernel with every entry negated. */
  function Neg(K: Grid): (r: Grid)
    requires Rect(K)
    ensures Rect(r) && |r| == |K| && Width(r) == Width(K)
    ensures forall a, b :: 0 <= a < |K| && 0 <= b < Width(K) ==> r[a][b] == -K[a][b]
  {
    seq(|K|, a requires 0 <= a < |K| => seq(Width(K), b requires 0 <= b < Width(K) => -K[a][b]))
  }

  /** np.flipud(np.fliplr(K)): the kernel turned by half a revolution. */
  function Flip(K: Grid): (r: Grid)
    requires Rect(K)
    ensures Rect(r) && |r| == |K| && Width(r) == Width(K)
    ensures forall a, b :: 0 <= a < |K| && 0 <= b < Width(K) ==>
      r[a][b] == K[|K| - 1 - a][Width(K) - 1 - b]
  {
    seq(|K|, a requires 0 <= a < |K| =>
      seq(Width(K), b requires 0 <= b < Width(K) => K[|K| - 1 - a][Width(K) - 1 - b]))
  }

  /** The transpose of a kernel. */
  function Transpose(K: Grid): (r: Grid)
    requires Rect(K)
    ensures Rect(r) && |r| == Width(K) && (|r| > 0 ==> Width(r) == |K|)
    ensures forall a, b :: 0 <= a < Width(K) && 0 <= b < |K| ==> r[a][b] == K[b][a]
  {
    seq(Width(K), a requires 0 <= a < Width(K) => seq(|K|, b requires 0 <= b < |K| => K[b][a]))
  }

  /** Flipping twice gives back the kernel: the double flip is an involution. */
  lemma FlipInvolution(K: Grid)
    requires Rect(K)
    ensures Flip(Flip(K)) == K
  {
    var f := Flip(Flip(K));
    assert |f| == |K|;
    forall a | 0 <= a < |K| ensures f[a] == K[a] {
      assert |f[a]| == |K[a]|;
      forall b | 0 <= b < |K[a]| ensures f[a][b] == K[a][b] {
      }
    }
  }

  // ---------------------------------------------------------------------
  // Linearity in the kernel
  // ---------------------------------------------------------------------

  lemma {:induction false} RowSumNeg(P: Grid, K: Grid, i: nat, j: nat, a: nat, n: nat)
    requires Fits(P, K, i, j) && a < |K| && n <= Width(K)
    ensures Fits(P, Neg(K), i, j)
    ensures RowSum(P, Neg(K), i, j, a, n) == -RowSum(P, K, i, j, a, n)
  {
    if n > 0 {
      RowSumNeg(P, K, i, j, a, n - 1);
    }
  }

  lemma {:induction false} WindowSumNeg(P: Grid, K: Grid, i: nat, j: nat, m: nat)
    requires Fits(P, K, i, j) && m <= |K|
    ensures Fits(P, Neg(K), i, j)
    ensures WindowSum(P, Neg(K), i, j, m) == -WindowSum(P, K, i, j, m)
  {
    if m > 0 {
      WindowSumNeg(P, K, i, j, m - 1);
      RowSumNeg(P, K, i, j, m - 1, Width(K));
    }
  }

  /** Negating the kernel negates the correlation. */
  lemma CorrelateNeg(P: Grid, K: Grid, i: nat, j: nat)
    requires Fits(P, K, i, j)
    ensures Fits(P, Neg(K), i, j)
    ensures Correlate(P, Neg(K), i, j) == -Correlate(P, K, i, j)
  {
    WindowSumNeg(P, K, i, j, |K|);
  }

  // ---------------------------------------------------------------------
  // Flipped correlation is the textbook convolution
  // ---------------------------------------------------------------------

  /** Sum over b < n of P[i+a][j+b] * K[kh-1-a][kw-1-b]. */
  function FlippedRowSum(P: Grid, K: Grid, i: nat, j: nat, a: nat, n: nat): int
    requires Fits(P, K, i, j) && a < |K| && n <= Width(K)
  {
    if n == 0 then 0
    else FlippedRowSum(P, K, i, j, a, n - 1) + P[i + a][j + n - 1] * K[|K| - 1 - a][Width(K) - n]
  }

  function FlippedWindowSum(P: Grid, K: Grid, i: nat, j: nat, m: nat): int
    requires Fits(P, K, i, j) && m <= |K|
  {
    if m == 0 then 0
    else FlippedWindowSum(P, K, i, j, m - 1) + FlippedRowSum(P, K, i, j, m - 1, Width(K))
  }

  /** The convolution of P with K at (i, j): each window sample is weighted by
      the kernel entry mirrored through the kernel's centre. */
  function Convolve(P: Grid, K: Grid, i: nat, j: nat): int
    requires Fits(P, K, i, j)
  {
    FlippedWindowSum(P, K, i, j, |K|)
  }

  lemma {:induction false} RowSumFlip(P: Grid, K: Grid, i: nat, j: nat, a: nat, n: nat)
    requires Fits(P, K, i, j) && a < |K| && n <= Width(K)
    ensures Fits(P, Flip(K), i, j)
    ensures RowSum(P, Flip(K), i, j, a, n) == FlippedRowSum(P, K, i, j, a, n)
  {
    if n > 0 {
      RowSumFlip(P, K, i, j, a, n - 1);
    }
  }

  lemma {:induction false} WindowSumFlip(P: Grid, K: Grid, i: nat, j: nat, m: nat)
    requires Fits(P, K, i, j) && m <= |K|
    ensures Fits(P, Flip(K), i, j)
    ensures WindowSum(P, Flip(K), i, j, m) == FlippedWindowSum(P, K, i, j, m)
  {
    if m > 0 {
      WindowSumFlip(P, K, i, j, m - 1);
      RowSumFlip(P, K, i, j, m - 1, Width(K));
    }
  }

  /** Correlating with the doubly flipped kernel is convolving with the kernel. */
  lemma CorrelateFlip(P: Grid, K: Grid, i: nat, j: nat)
    requires Fits(P, K, i, j)
    ensures Fits(P, Flip(K), i, j)
    ensures Correlate(P, Flip(K), i, j) == Convolve(P, K, i, j)
  {
    WindowSumFlip(P, K, i, j, |K|);
  }

  // ---------------------------------------------------------------------
  // Constant input
  // ---------------------------------------------------------------------

  lemma {:induction false} RowSumConstant(P: Grid, K: Grid, i: nat, j: nat, a: nat, n: nat, v: int)
    requires Fits(P, K, i, j) && a < |K| && n <= Width(K) && Constant(P, v)
    ensures RowSum(P, K, i, j, a, n) == v * RowTotal(K, a, n)
  {
    if n > 0 {
      RowSumConstant(P, K, i, j, a, n - 1, v);
      assert P[i + a][j + n - 1] == v;
      calc {
        RowSum(P, K, i, j, a, n);
        v * RowTotal(K, a, n - 1) + v * K[a][n - 1];
        { assert v * RowTotal(K, a, n - 1) + v * K[a][n - 1] == v * (RowTotal(K, a, n - 1) + K[a][n - 1]); }
        v * RowTotal(K, a, n);
      }
    }
  }

  lemma {:induction false} WindowSumConstant(P: Grid, K: Grid, i: nat, j: nat, m: nat, v: int)
    requires Fits(P, K, i, j) && m <= |K| && Constant(P, v)
    ensures WindowSum(P, K, i, j, m) == v * Total(K, m)
  {
    if m > 0 {
      WindowSumConstant(P, K, i, j, m - 1, v);
      RowSumConstant(P, K, i, j, m - 1, Width(K), v);
      assert v * Total(K, m - 1) + v * RowTotal(K, m - 1, Width(K))
          == v * (Total(K, m - 1) + RowTotal(K, m - 1, Width(K)));
    }
  }

  /** A constant window of value v yields v times the kernel sum. */
  lemma CorrelateConstant(P: Grid, K: Grid, i: nat, j: nat, v: int)
    requires Fits(P, K, i, j) && Constant(P, v)
    ensures Correlate(P, K, i, j) == v * KernelSum(K)
  {
    WindowSumConstant(P, K, i, j, |K|, v);
  }
}
