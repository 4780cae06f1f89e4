/** add_salt_pepper_noise: a copy of the image is made, two masks are drawn
    over its height × width, and every channel of a masked pixel is set to
    255 (salt) and then to 0 (pepper). The two uniform draws in [0, 1) are
    parameters here: one real per pixel for each mask. */
module SaltPepperNoiseHelpers {
  import opened Images

  /** A grid of uniform draws covering the image's height and width. */
  predicate Covers(draws: seq<seq<real>>, h: nat, w: nat) {
    |draws| == h && forall y :: 0 <= y < h ==> |draws[y]| == w
  }

  /** np.random.random(size=image.shape[:2]) < (intensity / 2) */
  function Mask(draws: seq<seq<real>>, intensity: real): (m: seq<seq<bool>>)
    ensures |m| == |draws| && forall y :: 0 <= y < |m| ==> |m[y]| == |draws[y]|
    ensures forall y, x :: 0 <= y < |m| && 0 <= x < |m[y]| ==> (m[y][x] <==> draws[y][x] < intensity / 2.0)
  {
    seq(|draws|, y requires 0 <= y < |draws| =>
      seq(|draws[y]|, x requires 0 <= x < |draws[y]| => draws[y][x] < intensity / 2.0))
  }

  /** Height and width of either kind of image. */
  function Height(image: Image): nat {
    match image
    case Gray(g) => |g|
    case Color(v) => |v|
  }

  function ImageWidth(image: Image): nat {
    match image
    case Gray(g) => Width(g)
    case Color(v) => Width(v)
  }

  /** Both masks have the shape of a grid of height h and width w. */
  predicate MasksFit(salt: seq<seq<bool>>, pepper: seq<seq<bool>>, h: nat, w: nat) {
    |salt| == h && |pepper| == h &&
    (forall y :: 0 <= y < h ==> |salt[y]| == w) && (forall y :: 0 <= y < h ==> |pepper[y]| == w)
  }

  /** What the two masked assignments leave in one sample: pepper is written
      last, so it wins over salt. */
  function Noisy(sample: int, salt: bool, pepper: bool): int {
    if pepper then 0 else if salt then 255 else sample
  }

  /** The grayscale branch, pixel by pixel. */
  function SaltPepperGrid(g: Grid, salt: seq<seq<bool>>, pepper: seq<seq<bool>>): (r: Grid)
    requires Rect(g) && MasksFit(salt, pepper, |g|, Width(g))
    ensures Rect(r) && |r| == |g| && Width(r) == Width(g)
    ensures forall y, x :: 0 <= y < |g| && 0 <= x < Width(g) ==>
      (pepper[y][x] ==> r[y][x] == 0) &&
      (salt[y][x] && !pepper[y][x] ==> r[y][x] == 255) &&
      (!salt[y][x] && !pepper[y][x] ==> r[y][x] == g[y][x])
  {
    seq(|g|, y requires 0 <= y < |g| =>
      seq(Width(g), x requires 0 <= x < Width(g) => Noisy(g[y][x], salt[y][x], pepper[y][x])))
  }

  /** The colour branch: every channel of a pixel follows the same masks. */
  function SaltPepperVolume(v: Volume, salt: seq<seq<bool>>, pepper: seq<seq<bool>>): (r: Volume)
    requires Box(v) && MasksFit(salt, pepper, |v|, Width(v))
    ensures Box(r) && |r| == |v| && Width(r) == Width(v) && Depth(r) == Depth(v)
    ensures forall y, x, c :: 0 <= y < |v| && 0 <= x < Width(v) && 0 <= c < Depth(v) ==>
      (pepper[y][x] ==> r[y][x][c] == 0) &&
      (salt[y][x] && !pepper[y][x] ==> r[y][x][c] == 255) &&
      (!salt[y][x] && !pepper[y][x] ==> r[y][x][c] == v[y][x][c])
  {
    var r := seq(|v|, y requires 0 <= y < |v| =>
      seq(Width(v), x requires 0 <= x < Width(v) =>
        seq(Depth(v), c requires 0 <= c < Depth(v) => Noisy(v[y][x][c], salt[y][x], pepper[y][x]))));
    assert |r| > 0 && |r[0]| > 0 ==> Depth(r) == Depth(v);
    r
  }

  /** The noisy image the function returns. */
  function SaltPepper(image: Image, salt: seq<seq<bool>>, pepper: seq<seq<bool>>): (r: Image)
    requires Valid(image) && MasksFit(salt, pepper, Height(image), ImageWidth(image))
    ensures Valid(r) && r.Gray? == image.Gray?
  {
    match image
    case Gray(g) => Gray(SaltPepperGrid(g, salt, pepper))
    case Color(v) => Color(SaltPepperVolume(v, salt, pepper))
  }

  /** add_salt_pepper_noise: both masks are drawn over the image's height
      and width, then the branch on the number of dimensions. */
  method AddSaltPepperNoise(image: Image, intensity: real, saltDraws: seq<seq<real>>, pepperDraws: seq<seq<real>>)
    returns (noisy: Image)
    requires Valid(image)
    requires Covers(saltDraws, Height(image), ImageWidth(image))
    requires Covers(pepperDraws, Height(image), ImageWidth(image))
    ensures noisy == SaltPepper(image, Mask(saltDraws, intensity), Mask(pepperDraws, intensity))
  {
    var salt := Mask(saltDraws, intensity);
    var pepper := Mask(pepperDraws, intensity);
    match image
    case Color(v) =>
      var r := NoiseColor(v, salt, pepper);
      noisy := Color(r);
    case Gray(g) =>
      var r := NoiseGray(g, salt, pepper);
      noisy := Gray(r);
  }

  /** The colour branch: a copy of the volume, then for each channel the
      salt pixels set to 255 and the pepper pixels set to 0. */
  method NoiseColor(v: Volume, salt: seq<seq<bool>>, pepper: seq<seq<bool>>) returns (r: Volume)
    requires Box(v) && MasksFit(salt, pepper, |v|, Width(v))
    ensures r == SaltPepperVolume(v, salt, pepper)
  {
    var h, w, d := |v|, Width(v), Depth(v);
    var noisy := new int[h, w, d]((y, x, c) requires 0 <= y < h && 0 <= x < w && 0 <= c < d => v[y][x][c]);
    for i := 0 to d
      invariant forall y, x, c :: 0 <= y < h && 0 <= x < w && 0 <= c < d ==>
        noisy[y, x, c] == if c < i then Noisy(v[y][x][c], salt[y][x], pepper[y][x]) else v[y][x][c]
    {
      forall y, x | 0 <= y < h && 0 <= x < w && salt[y][x] {
        noisy[y, x, i] := 255;
      }
      forall y, x | 0 <= y < h && 0 <= x < w && pepper[y][x] {
        noisy[y, x, i] := 0;
      }
    }
    r := seq(h, y requires 0 <= y < h reads noisy =>
      seq(w, x requires 0 <= x < w reads noisy =>
        seq(d, c requires 0 <= c < d reads noisy => noisy[y, x, c])));
    var expected := SaltPepperVolume(v, salt, pepper);
    forall y | 0 <= y < h ensures r[y] == expected[y] {
      forall x | 0 <= x < w ensures r[y][x] == expected[y][x] {
        assert |expected[y][x]| == d;
      }
    }
  }

  /** The grayscale branch: a copy of the grid, the salt pixels set to 255,
      then the pepper pixels set to 0. */
  method NoiseGray(g: Grid, salt: seq<seq<bool>>, pepper: seq<seq<bool>>) returns (r: Grid)
    requires Rect(g) && MasksFit(salt, pepper, |g|, Width(g))
    ensures r == SaltPepperGrid(g, salt, pepper)
  {
    var h, w := |g|, Width(g);
    var noisy := new int[h, w]((y, x) requires 0 <= y < h && 0 <= x < w => g[y][x]);
    forall y, x | 0 <= y < h && 0 <= x < w && salt[y][x] {
      noisy[y, x] := 255;
    }
    forall y, x | 0 <= y < h && 0 <= x < w && pepper[y][x] {
      noisy[y, x] := 0;
    }
    assert forall y, x :: 0 <= y < h && 0 <= x < w ==> noisy[y, x] == Noisy(g[y][x], salt[y][x], pepper[y][x]);
    r := seq(h, y requires 0 <= y < h reads noisy =>
      seq(w, x requires 0 <= x < w reads noisy => noisy[y, x]));
    var expected := SaltPepperGrid(g, salt, pepper);
    forall y | 0 <= y < h ensures r[y] == expected[y] {
      assert |expected[y]| == w;
    }
  }

  /** With intensity 0 no draw in [0, 1) falls below 0, both masks are empty
      and the noisy image equals the input. */
  lemma ZeroIntensity(image: Image, saltDraws: seq<seq<real>>, pepperDraws: seq<seq<real>>)
    requires Valid(image)
    requires Covers(saltDraws, Height(image), ImageWidth(image))
    requires Covers(pepperDraws, Height(image), ImageWidth(image))
    requires forall y, x :: 0 <= y < |saltDraws| && 0 <= x < |saltDraws[y]| ==> 0.0 <= saltDraws[y][x] < 1.0
    requires forall y, x :: 0 <= y < |pepperDraws| && 0 <= x < |pepperDraws[y]| ==> 0.0 <= pepperDraws[y][x] < 1.0
    ensures SaltPepper(image, Mask(saltDraws, 0.0), Mask(pepperDraws, 0.0)) == image
  {
    var r := SaltPepper(image, Mask(saltDraws, 0.0), Mask(pepperDraws, 0.0));
    match image
    case Gray(g) =>
      assert r.grid == g by {
        forall y | 0 <= y < |g| ensures r.grid[y] == g[y] {
          assert |r.grid[y]| == |g[y]|;
        }
      }
    case Color(v) =>
      assert r.volume == v by {
        forall y | 0 <= y < |v| ensures r.volume[y] == v[y] {
          assert |r.volume[y]| == |v[y]|;
          forall x | 0 <= x < |v[y]| ensures r.volume[y][x] == v[y][x] {
            assert |r.volume[y][x]| == |v[y][x]|;
          }
        }
      }
  }

  /** Noise keeps a byte image a byte image. */
  lemma StaysInByteRange(image: Image, salt: seq<seq<bool>>, pepper: seq<seq<bool>>)
    requires Valid(image) && InByteRange(image)
    requires MasksFit(salt, pepper, Height(image), ImageWidth(image))
    ensures InByteRange(SaltPepper(image, salt, pepper))
  {
    var r := SaltPepper(image, salt, pepper);
    match image
    case Gray(g) =>
      forall y, x | 0 <= y < |r.grid| && 0 <= x < |r.grid[y]| ensures 0 <= r.grid[y][x] <= 255 {
        assert |r.grid[y]| == Width(g) && |g[y]| == Width(g);
      }
    case Color(v) =>
      forall y, x, c | 0 <= y < |r.volume| && 0 <= x < |r.volume[y]| && 0 <= c < |r.volume[y][x]|
        ensures 0 <= r.volume[y][x][c] <= 255
      {
        assert |r.volume[y]| == Width(v) && |v[y]| == Width(v);
      }
  }
}
