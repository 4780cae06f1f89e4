/** The filter classes. None of them changes its fields after construction,
    so a filter is a value: the closed set of the three classes is one
    datatype, and `apply` dispatches on the variant as the overriding
    methods do. Brightness factors are in tenths, as in BrightnessHelpers. */
module Filters {
  import opened Images
  import BrightnessHelpers

  datatype Filter =
    | ImageFilter(name: string)                                // the base class
    | BrightnessFilter(name: string, levels: map<int, nat>)   // levels: factor in tenths per level
    | GrayscaleFilter(name: string)

  /** BrightnessFilter(): the name "Brightness" and the nine-entry table. */
  function NewBrightnessFilter(): (f: Filter)
    ensures f.BrightnessFilter? && f.name == "Brightness"
    ensures f.levels.Keys == {-4, -3, -2, -1, 0, 1, 2, 3, 4}
  {
    var f := BrightnessFilter("Brightness",
      map[-4 := 2, -3 := 3, -2 := 5, -1 := 7, 0 := 10, 1 := 13, 2 := 16, 3 := 19, 4 := 22]);
    f
  }

  function NewGrayscaleFilter(): (f: Filter)
    ensures f.GrayscaleFilter? && f.name == "Grayscale"
  {
    GrayscaleFilter("Grayscale")
  }

  /** get_name */
  function GetName(f: Filter): (r: string)
    ensures f.BrightnessFilter? && f == NewBrightnessFilter() ==> r == "Brightness"
    ensures f.GrayscaleFilter? && f == NewGrayscaleFilter() ==> r == "Grayscale"
  {
    f.name
  }

  // ---------------------------------------------------------------------
  // BrightnessFilter.apply
  // ---------------------------------------------------------------------

  /** np.clip(v * factor, 0, 255).astype(np.uint8) on one sample, with the
      factor in tenths: clip the exact product to [0, 255], then truncate. */
  function ScaleSample(v: int, factor: nat): (r: int)
    ensures 0 <= r <= 255
    ensures v * factor <= 0 ==> r == 0
    ensures v * factor >= 2550 ==> r == 255
    ensures 0 < v * factor < 2550 ==> r * 10 <= v * factor < r * 10 + 10
  {
    var t := v * factor;
    if t <= 0 then 0 else if t >= 2550 then 255 else t / 10
  }

  /** The scaling applied to every sample of an image. */
  function ScaleImage(image: Image, factor: nat): (r: Image)
    requires Valid(image)
    ensures Valid(r) && InByteRange(r)
    ensures image.Gray? ==> r.Gray? && |r.grid| == |image.grid| && Width(r.grid) == Width(image.grid)
    ensures image.Gray? ==> forall y, x :: 0 <= y < |image.grid| && 0 <= x < Width(image.grid) ==>
      r.grid[y][x] == ScaleSample(image.grid[y][x], factor)
    ensures image.Color? ==> r.Color? && |r.volume| == |image.volume| && Width(r.volume) == Width(image.volume)
    ensures image.Color? ==> Depth(r.volume) == Depth(image.volume)
    ensures image.Color? ==> forall y, x, c ::
      0 <= y < |image.volume| && 0 <= x < Width(image.volume) && 0 <= c < Depth(image.volume) ==>
      r.volume[y][x][c] == ScaleSample(image.volume[y][x][c], factor)
  {
    match image
    case Gray(g) =>
      Gray(seq(|g|, y requires 0 <= y < |g| =>
        seq(Width(g), x requires 0 <= x < Width(g) => ScaleSample(g[y][x], factor))))
    case Color(v) =>
      var w := seq(|v|, y requires 0 <= y < |v| =>
        seq(Width(v), x requires 0 <= x < Width(v) =>
          seq(Depth(v), c requires 0 <= c < Depth(v) => ScaleSample(v[y][x][c], factor))));
      assert |w| > 0 && |w[0]| > 0 ==> Depth(w) == Depth(v);
      Color(w)
  }

  // ---------------------------------------------------------------------
  // GrayscaleFilter.apply
  // ---------------------------------------------------------------------

  /** np.dot of the first three samples with (0.299, 0.587, 0.114), in
      thousandths, truncated by astype(np.uint8). The weights go to stored
      channels 0, 1, 2 in that order. */
  function Luma(c0: int, c1: int, c2: int): (l: int)
    ensures 0 <= c0 <= 255 && 0 <= c1 <= 255 && 0 <= c2 <= 255 ==> 0 <= l <= 255
  {
    (299 * c0 + 587 * c1 + 114 * c2) / 1000
  }

  /** np.stack([grayscale] * 3, axis=-1) of np.dot(image[..., :3], weights).
      On a volume the dot runs over the first three channels and needs at
      least three of them. On a two-dimensional array the slice and the dot
      run over the columns instead, which needs at least three columns and
      leaves one value per row, stacked into a height × 3 array. */
  function GrayscaleApply(image: Image): (r: Result<Image>)
    requires Valid(image)
    ensures r.Err? <==> (image.Color? && Depth(image.volume) < 3) || (image.Gray? && Width(image.grid) < 3)
    ensures r.Err? ==> r.error == ShapeMismatch
    ensures r.Ok? && image.Color? ==> r.value.Color? && Box(r.value.volume)
    ensures r.Ok? && image.Color? ==> |r.value.volume| == |image.volume| && Width(r.value.volume) == Width(image.volume)
    ensures r.Ok? && image.Color? ==> forall y, x :: 0 <= y < |image.volume| && 0 <= x < Width(image.volume) ==>
      var p := image.volume[y][x];
      r.value.volume[y][x] == [Luma(p[0], p[1], p[2]), Luma(p[0], p[1], p[2]), Luma(p[0], p[1], p[2])]
    ensures r.Ok? && image.Gray? ==> r.value.Gray? && Rect(r.value.grid)
    ensures r.Ok? && image.Gray? ==> |r.value.grid| == |image.grid| && Width(r.value.grid) == 3
    ensures r.Ok? && image.Gray? ==> forall y :: 0 <= y < |image.grid| ==>
      var row := image.grid[y];
      r.value.grid[y] == [Luma(row[0], row[1], row[2]), Luma(row[0], row[1], row[2]), Luma(row[0], row[1], row[2])]
  {
    match image
    case Color(v) =>
      if Depth(v) < 3 then Err(ShapeMismatch)
      else
        var w := seq(|v|, y requires 0 <= y < |v| =>
          seq(Width(v), x requires 0 <= x < Width(v) =>
            var l := Luma(v[y][x][0], v[y][x][1], v[y][x][2]); [l, l, l]));
        assert Depth(w) == 3;
        Ok(Color(w))
    case Gray(g) =>
      if Width(g) < 3 then Err(ShapeMismatch)
      else
        Ok(Gray(seq(|g|, y requires 0 <= y < |g| => var l := Luma(g[y][0], g[y][1], g[y][2]); [l, l, l])))
  }

  // ---------------------------------------------------------------------
  // apply, dispatched on the class
  // ---------------------------------------------------------------------

  /** apply(image, level). The base class always raises NotImplementedError;
      the brightness filter raises for a level outside its table; the
      grayscale filter ignores the second argument. */
  function Apply(f: Filter, image: Image, level: int): (r: Result<Image>)
    requires Valid(image)
    ensures f.ImageFilter? ==> r == Err(NotImplemented)
    ensures f.BrightnessFilter? ==> (r.Ok? <==> level in f.levels)
    ensures f.BrightnessFilter? && r.Err? ==> r.error == BadLevel(level)
    ensures f.BrightnessFilter? && r.Ok? ==> r.value == ScaleImage(image, f.levels[level])
    ensures f.GrayscaleFilter? ==> r == GrayscaleApply(image)
  {
    match f
    case ImageFilter(_) => Err(NotImplemented)
    case BrightnessFilter(_, levels) =>
      if level !in levels then Err(BadLevel(level))
      else Ok(ScaleImage(image, levels[level]))
    case GrayscaleFilter(_) => GrayscaleApply(image)
  }

  /** The order the constructor inserts the levels in, which is the order
      a dictionary iterates them in. */
  const LevelOrder: seq<int> := [-4, -3, -2, -1, 0, 1, 2, 3, 4]

  /** apply_all_levels: one result per level of the table except 0, added
      to a dictionary in iteration order. */
  method ApplyAllLevels(f: Filter, image: Image) returns (results: map<int, Image>)
    requires f.BrightnessFilter? && Valid(image)
    requires forall level :: level in f.levels <==> level in LevelOrder
    ensures results.Keys == f.levels.Keys - {0}
    ensures forall level :: level in results ==> Apply(f, image, level) == Ok(results[level])
    ensures f == NewBrightnessFilter() ==> results.Keys == {-4, -3, -2, -1, 1, 2, 3, 4}
  {
    results := map[];
    for i := 0 to |LevelOrder|
      invariant forall l :: l in results <==> l in LevelOrder[..i] && l != 0
      invariant forall l :: l in results ==> Apply(f, image, l) == Ok(results[l])
    {
      var level := LevelOrder[i];
      if level == 0 {  // skip the original image
        continue;
      }
      var r := Apply(f, image, level);
      results := results[level := r.value];
    }
    assert LevelOrder[..|LevelOrder|] == LevelOrder;
    assert forall l :: l in results.Keys <==> l in f.levels.Keys - {0};
    BrightnessLevels();
  }

  /** The constructed filter's levels other than 0. */
  lemma BrightnessLevels()
    ensures NewBrightnessFilter().levels.Keys - {0} == {-4, -3, -2, -1, 1, 2, 3, 4}
  {
  }

  /** get_level_description: the filter's own copy of the description table. */
  function GetLevelDescription(f: Filter, level: int): (r: string)
    ensures -4 <= level <= 4 ==> r == BrightnessHelpers.Descriptions[level]
    ensures !(-4 <= level <= 4) ==> r == "Unknown level"
  {
    var descriptions := map[
      -4 := "Very dark (20% brightness)",
      -3 := "Darker (30% brightness)",
      -2 := "Somewhat dark (50% brightness)",
      -1 := "Slightly dark (70% brightness)",
      0 := "Normal (100% brightness)",
      1 := "Slightly bright (130% brightness)",
      2 := "Somewhat bright (160% brightness)",
      3 := "Brighter (190% brightness)",
      4 := "Very bright (220% brightness)"];
    if level in descriptions then descriptions[level] else "Unknown level"
  }

  // ---------------------------------------------------------------------
  // Properties of the brightness filter
  // ---------------------------------------------------------------------

  /** The filter's table is the helpers' table, entry for entry. */
  lemma TablesAgree(level: int)
    ensures NewBrightnessFilter().levels == BrightnessHelpers.Factors
    ensures GetLevelDescription(NewBrightnessFilter(), level) == BrightnessHelpers.GetBrightnessDescription(level)
  {
    var f := NewBrightnessFilter();
    assert f.levels.Keys == BrightnessHelpers.Factors.Keys;
  }

  /** A factor of 1.0 leaves every byte sample as it is. */
  lemma ScaleByOne(v: int)
    requires 0 <= v <= 255
    ensures ScaleSample(v, 10) == v
  {
    if 0 < v < 255 {
      assert (v * 10) / 10 == v;
    }
  }

  /** Level 0 returns the input unchanged for an image of 0 .. 255 samples. */
  lemma LevelZeroIsIdentity(image: Image)
    requires Valid(image) && InByteRange(image)
    ensures Apply(NewBrightnessFilter(), image, 0) == Ok(image)
  {
    var f := NewBrightnessFilter();
    assert f.levels[0] == 10;
    var r := ScaleImage(image, 10);
    match image
    case Gray(g) =>
      forall y | 0 <= y < |g| ensures r.grid[y] == g[y] {
        forall x | 0 <= x < |g[y]| ensures r.grid[y][x] == g[y][x] {
          ScaleByOne(g[y][x]);
        }
      }
      assert r.grid == g;
    case Color(v) =>
      forall y | 0 <= y < |v| ensures r.volume[y] == v[y] {
        forall x | 0 <= x < |v[y]| ensures r.volume[y][x] == v[y][x] {
          forall c | 0 <= c < |v[y][x]| ensures r.volume[y][x][c] == v[y][x][c] {
            ScaleByOne(v[y][x][c]);
          }
        }
      }
      assert r.volume == v;
  }

  /** Scaling is monotone in the factor for non-negative samples. */
  lemma ScaleMonotone(v: int, f1: nat, f2: nat)
    requires 0 <= v && f1 <= f2
    ensures ScaleSample(v, f1) <= ScaleSample(v, f2)
  {
    assert v * f2 - v * f1 == v * (f2 - f1);
    assert v * (f2 - f1) >= 0;
  }

  /** A brighter level never darkens a sample of a byte image. */
  lemma BrighterLevel(image: Image, a: int, b: int)
    requires Valid(image) && InByteRange(image) && -4 <= a < b <= 4
    ensures Apply(NewBrightnessFilter(), image, a).Ok? && Apply(NewBrightnessFilter(), image, b).Ok?
    ensures image.Gray? ==> forall y, x :: 0 <= y < |image.grid| && 0 <= x < Width(image.grid) ==>
      Apply(NewBrightnessFilter(), image, a).value.grid[y][x] <= Apply(NewBrightnessFilter(), image, b).value.grid[y][x]
    ensures image.Color? ==> forall y, x, c ::
      0 <= y < |image.volume| && 0 <= x < Width(image.volume) && 0 <= c < Depth(image.volume) ==>
      Apply(NewBrightnessFilter(), image, a).value.volume[y][x][c] <= Apply(NewBrightnessFilter(), image, b).value.volume[y][x][c]
  {
    var f := NewBrightnessFilter();
    TablesAgree(a);
    BrightnessHelpers.FactorsIncrease(a, b);
    var fa, fb := f.levels[a], f.levels[b];
    match image
    case Gray(g) =>
      forall y, x | 0 <= y < |g| && 0 <= x < Width(g)
        ensures ScaleSample(g[y][x], fa) <= ScaleSample(g[y][x], fb)
      {
        ScaleMonotone(g[y][x], fa, fb);
      }
    case Color(v) =>
      forall y, x, c | 0 <= y < |v| && 0 <= x < Width(v) && 0 <= c < Depth(v)
        ensures ScaleSample(v[y][x][c], fa) <= ScaleSample(v[y][x][c], fb)
      {
        assert |v[y][x]| == Depth(v);
        ScaleMonotone(v[y][x][c], fa, fb);
      }
  }
}
