/** apply_channel_swap: a colour image is split into its three stored
    channels (`cv2.split` names channels 0, 1, 2 b, g, r)
    and merged back in another order, or with two of them zeroed. The
    mapping modelled is the one the merges write, not the one the mode
    names suggest. */
module ChannelSwapHelpers {
  import opened Images

  /** The eight modes that split and merge ('rgb' returns before the split). */
  datatype Mode = Rbg | Grb | Gbr | Brg | Bgr | OnlyR | OnlyG | OnlyB

  datatype Option<T> = None | Some(value: T)

  /** The if/elif chain on the mode string. */
  function ParseMode(mode: string): (m: Option<Mode>)
    ensures m.Some? <==> mode in {"rbg", "grb", "gbr", "brg", "bgr", "r", "g", "b"}
  {
    if mode == "rbg" then Some(Rbg)
    else if mode == "grb" then Some(Grb)
    else if mode == "gbr" then Some(Gbr)
    else if mode == "brg" then Some(Brg)
    else if mode == "bgr" then Some(Bgr)
    else if mode == "r" then Some(OnlyR)
    else if mode == "g" then Some(OnlyG)
    else if mode == "b" then Some(OnlyB)
    else None
  }

  /** cv2.merge of one pixel [b, g, r] = [p[0], p[1], p[2]]. */
  function SwapPixel(m: Mode, p: seq<int>): (q: seq<int>)
    requires |p| == 3
    ensures |q| == 3
    ensures forall k :: 0 <= k < 3 ==> q[k] == 0 || q[k] in p
  {
    match m
    case Rbg => [p[1], p[0], p[2]]     // merge((g, b, r))
    case Grb => [p[0], p[2], p[1]]     // merge((b, r, g))
    case Gbr => [p[1], p[2], p[0]]     // merge((g, r, b))
    case Brg => [p[2], p[0], p[1]]     // merge((r, b, g))
    case Bgr => [p[2], p[1], p[0]]     // merge((r, g, b))
    case OnlyR => [0, 0, p[2]]
    case OnlyG => [0, p[1], 0]
    case OnlyB => [p[0], 0, 0]
  }

  /** The mode applied to every pixel of a three-channel volume. */
  function SwapVolume(m: Mode, v: Volume): (w: Volume)
    requires Box(v) && (|v| > 0 && Width(v) > 0 ==> Depth(v) == 3)
    ensures Box(w) && |w| == |v| && Width(w) == Width(v)
    ensures |w| > 0 && Width(w) > 0 ==> Depth(w) == 3
    ensures forall y, x :: 0 <= y < |v| && 0 <= x < Width(v) ==> w[y][x] == SwapPixel(m, v[y][x])
  {
    seq(|v|, y requires 0 <= y < |v| =>
      seq(Width(v), x requires 0 <= x < Width(v) => SwapPixel(m, v[y][x])))
  }

  /** The image has exactly three channels, so `b, g, r = cv2.split(image)`
      unpacks. A grayscale image splits into one array and fails. */
  predicate ThreeChannels(image: Image) {
    image.Color? && Box(image.volume) && Depth(image.volume) == 3
  }

  /** apply_channel_swap. 'rgb' returns a copy whatever the image; any other
      mode first needs the three-way split, then one of the eight names. */
  function ApplyChannelSwap(image: Image, mode: string): (r: Result<Image>)
    requires Valid(image)
    ensures r.Ok? <==> mode == "rgb" || (ThreeChannels(image) && ParseMode(mode).Some?)
    ensures mode == "rgb" ==> r == Ok(image)
    ensures mode != "rgb" && !ThreeChannels(image) ==> r == Err(UnpackMismatch)
    ensures mode != "rgb" && ThreeChannels(image) && ParseMode(mode).None? ==> r == Err(UnknownChannelMode(mode))
    ensures r.Ok? && mode != "rgb" ==>
      r.value.Color? && Box(r.value.volume) && Depth(r.value.volume) == 3 &&
      |r.value.volume| == |image.volume| && Width(r.value.volume) == Width(image.volume)
  {
    if mode == "rgb" then Ok(image)
    else if !ThreeChannels(image) then Err(UnpackMismatch)
    else
      match ParseMode(mode)
      case None => Err(UnknownChannelMode(mode))
      case Some(m) =>
        var w := SwapVolume(m, image.volume);
        assert |w[0][0]| == 3;
        Ok(Color(w))
  }

  /** Every output sample is the same pixel's sample of some input channel,
      or 0; height and width are kept. */
  lemma SampleProvenance(image: Image, mode: string, y: nat, x: nat, k: nat)
    requires Valid(image) && mode != "rgb" && ApplyChannelSwap(image, mode).Ok?
    requires y < |image.volume| && x < Width(image.volume) && k < 3
    ensures var out := ApplyChannelSwap(image, mode).value.volume;
      out[y][x][k] == 0 || exists c :: 0 <= c < 3 && out[y][x][k] == image.volume[y][x][c]
  {
    var out := ApplyChannelSwap(image, mode).value.volume;
    var m := ParseMode(mode).value;
    var p := image.volume[y][x];
    assert out[y][x] == SwapPixel(m, p);
    if out[y][x][k] != 0 {
      var c :| 0 <= c < 3 && p[c] == out[y][x][k];
    }
  }

  /** The five reorderings move samples without losing or duplicating any. */
  lemma PermutationModes(m: Mode, p: seq<int>)
    requires |p| == 3 && m in {Rbg, Grb, Gbr, Brg, Bgr}
    ensures multiset(SwapPixel(m, p)) == multiset(p)
  {
    assert p == [p[0], p[1], p[2]];
  }

  /** 'bgr' reverses the channels, so applying it twice restores the pixel;
      'rbg' and 'grb' swap two channels and are their own inverses too. */
  lemma SwapsAreInvolutions(m: Mode, p: seq<int>)
    requires |p| == 3 && m in {Rbg, Grb, Bgr}
    ensures SwapPixel(m, SwapPixel(m, p)) == p
  {
    assert p == [p[0], p[1], p[2]];
  }

  /** 'gbr' and 'brg' rotate the channels in opposite directions. */
  lemma RotationsAreInverse(p: seq<int>)
    requires |p| == 3
    ensures SwapPixel(Gbr, SwapPixel(Brg, p)) == p
    ensures SwapPixel(Brg, SwapPixel(Gbr, p)) == p
    ensures SwapPixel(Gbr, p) != p || (p[0] == p[1] == p[2])
  {
    assert p == [p[0], p[1], p[2]];
  }

  /** The three selection modes keep channel 2, 1 or 0 and zero the others,
      so selecting again changes nothing. */
  lemma SelectionsKeepOneChannel(m: Mode, p: seq<int>)
    requires |p| == 3 && m in {OnlyR, OnlyG, OnlyB}
    ensures var kept := if m == OnlyR then 2 else if m == OnlyG then 1 else 0;
      forall k :: 0 <= k < 3 ==> SwapPixel(m, p)[k] == (if k == kept then p[k] else 0)
    ensures SwapPixel(m, SwapPixel(m, p)) == SwapPixel(m, p)
  {
  }

  /** Two modes that undo each other pixel by pixel undo each other on a
      whole three-channel image. */
  lemma ImageRoundTrip(image: Image, first: string, second: string, m1: Mode, m2: Mode)
    requires Valid(image) && ThreeChannels(image)
    requires first != "rgb" && ParseMode(first) == Some(m1)
    requires second != "rgb" && ParseMode(second) == Some(m2)
    requires forall p: seq<int> :: |p| == 3 ==> SwapPixel(m2, SwapPixel(m1, p)) == p
    ensures var once := ApplyChannelSwap(image, first);
      once.Ok? && ApplyChannelSwap(once.value, second) == Ok(image)
  {
    var v := image.volume;
    var w := SwapVolume(m1, v);
    assert ApplyChannelSwap(image, first) == Ok(Color(w));
    assert |w[0][0]| == 3;
    assert ThreeChannels(Color(w));
    var twice := SwapVolume(m2, w);
    assert ApplyChannelSwap(Color(w), second) == Ok(Color(twice));
    forall y | 0 <= y < |v| ensures twice[y] == v[y] {
      forall x | 0 <= x < |v[y]| ensures twice[y][x] == v[y][x] {
        assert twice[y][x] == SwapPixel(m2, SwapPixel(m1, v[y][x]));
      }
    }
    assert twice == v;
  }

  /** Swapping a whole image twice with a self-inverse mode gives the image back. */
  lemma ImageInvolution(image: Image, mode: string)
    requires Valid(image) && mode in {"rbg", "grb", "bgr"} && ThreeChannels(image)
    ensures var once := ApplyChannelSwap(image, mode);
      once.Ok? && ApplyChannelSwap(once.value, mode) == Ok(image)
  {
    var m := ParseMode(mode).value;
    forall p: seq<int> | |p| == 3 ensures SwapPixel(m, SwapPixel(m, p)) == p {
      SwapsAreInvolutions(m, p);
    }
    ImageRoundTrip(image, mode, mode, m, m);
  }

  /** 'brg' then 'gbr', or 'gbr' then 'brg', gives a whole image back. */
  lemma ImageRotationsInverse(image: Image)
    requires Valid(image) && ThreeChannels(image)
    ensures var once := ApplyChannelSwap(image, "brg");
      once.Ok? && ApplyChannelSwap(once.value, "gbr") == Ok(image)
    ensures var once := ApplyChannelSwap(image, "gbr");
      once.Ok? && ApplyChannelSwap(once.value, "brg") == Ok(image)
  {
    forall p: seq<int> | |p| == 3
      ensures SwapPixel(Gbr, SwapPixel(Brg, p)) == p && SwapPixel(Brg, SwapPixel(Gbr, p)) == p
    {
      RotationsAreInverse(p);
    }
    ImageRoundTrip(image, "brg", "gbr", Brg, Gbr);
    ImageRoundTrip(image, "gbr", "brg", Gbr, Brg);
  }
}
