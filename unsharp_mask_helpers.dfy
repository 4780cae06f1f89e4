/** convolve2d of the unsharp-mask helpers: a two- or three-dimensional
    image is filtered channel by channel with a two-dimensional kernel,
    after 'reflect' padding of the two spatial axes only. The kernel is not
    flipped. The Gaussian kernel builder beside it is not part of this
    model; any integer kernel stands in for it. */
module UnsharpMaskHelpers {
  import opened Images
  import opened Windows

  /** image[:, :, None]: a grayscale image as a volume with one channel. */
  function Promote(g: Grid): (v: Volume)
    requires Rect(g)
    ensures Box(v) && |v| == |g| && Width(v) == Width(g)
    ensures |g| > 0 && Width(g) > 0 ==> Depth(v) == 1
    ensures forall y, x :: 0 <= y < |g| && 0 <= x < Width(g) ==> v[y][x] == [g[y][x]]
  {
    seq(|g|, y requires 0 <= y < |g| => seq(Width(g), x requires 0 <= x < Width(g) => [g[y][x]]))
  }

  /** padded[:, :, c]: one channel of a volume as a grid. */
  function Channel(v: Volume, c: nat): (g: Grid)
    requires Box(v) && c < Depth(v)
    ensures Rect(g) && |g| == |v| && Width(g) == Width(v)
    ensures forall y, x :: 0 <= y < |v| && 0 <= x < Width(v) ==> g[y][x] == v[y][x][c]
  {
    seq(|v|, y requires 0 <= y < |v| => seq(Width(v), x requires 0 <= x < Width(v) => v[y][x][c]))
  }

  /** np.pad(v, ((ph, ph), (pw, pw), (0, 0)), mode='reflect'): whole pixels
      are copied, the channel axis gets no padding. */
  function PadReflect3(v: Volume, ph: nat, pw: nat): (r: Volume)
    requires Box(v) && (ph == 0 || ph < |v|) && (pw == 0 || pw < Width(v))
    ensures Box(r) && |r| == |v| + 2 * ph && Width(r) == Width(v) + 2 * pw && Depth(r) == Depth(v)
    ensures forall k, l :: 0 <= k < |r| && 0 <= l < |r[k]| ==>
      r[k][l] == v[ReflectIndex(|v|, ph, k)][ReflectIndex(Width(v), pw, l)]
  {
    var r := ReflectPixelRows(v, ph, pw, |v| + 2 * ph);
    assert forall k, l :: 0 <= k < |r| && 0 <= l < |r[k]| ==> |r[k][l]| == Depth(v) by {
      forall k, l | 0 <= k < |r| && 0 <= l < |r[k]| ensures |r[k][l]| == Depth(v) {
        var y, x := ReflectIndex(|v|, ph, k), ReflectIndex(Width(v), pw, l);
        assert |v[y]| == Width(v);
        assert r[k][l] == v[y][x];
      }
    }
    assert |r| > 0 && |r[0]| > 0 ==> Depth(r) == |r[0][0]|;
    r
  }

  function ReflectPixelRows(v: Volume, ph: nat, pw: nat, m: nat): (r: Volume)
    requires Box(v) && (ph == 0 || ph < |v|) && (pw == 0 || pw < Width(v)) && m <= |v| + 2 * ph
    ensures |r| == m && forall k :: 0 <= k < m ==> |r[k]| == Width(v) + 2 * pw
    ensures forall k, l :: 0 <= k < m && 0 <= l < Width(v) + 2 * pw ==>
      r[k][l] == v[ReflectIndex(|v|, ph, k)][ReflectIndex(Width(v), pw, l)]
  {
    if m == 0 then []
    else
      var row := v[ReflectIndex(|v|, ph, m - 1)];
      ReflectPixelRows(v, ph, pw, m - 1) +
        [seq(Width(v) + 2 * pw, l requires 0 <= l < Width(v) + 2 * pw => row[ReflectIndex(Width(v), pw, l)])]
  }

  /** Padding the volume and then taking channel c is padding channel c on
      its own: no channel sees another. */
  lemma PadsEachChannel(v: Volume, ph: nat, pw: nat, c: nat)
    requires Box(v) && (ph == 0 || ph < |v|) && (pw == 0 || pw < Width(v)) && c < Depth(v)
    ensures Channel(PadReflect3(v, ph, pw), c) == PadReflect(Channel(v, c), ph, pw)
  {
    var a := Channel(PadReflect3(v, ph, pw), c);
    var b := PadReflect(Channel(v, c), ph, pw);
    assert |a| == |b|;
    forall k | 0 <= k < |a| ensures a[k] == b[k] {
      assert |a[k]| == |b[k]|;
      forall l | 0 <= l < |a[k]| ensures a[k][l] == b[k][l] {
        var y, x := ReflectIndex(|v|, ph, k), ReflectIndex(Width(v), pw, l);
        assert a[k][l] == PadReflect3(v, ph, pw)[k][l][c] == v[y][x][c];
        assert b[k][l] == Channel(v, c)[y][x] == v[y][x][c];
      }
    }
  }

  /** What convolve2d accepts: a two-dimensional kernel, and pads of
      kh // 2 and kw // 2 that one reflection can fill. */
  predicate ReflectDomain(v: Volume, kernel: Grid) {
    Box(v) && Rect(kernel)
    && (|kernel| / 2 == 0 || |kernel| / 2 < |v|)
    && (Width(kernel) / 2 == 0 || Width(kernel) / 2 < Width(v))
  }

  /** out[y, x, c] of convolve2d: channel c of the padded volume, windowed at
      (y, x) and multiplied entry by entry with the unflipped kernel. */
  function ChannelResponse(v: Volume, kernel: Grid, c: nat, y: nat, x: nat): int
    requires ReflectDomain(v, kernel) && y < |v| && x < Width(v) && c < Depth(v)
  {
    var padded := PadReflect3(v, |kernel| / 2, Width(kernel) / 2);
    assert |kernel| <= 2 * (|kernel| / 2) + 1 && Width(kernel) <= 2 * (Width(kernel) / 2) + 1;
    Correlate(Channel(padded, c), kernel, y, x)
  }

  /** The volume convolve2d works on and its channel count. */
  function AsVolume(image: Image): (v: Volume)
    requires Valid(image)
    ensures Box(v)
  {
    match image
    case Gray(g) => Promote(g)
    case Color(v) => v
  }

  function Channels(image: Image): nat
    requires Valid(image)
  {
    match image
    case Gray(_) => 1
    case Color(v) => Depth(v)
  }

  /** ndarray.squeeze() on a shape: every axis of length 1 disappears. */
  function Squeeze(shape: seq<nat>): (r: seq<nat>)
    ensures |r| <= |shape|
  {
    if shape == [] then []
    else if shape[0] == 1 then Squeeze(shape[1..])
    else [shape[0]] + Squeeze(shape[1..])
  }

  /** The squeeze keeps every axis other than 1 as often as it occurs, and
      no axis of length 1. */
  lemma {:induction false} SqueezeCounts(shape: seq<nat>)
    ensures multiset(Squeeze(shape)) == multiset(shape)[1 := 0]
  {
    if shape != [] {
      assert shape == [shape[0]] + shape[1..];
      SqueezeCounts(shape[1..]);
    }
  }

  /** Squeezing works axis by axis and keeps the order of the axes it
      keeps: the squeeze of a concatenation is the concatenation of the
      squeezes. With the one-axis case this fixes the result entirely. */
  lemma {:induction false} SqueezeAppend(a: seq<nat>, b: seq<nat>)
    ensures Squeeze(a + b) == Squeeze(a) + Squeeze(b)
    ensures |a| == 1 ==> Squeeze(a) == if a[0] == 1 then [] else a
  {
    if a == [] {
      assert a + b == b;
    } else {
      assert (a + b)[0] == a[0] && (a + b)[1..] == a[1..] + b;
      SqueezeAppend(a[1..], b);
      if |a| == 1 {
        assert a[1..] == [];
      }
    }
  }

  /** convolve2d: pads the image, then fills a zero-initialised
      h × w × channels buffer; the result is that buffer viewed with the
      squeezed shape. */
  method Convolve2D(image: Image, kernel: Grid) returns (out: array3<int>, shape: seq<nat>)
    requires Valid(image) && ReflectDomain(AsVolume(image), kernel)
    ensures fresh(out)
    ensures out.Length0 == |AsVolume(image)| && out.Length1 == Width(AsVolume(image))
    ensures out.Length2 == Channels(image)
    ensures forall y, x, c :: 0 <= y < out.Length0 && 0 <= x < out.Length1 && 0 <= c < out.Length2 ==>
      c < Depth(AsVolume(image)) && out[y, x, c] == ChannelResponse(AsVolume(image), kernel, c, y, x)
    ensures shape == Squeeze([out.Length0, out.Length1, out.Length2])
    ensures image.Gray? && out.Length0 > 1 && out.Length1 > 1 ==> shape == [out.Length0, out.Length1]
  {
    var img := AsVolume(image);
    var h, w, channels := |img|, Width(img), Channels(image);
    var kh, kw := |kernel|, Width(kernel);
    var padH, padW := kh / 2, kw / 2;
    var padded := PadReflect3(img, padH, padW);
    assert kh <= 2 * padH + 1 && kw <= 2 * padW + 1;
    out := FilterChannels(padded, kernel, h, w, channels);
    shape := Squeeze([h, w, channels]);
    if image.Gray? && h > 1 && w > 1 {
      SqueezeShapes(h, w, channels);
    }
  }

  /** The loop nest of convolve2d over an already padded volume: sample
      (y, x, c) of the buffer is channel c of the window at (y, x) times the
      kernel. */
  method FilterChannels(padded: Volume, kernel: Grid, h: nat, w: nat, channels: nat) returns (out: array3<int>)
    requires Box(padded) && Rect(kernel)
    requires h + |kernel| <= |padded| + 1 && w + Width(kernel) <= Width(padded) + 1
    requires h > 0 && w > 0 ==> channels <= Depth(padded)
    ensures fresh(out) && out.Length0 == h && out.Length1 == w && out.Length2 == channels
    ensures forall y, x, c :: 0 <= y < h && 0 <= x < w && 0 <= c < channels ==>
      c < Depth(padded) && out[y, x, c] == Correlate(Channel(padded, c), kernel, y, x)
  {
    ghost var expected := Responses(padded, kernel, h, w, channels);
    out := new int[h, w, channels]((_, _, _) => 0);
    for y := 0 to h
      invariant forall y', x', c' :: 0 <= y' < y && 0 <= x' < w && 0 <= c' < channels ==>
        out[y', x', c'] == expected[y'][x'][c']
    {
      for x := 0 to w
        invariant forall y', x', c' :: 0 <= y' < y && 0 <= x' < w && 0 <= c' < channels ==>
          out[y', x', c'] == expected[y'][x'][c']
        invariant forall x', c' :: 0 <= x' < x && 0 <= c' < channels ==> out[y, x', c'] == expected[y][x'][c']
      {
        for c := 0 to channels
          invariant forall y', x', c' :: 0 <= y' < y && 0 <= x' < w && 0 <= c' < channels ==>
            out[y', x', c'] == expected[y'][x'][c']
          invariant forall x', c' :: 0 <= x' < x && 0 <= c' < channels ==> out[y, x', c'] == expected[y][x'][c']
          invariant forall c' :: 0 <= c' < c ==> out[y, x, c'] == expected[y][x][c']
        {
          out[y, x, c] := Correlate(Channel(padded, c), kernel, y, x);
        }
      }
    }
  }

  /** Every sample FilterChannels writes, as one ghost value for its loop
      invariants to compare the buffer against. A method rather than a
      function, so that the caller sees only this contract and not the
      comprehension. */
  ghost method Responses(padded: Volume, kernel: Grid, h: nat, w: nat, channels: nat) returns (e: Volume)
    requires Box(padded) && Rect(kernel)
    requires h + |kernel| <= |padded| + 1 && w + Width(kernel) <= Width(padded) + 1
    requires h > 0 && w > 0 ==> channels <= Depth(padded)
    ensures |e| == h && forall y :: 0 <= y < h ==> |e[y]| == w && forall x :: 0 <= x < w ==> |e[y][x]| == channels
    ensures forall y, x, c :: 0 <= y < h && 0 <= x < w && 0 <= c < channels ==>
      c < Depth(padded) && e[y][x][c] == Correlate(Channel(padded, c), kernel, y, x)
  {
    e := seq(h, y requires 0 <= y < h => seq(w, x requires 0 <= x < w =>
      seq(channels, c requires 0 <= c < channels => Correlate(Channel(padded, c), kernel, y, x))));
  }

  /** A flat image of value v, filtered with a kernel whose entries sum to
      s, is flat of value v * s in every channel. */
  lemma ConstantImage(v: Volume, kernel: Grid, value: int, c: nat, y: nat, x: nat)
    requires ReflectDomain(v, kernel) && y < |v| && x < Width(v) && c < Depth(v)
    requires forall y', x', c' :: 0 <= y' < |v| && 0 <= x' < |v[y']| && 0 <= c' < |v[y'][x']| ==> v[y'][x'][c'] == value
    ensures ChannelResponse(v, kernel, c, y, x) == value * KernelSum(kernel)
  {
    var ph, pw := |kernel| / 2, Width(kernel) / 2;
    PadsEachChannel(v, ph, pw, c);
    var g := Channel(v, c);
    assert Constant(g, value);
    PadReflectConstant(g, ph, pw, value);
    assert |kernel| <= 2 * ph + 1 && Width(kernel) <= 2 * pw + 1;
    CorrelateConstant(PadReflect(g, ph, pw), kernel, y, x, value);
  }

  /** The squeeze keeps the three axes of a colour image, and drops the
      channel axis of a promoted grayscale image. */
  lemma SqueezeShapes(h: nat, w: nat, channels: nat)
    requires h > 1 && w > 1
    ensures Squeeze([h, w, 1]) == [h, w]
    ensures channels > 1 ==> Squeeze([h, w, channels]) == [h, w, channels]
  {
    assert [h, w, 1][1..] == [w, 1] && [w, 1][1..] == [1] && [1][1..] == [];
    assert Squeeze([1]) == [];
    assert Squeeze([w, 1]) == [w];
    assert Squeeze([h, w, 1]) == [h] + Squeeze([w, 1]);
    assert [h, w, channels][1..] == [w, channels] && [w, channels][1..] == [channels];
    if channels > 1 {
      assert Squeeze([channels]) == [channels];
      assert Squeeze([w, channels]) == [w] + Squeeze([channels]);
      assert Squeeze([h, w, channels]) == [h] + Squeeze([w, channels]);
    }
  }
}
