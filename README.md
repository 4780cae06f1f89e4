# Enhancer image filters in Dafny

This project models the array logic of the Enhancer image-filter
application:

- **Sobel edge detection.** The two Sobel kernels, the nested-loop filter
  `apply_convolution`, and `normalize_edges`, which rescales edge strengths
  to 0 .. 255.
- **The benchmark's `old_convolution`.**
- **The per-channel `convolve2d` of the unsharp-mask helpers.**
- **Channel swapping.**
- **Salt-and-pepper noise.**
- **The brightness tables and the three filter classes.**

Images are values:

- A grayscale image is a `Grid` (`seq<seq<int>>`).
- A colour image is a `Volume` (`seq<seq<seq<int>>>`).
- Rectangularity is the predicate `Rect` for grids and `Box` for volumes.
- Colour channels are numbered as stored. The names b, g and r for channels 0, 1 and 2 are the ones `b, g, r = cv2.split(image)` gives them (helpers/channel_swap_helpers.py:28). The model makes no claim about which colour a caller actually stores in each channel.

Where the source fills a preallocated numpy array in a loop, the model does
the same:

- a method fills a fresh `array2` or `array3` with `for` loops;
- its postcondition ties every cell to a specification function;
- lemmas prove the properties of that function.

The padding index maps, window sums, kernel flip and their algebra live once,
in module `Windows`. The three sliding-window filters share them.

Modules, one per source file, plus two shared ones (`Images` and `Windows`):

| module | file | source |
|---|---|---|
| `Images` | images.dfy | image, error and result types |
| `Windows` | windows.dfy | numpy 'symmetric' and 'reflect' padding, correlation, convolution |
| `EdgeHelpers` | edge_helpers.dfy | edge_helpers.py |
| `BenchmarkEdge` | benchmark_edge.dfy | benchmark_edge.py (`old_convolution`) |
| `UnsharpMaskHelpers` | unsharp_mask_helpers.dfy | helpers/unsharp_mask_helpers.py (`convolve2d`) |
| `ChannelSwapHelpers` | channel_swap_helpers.dfy | helpers/channel_swap_helpers.py |
| `SaltPepperNoiseHelpers` | salt_pepper_noise_helpers.dfy | helpers/salt_pepper_noise_helpers.py |
| `BrightnessHelpers` | brightness_helpers.dfy | helpers/brightness_helpers.py |
| `Filters` | filters.dfy | filters.py |

Samples and kernel weights are integers, so every window sum is exact.
Brightness factors are kept in tenths (0.7 is 7) and the grayscale weights
in thousandths. The exceptions the source raises are the variants of
`Images.Error`:

- `BadLevel` and `UnknownChannelMode` for the two `ValueError`s with a message;
- `UnpackMismatch` for the `ValueError` of unpacking `cv2.split` into three names;
- `ShapeMismatch` for the `ValueError` of `np.dot` on too few channels;
- `NotImplemented` for the base filter's `NotImplementedError`.

Each filter method returns a `Result`.

The filter classes never change their fields after construction. They are
therefore one datatype, `Filters.Filter`, with one variant per class, and
`apply` dispatches on the variant as the overriding methods do.

## Model

| member | source | states |
|---|---|---|
| Windows.SymmetricIndex | edge_helpers.py:26 | numpy 'symmetric' padding reads, for every padded position, a position inside the input axis |
| Windows.ReflectIndex | helpers/unsharp_mask_helpers.py:31-33 | numpy 'reflect' padding reads, for every padded position, a position inside the input axis |
| Windows.PaddingMirrors | edge_helpers.py:26 | 'symmetric' mirrors about the gap before the edge sample, so the edge sample is doubled; 'reflect' mirrors about the edge sample itself; the first pad position reads input 0 and input 1 respectively |
| Windows.PadSymmetric | edge_helpers.py:24-26 | `np.pad(image, k//2, 'symmetric')`: the image grows by the pad on all four sides, and every padded sample is the input sample at the symmetric index of its row and column |
| Windows.PadReflect | helpers/unsharp_mask_helpers.py:31-33 | `np.pad` with mode 'reflect' of one channel: it grows by kh//2 rows and kw//2 columns on each side, and every sample is the input at the reflect index |
| Windows.PaddedInterior | edge_helpers.py:26 | both paddings leave the input unchanged in the interior: padded[y+p][x+p] is image[y][x] |
| Windows.PadSymmetricConstant | edge_helpers.py:26 | symmetric padding of a flat image is flat with the same value |
| Windows.PadReflectConstant | helpers/unsharp_mask_helpers.py:31-33 | reflect padding of a flat image is flat with the same value |
| Windows.Flip | benchmark_edge.py:26 | `np.flipud(np.fliplr(kernel))` keeps the shape, and entry (a, b) is the kernel's entry (kh-1-a, kw-1-b) |
| Windows.FlipInvolution | benchmark_edge.py:26 | flipping the kernel twice gives the kernel back |
| Windows.CorrelateNeg | edge_helpers.py:35 | the window sum is linear in the kernel: a negated kernel gives the negated sum |
| Windows.CorrelateFlip | benchmark_edge.py:24-27 | the window sum against the flipped kernel equals the convolution sum, where window sample (a, b) is weighted by kernel entry (kh-1-a, kw-1-b) |
| Windows.CorrelateConstant | edge_helpers.py:33-35 | a window of constant value v gives v times the sum of the kernel entries |
| EdgeHelpers.GetSobelKernels | edge_helpers.py:2-17 | both kernels are 3 × 3; sobel_y is the transpose of sobel_x; the entries of each sum to 0 |
| EdgeHelpers.WindowInside | edge_helpers.py:33 | the slice `padded[i:i+k, j:j+k]` lies inside the padded image for every output pixel |
| EdgeHelpers.ApplyConvolution | edge_helpers.py:19-37 | the output is a fresh height × width array; output[i, j] is the unflipped window sum of the symmetric-padded image at (i, j) |
| EdgeHelpers.NegatedKernel | edge_helpers.py:35 | negating the kernel negates every output sample of apply_convolution |
| EdgeHelpers.ConstantImage | edge_helpers.py:26-35 | on a flat image of value v, every output sample is v times the kernel sum |
| EdgeHelpers.SobelFlatImage | edge_helpers.py:5-15 | under either Sobel kernel a flat image, the all-zero image included, gives 0 at every pixel |
| EdgeHelpers.Flatten | edge_helpers.py:42 | the samples `edges.min()` and `edges.max()` range over: every sample appears, and nothing else does |
| EdgeHelpers.MinOf | edge_helpers.py:42 | `edges.min()` is a sample and is at most every sample |
| EdgeHelpers.MaxOf | edge_helpers.py:42 | `edges.max()` is a sample and is at least every sample |
| EdgeHelpers.Clip01 | edge_helpers.py:46 | `np.clip(t, 0, 1)` lies in [0, 1]; values below 0 become 0, values above 1 become 1, and values in [0, 1] are kept |
| EdgeHelpers.NormalizeSample | edge_helpers.py:42-48 | one normalised sample, after rescaling, sensitivity, clipping and truncation to uint8, lies in [0, 255] |
| EdgeHelpers.NormalizeExtremes | edge_helpers.py:42-48 | with sensitivity 1.0 the minimum maps to 0 and the maximum maps to 255 |
| EdgeHelpers.NormalizeEdges | edge_helpers.py:39-48 | when max > min: the shape is kept and every value lies in [0, 255]; with sensitivity 1.0 the minimum sample becomes 0 and the maximum becomes 255 |
| EdgeHelpers.NormalizeMonotone | edge_helpers.py:42-48 | with a non-negative sensitivity, a stronger edge never gets a smaller normalised value |
| BenchmarkEdge.OldConvolution | benchmark_edge.py:7-29 | the output is a fresh height × width array; output[i, j] is the window sum of the symmetric-padded image against the kernel flipped on both axes |
| BenchmarkEdge.OldIsApplyOfFlipped | benchmark_edge.py:15-27 | old_convolution is apply_convolution run with the doubly flipped kernel, at every pixel |
| BenchmarkEdge.FlipSobelX | benchmark_edge.py:43-47 | the doubly flipped sobel_x is -sobel_x |
| BenchmarkEdge.OldSobelIsNegated | benchmark_edge.py:43-47 | on sobel_x, old_convolution returns the negation of apply_convolution at every pixel |
| UnsharpMaskHelpers.Promote | helpers/unsharp_mask_helpers.py:23-24 | `image[:, :, None]` keeps height and width, and each pixel becomes a one-channel pixel holding the sample |
| UnsharpMaskHelpers.AsVolume | helpers/unsharp_mask_helpers.py:23-26 | the array convolve2d works on is always three-dimensional |
| UnsharpMaskHelpers.Channel | helpers/unsharp_mask_helpers.py:42 | `padded[:, :, c]` keeps height and width; sample (y, x) is channel c of pixel (y, x) |
| UnsharpMaskHelpers.PadReflect3 | helpers/unsharp_mask_helpers.py:31-33 | only the two spatial axes are padded, by kh//2 and kw//2; whole pixels are copied from the reflect indices, and the channel count stays the same |
| UnsharpMaskHelpers.PadsEachChannel | helpers/unsharp_mask_helpers.py:31-33 | channel c of the padded volume is the reflect padding of channel c alone, so no channel reads another |
| UnsharpMaskHelpers.Squeeze | helpers/unsharp_mask_helpers.py:45 | `squeeze()` never lengthens the shape |
| UnsharpMaskHelpers.SqueezeCounts | helpers/unsharp_mask_helpers.py:45 | `squeeze()` keeps every axis length other than 1 as often as it occurs, and no axis of length 1 |
| UnsharpMaskHelpers.SqueezeAppend | helpers/unsharp_mask_helpers.py:45 | `squeeze()` works axis by axis in order: the squeeze of a concatenation is the concatenation of the squeezes, and a single axis is dropped exactly when its length is 1 |
| UnsharpMaskHelpers.Convolve2D | helpers/unsharp_mask_helpers.py:18-45 | the buffer is fresh, with the input's height, width and channel count; sample (y, x, c) is the unflipped window sum of channel c of the reflect-padded image; the returned shape is the squeezed one, which for a 2-D input whose height and width are both greater than 1 is height × width |
| UnsharpMaskHelpers.FilterChannels | helpers/unsharp_mask_helpers.py:36-43 | the triple y/x/c loop fills a fresh zero-initialised h × w × channels buffer, and each sample is the window sum of its own channel |
| UnsharpMaskHelpers.ConstantImage | helpers/unsharp_mask_helpers.py:31-43 | a flat image of value v under a kernel whose entries sum to s gives v·s in every channel |
| UnsharpMaskHelpers.SqueezeShapes | helpers/unsharp_mask_helpers.py:45 | for h, w > 1, squeezing h × w × 1 gives h × w, and a colour shape with more than one channel is kept |
| ChannelSwapHelpers.ParseMode | helpers/channel_swap_helpers.py:31-48 | exactly the eight names rbg, grb, gbr, brg, bgr, r, g, b select a merge |
| ChannelSwapHelpers.SwapPixel | helpers/channel_swap_helpers.py:28-46 | each merged pixel has three samples, and each is 0 or one of the pixel's own samples |
| ChannelSwapHelpers.SwapVolume | helpers/channel_swap_helpers.py:28-46 | the merge keeps height and width, and every pixel is the merge of the same input pixel |
| ChannelSwapHelpers.ApplyChannelSwap | helpers/channel_swap_helpers.py:4-48 | the result is Ok exactly when the mode is 'rgb', or when the image has three channels and the mode is one of the eight names. 'rgb' returns the image itself. Any other mode on an image without three channels fails to unpack. A three-channel image with an unknown mode gives UnknownChannelMode. A successful swap has three channels and the input's height and width |
| ChannelSwapHelpers.SampleProvenance | helpers/channel_swap_helpers.py:28-46 | every output sample is 0 or a sample of the same input pixel |
| ChannelSwapHelpers.PermutationModes | helpers/channel_swap_helpers.py:31-40 | the five reorderings permute a pixel's samples: the multiset is unchanged |
| ChannelSwapHelpers.SwapsAreInvolutions | helpers/channel_swap_helpers.py:31-40 | 'rbg' (stored channels 0 and 1 swapped), 'grb' (1 and 2 swapped) and 'bgr' (reversed) each undo themselves |
| ChannelSwapHelpers.RotationsAreInverse | helpers/channel_swap_helpers.py:35-38 | 'gbr' and 'brg' undo each other in both orders, and 'gbr' moves every pixel that is not grey |
| ChannelSwapHelpers.SelectionsKeepOneChannel | helpers/channel_swap_helpers.py:41-46 | 'r', 'g' and 'b' keep stored channel 2, 1 and 0 respectively, zero the other two, and selecting twice changes nothing more |
| ChannelSwapHelpers.ImageRoundTrip | helpers/channel_swap_helpers.py:24-48 | two modes that undo each other on every pixel undo each other on a whole three-channel image |
| ChannelSwapHelpers.ImageInvolution | helpers/channel_swap_helpers.py:24-40 | applying 'rbg', 'grb' or 'bgr' twice to a three-channel image returns the image |
| ChannelSwapHelpers.ImageRotationsInverse | helpers/channel_swap_helpers.py:35-38 | 'brg' then 'gbr', and 'gbr' then 'brg', return a three-channel image unchanged |
| SaltPepperNoiseHelpers.Mask | helpers/salt_pepper_noise_helpers.py:18-21 | the mask has the draws' shape and is set exactly where the draw is below intensity / 2 |
| SaltPepperNoiseHelpers.SaltPepperGrid | helpers/salt_pepper_noise_helpers.py:28-30 | grayscale branch: the shape is kept; pepper pixels become 0 even when also salted; salt-only pixels become 255; other pixels are unchanged |
| SaltPepperNoiseHelpers.SaltPepperVolume | helpers/salt_pepper_noise_helpers.py:24-27 | colour branch: the shape is kept; pepper pixels become 0 in every channel, salt-only pixels become 255 in every channel, and other pixels are unchanged |
| SaltPepperNoiseHelpers.SaltPepper | helpers/salt_pepper_noise_helpers.py:15-32 | the noisy image is a well-formed image of the same kind as the input |
| SaltPepperNoiseHelpers.AddSaltPepperNoise | helpers/salt_pepper_noise_helpers.py:3-32 | the returned image is the input with both masks drawn from the given draws, salt applied and then pepper |
| SaltPepperNoiseHelpers.NoiseColor | helpers/salt_pepper_noise_helpers.py:15-27 | copying the volume, then per channel writing 255 at salt pixels and 0 at pepper pixels, gives the colour-branch image |
| SaltPepperNoiseHelpers.NoiseGray | helpers/salt_pepper_noise_helpers.py:28-30 | copying the grid, writing 255 at salt pixels and then 0 at pepper pixels, gives the grayscale-branch image |
| SaltPepperNoiseHelpers.ZeroIntensity | helpers/salt_pepper_noise_helpers.py:18-21 | with intensity 0 and draws in [0, 1), both masks are empty and the image comes back unchanged |
| SaltPepperNoiseHelpers.StaysInByteRange | helpers/salt_pepper_noise_helpers.py:24-30 | noise keeps every sample of a byte image in [0, 255] |
| BrightnessHelpers.GetBrightnessFactor | helpers/brightness_helpers.py:1-16 | a factor is returned exactly for levels -4 .. 4, and it is the table entry; any other level gives BadLevel |
| BrightnessHelpers.GetBrightnessDescription | helpers/brightness_helpers.py:18-31 | the table entry for levels -4 .. 4, and "Unknown level" for every other level |
| BrightnessHelpers.LevelZeroIsIdentity | helpers/brightness_helpers.py:8 | level 0 has factor 1.0 |
| BrightnessHelpers.FactorsIncrease | helpers/brightness_helpers.py:3-13 | the factor grows strictly with the level; negative levels are below 1.0 and positive levels are above 1.0 |
| Filters.NewBrightnessFilter | filters.py:21-33 | the brightness filter is named "Brightness", and its level table is defined exactly on -4 .. 4 |
| Filters.NewGrayscaleFilter | filters.py:72-73 | the grayscale filter is named "Grayscale" |
| Filters.GetName | filters.py:14-15 | get_name returns the name the constructor gave |
| Filters.ScaleSample | filters.py:40-41 | `clip(v·f, 0, 255)` truncated to uint8: the result lies in [0, 255]; it is 0 or 255 when the product is clipped, and otherwise the truncated product |
| Filters.ScaleImage | filters.py:41 | the image keeps its kind and shape, every sample is the scaled input sample, and the result is a byte image |
| Filters.Luma | filters.py:77-78 | the weighted sum 0.299·c0 + 0.587·c1 + 0.114·c2 of byte samples, truncated, is a byte |
| Filters.GrayscaleApply | filters.py:75-79 | fails exactly when the last axis has fewer than three entries. Otherwise every output pixel (or row, for a 2-D input) is three copies of the weighted sum of its first three entries, and the height is kept. A volume also keeps its width, while a 2-D input becomes height × 3, as `np.stack` makes it |
| Filters.Apply | filters.py:10-79 | the base filter always raises NotImplementedError. The brightness filter succeeds exactly for levels in its table, raises BadLevel otherwise, and on success returns the scaled image. The grayscale filter returns the grayscale conversion |
| Filters.ApplyAllLevels | filters.py:43-50 | the result dictionary has exactly the table's levels except 0, and each entry is `apply(image, level)`; for the constructed filter the keys are exactly -4 .. -1 and 1 .. 4 |
| Filters.GetLevelDescription | filters.py:52-65 | the listed description for levels -4 .. 4, and "Unknown level" for every other level |
| Filters.TablesAgree | filters.py:23-33 | the filter's factor table and its description lookup are those of the brightness helpers |
| Filters.ScaleByOne | filters.py:40-41 | factor 1.0 leaves every byte sample unchanged |
| Filters.LevelZeroIsIdentity | filters.py:28-41 | `apply(image, 0)` returns the image unchanged for a byte image |
| Filters.ScaleMonotone | filters.py:41 | a larger factor never gives a smaller non-negative sample |
| Filters.BrighterLevel | filters.py:23-41 | on a byte image, a higher level gives every sample a value at least as large |

## Left out

- EdgeHelpers.ApplyConvolution requires a two-dimensional image and a square kernel. The source reads only `kernel.shape[0]`. On an H × W × C image `np.pad` also pads the channel axis, to C + 2·(k//2). The multiply by the k × k kernel then fails unless C + 2·(k//2) == k, for example an H × W × 1 image with an odd kernel, or any C with a 1 × 1 kernel. When it does not fail, numpy broadcasts the kernel over the window's column and channel axes instead of its rows and columns.
- EdgeHelpers.ApplyConvolution and BenchmarkEdge.OldConvolution require a pad of at most the image height and width. numpy mirrors again when the pad is longer than the axis; that is not modelled.
- UnsharpMaskHelpers.Convolve2D requires each pad to be smaller than its axis, for the same reason under 'reflect'.
- UnsharpMaskHelpers.Convolve2D returns the h × w × channels buffer together with the squeezed shape, rather than an array reshaped to that shape.
- EdgeHelpers.NormalizeEdges requires max > min. On a flat input the source divides by zero, and numpy produces nan with a warning.
- EdgeHelpers.NormalizeEdges computes over exact reals. Floating-point rounding in the input's dtype (float32 on the output of apply_convolution) before the truncation to uint8 is not modelled.
- Filters.ScaleSample multiplies by the factor in exact tenths. The float product `v * 0.7` can differ from the exact one in the last bit, so at an exact multiple the truncation may come out one lower than in the model.
- Filters.Luma uses exact thousandths, so the same rounding caveat applies to the grayscale weights. No idempotence or grey-preservation claim is made.
- Filters.ApplyAllLevels requires the filter's level table to hold exactly the levels of its insertion order -4 .. 4, which is what the constructor builds. The loop walks that order, as iteration over the dictionary does.
- Filters.GrayscaleApply and the other members do not model uint8 wrap-around. Samples are unbounded integers, and byte range is a precondition of the lemmas that need it.
- Filters.Filter has one variant per class. Inheritance is therefore not open to new subclasses, and the base class keeps whatever name it is given.
- Arrays with a zero-length axis: a `seq` with no rows has no width and a volume with no pixels has no channel count. Shapes such as (0, w, 3) therefore count as having no channels, so ChannelSwapHelpers.ApplyChannelSwap reports UnpackMismatch and Filters.GrayscaleApply reports ShapeMismatch for them.
- Filters.Apply takes one `level` argument for all three classes. The source's brightness `apply` defaults it to 0 and the grayscale `apply` ignores its argument. The base class `apply` takes no level, so calling it with one raises TypeError rather than NotImplementedError. The other dropped defaults are `sensitivity=1.0` of normalize_edges, `mode='rgb'` of apply_channel_swap and `intensity=0.1` of add_salt_pepper_noise. Every argument is explicit in the model.
- Randomness: the two `np.random.random` grids of add_salt_pepper_noise are parameters of SaltPepperNoiseHelpers.AddSaltPepperNoise.
- Error messages: the errors carry the offending level or mode, not the formatted message text.
- Output dtypes: the float32 outputs of the convolutions are exact integers here. float32 loses precision above 2^24, which is not modelled.
- `gaussian_kernel` (exp, linspace and float normalisation) is not part of this model: any integer kernel stands in for it.
- Not part of this model:
  - `new_convolution` and `run_benchmark` (scipy, timing, plotting);
  - helpers/gaussian_noise_helpers.py (normal randomness);
  - noise_filter_helper.py, noiseRemovalFilter.py, InvertColorFilter.py and Quantitative_Proof.py (thin wrappers over cv2 and scipy);
  - main.py, utils.py and streamlit_app.py (console, file and web I/O).
