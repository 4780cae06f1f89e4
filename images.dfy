/** Images as the filters see them: rectangular grids of integer samples.
    A grayscale image is a height × width grid; a colour image is a
    height × width × channel volume. Channels are numbered as stored;
    `cv2.split` names channels 0, 1 and 2 b, g and r. */
module Images {

  type Grid = seq<seq<int>>
  type Volume = seq<seq<seq<int>>>

  /** An image as a value: numpy arrays of two or three dimensions. */
  datatype Image = Gray(grid: Grid) | Color(volume: Volume)

  /** The exceptions the filters raise. */
  datatype Error =
    | BadLevel(level: int)              // ValueError: brightness level outside the table
    | UnknownChannelMode(mode: string)  // ValueError: channel mode outside the nine names
    | UnpackMismatch                    // ValueError: the image does not split into exactly three channels
    | ShapeMismatch                     // ValueError: the grayscale dot product needs three channels
    | NotImplemented                    // NotImplementedError of the base filter

  datatype Result<T> = Ok(value: T) | Err(error: Error)

  /** Length of the first row (0 for an empty grid). */
  function Width<T>(g: seq<seq<T>>): nat {
    if |g| == 0 then 0 else |g[0]|
  }

  /** Every row has the same length: a two-dimensional array. */
  predicate Rect<T>(g: seq<seq<T>>) {
    forall r :: 0 <= r < |g| ==> |g[r]| == Width(g)
  }

  /** Number of channels of a volume (0 when it holds no pixel). */
  function Depth(v: Volume): nat {
    if |v| == 0 || |v[0]| == 0 then 0 else |v[0][0]|
  }

  /** A three-dimensional array: rectangular, every pixel with the same channel count. */
  predicate Box(v: Volume) {
    Rect(v) && forall y, x :: 0 <= y < |v| && 0 <= x < |v[y]| ==> |v[y][x]| == Depth(v)
  }

  predicate Valid(image: Image) {
    match image
    case Gray(g) => Rect(g)
    case Color(v) => Box(v)
  }

  /** The uint8 dtype contract: every sample lies in [0, 255]. */
  predicate InByteRange(image: Image) {
    match image
    case Gray(g) => forall y, x :: 0 <= y < |g| && 0 <= x < |g[y]| ==> 0 <= g[y][x] <= 255
    case Color(v) =>
      forall y, x, c :: 0 <= y < |v| && 0 <= x < |v[y]| && 0 <= c < |v[y][x]| ==> 0 <= v[y][x][c] <= 255
  }

  /** Every sample of the grid equals `v`. */
  predicate Constant(g: Grid, v: int) {
    forall y, x :: 0 <= y < |g| && 0 <= x < |g[y]| ==> g[y][x] == v
  }
}
