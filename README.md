# F1 track map generator — a Dafny model of its geometry

The generator takes the position trace of each event's fastest qualifying
lap, rotates it with the circuit's correction angle, and writes it as one
closed SVG polygon to `tracks/<location>.svg`. This project models, over
exact reals, the three pieces of `map_generator.py` that do geometry or
naming, and proves what they promise:

- `save_coords_to_svg` (module `Projector`, file `projector.dfy`): the
  n x 2 shape check, the bounding box, the single aspect-preserving scale
  with which the longer side of the box fills `max_size` minus two
  paddings of half a stroke width, the translate/scale/pad/y-flip of every
  point, and the closed path "M p0 L p1 ... L pn-1 Z". The result is a
  `Result<Svg>`: a shape error, the error that `x.min()` raises on an empty
  batch, or the canvas width and height, the stroke width and the path as a
  sequence of `Move` / `Line` / `Close` commands.
- `rotate` (module `Rotator`, file `rotator.dfy`): row vectors times
  `[[c, s], [-s, c]]`, with the cosine `c` and sine `s` given as reals.
- the track name `str(location).lower().replace(" ", "-")` and the file
  name `"tracks/" + name + ".svg"` (module `TrackName`, file
  `track_name.dfy`).

Shared data (points, the input array, errors, `Min` / `Max`) live in module
`Geometry`, file `geometry.dfy`.

Consequences of the code that the model makes explicit:

- For `n` points the path has one move, `n - 1` lines and a close:
  `" L ".join` writes a separator only between two points.
- Each branch of the width/height comparison sets its own side to
  `max_size`. The other side is at most `max_size`, and both sides can
  equal `max_size`: the unit square gives a 1000 by 1000 canvas.
- The short side is strictly below `max_size` in the wide branch only when
  `max_size > stroke_width`; at `max_size == stroke_width` the scale is 0
  and both sides equal `max_size`.
- The fallback scale 1.0 is used only when every point is the same point.
  A batch whose points share one x but not one y takes the height branch
  and is scaled by `(max_size - 2*padding) / height`.
- For a batch of identical points the canvas is `stroke_width` wide and
  `max_size` high, and the point sits at `(padding, max_size - padding)`,
  at the bottom of the canvas rather than the top.

## Model

| member | source | states |
|---|---|---|
| `Geometry.ToPoints` | map_generator.py:13-14 | the rows of an n x 2 batch read as n points, in order; its inverse is `ToRows` (see the two round-trip lemmas) |
| `Geometry.ToRows` | map_generator.py:56 | points written back as two-entry rows, count and order kept; its inverse is `ToPoints` |
| `Geometry.PointsRowsRoundTrip` | map_generator.py:56 | points written as rows and read back are the same points |
| `Geometry.RowsPointsRoundTrip` | map_generator.py:13-14 | an n x 2 batch read as points and written back as rows is the same batch |
| `Geometry.Xs` | map_generator.py:13 | the column `coords[:, 0]`: one entry per point, the point's x, in order |
| `Geometry.Ys` | map_generator.py:14 | the column `coords[:, 1]`: one entry per point, the point's y, in order |
| `Geometry.Zip` | map_generator.py:41 | `zip` of two columns of equal length pairs the i-th entries into the i-th point |
| `Geometry.ColumnsZip` | map_generator.py:13-41 | splitting a batch into its two columns and zipping them gives back the batch |
| `Geometry.Min` | map_generator.py:17-18 | the minimum of a non-empty column is below every entry and is one of the entries |
| `Geometry.Max` | map_generator.py:17-18 | the maximum of a non-empty column is above every entry and is one of the entries |
| `Projector.BoundingBox` | map_generator.py:17-20 | every point lies in the box, and each of the four sides of the box is touched by some point |
| `Projector.Padding` | map_generator.py:23 | the two paddings together are exactly one stroke width |
| `Projector.FitCanvas` | map_generator.py:26-33 | the side of the branch taken is `max_size` and the other side is the scaled extent plus two paddings; the fallback (a zero divisor in the branch taken) gives scale 1, otherwise the scale times the branch's extent is `max_size - 2*padding` |
| `Projector.CanvasFor` | map_generator.py:17-33 | for a batch, the canvas width is `max_size` when the box is wider than high, and the height is `max_size` otherwise |
| `Projector.ProjectPoint` | map_generator.py:36-38 | with a non-zero scale the transform is invertible: the input point is recovered from the output by removing the padding, dividing by the scale, undoing the y-flip and adding the box corner |
| `Projector.Outline` | map_generator.py:36-41 | the transformed batch has one point per input point, each the transform of its input under the batch's box, canvas and padding |
| `Projector.Render` | map_generator.py:41-47 | the document carries the chosen canvas size and the stroke width; its path visits exactly the transformed points in input order and holds `n + 1` commands: one move, `n - 1` lines and one close |
| `Projector.SaveCoordsToSvg` | map_generator.py:9-47 | a shape error exactly when the array is not an n x 2 batch, the empty-reduction error exactly for a batch without points, otherwise the document of the batch's points |
| `Projector.CanvasCoversBox` | map_generator.py:26-33 | the canvas width is the scaled box width plus two paddings, the height likewise unless the fallback is taken; the fallback happens exactly for a zero-by-zero box and then gives scale 1, width `2*padding` and height `max_size` |
| `Projector.CanvasFitsMaxSize` | map_generator.py:26-33 | in the wide branch the width is positive (its fallback is never taken), the width is `max_size` and the scaled box width is `max_size - 2*padding`; otherwise the height is `max_size` (and the scaled height is `max_size - 2*padding` when positive); with `max_size >= 2*padding` the scale is non-negative and both sides are at most `max_size`, and with `max_size > 2*padding` the wide branch's height is strictly less |
| `Projector.FallbackIffIdentical` | map_generator.py:26-33 | the 1.0 fallback scale is used if and only if all points of the batch are the same point |
| `Projector.IdenticalPointsCanvas` | map_generator.py:26-38 | a batch of identical points gets scale 1, a `stroke_width` by `max_size` canvas, and every point at `(padding, max_size - padding)` |
| `Projector.Project` | map_generator.py:36-38 | the transform keeps the count and the order of the points and maps each one by translate, scale, pad and y-flip |
| `Projector.ProjectPointInside` | map_generator.py:36-38 | a point of the box lands in `[padding, width - padding] x [padding, height - padding]` when `max_size >= 2*padding` |
| `Projector.OutlineInsideCanvas` | map_generator.py:36-38 | every transformed point of the batch lies inside the padded canvas when `max_size >= stroke_width` |
| `Projector.SameScaleBothAxes` | map_generator.py:36-38 | for any two points, the X difference is the scale times the x difference and the Y difference is minus the scale times the y difference |
| `Projector.ProjectPointOnEdge` | map_generator.py:36-38 | a point on the box edge maps to the padded canvas edge: left to `padding`, right to `width - padding`, lowest y to `height - padding`, highest y to `padding` unless the fallback is taken |
| `Projector.ExtremesTouchPadding` | map_generator.py:36-38 | in a batch, the leftmost point has `X == padding`, the rightmost `X == width - padding`, and the lowest `Y == height - padding` |
| `Projector.TopTouchesPadding` | map_generator.py:31-38 | the y-flip sends a point of largest input y to `Y == padding` whenever the points are not all identical |
| `Projector.LinesTo` | map_generator.py:41 | one line command per point, in order |
| `Projector.PathCommands` | map_generator.py:41 | `n + 1` commands: a move to the first point, a line to each later point in input order, and a close |
| `Projector.PathRoundTrip` | map_generator.py:41 | the points a path visits are exactly the input points in input order: nothing dropped, repeated or reordered |
| `Projector.PathCounts` | map_generator.py:41 | the path holds exactly one move, `n - 1` lines and one close |
| `Projector.UnitSquareFixture` | map_generator.py:23-41 | the unit square with `max_size = 1000` and `stroke_width = 2` gives scale 998, a 1000 by 1000 canvas, five commands, the first a move to `(1, 999)` and the last a close |
| `Rotator.RotatePoint` | map_generator.py:54-56 | the squared distance of the rotated point from the origin is that of the point times `c*c + s*s` |
| `Rotator.RotatePointNorm` | map_generator.py:54-56 | with `c*c + s*s == 1` a single point keeps its distance from the origin |
| `Rotator.Rotate` | map_generator.py:53-56 | every point maps to `(x*c - y*s, x*s + y*c)`, count and order kept |
| `Rotator.RotateArray` | map_generator.py:53-56 | the matrix product is defined exactly for an n x 2 batch (giving the n x 2 batch of rotated points) and a two-entry vector (giving the rotated vector); any other shape is a shape error |
| `Rotator.RotatePreservesNorm` | map_generator.py:53-56 | with `c*c + s*s == 1` every point keeps its distance from the origin |
| `Rotator.RotateInverse` | map_generator.py:53-56 | with `c*c + s*s == 1`, rotating by the angle and then by its negation gives back the batch |
| `Rotator.RotateCompose` | map_generator.py:53-56 | two rotations in a row equal one rotation whose cosine and sine follow the angle addition formulas |
| `TrackName.LowerChar` | map_generator.py:61 | an ASCII capital becomes its small letter (code point plus 32), every other character is kept, and no capital remains |
| `TrackName.Lower` | map_generator.py:61 | lower-casing keeps the length and lower-cases character by character |
| `TrackName.ReplaceSpaces` | map_generator.py:61 | every space becomes a hyphen, everything else is kept, length kept |
| `TrackName.Normalize` | map_generator.py:61 | the name has the location's length, no ASCII capital and no space; spaces became hyphens, capitals their small letters, other characters stay |
| `TrackName.NormalizeIdempotent` | map_generator.py:61 | normalising a normalised name changes nothing |
| `TrackName.TrackFile` | map_generator.py:82 | the file name is `tracks/` followed by the normalised location and `.svg`, and contains no space |

## Left out

- The `fastf1` cache, event schedule, session loading, fastest lap, position data and circuit information (map_generator.py:1-6, 59-74, 77): an external library over the network; the driver loop of lines 59-82 only wires them to the modelled functions.
- The file write (map_generator.py:49-50): I/O; the model returns the document instead.
- The two-decimal formatting and the literal SVG text (map_generator.py:41, 44-47): float-to-text rendering; the document is the record `Svg(width, height, strokeWidth, path)`, the view box being `0 0 width height`.
- Floating point: coordinates, `max_size` and `stroke_width` are exact reals, so rounding, NaN and infinities are not modelled; the integer keyword defaults 1000 and 2 become the reals `DefaultMaxSize` and `DefaultStrokeWidth`.
- `np.cos`, `np.sin` and the degree-to-radian conversion with pi (map_generator.py:54-55, 77): trigonometry on floats; the rotator takes the cosine and the sine as two reals.
- Array ranks other than 1 and 2 are not representable in `NdArray`. The projector's `ndim` check rejects them (map_generator.py:10), but `np.matmul` in the rotator would broadcast over a stack of n x 2 batches, which the model does not capture.
- Empty batches: a batch with no rows carries no column count, so the model lets every empty `Matrix` pass the shape check (the projector then reports the `x.min()` error, the rotator returns an empty batch), where numpy would raise the shape error for an empty array with other than two columns.
- `TrackName.Lower`: lower-cases ASCII letters only; Python's `str.lower` also lower-cases other scripts and can change the length of a string, which the model does not capture.
