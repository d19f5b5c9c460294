/**
 The SVG projector `save_coords_to_svg`: a batch of points becomes one
 closed polygon path on a canvas whose longer side is `max_size`, with half
 a stroke width of padding on every side and the y-axis flipped.

 The file write and the two-decimal text rendering are not modelled: the
 result is the canvas size, the stroke width and the path as a sequence of
 commands.
 */
module Projector {
  import opened Geometry

  /** The keyword defaults of `save_coords_to_svg`. */
  const DefaultMaxSize: real := 1000.0
  const DefaultStrokeWidth: real := 2.0

  /** Axis-aligned bounding box of a batch. */
  datatype Box = Box(minX: real, maxX: real, minY: real, maxY: real) {
    function Width(): real { maxX - minX }
    function Height(): real { maxY - minY }
  }

  /** The uniform scale chosen for a box and the canvas sides it gives. */
  datatype Canvas = Canvas(scale: real, width: real, height: real)

  /** SVG path commands: "M x y", "L x y" and "Z". */
  datatype Command = Move(to: Point) | Line(to: Point) | Close

  datatype CommandKind = MoveKind | LineKind | CloseKind

  /** The SVG document: canvas size (also the view box), the stroke width
      and the path data. */
  datatype Svg = Svg(width: real, height: real, strokeWidth: real, path: seq<Command>)

  // ---------------------------------------------------------------------
  // Bounding box, padding and the choice of scale
  // ---------------------------------------------------------------------

  /** `x.min(), x.max(), y.min(), y.max()`: every point lies in the box and
      every side of the box touches a point. */
  function BoundingBox(ps: seq<Point>): (b: Box)
    requires |ps| > 0
    ensures forall i :: 0 <= i < |ps| ==>
      b.minX <= ps[i].x <= b.maxX && b.minY <= ps[i].y <= b.maxY
    ensures exists i :: 0 <= i < |ps| && ps[i].x == b.minX
    ensures exists i :: 0 <= i < |ps| && ps[i].x == b.maxX
    ensures exists i :: 0 <= i < |ps| && ps[i].y == b.minY
    ensures exists i :: 0 <= i < |ps| && ps[i].y == b.maxY
  {
    var xs, ys := Xs(ps), Ys(ps);
    Box(Min(xs), Max(xs), Min(ys), Max(ys))
  }

  /** Half the stroke on each side, so that the stroke is never clipped. */
  function Padding(strokeWidth: real): (pad: real)
    ensures 2.0 * pad == strokeWidth
  {
    strokeWidth / 2.0
  }

  /** The branch at the comparison of width and height: the canvas side of
      the branch taken is `maxSize`, the other side is the scaled extent plus
      two paddings, and the scale brings the long extent to `maxSize` minus
      two paddings, unless that extent is zero and scale 1 is used. */
  function FitCanvas(width: real, height: real, maxSize: real, padding: real): (c: Canvas)
    ensures width > height ==>
      c.width == maxSize && c.height == height * c.scale + 2.0 * padding
    ensures !(width > height) ==>
      c.height == maxSize && c.width == width * c.scale + 2.0 * padding
    ensures FallsBack(width, height) ==> c.scale == 1.0
    ensures !FallsBack(width, height) ==>
      c.scale * (if width > height then width else height) == maxSize - 2.0 * padding
  {
    if width > height then
      var scale := if width != 0.0 then (maxSize - 2.0 * padding) / width else 1.0;
      Canvas(scale, maxSize, height * scale + 2.0 * padding)
    else
      var scale := if height != 0.0 then (maxSize - 2.0 * padding) / height else 1.0;
      Canvas(scale, width * scale + 2.0 * padding, maxSize)
  }

  /** The divisor of the branch taken is zero, so scale 1.0 is used. */
  predicate FallsBack(width: real, height: real) {
    if width > height then width == 0.0 else height == 0.0
  }

  /** Every point of the batch is the same point. */
  predicate AllIdentical(ps: seq<Point>) {
    forall i, j :: 0 <= i < |ps| && 0 <= j < |ps| ==> ps[i] == ps[j]
  }

  // ---------------------------------------------------------------------
  // Coordinate transform
  // ---------------------------------------------------------------------

  /** Translate to the box corner, scale, pad, then flip y against the
      canvas height. */
  function ProjectPoint(p: Point, b: Box, c: Canvas, padding: real): (q: Point)
    ensures c.scale != 0.0 ==>
      p == Point(b.minX + (q.x - padding) / c.scale, b.minY + (c.height - padding - q.y) / c.scale)
  {
    var sx := (p.x - b.minX) * c.scale + padding;
    var sy := (p.y - b.minY) * c.scale + padding;
    Point(sx, c.height - sy)
  }

  /** The element-wise transform of the whole batch, in input order. */
  function Project(ps: seq<Point>, b: Box, c: Canvas, padding: real): (qs: seq<Point>)
    ensures |qs| == |ps|
    ensures forall i :: 0 <= i < |ps| ==> qs[i] == ProjectPoint(ps[i], b, c, padding)
    decreases |ps|
  {
    if ps == [] then []
    else [ProjectPoint(ps[0], b, c, padding)] + Project(ps[1..], b, c, padding)
  }

  /** The canvas `save_coords_to_svg` picks for a batch. */
  function CanvasFor(ps: seq<Point>, maxSize: real, strokeWidth: real): (c: Canvas)
    requires |ps| > 0
    ensures var b := BoundingBox(ps);
      && (b.Width() > b.Height() ==> c.width == maxSize)
      && (b.Width() <= b.Height() ==> c.height == maxSize)
  {
    var b := BoundingBox(ps);
    FitCanvas(b.Width(), b.Height(), maxSize, Padding(strokeWidth))
  }

  /** The transformed points, `zip(scaled_x, scaled_y)`. */
  function Outline(ps: seq<Point>, maxSize: real, strokeWidth: real): (qs: seq<Point>)
    requires |ps| > 0
    ensures |qs| == |ps|
    ensures forall i :: 0 <= i < |ps| ==>
      qs[i] == ProjectPoint(ps[i], BoundingBox(ps), CanvasFor(ps, maxSize, strokeWidth), Padding(strokeWidth))
  {
    Project(ps, BoundingBox(ps), CanvasFor(ps, maxSize, strokeWidth), Padding(strokeWidth))
  }

  // ---------------------------------------------------------------------
  // Path construction
  // ---------------------------------------------------------------------

  /** One "L" per point, in order. */
  function LinesTo(qs: seq<Point>): (cs: seq<Command>)
    ensures |cs| == |qs|
    ensures forall i :: 0 <= i < |qs| ==> cs[i] == Line(qs[i])
    decreases |qs|
  {
    if qs == [] then [] else [Line(qs[0])] + LinesTo(qs[1..])
  }

  /** `"M " + " L ".join(...) + " Z"`: a move to the first point, a line to
      each later point in input order, and the closing command. */
  function PathCommands(qs: seq<Point>): (cs: seq<Command>)
    requires |qs| > 0
    ensures |cs| == |qs| + 1
    ensures cs[0] == Move(qs[0])
    ensures forall i :: 0 < i < |qs| ==> cs[i] == Line(qs[i])
    ensures cs[|qs|] == Close
  {
    [Move(qs[0])] + LinesTo(qs[1..]) + [Close]
  }

  /** The point a command draws to, if any. */
  function VertexOf(c: Command): seq<Point> {
    match c
    case Move(p) => [p]
    case Line(p) => [p]
    case Close => []
  }

  /** The points a path visits, in order: the inverse of PathCommands. */
  function Vertices(cs: seq<Command>): seq<Point>
    decreases |cs|
  {
    if cs == [] then [] else VertexOf(cs[0]) + Vertices(cs[1..])
  }

  function KindOf(c: Command): CommandKind {
    match c
    case Move(_) => MoveKind
    case Line(_) => LineKind
    case Close => CloseKind
  }

  /** Number of commands of one kind in a path. */
  function Count(cs: seq<Command>, k: CommandKind): nat
    decreases |cs|
  {
    if cs == [] then 0
    else (if KindOf(cs[0]) == k then 1 else 0) + Count(cs[1..], k)
  }

  // ---------------------------------------------------------------------
  // The projector
  // ---------------------------------------------------------------------

  /** The document for a batch that passed the shape check: the chosen
      canvas size, the stroke width, and the closed polygon through the
      transformed points in input order, with one move, `n - 1` lines and
      one close. */
  function Render(ps: seq<Point>, maxSize: real, strokeWidth: real): (svg: Svg)
    requires |ps| > 0
    ensures svg.width == CanvasFor(ps, maxSize, strokeWidth).width
    ensures svg.height == CanvasFor(ps, maxSize, strokeWidth).height
    ensures svg.strokeWidth == strokeWidth
    ensures Vertices(svg.path) == Outline(ps, maxSize, strokeWidth)
    ensures |svg.path| == |ps| + 1
    ensures Count(svg.path, MoveKind) == 1
    ensures Count(svg.path, LineKind) == |ps| - 1
    ensures Count(svg.path, CloseKind) == 1
  {
    var c := CanvasFor(ps, maxSize, strokeWidth);
    var qs := Outline(ps, maxSize, strokeWidth);
    PathRoundTrip(qs);
    PathCounts(qs);
    Svg(c.width, c.height, strokeWidth, PathCommands(qs))
  }

  /** `save_coords_to_svg` without the file write: a shape error exactly
      when the array is not an n x 2 batch, the empty-reduction error of
      `x.min()` exactly for an empty batch, and the document otherwise. */
  function SaveCoordsToSvg(coords: NdArray, maxSize: real, strokeWidth: real): (r: Result<Svg>)
    ensures r == Err(ShapeError) <==> !IsPointBatch(coords)
    ensures r == Err(EmptyReduction) <==> IsPointBatch(coords) && |coords.rows| == 0
    ensures r.Ok? <==> IsPointBatch(coords) && |coords.rows| > 0
    ensures r.Ok? ==> r.value == Render(ToPoints(coords.rows), maxSize, strokeWidth)
  {
    if !IsPointBatch(coords) then Err(ShapeError)
    else if |coords.rows| == 0 then Err(EmptyReduction)
    else Ok(Render(ToPoints(coords.rows), maxSize, strokeWidth))
  }

  // ---------------------------------------------------------------------
  // Lemmas: arithmetic helpers
  // ---------------------------------------------------------------------

  lemma MulMonotone(a: real, b: real, k: real)
    requires a <= b && 0.0 <= k
    ensures a * k <= b * k
  {
    assert (b - a) * k >= 0.0;
  }

  lemma MulStrict(a: real, b: real, k: real)
    requires a < b && 0.0 < k
    ensures a * k < b * k
  {
    assert (b - a) * k > 0.0;
  }

  // ---------------------------------------------------------------------
  // Lemmas: the canvas
  // ---------------------------------------------------------------------

  /** How the canvas covers the scaled box: the width is always the scaled
      box width plus two paddings, and so is the height except when the
      fallback scale is used, which happens only for a single-point box and
      gives a `2*padding` by `maxSize` canvas. */
  lemma CanvasCoversBox(w: real, h: real, maxSize: real, padding: real)
    requires 0.0 <= w && 0.0 <= h
    ensures var c := FitCanvas(w, h, maxSize, padding);
      && c.width == w * c.scale + 2.0 * padding
      && (!FallsBack(w, h) ==> c.height == h * c.scale + 2.0 * padding)
      && (FallsBack(w, h) <==> w == 0.0 && h == 0.0)
      && (FallsBack(w, h) ==>
            c.scale == 1.0 && c.width == 2.0 * padding && c.height == maxSize)
  {
    var c := FitCanvas(w, h, maxSize, padding);
    if w > h {
      assert w != 0.0;
      assert c.scale * w == maxSize - 2.0 * padding;
    } else if h != 0.0 {
      assert c.scale * h == maxSize - 2.0 * padding;
    }
  }

  /** The long side of the box is scaled to exactly `maxSize - 2*padding`;
      the canvas side of the branch taken is `maxSize`, and with
      `maxSize >= 2*padding` the other side is at most `maxSize`, strictly
      less in the wide branch when `maxSize > 2*padding`. In the wide branch
      the width is positive, so its fallback is never taken. */
  lemma {:induction false} CanvasFitsMaxSize(w: real, h: real, maxSize: real, padding: real)
    requires 0.0 <= w && 0.0 <= h
    ensures var c := FitCanvas(w, h, maxSize, padding);
      && (w > h ==> w > 0.0 && c.scale * w == maxSize - 2.0 * padding && c.width == maxSize)
      && (!(w > h) ==> c.height == maxSize)
      && (!(w > h) && h != 0.0 ==> c.scale * h == maxSize - 2.0 * padding)
      && (maxSize >= 2.0 * padding ==> 0.0 <= c.scale && c.width <= maxSize && c.height <= maxSize)
      && (maxSize > 2.0 * padding && w > h ==> c.height < maxSize)
  {
    var c := FitCanvas(w, h, maxSize, padding);
    var room := maxSize - 2.0 * padding;
    if w > h {
      assert c.scale == room / w;
      assert c.scale * w == room;
      if room >= 0.0 {
        assert 0.0 <= c.scale;
        MulMonotone(h, w, c.scale);
      }
      if room > 0.0 {
        assert 0.0 < c.scale;
        MulStrict(h, w, c.scale);
      }
    } else if h != 0.0 {
      assert c.scale == room / h;
      assert c.scale * h == room;
      if room >= 0.0 {
        assert 0.0 <= c.scale;
        MulMonotone(w, h, c.scale);
      }
    }
  }

  /** The fallback scale is used exactly when every point of the batch is
      the same point. */
  lemma {:induction false} FallbackIffIdentical(ps: seq<Point>)
    requires |ps| > 0
    ensures var b := BoundingBox(ps); FallsBack(b.Width(), b.Height()) <==> AllIdentical(ps)
  {
    var b := BoundingBox(ps);
    CanvasCoversBox(b.Width(), b.Height(), 0.0, 0.0);
    if AllIdentical(ps) {
      var i :| 0 <= i < |ps| && ps[i].x == b.minX;
      var j :| 0 <= j < |ps| && ps[j].x == b.maxX;
      var k :| 0 <= k < |ps| && ps[k].y == b.minY;
      var l :| 0 <= l < |ps| && ps[l].y == b.maxY;
      assert ps[i] == ps[j] && ps[k] == ps[l];
    }
  }

  // ---------------------------------------------------------------------
  // Lemmas: the transformed points
  // ---------------------------------------------------------------------

  /** A point of the box lands inside the padded canvas. */
  lemma ProjectPointInside(p: Point, b: Box, maxSize: real, padding: real)
    requires b.minX <= p.x <= b.maxX && b.minY <= p.y <= b.maxY
    requires maxSize >= 2.0 * padding
    ensures var c := FitCanvas(b.Width(), b.Height(), maxSize, padding);
      var q := ProjectPoint(p, b, c, padding);
      padding <= q.x <= c.width - padding && padding <= q.y <= c.height - padding
  {
    var w, h := b.Width(), b.Height();
    var c := FitCanvas(w, h, maxSize, padding);
    CanvasCoversBox(w, h, maxSize, padding);
    CanvasFitsMaxSize(w, h, maxSize, padding);
    PlacedInside(p, b, c, padding);
  }

  /** The placement facts behind ProjectPointInside, for any non-negative
      scale whose canvas is the scaled box plus two paddings (or, on the
      y-axis, taller than that for a point on the lower edge). */
  lemma PlacedInside(p: Point, b: Box, c: Canvas, padding: real)
    requires b.minX <= p.x <= b.maxX && b.minY <= p.y <= b.maxY
    requires 0.0 <= c.scale
    requires c.width == b.Width() * c.scale + 2.0 * padding
    requires c.height == b.Height() * c.scale + 2.0 * padding
          || (p.y == b.minY && c.height >= 2.0 * padding)
    ensures var q := ProjectPoint(p, b, c, padding);
      padding <= q.x <= c.width - padding && padding <= q.y <= c.height - padding
  {
    MulMonotone(p.x - b.minX, b.Width(), c.scale);
    MulMonotone(p.y - b.minY, b.Height(), c.scale);
    if c.height != b.Height() * c.scale + 2.0 * padding {
      assert (p.y - b.minY) * c.scale == 0.0 * c.scale == 0.0;
    }
  }

  /** Every transformed point satisfies `padding <= X <= width - padding`
      and `padding <= Y <= height - padding`, whenever the canvas has room
      for the two paddings. */
  lemma {:induction false} OutlineInsideCanvas(ps: seq<Point>, maxSize: real, strokeWidth: real)
    requires |ps| > 0
    requires maxSize >= strokeWidth
    ensures var svg := Render(ps, maxSize, strokeWidth);
      var qs := Outline(ps, maxSize, strokeWidth);
      var pad := Padding(strokeWidth);
      |qs| == |ps| &&
      forall i :: 0 <= i < |qs| ==>
        pad <= qs[i].x <= svg.width - pad && pad <= qs[i].y <= svg.height - pad
  {
    var b := BoundingBox(ps);
    var pad := Padding(strokeWidth);
    var qs := Outline(ps, maxSize, strokeWidth);
    forall i | 0 <= i < |qs|
      ensures var c := CanvasFor(ps, maxSize, strokeWidth);
        pad <= qs[i].x <= c.width - pad && pad <= qs[i].y <= c.height - pad
    {
      ProjectPointInside(ps[i], b, maxSize, pad);
    }
  }

  /** One scale on both axes: differences in X are the input differences
      times the scale, differences in Y the same with the sign flipped. */
  lemma SameScaleBothAxes(ps: seq<Point>, maxSize: real, strokeWidth: real, i: nat, j: nat)
    requires |ps| > 0 && i < |ps| && j < |ps|
    ensures var qs := Outline(ps, maxSize, strokeWidth);
      var k := CanvasFor(ps, maxSize, strokeWidth).scale;
      && qs[i].x - qs[j].x == k * (ps[i].x - ps[j].x)
      && qs[i].y - qs[j].y == -k * (ps[i].y - ps[j].y)
  {
    var b, c, pad := BoundingBox(ps), CanvasFor(ps, maxSize, strokeWidth), Padding(strokeWidth);
    var qs := Outline(ps, maxSize, strokeWidth);
    assert qs == Project(ps, b, c, pad);
    assert qs[i] == ProjectPoint(ps[i], b, c, pad);
    assert qs[j] == ProjectPoint(ps[j], b, c, pad);
  }

  /** One point on the edge of the box lands on the padded edge of the
      canvas: left to `padding`, right to `width - padding`, bottom (lowest
      input y) to `height - padding` and, unless the fallback is taken, top
      to `padding`. */
  lemma ProjectPointOnEdge(p: Point, b: Box, maxSize: real, padding: real)
    requires b.minX <= b.maxX && b.minY <= b.maxY
    ensures var c := FitCanvas(b.Width(), b.Height(), maxSize, padding);
      var q := ProjectPoint(p, b, c, padding);
      && (p.x == b.minX ==> q.x == padding)
      && (p.x == b.maxX ==> q.x == c.width - padding)
      && (p.y == b.minY ==> q.y == c.height - padding)
      && (p.y == b.maxY && !FallsBack(b.Width(), b.Height()) ==> q.y == padding)
  {
    var w, h := b.Width(), b.Height();
    var c := FitCanvas(w, h, maxSize, padding);
    CanvasCoversBox(w, h, maxSize, padding);
    PlacedOnEdge(p, b, c, padding, !FallsBack(w, h));
  }

  /** The edge facts behind ProjectPointOnEdge, for any canvas whose width
      is the scaled box plus two paddings, and whose height is too when
      `fitsHeight` holds. */
  lemma PlacedOnEdge(p: Point, b: Box, c: Canvas, padding: real, fitsHeight: bool)
    requires c.width == b.Width() * c.scale + 2.0 * padding
    requires fitsHeight ==> c.height == b.Height() * c.scale + 2.0 * padding
    ensures var q := ProjectPoint(p, b, c, padding);
      && (p.x == b.minX ==> q.x == padding)
      && (p.x == b.maxX ==> q.x == c.width - padding)
      && (p.y == b.minY ==> q.y == c.height - padding)
      && (p.y == b.maxY && fitsHeight ==> q.y == padding)
  {
  }

  /** The extreme points touch the padding: the leftmost point maps to
      `X == padding`, the rightmost to `X == width - padding`, and, because
      of the flip, the lowest input y to `Y == height - padding`. */
  lemma ExtremesTouchPadding(ps: seq<Point>, maxSize: real, strokeWidth: real, i: nat)
    requires |ps| > 0 && i < |ps|
    ensures var b := BoundingBox(ps);
      var c := CanvasFor(ps, maxSize, strokeWidth);
      var q := Outline(ps, maxSize, strokeWidth)[i];
      var pad := Padding(strokeWidth);
      && (ps[i].x == b.minX ==> q.x == pad)
      && (ps[i].x == b.maxX ==> q.x == c.width - pad)
      && (ps[i].y == b.minY ==> q.y == c.height - pad)
  {
    var b := BoundingBox(ps);
    ProjectPointOnEdge(ps[i], b, maxSize, Padding(strokeWidth));
  }

  /** The y-flip sends the highest input y to `Y == padding`, the top edge
      of the canvas, unless all points are identical. */
  lemma TopTouchesPadding(ps: seq<Point>, maxSize: real, strokeWidth: real, i: nat)
    requires |ps| > 0 && i < |ps|
    requires !AllIdentical(ps)
    requires ps[i].y == BoundingBox(ps).maxY
    ensures Outline(ps, maxSize, strokeWidth)[i].y == Padding(strokeWidth)
  {
    FallbackIffIdentical(ps);
    ProjectPointOnEdge(ps[i], BoundingBox(ps), maxSize, Padding(strokeWidth));
  }

  /** A batch of identical points: the fallback scale 1.0, a
      `2*padding` by `maxSize` canvas, and every point at
      `(padding, maxSize - padding)`. */
  lemma {:induction false} IdenticalPointsCanvas(ps: seq<Point>, maxSize: real, strokeWidth: real)
    requires |ps| > 0 && AllIdentical(ps)
    ensures var c := CanvasFor(ps, maxSize, strokeWidth);
      var pad := Padding(strokeWidth);
      && c.scale == 1.0 && c.width == strokeWidth && c.height == maxSize
      && forall q :: q in Outline(ps, maxSize, strokeWidth) ==> q == Point(pad, maxSize - pad)
  {
    var b := BoundingBox(ps);
    var pad := Padding(strokeWidth);
    FallbackIffIdentical(ps);
    CanvasCoversBox(b.Width(), b.Height(), maxSize, pad);
    var qs := Outline(ps, maxSize, strokeWidth);
    forall q | q in qs ensures q == Point(pad, maxSize - pad) {
      var i :| 0 <= i < |qs| && qs[i] == q;
      var j :| 0 <= j < |ps| && ps[j].x == b.minX;
      var l :| 0 <= l < |ps| && ps[l].y == b.minY;
      assert ps[i] == ps[j] && ps[i] == ps[l];
    }
  }

  // ---------------------------------------------------------------------
  // Lemmas: the path
  // ---------------------------------------------------------------------

  lemma {:induction false} VerticesAppend(a: seq<Command>, b: seq<Command>)
    ensures Vertices(a + b) == Vertices(a) + Vertices(b)
    decreases |a|
  {
    if a == [] {
      assert a + b == b;
    } else {
      assert (a + b)[0] == a[0];
      assert (a + b)[1..] == a[1..] + b;
      VerticesAppend(a[1..], b);
      calc {
        Vertices(a + b);
        VertexOf(a[0]) + Vertices(a[1..] + b);
        VertexOf(a[0]) + (Vertices(a[1..]) + Vertices(b));
        (VertexOf(a[0]) + Vertices(a[1..])) + Vertices(b);
        Vertices(a) + Vertices(b);
      }
    }
  }

  lemma {:induction false} CountAppend(a: seq<Command>, b: seq<Command>, k: CommandKind)
    ensures Count(a + b, k) == Count(a, k) + Count(b, k)
    decreases |a|
  {
    if a == [] {
      assert a + b == b;
    } else {
      assert (a + b)[1..] == a[1..] + b;
      CountAppend(a[1..], b, k);
    }
  }

  lemma CountSingle(c: Command, k: CommandKind)
    ensures Count([c], k) == if KindOf(c) == k then 1 else 0
  {
    assert [c][1..] == [];
  }

  lemma VerticesSingle(c: Command)
    ensures Vertices([c]) == VertexOf(c)
  {
    assert [c][1..] == [];
    assert Vertices([c]) == VertexOf(c) + Vertices([]);
  }

  lemma {:induction false} VerticesOfLines(qs: seq<Point>)
    ensures Vertices(LinesTo(qs)) == qs
    decreases |qs|
  {
    if qs != [] {
      var cs := LinesTo(qs);
      assert cs[1..] == LinesTo(qs[1..]);
      VerticesOfLines(qs[1..]);
    }
  }

  lemma {:induction false} CountOfLines(qs: seq<Point>)
    ensures Count(LinesTo(qs), LineKind) == |qs|
    ensures Count(LinesTo(qs), MoveKind) == 0
    ensures Count(LinesTo(qs), CloseKind) == 0
    decreases |qs|
  {
    if qs != [] {
      var cs := LinesTo(qs);
      assert cs[1..] == LinesTo(qs[1..]);
      CountOfLines(qs[1..]);
    }
  }

  /** The path visits exactly the given points in the given order: no
      point is dropped, repeated or reordered. */
  lemma {:induction false} PathRoundTrip(qs: seq<Point>)
    requires |qs| > 0
    ensures Vertices(PathCommands(qs)) == qs
  {
    var mv, ls, cl := [Move(qs[0])], LinesTo(qs[1..]), [Close];
    assert PathCommands(qs) == mv + ls + cl;
    VerticesAppend(mv + ls, cl);
    VerticesAppend(mv, ls);
    VerticesOfLines(qs[1..]);
    VerticesSingle(Close);
    VerticesSingle(Move(qs[0]));
    calc {
      Vertices(PathCommands(qs));
      Vertices(mv + ls) + Vertices(cl);
      Vertices(mv) + Vertices(ls);
      [qs[0]] + qs[1..];
      qs;
    }
  }

  /** One move, `n - 1` lines and one close for `n` points. */
  lemma {:induction false} PathCounts(qs: seq<Point>)
    requires |qs| > 0
    ensures Count(PathCommands(qs), MoveKind) == 1
    ensures Count(PathCommands(qs), LineKind) == |qs| - 1
    ensures Count(PathCommands(qs), CloseKind) == 1
  {
    var mv, ls, cl := [Move(qs[0])], LinesTo(qs[1..]), [Close];
    assert PathCommands(qs) == mv + ls + cl;
    CountOfLines(qs[1..]);
    forall k: CommandKind
      ensures Count(PathCommands(qs), k) == Count(mv, k) + Count(ls, k) + Count(cl, k)
      ensures Count(mv, k) == (if k == MoveKind then 1 else 0)
      ensures Count(cl, k) == (if k == CloseKind then 1 else 0)
    {
      CountAppend(mv + ls, cl, k);
      CountAppend(mv, ls, k);
      CountSingle(Move(qs[0]), k);
      CountSingle(Close, k);
    }
  }

  // ---------------------------------------------------------------------
  // Regression fixture
  // ---------------------------------------------------------------------

  /** The unit square with the default `max_size = 1000` and
      `stroke_width = 2`: padding 1, scale 998, a 1000 by 1000 canvas and
      the path starting with "M 1 999". */
  lemma UnitSquareFixture()
    ensures var coords := Matrix([[0.0, 0.0], [1.0, 0.0], [1.0, 1.0], [0.0, 1.0]]);
      var r := SaveCoordsToSvg(coords, DefaultMaxSize, DefaultStrokeWidth);
      && r.Ok?
      && r.value.width == 1000.0 && r.value.height == 1000.0
      && CanvasFor(ToPoints(coords.rows), DefaultMaxSize, DefaultStrokeWidth).scale == 998.0
      && r.value.path[0] == Move(Point(1.0, 999.0))
      && |r.value.path| == 5 && r.value.path[4] == Close
  {
    var coords := Matrix([[0.0, 0.0], [1.0, 0.0], [1.0, 1.0], [0.0, 1.0]]);
    assert IsPointBatch(coords);
    var ps := ToPoints(coords.rows);
    UnitSquareRender(ps);
  }

  lemma UnitSquareRender(ps: seq<Point>)
    requires |ps| == 4
    requires ps[0] == Point(0.0, 0.0) && ps[1] == Point(1.0, 0.0)
    requires ps[2] == Point(1.0, 1.0) && ps[3] == Point(0.0, 1.0)
    ensures var svg := Render(ps, 1000.0, 2.0);
      && CanvasFor(ps, 1000.0, 2.0) == Canvas(998.0, 1000.0, 1000.0)
      && svg.width == 1000.0 && svg.height == 1000.0
      && svg.path[0] == Move(Point(1.0, 999.0))
      && |svg.path| == 5 && svg.path[4] == Close
  {
    var b, c := Box(0.0, 1.0, 0.0, 1.0), Canvas(998.0, 1000.0, 1000.0);
    UnitSquareBox(ps);
    assert FitCanvas(1.0, 1.0, 1000.0, 1.0) == c;
    assert ProjectPoint(ps[0], b, c, 1.0) == Point(1.0, 999.0);
  }

  lemma UnitSquareBox(ps: seq<Point>)
    requires |ps| == 4
    requires ps[0] == Point(0.0, 0.0) && ps[1] == Point(1.0, 0.0)
    requires ps[2] == Point(1.0, 1.0) && ps[3] == Point(0.0, 1.0)
    ensures BoundingBox(ps) == Box(0.0, 1.0, 0.0, 1.0)
  {
    var b := BoundingBox(ps);
    assert forall i :: 0 <= i < |ps| ==> 0.0 <= ps[i].x <= 1.0 && 0.0 <= ps[i].y <= 1.0;
    assert b.minX <= ps[0].x && ps[1].x <= b.maxX;
    assert b.minY <= ps[0].y && ps[2].y <= b.maxY;
  }
}
