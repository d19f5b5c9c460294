/**
 Points, coordinate batches and the reductions over them that the track map
 generator shares between its rotation and its SVG projection.

 Coordinates are exact reals: the floating-point behaviour of the original
 numeric arrays is not modelled.
 */
module Geometry {

  /** One position sample of a lap trace. */
  datatype Point = Point(x: real, y: real)

  /** The numeric array handed to the routines: either one-dimensional or
      a batch of rows. Only a batch whose every row has two entries is a
      point batch. */
  datatype NdArray = Vector(items: seq<real>) | Matrix(rows: seq<seq<real>>)

  /** The `ValueError`s the routines raise: a batch of the wrong shape, and
      the minimum of a batch that holds no point at all. */
  datatype Error = ShapeError | EmptyReduction

  datatype Result<T> = Ok(value: T) | Err(error: Error)

  /** `coords.ndim == 2 and coords.shape[1] == 2` */
  predicate IsPointBatch(a: NdArray) {
    a.Matrix? && forall i :: 0 <= i < |a.rows| ==> |a.rows[i]| == 2
  }

  /** Reads the rows of a point batch as points, in order. */
  function ToPoints(rows: seq<seq<real>>): (ps: seq<Point>)
    requires forall i :: 0 <= i < |rows| ==> |rows[i]| == 2
    ensures |ps| == |rows|
    ensures forall i :: 0 <= i < |rows| ==> ps[i] == Point(rows[i][0], rows[i][1])
  {
    seq(|rows|, i requires 0 <= i < |rows| => Point(rows[i][0], rows[i][1]))
  }

  /** Writes points back as two-entry rows, in order. */
  function ToRows(ps: seq<Point>): (rows: seq<seq<real>>)
    ensures |rows| == |ps|
    ensures forall i :: 0 <= i < |ps| ==> rows[i] == [ps[i].x, ps[i].y]
  {
    seq(|ps|, i requires 0 <= i < |ps| => [ps[i].x, ps[i].y])
  }

  /** The column `coords[:, 0]`. */
  function Xs(ps: seq<Point>): (xs: seq<real>)
    ensures |xs| == |ps|
    ensures forall i :: 0 <= i < |ps| ==> xs[i] == ps[i].x
  {
    seq(|ps|, i requires 0 <= i < |ps| => ps[i].x)
  }

  /** The column `coords[:, 1]`. */
  function Ys(ps: seq<Point>): (ys: seq<real>)
    ensures |ys| == |ps|
    ensures forall i :: 0 <= i < |ps| ==> ys[i] == ps[i].y
  {
    seq(|ps|, i requires 0 <= i < |ps| => ps[i].y)
  }

  /** Pairs two columns of equal length back into points:
      `zip(xs, ys)`. */
  function Zip(xs: seq<real>, ys: seq<real>): (ps: seq<Point>)
    requires |xs| == |ys|
    ensures |ps| == |xs|
    ensures forall i :: 0 <= i < |xs| ==> ps[i] == Point(xs[i], ys[i])
  {
    seq(|xs|, i requires 0 <= i < |xs| => Point(xs[i], ys[i]))
  }

  /** Splitting a batch into its two columns and zipping them again gives
      back the batch: no point is lost, swapped or reordered. */
  lemma ColumnsZip(ps: seq<Point>)
    ensures Zip(Xs(ps), Ys(ps)) == ps
  {
    var zs := Zip(Xs(ps), Ys(ps));
    forall i | 0 <= i < |ps| ensures zs[i] == ps[i] {
      assert zs[i] == Point(ps[i].x, ps[i].y);
    }
  }

  /** Points written as rows read back as the same points. */
  lemma PointsRowsRoundTrip(ps: seq<Point>)
    ensures ToPoints(ToRows(ps)) == ps
  {
  }

  /** An n x 2 batch read as points and written back is the same batch. */
  lemma RowsPointsRoundTrip(rows: seq<seq<real>>)
    requires forall i :: 0 <= i < |rows| ==> |rows[i]| == 2
    ensures ToRows(ToPoints(rows)) == rows
  {
    var back := ToRows(ToPoints(rows));
    forall i | 0 <= i < |rows| ensures back[i] == rows[i] {
      assert rows[i] == [rows[i][0], rows[i][1]];
    }
  }

  /** The smallest entry of a non-empty sequence. */
  function Min(s: seq<real>): (m: real)
    requires |s| > 0
    ensures forall i :: 0 <= i < |s| ==> m <= s[i]
    ensures exists i :: 0 <= i < |s| && s[i] == m
    decreases |s|
  {
    if |s| == 1 then s[0]
    else
      var rest := Min(s[1..]);
      assert forall i :: 1 <= i < |s| ==> s[1..][i - 1] == s[i];
      if s[0] <= rest then s[0] else rest
  }

  /** The largest entry of a non-empty sequence. */
  function Max(s: seq<real>): (m: real)
    requires |s| > 0
    ensures forall i :: 0 <= i < |s| ==> s[i] <= m
    ensures exists i :: 0 <= i < |s| && s[i] == m
    decreases |s|
  {
    if |s| == 1 then s[0]
    else
      var rest := Max(s[1..]);
      assert forall i :: 1 <= i < |s| ==> s[1..][i - 1] == s[i];
      if s[0] >= rest then s[0] else rest
  }
}
