/**
 The rotator `rotate(xy, angle=...)`: the row vectors of a batch times the
 matrix [[cos, sin], [-sin, cos]].

 The cosine and the sine of the angle are taken as two reals `c` and `s`;
 the lemmas that need a rotation ask for `c*c + s*s == 1`.
 */
module Rotator {
  import opened Geometry

  /** `[x, y] @ [[c, s], [-s, c]]`, written out. The squared distance
      from the origin is multiplied by `c*c + s*s`, so a rotation keeps it. */
  function RotatePoint(p: Point, c: real, s: real): (r: Point)
    ensures SquaredNorm(r) == SquaredNorm(p) * (c * c + s * s)
  {
    NormFactor(p.x, p.y, c, s);
    Point(p.x * c - p.y * s, p.x * s + p.y * c)
  }

  /** The rotation of every point, keeping count and order. */
  function Rotate(ps: seq<Point>, c: real, s: real): (r: seq<Point>)
    ensures |r| == |ps|
    ensures forall i :: 0 <= i < |ps| ==> r[i] == RotatePoint(ps[i], c, s)
    decreases |ps|
  {
    if ps == [] then [] else [RotatePoint(ps[0], c, s)] + Rotate(ps[1..], c, s)
  }

  /** `np.matmul(xy, rot_mat)`: defined for an n x 2 batch, which gives an
      n x 2 batch of the rotated points, and for a vector of two entries,
      which gives the rotated vector; any other shape is a shape error. */
  function RotateArray(a: NdArray, c: real, s: real): (r: Result<NdArray>)
    ensures r.Ok? <==> IsPointBatch(a) || (a.Vector? && |a.items| == 2)
    ensures r.Err? ==> r.error == ShapeError
    ensures r.Ok? && a.Matrix? ==>
      && r.value.Matrix?
      && IsPointBatch(r.value)
      && |r.value.rows| == |a.rows|
      && ToPoints(r.value.rows) == Rotate(ToPoints(a.rows), c, s)
    ensures r.Ok? && a.Vector? ==>
      var p := RotatePoint(Point(a.items[0], a.items[1]), c, s);
      r.value == Vector([p.x, p.y])
  {
    match a
    case Vector(v) =>
      if |v| == 2 then
        var p := RotatePoint(Point(v[0], v[1]), c, s);
        Ok(Vector([p.x, p.y]))
      else Err(ShapeError)
    case Matrix(rows) =>
      if IsPointBatch(a) then
        var out := ToRows(Rotate(ToPoints(rows), c, s));
        assert ToPoints(out) == Rotate(ToPoints(rows), c, s);
        Ok(Matrix(out))
      else Err(ShapeError)
  }

  /** Squared distance from the origin. */
  function SquaredNorm(p: Point): real {
    p.x * p.x + p.y * p.y
  }

  lemma NormFactor(x: real, y: real, c: real, s: real)
    ensures (x * c - y * s) * (x * c - y * s) + (x * s + y * c) * (x * s + y * c)
         == (x * x + y * y) * (c * c + s * s)
  {
  }

  /** With `c*c + s*s == 1` a point keeps its distance from the origin. */
  lemma RotatePointNorm(p: Point, c: real, s: real)
    requires c * c + s * s == 1.0
    ensures SquaredNorm(RotatePoint(p, c, s)) == SquaredNorm(p)
  {
    var k := c * c + s * s;
    var n := SquaredNorm(p);
    assert SquaredNorm(RotatePoint(p, c, s)) == n * k;
    assert n * k == n * 1.0;
  }

  /** A rotation keeps every point at its distance from the origin. */
  lemma {:induction false} RotatePreservesNorm(ps: seq<Point>, c: real, s: real)
    requires c * c + s * s == 1.0
    ensures forall i :: 0 <= i < |ps| ==> SquaredNorm(Rotate(ps, c, s)[i]) == SquaredNorm(ps[i])
  {
    forall i | 0 <= i < |ps|
      ensures SquaredNorm(Rotate(ps, c, s)[i]) == SquaredNorm(ps[i])
    {
      assert Rotate(ps, c, s)[i] == RotatePoint(ps[i], c, s);
      RotatePointNorm(ps[i], c, s);
    }
  }

  lemma RotatePointInverse(p: Point, c: real, s: real)
    requires c * c + s * s == 1.0
    ensures RotatePoint(RotatePoint(p, c, s), c, -s) == p
  {
    var x, y := p.x, p.y;
    var q := RotatePoint(p, c, s);
    calc {
      q.x * c - q.y * (-s);
      (x * c - y * s) * c + (x * s + y * c) * s;
      x * (c * c + s * s);
      x;
    }
    calc {
      q.x * (-s) + q.y * c;
      -(x * c - y * s) * s + (x * s + y * c) * c;
      y * (c * c + s * s);
      y;
    }
  }

  /** Rotating by the angle and then by its negation (same cosine,
      negated sine) gives back the batch. */
  lemma {:induction false} RotateInverse(ps: seq<Point>, c: real, s: real)
    requires c * c + s * s == 1.0
    ensures Rotate(Rotate(ps, c, s), c, -s) == ps
  {
    var back := Rotate(Rotate(ps, c, s), c, -s);
    forall i | 0 <= i < |ps| ensures back[i] == ps[i] {
      RotatePointInverse(ps[i], c, s);
    }
  }

  lemma RotatePointCompose(p: Point, c1: real, s1: real, c2: real, s2: real)
    ensures RotatePoint(RotatePoint(p, c1, s1), c2, s2)
         == RotatePoint(p, c1 * c2 - s1 * s2, s1 * c2 + c1 * s2)
  {
    var x, y := p.x, p.y;
    var q := RotatePoint(p, c1, s1);
    calc {
      q.x * c2 - q.y * s2;
      (x * c1 - y * s1) * c2 - (x * s1 + y * c1) * s2;
      x * (c1 * c2 - s1 * s2) - y * (s1 * c2 + c1 * s2);
    }
    calc {
      q.x * s2 + q.y * c2;
      (x * c1 - y * s1) * s2 + (x * s1 + y * c1) * c2;
      x * (s1 * c2 + c1 * s2) + y * (c1 * c2 - s1 * s2);
    }
  }

  /** Two rotations in a row are one rotation by the summed angle, whose
      cosine and sine are given by the addition formulas. */
  lemma {:induction false} RotateCompose(ps: seq<Point>, c1: real, s1: real, c2: real, s2: real)
    ensures Rotate(Rotate(ps, c1, s1), c2, s2) == Rotate(ps, c1 * c2 - s1 * s2, s1 * c2 + c1 * s2)
  {
    var lhs := Rotate(Rotate(ps, c1, s1), c2, s2);
    var rhs := Rotate(ps, c1 * c2 - s1 * s2, s1 * c2 + c1 * s2);
    forall i | 0 <= i < |ps| ensures lhs[i] == rhs[i] {
      RotatePointCompose(ps[i], c1, s1, c2, s2);
    }
  }
}
