/**
 * Squared-distance primitives of the polyline simplifier (getSqDist and
 * getSqSegDist).
 *
 * Coordinates and distances are `real`: exact rational arithmetic stands in for
 * the generic `Distance` type, so there is no rounding, overflow or NaN.
 */
module Geometry {

  /** A vertex of a polyline: two coordinates, never changed by the algorithm. */
  datatype Point = Point(x: real, y: real)

  /**
   * The product of two coordinates, with the sign rules of multiplication.
   * Every product of the distance formulas goes through here, so that callers
   * see these sign facts directly.
   */
  function Product(a: real, b: real): (r: real)
    ensures (a > 0.0 && b > 0.0) || (a < 0.0 && b < 0.0) ==> r > 0.0
    ensures (a >= 0.0 && b >= 0.0) || (a <= 0.0 && b <= 0.0) ==> r >= 0.0
  {
    a * b
  }

  /** The square of a coordinate difference: never negative, and zero only for zero. */
  function Square(a: real): (r: real)
    ensures r >= 0.0
    ensures a != 0.0 ==> r > 0.0
  {
    Product(a, a)
  }

  /** Squared Euclidean distance between two points (getSqDist). */
  function SqDist(p1: Point, p2: Point): (r: real)
    ensures r >= 0.0
    ensures p1 == p2 ==> r == 0.0
    ensures r > 0.0 <==> p1 != p2
  {
    Square(p1.x - p2.x) + Square(p1.y - p2.y)
  }

  /** Whether the segment `[p1, p2]` has non-zero length, as getSqSegDist tests it. */
  predicate HasLength(p1: Point, p2: Point)
  {
    p2.x - p1.x != 0.0 || p2.y - p1.y != 0.0
  }

  /** The dot product of `p - p1` with the segment direction `p2 - p1`. */
  function Dot(p: Point, p1: Point, p2: Point): (r: real)
  {
    Product(p.x - p1.x, p2.x - p1.x) + Product(p.y - p1.y, p2.y - p1.y)
  }

  /**
   * The projection parameter `t` of `p` on a segment of non-zero length: the
   * dot product divided by the squared length of the segment.
   */
  function Projection(p: Point, p1: Point, p2: Point): (t: real)
    requires HasLength(p1, p2)
  {
    Dot(p, p1, p2) / SqDist(p2, p1)
  }

  /** The point `p1 + (p2 - p1) * s` of the line through `p1` and `p2`. */
  function PointAt(p1: Point, p2: Point, s: real): (q: Point)
  {
    Point(p1.x + (p2.x - p1.x) * s, p1.y + (p2.y - p1.y) * s)
  }

  /**
   * The point `(x, y)` that getSqSegDist measures to: a zero-length segment is
   * the single point `p1`; otherwise a projection beyond the far end selects
   * `p2`, one strictly inside selects the foot of the perpendicular, and one at
   * or before the near end leaves `p1`. On a segment of non-zero length this
   * is the point of the segment at the projection clamped to `[0, 1]`.
   */
  function Nearest(p: Point, p1: Point, p2: Point): (q: Point)
    ensures HasLength(p1, p2) ==> q == PointAt(p1, p2, Clamp(Projection(p, p1, p2)))
    ensures !HasLength(p1, p2) ==> q == p1
  {
    if HasLength(p1, p2) then
      var t := Projection(p, p1, p2);
      if t > 1.0 then
        assert PointAt(p1, p2, 1.0) == p2;
        p2
      else if t > 0.0 then PointAt(p1, p2, t)
      else
        assert PointAt(p1, p2, 0.0) == p1;
        p1
    else p1
  }

  /** Squared distance from `p` to the segment `[p1, p2]` (getSqSegDist). */
  function SqSegDist(p: Point, p1: Point, p2: Point): (r: real)
    ensures r >= 0.0
  {
    SqDist(p, Nearest(p, p1, p2))
  }

  // ---------------------------------------------------------------------------
  // Properties of getSqDist.

  /** The squared distance does not depend on the order of its arguments. */
  lemma SqDistSymmetric(p1: Point, p2: Point)
    ensures SqDist(p1, p2) == SqDist(p2, p1)
  {
  }

  // ---------------------------------------------------------------------------
  // Properties of getSqSegDist.

  /**
   * The branches of getSqSegDist: a zero-length segment and a projection at or
   * before `p1` measure to `p1`, a projection beyond `p2` measures to `p2`, and
   * otherwise the foot of the perpendicular is used.
   */
  lemma SqSegDistCases(p: Point, p1: Point, p2: Point)
    ensures !HasLength(p1, p2) ==> SqSegDist(p, p1, p2) == SqDist(p, p1)
    ensures HasLength(p1, p2) && Projection(p, p1, p2) > 1.0 ==>
              SqSegDist(p, p1, p2) == SqDist(p, p2)
    ensures HasLength(p1, p2) && Projection(p, p1, p2) <= 0.0 ==>
              SqSegDist(p, p1, p2) == SqDist(p, p1)
    ensures HasLength(p1, p2) && 0.0 < Projection(p, p1, p2) <= 1.0 ==>
              SqSegDist(p, p1, p2) == SqDist(p, PointAt(p1, p2, Projection(p, p1, p2)))
  {
  }

  /** The parameter of the point getSqSegDist measures to: the projection clamped to `[0, 1]`. */
  function Clamp(t: real): (c: real)
    ensures 0.0 <= c <= 1.0
    ensures 0.0 <= t <= 1.0 ==> c == t
  {
    if t > 1.0 then 1.0 else if t > 0.0 then t else 0.0
  }

  /** Every point of a zero-length segment is `p1`. */
  lemma PointAtDegenerate(p1: Point, p2: Point, s: real)
    requires !HasLength(p1, p2)
    ensures PointAt(p1, p2, s) == p1
  {
  }

  /** The quadratic `P - 2sW + s*s*D` in the parameter `s`. */
  function Quadratic(P: real, W: real, D: real, s: real): (r: real)
  {
    P - 2.0 * s * W + s * s * D
  }

  /** The squared distance from `p` to the point at parameter `s`, as a quadratic in `s`. */
  lemma Expand(p: Point, p1: Point, p2: Point, s: real)
    ensures SqDist(p, PointAt(p1, p2, s)) == Quadratic(SqDist(p, p1), Dot(p, p1, p2), SqDist(p2, p1), s)
  {
  }

  /**
   * For the quadratic with `D > 0`, the clamped minimiser `Clamp(W / D)` is no
   * worse than any `s` in `[0, 1]`.
   */
  lemma ClampMinimizes(P: real, W: real, D: real, s: real)
    requires D > 0.0 && 0.0 <= s <= 1.0
    ensures Quadratic(P, W, D, Clamp(W / D)) <= Quadratic(P, W, D, s)
  {
    var t := W / D;
    assert W == t * D;
    var q := Quadratic(P, W, D, s);
    if t > 1.0 {
      assert Clamp(t) == 1.0;
      assert q - Quadratic(P, W, D, 1.0) == Product(1.0 - s, Product(2.0 * t - 1.0 - s, D));
    } else if t > 0.0 {
      assert Clamp(t) == t;
      assert q - Quadratic(P, W, D, t) == Product(Square(s - t), D);
    } else {
      assert Clamp(t) == 0.0;
      assert q - Quadratic(P, W, D, 0.0) == Product(s, Product(s - 2.0 * t, D));
    }
  }

  /**
   * getSqSegDist is the squared distance from `p` to the NEAREST point of the
   * segment: no point `PointAt(p1, p2, s)` with `0 <= s <= 1` is closer.
   */
  lemma SqSegDistIsMinimum(p: Point, p1: Point, p2: Point, s: real)
    requires 0.0 <= s <= 1.0
    ensures SqSegDist(p, p1, p2) <= SqDist(p, PointAt(p1, p2, s))
  {
    if HasLength(p1, p2) {
      var c := Clamp(Projection(p, p1, p2));
      Expand(p, p1, p2, s);
      Expand(p, p1, p2, c);
      ClampMinimizes(SqDist(p, p1), Dot(p, p1, p2), SqDist(p2, p1), s);
    } else {
      PointAtDegenerate(p1, p2, s);
    }
  }

  /**
   * Consequences at the endpoints: the distance to the segment never exceeds the
   * distance to either endpoint, and it is zero when `p` is an endpoint.
   */
  lemma SqSegDistAtEndpoints(p: Point, p1: Point, p2: Point)
    ensures SqSegDist(p, p1, p2) <= SqDist(p, p1)
    ensures SqSegDist(p, p1, p2) <= SqDist(p, p2)
    ensures p == p1 || p == p2 ==> SqSegDist(p, p1, p2) == 0.0
  {
    SqSegDistIsMinimum(p, p1, p2, 0.0);
    assert PointAt(p1, p2, 0.0) == p1;
    SqSegDistIsMinimum(p, p1, p2, 1.0);
    assert PointAt(p1, p2, 1.0) == p2;
  }
}
