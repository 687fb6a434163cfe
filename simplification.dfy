/**
 * The entry point of the simplifier (simplify): inputs of up to two points are
 * copied; otherwise the tolerance is squared and either Douglas-Peucker runs on
 * the input (highest quality) or the radial-distance prefilter runs first and
 * Douglas-Peucker runs on what it kept.
 *
 * The prefilter squares the tolerance it is given, and simplify hands it the
 * already squared tolerance, so the prefilter's threshold on squared distances
 * is `tolerance` to the fourth power.
 */
module Simplification {
  import opened Geometry
  import opened Subsequences
  import opened RadialDistance
  import opened DouglasPeucker

  /**
   * The positions of the fast path for a squared tolerance: the prefilter,
   * called with `sqTolerance`, then Douglas-Peucker on the points it kept,
   * whose positions `Compose` maps back to positions of the input.
   */
  function FastPathIndices(points: seq<Point>, sqTolerance: real): (r: seq<nat>)
    requires |points| >= 3
    ensures InRange(points, r)
  {
    var radial := RadialIndices(points, sqTolerance);
    RadialIndicesShape(points, sqTolerance);
    Compose(radial, DouglasPeuckerIndices(Select(points, radial), sqTolerance))
  }

  /** The positions simplify returns. */
  function SimplifyIndices(points: seq<Point>, tolerance: real, highestQuality: bool): (r: seq<nat>)
    ensures InRange(points, r)
  {
    if |points| <= 2 then
      RangeIsIndexMap(0, |points|);
      Range(0, |points|)
    else if highestQuality then
      DouglasPeuckerIndices(points, tolerance * tolerance)
    else
      FastPathIndices(points, tolerance * tolerance)
  }

  /** simplify: copies up to two points, otherwise runs the chosen pipeline. */
  method Simplify(points: seq<Point>, tolerance: real, highestQuality: bool) returns (simplified: seq<Point>)
    ensures simplified == Select(points, SimplifyIndices(points, tolerance, highestQuality))
    ensures |points| <= 2 ==> simplified == points
    ensures |points| > 2 && highestQuality ==>
              simplified == Select(points, DouglasPeuckerIndices(points, tolerance * tolerance))
    ensures |points| > 2 && !highestQuality ==>
              var radial := Select(points, RadialIndices(points, tolerance * tolerance));
              |radial| >= 2 && simplified == Select(radial, DouglasPeuckerIndices(radial, tolerance * tolerance))
  {
    simplified := [];
    if |points| <= 2 {
      for i := 0 to |points|
        invariant simplified == points[..i]
      {
        simplified := simplified + [points[i]];
      }
      SelectAll(points);
      return;
    }
    var sqTolerance := tolerance * tolerance;
    var result: seq<Point>;
    if highestQuality {
      result := points;
    } else {
      result := SimplifyRadialDist(points, sqTolerance);
      RadialIndicesShape(points, sqTolerance);
    }
    result := SimplifyDouglasPeucker(result, sqTolerance);
    simplified := result;
    if !highestQuality {
      var radial := RadialIndices(points, sqTolerance);
      SelectCompose(points, radial, DouglasPeuckerIndices(Select(points, radial), sqTolerance));
      assert SimplifyIndices(points, tolerance, highestQuality) == FastPathIndices(points, sqTolerance);
    }
  }

  // ---------------------------------------------------------------------------
  // Properties of simplify.

  /** Up to two points come back unchanged. */
  lemma SimplifySmallInputs(points: seq<Point>, tolerance: real, highestQuality: bool)
    requires |points| <= 2
    ensures Select(points, SimplifyIndices(points, tolerance, highestQuality)) == points
  {
    SelectAll(points);
  }

  /**
   * From three points on, on either path, the output starts with the first
   * point, ends with the last, and is an order-preserving selection of between
   * 2 and `n` points.
   */
  lemma SimplifyShape(points: seq<Point>, tolerance: real, highestQuality: bool)
    requires |points| >= 3
    ensures var r := SimplifyIndices(points, tolerance, highestQuality);
      2 <= |r| <= |points| && r[0] == 0 && r[|r| - 1] == |points| - 1 && IsIndexMap(r, |points|)
  {
    var sqTolerance := tolerance * tolerance;
    if highestQuality {
      DouglasPeuckerShape(points, sqTolerance);
    } else {
      FastPathShape(points, sqTolerance);
    }
  }

  /** The fast path's shape, for any squared tolerance. */
  lemma FastPathShape(points: seq<Point>, sqTolerance: real)
    requires |points| >= 3
    ensures var r := FastPathIndices(points, sqTolerance);
      2 <= |r| <= |points| && r[0] == 0 && r[|r| - 1] == |points| - 1 && IsIndexMap(r, |points|)
  {
    var radial := RadialIndices(points, sqTolerance);
    RadialIndicesShape(points, sqTolerance);
    var inner := DouglasPeuckerIndices(Select(points, radial), sqTolerance);
    DouglasPeuckerShape(Select(points, radial), sqTolerance);
    ComposeIndexMap(radial, inner, |points|);
  }

  /** A position that survives a composition with the filter's positions was kept by the filter. */
  lemma ComposedWithFilter(points: seq<Point>, sqThreshold: real, inner: seq<nat>, i: nat)
    requires |points| >= 3 && 0 < i < |points| - 1
    requires forall k :: 0 <= k < |inner| ==> inner[k] < |FilterIndices(points, sqThreshold)|
    requires i in Compose(FilterIndices(points, sqThreshold), inner)
    ensures SqDist(points[i], points[i - 1]) > sqThreshold
  {
    var outer := FilterIndices(points, sqThreshold);
    var k :| 0 <= k < |inner| && Compose(outer, inner)[k] == i;
    assert outer[inner[k]] == i;
    FilterKeepsFarPoints(points, sqThreshold, i);
  }

  /**
   * On the fast path an interior point survives only if its squared distance
   * to its input predecessor exceeds `tolerance` to the FOURTH power: the
   * prefilter squares the already squared tolerance.
   */
  lemma SimplifyFastPathThreshold(points: seq<Point>, tolerance: real, i: nat)
    requires |points| >= 3 && 0 < i < |points| - 1
    requires i in SimplifyIndices(points, tolerance, false)
    ensures SqDist(points[i], points[i - 1]) > (tolerance * tolerance) * (tolerance * tolerance)
  {
    SimplifyUsesFastPath(points, tolerance);
    FastPathFourthPower(points, tolerance, i);
  }

  /** From three points on, without highest quality, simplify takes the fast path at the squared tolerance. */
  lemma SimplifyUsesFastPath(points: seq<Point>, tolerance: real)
    requires |points| >= 3
    ensures SimplifyIndices(points, tolerance, false) == FastPathIndices(points, tolerance * tolerance)
  {
  }

  /** The fast path at `tolerance * tolerance` keeps an interior point only beyond `tolerance` to the fourth power. */
  lemma FastPathFourthPower(points: seq<Point>, tolerance: real, i: nat)
    requires |points| >= 3 && 0 < i < |points| - 1
    requires i in FastPathIndices(points, tolerance * tolerance)
    ensures SqDist(points[i], points[i - 1]) > (tolerance * tolerance) * (tolerance * tolerance)
  {
    FastPathThreshold(points, tolerance * tolerance, (tolerance * tolerance) * (tolerance * tolerance), i);
  }

  /**
   * The fast path for a squared tolerance keeps an interior point only if it
   * is farther than `sqThreshold`, the square of that squared tolerance.
   */
  lemma FastPathThreshold(points: seq<Point>, sqTolerance: real, sqThreshold: real, i: nat)
    requires |points| >= 3 && 0 < i < |points| - 1
    requires sqThreshold == sqTolerance * sqTolerance
    requires i in FastPathIndices(points, sqTolerance)
    ensures SqDist(points[i], points[i - 1]) > sqThreshold
  {
    var radial := RadialIndices(points, sqTolerance);
    RadialIndicesShape(points, sqTolerance);
    var inner := DouglasPeuckerIndices(Select(points, radial), sqTolerance);
    assert radial == FilterIndices(points, sqThreshold);
    ComposedWithFilter(points, sqThreshold, inner, i);
  }

  /** Only the square of the tolerance matters, so a negative tolerance acts as its absolute value. */
  lemma SimplifyNegativeTolerance(points: seq<Point>, tolerance: real, highestQuality: bool)
    ensures SimplifyIndices(points, -tolerance, highestQuality) == SimplifyIndices(points, tolerance, highestQuality)
  {
    assert (-tolerance) * (-tolerance) == tolerance * tolerance;
  }
}
