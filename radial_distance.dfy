/**
 * The radial-distance prefilter (simplifyRadialDist): keep the first and the last
 * point, and every interior point that lies farther than the tolerance from the
 * point just before it in the INPUT.
 */
module RadialDistance {
  import opened Geometry
  import opened Subsequences

  /** The point at position `i` is farther than `sqTolerance` (a squared distance) from the one before it. */
  predicate FarFromPrevious(points: seq<Point>, sqTolerance: real, i: nat)
    requires 1 <= i < |points|
  {
    SqDist(points[i], points[i - 1]) > sqTolerance
  }

  /**
   * The interior positions `1 .. hi - 1` whose point is farther than
   * `sqTolerance` (a squared distance) from its predecessor in the input, in
   * increasing order: the points the filter loop has kept once it reaches `hi`.
   */
  function KeptBefore(points: seq<Point>, sqTolerance: real, hi: nat): (r: seq<nat>)
    requires hi <= |points|
    ensures |r| <= hi
  {
    if hi <= 1 then []
    else
      KeptBefore(points, sqTolerance, hi - 1) +
      (if FarFromPrevious(points, sqTolerance, hi - 1) then [hi - 1] else [])
  }

  /** The kept interior positions are increasing positions in `1 .. hi - 1`. */
  lemma {:induction false} KeptBeforeIndexMap(points: seq<Point>, sqTolerance: real, hi: nat)
    requires hi <= |points|
    ensures IsIndexMap(KeptBefore(points, sqTolerance, hi), hi)
    ensures forall k :: 0 <= k < |KeptBefore(points, sqTolerance, hi)| ==> 1 <= KeptBefore(points, sqTolerance, hi)[k]
  {
    if hi > 1 {
      KeptBeforeIndexMap(points, sqTolerance, hi - 1);
    }
  }

  /** A position is kept exactly when it is interior and its point is far from its predecessor. */
  lemma {:induction false} KeptBeforeMembers(points: seq<Point>, sqTolerance: real, hi: nat, i: nat)
    requires hi <= |points|
    ensures i in KeptBefore(points, sqTolerance, hi) <==> 1 <= i < hi && FarFromPrevious(points, sqTolerance, i)
  {
    if hi > 1 {
      KeptBeforeMembers(points, sqTolerance, hi - 1, i);
    }
  }

  /**
   * The positions the filter keeps for a squared threshold `sqTolerance`: all of
   * them for up to two points; otherwise the first, the kept interior positions
   * and the last.
   */
  function FilterIndices(points: seq<Point>, sqTolerance: real): (r: seq<nat>)
    ensures IsIndexMap(r, |points|)
  {
    if |points| <= 2 then
      RangeIsIndexMap(0, |points|);
      Range(0, |points|)
    else
      var n := |points|;
      var interior := KeptBefore(points, sqTolerance, n - 1);
      KeptBeforeIndexMap(points, sqTolerance, n - 1);
      ConcatIndexMaps([0], interior, n);
      ConcatIndexMaps([0] + interior, [n - 1], n);
      [0] + interior + [n - 1]
  }

  /** The positions simplifyRadialDist returns: the threshold is `tolerance * tolerance`. */
  function RadialIndices(points: seq<Point>, tolerance: real): (r: seq<nat>)
    ensures IsIndexMap(r, |points|)
  {
    FilterIndices(points, tolerance * tolerance)
  }

  /** One more turn of the filter loop appends the point at `i` exactly when it is far from its predecessor. */
  lemma KeptStep(points: seq<Point>, sqTolerance: real, i: nat)
    requires 1 <= i < |points|
    requires InRange(points, [0] + KeptBefore(points, sqTolerance, i))
    ensures InRange(points, [0] + KeptBefore(points, sqTolerance, i + 1))
    ensures Select(points, [0] + KeptBefore(points, sqTolerance, i + 1)) ==
              Select(points, [0] + KeptBefore(points, sqTolerance, i)) +
              (if FarFromPrevious(points, sqTolerance, i) then [points[i]] else [])
  {
    var before := [0] + KeptBefore(points, sqTolerance, i);
    var step := if FarFromPrevious(points, sqTolerance, i) then [i] else [];
    assert [0] + KeptBefore(points, sqTolerance, i + 1) == before + step;
    SelectConcat(points, before, step);
  }

  /** simplifyRadialDist: the points at `RadialIndices`, gathered by the source's loops. */
  method SimplifyRadialDist(points: seq<Point>, tolerance: real) returns (simplified: seq<Point>)
    ensures simplified == Select(points, RadialIndices(points, tolerance))
  {
    simplified := [];
    if |points| <= 2 {
      for i := 0 to |points|
        invariant simplified == points[..i]
      {
        simplified := simplified + [points[i]];
      }
      SelectAll(points);
      return;
    }
    simplified := simplified + [points[0]];
    var sqrTolerance := tolerance * tolerance;
    var i := 1;
    while i < |points| - 1
      invariant 1 <= i <= |points| - 1
      invariant InRange(points, [0] + KeptBefore(points, sqrTolerance, i))
      invariant simplified == Select(points, [0] + KeptBefore(points, sqrTolerance, i))
    {
      KeptStep(points, sqrTolerance, i);
      if SqDist(points[i], points[i - 1]) > sqrTolerance {
        simplified := simplified + [points[i]];
      }
      i := i + 1;
    }
    SelectConcat(points, [0] + KeptBefore(points, sqrTolerance, i), [i]);
    simplified := simplified + [points[i]];
    assert simplified == Select(points, FilterIndices(points, sqrTolerance));
  }

  // ---------------------------------------------------------------------------
  // Properties of the filter.

  /** Up to two points come back unchanged. */
  lemma RadialSmallInputs(points: seq<Point>, tolerance: real)
    requires |points| <= 2
    ensures Select(points, RadialIndices(points, tolerance)) == points
  {
    SelectAll(points);
  }

  /** The shape of the filter's output for any threshold, from three points on. */
  lemma FilterIndicesShape(points: seq<Point>, sqTolerance: real)
    requires |points| >= 3
    ensures var r := FilterIndices(points, sqTolerance);
      2 <= |r| <= |points| && r[0] == 0 && r[|r| - 1] == |points| - 1
  {
    IndexMapLength(FilterIndices(points, sqTolerance), |points|);
  }

  /**
   * From three points on, the output starts with the first point, ends with the
   * last, and is an order-preserving selection of between 2 and `n` points.
   */
  lemma RadialIndicesShape(points: seq<Point>, tolerance: real)
    requires |points| >= 3
    ensures var r := RadialIndices(points, tolerance);
      2 <= |r| <= |points| && r[0] == 0 && r[|r| - 1] == |points| - 1 && IsIndexMap(r, |points|)
  {
    FilterIndicesShape(points, tolerance * tolerance);
  }

  /** For any threshold, an interior position is kept exactly when its point is far from its predecessor. */
  lemma FilterMembers(points: seq<Point>, sqTolerance: real, i: nat)
    requires |points| >= 3 && 0 < i < |points| - 1
    ensures i in FilterIndices(points, sqTolerance) <==> FarFromPrevious(points, sqTolerance, i)
  {
    var interior := KeptBefore(points, sqTolerance, |points| - 1);
    assert FilterIndices(points, sqTolerance) == [0] + interior + [|points| - 1];
    assert i in [0] + interior + [|points| - 1] <==> i in interior;
    KeptBeforeMembers(points, sqTolerance, |points| - 1, i);
  }

  /** The same, with the distance written out: the comparison is with the INPUT predecessor. */
  lemma FilterKeepsFarPoints(points: seq<Point>, sqTolerance: real, i: nat)
    requires |points| >= 3 && 0 < i < |points| - 1
    ensures i in FilterIndices(points, sqTolerance) <==> SqDist(points[i], points[i - 1]) > sqTolerance
  {
    FilterMembers(points, sqTolerance, i);
  }

  /**
   * An interior point is kept exactly when its squared distance to the point
   * before it in the input exceeds `tolerance * tolerance`.
   */
  lemma RadialKeepsFarPoints(points: seq<Point>, tolerance: real, i: nat)
    requires |points| >= 3 && 0 < i < |points| - 1
    ensures i in RadialIndices(points, tolerance) <==> SqDist(points[i], points[i - 1]) > tolerance * tolerance
  {
    FilterKeepsFarPoints(points, tolerance * tolerance, i);
  }

  /**
   * The filter measures from the input predecessor, not from the last point it
   * kept: with steps of squared length 0.25 and tolerance 0.6, the third point
   * lies 1.0 (squared) from the kept first point, yet it is dropped, as is
   * every other interior point.
   */
  lemma RadialComparesWithPredecessor()
    ensures var points := [Point(0.0, 0.0), Point(0.4, 0.3), Point(0.8, 0.6), Point(8.0, 6.0)];
      SqDist(points[2], points[0]) > 0.6 * 0.6 &&
      RadialIndices(points, 0.6) == [0, 3]
  {
    var points := [Point(0.0, 0.0), Point(0.4, 0.3), Point(0.8, 0.6), Point(8.0, 6.0)];
    assert 0.6 * 0.6 == 0.36;
    assert KeptBefore(points, 0.36, 1) == [];
    assert KeptBefore(points, 0.36, 2) == [];
    assert KeptBefore(points, 0.36, 3) == [];
    assert RadialIndices(points, 0.6) == FilterIndices(points, 0.36);
    assert FilterIndices(points, 0.36) == [0] + KeptBefore(points, 0.36, 3) + [3];
    assert SqDist(points[2], points[0]) == 1.0;
  }
}
