/**
 * Ramer-Douglas-Peucker simplification (simplifyDPStep and
 * simplifyDouglasPeucker).
 *
 * A step over the range `[first, last]` scans the interior points for the one
 * farthest from the segment `points[first] .. points[last]`. When that point is
 * farther than the squared tolerance, the step keeps it as an anchor and
 * recurses on both halves; otherwise it keeps nothing. The kept positions are
 * described by `StepIndices`, and the methods are proved to append exactly the
 * points at those positions.
 */
module DouglasPeucker {
  import opened Geometry
  import opened Subsequences

  /** The squared distance of the point at `i` from the segment between the points at `first` and `last`. */
  function Deviation(points: seq<Point>, first: nat, last: nat, i: nat): (r: real)
    requires first < |points| && last < |points| && i < |points|
    ensures r >= 0.0
  {
    SqSegDist(points[i], points[first], points[last])
  }

  /** No interior point of `[first, last]` deviates from its segment by more than `sqTolerance`. */
  predicate WithinTolerance(points: seq<Point>, first: nat, last: nat, sqTolerance: real)
    requires first < |points| && last < |points|
  {
    forall j :: first < j < last ==> Deviation(points, first, last, j) <= sqTolerance
  }

  /** The two variables of the scanning loop: the anchor found so far and its deviation. */
  datatype Scan = Scan(index: nat, maxSqDist: real)

  /**
   * The loop variables once the scan has looked at the positions
   * `first + 1 .. hi - 1`: it starts from `(0, sqTolerance)` and moves to a
   * position only when its deviation is STRICTLY greater than the best so far.
   */
  function MaxScan(points: seq<Point>, first: nat, last: nat, sqTolerance: real, hi: nat): (r: Scan)
    requires first < |points| && last < |points| && hi <= |points|
    ensures r.index == 0 || first < r.index < hi
  {
    if hi <= first + 1 then Scan(0, sqTolerance)
    else
      var s := MaxScan(points, first, last, sqTolerance, hi - 1);
      var d := Deviation(points, first, last, hi - 1);
      if d > s.maxSqDist then Scan(hi - 1, d) else s
  }

  /**
   * The best deviation never drops below `sqTolerance`, and once it exceeds
   * it, it is the deviation of an interior position the scan has seen.
   */
  lemma {:induction false} ScanAnchor(points: seq<Point>, first: nat, last: nat, sqTolerance: real, hi: nat)
    requires first < |points| && last < |points| && hi <= |points|
    ensures var r := MaxScan(points, first, last, sqTolerance, hi);
      r.maxSqDist >= sqTolerance &&
      (r.maxSqDist > sqTolerance ==> first < r.index < hi && r.maxSqDist == Deviation(points, first, last, r.index))
  {
    if hi > first + 1 {
      ScanAnchor(points, first, last, sqTolerance, hi - 1);
    }
  }

  /**
   * The positions one step over `[first, last]` appends, in the order it
   * appends them: those kept left of the anchor, the anchor, those kept right
   * of it. Nothing is kept when no interior deviation exceeds `sqTolerance`,
   * and never more than the `last - first - 1` interior positions.
   */
  function StepIndices(points: seq<Point>, first: nat, last: nat, sqTolerance: real): (r: seq<nat>)
    requires first <= last < |points|
    ensures r == [] || |r| < last - first
    decreases last - first
  {
    var s := MaxScan(points, first, last, sqTolerance, last);
    if s.maxSqDist > sqTolerance then
      ScanAnchor(points, first, last, sqTolerance, last);
      var index := s.index;
      var left := if index - first > 1 then StepIndices(points, first, index, sqTolerance) else [];
      var right := if last - index > 1 then StepIndices(points, index, last, sqTolerance) else [];
      left + [index] + right
    else
      []
  }

  /**
   * One level of the recursion: with an anchor, the positions on its left, the
   * anchor and the positions on its right; without one, none.
   */
  lemma StepUnfold(points: seq<Point>, first: nat, last: nat, sqTolerance: real)
    requires first <= last < |points|
    ensures var s := MaxScan(points, first, last, sqTolerance, last);
      if s.maxSqDist > sqTolerance then
        first < s.index < last &&
        StepIndices(points, first, last, sqTolerance) ==
          (if s.index - first > 1 then StepIndices(points, first, s.index, sqTolerance) else []) + [s.index] +
          (if last - s.index > 1 then StepIndices(points, s.index, last, sqTolerance) else [])
      else
        StepIndices(points, first, last, sqTolerance) == []
  {
    ScanAnchor(points, first, last, sqTolerance, last);
  }

  /** A step keeps only interior positions of `[first, last]`, in increasing order. */
  lemma {:induction false} StepIndicesBounds(points: seq<Point>, first: nat, last: nat, sqTolerance: real)
    requires first <= last < |points|
    ensures var r := StepIndices(points, first, last, sqTolerance);
      IsIndexMap(r, last) && forall k :: 0 <= k < |r| ==> first < r[k]
    decreases last - first
  {
    var s := MaxScan(points, first, last, sqTolerance, last);
    StepUnfold(points, first, last, sqTolerance);
    if s.maxSqDist > sqTolerance {
      var index := s.index;
      var left: seq<nat> := [];
      if index - first > 1 {
        StepIndicesBounds(points, first, index, sqTolerance);
        left := StepIndices(points, first, index, sqTolerance);
      }
      var right: seq<nat> := [];
      if last - index > 1 {
        StepIndicesBounds(points, index, last, sqTolerance);
        right := StepIndices(points, index, last, sqTolerance);
      }
      JoinAround(left, index, right, first, last);
    }
  }

  /** The positions a step keeps are positions of the input. */
  lemma StepInRange(points: seq<Point>, first: nat, last: nat, sqTolerance: real)
    requires first <= last < |points|
    ensures InRange(points, StepIndices(points, first, last, sqTolerance))
  {
    StepIndicesBounds(points, first, last, sqTolerance);
  }

  /**
   * What one step appends, in the order simplifyDPStep appends it: the left
   * recursion's points (when the gap is wider than one), the anchor, then the
   * right recursion's points (likewise).
   */
  lemma StepAppends(points: seq<Point>, first: nat, last: nat, sqTolerance: real, out: seq<Point>)
    requires first <= last < |points|
    requires MaxScan(points, first, last, sqTolerance, last).maxSqDist > sqTolerance
    ensures var index := MaxScan(points, first, last, sqTolerance, last).index;
      first < index < last &&
      InRange(points, StepIndices(points, first, last, sqTolerance)) &&
      (index - first > 1 ==> InRange(points, StepIndices(points, first, index, sqTolerance))) &&
      (last - index > 1 ==> InRange(points, StepIndices(points, index, last, sqTolerance))) &&
      (var afterLeft := if index - first > 1 then out + Select(points, StepIndices(points, first, index, sqTolerance)) else out;
       var afterAnchor := afterLeft + [points[index]];
       (if last - index > 1 then afterAnchor + Select(points, StepIndices(points, index, last, sqTolerance)) else afterAnchor)
         == out + Select(points, StepIndices(points, first, last, sqTolerance)))
  {
    var index := MaxScan(points, first, last, sqTolerance, last).index;
    StepUnfold(points, first, last, sqTolerance);
    StepInRange(points, first, last, sqTolerance);
    var left: seq<nat> := [];
    if index - first > 1 {
      StepInRange(points, first, index, sqTolerance);
      left := StepIndices(points, first, index, sqTolerance);
    } else {
      assert out + Select(points, left) == out;
    }
    var right: seq<nat> := [];
    if last - index > 1 {
      StepInRange(points, index, last, sqTolerance);
      right := StepIndices(points, index, last, sqTolerance);
    } else {
      assert out + Select(points, left) + [points[index]] + Select(points, right) == out + Select(points, left) + [points[index]];
    }
    SelectAround(points, out, left, index, right);
  }

  /**
   * simplifyDPStep: scans the interior of `[first, last]`, then recurses on
   * each side of the anchor, appending to the caller's output `out`.
   */
  method SimplifyDPStep(points: seq<Point>, first: nat, last: nat, sqTolerance: real, out: seq<Point>)
    returns (out': seq<Point>)
    requires first <= last < |points|
    ensures InRange(points, StepIndices(points, first, last, sqTolerance))
    ensures out' == out + Select(points, StepIndices(points, first, last, sqTolerance))
    decreases last - first
  {
    var maxSqDist := sqTolerance;
    var index := 0;
    var i := first + 1;
    while i < last
      invariant first + 1 <= i && (i <= last || i == first + 1)
      invariant Scan(index, maxSqDist) == MaxScan(points, first, last, sqTolerance, i)
    {
      var sqDist := SqSegDist(points[i], points[first], points[last]);
      if sqDist > maxSqDist {
        index := i;
        maxSqDist := sqDist;
      }
      i := i + 1;
    }
    assert Scan(index, maxSqDist) == MaxScan(points, first, last, sqTolerance, last);
    out' := out;
    if maxSqDist > sqTolerance {
      StepAppends(points, first, last, sqTolerance, out);
      if index - first > 1 {
        out' := SimplifyDPStep(points, first, index, sqTolerance, out');
      }
      out' := out' + [points[index]];
      if last - index > 1 {
        out' := SimplifyDPStep(points, index, last, sqTolerance, out');
      }
    } else {
      StepUnfold(points, first, last, sqTolerance);
      assert Select(points, []) == [];
    }
  }

  /** The positions simplifyDouglasPeucker returns: the first, those of the step over the whole input, the last. */
  function DouglasPeuckerIndices(points: seq<Point>, sqTolerance: real): (r: seq<nat>)
    requires |points| >= 1
    ensures InRange(points, r)
  {
    StepInRange(points, 0, |points| - 1, sqTolerance);
    [0] + StepIndices(points, 0, |points| - 1, sqTolerance) + [|points| - 1]
  }

  /** simplifyDouglasPeucker: the first point, the step over `[0, n - 1]`, the last point. */
  method SimplifyDouglasPeucker(points: seq<Point>, sqTolerance: real) returns (simplified: seq<Point>)
    requires |points| >= 1
    ensures simplified == Select(points, DouglasPeuckerIndices(points, sqTolerance))
  {
    simplified := [];
    simplified := simplified + [points[0]];
    var last := |points| - 1;
    simplified := SimplifyDPStep(points, 0, last, sqTolerance, simplified);
    simplified := simplified + [points[last]];
    var inner := StepIndices(points, 0, last, sqTolerance);
    StepInRange(points, 0, last, sqTolerance);
    assert [points[0]] == Select(points, [0]);
    assert [points[last]] == Select(points, [last]);
    SelectConcat(points, [0], inner);
    SelectConcat(points, [0] + inner, [last]);
  }

  // ---------------------------------------------------------------------------
  // Properties of the scan.

  /** The scan's best deviation is at least the deviation of every interior position it has seen. */
  lemma {:induction false} ScanIsMaximum(points: seq<Point>, first: nat, last: nat, sqTolerance: real, hi: nat, j: nat)
    requires first < |points| && last < |points| && hi <= |points|
    requires first < j < hi
    ensures Deviation(points, first, last, j) <= MaxScan(points, first, last, sqTolerance, hi).maxSqDist
  {
    if j < hi - 1 {
      ScanIsMaximum(points, first, last, sqTolerance, hi - 1, j);
    }
  }

  /**
   * The anchor is the FIRST position of greatest deviation: every position the
   * scan saw before it deviates strictly less, because only a strictly greater
   * deviation moves the anchor.
   */
  lemma {:induction false} ScanFirstMaximum(points: seq<Point>, first: nat, last: nat, sqTolerance: real, hi: nat, j: nat)
    requires first < |points| && last < |points| && hi <= |points|
    requires MaxScan(points, first, last, sqTolerance, hi).maxSqDist > sqTolerance
    requires first < j < hi && j < MaxScan(points, first, last, sqTolerance, hi).index
    ensures Deviation(points, first, last, j) < MaxScan(points, first, last, sqTolerance, hi).maxSqDist
  {
    var s := MaxScan(points, first, last, sqTolerance, hi - 1);
    ScanAnchor(points, first, last, sqTolerance, hi - 1);
    if MaxScan(points, first, last, sqTolerance, hi) == s {
      ScanFirstMaximum(points, first, last, sqTolerance, hi - 1, j);
    } else {
      ScanIsMaximum(points, first, last, sqTolerance, hi - 1, j);
    }
  }

  // ---------------------------------------------------------------------------
  // Properties of a step.

  /** A step keeps nothing exactly when no interior point deviates by more than `sqTolerance`. */
  lemma StepEmptyIffWithin(points: seq<Point>, first: nat, last: nat, sqTolerance: real)
    requires first <= last < |points|
    ensures StepIndices(points, first, last, sqTolerance) == [] <==> WithinTolerance(points, first, last, sqTolerance)
  {
    var s := MaxScan(points, first, last, sqTolerance, last);
    StepUnfold(points, first, last, sqTolerance);
    ScanAnchor(points, first, last, sqTolerance, last);
    if s.maxSqDist <= sqTolerance {
      forall j | first < j < last
        ensures Deviation(points, first, last, j) <= sqTolerance
      {
        ScanIsMaximum(points, first, last, sqTolerance, last, j);
      }
    }
  }

  /**
   * When some interior point deviates by more than `sqTolerance`, the step
   * keeps the anchor: an interior position of greatest deviation, with every
   * position before it deviating strictly less.
   */
  lemma StepKeepsAnchor(points: seq<Point>, first: nat, last: nat, sqTolerance: real, j: nat)
    requires first <= last < |points|
    requires first < j < last && Deviation(points, first, last, j) > sqTolerance
    ensures var a := MaxScan(points, first, last, sqTolerance, last).index;
      first < a < last && a in StepIndices(points, first, last, sqTolerance) &&
      Deviation(points, first, last, j) <= Deviation(points, first, last, a) &&
      (forall k :: first < k < a ==> Deviation(points, first, last, k) < Deviation(points, first, last, a))
  {
    var s := MaxScan(points, first, last, sqTolerance, last);
    ScanIsMaximum(points, first, last, sqTolerance, last, j);
    ScanAnchor(points, first, last, sqTolerance, last);
    StepUnfold(points, first, last, sqTolerance);
    forall k | first < k < s.index
      ensures Deviation(points, first, last, k) < Deviation(points, first, last, s.index)
    {
      ScanFirstMaximum(points, first, last, sqTolerance, last, k);
    }
  }

  // ---------------------------------------------------------------------------
  // Properties of simplifyDouglasPeucker.

  /**
   * From two points on, the output starts with the first point, ends with the
   * last, and is an order-preserving selection of between 2 and `n` points.
   */
  lemma DouglasPeuckerShape(points: seq<Point>, sqTolerance: real)
    requires |points| >= 2
    ensures var r := DouglasPeuckerIndices(points, sqTolerance);
      2 <= |r| <= |points| && r[0] == 0 && r[|r| - 1] == |points| - 1 && IsIndexMap(r, |points|)
  {
    var n := |points|;
    var inner := StepIndices(points, 0, n - 1, sqTolerance);
    StepIndicesBounds(points, 0, n - 1, sqTolerance);
    ConcatIndexMaps([0], inner, n);
    ConcatIndexMaps([0] + inner, [n - 1], n);
    IndexMapLength([0] + inner + [n - 1], n);
  }

  /** A single point comes back twice: once as the first point and once as the last. */
  lemma DouglasPeuckerOnePoint(p: Point, sqTolerance: real)
    ensures DouglasPeuckerIndices([p], sqTolerance) == [0, 0]
    ensures Select([p], DouglasPeuckerIndices([p], sqTolerance)) == [p, p]
  {
    StepUnfold([p], 0, 0, sqTolerance);
  }

  /**
   * When no point deviates from the chord between the first and the last by
   * more than `sqTolerance`, only the two endpoints remain.
   */
  lemma DouglasPeuckerCollapses(points: seq<Point>, sqTolerance: real)
    requires |points| >= 1
    requires WithinTolerance(points, 0, |points| - 1, sqTolerance)
    ensures DouglasPeuckerIndices(points, sqTolerance) == [0, |points| - 1]
  {
    assert StepIndices(points, 0, |points| - 1, sqTolerance) == [] by {
      StepEmptyIffWithin(points, 0, |points| - 1, sqTolerance);
    }
    assert [0] + [] + [|points| - 1] == [0, |points| - 1];
  }

  /**
   * The positions `k .. n - 2` all lie on the segment between the first and
   * the last point, the `j`-th at parameter `at[j]`: the condition of
   * `CollinearCollapses`, unrolled one position at a time.
   */
  predicate OnChordFrom(points: seq<Point>, at: seq<real>, k: nat)
    requires 1 <= |points| && |at| == |points|
    decreases |points| - k
  {
    k + 1 >= |points| ||
    (0.0 <= at[k] <= 1.0 && points[k] == PointAt(points[0], points[|points| - 1], at[k]) &&
     OnChordFrom(points, at, k + 1))
  }

  /** The unrolled condition gives the condition of `CollinearCollapses` for every position from `k` on. */
  lemma {:induction false} OnChordFromAll(points: seq<Point>, at: seq<real>, k: nat)
    requires 1 <= |points| && |at| == |points| && OnChordFrom(points, at, k)
    ensures forall j :: k <= j < |points| - 1 ==>
              0.0 <= at[j] <= 1.0 && points[j] == PointAt(points[0], points[|points| - 1], at[j])
    decreases |points| - k
  {
    if k + 1 < |points| {
      OnChordFromAll(points, at, k + 1);
    }
  }

  /**
   * Points that all lie on the segment between the first and the last point
   * (the `k`-th at parameter `at[k]`, as `OnChordFrom` states) collapse to the
   * two endpoints for any non-negative `sqTolerance`.
   */
  lemma CollinearCollapses(points: seq<Point>, at: seq<real>, sqTolerance: real)
    requires |points| >= 1 && |at| == |points| && sqTolerance >= 0.0
    requires OnChordFrom(points, at, 1)
    ensures DouglasPeuckerIndices(points, sqTolerance) == [0, |points| - 1]
  {
    OnChordFromAll(points, at, 1);
    var last := |points| - 1;
    forall j | 0 < j < last
      ensures Deviation(points, 0, last, j) <= sqTolerance
    {
      SqSegDistIsMinimum(points[j], points[0], points[last], at[j]);
    }
    DouglasPeuckerCollapses(points, sqTolerance);
  }

  /** Each interior point of the example below is the point of its segment at one third or two thirds. */
  lemma HorizontalPointOnChord(points: seq<Point>, at: seq<real>, k: nat)
    requires points == [Point(0.0, 0.0), Point(1.0, 0.0), Point(2.0, 0.0), Point(3.0, 0.0)]
    requires at == [0.0, 1.0 / 3.0, 2.0 / 3.0, 1.0]
    requires k == 1 || k == 2
    ensures 0.0 <= at[k] <= 1.0 && points[k] == PointAt(points[0], points[|points| - 1], at[k])
  {
    if k == 1 {
      assert at[k] == 1.0 / 3.0;
    } else {
      assert at[k] == 2.0 / 3.0;
    }
  }

  /** The interior points of the example below from position `k` on all lie on the segment between its ends. */
  lemma {:induction false} HorizontalOnChordFrom(points: seq<Point>, at: seq<real>, k: nat)
    requires points == [Point(0.0, 0.0), Point(1.0, 0.0), Point(2.0, 0.0), Point(3.0, 0.0)]
    requires at == [0.0, 1.0 / 3.0, 2.0 / 3.0, 1.0]
    requires 1 <= k <= 3
    ensures OnChordFrom(points, at, k)
    decreases 3 - k
  {
    if k < 3 {
      HorizontalOnChordFrom(points, at, k + 1);
      HorizontalPointOnChord(points, at, k);
    }
  }

  /** Four evenly spaced points on a horizontal line collapse to the two ends. */
  lemma CollinearExample(sqTolerance: real)
    requires sqTolerance >= 0.0
    ensures DouglasPeuckerIndices([Point(0.0, 0.0), Point(1.0, 0.0), Point(2.0, 0.0), Point(3.0, 0.0)], sqTolerance) == [0, 3]
  {
    var points := [Point(0.0, 0.0), Point(1.0, 0.0), Point(2.0, 0.0), Point(3.0, 0.0)];
    var at := [0.0, 1.0 / 3.0, 2.0 / 3.0, 1.0];
    HorizontalOnChordFrom(points, at, 1);
    CollinearCollapses(points, at, sqTolerance);
  }
}
