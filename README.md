# simplify.h in Dafny

A model of `simplify.h`, the C++ port of Simplify.js that reduces a 2D polyline
to fewer points. It has two strategies. The radial-distance prefilter drops
points that lie close to their predecessor. Ramer-Douglas-Peucker (DP) keeps
the points that deviate most from the chord between two kept points.

Points are `Point(x: real, y: real)`, so arithmetic is exact. Every routine that
returns a polyline is modelled twice:

- a specification function returns the **positions** of the input that survive;
- an imperative method mirrors the C++ loop or recursion, and its `ensures`
  says its output is `Select(points, <those positions>)`.

Positions form an *index map*: strictly increasing and in range. Every output
is therefore an order-preserving subsequence of the input.

Modules:

- `Geometry` — `getSqDist` and `getSqSegDist`. It also proves that the segment
  distance is the minimum squared distance over the points of the segment.
- `Subsequences` — index maps, `Select` and `Compose`, and the lemmas that join
  selections.
- `RadialDistance` — `simplifyRadialDist`.
- `DouglasPeucker` — `simplifyDPStep`, a loop for the farthest point followed by
  two recursive calls on strictly smaller ranges, and `simplifyDouglasPeucker`.
- `Simplification` — `simplify`.

The model follows the code where it differs from a plain description of the
algorithm:

- The radial filter compares each point with its **input predecessor**
  `points[i-1]` (simplify.h:64). A description that says "the previously
  retained point" is not what the code does. `RadialComparesWithPredecessor`
  gives an input where the two readings differ.
- `simplify` squares the tolerance and hands the square to
  `simplifyRadialDist`, which squares it again (simplify.h:122, 124, 61).
  The prefilter's threshold on squared distances is therefore `tolerance^4`.
  `SimplifyFastPathThreshold` states this.
- `simplifyDouglasPeucker` on a one-point input emits that point twice
  (simplify.h:102, 107). `DouglasPeuckerOnePoint` states this.
- Only `tolerance * tolerance` is used, so a negative tolerance acts like its
  absolute value (`SimplifyNegativeTolerance`).

## Model

| member | source | states |
|---|---|---|
| Geometry.SqDist | simplify.h:11-16 | the squared distance is non-negative, zero for equal points, and positive exactly when the points differ |
| Geometry.SqDistSymmetric | simplify.h:12-16 | the squared distance does not depend on the order of the two points |
| Geometry.SqSegDist | simplify.h:19-43 | the squared point-to-segment distance is non-negative |
| Geometry.SqSegDistCases | simplify.h:26-42 | for a zero-length segment it is the distance to p1; for t > 1 the distance to p2; for t <= 0 the distance to p1; otherwise the distance to the projection at parameter t |
| Geometry.Clamp | simplify.h:29-36 | the clamped parameter lies in [0, 1] and equals t when t already does |
| Geometry.Nearest | simplify.h:21-37 | the point `(x, y)` the code measures from is p1 on a zero-length segment and otherwise the point of the segment at the projection parameter clamped to [0, 1] |
| Geometry.PointAtDegenerate | simplify.h:26 | on a zero-length segment every parameter names p1, so skipping the projection there (whose denominator would be zero) loses nothing |
| Geometry.Expand | simplify.h:39-42 | the squared distance to the point at parameter s is a quadratic in s |
| Geometry.ClampMinimizes | simplify.h:27-36 | the clamped vertex of that quadratic is its minimum over [0, 1] |
| Geometry.SqSegDistIsMinimum | simplify.h:19-43 | the segment distance is at most the squared distance to every point of the segment |
| Geometry.SqSegDistAtEndpoints | simplify.h:19-43 | the segment distance is at most the distance to either endpoint, and zero when p is an endpoint |
| RadialDistance.KeptBefore | simplify.h:62-67 | the interior positions the loop has kept before position hi are at most hi in number |
| RadialDistance.KeptBeforeIndexMap | simplify.h:62-67 | the positions the loop keeps before position hi are increasing, below hi and never 0 |
| RadialDistance.KeptBeforeMembers | simplify.h:62-67 | the loop keeps position i before hi exactly when 1 <= i < hi and point i is farther than the threshold from point i-1 |
| RadialDistance.FilterIndices | simplify.h:51-70 | the filter's positions form an index map of the input |
| RadialDistance.RadialIndices | simplify.h:61 | the positions for a tolerance are an index map of the input; the threshold is the tolerance squared |
| RadialDistance.KeptStep | simplify.h:63-66 | one loop iteration appends point i exactly when it is far from its predecessor and otherwise leaves the output alone |
| RadialDistance.SimplifyRadialDist | simplify.h:46-72 | the method's output is the input selected at the filter's positions |
| RadialDistance.RadialSmallInputs | simplify.h:51-55 | inputs of up to two points come back unchanged |
| RadialDistance.FilterIndicesShape | simplify.h:57-70 | from three points on, the output has between 2 and n points, starts at position 0 and ends at n-1 |
| RadialDistance.RadialIndicesShape | simplify.h:57-70 | the same shape for a tolerance, and an order-preserving index map |
| RadialDistance.FilterMembers | simplify.h:62-67 | an interior position is kept if and only if its point is far from its predecessor |
| RadialDistance.FilterKeepsFarPoints | simplify.h:64 | an interior point is kept if and only if its squared distance to its input predecessor exceeds the threshold |
| RadialDistance.RadialKeepsFarPoints | simplify.h:61-66 | an interior point is kept if and only if its squared distance to its input predecessor exceeds tolerance squared |
| RadialDistance.RadialComparesWithPredecessor | simplify.h:62-67 | for (0,0),(0.4,0.3),(0.8,0.6),(8,6) at tolerance 0.6, point 2 is dropped although it is farther than the tolerance from the last kept point, so the output is positions [0, 3] |
| DouglasPeucker.Deviation | simplify.h:80 | the deviation of point i from the chord first-last is non-negative |
| DouglasPeucker.MaxScan | simplify.h:76-85 | the loop's `index` stays 0 or is a scanned interior position strictly between first and hi |
| DouglasPeucker.ScanAnchor | simplify.h:76-85 | the running maximum never falls below sqTolerance; once above it, the index is an interior position below hi whose deviation is that maximum |
| DouglasPeucker.StepIndices | simplify.h:74-96 | the positions one step appends number at most last-first-1 (none when the range has no interior) |
| DouglasPeucker.StepUnfold | simplify.h:87-95 | when the maximum exceeds sqTolerance, the step emits the left half, then the anchor, then the right half, with the anchor strictly inside the range; otherwise it emits nothing |
| DouglasPeucker.StepIndicesBounds | simplify.h:79-95 | the step emits strictly increasing positions strictly between first and last |
| DouglasPeucker.StepInRange | simplify.h:79-95 | every emitted position is a valid index of the input |
| DouglasPeucker.StepAppends | simplify.h:87-95 | with an anchor, appending the left recursion's points, the anchor, then the right recursion's points gives out followed by the step's selection |
| DouglasPeucker.SimplifyDPStep | simplify.h:74-96 | the method appends to out exactly the input selected at the step's positions |
| DouglasPeucker.DouglasPeuckerIndices | simplify.h:99-109 | the positions are valid indices of the input |
| DouglasPeucker.SimplifyDouglasPeucker | simplify.h:99-109 | the method's output is the input selected at the Douglas-Peucker positions |
| DouglasPeucker.ScanIsMaximum | simplify.h:79-85 | every interior point scanned so far deviates no more than the running maximum |
| DouglasPeucker.ScanFirstMaximum | simplify.h:81-84 | because the comparison is strict, every point scanned before the anchor deviates strictly less than the anchor |
| DouglasPeucker.StepEmptyIffWithin | simplify.h:79-95 | the step emits nothing if and only if every interior point deviates at most sqTolerance |
| DouglasPeucker.StepKeepsAnchor | simplify.h:79-91 | if an interior point j deviates more than sqTolerance, the anchor is emitted, deviates at least as much as j, and deviates strictly more than every point before it |
| DouglasPeucker.DouglasPeuckerShape | simplify.h:99-109 | from two points on, the output has between 2 and n points, starts at position 0, ends at n-1 and preserves order |
| DouglasPeucker.DouglasPeuckerOnePoint | simplify.h:101-108 | a one-point input produces positions [0, 0], that point twice |
| DouglasPeucker.DouglasPeuckerCollapses | simplify.h:87-107 | when no interior point deviates more than sqTolerance, only the two endpoints are kept |
| DouglasPeucker.OnChordFromAll | simplify.h:80 | the recursive on-the-chord description gives every point from k on as a point of the chord at a parameter in [0, 1] |
| DouglasPeucker.CollinearCollapses | simplify.h:79-107 | when every interior point lies on the chord between the endpoints, a non-negative sqTolerance keeps only the endpoints |
| DouglasPeucker.HorizontalPointOnChord | simplify.h:80 | points 1 and 2 of (0,0),(1,0),(2,0),(3,0) lie on its chord at parameters 1/3 and 2/3 |
| DouglasPeucker.HorizontalOnChordFrom | simplify.h:80 | the points of (0,0),(1,0),(2,0),(3,0) from k on lie on its chord |
| DouglasPeucker.CollinearExample | simplify.h:99-109 | (0,0),(1,0),(2,0),(3,0) with any non-negative sqTolerance collapses to positions [0, 3] |
| Simplification.FastPathIndices | simplify.h:124-125 | the prefilter followed by Douglas-Peucker gives valid indices of the input |
| Simplification.SimplifyIndices | simplify.h:112-128 | the positions simplify keeps are valid indices of the input |
| Simplification.Simplify | simplify.h:112-128 | inputs of up to two points are copied; with highestQuality the output is Douglas-Peucker on the input at tolerance squared; otherwise it is Douglas-Peucker on the prefilter's output, which has at least two points |
| Simplification.SimplifySmallInputs | simplify.h:116-120 | inputs of up to two points come back unchanged |
| Simplification.SimplifyShape | simplify.h:122-127 | from three points on, on either path, the output keeps the first and last points, has between 2 and n points and preserves order |
| Simplification.FastPathShape | simplify.h:124-125 | the same shape for the fast path at any squared tolerance |
| Simplification.ComposedWithFilter | simplify.h:124 | a position that survives Douglas-Peucker after the prefilter was kept by the prefilter, so it is far from its predecessor |
| Simplification.FastPathThreshold | simplify.h:124-125 | an interior point survives the fast path for squared tolerance s only if its squared distance to its predecessor exceeds s squared |
| Simplification.SimplifyUsesFastPath | simplify.h:122-125 | from three points on, without highest quality, simplify's positions are the fast path's at tolerance squared |
| Simplification.FastPathFourthPower | simplify.h:122-124 | the fast path at tolerance squared keeps an interior point only if its squared distance to its predecessor exceeds tolerance to the fourth power |
| Simplification.SimplifyFastPathThreshold | simplify.h:122-125 | on the fast path an interior point survives only if its squared distance to its input predecessor exceeds tolerance to the fourth power |
| Simplification.SimplifyNegativeTolerance | simplify.h:122 | negating the tolerance changes nothing |

## Left out

- Floating point and the generic `Distance` type. Arithmetic is exact `real`.
  There is no IEEE rounding and no NaN. The truncating integer division an
  integral `Distance` would give at simplify.h:27 is not modelled.
- The generic `Point` type and its `.x`/`.y` customisation note (simplify.h:10).
  The model uses a fixed two-field datatype.
- `std::vector` memory, allocation and copying. Vectors are value sequences.
- The by-reference `out` parameter of `simplifyDPStep`. It is an input value
  plus the returned extended value.
- The non-const `points` reference. `simplifyDPStep` and
  `simplifyDouglasPeucker` never write through it, so it is a value.
- `size_t` wrap-around. An empty input to `simplifyDouglasPeucker` computes
  `points.size() - 1` on an unsigned size and reads `points[0]` out of range.
  That is undefined behaviour, so `DouglasPeucker.SimplifyDouglasPeucker` and
  `DouglasPeucker.DouglasPeuckerIndices` require at least one point. `simplify`
  never calls them with fewer than two: on the fast path the prefilter's output
  can have exactly two points.
- Default arguments (`tolerance = 1`, `highestQuality = true`). Callers of the
  model pass both explicitly.
- Recursion depth and stack use of `simplifyDPStep`. Only termination is
  proved, on `last - first`.
- Geometric optimality. No claim is made that the output stays within the
  tolerance of the original curve everywhere. The code only measures deviation
  from the chords it tries.
