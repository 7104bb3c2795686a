/**
 * Buffer-and-bearing route overlap (dist/utils/polylineUtils.js): line
 * segments, point-to-segment distance by clamped planar projection, bearing
 * difference, and the two-way buffer sweep that measures shared length and
 * directional agreement.
 */
module BufferOverlap {
  import opened Wrappers
  import opened Geometry
  import opened RealArith

  // ---------------------------------------------------------------------------
  // Point-to-segment distance
  // ---------------------------------------------------------------------------

  /** The squared planar length of segment a-b in degrees. */
  function LenSq(a: Point, b: Point): real {
    Sq(b.lat - a.lat) + Sq(b.lng - a.lng)
  }

  /** A segment has zero squared length exactly when its ends coincide. */
  lemma LenSqZero(a: Point, b: Point)
    ensures LenSq(a, b) >= 0.0
    ensures LenSq(a, b) == 0.0 <==> a == b
  {
    SqSign(b.lat - a.lat);
    SqSign(b.lng - a.lng);
  }

  /** The projection parameter of `p` on the line through a and b (0 at a, 1 at b). */
  function Param(p: Point, a: Point, b: Point): (t: real)
    requires LenSq(a, b) != 0.0
    ensures p == a ==> t == 0.0
    ensures p == b ==> t == 1.0
  {
    Fraction(Mul(p.lat - a.lat, b.lat - a.lat) + Mul(p.lng - a.lng, b.lng - a.lng), LenSq(a, b))
  }

  /** The closest point of segment a-b to `p`: the projection, clamped to the ends. */
  function Projection(p: Point, a: Point, b: Point): (r: Point)
    requires LenSq(a, b) != 0.0
    ensures p == a ==> r == a
    ensures p == b ==> r == b
  {
    var t := Param(p, a, b);
    if t < 0.0 then a
    else if t > 1.0 then b
    else Lerp(a, b, t)
  }

  /** The clamped projection always lies on the segment. */
  lemma ProjectionOnSegment(p: Point, a: Point, b: Point) returns (t: real)
    requires LenSq(a, b) != 0.0
    ensures 0.0 <= t <= 1.0
    ensures Projection(p, a, b) == Lerp(a, b, t)
    ensures 0.0 <= Param(p, a, b) <= 1.0 ==> t == Param(p, a, b)
  {
    var u := Param(p, a, b);
    t := if u < 0.0 then 0.0 else if u > 1.0 then 1.0 else u;
  }

  /**
   * `pointToLineDistance`: the distance from `p` to the clamped projection, or
   * to the start when the segment has no length.
   */
  function PointToLineDistance(d: Distance, p: Point, a: Point, b: Point): (r: real)
    ensures r >= 0.0
    ensures a == b ==> r == d(p, a)
  {
    LenSqZero(a, b);
    if LenSq(a, b) == 0.0 then d(p, a) else d(p, Projection(p, a, b))
  }

  /** `k * x / x == k` for a positive x. */
  lemma FractionScale(k: real, x: real)
    requires x > 0.0
    ensures Fraction(k * x, x) == k
  {
    DivCancel(k * x, x);
    var f := Fraction(k * x, x);
    assert f * x == k * x;
    if f < k { MulLtMono(f, k, x); }
    if f > k { MulLtMono(k, f, x); }
  }

  /** The midpoint in latitude/longitude. */
  function Midpoint(a: Point, b: Point): Point {
    Point((a.lat + b.lat) / 2.0, (a.lng + b.lng) / 2.0)
  }

  /** Both ends and the midpoint of a segment are at distance 0 from it. */
  lemma OnSegmentZero(d: Distance, a: Point, b: Point)
    ensures PointToLineDistance(d, a, a, b) == 0.0
    ensures PointToLineDistance(d, b, a, b) == 0.0
    ensures PointToLineDistance(d, Midpoint(a, b), a, b) == 0.0
  {
    LenSqZero(a, b);
    if a != b {
      var len := LenSq(a, b);
      var c, e := b.lat - a.lat, b.lng - a.lng;
      FractionScale(0.0, len);
      assert (a.lat - a.lat) * c + (a.lng - a.lng) * e == 0.0 * len;
      assert Param(a, a, b) == 0.0;
      FractionScale(1.0, len);
      assert (b.lat - a.lat) * c + (b.lng - a.lng) * e == 1.0 * len;
      assert Param(b, a, b) == 1.0;
      var m := Midpoint(a, b);
      FractionScale(0.5, len);
      assert (m.lat - a.lat) * c + (m.lng - a.lng) * e == 0.5 * len;
      assert Param(m, a, b) == 0.5;
      assert Projection(m, a, b) == m;
    }
  }

  // ---------------------------------------------------------------------------
  // Segments and route distance
  // ---------------------------------------------------------------------------

  /** A route segment with its haversine length. */
  datatype Segment = Segment(start: Point, end: Point, length: real)

  /** Segment i joins point i to point i+1, with its distance as length. */
  function LineSegments(d: Distance, points: seq<Point>): (r: seq<Segment>)
    ensures |points| < 2 ==> r == []
    ensures |points| >= 2 ==> |r| == |points| - 1
    ensures forall k :: 0 <= k < |r| ==> r[k].length >= 0.0
  {
    if |points| < 2 then []
    else seq(|points| - 1, i requires 0 <= i < |points| - 1 =>
               Segment(points[i], points[i + 1], d(points[i], points[i + 1])))
  }

  /** `createLineSegments`: pushes one segment per consecutive pair of points. */
  method CreateLineSegments(d: Distance, points: seq<Point>) returns (segments: seq<Segment>)
    ensures segments == LineSegments(d, points)
  {
    segments := [];
    var i := 0;
    while i < |points| - 1
      invariant 0 <= i <= if |points| == 0 then 0 else |points| - 1
      invariant |segments| == i
      invariant forall k :: 0 <= k < i ==>
                  segments[k] == Segment(points[k], points[k + 1], d(points[k], points[k + 1]))
    {
      var start := points[i];
      var end := points[i + 1];
      var length := d(start, end);
      segments := segments + [Segment(start, end, length)];
      i := i + 1;
    }
  }

  /** The sum of the segment lengths. */
  function TotalLength(segs: seq<Segment>): real {
    if |segs| == 0 then 0.0 else TotalLength(segs[..|segs| - 1]) + segs[|segs| - 1].length
  }

  /** The first k segments of a route are the segments of its first k+1 points. */
  lemma {:induction false} SegmentsPrefix(d: Distance, points: seq<Point>, k: nat)
    requires 1 <= k < |points|
    ensures LineSegments(d, points)[..k] == LineSegments(d, points[..k + 1])
  {
  }

  /** The segment lengths add up to the route length. */
  lemma {:induction false} SegmentLengthsSum(d: Distance, points: seq<Point>)
    ensures TotalLength(LineSegments(d, points)) == RouteLength(d, points)
    decreases |points|
  {
    RouteLengthBasics(d, points);
    if |points| >= 2 {
      var segs := LineSegments(d, points);
      var init := points[..|points| - 1];
      SegmentsPrefix(d, points, |points| - 2 + 1);
      if |points| > 2 {
        assert segs[..|segs| - 1] == LineSegments(d, init) by {
          SegmentsPrefix(d, points, |points| - 2);
          assert points[..|points| - 2 + 1] == init;
        }
      } else {
        assert segs[..|segs| - 1] == [] == LineSegments(d, init);
      }
      SegmentLengthsSum(d, init);
    }
  }

  /** `calculateRouteDistance`: the sum of consecutive distances. */
  method CalculateRouteDistance(d: Distance, points: seq<Point>) returns (total: real)
    ensures total == RouteLength(d, points)
    ensures total == TotalLength(LineSegments(d, points))
  {
    total := 0.0;
    var i := 0;
    while i < |points| - 1
      invariant 0 <= i <= if |points| == 0 then 0 else |points| - 1
      invariant |points| > 0 ==> total == Cum(d, points, i)
      invariant |points| == 0 ==> total == 0.0
    {
      total := total + d(points[i], points[i + 1]);
      i := i + 1;
    }
    SegmentLengthsSum(d, points);
  }

  // ---------------------------------------------------------------------------
  // Buffer test and bearings
  // ---------------------------------------------------------------------------

  /** The distance from `p` to a route segment. */
  function SegmentDistance(d: Distance, p: Point, seg: Segment): real {
    PointToLineDistance(d, p, seg.start, seg.end)
  }

  /** `isPointNearRoute`: `some` segment lies within the buffer of `p`. */
  predicate NearRoute(d: Distance, p: Point, segs: seq<Segment>, buffer: real) {
    |segs| > 0 && (SegmentDistance(d, p, segs[0]) <= buffer || NearRoute(d, p, segs[1..], buffer))
  }

  /** A point is near a route exactly when one of its segments is within the buffer. */
  lemma {:induction false} NearRouteWitness(d: Distance, p: Point, segs: seq<Segment>, buffer: real)
    ensures NearRoute(d, p, segs, buffer) <==>
            exists k :: 0 <= k < |segs| && SegmentDistance(d, p, segs[k]) <= buffer
  {
    if |segs| > 0 {
      NearRouteWitness(d, p, segs[1..], buffer);
      if SegmentDistance(d, p, segs[0]) > buffer {
        if k :| 0 <= k < |segs| && SegmentDistance(d, p, segs[k]) <= buffer {
          assert k > 0 && segs[1..][k - 1] == segs[k];
        }
      } else {
        assert SegmentDistance(d, p, segs[0]) <= buffer;
      }
    }
  }

  /** `bearingDifference`: the smaller angle between two bearings. */
  function BearingDifference(b1: real, b2: real): (r: real)
    requires 0.0 <= b1 < 360.0 && 0.0 <= b2 < 360.0
    ensures 0.0 <= r <= 180.0
    ensures r == 0.0 <==> b1 == b2
  {
    var diff := if b1 >= b2 then b1 - b2 else b2 - b1;
    if diff > 180.0 then 360.0 - diff else diff
  }

  /** The angle between two bearings does not depend on their order. */
  lemma BearingDifferenceSymmetric(b1: real, b2: real)
    requires 0.0 <= b1 < 360.0 && 0.0 <= b2 < 360.0
    ensures BearingDifference(b1, b2) == BearingDifference(b2, b1)
  {
  }

  /** The direction similarity of one matched segment: 1 when parallel, 0 when opposite. */
  function DirectionSimilarity(diff: real): (r: real)
    requires 0.0 <= diff <= 180.0
    ensures 0.0 <= r <= 1.0
    ensures r == 1.0 <==> diff == 0.0
    ensures r == 0.0 <==> diff == 180.0
  {
    FractionSign(180.0 - diff, 180.0);
    Max(0.0, Fraction(180.0 - diff, 180.0))
  }

  // ---------------------------------------------------------------------------
  // Closest-segment search
  // ---------------------------------------------------------------------------

  function Min3(x: real, y: real, z: real): real {
    Min(Min(x, y), z)
  }

  /**
   * How far segment `segB` is from `segA`: the least of the midpoint of `segA`
   * to `segB` and either end of `segB` to `segA`.
   */
  function Gap(d: Distance, segA: Segment, segB: Segment): real {
    Min3(SegmentDistance(d, Midpoint(segA.start, segA.end), segB),
         SegmentDistance(d, segB.start, segA),
         SegmentDistance(d, segB.end, segA))
  }

  /** The gap measure from one segment of route A to the segments of route B. */
  function GapFrom(d: Distance, segA: Segment): Segment -> real {
    (segB: Segment) => Gap(d, segA, segB)
  }

  /** The gaps to each segment of a route, in route order. */
  function Gaps(gap: Segment -> real, segs: seq<Segment>): (r: seq<real>)
    ensures |r| == |segs|
  {
    seq(|segs|, j requires 0 <= j < |segs| => gap(segs[j]))
  }

  /** The index of the first least gap among the first `n`. */
  function ArgMin(gaps: seq<real>, n: nat): (r: nat)
    requires 1 <= n <= |gaps|
    ensures r < n
  {
    if n == 1 then 0
    else
      var k := ArgMin(gaps, n - 1);
      if gaps[n - 1] < gaps[k] then n - 1 else k
  }

  /** The scan keeps a least gap, and the first of them: later ties do not displace it. */
  lemma {:induction false} ArgMinIsFirstLeast(gaps: seq<real>, n: nat)
    requires 1 <= n <= |gaps|
    ensures forall j :: 0 <= j < n ==> gaps[ArgMin(gaps, n)] <= gaps[j]
    ensures forall j :: 0 <= j < ArgMin(gaps, n) ==> gaps[ArgMin(gaps, n)] < gaps[j]
  {
    if n > 1 {
      ArgMinIsFirstLeast(gaps, n - 1);
    }
  }

  /** The closest segment of route B for one segment of route A; None for an empty route. */
  function Closest(gaps: seq<real>): Option<nat> {
    if |gaps| == 0 then None else Some(ArgMin(gaps, |gaps|))
  }

  /**
   * The closest-segment loop: a strict `<` against a running minimum that
   * starts at infinity (None), over the gaps measured by `gap`.
   */
  method ClosestSegment(gap: Segment -> real, segsB: seq<Segment>)
    returns (closest: Option<nat>, minDistance: Option<real>)
    ensures closest == Closest(Gaps(gap, segsB))
    ensures closest.Some? ==> minDistance == Some(Gaps(gap, segsB)[closest.value])
    ensures closest.None? ==> minDistance.None?
  {
    ghost var gaps := Gaps(gap, segsB);
    closest, minDistance := None, None;
    var j := 0;
    while j < |segsB|
      invariant 0 <= j <= |segsB|
      invariant j == 0 ==> closest.None? && minDistance.None?
      invariant j > 0 ==> closest == Some(ArgMin(gaps, j)) && minDistance == Some(gaps[closest.value])
    {
      var distance := gap(segsB[j]);
      if minDistance.None? || distance < minDistance.value {
        minDistance := Some(distance);
        closest := Some(j);
      }
      j := j + 1;
    }
  }

  /**
   * The direction sample of one segment of route A: the similarity of its
   * bearing to that of the closest segment of route B, when that segment is
   * within the buffer.
   */
  function Sample(d: Distance, bearing: Bearing, segA: Segment, segsB: seq<Segment>, buffer: real): Option<real> {
    var gaps := Gaps(GapFrom(d, segA), segsB);
    match Closest(gaps)
    case None => None
    case Some(k) =>
      if gaps[k] <= buffer then
        Some(DirectionSimilarity(BearingDifference(bearing(segA.start, segA.end),
                                                   bearing(segsB[k].start, segsB[k].end))))
      else None
  }

  /** A segment whose midpoint is near route B always finds a closest segment within the buffer. */
  lemma SampleWhenNear(d: Distance, bearing: Bearing, segA: Segment, segsB: seq<Segment>, buffer: real)
    requires NearRoute(d, Midpoint(segA.start, segA.end), segsB, buffer)
    ensures Sample(d, bearing, segA, segsB, buffer).Some?
  {
    var mid := Midpoint(segA.start, segA.end);
    NearRouteWitness(d, mid, segsB, buffer);
    var k :| 0 <= k < |segsB| && SegmentDistance(d, mid, segsB[k]) <= buffer;
    var gaps := Gaps(GapFrom(d, segA), segsB);
    ArgMinIsFirstLeast(gaps, |gaps|);
    assert gaps[k] <= buffer;
  }

  // ---------------------------------------------------------------------------
  // The two-way sweep
  // ---------------------------------------------------------------------------

  /** Whether the midpoint of `seg` is within the buffer of route `other`. */
  predicate MidpointNear(d: Distance, seg: Segment, other: seq<Segment>, buffer: real) {
    NearRoute(d, Midpoint(seg.start, seg.end), other, buffer)
  }

  /** The summed length of the segments whose midpoints are near `other`. */
  function SharedLength(d: Distance, segs: seq<Segment>, other: seq<Segment>, buffer: real): real {
    if |segs| == 0 then 0.0
    else
      var last := segs[|segs| - 1];
      SharedLength(d, segs[..|segs| - 1], other, buffer) + (if MidpointNear(d, last, other, buffer) then last.length else 0.0)
  }

  /** The direction samples of the segments of route A, in order. */
  function DirectionalScores(d: Distance, bearing: Bearing, segsA: seq<Segment>, segsB: seq<Segment>, buffer: real): seq<real> {
    if |segsA| == 0 then []
    else
      var last := segsA[|segsA| - 1];
      var earlier := DirectionalScores(d, bearing, segsA[..|segsA| - 1], segsB, buffer);
      if MidpointNear(d, last, segsB, buffer) && Sample(d, bearing, last, segsB, buffer).Some? then
        earlier + [Sample(d, bearing, last, segsB, buffer).value]
      else earlier
  }

  function Sum(xs: seq<real>): real {
    if |xs| == 0 then 0.0 else Sum(xs[..|xs| - 1]) + xs[|xs| - 1]
  }

  /** The arithmetic mean, 0 for no samples. */
  function Mean(xs: seq<real>): real {
    if |xs| == 0 then 0.0 else Fraction(Sum(xs), |xs| as real)
  }

  /** The result record of `calculateAdvancedOverlap`. */
  datatype OverlapAnalysis = OverlapAnalysis(
    overlapPercentage: real,
    sharedDistance: real,
    totalDistanceA: real,
    totalDistanceB: real,
    directionalSimilarity: real,
    routeDeviation: real)

  /** The default buffer in metres. */
  const DefaultBuffer: real := 100.0

  /** The record returned for an empty route. */
  const EmptyAnalysis := OverlapAnalysis(0.0, 0.0, 0.0, 0.0, 0.0, 100.0)

  /** The overlap before clamping: mean shared length over mean total length, in percent. */
  function RawOverlap(avgShared: real, avgTotal: real): real {
    if avgTotal > 0.0 then Fraction(avgShared, avgTotal) * 100.0 else 0.0
  }

  /** How much longer route A is than the direct distance between its ends, in percent. */
  function Deviation(d: Distance, route: seq<Point>): (r: real)
    requires |route| > 0
    ensures |route| <= 2 ==> r == 0.0
    ensures r >= 0.0 <==> RouteLength(d, route) >= d(route[0], route[|route| - 1])
  {
    var direct := d(route[0], route[|route| - 1]);
    RouteLengthBasics(d, route);
    assert |route| == 2 ==> RouteLength(d, route) == direct by {
      if |route| == 2 {
        RouteLengthBasics(d, route[..1]);
      }
    }
    if direct > 0.0 then
      FractionNegative(RouteLength(d, route) - direct, direct);
      Fraction(RouteLength(d, route) - direct, direct) * 100.0
    else 0.0
  }

  /** `calculateAdvancedOverlap`, as a value. */
  function AdvancedOverlap(d: Distance, bearing: Bearing, routeA: seq<Point>, routeB: seq<Point>, buffer: real): (r: OverlapAnalysis)
    ensures |routeA| == 0 || |routeB| == 0 ==> r == EmptyAnalysis
    ensures |routeA| > 0 && |routeB| > 0 ==>
      r.totalDistanceA == RouteLength(d, routeA) && r.totalDistanceB == RouteLength(d, routeB)
    ensures 0.0 <= r.overlapPercentage <= 100.0 && r.routeDeviation >= 0.0
  {
    if |routeA| == 0 || |routeB| == 0 then EmptyAnalysis
    else
      var segsA, segsB := LineSegments(d, routeA), LineSegments(d, routeB);
      var totalA, totalB := RouteLength(d, routeA), RouteLength(d, routeB);
      var sharedA := SharedLength(d, segsA, segsB, buffer);
      var sharedB := SharedLength(d, segsB, segsA, buffer);
      var scores := DirectionalScores(d, bearing, segsA, segsB, buffer);
      var avgShared := (sharedA + sharedB) / 2.0;
      OverlapAnalysis(
        Min(100.0, Max(0.0, RawOverlap(avgShared, (totalA + totalB) / 2.0))),
        avgShared,
        totalA,
        totalB,
        Mean(scores) * 100.0,
        Max(0.0, Deviation(d, routeA)))
  }

  /** The first loop of `calculateAdvancedOverlap`: shared length and direction samples of route A. */
  method SweepWithDirections(d: Distance, bearing: Bearing, segmentsA: seq<Segment>, segmentsB: seq<Segment>, buffer: real)
    returns (shared: real, scores: seq<real>)
    ensures shared == SharedLength(d, segmentsA, segmentsB, buffer)
    ensures scores == DirectionalScores(d, bearing, segmentsA, segmentsB, buffer)
  {
    shared, scores := 0.0, [];
    var i := 0;
    while i < |segmentsA|
      invariant 0 <= i <= |segmentsA|
      invariant shared == SharedLength(d, segmentsA[..i], segmentsB, buffer)
      invariant scores == DirectionalScores(d, bearing, segmentsA[..i], segmentsB, buffer)
    {
      var segA := segmentsA[i];
      assert segmentsA[..i + 1][..i] == segmentsA[..i];
      if NearRoute(d, Midpoint(segA.start, segA.end), segmentsB, buffer) {
        shared := shared + segA.length;
        var closest, minDistance := ClosestSegment(GapFrom(d, segA), segmentsB);
        if closest.Some? && minDistance.value <= buffer {
          var segB := segmentsB[closest.value];
          var diff := BearingDifference(bearing(segA.start, segA.end), bearing(segB.start, segB.end));
          scores := scores + [DirectionSimilarity(diff)];
        }
      }
      i := i + 1;
    }
    assert segmentsA[..i] == segmentsA;
  }

  /** The second loop of `calculateAdvancedOverlap`: shared length of route B. */
  method SweepShared(d: Distance, segments: seq<Segment>, other: seq<Segment>, buffer: real)
    returns (shared: real)
    ensures shared == SharedLength(d, segments, other, buffer)
  {
    shared := 0.0;
    var k := 0;
    while k < |segments|
      invariant 0 <= k <= |segments|
      invariant shared == SharedLength(d, segments[..k], other, buffer)
    {
      var seg := segments[k];
      assert segments[..k + 1][..k] == segments[..k];
      if NearRoute(d, Midpoint(seg.start, seg.end), other, buffer) {
        shared := shared + seg.length;
      }
      k := k + 1;
    }
    assert segments[..k] == segments;
  }

  /** `calculateAdvancedOverlap`: sweeps route A against route B, then route B against route A. */
  method CalculateAdvancedOverlap(d: Distance, bearing: Bearing, routeA: seq<Point>, routeB: seq<Point>, buffer: real)
    returns (analysis: OverlapAnalysis)
    ensures analysis == AdvancedOverlap(d, bearing, routeA, routeB, buffer)
  {
    if |routeA| == 0 || |routeB| == 0 {
      return EmptyAnalysis;
    }
    var segmentsA := CreateLineSegments(d, routeA);
    var segmentsB := CreateLineSegments(d, routeB);
    var totalA := CalculateRouteDistance(d, routeA);
    var totalB := CalculateRouteDistance(d, routeB);
    var sharedA, scores := SweepWithDirections(d, bearing, segmentsA, segmentsB, buffer);
    var sharedB := SweepShared(d, segmentsB, segmentsA, buffer);
    var avgShared := (sharedA + sharedB) / 2.0;
    var avgTotal := (totalA + totalB) / 2.0;
    var overlap := if avgTotal > 0.0 then Fraction(avgShared, avgTotal) * 100.0 else 0.0;
    var directional := Mean(scores);
    var direct := d(routeA[0], routeA[|routeA| - 1]);
    var deviation := if direct > 0.0 then Fraction(totalA - direct, direct) * 100.0 else 0.0;
    analysis := OverlapAnalysis(Min(100.0, Max(0.0, overlap)), avgShared, totalA, totalB,
                                directional * 100.0, Max(0.0, deviation));
  }

  // ---------------------------------------------------------------------------
  // Properties of the sweep
  // ---------------------------------------------------------------------------

  /** Only whole segments are shared, so the shared length is between 0 and the total. */
  lemma {:induction false} SharedBounds(d: Distance, segs: seq<Segment>, other: seq<Segment>, buffer: real)
    requires forall k :: 0 <= k < |segs| ==> segs[k].length >= 0.0
    ensures 0.0 <= SharedLength(d, segs, other, buffer) <= TotalLength(segs)
  {
    if |segs| > 0 {
      SharedBounds(d, segs[..|segs| - 1], other, buffer);
    }
  }

  /** When every midpoint is near the other route, the whole length is shared. */
  lemma {:induction false} SharedAll(d: Distance, segs: seq<Segment>, other: seq<Segment>, buffer: real)
    requires forall k :: 0 <= k < |segs| ==> MidpointNear(d, segs[k], other, buffer)
    ensures SharedLength(d, segs, other, buffer) == TotalLength(segs)
  {
    if |segs| > 0 {
      SharedAll(d, segs[..|segs| - 1], other, buffer);
    }
  }

  /** The number of segments of route A whose midpoints are near route B. */
  function NearCount(d: Distance, segsA: seq<Segment>, segsB: seq<Segment>, buffer: real): nat {
    if |segsA| == 0 then 0
    else NearCount(d, segsA[..|segsA| - 1], segsB, buffer) + (if MidpointNear(d, segsA[|segsA| - 1], segsB, buffer) then 1 else 0)
  }

  /** Every shared segment of route A contributes one direction sample, and each sample is in [0, 1]. */
  lemma {:induction false} ScoresPerSharedSegment(d: Distance, bearing: Bearing, segsA: seq<Segment>, segsB: seq<Segment>, buffer: real)
    ensures |DirectionalScores(d, bearing, segsA, segsB, buffer)| == NearCount(d, segsA, segsB, buffer)
    ensures forall k :: 0 <= k < |DirectionalScores(d, bearing, segsA, segsB, buffer)| ==>
              0.0 <= DirectionalScores(d, bearing, segsA, segsB, buffer)[k] <= 1.0
  {
    if |segsA| > 0 {
      var last := segsA[|segsA| - 1];
      ScoresPerSharedSegment(d, bearing, segsA[..|segsA| - 1], segsB, buffer);
      if MidpointNear(d, last, segsB, buffer) {
        SampleWhenNear(d, bearing, last, segsB, buffer);
      }
    }
  }

  /** A sum of values in [0, 1] is between 0 and their count. */
  lemma {:induction false} SumBounds(xs: seq<real>)
    requires forall k :: 0 <= k < |xs| ==> 0.0 <= xs[k] <= 1.0
    ensures 0.0 <= Sum(xs) <= |xs| as real
  {
    if |xs| > 0 {
      SumBounds(xs[..|xs| - 1]);
    }
  }

  /** The mean of values in [0, 1] is in [0, 1]. */
  lemma MeanInUnit(xs: seq<real>)
    requires forall k :: 0 <= k < |xs| ==> 0.0 <= xs[k] <= 1.0
    ensures 0.0 <= Mean(xs) <= 1.0
  {
    if |xs| > 0 {
      SumBounds(xs);
      FractionSign(Sum(xs), |xs| as real);
    }
  }

  /**
   * The result is well formed: the shared distance is at most the mean total,
   * so the 0..100 clamp of the overlap never changes it; the directional
   * similarity is a percentage and the deviation is not negative.
   */
  lemma AnalysisBounds(d: Distance, bearing: Bearing, routeA: seq<Point>, routeB: seq<Point>, buffer: real)
    ensures var r := AdvancedOverlap(d, bearing, routeA, routeB, buffer);
      && 0.0 <= r.sharedDistance <= (r.totalDistanceA + r.totalDistanceB) / 2.0
      && r.overlapPercentage == RawOverlap(r.sharedDistance, (r.totalDistanceA + r.totalDistanceB) / 2.0)
      && 0.0 <= r.overlapPercentage <= 100.0
      && 0.0 <= r.directionalSimilarity <= 100.0
      && r.routeDeviation >= 0.0
  {
    if |routeA| > 0 && |routeB| > 0 {
      var segsA, segsB := LineSegments(d, routeA), LineSegments(d, routeB);
      SharedBounds(d, segsA, segsB, buffer);
      SharedBounds(d, segsB, segsA, buffer);
      SegmentLengthsSum(d, routeA);
      SegmentLengthsSum(d, routeB);
      var r := AdvancedOverlap(d, bearing, routeA, routeB, buffer);
      var avgTotal := (r.totalDistanceA + r.totalDistanceB) / 2.0;
      if avgTotal > 0.0 {
        FractionSign(r.sharedDistance, avgTotal);
      }
      ScoresPerSharedSegment(d, bearing, segsA, segsB, buffer);
      MeanInUnit(DirectionalScores(d, bearing, segsA, segsB, buffer));
    }
  }

  /** The overlap and the shared distance do not depend on which route is A. */
  lemma OverlapSymmetric(d: Distance, bearing: Bearing, routeA: seq<Point>, routeB: seq<Point>, buffer: real)
    ensures AdvancedOverlap(d, bearing, routeA, routeB, buffer).overlapPercentage
         == AdvancedOverlap(d, bearing, routeB, routeA, buffer).overlapPercentage
    ensures AdvancedOverlap(d, bearing, routeA, routeB, buffer).sharedDistance
         == AdvancedOverlap(d, bearing, routeB, routeA, buffer).sharedDistance
  {
  }

  /** Every segment of a route is near the route itself, for any buffer that is not negative. */
  lemma SelfNear(d: Distance, segs: seq<Segment>, buffer: real)
    requires buffer >= 0.0
    ensures forall k :: 0 <= k < |segs| ==> MidpointNear(d, segs[k], segs, buffer)
  {
    forall k | 0 <= k < |segs|
      ensures MidpointNear(d, segs[k], segs, buffer)
    {
      OnSegmentZero(d, segs[k].start, segs[k].end);
      NearRouteWitness(d, Midpoint(segs[k].start, segs[k].end), segs, buffer);
    }
  }

  /** A route of positive length overlaps itself completely. */
  lemma SelfOverlap(d: Distance, bearing: Bearing, route: seq<Point>, buffer: real)
    requires buffer >= 0.0 && RouteLength(d, route) > 0.0
    ensures AdvancedOverlap(d, bearing, route, route, buffer).overlapPercentage == 100.0
  {
    RouteLengthBasics(d, route);
    var segs := LineSegments(d, route);
    SelfNear(d, segs, buffer);
    SharedAll(d, segs, segs, buffer);
    SegmentLengthsSum(d, route);
    var total := RouteLength(d, route);
    FractionSign(total, total);
  }

  /** Without a shared segment of route A there is no direction sample, and the directional similarity is 0. */
  lemma NoSharedNoDirection(d: Distance, bearing: Bearing, routeA: seq<Point>, routeB: seq<Point>, buffer: real)
    requires NearCount(d, LineSegments(d, routeA), LineSegments(d, routeB), buffer) == 0
    ensures AdvancedOverlap(d, bearing, routeA, routeB, buffer).directionalSimilarity == 0.0
  {
    ScoresPerSharedSegment(d, bearing, LineSegments(d, routeA), LineSegments(d, routeB), buffer);
  }

  /**
   * A route that turns is not fully aligned with itself. In a three-point route
   * whose legs have different bearings, the end of the first leg lies on the
   * second, so both legs are at gap 0 from the second leg's midpoint test and
   * the scan keeps the earlier one: the second leg is compared with the first.
   * The route's directional similarity with itself is then below 100.
   */
  lemma TurningSelfDirection(d: Distance, bearing: Bearing, p0: Point, p1: Point, p2: Point, buffer: real)
    requires buffer >= 0.0
    requires bearing(p0, p1) != bearing(p1, p2)
    ensures var segs := LineSegments(d, [p0, p1, p2]);
            Sample(d, bearing, segs[1], segs, buffer)
              == Some(DirectionSimilarity(BearingDifference(bearing(p1, p2), bearing(p0, p1))))
    ensures DirectionSimilarity(BearingDifference(bearing(p1, p2), bearing(p0, p1))) < 1.0
    ensures AdvancedOverlap(d, bearing, [p0, p1, p2], [p0, p1, p2], buffer).directionalSimilarity < 100.0
  {
    var route := [p0, p1, p2];
    var segs := LineSegments(d, route);
    var s0, s1 := segs[0], segs[1];
    assert s0 == Segment(p0, p1, d(p0, p1));
    assert s1 == Segment(p1, p2, d(p1, p2));
    OnSegmentZero(d, p0, p1);
    OnSegmentZero(d, p1, p2);

    // The first leg is closest to itself and aligned with itself.
    var gaps0 := Gaps(GapFrom(d, s0), segs);
    assert gaps0[0] == 0.0;
    assert gaps0[1] >= 0.0;
    assert ArgMin(gaps0, 2) == 0;
    var same := DirectionSimilarity(BearingDifference(bearing(p0, p1), bearing(p0, p1)));
    assert Sample(d, bearing, s0, segs, buffer) == Some(same);
    assert same == 1.0;

    // The second leg ties with the first, which the scan keeps.
    var gaps1 := Gaps(GapFrom(d, s1), segs);
    assert gaps1[0] == 0.0;
    assert gaps1[1] == 0.0;
    assert ArgMin(gaps1, 2) == 0;
    var turned := DirectionSimilarity(BearingDifference(bearing(p1, p2), bearing(p0, p1)));
    assert Sample(d, bearing, s1, segs, buffer) == Some(turned);
    assert turned < 1.0;

    // Both midpoints are on the route, so both legs give a sample.
    NearRouteWitness(d, Midpoint(p0, p1), segs, buffer);
    NearRouteWitness(d, Midpoint(p1, p2), segs, buffer);
    assert SegmentDistance(d, Midpoint(p1, p2), segs[1]) == 0.0;
    assert MidpointNear(d, s0, segs, buffer) && MidpointNear(d, s1, segs, buffer);
    assert segs[..1][..0] == [];
    assert segs[..2][..1] == segs[..1];
    assert segs[..2] == segs;
    assert DirectionalScores(d, bearing, segs[..1], segs, buffer) == [1.0];
    var scores := DirectionalScores(d, bearing, segs, segs, buffer);
    assert scores == [1.0, turned];
    assert [1.0, turned][..1] == [1.0] && [1.0][..0] == [];
    assert Sum(scores) == 1.0 + turned;
    assert Mean(scores) == (1.0 + turned) / 2.0;
  }

  // ---------------------------------------------------------------------------
  // approximateOverlap
  // ---------------------------------------------------------------------------

  /**
   * `approximateOverlap`: the overlap plus 30% of the directional similarity,
   * less a tenth of the deviation capped at 20 points, clamped to [0, 100].
   */
  function ApproximateOverlap(d: Distance, bearing: Bearing, routeA: seq<Point>, routeB: seq<Point>, buffer: real): (r: real)
    ensures 0.0 <= r <= 100.0
  {
    var analysis := AdvancedOverlap(d, bearing, routeA, routeB, buffer);
    var directionBonus := analysis.directionalSimilarity * 0.3;
    var deviationPenalty := Min(20.0, analysis.routeDeviation * 0.1);
    Max(0.0, Min(100.0, analysis.overlapPercentage + directionBonus - deviationPenalty))
  }

  /**
   * The combined figure stays within 20 points below and 30 points above the
   * plain overlap: the penalty is capped at 20 and the bonus is at most 30.
   */
  lemma ApproximateNearOverlap(d: Distance, bearing: Bearing, routeA: seq<Point>, routeB: seq<Point>, buffer: real)
    ensures var overlap := AdvancedOverlap(d, bearing, routeA, routeB, buffer).overlapPercentage;
      overlap - 20.0 <= ApproximateOverlap(d, bearing, routeA, routeB, buffer) <= overlap + 30.0
  {
    AnalysisBounds(d, bearing, routeA, routeB, buffer);
  }

  /**
   * With the default 100 m buffer, a route of positive length compared with
   * itself scores at least 80: its overlap is 100 and the penalty is at most 20.
   */
  lemma ApproximateSelfDefault(d: Distance, bearing: Bearing, route: seq<Point>)
    requires RouteLength(d, route) > 0.0
    ensures 80.0 <= ApproximateOverlap(d, bearing, route, route, DefaultBuffer) <= 100.0
  {
    SelfOverlap(d, bearing, route, DefaultBuffer);
    ApproximateNearOverlap(d, bearing, route, route, DefaultBuffer);
  }
}

