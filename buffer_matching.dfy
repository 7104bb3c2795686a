/**
 * The buffer/bearing scorer (`dist/services/matchingService.js`): combines the
 * buffer overlap of two decoded routes with the proximity of their end points,
 * gates the pair on overlap, extra distance and direction, and scores the pairs
 * that pass.
 */
module BufferMatching {
  import opened Wrappers
  import opened RealArith
  import opened Geometry
  import opened BufferOverlap
  import ShapeMetrics

  function Abs(x: real): real {
    if x < 0.0 then -x else x
  }

  /** Points a pair earns by its overlap, extra distance and directional agreement. */
  function DistanceScore(overlap: real, extraDist: real, directionalSim: real): (r: real)
    ensures r >= 0.0
  {
    var baseScore := overlap * 0.5;
    var distPenalty := Abs(extraDist) * 0.3;
    var directionBonus := directionalSim * 0.2;
    var timeBonus := if overlap > 70.0 then 10.0 else 0.0;
    Max(0.0, baseScore - distPenalty + directionBonus + timeBonus)
  }

  /** More overlap, less extra distance and more agreement never lower the score. */
  lemma DistanceScoreMonotone(o1: real, e1: real, s1: real, o2: real, e2: real, s2: real)
    requires o1 <= o2 && Abs(e2) <= Abs(e1) && s1 <= s2
    ensures DistanceScore(o1, e1, s1) <= DistanceScore(o2, e2, s2)
  {
  }

  /** Crossing an overlap of 70 adds exactly the 10-point bonus when nothing is clamped. */
  lemma DistanceScoreBonus(overlap: real, extraDist: real, directionalSim: real)
    requires overlap > 70.0 && directionalSim >= 0.0 && Abs(extraDist) <= 100.0
    ensures DistanceScore(overlap, extraDist, directionalSim) - 10.0
         == Max(0.0, overlap * 0.5 - Abs(extraDist) * 0.3 + directionalSim * 0.2)
  {
  }

  /** At or below an overlap of 70 there is no bonus: the score is the clamped weighted sum alone. */
  lemma DistanceScoreNoBonus(overlap: real, extraDist: real, directionalSim: real)
    requires overlap <= 70.0
    ensures DistanceScore(overlap, extraDist, directionalSim)
         == Max(0.0, overlap * 0.5 - Abs(extraDist) * 0.3 + directionalSim * 0.2)
  {
  }

  /** A proximity score with a 10-points-per-kilometre fall-off. */
  function KmProximity(dist: real): real {
    Max(0.0, 100.0 - Fraction(dist, 1000.0) * 10.0)
  }

  /** The fall-off is the shape generation's linear proximity with a 10 km radius. */
  lemma KmProximityIsLinear(dist: real)
    ensures KmProximity(dist) == ShapeMetrics.ProximityScore(dist, 10000.0)
    ensures dist >= 0.0 ==> 0.0 <= KmProximity(dist) <= 100.0
    ensures dist >= 0.0 ==> (KmProximity(dist) == 100.0 <==> dist == 0.0)
    ensures KmProximity(dist) == 0.0 <==> dist >= 10000.0
  {
    assert Fraction(dist, 1000.0) * 10.0 == Fraction(dist, 10000.0) * 100.0;
  }

  /** The result of `getRouteCompatibility`. */
  datatype Compatibility = Compatibility(score: real, startProximity: real, endProximity: real)

  /** `getRouteCompatibility`: the mean proximity of the two starts and the two ends. */
  function RouteCompatibility(d: Distance, p1: seq<Point>, p2: seq<Point>): (r: Compatibility)
    ensures 0.0 <= r.score <= 100.0
    ensures 0.0 <= r.startProximity <= 100.0 && 0.0 <= r.endProximity <= 100.0
    ensures |p1| == 0 || |p2| == 0 ==> r == Compatibility(0.0, 0.0, 0.0)
  {
    if |p1| == 0 || |p2| == 0 then Compatibility(0.0, 0.0, 0.0)
    else
      var startDist := d(p1[0], p2[0]);
      var endDist := d(p1[|p1| - 1], p2[|p2| - 1]);
      KmProximityIsLinear(startDist);
      KmProximityIsLinear(endDist);
      var startProximity := KmProximity(startDist);
      var endProximity := KmProximity(endDist);
      Compatibility((startProximity + endProximity) / 2.0, startProximity, endProximity)
  }

  /** Compatibility does not depend on which route comes first. */
  lemma CompatibilitySymmetric(d: Distance, p1: seq<Point>, p2: seq<Point>)
    ensures RouteCompatibility(d, p1, p2) == RouteCompatibility(d, p2, p1)
  {
    if |p1| > 0 && |p2| > 0 {
      assert d(p1[0], p2[0]) == d(p2[0], p1[0]);
      assert d(p1[|p1| - 1], p2[|p2| - 1]) == d(p2[|p2| - 1], p1[|p1| - 1]);
    }
  }

  /** A non-empty route is fully compatible with itself. */
  lemma CompatibilitySelf(d: Distance, p: seq<Point>)
    requires |p| > 0
    ensures RouteCompatibility(d, p, p) == Compatibility(100.0, 100.0, 100.0)
  {
    KmProximityIsLinear(0.0);
    assert d(p[0], p[0]) == 0.0;
    assert d(p[|p| - 1], p[|p| - 1]) == 0.0;
  }

  /**
   * The relative extra distance of the candidate, in percent. The source divides
   * by `newDist` unguarded; a zero divisor gives a non-finite number, modelled
   * as `None`, which fails every comparison it meets.
   */
  function ExtraDist(newDist: real, candDist: real): (r: Option<real>)
    ensures r.None? <==> newDist == 0.0
    ensures r.Some? && candDist == newDist ==> r.value == 0.0
  {
    if newDist == 0.0 then None else Some(Fraction(candDist - newDist, newDist) * 100.0)
  }

  /** Buffer used to compare urban routes, in metres. */
  const UrbanBuffer: real := 150.0

  /** Minimum overlap, maximum absolute extra distance and minimum direction for a valid pair. */
  const MinOverlap: real := 25.0
  const MaxExtraDist: real := 20.0
  const MinDirection: real := 30.0

  /** Diagnostic figures reported with a match. */
  datatype Details = Details(
    sharedDistance: real,
    directionalSimilarity: real,
    routeDeviation: real,
    startProximity: real,
    endProximity: real)

  /** The result of `calculateMatch`. */
  datatype BufferMatch = BufferMatch(overlap: real, extraDist: Option<real>, score: real, valid: bool, details: Details)

  /** The gate: enough overlap, at most 20% longer or shorter, and some directional agreement. */
  predicate Valid(overlap: real, extraDist: Option<real>, directionalSim: real) {
    overlap >= MinOverlap
    && extraDist.Some? && Abs(extraDist.value) <= MaxExtraDist
    && directionalSim >= MinDirection
  }

  /** Scores a pair of decoded routes. */
  function MatchRoutes(d: Distance, bearing: Bearing, p1: seq<Point>, p2: seq<Point>, newDist: real, candDist: real): (r: BufferMatch)
    ensures 0.0 <= r.overlap <= 100.0
    ensures r.valid ==> r.overlap >= MinOverlap && r.extraDist.Some? && Abs(r.extraDist.value) <= MaxExtraDist
    ensures !r.valid ==> r.score == 0.0
    ensures r.extraDist.None? <==> newDist == 0.0
  {
    AnalysisBounds(d, bearing, p1, p2, UrbanBuffer);
    var analysis := AdvancedOverlap(d, bearing, p1, p2, UrbanBuffer);
    var compat := RouteCompatibility(d, p1, p2);
    var overlap := Max(analysis.overlapPercentage, compat.score * 0.3);
    var extraDist := ExtraDist(newDist, candDist);
    var valid := Valid(overlap, extraDist, analysis.directionalSimilarity);
    var score := if valid then DistanceScore(overlap, extraDist.value, analysis.directionalSimilarity) else 0.0;
    BufferMatch(overlap, extraDist, score, valid,
      Details(analysis.sharedDistance, analysis.directionalSimilarity, analysis.routeDeviation,
              compat.startProximity, compat.endProximity))
  }

  /** `calculateMatch`: decodes both polylines and scores the routes; `None` when a polyline is malformed. */
  function CalculateMatch(decode: Decoder, d: Distance, bearing: Bearing, newPoly: string, candPoly: string,
                          newDist: real, candDist: real): (r: Option<BufferMatch>)
    ensures r.None? <==> decode(newPoly).None? || decode(candPoly).None?
  {
    var p1 :- decode(newPoly);
    var p2 :- decode(candPoly);
    Some(MatchRoutes(d, bearing, p1, p2, newDist, candDist))
  }

  /**
   * The reported overlap is the larger of the buffer overlap and 30% of the
   * end-point compatibility, so it is at least each of them and at most 100.
   */
  lemma OverlapDominates(d: Distance, bearing: Bearing, p1: seq<Point>, p2: seq<Point>, newDist: real, candDist: real)
    ensures var r := MatchRoutes(d, bearing, p1, p2, newDist, candDist);
      && r.overlap >= AdvancedOverlap(d, bearing, p1, p2, UrbanBuffer).overlapPercentage
      && r.overlap >= RouteCompatibility(d, p1, p2).score * 0.3
      && (r.overlap == AdvancedOverlap(d, bearing, p1, p2, UrbanBuffer).overlapPercentage
          || r.overlap == RouteCompatibility(d, p1, p2).score * 0.3)
      && 0.0 <= r.overlap <= 100.0
  {
    AnalysisBounds(d, bearing, p1, p2, UrbanBuffer);
  }

  /**
   * A pair scores exactly when it is valid: an invalid pair scores 0, and a
   * valid pair scores between 12.5 and 80.
   */
  lemma ScoreIffValid(d: Distance, bearing: Bearing, p1: seq<Point>, p2: seq<Point>, newDist: real, candDist: real)
    ensures var r := MatchRoutes(d, bearing, p1, p2, newDist, candDist);
      && (r.score > 0.0 <==> r.valid)
      && (!r.valid ==> r.score == 0.0)
      && (r.valid ==> 12.5 <= r.score <= 80.0)
  {
    OverlapDominates(d, bearing, p1, p2, newDist, candDist);
    AnalysisBounds(d, bearing, p1, p2, UrbanBuffer);
  }

  /** A pair is valid exactly when it clears all three thresholds of the gate. */
  lemma ValidIff(d: Distance, bearing: Bearing, p1: seq<Point>, p2: seq<Point>, newDist: real, candDist: real)
    ensures var r := MatchRoutes(d, bearing, p1, p2, newDist, candDist);
      r.valid <==> r.overlap >= 25.0 && newDist != 0.0 && -20.0 <= r.extraDist.value <= 20.0
                   && r.details.directionalSimilarity >= 30.0
  {
  }

  /** Without a direction sample the pair is never valid, however close its end points. */
  lemma NoDirectionNoMatch(d: Distance, bearing: Bearing, p1: seq<Point>, p2: seq<Point>, newDist: real, candDist: real)
    requires NearCount(d, LineSegments(d, p1), LineSegments(d, p2), UrbanBuffer) == 0
    ensures !MatchRoutes(d, bearing, p1, p2, newDist, candDist).valid
  {
    NoSharedNoDirection(d, bearing, p1, p2, UrbanBuffer);
  }
}
