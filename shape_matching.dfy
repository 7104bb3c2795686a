/**
 * The shape-based pairwise scorer (src/services/matchingService.ts): a guard
 * against matching a trip with itself, the relationship tag, a weighted score
 * with an optional departure-time blend, and a validity gate whose thresholds
 * depend on the relationship.
 */
module ShapeMatching {
  import opened Wrappers
  import opened Geometry
  import opened RealArith
  import opened ShapeMetrics

  /** How the two trips relate; `SelfMatch` marks the guard's rejection. */
  datatype RouteType = SameOriginDest | SameDestination | SameOrigin | Different | SelfMatch

  /** One row of the threshold table: minimum overlap, maximum extra %, minimum score. */
  datatype Threshold = Threshold(overlap: real, extra: real, score: real)

  /** `MATCH_THRESHOLDS`. */
  const SameDestThreshold := Threshold(15.0, 40.0, 25.0)
  const SameOriginThreshold := Threshold(20.0, 35.0, 30.0)
  const DifferentThreshold := Threshold(30.0, 25.0, 40.0)

  /** `PICKUP_RADIUS` and `DEST_RADIUS`, in metres. */
  const PickupRadius: real := 5000.0
  const DestRadius: real := 2000.0

  /** The default departure window of `timeCompat`, in minutes. */
  const DefaultWindow: real := 45.0

  /** The pairwise result. The source rounds the reals to two decimals for output. */
  datatype Match = Match(
    overlap: real,
    extraDist: real,
    score: real,
    valid: bool,
    frechetDist: real,
    similarity: real,
    destMatch: bool,
    routeType: RouteType)

  /** Why `calculateMatch` throws instead of returning. */
  datatype MatchError =
    | DecodeError   // a polyline string is malformed
    | EmptyRoute    // a decoded route has no point, so a point lookup fails

  function Abs(x: int): nat {
    if x < 0 then -x else x
  }

  /** Minutes between two instants given in milliseconds. */
  function MinutesApart(t1: int, t2: int): real {
    Abs(t1 - t2) as real / 60000.0
  }

  /**
   * `timeCompat`: 0 outside the window; inside it the score falls linearly
   * from 100 at equal times to 70 at the window's edge.
   */
  function TimeCompat(t1: int, t2: int, windowMin: real): (r: real)
    requires windowMin > 0.0
    ensures r == 0.0 <==> MinutesApart(t1, t2) > windowMin
    ensures MinutesApart(t1, t2) <= windowMin ==> 70.0 <= r <= 100.0
    ensures r == 100.0 <==> t1 == t2
  {
    var diff := MinutesApart(t1, t2);
    FractionSign(diff, windowMin);
    if diff <= windowMin then 100.0 - Fraction(diff, windowMin) * 30.0 else 0.0
  }

  /** Time compatibility does not depend on which trip comes first. */
  lemma TimeCompatSymmetric(t1: int, t2: int, windowMin: real)
    requires windowMin > 0.0
    ensures TimeCompat(t1, t2, windowMin) == TimeCompat(t2, t1, windowMin)
  {
    assert Abs(t1 - t2) == Abs(t2 - t1);
  }

  /** `checkDestinationMatch`: both routes have two points and end within 2 km. */
  predicate CheckDestinationMatch(d: Distance, r1: seq<Point>, r2: seq<Point>) {
    |r1| >= 2 && |r2| >= 2 && d(r1[|r1| - 1], r2[|r2| - 1]) <= DestRadius
  }

  /** `checkOriginMatch`: both routes have two points and start within 5 km. */
  predicate CheckOriginMatch(d: Distance, r1: seq<Point>, r2: seq<Point>) {
    |r1| >= 2 && |r2| >= 2 && d(r1[0], r2[0]) <= PickupRadius
  }

  /** Both flags are symmetric in the two routes, and a route agrees with itself. */
  lemma MatchFlagsSymmetric(d: Distance, r1: seq<Point>, r2: seq<Point>)
    ensures CheckDestinationMatch(d, r1, r2) == CheckDestinationMatch(d, r2, r1)
    ensures CheckOriginMatch(d, r1, r2) == CheckOriginMatch(d, r2, r1)
    ensures |r1| >= 2 ==> CheckDestinationMatch(d, r1, r1) && CheckOriginMatch(d, r1, r1)
  {
    if |r1| >= 2 && |r2| >= 2 {
      assert d(r1[|r1| - 1], r2[|r2| - 1]) == d(r2[|r2| - 1], r1[|r1| - 1]);
      assert d(r1[0], r2[0]) == d(r2[0], r1[0]);
    }
  }

  /**
   * `routeDeviationScore`: 30% pickup fall-off over 5 km plus 70% destination
   * fall-off over 2 km; 0 unless both routes have two points.
   */
  function RouteDeviationScore(d: Distance, r1: seq<Point>, r2: seq<Point>): (r: real)
    ensures 0.0 <= r <= 100.0
    ensures |r1| < 2 || |r2| < 2 ==> r == 0.0
    ensures |r1| >= 2 && |r2| >= 2 ==>
              (r == 100.0 <==> d(r1[0], r2[0]) == 0.0 && d(r1[|r1| - 1], r2[|r2| - 1]) == 0.0)
  {
    if |r1| < 2 || |r2| < 2 then 0.0
    else
      var startScore := ProximityScore(d(r1[0], r2[0]), PickupRadius);
      var endScore := ProximityScore(d(r1[|r1| - 1], r2[|r2| - 1]), DestRadius);
      startScore * 0.3 + endScore * 0.7
  }

  /** The same-destination extra-distance score: the penalty costs 1.5 points per %, at most 40. */
  function DestDistScore(penalty: real): (r: real)
    ensures penalty >= 0.0 ==> 60.0 <= r <= 100.0
  {
    Max(0.0, 100.0 - Min(penalty * 1.5, 40.0))
  }

  /** The general extra-distance score: the penalty costs 2 points per %, at most 50. */
  function GeneralDistScore(penalty: real): (r: real)
    ensures penalty >= 0.0 ==> 50.0 <= r <= 100.0
  {
    Max(0.0, 100.0 - Min(penalty * 2.0, 50.0))
  }

  /** The length bonus of the same-destination branch, by average trip length in metres. */
  function LengthBonus(routeLength: real): (r: real)
    ensures r == 5.0 || r == 10.0 || r == 15.0
    ensures r == 15.0 <==> routeLength > 15000.0
    ensures r == 5.0 <==> routeLength <= 5000.0
  {
    if routeLength > 15000.0 then 15.0 else if routeLength > 5000.0 then 10.0 else 5.0
  }

  /** Every component score lies in [0, 100]. */
  predicate Percent(x: real) {
    0.0 <= x <= 100.0
  }

  /**
   * `calcScore`: the same-destination weighting (with a length bonus on top)
   * or the general weighting.
   */
  function CalcScore(overlap: real, penalty: real, devScore: real, frechetSim: real,
                     destMatch: bool, routeLength: real): (r: real)
    ensures Percent(overlap) && Percent(devScore) && Percent(frechetSim) && penalty >= 0.0 ==>
              if destMatch then 17.0 <= r <= 115.0 else 12.5 <= r <= 100.0
  {
    if destMatch then
      frechetSim * 0.3 + overlap * 0.4 + DestDistScore(penalty) * 0.2 + devScore * 0.1
        + LengthBonus(routeLength)
    else
      overlap * 0.4 + GeneralDistScore(penalty) * 0.25 + devScore * 0.25 + frechetSim * 0.1
  }

  /** A larger extra-distance penalty never raises the score. */
  lemma CalcScorePenaltyAntitone(overlap: real, p1: real, p2: real, devScore: real,
                                 frechetSim: real, destMatch: bool, routeLength: real)
    requires p1 <= p2
    ensures CalcScore(overlap, p1, devScore, frechetSim, destMatch, routeLength)
         >= CalcScore(overlap, p2, devScore, frechetSim, destMatch, routeLength)
  {
    assert DestDistScore(p1) >= DestDistScore(p2);
    assert GeneralDistScore(p1) >= GeneralDistScore(p2);
  }

  /** More overlap, similarity or endpoint agreement never lowers the score. */
  lemma CalcScoreMonotone(o1: real, o2: real, penalty: real, v1: real, v2: real,
                          f1: real, f2: real, destMatch: bool, routeLength: real)
    requires o1 <= o2 && v1 <= v2 && f1 <= f2
    ensures CalcScore(o1, penalty, v1, f1, destMatch, routeLength)
         <= CalcScore(o2, penalty, v2, f2, destMatch, routeLength)
  {
  }

  /**
   * `validateDifferentTrips`: false (the same trip) when the distances differ
   * by under 100 m and both endpoints lie within 50 m. None where the source
   * throws: it reads the first point of an empty route.
   */
  function ValidateDifferentTrips(d: Distance, r1: seq<Point>, r2: seq<Point>,
                                  dist1: real, dist2: real): (r: Option<bool>)
    ensures r.None? <==> -100.0 < dist1 - dist2 < 100.0 && (|r1| == 0 || |r2| == 0)
    ensures r == Some(false) ==> |r1| > 0 && |r2| > 0 && d(r1[0], r2[0]) < 50.0
                                 && d(r1[|r1| - 1], r2[|r2| - 1]) < 50.0
  {
    if -100.0 < dist1 - dist2 < 100.0 then
      if |r1| == 0 || |r2| == 0 then None
      else
        var startDist := d(r1[0], r2[0]);
        var endDist := d(r1[|r1| - 1], r2[|r2| - 1]);
        Some(!(startDist < 50.0 && endDist < 50.0))
    else Some(true)
  }

  /** The guard's verdict for a route and itself at the same distance: the same trip. */
  lemma ValidateSameTrip(d: Distance, r: seq<Point>, dist: real)
    requires |r| > 0
    ensures ValidateDifferentTrips(d, r, r, dist, dist) == Some(false)
  {
  }

  /** The record returned for a pair rejected as the same trip. */
  const SelfMatchResult := Match(0.0, 0.0, 0.0, false, 0.0, 0.0, false, SelfMatch)

  /** The relationship tag, from the two endpoint flags. */
  function Classify(destMatch: bool, originMatch: bool): (t: RouteType)
    ensures t != SelfMatch
  {
    if destMatch && originMatch then SameOriginDest
    else if destMatch then SameDestination
    else if originMatch then SameOrigin
    else Different
  }

  /**
   * The threshold row the gate uses: a destination match outranks an origin
   * match. The rows only tighten from destination to origin to different.
   */
  function ThresholdFor(t: RouteType): (r: Threshold)
    ensures SameDestThreshold.overlap <= r.overlap && r.extra <= SameDestThreshold.extra
            && SameDestThreshold.score <= r.score
    ensures t != SameOriginDest && t != SameDestination ==>
              SameOriginThreshold.overlap <= r.overlap && r.extra <= SameOriginThreshold.extra
              && SameOriginThreshold.score <= r.score
  {
    match t
    case SameOriginDest => SameDestThreshold
    case SameDestination => SameDestThreshold
    case SameOrigin => SameOriginThreshold
    case _ => DifferentThreshold
  }

  /** The signed extra distance of the candidate, as a percentage of the new trip (floor 1 m). */
  function RawExtraDist(newDist: real, candDist: real): (r: real)
    ensures candDist <= newDist ==> r <= 0.0
    ensures candDist > newDist ==> r > 0.0
  {
    var base := Max(newDist, 1.0);
    FractionSign(candDist - newDist, base);
    Fraction(candDist - newDist, base) * 100.0
  }

  /** The geometric score before the optional time blend. */
  function GeometricScore(d: Distance, r1: seq<Point>, r2: seq<Point>,
                          newDist: real, candDist: real): (r: real)
    ensures 12.5 <= r <= 115.0
    ensures !CheckDestinationMatch(d, r1, r2) ==> r <= 100.0
  {
    var raw := RawExtraDist(newDist, candDist);
    var penalty := if raw > 0.0 then raw else 0.0;
    CalcScore(RouteOverlap(d, r1, r2), penalty, RouteDeviationScore(d, r1, r2),
              CalculateSimilarity(d, r1, r2), CheckDestinationMatch(d, r1, r2),
              (newDist + candDist) / 2.0)
  }

  /** The score after blending in departure-time compatibility when both times are known. */
  function FinalScore(d: Distance, r1: seq<Point>, r2: seq<Point>, newDist: real,
                      candDist: real, newTime: Option<int>, candTime: Option<int>): (r: real)
    ensures 9.375 <= r <= 115.0
    ensures !CheckDestinationMatch(d, r1, r2) ==> r <= 100.0
  {
    var geometric := GeometricScore(d, r1, r2, newDist, candDist);
    if newTime.Some? && candTime.Some? then
      geometric * 0.75 + TimeCompat(newTime.value, candTime.value, DefaultWindow) * 0.25
    else geometric
  }

  /** The gate: overlap (or, for a shared destination, shape similarity), extra distance, score. */
  predicate PassesGate(t: RouteType, overlap: real, similarity: real, rawExtra: real, score: real) {
    var th := ThresholdFor(t);
    && (if t == SameOriginDest || t == SameDestination
        then similarity >= th.overlap || overlap >= th.overlap
        else overlap >= th.overlap)
    && rawExtra <= th.extra
    && score >= th.score
  }

  /** Scores a pair of decoded, non-empty routes that the guard let through. */
  function Evaluate(d: Distance, r1: seq<Point>, r2: seq<Point>, newDist: real, candDist: real,
                    newTime: Option<int>, candTime: Option<int>): (m: Match)
    requires |r1| > 0 && |r2| > 0
    ensures m.routeType != SelfMatch
    ensures Percent(m.overlap) && Percent(m.similarity) && m.frechetDist >= 0.0
    ensures m.valid ==> m.score >= ThresholdFor(m.routeType).score
  {
    var overlap := RouteOverlap(d, r1, r2);
    var raw := RawExtraDist(newDist, candDist);
    var sim := CalculateSimilarity(d, r1, r2);
    var destMatch := CheckDestinationMatch(d, r1, r2);
    var t := Classify(destMatch, CheckOriginMatch(d, r1, r2));
    var score := FinalScore(d, r1, r2, newDist, candDist, newTime, candTime);
    Match(overlap, raw, score, PassesGate(t, overlap, sim, raw, score),
          Frechet(d, r1, r2).value, sim, destMatch, t)
  }

  /**
   * `calculateMatch`: decodes both polylines, rejects the same trip, and
   * otherwise scores and gates the pair.
   */
  function CalculateMatch(decode: Decoder, d: Distance, newPoly: string, candPoly: string,
                          newDist: real, candDist: real,
                          newTime: Option<int>, candTime: Option<int>): (r: Result<Match, MatchError>)
    ensures r.Success? ==> 0.0 <= r.value.score <= 115.0
    ensures r.Success? && !r.value.destMatch ==> r.value.score <= 100.0
    ensures r.Success? && r.value.valid ==> r.value.score >= 25.0 && r.value.routeType != SelfMatch
  {
    var r1 :- decode(newPoly).ToResult(DecodeError);
    var r2 :- decode(candPoly).ToResult(DecodeError);
    var same := ValidateDifferentTrips(d, r1, r2, newDist, candDist);
    if same.None? then Failure(EmptyRoute)
    else if !same.value then Success(SelfMatchResult)
    else if |r1| == 0 || |r2| == 0 then Failure(EmptyRoute)  // the Fréchet lookup throws
    else Success(Evaluate(d, r1, r2, newDist, candDist, newTime, candTime))
  }

  /** Both routes decode to these point sequences. */
  predicate DecodesTo(decode: Decoder, newPoly: string, candPoly: string,
                      r1: seq<Point>, r2: seq<Point>) {
    decode(newPoly) == Some(r1) && decode(candPoly) == Some(r2)
  }

  /** The call throws exactly when a polyline is malformed or decodes to no point at all. */
  lemma CalculateMatchFails(decode: Decoder, d: Distance, newPoly: string, candPoly: string,
                            newDist: real, candDist: real, newTime: Option<int>, candTime: Option<int>)
    ensures var r := CalculateMatch(decode, d, newPoly, candPoly, newDist, candDist, newTime, candTime);
            && (r == Failure(DecodeError) <==> decode(newPoly).None? || decode(candPoly).None?)
            && (r == Failure(EmptyRoute) <==>
                  decode(newPoly).Some? && decode(candPoly).Some?
                  && (|decode(newPoly).value| == 0 || |decode(candPoly).value| == 0))
  {
  }

  /**
   * The self-match guard: with both routes non-empty, the fixed rejection record
   * comes back exactly when the distances differ by under 100 m and both
   * endpoints lie within 50 m; no metric is computed for it.
   */
  lemma SelfMatchGuard(decode: Decoder, d: Distance, newPoly: string, candPoly: string,
                       r1: seq<Point>, r2: seq<Point>, newDist: real, candDist: real,
                       newTime: Option<int>, candTime: Option<int>)
    requires DecodesTo(decode, newPoly, candPoly, r1, r2) && |r1| > 0 && |r2| > 0
    ensures var r := CalculateMatch(decode, d, newPoly, candPoly, newDist, candDist, newTime, candTime);
            r.Success? &&
            (r.value.routeType == SelfMatch <==>
               -100.0 < newDist - candDist < 100.0
               && d(r1[0], r2[0]) < 50.0 && d(r1[|r1| - 1], r2[|r2| - 1]) < 50.0) &&
            (r.value.routeType == SelfMatch ==> r.value == SelfMatchResult)
  {
  }

  /** A trip compared with itself is always rejected as the same trip. */
  lemma NoMatchWithItself(decode: Decoder, d: Distance, poly: string, route: seq<Point>,
                          dist: real, t1: Option<int>, t2: Option<int>)
    requires decode(poly) == Some(route) && |route| > 0
    ensures CalculateMatch(decode, d, poly, poly, dist, dist, t1, t2) == Success(SelfMatchResult)
  {
    ValidateSameTrip(d, route, dist);
  }

  /**
   * The relationship tag of a scored pair: both flags give `SameOriginDest`,
   * the destination flag alone `SameDestination`, the origin flag alone
   * `SameOrigin`, neither `Different`; `destMatch` reports the destination flag.
   */
  lemma Classification(decode: Decoder, d: Distance, newPoly: string, candPoly: string,
                       r1: seq<Point>, r2: seq<Point>, newDist: real, candDist: real,
                       newTime: Option<int>, candTime: Option<int>)
    requires DecodesTo(decode, newPoly, candPoly, r1, r2) && |r1| > 0 && |r2| > 0
    ensures CalculateMatch(decode, d, newPoly, candPoly, newDist, candDist, newTime, candTime).Success?
    ensures var m := CalculateMatch(decode, d, newPoly, candPoly, newDist, candDist, newTime, candTime).value;
            var dm, om := CheckDestinationMatch(d, r1, r2), CheckOriginMatch(d, r1, r2);
            m.routeType != SelfMatch ==>
              && m.destMatch == dm
              && (m.routeType == SameOriginDest <==> dm && om)
              && (m.routeType == SameDestination <==> dm && !om)
              && (m.routeType == SameOrigin <==> !dm && om)
              && (m.routeType == Different <==> !dm && !om)
  {
  }

  /** The gate of an evaluated pair, per relationship tag, in terms of its reported fields. */
  predicate GateHolds(m: Match) {
    && (m.routeType == SelfMatch ==> !m.valid)
    && (m.routeType == SameOriginDest || m.routeType == SameDestination ==>
          (m.valid <==> (m.similarity >= 15.0 || m.overlap >= 15.0)
                        && m.extraDist <= 40.0 && m.score >= 25.0))
    && (m.routeType == SameOrigin ==>
          (m.valid <==> m.overlap >= 20.0 && m.extraDist <= 35.0 && m.score >= 30.0))
    && (m.routeType == Different ==>
          (m.valid <==> m.overlap >= 30.0 && m.extraDist <= 25.0 && m.score >= 40.0))
  }

  lemma EvaluateGate(d: Distance, r1: seq<Point>, r2: seq<Point>, newDist: real, candDist: real,
                     newTime: Option<int>, candTime: Option<int>)
    requires |r1| > 0 && |r2| > 0
    ensures GateHolds(Evaluate(d, r1, r2, newDist, candDist, newTime, candTime))
  {
    var m := Evaluate(d, r1, r2, newDist, candDist, newTime, candTime);
    assert m.valid == PassesGate(m.routeType, m.overlap, m.similarity, m.extraDist, m.score);
  }

  /**
   * The validity gate, per relationship tag, in terms of the reported fields.
   * A destination match uses the same-destination row even when the origins
   * also match, and accepts either enough shape similarity or enough overlap.
   */
  lemma ValidityGate(decode: Decoder, d: Distance, newPoly: string, candPoly: string,
                     r1: seq<Point>, r2: seq<Point>, newDist: real, candDist: real,
                     newTime: Option<int>, candTime: Option<int>)
    requires DecodesTo(decode, newPoly, candPoly, r1, r2) && |r1| > 0 && |r2| > 0
    ensures CalculateMatch(decode, d, newPoly, candPoly, newDist, candDist, newTime, candTime).Success?
    ensures var m := CalculateMatch(decode, d, newPoly, candPoly, newDist, candDist, newTime, candTime).value;
            && (m.routeType == SelfMatch ==> !m.valid)
            && (m.routeType == SameOriginDest || m.routeType == SameDestination ==>
                  (m.valid <==> (m.similarity >= 15.0 || m.overlap >= 15.0)
                                && m.extraDist <= 40.0 && m.score >= 25.0))
            && (m.routeType == SameOrigin ==>
                  (m.valid <==> m.overlap >= 20.0 && m.extraDist <= 35.0 && m.score >= 30.0))
            && (m.routeType == Different ==>
                  (m.valid <==> m.overlap >= 30.0 && m.extraDist <= 25.0 && m.score >= 40.0))
  {
    var r := CalculateMatch(decode, d, newPoly, candPoly, newDist, candDist, newTime, candTime);
    if ValidateDifferentTrips(d, r1, r2, newDist, candDist) == Some(false) {
      assert r == Success(SelfMatchResult);
    } else {
      assert r == Success(Evaluate(d, r1, r2, newDist, candDist, newTime, candTime));
      EvaluateGate(d, r1, r2, newDist, candDist, newTime, candTime);
    }
    assert GateHolds(r.value);
  }

  /**
   * A candidate no longer than the new trip has a non-positive extra distance,
   * so it always clears the extra-distance condition, and its score carries no
   * distance penalty.
   */
  lemma ShorterCandidateNotPenalised(decode: Decoder, d: Distance, newPoly: string, candPoly: string,
                                     r1: seq<Point>, r2: seq<Point>, newDist: real, candDist: real,
                                     newTime: Option<int>, candTime: Option<int>)
    requires DecodesTo(decode, newPoly, candPoly, r1, r2) && |r1| > 0 && |r2| > 0 && candDist <= newDist
    ensures CalculateMatch(decode, d, newPoly, candPoly, newDist, candDist, newTime, candTime).Success?
    ensures var m := CalculateMatch(decode, d, newPoly, candPoly, newDist, candDist, newTime, candTime).value;
            && m.extraDist <= 0.0
            && m.extraDist <= ThresholdFor(m.routeType).extra
            && (m.routeType != SelfMatch ==>
                  GeometricScore(d, r1, r2, newDist, candDist)
                  == CalcScore(m.overlap, 0.0, RouteDeviationScore(d, r1, r2), m.similarity,
                               m.destMatch, (newDist + candDist) / 2.0))
  {
  }

  /**
   * With both departure times known the score is 75% geometry and 25% time
   * compatibility; otherwise it is the geometric score alone.
   */
  lemma TimeBlend(decode: Decoder, d: Distance, newPoly: string, candPoly: string,
                  r1: seq<Point>, r2: seq<Point>, newDist: real, candDist: real,
                  newTime: Option<int>, candTime: Option<int>)
    requires DecodesTo(decode, newPoly, candPoly, r1, r2) && |r1| > 0 && |r2| > 0
    ensures CalculateMatch(decode, d, newPoly, candPoly, newDist, candDist, newTime, candTime).Success?
    ensures var m := CalculateMatch(decode, d, newPoly, candPoly, newDist, candDist, newTime, candTime).value;
            var geometric := GeometricScore(d, r1, r2, newDist, candDist);
            m.routeType != SelfMatch ==>
              && (newTime.Some? && candTime.Some? ==>
                    m.score == geometric * 0.75
                               + TimeCompat(newTime.value, candTime.value, DefaultWindow) * 0.25)
              && (newTime.None? || candTime.None? ==> m.score == geometric)
  {
  }
}
