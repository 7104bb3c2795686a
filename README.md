# Carpool route matching, modelled in Dafny

This project models the route-comparison core of a carpool matcher. The core
compares two decoded routes, each a sequence of latitude/longitude points, and
turns the comparison into an overlap or similarity figure, a score, a validity
verdict and a relationship tag. The repository holds two generations of this
logic, and both are modelled side by side.

- **Shape generation** (`src/utils/polylineUtils.ts`, `src/services/matchingService.ts`).
  It computes a discrete Fréchet distance by memoised recursion over an
  `n × m` table and resamples routes every 50 m. On top of those it builds a
  shape similarity, an endpoint similarity and their weighted blend. The scorer
  then applies:
  - a self-match guard;
  - a classification into same-origin-dest, same-destination, same-origin or
    different;
  - a weighted score with an optional time blend;
  - a validity gate with one threshold row per relationship.
- **Buffer/bearing generation** (`dist/utils/polylineUtils.js`, `dist/services/matchingService.js`).
  It builds line segments and measures point-to-segment distance with a clamped
  planar projection. A two-way buffer sweep accrues shared length and collects
  one bearing-agreement sample per shared segment. The older scorer combines
  this overlap with end-point proximity.
- **Ranking worker** (`dist/services/matchingWorker.js`). A class that:
  - merges its configuration over defaults;
  - queries candidate trips near the target;
  - scores candidates in batches of ten;
  - keeps valid matches above an overlap threshold, sorted by descending score
    and cut to ten;
  - caches the ranking per trip.

The great-circle distance (`haversine`/`haversineDistance`), the bearing
(`calculateBearing`) and the polyline decoder are parameters:
- `Distance` is any function that is never negative, is zero from a point to
  itself, and is symmetric.
- `Bearing` is any function with values in `[0, 360)`.
- `Decoder` maps a string to a point sequence, or to `None` for a malformed
  string.

Coordinates and distances are reals. Except where "Left out" says otherwise, the
exceptions the code raises itself or meets on malformed input (a polyline that
does not decode, an empty route, indexing past an empty table) become `Result`
or `Option` failures. Engine
limits such as call-stack exhaustion are not modelled; see "Left out".

The code has the following imperative parts, each modelled as a method:
- the Fréchet table over an `array2`;
- the resampling loop;
- the route-length loops;
- segment building;
- both sweep loops and the closest-segment search;
- batch processing;
- the worker's `findMatches`.

Each method is proved equal to a specification function, and the properties
are proved about those functions. The expression-only code (scorers, proximity
scores, bearing difference, ranking) is modelled as functions.

Files:
- `wrappers.dfy`: `Option` and `Result`.
- `arith.dfy`: quotient and product facts.
- `geometry.dfy`: points, the distance/bearing/decoder types and cumulative route length.
- `shape_metrics.dfy` and `shape_matching.dfy`: the shape generation.
- `buffer_overlap.dfy` and `buffer_matching.dfy`: the buffer generation.
- `matching_worker.dfy`: the worker.

## Model

| member | source | states |
|---|---|---|
| Geometry.RouteLengthBasics | src/utils/polylineUtils.ts:46-52 | route length is never negative, is 0 below two points, and adds the last hop's distance to the length of the shorter prefix |
| ShapeMetrics.Coupling | src/utils/polylineUtils.ts:23-34 | the coupling recurrence (first cell, running maxima along the first row and column, max-of-min interior) is never below the distance of its own pair |
| ShapeMetrics.Frechet | src/utils/polylineUtils.ts:15-36 | the distance exists exactly when both sequences are non-empty (an empty one makes the source index `ca[-1]` and throw) |
| ShapeMetrics.Memo | src/utils/polylineUtils.ts:23-34 | the memoised recursion returns the recurrence's value for cell (i, j) and leaves it in that cell; every cell filled before the call keeps its value, and every cell stays either -1 or its own recurrence value |
| ShapeMetrics.Store | src/utils/polylineUtils.ts:26-32 | writing a cell's recurrence value puts it in that cell and leaves every other cell unchanged, so every cell stays either -1 or its own recurrence value |
| ShapeMetrics.DiscreteFrechetDistance | src/utils/polylineUtils.ts:15-36 | the table-filling method returns the recurrence value at the last cell, which is at least the distance of the first pair and of the last pair |
| ShapeMetrics.CouplingAtLeastStart | src/utils/polylineUtils.ts:25-30 | every coupling value is at least the distance of the two first points |
| ShapeMetrics.FrechetBounds | src/utils/polylineUtils.ts:25-35 | the Fréchet distance is at least the start-pair distance and at least the end-pair distance |
| ShapeMetrics.CouplingDiagonalZero | src/utils/polylineUtils.ts:26-30 | a sequence coupled with itself has value 0 on the diagonal |
| ShapeMetrics.FrechetSelfZero | src/utils/polylineUtils.ts:26-30 | a non-empty sequence is at Fréchet distance 0 from itself |
| ShapeMetrics.CouplingSymmetric | src/utils/polylineUtils.ts:26-30 | the table of (P, Q) at (i, j) equals the table of (Q, P) at (j, i) |
| ShapeMetrics.FrechetSymmetric | src/utils/polylineUtils.ts:15-36 | the Fréchet distance does not depend on the order of the two sequences |
| ShapeMetrics.RouteDistance | src/utils/polylineUtils.ts:46-52 | the accumulating loop returns the sum of consecutive distances, 0 below two points |
| ShapeMetrics.SegmentAt | src/utils/polylineUtils.ts:61-64 | the segment holding arc length s is the first whose cumulative end reaches s |
| ShapeMetrics.SampleInRange | src/utils/polylineUtils.ts:64 | every emitted sample position k·interval is positive and within the route length |
| ShapeMetrics.RatioInUnit | src/utils/polylineUtils.ts:65 | the interpolation ratio is in (0, 1], so a zero-length hop is never divided by |
| ShapeMetrics.PointAtOnSegment | src/utils/polylineUtils.ts:64-67 | a sample lies on a hop of positive length, at a ratio in (0, 1], at exactly its arc length |
| ShapeMetrics.SampleOnSegment | src/utils/polylineUtils.ts:65-67 | the source's interpolation at position s is the point at arc length s |
| ShapeMetrics.NextSample | src/utils/polylineUtils.ts:64-69 | pushing the interpolated point keeps the samples so far correct and advances `nextSample` by one interval |
| ShapeMetrics.Samples | src/utils/polylineUtils.ts:61-70 | there are floor(length/interval) interior samples, the k-th at arc length k·interval |
| ShapeMetrics.Resample | src/utils/polylineUtils.ts:54-77 | a route below two points is returned unchanged; otherwise the result starts at the first point and ends at the last, with the interior samples between |
| ShapeMetrics.ResampleComplete | src/utils/polylineUtils.ts:61-76 | once the next sample position passes the route length, the samples plus the last point are the whole resampled route |
| ShapeMetrics.ResampleRoute | src/utils/polylineUtils.ts:54-77 | the nested loop with its `currentDist`/`nextSample` accumulators returns the declarative resampling |
| ShapeMetrics.ProximityScore | src/utils/polylineUtils.ts:88 | a linear fall-off is in [0, 100], is 100 exactly at distance 0 and is 0 exactly from the radius on |
| ShapeMetrics.ProximityAntitone | src/utils/polylineUtils.ts:105-106 | a larger distance never gets a higher proximity score |
| ShapeMetrics.ResampledFrechet | src/utils/polylineUtils.ts:82-85 | the Fréchet distance of the two 50 m resamplings is defined and not negative |
| ShapeMetrics.CalculateSimilarity | src/utils/polylineUtils.ts:79-89 | the similarity is in [0, 100], is 0 below two points, is 100 exactly at Fréchet distance 0 and is 0 exactly from 2000 m |
| ShapeMetrics.SimilaritySelf | src/utils/polylineUtils.ts:79-89 | a route of at least two points is 100% similar to itself |
| ShapeMetrics.SimilaritySymmetric | src/utils/polylineUtils.ts:79-89 | the similarity does not depend on the order of the two routes |
| ShapeMetrics.EndpointSimilarity | src/utils/polylineUtils.ts:100-109 | the mean of the start and end scores (3000 m radius) is in [0, 100], and is 100 exactly when both endpoint pairs are at distance 0 |
| ShapeMetrics.EndpointSymmetric | src/utils/polylineUtils.ts:100-109 | the endpoint similarity does not depend on the order of the two routes |
| ShapeMetrics.RouteOverlap | src/utils/polylineUtils.ts:91-113 | `routeOverlap` (and `overlapScore`, which returns it) is in [0, 100] and is 0 below two points |
| ShapeMetrics.RouteOverlapSelf | src/utils/polylineUtils.ts:91-98 | a route of at least two points overlaps itself at 100 |
| ShapeMetrics.RouteOverlapSymmetric | src/utils/polylineUtils.ts:91-98 | the overlap does not depend on the order of the two routes |
| ShapeMatching.TimeCompat | src/services/matchingService.ts:28-31 | 0 exactly when the times are further apart than the window; otherwise in [70, 100]; 100 exactly at equal times |
| ShapeMatching.TimeCompatSymmetric | src/services/matchingService.ts:28-31 | time compatibility does not depend on the order of the two times |
| ShapeMatching.MatchFlagsSymmetric | src/services/matchingService.ts:33-41 | both endpoint flags (`CheckDestinationMatch`, `CheckOriginMatch`) are symmetric, and a route of at least two points matches itself on both |
| ShapeMatching.RouteDeviationScore | src/services/matchingService.ts:43-53 | the 0.3/0.7 blend of start (5 km) and end (2 km) proximity is in [0, 100], is 0 below two points, and is 100 exactly when both endpoint pairs coincide in distance |
| ShapeMatching.DestDistScore | src/services/matchingService.ts:70 | for a non-negative penalty the destination-branch distance score is in [60, 100] |
| ShapeMatching.GeneralDistScore | src/services/matchingService.ts:85 | for a non-negative penalty the general-branch distance score is in [50, 100] |
| ShapeMatching.LengthBonus | src/services/matchingService.ts:71 | the bonus is 15 exactly above 15 km, 5 exactly at or below 5 km, and 10 otherwise |
| ShapeMatching.CalcScore | src/services/matchingService.ts:55-92 | with percentage inputs and a non-negative penalty, the general branch is in [12.5, 100] and the destination branch in [17, 115] |
| ShapeMatching.CalcScorePenaltyAntitone | src/services/matchingService.ts:55-92 | a larger extra-distance penalty never raises the score |
| ShapeMatching.CalcScoreMonotone | src/services/matchingService.ts:55-92 | more overlap, deviation score or shape similarity never lowers the score |
| ShapeMatching.ValidateDifferentTrips | src/services/matchingService.ts:94-103 | the guard throws exactly when the lengths are within 100 m and a route is empty; it reports the same trip only when both endpoint pairs are within 50 m |
| ShapeMatching.ValidateSameTrip | src/services/matchingService.ts:94-103 | a non-empty route with its own length is always reported as the same trip |
| ShapeMatching.Classify | src/services/matchingService.ts:142-145 | the relationship tag of a compared pair is never the self-match tag |
| ShapeMatching.ThresholdFor | src/services/matchingService.ts:155-172 | the threshold rows only tighten from destination to origin to different: the same-destination row is the laxest, and every row other than the destination ones is at least as strict as the same-origin row |
| ShapeMatching.RawExtraDist | src/services/matchingService.ts:132 | the signed extra distance is positive exactly when the candidate is longer |
| ShapeMatching.GeometricScore | src/services/matchingService.ts:129-148 | the geometric score is in [12.5, 115], and at most 100 unless the destinations match |
| ShapeMatching.FinalScore | src/services/matchingService.ts:147-153 | with or without the time blend the score is in [9.375, 115], and at most 100 unless the destinations match |
| ShapeMatching.Evaluate | src/services/matchingService.ts:129-183 | an evaluated pair is never tagged self-match, its overlap and similarity are percentages, and a valid pair reaches its row's score threshold |
| ShapeMatching.CalculateMatch | src/services/matchingService.ts:105-184 | a returned score is in [0, 115], and at most 100 without a destination match; a valid result scores at least 25 and is not a self-match |
| ShapeMatching.CalculateMatchFails | src/services/matchingService.ts:113-116 | the call fails with a decode error exactly when a polyline is malformed, and with an empty-route error exactly when a decoded route is empty |
| ShapeMatching.SelfMatchGuard | src/services/matchingService.ts:116-127 | the result is the self-match record exactly when the lengths differ by less than 100 and both endpoint pairs are within 50 m |
| ShapeMatching.NoMatchWithItself | src/services/matchingService.ts:116-127 | a trip compared with itself always gets the invalid self-match record |
| ShapeMatching.Classification | src/services/matchingService.ts:139-145 | each of the four tags holds exactly under its combination of the destination and origin flags |
| ShapeMatching.ValidityGate | src/services/matchingService.ts:155-172 | validity (`PassesGate` on the row `ThresholdFor` picks) holds exactly when the thresholds of the row chosen by the destination flag first, then the origin flag, are met |
| ShapeMatching.ShorterCandidateNotPenalised | src/services/matchingService.ts:131-133 | a candidate no longer than the new trip has a non-positive extra distance, passes every extra-distance threshold and is scored with penalty 0 |
| ShapeMatching.TimeBlend | src/services/matchingService.ts:150-153 | with both times the score is 0.75·geometric + 0.25·time compatibility; otherwise it is the geometric score |
| BufferOverlap.LenSqZero | dist/utils/polylineUtils.js:43-44 | the squared segment length is never negative and is 0 exactly for a segment whose ends coincide |
| BufferOverlap.Param | dist/utils/polylineUtils.js:42-47 | the projection parameter is 0 at the start of the segment and 1 at its end |
| BufferOverlap.Projection | dist/utils/polylineUtils.js:47-60 | the clamped projection maps each end of the segment to itself |
| BufferOverlap.ProjectionOnSegment | dist/utils/polylineUtils.js:47-60 | the clamped projection is the point of the segment at some parameter in [0, 1], and the unclamped parameter when that is already in [0, 1] |
| BufferOverlap.PointToLineDistance | dist/utils/polylineUtils.js:37-62 | the distance is never negative, and a zero-length segment falls back to the distance to its start |
| BufferOverlap.OnSegmentZero | dist/utils/polylineUtils.js:37-62 | both ends and the midpoint of a segment are at distance 0 from it |
| BufferOverlap.LineSegments | dist/utils/polylineUtils.js:66-75 | there are max(0, n-1) segments, none of negative length |
| BufferOverlap.CreateLineSegments | dist/utils/polylineUtils.js:66-75 | the pushing loop builds segment i from point i to point i+1 with their distance as length |
| BufferOverlap.SegmentLengthsSum | dist/utils/polylineUtils.js:66-85 | the segment lengths add up to the route length |
| BufferOverlap.CalculateRouteDistance | dist/utils/polylineUtils.js:79-85 | the loop returns the route length, which is also the sum of the segment lengths |
| BufferOverlap.NearRouteWitness | dist/utils/polylineUtils.js:89-91 | `NearRoute`, the model of `isPointNearRoute`, holds exactly when some segment is within the buffer of the point, so never for an empty route |
| BufferOverlap.BearingDifference | dist/utils/polylineUtils.js:105-111 | for bearings in [0, 360) the difference is in [0, 180] and is 0 exactly for equal bearings |
| BufferOverlap.BearingDifferenceSymmetric | dist/utils/polylineUtils.js:105-111 | the bearing difference does not depend on the order of the bearings |
| BufferOverlap.DirectionSimilarity | dist/utils/polylineUtils.js:157 | a sample is in [0, 1], 1 exactly for parallel bearings and 0 exactly for opposite ones |
| BufferOverlap.ArgMinIsFirstLeast | dist/utils/polylineUtils.js:143-151 | the running search keeps a least gap, and the first one: a later tie does not displace it |
| BufferOverlap.ClosestSegment | dist/utils/polylineUtils.js:143-151 | the strict-`<` scan from infinity returns the first closest segment and its gap, and nothing for an empty route |
| BufferOverlap.SampleWhenNear | dist/utils/polylineUtils.js:140-159 | a segment whose midpoint is near route B always yields a direction sample |
| BufferOverlap.SweepWithDirections | dist/utils/polylineUtils.js:135-161 | the first loop returns route A's shared length and its direction samples in order |
| BufferOverlap.SweepShared | dist/utils/polylineUtils.js:163-171 | the second loop returns route B's shared length |
| BufferOverlap.CalculateAdvancedOverlap | dist/utils/polylineUtils.js:115-194 | the method returns the analysis record, including the fixed record for an empty route |
| BufferOverlap.Deviation | dist/utils/polylineUtils.js:184-185 | a route of at most two points has deviation 0, and the deviation is negative exactly when the route is shorter than the direct distance between its ends |
| BufferOverlap.AdvancedOverlap | dist/utils/polylineUtils.js:115-194 | an empty route gives the fixed record: overlap, shared distance, both totals and directional similarity 0, deviation 100; otherwise the two totals are the route lengths; the overlap is always in [0, 100] and the deviation is never negative |
| BufferOverlap.SharedBounds | dist/utils/polylineUtils.js:135-171 | each segment accrues at most once, so the shared length is between 0 and the total length |
| BufferOverlap.SharedAll | dist/utils/polylineUtils.js:135-171 | when every midpoint is near the other route, the shared length is the whole length |
| BufferOverlap.ScoresPerSharedSegment | dist/utils/polylineUtils.js:140-159 | there is exactly one direction sample per shared segment of route A, each in [0, 1] |
| BufferOverlap.MeanInUnit | dist/utils/polylineUtils.js:176-178 | the mean of samples in [0, 1] is in [0, 1] |
| BufferOverlap.AnalysisBounds | dist/utils/polylineUtils.js:173-193 | the shared distance is at most the mean total, so the overlap clamp never acts; the overlap is in [0, 100], the directional similarity is in [0, 100], and the deviation is not negative |
| BufferOverlap.OverlapSymmetric | dist/utils/polylineUtils.js:173-175 | overlap and shared distance do not depend on which route is A |
| BufferOverlap.SelfOverlap | dist/utils/polylineUtils.js:135-175 | a route of positive length overlaps itself at 100% for any non-negative buffer |
| BufferOverlap.NoSharedNoDirection | dist/utils/polylineUtils.js:176-178 | with no shared segment of route A the directional similarity is 0 |
| BufferOverlap.TurningSelfDirection | dist/utils/polylineUtils.js:135-191 | in a three-point route whose legs have different bearings, the second leg's closest segment is the first leg, its direction sample is below 1, and the route's directional similarity with itself is below 100 |
| BufferOverlap.ApproximateOverlap | dist/utils/polylineUtils.js:198-205 | the combined figure is in [0, 100] |
| BufferOverlap.ApproximateNearOverlap | dist/utils/polylineUtils.js:198-205 | the combined figure is at most 20 below and 30 above the overlap, since the penalty is capped at 20 and the bonus is at most 30 |
| BufferOverlap.ApproximateSelfDefault | dist/utils/polylineUtils.js:198-204 | with the default 100 m buffer, a route of positive length compared with itself scores between 80 and 100 |
| BufferMatching.DistanceScore | dist/services/matchingService.js:5-11 | the distance score is never negative |
| BufferMatching.DistanceScoreMonotone | dist/services/matchingService.js:5-11 | more overlap, less absolute extra distance and more direction never lower the score |
| BufferMatching.DistanceScoreBonus | dist/services/matchingService.js:9-10 | above 70% overlap the score carries exactly the 10-point bonus (when the sum is not clamped) |
| BufferMatching.DistanceScoreNoBonus | dist/services/matchingService.js:9-10 | at or below 70% overlap there is no bonus, so the 10 points are added exactly when overlap is above 70 |
| BufferMatching.KmProximityIsLinear | dist/services/matchingService.js:19-20 | 10 points per km is the linear fall-off with a 10 km radius: in [0, 100], 100 exactly at 0, 0 exactly from 10 km |
| BufferMatching.RouteCompatibility | dist/services/matchingService.js:12-27 | all zeros when a route is empty; otherwise both proximities and their mean are in [0, 100] |
| BufferMatching.CompatibilitySymmetric | dist/services/matchingService.js:12-27 | compatibility does not depend on the order of the routes |
| BufferMatching.CompatibilitySelf | dist/services/matchingService.js:12-27 | a non-empty route is fully compatible with itself |
| BufferMatching.ExtraDist | dist/services/matchingService.js:37 | the extra distance is non-finite exactly when the new trip's distance is 0, and 0 for equal distances |
| BufferMatching.MatchRoutes | dist/services/matchingService.js:31-58 | the overlap is in [0, 100]; a valid pair has overlap at least 25 and a finite extra distance within ±20; an invalid pair scores 0; the extra distance is non-finite exactly when the new trip's distance is 0 |
| BufferMatching.CalculateMatch | dist/services/matchingService.js:28-59 | the call fails exactly when a polyline does not decode |
| BufferMatching.OverlapDominates | dist/services/matchingService.js:35-36 | the overlap is the larger of the buffer overlap and 30% of compatibility, so it is at least each and at most 100 |
| BufferMatching.ScoreIffValid | dist/services/matchingService.js:39-45 | the score is positive exactly when the pair is valid: 0 when invalid, in [12.5, 80] when valid |
| BufferMatching.ValidIff | dist/services/matchingService.js:39-41 | valid exactly when overlap is at least 25, the extra distance is finite and within ±20, and direction is at least 30 |
| BufferMatching.NoDirectionNoMatch | dist/services/matchingService.js:39-41 | without a direction sample a pair is never valid |
| MatchingWorker.MergeConfig | dist/services/matchingWorker.js:19 | each supplied field overrides its default; an absent one keeps 50, true, true or 20 |
| MatchingWorker.MergeConfigExtremes | dist/services/matchingWorker.js:19 | supplying nothing gives the defaults; supplying every field gives exactly what was supplied |
| MatchingWorker.MatchingTrips | dist/services/matchingWorker.js:76-84 | every returned trip is in the store and meets the query |
| MatchingWorker.MatchingTripsComplete | dist/services/matchingWorker.js:76-84 | every trip of the store meeting the query is returned |
| MatchingWorker.CandidateTrips | dist/services/matchingWorker.js:63-88 | at most `maxConcurrentMatches` trips, each meeting `IsCandidate`: in the store, not the target, within ±0.5° and ±30 min, with a polyline and a positive distance |
| MatchingWorker.CandidatesUnderLimit | dist/services/matchingWorker.js:76-86 | below the limit, every qualifying trip is a candidate |
| MatchingWorker.Take | dist/services/matchingWorker.js:85 | the query's `take` keeps the first min(n, length) trips of the store order and no others |
| MatchingWorker.ProcessMatch | dist/services/matchingWorker.js:102-122 | the candidate id is kept; the error record (`ErrorMatch`: overlap, extra distance and score 0, invalid, tagged error) is produced exactly when a polyline fails to decode; otherwise the tag follows `advancedAlgorithm` |
| MatchingWorker.Keep | dist/services/matchingWorker.js:46 | the filter keeps only valid matches at or above the threshold, drawn from the input |
| MatchingWorker.KeepComplete | dist/services/matchingWorker.js:46 | every valid match at or above the threshold survives the filter |
| MatchingWorker.InsertByScore | dist/services/matchingWorker.js:47 | insertion adds exactly the one match |
| MatchingWorker.InsertKeepsSorted | dist/services/matchingWorker.js:47 | insertion keeps a descending order by score |
| MatchingWorker.SortByScore | dist/services/matchingWorker.js:47 | the sort is a permutation of its input |
| MatchingWorker.SortByScoreSorted | dist/services/matchingWorker.js:47 | the sort orders by descending score |
| MatchingWorker.Rank | dist/services/matchingWorker.js:45-48 | the ranking has at most 10 matches, all valid and at or above the threshold |
| MatchingWorker.RankIsTop | dist/services/matchingWorker.js:45-48 | the ranking is sorted, has min(10, kept) entries, draws only on the input, and no kept match left out outscores one in it |
| MatchingWorker.FindTrip | dist/services/matchingWorker.js:26-28 | a found trip is in the store with the requested id; nothing is found only when no trip has it |
| MatchingWorker.ProductionMatchingWorker.constructor | dist/services/matchingWorker.js:15-20 | the worker starts idle, with an empty cache and the merged configuration |
| MatchingWorker.ProductionMatchingWorker.ProcessMatchesBatch | dist/services/matchingWorker.js:89-101 | slices of ten give exactly one result per candidate, in candidate order |
| MatchingWorker.ProductionMatchingWorker.FindMatches | dist/services/matchingWorker.js:21-62 | an unknown trip fails before the cache is used; a cache hit returns the cached ranking unchanged; otherwise the ranking of the scored candidates is returned and stored only when caching |
| MatchingWorker.RankingSound | dist/services/matchingWorker.js:41-48 | the worker's ranking (`Ranking`: candidates scored, filtered, sorted and cut to ten) is sorted, has at most 10 entries, and holds only valid matches above the configured threshold |

## Left out

- Great-circle distance, bearing and `toRadians`: their trigonometric bodies are left out. The model uses only the laws the matcher relies on: distance is never negative, is 0 from a point to itself and is symmetric; bearings lie in [0, 360).
- Polyline decoding: `decode`/`decodePolyline` wrap `@mapbox/polyline`, which is not part of this model. It is an abstract `Decoder`, and `encode` is not modelled.
- Output rounding is not modelled: `toFixed(2)` at src/services/matchingService.ts:175-181 and `Math.round` at dist/services/matchingService.js:24-25 and 47-57. Results are exact reals.
- Floating point is not modelled. Reals replace IEEE doubles, so `lenSq` underflow and other round-off are out. The one non-finite value that matters, the extra distance when `newDist` is 0, is modelled as `None`.
- Concurrency: `Promise.all` within a batch is modelled as in-order sequential scoring, which gives the same result order.
- Timing and logging are left out: `Date.now()` processing times, `console` output, `benchmarkPerformance` and `getWorkerStats`.
- Cache internals are left out:
  - the 300 s time-to-live and JSON serialisation (a cached ranking is read back as stored);
  - cache-client failures;
  - `clearCache`.

  The cache is a map keyed by trip id; the source's key is the string `matches:<id>:v2`.
- The trip store is a sequence in store order. The query returns the first `take` matches in that order. A negative `take` is not modelled (`maxConcurrentMatches` is a `nat`). `Number(tripId)` is taken to be an integer id.
- MatchingWorker.MergeConfig: a field the caller supplies explicitly as `undefined` overrides its default in the source; the model treats it as absent. `matchingRadius` and `maxRouteDeviation` are merged but nothing in the worker reads them.
- MatchingWorker.SortByScore: it inserts ties in input order, as the stable sort of the source does, but its contract does not state stability.
- ShapeMetrics.EndpointSimilarity: it requires non-empty routes. The source throws on an empty route there and is only called after the two-point check of `routeOverlap`.
- ShapeMetrics.Frechet: the source's memoised `c(i, j)` recursion nests up to about n + m calls deep. On 50 m resamplings of a route a few hundred kilometres long, that can exhaust the JavaScript call stack and throw a `RangeError`. `Frechet` and `Memo` always return a value: the model has no stack bound.
- ShapeMetrics.ResampleRoute: it requires a positive interval, and its inner loop terminates because of that. With an interval of 0 or less, the source's `while (nextSample <= currentDist + segDist)` never ends. Every call in the code passes 50 or the default 100.
- The HTTP handlers, the external routing service, the database and cache clients, scripts and tests are not part of this model.

## Behaviour of the code worth knowing

- The Fréchet table is filled by memoised recursion over an `n × m` table, with -1 as the empty-cell marker. `ShapeMetrics.Memo` recurses over an `array2` in the same way.
- Shape similarity resamples both routes at a fixed 50 m and uses a fixed 2000 m tolerance.
- The buffer overlap runs on the decoded routes without resampling. Its default buffer is 100 m, and `calculateMatch` passes 150 m. The overlap is the ratio of the mean shared length to the mean total length.
- The same-destination branch of `calcScore` adds a length bonus on top of weights that already sum to 1, so its score can reach 115. `CalcScore`, `GeometricScore`, `FinalScore` and `CalculateMatch` state the bound as 115.
- For identical routes that turn, the directional similarity is below 100. The closest-segment search ties between a segment and its predecessor, whose end touches it, and keeps the first of the tied segments: the predecessor, with a different bearing. `BufferOverlap.SelfOverlap` therefore proves 100 for the overlap only, and `BufferOverlap.TurningSelfDirection` exhibits a turning route whose own first direction sample is below 1.
- The worker passes an algorithm switch to `calculateMatch`, which takes no such argument. The switch changes only the version tag, never the scoring.
