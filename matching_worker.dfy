/**
 * The production matching worker (`dist/services/matchingWorker.js`): merges
 * its configuration with defaults, retrieves candidate trips near the target,
 * scores them with the buffer scorer in batches of ten, and keeps the ten
 * best valid matches, caching the ranking per trip.
 *
 * The trip store is a sequence of trip records in store order, and the cache a
 * map from trip id to the ranking stored under `matches:<id>:v2`.
 */
module MatchingWorker {
  import opened Wrappers
  import opened Geometry
  import BufferMatching

  // ---------------------------------------------------------------------------
  // Configuration
  // ---------------------------------------------------------------------------

  datatype Config = Config(
    maxConcurrentMatches: nat,
    cacheEnabled: bool,
    advancedAlgorithm: bool,
    matchingRadius: real,
    maxRouteDeviation: real,
    minOverlapThreshold: real)

  /** The fields a caller may supply; an absent field keeps its default. */
  datatype ConfigOverrides = ConfigOverrides(
    maxConcurrentMatches: Option<nat>,
    cacheEnabled: Option<bool>,
    advancedAlgorithm: Option<bool>,
    matchingRadius: Option<real>,
    maxRouteDeviation: Option<real>,
    minOverlapThreshold: Option<real>)

  const DefaultConfig := Config(50, true, true, 50.0, 25.0, 20.0)

  const NoOverrides := ConfigOverrides(None, None, None, None, None, None)

  function OrElse<T>(o: Option<T>, default: T): T {
    if o.Some? then o.value else default
  }

  /** The defaults with every supplied field overriding its default. */
  function MergeConfig(overrides: ConfigOverrides): (c: Config)
    ensures overrides.maxConcurrentMatches.Some? ==> c.maxConcurrentMatches == overrides.maxConcurrentMatches.value
    ensures overrides.maxConcurrentMatches.None? ==> c.maxConcurrentMatches == 50
    ensures overrides.cacheEnabled.Some? ==> c.cacheEnabled == overrides.cacheEnabled.value
    ensures overrides.cacheEnabled.None? ==> c.cacheEnabled
    ensures overrides.advancedAlgorithm.Some? ==> c.advancedAlgorithm == overrides.advancedAlgorithm.value
    ensures overrides.advancedAlgorithm.None? ==> c.advancedAlgorithm
    ensures overrides.minOverlapThreshold.Some? ==> c.minOverlapThreshold == overrides.minOverlapThreshold.value
    ensures overrides.minOverlapThreshold.None? ==> c.minOverlapThreshold == 20.0
  {
    Config(
      OrElse(overrides.maxConcurrentMatches, DefaultConfig.maxConcurrentMatches),
      OrElse(overrides.cacheEnabled, DefaultConfig.cacheEnabled),
      OrElse(overrides.advancedAlgorithm, DefaultConfig.advancedAlgorithm),
      OrElse(overrides.matchingRadius, DefaultConfig.matchingRadius),
      OrElse(overrides.maxRouteDeviation, DefaultConfig.maxRouteDeviation),
      OrElse(overrides.minOverlapThreshold, DefaultConfig.minOverlapThreshold))
  }

  /** Every field of a configuration, supplied in full. */
  function Supplied(c: Config): ConfigOverrides {
    ConfigOverrides(Some(c.maxConcurrentMatches), Some(c.cacheEnabled), Some(c.advancedAlgorithm),
                    Some(c.matchingRadius), Some(c.maxRouteDeviation), Some(c.minOverlapThreshold))
  }

  /** Supplying nothing gives the defaults; supplying everything gives exactly what was supplied. */
  lemma MergeConfigExtremes(c: Config)
    ensures MergeConfig(NoOverrides) == DefaultConfig
    ensures MergeConfig(Supplied(c)) == c
  {
  }

  // ---------------------------------------------------------------------------
  // Trips and candidates
  // ---------------------------------------------------------------------------

  /** A stored trip; departure times are in milliseconds. */
  datatype Trip = Trip(
    id: int,
    pickupLat: real,
    pickupLng: real,
    departureTime: int,
    routePolyline: string,
    routeDistance: real)

  /** Half-width of the pickup box, in degrees of latitude and longitude. */
  const PickupRange: real := 0.5

  /** Half-width of the departure window: 30 minutes in milliseconds. */
  const TimeWindow: int := 30 * 60 * 1000

  /** The store query of `getCandidateTrips`, without its `take` limit. */
  predicate IsCandidate(target: Trip, t: Trip) {
    && t.id != target.id
    && target.pickupLat - PickupRange <= t.pickupLat <= target.pickupLat + PickupRange
    && target.pickupLng - PickupRange <= t.pickupLng <= target.pickupLng + PickupRange
    && target.departureTime - TimeWindow <= t.departureTime <= target.departureTime + TimeWindow
    && t.routePolyline != ""
    && t.routeDistance > 0.0
  }

  /** All trips of the store meeting the query, in store order. */
  function MatchingTrips(trips: seq<Trip>, target: Trip): (r: seq<Trip>)
    ensures |r| <= |trips|
    ensures forall k :: 0 <= k < |r| ==> IsCandidate(target, r[k]) && r[k] in trips
  {
    if |trips| == 0 then []
    else
      var rest := MatchingTrips(trips[..|trips| - 1], target);
      if IsCandidate(target, trips[|trips| - 1]) then rest + [trips[|trips| - 1]] else rest
  }

  /** A trip of the store meeting the query is among the matching trips. */
  lemma {:induction false} MatchingTripsComplete(trips: seq<Trip>, target: Trip, t: Trip)
    requires t in trips && IsCandidate(target, t)
    ensures t in MatchingTrips(trips, target)
  {
    var last := trips[|trips| - 1];
    if t != last {
      assert t in trips[..|trips| - 1] by {
        var k :| 0 <= k < |trips| && trips[k] == t;
        assert k < |trips| - 1;
        assert trips[..|trips| - 1][k] == t;
      }
      MatchingTripsComplete(trips[..|trips| - 1], target, t);
    }
  }

  /** The first `n` elements of `s`, or all of them when there are fewer. */
  function Take<T>(s: seq<T>, n: nat): (r: seq<T>)
    ensures |r| == if |s| <= n then |s| else n
    ensures r == s[..|r|]
  {
    if |s| <= n then s else s[..n]
  }

  /** `getCandidateTrips`: the first `maxConcurrentMatches` trips meeting the query. */
  function CandidateTrips(trips: seq<Trip>, target: Trip, limit: nat): (r: seq<Trip>)
    ensures |r| <= limit
    ensures forall k :: 0 <= k < |r| ==> IsCandidate(target, r[k]) && r[k] in trips
  {
    Take(MatchingTrips(trips, target), limit)
  }

  /** When no more trips meet the query than the limit allows, every one of them is a candidate. */
  lemma CandidatesUnderLimit(trips: seq<Trip>, target: Trip, limit: nat, t: Trip)
    requires |MatchingTrips(trips, target)| <= limit
    requires t in trips && IsCandidate(target, t)
    ensures t in CandidateTrips(trips, target, limit)
  {
    MatchingTripsComplete(trips, target, t);
  }

  // ---------------------------------------------------------------------------
  // Match records and ranking
  // ---------------------------------------------------------------------------

  datatype AlgorithmVersion = AdvancedV2 | LegacyV1 | Error

  /** A scored candidate; `details` is absent from the record of a failed match. */
  datatype WorkerMatch = WorkerMatch(
    overlap: real,
    extraDist: Option<real>,
    score: real,
    valid: bool,
    details: Option<BufferMatching.Details>,
    candidateId: int,
    algorithmVersion: AlgorithmVersion)

  /** The record reported for a candidate whose scoring throws. */
  function ErrorMatch(candidateId: int): WorkerMatch {
    WorkerMatch(0.0, Some(0.0), 0.0, false, None, candidateId, Error)
  }

  /**
   * `processMatch`: scores the candidate against the target with the buffer
   * scorer and tags the result; a polyline that fails to decode gives the error
   * record. The scorer takes no algorithm switch, so the configuration only
   * chooses the tag.
   */
  function ProcessMatch(config: Config, decode: Decoder, d: Distance, bearing: Bearing,
                        target: Trip, candidate: Trip): (r: WorkerMatch)
    ensures r.candidateId == candidate.id
    ensures r.algorithmVersion == Error <==>
              decode(target.routePolyline).None? || decode(candidate.routePolyline).None?
    ensures r.algorithmVersion == Error ==> r == ErrorMatch(candidate.id)
    ensures r.algorithmVersion == AdvancedV2 ==> config.advancedAlgorithm
    ensures r.algorithmVersion == LegacyV1 ==> !config.advancedAlgorithm
  {
    match BufferMatching.CalculateMatch(decode, d, bearing, target.routePolyline, candidate.routePolyline,
                                        target.routeDistance, candidate.routeDistance)
    case None => ErrorMatch(candidate.id)
    case Some(m) =>
      WorkerMatch(m.overlap, m.extraDist, m.score, m.valid, Some(m.details), candidate.id,
                  if config.advancedAlgorithm then AdvancedV2 else LegacyV1)
  }

  /** Matches kept by the ranking: valid, with at least the configured overlap. */
  predicate Kept(m: WorkerMatch, minOverlap: real) {
    m.valid && m.overlap >= minOverlap
  }

  function Keep(matches: seq<WorkerMatch>, minOverlap: real): (r: seq<WorkerMatch>)
    ensures forall k :: 0 <= k < |r| ==> Kept(r[k], minOverlap)
    ensures multiset(r) <= multiset(matches)
  {
    if |matches| == 0 then []
    else
      var rest := Keep(matches[..|matches| - 1], minOverlap);
      assert matches == matches[..|matches| - 1] + [matches[|matches| - 1]];
      if Kept(matches[|matches| - 1], minOverlap) then rest + [matches[|matches| - 1]] else rest
  }

  /** Every kept match of the input survives the filter. */
  lemma {:induction false} KeepComplete(matches: seq<WorkerMatch>, minOverlap: real, m: WorkerMatch)
    requires m in matches && Kept(m, minOverlap)
    ensures m in Keep(matches, minOverlap)
  {
    var last := matches[|matches| - 1];
    if m != last {
      assert m in matches[..|matches| - 1] by {
        var k :| 0 <= k < |matches| && matches[k] == m;
        assert k < |matches| - 1;
        assert matches[..|matches| - 1][k] == m;
      }
      KeepComplete(matches[..|matches| - 1], minOverlap, m);
    }
  }

  predicate SortedByScore(s: seq<WorkerMatch>) {
    forall i, j :: 0 <= i < j < |s| ==> s[i].score >= s[j].score
  }

  /** Inserts `m` before the first match that does not outscore it, keeping earlier equals first. */
  function InsertByScore(m: WorkerMatch, s: seq<WorkerMatch>): (r: seq<WorkerMatch>)
    ensures multiset(r) == multiset(s) + multiset{m}
    ensures |r| == |s| + 1
  {
    if |s| == 0 || m.score >= s[0].score then [m] + s
    else
      assert s == [s[0]] + s[1..];
      [s[0]] + InsertByScore(m, s[1..])
  }

  lemma {:induction false} InsertKeepsSorted(m: WorkerMatch, s: seq<WorkerMatch>)
    requires SortedByScore(s)
    ensures SortedByScore(InsertByScore(m, s))
  {
    if |s| > 0 && m.score < s[0].score {
      var tail := InsertByScore(m, s[1..]);
      InsertKeepsSorted(m, s[1..]);
      assert tail[0].score <= s[0].score by {
        if |s| > 1 && m.score < s[1].score {
          assert tail[0] == s[1];
        } else {
          assert tail[0] == m;
        }
      }
      var r := [s[0]] + tail;
      forall i, j | 0 <= i < j < |r|
        ensures r[i].score >= r[j].score
      {
        if i == 0 {
          assert r[j] == tail[j - 1];
          assert j - 1 == 0 || tail[0].score >= tail[j - 1].score;
        } else {
          assert r[i] == tail[i - 1] && r[j] == tail[j - 1];
        }
      }
    }
  }

  /**
   * The `sort((a, b) => b.score - a.score)` of the ranking: descending by score,
   * ties in their original order.
   */
  function SortByScore(s: seq<WorkerMatch>): (r: seq<WorkerMatch>)
    ensures multiset(r) == multiset(s)
    ensures |r| == |s|
  {
    if |s| == 0 then []
    else
      assert s == [s[0]] + s[1..];
      InsertByScore(s[0], SortByScore(s[1..]))
  }

  lemma {:induction false} SortByScoreSorted(s: seq<WorkerMatch>)
    ensures SortedByScore(SortByScore(s))
  {
    if |s| > 0 {
      SortByScoreSorted(s[1..]);
      InsertKeepsSorted(s[0], SortByScore(s[1..]));
    }
  }

  /** Size of the ranking returned by `findMatches`. */
  const TopMatches: nat := 10

  /** The filter, sort and slice of `findMatches`. */
  function Rank(matches: seq<WorkerMatch>, minOverlap: real): (r: seq<WorkerMatch>)
    ensures |r| <= TopMatches
    ensures forall k :: 0 <= k < |r| ==> Kept(r[k], minOverlap)
  {
    var sorted := SortByScore(Keep(matches, minOverlap));
    var r := Take(sorted, TopMatches);
    forall k | 0 <= k < |r|
      ensures Kept(r[k], minOverlap)
    {
      assert r[k] in multiset(sorted);
    }
    r
  }

  /**
   * The ranking holds the best kept matches: it is sorted by descending score,
   * it is as long as it can be, it draws only on the input, and no kept match
   * left out of it outscores a match in it.
   */
  lemma RankIsTop(matches: seq<WorkerMatch>, minOverlap: real)
    ensures var r := Rank(matches, minOverlap);
      && SortedByScore(r)
      && |r| == (if |Keep(matches, minOverlap)| <= TopMatches then |Keep(matches, minOverlap)| else TopMatches)
      && multiset(r) <= multiset(matches)
      && forall m: WorkerMatch, x: WorkerMatch :: m in multiset(Keep(matches, minOverlap)) - multiset(r) && x in r ==> m.score <= x.score
  {
    var kept := Keep(matches, minOverlap);
    var sorted := SortByScore(kept);
    SortByScoreSorted(kept);
    var r := Take(sorted, TopMatches);
    assert sorted == r + sorted[|r|..];
    assert multiset(kept) - multiset(r) == multiset(sorted[|r|..]);
    SortedPrefixOutscores(sorted, |r|);
  }

  /** In a sorted sequence no element after position `n` outscores one before it. */
  lemma SortedPrefixOutscores(s: seq<WorkerMatch>, n: nat)
    requires SortedByScore(s) && n <= |s|
    ensures SortedByScore(s[..n])
    ensures forall m: WorkerMatch, x: WorkerMatch :: m in multiset(s[n..]) && x in s[..n] ==> m.score <= x.score
  {
    forall m: WorkerMatch, x: WorkerMatch | m in multiset(s[n..]) && x in s[..n]
      ensures m.score <= x.score
    {
      var j :| 0 <= j < |s[n..]| && s[n..][j] == m;
      var i :| 0 <= i < n && s[..n][i] == x;
      assert s[i] == x && s[n + j] == m;
    }
  }

  // ---------------------------------------------------------------------------
  // The worker
  // ---------------------------------------------------------------------------

  /** Number of candidates scored together. */
  const BatchSize: nat := 10

  datatype WorkerError = TripNotFound(tripId: int)

  /** The first trip of the store with the given id. */
  function FindTrip(trips: seq<Trip>, tripId: int): (r: Option<Trip>)
    ensures r.Some? ==> r.value in trips && r.value.id == tripId
    ensures r.None? ==> forall k :: 0 <= k < |trips| ==> trips[k].id != tripId
  {
    if |trips| == 0 then None
    else if trips[0].id == tripId then Some(trips[0])
    else FindTrip(trips[1..], tripId)
  }

  class ProductionMatchingWorker {
    /** The trip store and the scorer's geometry, which the worker only reads. */
    const trips: seq<Trip>
    const decode: Decoder
    const d: Distance
    const bearing: Bearing
    const config: Config
    /** Whether a cache client was supplied. */
    const hasCache: bool
    var isProcessing: bool
    /** Cached rankings, by trip id. */
    var cache: map<int, seq<WorkerMatch>>

    constructor(trips: seq<Trip>, decode: Decoder, d: Distance, bearing: Bearing,
                hasCache: bool, overrides: ConfigOverrides)
      ensures this.trips == trips && this.decode == decode && this.d == d && this.bearing == bearing
      ensures this.hasCache == hasCache
      ensures config == MergeConfig(overrides)
      ensures !isProcessing && cache == map[]
    {
      this.trips := trips;
      this.decode := decode;
      this.d := d;
      this.bearing := bearing;
      this.hasCache := hasCache;
      config := MergeConfig(overrides);
      isProcessing := false;
      cache := map[];
    }

    /** Whether rankings are read from and written to the cache. */
    predicate Caching() {
      config.cacheEnabled && hasCache
    }

    /** `processMatchesBatch`: one result per candidate, in candidate order, scored ten at a time. */
    method ProcessMatchesBatch(target: Trip, candidates: seq<Trip>) returns (results: seq<WorkerMatch>)
      ensures |results| == |candidates|
      ensures forall k :: 0 <= k < |candidates| ==>
                results[k] == ProcessMatch(config, decode, d, bearing, target, candidates[k])
    {
      results := [];
      var i := 0;
      while i < |candidates|
        invariant |results| == if i <= |candidates| then i else |candidates|
        invariant forall k :: 0 <= k < |results| ==>
                    results[k] == ProcessMatch(config, decode, d, bearing, target, candidates[k])
      {
        var hi := if i + BatchSize <= |candidates| then i + BatchSize else |candidates|;
        var batch := candidates[i..hi];
        var batchResults := [];
        var j := 0;
        while j < |batch|
          invariant 0 <= j <= |batch|
          invariant |batchResults| == j
          invariant forall k :: 0 <= k < j ==>
                      batchResults[k] == ProcessMatch(config, decode, d, bearing, target, batch[k])
        {
          batchResults := batchResults + [ProcessMatch(config, decode, d, bearing, target, batch[j])];
          j := j + 1;
        }
        results := results + batchResults;
        i := i + BatchSize;
      }
    }

    /** The ranking `findMatches` computes for a target when the cache does not answer. */
    function Ranking(target: Trip): seq<WorkerMatch> {
      var candidates := CandidateTrips(trips, target, config.maxConcurrentMatches);
      Rank(seq(|candidates|, k requires 0 <= k < |candidates| =>
                 ProcessMatch(config, decode, d, bearing, target, candidates[k])),
           config.minOverlapThreshold)
    }

    /**
     * `findMatches`: fails for an unknown trip before touching the cache;
     * answers from the cache when it holds the trip; otherwise ranks the
     * candidates and, when caching, stores the ranking.
     */
    method FindMatches(tripId: int) returns (r: Result<seq<WorkerMatch>, WorkerError>)
      modifies this
      ensures FindTrip(trips, tripId).None? ==> r == Failure(TripNotFound(tripId)) && cache == old(cache)
      ensures FindTrip(trips, tripId).Some? && Caching() && tripId in old(cache) ==>
                r == Success(old(cache)[tripId]) && cache == old(cache)
      ensures FindTrip(trips, tripId).Some? && !(Caching() && tripId in old(cache)) ==>
                r == Success(Ranking(FindTrip(trips, tripId).value))
                && cache == if Caching() then old(cache)[tripId := r.value] else old(cache)
      ensures isProcessing == old(isProcessing)
    {
      var target := FindTrip(trips, tripId);
      if target.None? {
        return Failure(TripNotFound(tripId));
      }
      if Caching() && tripId in cache {
        return Success(cache[tripId]);
      }
      var candidates := CandidateTrips(trips, target.value, config.maxConcurrentMatches);
      var matches := ProcessMatchesBatch(target.value, candidates);
      assert matches == seq(|candidates|, k requires 0 <= k < |candidates| =>
                              ProcessMatch(config, decode, d, bearing, target.value, candidates[k]));
      var validMatches := Rank(matches, config.minOverlapThreshold);
      if Caching() {
        cache := cache[tripId := validMatches];
      }
      return Success(validMatches);
    }
  }

  /** Every ranked match is valid, clears the threshold and is one of the batch's results. */
  lemma RankingSound(w: ProductionMatchingWorker, target: Trip)
    ensures var r := w.Ranking(target);
      && |r| <= TopMatches
      && SortedByScore(r)
      && forall k :: 0 <= k < |r| ==> r[k].valid && r[k].overlap >= w.config.minOverlapThreshold
  {
    var candidates := CandidateTrips(w.trips, target, w.config.maxConcurrentMatches);
    RankIsTop(seq(|candidates|, k requires 0 <= k < |candidates| =>
                    ProcessMatch(w.config, w.decode, w.d, w.bearing, target, candidates[k])),
              w.config.minOverlapThreshold);
  }
}
