/**
 * Shape-based route similarity (src/utils/polylineUtils.ts): the discrete
 * Fréchet distance over a memo table, route length, fixed-interval resampling,
 * and the similarity / endpoint / overlap percentages built on them.
 */
module ShapeMetrics {
  import opened Wrappers
  import opened Geometry
  import opened RealArith

  // ---------------------------------------------------------------------------
  // Discrete Fréchet distance
  // ---------------------------------------------------------------------------

  /** The distance between the i-th point of P and the j-th point of Q. */
  function Leash(d: Distance, P: seq<Point>, Q: seq<Point>, i: nat, j: nat): (r: real)
    requires i < |P| && j < |Q|
    ensures r >= 0.0
  {
    d(P[i], Q[j])
  }

  /** The coupling recurrence: the cell (i, j) of the Fréchet table. */
  function Coupling(d: Distance, P: seq<Point>, Q: seq<Point>, i: nat, j: nat): (r: real)
    requires i < |P| && j < |Q|
    ensures r >= Leash(d, P, Q, i, j)
    decreases i + j
  {
    var here := Leash(d, P, Q, i, j);
    if i == 0 && j == 0 then here
    else if j == 0 then Max(Coupling(d, P, Q, i - 1, 0), here)
    else if i == 0 then Max(Coupling(d, P, Q, 0, j - 1), here)
    else
      Max(Min(Min(Coupling(d, P, Q, i - 1, j), Coupling(d, P, Q, i - 1, j - 1)),
              Coupling(d, P, Q, i, j - 1)),
          here)
  }

  /**
   * The discrete Fréchet distance of two point sequences; None where the source
   * throws because a sequence is empty (it indexes the table at -1).
   */
  function Frechet(d: Distance, P: seq<Point>, Q: seq<Point>): (r: Option<real>)
    ensures r.Some? <==> |P| > 0 && |Q| > 0
  {
    if |P| == 0 || |Q| == 0 then None else Some(Coupling(d, P, Q, |P| - 1, |Q| - 1))
  }

  /** A memo cell holds either the -1 sentinel or its recurrence value. */
  ghost predicate CellSound(d: Distance, P: seq<Point>, Q: seq<Point>, i: nat, j: nat, c: real)
    requires i < |P| && j < |Q|
  {
    c == -1.0 || c == Coupling(d, P, Q, i, j)
  }

  /** Every cell of the memo table is sound. */
  ghost predicate MemoSound(d: Distance, P: seq<Point>, Q: seq<Point>, ca: array2<real>)
    reads ca
  {
    && ca.Length0 == |P| && ca.Length1 == |Q|
    && forall i, j :: 0 <= i < |P| && 0 <= j < |Q| ==> CellSound(d, P, Q, i, j, ca[i, j])
  }

  /**
   * The memoised recursion `c(i, j)`: a cell above -1 is a hit (no recurrence
   * value is negative, so the sentinel is never confused with a result);
   * otherwise the cell is computed from its neighbours and stored.
   */
  method Memo(d: Distance, P: seq<Point>, Q: seq<Point>, ca: array2<real>, i: nat, j: nat)
    returns (v: real)
    requires MemoSound(d, P, Q, ca) && i < |P| && j < |Q|
    modifies ca
    ensures MemoSound(d, P, Q, ca)
    ensures v == Coupling(d, P, Q, i, j) && ca[i, j] == v
    ensures forall a, b :: 0 <= a < ca.Length0 && 0 <= b < ca.Length1 && old(ca[a, b]) != -1.0 ==>
              ca[a, b] == old(ca[a, b])
    decreases i + j
  {
    if ca[i, j] > -1.0 {
      return ca[i, j];
    }
    var here := Leash(d, P, Q, i, j);
    if i == 0 && j == 0 {
      v := here;
    } else if i > 0 && j == 0 {
      var up := Memo(d, P, Q, ca, i - 1, 0);
      v := Max(up, here);
    } else if i == 0 && j > 0 {
      var left := Memo(d, P, Q, ca, 0, j - 1);
      v := Max(left, here);
    } else {
      // i > 0 && j > 0; the source's fourth branch (Infinity) is unreachable for
      // non-negative indices.
      var up := Memo(d, P, Q, ca, i - 1, j);
      var diag := Memo(d, P, Q, ca, i - 1, j - 1);
      var left := Memo(d, P, Q, ca, i, j - 1);
      CouplingInterior(d, P, Q, i, j, up, diag, left);
      v := Max(Min(Min(up, diag), left), here);
    }
    Store(d, P, Q, ca, i, j, v);
  }

  /** An interior cell is the worst of its own leash and the best of its three predecessors. */
  lemma CouplingInterior(d: Distance, P: seq<Point>, Q: seq<Point>, i: nat, j: nat,
                         up: real, diag: real, left: real)
    requires 0 < i < |P| && 0 < j < |Q|
    requires up == Coupling(d, P, Q, i - 1, j)
    requires diag == Coupling(d, P, Q, i - 1, j - 1)
    requires left == Coupling(d, P, Q, i, j - 1)
    ensures Coupling(d, P, Q, i, j) == Max(Min(Min(up, diag), left), Leash(d, P, Q, i, j))
  {
  }

  /** Writing a cell's recurrence value keeps the table sound. */
  method Store(d: Distance, P: seq<Point>, Q: seq<Point>, ca: array2<real>, i: nat, j: nat, v: real)
    requires MemoSound(d, P, Q, ca) && i < |P| && j < |Q|
    requires v == Coupling(d, P, Q, i, j)
    modifies ca
    ensures MemoSound(d, P, Q, ca)
    ensures ca[i, j] == v
    ensures forall a, b :: 0 <= a < ca.Length0 && 0 <= b < ca.Length1 && (a, b) != (i, j) ==>
              ca[a, b] == old(ca[a, b])
  {
    ca[i, j] := v;
  }

  /** `discreteFrechetDistance`: fills an n x m table of -1 and asks for the last cell. */
  method DiscreteFrechetDistance(d: Distance, P: seq<Point>, Q: seq<Point>) returns (r: Option<real>)
    ensures r == Frechet(d, P, Q)
    ensures r.Some? ==> r.value >= Max(d(P[0], Q[0]), d(P[|P| - 1], Q[|Q| - 1]))
  {
    if |P| == 0 || |Q| == 0 {
      return None;
    }
    var ca := new real[|P|, |Q|]((i, j) => -1.0);
    var v := Memo(d, P, Q, ca, |P| - 1, |Q| - 1);
    FrechetBounds(d, P, Q);
    return Some(v);
  }

  /** Every cell is at least the distance between the two starting points. */
  lemma {:induction false} CouplingAtLeastStart(d: Distance, P: seq<Point>, Q: seq<Point>, i: nat, j: nat)
    requires i < |P| && j < |Q|
    ensures Coupling(d, P, Q, i, j) >= d(P[0], Q[0])
    decreases i + j
  {
    if i == 0 && j == 0 {
    } else if j == 0 {
      CouplingAtLeastStart(d, P, Q, i - 1, 0);
    } else if i == 0 {
      CouplingAtLeastStart(d, P, Q, 0, j - 1);
    } else {
      CouplingAtLeastStart(d, P, Q, i - 1, j);
      CouplingAtLeastStart(d, P, Q, i - 1, j - 1);
      CouplingAtLeastStart(d, P, Q, i, j - 1);
    }
  }

  /** The Fréchet distance bounds both the start-to-start and the end-to-end distance. */
  lemma FrechetBounds(d: Distance, P: seq<Point>, Q: seq<Point>)
    requires |P| > 0 && |Q| > 0
    ensures Frechet(d, P, Q).value >= d(P[0], Q[0])
    ensures Frechet(d, P, Q).value >= d(P[|P| - 1], Q[|Q| - 1])
  {
    CouplingAtLeastStart(d, P, Q, |P| - 1, |Q| - 1);
  }

  /** A route coupled with itself along the diagonal needs no leash at all. */
  lemma {:induction false} CouplingDiagonalZero(d: Distance, P: seq<Point>, i: nat)
    requires i < |P|
    ensures Coupling(d, P, P, i, i) == 0.0
  {
    if i > 0 {
      CouplingDiagonalZero(d, P, i - 1);
    }
  }

  /** The Fréchet distance of a non-empty route to itself is zero. */
  lemma FrechetSelfZero(d: Distance, P: seq<Point>)
    requires |P| > 0
    ensures Frechet(d, P, P) == Some(0.0)
  {
    CouplingDiagonalZero(d, P, |P| - 1);
  }

  /** Cell (i, j) of the (P, Q) table equals cell (j, i) of the (Q, P) table. */
  ghost predicate Transposed(d: Distance, P: seq<Point>, Q: seq<Point>, i: nat, j: nat)
    requires i < |P| && j < |Q|
  {
    Coupling(d, P, Q, i, j) == Coupling(d, Q, P, j, i)
  }

  /** The coupling table of (Q, P) is the transpose of that of (P, Q). */
  lemma {:induction false} CouplingSymmetric(d: Distance, P: seq<Point>, Q: seq<Point>, i: nat, j: nat)
    requires i < |P| && j < |Q|
    ensures Transposed(d, P, Q, i, j)
    decreases i + j
  {
    if i == 0 && j == 0 {
      assert Leash(d, Q, P, 0, 0) == Leash(d, P, Q, 0, 0);
    } else if j == 0 {
      CouplingSymmetric(d, P, Q, i - 1, 0);
      TransposedDown(d, P, Q, i);
    } else if i == 0 {
      CouplingSymmetric(d, P, Q, 0, j - 1);
      TransposedAcross(d, P, Q, j);
    } else {
      CouplingSymmetric(d, P, Q, i - 1, j);
      CouplingSymmetric(d, P, Q, i - 1, j - 1);
      CouplingSymmetric(d, P, Q, i, j - 1);
      TransposedStep(d, P, Q, i, j);
    }
  }

  /** A cell of the first column is transposed once the one above it is. */
  lemma TransposedDown(d: Distance, P: seq<Point>, Q: seq<Point>, i: nat)
    requires 0 < i < |P| && 0 < |Q|
    requires Transposed(d, P, Q, i - 1, 0)
    ensures Transposed(d, P, Q, i, 0)
  {
    assert Leash(d, Q, P, 0, i) == Leash(d, P, Q, i, 0);
  }

  /** A cell of the first row is transposed once the one left of it is. */
  lemma TransposedAcross(d: Distance, P: seq<Point>, Q: seq<Point>, j: nat)
    requires 0 < |P| && 0 < j < |Q|
    requires Transposed(d, P, Q, 0, j - 1)
    ensures Transposed(d, P, Q, 0, j)
  {
    assert Leash(d, Q, P, j, 0) == Leash(d, P, Q, 0, j);
  }

  /** An interior cell is transposed once its three predecessors are. */
  lemma TransposedStep(d: Distance, P: seq<Point>, Q: seq<Point>, i: nat, j: nat)
    requires 0 < i < |P| && 0 < j < |Q|
    requires Transposed(d, P, Q, i - 1, j) && Transposed(d, P, Q, i - 1, j - 1) && Transposed(d, P, Q, i, j - 1)
    ensures Transposed(d, P, Q, i, j)
  {
    var up, diag, left := Coupling(d, P, Q, i - 1, j), Coupling(d, P, Q, i - 1, j - 1), Coupling(d, P, Q, i, j - 1);
    var here := Leash(d, P, Q, i, j);
    assert Leash(d, Q, P, j, i) == here;
    assert Coupling(d, Q, P, j, i) == Max(Min(Min(left, diag), up), here);
    assert Min(Min(left, diag), up) == Min(Min(up, diag), left);
  }

  /** The Fréchet distance does not depend on the order of its arguments. */
  lemma FrechetSymmetric(d: Distance, P: seq<Point>, Q: seq<Point>)
    ensures Frechet(d, P, Q) == Frechet(d, Q, P)
  {
    if |P| > 0 && |Q| > 0 {
      CouplingSymmetric(d, P, Q, |P| - 1, |Q| - 1);
    }
  }

  // ---------------------------------------------------------------------------
  // Route length
  // ---------------------------------------------------------------------------

  /** `routeDistance`: sums the haversine distance of every consecutive pair. */
  method RouteDistance(d: Distance, route: seq<Point>) returns (dist: real)
    ensures dist == RouteLength(d, route)
    ensures |route| < 2 ==> dist == 0.0
  {
    dist := 0.0;
    var i := 1;
    while i < |route|
      invariant 1 <= i
      invariant i <= |route| || |route| == 0
      invariant |route| > 0 ==> dist == Cum(d, route, i - 1)
      invariant |route| == 0 ==> dist == 0.0
    {
      dist := dist + d(route[i - 1], route[i]);
      i := i + 1;
    }
  }

  // ---------------------------------------------------------------------------
  // Resampling at a fixed interval
  // ---------------------------------------------------------------------------

  /**
   * The first segment, among those ending at points i .. |route|-1, whose far
   * end is at least `s` along the route.
   */
  function SegmentAt(d: Distance, route: seq<Point>, s: real, i: nat): (k: nat)
    requires 1 <= i < |route| && s <= RouteLength(d, route)
    ensures i <= k < |route| && s <= Cum(d, route, k)
    ensures forall j :: i <= j < k ==> Cum(d, route, j) < s
    decreases |route| - i
  {
    if s <= Cum(d, route, i) then i else SegmentAt(d, route, s, i + 1)
  }

  /** The point lying `s` metres along the route, by linear interpolation on its segment. */
  function PointAt(d: Distance, route: seq<Point>, s: real): Point
    requires |route| >= 2 && 0.0 < s <= RouteLength(d, route)
  {
    var k := SegmentAt(d, route, s, 1);
    assert Cum(d, route, k - 1) < s;
    Lerp(route[k - 1], route[k], Fraction(s - Cum(d, route, k - 1), d(route[k - 1], route[k])))
  }

  /** How many interpolated samples fit into the route's length. */
  function SampleCount(d: Distance, route: seq<Point>, interval: real): (n: nat)
    requires interval > 0.0
  {
    RouteLengthBasics(d, route);
    (RouteLength(d, route) / interval).Floor
  }

  /** The arc length of sample k: k whole intervals from the start. */
  function SamplePos(k: nat, interval: real): real {
    if k == 0 then 0.0 else SamplePos(k - 1, interval) + interval
  }

  lemma {:induction false} SamplePosIsProduct(k: nat, interval: real)
    ensures SamplePos(k, interval) == k as real * interval
  {
    if k > 0 {
      SamplePosIsProduct(k - 1, interval);
    }
  }

  /** Sample number k (1-based) lies within the route. */
  lemma SampleInRange(d: Distance, route: seq<Point>, interval: real, k: nat)
    requires interval > 0.0 && 1 <= k <= SampleCount(d, route, interval)
    ensures 0.0 < SamplePos(k, interval) <= RouteLength(d, route)
  {
    SamplePosIsProduct(k, interval);
    FloorScaled(RouteLength(d, route), interval, k);
    MulLeMono(1.0, k as real, interval);
  }

  /** `p` is the point `s` metres along the route. */
  ghost predicate IsSample(d: Distance, route: seq<Point>, s: real, p: Point) {
    |route| >= 2 && 0.0 < s <= RouteLength(d, route) && p == PointAt(d, route, s)
  }

  /** The interpolated samples: sample k+1 lies (k+1) * interval metres along the route. */
  function Samples(d: Distance, route: seq<Point>, interval: real): (r: seq<Point>)
    requires interval > 0.0 && |route| >= 2
    ensures |r| == SampleCount(d, route, interval)
    ensures forall k :: 0 <= k < |r| ==> IsSample(d, route, SamplePos(k + 1, interval), r[k])
  {
    var n := SampleCount(d, route, interval);
    var r := seq(n, k requires 0 <= k < n =>
                      SampleInRange(d, route, interval, k + 1);
                      PointAt(d, route, SamplePos(k + 1, interval)));
    assert forall k :: 0 <= k < n ==> IsSample(d, route, SamplePos(k + 1, interval), r[k]) by {
      forall k | 0 <= k < n
        ensures IsSample(d, route, SamplePos(k + 1, interval), r[k])
      {
        SampleInRange(d, route, interval, k + 1);
      }
    }
    r
  }

  /**
   * The resampled route: the first point, then one interpolated point every
   * `interval` metres along the route, then the last point. A route of fewer
   * than two points is returned as it is.
   */
  function Resample(d: Distance, route: seq<Point>, interval: real): (r: seq<Point>)
    requires interval > 0.0
    ensures |route| < 2 ==> r == route
    ensures |route| >= 2 ==> |r| == SampleCount(d, route, interval) + 2
    ensures |route| >= 2 ==> r[0] == route[0] && r[|r| - 1] == route[|route| - 1]
  {
    if |route| < 2 then route
    else [route[0]] + Samples(d, route, interval) + [route[|route| - 1]]
  }

  /** Arc length `s` falls on the segment ending at point i exactly when it lies past its start. */
  lemma {:induction false} SegmentAtIs(d: Distance, route: seq<Point>, s: real, i: nat, j: nat)
    requires 1 <= j <= i < |route| && s <= RouteLength(d, route)
    requires Cum(d, route, i - 1) < s <= Cum(d, route, i)
    ensures SegmentAt(d, route, s, j) == i
    decreases i - j
  {
    if j < i {
      CumMonotone(d, route, j, i - 1);
      SegmentAtIs(d, route, s, i, j + 1);
    }
  }

  /** A positive part of a positive whole is a ratio in (0, 1]. */
  lemma RatioInUnit(x: real, y: real)
    requires 0.0 < x <= y
    ensures 0.0 < Fraction(x, y) <= 1.0
  {
    assert (x / y) * y == x;
  }

  /**
   * Every interpolated point lies on a segment of the route, at a ratio in
   * (0, 1], and that segment has positive length; the ratio places it exactly
   * `s` metres along the route.
   */
  lemma PointAtOnSegment(d: Distance, route: seq<Point>, s: real) returns (k: nat, t: real)
    requires |route| >= 2 && 0.0 < s <= RouteLength(d, route)
    ensures 1 <= k < |route| && 0.0 < t <= 1.0
    ensures d(route[k - 1], route[k]) > 0.0
    ensures PointAt(d, route, s) == Lerp(route[k - 1], route[k], t)
    ensures Cum(d, route, k - 1) + t * d(route[k - 1], route[k]) == s
  {
    k := SegmentAt(d, route, s, 1);
    var seg := d(route[k - 1], route[k]);
    assert Cum(d, route, k - 1) < s;
    t := Fraction(s - Cum(d, route, k - 1), seg);
    RatioInUnit(s - Cum(d, route, k - 1), seg);
  }

  /** An arc length strictly past point i-1 and up to point i is sampled on segment i. */
  lemma SampleOnSegment(d: Distance, route: seq<Point>, i: nat, s: real)
    requires 1 <= i < |route|
    requires Cum(d, route, i - 1) < s <= Cum(d, route, i)
    ensures IsSample(d, route, s,
      Lerp(route[i - 1], route[i], Fraction(s - Cum(d, route, i - 1), d(route[i - 1], route[i]))))
  {
    CumMonotone(d, route, 0, i - 1);
    CumMonotone(d, route, i, |route| - 1);
    SegmentAtIs(d, route, s, i, 1);
  }

  /** The number of whole intervals below a length, characterised without division. */
  lemma FloorCount(total: real, interval: real, n: nat)
    requires interval > 0.0
    requires SamplePos(n, interval) <= total < SamplePos(n + 1, interval)
    ensures (total / interval).Floor == n
  {
    SamplePosIsProduct(n, interval);
    SamplePosIsProduct(n + 1, interval);
    var q := total / interval;
    DivCancel(total, interval);
    MulLeCancel(n as real, q, interval);
    MulLtCancel(q, (n + 1) as real, interval);
  }

  /** Positions 1 .. |samples|-1 hold the samples at 1 .. |samples|-1 intervals. */
  ghost predicate SamplesSoFar(d: Distance, route: seq<Point>, interval: real, samples: seq<Point>) {
    forall k :: 1 <= k < |samples| ==> IsSample(d, route, SamplePos(k, interval), samples[k])
  }

  /** The next sample, taken on the segment ending at point i, extends the samples so far. */
  lemma NextSample(d: Distance, route: seq<Point>, interval: real, i: nat, samples: seq<Point>, s: real, p: Point)
    requires 1 <= i < |route|
    requires Cum(d, route, i - 1) < s <= Cum(d, route, i)
    requires p == Lerp(route[i - 1], route[i], Fraction(s - Cum(d, route, i - 1), d(route[i - 1], route[i])))
    requires s == SamplePos(|samples|, interval)
    requires SamplesSoFar(d, route, interval, samples)
    ensures SamplesSoFar(d, route, interval, samples + [p])
    ensures SamplePos(|samples + [p]|, interval) == s + interval
  {
    SampleOnSegment(d, route, i, s);
    assert |samples + [p]| - 1 == |samples|;
  }

  /** Sample positions grow with their index. */
  lemma {:induction false} SamplePosOrder(a: nat, b: nat, interval: real)
    requires interval > 0.0
    ensures SamplePos(a, interval) < SamplePos(b, interval) ==> a < b
    decreases a
  {
    if a > 0 && b > 0 {
      SamplePosOrder(a - 1, b - 1, interval);
    } else if a > 0 {
      SamplePosNonNegative(a - 1, interval);
    }
  }

  lemma {:induction false} SamplePosNonNegative(k: nat, interval: real)
    requires interval > 0.0
    ensures SamplePos(k, interval) >= 0.0
  {
    if k > 0 {
      SamplePosNonNegative(k - 1, interval);
    }
  }

  /** Some whole number of intervals exceeds any length. */
  lemma Archimedes(x: real, interval: real) returns (n: nat)
    requires interval > 0.0 && x >= 0.0
    ensures x < SamplePos(n, interval)
  {
    var q := x / interval;
    n := q.Floor + 1;
    SamplePosIsProduct(n, interval);
    DivCancel(x, interval);
    MulLtMono(q, n as real, interval);
  }

  /** The last point and the samples collected so far make up the resampled route. */
  lemma ResampleComplete(d: Distance, route: seq<Point>, interval: real, samples: seq<Point>)
    requires interval > 0.0 && |route| >= 2
    requires |samples| >= 1 && samples[0] == route[0]
    requires SamplePos(|samples| - 1, interval) <= RouteLength(d, route) < SamplePos(|samples|, interval)
    requires SamplesSoFar(d, route, interval, samples)
    ensures samples + [route[|route| - 1]] == Resample(d, route, interval)
  {
    FloorCount(RouteLength(d, route), interval, |samples| - 1);
    assert SampleCount(d, route, interval) == |samples| - 1;
    var mid := Samples(d, route, interval);
    forall k | 0 <= k < |mid|
      ensures samples[k + 1] == mid[k]
    {
      assert IsSample(d, route, SamplePos(k + 1, interval), mid[k]);
      assert IsSample(d, route, SamplePos(k + 1, interval), samples[k + 1]);
    }
    assert samples == [route[0]] + mid;
    assert Resample(d, route, interval) == [route[0]] + mid + [route[|route| - 1]];
  }

  /**
   * `resampleRoute`: walks the segments, emitting an interpolated point each time
   * the running distance passes the next multiple of `interval`.
   */
  method ResampleRoute(d: Distance, route: seq<Point>, interval: real) returns (resampled: seq<Point>)
    requires interval > 0.0
    ensures resampled == Resample(d, route, interval)
  {
    if |route| < 2 {
      return route;
    }
    resampled := [route[0]];
    var currentDist := 0.0;
    var nextSample := interval;
    var i := 1;
    while i < |route|
      invariant 1 <= i <= |route|
      invariant currentDist == Cum(d, route, i - 1)
      invariant |resampled| >= 1 && resampled[0] == route[0]
      invariant nextSample == SamplePos(|resampled|, interval)
      invariant nextSample - interval <= currentDist < nextSample
      invariant SamplesSoFar(d, route, interval, resampled)
    {
      var segDist := d(route[i - 1], route[i]);
      ghost var fit := Archimedes(currentDist + segDist, interval);
      while nextSample <= currentDist + segDist
        invariant |resampled| >= 1 && resampled[0] == route[0]
        invariant nextSample == SamplePos(|resampled|, interval)
        invariant nextSample - interval <= currentDist + segDist
        invariant currentDist < nextSample
        invariant SamplesSoFar(d, route, interval, resampled)
        decreases fit - |resampled|
      {
        SamplePosOrder(|resampled|, fit, interval);
        // nextSample > currentDist, so the segment has positive length here.
        var ratio := Fraction(nextSample - currentDist, segDist);
        var p := Lerp(route[i - 1], route[i], ratio);
        NextSample(d, route, interval, i, resampled, nextSample, p);
        resampled := resampled + [p];
        nextSample := nextSample + interval;
      }
      currentDist := currentDist + segDist;
      i := i + 1;
    }
    ResampleComplete(d, route, interval, resampled);
    resampled := resampled + [route[|route| - 1]];
  }

  // ---------------------------------------------------------------------------
  // Similarity percentages
  // ---------------------------------------------------------------------------

  /**
   * The linear fall-off `max(0, 100 - dist / radius * 100)` shared by the
   * similarity, endpoint and deviation scores.
   */
  function ProximityScore(dist: real, radius: real): (r: real)
    requires radius > 0.0
    ensures 0.0 <= r
    ensures dist >= 0.0 ==> r <= 100.0
    ensures dist >= 0.0 ==> (r == 100.0 <==> dist == 0.0)
    ensures r == 0.0 <==> dist >= radius
  {
    FractionSign(dist, radius);
    Max(0.0, 100.0 - Fraction(dist, radius) * 100.0)
  }

  /** The fall-off never rises as the distance grows. */
  lemma ProximityAntitone(a: real, b: real, radius: real)
    requires radius > 0.0 && a <= b
    ensures ProximityScore(a, radius) >= ProximityScore(b, radius)
  {
    var fa, fb := Fraction(a, radius), Fraction(b, radius);
    DivCancel(a, radius);
    DivCancel(b, radius);
    assert fa * radius <= fb * radius;
    MulLeCancel(fa, fb, radius);
  }

  /** Resampling spacing used before comparing shapes, in metres. */
  const SimilarityInterval: real := 50.0

  /** Fréchet distance, in metres, at which shape similarity reaches 0. */
  const MaxAcceptableFrechet: real := 2000.0

  /** Endpoint distance, in metres, at which an endpoint score reaches 0. */
  const MaxEndpointDistance: real := 3000.0

  /** The Fréchet distance of the two routes after resampling both every 50 m. */
  function ResampledFrechet(d: Distance, A: seq<Point>, B: seq<Point>): (r: real)
    requires |A| >= 2 && |B| >= 2
    ensures r >= 0.0
  {
    var ra := Resample(d, A, SimilarityInterval);
    var rb := Resample(d, B, SimilarityInterval);
    Frechet(d, ra, rb).value
  }

  /**
   * `calculateSimilarity`: 0 unless both routes have two points; otherwise the
   * fall-off of the resampled Fréchet distance over 2000 m.
   */
  function CalculateSimilarity(d: Distance, A: seq<Point>, B: seq<Point>): (r: real)
    ensures 0.0 <= r <= 100.0
    ensures |A| < 2 || |B| < 2 ==> r == 0.0
    ensures |A| >= 2 && |B| >= 2 ==>
              (r == 100.0 <==> ResampledFrechet(d, A, B) == 0.0) &&
              (r == 0.0 <==> ResampledFrechet(d, A, B) >= MaxAcceptableFrechet)
  {
    if |A| < 2 || |B| < 2 then 0.0
    else ProximityScore(ResampledFrechet(d, A, B), MaxAcceptableFrechet)
  }

  /** A route compared with itself is 100% similar. */
  lemma SimilaritySelf(d: Distance, A: seq<Point>)
    requires |A| >= 2
    ensures CalculateSimilarity(d, A, A) == 100.0
  {
    FrechetSelfZero(d, Resample(d, A, SimilarityInterval));
  }

  /** Shape similarity does not depend on which route comes first. */
  lemma SimilaritySymmetric(d: Distance, A: seq<Point>, B: seq<Point>)
    ensures CalculateSimilarity(d, A, B) == CalculateSimilarity(d, B, A)
  {
    if |A| >= 2 && |B| >= 2 {
      FrechetSymmetric(d, Resample(d, A, SimilarityInterval), Resample(d, B, SimilarityInterval));
    }
  }

  /**
   * `calculateEndpointSimilarity`: the mean of the start and end fall-offs over
   * 3000 m. The source reads the first and last point of each route, so both
   * must be non-empty.
   */
  function EndpointSimilarity(d: Distance, A: seq<Point>, B: seq<Point>): (r: real)
    requires |A| > 0 && |B| > 0
    ensures 0.0 <= r <= 100.0
    ensures r == 100.0 <==> d(A[0], B[0]) == 0.0 && d(A[|A| - 1], B[|B| - 1]) == 0.0
    ensures A[0] == B[0] && A[|A| - 1] == B[|B| - 1] ==> r == 100.0
  {
    var startScore := ProximityScore(d(A[0], B[0]), MaxEndpointDistance);
    var endScore := ProximityScore(d(A[|A| - 1], B[|B| - 1]), MaxEndpointDistance);
    (startScore + endScore) / 2.0
  }

  /** Endpoint similarity does not depend on which route comes first. */
  lemma EndpointSymmetric(d: Distance, A: seq<Point>, B: seq<Point>)
    requires |A| > 0 && |B| > 0
    ensures EndpointSimilarity(d, A, B) == EndpointSimilarity(d, B, A)
  {
    assert d(A[0], B[0]) == d(B[0], A[0]);
    assert d(A[|A| - 1], B[|B| - 1]) == d(B[|B| - 1], A[|A| - 1]);
  }

  /**
   * `routeOverlap` (and its alias `overlapScore`): 0 unless both routes have two
   * points; otherwise 70% shape similarity plus 30% endpoint similarity.
   */
  function RouteOverlap(d: Distance, A: seq<Point>, B: seq<Point>): (r: real)
    ensures 0.0 <= r <= 100.0
    ensures |A| < 2 || |B| < 2 ==> r == 0.0
  {
    if |A| < 2 || |B| < 2 then 0.0
    else CalculateSimilarity(d, A, B) * 0.7 + EndpointSimilarity(d, A, B) * 0.3
  }

  /** A route overlaps itself completely. */
  lemma RouteOverlapSelf(d: Distance, A: seq<Point>)
    requires |A| >= 2
    ensures RouteOverlap(d, A, A) == 100.0
  {
    SimilaritySelf(d, A);
  }

  /** Overlap does not depend on which route comes first. */
  lemma RouteOverlapSymmetric(d: Distance, A: seq<Point>, B: seq<Point>)
    ensures RouteOverlap(d, A, B) == RouteOverlap(d, B, A)
  {
    SimilaritySymmetric(d, A, B);
    if |A| >= 2 && |B| >= 2 {
      EndpointSymmetric(d, A, B);
    }
  }
}
