/**
 * Geometric primitives shared by both generations of the route matcher.
 *
 * The great-circle distance (`haversine` / `haversineDistance`) and the forward
 * azimuth (`calculateBearing`) are trigonometric; the model keeps them abstract
 * as function values constrained by the laws the matcher relies on.
 */
module Geometry {
  import opened Wrappers
  import opened RealArith

  /** A geographic point in decimal degrees. */
  datatype Point = Point(lat: real, lng: real)

  /** The laws of a great-circle distance that the matcher depends on. */
  ghost predicate DistanceLaws(d: (Point, Point) -> real) {
    && (forall p, q :: d(p, q) >= 0.0)
    && (forall p :: d(p, p) == 0.0)
    && (forall p, q :: d(p, q) == d(q, p))
  }

  /** An abstract haversine distance in metres. */
  type Distance = d: (Point, Point) -> real | DistanceLaws(d)
    witness (p: Point, q: Point) => 0.0

  /**
   * An abstract polyline decoder (Google's Encoded Polyline Algorithm Format);
   * None where decoding throws on a malformed string.
   */
  type Decoder = string -> Option<seq<Point>>

  /** An abstract forward azimuth in degrees, always in [0, 360). */
  type Bearing = b: (Point, Point) -> real | forall p, q :: 0.0 <= b(p, q) < 360.0
    witness (p: Point, q: Point) => 0.0

  function Max(a: real, b: real): real { if a >= b then a else b }

  function Min(a: real, b: real): real { if a <= b then a else b }

  /** Linear interpolation in latitude/longitude from `a` towards `b`. */
  function Lerp(a: Point, b: Point, t: real): Point {
    Point(a.lat + Mul(b.lat - a.lat, t), a.lng + Mul(b.lng - a.lng, t))
  }

  /** Distance travelled along `route` from its first point to point `i`. */
  function Cum(d: Distance, route: seq<Point>, i: nat): (r: real)
    requires i < |route|
    ensures r >= 0.0
  {
    if i == 0 then 0.0 else Cum(d, route, i - 1) + d(route[i - 1], route[i])
  }

  /** Total length of a route: the sum of its consecutive point distances. */
  function RouteLength(d: Distance, route: seq<Point>): real {
    if |route| == 0 then 0.0 else Cum(d, route, |route| - 1)
  }

  /** The cumulative distance never decreases along the route. */
  lemma {:induction false} CumMonotone(d: Distance, route: seq<Point>, i: nat, j: nat)
    requires i <= j < |route|
    ensures Cum(d, route, i) <= Cum(d, route, j)
  {
    if i < j {
      CumMonotone(d, route, i, j - 1);
    }
  }

  /** A route's length is non-negative, zero below two points, and grows by its last hop. */
  lemma RouteLengthBasics(d: Distance, route: seq<Point>)
    ensures RouteLength(d, route) >= 0.0
    ensures |route| < 2 ==> RouteLength(d, route) == 0.0
    ensures |route| >= 2 ==>
      RouteLength(d, route) == RouteLength(d, route[..|route| - 1]) + d(route[|route| - 2], route[|route| - 1])
  {
    if |route| >= 2 {
      CumPrefix(d, route, |route| - 1, |route| - 2);
    }
  }

  /** The cumulative distance to point `i` only depends on the points up to `i`. */
  lemma {:induction false} CumPrefix(d: Distance, route: seq<Point>, n: nat, i: nat)
    requires i < n <= |route|
    ensures Cum(d, route[..n], i) == Cum(d, route, i)
  {
    if i > 0 {
      CumPrefix(d, route, n, i - 1);
    }
  }
}
