/** Coordinates, segments and the distance function seen from outside.
  *
  * The haversine library is foreign floating-point code: the model takes it as a
  * parameter `dist` and states the facts it relies on (non-negativity, symmetry,
  * the triangle inequality) as explicit assumptions where it needs them. */
module Geo {
  /** A graph node: the `(lat, lon)` tuple the services use as a networkx key. */
  datatype Point = Point(lat: real, lon: real)

  /** A bounding box given by two corners. */
  datatype Box = Box(bottomLeft: Point, topRight: Point)

  /** A raw segment `(start_point, end_point)`. */
  type Segment = (Point, Point)

  /** `haversine.haversine(p, q)`, in kilometres. */
  type Distance = (Point, Point) -> real

  /** Python's tuple comparison `(a.lat, a.lon) < (b.lat, b.lon)`. */
  predicate Less(a: Point, b: Point)
  {
    a.lat < b.lat || (a.lat == b.lat && a.lon < b.lon)
  }

  /** Tuple order is a strict total order on points. */
  lemma LessIsStrictTotal(a: Point, b: Point)
    ensures !(Less(a, b) && Less(b, a))
    ensures a == b <==> !Less(a, b) && !Less(b, a)
  {
  }

  ghost predicate NonNegative(dist: Distance)
  {
    forall p, q :: dist(p, q) >= 0.0
  }

  ghost predicate Symmetric(dist: Distance)
  {
    forall p, q :: dist(p, q) == dist(q, p)
  }

  ghost predicate Triangle(dist: Distance)
  {
    forall p, q, r :: dist(p, r) <= dist(p, q) + dist(q, r)
  }

  /** The assumptions a great-circle distance satisfies. */
  ghost predicate Metric(dist: Distance)
  {
    NonNegative(dist) && Symmetric(dist) && Triangle(dist)
  }

  /** Every segment endpoint of a list of segments. */
  function Endpoints(segs: seq<Segment>): (r: set<Point>)
    ensures forall k | 0 <= k < |segs| :: segs[k].0 in r && segs[k].1 in r
    decreases |segs|
  {
    if |segs| == 0 then {}
    else
      var n := |segs| - 1;
      var r := Endpoints(segs[..n]) + {segs[n].0, segs[n].1};
      assert forall k | 0 <= k < n :: segs[..n][k] == segs[k];
      r
  }

  /** Every member of the endpoint set is an end of some segment. */
  lemma {:induction false} EndpointsOrigin(segs: seq<Segment>, p: Point)
    requires p in Endpoints(segs)
    ensures exists k | 0 <= k < |segs| :: p == segs[k].0 || p == segs[k].1
    decreases |segs|
  {
    assert |segs| > 0;
    var n := |segs| - 1;
    assert Endpoints(segs) == Endpoints(segs[..n]) + {segs[n].0, segs[n].1};
    if p == segs[n].0 || p == segs[n].1 {
    } else {
      EndpointsOrigin(segs[..n], p);
      var k :| 0 <= k < n && (p == segs[..n][k].0 || p == segs[..n][k].1);
      assert segs[..n][k] == segs[k];
    }
  }

  /** One more segment adds its two ends. */
  lemma EndpointsSnoc(raw: seq<Segment>)
    requires |raw| > 0
    ensures Endpoints(raw) == Endpoints(raw[..|raw| - 1]) + {raw[|raw| - 1].0, raw[|raw| - 1].1}
  {
  }

  /** Python's `abs` on reals. */
  function Abs(x: real): real
  {
    if x < 0.0 then -x else x
  }
}
