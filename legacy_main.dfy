/** The helpers of the first command-line version's main script
  * (`skeleton/main.py`): the monuments inside a box, and the graph node and the
  * segment nearest to a place. The menus, prompts and the settings file are
  * outside the model. */
module LegacyMain {
  import opened Wrappers
  import opened Geo
  import opened NxGraph
  import opened LegacyMonuments

  // ---------------------------------------------------------------------------
  // _monuments_in_box
  // ---------------------------------------------------------------------------

  /** Inside the box, borders included. */
  predicate InBox(p: Point, box: Box)
  {
    && box.bottomLeft.lat <= p.lat <= box.topRight.lat
    && box.bottomLeft.lon <= p.lon <= box.topRight.lon
  }

  /** The monuments of `ms` inside the box, in their order. */
  function InBoxOnly(ms: seq<Monument>, box: Box): (r: seq<Monument>)
    ensures |r| <= |ms|
    ensures forall k | 0 <= k < |r| :: InBox(r[k].location, box)
  {
    if ms == [] then []
    else InBoxOnly(ms[..|ms| - 1], box) + (if InBox(ms[|ms| - 1].location, box) then [ms[|ms| - 1]] else [])
  }

  /** `_monuments_in_box`. */
  method MonumentsInBox(ms: seq<Monument>, box: Box) returns (r: seq<Monument>)
    ensures r == InBoxOnly(ms, box)
  {
    r := [];
    for i := 0 to |ms|
      invariant r == InBoxOnly(ms[..i], box)
    {
      assert ms[..i + 1][..i] == ms[..i];
      var m := ms[i];
      if m.location.lat >= box.bottomLeft.lat
         && m.location.lat <= box.topRight.lat
         && m.location.lon >= box.bottomLeft.lon
         && m.location.lon <= box.topRight.lon
      {
        r := r + [m];
      }
    }
    assert ms[..|ms|] == ms;
  }

  /** A monument is kept exactly when it is listed and inside the box. */
  lemma {:induction false} InBoxOnlyMembers(ms: seq<Monument>, box: Box)
    ensures forall m :: m in InBoxOnly(ms, box) <==> m in ms && InBox(m.location, box)
  {
    if ms != [] {
      var init := ms[..|ms| - 1];
      InBoxOnlyMembers(init, box);
      assert ms == init + [ms[|ms| - 1]];
    }
  }

  /** Filtering a concatenation filters each part, so the input order is kept. */
  lemma {:induction false} InBoxOnlyAppend(a: seq<Monument>, b: seq<Monument>, box: Box)
    ensures InBoxOnly(a + b, box) == InBoxOnly(a, box) + InBoxOnly(b, box)
    decreases |b|
  {
    if b == [] {
      assert a + b == a;
    } else {
      var init := b[..|b| - 1];
      assert (a + b)[..|a + b| - 1] == a + init;
      assert (a + b)[|a + b| - 1] == b[|b| - 1];
      InBoxOnlyAppend(a, init, box);
    }
  }

  /** A list of monuments all inside the box passes unchanged. */
  lemma {:induction false} InBoxOnlyAll(ms: seq<Monument>, box: Box)
    requires forall k | 0 <= k < |ms| :: InBox(ms[k].location, box)
    ensures InBoxOnly(ms, box) == ms
  {
    if ms != [] {
      InBoxOnlyAll(ms[..|ms| - 1], box);
    }
  }

  /** Filtering twice gives the same list. */
  lemma InBoxOnlyIdempotent(ms: seq<Monument>, box: Box)
    ensures InBoxOnly(InBoxOnly(ms, box), box) == InBoxOnly(ms, box)
  {
    InBoxOnlyAll(InBoxOnly(ms, box), box);
  }

  // ---------------------------------------------------------------------------
  // _closest_point and _closest_edge
  // ---------------------------------------------------------------------------

  /** The index a loop with `if d < min_dist` keeps, starting from infinity: the
    * first of the smallest scores, or nothing for no scores. */
  function FirstMin(scores: seq<real>): (r: Option<nat>)
    ensures r.None? <==> |scores| == 0
    ensures r.Some? ==> r.value < |scores|
    ensures r.Some? ==> forall k | 0 <= k < |scores| :: scores[r.value] <= scores[k]
    ensures r.Some? ==> forall k | 0 <= k < r.value :: scores[r.value] < scores[k]
  {
    if scores == [] then None
    else
      var last := |scores| - 1;
      match FirstMin(scores[..last])
      case None => Some(last)
      case Some(b) =>
        assert scores[..last][b] == scores[b];
        assert forall k | 0 <= k < last :: scores[..last][k] == scores[k];
        if scores[last] < scores[b] then Some(last) else Some(b)
  }

  /** The distance from `p` to each node, as the loop computes it. */
  function PointScores(nodes: seq<Point>, p: Point, dist: Distance): (s: seq<real>)
    ensures |s| == |nodes| && forall k | 0 <= k < |nodes| :: s[k] == dist(p, nodes[k])
  {
    seq(|nodes|, k requires 0 <= k < |nodes| => dist(p, nodes[k]))
  }

  /** `_closest_point`: the first node in iteration order at the smallest distance;
    * on a graph without nodes `closest_point` is never bound and the return
    * raises UnboundLocalError. */
  method ClosestPoint(g: Graph, p: Point, dist: Distance) returns (r: Result<Point, PyError>)
    ensures var best := FirstMin(PointScores(g.nodes, p, dist));
      && (best.None? ==> r == Err(UnboundLocalError))
      && (best.Some? ==> r == Ok(g.nodes[best.value]))
  {
    ghost var scores := PointScores(g.nodes, p, dist);
    ghost var best: Option<nat> := None;
    var minDist: Option<real> := None;
    var closest: Option<Point> := None;
    for i := 0 to |g.nodes|
      invariant best == FirstMin(scores[..i])
      invariant best.None? ==> minDist.None? && closest.None?
      invariant best.Some? ==> best.value < i && minDist == Some(scores[best.value]) && closest == Some(g.nodes[best.value])
    {
      assert scores[..i + 1][..i] == scores[..i];
      var d := dist(p, g.nodes[i]);
      if minDist.None? || d < minDist.value {
        minDist := Some(d);
        closest := Some(g.nodes[i]);
        best := Some(i);
      }
    }
    assert scores[..|g.nodes|] == scores;
    if closest.None? {
      return Err(UnboundLocalError);
    }
    return Ok(closest.value);
  }

  /** `min(dist_end, dist_start)`: the nearer endpoint's distance. */
  function EdgeScore(m: Monument, s: Segment, dist: Distance): (d: real)
    ensures d <= dist(m.location, s.0) && d <= dist(m.location, s.1)
    ensures d == dist(m.location, s.0) || d == dist(m.location, s.1)
  {
    var dEnd := dist(m.location, s.1);
    var dStart := dist(m.location, s.0);
    if dStart < dEnd then dStart else dEnd
  }

  function EdgeScores(segments: seq<Segment>, m: Monument, dist: Distance): (s: seq<real>)
    ensures |s| == |segments| && forall k | 0 <= k < |segments| :: s[k] == EdgeScore(m, segments[k], dist)
  {
    seq(|segments|, k requires 0 <= k < |segments| => EdgeScore(m, segments[k], dist))
  }

  /** `_closest_edge`: the first segment with the smallest endpoint distance;
    * without segments the return raises UnboundLocalError. */
  method ClosestEdge(m: Monument, segments: seq<Segment>, dist: Distance) returns (r: Result<Segment, PyError>)
    ensures var best := FirstMin(EdgeScores(segments, m, dist));
      && (best.None? ==> r == Err(UnboundLocalError))
      && (best.Some? ==> r == Ok(segments[best.value]))
  {
    ghost var scores := EdgeScores(segments, m, dist);
    ghost var best: Option<nat> := None;
    var minDist: Option<real> := None;
    var closest: Option<Segment> := None;
    for i := 0 to |segments|
      invariant best == FirstMin(scores[..i])
      invariant best.None? ==> minDist.None? && closest.None?
      invariant best.Some? ==> best.value < i && minDist == Some(scores[best.value]) && closest == Some(segments[best.value])
    {
      assert scores[..i + 1][..i] == scores[..i];
      var segment := segments[i];
      var dEnd := dist(m.location, segment.1);
      var dStart := dist(m.location, segment.0);
      var d := if dStart < dEnd then dStart else dEnd;
      if minDist.None? || d < minDist.value {
        minDist := Some(d);
        closest := Some(segment);
        best := Some(i);
      }
    }
    assert scores[..|segments|] == scores;
    if closest.None? {
      return Err(UnboundLocalError);
    }
    return Ok(closest.value);
  }
}
