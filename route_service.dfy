/** `RouteService.find_routes` and `RouteCalculationResult`
  * (web/backend/services/route_service.py).
  *
  * From one start coordinate to many monuments: both ends are snapped to their
  * closest trail node, A* runs between them, the edges of every path found are
  * copied into a result graph weighted by distance, and each monument is filed as
  * reachable or unreachable, in input order. */
module RouteService {
  import opened Wrappers
  import opened Geo
  import opened NxGraph
  import opened GraphService
  import opened AStar
  import opened AStarCorrectness
  import opened AStarOptimality

  /** The part of a `MonumentResponse` the route service reads. */
  datatype Monument = Monument(name: string, location: Point)

  /** The search `find_routes` runs for one monument. An empty graph has no closest
    * node: `_astar_search` is then called with `None` and raises `NodeNotFound`. */
  function RouteTo(graph: Graph, start: Point, m: Monument, dist: Distance, rule: PushRule): Outcome
    requires Valid(graph)
  {
    var s := ClosestNode(graph.nodes, start, dist);
    var e := ClosestNode(graph.nodes, m.location, dist);
    if s.None? || e.None? then NodeNotFound
    else
      ValidSearchable(graph);
      Search(graph, s.value, e.value, dist, rule)
  }

  /** The outcome of the search for each monument. */
  function Outcomes(graph: Graph, start: Point, ms: seq<Monument>, dist: Distance, rule: PushRule): (os: seq<Outcome>)
    requires Valid(graph)
    ensures |os| == |ms| && forall k | 0 <= k < |ms| :: os[k] == RouteTo(graph, start, ms[k], dist, rule)
  {
    seq(|ms|, k requires 0 <= k < |ms| => RouteTo(graph, start, ms[k], dist, rule))
  }

  /** The monuments whose search succeeded (`found`) or failed (`!found`), in input order. */
  function Filed(ms: seq<Monument>, os: seq<Outcome>, found: bool): seq<Monument>
    requires |os| == |ms|
    decreases |ms|
  {
    if |ms| == 0 then []
    else (if os[0].Found? == found then [ms[0]] else []) + Filed(ms[1..], os[1..], found)
  }

  /** Filing one more monument at the end, as the loop of `find_routes` does. */
  lemma {:induction false} FiledSnoc(ms: seq<Monument>, os: seq<Outcome>, found: bool)
    requires |os| == |ms| > 0
    ensures var n := |ms| - 1;
      Filed(ms, os, found) == Filed(ms[..n], os[..n], found) + (if os[n].Found? == found then [ms[n]] else [])
    decreases |ms|
  {
    var n := |ms| - 1;
    if n > 0 {
      FiledSnoc(ms[1..], os[1..], found);
      assert ms[1..][..n - 1] == ms[..n][1..];
      assert os[1..][..n - 1] == os[..n][1..];
    }
  }

  /** The unordered pairs of consecutive nodes of a path. */
  function PathEdges(p: seq<Point>): set<(Point, Point)>
  {
    (set i | 0 <= i < |p| - 1 :: Hop(p, i)) + (set i | 0 <= i < |p| - 1 :: (Hop(p, i).1, Hop(p, i).0))
  }

  /** The `i`-th step of a path, from node `i` to node `i + 1`. */
  function Hop(p: seq<Point>, i: nat): (Point, Point)
    requires i + 1 < |p|
  {
    (p[i], p[i + 1])
  }

  /** `for i in range(len(path) - 1): result.graph.add_edge(path[i], path[i + 1], weight=...)`,
    * here over the first `|p|` nodes of a path. */
  function AddPath(g: Graph, p: seq<Point>, dist: Distance): Graph
    decreases |p|
  {
    if |p| < 2 then g
    else
      var u, v := p[|p| - 2], p[|p| - 1];
      AddEdge(AddPath(g, p[..|p| - 1], dist), u, v, map["weight" := dist(u, v)])
  }

  /** `result.graph` after the searches with outcomes `os`: the edges of every path
    * found, from an empty graph. */
  function Collect(os: seq<Outcome>, dist: Distance): Graph
    decreases |os|
  {
    if |os| == 0 then Empty()
    else
      var g := Collect(os[..|os| - 1], dist);
      var o := os[|os| - 1];
      if o.Found? then AddPath(g, o.path, dist) else g
  }

  /** `nx.shortest_path_length(graph, s, e, weight="weight")`, a Dijkstra search, as A*
    * with a zero heuristic that pushes on every improvement (Dijkstra with lazy
    * deletion); None for a missing node or no path. */
  function ShortestLength(g: Graph, s: Point, e: Point): Option<real>
    requires Valid(g)
  {
    ValidSearchable(g);
    match Search(g, s, e, Zero, OnEveryImprovement)
    case Found(d, _) => Some(d)
    case _ => None
  }

  function Zero(p: Point, q: Point): real
  {
    0.0
  }

  /** The counts of `to_dict`. */
  datatype Summary = Summary(total: nat, reachable: nat, unreachable: nat)

  class RouteCalculationResult {
    var graph: Graph
    const start: Point
    const monuments: seq<Monument>
    var reachable: seq<Monument>
    var unreachable: seq<Monument>

    constructor (start: Point, monuments: seq<Monument>)
      ensures this.start == start && this.monuments == monuments
      ensures graph == Empty() && reachable == [] && unreachable == []
    {
      this.graph := Empty();
      this.start := start;
      this.monuments := monuments;
      this.reachable := [];
      this.unreachable := [];
    }

    /** `get_distance`: looked up between the RAW start and monument coordinates, not
      * the snapped nodes, so it is None unless both are nodes of the result graph. */
    function GetDistance(m: Monument): (r: Option<real>)
      reads this
      requires Valid(graph)
      ensures r.Some? ==> start in graph.adj && m.location in graph.adj
    {
      SearchNodeNotFound(graph, start, m.location, Zero, OnEveryImprovement);
      ShortestLength(graph, start, m.location)
    }

    /** The inner loop of `find_routes`: one `add_edge` per consecutive pair of the
      * path, weighted by the distance between the two nodes. */
    method AddPathEdges(path: seq<Point>, dist: Distance)
      modifies this
      ensures graph == AddPath(old(graph), path, dist)
      ensures reachable == old(reachable) && unreachable == old(unreachable)
    {
      var j := 0;
      while j < |path| - 1
        invariant 0 <= j <= |path|
        invariant j < |path| ==> graph == AddPath(old(graph), path[..j + 1], dist)
        invariant j == |path| ==> graph == AddPath(old(graph), path, dist)
        invariant reachable == old(reachable) && unreachable == old(unreachable)
      {
        assert path[..j + 2][..j + 1] == path[..j + 1];
        graph := AddEdge(graph, path[j], path[j + 1], map["weight" := dist(path[j], path[j + 1])]);
        j := j + 1;
      }
      if j < |path| {
        assert path[..j + 1] == path;
      }
    }

    /** The counts `to_dict` reports. */
    function ToDict(): (r: Summary)
      reads this
      ensures r.total == |monuments| && r.reachable == |reachable| && r.unreachable == |unreachable|
    {
      Summary(|monuments|, |reachable|, |unreachable|)
    }
  }

  /** The body of `find_routes`' loop up to the search: snap the monument, then run
    * A* from the snapped start. */
  method RouteOne(graph: Graph, ghost start: Point, startNode: Option<Point>, m: Monument, dist: Distance, rule: PushRule)
    returns (outcome: Outcome)
    requires Valid(graph) && startNode == ClosestNode(graph.nodes, start, dist)
    ensures outcome == RouteTo(graph, start, m, dist, rule)
  {
    ValidSearchable(graph);
    var endNode := FindClosestNode(graph, m.location, dist);
    if startNode.None? || endNode.None? {
      outcome := NodeNotFound;
    } else {
      outcome := AStarSearch(graph, startNode.value, endNode.value, dist, rule);
    }
  }

  /** `find_routes`. The start is snapped once; for each monument its closest node is
    * found, A* runs, and on success the path's edges are added to the result graph
    * and the monument is filed as reachable, otherwise as unreachable. */
  method FindRoutes(graph: Graph, start: Point, monuments: seq<Monument>, dist: Distance, rule: PushRule)
    returns (result: RouteCalculationResult)
    requires Valid(graph)
    ensures fresh(result)
    ensures result.start == start && result.monuments == monuments
    ensures var os := Outcomes(graph, start, monuments, dist, rule);
      && result.reachable == Filed(monuments, os, true)
      && result.unreachable == Filed(monuments, os, false)
      && result.graph == Collect(os, dist)
  {
    result := new RouteCalculationResult(start, monuments);
    ValidSearchable(graph);
    var startNode := FindClosestNode(graph, start, dist);
    ghost var os := Outcomes(graph, start, monuments, dist, rule);
    var i := 0;
    while i < |monuments|
      invariant 0 <= i <= |monuments|
      invariant result.start == start && result.monuments == monuments
      invariant result.reachable == Filed(monuments[..i], os[..i], true)
      invariant result.unreachable == Filed(monuments[..i], os[..i], false)
      invariant result.graph == Collect(os[..i], dist)
    {
      assert monuments[..i + 1][..i] == monuments[..i];
      assert os[..i + 1][..i] == os[..i];
      FiledSnoc(monuments[..i + 1], os[..i + 1], true);
      FiledSnoc(monuments[..i + 1], os[..i + 1], false);
      var m := monuments[i];
      var outcome := RouteOne(graph, start, startNode, m, dist, rule);
      if outcome.Found? {
        result.AddPathEdges(outcome.path, dist);
        result.reachable := result.reachable + [m];
      } else {
        result.unreachable := result.unreachable + [m];
      }
      i := i + 1;
    }
    assert monuments[..i] == monuments && os[..i] == os;
  }

  // --- properties ---------------------------------------------------------------

  /** A route found joins the snapped start to the snapped monument along edges of
    * the graph, and its distance is the sum of the weights along it. */
  lemma RouteToFound(graph: Graph, start: Point, m: Monument, dist: Distance, rule: PushRule)
    requires Valid(graph)
    ensures var o := RouteTo(graph, start, m, dist, rule);
      o.Found? ==>
        var s := ClosestNode(graph.nodes, start, dist);
        var e := ClosestNode(graph.nodes, m.location, dist);
        && s.Some? && e.Some?
        && WalkTo(graph, s.value, e.value, o.path) && o.distance == PathCost(graph, o.path)
  {
    ValidSearchable(graph);
    var s := ClosestNode(graph.nodes, start, dist);
    var e := ClosestNode(graph.nodes, m.location, dist);
    if s.Some? && e.Some? {
      SearchFoundIsPath(graph, s.value, e.value, dist, rule);
    }
  }

  /** Every monument lands in exactly one of the two lists. */
  lemma {:induction false} Partition(ms: seq<Monument>, os: seq<Outcome>)
    requires |os| == |ms|
    ensures var r, u := Filed(ms, os, true), Filed(ms, os, false);
      |r| + |u| == |ms| && multiset(r) + multiset(u) == multiset(ms)
    decreases |ms|
  {
    if |ms| > 0 {
      Partition(ms[1..], os[1..]);
      assert ms == [ms[0]] + ms[1..];
    }
  }

  /** Each list holds only monuments whose search ended as the list says. */
  lemma {:induction false} FiledMembers(ms: seq<Monument>, os: seq<Outcome>, found: bool)
    requires |os| == |ms|
    ensures forall x | x in Filed(ms, os, found) :: exists k | 0 <= k < |ms| :: ms[k] == x && os[k].Found? == found
    decreases |ms|
  {
    if |ms| > 0 {
      FiledMembers(ms[1..], os[1..], found);
      forall x | x in Filed(ms, os, found) ensures exists k | 0 <= k < |ms| :: ms[k] == x && os[k].Found? == found {
        if x in Filed(ms[1..], os[1..], found) {
          var k :| 0 <= k < |ms| - 1 && ms[1..][k] == x && os[1..][k].Found? == found;
          assert ms[k + 1] == x;
        } else {
          assert ms[0] == x;
        }
      }
    }
  }

  /** On a graph without nodes every search fails with `NodeNotFound`. */
  lemma EmptyGraphNotFound(graph: Graph, start: Point, ms: seq<Monument>, dist: Distance, rule: PushRule)
    requires Valid(graph) && |graph.nodes| == 0
    ensures forall o | o in Outcomes(graph, start, ms, dist, rule) :: o == NodeNotFound
  {
  }

  /** When every search fails nothing is reachable, every monument is unreachable in
    * input order, and the result graph stays empty. */
  lemma {:induction false} NothingFound(ms: seq<Monument>, os: seq<Outcome>, dist: Distance)
    requires |os| == |ms| && forall o | o in os :: !o.Found?
    ensures Filed(ms, os, true) == [] && Filed(ms, os, false) == ms && Collect(os, dist) == Empty()
    decreases |ms|
  {
    if |ms| > 0 {
      var n := |ms| - 1;
      assert os[n] in os;
      NothingFound(ms[..n], os[..n], dist);
      FiledSnoc(ms, os, true);
      FiledSnoc(ms, os, false);
      assert ms == ms[..n] + [ms[n]];
    }
  }

  lemma PathEdgesSnoc(p: seq<Point>)
    requires |p| >= 2
    ensures PathEdges(p) == PathEdges(p[..|p| - 1]) + {(p[|p| - 2], p[|p| - 1]), (p[|p| - 1], p[|p| - 2])}
  {
    var q := p[..|p| - 1];
    forall i | 0 <= i < |q| - 1 ensures Hop(q, i) == Hop(p, i) {}
    assert Hop(p, |p| - 2) == (p[|p| - 2], p[|p| - 1]);
  }

  /** Adding a path's edges adds exactly its consecutive pairs, keeps the graph
    * valid, and keeps every weight the distance between its endpoints. */
  lemma {:induction false} AddPathEffect(g: Graph, p: seq<Point>, dist: Distance)
    requires Valid(g)
    ensures var r := AddPath(g, p, dist);
      && Valid(r)
      && (forall x, y :: Adjacent(r, x, y) <==> Adjacent(g, x, y) || (x, y) in PathEdges(p))
      && (Symmetric(dist) && WeightsAreDistances(g, dist) ==> WeightsAreDistances(r, dist))
    decreases |p|
  {
    if |p| >= 2 {
      var q := p[..|p| - 1];
      AddPathEffect(g, q, dist);
      var u, v := p[|p| - 2], p[|p| - 1];
      AddEdgeEffect(AddPath(g, q, dist), u, v, map["weight" := dist(u, v)]);
      PathEdgesSnoc(p);
      if Symmetric(dist) && WeightsAreDistances(g, dist) {
        AddDistanceKeepsDistances(AddPath(g, q, dist), u, v, dist);
      }
    } else {
      assert PathEdges(p) == {};
    }
  }

  /** The consecutive pairs of every path found. */
  function FoundEdges(os: seq<Outcome>): set<(Point, Point)>
    decreases |os|
  {
    if |os| == 0 then {}
    else
      var o := os[|os| - 1];
      FoundEdges(os[..|os| - 1]) + (if o.Found? then PathEdges(o.path) else {})
  }

  /** A pair is found exactly when it is consecutive on some path found. */
  lemma {:induction false} FoundEdgesMembers(os: seq<Outcome>)
    ensures forall x, y :: (x, y) in FoundEdges(os) <==> exists k | 0 <= k < |os| :: os[k].Found? && (x, y) in PathEdges(os[k].path)
    decreases |os|
  {
    if |os| > 0 {
      var n := |os| - 1;
      var pre := os[..n];
      FoundEdgesMembers(pre);
      forall x, y
        ensures (x, y) in FoundEdges(os) <==> exists k | 0 <= k < |os| :: os[k].Found? && (x, y) in PathEdges(os[k].path)
      {
        if (x, y) in FoundEdges(pre) {
          var k :| 0 <= k < n && pre[k].Found? && (x, y) in PathEdges(pre[k].path);
          assert os[k] == pre[k];
        }
        if exists k | 0 <= k < |os| :: os[k].Found? && (x, y) in PathEdges(os[k].path) {
          var k :| 0 <= k < |os| && os[k].Found? && (x, y) in PathEdges(os[k].path);
          if k < n {
            assert pre[k] == os[k];
          }
        }
      }
    }
  }

  /** The result graph holds exactly the consecutive node pairs of the paths found,
    * and, for a symmetric distance, each is weighted by the distance between its
    * endpoints. */
  lemma {:induction false} CollectEdges(os: seq<Outcome>, dist: Distance)
    ensures var r := Collect(os, dist);
      && Valid(r)
      && (forall x, y :: Adjacent(r, x, y) <==> (x, y) in FoundEdges(os))
      && (Symmetric(dist) ==> WeightsAreDistances(r, dist))
    decreases |os|
  {
    if |os| > 0 {
      var n := |os| - 1;
      CollectEdges(os[..n], dist);
      if os[n].Found? {
        AddPathEffect(Collect(os[..n], dist), os[n].path, dist);
      }
    }
  }

  /** A zero heuristic is consistent wherever weights are non-negative. */
  lemma ZeroConsistent(g: Graph, goal: Point)
    requires NonNegWeights(g)
    ensures Consistent(g, goal, Zero)
  {
  }

  /** With non-negative weights, `shortest_path_length` is defined exactly when both
    * nodes exist and a walk joins them, and is then the cost of a cheapest walk. */
  lemma ShortestLengthCorrect(g: Graph, s: Point, e: Point)
    requires Valid(g) && NonNegWeights(g)
    ensures var r := ShortestLength(g, s, e);
      && (r.Some? <==> s in g.adj && e in g.adj && exists p :: WalkTo(g, s, e, p))
      && (r.Some? ==>
            && (exists p :: WalkTo(g, s, e, p) && PathCost(g, p) == r.value)
            && (forall q | WalkTo(g, s, e, q) :: r.value <= PathCost(g, q)))
  {
    ValidSearchable(g);
    ZeroConsistent(g, e);
    SearchNodeNotFound(g, s, e, Zero, OnEveryImprovement);
    SearchOptimal(g, s, e, Zero);
    var o := Search(g, s, e, Zero, OnEveryImprovement);
    if s in g.adj && e in g.adj {
      SearchFindsReachable(g, s, e, Zero, OnEveryImprovement);
    }
    if o.Found? {
      assert WalkTo(g, s, e, o.path);
    }
  }
}
