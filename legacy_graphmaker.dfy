/** The first command-line version of the trail graph (`skeleton/graphmaker.py`).
  *
  * It builds and simplifies the same networkx graph as `GraphService`, with three
  * differences the model keeps: each edge's distance is stored under the key
  * `wheight`, so every weight lookup falls back to 1.0; the shortcut edge of a
  * removal carries no attributes; and nothing guards the tuple unpacking of the
  * neighbours or the `acos` call, so both can raise. */
module LegacyGraphmaker {
  import opened Wrappers
  import opened Geo
  import opened NxGraph
  import opened GraphService

  /** Every edge's attribute dict is exactly `{key: d}`, `d` the distance between
    * its endpoints taken in one of the two directions. */
  ghost predicate KeyOnly(g: Graph, key: string, dist: Distance)
  {
    forall u, v | (u, v) in g.attrs :: g.attrs[(u, v)] == map[key := dist(u, v)] || g.attrs[(u, v)] == map[key := dist(v, u)]
  }

  /** No edge has a `weight` attribute. */
  ghost predicate Unweighted(g: Graph)
  {
    forall u, v | (u, v) in g.attrs :: "weight" !in g.attrs[(u, v)]
  }

  /** Without a `weight` attribute every edge weighs 1.0 in a weighted search. */
  lemma UnweightedWeighsOne(g: Graph, u: Point, v: Point)
    requires Unweighted(g) && (u, v) in g.attrs
    ensures Weight(g, u, v) == 1.0
  {
  }

  /** The graph `make_graph` has built after the first `|segs|` segments. */
  function Built(segs: seq<Segment>, dist: Distance): Graph
  {
    if segs == [] then Empty()
    else
      var g := Built(segs[..|segs| - 1], dist);
      var (s, e) := segs[|segs| - 1];
      AddEdge(g, s, e, map["wheight" := dist(s, e)])
  }

  /** Merging `{key: dist(u, v)}` into an edge keeps every dict single-keyed. */
  lemma AddKeyKeepsKeyOnly(g: Graph, u: Point, v: Point, key: string, dist: Distance)
    requires KeyOnly(g, key, dist)
    ensures KeyOnly(AddEdge(g, u, v, map[key := dist(u, v)]), key, dist)
  {
    var upd := map[key := dist(u, v)];
    assert EdgeData(g, u, v) + upd == upd;
    var r := AddEdge(g, u, v, upd);
    assert r.attrs == g.attrs[(u, v) := upd][(v, u) := upd];
    forall x, y | (x, y) in r.attrs
      ensures r.attrs[(x, y)] == map[key := dist(x, y)] || r.attrs[(x, y)] == map[key := dist(y, x)]
    {
      if (x, y) != (v, u) && (x, y) != (u, v) {
        assert r.attrs[(x, y)] == g.attrs[(x, y)];
      }
    }
  }

  /** The graph of `make_graph` is a valid networkx graph whose nodes are the
    * endpoints and whose edges are the segments, and each edge holds only its
    * distance under `wheight`. */
  lemma {:induction false} BuiltShape(segs: seq<Segment>, dist: Distance)
    ensures var g := Built(segs, dist);
      && Valid(g)
      && g.adj.Keys == Endpoints(segs)
      && g.attrs.Keys == EdgePairs(segs)
      && KeyOnly(g, "wheight", dist)
    decreases |segs|
  {
    if segs != [] {
      var i := |segs| - 1;
      assert segs[..i + 1] == segs;
      BuiltShape(segs[..i], dist);
      BuiltStep(Built(segs[..i], dist), segs, i, dist);
    }
  }

  /** One `add_edge` of `make_graph` keeps the shape of the graph built so far. */
  lemma BuiltStep(g: Graph, segs: seq<Segment>, i: nat, dist: Distance)
    requires i < |segs| && Valid(g)
    requires g.adj.Keys == Endpoints(segs[..i]) && g.attrs.Keys == EdgePairs(segs[..i]) && KeyOnly(g, "wheight", dist)
    ensures var r := AddEdge(g, segs[i].0, segs[i].1, map["wheight" := dist(segs[i].0, segs[i].1)]);
      && Valid(r)
      && r.adj.Keys == Endpoints(segs[..i + 1])
      && r.attrs.Keys == EdgePairs(segs[..i + 1])
      && KeyOnly(r, "wheight", dist)
  {
    var (u, v) := segs[i];
    AddEdgeEffect(g, u, v, map["wheight" := dist(u, v)]);
    EdgePairsSnoc(segs, i);
    AddKeyKeepsKeyOnly(g, u, v, "wheight", dist);
  }

  /** `make_graph(segments)`: one `add_edge(start, end, wheight=dist(start, end))`
    * per segment. The graph has the right nodes and edges, but no edge has a
    * `weight`, so a search weighted by `weight` counts hops instead of kilometres. */
  method LegacyMakeGraph(segs: seq<Segment>, dist: Distance) returns (g: Graph)
    ensures g == Built(segs, dist)
    ensures Valid(g)
    ensures g.adj.Keys == Endpoints(segs)
    ensures forall u, v :: Adjacent(g, u, v) <==> (u, v) in EdgePairs(segs)
    ensures forall u, v | (u, v) in g.attrs :: g.attrs[(u, v)].Keys == {"wheight"} && Weight(g, u, v) == 1.0
  {
    g := Empty();
    var i := 0;
    while i < |segs|
      invariant 0 <= i <= |segs|
      invariant g == Built(segs[..i], dist)
    {
      var (startNode, endNode) := segs[i];
      assert segs[..i + 1][..i] == segs[..i];
      g := AddEdge(g, startNode, endNode, map["wheight" := dist(startNode, endNode)]);
      i := i + 1;
    }
    assert segs[..i] == segs;
    BuiltShape(segs, dist);
    BuiltEdges(g, segs, dist);
    WheightOnlyWeighsOne(g, dist);
  }

  lemma BuiltEdges(g: Graph, segs: seq<Segment>, dist: Distance)
    requires Valid(g) && g.attrs.Keys == EdgePairs(segs)
    ensures forall u, v :: Adjacent(g, u, v) <==> (u, v) in EdgePairs(segs)
  {
    forall u, v ensures Adjacent(g, u, v) <==> (u, v) in EdgePairs(segs) {
      assert Adjacent(g, u, v) <==> (u, v) in g.attrs;
    }
  }

  /** A dict holding only `wheight` has no `weight`, so the edge weighs 1.0. */
  lemma WheightOnlyWeighsOne(g: Graph, dist: Distance)
    requires KeyOnly(g, "wheight", dist)
    ensures forall u, v | (u, v) in g.attrs :: g.attrs[(u, v)].Keys == {"wheight"} && Weight(g, u, v) == 1.0
  {
    forall u, v | (u, v) in g.attrs ensures g.attrs[(u, v)].Keys == {"wheight"} && Weight(g, u, v) == 1.0 {
      assert "weight" != "wheight" by {
        assert |"weight"| != |"wheight"|;
      }
    }
  }

  /** The graph `make_graph` builds has no `weight` attribute anywhere. */
  lemma BuiltUnweighted(segs: seq<Segment>, dist: Distance)
    ensures Unweighted(Built(segs, dist))
  {
    BuiltShape(segs, dist);
  }

  /** `_angle_of(p1, p2, p3)` without guards: the division raises ZeroDivisionError
    * when a leg has length zero, and `acos` raises ValueError outside [-1, 1].
    * Where it succeeds it agrees with the guarded version of the web backend. */
  function LegacyAngleOf(p1: Point, p2: Point, p3: Point, dist: Distance, acosDeg: real --> real): (r: Result<real, PyError>)
    requires AcosDomain(acosDeg)
    ensures r == Err(ZeroDivisionError) <==> dist(p1, p2) == 0.0 || dist(p2, p3) == 0.0
    ensures r == Err(ValueError) <==>
      dist(p1, p2) != 0.0 && dist(p2, p3) != 0.0 &&
      !(-1.0 <= CosineRule(dist(p1, p2), dist(p2, p3), dist(p1, p3)) <= 1.0)
    ensures r.Ok? ==> r.value == AngleOf(p1, p2, p3, dist, acosDeg)
  {
    var d1 := dist(p1, p2);
    var d2 := dist(p2, p3);
    var d3 := dist(p1, p3);
    if d1 == 0.0 || d2 == 0.0 then Err(ZeroDivisionError)
    else
      var x := CosineRule(d1, d2, d3);
      if -1.0 <= x <= 1.0 then Ok(acosDeg(x)) else Err(ValueError)
  }

  /** Sides obeying the triangle inequality give a law-of-cosines value in [-1, 1]. */
  lemma CosineOfTriangle(d1: real, d2: real, d3: real)
    requires d1 > 0.0 && d2 > 0.0 && d3 >= 0.0
    requires d3 <= d1 + d2 && d1 <= d2 + d3 && d2 <= d1 + d3
    ensures -1.0 <= CosineRule(d1, d2, d3) <= 1.0
  {
    var n := d1 * d1 + d2 * d2 - d3 * d3;
    var den := 2.0 * d1 * d2;
    assert den > 0.0;
    assert (d1 + d2) * (d1 + d2) >= d3 * d3 by {
      assert d1 + d2 >= d3 >= 0.0;
    }
    assert (d1 - d2) * (d1 - d2) <= d3 * d3 by {
      assert -d3 <= d1 - d2 <= d3;
      if d1 >= d2 {
        assert (d1 - d2) * (d1 - d2) <= d3 * (d1 - d2) <= d3 * d3;
      } else {
        assert (d2 - d1) * (d2 - d1) <= d3 * (d2 - d1) <= d3 * d3;
      }
    }
    assert -den <= n <= den;
    assert CosineRule(d1, d2, d3) == n / den;
  }

  /** With exact arithmetic and a true metric, only a zero-length leg can make
    * `_angle_of` raise: the ValueError of `acos` needs floating-point rounding. */
  lemma LegacyAngleOnMetric(p1: Point, p2: Point, p3: Point, dist: Distance, acosDeg: real --> real)
    requires AcosDomain(acosDeg) && Metric(dist)
    ensures LegacyAngleOf(p1, p2, p3, dist, acosDeg).Ok? <==> dist(p1, p2) != 0.0 && dist(p2, p3) != 0.0
  {
    var d1 := dist(p1, p2);
    var d2 := dist(p2, p3);
    var d3 := dist(p1, p3);
    if d1 != 0.0 && d2 != 0.0 {
      assert d1 >= 0.0 && d2 >= 0.0 && d3 >= 0.0;
      assert d3 <= d1 + d2;
      assert dist(p2, p1) <= dist(p2, p3) + dist(p3, p1);
      assert dist(p2, p3) <= dist(p2, p1) + dist(p1, p3);
      CosineOfTriangle(d1, d2, d3);
    }
  }

  /** The removal of `node` between `g1` and `g3`: both edges and the node go and
    * `add_edge(g1, g3)` adds a shortcut without attributes. */
  function Merge(g: Graph, g1: Point, node: Point, g3: Point): Graph
    requires Valid(g) && Adjacent(g, node, g1) && Adjacent(g, node, g3) && g1 != g3
  {
    var a := RemoveEdge(g, g1, node);
    var b := RemoveEdge(a, node, g3);
    var c := RemoveNode(b, node);
    AddEdge(c, g1, g3, map[])
  }

  /** A removal keeps the graph valid, deletes at most `node`, and leaves `g1` and
    * `g3` adjacent. */
  lemma MergeShape(g: Graph, g1: Point, node: Point, g3: Point)
    requires Valid(g) && Adjacent(g, node, g1) && Adjacent(g, node, g3) && g1 != g3
    ensures var r := Merge(g, g1, node, g3);
      && Valid(r)
      && r.adj.Keys <= g.adj.Keys
      && g.adj.Keys - r.adj.Keys <= {node}
      && Adjacent(r, g1, g3)
  {
    RemoveEdgeEffect(g, g1, node);
    var a := RemoveEdge(g, g1, node);
    RemoveEdgeEffect(a, node, g3);
    var b := RemoveEdge(a, node, g3);
    RemoveNodeEffect(b, node);
    var c := RemoveNode(b, node);
    AddEdgeEffect(c, g1, g3, map[]);
  }

  /** The three removals keep only attribute entries `g` already had. */
  lemma RemovalsWithin(g: Graph, g1: Point, node: Point, g3: Point)
    requires g1 in g.adj
    ensures AttrsWithin(RemoveNode(RemoveEdge(RemoveEdge(g, g1, node), node, g3), node), g)
  {
  }

  /** A removal adds no `weight`: the shortcut keeps what an existing `g1`-`g3`
    * edge had, or nothing. */
  lemma MergeUnweighted(g: Graph, g1: Point, node: Point, g3: Point)
    requires Valid(g) && Adjacent(g, node, g1) && Adjacent(g, node, g3) && g1 != g3
    requires Unweighted(g)
    ensures Unweighted(Merge(g, g1, node, g3))
  {
    assert g1 in g.adj by {
      assert AdjSymmetric(g);
    }
    var c := RemoveNode(RemoveEdge(RemoveEdge(g, g1, node), node, g3), node);
    RemovalsWithin(g, g1, node, g3);
    WithinUnweighted(c, g);
    AddNothingUnweighted(c, g1, g3);
  }

  lemma WithinUnweighted(c: Graph, g: Graph)
    requires AttrsWithin(c, g) && Unweighted(g)
    ensures Unweighted(c)
  {
    forall x, y | (x, y) in c.attrs ensures "weight" !in c.attrs[(x, y)] {
      assert c.attrs[(x, y)] == g.attrs[(x, y)];
    }
  }

  /** `add_edge(u, v)` with no attributes keeps a graph free of `weight`. */
  lemma AddNothingUnweighted(c: Graph, u: Point, v: Point)
    requires Unweighted(c)
    ensures Unweighted(AddEdge(c, u, v, map[]))
  {
    var d := EdgeData(c, u, v);
    assert d + map[] == d;
    var r := AddEdge(c, u, v, map[]);
    assert r.attrs == c.attrs[(u, v) := d][(v, u) := d];
    forall x, y | (x, y) in r.attrs ensures "weight" !in r.attrs[(x, y)] {
      if (x, y) != (u, v) && (x, y) != (v, u) {
        assert r.attrs[(x, y)] == c.attrs[(x, y)];
      }
    }
  }

  /** One iteration of the legacy `simplify_graph` loop for candidate `node`.
    * `g1, g3 = graph.adj[node]` raises ValueError unless the node has exactly two
    * neighbours at that moment, and the angle's own errors propagate. */
  function LegacyStep(g: Graph, node: Point, epsilon: real, dist: Distance, acosDeg: real --> real): (r: Result<Graph, PyError>)
    requires Valid(g) && node in g.adj && AcosDomain(acosDeg)
    ensures |g.adj[node]| != 2 ==> r == Err(ValueError)
    ensures |g.adj[node]| == 2 && LegacyAngleOf(g.adj[node][0], node, g.adj[node][1], dist, acosDeg).Err? ==>
      r == Err(LegacyAngleOf(g.adj[node][0], node, g.adj[node][1], dist, acosDeg).error)
    ensures r.Ok? ==> Valid(r.value) && r.value.adj.Keys <= g.adj.Keys && g.adj.Keys - r.value.adj.Keys <= {node}
    ensures r.Ok? ==> |g.adj[node]| == 2
    ensures r.Ok? && r.value != g ==>
      Abs(180.0 - AngleOf(g.adj[node][0], node, g.adj[node][1], dist, acosDeg)) < epsilon
  {
    var neighbors := g.adj[node];
    if |neighbors| != 2 then Err(ValueError)
    else
      var g1 := neighbors[0];
      var g3 := neighbors[1];
      match LegacyAngleOf(g1, node, g3, dist, acosDeg)
      case Err(e) => Err(e)
      case Ok(angle) =>
        if Abs(180.0 - angle) < epsilon then
          MergeShape(g, g1, node, g3);
          Ok(Merge(g, g1, node, g3))
        else Ok(g)
  }

  /** A legacy step that does not raise adds no `weight` attribute. */
  lemma LegacyStepUnweighted(g: Graph, node: Point, epsilon: real, dist: Distance, acosDeg: real --> real)
    requires Valid(g) && node in g.adj && AcosDomain(acosDeg) && Unweighted(g)
    ensures var r := LegacyStep(g, node, epsilon, dist, acosDeg);
      r.Ok? ==> Unweighted(r.value)
  {
    var neighbors := g.adj[node];
    if |neighbors| == 2 {
      var g1 := neighbors[0];
      var g3 := neighbors[1];
      var a := LegacyAngleOf(g1, node, g3, dist, acosDeg);
      if a.Ok? && Abs(180.0 - a.value) < epsilon {
        MergeUnweighted(g, g1, node, g3);
      }
    }
  }

  /** The legacy loop over a candidate list fixed in advance; the first exception
    * ends it. */
  function LegacySimplifyAll(g: Graph, cands: seq<Point>, epsilon: real, dist: Distance, acosDeg: real --> real): Result<Graph, PyError>
    requires Valid(g) && AcosDomain(acosDeg) && NoDup(cands)
    requires forall x | x in cands :: x in g.adj
    decreases |cands|
  {
    if cands == [] then Ok(g)
    else
      NoDupTail(cands);
      match LegacyStep(g, cands[0], epsilon, dist, acosDeg)
      case Err(e) => Err(e)
      case Ok(g') => LegacySimplifyAll(g', cands[1..], epsilon, dist, acosDeg)
  }

  /** When the legacy loop finishes, the graph is valid and only candidates are gone. */
  lemma {:induction false} LegacySimplifyAllShape(g: Graph, cands: seq<Point>, epsilon: real, dist: Distance, acosDeg: real --> real)
    requires Valid(g) && AcosDomain(acosDeg) && NoDup(cands)
    requires forall x | x in cands :: x in g.adj
    ensures var r := LegacySimplifyAll(g, cands, epsilon, dist, acosDeg);
      r.Ok? ==>
        && Valid(r.value)
        && r.value.adj.Keys <= g.adj.Keys
        && (forall x | x in g.adj && x !in r.value.adj :: x in cands)
    decreases |cands|
  {
    if cands != [] {
      NoDupTail(cands);
      var s := LegacyStep(g, cands[0], epsilon, dist, acosDeg);
      if s.Ok? {
        var g' := s.value;
        LegacySimplifyAllShape(g', cands[1..], epsilon, dist, acosDeg);
        var r := LegacySimplifyAll(g', cands[1..], epsilon, dist, acosDeg);
        assert LegacySimplifyAll(g, cands, epsilon, dist, acosDeg) == r;
        if r.Ok? {
          RemovedCompose(g.adj.Keys, g'.adj.Keys, r.value.adj.Keys, cands);
        }
      }
    }
  }

  /** Removing only the first candidate, then only later ones, removes only candidates. */
  lemma RemovedCompose(a: set<Point>, b: set<Point>, c: set<Point>, cands: seq<Point>)
    requires cands != []
    requires b <= a && a - b <= {cands[0]}
    requires c <= b && forall x | x in b && x !in c :: x in cands[1..]
    ensures c <= a && forall x | x in a && x !in c :: x in cands
  {
    forall x | x in a && x !in c ensures x in cands {
      if x in b {
        assert x in cands[1..];
        var k :| 0 <= k < |cands[1..]| && cands[1..][k] == x;
        assert cands[k + 1] == x;
      } else {
        assert x in a - b;
        assert x == cands[0];
      }
    }
  }

  /** A legacy loop that finishes on a graph without `weight` attributes leaves
    * none: every edge of the result still weighs 1.0. */
  lemma {:induction false} LegacySimplifyAllUnweighted(g: Graph, cands: seq<Point>, epsilon: real, dist: Distance, acosDeg: real --> real)
    requires Valid(g) && AcosDomain(acosDeg) && NoDup(cands)
    requires forall x | x in cands :: x in g.adj
    requires Unweighted(g)
    ensures var r := LegacySimplifyAll(g, cands, epsilon, dist, acosDeg);
      r.Ok? ==> Unweighted(r.value)
    decreases |cands|
  {
    if cands != [] {
      NoDupTail(cands);
      var s := LegacyStep(g, cands[0], epsilon, dist, acosDeg);
      if s.Ok? {
        LegacyStepUnweighted(g, cands[0], epsilon, dist, acosDeg);
        LegacySimplifyAllUnweighted(s.value, cands[1..], epsilon, dist, acosDeg);
      }
    }
  }

  /** One iteration of the legacy loop keeps its invariants. */
  lemma LegacyLoopStep(g: Graph, cands: seq<Point>, i: nat, epsilon: real, dist: Distance, acosDeg: real --> real)
    requires Valid(g) && AcosDomain(acosDeg) && i < |cands| && NoDup(cands[i..])
    requires forall x | x in cands[i..] :: x in g.adj
    ensures var s := LegacyStep(g, cands[i], epsilon, dist, acosDeg);
      && NoDup(cands[i + 1..])
      && (s.Err? ==> LegacySimplifyAll(g, cands[i..], epsilon, dist, acosDeg) == Err(s.error))
      && (s.Ok? ==>
            && (forall x | x in cands[i + 1..] :: x in s.value.adj)
            && LegacySimplifyAll(g, cands[i..], epsilon, dist, acosDeg) == LegacySimplifyAll(s.value, cands[i + 1..], epsilon, dist, acosDeg))
  {
    NoDupTail(cands[i..]);
    assert cands[i..][1..] == cands[i + 1..];
  }

  /** The body of the legacy loop for one candidate, proved to perform one
    * `LegacyStep`. */
  method LegacySimplifyNode(graph: Graph, node: Point, epsilon: real, dist: Distance, acosDeg: real --> real) returns (r: Result<Graph, PyError>)
    requires Valid(graph) && node in graph.adj && AcosDomain(acosDeg)
    ensures r == LegacyStep(graph, node, epsilon, dist, acosDeg)
  {
    var neighbors := graph.adj[node];
    if |neighbors| != 2 {
      return Err(ValueError);
    }
    var g1, g3 := neighbors[0], neighbors[1];
    var angle := LegacyAngleOf(g1, node, g3, dist, acosDeg);
    if angle.Err? {
      return Err(angle.error);
    }
    var g := graph;
    if Abs(180.0 - angle.value) < epsilon {
      g := RemoveEdge(g, g1, node);
      g := RemoveEdge(g, node, g3);
      g := RemoveNode(g, node);
      g := AddEdge(g, g1, g3, map[]);
    }
    r := Ok(g);
  }

  /** `simplify_graph(graph, epsilon)` as written: the degree-2 candidates are
    * fixed first, then each is visited in turn until one raises. */
  method LegacySimplifyGraph(graph: Graph, epsilon: real, dist: Distance, acosDeg: real --> real) returns (r: Result<Graph, PyError>)
    requires Valid(graph) && AcosDomain(acosDeg)
    ensures r == LegacySimplifyAll(graph, Candidates(graph), epsilon, dist, acosDeg)
    ensures r.Ok? ==> Valid(r.value) && r.value.adj.Keys <= graph.adj.Keys
    ensures r.Ok? ==> forall x | x in graph.adj && x !in r.value.adj :: Degree(graph, x) == 2
    ensures r.Ok? && Unweighted(graph) ==> Unweighted(r.value)
  {
    var nodesDegree2 := Candidates(graph);
    var g := graph;
    var i := 0;
    while i < |nodesDegree2|
      invariant 0 <= i <= |nodesDegree2|
      invariant Valid(g)
      invariant forall x | x in nodesDegree2[i..] :: x in g.adj
      invariant NoDup(nodesDegree2[i..])
      invariant LegacySimplifyAll(g, nodesDegree2[i..], epsilon, dist, acosDeg) == LegacySimplifyAll(graph, nodesDegree2, epsilon, dist, acosDeg)
    {
      var node := nodesDegree2[i];
      LegacyLoopStep(g, nodesDegree2, i, epsilon, dist, acosDeg);
      var step := LegacySimplifyNode(g, node, epsilon, dist, acosDeg);
      if step.Err? {
        return Err(step.error);
      }
      g := step.value;
      i := i + 1;
    }
    assert nodesDegree2[i..] == [];
    r := Ok(g);
    LegacySimplifyAllShape(graph, nodesDegree2, epsilon, dist, acosDeg);
    if Unweighted(graph) {
      LegacySimplifyAllUnweighted(graph, nodesDegree2, epsilon, dist, acosDeg);
    }
  }
}
