/** The trail graph built by the web backend's `GraphService`: graph construction
  * from segments, removal of nearly collinear degree-2 nodes, and the nearest-node
  * lookup. Distances are the parameter `dist`; `acosDeg` stands for
  * `degrees(acos(x))` and is only defined on [-1, 1]. */
module GraphService {
  import opened Wrappers
  import opened Geo
  import opened NxGraph

  /** `degrees(acos(x))` is defined on the whole closed interval [-1, 1]. */
  ghost predicate AcosDomain(acosDeg: real --> real)
  {
    forall x | -1.0 <= x <= 1.0 :: acosDeg.requires(x)
  }

  /** The directed pairs joined by some segment, in either direction. */
  function EdgePairs(segs: seq<Segment>): set<(Point, Point)>
  {
    (set s | s in segs :: (s.0, s.1)) + (set s | s in segs :: (s.1, s.0))
  }

  /** The attribute dict of every edge is exactly `{'weight': w}`, where `w` is the
    * distance between its endpoints taken in one of the two directions. */
  ghost predicate WeightOnly(g: Graph, dist: Distance)
  {
    forall u, v | (u, v) in g.attrs :: g.attrs[(u, v)] == map["weight" := dist(u, v)] || g.attrs[(u, v)] == map["weight" := dist(v, u)]
  }

  /** Every edge's weight is the distance between its endpoints. */
  ghost predicate WeightsAreDistances(g: Graph, dist: Distance)
  {
    forall u, v | (u, v) in g.attrs :: g.attrs[(u, v)] == map["weight" := dist(u, v)]
  }

  lemma WeightOnlySymmetric(g: Graph, dist: Distance)
    requires WeightOnly(g, dist) && Symmetric(dist)
    ensures WeightsAreDistances(g, dist)
  {
  }

  lemma EdgePairsSnoc(segs: seq<Segment>, i: nat)
    requires i < |segs|
    ensures EdgePairs(segs[..i + 1]) == EdgePairs(segs[..i]) + {(segs[i].0, segs[i].1), (segs[i].1, segs[i].0)}
    ensures Endpoints(segs[..i + 1]) == Endpoints(segs[..i]) + {segs[i].0, segs[i].1}
  {
    PrefixStep(segs, i);
    EndpointsSnoc(segs[..i + 1]);
  }

  /** `make_graph`: one `add_edge(start, end, weight=dist(start, end))` per segment.
    * The nodes are exactly the endpoints, the edges exactly the unordered endpoint
    * pairs (a repeated pair, in either direction, gives one edge), and every edge
    * carries only its weight, the distance between its endpoints. */
  method MakeGraph(segs: seq<Segment>, dist: Distance) returns (g: Graph)
    ensures Valid(g)
    ensures g.adj.Keys == Endpoints(segs)
    ensures forall u, v :: Adjacent(g, u, v) <==> (u, v) in EdgePairs(segs)
    ensures WeightOnly(g, dist)
    ensures Symmetric(dist) ==> WeightsAreDistances(g, dist)
  {
    g := Empty();
    var i := 0;
    while i < |segs|
      invariant 0 <= i <= |segs|
      invariant Valid(g)
      invariant g.adj.Keys == Endpoints(segs[..i])
      invariant g.attrs.Keys == EdgePairs(segs[..i])
      invariant WeightOnly(g, dist)
    {
      var (startNode, endNode) := segs[i];
      MakeGraphStep(g, segs, i, dist);
      g := AddEdge(g, startNode, endNode, map["weight" := dist(startNode, endNode)]);
      i := i + 1;
    }
    assert segs[..i] == segs;
    forall u, v ensures Adjacent(g, u, v) <==> (u, v) in EdgePairs(segs) {
      assert Adjacent(g, u, v) <==> (u, v) in g.attrs;
    }
    if Symmetric(dist) {
      WeightOnlySymmetric(g, dist);
    }
  }

  /** One iteration of `make_graph` keeps the loop's invariants. */
  lemma MakeGraphStep(g: Graph, segs: seq<Segment>, i: nat, dist: Distance)
    requires i < |segs| && Valid(g)
    requires g.adj.Keys == Endpoints(segs[..i]) && g.attrs.Keys == EdgePairs(segs[..i]) && WeightOnly(g, dist)
    ensures var r := AddEdge(g, segs[i].0, segs[i].1, map["weight" := dist(segs[i].0, segs[i].1)]);
      && Valid(r)
      && r.adj.Keys == Endpoints(segs[..i + 1])
      && r.attrs.Keys == EdgePairs(segs[..i + 1])
      && WeightOnly(r, dist)
  {
    var (u, v) := segs[i];
    var upd := map["weight" := dist(u, v)];
    AddEdgeEffect(g, u, v, upd);
    EdgePairsSnoc(segs, i);
    AddWeightKeepsWeightOnly(g, u, v, dist);
  }

  /** Merging `{'weight': dist(u, v)}` into an edge keeps every dict weight-only. */
  lemma AddWeightKeepsWeightOnly(g: Graph, u: Point, v: Point, dist: Distance)
    requires Valid(g) && WeightOnly(g, dist)
    ensures WeightOnly(AddEdge(g, u, v, map["weight" := dist(u, v)]), dist)
  {
    var upd := map["weight" := dist(u, v)];
    var data := EdgeData(g, u, v);
    assert data + upd == upd;
    var r := AddEdge(g, u, v, upd);
    assert r.attrs == g.attrs[(u, v) := upd][(v, u) := upd];
    forall x, y | (x, y) in r.attrs
      ensures r.attrs[(x, y)] == map["weight" := dist(x, y)] || r.attrs[(x, y)] == map["weight" := dist(y, x)]
    {
      if (x, y) == (v, u) {
      } else if (x, y) == (u, v) {
      } else {
        assert r.attrs[(x, y)] == g.attrs[(x, y)];
      }
    }
  }

  /** Python's `max(-1.0, min(1.0, x))`. */
  function Clamp(x: real): (r: real)
    ensures -1.0 <= r <= 1.0
    ensures -1.0 <= x <= 1.0 ==> r == x
    ensures x < -1.0 ==> r == -1.0
    ensures x > 1.0 ==> r == 1.0
  {
    if x < -1.0 then -1.0 else if x > 1.0 then 1.0 else x
  }

  /** The law of cosines for the angle at the middle point, before clamping. */
  function CosineRule(d1: real, d2: real, d3: real): real
    requires d1 != 0.0 && d2 != 0.0
  {
    (d1 * d1 + d2 * d2 - d3 * d3) / (2.0 * d1 * d2)
  }

  /** `_angle_of(p1, p2, p3)`: 180 when either leg has length zero; otherwise the
    * angle whose cosine is the clamped law-of-cosines value. acos is never called
    * outside [-1, 1], so neither ValueError nor ZeroDivisionError can arise. */
  function AngleOf(p1: Point, p2: Point, p3: Point, dist: Distance, acosDeg: real --> real): (r: real)
    requires AcosDomain(acosDeg)
    ensures dist(p1, p2) == 0.0 || dist(p2, p3) == 0.0 ==> r == 180.0
    ensures dist(p1, p2) != 0.0 && dist(p2, p3) != 0.0 ==>
      exists c | -1.0 <= c <= 1.0 :: r == acosDeg(c)
  {
    var d1 := dist(p1, p2);
    var d2 := dist(p2, p3);
    var d3 := dist(p1, p3);
    if d1 == 0.0 || d2 == 0.0 then 180.0
    else acosDeg(Clamp(CosineRule(d1, d2, d3)))
  }

  /** When the law-of-cosines value is already a cosine, the clamp leaves it alone. */
  lemma AngleOfUnclamped(p1: Point, p2: Point, p3: Point, dist: Distance, acosDeg: real --> real)
    requires AcosDomain(acosDeg)
    requires dist(p1, p2) != 0.0 && dist(p2, p3) != 0.0
    requires -1.0 <= CosineRule(dist(p1, p2), dist(p2, p3), dist(p1, p3)) <= 1.0
    ensures AngleOf(p1, p2, p3, dist, acosDeg) == acosDeg(CosineRule(dist(p1, p2), dist(p2, p3), dist(p1, p3)))
  {
  }

  /** `[node for node in graph.nodes if graph.degree(node) == 2]`, over a node list. */
  function DegreeTwo(g: Graph, nodes: seq<Point>): (r: seq<Point>)
    requires forall x | x in nodes :: x in g.adj
    ensures forall x | x in r :: x in nodes && Degree(g, x) == 2
    ensures forall x | x in nodes && Degree(g, x) == 2 :: x in r
    ensures NoDup(nodes) ==> NoDup(r)
  {
    if nodes == [] then []
    else
      var rest := DegreeTwo(g, nodes[1..]);
      assert NoDup(nodes) ==> NoDup(nodes[1..]) && nodes[0] !in nodes[1..] by {
        if NoDup(nodes) {
          forall k | 0 <= k < |nodes[1..]| ensures nodes[1..][k] != nodes[0] {
            assert nodes[1..][k] == nodes[k + 1];
          }
          forall i, j | 0 <= i < j < |nodes[1..]| ensures nodes[1..][i] != nodes[1..][j] {
            assert nodes[1..][i] == nodes[i + 1] && nodes[1..][j] == nodes[j + 1];
          }
        }
      }
      if Degree(g, nodes[0]) == 2 then [nodes[0]] + rest else rest
  }

  /** The candidates of `simplify_graph`, computed once before any removal. */
  function Candidates(g: Graph): (r: seq<Point>)
    requires Valid(g)
    ensures forall x | x in r :: x in g.adj && Degree(g, x) == 2
    ensures forall x | x in g.adj && Degree(g, x) == 2 :: x in r
    ensures NoDup(r)
  {
    DegreeTwo(g, g.nodes)
  }

  /** Removing `node` between its neighbours `g1` and `g3`: both edges and the node
    * go, and `g1`-`g3` is added (or its attributes merged) with weight dist(g1, g3). */
  function Collapse(g: Graph, g1: Point, node: Point, g3: Point, dist: Distance): Graph
    requires Valid(g) && Adjacent(g, node, g1) && Adjacent(g, node, g3) && g1 != g3
  {
    var a := RemoveEdge(g, g1, node);
    var b := RemoveEdge(a, node, g3);
    var c := RemoveNode(b, node);
    AddEdge(c, g1, g3, map["weight" := dist(g1, g3)])
  }

  /** One removal deletes exactly `node` and its two edges and adds `g1`-`g3`
    * weighted dist(g1, g3); every other node, edge and attribute survives. */
  lemma CollapseEffect(g: Graph, g1: Point, node: Point, g3: Point, dist: Distance)
    requires Valid(g) && Adjacent(g, node, g1) && Adjacent(g, node, g3) && g1 != g3
    requires g1 != node && g3 != node
    ensures var r := Collapse(g, g1, node, g3, dist);
      && Valid(r)
      && r.nodes == Remove(g.nodes, node)
      && r.adj.Keys == g.adj.Keys - {node}
      && (forall x, y :: Adjacent(r, x, y) <==>
            (Adjacent(g, x, y) && x != node && y != node) || (x == g1 && y == g3) || (x == g3 && y == g1))
      && (forall x, y | (x, y) in r.attrs && !(x == g1 && y == g3) && !(x == g3 && y == g1) :: (x, y) in g.attrs && r.attrs[(x, y)] == g.attrs[(x, y)])
      && r.attrs[(g1, g3)] == EdgeData(g, g1, g3) + map["weight" := dist(g1, g3)]
  {
    CollapseShape(g, g1, node, g3, dist);
    CollapseAdjacency(g, g1, node, g3, dist);
    CollapseAttrs(g, g1, node, g3, dist);
  }

  lemma CollapseShape(g: Graph, g1: Point, node: Point, g3: Point, dist: Distance)
    requires Valid(g) && Adjacent(g, node, g1) && Adjacent(g, node, g3) && g1 != g3
    requires g1 != node && g3 != node
    ensures var r := Collapse(g, g1, node, g3, dist);
      && Valid(r)
      && r.nodes == Remove(g.nodes, node)
      && r.adj.Keys == g.adj.Keys - {node}
  {
    var c := RemoveNode(RemoveEdge(RemoveEdge(g, g1, node), node, g3), node);
    RemovalsShape(g, g1, node, g3);
    AddEdgeShape(c, g1, g3, map["weight" := dist(g1, g3)]);
  }

  /** The shape facts of `CollapseBeforeAdd` alone. */
  lemma RemovalsShape(g: Graph, g1: Point, node: Point, g3: Point)
    requires Valid(g) && Adjacent(g, node, g1) && Adjacent(g, node, g3) && g1 != g3
    requires g1 != node && g3 != node
    ensures var c := RemoveNode(RemoveEdge(RemoveEdge(g, g1, node), node, g3), node);
      && Valid(c) && c.nodes == Remove(g.nodes, node) && c.adj.Keys == g.adj.Keys - {node}
      && g1 in c.adj && g3 in c.adj
  {
    CollapseBeforeAdd(g, g1, node, g3);
  }

  /** Adding an edge between two existing nodes keeps the graph valid and its nodes. */
  lemma AddEdgeShape(c: Graph, u: Point, v: Point, upd: Attrs)
    requires Valid(c) && u in c.adj && v in c.adj
    ensures var r := AddEdge(c, u, v, upd);
      Valid(r) && r.nodes == c.nodes && r.adj.Keys == c.adj.Keys
  {
    AddEdgeEffect(c, u, v, upd);
  }

  lemma CollapseAdjacency(g: Graph, g1: Point, node: Point, g3: Point, dist: Distance)
    requires Valid(g) && Adjacent(g, node, g1) && Adjacent(g, node, g3) && g1 != g3
    requires g1 != node && g3 != node
    ensures var r := Collapse(g, g1, node, g3, dist);
      forall x, y :: Adjacent(r, x, y) <==>
        (Adjacent(g, x, y) && x != node && y != node) || (x == g1 && y == g3) || (x == g3 && y == g1)
  {
    var c := RemoveNode(RemoveEdge(RemoveEdge(g, g1, node), node, g3), node);
    CollapseBeforeAdd(g, g1, node, g3);
    AddEdgeEffect(c, g1, g3, map["weight" := dist(g1, g3)]);
  }

  lemma CollapseAttrs(g: Graph, g1: Point, node: Point, g3: Point, dist: Distance)
    requires Valid(g) && Adjacent(g, node, g1) && Adjacent(g, node, g3) && g1 != g3
    requires g1 != node && g3 != node
    ensures var r := Collapse(g, g1, node, g3, dist);
      && (forall x, y | (x, y) in r.attrs && !(x == g1 && y == g3) && !(x == g3 && y == g1) :: (x, y) in g.attrs && r.attrs[(x, y)] == g.attrs[(x, y)])
      && r.attrs[(g1, g3)] == EdgeData(g, g1, g3) + map["weight" := dist(g1, g3)]
  {
    var c := RemoveNode(RemoveEdge(RemoveEdge(g, g1, node), node, g3), node);
    RemovalsAttrs(g, g1, node, g3);
    AddEdgeAttrsOnly(c, g1, g3, map["weight" := dist(g1, g3)]);
  }

  /** The three removals of one collapse keep the other attribute entries as they are. */
  lemma RemovalsAttrs(g: Graph, g1: Point, node: Point, g3: Point)
    requires g1 in g.adj && g1 != node && g3 != node
    ensures var c := RemoveNode(RemoveEdge(RemoveEdge(g, g1, node), node, g3), node);
      AttrsWithin(c, g) && EdgeData(c, g1, g3) == EdgeData(g, g1, g3)
  {
  }

  /** The three removals of one collapse, before `g1`-`g3` is added. */
  lemma CollapseBeforeAdd(g: Graph, g1: Point, node: Point, g3: Point)
    requires Valid(g) && Adjacent(g, node, g1) && Adjacent(g, node, g3) && g1 != g3
    requires g1 != node && g3 != node
    ensures var c := RemoveNode(RemoveEdge(RemoveEdge(g, g1, node), node, g3), node);
      && Valid(c)
      && c.nodes == Remove(g.nodes, node)
      && c.adj.Keys == g.adj.Keys - {node}
      && g1 in c.adj && g3 in c.adj
      && (forall x, y :: Adjacent(c, x, y) <==> Adjacent(g, x, y) && x != node && y != node)
      && (forall x, y | (x, y) in c.attrs :: (x, y) in g.attrs && c.attrs[(x, y)] == g.attrs[(x, y)])
      && EdgeData(c, g1, g3) == EdgeData(g, g1, g3)
  {
    RemoveEdgeEffect(g, g1, node);
    var a := RemoveEdge(g, g1, node);
    RemoveEdgeEffect(a, node, g3);
    var b := RemoveEdge(a, node, g3);
    RemoveNodeEffect(b, node);
    var c := RemoveNode(b, node);
    assert (g1, g3) in c.attrs <==> (g1, g3) in g.attrs;
  }

  /** Any collapse, including the degenerate one where a neighbour is the node itself,
    * keeps the graph valid, removes at most `node`, and keeps every weight equal to
    * the distance between the endpoints when the distance is symmetric. */
  lemma CollapseValid(g: Graph, g1: Point, node: Point, g3: Point, dist: Distance)
    requires Valid(g) && Adjacent(g, node, g1) && Adjacent(g, node, g3) && g1 != g3
    ensures var r := Collapse(g, g1, node, g3, dist);
      && Valid(r)
      && r.adj.Keys <= g.adj.Keys
      && g.adj.Keys - r.adj.Keys <= {node}
  {
    RemoveEdgeEffect(g, g1, node);
    var a := RemoveEdge(g, g1, node);
    RemoveEdgeEffect(a, node, g3);
    var b := RemoveEdge(a, node, g3);
    RemoveNodeEffect(b, node);
    var c := RemoveNode(b, node);
    AddEdgeEffect(c, g1, g3, map["weight" := dist(g1, g3)]);
  }

  lemma CollapseWeights(g: Graph, g1: Point, node: Point, g3: Point, dist: Distance)
    requires Valid(g) && Adjacent(g, node, g1) && Adjacent(g, node, g3) && g1 != g3
    requires Symmetric(dist) && WeightsAreDistances(g, dist)
    ensures WeightsAreDistances(Collapse(g, g1, node, g3, dist), dist)
  {
    var a := RemoveEdge(g, g1, node);
    assert WeightsAreDistances(a, dist);
    var b := RemoveEdge(a, node, g3);
    assert WeightsAreDistances(b, dist);
    var c := RemoveNode(b, node);
    assert WeightsAreDistances(c, dist) by {
      forall x, y | (x, y) in c.attrs ensures c.attrs[(x, y)] == map["weight" := dist(x, y)] {
        assert c.attrs[(x, y)] == b.attrs[(x, y)];
      }
    }
    AddDistanceKeepsDistances(c, g1, g3, dist);
  }

  /** Merging `{'weight': dist(u, v)}` into an edge keeps every weight a distance. */
  lemma AddDistanceKeepsDistances(g: Graph, u: Point, v: Point, dist: Distance)
    requires Symmetric(dist) && WeightsAreDistances(g, dist)
    ensures WeightsAreDistances(AddEdge(g, u, v, map["weight" := dist(u, v)]), dist)
  {
    var upd := map["weight" := dist(u, v)];
    assert EdgeData(g, u, v) + upd == upd;
    assert upd == map["weight" := dist(v, u)];
    var r := AddEdge(g, u, v, upd);
    assert r.attrs == g.attrs[(u, v) := upd][(v, u) := upd];
  }

  /** One iteration of `simplify_graph` for candidate `node`: it is collapsed when it
    * still has exactly two neighbours and the angle they form at it is within
    * `epsilon` of a straight line; otherwise the graph is unchanged. */
  function SimplifyStep(g: Graph, node: Point, epsilon: real, dist: Distance, acosDeg: real --> real): (r: Graph)
    requires Valid(g) && node in g.adj && AcosDomain(acosDeg)
    ensures Valid(r)
    ensures r.adj.Keys <= g.adj.Keys && g.adj.Keys - r.adj.Keys <= {node}
    ensures r != g ==>
      (|g.adj[node]| == 2 && Abs(180.0 - AngleOf(g.adj[node][0], node, g.adj[node][1], dist, acosDeg)) < epsilon)
  {
    var neighbors := g.adj[node];
    if |neighbors| != 2 then g
    else
      var g1 := neighbors[0];
      var g3 := neighbors[1];
      if Abs(180.0 - AngleOf(g1, node, g3, dist, acosDeg)) < epsilon then
        CollapseValid(g, g1, node, g3, dist);
        Collapse(g, g1, node, g3, dist)
      else g
  }

  /** For a node without a self-loop the removal test is exact: the node disappears
    * if and only if it has two neighbours at an angle within `epsilon` of 180. */
  lemma SimplifyStepRemoves(g: Graph, node: Point, epsilon: real, dist: Distance, acosDeg: real --> real)
    requires Valid(g) && node in g.adj && AcosDomain(acosDeg)
    requires node !in g.adj[node]
    ensures var r := SimplifyStep(g, node, epsilon, dist, acosDeg);
      (node !in r.adj <==>
        (|g.adj[node]| == 2 && Abs(180.0 - AngleOf(g.adj[node][0], node, g.adj[node][1], dist, acosDeg)) < epsilon))
  {
    var neighbors := g.adj[node];
    if |neighbors| == 2 {
      var g1 := neighbors[0];
      var g3 := neighbors[1];
      if Abs(180.0 - AngleOf(g1, node, g3, dist, acosDeg)) < epsilon {
        CollapseShape(g, g1, node, g3, dist);
      }
    }
  }

  lemma SimplifyStepWeights(g: Graph, node: Point, epsilon: real, dist: Distance, acosDeg: real --> real)
    requires Valid(g) && node in g.adj && AcosDomain(acosDeg)
    requires Symmetric(dist) && WeightsAreDistances(g, dist)
    ensures WeightsAreDistances(SimplifyStep(g, node, epsilon, dist, acosDeg), dist)
  {
    var neighbors := g.adj[node];
    if |neighbors| == 2 {
      var g1 := neighbors[0];
      var g3 := neighbors[1];
      if Abs(180.0 - AngleOf(g1, node, g3, dist, acosDeg)) < epsilon {
        CollapseWeights(g, g1, node, g3, dist);
      }
    }
  }

  lemma NoDupTail<T>(s: seq<T>)
    requires NoDup(s) && s != []
    ensures NoDup(s[1..]) && s[0] !in s[1..]
  {
    forall k | 0 <= k < |s[1..]| ensures s[1..][k] != s[0] {
      assert s[1..][k] == s[k + 1];
    }
    forall i, j | 0 <= i < j < |s[1..]| ensures s[1..][i] != s[1..][j] {
      assert s[1..][i] == s[i + 1] && s[1..][j] == s[j + 1];
    }
  }

  /** The whole `simplify_graph` loop over a candidate list fixed in advance. */
  function SimplifyAll(g: Graph, cands: seq<Point>, epsilon: real, dist: Distance, acosDeg: real --> real): Graph
    requires Valid(g) && AcosDomain(acosDeg) && NoDup(cands)
    requires forall x | x in cands :: x in g.adj
    decreases |cands|
  {
    if cands == [] then g
    else
      NoDupTail(cands);
      SimplifyAll(SimplifyStep(g, cands[0], epsilon, dist, acosDeg), cands[1..], epsilon, dist, acosDeg)
  }

  /** Simplification keeps the graph valid and removes only nodes of the candidate list. */
  lemma {:induction false} SimplifyAllRemovesOnlyCandidates(g: Graph, cands: seq<Point>, epsilon: real, dist: Distance, acosDeg: real --> real)
    requires Valid(g) && AcosDomain(acosDeg) && NoDup(cands)
    requires forall x | x in cands :: x in g.adj
    ensures var r := SimplifyAll(g, cands, epsilon, dist, acosDeg);
      && Valid(r)
      && r.adj.Keys <= g.adj.Keys
      && (forall x | x in g.adj && x !in r.adj :: x in cands)
    decreases |cands|
  {
    if cands != [] {
      NoDupTail(cands);
      var g' := SimplifyStep(g, cands[0], epsilon, dist, acosDeg);
      SimplifyAllRemovesOnlyCandidates(g', cands[1..], epsilon, dist, acosDeg);
    }
  }

  /** With a symmetric distance, "every edge weighs the distance between its
    * endpoints" survives simplification, including for the new shortcut edges. */
  lemma {:induction false} SimplifyAllKeepsWeights(g: Graph, cands: seq<Point>, epsilon: real, dist: Distance, acosDeg: real --> real)
    requires Valid(g) && AcosDomain(acosDeg) && NoDup(cands)
    requires forall x | x in cands :: x in g.adj
    requires Symmetric(dist) && WeightsAreDistances(g, dist)
    ensures WeightsAreDistances(SimplifyAll(g, cands, epsilon, dist, acosDeg), dist)
    decreases |cands|
  {
    if cands != [] {
      NoDupTail(cands);
      SimplifyStepWeights(g, cands[0], epsilon, dist, acosDeg);
      var g' := SimplifyStep(g, cands[0], epsilon, dist, acosDeg);
      SimplifyAllKeepsWeights(g', cands[1..], epsilon, dist, acosDeg);
    }
  }

  /** One iteration of the `simplify_graph` loop keeps its invariants. */
  lemma SimplifyLoopStep(g: Graph, cands: seq<Point>, i: nat, epsilon: real, dist: Distance, acosDeg: real --> real)
    requires Valid(g) && AcosDomain(acosDeg) && i < |cands| && NoDup(cands[i..])
    requires forall x | x in cands[i..] :: x in g.adj
    ensures var g' := SimplifyStep(g, cands[i], epsilon, dist, acosDeg);
      && Valid(g')
      && NoDup(cands[i + 1..])
      && (forall x | x in cands[i + 1..] :: x in g'.adj)
      && SimplifyAll(g, cands[i..], epsilon, dist, acosDeg) == SimplifyAll(g', cands[i + 1..], epsilon, dist, acosDeg)
  {
    NoDupTail(cands[i..]);
    assert cands[i..][1..] == cands[i + 1..];
  }

  /** The body of the `for node in nodes_degree_2` loop, proved to perform one
    * `SimplifyStep`. */
  method SimplifyNode(graph: Graph, node: Point, epsilon: real, dist: Distance, acosDeg: real --> real) returns (g: Graph)
    requires Valid(graph) && node in graph.adj && AcosDomain(acosDeg)
    ensures g == SimplifyStep(graph, node, epsilon, dist, acosDeg)
  {
    g := graph;
      var neighbors := g.adj[node];
      if |neighbors| == 2 {
        var g1 := neighbors[0];
        var g3 := neighbors[1];
        var angle := AngleOf(g1, node, g3, dist, acosDeg);
        if Abs(180.0 - angle) < epsilon {
          g := RemoveEdge(g, g1, node);
          g := RemoveEdge(g, node, g3);
          g := RemoveNode(g, node);
          var weight := dist(g1, g3);
          g := AddEdge(g, g1, g3, map["weight" := weight]);
          assert g == Collapse(graph, g1, node, g3, dist);
        }
      }
  }

  /** `simplify_graph(graph, epsilon)`. The degree-2 candidates are fixed before any
    * removal; the result is the step-by-step fold over them, so only candidates can
    * disappear, and the graph stays valid with distance weights. */
  method SimplifyGraph(graph: Graph, epsilon: real, dist: Distance, acosDeg: real --> real) returns (g: Graph)
    requires Valid(graph) && AcosDomain(acosDeg)
    ensures g == SimplifyAll(graph, Candidates(graph), epsilon, dist, acosDeg)
    ensures Valid(g)
    ensures g.adj.Keys <= graph.adj.Keys
    ensures forall x | x in graph.adj && x !in g.adj :: Degree(graph, x) == 2
    ensures Symmetric(dist) && WeightsAreDistances(graph, dist) ==> WeightsAreDistances(g, dist)
  {
    var nodesDegree2 := Candidates(graph);
    g := graph;
    var i := 0;
    while i < |nodesDegree2|
      invariant 0 <= i <= |nodesDegree2|
      invariant Valid(g)
      invariant forall x | x in nodesDegree2[i..] :: x in g.adj
      invariant NoDup(nodesDegree2[i..])
      invariant SimplifyAll(g, nodesDegree2[i..], epsilon, dist, acosDeg) == SimplifyAll(graph, nodesDegree2, epsilon, dist, acosDeg)
    {
      var node := nodesDegree2[i];
      SimplifyLoopStep(g, nodesDegree2, i, epsilon, dist, acosDeg);
      g := SimplifyNode(g, node, epsilon, dist, acosDeg);
      i := i + 1;
    }
    assert nodesDegree2[i..] == [];
    SimplifyAllRemovesOnlyCandidates(graph, nodesDegree2, epsilon, dist, acosDeg);
    if Symmetric(dist) && WeightsAreDistances(graph, dist) {
      SimplifyAllKeepsWeights(graph, nodesDegree2, epsilon, dist, acosDeg);
    }
  }

  /** The node `find_closest_node` settles on after scanning `nodes`: the first one at
    * a strictly smaller distance than every node before it. */
  function ClosestNode(nodes: seq<Point>, target: Point, dist: Distance): Option<Point>
    decreases |nodes|
  {
    if |nodes| == 0 then None
    else
      var c := ClosestNode(nodes[..|nodes| - 1], target, dist);
      var x := nodes[|nodes| - 1];
      if c.None? || dist(target, x) < dist(target, c.value) then Some(x) else c
  }

  /** None exactly for no nodes; otherwise the first node, in iteration order, at the
    * smallest distance from `target` (a later node at the same distance does not
    * replace it, as the test is a strict `<`). */
  lemma {:induction false} ClosestNodeFirstMinimal(nodes: seq<Point>, target: Point, dist: Distance)
    ensures var c := ClosestNode(nodes, target, dist);
      && (c.None? <==> |nodes| == 0)
      && (c.Some? ==> exists k | 0 <= k < |nodes| ::
            && nodes[k] == c.value
            && (forall j | 0 <= j < |nodes| :: dist(target, nodes[k]) <= dist(target, nodes[j]))
            && (forall j | 0 <= j < k :: dist(target, nodes[j]) > dist(target, nodes[k])))
    decreases |nodes|
  {
    if |nodes| > 0 {
      var pre := nodes[..|nodes| - 1];
      ClosestNodeFirstMinimal(pre, target, dist);
      var c := ClosestNode(pre, target, dist);
      var x := nodes[|nodes| - 1];
      if c.None? || dist(target, x) < dist(target, c.value) {
        var k := |nodes| - 1;
        assert nodes[k] == x;
        forall j | 0 <= j < |nodes| ensures dist(target, x) <= dist(target, nodes[j]) {
          if j < k {
            assert nodes[j] == pre[j];
          }
        }
        forall j | 0 <= j < k ensures dist(target, nodes[j]) > dist(target, x) {
          assert nodes[j] == pre[j];
        }
      } else {
        var k :| 0 <= k < |pre| && pre[k] == c.value
          && (forall j | 0 <= j < |pre| :: dist(target, pre[k]) <= dist(target, pre[j]))
          && (forall j | 0 <= j < k :: dist(target, pre[j]) > dist(target, pre[k]));
        assert nodes[k] == c.value;
        forall j | 0 <= j < |nodes| ensures dist(target, nodes[k]) <= dist(target, nodes[j]) {
          if j < |pre| {
            assert nodes[j] == pre[j];
          }
        }
        forall j | 0 <= j < k ensures dist(target, nodes[j]) > dist(target, nodes[k]) {
          assert nodes[j] == pre[j];
        }
      }
    }
  }

  /** `find_closest_node`: scans the nodes in iteration order, keeping the first one
    * at the smallest distance so far. */
  method FindClosestNode(g: Graph, target: Point, dist: Distance) returns (closest: Option<Point>)
    ensures closest == ClosestNode(g.nodes, target, dist)
  {
    closest := None;
    var minDist: real := 0.0;
    var i := 0;
    while i < |g.nodes|
      invariant 0 <= i <= |g.nodes|
      invariant closest == ClosestNode(g.nodes[..i], target, dist)
      invariant closest.Some? ==> minDist == dist(target, closest.value)
    {
      assert g.nodes[..i + 1][..i] == g.nodes[..i];
      var d := dist(target, g.nodes[i]);
      if closest.None? || d < minDist {
        minDist := d;
        closest := Some(g.nodes[i]);
      }
      i := i + 1;
    }
    assert g.nodes[..i] == g.nodes;
  }
}
