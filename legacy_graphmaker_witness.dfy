/** Three trail points on a straight line, joined as a triangle, on which the
  * legacy `simplify_graph` raises ValueError.
  *
  * The segments are West-Middle, Middle-East and West-East; every node has degree
  * 2. West is kept (its angle is 0), Middle is removed (its angle is 180) and its
  * shortcut West-East merges into the existing edge, so East is left with one
  * neighbour and `g1, g3 = graph.adj[East]` cannot unpack. The web backend's
  * version skips such a node and finishes. */
module LegacyGraphWitness {
  import opened Wrappers
  import opened Geo
  import opened NxGraph
  import opened GraphService
  import opened LegacyGraphmaker
  import W = AStarWitness

  const West := Point(0.0, 0.0)
  const Middle := Point(0.0, 1.0)
  const East := Point(0.0, 2.0)

  const Segs: seq<Segment> := [(West, Middle), (Middle, East), (West, East)]

  /** A stand-in for `degrees(acos(x))`, exact at -1, 0 and 1. */
  function Arc(x: real): real
  {
    90.0 - 90.0 * x
  }

  /** The part of the built graph the legacy loop looks at: the node order and the
    * neighbour lists in insertion order. */
  ghost predicate TriangleFacts(g: Graph)
  {
    && Valid(g)
    && g.nodes == [West, Middle, East]
    && West in g.adj && Middle in g.adj && East in g.adj
    && g.adj[West] == [Middle, East] && g.adj[Middle] == [West, East] && g.adj[East] == [Middle, West]
  }

  lemma FirstEdge()
    ensures var g := Built(Segs[..1], W.L1);
      && g.nodes == [West, Middle] && g.adj.Keys == {West, Middle}
      && g.adj[West] == [Middle] && g.adj[Middle] == [West]
  {
    assert Segs[..1][..0] == [];
    assert Segs[..1][0] == (West, Middle);
  }

  lemma SecondEdge()
    ensures var g := Built(Segs[..2], W.L1);
      && g.nodes == [West, Middle, East] && g.adj.Keys == {West, Middle, East}
      && g.adj[West] == [Middle] && g.adj[Middle] == [West, East] && g.adj[East] == [Middle]
  {
    FirstEdge();
    assert Segs[..2][..1] == Segs[..1];
    assert Segs[..2][1] == (Middle, East);
  }

  /** Adding West-East to the first two edges. */
  lemma AddThird(g: Graph, upd: Attrs)
    requires g.nodes == [West, Middle, East] && g.adj.Keys == {West, Middle, East}
    requires g.adj[West] == [Middle] && g.adj[Middle] == [West, East] && g.adj[East] == [Middle]
    ensures var r := AddEdge(g, West, East, upd);
      && r.nodes == [West, Middle, East]
      && West in r.adj && Middle in r.adj && East in r.adj
      && r.adj[West] == [Middle, East] && r.adj[Middle] == [West, East] && r.adj[East] == [Middle, West]
  {
    assert East !in g.adj[West] && West !in g.adj[East];
  }

  lemma ThirdEdge()
    ensures var g := Built(Segs, W.L1);
      && g.nodes == [West, Middle, East]
      && West in g.adj && Middle in g.adj && East in g.adj
      && g.adj[West] == [Middle, East] && g.adj[Middle] == [West, East] && g.adj[East] == [Middle, West]
  {
    SecondEdge();
    assert Segs[..|Segs| - 1] == Segs[..2];
    assert Segs[|Segs| - 1] == (West, East);
    AddThird(Built(Segs[..2], W.L1), map["wheight" := W.L1(West, East)]);
  }

  /** The graph `make_graph` builds from the three segments. */
  lemma TriangleBuilt()
    ensures TriangleFacts(Built(Segs, W.L1))
  {
    ThirdEdge();
    BuiltShape(Segs, W.L1);
  }

  lemma TriangleCandidates(g: Graph)
    requires TriangleFacts(g)
    ensures Candidates(g) == [West, Middle, East]
  {
    assert Degree(g, West) == 2 && Degree(g, Middle) == 2 && Degree(g, East) == 2;
    var ns := g.nodes;
    assert ns[1..] == [Middle, East] && ns[1..][1..] == [East] && ns[1..][1..][1..] == [];
    assert DegreeTwo(g, [East]) == [East];
    assert DegreeTwo(g, [Middle, East]) == [Middle, East];
    assert DegreeTwo(g, ns) == [West, Middle, East];
  }

  /** `_angle_of` on legs of known length whose law-of-cosines value is `c`. */
  lemma AngleOfSides(p1: Point, p2: Point, p3: Point, dist: Distance, acosDeg: real --> real, d1: real, d2: real, d3: real, c: real)
    requires AcosDomain(acosDeg)
    requires dist(p1, p2) == d1 && dist(p2, p3) == d2 && dist(p1, p3) == d3
    requires d1 != 0.0 && d2 != 0.0 && CosineRule(d1, d2, d3) == c && -1.0 <= c <= 1.0
    ensures LegacyAngleOf(p1, p2, p3, dist, acosDeg) == Ok(acosDeg(c))
  {
  }

  lemma Cosines()
    ensures CosineRule(1.0, 2.0, 1.0) == 1.0
    ensures CosineRule(1.0, 1.0, 2.0) == -1.0
  {
  }

  /** The leg lengths the L1 distance gives. */
  ghost predicate Lengths(dist: Distance)
  {
    && dist(Middle, West) == 1.0 && dist(West, Middle) == 1.0
    && dist(West, East) == 2.0 && dist(Middle, East) == 1.0
  }

  /** The arcs of the two cosines that occur. */
  ghost predicate Arcs(acosDeg: real --> real)
  {
    AcosDomain(acosDeg) && acosDeg(1.0) == 0.0 && acosDeg(-1.0) == 180.0
  }

  ghost predicate Measures(dist: Distance, acosDeg: real --> real)
  {
    Lengths(dist) && Arcs(acosDeg)
  }

  lemma L1Lengths()
    ensures Lengths(W.L1)
  {
    L1MiddleWest();
    L1WestMiddle();
    L1WestEast();
    L1MiddleEast();
  }

  lemma L1MiddleWest()
    ensures W.L1(Middle, West) == 1.0
  {
  }

  lemma L1WestMiddle()
    ensures W.L1(West, Middle) == 1.0
  {
  }

  lemma L1WestEast()
    ensures W.L1(West, East) == 2.0
  {
  }

  lemma L1MiddleEast()
    ensures W.L1(Middle, East) == 1.0
  {
  }

  lemma ArcArcs()
    ensures Arcs(Arc)
  {
  }

  /** At West the neighbours Middle and East lie on the same side: angle 0. */
  lemma WestAngle(dist: Distance, acosDeg: real --> real)
    requires Measures(dist, acosDeg)
    ensures LegacyAngleOf(Middle, West, East, dist, acosDeg) == Ok(0.0)
  {
    assert dist(Middle, West) == 1.0 && dist(West, East) == 2.0 && dist(Middle, East) == 1.0;
    assert CosineRule(1.0, 2.0, 1.0) == 1.0 by {
      Cosines();
    }
    AngleOfSides(Middle, West, East, dist, acosDeg, 1.0, 2.0, 1.0, 1.0);
    assert acosDeg(1.0) == 0.0;
  }

  /** At Middle the neighbours lie opposite: angle 180. */
  lemma MiddleAngle(dist: Distance, acosDeg: real --> real)
    requires Measures(dist, acosDeg)
    ensures LegacyAngleOf(West, Middle, East, dist, acosDeg) == Ok(180.0)
  {
    assert dist(West, Middle) == 1.0 && dist(Middle, East) == 1.0 && dist(West, East) == 2.0;
    assert CosineRule(1.0, 1.0, 2.0) == -1.0 by {
      Cosines();
    }
    AngleOfSides(West, Middle, East, dist, acosDeg, 1.0, 1.0, 2.0, -1.0);
    assert acosDeg(-1.0) == 180.0;
  }

  /** After Middle is removed, East keeps West as its only neighbour. */
  lemma EastAfterMerge(g: Graph)
    requires TriangleFacts(g)
    ensures East in Merge(g, West, Middle, East).adj && Merge(g, West, Middle, East).adj[East] == [West]
  {
    var a := RemoveEdge(g, West, Middle);
    assert a.adj[East] == [Middle, West];
    var b := RemoveEdge(a, Middle, East);
    assert b.adj[East] == [West];
    var c := RemoveNode(b, Middle);
    assert c.adj[East] == [West] && c.adj[West] == [East];
    assert West in c.adj[East] && East in c.adj[West];
  }

  /** The legacy loop raises ValueError at East. */
  lemma RaisesOnTriangle(g: Graph, dist: Distance, acosDeg: real --> real)
    requires TriangleFacts(g) && Measures(dist, acosDeg)
    ensures LegacySimplifyAll(g, Candidates(g), 1.0, dist, acosDeg) == Err(ValueError)
  {
    TriangleCandidates(g);
    WestAngle(dist, acosDeg);
    MiddleAngle(dist, acosDeg);
    assert LegacyStep(g, West, 1.0, dist, acosDeg) == Ok(g);
    var m := Merge(g, West, Middle, East);
    assert LegacyStep(g, Middle, 1.0, dist, acosDeg) == Ok(m);
    EastAfterMerge(g);
    var cands := [West, Middle, East];
    assert cands[1..] == [Middle, East] && cands[1..][1..] == [East];
    assert LegacySimplifyAll(g, cands, 1.0, dist, acosDeg) == LegacySimplifyAll(g, cands[1..], 1.0, dist, acosDeg);
    assert LegacySimplifyAll(g, cands[1..], 1.0, dist, acosDeg) == LegacySimplifyAll(m, cands[1..][1..], 1.0, dist, acosDeg);
  }

  /** Every node of the triangle has degree 2. */
  lemma AllDegreeTwo(g: Graph)
    requires TriangleFacts(g)
    ensures forall x | x in g.adj :: Degree(g, x) == 2
  {
    assert g.adj.Keys == {West, Middle, East};
  }

  /** Any graph with the triangle's shape makes the legacy loop raise under the L1
    * distance. */
  lemma RaisesUnderL1(t: Graph)
    requires TriangleFacts(t)
    ensures Valid(t)
    ensures forall x | x in t.adj :: Degree(t, x) == 2
    ensures LegacySimplifyAll(t, Candidates(t), 1.0, W.L1, Arc) == Err(ValueError)
  {
    AllDegreeTwo(t);
    L1Lengths();
    ArcArcs();
    RaisesOnTriangle(t, W.L1, Arc);
  }

  /** `simplify_graph(make_graph(segments), 1.0)` as written raises ValueError on
    * the triangle, although the distance is a metric and every node has degree 2. */
  lemma LegacyTriangleRaises()
    ensures Metric(W.L1)
    ensures var t := Built(Segs, W.L1);
      && Valid(t)
      && (forall x | x in t.adj :: Degree(t, x) == 2)
      && LegacySimplifyAll(t, Candidates(t), 1.0, W.L1, Arc) == Err(ValueError)
  {
    W.L1IsMetric();
    TriangleBuilt();
    RaisesUnderL1(Built(Segs, W.L1));
  }
}
