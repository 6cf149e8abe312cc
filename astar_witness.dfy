/** A six-node trail graph on which `_astar_search` as written returns a route that is
  * not the shortest.
  *
  * Distances and the heuristic are the L1 distance, a metric, and every weight is
  * the distance between the edge's endpoints, as `make_graph` stores it. When the
  * search finds a cheaper way to a node that already has an entry in the heap, the
  * source only lowers the node's g-score and leaves its old, larger key in the heap:
  * the node `A` keeps key 21 although its cost drops to 6, the goal is popped
  * first with cost 15 along `Start, C, D, Goal`, and the walk `Start, B, A, Goal`
  * costs 13. Pushing a fresh entry on every improvement returns 13. */
module AStarWitness {
  import opened Geo
  import opened NxGraph
  import opened GraphService
  import opened AStar
  import opened AStarCorrectness
  import opened AStarOptimality

  const Start := Point(4.0, 4.0)
  const A := Point(0.0, 4.0)
  const B := Point(0.0, 3.0)
  const C := Point(5.0, 0.0)
  const D := Point(1.0, 0.0)
  const Goal := Point(5.0, 2.0)

  /** The L1 distance between two points. */
  function L1(p: Point, q: Point): real
  {
    Abs(p.lat - q.lat) + Abs(p.lon - q.lon)
  }

  lemma L1IsMetric()
    ensures Metric(L1)
  {
    forall p, q, r
      ensures L1(p, r) <= L1(p, q) + L1(q, r)
    {
      AbsTriangle(p.lat, q.lat, r.lat);
      AbsTriangle(p.lon, q.lon, r.lon);
    }
  }

  lemma AbsTriangle(x: real, y: real, z: real)
    ensures Abs(x - z) <= Abs(x - y) + Abs(y - z)
  {
  }

  function Weighted(u: Point, v: Point): Attrs
  {
    map["weight" := L1(u, v)]
  }

  /** Both directions of the segments Start-B, Start-C, A-B, A-C, A-Goal, C-D and D-Goal. */
  const Links: set<(Point, Point)> := {
    (Start, B), (B, Start), (Start, C), (C, Start), (A, B), (B, A), (A, C), (C, A),
    (A, Goal), (Goal, A), (C, D), (D, C), (D, Goal), (Goal, D)}

  /** The graph `make_graph` builds from those segments, in that order. */
  const Trails := Graph(
    [Start, B, C, A, Goal, D],
    map[Start := [B, C], B := [Start, A], C := [Start, A, D], A := [B, C, Goal], Goal := [A, D], D := [C, Goal]],
    map e | e in Links :: Weighted(e.0, e.1))

  /** The graph is a valid networkx graph whose weights are the distances, and the
    * distance is a metric: every assumption of `SearchOptimalOnMetricGraph` holds. */
  lemma TrailsMeetAssumptions()
    ensures Valid(Trails) && WeightsAreDistances(Trails, L1) && Metric(L1)
    ensures Searchable(Trails) && NonNegWeights(Trails) && Consistent(Trails, Goal, L1)
  {
    L1IsMetric();
    TrailsNodes();
    TrailsDistinct();
    TrailsSymmetric();
    TrailsAttrs();
    TrailsWeights();
    ValidSearchable(Trails);
    MetricWeightsConsistent(Trails, Goal, L1);
  }

  lemma TrailsSearchable()
    ensures Searchable(Trails)
  {
    TrailsSymmetric();
    EdgesHaveAttrs();
  }

  lemma TrailsNodes()
    ensures NodesAgree(Trails)
  {
    assert Trails.adj.Keys == {Start, B, C, A, Goal, D};
  }

  lemma TrailsDistinct()
    ensures NeighboursDistinct(Trails)
  {
    forall u | u in Trails.adj
      ensures NoDup(Trails.adj[u])
    {
    }
  }

  lemma TrailsSymmetric()
    ensures AdjSymmetric(Trails)
  {
    EdgesHaveAttrs();
    LinksSymmetric();
    AttrsAreEdges();
  }

  lemma LinksSymmetric()
    ensures forall u, v | (u, v) in Links :: (v, u) in Links
  {
  }

  lemma TrailsAttrs()
    ensures AttrsOnEdges(Trails) && AttrsShared(Trails)
  {
    AttrsAreEdges();
    EdgesHaveAttrs();
    forall u, v | (u, v) in Trails.attrs && (v, u) in Trails.attrs
      ensures Trails.attrs[(v, u)] == Trails.attrs[(u, v)]
    {
      assert L1(u, v) == L1(v, u);
    }
  }

  lemma AttrsAreEdges()
    ensures forall u, v | (u, v) in Trails.attrs :: u in Trails.adj && v in Trails.adj[u]
  {
    forall u, v | (u, v) in Links
      ensures u in Trails.adj && v in Trails.adj[u]
    {
    }
  }

  lemma EdgesHaveAttrs()
    ensures forall u, v | u in Trails.adj && v in Trails.adj[u] :: (u, v) in Trails.attrs
  {
    forall u, v | u in Trails.adj && v in Trails.adj[u]
      ensures (u, v) in Links
    {
    }
  }

  lemma TrailsWeights()
    ensures WeightsAreDistances(Trails, L1)
  {
    forall u, v | (u, v) in Trails.attrs
      ensures Trails.attrs[(u, v)] == map["weight" := L1(u, v)]
    {
      assert (u, v) in Links;
    }
  }

  // ---------------------------------------------------------------------------
  // The trace of the search from Start to Goal
  // ---------------------------------------------------------------------------

  /** Every edge weighs the L1 distance between its endpoints. */
  lemma WeightIsL1(u: Point, v: Point)
    requires (u, v) in Links
    ensures (u, v) in Trails.attrs && Weight(Trails, u, v) == L1(u, v)
  {
  }

  /** What the search sees of the graph along its run: the neighbour lists in
    * insertion order and the weights of the edges it relaxes. */
  ghost predicate TraceFacts(gr: Graph)
  {
    && Searchable(gr) && Start in gr.adj && Goal in gr.adj
    && A in gr.adj && B in gr.adj && C in gr.adj && D in gr.adj
    && gr.adj[Start] == [B, C] && gr.adj[B] == [Start, A] && gr.adj[C] == [Start, A, D]
    && gr.adj[A] == [B, C, Goal] && gr.adj[D] == [C, Goal]
    && (Start, B) in gr.attrs && Weight(gr, Start, B) == 5.0
    && (Start, C) in gr.attrs && Weight(gr, Start, C) == 5.0
    && (C, A) in gr.attrs && Weight(gr, C, A) == 9.0
    && (C, D) in gr.attrs && Weight(gr, C, D) == 4.0
    && (B, A) in gr.attrs && Weight(gr, B, A) == 1.0
    && (D, Goal) in gr.attrs && Weight(gr, D, Goal) == 6.0
    && (A, Goal) in gr.attrs && Weight(gr, A, Goal) == 7.0
  }

  lemma TrailsTraceFacts()
    ensures TraceFacts(Trails)
  {
    TrailsSearchable();
    WeightIsL1(Start, B);
    WeightIsL1(Start, C);
    WeightIsL1(C, A);
    WeightIsL1(C, D);
    WeightIsL1(B, A);
    WeightIsL1(D, Goal);
    WeightIsL1(A, Goal);
  }

  // ---------------------------------------------------------------------------
  // The trace of the search from Start to Goal
  // ---------------------------------------------------------------------------

  /** The state after closing Start: B and C are queued with keys 11 and 7. */
  const S1 := State([Entry(11.0, 1, B), Entry(7.0, 2, C)], 2,
    map[B := Start, C := Start], map[Start := 0.0, B := 5.0, C := 5.0],
    map[Start := 3.0, B := 11.0, C := 7.0], [Start], {B, C})

  /** After closing C: A is reached through C with cost 14 and key 21, D with cost 9. */
  const S2 := State([Entry(11.0, 1, B), Entry(21.0, 3, A), Entry(15.0, 4, D)], 4,
    map[B := Start, C := Start, A := C, D := C], map[Start := 0.0, B := 5.0, C := 5.0, A := 14.0, D := 9.0],
    map[Start := 3.0, B := 11.0, C := 7.0, A := 21.0, D := 15.0], [Start, C], {B, A, D})

  /** After closing B as written: A's cost drops to 6 but its entry keeps key 21. */
  const Written3 := State([Entry(21.0, 3, A), Entry(15.0, 4, D)], 4,
    map[B := Start, C := Start, A := B, D := C], map[Start := 0.0, B := 5.0, C := 5.0, A := 6.0, D := 9.0],
    map[Start := 3.0, B := 11.0, C := 7.0, A := 13.0, D := 15.0], [Start, C, B], {A, D})

  /** After closing D as written: Goal is reached through D with cost 15. */
  const Written4 := State([Entry(21.0, 3, A), Entry(15.0, 5, Goal)], 5,
    map[B := Start, C := Start, A := B, D := C, Goal := D],
    map[Start := 0.0, B := 5.0, C := 5.0, A := 6.0, D := 9.0, Goal := 15.0],
    map[Start := 3.0, B := 11.0, C := 7.0, A := 13.0, D := 15.0, Goal := 15.0], [Start, C, B, D], {A, Goal})

  /** After closing B with a push on every improvement: A is queued again with key 13. */
  const Fixed3 := State([Entry(21.0, 3, A), Entry(15.0, 4, D), Entry(13.0, 5, A)], 5,
    map[B := Start, C := Start, A := B, D := C], map[Start := 0.0, B := 5.0, C := 5.0, A := 6.0, D := 9.0],
    map[Start := 3.0, B := 11.0, C := 7.0, A := 13.0, D := 15.0], [Start, C, B], {A, D})

  /** After closing A: Goal is reached through A with cost 13. */
  const Fixed4 := State([Entry(21.0, 3, A), Entry(15.0, 4, D), Entry(13.0, 6, Goal)], 6,
    map[B := Start, C := Start, A := B, D := C, Goal := A],
    map[Start := 0.0, B := 5.0, C := 5.0, A := 6.0, D := 9.0, Goal := 13.0],
    map[Start := 3.0, B := 11.0, C := 7.0, A := 13.0, D := 15.0, Goal := 13.0], [Start, C, B, A], {D, Goal})

  // --- one neighbour visit, by case -------------------------------------------

  /** A neighbour that is closed is skipped. */
  lemma VisitClosed(gr: Graph, dist: Distance, rule: PushRule, current: Point, nb: Point, s: State)
    requires Searchable(gr) && current in s.g && Adjacent(gr, current, nb) && nb in s.closed
    ensures Visit(gr, Goal, dist, rule, current, nb, s) == s
  {
  }

  /** A neighbour reached for the first time, or more cheaply, gets a fresh entry when
    * the rule pushes it. */
  lemma VisitPush(gr: Graph, dist: Distance, rule: PushRule, current: Point, nb: Point, s: State, w: real)
    requires Searchable(gr) && current in s.g && Adjacent(gr, current, nb) && nb !in s.closed
    requires Weight(gr, current, nb) == w
    requires nb !in s.g || s.g[current] + w < s.g[nb]
    requires rule == OnEveryImprovement || nb !in s.open
    ensures var t := s.g[current] + w;
      Visit(gr, Goal, dist, rule, current, nb, s)
        == State(s.heap + [Entry(t + dist(nb, Goal), s.counter + 1, nb)], s.counter + 1,
                 s.cameFrom[nb := current], s.g[nb := t], s.f[nb := t + dist(nb, Goal)], s.closed, s.open + {nb})
  {
  }

  /** As written, a cheaper way to a queued neighbour only updates its scores. */
  lemma VisitNoPush(gr: Graph, dist: Distance, current: Point, nb: Point, s: State, w: real)
    requires Searchable(gr) && current in s.g && Adjacent(gr, current, nb) && nb !in s.closed
    requires Weight(gr, current, nb) == w
    requires nb in s.g && s.g[current] + w < s.g[nb] && nb in s.open
    ensures var t := s.g[current] + w;
      Visit(gr, Goal, dist, OnlyIfNotQueued, current, nb, s)
        == s.(cameFrom := s.cameFrom[nb := current], g := s.g[nb := t], f := s.f[nb := t + dist(nb, Goal)])
  {
  }

  /** The first iteration closes Start, under either push rule. */
  lemma CloseStart(gr: Graph, rule: PushRule)
    requires TraceFacts(gr)
    ensures Wf(gr, Init(Start, Goal, L1)) && Step(gr, Goal, L1, rule, Init(Start, Goal, L1)) == Continue(S1)
  {
    var s0 := Init(Start, Goal, L1);
    assert Wf(gr, s0) by {
      assert s0.heap[0] == Entry(0.0, 0, Start);
    }
    assert MinIndex(s0.heap) == 0;
    assert L1(Start, Goal) == 3.0;
    var p := State([], 0, map[], map[Start := 0.0], map[Start := 3.0], [], {});
    assert RemoveAt(s0.heap, 0) == [];
    assert s0.open - {Start} == {};
    assert s0.(heap := [], open := {}) == p;
    assert Pop(s0) == (Start, p);
    var u := p.(closed := [Start]);
    assert p.(closed := p.closed + [Start]) == u;
    RelaxStart(gr, rule, u);
    assert Expand(gr, Goal, L1, rule, Start, p) == S1;
  }

  lemma RelaxStart(gr: Graph, rule: PushRule, u: State)
    requires TraceFacts(gr)
    requires u == State([], 0, map[], map[Start := 0.0], map[Start := 3.0], [Start], {})
    ensures RelaxFrom(gr, Goal, L1, rule, Start, 0, u) == S1
  {
    VisitPush(gr, L1, rule, Start, B, u, 5.0);
    var v1 := Visit(gr, Goal, L1, rule, Start, B, u);
    assert L1(B, Goal) == 6.0;
    VisitPush(gr, L1, rule, Start, C, v1, 5.0);
    assert L1(C, Goal) == 2.0;
    assert Visit(gr, Goal, L1, rule, Start, C, v1) == S1;
    assert RelaxFrom(gr, Goal, L1, rule, Start, 2, S1) == S1;
    assert RelaxFrom(gr, Goal, L1, rule, Start, 1, v1) == S1;
  }

  /** The second iteration closes C, under either push rule. */
  lemma CloseC(gr: Graph, rule: PushRule)
    requires TraceFacts(gr) && Wf(gr, S1)
    ensures Step(gr, Goal, L1, rule, S1) == Continue(S2)
  {
    assert MinIndex(S1.heap) == 1;
    var p := S1.(heap := [Entry(11.0, 1, B)], open := {B});
    assert RemoveAt(S1.heap, 1) == [Entry(11.0, 1, B)];
    assert S1.open - {C} == {B};
    assert Pop(S1) == (C, p);
    var u := p.(closed := [Start, C]);
    assert p.(closed := p.closed + [C]) == u;
    RelaxC(gr, rule, u);
    assert Expand(gr, Goal, L1, rule, C, p) == S2;
  }

  lemma RelaxC(gr: Graph, rule: PushRule, u: State)
    requires TraceFacts(gr)
    requires u == S1.(heap := [Entry(11.0, 1, B)], open := {B}, closed := [Start, C])
    ensures RelaxFrom(gr, Goal, L1, rule, C, 0, u) == S2
  {
    VisitClosed(gr, L1, rule, C, Start, u);
    VisitPush(gr, L1, rule, C, A, u, 9.0);
    var v := Visit(gr, Goal, L1, rule, C, A, u);
    assert L1(A, Goal) == 7.0;
    VisitPush(gr, L1, rule, C, D, v, 4.0);
    assert L1(D, Goal) == 6.0;
    assert v.open + {D} == {B, A, D};
    assert Visit(gr, Goal, L1, rule, C, D, v) == S2;
    assert RelaxFrom(gr, Goal, L1, rule, C, 3, S2) == S2;
    assert RelaxFrom(gr, Goal, L1, rule, C, 2, v) == S2;
    assert RelaxFrom(gr, Goal, L1, rule, C, 1, u) == S2;
  }

  /** Popping B, the third iteration. */
  lemma PopB(u: State)
    requires u == S2.(heap := [Entry(21.0, 3, A), Entry(15.0, 4, D)], open := {A, D}, closed := [Start, C, B])
    ensures MinIndex(S2.heap) == 0 && Pop(S2).0 == B && Pop(S2).1.(closed := Pop(S2).1.closed + [B]) == u
  {
    assert MinIndex(S2.heap) == 0;
    assert RemoveAt(S2.heap, 0) == [Entry(21.0, 3, A), Entry(15.0, 4, D)];
    assert S2.open - {B} == {A, D};
  }

  /** As written, closing B lowers A's g-score to 6 but pushes nothing. */
  lemma CloseBWritten(gr: Graph)
    requires TraceFacts(gr) && Wf(gr, S2)
    ensures Step(gr, Goal, L1, OnlyIfNotQueued, S2) == Continue(Written3)
  {
    var u := S2.(heap := [Entry(21.0, 3, A), Entry(15.0, 4, D)], open := {A, D}, closed := [Start, C, B]);
    PopB(u);
    RelaxBWritten(gr, u);
    assert Expand(gr, Goal, L1, OnlyIfNotQueued, B, Pop(S2).1) == Written3;
  }

  lemma RelaxBWritten(gr: Graph, u: State)
    requires TraceFacts(gr)
    requires u == S2.(heap := [Entry(21.0, 3, A), Entry(15.0, 4, D)], open := {A, D}, closed := [Start, C, B])
    ensures RelaxFrom(gr, Goal, L1, OnlyIfNotQueued, B, 0, u) == Written3
  {
    VisitClosed(gr, L1, OnlyIfNotQueued, B, Start, u);
    AfterPopB(u);
    VisitBAWritten(gr, u);
    assert RelaxFrom(gr, Goal, L1, OnlyIfNotQueued, B, 2, Written3) == Written3;
    assert RelaxFrom(gr, Goal, L1, OnlyIfNotQueued, B, 1, u) == Written3;
  }

  /** Pushing on every improvement, closing B queues A again with key 13. */
  lemma CloseBFixed(gr: Graph)
    requires TraceFacts(gr) && Wf(gr, S2)
    ensures Step(gr, Goal, L1, OnEveryImprovement, S2) == Continue(Fixed3)
  {
    var u := S2.(heap := [Entry(21.0, 3, A), Entry(15.0, 4, D)], open := {A, D}, closed := [Start, C, B]);
    PopB(u);
    RelaxBFixed(gr, u);
    assert Expand(gr, Goal, L1, OnEveryImprovement, B, Pop(S2).1) == Fixed3;
  }

  lemma RelaxBFixed(gr: Graph, u: State)
    requires TraceFacts(gr)
    requires u == S2.(heap := [Entry(21.0, 3, A), Entry(15.0, 4, D)], open := {A, D}, closed := [Start, C, B])
    ensures RelaxFrom(gr, Goal, L1, OnEveryImprovement, B, 0, u) == Fixed3
  {
    VisitClosed(gr, L1, OnEveryImprovement, B, Start, u);
    AfterPopB(u);
    VisitBAFixed(gr, u);
    assert RelaxFrom(gr, Goal, L1, OnEveryImprovement, B, 2, Fixed3) == Fixed3;
    assert RelaxFrom(gr, Goal, L1, OnEveryImprovement, B, 1, u) == Fixed3;
  }

  /** As written, popping D, the fourth iteration. */
  lemma PopD(u: State)
    requires u == Written3.(heap := [Entry(21.0, 3, A)], open := {A}, closed := [Start, C, B, D])
    ensures MinIndex(Written3.heap) == 1 && Pop(Written3).0 == D
    ensures Pop(Written3).1.(closed := Pop(Written3).1.closed + [D]) == u
  {
    assert MinIndex(Written3.heap) == 1;
    assert RemoveAt(Written3.heap, 1) == [Entry(21.0, 3, A)];
    assert Written3.open - {D} == {A};
  }

  /** Pushing on every improvement, popping A's fresh entry, the fourth iteration. */
  lemma PopA(u: State)
    requires u == Fixed3.(heap := [Entry(21.0, 3, A), Entry(15.0, 4, D)], open := {D}, closed := [Start, C, B, A])
    ensures MinIndex(Fixed3.heap) == 2 && Pop(Fixed3).0 == A
    ensures Pop(Fixed3).1.(closed := Pop(Fixed3).1.closed + [A]) == u
  {
    assert MinIndex(Fixed3.heap) == 2;
    assert RemoveAt(Fixed3.heap, 2) == [Entry(21.0, 3, A), Entry(15.0, 4, D)];
    assert Fixed3.open - {A} == {D};
  }

  /** B's visit of A, where A's cost 14 improves to 6: as written the entry stays. */
  lemma VisitBAWritten(gr: Graph, u: State)
    requires Searchable(gr) && Adjacent(gr, B, A) && Weight(gr, B, A) == 1.0
    requires B in u.g && u.g[B] == 5.0 && A in u.g && u.g[A] == 14.0 && A !in u.closed && A in u.open
    ensures Visit(gr, Goal, L1, OnlyIfNotQueued, B, A, u)
      == u.(cameFrom := u.cameFrom[A := B], g := u.g[A := 6.0], f := u.f[A := 13.0])
  {
    VisitNoPush(gr, L1, B, A, u, 1.0);
    assert L1(A, Goal) == 7.0;
  }

  /** The same visit pushing on every improvement queues A with key 13. */
  lemma VisitBAFixed(gr: Graph, u: State)
    requires Searchable(gr) && Adjacent(gr, B, A) && Weight(gr, B, A) == 1.0
    requires B in u.g && u.g[B] == 5.0 && A in u.g && u.g[A] == 14.0 && A !in u.closed
    ensures Visit(gr, Goal, L1, OnEveryImprovement, B, A, u)
      == State(u.heap + [Entry(13.0, u.counter + 1, A)], u.counter + 1, u.cameFrom[A := B],
               u.g[A := 6.0], u.f[A := 13.0], u.closed, u.open + {A})
  {
    VisitPush(gr, L1, OnEveryImprovement, B, A, u, 1.0);
    assert L1(A, Goal) == 7.0;
  }

  /** The third state's scores, and the two states B's visit of A leads to. */
  lemma AfterPopB(u: State)
    requires u == S2.(heap := [Entry(21.0, 3, A), Entry(15.0, 4, D)], open := {A, D}, closed := [Start, C, B])
    ensures B in u.g && u.g[B] == 5.0 && A in u.g && u.g[A] == 14.0 && A !in u.closed && A in u.open
    ensures u.(cameFrom := u.cameFrom[A := B], g := u.g[A := 6.0], f := u.f[A := 13.0]) == Written3
    ensures State(u.heap + [Entry(13.0, u.counter + 1, A)], u.counter + 1, u.cameFrom[A := B],
                  u.g[A := 6.0], u.f[A := 13.0], u.closed, u.open + {A}) == Fixed3
  {
    assert u.open + {A} == Fixed3.open;
  }

  /** As written, D's key 15 beats A's stale key 21: D is closed and Goal reached
    * through it with cost 15. */
  lemma CloseDWritten(gr: Graph)
    requires TraceFacts(gr) && Wf(gr, Written3)
    ensures Step(gr, Goal, L1, OnlyIfNotQueued, Written3) == Continue(Written4)
  {
    var u := Written3.(heap := [Entry(21.0, 3, A)], open := {A}, closed := [Start, C, B, D]);
    PopD(u);
    RelaxDWritten(gr, u);
    assert Expand(gr, Goal, L1, OnlyIfNotQueued, D, Pop(Written3).1) == Written4;
  }

  lemma RelaxDWritten(gr: Graph, u: State)
    requires TraceFacts(gr)
    requires u == Written3.(heap := [Entry(21.0, 3, A)], open := {A}, closed := [Start, C, B, D])
    ensures RelaxFrom(gr, Goal, L1, OnlyIfNotQueued, D, 0, u) == Written4
  {
    VisitClosed(gr, L1, OnlyIfNotQueued, D, C, u);
    VisitPush(gr, L1, OnlyIfNotQueued, D, Goal, u, 6.0);
    assert L1(Goal, Goal) == 0.0;
    assert u.open + {Goal} == {A, Goal};
    assert Visit(gr, Goal, L1, OnlyIfNotQueued, D, Goal, u) == Written4;
    assert RelaxFrom(gr, Goal, L1, OnlyIfNotQueued, D, 2, Written4) == Written4;
    assert RelaxFrom(gr, Goal, L1, OnlyIfNotQueued, D, 1, u) == Written4;
  }

  /** Pushing on every improvement, A's fresh key 13 comes first: A is closed and Goal
    * reached through it with cost 13. */
  lemma CloseAFixed(gr: Graph)
    requires TraceFacts(gr) && Wf(gr, Fixed3)
    ensures Step(gr, Goal, L1, OnEveryImprovement, Fixed3) == Continue(Fixed4)
  {
    var u := Fixed3.(heap := [Entry(21.0, 3, A), Entry(15.0, 4, D)], open := {D}, closed := [Start, C, B, A]);
    PopA(u);
    RelaxAFixed(gr, u);
    assert Expand(gr, Goal, L1, OnEveryImprovement, A, Pop(Fixed3).1) == Fixed4;
  }

  lemma RelaxAFixed(gr: Graph, u: State)
    requires TraceFacts(gr)
    requires u == Fixed3.(heap := [Entry(21.0, 3, A), Entry(15.0, 4, D)], open := {D}, closed := [Start, C, B, A])
    ensures RelaxFrom(gr, Goal, L1, OnEveryImprovement, A, 0, u) == Fixed4
  {
    VisitClosed(gr, L1, OnEveryImprovement, A, B, u);
    VisitClosed(gr, L1, OnEveryImprovement, A, C, u);
    VisitPush(gr, L1, OnEveryImprovement, A, Goal, u, 7.0);
    assert L1(Goal, Goal) == 0.0;
    assert u.open + {Goal} == {D, Goal};
    assert Visit(gr, Goal, L1, OnEveryImprovement, A, Goal, u) == Fixed4;
    assert RelaxFrom(gr, Goal, L1, OnEveryImprovement, A, 3, Fixed4) == Fixed4;
    assert RelaxFrom(gr, Goal, L1, OnEveryImprovement, A, 2, u) == Fixed4;
    assert RelaxFrom(gr, Goal, L1, OnEveryImprovement, A, 1, u) == Fixed4;
  }

  /** A node without a predecessor is its own route. */
  lemma ReconstructRoot(cf: map<Point, Point>, x: Point, cl: seq<Point>)
    requires Ranked(cf, cl) && x !in cf
    ensures Reconstruct(cf, x, cl) == [x]
  {
  }

  /** A node's route is its predecessor's route followed by the node. */
  lemma ReconstructVia(cf: map<Point, Point>, x: Point, y: Point, cl: seq<Point>, prefix: seq<Point>)
    requires Ranked(cf, cl) && x in cf && cf[x] == y && Reconstruct(cf, y, cl) == prefix
    ensures Reconstruct(cf, x, cl) == prefix + [x]
  {
  }

  /** A two-stop route from Start to Goal, read back from the predecessor map. */
  lemma RouteThrough(cf: map<Point, Point>, cl: seq<Point>, x: Point, y: Point)
    requires Ranked(cf, cl) && Start !in cf
    requires x in cf && cf[x] == Start && y in cf && cf[y] == x && Goal in cf && cf[Goal] == y
    ensures Reconstruct(cf, Goal, cl) == [Start, x, y, Goal]
  {
    ReconstructRoot(cf, Start, cl);
    ReconstructVia(cf, x, Start, cl, [Start]);
    ReconstructVia(cf, y, x, cl, [Start, x]);
    ReconstructVia(cf, Goal, y, cl, [Start, x, y]);
  }

  /** As written, Goal is popped with cost 15 and the route goes through C and D. */
  lemma ReachGoalWritten(gr: Graph)
    requires TraceFacts(gr) && Wf(gr, Written4)
    ensures Step(gr, Goal, L1, OnlyIfNotQueued, Written4) == Stop(Found(15.0, [Start, C, D, Goal]))
  {
    assert MinIndex(Written4.heap) == 1;
    RouteWritten();
  }

  lemma Written4Links()
    ensures var cf := Written4.cameFrom;
      Start !in cf && C in cf && cf[C] == Start && D in cf && cf[D] == C && Goal in cf && cf[Goal] == D
  {
  }

  lemma RouteWritten()
    requires Ranked(Written4.cameFrom, Written4.closed)
    ensures Reconstruct(Written4.cameFrom, Goal, Written4.closed) == [Start, C, D, Goal]
  {
    Written4Links();
    RouteThrough(Written4.cameFrom, Written4.closed, C, D);
  }

  /** Pushing on every improvement, Goal is popped with cost 13 through B and A. */
  lemma ReachGoalFixed(gr: Graph)
    requires TraceFacts(gr) && Wf(gr, Fixed4)
    ensures Step(gr, Goal, L1, OnEveryImprovement, Fixed4) == Stop(Found(13.0, [Start, B, A, Goal]))
  {
    assert MinIndex(Fixed4.heap) == 2;
    RouteFixed();
  }

  lemma Fixed4Links()
    ensures var cf := Fixed4.cameFrom;
      Start !in cf && B in cf && cf[B] == Start && A in cf && cf[A] == B && Goal in cf && cf[Goal] == A
  {
  }

  lemma RouteFixed()
    requires Ranked(Fixed4.cameFrom, Fixed4.closed)
    ensures Reconstruct(Fixed4.cameFrom, Goal, Fixed4.closed) == [Start, B, A, Goal]
  {
    Fixed4Links();
    RouteThrough(Fixed4.cameFrom, Fixed4.closed, B, A);
  }

  // --- whole searches ---------------------------------------------------------

  /** An iteration that closes a new node hands the search on to the next state. */
  lemma RunContinues(gr: Graph, dist: Distance, rule: PushRule, s: State, next: State, x: Point)
    requires Searchable(gr) && Wf(gr, s) && s.heap != []
    requires Step(gr, Goal, dist, rule, s) == Continue(next)
    requires x in next.closed && x !in s.closed
    ensures Wf(gr, next) && Run(gr, Goal, dist, rule, s) == Run(gr, Goal, dist, rule, next)
  {
    assert x in ClosedSet(next) - ClosedSet(s);
  }

  /** An iteration that stops ends the search with its outcome. */
  lemma RunStops(gr: Graph, dist: Distance, rule: PushRule, s: State, o: Outcome)
    requires Searchable(gr) && Wf(gr, s) && s.heap != []
    requires Step(gr, Goal, dist, rule, s) == Stop(o)
    ensures Run(gr, Goal, dist, rule, s) == o
  {
  }

  /** As written, the search from Start to Goal reports cost 15 through C and D. */
  lemma AsWrittenTrace(gr: Graph)
    requires TraceFacts(gr)
    ensures Search(gr, Start, Goal, L1, OnlyIfNotQueued) == Found(15.0, [Start, C, D, Goal])
  {
    var rule := OnlyIfNotQueued;
    CloseStart(gr, rule);
    RunContinues(gr, L1, rule, Init(Start, Goal, L1), S1, Start);
    CloseC(gr, rule);
    RunContinues(gr, L1, rule, S1, S2, C);
    CloseBWritten(gr);
    RunContinues(gr, L1, rule, S2, Written3, B);
    CloseDWritten(gr);
    RunContinues(gr, L1, rule, Written3, Written4, D);
    ReachGoalWritten(gr);
    RunStops(gr, L1, rule, Written4, Found(15.0, [Start, C, D, Goal]));
  }

  /** Pushing on every improvement, the same search reports cost 13 through B and A. */
  lemma FixedTrace(gr: Graph)
    requires TraceFacts(gr)
    ensures Search(gr, Start, Goal, L1, OnEveryImprovement) == Found(13.0, [Start, B, A, Goal])
  {
    var rule := OnEveryImprovement;
    CloseStart(gr, rule);
    RunContinues(gr, L1, rule, Init(Start, Goal, L1), S1, Start);
    CloseC(gr, rule);
    RunContinues(gr, L1, rule, S1, S2, C);
    CloseBFixed(gr);
    RunContinues(gr, L1, rule, S2, Fixed3, B);
    CloseAFixed(gr);
    RunContinues(gr, L1, rule, Fixed3, Fixed4, A);
    ReachGoalFixed(gr);
    RunStops(gr, L1, rule, Fixed4, Found(13.0, [Start, B, A, Goal]));
  }

  /** The walk through B and A costs 13, the walk through C and D costs 15. */
  lemma WalkCosts(gr: Graph)
    requires TraceFacts(gr)
    ensures WalkTo(gr, Start, Goal, [Start, B, A, Goal]) && PathCost(gr, [Start, B, A, Goal]) == 13.0
    ensures WalkTo(gr, Start, Goal, [Start, C, D, Goal]) && PathCost(gr, [Start, C, D, Goal]) == 15.0
  {
    ThreeLegs(gr, Start, B, A, Goal);
    ThreeLegs(gr, Start, C, D, Goal);
  }

  /** The cost of a walk along three edges is the sum of their weights. */
  lemma ThreeLegs(gr: Graph, w: Point, x: Point, y: Point, z: Point)
    requires w in gr.adj && x in gr.adj && y in gr.adj && z in gr.adj
    requires x in gr.adj[w] && y in gr.adj[x] && z in gr.adj[y]
    requires (w, x) in gr.attrs && (x, y) in gr.attrs && (y, z) in gr.attrs
    ensures IsPath(gr, [w, x, y, z])
    ensures PathCost(gr, [w, x, y, z]) == Weight(gr, w, x) + Weight(gr, x, y) + Weight(gr, y, z)
  {
    var p := [w, x, y, z];
    assert EdgeAt(gr, p, 0) && EdgeAt(gr, p, 1) && EdgeAt(gr, p, 2);
    assert EdgeAt(gr, [w, x, y], 0) && EdgeAt(gr, [w, x, y], 1) && EdgeAt(gr, [w, x], 0);
    assert [w, x][..1] == [w];
    assert PathCost(gr, [w, x]) == Weight(gr, w, x);
    assert [w, x, y][..2] == [w, x];
    assert PathCost(gr, [w, x, y]) == Weight(gr, w, x) + Weight(gr, x, y);
    assert p[..3] == [w, x, y];
  }

  /** On the metric graph `Trails`, where `SearchOptimalOnMetricGraph` applies, the
    * search as written reports cost 15 although a walk of cost 13 exists; pushing on
    * every improvement reports that walk. */
  lemma AsWrittenNotOptimal()
    ensures Valid(Trails) && WeightsAreDistances(Trails, L1) && Metric(L1) && Searchable(Trails)
    ensures Search(Trails, Start, Goal, L1, OnlyIfNotQueued) == Found(15.0, [Start, C, D, Goal])
    ensures Search(Trails, Start, Goal, L1, OnEveryImprovement) == Found(13.0, [Start, B, A, Goal])
    ensures WalkTo(Trails, Start, Goal, [Start, B, A, Goal]) && PathCost(Trails, [Start, B, A, Goal]) == 13.0
  {
    TrailsMeetAssumptions();
    TrailsTraceFacts();
    AsWrittenTrace(Trails);
    FixedTrace(Trails);
    WalkCosts(Trails);
  }
}
