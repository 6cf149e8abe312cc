/** The optimality claim of `_astar_search`'s documentation: with non-negative weights
  * and a consistent heuristic the returned distance is the least cost of any walk from
  * the start to the goal. It holds when a node is pushed again on every improvement of
  * its g-score (`OnEveryImprovement`); the witness in `AStarWitness` shows that the
  * push rule as written (`OnlyIfNotQueued`) breaks it. */
module AStarOptimality {
  import opened Geo
  import opened NxGraph
  import opened GraphService
  import opened AStar
  import opened AStarCorrectness

  // ---------------------------------------------------------------------------
  // Assumptions on the weights and the heuristic
  // ---------------------------------------------------------------------------

  ghost predicate NonNegWeights(gr: Graph)
  {
    forall u, v | u in gr.adj && v in gr.adj[u] && (u, v) in gr.attrs :: Weight(gr, u, v) >= 0.0
  }

  /** `h(u) <= w(u, v) + h(v)` on every edge, for `h(x) = dist(x, goal)`. */
  ghost predicate Consistent(gr: Graph, goal: Point, dist: Distance)
  {
    forall u, v | u in gr.adj && v in gr.adj[u] && (u, v) in gr.attrs ::
      dist(u, goal) <= Weight(gr, u, v) + dist(v, goal)
  }

  /** A graph built by `make_graph` with a metric distance meets both assumptions. */
  lemma MetricWeightsConsistent(gr: Graph, goal: Point, dist: Distance)
    requires WeightsAreDistances(gr, dist) && Metric(dist)
    ensures NonNegWeights(gr) && Consistent(gr, goal, dist)
  {
    forall u, v | u in gr.adj && v in gr.adj[u] && (u, v) in gr.attrs
      ensures Weight(gr, u, v) == dist(u, v)
    {
      assert gr.attrs[(u, v)] == map["weight" := dist(u, v)];
    }
  }

  // ---------------------------------------------------------------------------
  // Path arithmetic
  // ---------------------------------------------------------------------------

  lemma {:induction false} PathCostNonNeg(gr: Graph, p: seq<Point>)
    requires NonNegWeights(gr) && IsPath(gr, p)
    ensures PathCost(gr, p) >= 0.0
    decreases |p|
  {
    if |p| > 1 {
      PathPrefix(gr, p, |p| - 1);
      assert EdgeAt(gr, p, |p| - 2);
      PathCostNonNeg(gr, p[..|p| - 1]);
    }
  }

  lemma PathSuffix(gr: Graph, p: seq<Point>, i: nat)
    requires IsPath(gr, p) && i < |p|
    ensures IsPath(gr, p[i..])
  {
    forall j | 0 <= j < |p| - i - 1
      ensures EdgeAt(gr, p[i..], j)
    {
      assert EdgeAt(gr, p, i + j);
    }
  }

  /** One unfolding of `PathCost`: the last edge's weight on top of the prefix's cost. */
  lemma PathCostLast(gr: Graph, p: seq<Point>)
    requires IsPath(gr, p) && |p| > 1
    ensures IsPath(gr, p[..|p| - 1]) && (p[|p| - 2], p[|p| - 1]) in gr.attrs
    ensures PathCost(gr, p) == PathCost(gr, p[..|p| - 1]) + Weight(gr, p[|p| - 2], p[|p| - 1])
  {
    PathPrefix(gr, p, |p| - 1);
    assert EdgeAt(gr, p, |p| - 2);
  }

  /** The cost of a path is the cost up to position `i` plus the cost from there. */
  lemma {:induction false} PathCostSplit(gr: Graph, p: seq<Point>, i: nat)
    requires IsPath(gr, p) && i < |p|
    ensures IsPath(gr, p[..i + 1]) && IsPath(gr, p[i..])
    ensures PathCost(gr, p) == PathCost(gr, p[..i + 1]) + PathCost(gr, p[i..])
    decreases |p|
  {
    PathSuffix(gr, p, i);
    if i < |p| - 1 {
      var q := p[..|p| - 1];
      var t := p[i..];
      PathCostLast(gr, p);
      PathCostLast(gr, t);
      PathCostSplit(gr, q, i);
      assert q[..i + 1] == p[..i + 1];
      assert t[..|t| - 1] == q[i..];
      assert t[|t| - 2] == p[|p| - 2] && t[|t| - 1] == p[|p| - 1];
    } else {
      assert p[..i + 1] == p;
      assert |p[i..]| == 1;
    }
  }

  /** Along a path the heuristic never drops by more than the path's cost. */
  lemma {:induction false} HeuristicAlongPath(gr: Graph, goal: Point, dist: Distance, p: seq<Point>)
    requires Consistent(gr, goal, dist) && IsPath(gr, p)
    ensures dist(p[0], goal) <= PathCost(gr, p) + dist(p[|p| - 1], goal)
    decreases |p|
  {
    if |p| > 1 {
      var q := p[..|p| - 1];
      PathPrefix(gr, p, |p| - 1);
      assert EdgeAt(gr, p, |p| - 2);
      HeuristicAlongPath(gr, goal, dist, q);
    }
  }

  /** A walk that starts in `c` and ends outside it crosses out of `c` somewhere. */
  lemma Crossing(p: seq<Point>, c: seq<Point>) returns (i: nat)
    requires |p| >= 1 && p[0] in c && p[|p| - 1] !in c
    ensures 1 <= i < |p| && p[i - 1] in c && p[i] !in c
  {
    i := 1;
    while p[i] in c
      invariant 1 <= i < |p| && p[i - 1] in c
      decreases |p| - i
    {
      i := i + 1;
    }
  }

  // ---------------------------------------------------------------------------
  // The invariant
  // ---------------------------------------------------------------------------

  /** `g[x]` is at most the cost of every walk from the start to `x`. */
  ghost predicate OptimalAt(gr: Graph, start: Point, s: State, x: Point)
    requires x in s.g
  {
    forall q | WalkTo(gr, start, x, q) :: s.g[x] <= PathCost(gr, q)
  }

  ghost predicate ClosedOptimal(gr: Graph, start: Point, s: State)
  {
    forall x | x in s.closed :: x in s.g && OptimalAt(gr, start, s, x)
  }

  /** The edge `x`–`y` has been relaxed: `y` is closed, or `g[y] <= g[x] + w(x, y)`. */
  ghost predicate Relaxed(gr: Graph, s: State, x: Point, y: Point)
  {
    y in s.closed || (x in s.g && y in s.g && (x, y) in gr.attrs && s.g[y] <= s.g[x] + Weight(gr, x, y))
  }

  /** Every edge out of a closed node other than `except` has been relaxed. */
  ghost predicate RelaxedExcept(gr: Graph, s: State, except: set<Point>)
  {
    forall x, y | x in s.closed && x !in except && x in gr.adj && y in gr.adj[x] :: Relaxed(gr, s, x, y)
  }

  /** A node seen but not closed has an entry keyed by its current `g + h`. */
  ghost predicate Keyed(goal: Point, dist: Distance, s: State)
  {
    forall y | y in s.g && y !in s.closed ::
      exists i | 0 <= i < |s.heap| :: s.heap[i].node == y && s.heap[i].f == s.g[y] + dist(y, goal)
  }

  /** No entry's key is below its node's current `g + h`. */
  ghost predicate Bounded(goal: Point, dist: Distance, s: State)
  {
    forall i | 0 <= i < |s.heap| :: s.heap[i].node in s.g && s.heap[i].f >= s.g[s.heap[i].node] + dist(s.heap[i].node, goal)
  }

  /** Once the start is closed every part holds; before, the state is the initial one. */
  ghost predicate OptInv(gr: Graph, start: Point, goal: Point, dist: Distance, s: State)
  {
    s.closed != [] ==>
      ClosedOptimal(gr, start, s) && RelaxedExcept(gr, s, {}) && Keyed(goal, dist, s) && Bounded(goal, dist, s)
  }

  ghost predicate Assumptions(gr: Graph, goal: Point, dist: Distance)
  {
    Searchable(gr) && NonNegWeights(gr) && Consistent(gr, goal, dist)
  }

  // ---------------------------------------------------------------------------
  // The popped node's g-score is optimal
  // ---------------------------------------------------------------------------

  /** The key of the smallest entry is at most `g + h` of any seen, unclosed node. */
  lemma MinKeyBelow(goal: Point, dist: Distance, s: State, y: Point)
    requires Keyed(goal, dist, s) && y in s.g && y !in s.closed
    ensures |s.heap| > 0 && s.heap[MinIndex(s.heap)].f <= s.g[y] + dist(y, goal)
  {
    var i :| 0 <= i < |s.heap| && s.heap[i].node == y && s.heap[i].f == s.g[y] + dist(y, goal);
    assert !Before(s.heap[i], s.heap[MinIndex(s.heap)]);
  }

  /** A closed node's g-score is at most the cost of the walk's prefix that reaches it. */
  lemma ClosedPrefixBound(gr: Graph, start: Point, s: State, q: seq<Point>, i: nat)
    requires ClosedOptimal(gr, start, s)
    requires IsPath(gr, q) && q[0] == start && 1 <= i <= |q| && q[i - 1] in s.closed
    ensures IsPath(gr, q[..i]) && q[i - 1] in s.g && s.g[q[i - 1]] <= PathCost(gr, q[..i])
  {
    PathPrefix(gr, q, i);
    assert q[..i][i - 1] == q[i - 1];
    assert WalkTo(gr, start, q[i - 1], q[..i]);
    assert OptimalAt(gr, start, s, q[i - 1]);
  }

  /** Extending a path prefix by one step adds that edge's weight. */
  lemma PathCostStep(gr: Graph, q: seq<Point>, i: nat)
    requires IsPath(gr, q) && 1 <= i < |q|
    ensures IsPath(gr, q[..i]) && IsPath(gr, q[..i + 1]) && (q[i - 1], q[i]) in gr.attrs
    ensures PathCost(gr, q[..i + 1]) == PathCost(gr, q[..i]) + Weight(gr, q[i - 1], q[i])
  {
    PathPrefix(gr, q, i);
    PathPrefix(gr, q, i + 1);
    assert EdgeAt(gr, q, i - 1);
    assert q[..i + 1][..i] == q[..i];
  }

  /** The edge out of the closed part is relaxed. */
  lemma CrossEdge(gr: Graph, s: State, q: seq<Point>, i: nat)
    requires RelaxedExcept(gr, s, {})
    requires IsPath(gr, q) && 1 <= i < |q| && q[i - 1] in s.closed && q[i] !in s.closed
    ensures q[i - 1] in s.g && q[i] in s.g && (q[i - 1], q[i]) in gr.attrs
    ensures s.g[q[i]] <= s.g[q[i - 1]] + Weight(gr, q[i - 1], q[i])
  {
    assert EdgeAt(gr, q, i - 1);
    assert Relaxed(gr, s, q[i - 1], q[i]);
  }

  /** The cost arithmetic behind `CrossingBound`, given the two facts the invariant
    * supplies about the crossing edge. */
  lemma CrossingCost(gr: Graph, goal: Point, dist: Distance, s: State, q: seq<Point>, i: nat)
    requires Consistent(gr, goal, dist) && IsPath(gr, q) && 1 <= i < |q|
    requires IsPath(gr, q[..i]) && (q[i - 1], q[i]) in gr.attrs && q[i - 1] in s.g && q[i] in s.g
    requires s.g[q[i - 1]] <= PathCost(gr, q[..i])
    requires s.g[q[i]] <= s.g[q[i - 1]] + Weight(gr, q[i - 1], q[i])
    ensures s.g[q[i]] + dist(q[i], goal) <= PathCost(gr, q) + dist(q[|q| - 1], goal)
  {
    CostThrough(gr, q, i);
    HeuristicFrom(gr, goal, dist, q, i);
  }

  /** A path's cost splits at the edge into position `i`. */
  lemma CostThrough(gr: Graph, q: seq<Point>, i: nat)
    requires IsPath(gr, q) && 1 <= i < |q|
    ensures IsPath(gr, q[..i]) && IsPath(gr, q[i..]) && (q[i - 1], q[i]) in gr.attrs
    ensures PathCost(gr, q) == PathCost(gr, q[..i]) + Weight(gr, q[i - 1], q[i]) + PathCost(gr, q[i..])
  {
    PathCostStep(gr, q, i);
    PathCostSplit(gr, q, i);
  }

  /** The heuristic at position `i` is at most the rest of the path's cost plus the
    * heuristic at its end. */
  lemma HeuristicFrom(gr: Graph, goal: Point, dist: Distance, q: seq<Point>, i: nat)
    requires Consistent(gr, goal, dist) && IsPath(gr, q) && i < |q|
    ensures IsPath(gr, q[i..]) && dist(q[i], goal) <= PathCost(gr, q[i..]) + dist(q[|q| - 1], goal)
  {
    PathSuffix(gr, q, i);
    HeuristicAlongPath(gr, goal, dist, q[i..]);
    assert q[i..][0] == q[i] && q[i..][|q[i..]| - 1] == q[|q| - 1];
  }

  /** The crossing node `y` of a walk `q` to `u` has `g[y] + h(y)` at most the walk's
    * cost plus `h(u)`. */
  lemma CrossingBound(gr: Graph, start: Point, goal: Point, dist: Distance, s: State, q: seq<Point>, i: nat)
    requires Consistent(gr, goal, dist) && ClosedOptimal(gr, start, s) && RelaxedExcept(gr, s, {})
    requires IsPath(gr, q) && q[0] == start && 1 <= i < |q| && q[i - 1] in s.closed && q[i] !in s.closed
    ensures q[i] in s.g && s.g[q[i]] + dist(q[i], goal) <= PathCost(gr, q) + dist(q[|q| - 1], goal)
  {
    CrossEdge(gr, s, q, i);
    ClosedPrefixBound(gr, start, s, q, i);
    CrossingCost(gr, goal, dist, s, q, i);
  }

  /** The node popped next, when not yet closed, has a g-score no walk from the start
    * beats. */
  lemma PopOptimal(gr: Graph, start: Point, goal: Point, dist: Distance, s: State, q: seq<Point>)
    requires Assumptions(gr, goal, dist) && Inv(gr, start, goal, dist, s) && OptInv(gr, start, goal, dist, s)
    requires s.heap != [] && Pop(s).0 !in s.closed
    requires IsPath(gr, q) && q[0] == start && q[|q| - 1] == Pop(s).0
    ensures Pop(s).0 in s.g && s.g[Pop(s).0] <= PathCost(gr, q)
  {
    var e := s.heap[MinIndex(s.heap)];
    var u := e.node;
    assert e in s.heap;
    if s.closed == [] {
      PathCostNonNeg(gr, q);
    } else {
      var i := Crossing(q, s.closed);
      CrossingBound(gr, start, goal, dist, s, q, i);
      MinKeyBelow(goal, dist, s, q[i]);
      assert e.f >= s.g[u] + dist(u, goal) by {
        assert s.heap[MinIndex(s.heap)] == e;
      }
    }
  }

  // ---------------------------------------------------------------------------
  // Preservation
  // ---------------------------------------------------------------------------

  /** g-scores only decrease, and those of closed nodes stay as they are. */
  ghost predicate Decreased(s: State, r: State)
  {
    && r.closed == s.closed
    && (forall x | x in s.g :: x in r.g && r.g[x] <= s.g[x])
    && (forall x | x in s.closed && x in s.g :: r.g[x] == s.g[x])
  }

  lemma DecreasedTrans(s: State, r: State, t: State)
    requires Decreased(s, r) && Decreased(r, t)
    ensures Decreased(s, t)
  {
  }

  /** What a neighbour visit changes when every improvement is pushed. */
  lemma VisitImproves(gr: Graph, goal: Point, dist: Distance, current: Point, nb: Point, s: State)
    requires Searchable(gr) && current in s.g && current in s.closed && Adjacent(gr, current, nb)
    ensures var r := Visit(gr, goal, dist, OnEveryImprovement, current, nb, s);
      var t := s.g[current] + Weight(gr, current, nb);
      && Decreased(s, r)
      && Relaxed(gr, r, current, nb)
      && (r == s || (nb !in s.closed && r.g == s.g[nb := t] && (nb in s.g ==> t < s.g[nb])
                     && r.heap == s.heap + [Entry(t + dist(nb, goal), s.counter + 1, nb)]))
  {
  }

  /** The part of `VisitImproves` the neighbour loop's relaxation argument needs. */
  lemma VisitRelaxes(gr: Graph, goal: Point, dist: Distance, current: Point, nb: Point, s: State)
    requires Searchable(gr) && current in s.g && current in s.closed && Adjacent(gr, current, nb)
    ensures var r := Visit(gr, goal, dist, OnEveryImprovement, current, nb, s);
      Decreased(s, r) && Relaxed(gr, r, current, nb)
  {
    VisitImproves(gr, goal, dist, current, nb, s);
  }

  lemma KeyedVisit(gr: Graph, goal: Point, dist: Distance, current: Point, nb: Point, s: State)
    requires Searchable(gr) && current in s.g && current in s.closed && Adjacent(gr, current, nb)
    requires Keyed(goal, dist, s)
    ensures Keyed(goal, dist, Visit(gr, goal, dist, OnEveryImprovement, current, nb, s))
  {
    var r := Visit(gr, goal, dist, OnEveryImprovement, current, nb, s);
    VisitImproves(gr, goal, dist, current, nb, s);
    if r != s {
      forall y | y in r.g && y !in r.closed
        ensures exists i | 0 <= i < |r.heap| :: r.heap[i].node == y && r.heap[i].f == r.g[y] + dist(y, goal)
      {
        if y == nb {
          assert r.heap[|s.heap|].node == y;
        } else {
          var i :| 0 <= i < |s.heap| && s.heap[i].node == y && s.heap[i].f == s.g[y] + dist(y, goal);
          assert r.heap[i] == s.heap[i];
        }
      }
    }
  }

  lemma BoundedVisit(gr: Graph, goal: Point, dist: Distance, current: Point, nb: Point, s: State)
    requires Searchable(gr) && current in s.g && current in s.closed && Adjacent(gr, current, nb)
    requires Bounded(goal, dist, s)
    ensures Bounded(goal, dist, Visit(gr, goal, dist, OnEveryImprovement, current, nb, s))
  {
    var r := Visit(gr, goal, dist, OnEveryImprovement, current, nb, s);
    VisitImproves(gr, goal, dist, current, nb, s);
    if r != s {
      forall i | 0 <= i < |r.heap|
        ensures r.heap[i].node in r.g && r.heap[i].f >= r.g[r.heap[i].node] + dist(r.heap[i].node, goal)
      {
        if i < |s.heap| {
          assert r.heap[i] == s.heap[i];
        }
      }
    }
  }

  /** The neighbour loop only lowers g-scores. */
  lemma {:induction false} RelaxDecreases(gr: Graph, goal: Point, dist: Distance, current: Point, j: nat, s: State)
    requires Searchable(gr) && current in gr.adj && current in s.g && current in s.closed && j <= |gr.adj[current]|
    ensures Decreased(s, RelaxFrom(gr, goal, dist, OnEveryImprovement, current, j, s))
    decreases |gr.adj[current]| - j
  {
    if j < |gr.adj[current]| {
      var nb := gr.adj[current][j];
      var r := Visit(gr, goal, dist, OnEveryImprovement, current, nb, s);
      VisitRelaxes(gr, goal, dist, current, nb, s);
      RelaxDecreases(gr, goal, dist, current, j + 1, r);
      DecreasedTrans(s, r, RelaxFrom(gr, goal, dist, OnEveryImprovement, current, j + 1, r));
    }
  }

  /** The neighbour loop keeps every seen, unclosed node keyed by its `g + h`. */
  lemma {:induction false} RelaxKeyed(gr: Graph, goal: Point, dist: Distance, current: Point, j: nat, s: State)
    requires Searchable(gr) && current in gr.adj && current in s.g && current in s.closed && j <= |gr.adj[current]|
    requires Keyed(goal, dist, s)
    ensures Keyed(goal, dist, RelaxFrom(gr, goal, dist, OnEveryImprovement, current, j, s))
    decreases |gr.adj[current]| - j
  {
    if j < |gr.adj[current]| {
      var nb := gr.adj[current][j];
      VisitImproves(gr, goal, dist, current, nb, s);
      KeyedVisit(gr, goal, dist, current, nb, s);
      RelaxKeyed(gr, goal, dist, current, j + 1, Visit(gr, goal, dist, OnEveryImprovement, current, nb, s));
    }
  }

  /** The neighbour loop keeps every key at or above its node's `g + h`. */
  lemma {:induction false} RelaxBounded(gr: Graph, goal: Point, dist: Distance, current: Point, j: nat, s: State)
    requires Searchable(gr) && current in gr.adj && current in s.g && current in s.closed && j <= |gr.adj[current]|
    requires Bounded(goal, dist, s)
    ensures Bounded(goal, dist, RelaxFrom(gr, goal, dist, OnEveryImprovement, current, j, s))
    decreases |gr.adj[current]| - j
  {
    if j < |gr.adj[current]| {
      var nb := gr.adj[current][j];
      VisitImproves(gr, goal, dist, current, nb, s);
      BoundedVisit(gr, goal, dist, current, nb, s);
      RelaxBounded(gr, goal, dist, current, j + 1, Visit(gr, goal, dist, OnEveryImprovement, current, nb, s));
    }
  }

  /** After the neighbour loop every edge out of `current` is relaxed. */
  lemma {:induction false} RelaxRelaxes(gr: Graph, goal: Point, dist: Distance, current: Point, j: nat, s: State)
    requires Searchable(gr) && current in gr.adj && current in s.g && current in s.closed && j <= |gr.adj[current]|
    requires forall i | 0 <= i < j :: Relaxed(gr, s, current, gr.adj[current][i])
    ensures var r := RelaxFrom(gr, goal, dist, OnEveryImprovement, current, j, s);
      forall i | 0 <= i < |gr.adj[current]| :: Relaxed(gr, r, current, gr.adj[current][i])
    decreases |gr.adj[current]| - j
  {
    if j < |gr.adj[current]| {
      var nb := gr.adj[current][j];
      var r := Visit(gr, goal, dist, OnEveryImprovement, current, nb, s);
      VisitRelaxes(gr, goal, dist, current, nb, s);
      RelaxedKept(gr, s, r, current, j);
      RelaxRelaxes(gr, goal, dist, current, j + 1, r);
    }
  }

  lemma RelaxedKept(gr: Graph, s: State, r: State, current: Point, j: nat)
    requires current in gr.adj && current in s.closed && j < |gr.adj[current]|
    requires Decreased(s, r) && Relaxed(gr, r, current, gr.adj[current][j])
    requires forall i | 0 <= i < j :: Relaxed(gr, s, current, gr.adj[current][i])
    ensures forall i | 0 <= i < j + 1 :: Relaxed(gr, r, current, gr.adj[current][i])
  {
    forall i | 0 <= i < j + 1
      ensures Relaxed(gr, r, current, gr.adj[current][i])
    {
      if i < j {
        assert Relaxed(gr, s, current, gr.adj[current][i]);
      }
    }
  }

  /** Lower g-scores keep closed nodes optimal and closed edges relaxed. */
  lemma DecreasedKeeps(gr: Graph, start: Point, s: State, r: State, except: set<Point>)
    requires Decreased(s, r) && ClosedOptimal(gr, start, s) && RelaxedExcept(gr, s, except)
    ensures ClosedOptimal(gr, start, r) && RelaxedExcept(gr, r, except)
  {
    forall x | x in r.closed
      ensures x in r.g && OptimalAt(gr, start, r, x)
    {
      assert OptimalAt(gr, start, s, x);
    }
    forall x, y | x in r.closed && x !in except && x in gr.adj && y in gr.adj[x]
      ensures Relaxed(gr, r, x, y)
    {
      assert Relaxed(gr, s, x, y);
    }
  }

  lemma CoverRelaxed(gr: Graph, s: State, current: Point)
    requires current in gr.adj && RelaxedExcept(gr, s, {current})
    requires forall i | 0 <= i < |gr.adj[current]| :: Relaxed(gr, s, current, gr.adj[current][i])
    ensures RelaxedExcept(gr, s, {})
  {
    forall x, y | x in s.closed && x in gr.adj && y in gr.adj[x]
      ensures Relaxed(gr, s, x, y)
    {
      if x == current {
        var i :| 0 <= i < |gr.adj[current]| && gr.adj[current][i] == y;
      }
    }
  }

  /** Removing the smallest entry keeps every other node's key. */
  lemma KeyedPop(goal: Point, dist: Distance, s: State, r: State)
    requires Keyed(goal, dist, s) && s.heap != []
    requires r.g == s.g && r.heap == Pop(s).1.heap
    requires r.closed == s.closed + [Pop(s).0] || (r.closed == s.closed && Pop(s).0 in s.closed)
    ensures Keyed(goal, dist, r)
  {
    var k := MinIndex(s.heap);
    forall y | y in r.g && y !in r.closed
      ensures exists i | 0 <= i < |r.heap| :: r.heap[i].node == y && r.heap[i].f == r.g[y] + dist(y, goal)
    {
      var i :| 0 <= i < |s.heap| && s.heap[i].node == y && s.heap[i].f == s.g[y] + dist(y, goal);
      var i' := if i < k then i else i - 1;
      assert r.heap[i'] == s.heap[i];
    }
  }

  /** Removing an entry keeps the bound on the others. */
  lemma BoundedPop(goal: Point, dist: Distance, s: State, r: State)
    requires Bounded(goal, dist, s) && s.heap != []
    requires r.g == s.g && r.heap == Pop(s).1.heap
    ensures Bounded(goal, dist, r)
  {
    var k := MinIndex(s.heap);
    forall i | 0 <= i < |r.heap|
      ensures r.heap[i].node in r.g && r.heap[i].f >= r.g[r.heap[i].node] + dist(r.heap[i].node, goal)
    {
      var i' := if i < k then i else i + 1;
      assert r.heap[i] == s.heap[i'];
    }
  }

  /** Closing `u` keeps the other closed nodes' edges relaxed. */
  lemma RelaxedClose(gr: Graph, s: State, r: State, u: Point)
    requires RelaxedExcept(gr, s, {}) && r.g == s.g && r.closed == s.closed + [u]
    ensures RelaxedExcept(gr, r, {u})
  {
    forall x, y | x in r.closed && x !in {u} && x in gr.adj && y in gr.adj[x]
      ensures Relaxed(gr, r, x, y)
    {
      assert Relaxed(gr, s, x, y);
    }
  }

  /** Closing the popped node keeps every closed node optimal. */
  lemma CloseOptimal(gr: Graph, start: Point, goal: Point, dist: Distance, s: State, r: State)
    requires Assumptions(gr, goal, dist) && Inv(gr, start, goal, dist, s) && OptInv(gr, start, goal, dist, s)
    requires s.heap != [] && Pop(s).0 !in s.closed
    requires r.g == s.g && r.closed == s.closed + [Pop(s).0]
    ensures ClosedOptimal(gr, start, r)
  {
    var u := Pop(s).0;
    PoppedSeen(gr, s);
    forall x | x in r.closed
      ensures x in r.g && OptimalAt(gr, start, r, x)
    {
      if x == u {
        forall q | WalkTo(gr, start, x, q)
          ensures r.g[x] <= PathCost(gr, q)
        {
          PopOptimal(gr, start, goal, dist, s, q);
        }
      } else {
        assert OptimalAt(gr, start, s, x);
      }
    }
  }

  /** Popping and closing the popped node keeps the parts of the invariant that do not
    * concern its own edges. */
  lemma CloseOpt(gr: Graph, start: Point, goal: Point, dist: Distance, s: State)
    requires Assumptions(gr, goal, dist) && Inv(gr, start, goal, dist, s) && OptInv(gr, start, goal, dist, s)
    requires s.heap != [] && Pop(s).0 !in s.closed
    ensures var s2 := Pop(s).1.(closed := s.closed + [Pop(s).0]);
      ClosedOptimal(gr, start, s2) && RelaxedExcept(gr, s2, {Pop(s).0}) && Keyed(goal, dist, s2) && Bounded(goal, dist, s2)
  {
    var (u, s1) := Pop(s);
    var s2 := s1.(closed := s.closed + [u]);
    CloseOptimal(gr, start, goal, dist, s, s2);
    if s.closed == [] {
      assert s.heap == [Entry(0.0, 0, start)];
      assert s2.heap == [];
    } else {
      RelaxedClose(gr, s, s2, u);
      KeyedPop(goal, dist, s, s2);
      BoundedPop(goal, dist, s, s2);
    }
  }

  /** Closing the popped node and relaxing its edges keeps `OptInv`. */
  lemma ExpandOpt(gr: Graph, start: Point, goal: Point, dist: Distance, s: State)
    requires Assumptions(gr, goal, dist) && Inv(gr, start, goal, dist, s) && OptInv(gr, start, goal, dist, s)
    requires s.heap != [] && Pop(s).0 !in s.closed && Pop(s).0 != goal
    ensures Pop(s).0 in gr.adj && Pop(s).0 in s.g
    ensures OptInv(gr, start, goal, dist, Expand(gr, goal, dist, OnEveryImprovement, Pop(s).0, Pop(s).1))
  {
    var (u, s1) := Pop(s);
    PoppedSeen(gr, s);
    var s2 := s1.(closed := s.closed + [u]);
    CloseOpt(gr, start, goal, dist, s);
    RelaxOpt(gr, start, goal, dist, u, s2);
  }

  lemma RelaxOpt(gr: Graph, start: Point, goal: Point, dist: Distance, u: Point, s2: State)
    requires Searchable(gr) && u in gr.adj && u in s2.g && u in s2.closed
    requires ClosedOptimal(gr, start, s2) && RelaxedExcept(gr, s2, {u}) && Keyed(goal, dist, s2) && Bounded(goal, dist, s2)
    ensures OptInv(gr, start, goal, dist, RelaxFrom(gr, goal, dist, OnEveryImprovement, u, 0, s2))
  {
    var r := RelaxFrom(gr, goal, dist, OnEveryImprovement, u, 0, s2);
    RelaxDecreases(gr, goal, dist, u, 0, s2);
    RelaxKeyed(gr, goal, dist, u, 0, s2);
    RelaxBounded(gr, goal, dist, u, 0, s2);
    RelaxRelaxes(gr, goal, dist, u, 0, s2);
    DecreasedKeeps(gr, start, s2, r, {u});
    CoverRelaxed(gr, r, u);
  }

  lemma SkipOpt(gr: Graph, start: Point, goal: Point, dist: Distance, s: State)
    requires Inv(gr, start, goal, dist, s) && OptInv(gr, start, goal, dist, s)
    requires s.heap != [] && Pop(s).0 in s.closed
    ensures OptInv(gr, start, goal, dist, Pop(s).1)
  {
    KeyedPop(goal, dist, s, Pop(s).1);
    BoundedPop(goal, dist, s, Pop(s).1);
  }

  lemma StepOpt(gr: Graph, start: Point, goal: Point, dist: Distance, s: State)
    requires Assumptions(gr, goal, dist) && Inv(gr, start, goal, dist, s) && OptInv(gr, start, goal, dist, s)
    requires s.heap != []
    ensures var r := Step(gr, goal, dist, OnEveryImprovement, s);
      r.Continue? ==> OptInv(gr, start, goal, dist, r.next)
  {
    var (u, s1) := Pop(s);
    if u in s.closed {
      SkipOpt(gr, start, goal, dist, s);
    } else if u != goal {
      ExpandOpt(gr, start, goal, dist, s);
    }
  }

  // ---------------------------------------------------------------------------
  // The outcome
  // ---------------------------------------------------------------------------

  lemma {:induction false} RunOptimal(gr: Graph, start: Point, goal: Point, dist: Distance, s: State)
    requires Assumptions(gr, goal, dist) && Inv(gr, start, goal, dist, s) && OptInv(gr, start, goal, dist, s)
    ensures var o := Run(gr, goal, dist, OnEveryImprovement, s);
      o.Found? ==> forall q | WalkTo(gr, start, goal, q) :: o.distance <= PathCost(gr, q)
    decreases |gr.adj.Keys - ClosedSet(s)|, |s.heap|
  {
    if s.heap != [] {
      match Step(gr, goal, dist, OnEveryImprovement, s)
      case Stop(o) =>
        StepStop(gr, start, goal, dist, OnEveryImprovement, s);
        forall q | WalkTo(gr, start, goal, q)
          ensures o.distance <= PathCost(gr, q)
        {
          PopOptimal(gr, start, goal, dist, s, q);
        }
      case Continue(next) =>
        StepInv(gr, start, goal, dist, OnEveryImprovement, s);
        StepOpt(gr, start, goal, dist, s);
        if ClosedSet(next) != ClosedSet(s) {
          StrictSubsetSmallerDifference(ClosedSet(s), ClosedSet(next), gr.adj.Keys);
        }
        RunOptimal(gr, start, goal, dist, next);
    }
  }

  /** With every improvement pushed, non-negative weights and a consistent heuristic,
    * the returned path is a shortest walk from the start to the goal. */
  lemma SearchOptimal(gr: Graph, start: Point, goal: Point, dist: Distance)
    requires Searchable(gr) && NonNegWeights(gr) && Consistent(gr, goal, dist)
    ensures var o := Search(gr, start, goal, dist, OnEveryImprovement);
      o.Found? ==>
        && WalkTo(gr, start, goal, o.path) && o.distance == PathCost(gr, o.path)
        && forall q | WalkTo(gr, start, goal, q) :: o.distance <= PathCost(gr, q)
  {
    SearchFoundIsPath(gr, start, goal, dist, OnEveryImprovement);
    if start in gr.adj && goal in gr.adj {
      InitInv(gr, start, goal, dist);
      RunOptimal(gr, start, goal, dist, Init(start, goal, dist));
    }
  }

  /** On a graph built by `make_graph` with a metric distance as weights and heuristic. */
  lemma SearchOptimalOnMetricGraph(gr: Graph, start: Point, goal: Point, dist: Distance)
    requires Valid(gr) && WeightsAreDistances(gr, dist) && Metric(dist)
    ensures var o := Search(gr, start, goal, dist, OnEveryImprovement);
      o.Found? ==> forall q | WalkTo(gr, start, goal, q) :: o.distance <= PathCost(gr, q)
  {
    ValidSearchable(gr);
    MetricWeightsConsistent(gr, goal, dist);
    SearchOptimal(gr, start, goal, dist);
  }
}
