/** What `_astar_search` promises under either push rule: `NodeNotFound` exactly when an
  * endpoint is missing, a returned path is a walk from start to goal whose cost is the
  * returned distance, and `NoPath` only when no walk reaches the goal. */
module AStarCorrectness {
  import opened Geo
  import opened NxGraph
  import opened AStar

  /** The nodes that have an entry in the heap. */
  function HeapNodes(h: seq<Entry>): (r: set<Point>)
    ensures forall i | 0 <= i < |h| :: h[i].node in r
  {
    set e | e in h :: e.node
  }

  lemma HeapNodesAppend(h: seq<Entry>, e: Entry)
    ensures HeapNodes(h + [e]) == HeapNodes(h) + {e.node}
  {
    assert forall x | x in h + [e] :: x in h || x == e;
  }

  /** Removing the popped entry keeps every other node's entries. */
  lemma HeapNodesRemoveAt(h: seq<Entry>, k: nat, y: Point)
    requires k < |h| && y in HeapNodes(h) && y != h[k].node
    ensures y in HeapNodes(RemoveAt(h, k))
  {
    var e :| e in h && e.node == y;
    var i :| 0 <= i < |h| && h[i] == e;
    var r := RemoveAt(h, k);
    if i < k {
      assert r[i] == e;
    } else {
      assert r[i - 1] == e;
    }
  }

  // ---------------------------------------------------------------------------
  // The invariant of the search loop
  // ---------------------------------------------------------------------------

  /** Before the first node is closed the state is the initial one; the start is the
    * first node closed. */
  ghost predicate Begun(start: Point, goal: Point, dist: Distance, s: State)
  {
    && (s.closed == [] ==> s == Init(start, goal, dist))
    && (s.closed != [] ==> s.closed[0] == start)
  }

  /** `came_from[x]` is a neighbour of `x` and `g[x]` is its g-score plus the edge. */
  ghost predicate Link(gr: Graph, s: State, x: Point)
    requires x in s.cameFrom
  {
    var p := s.cameFrom[x];
    && x in s.g && p in s.g && p in gr.adj && x in gr.adj[p] && (p, x) in gr.attrs
    && s.g[x] == s.g[p] + Weight(gr, p, x)
  }

  /** The predecessor links form a tree rooted at the start, with g-score 0. */
  ghost predicate Tree(gr: Graph, start: Point, s: State)
  {
    && start in gr.adj && start in s.g && s.g[start] == 0.0 && start !in s.cameFrom
    && (forall x | x in s.g :: x == start || x in s.cameFrom)
    && (forall x | x in s.cameFrom :: Link(gr, s, x))
  }

  /** Every neighbour of a closed node other than `except` has been seen. */
  ghost predicate Covered(gr: Graph, s: State, except: set<Point>)
  {
    forall x, y | x in s.closed && x !in except && x in gr.adj && y in gr.adj[x] :: y in s.closed || y in s.g
  }

  /** A node seen but not closed, or marked open, still has an entry in the heap. */
  ghost predicate Queued(s: State)
  {
    && (forall y | y in s.g && y !in s.closed :: y in HeapNodes(s.heap))
    && (forall y | y in s.open :: y in HeapNodes(s.heap))
  }

  ghost predicate Inv(gr: Graph, start: Point, goal: Point, dist: Distance, s: State)
  {
    && Wf(gr, s) && Begun(start, goal, dist, s) && Tree(gr, start, s)
    && Covered(gr, s, {}) && Queued(s) && goal !in s.closed
  }

  lemma InitInv(gr: Graph, start: Point, goal: Point, dist: Distance)
    requires start in gr.adj
    ensures Inv(gr, start, goal, dist, Init(start, goal, dist))
  {
    assert Init(start, goal, dist).heap[0].node == start;
  }

  // --- one neighbour ---------------------------------------------------------

  /** What one neighbour visit changes: nothing, or the neighbour's link and g-score,
    * with or without a new heap entry for it. */
  lemma VisitShape(gr: Graph, goal: Point, dist: Distance, rule: PushRule, current: Point, nb: Point, s: State)
    requires Searchable(gr) && current in s.g && Adjacent(gr, current, nb)
    ensures var r := Visit(gr, goal, dist, rule, current, nb, s);
      && r.closed == s.closed && (nb in r.closed || nb in r.g)
      && (r == s || (nb !in s.closed && r.cameFrom == s.cameFrom[nb := current]
                     && r.g == s.g[nb := s.g[current] + Weight(gr, current, nb)]))
      && ((r.heap == s.heap && r.open == s.open && r.counter == s.counter && (r != s ==> nb in s.open))
          || (|r.heap| > 0 && r.heap == s.heap + [r.heap[|r.heap| - 1]] && r.heap[|r.heap| - 1].node == nb
              && r.open == s.open + {nb} && r.counter == s.counter + 1 && nb !in s.closed
              && (rule == OnlyIfNotQueued ==> nb !in s.open)))
  {
  }

  /** Re-linking a node that is neither the start nor closed keeps the tree. */
  lemma RelinkTree(gr: Graph, start: Point, s: State, r: State, current: Point, nb: Point)
    requires Searchable(gr) && Tree(gr, start, s) && Ranked(s.cameFrom, s.closed)
    requires current in s.closed && start in s.closed && nb !in s.closed
    requires current in gr.adj && nb in gr.adj[current] && current in s.g
    requires r.cameFrom == s.cameFrom[nb := current]
    requires r.g == s.g[nb := s.g[current] + Weight(gr, current, nb)]
    ensures Tree(gr, start, r)
  {
    forall x | x in r.cameFrom
      ensures Link(gr, r, x)
    {
      if x != nb {
        assert s.cameFrom[x] in s.closed;
        assert Link(gr, s, x);
      }
    }
  }

  /** A heap that only grows, and an open set that grows only with pushed nodes,
    * keep every node queued that is seen and not closed. */
  lemma GrowQueued(s: State, r: State, nb: Point)
    requires Queued(s) && r.closed == s.closed && r.g.Keys <= s.g.Keys + {nb}
    requires || (r.heap == s.heap && r.open == s.open && (nb in r.g && nb !in s.g ==> nb in s.open))
             || (|r.heap| > 0 && r.heap == s.heap + [r.heap[|r.heap| - 1]] && r.heap[|r.heap| - 1].node == nb
                 && r.open == s.open + {nb})
    ensures Queued(r)
  {
    if r.heap != s.heap {
      HeapNodesAppend(s.heap, r.heap[|r.heap| - 1]);
    }
  }

  /** The neighbour loop keeps the predecessor tree. */
  lemma {:induction false} RelaxTree(gr: Graph, start: Point, goal: Point, dist: Distance, rule: PushRule, current: Point, j: nat, s: State)
    requires Searchable(gr) && Wf(gr, s) && Tree(gr, start, s)
    requires current in gr.adj && current in s.g && j <= |gr.adj[current]|
    requires s.closed != [] && s.closed[0] == start && s.closed[|s.closed| - 1] == current
    ensures Tree(gr, start, RelaxFrom(gr, goal, dist, rule, current, j, s))
    decreases |gr.adj[current]| - j
  {
    if j < |gr.adj[current]| {
      var nb := gr.adj[current][j];
      VisitTree(gr, start, goal, dist, rule, current, nb, s);
      RelaxTree(gr, start, goal, dist, rule, current, j + 1, Visit(gr, goal, dist, rule, current, nb, s));
    }
  }

  /** One neighbour visit keeps the state well-formed and the tree. */
  lemma VisitTree(gr: Graph, start: Point, goal: Point, dist: Distance, rule: PushRule, current: Point, nb: Point, s: State)
    requires Searchable(gr) && Wf(gr, s) && Tree(gr, start, s)
    requires current in gr.adj && current in s.g && nb in gr.adj[current]
    requires s.closed != [] && s.closed[0] == start && s.closed[|s.closed| - 1] == current
    ensures var r := Visit(gr, goal, dist, rule, current, nb, s);
      Wf(gr, r) && Tree(gr, start, r) && r.closed == s.closed && current in r.g
  {
    var r := Visit(gr, goal, dist, rule, current, nb, s);
    VisitWf(gr, goal, dist, rule, current, nb, s);
    VisitShape(gr, goal, dist, rule, current, nb, s);
    if r != s {
      assert s.closed[0] in s.closed && s.closed[|s.closed| - 1] in s.closed;
      RelinkTree(gr, start, s, r, current, nb);
    }
  }

  /** The neighbour loop keeps every seen, unclosed node queued. */
  lemma {:induction false} RelaxQueued(gr: Graph, goal: Point, dist: Distance, rule: PushRule, current: Point, j: nat, s: State)
    requires Searchable(gr) && Queued(s)
    requires current in gr.adj && current in s.g && j <= |gr.adj[current]|
    ensures Queued(RelaxFrom(gr, goal, dist, rule, current, j, s))
    decreases |gr.adj[current]| - j
  {
    if j < |gr.adj[current]| {
      var nb := gr.adj[current][j];
      VisitShape(gr, goal, dist, rule, current, nb, s);
      GrowQueued(s, Visit(gr, goal, dist, rule, current, nb, s), nb);
      RelaxQueued(gr, goal, dist, rule, current, j + 1, Visit(gr, goal, dist, rule, current, nb, s));
    }
  }

  /** After the neighbour loop every neighbour of `current` is closed or seen. */
  lemma {:induction false} RelaxSees(gr: Graph, goal: Point, dist: Distance, rule: PushRule, current: Point, j: nat, s: State)
    requires Searchable(gr) && current in gr.adj && current in s.g && j <= |gr.adj[current]|
    requires forall i | 0 <= i < j :: gr.adj[current][i] in s.closed || gr.adj[current][i] in s.g
    ensures var r := RelaxFrom(gr, goal, dist, rule, current, j, s);
      forall i | 0 <= i < |gr.adj[current]| :: gr.adj[current][i] in r.closed || gr.adj[current][i] in r.g
    decreases |gr.adj[current]| - j
  {
    if j < |gr.adj[current]| {
      var nb := gr.adj[current][j];
      var r := Visit(gr, goal, dist, rule, current, nb, s);
      VisitShape(gr, goal, dist, rule, current, nb, s);
      assert forall i | 0 <= i < j + 1 :: gr.adj[current][i] in r.closed || gr.adj[current][i] in r.g;
      RelaxSees(gr, goal, dist, rule, current, j + 1, r);
    }
  }

  lemma CoveredGrow(gr: Graph, s: State, r: State, except: set<Point>)
    requires Covered(gr, s, except) && r.closed == s.closed && s.g.Keys <= r.g.Keys
    ensures Covered(gr, r, except)
  {
  }

  lemma CoverLast(gr: Graph, current: Point, s: State)
    requires current in gr.adj && Covered(gr, s, {current})
    requires forall i | 0 <= i < |gr.adj[current]| :: gr.adj[current][i] in s.closed || gr.adj[current][i] in s.g
    ensures Covered(gr, s, {})
  {
    forall x, y | x in s.closed && x in gr.adj && y in gr.adj[x]
      ensures y in s.closed || y in s.g
    {
      if x == current {
        var i :| 0 <= i < |gr.adj[current]| && gr.adj[current][i] == y;
      }
    }
  }

  // --- one iteration ---------------------------------------------------------

  /** Popping keeps the heap entries of every other node. */
  lemma PopQueued(s: State, y: Point)
    requires s.heap != [] && y in HeapNodes(s.heap) && y != Pop(s).0
    ensures y in HeapNodes(Pop(s).1.heap)
  {
    HeapNodesRemoveAt(s.heap, MinIndex(s.heap), y);
  }

  /** The popped node is a node of the graph with a g-score. */
  lemma PoppedSeen(gr: Graph, s: State)
    requires Wf(gr, s) && s.heap != []
    ensures Pop(s).0 in gr.adj && Pop(s).0 in s.g
  {
    assert s.heap[MinIndex(s.heap)] in s.heap;
  }

  /** Popping keeps every other seen, unclosed node queued. */
  lemma PopKeepsQueued(s: State, s2: State, current: Point)
    requires Queued(s) && s.heap != [] && Pop(s).0 == current
    requires s2 == Pop(s).1.(closed := s.closed + [current])
    ensures Queued(s2)
  {
    forall y | y in s2.g && y !in s2.closed
      ensures y in HeapNodes(s2.heap)
    {
      PopQueued(s, y);
    }
    forall y | y in s2.open
      ensures y in HeapNodes(s2.heap)
    {
      PopQueued(s, y);
    }
  }

  /** The first node popped is the start. */
  lemma PopFirst(start: Point, goal: Point, dist: Distance, s: State)
    requires Begun(start, goal, dist, s) && s.heap != []
    ensures (s.closed + [Pop(s).0])[0] == start
  {
    if s.closed == [] {
      assert s.heap == [Entry(0.0, 0, start)];
    }
  }

  lemma CloseCovered(gr: Graph, s: State, s2: State, current: Point)
    requires Covered(gr, s, {}) && s2.closed == s.closed + [current] && s2.g == s.g
    ensures Covered(gr, s2, {current})
  {
  }

  /** Relaxing the neighbours of the node closed last restores the invariant. */
  lemma RelaxInv(gr: Graph, start: Point, goal: Point, dist: Distance, rule: PushRule, current: Point, s2: State)
    requires Searchable(gr) && current in gr.adj && current in s2.g
    requires Wf(gr, s2) && Tree(gr, start, s2) && Queued(s2) && Covered(gr, s2, {current})
    requires s2.closed != [] && s2.closed[0] == start && s2.closed[|s2.closed| - 1] == current && goal !in s2.closed
    ensures Inv(gr, start, goal, dist, RelaxFrom(gr, goal, dist, rule, current, 0, s2))
  {
    var r := RelaxFrom(gr, goal, dist, rule, current, 0, s2);
    RelaxWf(gr, goal, dist, rule, current, 0, s2);
    RelaxTree(gr, start, goal, dist, rule, current, 0, s2);
    RelaxQueued(gr, goal, dist, rule, current, 0, s2);
    RelaxSees(gr, goal, dist, rule, current, 0, s2);
    CoveredGrow(gr, s2, r, {current});
    CoverLast(gr, current, r);
  }

  /** Closing a node and relaxing its neighbours keeps the invariant. */
  lemma ExpandInv(gr: Graph, start: Point, goal: Point, dist: Distance, rule: PushRule, s: State)
    requires Searchable(gr) && Inv(gr, start, goal, dist, s) && s.heap != []
    requires Pop(s).0 !in s.closed && Pop(s).0 != goal
    ensures Pop(s).0 in gr.adj && Pop(s).0 in s.g
    ensures Inv(gr, start, goal, dist, Expand(gr, goal, dist, rule, Pop(s).0, Pop(s).1))
  {
    var (current, s1) := Pop(s);
    PoppedSeen(gr, s);
    var s2 := s1.(closed := s1.closed + [current]);
    CloseWf(gr, s, s2, current);
    CloseTree(gr, start, s, s2);
    PopFirst(start, goal, dist, s);
    PopKeepsQueued(s, s2, current);
    CloseCovered(gr, s, s2, current);
    RelaxInv(gr, start, goal, dist, rule, current, s2);
  }

  lemma CloseWf(gr: Graph, s: State, s2: State, current: Point)
    requires Wf(gr, s) && s.heap != [] && Pop(s).0 == current && current !in s.closed
    requires s2 == Pop(s).1.(closed := s.closed + [current])
    ensures Wf(gr, s2)
  {
    PoppedSeen(gr, s);
    CloseKeepsRanked(s.cameFrom, s.closed, current);
    forall e | e in s2.heap
      ensures e.node in gr.adj && e.node in s2.g
    {
      var k := MinIndex(s.heap);
      var i :| 0 <= i < |s2.heap| && s2.heap[i] == e;
      if i < k {
        assert s.heap[i] == e;
      } else {
        assert s.heap[i + 1] == e;
      }
    }
  }

  lemma CloseTree(gr: Graph, start: Point, s: State, s2: State)
    requires Tree(gr, start, s) && s2.g == s.g && s2.cameFrom == s.cameFrom
    ensures Tree(gr, start, s2)
  {
    forall x | x in s2.cameFrom
      ensures Link(gr, s2, x)
    {
      assert Link(gr, s, x);
    }
  }


  lemma SkipPopped(gr: Graph, start: Point, goal: Point, dist: Distance, s: State)
    requires Searchable(gr) && Inv(gr, start, goal, dist, s) && s.heap != []
    requires Pop(s).0 in s.closed
    ensures Inv(gr, start, goal, dist, Pop(s).1)
  {
    var (current, s1) := Pop(s);
    forall y | y in s1.g && y !in s1.closed
      ensures y in HeapNodes(s1.heap)
    {
      PopQueued(s, y);
    }
    forall y | y in s1.open
      ensures y in HeapNodes(s1.heap)
    {
      PopQueued(s, y);
    }
  }

  /** Every iteration that does not stop keeps the invariant. */
  lemma StepInv(gr: Graph, start: Point, goal: Point, dist: Distance, rule: PushRule, s: State)
    requires Searchable(gr) && Inv(gr, start, goal, dist, s) && s.heap != []
    ensures Step(gr, goal, dist, rule, s).Continue? ==> Inv(gr, start, goal, dist, Step(gr, goal, dist, rule, s).next)
  {
    var (current, s1) := Pop(s);
    if current in s1.closed {
      SkipPopped(gr, start, goal, dist, s);
    } else if current != goal {
      ExpandInv(gr, start, goal, dist, rule, s);
    }
  }

  /** An iteration that stops returns the goal's g-score and its predecessor chain. */
  lemma StepStop(gr: Graph, start: Point, goal: Point, dist: Distance, rule: PushRule, s: State)
    requires Searchable(gr) && Inv(gr, start, goal, dist, s) && s.heap != []
    requires Step(gr, goal, dist, rule, s).Stop?
    ensures goal in s.g
    ensures Step(gr, goal, dist, rule, s).outcome == Found(s.g[goal], Reconstruct(s.cameFrom, goal, s.closed))
  {
    assert s.heap[MinIndex(s.heap)] in s.heap;
  }

  // ---------------------------------------------------------------------------
  // Paths
  // ---------------------------------------------------------------------------

  lemma PathSnoc(gr: Graph, p: seq<Point>, x: Point)
    requires IsPath(gr, p) && x in gr.adj && x in gr.adj[p[|p| - 1]] && (p[|p| - 1], x) in gr.attrs
    ensures IsPath(gr, p + [x])
    ensures PathCost(gr, p + [x]) == PathCost(gr, p) + Weight(gr, p[|p| - 1], x)
  {
    var r := p + [x];
    forall i | 0 <= i < |r| - 1
      ensures EdgeAt(gr, r, i)
    {
      if i < |p| - 1 {
        assert EdgeAt(gr, p, i);
      }
    }
    assert r[..|p|] == p;
  }

  /** `_reconstruct_path` from a node with a g-score walks back to the start along
    * edges, and the weights along the walk add up to that g-score. */
  lemma {:induction false} ReconstructValid(gr: Graph, start: Point, s: State, x: Point)
    requires Searchable(gr) && Tree(gr, start, s) && Ranked(s.cameFrom, s.closed) && x in s.g
    ensures var p := Reconstruct(s.cameFrom, x, s.closed);
      IsPath(gr, p) && p[0] == start && p[|p| - 1] == x && PathCost(gr, p) == s.g[x]
    decreases Rank(s.closed, x)
  {
    if x in s.cameFrom {
      var y := s.cameFrom[x];
      assert Link(gr, s, x);
      ReconstructValid(gr, start, s, y);
      var q := Reconstruct(s.cameFrom, y, s.closed);
      PathSnoc(gr, q, x);
    }
  }

  /** Every node of a walk that starts in a set closed under adjacency lies in it. */
  lemma {:induction false} PathStaysIn(gr: Graph, p: seq<Point>, c: set<Point>)
    requires IsPath(gr, p) && p[0] in c
    requires forall x, y | x in c && x in gr.adj && y in gr.adj[x] :: y in c
    ensures forall i | 0 <= i < |p| :: p[i] in c
  {
    if |p| > 1 {
      var q := p[..|p| - 1];
      PathPrefix(gr, p, |p| - 1);
      PathStaysIn(gr, q, c);
      assert p[|p| - 2] in c && EdgeAt(gr, p, |p| - 2);
    }
  }

  /** An iteration that stops returns a walk from the start to the goal and its cost. */
  lemma StopOutcome(gr: Graph, start: Point, goal: Point, dist: Distance, rule: PushRule, s: State)
    requires Searchable(gr) && Inv(gr, start, goal, dist, s) && s.heap != []
    requires Step(gr, goal, dist, rule, s).Stop?
    ensures var o := Step(gr, goal, dist, rule, s).outcome;
      && o.Found? && IsPath(gr, o.path) && o.path[0] == start && o.path[|o.path| - 1] == goal
      && o.distance == PathCost(gr, o.path)
  {
    StepStop(gr, start, goal, dist, rule, s);
    ReconstructValid(gr, start, s, goal);
  }

  // ---------------------------------------------------------------------------
  // The outcome of the loop
  // ---------------------------------------------------------------------------

  /** A walk from the start that ends at the goal. */
  ghost predicate WalkTo(gr: Graph, start: Point, goal: Point, p: seq<Point>)
  {
    IsPath(gr, p) && p[0] == start && p[|p| - 1] == goal
  }

  /** The loop returns a walk from the start to the goal whose cost is the returned
    * distance, or `NoPath` when no walk from the start reaches the goal; it never
    * returns `NodeNotFound`. */
  lemma {:induction false} RunOutcome(gr: Graph, start: Point, goal: Point, dist: Distance, rule: PushRule, s: State)
    requires Searchable(gr) && Inv(gr, start, goal, dist, s)
    ensures var o := Run(gr, goal, dist, rule, s);
      && !o.NodeNotFound?
      && (o.Found? ==> WalkTo(gr, start, goal, o.path) && o.distance == PathCost(gr, o.path))
      && (o.NoPath? ==> forall p | IsPath(gr, p) && p[0] == start :: p[|p| - 1] != goal)
    decreases |gr.adj.Keys - ClosedSet(s)|, |s.heap|
  {
    if s.heap == [] {
      var c := ClosedSet(s);
      forall p | IsPath(gr, p) && p[0] == start
        ensures p[|p| - 1] != goal
      {
        PathStaysIn(gr, p, c);
      }
    } else {
      match Step(gr, goal, dist, rule, s)
      case Stop(o) =>
        StopOutcome(gr, start, goal, dist, rule, s);
      case Continue(next) =>
        StepInv(gr, start, goal, dist, rule, s);
        if ClosedSet(next) != ClosedSet(s) {
          StrictSubsetSmallerDifference(ClosedSet(s), ClosedSet(next), gr.adj.Keys);
        }
        RunOutcome(gr, start, goal, dist, rule, next);
    }
  }

  /** `NodeNotFound` is raised exactly when the start or the goal is not a node. */
  lemma SearchNodeNotFound(gr: Graph, start: Point, goal: Point, dist: Distance, rule: PushRule)
    requires Searchable(gr)
    ensures Search(gr, start, goal, dist, rule) == NodeNotFound <==> (start !in gr.adj || goal !in gr.adj)
  {
    if start in gr.adj && goal in gr.adj {
      InitInv(gr, start, goal, dist);
      RunOutcome(gr, start, goal, dist, rule, Init(start, goal, dist));
    }
  }

  /** A returned path begins at the start, ends at the goal, follows edges, and the
    * returned distance is the sum of its edge weights. */
  lemma SearchFoundIsPath(gr: Graph, start: Point, goal: Point, dist: Distance, rule: PushRule)
    requires Searchable(gr)
    ensures var o := Search(gr, start, goal, dist, rule);
      o.Found? ==> WalkTo(gr, start, goal, o.path) && o.distance == PathCost(gr, o.path)
  {
    if start in gr.adj && goal in gr.adj {
      InitInv(gr, start, goal, dist);
      RunOutcome(gr, start, goal, dist, rule, Init(start, goal, dist));
    }
  }

  /** `NetworkXNoPath` is raised only when no walk from the start reaches the goal. */
  lemma SearchNoPathComplete(gr: Graph, start: Point, goal: Point, dist: Distance, rule: PushRule)
    requires Searchable(gr)
    ensures Search(gr, start, goal, dist, rule) == NoPath ==>
      forall p | IsPath(gr, p) && p[0] == start :: p[|p| - 1] != goal
  {
    if start in gr.adj && goal in gr.adj {
      InitInv(gr, start, goal, dist);
      RunOutcome(gr, start, goal, dist, rule, Init(start, goal, dist));
    }
  }

  /** A walk to the goal exists exactly when the search finds one. */
  lemma SearchFindsReachable(gr: Graph, start: Point, goal: Point, dist: Distance, rule: PushRule)
    requires Searchable(gr) && start in gr.adj && goal in gr.adj
    ensures Search(gr, start, goal, dist, rule).Found? <==> exists p :: WalkTo(gr, start, goal, p)
  {
    InitInv(gr, start, goal, dist);
    RunOutcome(gr, start, goal, dist, rule, Init(start, goal, dist));
    var o := Search(gr, start, goal, dist, rule);
    if o.Found? {
      assert WalkTo(gr, start, goal, o.path);
    } else {
      assert o.NoPath?;
    }
  }

  /** When the start is the goal the first pop returns `(0, [start])`. */
  lemma SearchSameNode(gr: Graph, start: Point, dist: Distance, rule: PushRule)
    requires Searchable(gr) && start in gr.adj
    ensures Search(gr, start, start, dist, rule) == Found(0.0, [start])
  {
    var s := Init(start, start, dist);
    assert Pop(s).0 == start;
  }
}
