/** `GraphService._astar_search` and `_reconstruct_path`.
  *
  * The search is specified as a function of its state: `Step` is one iteration of
  * the `while open_set` loop and `Run` iterates it. `AStarSearch` is the loop itself,
  * written as in the source and proved to compute `Search`. The push rule is a
  * parameter: `OnlyIfNotQueued` is the code as written (a node whose g-score improves
  * is pushed only when it is not in `open_set_hash`), `OnEveryImprovement` pushes a
  * fresh entry on every improvement. */
module AStar {
  import opened Geo
  import opened NxGraph

  /** What the search needs of the graph: every adjacency has an attribute dict. */
  ghost predicate Searchable(gr: Graph)
  {
    forall u, v | u in gr.adj && v in gr.adj[u] :: v in gr.adj && (u, v) in gr.attrs
  }

  lemma ValidSearchable(gr: Graph)
    requires Valid(gr)
    ensures Searchable(gr)
  {
  }

  /** A heap entry `(f_score, counter, node)`. */
  datatype Entry = Entry(f: real, count: nat, node: Point)

  datatype PushRule = OnlyIfNotQueued | OnEveryImprovement

  /** The search's local state. The closed set is kept in the order nodes were closed. */
  datatype State = State(
    heap: seq<Entry>,
    counter: nat,
    cameFrom: map<Point, Point>,
    g: map<Point, real>,
    f: map<Point, real>,
    closed: seq<Point>,
    open: set<Point>)

  /** `NodeNotFound` and `NoPath` are the exceptions networkx raises. */
  datatype Outcome = NodeNotFound | NoPath | Found(distance: real, path: seq<Point>)

  datatype Phase = Continue(next: State) | Stop(outcome: Outcome)

  /** Python's tuple order on `(f, counter, ...)`; counters are never equal. */
  predicate Before(a: Entry, b: Entry)
  {
    a.f < b.f || (a.f == b.f && a.count < b.count)
  }

  /** The position `heapq.heappop` takes its entry from: a smallest one. */
  function MinIndex(h: seq<Entry>): (k: nat)
    requires |h| > 0
    ensures k < |h|
    ensures forall j | 0 <= j < |h| :: !Before(h[j], h[k])
  {
    if |h| == 1 then 0
    else
      var k := MinIndex(h[1..]) + 1;
      assert forall j | 1 <= j < |h| :: h[j] == h[1..][j - 1];
      if Before(h[k], h[0]) then k else 0
  }

  function RemoveAt<T>(s: seq<T>, k: nat): (r: seq<T>)
    requires k < |s|
    ensures |r| == |s| - 1
    ensures forall j | 0 <= j < k :: r[j] == s[j]
    ensures forall j | k <= j < |r| :: r[j] == s[j + 1]
  {
    s[..k] + s[k + 1..]
  }

  function ClosedSet(s: State): set<Point>
  {
    set x | x in s.closed
  }

  /** The first position of `x` in `s`. */
  function IndexOf<T(==)>(s: seq<T>, x: T): (k: nat)
    requires x in s
    ensures k < |s| && s[k] == x
    ensures forall j | 0 <= j < k :: s[j] != x
  {
    if s[0] == x then 0 else 1 + IndexOf(s[1..], x)
  }

  /** Every predecessor is a closed node, closed before its successor. */
  ghost predicate Ranked(cameFrom: map<Point, Point>, closed: seq<Point>)
  {
    forall x | x in cameFrom ::
      cameFrom[x] in closed && (x in closed ==> IndexOf(closed, cameFrom[x]) < IndexOf(closed, x))
  }

  function Rank(closed: seq<Point>, x: Point): nat
  {
    if x in closed then IndexOf(closed, x) else |closed|
  }

  /** `_reconstruct_path(came_from, x)`: follows predecessors back, then reverses. */
  function Reconstruct(cameFrom: map<Point, Point>, x: Point, closed: seq<Point>): (p: seq<Point>)
    requires Ranked(cameFrom, closed)
    ensures |p| >= 1 && p[|p| - 1] == x
    decreases Rank(closed, x)
  {
    if x in cameFrom then Reconstruct(cameFrom, cameFrom[x], closed) + [x] else [x]
  }

  /** The facts every state of the loop keeps and the loop's definition needs. */
  ghost predicate Wf(gr: Graph, s: State)
  {
    && (forall e | e in s.heap :: e.node in gr.adj && e.node in s.g)
    && (forall x | x in s.closed :: x in gr.adj && x in s.g)
    && Ranked(s.cameFrom, s.closed)
  }

  /** One iteration of `for neighbor in graph.neighbors(current)`. */
  function Visit(gr: Graph, goal: Point, dist: Distance, rule: PushRule, current: Point, nb: Point, s: State): (r: State)
    requires Searchable(gr) && current in s.g && Adjacent(gr, current, nb)
    ensures r.closed == s.closed && s.g.Keys <= r.g.Keys
  {
    if nb in s.closed then s
    else
      var tentative := s.g[current] + Weight(gr, current, nb);
      if nb !in s.g || tentative < s.g[nb] then
        var fNew := tentative + dist(nb, goal);
        var s1 := s.(cameFrom := s.cameFrom[nb := current], g := s.g[nb := tentative], f := s.f[nb := fNew]);
        if rule == OnEveryImprovement || nb !in s1.open then
          s1.(counter := s1.counter + 1, heap := s1.heap + [Entry(fNew, s1.counter + 1, nb)], open := s1.open + {nb})
        else s1
      else s
  }

  /** The neighbour loop from position `j` of `graph.neighbors(current)` on. */
  function RelaxFrom(gr: Graph, goal: Point, dist: Distance, rule: PushRule, current: Point, j: nat, s: State): (r: State)
    requires Searchable(gr) && current in gr.adj && current in s.g && j <= |gr.adj[current]|
    ensures r.closed == s.closed && s.g.Keys <= r.g.Keys
    decreases |gr.adj[current]| - j
  {
    if j == |gr.adj[current]| then s
    else RelaxFrom(gr, goal, dist, rule, current, j + 1, Visit(gr, goal, dist, rule, current, gr.adj[current][j], s))
  }

  /** Visiting a neighbour of the node closed last keeps `Wf`. */
  lemma VisitWf(gr: Graph, goal: Point, dist: Distance, rule: PushRule, current: Point, nb: Point, s: State)
    requires Searchable(gr) && Wf(gr, s) && current in s.g && Adjacent(gr, current, nb)
    requires s.closed != [] && s.closed[|s.closed| - 1] == current
    ensures Wf(gr, Visit(gr, goal, dist, rule, current, nb, s))
  {
    var r := Visit(gr, goal, dist, rule, current, nb, s);
    assert nb in gr.adj;
    if nb !in s.closed && r != s {
      assert r.cameFrom == s.cameFrom[nb := current];
      forall x | x in r.cameFrom
        ensures r.cameFrom[x] in r.closed && (x in r.closed ==> IndexOf(r.closed, r.cameFrom[x]) < IndexOf(r.closed, x))
      {
        if x != nb {
          assert r.cameFrom[x] == s.cameFrom[x];
        }
      }
    }
  }

  lemma {:induction false} RelaxWf(gr: Graph, goal: Point, dist: Distance, rule: PushRule, current: Point, j: nat, s: State)
    requires Searchable(gr) && Wf(gr, s) && current in gr.adj && current in s.g && j <= |gr.adj[current]|
    requires s.closed != [] && s.closed[|s.closed| - 1] == current
    ensures Wf(gr, RelaxFrom(gr, goal, dist, rule, current, j, s))
    decreases |gr.adj[current]| - j
  {
    if j < |gr.adj[current]| {
      VisitWf(gr, goal, dist, rule, current, gr.adj[current][j], s);
      RelaxWf(gr, goal, dist, rule, current, j + 1, Visit(gr, goal, dist, rule, current, gr.adj[current][j], s));
    }
  }

  /** Closing a node that is not yet closed keeps the predecessor ranking. */
  lemma CloseKeepsRanked(cameFrom: map<Point, Point>, closed: seq<Point>, x: Point)
    requires Ranked(cameFrom, closed) && x !in closed
    ensures Ranked(cameFrom, closed + [x])
  {
    var c := closed + [x];
    forall y | y in c
      ensures IndexOf(c, y) == if y in closed then IndexOf(closed, y) else |closed|
    {
      IndexOfAppend(closed, x, y);
    }
  }

  lemma {:induction false} IndexOfAppend(s: seq<Point>, x: Point, y: Point)
    requires y in s + [x]
    ensures IndexOf(s + [x], y) == if y in s then IndexOf(s, y) else |s|
  {
    if s != [] && s[0] != y {
      assert (s + [x])[1..] == s[1..] + [x];
      IndexOfAppend(s[1..], x, y);
    }
  }

  /** Closing `current` and relaxing its neighbours. */
  function Expand(gr: Graph, goal: Point, dist: Distance, rule: PushRule, current: Point, s: State): State
    requires Searchable(gr) && current in gr.adj && current in s.g
  {
    RelaxFrom(gr, goal, dist, rule, current, 0, s.(closed := s.closed + [current]))
  }

  /** Closing `current` and relaxing its neighbours keeps `Wf` and closes exactly one
    * more node. */
  lemma ExpandWf(gr: Graph, goal: Point, dist: Distance, rule: PushRule, current: Point, s: State)
    requires Searchable(gr) && Wf(gr, s) && current in gr.adj && current in s.g && current !in s.closed
    ensures var r := Expand(gr, goal, dist, rule, current, s);
      Wf(gr, r) && ClosedSet(r) == ClosedSet(s) + {current}
  {
    var s2 := s.(closed := s.closed + [current]);
    CloseKeepsRanked(s.cameFrom, s.closed, current);
    assert Wf(gr, s2);
    RelaxWf(gr, goal, dist, rule, current, 0, s2);
    assert ClosedSet(s2) == ClosedSet(s) + {current};
  }

  /** Popping the smallest entry. */
  function Pop(s: State): (r: (Point, State))
    requires s.heap != []
    ensures r.1.closed == s.closed && r.1.g == s.g && r.1.cameFrom == s.cameFrom && |r.1.heap| == |s.heap| - 1
    ensures forall e | e in r.1.heap :: e in s.heap
  {
    var k := MinIndex(s.heap);
    var current := s.heap[k].node;
    (current, s.(heap := RemoveAt(s.heap, k), open := s.open - {current}))
  }

  /** One iteration of `while open_set`: pop the smallest entry, skip it if its node is
    * closed, stop at the goal, otherwise close the node and relax its neighbours. A
    * continuing iteration either closes a new node or shrinks the heap. */
  function Step(gr: Graph, goal: Point, dist: Distance, rule: PushRule, s: State): (r: Phase)
    requires Searchable(gr) && Wf(gr, s) && s.heap != []
    ensures r.Continue? ==> Wf(gr, r.next)
    ensures r.Continue? ==>
      || (ClosedSet(r.next) == ClosedSet(s) && |r.next.heap| < |s.heap|)
      || (ClosedSet(s) < ClosedSet(r.next) <= gr.adj.Keys)
  {
    var (current, s1) := Pop(s);
    assert current in s.g && current in gr.adj by {
      assert s.heap[MinIndex(s.heap)] in s.heap;
    }
    if current in s1.closed then Continue(s1)
    else if current == goal then Stop(Found(s1.g[current], Reconstruct(s1.cameFrom, current, s1.closed)))
    else
      ExpandWf(gr, goal, dist, rule, current, s1);
      Continue(Expand(gr, goal, dist, rule, current, s1))
  }

  lemma {:induction false} SubsetCard(a: set<Point>, b: set<Point>)
    requires a <= b
    ensures |a| <= |b|
    decreases |a|
  {
    if a != {} {
      var x :| x in a;
      SubsetCard(a - {x}, b - {x});
    }
  }

  lemma StrictSubsetSmallerDifference(a: set<Point>, b: set<Point>, c: set<Point>)
    requires a < b <= c
    ensures |c - b| < |c - a|
  {
    var x :| x in b && x !in a;
    SubsetCard(c - b, (c - a) - {x});
  }

  /** The loop from state `s` to its end. */
  function Run(gr: Graph, goal: Point, dist: Distance, rule: PushRule, s: State): Outcome
    requires Searchable(gr) && Wf(gr, s)
    decreases |gr.adj.Keys - ClosedSet(s)|, |s.heap|
  {
    if s.heap == [] then NoPath
    else
      match Step(gr, goal, dist, rule, s)
      case Stop(o) => o
      case Continue(next) =>
        if ClosedSet(next) != ClosedSet(s) then
          StrictSubsetSmallerDifference(ClosedSet(s), ClosedSet(next), gr.adj.Keys);
          Run(gr, goal, dist, rule, next)
        else
          Run(gr, goal, dist, rule, next)
  }

  /** The state before the loop: the start is queued with key 0. */
  function Init(start: Point, goal: Point, dist: Distance): State
  {
    State([Entry(0.0, 0, start)], 0, map[], map[start := 0.0], map[start := dist(start, goal)], [], {start})
  }

  /** `_astar_search(graph, start, goal)` with heuristic `dist(node, goal)`. */
  function Search(gr: Graph, start: Point, goal: Point, dist: Distance, rule: PushRule): Outcome
    requires Searchable(gr)
  {
    if start !in gr.adj || goal !in gr.adj then NodeNotFound
    else Run(gr, goal, dist, rule, Init(start, goal, dist))
  }

  /** `p[i]` to `p[i + 1]` is an edge of the graph with an attribute dict. */
  ghost predicate EdgeAt(gr: Graph, p: seq<Point>, i: nat)
    requires i + 1 < |p|
  {
    p[i] in gr.adj && p[i + 1] in gr.adj[p[i]] && (p[i], p[i + 1]) in gr.attrs
  }

  /** A walk along edges of the graph. */
  ghost predicate IsPath(gr: Graph, p: seq<Point>)
  {
    && |p| >= 1
    && (forall i | 0 <= i < |p| :: p[i] in gr.adj)
    && (forall i | 0 <= i < |p| - 1 :: EdgeAt(gr, p, i))
  }

  lemma PathPrefix(gr: Graph, p: seq<Point>, n: nat)
    requires IsPath(gr, p) && 1 <= n <= |p|
    ensures IsPath(gr, p[..n])
  {
    forall i | 0 <= i < n - 1
      ensures EdgeAt(gr, p[..n], i)
    {
      assert EdgeAt(gr, p, i);
    }
  }

  /** The sum of the edge weights along a path (a missing weight counts 1.0). */
  function PathCost(gr: Graph, p: seq<Point>): real
    requires IsPath(gr, p)
    decreases |p|
  {
    if |p| == 1 then 0.0
    else
      PathPrefix(gr, p, |p| - 1);
      assert EdgeAt(gr, p, |p| - 2);
      PathCost(gr, p[..|p| - 1]) + Weight(gr, p[|p| - 2], p[|p| - 1])
  }

  function Reverse<T>(s: seq<T>): (r: seq<T>)
    ensures |r| == |s|
    ensures forall i | 0 <= i < |s| :: r[i] == s[|s| - 1 - i]
  {
    if s == [] then [] else Reverse(s[1..]) + [s[0]]
  }

  /** `_reconstruct_path`: appends predecessors, then reverses the list in place. The
    * ghost closing order only serves to show that the walk back terminates. */
  method ReconstructPath(cameFrom: map<Point, Point>, current: Point, ghost closed: seq<Point>) returns (path: seq<Point>)
    requires Ranked(cameFrom, closed)
    ensures path == Reconstruct(cameFrom, current, closed)
  {
    var node := current;
    path := [node];
    while node in cameFrom
      invariant |path| >= 1 && path[|path| - 1] == node
      invariant Reconstruct(cameFrom, current, closed) == Reconstruct(cameFrom, node, closed) + Reverse(path)[1..]
      decreases Rank(closed, node)
    {
      ghost var before := path;
      assert Reverse(before) == [node] + Reverse(before)[1..];
      node := cameFrom[node];
      path := path + [node];
      assert Reverse(path)[1..] == Reverse(before);
    }
    assert Reverse(path) == [node] + Reverse(path)[1..];
    path := Reverse(path);
  }

  /** One pass of the neighbour loop's body: the locals of the search are bundled in `st`. */
  method VisitNeighbor(gr: Graph, goal: Point, dist: Distance, rule: PushRule, current: Point, neighbor: Point, st: State)
    returns (r: State)
    requires Searchable(gr) && current in st.g && Adjacent(gr, current, neighbor)
    ensures r == Visit(gr, goal, dist, rule, current, neighbor, st)
  {
    r := st;
    if neighbor !in r.closed {
      var edgeWeight := Weight(gr, current, neighbor);
      var tentativeG := r.g[current] + edgeWeight;
      if neighbor !in r.g || tentativeG < r.g[neighbor] {
        r := r.(cameFrom := r.cameFrom[neighbor := current]);
        r := r.(g := r.g[neighbor := tentativeG]);
        r := r.(f := r.f[neighbor := tentativeG + dist(neighbor, goal)]);
        if rule == OnEveryImprovement || neighbor !in r.open {
          r := r.(counter := r.counter + 1);
          r := r.(heap := r.heap + [Entry(r.f[neighbor], r.counter, neighbor)], open := r.open + {neighbor});
        }
      }
    }
  }

  /** The loop over `graph.neighbors(current)` after `current` has been closed. */
  method RelaxNeighbors(gr: Graph, goal: Point, dist: Distance, rule: PushRule, current: Point, st: State)
    returns (r: State)
    requires Searchable(gr) && current in gr.adj && current in st.g
    ensures r == RelaxFrom(gr, goal, dist, rule, current, 0, st)
  {
    var neighbors := gr.adj[current];
    r := st;
    var j := 0;
    while j < |neighbors|
      invariant 0 <= j <= |neighbors|
      invariant current in r.g
      invariant RelaxFrom(gr, goal, dist, rule, current, j, r) == RelaxFrom(gr, goal, dist, rule, current, 0, st)
    {
      r := VisitNeighbor(gr, goal, dist, rule, current, neighbors[j], r);
      j := j + 1;
    }
  }

  /** `_astar_search(graph, start, goal)`: pop the entry with the smallest `(f, count)`,
    * skip it when already closed, stop at the goal, otherwise close it and relax its
    * neighbours. Proved to compute `Search`. */
  method AStarSearch(gr: Graph, start: Point, goal: Point, dist: Distance, rule: PushRule) returns (result: Outcome)
    requires Searchable(gr)
    ensures result == Search(gr, start, goal, dist, rule)
  {
    if start !in gr.adj || goal !in gr.adj {
      return NodeNotFound;
    }
    var st := State([Entry(0.0, 0, start)], 0, map[], map[start := 0.0], map[start := dist(start, goal)], [], {start});
    while st.heap != []
      invariant Wf(gr, st)
      invariant Run(gr, goal, dist, rule, st) == Run(gr, goal, dist, rule, Init(start, goal, dist))
      decreases |gr.adj.Keys - ClosedSet(st)|, |st.heap|
    {
      ghost var s := st;
      var k := MinIndex(st.heap);
      var current := st.heap[k].node;
      st := st.(heap := RemoveAt(st.heap, k), open := st.open - {current});
      assert (current, st) == Pop(s);
      assert current in st.g && current in gr.adj by {
        assert s.heap[k] in s.heap;
      }
      if current !in st.closed {
        if current == goal {
          var path := ReconstructPath(st.cameFrom, current, st.closed);
          return Found(st.g[current], path);
        }
        st := st.(closed := st.closed + [current]);
        st := RelaxNeighbors(gr, goal, dist, rule, current, st);
        assert Step(gr, goal, dist, rule, s) == Continue(st);
        assert current in ClosedSet(st) && current !in ClosedSet(s);
        StrictSubsetSmallerDifference(ClosedSet(s), ClosedSet(st), gr.adj.Keys);
      }
    }
    return NoPath;
  }
}
