/** The push-once property of `_astar_search` as written: a node is pushed only when it
  * is not in `open_set_hash`, and closed nodes are never updated, so every node enters
  * the heap at most once and the loop runs at most once per node. */
module AStarBound {
  import opened Geo
  import opened NxGraph
  import opened AStar
  import opened AStarCorrectness

  /** No two heap entries are for the same node. */
  ghost predicate Distinct(h: seq<Entry>)
  {
    forall i, j | 0 <= i < j < |h| :: h[i].node != h[j].node
  }

  /** The state of the loop when nodes are pushed only if not queued: the heap holds
    * one entry per open node, no closed node is queued, and every push so far is an
    * entry that is either still queued or was closed. */
  ghost predicate Once(s: State)
  {
    && Distinct(s.heap)
    && s.open == HeapNodes(s.heap)
    && (forall i | 0 <= i < |s.heap| :: s.heap[i].node !in s.closed)
    && NoDup(s.closed)
    && s.counter + 1 == |s.closed| + |s.heap|
  }

  lemma InitOnce(start: Point, goal: Point, dist: Distance)
    ensures Once(Init(start, goal, dist))
  {
    var h := Init(start, goal, dist).heap;
    assert HeapNodes(h) == {start} by {
      assert h[0] in h;
    }
  }

  lemma RemoveAtKeepsDistinct(h: seq<Entry>, k: nat)
    requires Distinct(h) && k < |h|
    ensures Distinct(RemoveAt(h, k))
  {
    var r := RemoveAt(h, k);
    forall i, j | 0 <= i < j < |r|
      ensures r[i].node != r[j].node
    {
      var i' := if i < k then i else i + 1;
      var j' := if j < k then j else j + 1;
      assert r[i] == h[i'] && r[j] == h[j'];
    }
  }

  /** Removing the entry at `k` from a heap with distinct nodes removes exactly its node. */
  lemma RemoveAtDistinct(h: seq<Entry>, k: nat)
    requires Distinct(h) && k < |h|
    ensures Distinct(RemoveAt(h, k))
    ensures HeapNodes(RemoveAt(h, k)) == HeapNodes(h) - {h[k].node}
  {
    var r := RemoveAt(h, k);
    RemoveAtKeepsDistinct(h, k);
    forall y | y in HeapNodes(h) - {h[k].node}
      ensures y in HeapNodes(r)
    {
      HeapNodesRemoveAt(h, k, y);
    }
    forall y | y in HeapNodes(r)
      ensures y in HeapNodes(h) - {h[k].node}
    {
      var e :| e in r && e.node == y;
      var i :| 0 <= i < |r| && r[i] == e;
      var i' := if i < k then i else i + 1;
      assert r[i] == h[i'];
    }
  }

  /** Under the push-once rule a neighbour visit keeps `Once`. */
  lemma VisitOnce(gr: Graph, goal: Point, dist: Distance, current: Point, nb: Point, s: State)
    requires Searchable(gr) && Once(s) && current in s.g && Adjacent(gr, current, nb)
    ensures Once(Visit(gr, goal, dist, OnlyIfNotQueued, current, nb, s))
  {
    var r := Visit(gr, goal, dist, OnlyIfNotQueued, current, nb, s);
    VisitShape(gr, goal, dist, OnlyIfNotQueued, current, nb, s);
    if r.heap != s.heap {
      var e := r.heap[|r.heap| - 1];
      HeapNodesAppend(s.heap, e);
      forall i, j | 0 <= i < j < |r.heap|
        ensures r.heap[i].node != r.heap[j].node
      {
        if j == |s.heap| {
          assert r.heap[i] == s.heap[i];
        } else {
          assert r.heap[i] == s.heap[i] && r.heap[j] == s.heap[j];
        }
      }
      forall i | 0 <= i < |r.heap|
        ensures r.heap[i].node !in r.closed
      {
        if i < |s.heap| {
          assert r.heap[i] == s.heap[i];
        }
      }
    }
  }

  lemma {:induction false} RelaxOnce(gr: Graph, goal: Point, dist: Distance, current: Point, j: nat, s: State)
    requires Searchable(gr) && Once(s) && current in gr.adj && current in s.g && j <= |gr.adj[current]|
    ensures Once(RelaxFrom(gr, goal, dist, OnlyIfNotQueued, current, j, s))
    decreases |gr.adj[current]| - j
  {
    if j < |gr.adj[current]| {
      var nb := gr.adj[current][j];
      VisitOnce(gr, goal, dist, current, nb, s);
      RelaxOnce(gr, goal, dist, current, j + 1, Visit(gr, goal, dist, OnlyIfNotQueued, current, nb, s));
    }
  }

  /** Under `Once` the popped node is never closed already, so every iteration either
    * stops or closes one new node, and `Once` is kept. */
  lemma StepOnce(gr: Graph, goal: Point, dist: Distance, s: State)
    requires Searchable(gr) && Wf(gr, s) && Once(s) && s.heap != []
    ensures Pop(s).0 !in s.closed && Pop(s).0 in gr.adj
    ensures var r := Step(gr, goal, dist, OnlyIfNotQueued, s);
      r.Continue? ==> Once(r.next) && ClosedSet(r.next) == ClosedSet(s) + {Pop(s).0}
  {
    var k := MinIndex(s.heap);
    var (current, s1) := Pop(s);
    assert s.heap[k] in s.heap;
    RemoveAtDistinct(s.heap, k);
    if current != goal {
      var s2 := s1.(closed := s1.closed + [current]);
      forall i | 0 <= i < |s2.heap|
        ensures s2.heap[i].node !in s2.closed
      {
        var i' := if i < k then i else i + 1;
        assert s2.heap[i] == s.heap[i'];
      }
      assert Once(s2);
      RelaxOnce(gr, goal, dist, current, 0, s2);
      ExpandWf(gr, goal, dist, OnlyIfNotQueued, current, s1);
    }
  }

  lemma {:induction false} NoDupCard(c: seq<Point>)
    requires NoDup(c)
    ensures |set x | x in c| == |c|
  {
    if c != [] {
      var t := c[..|c| - 1];
      assert NoDup(t);
      NoDupCard(t);
      assert (set x | x in c) == (set x | x in t) + {c[|c| - 1]};
    }
  }

  lemma {:induction false} DistinctCard(h: seq<Entry>)
    requires Distinct(h)
    ensures |HeapNodes(h)| == |h|
  {
    if h != [] {
      var t := h[..|h| - 1];
      assert Distinct(t);
      DistinctCard(t);
      assert h == t + [h[|h| - 1]];
      HeapNodesAppend(t, h[|h| - 1]);
    }
  }

  /** Every push so far is for a different node: the pushes, `counter + 1`, are at most
    * the number of nodes. */
  lemma PushesAtMostNodes(gr: Graph, s: State)
    requires Wf(gr, s) && Once(s)
    ensures s.counter + 1 <= |gr.adj.Keys|
  {
    NoDupCard(s.closed);
    DistinctCard(s.heap);
    var c := ClosedSet(s);
    var q := HeapNodes(s.heap);
    assert c * q == {};
    assert c + q <= gr.adj.Keys;
    SubsetCard(c + q, gr.adj.Keys);
  }

  /** The number of iterations of `while open_set` from state `s`. */
  function Iterations(gr: Graph, goal: Point, dist: Distance, rule: PushRule, s: State): nat
    requires Searchable(gr) && Wf(gr, s)
    decreases |gr.adj.Keys - ClosedSet(s)|, |s.heap|
  {
    if s.heap == [] then 0
    else
      match Step(gr, goal, dist, rule, s)
      case Stop(_) => 1
      case Continue(next) =>
        if ClosedSet(next) != ClosedSet(s) then
          StrictSubsetSmallerDifference(ClosedSet(s), ClosedSet(next), gr.adj.Keys);
          1 + Iterations(gr, goal, dist, rule, next)
        else
          1 + Iterations(gr, goal, dist, rule, next)
  }

  lemma CloseOneMore(v: set<Point>, c: set<Point>, c2: set<Point>, x: Point)
    requires x in v && x !in c && c2 == c + {x}
    ensures |v - c2| + 1 == |v - c|
  {
    assert v - c2 == (v - c) - {x};
  }

  lemma {:induction false} IterationsOnce(gr: Graph, goal: Point, dist: Distance, s: State)
    requires Searchable(gr) && Wf(gr, s) && Once(s)
    ensures Iterations(gr, goal, dist, OnlyIfNotQueued, s) <= |gr.adj.Keys - ClosedSet(s)|
    decreases |gr.adj.Keys - ClosedSet(s)|
  {
    if s.heap != [] {
      StepOnce(gr, goal, dist, s);
      var current := Pop(s).0;
      var r := Step(gr, goal, dist, OnlyIfNotQueued, s);
      if r.Continue? {
        CloseOneMore(gr.adj.Keys, ClosedSet(s), ClosedSet(r.next), current);
        IterationsOnce(gr, goal, dist, r.next);
      } else {
        assert current in gr.adj.Keys - ClosedSet(s);
      }
    }
  }

  /** As written, the loop runs at most once per node of the graph. */
  lemma IterationsAtMostNodes(gr: Graph, start: Point, goal: Point, dist: Distance)
    requires Searchable(gr) && start in gr.adj
    ensures Iterations(gr, goal, dist, OnlyIfNotQueued, Init(start, goal, dist)) <= |gr.adj.Keys|
  {
    InitOnce(start, goal, dist);
    InitInv(gr, start, goal, dist);
    IterationsOnce(gr, goal, dist, Init(start, goal, dist));
    assert ClosedSet(Init(start, goal, dist)) == {};
  }
}
