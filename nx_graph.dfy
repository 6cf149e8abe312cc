/** The part of networkx's undirected `Graph` the services rely on.
  *
  * networkx keeps nodes and each node's neighbours in insertion-ordered dicts and
  * shares one attribute dict between the two directions of an edge. The model
  * keeps the node order in `nodes`, the neighbour order in `adj`, and the edge
  * attributes under both `(u, v)` and `(v, u)`; `Valid` says these agree. */
module NxGraph {
  import opened Geo

  type Attrs = map<string, real>

  datatype Graph = Graph(nodes: seq<Point>, adj: map<Point, seq<Point>>, attrs: map<(Point, Point), Attrs>)

  predicate NoDup<T(==)>(s: seq<T>)
  {
    forall i, j | 0 <= i < j < |s| :: s[i] != s[j]
  }

  ghost predicate NodesAgree(g: Graph)
  {
    NoDup(g.nodes) && (forall u | u in g.adj :: u in g.nodes) && (forall u | u in g.nodes :: u in g.adj)
  }

  ghost predicate NeighboursDistinct(g: Graph)
  {
    forall u | u in g.adj :: NoDup(g.adj[u])
  }

  ghost predicate AdjSymmetric(g: Graph)
  {
    forall u, v | u in g.adj && v in g.adj[u] :: v in g.adj && u in g.adj[v]
  }

  ghost predicate AttrsOnEdges(g: Graph)
  {
    && (forall u, v | (u, v) in g.attrs :: u in g.adj && v in g.adj[u])
    && (forall u, v | u in g.adj && v in g.adj[u] :: (u, v) in g.attrs)
  }

  ghost predicate AttrsShared(g: Graph)
  {
    forall u, v | (u, v) in g.attrs && (v, u) in g.attrs :: g.attrs[(v, u)] == g.attrs[(u, v)]
  }

  /** The representation invariant networkx maintains. */
  ghost predicate Valid(g: Graph)
  {
    NodesAgree(g) && NeighboursDistinct(g) && AdjSymmetric(g) && AttrsOnEdges(g) && AttrsShared(g)
  }

  /** `v in graph.adj[u]`. */
  predicate Adjacent(g: Graph, u: Point, v: Point)
  {
    u in g.adj && v in g.adj[u]
  }

  /** `nx.Graph()`. */
  function Empty(): (r: Graph)
    ensures Valid(r) && r.adj == map[] && r.attrs == map[]
  {
    Graph([], map[], map[])
  }

  /** `s` without `x`, order kept. */
  function Remove<T(==)>(s: seq<T>, x: T): (r: seq<T>)
    ensures forall y | y in r :: y in s && y != x
    ensures forall y | y in s && y != x :: y in r
    ensures x !in s ==> r == s
    ensures |r| <= |s|
  {
    if s == [] then []
    else if s[0] == x then Remove(s[1..], x)
    else [s[0]] + Remove(s[1..], x)
  }

  lemma {:induction false} RemoveNoDup<T>(s: seq<T>, x: T)
    requires NoDup(s)
    ensures NoDup(Remove(s, x))
  {
    if s != [] {
      assert NoDup(s[1..]) by {
        forall i, j | 0 <= i < j < |s[1..]| ensures s[1..][i] != s[1..][j] {
          assert s[1..][i] == s[i + 1] && s[1..][j] == s[j + 1];
        }
      }
      RemoveNoDup(s[1..], x);
      if s[0] != x {
        var t := Remove(s[1..], x);
        assert s[0] !in s[1..] by {
          forall k | 0 <= k < |s[1..]| ensures s[1..][k] != s[0] {
            assert s[1..][k] == s[k + 1];
          }
        }
        var r := [s[0]] + t;
        forall i, j | 0 <= i < j < |r| ensures r[i] != r[j] {
          assert r[j] == t[j - 1] && r[j] in t;
          if i > 0 {
            assert r[i] == t[i - 1];
          }
        }
      }
    }
  }

  /** Assigning a new key of an insertion-ordered dict appends it; an existing key keeps its place. */
  function AppendNew<T(==)>(s: seq<T>, x: T): (r: seq<T>)
    ensures forall y | y in r :: y in s || y == x
    ensures forall y | y in s :: y in r
    ensures x in r
    ensures NoDup(s) ==> NoDup(r)
  {
    if x in s then s else s + [x]
  }

  /** `graph.get_edge_data(u, v)`, an empty dict for a missing edge. */
  function EdgeData(g: Graph, u: Point, v: Point): Attrs
  {
    if (u, v) in g.attrs then g.attrs[(u, v)] else map[]
  }

  function Neighbours(g: Graph, u: Point): seq<Point>
  {
    if u in g.adj then g.adj[u] else []
  }

  /** `graph.add_edge(u, v, **upd)`: creates missing nodes (u first), then merges `upd`
    * into the edge's attribute dict, which both directions share. */
  function AddEdge(g: Graph, u: Point, v: Point, upd: Attrs): Graph
  {
    var data := EdgeData(g, u, v) + upd;
    var nodes := g.nodes + (if u in g.adj then [] else [u]) + (if v in g.adj || v == u then [] else [v]);
    var adj1 := g.adj[u := AppendNew(Neighbours(g, u), v)];
    var adj2 := adj1[v := AppendNew(if v in adj1 then adj1[v] else [], u)];
    Graph(nodes, adj2, g.attrs[(u, v) := data][(v, u) := data])
  }

  /** Every attribute entry of `r` is one of `g`'s, unchanged. */
  ghost predicate AttrsWithin(r: Graph, g: Graph)
  {
    forall x, y | (x, y) in r.attrs :: (x, y) in g.attrs && r.attrs[(x, y)] == g.attrs[(x, y)]
  }

  /** `add_edge` touches only the attributes of `(u, v)` and `(v, u)`. */
  lemma AddEdgeAttrsOnly(g: Graph, u: Point, v: Point, upd: Attrs)
    ensures var r := AddEdge(g, u, v, upd);
      && r.attrs[(u, v)] == EdgeData(g, u, v) + upd
      && (forall x, y | (x, y) in r.attrs && !(x == u && y == v) && !(x == v && y == u) ::
            (x, y) in g.attrs && r.attrs[(x, y)] == g.attrs[(x, y)])
  {
  }

  /** What `add_edge` does to a valid graph: two nodes at most are added at the end,
    * the edge {u, v} is present afterwards and no other adjacency changes, and the
    * merged attribute dict is stored for both directions. */
  lemma AddEdgeEffect(g: Graph, u: Point, v: Point, upd: Attrs)
    requires Valid(g)
    ensures var r := AddEdge(g, u, v, upd);
      && Valid(r)
      && r.adj.Keys == g.adj.Keys + {u, v}
      && r.nodes == g.nodes + (if u in g.adj then [] else [u]) + (if v in g.adj || v == u then [] else [v])
      && (forall x, y :: Adjacent(r, x, y) <==> Adjacent(g, x, y) || (x == u && y == v) || (x == v && y == u))
      && r.attrs == g.attrs[(u, v) := EdgeData(g, u, v) + upd][(v, u) := EdgeData(g, u, v) + upd]
  {
    AddEdgeAdjacency(g, u, v, upd);
    AddEdgeNodes(g, u, v, upd);
    AddEdgeDistinct(g, u, v, upd);
    AddEdgeSymmetric(g, u, v, upd);
    AddEdgeAttrs(g, u, v, upd);
  }

  lemma AddEdgeAdjacency(g: Graph, u: Point, v: Point, upd: Attrs)
    ensures var r := AddEdge(g, u, v, upd);
      && r.adj.Keys == g.adj.Keys + {u, v}
      && (forall x | x in r.adj && x != u && x != v :: r.adj[x] == g.adj[x])
      && (forall x, y :: Adjacent(r, x, y) <==> Adjacent(g, x, y) || (x == u && y == v) || (x == v && y == u))
  {
    var r := AddEdge(g, u, v, upd);
    forall x, y
      ensures Adjacent(r, x, y) <==> Adjacent(g, x, y) || (x == u && y == v) || (x == v && y == u)
    {
      if x == v {
        assert r.adj[v] == AppendNew(if v in g.adj[u := AppendNew(Neighbours(g, u), v)] then g.adj[u := AppendNew(Neighbours(g, u), v)][v] else [], u);
      } else if x == u {
        assert r.adj[u] == AppendNew(Neighbours(g, u), v);
      }
    }
  }

  lemma AddEdgeNodes(g: Graph, u: Point, v: Point, upd: Attrs)
    requires NodesAgree(g)
    ensures NodesAgree(AddEdge(g, u, v, upd))
  {
    var r := AddEdge(g, u, v, upd);
    AddEdgeAdjacency(g, u, v, upd);
    var ext := (if u in g.adj then [] else [u]) + (if v in g.adj || v == u then [] else [v]);
    assert r.nodes == g.nodes + ext;
    forall i, j | 0 <= i < j < |r.nodes| ensures r.nodes[i] != r.nodes[j] {
      if j >= |g.nodes| {
        assert r.nodes[j] in ext;
        if i < |g.nodes| {
          assert r.nodes[i] in g.nodes;
        }
      }
    }
  }

  lemma AddEdgeDistinct(g: Graph, u: Point, v: Point, upd: Attrs)
    requires NeighboursDistinct(g)
    ensures NeighboursDistinct(AddEdge(g, u, v, upd))
  {
    AddEdgeAdjacency(g, u, v, upd);
  }

  lemma AddEdgeSymmetric(g: Graph, u: Point, v: Point, upd: Attrs)
    requires AdjSymmetric(g)
    ensures AdjSymmetric(AddEdge(g, u, v, upd))
  {
    var r := AddEdge(g, u, v, upd);
    AddEdgeAdjacency(g, u, v, upd);
    forall x, y | x in r.adj && y in r.adj[x] ensures y in r.adj && x in r.adj[y] {
      assert Adjacent(r, x, y);
      assert Adjacent(r, y, x);
    }
  }

  lemma AddEdgeAttrs(g: Graph, u: Point, v: Point, upd: Attrs)
    requires AttrsOnEdges(g) && AttrsShared(g)
    ensures AttrsOnEdges(AddEdge(g, u, v, upd)) && AttrsShared(AddEdge(g, u, v, upd))
  {
    AddEdgeAttrKeys(g, u, v, upd);
    AddEdgeAttrsOnEdges(g, u, v, upd);
    AddEdgeAttrsShared(g, u, v, upd);
  }

  lemma AddEdgeAttrKeys(g: Graph, u: Point, v: Point, upd: Attrs)
    ensures forall x, y :: (x, y) in AddEdge(g, u, v, upd).attrs <==> (x, y) in g.attrs || (x == u && y == v) || (x == v && y == u)
  {
  }

  lemma AddEdgeAttrsOnEdges(g: Graph, u: Point, v: Point, upd: Attrs)
    requires AttrsOnEdges(g)
    ensures AttrsOnEdges(AddEdge(g, u, v, upd))
  {
    var r := AddEdge(g, u, v, upd);
    AddEdgeAdjacency(g, u, v, upd);
    AddEdgeAttrKeys(g, u, v, upd);
    forall x, y | (x, y) in r.attrs ensures Adjacent(r, x, y) {
      if !(x == u && y == v) && !(x == v && y == u) {
        assert Adjacent(g, x, y);
      }
    }
    forall x, y | Adjacent(r, x, y) ensures (x, y) in r.attrs {
      if !(x == u && y == v) && !(x == v && y == u) {
        assert (x, y) in g.attrs;
      }
    }
  }

  lemma AddEdgeAttrsShared(g: Graph, u: Point, v: Point, upd: Attrs)
    requires AttrsShared(g)
    ensures AttrsShared(AddEdge(g, u, v, upd))
  {
    var r := AddEdge(g, u, v, upd);
    var data := EdgeData(g, u, v) + upd;
    assert r.attrs == g.attrs[(u, v) := data][(v, u) := data];
    forall x, y | (x, y) in r.attrs && (y, x) in r.attrs ensures r.attrs[(y, x)] == r.attrs[(x, y)] {
      if (x == u && y == v) || (x == v && y == u) {
        assert r.attrs[(x, y)] == data && r.attrs[(y, x)] == data;
      } else {
        assert r.attrs[(x, y)] == g.attrs[(x, y)] && r.attrs[(y, x)] == g.attrs[(y, x)];
      }
    }
  }

  /** `graph.remove_edge(u, v)`; networkx raises for a missing edge, which no caller here reaches. */
  function RemoveEdge(g: Graph, u: Point, v: Point): Graph
    requires u in g.adj
  {
    var adj1 := g.adj[u := Remove(g.adj[u], v)];
    var adj2 := adj1[v := Remove(if v in adj1 then adj1[v] else [], u)];
    Graph(g.nodes, adj2, g.attrs - {(u, v), (v, u)})
  }

  /** What `remove_edge` does to a valid graph: the edge {u, v} and its attributes go,
    * nothing else changes. */
  lemma RemoveEdgeEffect(g: Graph, u: Point, v: Point)
    requires Valid(g) && Adjacent(g, u, v)
    ensures var r := RemoveEdge(g, u, v);
      && Valid(r)
      && r.nodes == g.nodes && r.adj.Keys == g.adj.Keys
      && (forall x, y :: Adjacent(r, x, y) <==> Adjacent(g, x, y) && !(x == u && y == v) && !(x == v && y == u))
      && r.attrs == g.attrs - {(u, v), (v, u)}
  {
    RemoveEdgeAdjacency(g, u, v);
    RemoveEdgeDistinct(g, u, v);
    RemoveEdgeSymmetric(g, u, v);
    RemoveEdgeAttrs(g, u, v);
  }

  lemma RemoveEdgeAdjacency(g: Graph, u: Point, v: Point)
    requires AdjSymmetric(g) && Adjacent(g, u, v)
    ensures var r := RemoveEdge(g, u, v);
      && r.adj.Keys == g.adj.Keys
      && (forall x | x in r.adj && x != u && x != v :: r.adj[x] == g.adj[x])
      && (forall x, y :: Adjacent(r, x, y) <==> Adjacent(g, x, y) && !(x == u && y == v) && !(x == v && y == u))
  {
    var r := RemoveEdge(g, u, v);
    assert v in g.adj;
    forall x, y
      ensures Adjacent(r, x, y) <==> Adjacent(g, x, y) && !(x == u && y == v) && !(x == v && y == u)
    {
      if x == v && x != u {
        assert r.adj[v] == Remove(g.adj[v], u);
      } else if x == u && u != v {
        assert r.adj[u] == Remove(g.adj[u], v);
      } else if x == u {
        assert r.adj[u] == Remove(Remove(g.adj[u], u), u);
      }
    }
  }

  lemma RemoveEdgeDistinct(g: Graph, u: Point, v: Point)
    requires AdjSymmetric(g) && NeighboursDistinct(g) && Adjacent(g, u, v)
    ensures NeighboursDistinct(RemoveEdge(g, u, v))
  {
    var r := RemoveEdge(g, u, v);
    RemoveEdgeAdjacency(g, u, v);
    forall x | x in r.adj
      ensures NoDup(r.adj[x])
    {
      if x == v && x != u {
        assert r.adj[v] == Remove(g.adj[v], u);
        RemoveNoDup(g.adj[v], u);
      } else if x == u && u != v {
        assert r.adj[u] == Remove(g.adj[u], v);
        RemoveNoDup(g.adj[u], v);
      } else if x == u {
        assert r.adj[u] == Remove(Remove(g.adj[u], u), u);
        RemoveNoDup(g.adj[u], u);
        RemoveNoDup(Remove(g.adj[u], u), u);
      }
    }
  }

  lemma RemoveEdgeSymmetric(g: Graph, u: Point, v: Point)
    requires AdjSymmetric(g) && Adjacent(g, u, v)
    ensures AdjSymmetric(RemoveEdge(g, u, v))
  {
    var r := RemoveEdge(g, u, v);
    RemoveEdgeAdjacency(g, u, v);
    forall x, y | x in r.adj && y in r.adj[x] ensures y in r.adj && x in r.adj[y] {
      assert Adjacent(r, x, y);
      assert Adjacent(g, y, x);
      assert Adjacent(r, y, x);
    }
  }

  lemma RemoveEdgeAttrs(g: Graph, u: Point, v: Point)
    requires AdjSymmetric(g) && AttrsOnEdges(g) && AttrsShared(g) && Adjacent(g, u, v)
    ensures AttrsOnEdges(RemoveEdge(g, u, v)) && AttrsShared(RemoveEdge(g, u, v))
  {
    var r := RemoveEdge(g, u, v);
    RemoveEdgeAdjacency(g, u, v);
    forall x, y | (x, y) in r.attrs ensures Adjacent(r, x, y) {
      assert (x, y) in g.attrs;
    }
    forall x, y | Adjacent(r, x, y) ensures (x, y) in r.attrs {
      assert (x, y) in g.attrs;
    }
    forall x, y | (x, y) in r.attrs && (y, x) in r.attrs ensures r.attrs[(y, x)] == r.attrs[(x, y)] {
      assert r.attrs[(x, y)] == g.attrs[(x, y)] && r.attrs[(y, x)] == g.attrs[(y, x)];
    }
  }

  /** `graph.remove_node(n)`. */
  function RemoveNode(g: Graph, n: Point): Graph
  {
    Graph(Remove(g.nodes, n),
          map x | x in g.adj && x != n :: Remove(g.adj[x], n),
          map e | e in g.attrs && e.0 != n && e.1 != n :: g.attrs[e])
  }

  /** What `remove_node` does to a valid graph: the node, its incident edges and their
    * attributes go; the other nodes keep their order, adjacency and attributes. */
  lemma RemoveNodeEffect(g: Graph, n: Point)
    requires Valid(g) && n in g.adj
    ensures var r := RemoveNode(g, n);
      && Valid(r)
      && r.nodes == Remove(g.nodes, n) && r.adj.Keys == g.adj.Keys - {n}
      && (forall x, y :: Adjacent(r, x, y) <==> Adjacent(g, x, y) && x != n && y != n)
      && (forall x, y | (x, y) in r.attrs :: (x, y) in g.attrs && r.attrs[(x, y)] == g.attrs[(x, y)])
      && (forall x, y | (x, y) in g.attrs && x != n && y != n :: (x, y) in r.attrs)
  {
    RemoveNodeAdjacency(g, n);
    RemoveNodeStructure(g, n);
    RemoveNodeAttrs(g, n);
  }

  lemma RemoveNodeStructure(g: Graph, n: Point)
    requires NodesAgree(g) && NeighboursDistinct(g) && AdjSymmetric(g)
    ensures var r := RemoveNode(g, n);
      NodesAgree(r) && NeighboursDistinct(r) && AdjSymmetric(r)
  {
    RemoveNodeNodes(g, n);
    RemoveNodeDistinct(g, n);
    RemoveNodeSymmetric(g, n);
  }

  lemma RemoveNodeNodes(g: Graph, n: Point)
    requires NodesAgree(g)
    ensures NodesAgree(RemoveNode(g, n))
  {
    RemoveNodeAdjacency(g, n);
    RemoveNoDup(g.nodes, n);
  }

  lemma RemoveNodeDistinct(g: Graph, n: Point)
    requires NeighboursDistinct(g)
    ensures NeighboursDistinct(RemoveNode(g, n))
  {
    var r := RemoveNode(g, n);
    forall x | x in r.adj
      ensures NoDup(r.adj[x])
    {
      RemoveNoDup(g.adj[x], n);
    }
  }

  lemma RemoveNodeSymmetric(g: Graph, n: Point)
    requires AdjSymmetric(g)
    ensures AdjSymmetric(RemoveNode(g, n))
  {
    var r := RemoveNode(g, n);
    forall x ensures (x in r.adj <==> x in g.adj && x != n) && (x in r.adj ==> r.adj[x] == Remove(g.adj[x], n)) {
      RemoveNodeAdjAt(g, n, x);
    }
    assert r.adj.Keys == g.adj.Keys - {n};
    SymmetricWithout(g, n, r);
  }

  /** Dropping `n` from every neighbour list and from the keys keeps adjacency symmetric. */
  lemma SymmetricWithout(g: Graph, n: Point, r: Graph)
    requires AdjSymmetric(g)
    requires r.adj.Keys == g.adj.Keys - {n}
    requires forall x | x in r.adj :: r.adj[x] == Remove(g.adj[x], n)
    ensures AdjSymmetric(r)
  {
    forall x, y | x in r.adj && y in r.adj[x] ensures y in r.adj && x in r.adj[y] {
      RemoveMember(g.adj[x], n, y);
      RemoveMember(g.adj[y], n, x);
    }
  }

  /** Membership in `s` without `x`, for one element. */
  lemma RemoveMember<T>(s: seq<T>, x: T, y: T)
    ensures y in Remove(s, x) <==> y in s && y != x
  {
  }

  /** The neighbours a node keeps when `n` is removed. */
  lemma RemoveNodeAdjAt(g: Graph, n: Point, x: Point)
    ensures x in RemoveNode(g, n).adj <==> x in g.adj && x != n
    ensures x in RemoveNode(g, n).adj ==> RemoveNode(g, n).adj[x] == Remove(g.adj[x], n)
  {
  }

  lemma RemoveNodeAdjacency(g: Graph, n: Point)
    ensures var r := RemoveNode(g, n);
      && r.adj.Keys == g.adj.Keys - {n}
      && (forall x, y :: Adjacent(r, x, y) <==> Adjacent(g, x, y) && x != n && y != n)
  {
  }

  lemma RemoveNodeAttrs(g: Graph, n: Point)
    requires AttrsOnEdges(g) && AttrsShared(g)
    ensures var r := RemoveNode(g, n);
      && AttrsOnEdges(r) && AttrsShared(r)
      && (forall x, y | (x, y) in r.attrs :: (x, y) in g.attrs && r.attrs[(x, y)] == g.attrs[(x, y)])
      && (forall x, y | (x, y) in g.attrs && x != n && y != n :: (x, y) in r.attrs)
  {
    var r := RemoveNode(g, n);
    RemoveNodeAdjacency(g, n);
    forall x, y | (x, y) in r.attrs ensures Adjacent(r, x, y) {
      assert (x, y) in g.attrs;
    }
    forall x, y | Adjacent(r, x, y) ensures (x, y) in r.attrs {
      assert (x, y) in g.attrs;
    }
  }

  /** `graph.degree(n)`: a self-loop counts twice. */
  function Degree(g: Graph, n: Point): nat
    requires n in g.adj
  {
    |g.adj[n]| + (if n in g.adj[n] then 1 else 0)
  }

  /** `graph.get_edge_data(u, v).get('weight', 1.0)`. */
  function Weight(g: Graph, u: Point, v: Point): real
    requires (u, v) in g.attrs
  {
    var a := g.attrs[(u, v)];
    if "weight" in a then a["weight"] else 1.0
  }
}
