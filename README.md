# TrailBlazer trail-graph core, modelled in Dafny

TrailBlazer plans hiking routes from a start point to cultural monuments. It turns
OpenStreetMap trail data into segments and builds a weighted undirected graph from them.
It then simplifies the graph and runs an A* search to each monument. This project models:

- **The trail graph of the web back end** (`web/backend/services/graph.py`):
  - `make_graph`, `simplify_graph` with its clamped `_angle_of`, and `find_closest_node`;
  - the A* search `_astar_search` with `_reconstruct_path`.
  - A networkx graph is a value (`NxGraph.Graph`): the node order, the neighbour lists
    and one attribute dict per edge, shared by both directions.
  - `add_edge`, `remove_edge` and `remove_node` are functions on that value with proved effects.
  - The Python loops are methods proved against recursive specification functions.
- **Segment building and download** (`segment_service.py`, `overpass_service.py`):
  - the canonical segment set of the fast path and the pair filter of the slow path;
  - the way extraction and query building of the Overpass client.
- **Route finding** (`route_service.py`): `find_routes`, `get_distance`, and the counts of `to_dict`.
- **The legacy scripts under `skeleton/`**: graph making, segments, the closest-point helpers and
  the monument file parsing.
- **The monument services of both back ends**: the type mapping, display names, limit slicing,
  the area fallback and the statistics.
- **The monument data file loader** (`backend/database/monuments.py`).
- **Pagination metadata** and **job progress updates**.

Some inputs are parameters of the model:

- `dist`: the haversine distance;
- `acosDeg`: `degrees(acos(.))`, defined only on [-1, 1], so every call shows that no domain error can arise;
- `show` and `read`: `str` and `float` of a number;
- the k-means fit: a given point-to-center map or labelling.

Facts the source relies on are stated as preconditions where a theorem needs them: symmetry,
non-negativity and the triangle inequality of `dist`.
Exceptions are modelled as `Result` values carrying a `PyError`.

A* is modelled with a push rule:

- `OnlyIfNotQueued` is the code as written;
- `OnEveryImprovement` re-pushes a node whenever its score improves.

Both rules are proved to return real walks with their true cost. Only the second is proved to return shortest ones.
The first is refuted on a concrete metric graph (see Findings).

## Model

| member | source | states |
|---|---|---|
| GraphService.MakeGraph | web/backend/services/graph.py:39-52 | the nodes are exactly the segment endpoints, the edges exactly the unordered endpoint pairs (repeats in either direction give one edge), and every edge dict holds only its weight, the distance of its endpoints |
| GraphService.MakeGraphStep | web/backend/services/graph.py:41-52 | one `add_edge(start, end, weight=...)` grows the node set by the segment's endpoints and the edge set by its pair, keeping the graph valid and weight-only |
| GraphService.AddWeightKeepsWeightOnly | web/backend/services/graph.py:52 | merging `{'weight': dist(u, v)}` into an edge keeps every edge dict weight-only |
| GraphService.WeightOnlySymmetric | web/backend/services/graph.py:47-52 | with a symmetric distance, weight-only edge dicts weigh the distance between their endpoints in both directions |
| GraphService.Clamp | web/backend/services/graph.py:132 | `max(-1.0, min(1.0, x))` lies in [-1, 1], is `x` inside it and the nearer bound outside it |
| GraphService.AngleOf | web/backend/services/graph.py:119-134 | 180 when either leg has length zero; otherwise acos is applied only to a value in [-1, 1], so no domain error or division by zero can arise |
| GraphService.AngleOfUnclamped | web/backend/services/graph.py:129-134 | when the law-of-cosines value already lies in [-1, 1] the clamp leaves it, and the angle is acos of it |
| GraphService.DegreeTwo | web/backend/services/graph.py:73 | exactly the listed nodes of degree 2, without repeats |
| GraphService.Candidates | web/backend/services/graph.py:73 | the candidate list is computed once, before any removal: exactly the nodes of degree 2, each once |
| GraphService.CollapseEffect | web/backend/services/graph.py:90-96 | one removal deletes exactly the node and its two edges and adds `g1`-`g3`; every other node, edge and edge dict survives |
| GraphService.CollapseAdjacency | web/backend/services/graph.py:90-96 | after a removal two nodes are adjacent exactly when they were and neither is the removed node, or they are `g1` and `g3` |
| GraphService.CollapseAttrs | web/backend/services/graph.py:90-96 | after a removal every other edge keeps its dict, and `g1`-`g3` gets its old dict with the weight set to dist(g1, g3) |
| GraphService.CollapseBeforeAdd | web/backend/services/graph.py:90-92 | the two `remove_edge` calls and `remove_node` delete the node and only the edges at it |
| GraphService.CollapseValid | web/backend/services/graph.py:90-96 | any removal, even the degenerate one where a neighbour is the node itself, keeps the graph valid and removes at most that node |
| GraphService.CollapseWeights | web/backend/services/graph.py:95-96 | with a symmetric distance a removal keeps "every edge weighs the distance of its endpoints" |
| GraphService.AddDistanceKeepsDistances | web/backend/services/graph.py:95-96 | adding an edge weighted by the distance of its endpoints keeps every weight a distance |
| GraphService.SimplifyStep | web/backend/services/graph.py:78-101 | one loop iteration keeps the graph valid, removes at most the candidate, and changes the graph only when the node still has two neighbours at an angle within epsilon of 180 |
| GraphService.SimplifyStepRemoves | web/backend/services/graph.py:79-92 | for a node without a self-loop the node disappears if and only if it has two neighbours and abs(180 - angle) < epsilon |
| GraphService.SimplifyStepWeights | web/backend/services/graph.py:89-96 | one iteration keeps every weight equal to the distance of its endpoints |
| GraphService.SimplifyAllRemovesOnlyCandidates | web/backend/services/graph.py:76-101 | the whole loop keeps the graph valid and removes only nodes from the candidate list |
| GraphService.SimplifyAllKeepsWeights | web/backend/services/graph.py:76-101 | with a symmetric distance, "edge weight = distance of its endpoints" survives the whole loop, shortcut edges included |
| GraphService.SimplifyLoopStep | web/backend/services/graph.py:76-101 | one iteration keeps the loop invariants: the remaining candidates are distinct and still in the graph |
| GraphService.SimplifyNode | web/backend/services/graph.py:78-101 | the imperative loop body performs exactly one `SimplifyStep` |
| GraphService.SimplifyGraph | web/backend/services/graph.py:73-105 | `simplify_graph` is the fold over the degree-2 candidates fixed up front; only nodes of degree 2 in the input disappear, and distance weights are kept |
| GraphService.ClosestNodeFirstMinimal | web/backend/services/graph.py:148-160 | None exactly for a graph without nodes; otherwise a node at the smallest distance, the first such in iteration order because the test is strict `<` |
| GraphService.FindClosestNode | web/backend/services/graph.py:148-160 | the scanning loop returns `ClosestNode` of the node list |
| AStar.MinIndex | web/backend/services/graph.py:273 | `heapq.heappop` takes an entry that no other entry precedes in `(f, counter)` order |
| AStar.Reconstruct | web/backend/services/graph.py:319-335 | the reconstructed path ends at the node it was started from |
| AStar.ReconstructPath | web/backend/services/graph.py:319-335 | the loop that appends predecessors and then reverses the list in place returns `Reconstruct` |
| AStar.VisitNeighbor | web/backend/services/graph.py:291-313 | one pass of the neighbour loop's body computes `Visit` |
| AStar.RelaxNeighbors | web/backend/services/graph.py:291-313 | the whole neighbour loop computes `RelaxFrom` from its first neighbour |
| AStar.ExpandWf | web/backend/services/graph.py:288-313 | closing the popped node and relaxing its neighbours keeps the search state well formed and closes exactly that one node |
| AStar.Step | web/backend/services/graph.py:271-313 | an iteration that does not stop keeps the state well formed and either closes a new graph node or leaves the closed set as it is and shrinks the heap, so the loop ends |
| AStar.AStarSearch | web/backend/services/graph.py:243-316 | the imperative `_astar_search` returns exactly `Search`: `NodeNotFound` for a missing start or goal, the goal's g-score and path, or `NoPath` |
| AStarBound.StepOnce | web/backend/services/graph.py:271-313 | as written (push only when not already queued) a node is never queued twice, so the popped node is never already closed and every continuing iteration closes one new node |
| AStarBound.PushesAtMostNodes | web/backend/services/graph.py:250-313 | as written the push counter, 0 at the first push and raised only for a node not already queued, stays below the number of nodes |
| AStarBound.IterationsAtMostNodes | web/backend/services/graph.py:271-313 | as written the loop runs at most once per node of the graph |
| AStarCorrectness.InitInv | web/backend/services/graph.py:250-267 | the state before the loop satisfies the search invariant (predecessor tree rooted at the start, g-scores are costs of tree paths, every seen unclosed node queued) |
| AStarCorrectness.StepInv | web/backend/services/graph.py:271-313 | every iteration that does not stop keeps that invariant, under either push rule |
| AStarCorrectness.ReconstructValid | web/backend/services/graph.py:319-335 | from a node with a g-score the reconstructed path runs from the start along edges to that node and its weights add up to the g-score |
| AStarCorrectness.StopOutcome | web/backend/services/graph.py:282-286 | an iteration that stops returns a walk from the start to the goal whose cost is the returned distance |
| AStarCorrectness.RunOutcome | web/backend/services/graph.py:271-316 | the loop never raises `NodeNotFound`; a found path is a walk to the goal with the returned cost; `NoPath` only when no walk from the start reaches the goal |
| AStarCorrectness.SearchNodeNotFound | web/backend/services/graph.py:243-246 | `NodeNotFound` exactly when the start or the goal is not a node |
| AStarCorrectness.SearchFoundIsPath | web/backend/services/graph.py:282-286 | a returned path starts at the start, ends at the goal, follows edges, and the distance is the sum of its weights |
| AStarCorrectness.SearchNoPathComplete | web/backend/services/graph.py:316 | `NetworkXNoPath` is raised only when no walk from the start reaches the goal |
| AStarCorrectness.SearchFindsReachable | web/backend/services/graph.py:243-316 | the search finds a path if and only if some walk from the start reaches the goal |
| AStarCorrectness.SearchSameNode | web/backend/services/graph.py:252-286 | from a node to itself the answer is distance 0 and the one-node path |
| AStarOptimality.MetricWeightsConsistent | web/backend/services/graph.py:192-208 | on a graph whose weights are a metric distance, the weights are non-negative and that distance to the goal is a consistent heuristic |
| AStarOptimality.PopOptimal | web/backend/services/graph.py:273-288 | pushing on every improvement, the node popped next has a g-score no walk from the start beats |
| AStarOptimality.RunOptimal | web/backend/services/graph.py:271-316 | pushing on every improvement, a found distance is at most the cost of every walk from the start to the goal |
| AStarOptimality.SearchOptimal | web/backend/services/graph.py:211-316 | the admissible-heuristic promise of `shortest_path`, for the search that pushes on every improvement: the returned path is a shortest walk, given non-negative weights and a consistent heuristic |
| AStarOptimality.SearchOptimalOnMetricGraph | web/backend/services/graph.py:163-208 | the same on every graph built from a metric distance, used both for weights and as heuristic |
| AStarWitness.TrailsMeetAssumptions | web/backend/services/graph.py:29-55 | the five-node example graph is a valid graph of distance-weighted edges under the L1 metric, so every assumption of the optimality theorem holds |
| AStarWitness.AsWrittenTrace | web/backend/services/graph.py:271-316 | as written, the search on the example reports cost 15 along Start, C, D, Goal |
| AStarWitness.FixedTrace | web/backend/services/graph.py:271-316 | pushing on every improvement, the same search reports cost 13 along Start, B, A, Goal |
| AStarWitness.AsWrittenNotOptimal | web/backend/services/graph.py:303-313 | on that metric graph the code as written returns a path of cost 15 while a walk of cost 13 exists, which the corrected push rule returns |
| RouteService.Outcomes | web/backend/services/route_service.py:101-107 | one search outcome per monument, in order, each from the snapped start to the snapped monument |
| RouteService.RouteCalculationResult.constructor | web/backend/services/route_service.py:24-29 | a new result holds an empty graph, the start and monuments given, and two empty lists |
| RouteService.RouteCalculationResult.GetDistance | web/backend/services/route_service.py:31-38 | a distance is reported only when both the raw start and the raw monument location are nodes of the result graph |
| RouteService.RouteCalculationResult.AddPathEdges | web/backend/services/route_service.py:110-114 | the inner loop adds one edge per consecutive pair of the path, weighted by their distance, and leaves both lists alone |
| RouteService.RouteCalculationResult.ToDict | web/backend/services/route_service.py:40-46 | the totals are the number of monuments and the lengths of the two lists |
| RouteService.RouteOne | web/backend/services/route_service.py:104-107 | snapping the monument and running A* from the snapped start gives `RouteTo` |
| RouteService.FindRoutes | web/backend/services/route_service.py:71-129 | the returned result lists as reachable exactly the monuments whose search found a path, as unreachable all others, both in input order, and its graph is the union of the paths found |
| RouteService.RouteToFound | web/backend/services/route_service.py:104-107 | a route found joins the snapped start to the snapped monument along graph edges, and its distance is the sum of its weights |
| RouteService.Partition | web/backend/services/route_service.py:101-124 | every monument lands in exactly one of the two lists |
| RouteService.FiledMembers | web/backend/services/route_service.py:116-124 | each list holds only monuments whose search ended as the list says |
| RouteService.EmptyGraphNotFound | web/backend/services/route_service.py:93-107 | on a graph without nodes every search raises `NodeNotFound` (the closest node is `None`, which is not in the graph) |
| RouteService.NothingFound | web/backend/services/route_service.py:119-124 | when every search fails, nothing is reachable, every monument is unreachable in input order, and the result graph stays empty |
| RouteService.AddPathEffect | web/backend/services/route_service.py:110-114 | adding a path adds exactly its consecutive pairs as edges, keeps the graph valid and keeps every weight a distance |
| RouteService.FoundEdgesMembers | web/backend/services/route_service.py:101-116 | a pair is among the found edges exactly when it is consecutive on a path that was found |
| RouteService.CollectEdges | web/backend/services/route_service.py:101-116 | the result graph's edges are exactly the consecutive pairs of the paths found, each weighted by its distance |
| RouteService.ShortestLengthCorrect | web/backend/services/route_service.py:36 | `nx.shortest_path_length` is defined exactly when both nodes exist and a walk joins them, and is then the cost of a cheapest walk |
| NxGraph.Empty | web/backend/services/route_service.py:25 | `nx.Graph()` is valid and has no nodes and no edges |
| NxGraph.AddEdgeEffect | web/backend/services/graph.py:52 | `add_edge` on a valid graph adds at most its two endpoints at the end of the node order, adds exactly the edge between them, and merges the new attributes into the edge's dict shared by both directions |
| NxGraph.AddEdgeAttrsOnly | web/backend/services/graph.py:52 | `add_edge` touches only the attributes of that edge |
| NxGraph.RemoveEdgeEffect | web/backend/services/graph.py:90-91 | `remove_edge` removes that edge and its attributes and nothing else |
| NxGraph.RemoveNodeEffect | web/backend/services/graph.py:92 | `remove_node` removes the node, its edges and their attributes; the other nodes keep their order, neighbours and attributes |
| Geo.LessIsStrictTotal | web/backend/services/segment_service.py:266-269 | the tuple order `c1 < c2` compares points by is a strict total order |
| Geo.Endpoints | web/backend/services/graph.py:39-52 | each segment's two ends are endpoints |
| Geo.EndpointsOrigin | web/backend/services/graph.py:39-52 | and every endpoint is an end of some segment |
| SegmentService.AdaptiveClusters | web/backend/services/segment_service.py:226-230 | the cluster count is at most each of `n_clusters`, `n // 10` and 2000, and equal to one of them |
| SegmentService.Count | web/backend/services/segment_service.py:198-290 | the count returned is the size of the written set, and 0 on an early return |
| SegmentService.ClusterMap | web/backend/services/segment_service.py:219-249 | `point_to_cluster` has exactly the distinct endpoints as keys |
| SegmentService.Canonical | web/backend/services/segment_service.py:261-269 | no entry when both snapped ends coincide; otherwise the pair in one of its two orders, the smaller point first |
| SegmentService.UniquePoints | web/backend/services/segment_service.py:206-212 | `set(all_points)` after the listing loop is exactly the set of segment endpoints |
| SegmentService.AllPointsAreEndpoints | web/backend/services/segment_service.py:206-212 | the distinct members of `all_points` are the segment endpoints |
| SegmentService.Predict | web/backend/services/segment_service.py:246-249 | the predict loop maps every distinct point, and only those, to its center |
| SegmentService.MapSegments | web/backend/services/segment_service.py:252-269 | the mapping loop builds the canonical set of the raw segments |
| SegmentService.FastSegments | web/backend/services/segment_service.py:196-271 | the fast path returns nothing written for fewer than 2 segments or 2 distinct points, fails when k-means would reject the cluster count, and otherwise writes the canonical set |
| SegmentService.CanonicaliseMembers | web/backend/services/segment_service.py:252-269 | a segment is written exactly when some raw segment's snapped ends differ and it is their canonical pair |
| SegmentService.SegmentsCanonical | web/backend/services/segment_service.py:262-269 | no written segment has equal ends; each has its smaller point first and is the snapped pair of one raw segment in one order or the other |
| SegmentService.SegmentsComplete | web/backend/services/segment_service.py:262-269 | every raw segment whose ends snap apart is represented |
| SegmentService.ReverseAddsNothing | web/backend/services/segment_service.py:266-269 | a segment and its reverse give one entry |
| SegmentService.SmallDatasetUnsnapped | web/backend/services/segment_service.py:219-222 | with fewer than 1000 distinct points nothing is snapped: the written set is the canonical pairs of the raw segments themselves |
| SegmentService.Coords | web/backend/services/segment_service.py:307 | `coords` keeps the latitude and longitude of every point, in order |
| SegmentService.Labelling | web/backend/services/segment_service.py:310-333 | labels and centers fit the points; no labelling exactly when the dataset is large and k-means would reject the cluster count |
| SegmentService.Oriented | web/backend/services/segment_service.py:341-356 | the pair's segment joins its two centers in one order or the other; `labels[i + 1]` is read only when it exists, and the last pair is reversed |
| SegmentService.Label | web/backend/services/segment_service.py:310-333 | the branch computing `labels` and `centers` returns `Labelling` |
| SegmentService.FilterPairs | web/backend/services/segment_service.py:336-356 | the loop over consecutive pairs builds `PairSegments` |
| SegmentService.SlowSegments | web/backend/services/segment_service.py:300-356 | the slow path returns nothing written for fewer than 2 points, fails when k-means raises, and otherwise writes the filtered pairs |
| SegmentService.PairSegmentsMembers | web/backend/services/segment_service.py:345-356 | a segment is written exactly when some pair is close in time and space, has different labels and the same track and page, and it is that pair's oriented segment |
| SegmentService.SmallSlowSegments | web/backend/services/segment_service.py:310-356 | without clustering every pair has different labels, so a pair passes on time, distance, track and page alone, and its segment runs from the later point to the earlier one |
| SegmentService.SegmentService.constructor | web/backend/services/segment_service.py:28-31 | the constructor loads the settings; with no settings file `max_download_pages` stays unset |
| SegmentService.SegmentService.LoadSettings | web/backend/services/segment_service.py:34-69 | every setting comes from the file or its default; with no file `max_download_pages` keeps whatever it had |
| SegmentService.SegmentService.DownloadSegments | web/backend/services/segment_service.py:184-290 | the fast path on what Overpass returned, or the slow path when Overpass raised or the fast path failed; the count returned is the size of the set written |
| OverpassService.BoxStringFields | web/backend/services/overpass_service.py:154 | the box string reads back as the four coordinates in the order south, west, north, east |
| OverpassService.QueryFiltersBox | web/backend/services/overpass_service.py:157-165 | each of the three way filters is applied to that same box string |
| OverpassService.WaySegments | web/backend/services/overpass_service.py:183-192 | a way with k nodes gives max(0, k - 1) segments, segment i from node i to node i + 1 |
| OverpassService.WaySegmentsChain | web/backend/services/overpass_service.py:183-192 | each segment of a way ends where the next starts, and the way's nodes can be read back from its segments |
| OverpassService.ExtractSegments | web/backend/services/overpass_service.py:169-194 | the nested loop returns `Extracted` of the elements, none when there is no `elements` key |
| OverpassService.AppendWay | web/backend/services/overpass_service.py:183-192 | the inner loop appends exactly `WaySegments` of the way (node i to node i + 1, none for fewer than two nodes) after the segments already found |
| OverpassService.ExtractedAppend | web/backend/services/overpass_service.py:177-192 | the output follows element order, then node order |
| OverpassService.ExtractedLength | web/backend/services/overpass_service.py:177-192 | the number of segments is the sum of max(0, k - 1) over the ways with a geometry |
| OverpassService.OnlyWaysCount | web/backend/services/overpass_service.py:178 | elements that are not ways with a geometry contribute nothing |
| OverpassService.FirstReply | web/backend/services/overpass_service.py:100-138 | the index of the first mirror that replied: every earlier one failed |
| OverpassService.DownloadTrails | web/backend/services/overpass_service.py:61-142 | a valid cache entry is returned as is; otherwise the query for the box is sent, a box wider or taller than 0.5 degrees only adds a warning, and the result is the first reply's segments or the last mirror's error |
| LegacyGraphmaker.UnweightedWeighsOne | skeleton/graphmaker.py:10-17 | an edge without a `weight` attribute weighs 1.0 in a search weighted by `weight` |
| LegacyGraphmaker.BuiltShape | skeleton/graphmaker.py:6-18 | the legacy graph is valid, its nodes are the endpoints, its edges the segments, and each edge dict holds only the distance under `wheight` |
| LegacyGraphmaker.BuiltStep | skeleton/graphmaker.py:10-17 | one legacy `add_edge` keeps that shape for the segments seen so far |
| LegacyGraphmaker.LegacyMakeGraph | skeleton/graphmaker.py:6-18 | the loop builds the right nodes and edges, but every edge dict is exactly `{wheight}` and so weighs 1.0 in a search by `weight` |
| LegacyGraphmaker.WheightOnlyWeighsOne | skeleton/graphmaker.py:13 | a dict holding only `wheight` has no `weight`, so the edge weighs 1.0 |
| LegacyGraphmaker.BuiltUnweighted | skeleton/graphmaker.py:6-18 | no edge of the legacy graph has a `weight` attribute |
| LegacyGraphmaker.LegacyAngleOf | skeleton/graphmaker.py:35-43 | ZeroDivisionError exactly when a leg has length zero, ValueError exactly when the law-of-cosines value leaves [-1, 1], and otherwise the same angle as the guarded web version |
| LegacyGraphmaker.CosineOfTriangle | skeleton/graphmaker.py:43 | sides that obey the triangle inequality give a law-of-cosines value in [-1, 1] |
| LegacyGraphmaker.LegacyAngleOnMetric | skeleton/graphmaker.py:35-43 | with exact arithmetic and a metric distance, only a zero-length leg makes `_angle_of` raise |
| LegacyGraphmaker.MergeShape | skeleton/graphmaker.py:28-31 | a removal keeps the graph valid, deletes at most the node and leaves `g1` and `g3` adjacent |
| LegacyGraphmaker.MergeUnweighted | skeleton/graphmaker.py:31 | the shortcut edge gets no attributes: a removal adds no `weight` |
| LegacyGraphmaker.LegacyStep | skeleton/graphmaker.py:26-31 | `g1, g3 = graph.adj[node]` raises ValueError unless the node has exactly two neighbours at that moment, the angle's errors propagate, and a successful step removes at most the node and only when the angle is within epsilon of 180 |
| LegacyGraphmaker.LegacyStepUnweighted | skeleton/graphmaker.py:26-31 | a legacy step that does not raise adds no `weight` |
| LegacyGraphmaker.LegacySimplifyAllShape | skeleton/graphmaker.py:25-32 | when the legacy loop finishes, the graph is valid and only candidates are gone |
| LegacyGraphmaker.LegacySimplifyAllUnweighted | skeleton/graphmaker.py:25-32 | a finished legacy loop on a graph without `weight` leaves none |
| LegacyGraphmaker.LegacyLoopStep | skeleton/graphmaker.py:25-31 | one iteration keeps the loop invariants, and an error ends the loop with that error |
| LegacyGraphmaker.LegacySimplifyNode | skeleton/graphmaker.py:26-31 | the imperative loop body performs one `LegacyStep` |
| LegacyGraphmaker.LegacySimplifyGraph | skeleton/graphmaker.py:21-32 | the candidates are fixed before any removal; a finished loop leaves a valid graph from which only nodes of degree 2 have gone, and adds no `weight` |
| LegacyGraphWitness.TriangleBuilt | skeleton/graphmaker.py:6-18 | the three segments West-Middle, Middle-East, West-East give a triangle |
| LegacyGraphWitness.TriangleCandidates | skeleton/graphmaker.py:24 | every node of the triangle is a candidate, in node order |
| LegacyGraphWitness.MiddleAngle | skeleton/graphmaker.py:27 | at Middle the neighbours lie opposite, at angle 180, so Middle is merged away |
| LegacyGraphWitness.EastAfterMerge | skeleton/graphmaker.py:28-31 | after Middle is removed, East has West as its only neighbour |
| LegacyGraphWitness.RaisesOnTriangle | skeleton/graphmaker.py:25-26 | the legacy loop raises ValueError when it reaches East |
| LegacyGraphWitness.LegacyTriangleRaises | skeleton/graphmaker.py:21-32 | `simplify_graph(make_graph(segments), 1.0)` raises ValueError on the triangle, although the distance is a metric and every node has degree 2 |
| LegacySegments.LegacyFit | skeleton/segments.py:109-113 | `KMeans(n_clusters=k).fit` succeeds exactly for 1 <= k <= number of points, and raises ValueError otherwise |
| LegacySegments.LegacyOriented | skeleton/segments.py:132-135 | when `labels[i + 1]` exists the legacy orientation is the web back end's |
| LegacySegments.LegacyPairs | skeleton/segments.py:120-135 | the pair loop either builds a set or raises IndexError |
| LegacySegments.LegacyPairsBeforeLast | skeleton/segments.py:120-135 | before the last pair the legacy loop keeps exactly the web back end's segments |
| LegacySegments.LegacyPairsLast | skeleton/segments.py:120-135 | the whole loop raises IndexError exactly when the last pair passes the filter, and otherwise keeps the web back end's segments |
| LegacySegments.TwoFixesRaise | skeleton/segments.py:132 | two fixes in two clusters make the legacy script raise IndexError where the web back end writes the one segment |
| LegacySegments.LegacyFilterPairs | skeleton/segments.py:120-135 | the imperative pair loop computes `LegacyPairs` |
| LegacySegments.SavedLines | skeleton/segments.py:146-150 | one line per segment, in the order written, each `lat1,lon1,lat2,lon2` |
| LegacySegments.SaveSegments | skeleton/segments.py:138-151 | the write loop lists every segment of the set once, writes its line and counts the set's size |
| LegacySegments.LegacyDownloadSegments | skeleton/segments.py:106-151 | the legacy download writes the lines of its segments, each segment once, or writes nothing when clustering or the pair loop raises |
| LegacySegments.EnumeratesOnce | skeleton/segments.py:114-150 | segments kept in a set are written once each |
| LegacySegments.ParseLine | skeleton/segments.py:163-167 | a line parses only when it has exactly four comma-separated fields; anything else raises ValueError |
| LegacySegments.Parsed | skeleton/segments.py:162-168 | one parse result per line, in order |
| LegacySegments.LoadedContents | skeleton/segments.py:154-169 | a loaded file gives one segment per line, in file order |
| LegacySegments.LoadedFails | skeleton/segments.py:162-168 | loading fails exactly when some line does not parse |
| LegacySegments.LoadSegments | skeleton/segments.py:154-169 | the loop over the lines returns `Loaded` |
| LegacySegments.ParseSaved | skeleton/segments.py:146-167 | a written line reads back as its segment, whenever `float` reads back each of its four written coordinates and the written numbers hold no comma or line break |
| LegacySegments.LoadSaved | skeleton/segments.py:138-169 | loading a file of written lines gives back the segments in the order written, whenever `float` reads back every coordinate written |
| LegacyMain.InBoxOnly | skeleton/main.py:72-83 | only monuments inside the box, inclusive on every side, and no more than were given |
| LegacyMain.MonumentsInBox | skeleton/main.py:72-83 | the imperative filter returns `InBoxOnly` |
| LegacyMain.InBoxOnlyMembers | skeleton/main.py:75-82 | a monument is kept exactly when it is listed and inside the box |
| LegacyMain.InBoxOnlyAppend | skeleton/main.py:75-82 | filtering a concatenation filters each part, so input order is kept |
| LegacyMain.InBoxOnlyIdempotent | skeleton/main.py:72-83 | filtering the filtered list again gives the same list |
| LegacyMain.FirstMin | skeleton/main.py:46-51 | the index a strict `<` loop from infinity keeps: the first of the smallest scores, none for no scores |
| LegacyMain.PointScores | skeleton/main.py:48 | the distance to each node, in node order |
| LegacyMain.ClosestPoint | skeleton/main.py:44-52 | the first node at the smallest distance; on a graph without nodes the return raises UnboundLocalError |
| LegacyMain.EdgeScore | skeleton/main.py:59-65 | a segment's score is the smaller of the distances to its two ends |
| LegacyMain.ClosestEdge | skeleton/main.py:55-69 | the first segment with the smallest score; without segments the return raises UnboundLocalError |
| LegacyMonuments.Kept | skeleton/monuments.py:91-93 | only digits, `.` and spaces survive, in order, and nothing is added |
| LegacyMonuments.KeptAppend | skeleton/monuments.py:91-93 | filtering a concatenation filters each part |
| LegacyMonuments.KeptIdempotent | skeleton/monuments.py:91-93 | filtering twice changes nothing more |
| LegacyMonuments.KeptKeeps | skeleton/monuments.py:91-93 | every digit, `.` and space of the window survives |
| LegacyMonuments.Window | skeleton/monuments.py:92 | the slice of 26 characters from the first `N`, clipped at the end of the text |
| LegacyMonuments.Located | skeleton/monuments.py:90-93 | the text handed on exists exactly when the text has an `N` |
| LegacyMonuments.WindowOnly | skeleton/monuments.py:90-93 | nothing after the window of the first `N` matters |
| LegacyMonuments.GetCoordinates | skeleton/monuments.py:88-94 | ValueError when the text has no `N` |
| LegacyMonuments.LocationToPoint | skeleton/monuments.py:97-102 | ValueError unless there are exactly six whitespace-separated words |
| LegacyMonuments.LocationOfFloats | skeleton/monuments.py:99-101 | six numbers give latitude h1 + m1/60 + s1/3600 and longitude h2 + m2/60 + s2/3600, with no sign applied |
| LegacyMonuments.LocationOfWords | skeleton/monuments.py:99-101 | the same for any spacing between the six numbers, whenever `float` reads back each number written |
| LegacyMonuments.ParseMonument | skeleton/monuments.py:110-111 | the stripped line must split on `;` into exactly three fields, name first, or ValueError |
| LegacyMonuments.LoadedMonumentsLines | skeleton/monuments.py:105-112 | one monument per line, in file order; loading fails exactly when some line does not parse |
| LegacyMonuments.ParseSavedMonument | skeleton/monuments.py:110-129 | a monument line as `get_monuments` writes it reads back as the monument, whenever `float` reads back its two coordinates and the name holds no `;` or line break and does not start with whitespace |
| LegacyMonuments.LoadSavedMonuments | skeleton/monuments.py:105-128 | loading the file `get_monuments` writes gives back its monuments in order, whenever `float` reads back every coordinate written |
| MonumentStorage.FirstMatch | backend/database/monuments.py:174-177 | the first prefix table row from a position on that matches, and no earlier row matches |
| MonumentStorage.MonumentType | backend/database/monuments.py:163-179 | militar exactly when the lower-cased name starts with a military prefix; religiós exactly when it starts with a religious prefix and no military one; civil otherwise; so always one of the three |
| MonumentStorage.NameAndLocation | backend/database/monuments.py:127-133 | split at the last ` - `, else at the last ` / `, else the location is empty |
| MonumentStorage.TownAndRegion | backend/database/monuments.py:136-142 | split at the last ` / ` of the location, else no town and the whole location as region |
| MonumentStorage.ParseFields | backend/database/monuments.py:117-161 | None without `. `; otherwise the id is the integer before the first `. `, the coordinates are the numbers of the two fields, the record id is None and the type one of the three |
| MonumentStorage.Record | backend/database/monuments.py:145-157 | the record carries the given id and coordinates, no database id, and one of the three types |
| MonumentStorage.ParseMonumentLine | backend/database/monuments.py:110-161 | None unless the stripped line has exactly three `;`-separated fields, and then the parse of those fields |
| MonumentStorage.ParseStoredLine | backend/database/monuments.py:110-161 | a line written as `<id>. <name> - <town> / <region>;<lat>;<lon>` reads back as its monument: id, stripped name and its type, town, region, coordinates and location, whenever `float` reads back both coordinates and the texts are trimmed, one line each and free of the separators |
| MonumentStorage.BatchSizes | backend/database/monuments.py:209-219 | every batch holds between 1 and 1000 rows, and every batch but the last exactly 1000 |
| MonumentStorage.BatchSizesSum | backend/database/monuments.py:209-219 | the batches insert exactly the parsed rows |
| MonumentStorage.MonumentTable.InsertBatch | backend/database/monuments.py:224-232 | a batch is appended to the table's rows, in order |
| MonumentStorage.MonumentTable.LoadFromFile | backend/database/monuments.py:181-222 | a missing file raises FileNotFoundError before the table is cleared; otherwise the table holds the parsed monuments in file order, inserted in full batches of 1000 and a last shorter one, and the count returned is their number |
| MonumentStorage.MonumentTable.LoadLines | backend/database/monuments.py:192-219 | the loop over the lines keeps the lines that parse, in order, flushes every full batch and the rest, and counts them |
| MonumentTypes.Get | web/backend/services/monument_service.py:72 | `dict.get` on a dict display: the default for a missing key, otherwise the value of the last pair with that key |
| MonumentTypes.Swap | web/backend/services/monument_service.py:21 | the swapped table, pair by pair |
| MonumentTypes.SwapInverts | web/backend/services/monument_service.py:14-21 | on a one-to-one table, looking a key up and its value up in the swapped table gives the key back, and the other way round |
| MonumentTypes.ApiToDb | web/backend/services/monument_service.py:82 | an unknown API type passes through unchanged; a known one maps to its database type |
| MonumentTypes.DbToApi | web/backend/services/monument_service.py:54 | an unknown database type passes through unchanged; a known one maps back to its API type |
| MonumentTypes.ReverseInvertsMapping | web/backend/services/monument_service.py:14-21 | the reverse mapping undoes the mapping on its three API types, and the mapping undoes the reverse on the three database types |
| MonumentTypes.ReportedTypeRoundTrip | web/backend/services/monument_service.py:54-82 | a database type that is not itself an API name is looked up again as the same type |
| MonumentTypes.ReportedApiNameDoesNotRoundTrip | web/backend/services/monument_service.py:54-82 | a database type literally called `militars` is listed under an id that then selects `militar` |
| MonumentTypes.DisplayNameKnown | web/backend/services/monument_service.py:65-72 | each of the three database types has its fixed display name |
| MonumentTypes.DisplayNameOther | web/backend/services/monument_service.py:72 | any other type is shown title-cased |
| MonumentTypes.TypeEntries | web/backend/services/monument_service.py:48-63 | one entry per counted type, in order, with its API id, title-cased name, count and display name; none when the storage raises |
| MonumentTypes.RekeyedKeys | web/backend/services/monument_service.py:207-210 | the keys of a rekeyed count dict are the renamed types |
| MonumentTypes.RekeyedCounts | web/backend/services/monument_service.py:207-210 | when no two types share a new name, each count is found under its type's new name |
| MonumentTypes.ByType | web/backend/services/monument_service.py:207-210 | the `by_type` keys are the API names of the counted types, unknown types kept as they are |
| MonumentTypes.ByTypeCounts | web/backend/services/monument_service.py:207-210 | when no two counted types share an API name, each count is found under its type's API name |
| MonumentTypes.Responses | web/backend/services/monument_service.py:86-95 | one response per row, in order, with the row's name and coordinates |
| MonumentTypes.ResponsesPrefix | web/backend/services/monument_service.py:94 | converting the first rows gives the first responses |
| WebMonumentService.SliceLength | web/backend/services/monument_service.py:94 | the length of `rows[:limit]`: `min(limit, n)` for a non-negative limit, all but the last `-limit` for a negative one |
| WebMonumentService.MonumentsByType | web/backend/services/monument_service.py:74-98 | the responses are a prefix of the storage's rows of the mapped type, in order, of the sliced length and so at most `limit`; none when the storage raises |
| WebMonumentService.MonumentsByTypeAndArea | web/backend/services/monument_service.py:100-138 | with any corner falsy the answer is `get_monuments_by_type` with its default limit; otherwise one response per row the area query returns, none when it raises |
| WebMonumentService.ZeroCornerIgnoresBox | web/backend/services/monument_service.py:111-112 | a corner at 0.0 is falsy: the box is ignored and at most 1000 monuments of the type come back |
| WebMonumentService.MonumentStats | web/backend/services/monument_service.py:199-220 | ready exactly when both storage calls succeed, with the total and the counts by API type; otherwise a zero total, no counts, not ready and the error's message |
| BackendMonumentService.MonumentsByTypeAndArea | backend/services/monument_service.py:51-86 | one response per row of the mapped type, in storage order, none when the storage raises |
| BackendMonumentService.CornersIgnored | backend/services/monument_service.py:66-71 | both branches ask the same query, so any two areas give the same answer |
| BackendMonumentService.MonumentStats | backend/services/monument_service.py:88-104 | ready exactly when both storage calls succeed, with the total and the counts by API type; otherwise a zero total, no counts, not ready and no message |
| Pagination.Params | web/backend/models/pagination.py:10-13 | parameters exist exactly for page >= 1 and 1 <= limit <= 1000; anything else is a validation error |
| Pagination.Offset | web/backend/models/pagination.py:15-18 | the offset is never negative for a page from 1 on |
| Pagination.PageOfItem | web/backend/models/pagination.py:15-18 | item i lies within the page's offset and limit exactly when the page is i // limit + 1 |
| Pagination.FloorDiv | web/backend/models/pagination.py:46 | Python's `//` rounds down for either sign of the divisor |
| Pagination.Create | web/backend/models/pagination.py:43-54 | a zero limit divides by zero; otherwise the fields are the arguments, `has_next` exactly when page < total pages and `has_previous` exactly when page > 1 |
| Pagination.TotalPagesIsCeiling | web/backend/models/pagination.py:46 | with a positive limit the page count is the ceiling of items over limit |
| Pagination.NoItemsNoPages | web/backend/models/pagination.py:46-52 | no items give no pages, and no next page for any page from 0 on |
| Pagination.HasNextIffMoreItems | web/backend/models/pagination.py:46-52 | there is a next page exactly when the next page's offset is still before the end of the items |
| JobProgress.Updated | backend/core/utils.py:64-71 | each field is overwritten exactly when its argument is given; the id and the other fields stay |
| JobProgress.UpdatedThen | backend/core/utils.py:64-71 | two updates in a row are one update with the later arguments winning |
| JobProgress.UpdatedIdempotent | backend/core/utils.py:64-71 | repeating an update changes nothing more |
| JobProgress.UpdatesNeverClear | backend/core/utils.py:64-71 | no update can clear a recorded error or result |
| JobProgress.JobStorage.constructor | backend/database/jobs.py:79-111 | a new store holds the given rows and has written nothing |
| JobProgress.JobStorage.GetJob | backend/database/jobs.py:79-96 | None exactly when there is no row with that id; otherwise the row as a job |
| JobProgress.JobStorage.UpdateJob | backend/database/jobs.py:98-111 | the row with the job's id is overwritten, nothing when there is none, and the write is recorded |
| JobProgress.UpdateJobProgress | backend/core/utils.py:53-72 | nothing is written for an unknown job; otherwise the job is read, its given fields overwritten and written back exactly once |
| Strings.StripShape | backend/database/monuments.py:113 | `strip()` removes exactly the leading and trailing whitespace |
| Strings.Split | backend/database/monuments.py:113 | `split` gives at least one piece |
| Strings.JoinSplit | backend/database/monuments.py:113 | joining the pieces of a split gives the text back |
| Strings.SplitFirst | backend/database/monuments.py:123 | `split(sep, 1)` gives the text before and after the first occurrence |
| Strings.SplitLast | backend/database/monuments.py:128 | `rsplit(sep, 1)` gives the text before and after the last occurrence |
| Strings.Lower | backend/database/monuments.py:172 | `lower()` lowers each upper-case letter and keeps every other character |
| Strings.TitleShape | web/backend/services/monument_service.py:72 | `str.title()` keeps case exactly where the input has it and leaves other characters alone; letters inside a word are never upper case; a letter starting a word is lower case only when it has no single upper case |
| Strings.TitleIdempotent | web/backend/services/monument_service.py:72 | title-casing a title-cased name changes nothing |
| Strings.WordsAreWords | skeleton/monuments.py:99 | every piece `split()` gives is a non-empty run without whitespace |
| Strings.WordsOfJoin | skeleton/monuments.py:99 | the space-separated join of words splits back into those words |
| Strings.ParseShowNat | backend/database/monuments.py:124 | `int(str(n))` is n |
| Wrappers.CollectContents | skeleton/segments.py:162-168 | a loop that collects results succeeds with one value per result, in order |
| Wrappers.CollectFails | skeleton/segments.py:162-168 | it fails exactly when some result is an error |
| Wrappers.SomesMembers | backend/database/monuments.py:196-197 | the parsed values kept are exactly the present ones |

## Left out

- Network and file I/O are not modelled; what they return is a parameter instead:
  - OSM trackpoint paging, the Overpass HTTP calls with their timeouts, and pickle caching with wall-clock expiry;
  - monument scraping, the settings JSON file, and the files of segments, points and monuments;
  - each of these becomes a sequence of lines, a reply, a settings source or an optional cache entry.
- SQL is not modelled. The monument and job tables are a sequence of rows and a map from job id to row.
  `_ensure_data_loaded`, the near-point and text searches of the monument service, and the other storage queries are left out.
- Logging, `print`, PNG/KML/GPX export, the HTTP routers and the interactive CLI of `skeleton/main.py` are left out.
- Floating-point arithmetic is left out. Numbers are exact reals, and `haversine`, `acos` and k-means are parameters.
  - So the clamp of `_angle_of` only matters for a distance that violates the triangle inequality (`LegacyGraphmaker.CosineOfTriangle`).
  - The legacy `ValueError` of `acos` is shown to need rounding (`LegacyAngleOnMetric`).
- Timestamps are reals in seconds, and the time gap is their absolute difference.
- `Point.__hash__` of `skeleton/segments.py` hashes `(lat, lon)`. Here points are a datatype with structural equality,
  which is the equality that hash and the generated `__eq__` give.
- Python sets and dicts are Dafny sets and maps, so the iteration order of sets and dicts is not modelled.
  This covers the order of lines written from a set (`SaveSegments` lists any order) and the key order of `by_type`.
- A job's `result` is a type parameter. Storing an empty dict as NULL in `backend/database/jobs.py` is not modelled.
- `str.lower()` and `str.title()` are modelled on ASCII and Latin-1 letters only.
- `int()` is modelled as surrounding whitespace, one optional sign and ASCII digits. Underscores between digits and non-ASCII digits are not modelled.
- LegacyMonuments.Kept: `str.isdigit` is modelled on ASCII digits only. Python also accepts other Unicode digits such as '²', which `float` then rejects with `ValueError`.
- `find_routes`' `except` around locating the start node is not modelled. With a total distance function `find_closest_node` cannot raise, and an empty graph gives `None`, which every search then rejects with `NodeNotFound` (`RouteService.EmptyGraphNotFound`).
- `RouteService.RouteCalculationResult.GetDistance`: states only when a distance can exist. Its value, `nx.shortest_path_length`, is specified separately by `ShortestLength` and `ShortestLengthCorrect`.
- `RouteService.RouteCalculationResult.ToDict`: only the counts are modelled, not the serialised routes.
- The networkx graph is updated by reassigning a value, so aliasing of the graph object that `simplify_graph` changes in place is not modelled.
- `MonumentStorage.ParseFields`: `float` is modelled through `read`, so a coordinate text it cannot read gives None like a `ValueError`; `IndexError` cannot arise in the modelled code.

## Findings

| source | as written | input that shows it | evidently intended | confidence | as-written member | corrected member |
|---|---|---|---|---|---|---|
| web/backend/services/graph.py:303-313 | a node whose g-score improves while it is still queued is not pushed again, so it keeps its stale heap key | L1 graph S(4,4), A(0,4), B(0,3), C(5,0), D(1,0), G(5,2) with edges S-B, S-C, A-B, A-C, A-G, C-D, D-G: the search returns 15 along S, C, D, G | the optimal path the docstring promises: 13 along S, B, A, G | not executed | AStarWitness.AsWrittenNotOptimal | AStarOptimality.SearchOptimalOnMetricGraph |
| skeleton/graphmaker.py:13 | the distance is stored under the key `wheight`, so the `weight` that `skeleton/routes.py` searches by is absent and every edge weighs 1.0 | any segment list: every edge dict is exactly `{wheight}` | the distance stored as `weight` | not executed | LegacyGraphmaker.WheightOnlyWeighsOne | GraphService.MakeGraph |
| skeleton/graphmaker.py:26 | `g1, g3 = graph.adj[node]` raises ValueError when a candidate no longer has two neighbours | the triangle West(0,0), Middle(0,1), East(0,2) under L1 with epsilon 1.0: Middle merges into the existing West-East edge and East is left with one neighbour | skip such a node, as `web/backend/services/graph.py:79-80` does | not executed | LegacyGraphWitness.LegacyTriangleRaises | GraphService.SimplifyStep |
| skeleton/segments.py:132 | `labels[i + 1]` is read for the last pair too, which raises IndexError when that pair passes the filter | two fixes on one track and page, close in time and space, each its own cluster | test `i + 1 < len(all_points)` first, as `web/backend/services/segment_service.py:353` does | not executed | LegacySegments.TwoFixesRaise | SegmentService.Oriented |
