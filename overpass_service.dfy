/** `OverpassService` (web/backend/services/overpass_service.py).
  *
  * Hiking ways are fetched from the Overpass API in one request and each way's
  * geometry is cut into consecutive segments. The HTTP mirrors and the pickle
  * cache are outside the model: what a mirror answered and what the cache held
  * are parameters. */
module OverpassService {
  import opened Wrappers
  import opened Geo
  import opened Strings

  /** The mirrors, tried in this order. */
  const Mirrors: seq<string> := [
    "https://overpass-api.de/api/interpreter",
    "https://overpass.kumi.systems/api/interpreter",
    "https://overpass.openstreetmap.ru/api/interpreter"
  ]

  /** Above this width or height, in degrees, a box only draws a warning. */
  const MaxAreaSize: real := 0.5

  // ---------------------------------------------------------------------------
  // _build_query
  // ---------------------------------------------------------------------------

  /** `bbox_str`: south, west, north, east, comma-separated. */
  function BoxString(box: Box, show: Show): string
  {
    Join([show(box.bottomLeft.lat), show(box.bottomLeft.lon), show(box.topRight.lat), show(box.topRight.lon)], ",")
  }

  /** The three way filters of the query. */
  const Filters: seq<string> := [
    "[\"highway\"=\"path\"]",
    "[\"highway\"=\"footway\"]",
    "[\"highway\"=\"track\"][\"tracktype\"~\"grade[1-3]\"]"
  ]

  /** One line of the union: a way filter applied to the box. */
  function Clause(filter: string, bbox: string): string
  {
    "          way" + filter + "(" + bbox + ");\n"
  }

  const QueryHead: string := "\n        [out:json][timeout:90][maxsize:536870912];\n        (\n"
  const QueryTail: string := "        );\n        out geom;\n        "

  /** `_build_query`. */
  function BuildQuery(box: Box, show: Show): string
  {
    var b := BoxString(box, show);
    QueryHead + Clause(Filters[0], b) + Clause(Filters[1], b) + Clause(Filters[2], b) + QueryTail
  }

  /** Reading the box string back: when no coordinate prints with a comma, its four
    * fields are the two latitudes and longitudes in the order south, west, north,
    * east. */
  lemma BoxStringFields(box: Box, show: Show)
    requires forall x: real :: ',' !in show(x)
    ensures Split(BoxString(box, show), ",") ==
      [show(box.bottomLeft.lat), show(box.bottomLeft.lon), show(box.topRight.lat), show(box.topRight.lon)]
  {
    var parts := [show(box.bottomLeft.lat), show(box.bottomLeft.lon), show(box.topRight.lat), show(box.topRight.lon)];
    forall k | 0 <= k < |parts|
      ensures !Contains(parts[k], ",")
    {
      NoneIsAbsent(parts[k], ",");
    }
    SplitJoin(parts, ",");
  }

  /** Every one of the three filters is applied to the same box string. */
  lemma QueryFiltersBox(box: Box, show: Show)
    ensures Contains(BuildQuery(box, show), Clause(Filters[0], BoxString(box, show)))
    ensures Contains(BuildQuery(box, show), Clause(Filters[1], BoxString(box, show)))
    ensures Contains(BuildQuery(box, show), Clause(Filters[2], BoxString(box, show)))
  {
    var b := BoxString(box, show);
    ThreeInfixes(QueryHead, Clause(Filters[0], b), Clause(Filters[1], b), Clause(Filters[2], b), QueryTail);
  }

  lemma ThreeInfixes(h: string, c0: string, c1: string, c2: string, t: string)
    ensures Contains(h + c0 + c1 + c2 + t, c0)
    ensures Contains(h + c0 + c1 + c2 + t, c1)
    ensures Contains(h + c0 + c1 + c2 + t, c2)
  {
    InfixAt(h, c0, c1 + c2 + t);
    InfixAt(h + c0, c1, c2 + t);
    InfixAt(h + c0 + c1, c2, t);
    assert h + c0 + (c1 + c2 + t) == h + c0 + c1 + c2 + t;
    assert h + c0 + c1 + (c2 + t) == h + c0 + c1 + c2 + t;
  }

  lemma InfixAt(a: string, b: string, c: string)
    ensures Contains(a + b + c, b)
  {
    assert (a + b + c)[|a|..|a| + |b|] == b;
    assert At(a + b + c, b, |a|);
  }

  // ---------------------------------------------------------------------------
  // _extract_segments
  // ---------------------------------------------------------------------------

  /** An OSM element of the JSON reply: its `type`, and its `geometry` when the
    * key is present. */
  datatype Element = Element(kind: string, geometry: Option<seq<Point>>)

  /** Only ways with a geometry give segments. */
  predicate Contributes(e: Element)
  {
    e.kind == "way" && e.geometry.Some?
  }

  /** The segments of one way: node i to node i + 1. */
  function WaySegments(nodes: seq<Point>): (segs: seq<Segment>)
    ensures |segs| == if |nodes| == 0 then 0 else |nodes| - 1
    ensures forall i | 0 <= i < |segs| :: segs[i] == (nodes[i], nodes[i + 1])
  {
    if |nodes| == 0 then [] else seq(|nodes| - 1, i requires 0 <= i < |nodes| - 1 => (nodes[i], nodes[i + 1]))
  }

  /** The polyline a chain of segments walks along. */
  function Unchain(segs: seq<Segment>): seq<Point>
    requires |segs| > 0
  {
    [segs[0].0] + seq(|segs|, i requires 0 <= i < |segs| => segs[i].1)
  }

  /** Segments of one way are chained, and the way's geometry can be read back
    * from them. */
  lemma WaySegmentsChain(nodes: seq<Point>)
    requires |nodes| >= 2
    ensures var segs := WaySegments(nodes);
      (forall i | 0 <= i < |segs| - 1 :: segs[i].1 == segs[i + 1].0) && Unchain(segs) == nodes
  {
    var segs := WaySegments(nodes);
    assert forall i | 0 <= i < |nodes| :: Unchain(segs)[i] == nodes[i];
  }

  function ElementSegments(e: Element): seq<Segment>
  {
    if Contributes(e) then WaySegments(e.geometry.value) else []
  }

  /** The segments of the elements, in element order and then node order. */
  function Extracted(es: seq<Element>): seq<Segment>
  {
    ConcatMap(es, ElementSegments)
  }

  /** `_extract_segments`; `None` stands for a reply without an `elements` key. */
  method ExtractSegments(elements: Option<seq<Element>>) returns (segments: seq<Segment>)
    ensures segments == Extracted(if elements.Some? then elements.value else [])
  {
    var es := if elements.Some? then elements.value else [];
    segments := [];
    for e := 0 to |es|
      invariant segments == Extracted(es[..e])
    {
      var element := es[e];
      ExtractedStep(es, e);
      if element.kind == "way" && element.geometry.Some? {
        segments := AppendWay(segments, element.geometry.value);
      }
    }
    assert es[..|es|] == es;
  }

  /** The inner loop of `_extract_segments`: one segment per pair of
    * consecutive nodes of a way, appended in node order. */
  method AppendWay(segments: seq<Segment>, nodes: seq<Point>) returns (r: seq<Segment>)
    ensures r == segments + WaySegments(nodes)
  {
    r := segments;
    for i := 0 to if |nodes| == 0 then 0 else |nodes| - 1
      invariant r == segments + WaySegments(nodes)[..i]
    {
      r := r + [(nodes[i], nodes[i + 1])];
    }
    assert WaySegments(nodes)[..|WaySegments(nodes)|] == WaySegments(nodes);
  }

  lemma ExtractedStep(es: seq<Element>, e: nat)
    requires e < |es|
    ensures Extracted(es[..e + 1]) == Extracted(es[..e]) + ElementSegments(es[e])
  {
    PrefixStep(es, e);
    ConcatMapSnoc(es[..e], es[e], ElementSegments);
  }

  /** Extraction distributes over concatenation: the output follows element order. */
  lemma ExtractedAppend(a: seq<Element>, b: seq<Element>)
    ensures Extracted(a + b) == Extracted(a) + Extracted(b)
  {
    ConcatMapAppend(a, b, ElementSegments);
  }

  /** The number of segments: `max(0, k - 1)` for every way with `k` geometry
    * nodes, nothing for the other elements. */
  function SegmentCount(es: seq<Element>): nat
    decreases |es|
  {
    if |es| == 0 then 0
    else
      var e := es[|es| - 1];
      SegmentCount(es[..|es| - 1])
      + (if Contributes(e) && |e.geometry.value| > 0 then |e.geometry.value| - 1 else 0)
  }

  lemma {:induction false} ExtractedLength(es: seq<Element>)
    ensures |Extracted(es)| == SegmentCount(es)
    decreases |es|
  {
    if |es| > 0 {
      ExtractedLength(es[..|es| - 1]);
    }
  }

  /** The ways with a geometry among the elements, in order. */
  function Ways(es: seq<Element>): seq<Element>
    decreases |es|
  {
    if |es| == 0 then []
    else Ways(es[..|es| - 1]) + (if Contributes(es[|es| - 1]) then [es[|es| - 1]] else [])
  }

  /** Only ways with a geometry matter: dropping every other element leaves the
    * output unchanged. */
  lemma {:induction false} OnlyWaysCount(es: seq<Element>)
    ensures Extracted(Ways(es)) == Extracted(es)
    decreases |es|
  {
    if |es| > 0 {
      var n := |es| - 1;
      OnlyWaysCount(es[..n]);
      var w := Ways(es[..n]);
      if Contributes(es[n]) {
        assert Ways(es) == w + [es[n]];
        ExtractedSnoc(w, es[n]);
      } else {
        assert Ways(es) == w;
        assert Extracted(es) == Extracted(es[..n]) + [];
      }
    }
  }

  lemma ExtractedSnoc(es: seq<Element>, e: Element)
    ensures Extracted(es + [e]) == Extracted(es) + ElementSegments(e)
  {
    ConcatMapSnoc(es, e, ElementSegments);
  }

  // ---------------------------------------------------------------------------
  // download_trails
  // ---------------------------------------------------------------------------

  /** What one mirror did with the request. */
  datatype Reply = TimedOut | RequestFailed | Replied(elements: Option<seq<Element>>)

  /** The box-size check of `download_trails`. */
  predicate TooLarge(box: Box)
  {
    Abs(box.topRight.lon - box.bottomLeft.lon) > MaxAreaSize
    || Abs(box.topRight.lat - box.bottomLeft.lat) > MaxAreaSize
  }

  /** How a download ends: the cached segments, or the query sent and the first
    * reply that arrived (or the last failure when every mirror failed). */
  datatype Download =
    | FromCache(segments: seq<Segment>)
    | Fetched(warned: bool, query: string, result: Result<seq<Segment>, Reply>)

  /** The index of the first mirror that replied. */
  function FirstReply(replies: seq<Reply>): (k: nat)
    ensures k <= |replies|
    ensures k < |replies| ==> replies[k].Replied?
    ensures forall j | 0 <= j < k :: !replies[j].Replied?
    decreases |replies|
  {
    if |replies| == 0 || replies[0].Replied? then 0 else 1 + FirstReply(replies[1..])
  }

  /** `download_trails` with a valid cache entry or none, and the reply of every
    * mirror. A large box is warned about and queried all the same. */
  method DownloadTrails(box: Box, cache: Option<seq<Segment>>, replies: seq<Reply>, show: Show) returns (d: Download)
    requires |replies| == |Mirrors|
    ensures cache.Some? ==> d == FromCache(cache.value)
    ensures cache.None? ==> d.Fetched? && d.query == BuildQuery(box, show) && (d.warned <==> TooLarge(box))
    ensures cache.None? ==>
      var k := FirstReply(replies);
      if k < |replies| then d.result == Ok(Extracted(if replies[k].elements.Some? then replies[k].elements.value else []))
      else d.result == Err(replies[|replies| - 1])
  {
    if cache.Some? {
      return FromCache(cache.value);
    }
    var warned := TooLarge(box);
    var query := BuildQuery(box, show);
    var lastError: Reply := TimedOut;
    for i := 0 to |Mirrors|
      invariant forall j | 0 <= j < i :: !replies[j].Replied?
      invariant i > 0 ==> lastError == replies[i - 1]
    {
      var reply := replies[i];
      if reply.Replied? {
        var segments := ExtractSegments(reply.elements);
        FirstReplyIs(replies, i);
        return Fetched(warned, query, Ok(segments));
      }
      lastError := reply;
    }
    NoReply(replies);
    return Fetched(warned, query, Err(lastError));
  }

  lemma FirstReplyIs(replies: seq<Reply>, i: nat)
    requires i < |replies| && replies[i].Replied? && forall j | 0 <= j < i :: !replies[j].Replied?
    ensures FirstReply(replies) == i
  {
  }

  lemma NoReply(replies: seq<Reply>)
    requires forall j | 0 <= j < |replies| :: !replies[j].Replied?
    ensures FirstReply(replies) == |replies|
  {
  }
}
