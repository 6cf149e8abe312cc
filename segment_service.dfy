/** `SegmentService` (web/backend/services/segment_service.py).
  *
  * Trail segments are snapped to representative points and stored once per
  * unordered pair. The fast path takes raw segments from Overpass and snaps their
  * endpoints, either to themselves or to a k-means center. The slow path, used
  * when the fast one raises, joins consecutive GPS track points whose k-means
  * labels differ.
  *
  * MiniBatchKMeans is foreign code. Here it is a parameter: `Clusterer` gives the
  * center assigned to a point, and `Fitter` gives per-point labels and the centers. */
module SegmentService {
  import opened Wrappers
  import opened Geo

  const DefaultTimeDelta: real := 300.0
  const DefaultDistanceDelta: real := 0.1
  const DefaultClusters: int := 500
  const DefaultMaxPages: int := 50
  /** Below this many points, clustering is skipped. */
  const SmallDataset: nat := 1000
  /** Upper bound on the adaptive cluster count. */
  const MaxClusters: int := 2000

  function Min(a: int, b: int): int
  {
    if a <= b then a else b
  }

  /** `min(self.n_clusters, n // 10, 2000)`: the smallest of the three bounds. */
  function AdaptiveClusters(nClusters: int, n: nat): (k: int)
    ensures k <= nClusters && k <= n / 10 && k <= MaxClusters
    ensures k == nClusters || k == n / 10 || k == MaxClusters
  {
    Min(Min(nClusters, n / 10), MaxClusters)
  }

  /** MiniBatchKMeans rejects a cluster count below one by raising. */
  predicate ClustersAccepted(k: int)
  {
    k >= 1
  }

  /** What one run of the file-saving branch of `download_segments` ends with. */
  datatype Written =
    | NotEnough                       // early `return 0`, nothing written
    | Saved(segments: set<Segment>)   // the set written to the segments file
    | Failed                          // an exception: the fast path falls back, the slow path raises

  /** The integer `download_segments` returns. */
  function Count(w: Written): (n: nat)
    ensures w.Saved? ==> n == |w.segments|
    ensures !w.Saved? ==> n == 0
  {
    if w.Saved? then |w.segments| else 0
  }

  // ---------------------------------------------------------------------------
  // The fast path: lines 196-271
  // ---------------------------------------------------------------------------

  /** A MiniBatchKMeans fitted on a set of distinct points with a cluster count,
    * then `predict` and `cluster_centers_`: the center a point is assigned to. */
  type Clusterer = (set<Point>, int, Point) -> Point

  /** `point_to_cluster`: every distinct point mapped to itself in a small dataset,
    * otherwise to its k-means center. */
  function ClusterMap(unique: set<Point>, nClusters: int, center: Clusterer): (m: map<Point, Point>)
    ensures m.Keys == unique
  {
    if |unique| < SmallDataset then map p | p in unique :: p
    else map p | p in unique :: center(unique, AdaptiveClusters(nClusters, |unique|), p)
  }

  /** `point_to_cluster.get(p, p)`. */
  function Snap(m: map<Point, Point>, p: Point): Point
  {
    if p in m then m[p] else p
  }

  /** The entry a pair of snapped endpoints adds to the set: nothing when both ends
    * coincide, otherwise the pair with the smaller point first. */
  function Canonical(c1: Point, c2: Point): (r: Option<Segment>)
    ensures r.None? <==> c1 == c2
    ensures r.Some? ==> Less(r.value.0, r.value.1)
    ensures r.Some? ==> (r.value == (c1, c2) || r.value == (c2, c1))
  {
    if c1 == c2 then None
    else if Less(c1, c2) then Some((c1, c2))
    else Some((c2, c1))
  }

  /** The entry of one raw segment under the cluster map. */
  function Image(m: map<Point, Point>, s: Segment): Option<Segment>
  {
    Canonical(Snap(m, s.0), Snap(m, s.1))
  }

  function Entry(o: Option<Segment>): set<Segment>
  {
    if o.Some? then {o.value} else {}
  }

  /** The `segments` set after the loop has seen the given raw segments. */
  function Canonicalise(raw: seq<Segment>, m: map<Point, Point>): set<Segment>
    decreases |raw|
  {
    if |raw| == 0 then {}
    else Canonicalise(raw[..|raw| - 1], m) + Entry(Image(m, raw[|raw| - 1]))
  }

  /** What the fast path ends with, by case: too few segments or distinct points,
    * a cluster count MiniBatchKMeans rejects (it raises), or the canonical set. */
  function FastOutcome(raw: seq<Segment>, nClusters: int, center: Clusterer): Written
  {
    var unique := Endpoints(raw);
    if |raw| < 2 || |unique| < 2 then NotEnough
    else if |unique| >= SmallDataset && !ClustersAccepted(AdaptiveClusters(nClusters, |unique|)) then Failed
    else Saved(Canonicalise(raw, ClusterMap(unique, nClusters, center)))
  }

  /** The fast path of `download_segments`, from the raw segments on. */
  method FastSegments(raw: seq<Segment>, nClusters: int, center: Clusterer) returns (w: Written)
    ensures w == FastOutcome(raw, nClusters, center)
  {
    if |raw| < 2 {
      return NotEnough;
    }
    var unique := UniquePoints(raw);
    if |unique| < 2 {
      return NotEnough;
    }
    var m: map<Point, Point>;
    if |unique| < SmallDataset {
      m := map p | p in unique :: p;
    } else {
      var k := AdaptiveClusters(nClusters, |unique|);
      if !ClustersAccepted(k) {
        return Failed;
      }
      m := Predict(unique, k, center);
    }
    assert m == ClusterMap(unique, nClusters, center);
    var segments := MapSegments(raw, m);
    return Saved(segments);
  }

  /** `all_points`: both endpoints of every segment, in order. */
  function AllPoints(raw: seq<Segment>): seq<Point>
    decreases |raw|
  {
    if |raw| == 0 then [] else AllPoints(raw[..|raw| - 1]) + [raw[|raw| - 1].0, raw[|raw| - 1].1]
  }

  /** `set(all_points)`, after the loop that lists both endpoints of every segment. */
  method UniquePoints(raw: seq<Segment>) returns (unique: set<Point>)
    ensures unique == Endpoints(raw)
  {
    var allPoints: seq<Point> := [];
    for i := 0 to |raw|
      invariant allPoints == AllPoints(raw[..i])
    {
      assert raw[..i + 1][..i] == raw[..i];
      allPoints := allPoints + [raw[i].0, raw[i].1];
    }
    assert raw[..|raw|] == raw;
    unique := set p | p in allPoints;
    AllPointsAreEndpoints(raw);
  }

  /** The distinct members of `all_points` are the segment endpoints. */
  lemma {:induction false} AllPointsAreEndpoints(raw: seq<Segment>)
    ensures (set p | p in AllPoints(raw)) == Endpoints(raw)
    decreases |raw|
  {
    if |raw| > 0 {
      var n := |raw| - 1;
      AllPointsAreEndpoints(raw[..n]);
      EndpointsSnoc(raw);
    }
  }

  /** The loop that fills `point_to_cluster` from the fitted model. */
  method Predict(unique: set<Point>, k: int, center: Clusterer) returns (m: map<Point, Point>)
    ensures m == map p | p in unique :: center(unique, k, p)
  {
    m := map[];
    var rest := unique;
    while rest != {}
      invariant rest <= unique && m.Keys == unique - rest
      invariant forall p | p in m :: m[p] == center(unique, k, p)
      decreases |rest|
    {
      var p :| p in rest;
      m := m[p := center(unique, k, p)];
      rest := rest - {p};
    }
  }

  /** The loop that maps every raw segment to its canonical entry. */
  method MapSegments(raw: seq<Segment>, m: map<Point, Point>) returns (segments: set<Segment>)
    ensures segments == Canonicalise(raw, m)
  {
    segments := {};
    for i := 0 to |raw|
      invariant segments == Canonicalise(raw[..i], m)
    {
      var c1 := Snap(m, raw[i].0);
      var c2 := Snap(m, raw[i].1);
      if c1 != c2 {
        if Less(c1, c2) {
          segments := segments + {(c1, c2)};
        } else {
          segments := segments + {(c2, c1)};
        }
      }
      assert raw[..i + 1][..i] == raw[..i];
    }
    assert raw[..|raw|] == raw;
  }

  /** A segment is written exactly when some raw segment's snapped endpoints differ
    * and it is their canonical pair. */
  lemma {:induction false} CanonicaliseMembers(raw: seq<Segment>, m: map<Point, Point>)
    ensures forall s :: s in Canonicalise(raw, m) <==> exists k | 0 <= k < |raw| :: Image(m, raw[k]) == Some(s)
    decreases |raw|
  {
    if |raw| > 0 {
      var n := |raw| - 1;
      CanonicaliseMembers(raw[..n], m);
      forall s
        ensures s in Canonicalise(raw, m) <==> exists k | 0 <= k < |raw| :: Image(m, raw[k]) == Some(s)
      {
        if s in Canonicalise(raw[..n], m) {
          var k :| 0 <= k < n && Image(m, raw[..n][k]) == Some(s);
          assert raw[..n][k] == raw[k];
        }
        if exists k | 0 <= k < |raw| :: Image(m, raw[k]) == Some(s) {
          var k :| 0 <= k < |raw| && Image(m, raw[k]) == Some(s);
          if k < n {
            assert raw[..n][k] == raw[k];
          }
        }
      }
    }
  }

  /** Every written segment has distinct endpoints, the smaller first, and they are
    * the snapped endpoints of one raw segment in one order or the other. */
  lemma SegmentsCanonical(raw: seq<Segment>, m: map<Point, Point>)
    ensures forall s | s in Canonicalise(raw, m) :: s.0 != s.1 && Less(s.0, s.1)
    ensures forall s | s in Canonicalise(raw, m) ::
      exists k | 0 <= k < |raw| ::
        s == (Snap(m, raw[k].0), Snap(m, raw[k].1)) || s == (Snap(m, raw[k].1), Snap(m, raw[k].0))
  {
    CanonicaliseMembers(raw, m);
    forall s | s in Canonicalise(raw, m)
      ensures s.0 != s.1 && Less(s.0, s.1)
    {
      var k :| 0 <= k < |raw| && Image(m, raw[k]) == Some(s);
      LessIsStrictTotal(s.0, s.1);
    }
  }

  /** A raw segment whose ends snap apart is always represented. */
  lemma SegmentsComplete(raw: seq<Segment>, m: map<Point, Point>, k: nat)
    requires k < |raw| && Snap(m, raw[k].0) != Snap(m, raw[k].1)
    ensures (Snap(m, raw[k].0), Snap(m, raw[k].1)) in Canonicalise(raw, m)
         || (Snap(m, raw[k].1), Snap(m, raw[k].0)) in Canonicalise(raw, m)
  {
    CanonicaliseMembers(raw, m);
  }

  /** A segment and its reverse give one entry: adding the reverse of a segment
    * already seen leaves the set unchanged. */
  lemma ReverseAddsNothing(raw: seq<Segment>, m: map<Point, Point>, a: Point, b: Point)
    requires (a, b) in raw
    ensures Canonicalise(raw + [(b, a)], m) == Canonicalise(raw, m)
  {
    var k :| 0 <= k < |raw| && raw[k] == (a, b);
    assert (raw + [(b, a)])[..|raw|] == raw;
    assert Image(m, (b, a)) == Image(m, (a, b));
    CanonicaliseMembers(raw, m);
  }

  /** With fewer than 1000 distinct points nothing is snapped: the written set is
    * the canonical pairs of the raw segments themselves. */
  lemma SmallDatasetUnsnapped(raw: seq<Segment>, nClusters: int, center: Clusterer)
    requires |Endpoints(raw)| < SmallDataset
    ensures forall s :: s in Canonicalise(raw, ClusterMap(Endpoints(raw), nClusters, center)) <==>
      exists k | 0 <= k < |raw| :: Canonical(raw[k].0, raw[k].1) == Some(s)
  {
    var m := ClusterMap(Endpoints(raw), nClusters, center);
    CanonicaliseMembers(raw, m);
    forall k | 0 <= k < |raw|
      ensures Image(m, raw[k]) == Canonical(raw[k].0, raw[k].1)
    {
      assert Snap(m, raw[k].0) == raw[k].0;
      assert Snap(m, raw[k].1) == raw[k].1;
    }
  }

  // ---------------------------------------------------------------------------
  // The slow path: lines 302-356
  // ---------------------------------------------------------------------------

  /** One line of `pointinfo.txt`: coordinates, time in seconds, track and page. */
  datatype TrackPoint = TrackPoint(lat: real, lon: real, time: real, track: int, page: int)

  /** `labels_` and `cluster_centers_`. */
  datatype Fit = Fit(labels: seq<int>, centers: seq<Point>)

  /** MiniBatchKMeans fitted on a list of points with a cluster count. */
  type Fitter = (seq<Point>, int) -> Fit

  /** One label per point, each the index of a center. */
  predicate Fits(f: Fit, n: nat)
  {
    |f.labels| == n && forall i | 0 <= i < n :: 0 <= f.labels[i] < |f.centers|
  }

  /** What the library promises for every accepted cluster count. */
  ghost predicate FitterSound(fit: Fitter)
  {
    forall pts: seq<Point>, k: int | ClustersAccepted(k) :: Fits(fit(pts, k), |pts|)
  }

  /** `coords`. */
  function Coords(pts: seq<TrackPoint>): (c: seq<Point>)
    ensures |c| == |pts|
    ensures forall i | 0 <= i < |pts| :: c[i] == Point(pts[i].lat, pts[i].lon)
  {
    seq(|pts|, i requires 0 <= i < |pts| => Point(pts[i].lat, pts[i].lon))
  }

  /** Labels and centers: each point its own cluster in a small dataset, otherwise
    * a k-means fit; `None` when MiniBatchKMeans raises. */
  function Labelling(coords: seq<Point>, nClusters: int, fit: Fitter): (l: Option<Fit>)
    requires FitterSound(fit)
    ensures l.Some? ==> Fits(l.value, |coords|)
    ensures l.None? <==> |coords| >= SmallDataset && !ClustersAccepted(AdaptiveClusters(nClusters, |coords|))
  {
    if |coords| < SmallDataset then Some(Fit(seq(|coords|, i => i), coords))
    else
      var k := AdaptiveClusters(nClusters, |coords|);
      if ClustersAccepted(k) then Some(fit(coords, k)) else None
  }

  /** The filter on the pair (i - 1, i): close in time and space, different
    * clusters, same track and page. */
  predicate Joins(pts: seq<TrackPoint>, f: Fit, i: nat, timeDelta: real, distanceDelta: real, dist: Distance)
    requires Fits(f, |pts|) && 1 <= i < |pts|
  {
    Abs(pts[i].time - pts[i - 1].time) < timeDelta
    && dist(f.centers[f.labels[i - 1]], f.centers[f.labels[i]]) < distanceDelta
    && f.labels[i - 1] != f.labels[i]
    && pts[i - 1].track == pts[i].track
    && pts[i - 1].page == pts[i].page
  }

  /** The orientation of the segment of the pair (i - 1, i). It reads `labels[i + 1]`
    * only when that exists; the last pair always gets the reversed orientation. */
  function Oriented(pts: seq<TrackPoint>, f: Fit, i: nat): (s: Segment)
    requires Fits(f, |pts|) && 1 <= i < |pts|
    ensures s == (f.centers[f.labels[i - 1]], f.centers[f.labels[i]])
         || s == (f.centers[f.labels[i]], f.centers[f.labels[i - 1]])
    ensures i + 1 == |pts| ==> s == (f.centers[f.labels[i]], f.centers[f.labels[i - 1]])
  {
    var c1 := f.centers[f.labels[i - 1]];
    var c2 := f.centers[f.labels[i]];
    if i + 1 < |pts| && f.labels[i + 1] < f.labels[i] then (c1, c2) else (c2, c1)
  }

  /** The `segments` set after the loop has looked at the pairs ending before `n`. */
  function PairSegments(pts: seq<TrackPoint>, f: Fit, n: nat, timeDelta: real, distanceDelta: real, dist: Distance): set<Segment>
    requires Fits(f, |pts|) && n <= |pts|
  {
    if n <= 1 then {}
    else
      PairSegments(pts, f, n - 1, timeDelta, distanceDelta, dist)
      + (if Joins(pts, f, n - 1, timeDelta, distanceDelta, dist) then {Oriented(pts, f, n - 1)} else {})
  }

  /** What the slow path ends with: too few points, a cluster count MiniBatchKMeans
    * rejects (it raises), or the filtered pairs. */
  function SlowOutcome(pts: seq<TrackPoint>, nClusters: int, timeDelta: real, distanceDelta: real,
                       fit: Fitter, dist: Distance): Written
    requires FitterSound(fit)
  {
    if |pts| < 2 then NotEnough
    else
      var l := Labelling(Coords(pts), nClusters, fit);
      if l.None? then Failed
      else Saved(PairSegments(pts, l.value, |pts|, timeDelta, distanceDelta, dist))
  }

  /** `_download_segments_slow`, from the loaded points on. */
  method SlowSegments(pts: seq<TrackPoint>, nClusters: int, timeDelta: real, distanceDelta: real,
                      fit: Fitter, dist: Distance) returns (w: Written)
    requires FitterSound(fit)
    ensures w == SlowOutcome(pts, nClusters, timeDelta, distanceDelta, fit, dist)
  {
    if |pts| < 2 {
      return NotEnough;
    }
    var coords := Coords(pts);
    var labelled := Label(coords, nClusters, fit);
    if labelled.None? {
      return Failed;
    }
    var segments := FilterPairs(pts, labelled.value, timeDelta, distanceDelta, dist);
    return Saved(segments);
  }

  /** `labels` and `centers` as the slow path computes them. */
  method Label(coords: seq<Point>, nClusters: int, fit: Fitter) returns (l: Option<Fit>)
    requires FitterSound(fit)
    ensures l == Labelling(coords, nClusters, fit)
  {
    if |coords| < SmallDataset {
      return Some(Fit(seq(|coords|, i => i), coords));
    }
    var k := AdaptiveClusters(nClusters, |coords|);
    if !ClustersAccepted(k) {
      return None;
    }
    return Some(fit(coords, k));
  }

  /** The loop over consecutive pairs of `_download_segments_slow`. */
  method FilterPairs(pts: seq<TrackPoint>, f: Fit, timeDelta: real, distanceDelta: real, dist: Distance)
    returns (segments: set<Segment>)
    requires Fits(f, |pts|) && |pts| >= 1
    ensures segments == PairSegments(pts, f, |pts|, timeDelta, distanceDelta, dist)
  {
    var labels, centers := f.labels, f.centers;
    segments := {};
    for i := 1 to |pts|
      invariant segments == PairSegments(pts, f, i, timeDelta, distanceDelta, dist)
    {
      var c1 := centers[labels[i - 1]];
      var c2 := centers[labels[i]];
      if Abs(pts[i].time - pts[i - 1].time) < timeDelta
         && dist(c1, c2) < distanceDelta
         && labels[i - 1] != labels[i]
         && pts[i - 1].track == pts[i].track
         && pts[i - 1].page == pts[i].page
      {
        if i + 1 < |pts| && labels[i + 1] < labels[i] {
          segments := segments + {(c1, c2)};
        } else {
          segments := segments + {(c2, c1)};
        }
      }
    }
  }

  /** A segment is written exactly when some pair passes the filter and it is that
    * pair's oriented segment. */
  lemma {:induction false} PairSegmentsMembers(pts: seq<TrackPoint>, f: Fit, n: nat, timeDelta: real, distanceDelta: real, dist: Distance)
    requires Fits(f, |pts|) && n <= |pts|
    ensures forall s :: s in PairSegments(pts, f, n, timeDelta, distanceDelta, dist) <==>
      exists i | 1 <= i < n :: Joins(pts, f, i, timeDelta, distanceDelta, dist) && s == Oriented(pts, f, i)
  {
    if n > 1 {
      PairSegmentsMembers(pts, f, n - 1, timeDelta, distanceDelta, dist);
    }
  }

  /** Without clustering each point is its own cluster, so every pair has distinct
    * labels and a later label: a pair passes on time, distance, track and page alone,
    * and its segment runs from the later point back to the earlier one. */
  lemma SmallSlowSegments(pts: seq<TrackPoint>, nClusters: int, timeDelta: real, distanceDelta: real,
                          fit: Fitter, dist: Distance)
    requires FitterSound(fit) && |pts| < SmallDataset
    ensures var c := Coords(pts);
      var l := Labelling(c, nClusters, fit);
      l.Some? &&
      forall s :: s in PairSegments(pts, l.value, |pts|, timeDelta, distanceDelta, dist) <==>
        exists i | 1 <= i < |pts| ::
          Abs(pts[i].time - pts[i - 1].time) < timeDelta && dist(c[i - 1], c[i]) < distanceDelta
          && pts[i - 1].track == pts[i].track && pts[i - 1].page == pts[i].page
          && s == (c[i], c[i - 1])
  {
    var c := Coords(pts);
    var f := Labelling(c, nClusters, fit).value;
    PairSegmentsMembers(pts, f, |pts|, timeDelta, distanceDelta, dist);
    forall i | 1 <= i < |pts|
      ensures Oriented(pts, f, i) == (c[i], c[i - 1])
      ensures Joins(pts, f, i, timeDelta, distanceDelta, dist) <==>
        Abs(pts[i].time - pts[i - 1].time) < timeDelta && dist(c[i - 1], c[i]) < distanceDelta
        && pts[i - 1].track == pts[i].track && pts[i - 1].page == pts[i].page
    {
      assert f.labels[i - 1] == i - 1 && f.labels[i] == i;
      if i + 1 < |pts| {
        assert f.labels[i + 1] == i + 1;
      }
    }
  }

  // ---------------------------------------------------------------------------
  // The service object
  // ---------------------------------------------------------------------------

  /** The JSON settings file, read with `data.get(key, default)`. */
  datatype SettingsFile = SettingsFile(
    timeDelta: Option<real>, distanceDelta: Option<real>, nClusters: Option<int>, maxDownloadPages: Option<int>)

  /** Where `load_settings` gets its values: no file at either location, a file
    * that cannot be read as JSON, or a parsed file. */
  datatype SettingsSource = Missing | Unreadable | Parsed(file: SettingsFile)

  function GetOr<T>(o: Option<T>, default: T): T
  {
    if o.Some? then o.value else default
  }

  class SegmentService {
    var timeDelta: real
    var distanceDelta: real
    var nClusters: int
    /** `None` while the attribute has never been assigned. */
    var maxDownloadPages: Option<int>

    constructor(source: SettingsSource)
      ensures Settled(source)
    {
      maxDownloadPages := None;
      new;
      LoadSettings(source);
    }

    /** The fields after `load_settings` ran on the given source. A missing file
      * leaves `max_download_pages` unassigned. */
    ghost predicate Settled(source: SettingsSource)
      reads this
    {
      match source
      case Missing =>
        timeDelta == DefaultTimeDelta && distanceDelta == DefaultDistanceDelta
        && nClusters == DefaultClusters && maxDownloadPages == None
      case Unreadable =>
        timeDelta == DefaultTimeDelta && distanceDelta == DefaultDistanceDelta
        && nClusters == DefaultClusters && maxDownloadPages == Some(DefaultMaxPages)
      case Parsed(f) =>
        timeDelta == GetOr(f.timeDelta, DefaultTimeDelta)
        && distanceDelta == GetOr(f.distanceDelta, DefaultDistanceDelta)
        && nClusters == GetOr(f.nClusters, DefaultClusters)
        && maxDownloadPages == Some(GetOr(f.maxDownloadPages, DefaultMaxPages))
    }

    /** `load_settings`: every setting comes from the file or its default. On a
      * missing file `max_download_pages` keeps whatever it had. */
    method LoadSettings(source: SettingsSource)
      modifies this
      ensures source.Missing? ==> maxDownloadPages == old(maxDownloadPages)
      ensures !source.Missing? || old(maxDownloadPages) == None ==> Settled(source)
      ensures source.Missing? ==>
        timeDelta == DefaultTimeDelta && distanceDelta == DefaultDistanceDelta && nClusters == DefaultClusters
    {
      match source {
        case Missing =>
          timeDelta := 300.0;
          distanceDelta := 0.1;
          nClusters := 500;
        case Unreadable =>
          timeDelta := 300.0;
          distanceDelta := 0.1;
          nClusters := 500;
          maxDownloadPages := Some(50);
        case Parsed(f) =>
          timeDelta := GetOr(f.timeDelta, 300.0);
          distanceDelta := GetOr(f.distanceDelta, 0.1);
          nClusters := GetOr(f.nClusters, 500);
          maxDownloadPages := Some(GetOr(f.maxDownloadPages, 50));
      }
    }

    /** `download_segments`: the fast path on what Overpass returned, or the slow
      * path on the track points when Overpass raised (`None`) or the fast path did. */
    method DownloadSegments(overpass: Option<seq<Segment>>, pts: seq<TrackPoint>,
                            center: Clusterer, fit: Fitter, dist: Distance) returns (count: nat, w: Written)
      requires FitterSound(fit)
      ensures count == Count(w)
      ensures overpass.Some? && !FastOutcome(overpass.value, nClusters, center).Failed? ==>
        w == FastOutcome(overpass.value, nClusters, center)
      ensures overpass.None? || FastOutcome(overpass.value, nClusters, center).Failed? ==>
        w == SlowOutcome(pts, nClusters, timeDelta, distanceDelta, fit, dist)
    {
      if overpass.Some? {
        w := FastSegments(overpass.value, nClusters, center);
        if !w.Failed? {
          return Count(w), w;
        }
      }
      w := SlowSegments(pts, nClusters, timeDelta, distanceDelta, fit, dist);
      count := Count(w);
    }
  }
}
