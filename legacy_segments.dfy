/** The first command-line version of the segment pipeline (`skeleton/segments.py`).
  *
  * `download_segments` clusters every loaded GPS point with KMeans, keeps the
  * consecutive pairs that pass the same filter as the web backend's slow path,
  * and writes each kept segment as one comma-separated line; `load_segments`
  * reads such a file back. The loop reads `labels[i + 1]` without a bound check,
  * so a passing last pair raises IndexError. Loading the settings and the points
  * is I/O and outside the model: the points and the three settings are
  * parameters. */
module LegacySegments {
  import opened Wrappers
  import opened Geo
  import opened Strings
  import opened SegmentService

  // ---------------------------------------------------------------------------
  // download_segments: clustering and the pair loop
  // ---------------------------------------------------------------------------

  /** `KMeans(n_clusters=k).fit(coords)`: scikit-learn raises ValueError for a
    * count below one or above the number of samples. */
  function LegacyFit(coords: seq<Point>, nClusters: int, fit: Fitter): (r: Result<Fit, PyError>)
    requires FitterSound(fit)
    ensures r.Ok? <==> 1 <= nClusters <= |coords|
    ensures r.Ok? ==> Fits(r.value, |coords|)
    ensures r.Err? ==> r.error == ValueError
  {
    if 1 <= nClusters <= |coords| then Ok(fit(coords, nClusters)) else Err(ValueError)
  }

  /** The orientation the legacy loop gives the pair (i - 1, i) when `labels[i + 1]`
    * exists: the backend's orientation. */
  function LegacyOriented(pts: seq<TrackPoint>, f: Fit, i: nat): (s: Segment)
    requires Fits(f, |pts|) && 1 <= i && i + 1 < |pts|
    ensures s == Oriented(pts, f, i)
  {
    var c1 := f.centers[f.labels[i - 1]];
    var c2 := f.centers[f.labels[i]];
    if f.labels[i + 1] < f.labels[i] then (c1, c2) else (c2, c1)
  }

  /** The `segments` set after the loop has looked at the pairs ending before `n`,
    * or IndexError once the last pair passes the filter. */
  function LegacyPairs(pts: seq<TrackPoint>, f: Fit, n: nat, timeDelta: real, distanceDelta: real, dist: Distance)
    : (r: Result<set<Segment>, PyError>)
    requires Fits(f, |pts|) && n <= |pts|
    ensures r.Err? ==> r.error == IndexError
  {
    if n <= 1 then Ok({})
    else
      match LegacyPairs(pts, f, n - 1, timeDelta, distanceDelta, dist)
      case Err(e) => Err(e)
      case Ok(segments) =>
        if !Joins(pts, f, n - 1, timeDelta, distanceDelta, dist) then Ok(segments)
        else if n < |pts| then Ok(segments + {LegacyOriented(pts, f, n - 1)})
        else Err(IndexError)
  }

  /** Before the last pair the legacy loop keeps exactly the backend's segments. */
  lemma {:induction false} LegacyPairsBeforeLast(pts: seq<TrackPoint>, f: Fit, n: nat, timeDelta: real, distanceDelta: real, dist: Distance)
    requires Fits(f, |pts|) && n < |pts|
    ensures LegacyPairs(pts, f, n, timeDelta, distanceDelta, dist) == Ok(PairSegments(pts, f, n, timeDelta, distanceDelta, dist))
  {
    if n > 1 {
      LegacyPairsBeforeLast(pts, f, n - 1, timeDelta, distanceDelta, dist);
      var before := PairSegments(pts, f, n - 1, timeDelta, distanceDelta, dist);
      assert PairSegments(pts, f, n, timeDelta, distanceDelta, dist)
        == before + (if Joins(pts, f, n - 1, timeDelta, distanceDelta, dist) then {Oriented(pts, f, n - 1)} else {});
      assert LegacyPairs(pts, f, n - 1, timeDelta, distanceDelta, dist) == Ok(before);
      if Joins(pts, f, n - 1, timeDelta, distanceDelta, dist) {
        assert LegacyPairs(pts, f, n, timeDelta, distanceDelta, dist) == Ok(before + {LegacyOriented(pts, f, n - 1)});
      } else {
        assert LegacyPairs(pts, f, n, timeDelta, distanceDelta, dist) == Ok(before);
        assert PairSegments(pts, f, n, timeDelta, distanceDelta, dist) == before + {};
        assert before + {} == before;
      }
    }
  }

  /** The whole loop raises IndexError exactly when the last pair passes the filter;
    * otherwise it keeps the backend's segments. */
  lemma LegacyPairsLast(pts: seq<TrackPoint>, f: Fit, timeDelta: real, distanceDelta: real, dist: Distance)
    requires Fits(f, |pts|) && |pts| >= 2
    ensures var r := LegacyPairs(pts, f, |pts|, timeDelta, distanceDelta, dist);
      && (r.Err? <==> Joins(pts, f, |pts| - 1, timeDelta, distanceDelta, dist))
      && (r.Ok? ==> r.value == PairSegments(pts, f, |pts|, timeDelta, distanceDelta, dist))
  {
    LegacyPairsBeforeLast(pts, f, |pts| - 1, timeDelta, distanceDelta, dist);
  }

  /** `download_segments` from the loaded points to the set it writes. */
  function LegacyDownload(pts: seq<TrackPoint>, nClusters: int, timeDelta: real, distanceDelta: real,
                          fit: Fitter, dist: Distance): Result<set<Segment>, PyError>
    requires FitterSound(fit)
  {
    match LegacyFit(Coords(pts), nClusters, fit)
    case Err(e) => Err(e)
    case Ok(f) => LegacyPairs(pts, f, |pts|, timeDelta, distanceDelta, dist)
  }

  const Start := Point(41.0, 2.0)
  const Next := Point(41.0, 2.001)

  /** Two fixes of one track a minute apart. */
  const TwoFixes: seq<TrackPoint> := [TrackPoint(41.0, 2.0, 0.0, 1, 1), TrackPoint(41.0, 2.001, 60.0, 1, 1)]

  /** With two clusters for two points, each point is its own cluster; the legacy
    * script then raises IndexError where the backend writes the one segment. */
  lemma TwoFixesRaise(fit: Fitter, dist: Distance)
    requires FitterSound(fit)
    requires fit(Coords(TwoFixes), 2) == Fit([0, 1], [Start, Next])
    requires dist(Start, Next) < DefaultDistanceDelta
    ensures LegacyDownload(TwoFixes, 2, DefaultTimeDelta, DefaultDistanceDelta, fit, dist) == Err(IndexError)
    ensures SlowOutcome(TwoFixes, 2, DefaultTimeDelta, DefaultDistanceDelta, fit, dist) == Saved({(Next, Start)})
  {
    var coords := Coords(TwoFixes);
    assert coords == [Start, Next];
    var f := Fit([0, 1], [Start, Next]);
    assert Joins(TwoFixes, f, 1, DefaultTimeDelta, DefaultDistanceDelta, dist);
    LegacyPairsLast(TwoFixes, f, DefaultTimeDelta, DefaultDistanceDelta, dist);
    assert seq(2, i => i) == [0, 1];
    assert Labelling(coords, 2, fit) == Some(f);
    assert PairSegments(TwoFixes, f, 2, DefaultTimeDelta, DefaultDistanceDelta, dist) == {(Next, Start)};
  }

  /** The pair loop of `download_segments`. */
  method LegacyFilterPairs(pts: seq<TrackPoint>, f: Fit, timeDelta: real, distanceDelta: real, dist: Distance)
    returns (r: Result<set<Segment>, PyError>)
    requires Fits(f, |pts|) && |pts| >= 1
    ensures r == LegacyPairs(pts, f, |pts|, timeDelta, distanceDelta, dist)
  {
    var labels, centers := f.labels, f.centers;
    var segments := {};
    for i := 1 to |pts|
      invariant LegacyPairs(pts, f, i, timeDelta, distanceDelta, dist) == Ok(segments)
    {
      var c1 := centers[labels[i - 1]];
      var c2 := centers[labels[i]];
      if Abs(pts[i].time - pts[i - 1].time) < timeDelta
         && dist(c1, c2) < distanceDelta
         && labels[i - 1] != labels[i]
         && pts[i - 1].track == pts[i].track
         && pts[i - 1].page == pts[i].page
      {
        if i + 1 >= |pts| {
          return Err(IndexError);
        }
        if labels[i + 1] < labels[i] {
          segments := segments + {(c1, c2)};
        } else {
          segments := segments + {(c2, c1)};
        }
      }
    }
    return Ok(segments);
  }

  // ---------------------------------------------------------------------------
  // download_segments: writing the file
  // ---------------------------------------------------------------------------

  /** One line of the segments file: both endpoints, latitude first. The newline
    * ends the last field. */
  function SaveLine(s: Segment, show: Show): string
  {
    Join([show(s.0.lat), show(s.0.lon), show(s.1.lat), show(s.1.lon) + "\n"], ",")
  }

  /** The lines written for segments taken in the order `order`. */
  function SavedLines(order: seq<Segment>, show: Show): (lines: seq<string>)
    ensures |lines| == |order|
    ensures forall k | 0 <= k < |order| :: lines[k] == SaveLine(order[k], show)
  {
    seq(|order|, k requires 0 <= k < |order| => SaveLine(order[k], show))
  }

  lemma SavedLinesSnoc(order: seq<Segment>, s: Segment, show: Show)
    ensures SavedLines(order + [s], show) == SavedLines(order, show) + [SaveLine(s, show)]
  {
  }

  /** `order` lists the set, each member once: the set's iteration order. */
  predicate Enumerates(order: seq<Segment>, segments: set<Segment>)
  {
    && |order| == |segments|
    && (forall s | s in order :: s in segments)
    && (forall s | s in segments :: s in order)
  }

  /** The write loop: one line per segment of the set, in its iteration order, and
    * the count it reports. */
  method SaveSegments(segments: set<Segment>, show: Show) returns (order: seq<Segment>, lines: seq<string>, count: nat)
    ensures Enumerates(order, segments)
    ensures lines == SavedLines(order, show)
    ensures count == |segments|
  {
    var rest := segments;
    order, lines, count := [], [], 0;
    while rest != {}
      invariant rest <= segments
      invariant forall s | s in order :: s in segments && s !in rest
      invariant forall s | s in segments :: s in order || s in rest
      invariant |order| + |rest| == |segments| && count == |order|
      invariant lines == SavedLines(order, show)
      decreases |rest|
    {
      var s :| s in rest;
      SavedLinesSnoc(order, s, show);
      order := order + [s];
      lines := lines + [SaveLine(s, show)];
      count := count + 1;
      rest := rest - {s};
    }
  }

  /** `download_segments` from the loaded points on: the segments in the order
    * written, the lines of the file and the count it reports. */
  method LegacyDownloadSegments(pts: seq<TrackPoint>, nClusters: int, timeDelta: real, distanceDelta: real,
                                fit: Fitter, dist: Distance, show: Show)
    returns (r: Result<seq<Segment>, PyError>, lines: seq<string>, count: nat)
    requires FitterSound(fit)
    ensures var d := LegacyDownload(pts, nClusters, timeDelta, distanceDelta, fit, dist);
      && (r.Ok? <==> d.Ok?)
      && (r.Err? ==> r.error == d.error && lines == [] && count == 0)
      && (r.Ok? ==> Enumerates(r.value, d.value) && lines == SavedLines(r.value, show) && count == |d.value|)
  {
    var coords := Coords(pts);
    if !(1 <= nClusters <= |coords|) {
      return Err(ValueError), [], 0;
    }
    var f := fit(coords, nClusters);
    var pairs := LegacyFilterPairs(pts, f, timeDelta, distanceDelta, dist);
    if pairs.Err? {
      return Err(pairs.error), [], 0;
    }
    var order;
    order, lines, count := SaveSegments(pairs.value, show);
    r := Ok(order);
  }

  /** Listing a set with as many entries as members lists no member twice. */
  lemma EnumeratesOnce(order: seq<Segment>, segments: set<Segment>)
    requires Enumerates(order, segments)
    ensures forall i, j | 0 <= i < j < |order| :: order[i] != order[j]
  {
    assert (set s | s in order) == segments;
    DistinctCount(order);
  }

  /** A sequence has at most as many distinct members as entries, and exactly as
    * many only when no entry repeats. */
  lemma {:induction false} DistinctCount<T>(xs: seq<T>)
    ensures |set x | x in xs| <= |xs|
    ensures |set x | x in xs| == |xs| ==> forall i, j | 0 <= i < j < |xs| :: xs[i] != xs[j]
  {
    if xs != [] {
      var init := xs[..|xs| - 1];
      var last := xs[|xs| - 1];
      DistinctCount(init);
      assert xs == init + [last];
      assert (set x | x in xs) == (set x | x in init) + {last};
      if |set x | x in xs| == |xs| {
        assert last !in (set x | x in init);
        forall i, j | 0 <= i < j < |xs| ensures xs[i] != xs[j] {
          if j == |xs| - 1 {
            assert xs[i] == init[i];
          } else {
            assert xs[i] == init[i] && xs[j] == init[j];
          }
        }
      }
    }
  }

  // ---------------------------------------------------------------------------
  // load_segments
  // ---------------------------------------------------------------------------

  /** One line of a segments file: exactly four comma-separated floats, or
    * ValueError (too few or too many fields to unpack, or a field `float` rejects). */
  function ParseLine(line: string, read: Read): (r: Result<Segment, PyError>)
    ensures r.Err? ==> r.error == ValueError
    ensures r.Ok? ==> |Split(line, ",")| == 4
  {
    var fields := Split(line, ",");
    if |fields| != 4 then Err(ValueError)
    else
      match (Float(fields[0], read), Float(fields[1], read), Float(fields[2], read), Float(fields[3], read))
      case (Some(lat1), Some(lon1), Some(lat2), Some(lon2)) => Ok((Point(lat1, lon1), Point(lat2, lon2)))
      case _ => Err(ValueError)
  }

  /** A line of four fields that `float` accepts gives the segment of those numbers. */
  lemma ParseLineOk(line: string, read: Read, lat1: real, lon1: real, lat2: real, lon2: real)
    requires |Split(line, ",")| == 4
    requires Float(Split(line, ",")[0], read) == Some(lat1) && Float(Split(line, ",")[1], read) == Some(lon1)
    requires Float(Split(line, ",")[2], read) == Some(lat2) && Float(Split(line, ",")[3], read) == Some(lon2)
    ensures ParseLine(line, read) == Ok((Point(lat1, lon1), Point(lat2, lon2)))
  {
  }

  /** What each line of the file parses to. */
  function Parsed(lines: seq<string>, read: Read): (rs: seq<Result<Segment, PyError>>)
    ensures |rs| == |lines|
    ensures forall k | 0 <= k < |lines| :: rs[k] == ParseLine(lines[k], read)
  {
    Mapped(lines, line => ParseLine(line, read))
  }

  /** What `load_segments` returns for the lines of a file: their segments in file
    * order, or the first failing line's ValueError. */
  function Loaded(lines: seq<string>, read: Read): (r: Result<seq<Segment>, PyError>)
    ensures r.Err? ==> r.error == ValueError
  {
    var rs := Parsed(lines, read);
    var r := Collect(rs);
    assert r.Err? ==> exists k | 0 <= k < |rs| :: rs[k] == Err(r.error);
    r
  }

  /** A loaded file has one segment per line, in file order. */
  lemma LoadedContents(lines: seq<string>, read: Read)
    requires Loaded(lines, read).Ok?
    ensures var r := Loaded(lines, read);
      |r.value| == |lines| && forall k | 0 <= k < |lines| :: ParseLine(lines[k], read) == Ok(r.value[k])
  {
    CollectContents(Parsed(lines, read));
  }

  /** Loading fails exactly when some line does not parse. */
  lemma LoadedFails(lines: seq<string>, read: Read)
    ensures Loaded(lines, read).Err? <==> exists k | 0 <= k < |lines| :: ParseLine(lines[k], read).Err?
  {
    var rs := Parsed(lines, read);
    CollectFails(rs);
    if exists k | 0 <= k < |lines| :: ParseLine(lines[k], read).Err? {
      var k :| 0 <= k < |lines| && ParseLine(lines[k], read).Err?;
      assert rs[k].Err?;
    }
  }

  /** `load_segments` over the lines of the file. */
  method LoadSegments(lines: seq<string>, read: Read) returns (r: Result<seq<Segment>, PyError>)
    ensures r == Loaded(lines, read)
  {
    ghost var rs := Parsed(lines, read);
    var segm := [];
    for i := 0 to |lines|
      invariant Collect(rs[..i]) == Ok(segm)
    {
      CollectStep(rs, i);
      var fields := Split(lines[i], ",");
      if |fields| != 4 {
        CollectErrSticks(rs, i + 1);
        return Err(ValueError);
      }
      var lat1, lon1 := Float(fields[0], read), Float(fields[1], read);
      var lat2, lon2 := Float(fields[2], read), Float(fields[3], read);
      if lat1.None? || lon1.None? || lat2.None? || lon2.None? {
        CollectErrSticks(rs, i + 1);
        return Err(ValueError);
      }
      ParseLineOk(lines[i], read, lat1.value, lon1.value, lat2.value, lon2.value);
      segm := segm + [(Point(lat1.value, lon1.value), Point(lat2.value, lon2.value))];
    }
    assert rs[..|lines|] == rs;
    return Ok(segm);
  }

  /** `str` of a float is a non-empty one-line text without commas or
    * surrounding whitespace. */
  ghost predicate Printable(show: Show)
  {
    forall x: real :: Trimmed(show(x)) && OneLine(show(x)) && !Contains(show(x), ",")
  }

  /** `float(str(x)) == x` for the four coordinates of a segment. */
  ghost predicate ReadsBackSegment(s: Segment, show: Show, read: Read)
  {
    && ReadsBack(show, read, s.0.lat) && ReadsBack(show, read, s.0.lon)
    && ReadsBack(show, read, s.1.lat) && ReadsBack(show, read, s.1.lon)
  }

  /** A written line reads back as its segment. */
  lemma ParseSaved(s: Segment, show: Show, read: Read)
    requires Printable(show) && ReadsBackSegment(s, show, read)
    ensures ParseLine(SaveLine(s, show), read) == Ok(s)
  {
    var last := show(s.1.lon);
    SavedFields(s, show);
    FloatOfShow(s.0.lat, show, read);
    FloatOfShow(s.0.lon, show, read);
    FloatOfShow(s.1.lat, show, read);
    StripTrimmed(last, "\n");
    ParseLineOk(SaveLine(s, show), read, s.0.lat, s.0.lon, s.1.lat, s.1.lon);
  }

  /** The comma-separated fields of a written line. */
  lemma SavedFields(s: Segment, show: Show)
    requires Printable(show)
    ensures Split(SaveLine(s, show), ",") == [show(s.0.lat), show(s.0.lon), show(s.1.lat), show(s.1.lon) + "\n"]
  {
    var last := show(s.1.lon);
    var fields := [show(s.0.lat), show(s.0.lon), show(s.1.lat), last + "\n"];
    NoneIsAbsent(last, ",");
    NoneIsAbsent(last + "\n", ",");
    SplitJoin(fields, ",");
  }

  /** Loading a file of written lines gives back the segments in the order written. */
  lemma {:induction false} LoadSaved(order: seq<Segment>, show: Show, read: Read)
    requires Printable(show) && forall k | 0 <= k < |order| :: ReadsBackSegment(order[k], show, read)
    ensures Loaded(SavedLines(order, show), read) == Ok(order)
  {
    var lines := SavedLines(order, show);
    forall k | 0 <= k < |order| ensures ParseLine(lines[k], read) == Ok(order[k]) {
      ParseSaved(order[k], show, read);
    }
    LoadedFails(lines, read);
    var r := Loaded(lines, read);
    assert r.Ok?;
    LoadedContents(lines, read);
    assert r.value == order by {
      forall k | 0 <= k < |order| ensures r.value[k] == order[k] {
        assert ParseLine(lines[k], read) == Ok(r.value[k]);
      }
    }
  }
}
