/** The text parsers of the first command-line version's monument list
  * (`skeleton/monuments.py`).
  *
  * A scraped "Localització" paragraph gives a monument's coordinates as degrees,
  * minutes and seconds after the first `N`; the monument file keeps one
  * `name;lat;lon` line per monument. Scraping and the thread pool are outside the
  * model: the paragraph text and the file's lines are parameters. */
module LegacyMonuments {
  import opened Wrappers
  import opened Geo
  import opened Strings

  datatype Monument = Monument(name: string, location: Point)

  // ---------------------------------------------------------------------------
  // _get_coordinates and _location_to_point
  // ---------------------------------------------------------------------------

  /** How many characters from the first `N` are looked at. */
  const WindowLength: nat := 26

  /** The characters the extractor keeps. */
  predicate Keeps(c: char)
  {
    IsDigit(c) || c == '.' || c == ' '
  }

  /** The kept characters of `s`, in order. */
  function Kept(s: string): (r: string)
    ensures |r| <= |s|
    ensures forall k | 0 <= k < |r| :: Keeps(r[k])
  {
    if s == [] then []
    else Kept(s[..|s| - 1]) + (if Keeps(s[|s| - 1]) then [s[|s| - 1]] else [])
  }

  /** Filtering a concatenation filters each part. */
  lemma {:induction false} KeptAppend(a: string, b: string)
    ensures Kept(a + b) == Kept(a) + Kept(b)
    decreases |b|
  {
    if b != [] {
      var init := b[..|b| - 1];
      assert (a + b)[..|a + b| - 1] == a + init;
      assert (a + b)[|a + b| - 1] == b[|b| - 1];
      KeptAppend(a, init);
      assert Kept(b) == Kept(init) + (if Keeps(b[|b| - 1]) then [b[|b| - 1]] else []);
    } else {
      assert a + b == a;
    }
  }

  /** A text of kept characters passes unchanged, so filtering twice changes
    * nothing more. */
  lemma {:induction false} KeptAll(s: string)
    requires forall k | 0 <= k < |s| :: Keeps(s[k])
    ensures Kept(s) == s
  {
    if s != [] {
      KeptAll(s[..|s| - 1]);
    }
  }

  lemma KeptIdempotent(s: string)
    ensures Kept(Kept(s)) == Kept(s)
  {
    KeptAll(Kept(s));
  }

  /** Every kept character of `s` survives. */
  lemma {:induction false} KeptKeeps(s: string, k: nat)
    requires k < |s| && Keeps(s[k])
    ensures s[k] in Kept(s)
  {
    var init := s[..|s| - 1];
    if k < |s| - 1 {
      assert init[k] == s[k];
      KeptKeeps(init, k);
    }
  }

  /** `text[i : i + 26]`: Python clips the slice at the end of the text. */
  function Window(text: string, i: nat): (w: string)
    requires i <= |text|
    ensures |w| <= WindowLength && i + |w| <= |text| && w == text[i..i + |w|]
    ensures i + WindowLength <= |text| ==> |w| == WindowLength
  {
    if i + WindowLength <= |text| then text[i..i + WindowLength] else text[i..]
  }

  /** Degrees, minutes and seconds as decimal degrees; no sign is applied. */
  function Dms(h: real, m: real, s: real): real
  {
    h + m / 60.0 + s / 3600.0
  }

  /** `_location_to_point`: exactly six whitespace-separated numbers, latitude then
    * longitude, or ValueError. */
  function LocationToPoint(loc: string, read: Read): (r: Result<Point, PyError>)
    ensures r.Err? ==> r.error == ValueError
    ensures |Words(loc)| != 6 ==> r.Err?
  {
    var ws := Words(loc);
    if |ws| != 6 then Err(ValueError)
    else
      match (Float(ws[0], read), Float(ws[1], read), Float(ws[2], read), Float(ws[3], read), Float(ws[4], read), Float(ws[5], read))
      case (Some(h1), Some(m1), Some(s1), Some(h2), Some(m2), Some(s2)) => Ok(Point(Dms(h1, m1, s1), Dms(h2, m2, s2)))
      case _ => Err(ValueError)
  }

  /** The text `_get_coordinates` hands on: the kept characters of the window that
    * starts at the first `N`, or nothing without an `N`. */
  function Located(text: string): (r: Option<string>)
    ensures r.None? <==> 'N' !in text
  {
    NoneIsAbsent(text, "N");
    match Find(text, "N", 0)
    case None => None
    case Some(i) => Some(Kept(Window(text, i)))
  }

  /** `_get_coordinates`: ValueError without an `N`, otherwise the location read
    * from the located text. */
  function GetCoordinates(text: string, read: Read): (r: Result<Point, PyError>)
    ensures r.Err? ==> r.error == ValueError
    ensures 'N' !in text ==> r == Err(ValueError)
  {
    match Located(text)
    case None => Err(ValueError)
    case Some(loc) => LocationToPoint(loc, read)
  }

  /** Nothing after the window of the first `N` matters. */
  lemma WindowOnly(text: string, tail: string)
    requires Find(text, "N", 0).Some? && Find(text, "N", 0).value + WindowLength <= |text|
    ensures Located(text + tail) == Located(text)
  {
    var i := Find(text, "N", 0).value;
    SameWindow(text, tail, i);
    LocatedAt(text, i);
    LocatedAt(text + tail, i);
  }

  lemma SameWindow(text: string, tail: string, i: nat)
    requires Find(text, "N", 0) == Some(i) && i + WindowLength <= |text|
    ensures Find(text + tail, "N", 0) == Some(i)
    ensures Window(text + tail, i) == Window(text, i)
  {
    FindExtends(text, tail, "N", 0);
    assert (text + tail)[i..i + WindowLength] == text[i..i + WindowLength];
  }

  lemma LocatedAt(text: string, i: nat)
    requires Find(text, "N", 0) == Some(i)
    ensures Located(text) == Some(Kept(Window(text, i)))
  {
  }

  /** `str` of a float is one word. */
  ghost predicate OneWord(show: Show)
  {
    forall x: real :: IsWord(show(x))
  }

  /** A word is trimmed. */
  lemma WordIsTrimmed(w: string)
    requires IsWord(w)
    ensures Trimmed(w)
  {
    assert w[0] in w && w[|w| - 1] in w;
  }

  lemma ReadWord(x: real, show: Show, read: Read)
    requires OneWord(show) && ReadsBack(show, read, x)
    ensures Float(show(x), read) == Some(x)
  {
    WordIsTrimmed(show(x));
    FloatOfShow(x, show, read);
  }

  /** Six words that read as numbers give the point of those numbers. */
  lemma LocationOfFloats(loc: string, read: Read, h1: real, m1: real, s1: real, h2: real, m2: real, s2: real)
    requires |Words(loc)| == 6
    requires Float(Words(loc)[0], read) == Some(h1) && Float(Words(loc)[1], read) == Some(m1)
    requires Float(Words(loc)[2], read) == Some(s1) && Float(Words(loc)[3], read) == Some(h2)
    requires Float(Words(loc)[4], read) == Some(m2) && Float(Words(loc)[5], read) == Some(s2)
    ensures LocationToPoint(loc, read) == Ok(Point(Dms(h1, m1, s1), Dms(h2, m2, s2)))
  {
  }

  /** `str` of each number. */
  function Shown(xs: seq<real>, show: Show): (ws: seq<string>)
    ensures |ws| == |xs| && forall k | 0 <= k < |xs| :: ws[k] == show(xs[k])
  {
    seq(|xs|, k requires 0 <= k < |xs| => show(xs[k]))
  }

  /** Six numbers (degrees, minutes, seconds of latitude, then of longitude)
    * written out with spaces between them read back as the point they give. */
  lemma LocationOfDms(xs: seq<real>, show: Show, read: Read)
    requires |xs| == 6 && OneWord(show) && forall k | 0 <= k < 6 :: ReadsBack(show, read, xs[k])
    ensures LocationToPoint(Join(Shown(xs, show), " "), read) == Ok(Point(Dms(xs[0], xs[1], xs[2]), Dms(xs[3], xs[4], xs[5])))
  {
    var ws := Shown(xs, show);
    forall k | 0 <= k < |ws| ensures IsWord(ws[k]) {
      ShownWord(xs[k], show);
    }
    WordsOfJoin(ws);
    LocationOfWords(Join(Shown(xs, show), " "), xs, show, read);
  }

  lemma ShownWord(x: real, show: Show)
    requires OneWord(show)
    ensures IsWord(show(x))
  {
  }

  /** Any text whose words are the six shown numbers, however spaced. */
  lemma LocationOfWords(loc: string, xs: seq<real>, show: Show, read: Read)
    requires |xs| == 6 && OneWord(show) && forall k | 0 <= k < 6 :: ReadsBack(show, read, xs[k])
    requires Words(loc) == Shown(xs, show)
    ensures LocationToPoint(loc, read) == Ok(Point(Dms(xs[0], xs[1], xs[2]), Dms(xs[3], xs[4], xs[5])))
  {
    var ws := Words(loc);
    forall k | 0 <= k < 6 ensures Float(ws[k], read) == Some(xs[k]) {
      ReadWord(xs[k], show, read);
    }
    LocationOfFloats(loc, read, xs[0], xs[1], xs[2], xs[3], xs[4], xs[5]);
  }

  // ---------------------------------------------------------------------------
  // load_monuments and the file get_monuments writes
  // ---------------------------------------------------------------------------

  /** One line of the monument file: the stripped line split on `;` into exactly
    * name, latitude and longitude, or ValueError. */
  function ParseMonument(line: string, read: Read): (r: Result<Monument, PyError>)
    ensures r.Err? ==> r.error == ValueError
    ensures r.Ok? ==> |Split(Strip(line), ";")| == 3 && r.value.name == Split(Strip(line), ";")[0]
  {
    var fields := Split(Strip(line), ";");
    if |fields| != 3 then Err(ValueError)
    else
      match (Float(fields[1], read), Float(fields[2], read))
      case (Some(lat), Some(lon)) => Ok(Monument(fields[0], Point(lat, lon)))
      case _ => Err(ValueError)
  }

  /** The monuments of the lines of a file, in file order, or the first failing
    * line's ValueError. */
  function LoadedMonuments(lines: seq<string>, read: Read): (r: Result<seq<Monument>, PyError>)
    ensures r.Err? ==> r.error == ValueError
  {
    var rs := ParsedLines(lines, read);
    var r := Collect(rs);
    assert r.Err? ==> exists k | 0 <= k < |rs| :: rs[k] == Err(r.error);
    r
  }

  /** Every line of the file, parsed on its own. */
  function ParsedLines(lines: seq<string>, read: Read): (rs: seq<Result<Monument, PyError>>)
    ensures |rs| == |lines| && forall k | 0 <= k < |lines| :: rs[k] == ParseMonument(lines[k], read)
  {
    seq(|lines|, k requires 0 <= k < |lines| => ParseMonument(lines[k], read))
  }

  /** A loaded file has one monument per line, in file order; loading fails
    * exactly when some line does not parse. */
  lemma LoadedMonumentsLines(lines: seq<string>, read: Read)
    ensures var r := LoadedMonuments(lines, read);
      && (r.Err? <==> exists k | 0 <= k < |lines| :: ParseMonument(lines[k], read).Err?)
      && (r.Ok? ==> |r.value| == |lines| && forall k | 0 <= k < |lines| :: ParseMonument(lines[k], read) == Ok(r.value[k]))
  {
    var rs := ParsedLines(lines, read);
    CollectFails(rs);
    if Collect(rs).Ok? {
      CollectContents(rs);
    }
    if exists k | 0 <= k < |lines| :: ParseMonument(lines[k], read).Err? {
      var k :| 0 <= k < |lines| && ParseMonument(lines[k], read).Err?;
      assert rs[k].Err?;
    }
  }

  /** The line `get_monuments` writes for a monument. */
  function SaveMonument(m: Monument, show: Show): string
  {
    Join([m.name, show(m.location.lat), show(m.location.lon)], ";") + "\n"
  }

  /** A name the file keeps: no `;`, no line break for reading the file line by
    * line to split at, and no leading whitespace for `strip` to eat. */
  predicate StorableName(name: string)
  {
    ';' !in name && OneLine(name) && (name == [] || !IsSpace(name[0]))
  }

  /** The fields of a written monument line. */
  lemma SavedMonumentFields(m: Monument, show: Show)
    requires StorableName(m.name) && Separable(show)
    ensures Split(Strip(SaveMonument(m, show)), ";") == [m.name, show(m.location.lat), show(m.location.lon)]
  {
    var lat, lon := show(m.location.lat), show(m.location.lon);
    var fields := [m.name, lat, lon];
    var body := Join(fields, ";");
    assert fields[1..] == [lat, lon] && [lat, lon][1..] == [lon];
    assert Join([lat, lon], ";") == lat + ";" + lon;
    assert body == m.name + ";" + (lat + ";" + lon);
    assert Trimmed(body) by {
      assert body[|body| - 1] == lon[|lon| - 1];
      if m.name == [] {
        assert body[0] == ';';
      } else {
        assert body[0] == m.name[0];
      }
    }
    StripTrimmed(body, "\n");
    forall k | 0 <= k < 3 ensures !Contains(fields[k], ";") {
      NoneIsAbsent(fields[k], ";");
    }
    SplitJoin(fields, ";");
  }

  /** A line whose three fields are a name and two numbers parses to that
    * monument. */
  lemma ParseMonumentOf(line: string, read: Read, name: string, a: string, b: string, lat: real, lon: real)
    requires Split(Strip(line), ";") == [name, a, b]
    requires Float(a, read) == Some(lat) && Float(b, read) == Some(lon)
    ensures ParseMonument(line, read) == Ok(Monument(name, Point(lat, lon)))
  {
  }

  /** A written monument line reads back as the monument. */
  lemma ParseSavedMonument(m: Monument, show: Show, read: Read)
    requires StorableName(m.name) && Separable(show)
    requires ReadsBack(show, read, m.location.lat) && ReadsBack(show, read, m.location.lon)
    ensures ParseMonument(SaveMonument(m, show), read) == Ok(m)
  {
    SavedMonumentFields(m, show);
    FloatOfShow(m.location.lat, show, read);
    FloatOfShow(m.location.lon, show, read);
    ParseMonumentOf(SaveMonument(m, show), read, m.name, show(m.location.lat), show(m.location.lon), m.location.lat, m.location.lon);
  }

  /** Loading the file `get_monuments` writes gives back the monuments in order. */
  lemma LoadSavedMonuments(ms: seq<Monument>, show: Show, read: Read)
    requires forall k | 0 <= k < |ms| :: StorableName(ms[k].name)
    requires Separable(show)
    requires forall k | 0 <= k < |ms| :: ReadsBack(show, read, ms[k].location.lat) && ReadsBack(show, read, ms[k].location.lon)
    ensures LoadedMonuments(seq(|ms|, k requires 0 <= k < |ms| => SaveMonument(ms[k], show)), read) == Ok(ms)
  {
    var lines := seq(|ms|, k requires 0 <= k < |ms| => SaveMonument(ms[k], show));
    forall k | 0 <= k < |ms| ensures ParseMonument(lines[k], read) == Ok(ms[k]) {
      ParseSavedMonument(ms[k], show, read);
    }
    LoadedMonumentsLines(lines, read);
    var r := LoadedMonuments(lines, read);
    assert r.value == ms by {
      forall k | 0 <= k < |ms| ensures r.value[k] == ms[k] {
        assert ParseMonument(lines[k], read) == Ok(r.value[k]);
      }
    }
  }
}
