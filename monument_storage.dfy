/** The monument loader of the database layer (`backend/database/monuments.py`):
  * one line of `monuments.dat` to a monument record, the type read off the name,
  * and the batched load into the monuments table. SQL and the connection are
  * outside the model: the table is the list of rows inserted and the sizes of the
  * batches that inserted them. */
module MonumentStorage {
  import opened Wrappers
  import opened Strings

  /** A monument record; `id` is the database key, None until a row is stored. */
  datatype Monument = Monument(
    id: Option<int>, originalId: int, name: string, monumentType: string,
    town: string, region: string, latitude: real, longitude: real, fullLocation: string)

  // ---------------------------------------------------------------------------
  // _extract_monument_type
  // ---------------------------------------------------------------------------

  const Militar: string := "militar"
  const Religious: string := "religiós"
  const Civil: string := "civil"

  /** The name prefixes of each type, lower-cased. */
  const MilitarPrefixes: seq<string> := ["castell", "torre", "muralla", "fortalesa"]
  const ReligiousPrefixes: seq<string> := ["església", "capella", "ermita", "santuari", "monestir", "convent"]
  const CivilPrefixes: seq<string> := ["casa", "palau", "pont", "molí", "hospital", "universitat"]

  /** The types with their prefixes, in the order they are tried. */
  const TypePatterns: seq<(string, seq<string>)> :=
    [(Militar, MilitarPrefixes), (Religious, ReligiousPrefixes), (Civil, CivilPrefixes)]

  predicate AnyPrefix(s: string, ps: seq<string>)
  {
    exists k | 0 <= k < |ps| :: StartsWith(s, ps[k])
  }

  /** The first row of `table`, from `from` on, one of whose prefixes starts `s`. */
  function FirstMatch(s: string, table: seq<(string, seq<string>)>, from: nat): (r: Option<nat>)
    ensures r.None? <==> forall k | from <= k < |table| :: !AnyPrefix(s, table[k].1)
    ensures r.Some? ==> from <= r.value < |table| && AnyPrefix(s, table[r.value].1)
    ensures r.Some? ==> forall k | from <= k < r.value :: !AnyPrefix(s, table[k].1)
    decreases |table| - from
  {
    if from >= |table| then None
    else if AnyPrefix(s, table[from].1) then Some(from)
    else FirstMatch(s, table, from + 1)
  }

  /** `_extract_monument_type`: militar when the lower-cased name starts with a
    * military prefix, religiós when it starts with a religious one and no
    * military one, civil otherwise. The civil prefixes only confirm the default. */
  function MonumentType(name: string): (t: string)
    ensures t == Militar <==> AnyPrefix(Lower(name), MilitarPrefixes)
    ensures t == Religious <==> !AnyPrefix(Lower(name), MilitarPrefixes) && AnyPrefix(Lower(name), ReligiousPrefixes)
    ensures t == Civil <==> !AnyPrefix(Lower(name), MilitarPrefixes) && !AnyPrefix(Lower(name), ReligiousPrefixes)
  {
    assert |Militar| == 7 && |Religious| == 8 && |Civil| == 5;
    assert TypePatterns[0].1 == MilitarPrefixes && TypePatterns[1].1 == ReligiousPrefixes;
    match FirstMatch(Lower(name), TypePatterns, 0)
    case Some(k) => TypePatterns[k].0
    case None => Civil
  }

  // ---------------------------------------------------------------------------
  // _parse_monument_line
  // ---------------------------------------------------------------------------

  /** The name and the location: split at the last ` - `, else at the last ` / `,
    * else the whole text is the name and the location is empty. */
  function NameAndLocation(namePart: string): (r: (string, string))
    ensures Contains(namePart, " - ") ==> namePart == r.0 + " - " + r.1 && !Contains(r.1, " - ")
    ensures !Contains(namePart, " - ") && Contains(namePart, " / ") ==>
      namePart == r.0 + " / " + r.1 && !Contains(r.1, " / ")
    ensures !Contains(namePart, " - ") && !Contains(namePart, " / ") ==> r == (namePart, "")
  {
    if Contains(namePart, " - ") then SplitLast(namePart, " - ")
    else if Contains(namePart, " / ") then SplitLast(namePart, " / ")
    else (namePart, "")
  }

  /** The town and the region: split at the last ` / `, else no town. */
  function TownAndRegion(location: string): (r: (string, string))
    ensures Contains(location, " / ") ==> location == r.0 + " / " + r.1 && !Contains(r.1, " / ")
    ensures !Contains(location, " / ") ==> r == ("", location)
  {
    if Contains(location, " / ") then SplitLast(location, " / ") else ("", location)
  }

  /** The three fields of a line: `<id>. <name and location>`, the latitude and
    * the longitude. A missing `. `, an id that is not an integer or a coordinate
    * that is not a number gives None (ValueError, caught). */
  function ParseFields(nameLocation: string, latText: string, lonText: string, read: Read): (r: Option<Monument>)
    ensures !Contains(nameLocation, ". ") ==> r.None?
    ensures r.Some? ==>
      Contains(nameLocation, ". ") && ParseInt(SplitFirst(nameLocation, ". ").0) == Some(r.value.originalId)
    ensures r.Some? ==> Float(latText, read) == Some(r.value.latitude) && Float(lonText, read) == Some(r.value.longitude)
    ensures r.Some? ==> r.value.id.None? && r.value.monumentType in {Militar, Religious, Civil}
  {
    if !Contains(nameLocation, ". ") then None
    else
      var (idPart, namePart) := SplitFirst(nameLocation, ". ");
      match ParseInt(idPart)
      case None => None
      case Some(originalId) =>
        match (Float(latText, read), Float(lonText, read))
        case (Some(lat), Some(lon)) => Some(Record(originalId, namePart, lat, lon))
        case _ => None
  }

  /** The record of a line whose id and coordinates parse: the name, its type,
    * the town, the region and the location, each stripped; the type is read
    * off the name before it is stripped. */
  function Record(originalId: int, namePart: string, lat: real, lon: real): (m: Monument)
    ensures m.id.None? && m.originalId == originalId && m.latitude == lat && m.longitude == lon
    ensures m.monumentType in {Militar, Religious, Civil}
  {
    var (name, location) := NameAndLocation(namePart);
    var (town, region) := TownAndRegion(location);
    Monument(None, originalId, Strip(name), MonumentType(name), Strip(town), Strip(region), lat, lon, Strip(location))
  }

  /** `_parse_monument_line`: None unless the stripped line has exactly three
    * `;`-separated fields that parse. */
  function ParseMonumentLine(line: string, read: Read): (r: Option<Monument>)
    ensures |Split(Strip(line), ";")| != 3 ==> r.None?
    ensures r.Some? ==> var parts := Split(Strip(line), ";");
      |parts| == 3 && r == ParseFields(parts[0], parts[1], parts[2], read)
  {
    var parts := Split(Strip(line), ";");
    if |parts| != 3 then None else ParseFields(parts[0], parts[1], parts[2], read)
  }

  // ---------------------------------------------------------------------------
  // The line layout the parser reads
  // ---------------------------------------------------------------------------

  /** `<id>. <name> - <town> / <region>;<lat>;<lon>` and a line break. */
  function StoredLine(id: nat, name: string, town: string, region: string, lat: real, lon: real, show: Show): string
  {
    ShowNat(id) + ". " + name + " - " + town + " / " + region + ";" + show(lat) + ";" + show(lon) + "\n"
  }

  /** Names that survive the layout: trimmed, one line, without `;`, and a town
    * and region without `-` and a region without `/`, so the splits find the
    * separators the layout put there. */
  predicate Storable(name: string, town: string, region: string)
  {
    && Trimmed(name) && Trimmed(town) && Trimmed(region)
    && ';' !in name && ';' !in town && ';' !in region
    && OneLine(name) && OneLine(town) && OneLine(region)
    && '-' !in town && '-' !in region && '/' !in region
  }

  /** The location text of a town and a region. */
  function Location(town: string, region: string): string
  {
    town + " / " + region
  }

  /** The first field of a stored line. */
  function IdField(id: nat, name: string, town: string, region: string): string
  {
    ShowNat(id) + ". " + name + " - " + Location(town, region)
  }

  /** A stored line splits into its id field and the two coordinate texts. */
  lemma StoredFields(id: nat, name: string, town: string, region: string, lat: real, lon: real, show: Show)
    requires Storable(name, town, region) && Separable(show)
    ensures Split(Strip(StoredLine(id, name, town, region, lat, lon, show)), ";")
      == [IdField(id, name, town, region), show(lat), show(lon)]
  {
    var first := IdField(id, name, town, region);
    var parts := [first, show(lat), show(lon)];
    StoredBody(id, name, town, region, lat, lon, show);
    IdFieldClean(id, name, town, region);
    NoneIsAbsent(first, ";");
    NoneIsAbsent(show(lat), ";");
    NoneIsAbsent(show(lon), ";");
    SplitJoin(parts, ";");
  }

  /** Stripped, a stored line is its three fields joined by `;`. */
  lemma StoredBody(id: nat, name: string, town: string, region: string, lat: real, lon: real, show: Show)
    requires Separable(show)
    ensures Strip(StoredLine(id, name, town, region, lat, lon, show))
      == Join([IdField(id, name, town, region), show(lat), show(lon)], ";")
  {
    var first := IdField(id, name, town, region);
    var latS, lonS := show(lat), show(lon);
    var body := first + ";" + latS + ";" + lonS;
    assert StoredLine(id, name, town, region, lat, lon, show) == body + "\n";
    var ds := ShowNat(id);
    assert ds[0] in ds;
    assert body[0] == ds[0];
    assert body[|body| - 1] == lonS[|lonS| - 1];
    StripTrimmed(body, "\n");
    var parts := [first, latS, lonS];
    assert parts[1..] == [latS, lonS];
    assert Join([latS, lonS], ";") == latS + ";" + lonS;
  }

  /** The id field holds no `;`. */
  lemma IdFieldClean(id: nat, name: string, town: string, region: string)
    requires Storable(name, town, region)
    ensures ';' !in IdField(id, name, town, region)
  {
    var ds := ShowNat(id);
    forall c | c in ds ensures c != ';' {
      assert IsDigit(c);
    }
  }

  /** The location splits into the town and the region. */
  lemma StoredLocation(town: string, region: string)
    requires '/' !in region && Trimmed(town) && Trimmed(region)
    ensures Contains(Location(town, region), " / ")
    ensures TownAndRegion(Location(town, region)) == (town, region)
    ensures Strip(Location(town, region)) == Location(town, region)
  {
    var l := Location(town, region);
    SplitLastOf(town, " / ", region);
    assert l[0] == town[0] && l[|l| - 1] == region[|region| - 1];
    StripTrimmed(l, "");
    assert l + "" == l;
  }

  /** The text after `. ` splits into the name and the location. */
  lemma StoredName(name: string, town: string, region: string)
    requires Storable(name, town, region)
    ensures Contains(name + " - " + Location(town, region), " - ")
    ensures NameAndLocation(name + " - " + Location(town, region)) == (name, Location(town, region))
  {
    var l := Location(town, region);
    assert '-' !in l;
    SplitLastOf(name, " - ", l);
  }

  /** A trimmed text is its own `strip()`. */
  lemma StripOfTrimmed(t: string)
    requires Trimmed(t)
    ensures Strip(t) == t
  {
    StripTrimmed(t, "");
    assert t + "" == t;
  }

  /** The id field gives the id, the name and the location. */
  lemma StoredIdField(id: nat, name: string, town: string, region: string)
    requires Storable(name, town, region)
    ensures var f := IdField(id, name, town, region);
      && Contains(f, ". ")
      && SplitFirst(f, ". ") == (ShowNat(id), name + " - " + Location(town, region))
  {
    var ds := ShowNat(id);
    forall c | c in ds ensures c != '.' {
      assert IsDigit(c);
    }
    var rest := name + " - " + Location(town, region);
    assert IdField(id, name, town, region) == ds + ". " + rest;
    SplitFirstOf(ds, ". ", rest);
  }

  /** Reading back a stored line gives its monument: the id, the name and its
    * type, the town, the region, the coordinates and the location text. */
  lemma ParseStoredLine(id: nat, name: string, town: string, region: string, lat: real, lon: real, show: Show, read: Read)
    requires Storable(name, town, region) && Separable(show)
    requires ReadsBack(show, read, lat) && ReadsBack(show, read, lon)
    ensures ParseMonumentLine(StoredLine(id, name, town, region, lat, lon, show), read)
      == Some(Monument(None, id, name, MonumentType(name), town, region, lat, lon, Location(town, region)))
  {
    StoredFields(id, name, town, region, lat, lon, show);
    ParseStoredFields(id, name, town, region, lat, lon, show, read);
  }

  /** The fields of a stored line parse to its monument. */
  lemma ParseStoredFields(id: nat, name: string, town: string, region: string, lat: real, lon: real, show: Show, read: Read)
    requires Storable(name, town, region) && Separable(show)
    requires ReadsBack(show, read, lat) && ReadsBack(show, read, lon)
    ensures ParseFields(IdField(id, name, town, region), show(lat), show(lon), read)
      == Some(Monument(None, id, name, MonumentType(name), town, region, lat, lon, Location(town, region)))
  {
    StoredIdField(id, name, town, region);
    ParseShowNat(id);
    FloatOfShow(lat, show, read);
    FloatOfShow(lon, show, read);
    StoredRecord(id, name, town, region, lat, lon);
  }

  /** The text after `. ` of a stored line gives its name, town and region. */
  lemma StoredRecord(id: nat, name: string, town: string, region: string, lat: real, lon: real)
    requires Storable(name, town, region)
    ensures Record(id, name + " - " + Location(town, region), lat, lon)
      == Monument(None, id, name, MonumentType(name), town, region, lat, lon, Location(town, region))
  {
    StoredName(name, town, region);
    StoredLocation(town, region);
    StripOfTrimmed(name);
    StripOfTrimmed(town);
    StripOfTrimmed(region);
  }

  // ---------------------------------------------------------------------------
  // load_from_file
  // ---------------------------------------------------------------------------

  /** The size at which a batch is flushed. */
  const BatchLimit: nat := 1000

  /** `_parse_monument_line` with a given `float`. */
  function LineParser(read: Read): string -> Option<Monument>
  {
    line => ParseMonumentLine(line, read)
  }

  /** The monuments of the lines that parse, in file order. */
  function ParsedRows(lines: seq<string>, read: Read): (rows: seq<Monument>)
    ensures |rows| <= |lines|
  {
    Somes(Parses(lines, LineParser(read)))
  }

  function Parses(lines: seq<string>, parse: string -> Option<Monument>): (ps: seq<Option<Monument>>)
    ensures |ps| == |lines| && forall k | 0 <= k < |lines| :: ps[k] == parse(lines[k])
  {
    seq(|lines|, k requires 0 <= k < |lines| => parse(lines[k]))
  }

  /** The sizes of the batches `n` rows are inserted in: full batches, then the
    * rest if any. */
  function BatchSizes(n: nat): (sizes: seq<nat>)
    ensures forall k | 0 <= k < |sizes| :: 0 < sizes[k] <= BatchLimit
    ensures forall k | 0 <= k < |sizes| - 1 :: sizes[k] == BatchLimit
  {
    if n == 0 then []
    else if n <= BatchLimit then [n]
    else [BatchLimit] + BatchSizes(n - BatchLimit)
  }

  function Sum(xs: seq<nat>): nat
  {
    if xs == [] then 0 else xs[0] + Sum(xs[1..])
  }

  /** A whole number of full batches. */
  predicate Whole(n: nat)
  {
    n == 0 || (n >= BatchLimit && Whole(n - BatchLimit))
  }

  /** Another full batch after full batches. */
  lemma {:induction false} FullBatch(n: nat)
    requires Whole(n)
    ensures Whole(n + BatchLimit)
    ensures BatchSizes(n + BatchLimit) == BatchSizes(n) + [BatchLimit]
  {
    if n > 0 {
      FullBatch(n - BatchLimit);
    }
  }

  /** A short batch after full batches. */
  lemma {:induction false} LastBatch(n: nat, m: nat)
    requires Whole(n) && 0 < m < BatchLimit
    ensures BatchSizes(n + m) == BatchSizes(n) + [m]
  {
    if n > 0 {
      LastBatch(n - BatchLimit, m);
    }
  }

  /** The batches insert exactly the `n` rows. */
  lemma {:induction false} BatchSizesSum(n: nat)
    ensures Sum(BatchSizes(n)) == n
    decreases n
  {
    if n > BatchLimit {
      BatchSizesSum(n - BatchLimit);
      assert ([BatchLimit] + BatchSizes(n - BatchLimit))[1..] == BatchSizes(n - BatchLimit);
    }
  }

  lemma SnocAssoc(a: seq<nat>, b: seq<nat>, x: nat)
    ensures a + b + [x] == a + (b + [x])
  {
  }

  /** The monuments table: the rows inserted, in order, before the database
    * assigns their ids, and the size of each insert. */
  class MonumentTable {
    var rows: seq<Monument>
    var batches: seq<nat>

    constructor ()
      ensures rows == [] && batches == []
    {
      rows := [];
      batches := [];
    }

    /** `_insert_monuments_batch`. */
    method InsertBatch(batch: seq<Monument>)
      modifies this
      ensures rows == old(rows) + batch && batches == old(batches) + [|batch|]
    {
      rows := rows + batch;
      batches := batches + [|batch|];
    }

    /** The table while a load is under way: the rows so far are `done` less
      * the pending `batch`, in whole batches logged after `start`. */
    ghost predicate Loading(start: seq<nat>, done: seq<Monument>, batch: seq<Monument>)
      reads this
    {
      && rows + batch == done
      && Whole(|rows|) && |batch| < BatchLimit
      && batches == start + BatchSizes(|rows|)
    }

    /** One parsed monument joins the batch, which is flushed once it is full. */
    method Append(ghost start: seq<nat>, ghost done: seq<Monument>, batch: seq<Monument>, loaded: nat, m: Monument)
      returns (batch': seq<Monument>, loaded': nat)
      requires Loading(start, done, batch) && loaded == |rows|
      modifies this
      ensures Loading(start, done + [m], batch') && loaded' == |rows|
    {
      batch' := batch + [m];
      assert rows + batch' == done + [m];
      loaded' := loaded;
      if |batch'| >= BatchLimit {
        FullBatch(loaded);
        ghost var sizes := BatchSizes(loaded);
        InsertBatch(batch');
        SnocAssoc(start, sizes, BatchLimit);
        loaded' := loaded' + |batch'|;
        batch' := [];
        assert rows + batch' == rows;
      }
    }

    /** The pending batch is flushed if it holds anything. */
    method Finish(ghost start: seq<nat>, ghost done: seq<Monument>, batch: seq<Monument>, loaded: nat)
      returns (loaded': nat)
      requires Loading(start, done, batch) && loaded == |rows|
      modifies this
      ensures rows == done && loaded' == |done| && batches == start + BatchSizes(|done|)
    {
      loaded' := loaded;
      if batch != [] {
        LastBatch(loaded, |batch|);
        ghost var sizes := BatchSizes(loaded);
        InsertBatch(batch);
        SnocAssoc(start, sizes, |batch|);
        loaded' := loaded' + |batch|;
      } else {
        assert rows + batch == rows;
      }
    }

    /** `load_from_file` on the lines of a file, None when there is no file: a
      * missing file raises before the table is cleared; otherwise the table
      * holds the parsed monuments in file order, inserted in full batches and
      * a last short one, and their number is returned. */
    method LoadFromFile(file: Option<seq<string>>, read: Read) returns (r: Result<nat, PyError>)
      modifies this
      ensures file.None? ==> r == Err(FileNotFoundError) && rows == old(rows) && batches == old(batches)
      ensures file.Some? ==> var parsed := ParsedRows(file.value, read);
        && rows == parsed && r == Ok(|parsed|)
        && batches == old(batches) + BatchSizes(|parsed|)
    {
      if file.None? {
        return Err(FileNotFoundError);
      }
      rows := [];
      var loaded := LoadLines(file.value, LineParser(read));
      return Ok(loaded);
    }

    /** The loop of `load_from_file` over the lines, after the table is cleared,
      * with `parse` for `_parse_monument_line`. */
    method LoadLines(lines: seq<string>, parse: string -> Option<Monument>) returns (loaded: nat)
      requires rows == []
      modifies this
      ensures rows == Somes(Parses(lines, parse)) && loaded == |rows|
      ensures batches == old(batches) + BatchSizes(|rows|)
    {
      ghost var start := batches;
      ghost var parses := Parses(lines, parse);
      loaded := 0;
      var batch: seq<Monument> := [];
      assert batches == start + BatchSizes(0);
      for i := 0 to |lines|
        invariant Loading(start, Somes(parses[..i]), batch) && loaded == |rows|
      {
        SomesSnoc(parses, i);
        var monument := parse(lines[i]);
        if monument.Some? {
          batch, loaded := Append(start, Somes(parses[..i]), batch, loaded, monument.value);
        }
      }
      assert parses[..|lines|] == parses;
      loaded := Finish(start, Somes(parses), batch, loaded);
    }
  }
}
