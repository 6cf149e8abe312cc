/** What both monument services share: the table between the type names the
  * web API uses and the ones the database stores, its reverse, the display
  * names, the list of types with their counts, and the conversion of storage
  * rows into responses. `web/backend/services/monument_service.py` and
  * `backend/services/monument_service.py` define these the same way. */
module MonumentTypes {
  import opened Wrappers
  import opened Strings
  import opened Geo

  /** A dict literal, written as its pairs in order. */
  type Pairs = seq<(string, string)>

  predicate HasKey(pairs: Pairs, key: string)
  {
    exists k | 0 <= k < |pairs| :: pairs[k].0 == key
  }

  /** `dict(pairs).get(key, default)`: the value of the last pair with that key,
    * as a later entry of a dict display overrides an earlier one. */
  function Get(pairs: Pairs, key: string, default: string): (r: string)
    ensures !HasKey(pairs, key) ==> r == default
    ensures HasKey(pairs, key) ==>
      exists k | 0 <= k < |pairs| :: pairs[k] == (key, r) && forall j | k < j < |pairs| :: pairs[j].0 != key
  {
    if pairs == [] then default
    else
      var init := pairs[..|pairs| - 1];
      if pairs[|pairs| - 1].0 == key then pairs[|pairs| - 1].1
      else
        assert forall k | 0 <= k < |init| :: init[k] == pairs[k];
        assert HasKey(pairs, key) ==> HasKey(init, key);
        Get(init, key, default)
  }

  /** `{v: k for k, v in pairs.items()}`, before duplicates are merged. */
  function Swap(pairs: Pairs): (r: Pairs)
    ensures |r| == |pairs| && forall k | 0 <= k < |pairs| :: r[k] == (pairs[k].1, pairs[k].0)
  {
    seq(|pairs|, k requires 0 <= k < |pairs| => (pairs[k].1, pairs[k].0))
  }

  /** No key and no value appears twice. */
  predicate OneToOne(pairs: Pairs)
  {
    forall i, j | 0 <= i < j < |pairs| :: pairs[i].0 != pairs[j].0 && pairs[i].1 != pairs[j].1
  }

  /** With distinct keys every key finds its own value. */
  lemma GetAt(pairs: Pairs, k: nat, default: string)
    requires k < |pairs|
    requires forall i, j | 0 <= i < j < |pairs| :: pairs[i].0 != pairs[j].0
    ensures Get(pairs, pairs[k].0, default) == pairs[k].1
  {
    assert HasKey(pairs, pairs[k].0);
  }

  /** Swapping a one-to-one table gives its inverse: looking a key up and then
    * its value up in the swapped table gives the key back, and the other way
    * round. */
  lemma SwapInverts(pairs: Pairs, k: nat, default: string)
    requires k < |pairs| && OneToOne(pairs)
    ensures Get(Swap(pairs), Get(pairs, pairs[k].0, default), default) == pairs[k].0
    ensures Get(pairs, Get(Swap(pairs), pairs[k].1, default), default) == pairs[k].1
  {
    GetAt(pairs, k, default);
    GetAt(Swap(pairs), k, default);
  }

  // ---------------------------------------------------------------------------
  // MONUMENT_TYPE_MAPPING and REVERSE_TYPE_MAPPING
  // ---------------------------------------------------------------------------

  const TypeMapping: Pairs := [("militars", "militar"), ("religiosos", "religi\U{00F3}s"), ("civils", "civil")]

  /** `MONUMENT_TYPE_MAPPING.get(t, t)`: the database type of an API type. */
  function ApiToDb(t: string): (r: string)
    ensures !HasKey(TypeMapping, t) ==> r == t
    ensures HasKey(TypeMapping, t) ==> exists k | 0 <= k < 3 :: TypeMapping[k] == (t, r)
  {
    Get(TypeMapping, t, t)
  }

  /** `REVERSE_TYPE_MAPPING.get(t, t)`: the API type of a database type. */
  function DbToApi(t: string): (r: string)
    ensures !HasKey(Swap(TypeMapping), t) ==> r == t
    ensures HasKey(Swap(TypeMapping), t) ==> exists k | 0 <= k < 3 :: TypeMapping[k] == (r, t)
  {
    Get(Swap(TypeMapping), t, t)
  }

  lemma TypeMappingOneToOne()
    ensures OneToOne(TypeMapping)
  {
    assert TypeMapping[0].1[0] != TypeMapping[1].1[0] && TypeMapping[0].1[0] != TypeMapping[2].1[0];
    assert TypeMapping[1].1[0] != TypeMapping[2].1[0];
  }

  /** The reverse table undoes the table on its three API types, and the table
    * undoes the reverse on the three database types. */
  lemma ReverseInvertsMapping(k: nat)
    requires k < |TypeMapping|
    ensures ApiToDb(TypeMapping[k].0) == TypeMapping[k].1
    ensures DbToApi(ApiToDb(TypeMapping[k].0)) == TypeMapping[k].0
    ensures ApiToDb(DbToApi(TypeMapping[k].1)) == TypeMapping[k].1
  {
    TypeMappingOneToOne();
    GetAt(TypeMapping, k, TypeMapping[k].0);
    SwapInverts(TypeMapping, k, TypeMapping[k].0);
    SwapInverts(TypeMapping, k, TypeMapping[k].1);
    GetAt(Swap(TypeMapping), k, TypeMapping[k].1);
  }

  /** A type reported by the database that is not itself an API type name is
    * looked up again, through the table, as the same database type. */
  lemma ReportedTypeRoundTrip(t: string)
    requires !HasKey(TypeMapping, t)
    ensures ApiToDb(DbToApi(t)) == t
  {
    if HasKey(Swap(TypeMapping), t) {
      var k :| 0 <= k < 3 && Swap(TypeMapping)[k].0 == t;
      ReverseInvertsMapping(k);
    }
  }

  /** A database type literally named like an API type is reported under an
    * id that selects another type. */
  lemma ReportedApiNameDoesNotRoundTrip()
    ensures DbToApi("militars") == "militars"
    ensures ApiToDb(DbToApi("militars")) == "militar"
  {
    var swapped := Swap(TypeMapping);
    assert swapped == [("militar", "militars"), ("religi\U{00F3}s", "religiosos"), ("civil", "civils")];
    assert !HasKey(swapped, "militars") by {
      assert |swapped[0].0| == 7 && swapped[1].0[0] == 'r' && |swapped[2].0| == 5;
    }
    ReverseInvertsMapping(0);
  }

  // ---------------------------------------------------------------------------
  // _get_display_name and get_monument_types
  // ---------------------------------------------------------------------------

  const DisplayNames: Pairs := [
    ("militar", "Edificacions Militars"),
    ("religi\U{00F3}s", "Edificacions Religioses"),
    ("civil", "Edificacions Civils")]

  /** `_get_display_name`: a fixed name for the three database types, the
    * title-cased type for any other. */
  function DisplayName(t: string): string
  {
    Get(DisplayNames, t, Title(t))
  }

  /** Each of the three database types has its fixed display name. */
  lemma DisplayNameKnown(k: nat)
    requires k < 3
    ensures DisplayName(TypeMapping[k].1) == DisplayNames[k].1
  {
    assert DisplayNames[0].0[0] != DisplayNames[1].0[0] && DisplayNames[0].0[0] != DisplayNames[2].0[0];
    assert DisplayNames[1].0[0] != DisplayNames[2].0[0];
    assert TypeMapping[k].1 == DisplayNames[k].0;
    GetAt(DisplayNames, k, Title(TypeMapping[k].1));
  }

  /** Any other type is shown title-cased. */
  lemma DisplayNameOther(t: string)
    requires forall k | 0 <= k < 3 :: TypeMapping[k].1 != t
    ensures DisplayName(t) == Title(t)
  {
    assert forall k | 0 <= k < 3 :: DisplayNames[k].0 == TypeMapping[k].1;
  }

  /** One entry of `get_monument_types`. */
  datatype TypeEntry = TypeEntry(id: string, name: string, count: int, displayName: string)

  /** `get_monument_types`: one entry per type the storage counts, in its
    * order; the storage raising gives no entries. */
  function TypeEntries(stats: Result<seq<(string, int)>, string>): (r: seq<TypeEntry>)
    ensures stats.Err? ==> r == []
    ensures stats.Ok? ==> |r| == |stats.value|
    ensures stats.Ok? ==> forall k | 0 <= k < |r| ::
      && r[k].count == stats.value[k].1
      && r[k].name == Title(stats.value[k].0)
      && r[k].displayName == DisplayName(stats.value[k].0)
      && (!HasKey(TypeMapping, stats.value[k].0) ==> ApiToDb(r[k].id) == stats.value[k].0)
  {
    match stats
    case Err(_) => []
    case Ok(rows) =>
      var r := seq(|rows|, k requires 0 <= k < |rows| =>
        TypeEntry(DbToApi(rows[k].0), Title(rows[k].0), rows[k].1, DisplayName(rows[k].0)));
      assert forall k | 0 <= k < |rows| :: !HasKey(TypeMapping, rows[k].0) ==> ApiToDb(r[k].id) == rows[k].0 by {
        forall k | 0 <= k < |rows| && !HasKey(TypeMapping, rows[k].0)
          ensures ApiToDb(r[k].id) == rows[k].0
        {
          ReportedTypeRoundTrip(rows[k].0);
        }
      }
      r
  }

  // ---------------------------------------------------------------------------
  // The by_type dict of get_monument_stats
  // ---------------------------------------------------------------------------

  /** `{rename(t): c for t, c in stats.items()}`: a later count overrides an
    * earlier one whose type is renamed to the same key. */
  function Rekeyed(stats: seq<(string, int)>, rename: string -> string): (r: map<string, int>)
    ensures forall k | 0 <= k < |stats| :: rename(stats[k].0) in r
  {
    if stats == [] then map[]
    else
      var init := stats[..|stats| - 1];
      assert forall k | 0 <= k < |init| :: init[k] == stats[k];
      Rekeyed(init, rename)[rename(stats[|stats| - 1].0) := stats[|stats| - 1].1]
  }

  /** The keys are the renamed types. */
  lemma {:induction false} RekeyedKeys(stats: seq<(string, int)>, rename: string -> string)
    ensures Rekeyed(stats, rename).Keys == set k | 0 <= k < |stats| :: rename(stats[k].0)
  {
    if stats != [] {
      var init := stats[..|stats| - 1];
      RekeyedKeys(init, rename);
      assert forall k | 0 <= k < |init| :: init[k] == stats[k];
    }
  }

  /** When no two types are renamed to the same key, each count is found under
    * its type's new name. */
  lemma {:induction false} RekeyedCounts(stats: seq<(string, int)>, rename: string -> string)
    requires forall i, j | 0 <= i < j < |stats| :: rename(stats[i].0) != rename(stats[j].0)
    ensures forall k | 0 <= k < |stats| :: Rekeyed(stats, rename)[rename(stats[k].0)] == stats[k].1
  {
    if stats != [] {
      var init := stats[..|stats| - 1];
      var last := |stats| - 1;
      RekeyedCounts(init, rename);
      var before := Rekeyed(init, rename);
      assert Rekeyed(stats, rename) == before[rename(stats[last].0) := stats[last].1];
      forall k | 0 <= k < last
        ensures Rekeyed(stats, rename)[rename(stats[k].0)] == stats[k].1
      {
        assert init[k] == stats[k];
        assert before[rename(init[k].0)] == init[k].1;
      }
    }
  }

  /** The `by_type` dict of `get_monument_stats`: counts keyed by API type. */
  function ByType(stats: seq<(string, int)>): (r: map<string, int>)
    ensures r.Keys == set k | 0 <= k < |stats| :: DbToApi(stats[k].0)
  {
    RekeyedKeys(stats, DbToApi);
    Rekeyed(stats, DbToApi)
  }

  /** When no two counted types share an API name, each count is found under
    * its type's API name. */
  lemma ByTypeCounts(stats: seq<(string, int)>)
    requires forall i, j | 0 <= i < j < |stats| :: DbToApi(stats[i].0) != DbToApi(stats[j].0)
    ensures forall k | 0 <= k < |stats| :: ByType(stats)[DbToApi(stats[k].0)] == stats[k].1
  {
    RekeyedCounts(stats, DbToApi);
  }

  // ---------------------------------------------------------------------------
  // Storage rows and responses
  // ---------------------------------------------------------------------------

  /** The fields of a storage row the services read. */
  datatype Row = Row(name: string, latitude: real, longitude: real)

  /** `MonumentResponse(name, location=PointModel(lat, lon))`. */
  datatype MonumentResponse = MonumentResponse(name: string, location: Point)

  function Response(m: Row): MonumentResponse
  {
    MonumentResponse(m.name, Point(m.latitude, m.longitude))
  }

  /** One response per row, in the rows' order. */
  function Responses(rows: seq<Row>): (r: seq<MonumentResponse>)
    ensures |r| == |rows|
    ensures forall k | 0 <= k < |rows| :: r[k].name == rows[k].name
    ensures forall k | 0 <= k < |rows| :: r[k].location == Point(rows[k].latitude, rows[k].longitude)
  {
    seq(|rows|, k requires 0 <= k < |rows| => Response(rows[k]))
  }

  /** Converting a prefix gives the prefix of the conversion. */
  lemma ResponsesPrefix(rows: seq<Row>, n: nat)
    requires n <= |rows|
    ensures Responses(rows[..n]) == Responses(rows)[..n]
  {
  }

  /** What the storage answers; `Err(message)` stands for the storage raising
    * an exception with that message. */
  datatype Storage = Storage(
    byType: string -> Result<seq<Row>, string>,
    inArea: (string, real, real, real, real) -> Result<seq<Row>, string>,
    typeStats: Result<seq<(string, int)>, string>,
    totalCount: Result<int, string>)

  /** The dict `get_monument_stats` returns; `error` is present only on the
    * failure path of the services that report it. */
  datatype Stats = Stats(total: int, byType: map<string, int>, databaseReady: bool, error: Option<string>)
}
