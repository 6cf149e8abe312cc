/** The monument service of the web back end
  * (`web/backend/services/monument_service.py`): monuments of a type, of a
  * type inside an area, and the statistics, over what the storage answers.
  * Loading the data file at start-up, the near-point and text searches and
  * the logging are outside the model. */
module WebMonumentService {
  import opened Wrappers
  import opened MonumentTypes

  /** The length of `xs[:limit]` for a list of length `n`: the first `limit`
    * items for a non-negative limit, all but the last `-limit` for a negative
    * one. */
  function SliceLength(n: nat, limit: int): (r: nat)
    ensures r <= n
    ensures limit >= 0 ==> r == (if limit < n then limit else n)
    ensures limit < 0 ==> r == (if -limit < n then n + limit else 0)
  {
    if limit >= 0 then (if limit < n then limit else n)
    else if n + limit > 0 then n + limit else 0
  }

  /** `get_monuments_by_type`'s default `limit`. */
  const DefaultLimit: int := 1000

  /** `get_monuments_by_type`: the storage's rows of the mapped type cut to
    * `rows[:limit]`, as responses; the storage raising gives none. */
  function MonumentsByType(st: Storage, t: string, limit: int): (r: seq<MonumentResponse>)
    ensures st.byType(ApiToDb(t)).Err? ==> r == []
    ensures st.byType(ApiToDb(t)).Ok? ==>
      var rows := st.byType(ApiToDb(t)).value;
      && |r| == SliceLength(|rows|, limit)
      && r == Responses(rows)[..|r|]
    ensures limit >= 0 ==> |r| <= limit
  {
    match st.byType(ApiToDb(t))
    case Err(_) => []
    case Ok(rows) =>
      var n := SliceLength(|rows|, limit);
      ResponsesPrefix(rows, n);
      Responses(rows[..n])
  }

  /** A corner counts as given when Python finds it true: present and not 0.0. */
  predicate Truthy(x: Option<real>)
  {
    x.Some? && x.value != 0.0
  }

  predicate AllCorners(bottomLeftLat: Option<real>, bottomLeftLon: Option<real>, topRightLat: Option<real>, topRightLon: Option<real>)
  {
    Truthy(bottomLeftLat) && Truthy(bottomLeftLon) && Truthy(topRightLat) && Truthy(topRightLon)
  }

  /** `get_monuments_by_type_and_area`: with all four corners true, the
    * storage's rows of the mapped type inside the box, uncut; otherwise the
    * answer of `get_monuments_by_type` with its default limit. */
  function MonumentsByTypeAndArea(
    st: Storage, t: string,
    bottomLeftLat: Option<real>, bottomLeftLon: Option<real>, topRightLat: Option<real>, topRightLon: Option<real>
  ): (r: seq<MonumentResponse>)
    ensures !AllCorners(bottomLeftLat, bottomLeftLon, topRightLat, topRightLon) ==>
      r == MonumentsByType(st, t, DefaultLimit)
    ensures AllCorners(bottomLeftLat, bottomLeftLon, topRightLat, topRightLon) ==>
      var q := st.inArea(ApiToDb(t), bottomLeftLat.value, bottomLeftLon.value, topRightLat.value, topRightLon.value);
      && (q.Err? ==> r == [])
      && (q.Ok? ==> |r| == |q.value| && forall k | 0 <= k < |r| :: r[k] == Response(q.value[k]))
  {
    if !AllCorners(bottomLeftLat, bottomLeftLon, topRightLat, topRightLon) then
      MonumentsByType(st, t, DefaultLimit)
    else
      match st.inArea(ApiToDb(t), bottomLeftLat.value, bottomLeftLon.value, topRightLat.value, topRightLon.value)
      case Err(_) => []
      case Ok(rows) => Responses(rows)
  }

  /** A box with a corner on the equator or the prime meridian is not
    * searched: the answer is every monument of the type, up to the default
    * limit, whatever the other corners. */
  lemma ZeroCornerIgnoresBox(st: Storage, t: string, bottomLeftLat: real, topRightLat: real, topRightLon: real)
    ensures MonumentsByTypeAndArea(st, t, Some(bottomLeftLat), Some(0.0), Some(topRightLat), Some(topRightLon))
         == MonumentsByType(st, t, DefaultLimit)
    ensures |MonumentsByTypeAndArea(st, t, Some(bottomLeftLat), Some(0.0), Some(topRightLat), Some(topRightLon))| <= DefaultLimit
  {
    assert !Truthy(Some(0.0));
  }

  /** `get_monument_stats`: the total and the counts keyed by API type; the
    * first storage call that raises gives a zero total, no counts, not ready,
    * and its message. */
  function MonumentStats(st: Storage): (r: Stats)
    ensures r.databaseReady <==> st.totalCount.Ok? && st.typeStats.Ok?
    ensures r.databaseReady ==> r == Stats(st.totalCount.value, ByType(st.typeStats.value), true, None)
    ensures st.totalCount.Err? ==> r == Stats(0, map[], false, Some(st.totalCount.error))
    ensures st.totalCount.Ok? && st.typeStats.Err? ==> r == Stats(0, map[], false, Some(st.typeStats.error))
  {
    match st.totalCount
    case Err(e) => Stats(0, map[], false, Some(e))
    case Ok(total) =>
      match st.typeStats
      case Err(e) => Stats(0, map[], false, Some(e))
      case Ok(stats) => Stats(total, ByType(stats), true, None)
  }
}
