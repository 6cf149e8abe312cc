/** The monument service of the PostgreSQL back end
  * (`backend/services/monument_service.py`): monuments of a type, whatever
  * area is asked for, and the statistics, over what the storage answers. */
module BackendMonumentService {
  import opened Wrappers
  import opened MonumentTypes

  /** `get_monuments_by_type_and_area`: both branches of the corner test ask
    * the storage for the mapped type only, so the corners are not among the
    * inputs the answer depends on; one response per row, in the storage's
    * order, and none when the storage raises. */
  function MonumentsByTypeAndArea(
    st: Storage, t: string,
    bottomLeftLat: Option<real>, bottomLeftLon: Option<real>, topRightLat: Option<real>, topRightLon: Option<real>
  ): (r: seq<MonumentResponse>)
    ensures st.byType(ApiToDb(t)).Err? ==> r == []
    ensures st.byType(ApiToDb(t)).Ok? ==>
      var rows := st.byType(ApiToDb(t)).value;
      |r| == |rows| && forall k | 0 <= k < |r| :: r[k].name == rows[k].name && r[k].location == Response(rows[k]).location
  {
    var dbType := ApiToDb(t);
    var rows :=
      if !(Given(bottomLeftLat) && Given(bottomLeftLon) && Given(topRightLat) && Given(topRightLon)) then st.byType(dbType)
      else st.byType(dbType);
    match rows
    case Err(_) => []
    case Ok(rows) => Responses(rows)
  }

  /** A corner Python finds true: present and not 0.0. */
  predicate Given(x: Option<real>)
  {
    x.Some? && x.value != 0.0
  }

  /** Asking for two different areas gives the same answer. */
  lemma CornersIgnored(
    st: Storage, t: string,
    a1: Option<real>, a2: Option<real>, a3: Option<real>, a4: Option<real>,
    b1: Option<real>, b2: Option<real>, b3: Option<real>, b4: Option<real>)
    ensures MonumentsByTypeAndArea(st, t, a1, a2, a3, a4) == MonumentsByTypeAndArea(st, t, b1, b2, b3, b4)
  {
  }

  /** `get_monument_stats`: the total and the counts keyed by API type; any
    * storage call raising gives a zero total, no counts and not ready, without
    * a message. */
  function MonumentStats(st: Storage): (r: Stats)
    ensures r.error.None?
    ensures r.databaseReady <==> st.totalCount.Ok? && st.typeStats.Ok?
    ensures r.databaseReady ==> r.total == st.totalCount.value && r.byType == ByType(st.typeStats.value)
    ensures !r.databaseReady ==> r == Stats(0, map[], false, None)
  {
    match st.totalCount
    case Err(_) => Stats(0, map[], false, None)
    case Ok(total) =>
      match st.typeStats
      case Err(_) => Stats(0, map[], false, None)
      case Ok(stats) => Stats(total, ByType(stats), true, None)
  }
}
