/** The area search end to end: plan the points, dispatch them, filter the aggregate. */
module Search {
  import opened Wrappers
  import opened Geo
  import opened Request
  import opened Planner
  import opened Dedup
  import opened Dispatch
  import opened ResultFilter

  /** Why a search produced no rows: no keyword, or a point's first request raised. */
  datatype SearchError = EmptyQuery | RequestRaised(point: nat)

  function FilterContextOf(req: SearchRequest, geo: Geodesy, geocode: string -> Option<GeoPoint>): FilterContext {
    FilterContext(req.center, ActiveRadius(req), req.takeoutOnly, geo, geocode)
  }

  /**
   * One press of the search button. `service` answers for each sample point
   * of this query; `geocode` stands for the address lookup of the radius check.
   */
  function SearchArea(req: SearchRequest, geo: Geodesy, service: SamplePoint -> Feed,
                      geocode: string -> Option<GeoPoint>): (r: Result<seq<Row>, SearchError>)
    requires ActiveRadius(req).Some? ==> geo.cosDeg(req.center.lat) != 0.0
    ensures req.query == "" ==> r == Failure(EmptyQuery)
    ensures r.Success? ==> |r.value| <= MaxRows
    ensures r.Failure? && req.query != "" ==>
      var points := PlanLocations(req, geo);
      r.error.RequestRaised? && r.error.point < |points| && service(points[r.error.point]).FirstRequestFails?
  {
    if req.query == "" then Failure(EmptyQuery)
    else
      var points := PlanLocations(req, geo);
      match DispatchPoints([], points, service)
      case Failure(e) => Failure(RequestRaised(e.point))
      case Success(agg) => Success(FilteredRows(agg.places, FilterContextOf(req, geo, geocode)))
  }

  /**
   * A successful search lists the filtered rows of an aggregate in which no
   * two records share a (title, address) key.
   */
  lemma SearchAreaUsesUniqueAggregate(req: SearchRequest, geo: Geodesy, service: SamplePoint -> Feed,
                                      geocode: string -> Option<GeoPoint>)
    requires ActiveRadius(req).Some? ==> geo.cosDeg(req.center.lat) != 0.0
    requires SearchArea(req, geo, service, geocode).Success?
    ensures var agg := DispatchPoints([], PlanLocations(req, geo), service);
            && agg.Success?
            && UniqueKeys(agg.value.places)
            && SearchArea(req, geo, service, geocode).value
               == FilteredRows(agg.value.places, FilterContextOf(req, geo, geocode))
  {
    DispatchKeepsKeysUnique([], PlanLocations(req, geo), service);
  }
}
