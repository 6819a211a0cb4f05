/** The search options the dashboard collects before a search starts. */
module Request {
  import opened Wrappers
  import opened Geo

  /**
   * `center` and `zoom` are the session's coordinates and zoom level,
   * `radius` the optional radius in metres, `expand` the "search from
   * several points" box and `takeoutOnly` the takeout filter box.
   */
  datatype SearchRequest = SearchRequest(
    query: string,
    center: GeoPoint,
    zoom: int,
    useRadius: bool,
    radius: Option<real>,
    expand: bool,
    takeoutOnly: bool)

  /** Python's `use_radius and radius_meters`: the radius counts only when chosen and non-zero. */
  function ActiveRadius(req: SearchRequest): Option<real> {
    if req.useRadius && req.radius.Some? && req.radius.value != 0.0 then req.radius else None
  }
}
