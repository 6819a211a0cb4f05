/**
 * The pass over the aggregate that turns records into result rows: the
 * radius check (fail-open), the takeout check, the 100-row cap and the
 * field resolution of each row.
 */
module ResultFilter {
  import opened Wrappers
  import opened Geo
  import opened Places

  const MaxRows: nat := 100
  const NoRating: string := "評価なし"
  const NoReviews: string := "レビュー数なし"

  /** A table cell holding either the record's number or a "none" label. */
  datatype Cell = Num(n: real) | Label(text: string)

  /** One result row: shop name, phone, address, rating, review count, distance in metres. */
  datatype Row = Row(name: string, phone: string, address: string, rating: Cell, reviews: Cell, distance: Option<real>)

  /**
   * What the pass needs: the centre, the active radius (None when the
   * radius is off or zero), the takeout box, the geometry, and the
   * geocoder, which yields None when the address is not found or the
   * lookup raises.
   */
  datatype FilterContext = FilterContext(
    center: GeoPoint,
    radius: Option<real>,
    takeoutOnly: bool,
    geo: Geodesy,
    geocode: string -> Option<GeoPoint>)

  /** Python truthiness of an optional number: present and non-zero. */
  predicate Truthy(x: Option<real>) {
    x.Some? && x.value != 0.0
  }

  /**
   * The record's coordinates as the radius check sees them: both GPS
   * values, else the geocoded address when there is one to look up.
   */
  function Coordinates(p: Place, geocode: string -> Option<GeoPoint>): Option<GeoPoint> {
    if p.gpsLat.Some? && p.gpsLon.Some? then Some(GeoPoint(p.gpsLat.value, p.gpsLon.value))
    else if GeocodeQuery(p) != "" then geocode(GeocodeQuery(p))
    else None
  }

  /** The radius check: only a known distance beyond the radius rejects. */
  predicate WithinRadius(p: Place, ctx: FilterContext)
    requires ctx.radius.Some?
  {
    match Coordinates(p, ctx.geocode)
    case None => true
    case Some(q) => !(ctx.geo.meters(ctx.center, q) > ctx.radius.value)
  }

  predicate Passes(p: Place, ctx: FilterContext) {
    && (ctx.radius.Some? ==> WithinRadius(p, ctx))
    && (ctx.takeoutOnly ==> OffersTakeout(p))
  }

  function ToRow(p: Place, ctx: FilterContext): Row {
    Row(DisplayTitle(p), DisplayPhone(p), DisplayAddress(p),
        if p.rating.Some? then Num(p.rating.value) else Label(NoRating),
        if p.reviews.Some? then Num(p.reviews.value as real) else Label(NoReviews),
        if ctx.radius.Some? && Truthy(p.gpsLat) && Truthy(p.gpsLon)
        then Some(ctx.geo.meters(ctx.center, GeoPoint(p.gpsLat.value, p.gpsLon.value)))
        else None)
  }

  /** The records that pass both checks, in aggregate order. */
  function Selected(places: seq<Place>, ctx: FilterContext): seq<Place> {
    if places == [] then []
    else
      var last := places[|places| - 1];
      Selected(places[..|places| - 1], ctx) + (if Passes(last, ctx) then [last] else [])
  }

  function Rows(places: seq<Place>, ctx: FilterContext): seq<Row> {
    seq(|places|, k requires 0 <= k < |places| => ToRow(places[k], ctx))
  }

  function Cap<T>(s: seq<T>, n: nat): seq<T> {
    if |s| <= n then s else s[..n]
  }

  /** The rows of the first `MaxRows` passing records. */
  function FilteredRows(places: seq<Place>, ctx: FilterContext): seq<Row> {
    Cap(Rows(Selected(places, ctx), ctx), MaxRows)
  }

  /**
   * The loop over `all_places`: a record failing a check is skipped, and
   * the loop breaks when a passing record finds the output full.
   */
  method FilterPlaces(places: seq<Place>, ctx: FilterContext) returns (rows: seq<Row>)
    ensures rows == FilteredRows(places, ctx)
    ensures |rows| <= MaxRows
  {
    rows := [];
    var k := 0;
    while k < |places|
      invariant 0 <= k <= |places|
      invariant rows == Rows(Selected(places[..k], ctx), ctx)
      invariant |rows| <= MaxRows
    {
      var place := places[k];
      assert places[..k + 1] == places[..k] + [place];
      assert places[..k + 1][..k] == places[..k];
      if !Passes(place, ctx) {
        k := k + 1;
        continue;
      }
      if |rows| >= MaxRows {
        SelectedPrefix(places, ctx, k + 1);
        assert Rows(Selected(places, ctx), ctx)[..MaxRows] == rows;
        return;
      }
      rows := rows + [ToRow(place, ctx)];
      k := k + 1;
    }
    assert places[..k] == places;
  }

  lemma {:induction false} SelectedPrefix(places: seq<Place>, ctx: FilterContext, k: nat)
    requires k <= |places|
    ensures |Selected(places[..k], ctx)| <= |Selected(places, ctx)|
    ensures Selected(places, ctx)[..|Selected(places[..k], ctx)|] == Selected(places[..k], ctx)
    decreases |places|
  {
    if k < |places| {
      var init := places[..|places| - 1];
      assert init[..k] == places[..k];
      SelectedPrefix(init, ctx, k);
    } else {
      assert places[..k] == places;
    }
  }

  /** The passing records are exactly the records of the aggregate that pass, in aggregate order. */
  lemma {:induction false} SelectedMembers(places: seq<Place>, ctx: FilterContext)
    ensures forall p :: p in Selected(places, ctx) <==> p in places && Passes(p, ctx)
    ensures |Selected(places, ctx)| <= |places|
  {
    if places != [] {
      var init := places[..|places| - 1];
      SelectedMembers(init, ctx);
      assert places == init + [places[|places| - 1]];
    }
  }

  /**
   * With a radius set, a record is dropped by the radius check exactly when
   * its coordinates are known and lie farther than the radius.
   */
  lemma RadiusDropsOnlyKnownFar(p: Place, ctx: FilterContext)
    requires ctx.radius.Some?
    ensures !WithinRadius(p, ctx) <==>
      Coordinates(p, ctx.geocode).Some? && ctx.geo.meters(ctx.center, Coordinates(p, ctx.geocode).value) > ctx.radius.value
  {
  }

  /**
   * The radius check fails open: a record with incomplete GPS data whose
   * address cannot be geocoded is kept, whatever the radius.
   */
  lemma RadiusFailsOpen(p: Place, ctx: FilterContext)
    requires ctx.radius.Some?
    requires p.gpsLat.None? || p.gpsLon.None?
    requires GeocodeQuery(p) == "" || ctx.geocode(GeocodeQuery(p)).None?
    ensures WithinRadius(p, ctx)
  {
  }

  /**
   * With a radius set, every selected record either has no coordinates the
   * check could find or lies within the radius of the centre.
   */
  lemma RadiusKeepsOnlyNearOrUnknown(places: seq<Place>, ctx: FilterContext)
    requires ctx.radius.Some?
    ensures forall p :: p in Selected(places, ctx) ==>
      Coordinates(p, ctx.geocode).None? || ctx.geo.meters(ctx.center, Coordinates(p, ctx.geocode).value) <= ctx.radius.value
  {
    SelectedMembers(places, ctx);
  }

  /** With the takeout box ticked, every row comes from a record offering takeout. */
  lemma TakeoutOnlyKeepsTakeout(places: seq<Place>, ctx: FilterContext)
    requires ctx.takeoutOnly
    ensures forall p :: p in Selected(places, ctx) ==> OffersTakeout(p)
  {
    SelectedMembers(places, ctx);
  }

  /** Below the cap nothing is lost: every passing record gets a row. */
  lemma CapOnlyTruncates(places: seq<Place>, ctx: FilterContext)
    ensures var rows := Cap(Rows(Selected(places, ctx), ctx), MaxRows);
            && |rows| == (if |Selected(places, ctx)| <= MaxRows then |Selected(places, ctx)| else MaxRows)
            && (forall k :: 0 <= k < |rows| ==> rows[k] == ToRow(Selected(places, ctx)[k], ctx))
  {
  }

  /**
   * A row's distance comes only from non-zero GPS coordinates with a radius
   * set; a geocoded position passes the radius check but shows no distance.
   */
  lemma DistanceOnlyFromGps(p: Place, ctx: FilterContext)
    ensures ToRow(p, ctx).distance.Some? <==> ctx.radius.Some? && Truthy(p.gpsLat) && Truthy(p.gpsLon)
    ensures p.gpsLat.None? ==> ToRow(p, ctx).distance.None?
  {
  }
}
