/**
 * Place records as the search service returns them, and the field
 * resolution both programs share: a primary key, its Japanese alias, a
 * sentinel.
 */
module Places {
  import opened Wrappers

  /**
   * One element of `local_results`. Every field is `None` when its key is
   * missing: `title`, `address` / `住所`, `phone` / `電話`, the
   * `gps_coordinates` latitude and longitude, the `service_options`
   * entries `takeout` / `テイクアウト`, `rating` and `reviews`.
   */
  datatype Place = Place(
    title: Option<string>,
    address: Option<string>,
    addressJa: Option<string>,
    phone: Option<string>,
    phoneJa: Option<string>,
    gpsLat: Option<real>,
    gpsLon: Option<real>,
    takeout: Option<bool>,
    takeoutJa: Option<bool>,
    rating: Option<real>,
    reviews: Option<int>)

  const NoTitle: string := "タイトル不明"
  const NoPhone: string := "電話番号なし"
  const NoAddress: string := "住所不明"

  /** The identity of a record: raw title and raw address, a missing one read as "". */
  type Key = (string, string)

  function KeyOf(p: Place): Key {
    (p.title.GetOr(""), p.address.GetOr(""))
  }

  /** Python's `primary or alias_dict.get(alias, fallback)` on string fields. */
  function PrimaryOrAlias(primary: Option<string>, alias: Option<string>, fallback: string): (r: string)
    ensures primary.Some? && primary.value != "" ==> r == primary.value
    ensures (primary.None? || primary.value == "") && alias.Some? ==> r == alias.value
    ensures (primary.None? || primary.value == "") && alias.None? ==> r == fallback
  {
    if primary.Some? && primary.value != "" then primary.value else alias.GetOr(fallback)
  }

  /** The displayed title: `place.get('title', 'タイトル不明')`. */
  function DisplayTitle(p: Place): string {
    p.title.GetOr(NoTitle)
  }

  /** The displayed phone: `phone`, then `電話`, then the no-phone sentinel. */
  function DisplayPhone(p: Place): string {
    PrimaryOrAlias(p.phone, p.phoneJa, NoPhone)
  }

  /** The displayed address: `address`, then `住所`, then the no-address sentinel. */
  function DisplayAddress(p: Place): string {
    PrimaryOrAlias(p.address, p.addressJa, NoAddress)
  }

  /** The address handed to the geocoder: `address`, then `住所`, then "". */
  function GeocodeQuery(p: Place): string {
    PrimaryOrAlias(p.address, p.addressJa, "")
  }

  /** `service_options.get('takeout') or service_options.get('テイクアウト')` is truthy. */
  predicate OffersTakeout(p: Place) {
    p.takeout == Some(true) || p.takeoutJa == Some(true)
  }

  /**
   * The resolved phone is always one of the record's own values or the
   * sentinel. A non-empty `phone` wins. The sentinel is the fallback, taken
   * exactly when `phone` is missing or empty and `電話` is missing; it is
   * shown otherwise only if a record value happens to equal it.
   */
  lemma DisplayPhoneSources(p: Place)
    ensures DisplayPhone(p) == NoPhone || Some(DisplayPhone(p)) == p.phone || Some(DisplayPhone(p)) == p.phoneJa
    ensures p.phone.Some? && p.phone.value != "" ==> DisplayPhone(p) == p.phone.value
    ensures (p.phone.None? || p.phone.value == "") && p.phoneJa.None? ==> DisplayPhone(p) == NoPhone
    ensures DisplayPhone(p) == NoPhone ==>
      ((p.phone.None? || p.phone.value == "") && p.phoneJa.None?)
      || p.phone == Some(NoPhone) || p.phoneJa == Some(NoPhone)
  {
  }

  /**
   * An empty primary value falls through to the alias, and an alias that is
   * present but empty is returned as it is: the sentinel is not used then.
   */
  lemma EmptyAliasShadowsSentinel(p: Place)
    requires p.phone == Some("") || p.phone.None?
    requires p.phoneJa == Some("")
    ensures DisplayPhone(p) == "" && DisplayPhone(p) != NoPhone
  {
  }

  /** The address used for geocoding agrees with the displayed one except where the display falls back to its sentinel. */
  lemma GeocodeQueryMatchesDisplay(p: Place)
    ensures (p.address.Some? && p.address.value != "") || p.addressJa.Some? ==> GeocodeQuery(p) == DisplayAddress(p)
    ensures (p.address.None? || p.address.value == "") && p.addressJa.None? ==>
      GeocodeQuery(p) == "" && DisplayAddress(p) == NoAddress
  {
  }
}
