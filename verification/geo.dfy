/** Geographic values and the numeric oracles the model leaves uninterpreted. */
module Geo {

  datatype GeoPoint = GeoPoint(lat: real, lon: real)

  /**
   * The floating-point geometry the program borrows from its libraries:
   * `cosDeg(d)` stands for `math.cos(math.radians(d))` and `meters(a, b)`
   * for `geodesic(a, b).meters`. Nothing is assumed about either, and
   * `meters` is total: the library's `ValueError` on a latitude outside
   * [-90, 90] or a non-finite coordinate is not modelled.
   */
  datatype Geodesy = Geodesy(cosDeg: real -> real, meters: (GeoPoint, GeoPoint) -> real)
}
