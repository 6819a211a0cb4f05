/** The radius classifier: radius in metres to the map zoom level sent to the search service. */
module Zoom {

  const MaxZoom: int := 16
  const MinZoom: int := 10

  /** Inclusive upper radius bounds of zoom levels 16, 15, ..., 11. */
  const Thresholds: seq<real> := [500.0, 1000.0, 2000.0, 5000.0, 10000.0, 20000.0]

  /** `radius_to_zoom_level`: a step function with inclusive upper bounds. */
  function ZoomLevel(radius: real): (z: int)
    ensures MinZoom <= z <= MaxZoom
  {
    if radius <= 500.0 then 16
    else if radius <= 1000.0 then 15
    else if radius <= 2000.0 then 14
    else if radius <= 5000.0 then 13
    else if radius <= 10000.0 then 12
    else if radius <= 20000.0 then 11
    else 10
  }

  /** How many thresholds the radius strictly exceeds. */
  function CountBelow(ts: seq<real>, radius: real): (n: nat)
    ensures n <= |ts|
  {
    if ts == [] then 0
    else (if ts[0] < radius then 1 else 0) + CountBelow(ts[1..], radius)
  }

  /** Reference reading of the classifier: every threshold the radius exceeds costs one zoom level. */
  lemma ZoomCountsExceededThresholds(radius: real)
    ensures ZoomLevel(radius) == MaxZoom - CountBelow(Thresholds, radius)
  {
    var t := Thresholds;
    assert CountBelow([], radius) == 0;
    assert CountBelow(t[5..], radius) == (if 20000.0 < radius then 1 else 0) + CountBelow(t[6..], radius);
    assert CountBelow(t[4..], radius) == (if 10000.0 < radius then 1 else 0) + CountBelow(t[5..], radius);
    assert CountBelow(t[3..], radius) == (if 5000.0 < radius then 1 else 0) + CountBelow(t[4..], radius);
    assert CountBelow(t[2..], radius) == (if 2000.0 < radius then 1 else 0) + CountBelow(t[3..], radius);
    assert CountBelow(t[1..], radius) == (if 1000.0 < radius then 1 else 0) + CountBelow(t[2..], radius);
    assert CountBelow(t, radius) == (if 500.0 < radius then 1 else 0) + CountBelow(t[1..], radius);
  }

  lemma {:induction false} CountBelowMonotone(ts: seq<real>, r1: real, r2: real)
    requires r1 <= r2
    ensures CountBelow(ts, r1) <= CountBelow(ts, r2)
  {
    if ts != [] {
      CountBelowMonotone(ts[1..], r1, r2);
    }
  }

  /** A larger radius never yields a more zoomed-in level. */
  lemma ZoomMonotone(r1: real, r2: real)
    requires r1 <= r2
    ensures ZoomLevel(r1) >= ZoomLevel(r2)
  {
    ZoomCountsExceededThresholds(r1);
    ZoomCountsExceededThresholds(r2);
    CountBelowMonotone(Thresholds, r1, r2);
  }

  /** The largest thresholds saturate: any radius above 20 km gets the lowest level. */
  lemma ZoomSaturates(radius: real)
    requires radius > 20000.0
    ensures ZoomLevel(radius) == MinZoom
  {
    ZoomCountsExceededThresholds(radius);
  }
}
