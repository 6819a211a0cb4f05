/**
 * Search-point planning: the radius grid of `generate_search_points`, the
 * fixed nine-point "expand search" pattern and the single-point search.
 */
module Planner {
  import opened Wrappers
  import opened Geo
  import opened Request
  import Zoom

  /** One (location, zoom) pair sent to the place-search service. */
  datatype SamplePoint = SamplePoint(loc: GeoPoint, zoom: int)

  /** A lattice index pair (i, j): i steps latitude, j steps longitude. */
  type Offset = (int, int)

  /** Metres per degree of latitude (and of longitude at the equator). */
  const MetersPerDegree: real := 111000.0
  /** Grid spacing as a fraction of the radius. */
  const SpacingFactor: real := 0.4
  /** Lattice points are kept up to this multiple of the radius. */
  const Reach: real := 1.2

  function Spacing(radius: real): real {
    radius * SpacingFactor
  }

  /** Python's `int()` on a float: truncation toward zero. */
  function Trunc(x: real): int {
    if x >= 0.0 then x.Floor else -((-x).Floor)
  }

  /** `radius * 2 / grid_spacing`: the radius cancels, leaving 2 / 0.4. */
  function GridRatio(radius: real): (x: real)
    requires radius != 0.0
    ensures x == 2.0 / SpacingFactor
  {
    assert Spacing(radius) * (2.0 / SpacingFactor) == radius * 2.0;
    radius * 2.0 / Spacing(radius)
  }

  /** `grid_size = int(radius * 2 / grid_spacing) + 1`. */
  function GridSize(radius: real): (g: int)
    requires radius != 0.0
    ensures g >= 0
  {
    Trunc(GridRatio(radius)) + 1
  }

  /** In exact arithmetic the grid half-extent does not depend on the radius: 6 steps each way. */
  lemma GridSizeIsSix(radius: real)
    requires radius != 0.0
    ensures GridSize(radius) == 6
  {
  }

  /** The grid can be planned: the radius is non-zero and the longitude scale is defined. */
  predicate Planable(center: GeoPoint, radius: real, geo: Geodesy) {
    radius != 0.0 && geo.cosDeg(center.lat) != 0.0
  }

  /** Degrees of latitude per grid step: `grid_spacing * lat_degree_per_meter`. */
  function LatStep(radius: real): (d: real)
    requires radius != 0.0
    ensures d != 0.0
  {
    Spacing(radius) * (1.0 / MetersPerDegree)
  }

  /** Degrees of longitude per grid step: `grid_spacing * lon_degree_per_meter`, widened by 1/cos(latitude). */
  function LonStep(center: GeoPoint, radius: real, geo: Geodesy): (d: real)
    requires Planable(center, radius, geo)
    ensures d != 0.0
  {
    assert 1.0 / (MetersPerDegree * geo.cosDeg(center.lat)) != 0.0;
    Spacing(radius) * (1.0 / (MetersPerDegree * geo.cosDeg(center.lat)))
  }

  /**
   * The location of lattice offset `o` around `center`. The source computes
   * `i * grid_spacing * lat_degree_per_meter`; over exact reals the grouping
   * `i * (grid_spacing * lat_degree_per_meter)` is the same number.
   */
  function LatticePoint(center: GeoPoint, radius: real, geo: Geodesy, o: Offset): GeoPoint
    requires Planable(center, radius, geo)
  {
    GeoPoint(center.lat + (o.0 as real) * LatStep(radius),
             center.lon + (o.1 as real) * LonStep(center, radius, geo))
  }

  predicate InReach(center: GeoPoint, radius: real, geo: Geodesy, o: Offset)
    requires Planable(center, radius, geo)
  {
    geo.meters(center, LatticePoint(center, radius, geo, o)) <= radius * Reach
  }

  /** Row i of the lattice, columns j = -g .. -g+n-1, without the origin. */
  function RowPrefix(g: int, i: int, n: nat): seq<Offset> {
    if n == 0 then []
    else
      var j := (n - 1) - g;
      RowPrefix(g, i, n - 1) + (if i == 0 && j == 0 then [] else [(i, j)])
  }

  /** Rows i = -g .. -g+m-1 of the lattice, row-major. */
  function RowsPrefix(g: int, m: nat): seq<Offset>
    requires 0 <= g
  {
    if m == 0 then [] else RowsPrefix(g, m - 1) + RowPrefix(g, (m - 1) - g, 2 * g + 1)
  }

  /** The whole lattice walk over [-g, g] x [-g, g], skipping the origin. */
  function Lattice(g: nat): seq<Offset> {
    RowsPrefix(g, 2 * g + 1)
  }

  /** The offsets of `offs` whose lattice point is within reach, in order. */
  function KeptOffsets(center: GeoPoint, radius: real, geo: Geodesy, offs: seq<Offset>): seq<Offset>
    requires Planable(center, radius, geo)
  {
    if offs == [] then []
    else
      var last := offs[|offs| - 1];
      KeptOffsets(center, radius, geo, offs[..|offs| - 1])
        + (if InReach(center, radius, geo, last) then [last] else [])
  }

  /** The sample points of a sequence of offsets, all at the radius's zoom level. */
  function ToPoints(center: GeoPoint, radius: real, geo: Geodesy, offs: seq<Offset>): seq<SamplePoint>
    requires Planable(center, radius, geo)
  {
    seq(|offs|, k requires 0 <= k < |offs| =>
      SamplePoint(LatticePoint(center, radius, geo, offs[k]), Zoom.ZoomLevel(radius)))
  }

  /** The planner's output: the centre, then every lattice point within reach in row-major order. */
  function SearchPoints(center: GeoPoint, radius: real, geo: Geodesy): seq<SamplePoint>
    requires Planable(center, radius, geo)
  {
    [SamplePoint(center, Zoom.ZoomLevel(radius))]
      + ToPoints(center, radius, geo, KeptOffsets(center, radius, geo, Lattice(GridSize(radius))))
  }

  // ---------------------------------------------------------------------------
  // The nested loop of `generate_search_points`
  // ---------------------------------------------------------------------------

  method GenerateSearchPoints(center: GeoPoint, radius: real, geo: Geodesy) returns (points: seq<SamplePoint>)
    requires Planable(center, radius, geo)
    ensures points == SearchPoints(center, radius, geo)
  {
    var g := GridSize(radius);
    points := [SamplePoint(center, Zoom.ZoomLevel(radius))];
    var i: int := -g;
    while i <= g
      invariant -g <= i <= g + 1
      invariant points == Walked(center, radius, geo, g, i, -g)
    {
      points := WalkRow(center, radius, geo, g, i, points);
      NextRow(center, radius, geo, g, i);
      i := i + 1;
    }
    WalkDone(center, radius, geo);
  }

  /** The inner loop: row i, columns -g .. g, skipping the origin and points out of reach. */
  method WalkRow(center: GeoPoint, radius: real, geo: Geodesy, g: int, i: int, start: seq<SamplePoint>)
    returns (points: seq<SamplePoint>)
    requires Planable(center, radius, geo)
    requires 0 <= g && -g <= i <= g
    requires start == Walked(center, radius, geo, g, i, -g)
    ensures points == Walked(center, radius, geo, g, i, g + 1)
  {
    var zoom := Zoom.ZoomLevel(radius);
    points := start;
    var j: int := -g;
    while j <= g
      invariant -g <= j <= g + 1
      invariant points == Walked(center, radius, geo, g, i, j)
    {
      WalkStep(center, radius, geo, g, i, j);
      if !(i == 0 && j == 0) {
        var p := LatticePoint(center, radius, geo, (i, j));
        var distance := geo.meters(center, p);
        if distance <= radius * Reach {
          points := points + [SamplePoint(p, zoom)];
        }
      }
      j := j + 1;
    }
  }

  /** The points emitted once the walk has reached row i, column j. */
  function Walked(center: GeoPoint, radius: real, geo: Geodesy, g: int, i: int, j: int): seq<SamplePoint>
    requires Planable(center, radius, geo)
    requires 0 <= g && -g <= i <= g + 1 && -g <= j <= g + 1
  {
    [SamplePoint(center, Zoom.ZoomLevel(radius))]
      + ToPoints(center, radius, geo,
          KeptOffsets(center, radius, geo, RowsPrefix(g, i + g) + RowPrefix(g, i, j + g)))
  }

  lemma WalkStep(center: GeoPoint, radius: real, geo: Geodesy, g: int, i: int, j: int)
    requires Planable(center, radius, geo)
    requires 0 <= g && -g <= i <= g && -g <= j <= g
    ensures Walked(center, radius, geo, g, i, j + 1)
      == Walked(center, radius, geo, g, i, j)
         + (if (i == 0 && j == 0) || !InReach(center, radius, geo, (i, j)) then []
            else [SamplePoint(LatticePoint(center, radius, geo, (i, j)), Zoom.ZoomLevel(radius))])
  {
    var head := [SamplePoint(center, Zoom.ZoomLevel(radius))];
    var kept := KeptOffsets(center, radius, geo, RowsPrefix(g, i + g) + RowPrefix(g, i, j + g));
    var added: seq<Offset> := if (i == 0 && j == 0) || !InReach(center, radius, geo, (i, j)) then [] else [(i, j)];
    WalkOffsetsStep(center, radius, geo, g, i, j);
    ToPointsAppend(center, radius, geo, kept, added);
    var pk := ToPoints(center, radius, geo, kept);
    var pa := ToPoints(center, radius, geo, added);
    assert Walked(center, radius, geo, g, i, j + 1) == head + (pk + pa);
    assert Walked(center, radius, geo, g, i, j) == head + pk;
    assert pa == (if (i == 0 && j == 0) || !InReach(center, radius, geo, (i, j)) then []
            else [SamplePoint(LatticePoint(center, radius, geo, (i, j)), Zoom.ZoomLevel(radius))]);
    assert head + (pk + pa) == (head + pk) + pa;
  }

  lemma WalkOffsetsStep(center: GeoPoint, radius: real, geo: Geodesy, g: int, i: int, j: int)
    requires Planable(center, radius, geo)
    requires 0 <= g && -g <= i <= g && -g <= j <= g
    ensures KeptOffsets(center, radius, geo, RowsPrefix(g, i + g) + RowPrefix(g, i, j + 1 + g))
      == KeptOffsets(center, radius, geo, RowsPrefix(g, i + g) + RowPrefix(g, i, j + g))
         + (if (i == 0 && j == 0) || !InReach(center, radius, geo, (i, j)) then [] else [(i, j)])
  {
    var before := RowsPrefix(g, i + g) + RowPrefix(g, i, j + g);
    var step: seq<Offset> := if i == 0 && j == 0 then [] else [(i, j)];
    assert RowPrefix(g, i, j + 1 + g) == RowPrefix(g, i, j + g) + step;
    assert RowsPrefix(g, i + g) + RowPrefix(g, i, j + 1 + g) == before + step;
    if step == [] {
      assert before + step == before;
    } else {
      KeptOffsetsSnoc(center, radius, geo, before, (i, j));
    }
  }

  lemma WalkDone(center: GeoPoint, radius: real, geo: Geodesy)
    requires Planable(center, radius, geo)
    ensures Walked(center, radius, geo, GridSize(radius), GridSize(radius) + 1, -GridSize(radius))
      == SearchPoints(center, radius, geo)
  {
    var g := GridSize(radius);
    assert RowPrefix(g, g + 1, 0) == [];
    assert RowsPrefix(g, 2 * g + 1) + RowPrefix(g, g + 1, 0) == Lattice(g);
  }

  lemma NextRow(center: GeoPoint, radius: real, geo: Geodesy, g: int, i: int)
    requires Planable(center, radius, geo)
    requires 0 <= g && -g <= i <= g
    ensures Walked(center, radius, geo, g, i, g + 1) == Walked(center, radius, geo, g, i + 1, -g)
  {
    assert RowsPrefix(g, i + 1 + g) == RowsPrefix(g, i + g) + RowPrefix(g, i, 2 * g + 1);
    assert RowPrefix(g, i + 1, 0) == [];
    assert RowsPrefix(g, i + 1 + g) + RowPrefix(g, i + 1, 0) == RowsPrefix(g, i + 1 + g);
  }

  // ---------------------------------------------------------------------------
  // Helper facts
  // ---------------------------------------------------------------------------

  lemma KeptOffsetsSnoc(center: GeoPoint, radius: real, geo: Geodesy, offs: seq<Offset>, o: Offset)
    requires Planable(center, radius, geo)
    ensures KeptOffsets(center, radius, geo, offs + [o])
      == KeptOffsets(center, radius, geo, offs) + (if InReach(center, radius, geo, o) then [o] else [])
  {
    assert (offs + [o])[..|offs|] == offs;
  }

  lemma ToPointsAppend(center: GeoPoint, radius: real, geo: Geodesy, a: seq<Offset>, b: seq<Offset>)
    requires Planable(center, radius, geo)
    ensures ToPoints(center, radius, geo, a + b) == ToPoints(center, radius, geo, a) + ToPoints(center, radius, geo, b)
  {
  }

  lemma {:induction false} KeptOffsetsAreInReach(center: GeoPoint, radius: real, geo: Geodesy, offs: seq<Offset>)
    requires Planable(center, radius, geo)
    ensures forall k :: 0 <= k < |KeptOffsets(center, radius, geo, offs)| ==>
      InReach(center, radius, geo, KeptOffsets(center, radius, geo, offs)[k])
    ensures forall k :: 0 <= k < |KeptOffsets(center, radius, geo, offs)| ==>
      KeptOffsets(center, radius, geo, offs)[k] in offs
  {
    if offs != [] {
      KeptOffsetsAreInReach(center, radius, geo, offs[..|offs| - 1]);
    }
  }

  /** Every offset of the walk whose point is within reach is kept. */
  lemma {:induction false} KeptOffsetsComplete(center: GeoPoint, radius: real, geo: Geodesy, offs: seq<Offset>, o: Offset)
    requires Planable(center, radius, geo)
    requires o in offs && InReach(center, radius, geo, o)
    ensures o in KeptOffsets(center, radius, geo, offs)
  {
    var init := offs[..|offs| - 1];
    if o in init {
      KeptOffsetsComplete(center, radius, geo, init, o);
    } else {
      assert offs == init + [offs[|offs| - 1]];
    }
  }

  lemma SearchPointsShape(center: GeoPoint, radius: real, geo: Geodesy)
    requires Planable(center, radius, geo)
    ensures forall k :: 0 <= k < |SearchPoints(center, radius, geo)| ==>
      SearchPoints(center, radius, geo)[k].zoom == Zoom.ZoomLevel(radius)
    ensures forall k :: 1 <= k < |SearchPoints(center, radius, geo)| ==>
      geo.meters(center, SearchPoints(center, radius, geo)[k].loc) <= radius * Reach
  {
    var kept := KeptOffsets(center, radius, geo, Lattice(GridSize(radius)));
    KeptOffsetsAreInReach(center, radius, geo, Lattice(GridSize(radius)));
    var pts := SearchPoints(center, radius, geo);
    forall k | 1 <= k < |pts|
      ensures geo.meters(center, pts[k].loc) <= radius * Reach
    {
      assert pts[k].loc == LatticePoint(center, radius, geo, kept[k - 1]);
      assert InReach(center, radius, geo, kept[k - 1]);
    }
  }

  // ---------------------------------------------------------------------------
  // The lattice walk: which offsets, how many, in which order
  // ---------------------------------------------------------------------------

  /** Row-major (lexicographic) order on offsets: i first, then j. */
  predicate RowMajorBefore(a: Offset, b: Offset) {
    a.0 < b.0 || (a.0 == b.0 && a.1 < b.1)
  }

  predicate RowMajor(s: seq<Offset>) {
    forall k, l :: 0 <= k < l < |s| ==> RowMajorBefore(s[k], s[l])
  }

  predicate InSquare(g: int, o: Offset) {
    -g <= o.0 <= g && -g <= o.1 <= g
  }

  lemma {:induction false} RowPrefixMembers(g: int, i: int, n: nat)
    ensures forall o :: o in RowPrefix(g, i, n) <==> o.0 == i && -g <= o.1 < n - g && o != (0, 0)
  {
    if n > 0 {
      RowPrefixMembers(g, i, n - 1);
    }
  }

  lemma {:induction false} RowsPrefixMembers(g: int, m: nat)
    requires 0 <= g
    ensures forall o :: o in RowsPrefix(g, m) <==> -g <= o.0 < m - g && -g <= o.1 <= g && o != (0, 0)
  {
    if m > 0 {
      var prev := RowsPrefix(g, m - 1);
      var row := RowPrefix(g, (m - 1) - g, 2 * g + 1);
      assert RowsPrefix(g, m) == prev + row;
      RowsPrefixMembers(g, m - 1);
      RowPrefixMembers(g, (m - 1) - g, 2 * g + 1);
      forall o: Offset
        ensures o in prev + row <==> -g <= o.0 < m - g && -g <= o.1 <= g && o != (0, 0)
      {
        assert o in prev + row <==> o in prev || o in row;
      }
    }
  }

  /** The walk visits exactly the square [-g, g] x [-g, g] minus its centre. */
  lemma LatticeMembers(g: nat)
    ensures forall o :: o in Lattice(g) <==> InSquare(g, o) && o != (0, 0)
  {
    RowsPrefixMembers(g, 2 * g + 1);
  }

  lemma {:induction false} RowPrefixLength(g: int, i: int, n: nat)
    requires 0 <= g
    ensures |RowPrefix(g, i, n)| == n - (if i == 0 && n > g then 1 else 0)
  {
    if n > 0 {
      RowPrefixLength(g, i, n - 1);
    }
  }

  lemma {:induction false} RowsPrefixLength(g: int, m: nat)
    requires 0 <= g
    ensures |RowsPrefix(g, m)| == m * (2 * g + 1) - (if m > g then 1 else 0)
  {
    if m > 0 {
      RowsPrefixLength(g, m - 1);
      RowPrefixLength(g, (m - 1) - g, 2 * g + 1);
      assert (m - 1) * (2 * g + 1) + (2 * g + 1) == m * (2 * g + 1);
    }
  }

  /** The walk has one step per square cell except the centre. */
  lemma LatticeLength(g: nat)
    ensures |Lattice(g)| == (2 * g + 1) * (2 * g + 1) - 1
  {
    RowsPrefixLength(g, 2 * g + 1);
  }

  lemma RowMajorAppend(a: seq<Offset>, b: seq<Offset>)
    requires RowMajor(a) && RowMajor(b)
    requires forall x, y :: x in a && y in b ==> RowMajorBefore(x, y)
    ensures RowMajor(a + b)
  {
    var s := a + b;
    forall k, l | 0 <= k < l < |s|
      ensures RowMajorBefore(s[k], s[l])
    {
      if l < |a| {
        assert RowMajorBefore(a[k], a[l]);
      } else if k >= |a| {
        assert RowMajorBefore(b[k - |a|], b[l - |a|]);
      } else {
        assert s[k] in a && s[l] in b;
      }
    }
  }

  lemma {:induction false} RowPrefixRowMajor(g: int, i: int, n: nat)
    ensures RowMajor(RowPrefix(g, i, n))
  {
    if n > 0 {
      RowPrefixRowMajor(g, i, n - 1);
      RowPrefixMembers(g, i, n - 1);
      var j := (n - 1) - g;
      RowMajorAppend(RowPrefix(g, i, n - 1), if i == 0 && j == 0 then [] else [(i, j)]);
    }
  }

  lemma {:induction false} RowsPrefixRowMajor(g: int, m: nat)
    requires 0 <= g
    ensures RowMajor(RowsPrefix(g, m))
  {
    if m > 0 {
      var prev := RowsPrefix(g, m - 1);
      var row := RowPrefix(g, (m - 1) - g, 2 * g + 1);
      assert RowsPrefix(g, m) == prev + row;
      RowsPrefixRowMajor(g, m - 1);
      RowsPrefixMembers(g, m - 1);
      RowPrefixRowMajor(g, (m - 1) - g, 2 * g + 1);
      RowPrefixMembers(g, (m - 1) - g, 2 * g + 1);
      forall x, y | x in prev && y in row
        ensures RowMajorBefore(x, y)
      {
        assert x.0 < (m - 1) - g == y.0;
      }
      RowMajorAppend(prev, row);
    }
  }

  /** The walk is row-major: i outer, j inner, each offset strictly after the one before. */
  lemma LatticeRowMajor(g: nat)
    ensures RowMajor(Lattice(g))
  {
    RowsPrefixRowMajor(g, 2 * g + 1);
  }

  /** Keeping a subsequence keeps the order. */
  lemma {:induction false} KeptOffsetsRowMajor(center: GeoPoint, radius: real, geo: Geodesy, offs: seq<Offset>)
    requires Planable(center, radius, geo)
    requires RowMajor(offs)
    ensures RowMajor(KeptOffsets(center, radius, geo, offs))
  {
    if offs != [] {
      var init := offs[..|offs| - 1];
      var last := offs[|offs| - 1];
      assert RowMajor(init);
      KeptOffsetsRowMajor(center, radius, geo, init);
      KeptOffsetsAreInReach(center, radius, geo, init);
      var kept := KeptOffsets(center, radius, geo, init);
      forall x | x in kept
        ensures RowMajorBefore(x, last)
      {
        var k :| 0 <= k < |kept| && kept[k] == x;
        assert x in init;
        var p :| 0 <= p < |init| && init[p] == x;
        assert offs[p] == x;
      }
      RowMajorAppend(kept, if InReach(center, radius, geo, last) then [last] else []);
    }
  }

  // ---------------------------------------------------------------------------
  // Lattice points are pairwise distinct and distinct from the centre
  // ---------------------------------------------------------------------------

  lemma ScaledStepInjective(base: real, a: int, b: int, step: real)
    requires step != 0.0
    requires base + (a as real) * step == base + (b as real) * step
    ensures a == b
  {
    assert ((a as real) - (b as real)) * step == 0.0;
  }

  lemma LatticePointInjective(center: GeoPoint, radius: real, geo: Geodesy, a: Offset, b: Offset)
    requires Planable(center, radius, geo)
    requires LatticePoint(center, radius, geo, a) == LatticePoint(center, radius, geo, b)
    ensures a == b
  {
    ScaledStepInjective(center.lat, a.0, b.0, LatStep(radius));
    ScaledStepInjective(center.lon, a.1, b.1, LonStep(center, radius, geo));
  }

  lemma LatticePointOffCentre(center: GeoPoint, radius: real, geo: Geodesy, o: Offset)
    requires Planable(center, radius, geo)
    requires o != (0, 0)
    ensures LatticePoint(center, radius, geo, o) != center
  {
    if LatticePoint(center, radius, geo, o) == center {
      assert LatticePoint(center, radius, geo, (0, 0)) == center;
      LatticePointInjective(center, radius, geo, o, (0, 0));
    }
  }

  // ---------------------------------------------------------------------------
  // What the planner promises about its output
  // ---------------------------------------------------------------------------

  /** The offsets behind the points after the centre, in emission order. */
  function PlannedOffsets(center: GeoPoint, radius: real, geo: Geodesy): seq<Offset>
    requires Planable(center, radius, geo)
  {
    KeptOffsets(center, radius, geo, Lattice(GridSize(radius)))
  }

  /**
   * After the centre come lattice points only: each one's offset lies in the
   * square [-g, g] x [-g, g] minus its centre (g = GridSize, which is 6), is within reach, and the
   * offsets appear in strict row-major order.
   */
  lemma SearchPointsRowMajor(center: GeoPoint, radius: real, geo: Geodesy)
    requires Planable(center, radius, geo)
    ensures var pts := SearchPoints(center, radius, geo);
            var ks := PlannedOffsets(center, radius, geo);
            && |pts| == |ks| + 1
            && RowMajor(ks)
            && (forall k :: 0 <= k < |ks| ==>
                  && pts[k + 1].loc == LatticePoint(center, radius, geo, ks[k])
                  && InSquare(GridSize(radius), ks[k]) && ks[k] != (0, 0)
                  && InReach(center, radius, geo, ks[k]))
  {
    var g := GridSize(radius);
    var pts := SearchPoints(center, radius, geo);
    var ks := PlannedOffsets(center, radius, geo);
    LatticeRowMajor(g);
    KeptOffsetsRowMajor(center, radius, geo, Lattice(g));
    KeptOffsetsAreInReach(center, radius, geo, Lattice(g));
    LatticeMembers(g);
    forall k | 0 <= k < |ks|
      ensures pts[k + 1].loc == LatticePoint(center, radius, geo, ks[k])
      ensures InSquare(g, ks[k]) && ks[k] != (0, 0)
      ensures InReach(center, radius, geo, ks[k])
    {
      assert ks[k] in Lattice(g);
    }
  }

  /** The centre comes first and never again; no location is planned twice. */
  lemma SearchPointsDistinct(center: GeoPoint, radius: real, geo: Geodesy)
    requires Planable(center, radius, geo)
    ensures var pts := SearchPoints(center, radius, geo);
            && pts[0].loc == center
            && (forall k :: 1 <= k < |pts| ==> pts[k].loc != center)
            && (forall k, l :: 0 <= k < l < |pts| ==> pts[k].loc != pts[l].loc)
  {
    SearchPointsRowMajor(center, radius, geo);
    var pts := SearchPoints(center, radius, geo);
    var ks := PlannedOffsets(center, radius, geo);
    forall k | 1 <= k < |pts|
      ensures pts[k].loc != center
    {
      LatticePointOffCentre(center, radius, geo, ks[k - 1]);
    }
    forall k, l | 0 <= k < l < |pts|
      ensures pts[k].loc != pts[l].loc
    {
      if k > 0 && pts[k].loc == pts[l].loc {
        assert RowMajorBefore(ks[k - 1], ks[l - 1]);
        LatticePointInjective(center, radius, geo, ks[k - 1], ks[l - 1]);
      }
    }
  }

  /** At most one point per cell of the 13 x 13 square. */
  lemma SearchPointsBound(center: GeoPoint, radius: real, geo: Geodesy)
    requires Planable(center, radius, geo)
    ensures |SearchPoints(center, radius, geo)| <= 169
  {
    var g := GridSize(radius);
    LatticeLength(g);
    KeptOffsetsLength(center, radius, geo, Lattice(g));
    assert |SearchPoints(center, radius, geo)| <= (2 * g + 1) * (2 * g + 1);
    GridCells(radius);
  }

  lemma GridCells(radius: real)
    requires radius != 0.0
    ensures (2 * GridSize(radius) + 1) * (2 * GridSize(radius) + 1) == 169
  {
    GridSizeIsSix(radius);
  }

  lemma {:induction false} KeptOffsetsLength(center: GeoPoint, radius: real, geo: Geodesy, offs: seq<Offset>)
    requires Planable(center, radius, geo)
    ensures |KeptOffsets(center, radius, geo, offs)| <= |offs|
  {
    if offs != [] {
      KeptOffsetsLength(center, radius, geo, offs[..|offs| - 1]);
    }
  }

  /** No lattice point within reach is missed. */
  lemma SearchPointsComplete(center: GeoPoint, radius: real, geo: Geodesy, o: Offset)
    requires Planable(center, radius, geo)
    requires InSquare(GridSize(radius), o) && o != (0, 0)
    requires InReach(center, radius, geo, o)
    ensures SamplePoint(LatticePoint(center, radius, geo, o), Zoom.ZoomLevel(radius)) in SearchPoints(center, radius, geo)
  {
    var g := GridSize(radius);
    LatticeMembers(g);
    KeptOffsetsComplete(center, radius, geo, Lattice(g), o);
    var ks := PlannedOffsets(center, radius, geo);
    var k :| 0 <= k < |ks| && ks[k] == o;
    assert SearchPoints(center, radius, geo)[k + 1] == SamplePoint(LatticePoint(center, radius, geo, o), Zoom.ZoomLevel(radius));
  }

  // ---------------------------------------------------------------------------
  // The other two plans: nine fixed points, or the session point alone
  // ---------------------------------------------------------------------------

  /** Degree offsets (latitude, longitude) of the "expand search" pattern: centre, N, S, E, W, NE, SE, NW, SW. */
  const ExpandOffsets: seq<(real, real)> := [
    (0.0, 0.0),
    (0.01, 0.0), (-0.01, 0.0), (0.0, 0.01), (0.0, -0.01),
    (0.007, 0.007), (-0.007, 0.007), (0.007, -0.007), (-0.007, -0.007)]

  function ExpandPoints(center: GeoPoint, zoom: int): seq<SamplePoint> {
    seq(|ExpandOffsets|, k requires 0 <= k < |ExpandOffsets| =>
      SamplePoint(GeoPoint(center.lat + ExpandOffsets[k].0, center.lon + ExpandOffsets[k].1), zoom))
  }

  /**
   * Nine points, the centre first, all at the session zoom, all distinct and
   * each at most 0.01 degree from the centre along each axis.
   */
  lemma ExpandPointsShape(center: GeoPoint, zoom: int)
    ensures var pts := ExpandPoints(center, zoom);
            && |pts| == 9
            && pts[0] == SamplePoint(center, zoom)
            && (forall k :: 0 <= k < 9 ==> pts[k].zoom == zoom)
            && (forall k :: 0 <= k < 9 ==>
                  -0.01 <= pts[k].loc.lat - center.lat <= 0.01 && -0.01 <= pts[k].loc.lon - center.lon <= 0.01)
            && (forall k, l :: 0 <= k < l < 9 ==> pts[k].loc != pts[l].loc)
  {
    var pts := ExpandPoints(center, zoom);
    forall k, l | 0 <= k < l < 9
      ensures pts[k].loc != pts[l].loc
    {
      assert ExpandOffsets[k] != ExpandOffsets[l];
    }
  }

  /** Every lattice point within reach, as a sample point, is in the plan. */
  lemma SearchPointsCover(center: GeoPoint, radius: real, geo: Geodesy)
    requires Planable(center, radius, geo)
    ensures forall o: Offset :: InSquare(GridSize(radius), o) && o != (0, 0) && InReach(center, radius, geo, o) ==>
      SamplePoint(LatticePoint(center, radius, geo, o), Zoom.ZoomLevel(radius)) in SearchPoints(center, radius, geo)
  {
    forall o: Offset | InSquare(GridSize(radius), o) && o != (0, 0) && InReach(center, radius, geo, o)
      ensures SamplePoint(LatticePoint(center, radius, geo, o), Zoom.ZoomLevel(radius)) in SearchPoints(center, radius, geo)
    {
      SearchPointsComplete(center, radius, geo, o);
    }
  }

  /**
   * The search locations for one request: the radius grid when a radius is
   * active, else the expand pattern when chosen, else the session point.
   * No plan visits a location twice. The radius plan holds at most 169
   * points, each after the centre within 1.2 x radius, and every lattice
   * point within reach. The expand plan is nine points within 0.01 degree
   * of the centre on each axis.
   */
  function PlanLocations(req: SearchRequest, geo: Geodesy): (pts: seq<SamplePoint>)
    requires ActiveRadius(req).Some? ==> geo.cosDeg(req.center.lat) != 0.0
    ensures |pts| >= 1 && pts[0].loc == req.center
    ensures forall k :: 0 <= k < |pts| ==> pts[k].zoom == pts[0].zoom
    ensures forall k, l :: 0 <= k < l < |pts| ==> pts[k].loc != pts[l].loc
    ensures ActiveRadius(req).Some? ==> pts[0].zoom == Zoom.ZoomLevel(ActiveRadius(req).value)
    ensures ActiveRadius(req).Some? ==> |pts| <= 169
    ensures ActiveRadius(req).Some? ==> forall k :: 1 <= k < |pts| ==>
      geo.meters(req.center, pts[k].loc) <= ActiveRadius(req).value * Reach
    ensures ActiveRadius(req).Some? ==> forall o: Offset ::
      InSquare(GridSize(ActiveRadius(req).value), o) && o != (0, 0) && InReach(req.center, ActiveRadius(req).value, geo, o) ==>
        SamplePoint(LatticePoint(req.center, ActiveRadius(req).value, geo, o), pts[0].zoom) in pts
    ensures ActiveRadius(req).None? ==> pts[0].zoom == req.zoom
    ensures ActiveRadius(req).None? && !req.expand ==> pts == [SamplePoint(req.center, req.zoom)]
    ensures ActiveRadius(req).None? && req.expand ==>
      && |pts| == 9
      && forall k :: 0 <= k < |pts| ==>
           -0.01 <= pts[k].loc.lat - req.center.lat <= 0.01 && -0.01 <= pts[k].loc.lon - req.center.lon <= 0.01
  {
    match ActiveRadius(req)
    case Some(radius) =>
      SearchPointsShape(req.center, radius, geo);
      SearchPointsDistinct(req.center, radius, geo);
      SearchPointsBound(req.center, radius, geo);
      SearchPointsCover(req.center, radius, geo);
      SearchPoints(req.center, radius, geo)
    case None =>
      if req.expand then
        ExpandPointsShape(req.center, req.zoom);
        ExpandPoints(req.center, req.zoom)
      else [SamplePoint(req.center, req.zoom)]
  }
}
