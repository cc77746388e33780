/** The road-network sampler: which roads an Overpass response yields, where
    sample points go along each road (or on a fallback grid), how the point
    budget is enforced, and how reverse geocoding enriches the points.
    Geometry is abstract: a road's length and its interpolation are oracles. */
module RoadNetwork {
  import opened Wrappers
  import opened Text
  import opened Numbers
  import opened Seqs
  import opened Sorting
  import opened Geo
  import Config
  import ApiClients

  // ---------------------------------------------------------------------------
  // Fetching: server fallback
  // ---------------------------------------------------------------------------

  /** The three Overpass mirrors, tried in this order. */
  function OverpassServers(): (s: seq<string>)
    ensures |s| == 3
  {
    [ "https://overpass-api.de/api/interpreter",
      "https://overpass.kumi.systems/api/interpreter",
      "https://overpass.openstreetmap.ru/api/interpreter" ]
  }

  /** The road classes queried when none are given; the same list as the
      configured road-sampling types. */
  function DefaultRoadTypes(): (ts: seq<string>)
    ensures ts == Config.RoadSamplingConfig().roadTypes
  {
    ["motorway", "motorway_link", "trunk", "trunk_link", "primary", "primary_link"]
  }

  /** The first successful response in list order, if any. */
  function FirstSuccess<D>(responses: seq<Option<D>>): (r: Option<D>)
    ensures r.Some? <==> exists i :: 0 <= i < |responses| && responses[i].Some?
    ensures r.Some? ==> exists i :: 0 <= i < |responses| && responses[i] == r
                                    && forall j :: 0 <= j < i ==> responses[j].None?
  {
    if |responses| == 0 then None
    else if responses[0].Some? then responses[0]
    else
      var rest := FirstSuccess(responses[1..]);
      assert forall i :: 0 <= i < |responses[1..]| ==> responses[1..][i] == responses[i + 1];
      rest
  }

  /** `get_road_network` with the request as an oracle from server URL to
      response (None for a timeout or any other error). */
  function GetRoadNetwork<D>(fetch: string -> Option<D>): (r: Option<D>)
    ensures r.None? <==> forall s :: s in OverpassServers() ==> fetch(s).None?
    ensures fetch(OverpassServers()[0]).Some? ==> r == fetch(OverpassServers()[0])
    ensures fetch(OverpassServers()[0]).None? && fetch(OverpassServers()[1]).Some? ==> r == fetch(OverpassServers()[1])
    ensures fetch(OverpassServers()[0]).None? && fetch(OverpassServers()[1]).None? ==> r == fetch(OverpassServers()[2])
  {
    var servers := OverpassServers();
    var responses := [fetch(servers[0]), fetch(servers[1]), fetch(servers[2])];
    var r := FirstSuccess(responses);
    assert forall s :: s in servers ==> s == servers[0] || s == servers[1] || s == servers[2];
    assert r.None? <==> responses[0].None? && responses[1].None? && responses[2].None? by {
      if r.Some? {
        var i :| 0 <= i < |responses| && responses[i] == r;
        assert i == 0 || i == 1 || i == 2;
      }
      if responses[0].Some? || responses[1].Some? || responses[2].Some? {
        assert responses[0].Some? ==> exists i :: 0 <= i < |responses| && responses[i].Some?;
        assert responses[1].Some? ==> exists i :: 0 <= i < |responses| && responses[i].Some?;
        assert responses[2].Some? ==> exists i :: 0 <= i < |responses| && responses[i].Some?;
      }
    }
    r
  }

  // ---------------------------------------------------------------------------
  // Parsing road geometries
  // ---------------------------------------------------------------------------

  /** One Overpass element: its `type`, `id`, tags and `geometry` points. */
  datatype RawElement = RawElement(kind: string, id: int, tags: map<string, string>, geometry: seq<Point>)

  datatype Road = Road(
    id: int, name: string, highwayType: string, coords: seq<Point>,
    maxspeed: Option<string>, lanes: Option<string>, lit: string)

  function TagOr(tags: map<string, string>, k: string, default: string): string {
    if k in tags then tags[k] else default
  }

  function TagOpt(tags: map<string, string>, k: string): Option<string> {
    if k in tags then Some(tags[k]) else None
  }

  /** Only ways with at least two geometry points become roads. */
  predicate IsRoadWay(e: RawElement) {
    e.kind == "way" && |e.geometry| >= 2
  }

  function RoadOf(e: RawElement): Road {
    Road(e.id, TagOr(e.tags, "name", "Unnamed Road"), TagOr(e.tags, "highway", "unknown"),
         e.geometry, TagOpt(e.tags, "maxspeed"), TagOpt(e.tags, "lanes"), TagOr(e.tags, "lit", "unknown"))
  }

  function ParseWays(es: seq<RawElement>): (r: seq<Road>)
    ensures |r| <= |es|
    ensures forall x :: x in r ==> |x.coords| >= 2
  {
    if |es| == 0 then []
    else (if IsRoadWay(es[0]) then [RoadOf(es[0])] else []) + ParseWays(es[1..])
  }

  /** `parse_road_geometries`; `None` stands for a falsy response or one
      without `elements`, and yields no roads. */
  function ParseRoadGeometries(data: Option<seq<RawElement>>): (r: seq<Road>)
    ensures data.None? ==> r == []
    ensures data.Some? ==> |r| == Count(data.value, IsRoadWay)
    ensures data.Some? ==> forall x :: x in r <==> exists e :: e in data.value && IsRoadWay(e) && RoadOf(e) == x
  {
    match data
    case None => []
    case Some(es) =>
      ParseWaysCount(es);
      ParseWaysMembership(es);
      ParseWays(es)
  }

  lemma {:induction false} ParseWaysCount(es: seq<RawElement>)
    ensures |ParseWays(es)| == Count(es, IsRoadWay)
  {
    if |es| > 0 {
      ParseWaysCount(es[1..]);
    }
  }

  lemma {:induction false} ParseWaysMembership(es: seq<RawElement>)
    ensures forall x :: x in ParseWays(es) <==> exists e :: e in es && IsRoadWay(e) && RoadOf(e) == x
  {
    if |es| > 0 {
      ParseWaysMembership(es[1..]);
      forall x | x in ParseWays(es)
        ensures exists e :: e in es && IsRoadWay(e) && RoadOf(e) == x
      {
        if IsRoadWay(es[0]) && x == RoadOf(es[0]) {
        } else {
          var e :| e in es[1..] && IsRoadWay(e) && RoadOf(e) == x;
          assert e in es;
        }
      }
      forall x | exists e :: e in es && IsRoadWay(e) && RoadOf(e) == x
        ensures x in ParseWays(es)
      {
        var e :| e in es && IsRoadWay(e) && RoadOf(e) == x;
        if e != es[0] {
          assert e in es[1..];
        }
      }
    }
  }

  /** Roads keep their input order: parsing distributes over concatenation. */
  lemma {:induction false} ParseWaysConcat(a: seq<RawElement>, b: seq<RawElement>)
    ensures ParseWays(a + b) == ParseWays(a) + ParseWays(b)
  {
    if |a| == 0 {
      assert a + b == b;
    } else {
      var head := if IsRoadWay(a[0]) then [RoadOf(a[0])] else [];
      assert (a + b)[0] == a[0];
      assert (a + b)[1..] == a[1..] + b;
      ParseWaysConcat(a[1..], b);
      assert ParseWays(a + b) == head + ParseWays(a[1..] + b);
      assert ParseWays(a) == head + ParseWays(a[1..]);
    }
  }

  /** Missing tags take their defaults. */
  lemma UntaggedWayDefaults(id: int, geometry: seq<Point>)
    requires |geometry| >= 2
    ensures ParseRoadGeometries(Some([RawElement("way", id, map[], geometry)]))
            == [Road(id, "Unnamed Road", "unknown", geometry, None, None, "unknown")]
  {
  }

  // ---------------------------------------------------------------------------
  // Sample points
  // ---------------------------------------------------------------------------

  /** One sample point. Which fields are present depends on where the point
      came from: a road, the grid fallback, or reverse geocoding. */
  datatype SamplePoint = SamplePoint(
    location: Point, roadId: Option<int>, roadName: string, highwayType: string,
    roadLit: Option<string>, position: Option<real>, source: Option<string>,
    geocoded: Option<bool>, municipality: Option<string>, subdivision: Option<string>,
    postalCode: Option<string>, speedLimitKmh: Option<int>)

  // ---------------------------------------------------------------------------
  // Grid fallback
  // ---------------------------------------------------------------------------

  /** `int(math.sqrt(n))`: the integer square root. */
  function ISqrt(n: nat): (r: nat)
    ensures r * r <= n < (r + 1) * (r + 1)
  {
    if n == 0 then 0
    else
      var s := ISqrt(n - 1);
      if (s + 1) * (s + 1) <= n then s + 1 else s
  }

  lemma SquareMonotone(a: nat, b: nat)
    requires a <= b
    ensures a * a <= b * b
  {
    assert a * a <= a * b by {
      assert a * (b - a) >= 0;
    }
    assert a * b <= b * b by {
      assert (b - a) * b >= 0;
    }
  }

  /** The integer square root is the only r with r² <= n < (r+1)². */
  lemma ISqrtUnique(n: nat, r: nat)
    requires r * r <= n < (r + 1) * (r + 1)
    ensures ISqrt(n) == r
  {
    var s := ISqrt(n);
    if s < r {
      SquareMonotone(s + 1, r);
    } else if s > r {
      SquareMonotone(r + 1, s);
    }
  }

  function GridPoint(b: BBox, g: nat, i: nat, j: nat): SamplePoint {
    var latStep := (b.maxLat - b.minLat) / (g + 1) as real;
    var lonStep := (b.maxLon - b.minLon) / (g + 1) as real;
    SamplePoint(Point(b.minLat + i as real * latStep, b.minLon + j as real * lonStep),
                None, "Grid Sample", "grid", None, None, Some("grid_fallback"),
                None, None, None, None, None)
  }

  /** Row `i` of the grid: columns 1..g. */
  function GridRow(b: BBox, g: nat, i: nat): (r: seq<SamplePoint>)
    ensures |r| == g
  {
    seq(g, j requires 0 <= j < g => GridPoint(b, g, i, j + 1))
  }

  /** Rows 1..n of the grid, row after row. */
  function GridRows(b: BBox, g: nat, n: nat): (r: seq<SamplePoint>)
    ensures |r| == n * g
  {
    if n == 0 then [] else GridRows(b, g, n - 1) + GridRow(b, g, n)
  }

  /** Strictly between the bounds on both axes. */
  predicate StrictlyInside(p: Point, b: BBox) {
    b.minLat < p.lat < b.maxLat && b.minLon < p.lon < b.maxLon
  }

  lemma StepInside(lo: real, hi: real, g: nat, i: nat)
    requires lo < hi && 1 <= i <= g
    ensures lo < lo + i as real * ((hi - lo) / (g + 1) as real) < hi
  {
    var step := (hi - lo) / (g + 1) as real;
    assert step > 0.0;
    assert i as real * step <= g as real * step by {
      assert (g - i) as real * step >= 0.0;
    }
    assert (g + 1) as real * step == hi - lo;
  }

  lemma {:induction false} GridRowsInside(b: BBox, g: nat, n: nat)
    requires b.minLat < b.maxLat && b.minLon < b.maxLon && n <= g
    ensures forall k :: 0 <= k < |GridRows(b, g, n)| ==> StrictlyInside(GridRows(b, g, n)[k].location, b)
  {
    if n > 0 {
      GridRowsInside(b, g, n - 1);
      forall j | 1 <= j <= g ensures StrictlyInside(GridPoint(b, g, n, j).location, b) {
        StepInside(b.minLat, b.maxLat, g, n);
        StepInside(b.minLon, b.maxLon, g, j);
      }
      var row := GridRow(b, g, n);
      assert forall k :: 0 <= k < |row| ==> row[k] == GridPoint(b, g, n, k + 1);
    }
  }

  lemma MulLeft(a: nat, b: nat, c: nat)
    requires a <= b
    ensures a * c <= b * c
  {
    var d := b - a;
    assert b * c == a * c + d * c;
  }

  lemma RowColBound(g: nat, i: nat, j: nat)
    requires 1 <= i <= g && 1 <= j <= g
    ensures (i - 1) * g + j <= g * g
    ensures (i - 1) * g + j == g * g ==> i == g && j == g
  {
    var a: nat := i - 1;
    var top: nat := g - 1;
    MulLeft(a, top, g);
    assert top * g + g == g * g;
    if a < top {
      MulLeft(a + 1, top, g);
      assert (a + 1) * g == a * g + g;
    }
  }

  /** `generate_grid_samples`: a g-by-g grid for g = ⌊√maxPoints⌋, in
      row-major order, stopping early once the budget is reached (which
      never happens before the grid is complete). */
  method GenerateGridSamples(b: BBox, maxPoints: nat) returns (pts: seq<SamplePoint>)
    ensures pts == GridRows(b, ISqrt(maxPoints), ISqrt(maxPoints))
    ensures |pts| == ISqrt(maxPoints) * ISqrt(maxPoints) <= maxPoints
  {
    var g := ISqrt(maxPoints);
    pts := [];
    var i := 1;
    while i <= g
      invariant 1 <= i <= g + 1
      invariant pts == GridRows(b, g, i - 1)
    {
      var j := 1;
      var stop := false;
      while j <= g
        invariant 1 <= j <= g + 1
        invariant pts == GridRows(b, g, i - 1) + GridRow(b, g, i)[..j - 1]
        invariant |pts| == (i - 1) * g + (j - 1)
      {
        assert GridRow(b, g, i)[..j] == GridRow(b, g, i)[..j - 1] + [GridPoint(b, g, i, j)];
        pts := pts + [GridPoint(b, g, i, j)];
        if |pts| >= maxPoints {
          RowColBound(g, i, j);
          stop := true;
          break;
        }
        j := j + 1;
      }
      assert GridRow(b, g, i)[..g] == GridRow(b, g, i);
      assert pts == GridRows(b, g, i);
      if stop {
        assert i == g;
        return;
      }
      i := i + 1;
    }
  }

  /** Every grid point lies strictly inside a proper bbox and carries the
      fallback tag. */
  lemma GridInside(b: BBox, maxPoints: nat)
    requires b.minLat < b.maxLat && b.minLon < b.maxLon
    ensures var g := ISqrt(maxPoints);
      forall k :: 0 <= k < |GridRows(b, g, g)| ==>
        StrictlyInside(GridRows(b, g, g)[k].location, b) && GridRows(b, g, g)[k].source == Some("grid_fallback")
  {
    var g := ISqrt(maxPoints);
    GridRowsInside(b, g, g);
    GridRowsTagged(b, g, g);
  }

  lemma {:induction false} GridRowsTagged(b: BBox, g: nat, n: nat)
    ensures forall k :: 0 <= k < |GridRows(b, g, n)| ==> GridRows(b, g, n)[k].source == Some("grid_fallback")
  {
    if n > 0 {
      GridRowsTagged(b, g, n - 1);
    }
  }

  /** The default budget of 150 gives a 12-by-12 grid of 144 points. */
  lemma GridExample(b: BBox)
    ensures ISqrt(150) == 12
    ensures |GridRows(b, ISqrt(150), ISqrt(150))| == 144
  {
    ISqrtUnique(150, 12);
  }

  // ---------------------------------------------------------------------------
  // Sampling along roads
  // ---------------------------------------------------------------------------

  function RoadPoint(road: Road, at: Point, position: Option<real>): SamplePoint {
    SamplePoint(at, Some(road.id), road.name, road.highwayType, Some(road.lit), position,
                None, None, None, None, None, None)
  }

  /** The number of points a road yields: one centre point when it is
      shorter than half the interval, otherwise ⌊L/interval⌋ + 1. */
  function SampleCount(length: real, interval: real): (n: nat)
    requires interval > 0.0
  {
    if length < interval * 0.5 then 1
    else
      var whole := (length / interval).Floor;
      if whole < 0 then 1 else whole + 1
  }

  lemma ShortRoadCount(length: real, interval: real)
    requires interval > 0.0 && length < interval * 0.5
    ensures SampleCount(length, interval) == 1
  {
  }

  lemma FloorStep(length: real, interval: real, i: nat)
    requires interval > 0.0 && i <= (length / interval).Floor
    ensures i as real * interval <= length
  {
    var q := length / interval;
    assert i as real <= q;
    assert q * interval == length;
    assert (q - i as real) * interval >= 0.0;
  }

  lemma PositionInRange(length: real, interval: real, i: nat)
    requires interval > 0.0 && length >= interval * 0.5 && i <= (length / interval).Floor
    ensures 0.0 <= i as real * interval / length <= 1.0
  {
    FloorStep(length, interval, i);
    var d := i as real * interval;
    assert 0.0 <= d <= length;
    assert d / length <= length / length;
  }

  /** The points a road yields at regular intervals, the i-th at distance
      i·interval with its relative position on the road. */
  function IntervalPoints(road: Road, length: real, interval: real, at: real -> Point): (r: seq<SamplePoint>)
    requires interval > 0.0 && length >= interval * 0.5
    ensures |r| == SampleCount(length, interval)
    ensures forall i :: 0 <= i < |r| ==> r[i].roadId == Some(road.id) && r[i].highwayType == road.highwayType
  {
    var n := ((length / interval).Floor + 1) as nat;
    var r := seq(n, i requires 0 <= i < n => IntervalPoint(road, length, interval, at, i));
    assert forall i :: 0 <= i < n ==> r[i] == IntervalPoint(road, length, interval, at, i);
    r
  }

  function IntervalPoint(road: Road, length: real, interval: real, at: real -> Point, i: nat): SamplePoint
    requires length != 0.0
  {
    RoadPoint(road, at(i as real * interval), Some(i as real * interval / length))
  }

  /** Every interval point lies on the road: its position is in [0,1]. */
  lemma IntervalPositions(road: Road, length: real, interval: real, at: real -> Point)
    requires interval > 0.0 && length >= interval * 0.5
    ensures forall i :: 0 <= i < |IntervalPoints(road, length, interval, at)| ==>
      var p := IntervalPoints(road, length, interval, at)[i];
      p.position.Some? && 0.0 <= p.position.value <= 1.0
  {
    var pts := IntervalPoints(road, length, interval, at);
    forall i | 0 <= i < |pts|
      ensures pts[i].position.Some? && 0.0 <= pts[i].position.value <= 1.0
    {
      assert pts[i] == IntervalPoint(road, length, interval, at, i);
      PositionInRange(length, interval, i);
    }
  }

  /** The points of one road. `at` interpolates at an absolute distance along
      it; `length` is its length in degrees. The loop's early exit for a
      distance beyond the road is never taken. */
  method SampleRoad(road: Road, length: real, interval: real, at: real -> Point)
    returns (pts: seq<SamplePoint>)
    requires interval > 0.0
    ensures |pts| == SampleCount(length, interval)
    ensures length < interval * 0.5 ==> pts == [RoadPoint(road, at(length * 0.5), None)]
    ensures length >= interval * 0.5 ==> pts == IntervalPoints(road, length, interval, at)
    ensures forall i :: 0 <= i < |pts| ==> pts[i].roadId == Some(road.id) && pts[i].highwayType == road.highwayType
  {
    if length < interval * 0.5 {
      pts := [RoadPoint(road, at(length * 0.5), None)];
      ShortRoadCount(length, interval);
      return;
    }
    var n := (length / interval).Floor + 1;
    ghost var expected := IntervalPoints(road, length, interval, at);
    pts := [];
    var i := 0;
    while i < n
      invariant 0 <= i <= n && pts == expected[..i]
    {
      var distance := i as real * interval;
      FloorStep(length, interval, i);
      if distance > length {
        break;
      }
      pts := pts + [IntervalPoint(road, length, interval, at, i)];
      i := i + 1;
    }
    assert expected[..n] == expected;
  }

  /** Points of the default interval class: motorway 1, trunk 2, primary 3,
      secondary 4 (links included), anything else 999. */
  function Priority(p: SamplePoint): (k: real)
    ensures k in {1.0, 2.0, 3.0, 4.0, 999.0}
    ensures k == 999.0 <==>
      p.highwayType !in {"motorway", "motorway_link", "trunk", "trunk_link",
                         "primary", "primary_link", "secondary", "secondary_link"}
  {
    var m := map["motorway" := 1.0, "motorway_link" := 1.0, "trunk" := 2.0, "trunk_link" := 2.0,
                 "primary" := 3.0, "primary_link" := 3.0, "secondary" := 4.0, "secondary_link" := 4.0];
    if p.highwayType in m then m[p.highwayType] else 999.0
  }

  function MinNat(a: nat, b: nat): nat {
    if a <= b then a else b
  }

  /** `_prioritize_points`: the first `maxPoints` of a stable sort by priority. */
  function PrioritizePoints(points: seq<SamplePoint>, maxPoints: nat): (r: seq<SamplePoint>)
    ensures |r| == MinNat(|points|, maxPoints)
    ensures multiset(r) <= multiset(points)
  {
    var sorted := SortBy(points, Priority);
    SortFacts(points, Priority);
    var r := sorted[..MinNat(|points|, maxPoints)];
    assert sorted == r + sorted[|r|..];
    assert multiset(sorted) == multiset(r) + multiset(sorted[|r|..]);
    r
  }

  /** No kept point has a worse priority than a dropped one. */
  lemma PrioritizeKeepsBest(points: seq<SamplePoint>, maxPoints: nat)
    ensures var sorted := SortBy(points, Priority);
      var kept := PrioritizePoints(points, maxPoints);
      forall i, j :: 0 <= i < |kept| <= j < |sorted| ==> Priority(kept[i]) <= Priority(sorted[j])
  {
    SortFacts(points, Priority);
  }

  /** Among points of equal priority, the ones kept are the earliest ones in
      the input: the sort is stable. */
  lemma PrioritizeStable(points: seq<SamplePoint>, maxPoints: nat, k: real)
    ensures var kept := Bucket(PrioritizePoints(points, maxPoints), Priority, k);
      |kept| <= |Bucket(points, Priority, k)| && kept == Bucket(points, Priority, k)[..|kept|]
  {
    var sorted := SortBy(points, Priority);
    SortFacts(points, Priority);
    var m := MinNat(|points|, maxPoints);
    assert sorted == sorted[..m] + sorted[m..];
    BucketConcat(sorted[..m], sorted[m..], Priority, k);
  }

  /** The points one road contributes, as `SampleRoad` computes them. */
  function RoadSamples(road: Road, length: real, interval: real, at: real -> Point): seq<SamplePoint>
    requires interval > 0.0
  {
    if length < interval * 0.5 then [RoadPoint(road, at(length * 0.5), None)]
    else IntervalPoints(road, length, interval, at)
  }

  /** Every road's points, road after road, before any reduction. */
  function SampleRoads(roads: seq<Road>, length: Road -> real, at: Road -> real -> Point,
                       interval: real): (r: seq<SamplePoint>)
    requires interval > 0.0
    ensures forall p :: p in r ==> exists x :: x in roads && p.roadId == Some(x.id)
  {
    if |roads| == 0 then []
    else
      var last := roads[|roads| - 1];
      var init := SampleRoads(roads[..|roads| - 1], length, at, interval);
      var more := RoadSamples(last, length(last), interval, at(last));
      assert forall p :: p in more ==> p.roadId == Some(last.id);
      assert forall x :: x in roads[..|roads| - 1] ==> x in roads;
      init + more
  }

  /** `sample_points_along_roads` with the road lengths and interpolation as
      oracles and the interval already converted to degrees. */
  method SamplePointsAlongRoads(roads: seq<Road>, length: Road -> real, at: Road -> real -> Point,
                                interval: real, maxPoints: nat)
    returns (pts: seq<SamplePoint>)
    requires interval > 0.0
    ensures |pts| <= maxPoints
    ensures var all := SampleRoads(roads, length, at, interval);
      (|all| <= maxPoints ==> pts == all) && (|all| > maxPoints ==> pts == PrioritizePoints(all, maxPoints))
    ensures forall p :: p in pts ==> exists r :: r in roads && p.roadId == Some(r.id)
  {
    var all := CollectSamples(roads, length, at, interval);
    if |all| > maxPoints {
      pts := PrioritizePoints(all, maxPoints);
      PrioritizedFromInput(all, maxPoints);
    } else {
      pts := all;
    }
  }

  /** The sampling loop: every road's points, road after road. */
  method CollectSamples(roads: seq<Road>, length: Road -> real, at: Road -> real -> Point, interval: real)
    returns (all: seq<SamplePoint>)
    requires interval > 0.0
    ensures all == SampleRoads(roads, length, at, interval)
  {
    all := [];
    var k := 0;
    while k < |roads|
      invariant 0 <= k <= |roads|
      invariant all == SampleRoads(roads[..k], length, at, interval)
    {
      var road := roads[k];
      var more := SampleRoad(road, length(road), interval, at(road));
      assert more == RoadSamples(road, length(road), interval, at(road));
      SampleRoadsStep(roads, k, length, at, interval);
      all := all + more;
      k := k + 1;
    }
    assert roads[..k] == roads;
  }

  /** Sampling one more road of a prefix appends that road's points. */
  lemma SampleRoadsStep(roads: seq<Road>, k: nat, length: Road -> real, at: Road -> real -> Point, interval: real)
    requires interval > 0.0 && k < |roads|
    ensures SampleRoads(roads[..k + 1], length, at, interval)
            == SampleRoads(roads[..k], length, at, interval) + RoadSamples(roads[k], length(roads[k]), interval, at(roads[k]))
  {
    assert roads[..k + 1][..k] == roads[..k];
  }

  /** Every prioritised point is one of the input points. */
  lemma PrioritizedFromInput(points: seq<SamplePoint>, maxPoints: nat)
    ensures forall p :: p in PrioritizePoints(points, maxPoints) ==> p in points
  {
    var r := PrioritizePoints(points, maxPoints);
    forall p | p in r ensures p in points {
      assert p in multiset(r);
    }
  }

  // ---------------------------------------------------------------------------
  // Reverse-geocoding enrichment
  // ---------------------------------------------------------------------------

  /** The first address of a TomTom reverse-geocoding response. */
  datatype TomTomAddress = TomTomAddress(
    streetName: Option<string>, localName: Option<string>, municipality: Option<string>,
    countrySubdivision: Option<string>, postalCode: Option<string>,
    speedLimit: Option<ApiClients.SpeedLimitValue>)

  /** `address.get('streetName') or address.get('localName')`. */
  function StreetName(a: TomTomAddress): Option<string> {
    if a.streetName.Some? && a.streetName.value != "" then a.streetName else a.localName
  }

  /** A speed limit that `int` accepts: the leading token of a text, or a
      number truncated toward zero. */
  function EnrichSpeedLimit(v: ApiClients.SpeedLimitValue): (r: Option<int>)
    ensures v.LimitNumber? ==> r == Some(Trunc(v.n))
    ensures v.LimitText? ==>
      var tok := FirstToken(v.text);
      (r.None? <==> tok.None? || !IsIntLiteral(tok.value)) && (r.Some? ==> r == ParseInt(tok.value))
  {
    match v
    case LimitNumber(n) => Some(Trunc(n))
    case LimitText(t) =>
      match FirstToken(t)
      case None => None
      case Some(tok) => ParseInt(tok)
  }

  /** A street name good enough to replace the road's own: present,
      non-empty and not the literal "Unknown". */
  predicate UsableStreet(a: TomTomAddress) {
    var street := StreetName(a);
    street.Some? && street.value != "" && street.value != "Unknown"
  }

  /** The speed limit an address contributes, if any. */
  function AddressLimit(a: TomTomAddress): (r: Option<int>)
    ensures a.speedLimit.None? ==> r.None?
  {
    if a.speedLimit.Some? then EnrichSpeedLimit(a.speedLimit.value) else None
  }

  /** One point after its reverse-geocoding `response` (None when the call
      failed or the response has no `addresses`). */
  function EnrichPoint(p: SamplePoint, response: Option<seq<TomTomAddress>>): (r: SamplePoint)
    ensures r.location == p.location && r.roadId == p.roadId && r.highwayType == p.highwayType
    ensures r.roadLit == p.roadLit && r.position == p.position && r.source == p.source
    ensures response.None? || response == Some([]) ==> r == p.(geocoded := Some(false))
    ensures r.roadName != p.roadName ==> r.geocoded == Some(true) && r.roadName != "Unknown" && r.roadName != ""
    ensures response.Some? && |response.value| > 0 ==>
      var a := response.value[0];
      (UsableStreet(a) ==> r.roadName == StreetName(a).value && r.geocoded == Some(true))
      && (!UsableStreet(a) ==> r.roadName == p.roadName && r.geocoded == p.geocoded)
      && r.municipality == Some(a.municipality.GetOr(""))
      && r.subdivision == Some(a.countrySubdivision.GetOr(""))
      && r.postalCode == Some(a.postalCode.GetOr(""))
      && (AddressLimit(a).Some? ==> r.speedLimitKmh == AddressLimit(a))
      && (AddressLimit(a).None? ==> r.speedLimitKmh == p.speedLimitKmh)
  {
    match response
    case None => p.(geocoded := Some(false))
    case Some(addresses) =>
      if |addresses| == 0 then p.(geocoded := Some(false))
      else
        var a := addresses[0];
        var named := if UsableStreet(a) then p.(roadName := StreetName(a).value, geocoded := Some(true)) else p;
        var meta := named.(municipality := Some(a.municipality.GetOr("")),
                           subdivision := Some(a.countrySubdivision.GetOr("")),
                           postalCode := Some(a.postalCode.GetOr("")));
        var limit := AddressLimit(a);
        if limit.Some? then meta.(speedLimitKmh := limit) else meta
  }

  /** Enriching keeps every point's location and road id. */
  lemma EnrichedKeepsPlaces(points: seq<SamplePoint>, r: seq<SamplePoint>, reverse: Point -> Option<seq<TomTomAddress>>)
    requires |r| == |points|
    requires forall k :: 0 <= k < |r| ==> r[k] == EnrichPoint(points[k], reverse(points[k].location))
    ensures forall k :: 0 <= k < |r| ==> r[k].location == points[k].location && r[k].roadId == points[k].roadId
  {
  }

  /** `enrich_with_tomtom_geocoding`: the first `maxPoints` points are
      geocoded through the `reverse` oracle, the rest are appended unchanged. */
  method EnrichWithGeocoding(points: seq<SamplePoint>, reverse: Point -> Option<seq<TomTomAddress>>, maxPoints: nat)
    returns (r: seq<SamplePoint>)
    ensures |r| == |points|
    ensures forall i :: 0 <= i < |r| ==> r[i].location == points[i].location && r[i].roadId == points[i].roadId
    ensures forall i :: maxPoints <= i < |r| ==> r[i] == points[i]
    ensures forall i :: 0 <= i < |r| && i < maxPoints ==> r[i] == EnrichPoint(points[i], reverse(points[i].location))
  {
    var head := points[..MinNat(|points|, maxPoints)];
    r := [];
    var i := 0;
    while i < |head|
      invariant 0 <= i <= |head| && |r| == i
      invariant forall k :: 0 <= k < i ==> r[k] == EnrichPoint(points[k], reverse(points[k].location))
    {
      var e := EnrichPoint(head[i], reverse(head[i].location));
      r := r + [e];
      i := i + 1;
    }
    EnrichedKeepsPlaces(points[..i], r, reverse);
    if |points| > maxPoints {
      r := r + points[maxPoints..];
    }
  }
}
