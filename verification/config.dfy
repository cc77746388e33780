/** The city-wide constants: the Pune bounding box and centre, the traffic
    sample points, cache lifetimes, risk weights and road-sampling settings. */
module Config {
  import opened Geo

  /** The five weights of the composite risk score. */
  datatype Weights = Weights(alpha: real, beta: real, gamma: real, delta: real, epsilon: real)

  predicate UnitWeight(w: real) {
    0.0 <= w <= 1.0
  }

  /** RISK_WEIGHTS: traffic, weather, infrastructure, POI and incident weights.
      Each lies in [0,1] and together they sum to 1. */
  function RiskWeights(): (w: Weights)
    ensures UnitWeight(w.alpha) && UnitWeight(w.beta) && UnitWeight(w.gamma)
    ensures UnitWeight(w.delta) && UnitWeight(w.epsilon)
    ensures w.alpha + w.beta + w.gamma + w.delta + w.epsilon == 1.0
  {
    Weights(0.25, 0.25, 0.15, 0.15, 0.20)
  }

  /** CACHE_TTL in seconds, per cached resource. */
  datatype CacheTtl = CacheTtl(traffic: nat, weather: nat, osm: nat)

  /** Traffic entries expire first (five minutes), then weather (half an hour),
      then map features (one day). */
  function CacheTtls(): (t: CacheTtl)
    ensures 0 < t.traffic < t.weather < t.osm
    ensures t.traffic == 5 * 60 && t.weather == 30 * 60 && t.osm == 24 * 60 * 60
  {
    CacheTtl(300, 1800, 86400)
  }

  /** PUNE_BBOX: a proper box that contains the city centre. */
  function PuneBBox(): (b: BBox)
    ensures b.minLat < b.maxLat && b.minLon < b.maxLon
    ensures InBBox(PuneCenter(), b)
  {
    BBox(18.4088, 73.7474, 18.6347, 73.9965)
  }

  /** PUNE_CENTER (Shivaji Nagar). */
  function PuneCenter(): Point {
    Point(18.5204, 73.8567)
  }

  /** TRAFFIC_SAMPLE_POINTS: 25 fixed sampling locations. All but the Hinjewadi
      IT Park entry (index 5, west of the box) lie inside PUNE_BBOX. */
  function TrafficSamplePoints(): (ps: seq<Point>)
    ensures |ps| == 25
    ensures forall i :: 0 <= i < |ps| ==> (InBBox(ps[i], PuneBBox()) <==> i != 5)
    ensures ps[0] == PuneCenter()
  {
    [ Point(18.5204, 73.8567), Point(18.5314, 73.8446), Point(18.5074, 73.8077),
      Point(18.5362, 73.8250), Point(18.5642, 73.9139),
      Point(18.5912, 73.7398), Point(18.4574, 73.8594), Point(18.5018, 73.9495),
      Point(18.5314, 73.8767), Point(18.4683, 73.8596), Point(18.5474, 73.8248),
      Point(18.5089, 73.8353), Point(18.5314, 73.7977),
      Point(18.5584, 73.7738), Point(18.4835, 73.8248), Point(18.4384, 73.8298),
      Point(18.6189, 73.8567),
      Point(18.5196, 73.8553), Point(18.5089, 73.8567), Point(18.5474, 73.9052),
      Point(18.4835, 73.9052), Point(18.5584, 73.8353), Point(18.4574, 73.8353),
      Point(18.5912, 73.8567), Point(18.4835, 73.7738) ]
  }

  /** ROAD_SAMPLING: sampling interval in metres, point budget and road classes. */
  datatype RoadSampling = RoadSampling(intervalMeters: nat, maxPoints: nat, roadTypes: seq<string>, cacheDays: nat)

  function RoadSamplingConfig(): (c: RoadSampling)
    ensures c.intervalMeters == 500 && c.maxPoints == 150 && c.cacheDays == 7
    ensures |c.roadTypes| == 6 && forall i :: 0 <= i < |c.roadTypes| ==> |c.roadTypes[i]| > 0
  {
    RoadSampling(500, 150,
      ["motorway", "motorway_link", "trunk", "trunk_link", "primary", "primary_link"], 7)
  }
}
