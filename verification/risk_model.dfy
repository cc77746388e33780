/** The road-segment risk scorer: five sub-scores in [0,1] (traffic anomaly,
    weather, infrastructure, points of interest, incidents) combined with the
    configured weights into a 0-100 score and a four-step risk level. */
module RiskModel {
  import opened Wrappers
  import opened Text
  import opened Seqs
  import opened Geo
  import Config
  import opened ApiClients

  /** `max(0.0, min(1.0, x))`. */
  function Clamp01(x: real): (r: real)
    ensures 0.0 <= r <= 1.0
    ensures 0.0 <= x <= 1.0 ==> r == x
    ensures x < 0.0 ==> r == 0.0
    ensures x > 1.0 ==> r == 1.0
  {
    if x < 0.0 then 0.0 else if x > 1.0 then 1.0 else x
  }

  function Max(a: real, b: real): real {
    if a >= b then a else b
  }

  function Min(a: real, b: real): real {
    if a <= b then a else b
  }

  lemma Clamp01Monotone(x: real, y: real)
    requires x <= y
    ensures Clamp01(x) <= Clamp01(y)
  {
  }

  // ---------------------------------------------------------------------------
  // Traffic anomaly
  // ---------------------------------------------------------------------------

  /** TomTom's `flowSegmentData`, with absent speeds as `None`. */
  datatype FlowSegment = FlowSegment(currentSpeed: Option<real>, freeFlowSpeed: Option<real>)

  function CurrentSpeed(f: FlowSegment): real {
    f.currentSpeed.GetOr(0.0)
  }

  /** A missing free-flow speed defaults to the current speed. */
  function FreeFlowSpeed(f: FlowSegment): real {
    f.freeFlowSpeed.GetOr(CurrentSpeed(f))
  }

  /** `calculate_traffic_anomaly`: the fraction of free-flow speed lost,
      clamped to [0,1], and at least 0.7 below 10 km/h. `flow` is `None` when
      the response is empty or has no `flowSegmentData`. */
  function TrafficAnomaly(flow: Option<FlowSegment>): (r: real)
    ensures 0.0 <= r <= 1.0
    ensures flow.None? || FreeFlowSpeed(flow.value) == 0.0 ==> r == 0.0
    ensures flow.Some? && FreeFlowSpeed(flow.value) != 0.0 && CurrentSpeed(flow.value) < 10.0 ==> r >= 0.7
    ensures flow.Some? && FreeFlowSpeed(flow.value) > 0.0 ==>
      r >= Clamp01((FreeFlowSpeed(flow.value) - CurrentSpeed(flow.value)) / FreeFlowSpeed(flow.value))
    // At or above 10 km/h the anomaly is exactly the clamped lost fraction.
    ensures flow.Some? && FreeFlowSpeed(flow.value) != 0.0 && CurrentSpeed(flow.value) >= 10.0 ==>
      r == Clamp01((FreeFlowSpeed(flow.value) - CurrentSpeed(flow.value)) / FreeFlowSpeed(flow.value))
    // Below 10 km/h it is the larger of that fraction and the 0.7 floor.
    ensures flow.Some? && FreeFlowSpeed(flow.value) != 0.0 && CurrentSpeed(flow.value) < 10.0 ==>
      var lost := Clamp01((FreeFlowSpeed(flow.value) - CurrentSpeed(flow.value)) / FreeFlowSpeed(flow.value));
      r >= lost && r >= 0.7 && (r == lost || r == 0.7)
  {
    match flow
    case None => 0.0
    case Some(f) =>
      var cur := CurrentSpeed(f);
      var ff := FreeFlowSpeed(f);
      if ff == 0.0 then 0.0
      else
        var a := Clamp01((ff - cur) / ff);
        if cur < 10.0 then Max(a, 0.7) else a
  }

  lemma DivMonotone(a: real, b: real, d: real)
    requires d > 0.0 && a <= b
    ensures a / d <= b / d
  {
    assert b / d - a / d == (b - a) / d;
  }

  /** For a fixed positive free-flow speed, a slower current speed never
      lowers the anomaly. */
  lemma TrafficAnomalyMonotone(ff: real, slower: real, faster: real)
    requires ff > 0.0 && slower <= faster
    ensures TrafficAnomaly(Some(FlowSegment(Some(slower), Some(ff))))
            >= TrafficAnomaly(Some(FlowSegment(Some(faster), Some(ff))))
  {
    DivMonotone(ff - faster, ff - slower, ff);
    Clamp01Monotone((ff - faster) / ff, (ff - slower) / ff);
  }

  /** The module's own sample: 20 km/h against 60 km/h free flow gives 2/3;
      a stopped segment scores at least 0.7 even when the ratio is lower. */
  lemma TrafficAnomalyExamples()
    ensures TrafficAnomaly(Some(FlowSegment(Some(20.0), Some(60.0)))) == 2.0 / 3.0
    ensures TrafficAnomaly(Some(FlowSegment(Some(8.0), Some(10.0)))) == 0.7
    ensures TrafficAnomaly(Some(FlowSegment(Some(40.0), None))) == 0.0
    ensures TrafficAnomaly(Some(FlowSegment(Some(80.0), Some(60.0)))) == 0.0
  {
  }

  // ---------------------------------------------------------------------------
  // Weather
  // ---------------------------------------------------------------------------

  /** The risk of each OpenWeatherMap main condition, in lower case. */
  const WeatherRiskTable: map<string, real> := map[
    "thunderstorm" := 0.9, "drizzle" := 0.5, "rain" := 0.7, "snow" := 0.8,
    "mist" := 0.6, "fog" := 0.8, "haze" := 0.5, "dust" := 0.6,
    "smoke" := 0.7, "clear" := 0.0, "clouds" := 0.2]

  /** Conditions outside the table score 0.2, like clouds. */
  function ConditionRisk(condition: string): (r: real)
    ensures 0.0 <= r <= 0.9
    ensures condition !in WeatherRiskTable ==> r == 0.2
    ensures condition == "thunderstorm" <==> r == 0.9
  {
    if condition in WeatherRiskTable then WeatherRiskTable[condition] else 0.2
  }

  /** 19:00 to 05:59 counts as night. */
  predicate IsNight(hour: int) {
    hour >= 19 || hour < 6
  }

  /** The condition read by the scorer: the first entry's `main`, "Clear"
      when absent, lower-cased; a missing `weather` key reads as `[{}]`. An
      empty `weather` list raises IndexError. */
  function WeatherCondition(d: WeatherData): Result<string> {
    var entries := d.weather.GetOr([WeatherEntry(None)]);
    if |entries| == 0 then Failure(IndexError) else Success(Lower(entries[0].main.GetOr("Clear")))
  }

  /** The least weather risk a visibility in metres allows: 0.8 under 1 km,
      0.5 under 5 km, no floor otherwise. */
  function VisibilityFloor(visibility: real): real {
    if visibility < 1000.0 then 0.8 else if visibility < 5000.0 then 0.5 else 0.0
  }

  function VisibilityAdjusted(base: real, visibility: real): real {
    if visibility < 1000.0 then Max(base, 0.8)
    else if visibility < 5000.0 then Max(base, 0.5)
    else base
  }

  /** `calculate_weather_risk` with the local hour passed in. `data` is `None`
      for an empty response. */
  function WeatherRisk(data: Option<WeatherData>, hour: int): (r: Result<real>)
    requires 0 <= hour < 24
    ensures data.None? ==> r == Success(0.0)
    ensures data.Some? ==> (r.Failure? <==> data.value.weather == Some([]))
    ensures r.Success? ==> 0.0 <= r.value <= 1.0
    ensures r.Success? && data.Some? && IsNight(hour) ==> r.value >= 0.3
    ensures r.Success? && data.Some? && data.value.visibility.GetOr(10000.0) < 1000.0 ==> r.value >= 0.8
    ensures r.Success? && data.Some? && data.value.visibility.GetOr(10000.0) < 5000.0 ==> r.value >= 0.5
    // The value: the condition's risk raised to the visibility floor, plus
    // the night penalty, capped at 1.
    ensures r.Success? && data.Some? ==>
      r.value == Min(1.0, Max(ConditionRisk(WeatherCondition(data.value).value),
                              VisibilityFloor(data.value.visibility.GetOr(10000.0)))
                          + (if IsNight(hour) then 0.3 else 0.0))
  {
    match data
    case None => Success(0.0)
    case Some(d) =>
      match WeatherCondition(d)
      case Failure(e) => Failure(e)
      case Success(condition) =>
        var risk := VisibilityAdjusted(ConditionRisk(condition), d.visibility.GetOr(10000.0));
        Success(if IsNight(hour) then Min(1.0, risk + 0.3) else risk)
  }

  /** Lower visibility never lowers the weather risk. */
  lemma WeatherVisibilityMonotone(weather: Option<seq<WeatherEntry>>, low: real, high: real, hour: int)
    requires 0 <= hour < 24 && low <= high
    requires WeatherRisk(Some(WeatherData(weather, Some(high))), hour).Success?
    ensures WeatherRisk(Some(WeatherData(weather, Some(low))), hour).Success?
    ensures WeatherRisk(Some(WeatherData(weather, Some(low))), hour).value
            >= WeatherRisk(Some(WeatherData(weather, Some(high))), hour).value
  {
  }

  /** At night the risk is the daytime risk plus 0.3, capped at 1. */
  lemma WeatherNightPenalty(d: WeatherData, night: int, day: int)
    requires 0 <= night < 24 && 0 <= day < 24
    requires IsNight(night) && !IsNight(day)
    ensures WeatherRisk(Some(d), night).Success? <==> WeatherRisk(Some(d), day).Success?
    ensures WeatherRisk(Some(d), day).Success? ==>
      WeatherRisk(Some(d), night).value == Min(1.0, WeatherRisk(Some(d), day).value + 0.3)
  {
  }

  /** The scorer's sample weather (rain, 3 km visibility) at noon and at 22:00. */
  lemma WeatherExamples()
    ensures WeatherRisk(Some(WeatherData(Some([WeatherEntry(Some("Rain"))]), Some(3000.0))), 12) == Success(0.7)
    ensures WeatherRisk(Some(WeatherData(Some([WeatherEntry(Some("Rain"))]), Some(3000.0))), 22) == Success(1.0)
    ensures WeatherRisk(Some(WeatherData(None, None)), 12) == Success(0.0)
  {
    assert Lower("Rain") == "rain";
    assert Lower("Clear") == "clear";
  }

  // ---------------------------------------------------------------------------
  // Infrastructure
  // ---------------------------------------------------------------------------

  /** The search radius for signals, junctions and crossings, in degrees. */
  const SearchRadius: real := 0.005

  /** An unlit-road point this close, in degrees, puts the location on it. */
  const UnlitThreshold: real := 0.001

  /** Degree-space distance `sqrt(dlat² + dlon²) <= radius`, compared squared. */
  predicate WithinDegrees(loc: Point, p: Point, radius: real) {
    SqDist(loc, p) <= radius * radius
  }

  predicate HasCoordinates(f: FeaturePoint) {
    f.lat.Some? && f.lon.Some?
  }

  function FeatureLocation(f: FeaturePoint): Point
    requires HasCoordinates(f)
  {
    Point(f.lat.value, f.lon.value)
  }

  /** `_count_nearby_features` as written: the `lat` and `lon` keys are always
      present in parsed features, so a null value reaches the subtraction and
      raises TypeError. */
  function CountNearbyAsWritten(loc: Point, fs: seq<FeaturePoint>, radius: real): (r: Result<nat>)
    ensures r.Success? <==> forall i :: 0 <= i < |fs| ==> HasCoordinates(fs[i])
  {
    if |fs| == 0 then Success(0)
    else if !HasCoordinates(fs[0]) then Failure(TypeError)
    else
      match CountNearbyAsWritten(loc, fs[1..], radius)
      case Failure(e) => Failure(e)
      case Success(n) => Success((if WithinDegrees(loc, FeatureLocation(fs[0]), radius) then 1 else 0) + n)
  }

  /** A feature counts when it has coordinates and lies within `radius`. */
  function IsNearFeature(loc: Point, radius: real): FeaturePoint -> bool {
    (f: FeaturePoint) => HasCoordinates(f) && WithinDegrees(loc, FeatureLocation(f), radius)
  }

  /** The corrected count: features whose coordinates are null are skipped,
      as features without the keys already are. */
  function CountNearby(loc: Point, fs: seq<FeaturePoint>, radius: real): (r: nat)
    ensures r == Count(fs, IsNearFeature(loc, radius))
    ensures r <= |fs|
  {
    |Filter(fs, IsNearFeature(loc, radius))|
  }

  /** Where the as-written count succeeds it agrees with the corrected one. */
  lemma {:induction false} CountNearbyAgrees(loc: Point, fs: seq<FeaturePoint>, radius: real)
    requires CountNearbyAsWritten(loc, fs, radius).Success?
    ensures CountNearbyAsWritten(loc, fs, radius).value == CountNearby(loc, fs, radius)
  {
    if |fs| > 0 {
      CountNearbyAgrees(loc, fs[1..], radius);
    }
  }

  lemma CountNearbyConcat(loc: Point, a: seq<FeaturePoint>, b: seq<FeaturePoint>, radius: real)
    ensures CountNearby(loc, a + b, radius) == CountNearby(loc, a, radius) + CountNearby(loc, b, radius)
  {
    FilterConcat(a, b, IsNearFeature(loc, radius));
  }

  /** `_is_on_unlit_road`: some geometry point lies strictly within 0.001°. */
  function OnUnlitRoad(loc: Point, roads: seq<seq<Point>>): (r: bool)
    ensures r <==> exists i, j :: 0 <= i < |roads| && 0 <= j < |roads[i]|
                                  && SqDist(loc, roads[i][j]) < UnlitThreshold * UnlitThreshold
  {
    if |roads| == 0 then false
    else NearPoint(loc, roads[0]) || OnUnlitRoad(loc, roads[1..])
  }

  function NearPoint(loc: Point, geometry: seq<Point>): (r: bool)
    ensures r <==> exists j :: 0 <= j < |geometry| && SqDist(loc, geometry[j]) < UnlitThreshold * UnlitThreshold
  {
    if |geometry| == 0 then false
    else SqDist(loc, geometry[0]) < UnlitThreshold * UnlitThreshold || NearPoint(loc, geometry[1..])
  }

  /** The four fixed penalties before the cap at 1. */
  function InfraPenalties(signals: nat, junctions: nat, unlit: bool, crossings: nat): (p: real)
    ensures 0.0 <= p <= 1.4
    ensures p == 0.0 <==> signals > 0 && junctions <= 2 && !unlit && crossings <= 3
  {
    (if signals == 0 then 0.3 else 0.0)
    + (if junctions > 2 then 0.4 else 0.0)
    + (if unlit then 0.5 else 0.0)
    + (if crossings > 3 then 0.2 else 0.0)
  }

  /** One entry of the scorer's `penalties` detail list. */
  datatype Penalty = Penalty(kind: string, amount: real)

  /** The `penalties` list the scorer reports, in the order it checks them. */
  function PenaltyList(signals: nat, junctions: nat, unlit: bool, crossings: nat): (ps: seq<Penalty>)
    ensures |ps| <= 4
  {
    (if signals == 0 then [Penalty("no_traffic_signal", 0.3)] else [])
    + (if junctions > 2 then [Penalty("complex_junction", 0.4)] else [])
    + (if unlit then [Penalty("unlit_road", 0.5)] else [])
    + (if crossings > 3 then [Penalty("multiple_crossings", 0.2)] else [])
  }

  function SumPenalties(ps: seq<Penalty>): real {
    if |ps| == 0 then 0.0 else ps[0].amount + SumPenalties(ps[1..])
  }

  lemma {:induction false} SumPenaltiesConcat(a: seq<Penalty>, b: seq<Penalty>)
    ensures SumPenalties(a + b) == SumPenalties(a) + SumPenalties(b)
  {
    if |a| == 0 {
      assert a + b == b;
    } else {
      assert (a + b)[1..] == a[1..] + b;
      SumPenaltiesConcat(a[1..], b);
    }
  }

  /** The uncapped risk is the total of the penalties the scorer reports. */
  lemma InfraPenaltiesReported(signals: nat, junctions: nat, unlit: bool, crossings: nat)
    ensures InfraPenalties(signals, junctions, unlit, crossings)
            == SumPenalties(PenaltyList(signals, junctions, unlit, crossings))
  {
    var a := if signals == 0 then [Penalty("no_traffic_signal", 0.3)] else [];
    var b := if junctions > 2 then [Penalty("complex_junction", 0.4)] else [];
    var c := if unlit then [Penalty("unlit_road", 0.5)] else [];
    var d := if crossings > 3 then [Penalty("multiple_crossings", 0.2)] else [];
    SumPenaltiesConcat(a, b);
    SumPenaltiesConcat(a + b, c);
    SumPenaltiesConcat(a + b + c, d);
  }

  /** `calculate_infrastructure_risk` as written, failing where a parsed
      feature carries null coordinates. `features` is `None` for no data. */
  function InfrastructureRiskAsWritten(loc: Point, features: Option<OsmFeatures>): (r: Result<real>)
    ensures features.None? ==> r == Success(0.0)
  {
    match features
    case None => Success(0.0)
    case Some(f) =>
      match CountNearbyAsWritten(loc, f.signals, SearchRadius)
      case Failure(e) => Failure(e)
      case Success(signals) =>
        match CountNearbyAsWritten(loc, f.junctions, SearchRadius)
        case Failure(e) => Failure(e)
        case Success(junctions) =>
          var unlit := OnUnlitRoad(loc, f.unlitRoads);
          match CountNearbyAsWritten(loc, f.crossings, SearchRadius)
          case Failure(e) => Failure(e)
          case Success(crossings) => Success(Min(1.0, InfraPenalties(signals, junctions, unlit, crossings)))
  }

  /** The infrastructure risk with null-coordinate features skipped. It is 0
      exactly when a signal is near, there are at most two junctions and three
      crossings near, and the location is not on an unlit road. */
  function InfrastructureRisk(loc: Point, features: Option<OsmFeatures>): (r: real)
    ensures 0.0 <= r <= 1.0
    ensures features.None? ==> r == 0.0
    ensures features.Some? ==>
      (r == 0.0 <==>
        CountNearby(loc, features.value.signals, SearchRadius) > 0
        && CountNearby(loc, features.value.junctions, SearchRadius) <= 2
        && !OnUnlitRoad(loc, features.value.unlitRoads)
        && CountNearby(loc, features.value.crossings, SearchRadius) <= 3)
    ensures features.Some? ==>
      r == Min(1.0, InfraPenalties(
        CountNearby(loc, features.value.signals, SearchRadius),
        CountNearby(loc, features.value.junctions, SearchRadius),
        OnUnlitRoad(loc, features.value.unlitRoads),
        CountNearby(loc, features.value.crossings, SearchRadius)))
  {
    match features
    case None => 0.0
    case Some(f) =>
      Min(1.0, InfraPenalties(
        CountNearby(loc, f.signals, SearchRadius),
        CountNearby(loc, f.junctions, SearchRadius),
        OnUnlitRoad(loc, f.unlitRoads),
        CountNearby(loc, f.crossings, SearchRadius)))
  }

  /** Whenever the as-written scorer returns, it returns the corrected value. */
  lemma InfrastructureRiskAgrees(loc: Point, features: Option<OsmFeatures>)
    requires InfrastructureRiskAsWritten(loc, features).Success?
    ensures InfrastructureRiskAsWritten(loc, features).value == InfrastructureRisk(loc, features)
  {
    if features.Some? {
      var f := features.value;
      CountNearbyAgrees(loc, f.signals, SearchRadius);
      CountNearbyAgrees(loc, f.junctions, SearchRadius);
      CountNearbyAgrees(loc, f.crossings, SearchRadius);
    }
  }

  /** The infrastructure risk is the reported penalty total capped at 1; a
      nearby signal, at most two junctions and three crossings, and a lit
      road leave the list empty. */
  lemma InfrastructureRiskReported(loc: Point, f: OsmFeatures)
    ensures var ps := PenaltyList(CountNearby(loc, f.signals, SearchRadius), CountNearby(loc, f.junctions, SearchRadius),
                                  OnUnlitRoad(loc, f.unlitRoads), CountNearby(loc, f.crossings, SearchRadius));
      InfrastructureRisk(loc, Some(f)) == Min(1.0, SumPenalties(ps))
      && (ps == [] <==> InfrastructureRisk(loc, Some(f)) == 0.0)
  {
    InfraPenaltiesReported(CountNearby(loc, f.signals, SearchRadius), CountNearby(loc, f.junctions, SearchRadius),
                           OnUnlitRoad(loc, f.unlitRoads), CountNearby(loc, f.crossings, SearchRadius));
  }

  /** A way tagged both `junction` and `lit=no` is parsed as a junction with
      null coordinates, and the as-written scorer raises on it. */
  lemma InfrastructureNullJunctionRaises(loc: Point)
    ensures var way := OsmElement(map["highway" := "primary", "junction" := "roundabout", "lit" := "no"],
                                  None, None, None, [loc]);
      var f := ParseFeatures(Some([way]));
      f.junctions == [FeaturePoint(None, None)]
      && InfrastructureRiskAsWritten(loc, Some(f)) == Failure(TypeError)
      && InfrastructureRisk(loc, Some(f)) == 0.3
  {
    var way := OsmElement(map["highway" := "primary", "junction" := "roundabout", "lit" := "no"],
                          None, None, None, [loc]);
    RoundaboutParsed(way);
    var g := OsmFeatures([], [FeaturePoint(None, None)], [], []);
    assert InfrastructureRiskAsWritten(loc, Some(g)) == Failure(TypeError);
    assert InfrastructureRisk(loc, Some(g)) == 0.3;
  }

  /** A way tagged `junction` is parsed into one junction without coordinates. */
  lemma RoundaboutParsed(way: OsmElement)
    requires way.tags == map["highway" := "primary", "junction" := "roundabout", "lit" := "no"]
    requires way.lat.None? && way.lon.None?
    ensures ParseFeatures(Some([way])) == OsmFeatures([], [FeaturePoint(None, None)], [], [])
  {
    assert FeatureKindOf(way) == Junction;
    assert [way][1..] == [];
  }

  /** More junctions never lower the risk; more signals never raise it. */
  lemma InfrastructureMonotone(loc: Point, f: OsmFeatures, extra: seq<FeaturePoint>)
    ensures InfrastructureRisk(loc, Some(f.(junctions := f.junctions + extra)))
            >= InfrastructureRisk(loc, Some(f))
    ensures InfrastructureRisk(loc, Some(f.(crossings := f.crossings + extra)))
            >= InfrastructureRisk(loc, Some(f))
    ensures InfrastructureRisk(loc, Some(f.(signals := f.signals + extra)))
            <= InfrastructureRisk(loc, Some(f))
  {
    CountNearbyConcat(loc, f.junctions, extra, SearchRadius);
    CountNearbyConcat(loc, f.crossings, extra, SearchRadius);
    CountNearbyConcat(loc, f.signals, extra, SearchRadius);
  }

  /** The scorer's sample: two nearby junctions and no signal give 0.3. */
  lemma InfrastructureExample()
    ensures InfrastructureRiskAsWritten(Point(18.5204, 73.8567), Some(SampleFeatures())) == Success(0.3)
  {
  }

  // ---------------------------------------------------------------------------
  // Incidents
  // ---------------------------------------------------------------------------

  /** Per-category counts of nearby incidents. */
  datatype Nearby = Nearby(
    accidents: nat, roadWorks: nat, closures: nat,
    weatherHazards: nat, trafficJams: nat, vehicleHazards: nat)
  {
    function Total(): nat {
      accidents + roadWorks + closures + weatherHazards + trafficJams + vehicleHazards
    }

    /** `nearby[key] += 1`, or KeyError for a key outside the six categories. */
    function Bump(key: string): (r: Result<Nearby>)
      ensures r.Success? <==> key in NearbyKeys
      ensures r.Success? ==> r.value.Total() == Total() + 1
    {
      if key == "accidents" then Success(this.(accidents := accidents + 1))
      else if key == "road_works" then Success(this.(roadWorks := roadWorks + 1))
      else if key == "closures" then Success(this.(closures := closures + 1))
      else if key == "weather_hazards" then Success(this.(weatherHazards := weatherHazards + 1))
      else if key == "traffic_jams" then Success(this.(trafficJams := trafficJams + 1))
      else if key == "vehicle_hazards" then Success(this.(vehicleHazards := vehicleHazards + 1))
      else Failure(KeyError(key))
    }
  }

  const NearbyKeys: set<string> :=
    {"accidents", "road_works", "closures", "weather_hazards", "traffic_jams", "vehicle_hazards"}

  const NoneNearby: Nearby := Nearby(0, 0, 0, 0, 0, 0)

  /** Weight of one nearby incident per category; closures weigh most. */
  function CategoryWeight(key: string): (w: real)
    ensures key in NearbyKeys ==> 0.4 <= w <= 1.0
    ensures key == "closures" <==> w == 1.0
  {
    if key == "accidents" then 0.8
    else if key == "closures" then 1.0
    else if key == "road_works" then 0.5
    else if key == "weather_hazards" then 0.7
    else if key == "traffic_jams" then 0.4
    else if key == "vehicle_hazards" then 0.6
    else 0.0
  }

  /** TomTom magnitude of delay to multiplier; unknown magnitudes count 0.5. */
  function SeverityMultiplier(severity: int): (m: real)
    ensures 0.2 <= m <= 0.9
    ensures !(0 <= severity <= 3) ==> m == 0.5
  {
    if severity == 0 then 0.2
    else if severity == 1 then 0.4
    else if severity == 2 then 0.6
    else if severity == 3 then 0.9
    else 0.5
  }

  /** The incident position as the scorer reads it: the first point of a list
      of `[lon, lat]` pairs, or a flat `[lon, lat]`; empty or one-element flat
      lists are skipped, and a short first pair raises IndexError. */
  function ScorerLocation(c: Coords): (r: Result<Option<Point>>)
    ensures r.Failure? <==> c.Nested? && |c.points| > 0 && |c.points[0]| < 2
    ensures c.Flat? && |c.values| >= 2 ==> r == Success(Some(Point(c.values[1], c.values[0])))
    ensures c.Nested? && |c.points| > 0 && |c.points[0]| >= 2 ==> r == Success(Some(Point(c.points[0][1], c.points[0][0])))
    ensures r == Success(None) <==> CoordsLength(c) == 0 || (c.Flat? && |c.values| < 2)
  {
    match c
    case Flat(v) => if |v| >= 2 then Success(Some(Point(v[1], v[0]))) else Success(None)
    case Nested(ps) =>
      if |ps| == 0 then Success(None)
      else if |ps[0]| < 2 then Failure(IndexError)
      else Success(Some(Point(ps[0][1], ps[0][0])))
  }

  /** The running state of the scan: raw risk sum and per-category counts. */
  datatype Tally = Tally(risk: real, nearby: Nearby)

  function ScanIncident(key: string, inc: IncidentInfo, loc: Point, radiusKm: real,
                        distKm: (Point, Point) -> real, acc: Tally): Result<Tally>
  {
    match ScorerLocation(inc.coordinates)
    case Failure(e) => Failure(e)
    case Success(None) => Success(acc)
    case Success(Some(p)) =>
      if distKm(loc, p) <= radiusKm then
        match acc.nearby.Bump(key)
        case Failure(e) => Failure(e)
        case Success(n) => Success(Tally(acc.risk + CategoryWeight(key) * SeverityMultiplier(inc.severity), n))
      else Success(acc)
  }

  function ScanCategory(key: string, incs: seq<IncidentInfo>, loc: Point, radiusKm: real,
                        distKm: (Point, Point) -> real, acc: Tally): Result<Tally>
  {
    if |incs| == 0 then Success(acc)
    else
      match ScanIncident(key, incs[0], loc, radiusKm, distKm, acc)
      case Failure(e) => Failure(e)
      case Success(t) => ScanCategory(key, incs[1..], loc, radiusKm, distKm, t)
  }

  /** The loop over the dictionary's items; the 'other' category is skipped. */
  function ScanItems(items: seq<(string, seq<IncidentInfo>)>, loc: Point, radiusKm: real,
                     distKm: (Point, Point) -> real, acc: Tally): Result<Tally>
  {
    if |items| == 0 then Success(acc)
    else if items[0].0 == "other" then ScanItems(items[1..], loc, radiusKm, distKm, acc)
    else
      match ScanCategory(items[0].0, items[0].1, loc, radiusKm, distKm, acc)
      case Failure(e) => Failure(e)
      case Success(t) => ScanItems(items[1..], loc, radiusKm, distKm, t)
  }

  /** The incident sub-score and the nearby counts it reports. */
  datatype IncidentScore = IncidentScore(risk: real, nearby: Nearby, count: nat)

  /** `calculate_incident_risk`. `items` are the categorised incidents in
      dictionary order (empty for no data); `distKm` is the haversine distance. */
  function IncidentRisk(loc: Point, items: seq<(string, seq<IncidentInfo>)>, radiusKm: real,
                        distKm: (Point, Point) -> real): (r: Result<IncidentScore>)
    ensures |items| == 0 ==> r == Success(IncidentScore(0.0, NoneNearby, 0))
    ensures r.Success? ==> 0.0 <= r.value.risk <= 1.0 && r.value.count == r.value.nearby.Total()
  {
    if |items| == 0 then Success(IncidentScore(0.0, NoneNearby, 0))
    else
      match ScanItems(items, loc, radiusKm, distKm, Tally(0.0, NoneNearby))
      case Failure(e) => Failure(e)
      case Success(t) => Success(IncidentScore(Clamp01(t.risk), t.nearby, t.nearby.Total()))
  }

  /** An incident counts when its position is readable and within the radius. */
  function IsNearIncident(loc: Point, radiusKm: real, distKm: (Point, Point) -> real): IncidentInfo -> bool {
    (inc: IncidentInfo) =>
      var l := ScorerLocation(inc.coordinates);
      l.Success? && l.value.Some? && distKm(loc, l.value.value) <= radiusKm
  }

  /** Reference count: nearby incidents over all categories except 'other'. */
  function NearIncidentCount(items: seq<(string, seq<IncidentInfo>)>, loc: Point, radiusKm: real,
                             distKm: (Point, Point) -> real): nat
  {
    if |items| == 0 then 0
    else (if items[0].0 == "other" then 0 else Count(items[0].1, IsNearIncident(loc, radiusKm, distKm)))
         + NearIncidentCount(items[1..], loc, radiusKm, distKm)
  }

  /** The weight one incident adds to the raw risk. */
  function IncidentWeight(key: string, inc: IncidentInfo): (w: real)
    ensures 0.0 <= w
  {
    CategoryWeight(key) * SeverityMultiplier(inc.severity)
  }

  /** Reference raw risk of one category: the weights of its nearby incidents. */
  function NearRisk(key: string, incs: seq<IncidentInfo>, loc: Point, radiusKm: real,
                    distKm: (Point, Point) -> real): (r: real)
    ensures 0.0 <= r
  {
    if |incs| == 0 then 0.0
    else (if IsNearIncident(loc, radiusKm, distKm)(incs[0]) then IncidentWeight(key, incs[0]) else 0.0)
         + NearRisk(key, incs[1..], loc, radiusKm, distKm)
  }

  /** Reference raw risk: the weights of the nearby incidents over every
      category except 'other'. */
  function NearIncidentRiskSum(items: seq<(string, seq<IncidentInfo>)>, loc: Point, radiusKm: real,
                               distKm: (Point, Point) -> real): (r: real)
    ensures 0.0 <= r
  {
    if |items| == 0 then 0.0
    else (if items[0].0 == "other" then 0.0 else NearRisk(items[0].0, items[0].1, loc, radiusKm, distKm))
         + NearIncidentRiskSum(items[1..], loc, radiusKm, distKm)
  }

  lemma {:induction false} ScanCategoryCounts(key: string, incs: seq<IncidentInfo>, loc: Point, radiusKm: real,
                                             distKm: (Point, Point) -> real, acc: Tally)
    requires ScanCategory(key, incs, loc, radiusKm, distKm, acc).Success?
    ensures var t := ScanCategory(key, incs, loc, radiusKm, distKm, acc).value;
      t.nearby.Total() == acc.nearby.Total() + Count(incs, IsNearIncident(loc, radiusKm, distKm))
      && t.risk == acc.risk + NearRisk(key, incs, loc, radiusKm, distKm)
  {
    if |incs| > 0 {
      var t := ScanIncident(key, incs[0], loc, radiusKm, distKm, acc).value;
      ScanCategoryCounts(key, incs[1..], loc, radiusKm, distKm, t);
    }
  }

  lemma {:induction false} ScanItemsCounts(items: seq<(string, seq<IncidentInfo>)>, loc: Point, radiusKm: real,
                                          distKm: (Point, Point) -> real, acc: Tally)
    requires ScanItems(items, loc, radiusKm, distKm, acc).Success?
    ensures var t := ScanItems(items, loc, radiusKm, distKm, acc).value;
      t.nearby.Total() == acc.nearby.Total() + NearIncidentCount(items, loc, radiusKm, distKm)
      && t.risk == acc.risk + NearIncidentRiskSum(items, loc, radiusKm, distKm)
  {
    if |items| > 0 {
      if items[0].0 == "other" {
        ScanItemsCounts(items[1..], loc, radiusKm, distKm, acc);
      } else {
        var t := ScanCategory(items[0].0, items[0].1, loc, radiusKm, distKm, acc).value;
        ScanCategoryCounts(items[0].0, items[0].1, loc, radiusKm, distKm, acc);
        ScanItemsCounts(items[1..], loc, radiusKm, distKm, t);
      }
    }
  }

  /** `incident_count` is the number of readable incidents within the radius
      over every category except 'other'. */
  lemma IncidentCountIsNearCount(loc: Point, items: seq<(string, seq<IncidentInfo>)>, radiusKm: real,
                                 distKm: (Point, Point) -> real)
    requires IncidentRisk(loc, items, radiusKm, distKm).Success?
    ensures IncidentRisk(loc, items, radiusKm, distKm).value.count == NearIncidentCount(items, loc, radiusKm, distKm)
  {
    if |items| > 0 {
      ScanItemsCounts(items, loc, radiusKm, distKm, Tally(0.0, NoneNearby));
    }
  }

  lemma {:induction false} ScanItemsConcat(a: seq<(string, seq<IncidentInfo>)>, b: seq<(string, seq<IncidentInfo>)>,
                                          loc: Point, radiusKm: real, distKm: (Point, Point) -> real, acc: Tally)
    requires ScanItems(a, loc, radiusKm, distKm, acc).Success?
    ensures ScanItems(a + b, loc, radiusKm, distKm, acc)
            == ScanItems(b, loc, radiusKm, distKm, ScanItems(a, loc, radiusKm, distKm, acc).value)
  {
    if |a| > 0 {
      assert (a + b)[0] == a[0];
      assert (a + b)[1..] == a[1..] + b;
      if a[0].0 == "other" {
        ScanItemsConcat(a[1..], b, loc, radiusKm, distKm, acc);
      } else {
        var t := ScanCategory(a[0].0, a[0].1, loc, radiusKm, distKm, acc).value;
        ScanItemsConcat(a[1..], b, loc, radiusKm, distKm, t);
      }
    } else {
      assert a + b == b;
    }
  }

  /** Unfolding helper for `IncidentRiskIsNearSum`: a successful incident
      sub-score is the clamped risk of the scan over all categories. */
  lemma IncidentRiskOfScan(loc: Point, items: seq<(string, seq<IncidentInfo>)>, radiusKm: real,
                           distKm: (Point, Point) -> real)
    requires |items| > 0
    requires IncidentRisk(loc, items, radiusKm, distKm).Success?
    ensures ScanItems(items, loc, radiusKm, distKm, Tally(0.0, NoneNearby)).Success?
    ensures IncidentRisk(loc, items, radiusKm, distKm).value.risk
            == Clamp01(ScanItems(items, loc, radiusKm, distKm, Tally(0.0, NoneNearby)).value.risk)
  {
  }

  /** The incident sub-score is the clamped total weight of the nearby
      incidents outside 'other'. */
  lemma IncidentRiskIsNearSum(loc: Point, items: seq<(string, seq<IncidentInfo>)>, radiusKm: real,
                              distKm: (Point, Point) -> real)
    requires IncidentRisk(loc, items, radiusKm, distKm).Success?
    ensures IncidentRisk(loc, items, radiusKm, distKm).value.risk
            == Clamp01(NearIncidentRiskSum(items, loc, radiusKm, distKm))
  {
    if |items| > 0 {
      IncidentRiskOfScan(loc, items, radiusKm, distKm);
      ScanItemsCounts(items, loc, radiusKm, distKm, Tally(0.0, NoneNearby));
    }
  }

  /** Reporting more incidents never lowers the incident risk. */
  lemma IncidentRiskMonotone(loc: Point, items: seq<(string, seq<IncidentInfo>)>,
                             more: seq<(string, seq<IncidentInfo>)>, radiusKm: real, distKm: (Point, Point) -> real)
    requires IncidentRisk(loc, items + more, radiusKm, distKm).Success?
    requires IncidentRisk(loc, items, radiusKm, distKm).Success?
    ensures IncidentRisk(loc, items + more, radiusKm, distKm).value.risk
            >= IncidentRisk(loc, items, radiusKm, distKm).value.risk
  {
    if |items| > 0 {
      var acc := Tally(0.0, NoneNearby);
      IncidentRiskOfScan(loc, items, radiusKm, distKm);
      IncidentRiskOfScan(loc, items + more, radiusKm, distKm);
      ScanItemsConcat(items, more, loc, radiusKm, distKm, acc);
      var t := ScanItems(items, loc, radiusKm, distKm, acc).value;
      var u := ScanItems(items + more, loc, radiusKm, distKm, acc).value;
      ScanItemsCounts(more, loc, radiusKm, distKm, t);
      Clamp01Monotone(t.risk, u.risk);
    }
  }

  /** Coordinates the scorer can read without IndexError. */
  predicate ReadableCoords(c: Coords) {
    ScorerLocation(c).Success?
  }

  lemma {:induction false} ScanCategoryNoFailure(key: string, incs: seq<IncidentInfo>, loc: Point, radiusKm: real,
                                                distKm: (Point, Point) -> real, acc: Tally)
    requires key in NearbyKeys
    requires forall i :: 0 <= i < |incs| ==> ReadableCoords(incs[i].coordinates)
    ensures ScanCategory(key, incs, loc, radiusKm, distKm, acc).Success?
  {
    if |incs| > 0 {
      var t := ScanIncident(key, incs[0], loc, radiusKm, distKm, acc).value;
      ScanCategoryNoFailure(key, incs[1..], loc, radiusKm, distKm, t);
    }
  }

  lemma {:induction false} ScanItemsNoFailure(items: seq<(string, seq<IncidentInfo>)>, loc: Point, radiusKm: real,
                                             distKm: (Point, Point) -> real, acc: Tally)
    requires forall i :: 0 <= i < |items| ==> items[i].0 in NearbyKeys || items[i].0 == "other"
    requires forall i, j :: 0 <= i < |items| && 0 <= j < |items[i].1| ==> ReadableCoords(items[i].1[j].coordinates)
    ensures ScanItems(items, loc, radiusKm, distKm, acc).Success?
  {
    if |items| > 0 {
      if items[0].0 != "other" {
        ScanCategoryNoFailure(items[0].0, items[0].1, loc, radiusKm, distKm, acc);
        var t := ScanCategory(items[0].0, items[0].1, loc, radiusKm, distKm, acc).value;
        ScanItemsNoFailure(items[1..], loc, radiusKm, distKm, t);
      } else {
        ScanItemsNoFailure(items[1..], loc, radiusKm, distKm, acc);
      }
    }
  }

  /** The TomTom buckets only use the six scored keys and 'other', so
      scoring them cannot raise KeyError; with readable coordinates it
      always succeeds. */
  lemma ParsedIncidentsScore(loc: Point, raws: seq<RawIncident>, radiusKm: real, distKm: (Point, Point) -> real)
    requires forall i :: 0 <= i < |raws| ==> ReadableCoords(raws[i].coordinates)
    ensures IncidentRisk(loc, ParseIncidents(Some(raws)).Items(), radiusKm, distKm).Success?
  {
    var b := ParseIncidents(Some(raws));
    var items := b.Items();
    forall i, j | 0 <= i < |items| && 0 <= j < |items[i].1|
      ensures ReadableCoords(items[i].1[j].coordinates)
    {
      assert items[i].1 == b.Get(IncidentCategories()[i]);
      BucketedFromInput(raws, IncidentCategories()[i], items[i].1[j]);
    }
    ScanItemsNoFailure(items, loc, radiusKm, distKm, Tally(0.0, NoneNearby));
  }

  /** A bucket keyed outside the six categories, such as the 'protests'
      bucket of the Supabase categoriser, raises KeyError as soon as one of
      its incidents is near. */
  lemma UnknownCategoryRaises(loc: Point, inc: IncidentInfo, distKm: (Point, Point) -> real)
    requires inc.coordinates == Flat([loc.lon, loc.lat]) && distKm(loc, loc) == 0.0
    ensures IncidentRisk(loc, [("protests", [inc])], 1.0, distKm) == Failure(KeyError("protests"))
  {
    var acc := Tally(0.0, NoneNearby);
    UnknownIncidentRaises(loc, inc, distKm);
    assert ScanCategory("protests", [inc], loc, 1.0, distKm, acc) == Failure(KeyError("protests"));
    assert ScanItems([("protests", [inc])], loc, 1.0, distKm, acc) == Failure(KeyError("protests"));
  }

  lemma UnknownIncidentRaises(loc: Point, inc: IncidentInfo, distKm: (Point, Point) -> real)
    requires inc.coordinates == Flat([loc.lon, loc.lat]) && distKm(loc, loc) == 0.0
    ensures ScanIncident("protests", inc, loc, 1.0, distKm, Tally(0.0, NoneNearby)) == Failure(KeyError("protests"))
  {
    assert ScorerLocation(inc.coordinates) == Success(Some(loc));
    assert "protests" !in NearbyKeys;
  }

  // ---------------------------------------------------------------------------
  // Composite score
  // ---------------------------------------------------------------------------

  datatype RiskLevel = Low | Medium | High | Critical

  function LevelRank(l: RiskLevel): nat {
    match l
    case Low => 0
    case Medium => 1
    case High => 2
    case Critical => 3
  }

  /** Level of the unrounded 0-100 score: critical from 80, high from 60,
      medium from 30, low below. */
  function LevelOf(score: real): (l: RiskLevel)
    ensures l == Critical <==> score >= 80.0
    ensures l == High <==> 60.0 <= score < 80.0
    ensures l == Medium <==> 30.0 <= score < 60.0
    ensures l == Low <==> score < 30.0
  {
    if score >= 80.0 then Critical
    else if score >= 60.0 then High
    else if score >= 30.0 then Medium
    else Low
  }

  /** A higher score never yields a lower level. */
  lemma LevelMonotone(a: real, b: real)
    requires a <= b
    ensures LevelRank(LevelOf(a)) <= LevelRank(LevelOf(b))
  {
  }

  datatype Components = Components(traffic: real, weather: real, infrastructure: real, poi: real, incidents: real)

  datatype Assessment = Assessment(score: real, level: RiskLevel, components: Components, incidentCount: nat)

  /** 100 times the weighted component sum, before clamping. */
  function WeightedSum(w: Config.Weights, c: Components): real {
    100.0 * (w.alpha * c.traffic + w.beta * c.weather + w.gamma * c.infrastructure
             + w.delta * c.poi + w.epsilon * c.incidents)
  }

  /** `max(0, min(100, x))`. */
  function Clamp100(x: real): (r: real)
    ensures 0.0 <= r <= 100.0
    ensures 0.0 <= x <= 100.0 ==> r == x
  {
    if x < 0.0 then 0.0 else if x > 100.0 then 100.0 else x
  }

  /** `calculate_risk_score`. `poiData` is `None` when no POI data is given,
      otherwise its `poi_risk_score` (absent reads as 0). Incidents are
      scored with a 1 km radius. */
  function RiskScore(loc: Point, traffic: Option<FlowSegment>, weather: Option<WeatherData>, hour: int,
                     osm: Option<OsmFeatures>, poiData: Option<Option<real>>,
                     incidents: seq<(string, seq<IncidentInfo>)>, distKm: (Point, Point) -> real)
    : (r: Result<Assessment>)
    requires 0 <= hour < 24
    ensures r.Success? <==> WeatherRisk(weather, hour).Success? && IncidentRisk(loc, incidents, 1.0, distKm).Success?
    ensures r.Success? ==> 0.0 <= r.value.score <= 100.0 && r.value.level == LevelOf(r.value.score)
    ensures r.Success? ==>
      r.value.score == Clamp100(WeightedSum(Config.RiskWeights(), r.value.components))
    ensures r.Success? ==>
      r.value.components == Components(TrafficAnomaly(traffic), WeatherRisk(weather, hour).value,
        InfrastructureRisk(loc, osm), if poiData.Some? then poiData.value.GetOr(0.0) else 0.0,
        IncidentRisk(loc, incidents, 1.0, distKm).value.risk)
  {
    match WeatherRisk(weather, hour)
    case Failure(e) => Failure(e)
    case Success(w) =>
      match IncidentRisk(loc, incidents, 1.0, distKm)
      case Failure(e) => Failure(e)
      case Success(inc) =>
        var c := Components(TrafficAnomaly(traffic), w, InfrastructureRisk(loc, osm),
                            if poiData.Some? then poiData.value.GetOr(0.0) else 0.0, inc.risk);
        var score := Clamp100(WeightedSum(Config.RiskWeights(), c));
        Success(Assessment(score, LevelOf(score), c, inc.count))
  }

  /** With every component in [0,1], the weights summing to 1 keep the
      weighted sum in [0,100], so the clamp changes nothing. */
  lemma WeightedSumInRange(c: Components)
    requires 0.0 <= c.traffic <= 1.0 && 0.0 <= c.weather <= 1.0 && 0.0 <= c.infrastructure <= 1.0
    requires 0.0 <= c.poi <= 1.0 && 0.0 <= c.incidents <= 1.0
    ensures 0.0 <= WeightedSum(Config.RiskWeights(), c) <= 100.0
    ensures Clamp100(WeightedSum(Config.RiskWeights(), c)) == WeightedSum(Config.RiskWeights(), c)
  {
    var w := Config.RiskWeights();
    assert w == Config.Weights(0.25, 0.25, 0.15, 0.15, 0.20);
    assert 0.0 <= 0.25 * c.traffic <= 0.25;
    assert 0.0 <= 0.25 * c.weather <= 0.25;
    assert 0.0 <= 0.15 * c.infrastructure <= 0.15;
    assert 0.0 <= 0.15 * c.poi <= 0.15;
    assert 0.0 <= 0.20 * c.incidents <= 0.20;
  }

  /** With a POI score in [0,1] the composite is never clamped. */
  lemma RiskScoreUnclamped(loc: Point, traffic: Option<FlowSegment>, weather: Option<WeatherData>, hour: int,
                           osm: Option<OsmFeatures>, poiData: Option<Option<real>>,
                           incidents: seq<(string, seq<IncidentInfo>)>, distKm: (Point, Point) -> real)
    requires 0 <= hour < 24
    requires poiData.Some? ==> 0.0 <= poiData.value.GetOr(0.0) <= 1.0
    ensures var r := RiskScore(loc, traffic, weather, hour, osm, poiData, incidents, distKm);
      r.Success? ==> r.value.score == WeightedSum(Config.RiskWeights(), r.value.components)
  {
    var r := RiskScore(loc, traffic, weather, hour, osm, poiData, incidents, distKm);
    if r.Success? {
      WeightedSumInRange(r.value.components);
    }
  }

  /** The scorer's own sample at noon has components traffic 2/3, weather
      0.7 and infrastructure 0.3 (see the examples above) and no POI or
      incident data: 116/3 points, a medium risk. */
  lemma SampleScore()
    ensures var c := Components(TrafficAnomaly(Some(FlowSegment(Some(20.0), Some(60.0)))), 0.7, 0.3, 0.0, 0.0);
      Clamp100(WeightedSum(Config.RiskWeights(), c)) == 116.0 / 3.0
      && LevelOf(Clamp100(WeightedSum(Config.RiskWeights(), c))) == Medium
  {
    TrafficAnomalyExamples();
  }

  /** Two junctions a few metres away and nothing else. */
  function SampleFeatures(): OsmFeatures {
    OsmFeatures([], [FeaturePoint(Some(18.5205), Some(73.8568)), FeaturePoint(Some(18.5206), Some(73.8569))], [], [])
  }

  /** Boundary behaviour of the level thresholds. */
  lemma LevelBoundaries()
    ensures LevelOf(29.999) == Low && LevelOf(30.0) == Medium
    ensures LevelOf(59.99) == Medium && LevelOf(60.0) == High
    ensures LevelOf(79.99) == High && LevelOf(80.0) == Critical && LevelOf(100.0) == Critical
  {
  }
}
