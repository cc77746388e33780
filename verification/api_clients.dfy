/** Normalisation of the TomTom, OpenWeatherMap and Overpass responses into
    the fixed buckets the risk scorer consumes. The HTTP requests themselves
    are not modelled: each operation receives the decoded response. */
module ApiClients {
  import opened Wrappers
  import opened Text
  import opened Numbers
  import opened Seqs
  import opened Geo

  // ---------------------------------------------------------------------------
  // TomTom incidents
  // ---------------------------------------------------------------------------

  /** One entry of the `incidents` array, reduced to the fields the parser
      reads; absent properties are `None`. `events` holds each event's
      `description`, if it has one. */
  datatype RawIncident = RawIncident(
    iconCategory: Option<int>,
    magnitudeOfDelay: Option<int>,
    events: seq<Option<string>>,
    coordinates: Coords)

  /** The normalised incident record: severity is TomTom's magnitude of delay. */
  datatype IncidentInfo = IncidentInfo(
    description: string,
    severity: int,
    iconCategory: int,
    coordinates: Coords)

  datatype IncidentCategory =
    | Accidents | RoadWorks | Closures | WeatherHazards | TrafficJams | VehicleHazards | OtherIncident

  /** The seven categories in the order of the result dictionary. */
  function IncidentCategories(): seq<IncidentCategory> {
    [Accidents, RoadWorks, Closures, WeatherHazards, TrafficJams, VehicleHazards, OtherIncident]
  }

  /** The dictionary key of each category. */
  function CategoryKey(c: IncidentCategory): string {
    match c
    case Accidents => "accidents"
    case RoadWorks => "road_works"
    case Closures => "closures"
    case WeatherHazards => "weather_hazards"
    case TrafficJams => "traffic_jams"
    case VehicleHazards => "vehicle_hazards"
    case OtherIncident => "other"
  }

  /** TomTom icon codes: 1 accident, 9 road works, 7/8 closures, 2/4/5/10/11
      weather, 6 jam, 3/14 dangerous conditions or broken-down vehicle. */
  function CategoryOfIcon(icon: int): (c: IncidentCategory)
    ensures c == Accidents <==> icon == 1
    ensures c == RoadWorks <==> icon == 9
    ensures c == Closures <==> icon in {7, 8}
    ensures c == WeatherHazards <==> icon in {2, 4, 5, 10, 11}
    ensures c == TrafficJams <==> icon == 6
    ensures c == VehicleHazards <==> icon in {3, 14}
    ensures c == OtherIncident <==> !(1 <= icon <= 11 || icon == 14)
  {
    if icon == 1 then Accidents
    else if icon == 9 then RoadWorks
    else if icon in [7, 8] then Closures
    else if icon in [2, 4, 5, 10, 11] then WeatherHazards
    else if icon == 6 then TrafficJams
    else if icon in [3, 14] then VehicleHazards
    else OtherIncident
  }

  function ToIncidentInfo(raw: RawIncident): IncidentInfo {
    IncidentInfo(
      if |raw.events| > 0 then raw.events[0].GetOr("") else "",
      raw.magnitudeOfDelay.GetOr(0),
      raw.iconCategory.GetOr(0),
      raw.coordinates)
  }

  function ToIncidentInfos(raws: seq<RawIncident>): (r: seq<IncidentInfo>)
    ensures |r| == |raws|
    ensures forall i :: 0 <= i < |raws| ==> r[i] == ToIncidentInfo(raws[i])
  {
    if |raws| == 0 then [] else [ToIncidentInfo(raws[0])] + ToIncidentInfos(raws[1..])
  }

  function InfoCategory(info: IncidentInfo): IncidentCategory {
    CategoryOfIcon(info.iconCategory)
  }

  /** The categorised incident dictionary. */
  datatype IncidentBuckets = IncidentBuckets(
    accidents: seq<IncidentInfo>,
    roadWorks: seq<IncidentInfo>,
    closures: seq<IncidentInfo>,
    weatherHazards: seq<IncidentInfo>,
    trafficJams: seq<IncidentInfo>,
    vehicleHazards: seq<IncidentInfo>,
    other: seq<IncidentInfo>)
  {
    function Get(c: IncidentCategory): seq<IncidentInfo> {
      match c
      case Accidents => accidents
      case RoadWorks => roadWorks
      case Closures => closures
      case WeatherHazards => weatherHazards
      case TrafficJams => trafficJams
      case VehicleHazards => vehicleHazards
      case OtherIncident => other
    }

    function Total(): nat {
      |accidents| + |roadWorks| + |closures| + |weatherHazards| + |trafficJams| + |vehicleHazards| + |other|
    }

    /** The dictionary's items in insertion order, as the scorer iterates them. */
    function Items(): seq<(string, seq<IncidentInfo>)> {
      seq(7, i requires 0 <= i < 7 => (CategoryKey(IncidentCategories()[i]), Get(IncidentCategories()[i])))
    }
  }

  function EmptyIncidentBuckets(): IncidentBuckets {
    IncidentBuckets([], [], [], [], [], [], [])
  }

  /** `TomTomClient.parse_incidents`. `data` is `None` when the response is
      empty or has no `incidents` key. Each bucket keeps the input order. */
  function ParseIncidents(data: Option<seq<RawIncident>>): (r: IncidentBuckets)
    ensures data.None? ==> r == EmptyIncidentBuckets()
    ensures forall c :: forall x :: x in r.Get(c) ==> InfoCategory(x) == c
  {
    match data
    case None => EmptyIncidentBuckets()
    case Some(raws) =>
      var infos := ToIncidentInfos(raws);
      IncidentBuckets(
        Bucket(infos, InfoCategory, Accidents),
        Bucket(infos, InfoCategory, RoadWorks),
        Bucket(infos, InfoCategory, Closures),
        Bucket(infos, InfoCategory, WeatherHazards),
        Bucket(infos, InfoCategory, TrafficJams),
        Bucket(infos, InfoCategory, VehicleHazards),
        Bucket(infos, InfoCategory, OtherIncident))
  }

  /** Every incident lands in exactly one bucket: the bucket sizes add up to
      the number of incidents, and each normalised incident is found in the
      bucket of its icon category. */
  lemma ParseIncidentsPartition(raws: seq<RawIncident>)
    ensures ParseIncidents(Some(raws)).Total() == |raws|
    ensures forall i :: 0 <= i < |raws| ==>
      ToIncidentInfo(raws[i]) in ParseIncidents(Some(raws)).Get(CategoryOfIcon(raws[i].iconCategory.GetOr(0)))
  {
    ParseIncidentsTotal(raws);
    forall i | 0 <= i < |raws|
      ensures ToIncidentInfo(raws[i]) in ParseIncidents(Some(raws)).Get(CategoryOfIcon(raws[i].iconCategory.GetOr(0)))
    {
      ParseIncidentsMember(raws, i);
    }
  }

  lemma ParseIncidentsTotal(raws: seq<RawIncident>)
    ensures ParseIncidents(Some(raws)).Total() == |raws|
  {
    var infos := ToIncidentInfos(raws);
    PartitionTotal(infos, InfoCategory, IncidentCategories());
    BucketSizes7(infos, InfoCategory, Accidents, RoadWorks, Closures, WeatherHazards, TrafficJams,
                 VehicleHazards, OtherIncident);
  }

  lemma ParseIncidentsMember(raws: seq<RawIncident>, i: nat)
    requires i < |raws|
    ensures ToIncidentInfo(raws[i]) in ParseIncidents(Some(raws)).Get(CategoryOfIcon(raws[i].iconCategory.GetOr(0)))
  {
    var infos := ToIncidentInfos(raws);
    assert infos[i] == ToIncidentInfo(raws[i]);
    BucketMembership(infos, InfoCategory, InfoCategory(infos[i]), infos[i]);
  }

  /** Every bucketed record is the record of some input incident. */
  lemma BucketedFromInput(raws: seq<RawIncident>, c: IncidentCategory, x: IncidentInfo)
    ensures x in ParseIncidents(Some(raws)).Get(c) ==> exists k :: 0 <= k < |raws| && x == ToIncidentInfo(raws[k])
  {
    var infos := ToIncidentInfos(raws);
    assert ParseIncidents(Some(raws)).Get(c) == Bucket(infos, InfoCategory, c);
    if x in Bucket(infos, InfoCategory, c) {
      BucketMembership(infos, InfoCategory, c, x);
    }
  }

  // ---------------------------------------------------------------------------
  // Speed limits from reverse geocoding
  // ---------------------------------------------------------------------------

  /** The JSON value of `speedLimit`: a string such as "50 km/h" or a number. */
  datatype SpeedLimitValue = LimitText(text: string) | LimitNumber(n: real)

  /** One reverse-geocoding address; `speedLimit` is `None` when absent or null. */
  datatype Address = Address(speedLimit: Option<SpeedLimitValue>)

  predicate Truthy(v: SpeedLimitValue) {
    match v
    case LimitText(t) => |t| > 0
    case LimitNumber(n) => n != 0.0
  }

  /** Conversion of a present `speedLimit`: the leading whitespace-separated
      token of a string is parsed as an integer, a number is truncated. A
      falsy value, an all-space string or an unparsable token gives `None`. */
  function ParseSpeedLimit(v: Option<SpeedLimitValue>): (r: Option<int>)
    ensures v.None? ==> r.None?
    ensures v.Some? && !Truthy(v.value) ==> r.None?
    ensures v.Some? && v.value.LimitNumber? && v.value.n != 0.0 ==> r == Some(Trunc(v.value.n))
    // Text is read through its first token; no token, or a token that is
    // not an integer literal, is the ValueError/IndexError case.
    ensures v.Some? && v.value.LimitText? ==>
      var tok := FirstToken(v.value.text);
      (r.None? <==> tok.None? || !IsIntLiteral(tok.value))
      && (r.Some? ==> r == ParseInt(tok.value))
  {
    match v
    case None => None
    case Some(LimitNumber(n)) => if n == 0.0 then None else Some(Trunc(n))
    case Some(LimitText(t)) =>
      if |t| == 0 then None
      else match FirstToken(t)
        case None => None
        case Some(tok) => ParseInt(tok)
  }

  /** `TomTomClient.get_speed_limit` after the reverse-geocoding request.
      `addresses` is `None` when there is no response or no `addresses` key. */
  function SpeedLimit(addresses: Option<seq<Address>>): (r: Option<int>)
    ensures addresses.None? || |addresses.value| == 0 ==> r.None?
    ensures addresses.Some? && |addresses.value| > 0 ==> r == ParseSpeedLimit(addresses.value[0].speedLimit)
  {
    match addresses
    case None => None
    case Some(addrs) => if |addrs| == 0 then None else ParseSpeedLimit(addrs[0].speedLimit)
  }

  /** A text limit starting with a run of digits, followed by nothing or
      by a space, is read as that run of digits. */
  lemma SpeedLimitOfText(s: string, rest: string)
    requires |s| > 0 && AllDigits(s)
    requires |rest| == 0 || IsSpace(rest[0])
    ensures SpeedLimit(Some([Address(Some(LimitText(s + rest)))])) == ParseInt(s)
  {
    TokenOfDigits(s, rest);
  }

  /** "n km/h" reads back as n. */
  lemma SpeedLimitRoundTrip(n: nat)
    ensures SpeedLimit(Some([Address(Some(LimitText(NatToString(n) + " km/h")))])) == Some(n)
  {
    SpeedLimitOfText(NatToString(n), " km/h");
    ParseNatToString(n);
  }

  /** A bare number is read as the limit too. */
  lemma BareSpeedLimitRoundTrip(n: nat)
    ensures SpeedLimit(Some([Address(Some(LimitText(NatToString(n))))])) == Some(n)
  {
    SpeedLimitOfText(NatToString(n), "");
    assert NatToString(n) + "" == NatToString(n);
    ParseNatToString(n);
  }

  lemma TokenOfDigits(s: string, rest: string)
    requires |s| > 0 && AllDigits(s)
    requires |rest| == 0 || IsSpace(rest[0])
    ensures FirstToken(s + rest) == Some(s)
  {
    var t := s + rest;
    assert t[0] == s[0];
    TakeDigits(s, rest);
  }

  lemma {:induction false} TakeDigits(s: string, rest: string)
    requires AllDigits(s)
    requires |rest| == 0 || IsSpace(rest[0])
    ensures TakeToken(s + rest) == s
  {
    if |s| == 0 {
      assert s + rest == rest;
    } else {
      assert (s + rest)[1..] == s[1..] + rest;
      TakeDigits(s[1..], rest);
    }
  }

  // ---------------------------------------------------------------------------
  // OpenWeatherMap
  // ---------------------------------------------------------------------------

  /** One entry of the `weather` array; `main` is `None` when absent. */
  datatype WeatherEntry = WeatherEntry(main: Option<string>)

  /** An OpenWeatherMap response reduced to the keys that are read. */
  datatype WeatherData = WeatherData(weather: Option<seq<WeatherEntry>>, visibility: Option<real>)

  /** `WeatherClient.get_weather_description`: "unknown" without a `weather`
      key, "clear" for an empty list, otherwise the first entry's `main` in
      lower case; a first entry without `main` raises KeyError. */
  function WeatherDescription(data: Option<WeatherData>): (r: Result<string>)
    ensures (data.None? || data.value.weather.None?) ==> r == Success("unknown")
    ensures data.Some? && data.value.weather.Some? && |data.value.weather.value| == 0 ==> r == Success("clear")
    ensures data.Some? && data.value.weather.Some? && |data.value.weather.value| > 0 ==>
      (r.Success? <==> data.value.weather.value[0].main.Some?)
    ensures r.Success? ==> forall i :: 0 <= i < |r.value| ==> !('A' <= r.value[i] <= 'Z')
    ensures data.Some? && data.value.weather.Some? && |data.value.weather.value| > 0
            && data.value.weather.value[0].main.Some? ==>
      r == Success(Lower(data.value.weather.value[0].main.value))
  {
    match data
    case None => Success("unknown")
    case Some(d) =>
      match d.weather
      case None => Success("unknown")
      case Some(entries) =>
        if |entries| == 0 then Success("clear")
        else match entries[0].main
          case None => Failure(KeyError("main"))
          case Some(m) => Success(Lower(m))
  }

  // ---------------------------------------------------------------------------
  // Overpass road features
  // ---------------------------------------------------------------------------

  /** An Overpass element: its tags, its own coordinates (present for nodes),
      the `center` of a way, and the `geometry` of a way. */
  datatype OsmElement = OsmElement(
    tags: map<string, string>,
    lat: Option<real>,
    lon: Option<real>,
    center: Option<Point>,
    geometry: seq<Point>)

  /** A feature as emitted by `parse_features`: the `lat` and `lon` keys are
      always present, but their values are null for ways. */
  datatype FeaturePoint = FeaturePoint(lat: Option<real>, lon: Option<real>)

  datatype OsmFeatures = OsmFeatures(
    signals: seq<FeaturePoint>,
    junctions: seq<FeaturePoint>,
    unlitRoads: seq<seq<Point>>,
    crossings: seq<FeaturePoint>)

  datatype FeatureKind = Signal | Junction | Unlit | Crossing | NoFeature

  function Tag(tags: map<string, string>, k: string): Option<string> {
    if k in tags then Some(tags[k]) else None
  }

  /** The first matching rule wins: traffic signal, then any `junction` tag,
      then `lit=no`, then a crossing. */
  function FeatureKindOf(e: OsmElement): (k: FeatureKind)
    ensures k == Signal <==> Tag(e.tags, "highway") == Some("traffic_signals")
    ensures k == Junction <==> Tag(e.tags, "highway") != Some("traffic_signals") && "junction" in e.tags
    ensures k == Unlit <==> Tag(e.tags, "highway") != Some("traffic_signals") && "junction" !in e.tags
                            && Tag(e.tags, "lit") == Some("no")
    ensures k == Crossing <==> Tag(e.tags, "highway") == Some("crossing") && "junction" !in e.tags
                               && Tag(e.tags, "lit") != Some("no")
  {
    if Tag(e.tags, "highway") == Some("traffic_signals") then Signal
    else if "junction" in e.tags then Junction
    else if Tag(e.tags, "lit") == Some("no") then Unlit
    else if Tag(e.tags, "highway") == Some("crossing") then Crossing
    else NoFeature
  }

  function ToFeaturePoints(es: seq<OsmElement>): (r: seq<FeaturePoint>)
    ensures |r| == |es|
    ensures forall i :: 0 <= i < |es| ==> r[i] == FeaturePoint(es[i].lat, es[i].lon)
  {
    if |es| == 0 then [] else [FeaturePoint(es[0].lat, es[0].lon)] + ToFeaturePoints(es[1..])
  }

  function ToGeometries(es: seq<OsmElement>): (r: seq<seq<Point>>)
    ensures |r| == |es|
    ensures forall i :: 0 <= i < |es| ==> r[i] == es[i].geometry
  {
    if |es| == 0 then [] else [es[0].geometry] + ToGeometries(es[1..])
  }

  /** `OSMClient.parse_features`; `elements` is `None` when the response is
      empty or has no `elements` key. */
  function ParseFeatures(elements: Option<seq<OsmElement>>): (r: OsmFeatures)
    ensures elements.None? ==> r == OsmFeatures([], [], [], [])
    ensures elements.Some? ==>
      && ListsFeature(elements.value, Signal, r.signals)
      && ListsFeature(elements.value, Junction, r.junctions)
      && ListsUnlit(elements.value, r.unlitRoads)
      && ListsFeature(elements.value, Crossing, r.crossings)
  {
    match elements
    case None => OsmFeatures([], [], [], [])
    case Some(es) =>
      BucketListsFeature(es, Signal);
      BucketListsFeature(es, Junction);
      BucketListsUnlit(es);
      BucketListsFeature(es, Crossing);
      OsmFeatures(
        ToFeaturePoints(Bucket(es, FeatureKindOf, Signal)),
        ToFeaturePoints(Bucket(es, FeatureKindOf, Junction)),
        ToGeometries(Bucket(es, FeatureKindOf, Unlit)),
        ToFeaturePoints(Bucket(es, FeatureKindOf, Crossing)))
  }

  /** Each element is kept in at most one list: the four list lengths plus the
      number of dropped elements equal the number of elements, and an element
      is kept exactly when one of the four rules matches it. */
  lemma ParseFeaturesPartition(es: seq<OsmElement>)
    ensures var f := ParseFeatures(Some(es));
      |f.signals| + |f.junctions| + |f.unlitRoads| + |f.crossings|
        + |Bucket(es, FeatureKindOf, NoFeature)| == |es|
  {
    var ks := [Signal, Junction, Unlit, Crossing, NoFeature];
    PartitionTotal(es, FeatureKindOf, ks);
    BucketSizes5(es, FeatureKindOf, Signal, Junction, Unlit, Crossing, NoFeature);
  }

  /** `ps` holds the coordinates of exactly the elements of kind `k`. */
  predicate ListsFeature(es: seq<OsmElement>, k: FeatureKind, ps: seq<FeaturePoint>) {
    && (forall e :: e in es && FeatureKindOf(e) == k ==> FeaturePoint(e.lat, e.lon) in ps)
    && (forall p :: p in ps ==> exists e :: e in es && FeatureKindOf(e) == k && FeaturePoint(e.lat, e.lon) == p)
  }

  /** `gs` holds the geometries of exactly the unlit roads. */
  predicate ListsUnlit(es: seq<OsmElement>, gs: seq<seq<Point>>) {
    && (forall e :: e in es && FeatureKindOf(e) == Unlit ==> e.geometry in gs)
    && (forall g :: g in gs ==> exists e :: e in es && FeatureKindOf(e) == Unlit && e.geometry == g)
  }

  lemma BucketListsFeature(es: seq<OsmElement>, k: FeatureKind)
    ensures ListsFeature(es, k, ToFeaturePoints(Bucket(es, FeatureKindOf, k)))
  {
    var b := Bucket(es, FeatureKindOf, k);
    var ps := ToFeaturePoints(b);
    forall e | e in es && FeatureKindOf(e) == k
      ensures FeaturePoint(e.lat, e.lon) in ps
    {
      BucketMembership(es, FeatureKindOf, k, e);
      var i :| 0 <= i < |b| && b[i] == e;
      assert ps[i] == FeaturePoint(e.lat, e.lon);
    }
    forall p | p in ps
      ensures exists e :: e in es && FeatureKindOf(e) == k && FeaturePoint(e.lat, e.lon) == p
    {
      var i :| 0 <= i < |ps| && ps[i] == p;
      BucketMembership(es, FeatureKindOf, k, b[i]);
    }
  }

  lemma BucketListsUnlit(es: seq<OsmElement>)
    ensures ListsUnlit(es, ToGeometries(Bucket(es, FeatureKindOf, Unlit)))
  {
    var b := Bucket(es, FeatureKindOf, Unlit);
    var gs := ToGeometries(b);
    forall e | e in es && FeatureKindOf(e) == Unlit
      ensures e.geometry in gs
    {
      BucketMembership(es, FeatureKindOf, Unlit, e);
      var i :| 0 <= i < |b| && b[i] == e;
      assert gs[i] == e.geometry;
    }
    forall g | g in gs
      ensures exists e :: e in es && FeatureKindOf(e) == Unlit && e.geometry == g
    {
      var i :| 0 <= i < |gs| && gs[i] == g;
      BucketMembership(es, FeatureKindOf, Unlit, b[i]);
    }
  }

  // ---------------------------------------------------------------------------
  // Overpass points of interest
  // ---------------------------------------------------------------------------

  datatype Poi = Poi(name: string, location: Point)

  datatype PoiBuckets = PoiBuckets(schools: seq<Poi>, hospitals: seq<Poi>, bars: seq<Poi>, busStops: seq<Poi>)

  datatype PoiKind = School | Hospital | Bar | BusStop | NoPoi

  /** Amenity school/college/university, then hospital/clinic/doctors, then
      bar/pub/nightclub or an alcohol shop, then a bus stop or station;
      missing tags read as the empty string. */
  predicate SchoolTags(tags: map<string, string>) {
    Tag(tags, "amenity").GetOr("") in {"school", "college", "university"}
  }

  predicate HospitalTags(tags: map<string, string>) {
    Tag(tags, "amenity").GetOr("") in {"hospital", "clinic", "doctors"}
  }

  predicate BarTags(tags: map<string, string>) {
    Tag(tags, "amenity").GetOr("") in {"bar", "pub", "nightclub"} || Tag(tags, "shop").GetOr("") == "alcohol"
  }

  predicate TransitTags(tags: map<string, string>) {
    Tag(tags, "highway").GetOr("") == "bus_stop" || Tag(tags, "public_transport").GetOr("") in {"station", "stop_position"}
  }

  function PoiKindOf(tags: map<string, string>): (k: PoiKind)
    ensures k == School <==> SchoolTags(tags)
    ensures k == Hospital <==> !SchoolTags(tags) && HospitalTags(tags)
    ensures k == Bar <==> !SchoolTags(tags) && !HospitalTags(tags) && BarTags(tags)
    ensures k == BusStop <==> !SchoolTags(tags) && !HospitalTags(tags) && !BarTags(tags) && TransitTags(tags)
    ensures k == NoPoi <==>
      Tag(tags, "amenity").GetOr("") !in {"school", "college", "university", "hospital", "clinic", "doctors",
                                          "bar", "pub", "nightclub"}
      && Tag(tags, "shop").GetOr("") != "alcohol" && Tag(tags, "highway").GetOr("") != "bus_stop"
      && Tag(tags, "public_transport").GetOr("") !in {"station", "stop_position"}
  {
    var amenity := Tag(tags, "amenity").GetOr("");
    if amenity in ["school", "college", "university"] then School
    else if amenity in ["hospital", "clinic", "doctors"] then Hospital
    else if amenity in ["bar", "pub", "nightclub"] || Tag(tags, "shop").GetOr("") == "alcohol" then Bar
    else if Tag(tags, "highway").GetOr("") == "bus_stop"
         || Tag(tags, "public_transport").GetOr("") in ["station", "stop_position"] then BusStop
    else NoPoi
  }

  /** A node's own coordinates, else a way's centre, else none. */
  function ElementLocation(e: OsmElement): Option<Point> {
    if e.lat.Some? && e.lon.Some? then Some(Point(e.lat.value, e.lon.value))
    else e.center
  }

  /** The category and record of one element; unlocated elements are skipped. */
  function PoiOf(e: OsmElement): (PoiKind, Poi) {
    match ElementLocation(e)
    case None => (NoPoi, Poi("", Point(0.0, 0.0)))
    case Some(p) => (PoiKindOf(e.tags), Poi(Tag(e.tags, "name").GetOr("Unnamed"), p))
  }

  function PoiKindOfElement(e: OsmElement): PoiKind {
    PoiOf(e).0
  }

  function ToPois(es: seq<OsmElement>): (r: seq<Poi>)
    ensures |r| == |es|
    ensures forall i :: 0 <= i < |es| ==> r[i] == PoiOf(es[i]).1
  {
    if |es| == 0 then [] else [PoiOf(es[0]).1] + ToPois(es[1..])
  }

  /** A located element whose tags give kind `k`. */
  predicate LocatedOfKind(e: OsmElement, k: PoiKind) {
    ElementLocation(e).Some? && PoiKindOf(e.tags) == k
  }

  /** The test "is a located element of kind `k`". */
  function LocatedAs(k: PoiKind): OsmElement -> bool {
    (e: OsmElement) => LocatedOfKind(e, k)
  }

  /** `ps` holds the record of every located element of kind `k`, and only
      those records. */
  predicate ListsKind(es: seq<OsmElement>, k: PoiKind, ps: seq<Poi>) {
    && (forall e :: e in es && LocatedOfKind(e, k) ==> PoiOf(e).1 in ps)
    && (forall p :: p in ps ==> exists e :: e in es && LocatedOfKind(e, k) && PoiOf(e).1 == p)
  }

  lemma BucketListsKind(es: seq<OsmElement>, k: PoiKind)
    requires k != NoPoi
    ensures ListsKind(es, k, ToPois(Bucket(es, PoiKindOfElement, k)))
    ensures Bucket(es, PoiKindOfElement, k) == Filter(es, LocatedAs(k))
  {
    BucketIsLocatedFilter(es, k);
    BucketListsEveryKind(es, k);
    BucketListsOnlyKind(es, k);
  }

  /** Every located element of kind `k` has its record in the bucket. */
  lemma BucketListsEveryKind(es: seq<OsmElement>, k: PoiKind)
    requires k != NoPoi
    ensures var ps := ToPois(Bucket(es, PoiKindOfElement, k));
      forall e :: e in es && LocatedOfKind(e, k) ==> PoiOf(e).1 in ps
  {
    var b := Bucket(es, PoiKindOfElement, k);
    var ps := ToPois(b);
    forall e | e in es && LocatedOfKind(e, k)
      ensures PoiOf(e).1 in ps
    {
      BucketMembership(es, PoiKindOfElement, k, e);
      var i :| 0 <= i < |b| && b[i] == e;
      assert ps[i] == PoiOf(e).1;
    }
  }

  /** Every record in the bucket is that of a located element of kind `k`. */
  lemma BucketListsOnlyKind(es: seq<OsmElement>, k: PoiKind)
    requires k != NoPoi
    ensures var ps := ToPois(Bucket(es, PoiKindOfElement, k));
      forall p :: p in ps ==> exists e :: e in es && LocatedOfKind(e, k) && PoiOf(e).1 == p
  {
    var b := Bucket(es, PoiKindOfElement, k);
    var ps := ToPois(b);
    forall p | p in ps
      ensures exists e :: e in es && LocatedOfKind(e, k) && PoiOf(e).1 == p
    {
      var i :| 0 <= i < |ps| && ps[i] == p;
      BucketMembership(es, PoiKindOfElement, k, b[i]);
      assert LocatedOfKind(b[i], k);
    }
  }

  lemma BucketIsLocatedFilter(es: seq<OsmElement>, k: PoiKind)
    requires k != NoPoi
    ensures Bucket(es, PoiKindOfElement, k) == Filter(es, LocatedAs(k))
  {
    BucketIsFilter(es, PoiKindOfElement, k, LocatedAs(k));
  }

  /** `OSMClient.get_pois_in_bbox` after the request; `None` stands for a
      failed request, which yields four empty lists. */
  function PoisInBBox(elements: Option<seq<OsmElement>>): (r: PoiBuckets)
    ensures elements.None? ==> r == PoiBuckets([], [], [], [])
    ensures elements.Some? ==> |r.schools| + |r.hospitals| + |r.bars| + |r.busStops| <= |elements.value|
    ensures elements.Some? ==>
      && ListsKind(elements.value, School, r.schools) && ListsKind(elements.value, Hospital, r.hospitals)
      && ListsKind(elements.value, Bar, r.bars) && ListsKind(elements.value, BusStop, r.busStops)
    // Each list keeps its elements in response order, repeats included.
    ensures elements.Some? ==>
      && r.schools == ToPois(Filter(elements.value, LocatedAs(School)))
      && r.hospitals == ToPois(Filter(elements.value, LocatedAs(Hospital)))
      && r.bars == ToPois(Filter(elements.value, LocatedAs(Bar)))
      && r.busStops == ToPois(Filter(elements.value, LocatedAs(BusStop)))
  {
    match elements
    case None => PoiBuckets([], [], [], [])
    case Some(es) =>
      PoiPartition(es);
      BucketListsKind(es, School);
      BucketListsKind(es, Hospital);
      BucketListsKind(es, Bar);
      BucketListsKind(es, BusStop);
      PoiBuckets(
        ToPois(Bucket(es, PoiKindOfElement, School)),
        ToPois(Bucket(es, PoiKindOfElement, Hospital)),
        ToPois(Bucket(es, PoiKindOfElement, Bar)),
        ToPois(Bucket(es, PoiKindOfElement, BusStop)))
  }

  lemma PoiPartition(es: seq<OsmElement>)
    ensures |Bucket(es, PoiKindOfElement, School)| + |Bucket(es, PoiKindOfElement, Hospital)|
      + |Bucket(es, PoiKindOfElement, Bar)| + |Bucket(es, PoiKindOfElement, BusStop)|
      + |Bucket(es, PoiKindOfElement, NoPoi)| == |es|
  {
    PartitionTotal(es, PoiKindOfElement, [School, Hospital, Bar, BusStop, NoPoi]);
    BucketSizes5(es, PoiKindOfElement, School, Hospital, Bar, BusStop, NoPoi);
  }

  /** An element without coordinates or centre is never categorised. */
  lemma UnlocatedPoiSkipped(es: seq<OsmElement>, e: OsmElement)
    requires e in es && ElementLocation(e).None?
    ensures forall k :: k != NoPoi ==> e !in Bucket(es, PoiKindOfElement, k)
  {
    forall k | k != NoPoi ensures e !in Bucket(es, PoiKindOfElement, k) {
      BucketMembership(es, PoiKindOfElement, k, e);
    }
  }

  // ---------------------------------------------------------------------------
  // Distance filter
  // ---------------------------------------------------------------------------

  datatype PoiWithDistance = PoiWithDistance(poi: Poi, distance: int)

  datatype PoiDistanceBuckets = PoiDistanceBuckets(
    schools: seq<PoiWithDistance>, hospitals: seq<PoiWithDistance>,
    bars: seq<PoiWithDistance>, busStops: seq<PoiWithDistance>)

  /** The distance test of `filter_pois_by_distance` (inclusive). */
  function Near(center: Point, radius: real, dist: (Point, Point) -> real): Poi -> bool {
    (p: Poi) => dist(p.location, center) <= radius
  }

  function StripDistances(ps: seq<PoiWithDistance>): (r: seq<Poi>)
    ensures |r| == |ps|
    ensures forall i :: 0 <= i < |ps| ==> r[i] == ps[i].poi
  {
    if |ps| == 0 then [] else [ps[0].poi] + StripDistances(ps[1..])
  }

  /** The POIs of one category within `radius` metres, each annotated with
      its rounded distance. `dist` is the haversine distance in metres. */
  function WithinRadius(pois: seq<Poi>, center: Point, radius: real, dist: (Point, Point) -> real)
    : (r: seq<PoiWithDistance>)
    ensures |r| <= |pois|
    ensures forall i :: 0 <= i < |r| ==>
      dist(r[i].poi.location, center) <= radius
      && r[i].distance == RoundHalfEven(dist(r[i].poi.location, center))
  {
    if |pois| == 0 then []
    else
      var d := dist(pois[0].location, center);
      (if d <= radius then [PoiWithDistance(pois[0], RoundHalfEven(d))] else [])
      + WithinRadius(pois[1..], center, radius, dist)
  }

  /** The kept POIs are exactly the ones within range, in their input order. */
  lemma {:induction false} WithinRadiusKeepsExactly(pois: seq<Poi>, center: Point, radius: real,
                                                   dist: (Point, Point) -> real)
    ensures StripDistances(WithinRadius(pois, center, radius, dist))
            == Filter(pois, Near(center, radius, dist))
  {
    if |pois| > 0 {
      WithinRadiusKeepsExactly(pois[1..], center, radius, dist);
      var head := if dist(pois[0].location, center) <= radius
        then [PoiWithDistance(pois[0], RoundHalfEven(dist(pois[0].location, center)))] else [];
      StripConcat(head, WithinRadius(pois[1..], center, radius, dist));
    }
  }

  lemma {:induction false} StripConcat(a: seq<PoiWithDistance>, b: seq<PoiWithDistance>)
    ensures StripDistances(a + b) == StripDistances(a) + StripDistances(b)
  {
    if |a| > 0 {
      assert (a + b)[1..] == a[1..] + b;
      StripConcat(a[1..], b);
    }
  }

  /** `filter_pois_by_distance`: every category is filtered on its own. */
  function FilterPoisByDistance(pois: PoiBuckets, center: Point, radius: real, dist: (Point, Point) -> real)
    : (r: PoiDistanceBuckets)
    ensures StripDistances(r.schools) == Filter(pois.schools, Near(center, radius, dist))
    ensures StripDistances(r.hospitals) == Filter(pois.hospitals, Near(center, radius, dist))
    ensures StripDistances(r.bars) == Filter(pois.bars, Near(center, radius, dist))
    ensures StripDistances(r.busStops) == Filter(pois.busStops, Near(center, radius, dist))
  {
    WithinRadiusKeepsExactly(pois.schools, center, radius, dist);
    WithinRadiusKeepsExactly(pois.hospitals, center, radius, dist);
    WithinRadiusKeepsExactly(pois.bars, center, radius, dist);
    WithinRadiusKeepsExactly(pois.busStops, center, radius, dist);
    PoiDistanceBuckets(
      WithinRadius(pois.schools, center, radius, dist),
      WithinRadius(pois.hospitals, center, radius, dist),
      WithinRadius(pois.bars, center, radius, dist),
      WithinRadius(pois.busStops, center, radius, dist))
  }
}
