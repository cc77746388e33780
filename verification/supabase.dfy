/** The incident rows read back from the Supabase `incidents` table: which rows
    come back from `get_active_incidents` (coordinate partition, optional
    geocoding of the rows without coordinates, bounding-box filter) and how
    `categorize_supabase_incidents` turns rows into the eight TomTom-style
    buckets the scorer consumes. */
module SupabaseIncidents {
  import opened Wrappers
  import opened Text
  import opened Seqs
  import opened Geo
  import RiskModel

  // ---------------------------------------------------------------------------
  // Rows
  // ---------------------------------------------------------------------------

  /** One column of a row as `dict.get` sees it: the key is missing, it holds
      SQL NULL (Python `None`), or it holds a value. */
  datatype Field<T> = Absent | Null | Present(value: T) {
    /** `row.get(key)`: missing and NULL both read as None. */
    function Get(): Option<T> {
      if Present? then Some(value) else None
    }
  }

  /** The columns of an `incidents` row that the two operations read. */
  datatype Row = Row(
    id: Field<int>,
    reason: Field<string>,
    source: Field<string>,
    title: Field<string>,
    priority: Field<string>,
    latitude: Field<real>,
    longitude: Field<real>,
    locationText: Field<string>,
    status: Field<string>)

  /** `inc.get('latitude') is not None and inc.get('longitude') is not None`. */
  predicate HasCoords(r: Row) {
    r.latitude.Present? && r.longitude.Present?
  }

  function LocationOf(r: Row): Point
    requires HasCoords(r)
  {
    Point(r.latitude.value, r.longitude.value)
  }

  // ---------------------------------------------------------------------------
  // get_active_incidents
  // ---------------------------------------------------------------------------

  predicate LacksCoords(r: Row) {
    !HasCoords(r)
  }

  /** The two list comprehensions split the rows into those with and those
      without coordinates: every row is in exactly one of them, in order. */
  lemma {:induction false} CoordinatePartition(rows: seq<Row>)
    ensures |Filter(rows, HasCoords)| + |Filter(rows, LacksCoords)| == |rows|
    ensures forall r :: r in rows ==> (r in Filter(rows, HasCoords) <==> !(r in Filter(rows, LacksCoords)))
    ensures forall r :: r in Filter(rows, HasCoords) || r in Filter(rows, LacksCoords) ==> r in rows
  {
    if |rows| > 0 {
      CoordinatePartition(rows[1..]);
    }
    forall r | r in rows
      ensures r in Filter(rows, HasCoords) <==> !(r in Filter(rows, LacksCoords))
    {
      FilterMembership(rows, HasCoords, r);
      FilterMembership(rows, LacksCoords, r);
    }
  }

  /** The geocoding query for a row without coordinates, or None when the row
      is skipped: `location_text` missing reads as `''`, NULL reads as None,
      and both of those, an empty text and an `http` link are skipped. */
  function GeocodeQuery(r: Row): (q: Option<string>)
    ensures q.Some? <==> r.locationText.Present? && r.locationText.value != [] && !StartsWith(r.locationText.value, "http")
    ensures q.Some? ==> q.value == r.locationText.value
  {
    match r.locationText
    case Absent => None
    case Null => None
    case Present(t) => if t == [] || StartsWith(t, "http") then None else Some(t)
  }

  /** A geocoder answer is used only when both coordinates are truthy, so a
      latitude or longitude of exactly 0 is rejected. */
  predicate Accepted(p: Option<Point>) {
    p.Some? && p.value.lat != 0.0 && p.value.lon != 0.0
  }

  /** The row after the coordinates were written back. */
  function WithLocation(r: Row, p: Point): (u: Row)
    ensures HasCoords(u) && LocationOf(u) == p
    ensures u.id == r.id && u.reason == r.reason && u.source == r.source && u.title == r.title
    ensures u.priority == r.priority && u.locationText == r.locationText && u.status == r.status
  {
    r.(latitude := Present(p.lat), longitude := Present(p.lon))
  }

  /** The auto-geocoding loop over the rows without coordinates: each row is
      queried at most once and, when the answer is accepted, joins the result
      with its new coordinates. */
  function GeocodeRows(rows: seq<Row>, geocode: string -> Option<Point>): (r: seq<Row>)
    ensures |r| <= |rows|
    ensures forall i :: 0 <= i < |r| ==> HasCoords(r[i]) && LocationOf(r[i]).lat != 0.0 && LocationOf(r[i]).lon != 0.0
  {
    if |rows| == 0 then []
    else
      var q := GeocodeQuery(rows[0]);
      (if q.Some? && Accepted(geocode(q.value)) then [WithLocation(rows[0], geocode(q.value).value)] else [])
      + GeocodeRows(rows[1..], geocode)
  }

  /** `if bbox and incidents`: keep the rows whose position is inside the
      inclusive box. */
  function InBox(b: BBox): Row -> bool {
    r => HasCoords(r) && InBBox(LocationOf(r), b)
  }

  function BoxFilter(rows: seq<Row>, bbox: Option<BBox>): (r: seq<Row>)
  {
    match bbox
    case None => rows
    case Some(b) => Filter(rows, InBox(b))
  }

  /** `get_active_incidents` after the query: `data` is the response data
      (None when the client is disabled, the query failed or nothing came
      back); the geocoder is the oracle `geocode`. */
  function GetActiveIncidents(data: Option<seq<Row>>, bbox: Option<BBox>, autoGeocode: bool,
                              geocode: string -> Option<Point>): (r: seq<Row>)
    ensures forall i :: 0 <= i < |r| ==> HasCoords(r[i])
    ensures bbox.Some? ==> forall i :: 0 <= i < |r| ==> InBBox(LocationOf(r[i]), bbox.value)
    ensures data.None? ==> r == []
    ensures data.Some? ==> |r| <= |data.value|
  {
    var all := if data.Some? then data.value else [];
    var with := Filter(all, HasCoords);
    var without := Filter(all, LacksCoords);
    var found := if autoGeocode && |without| > 0 then GeocodeRows(without, geocode) else [];
    CoordinatePartition(all);
    var incidents := with + found;
    assert forall i :: 0 <= i < |incidents| ==> HasCoords(incidents[i]) by {
      forall i | 0 <= i < |incidents| ensures HasCoords(incidents[i]) {
        if i >= |with| {
          assert incidents[i] == found[i - |with|];
        }
      }
    }
    BoxFilter(incidents, bbox)
  }

  /** The geocoder is consulted only for the queries that are not skipped:
      two geocoders that agree there give the same result. */
  lemma {:induction false} GeocodeOnlyQueried(rows: seq<Row>, g1: string -> Option<Point>, g2: string -> Option<Point>)
    requires forall i :: 0 <= i < |rows| && GeocodeQuery(rows[i]).Some? ==>
               g1(GeocodeQuery(rows[i]).value) == g2(GeocodeQuery(rows[i]).value)
    ensures GeocodeRows(rows, g1) == GeocodeRows(rows, g2)
  {
    if |rows| > 0 {
      GeocodeOnlyQueried(rows[1..], g1, g2);
    }
  }

  /** Hence the rows with an empty or `http` location text, or none at all,
      never reach the geocoder. */
  lemma SkippedRowsNeverGeocoded(data: seq<Row>, bbox: Option<BBox>, autoGeocode: bool,
                                 g1: string -> Option<Point>, g2: string -> Option<Point>)
    requires forall t :: !(t == [] || StartsWith(t, "http")) ==> g1(t) == g2(t)
    ensures GetActiveIncidents(Some(data), bbox, autoGeocode, g1) == GetActiveIncidents(Some(data), bbox, autoGeocode, g2)
  {
    var without := Filter(data, LacksCoords);
    GeocodeOnlyQueried(without, g1, g2);
  }

  /** Nothing with coordinates is lost: a row that already has coordinates is
      returned exactly when it passes the box. */
  lemma ActiveKeepsLocated(data: seq<Row>, bbox: Option<BBox>, autoGeocode: bool,
                           geocode: string -> Option<Point>, r: Row)
    requires r in data && HasCoords(r)
    requires bbox.Some? ==> InBBox(LocationOf(r), bbox.value)
    ensures r in GetActiveIncidents(Some(data), bbox, autoGeocode, geocode)
  {
    var with := Filter(data, HasCoords);
    var without := Filter(data, LacksCoords);
    var found := if autoGeocode && |without| > 0 then GeocodeRows(without, geocode) else [];
    FilterMembership(data, HasCoords, r);
    assert r in with + found;
    if bbox.Some? {
      FilterMembership(with + found, InBox(bbox.value), r);
    }
  }

  /** Without auto-geocoding and without a box the result is exactly the rows
      that have coordinates, in their original order. */
  lemma ActiveWithoutGeocoding(data: seq<Row>, geocode: string -> Option<Point>)
    ensures GetActiveIncidents(Some(data), None, false, geocode) == Filter(data, HasCoords)
  {
    assert Filter(data, HasCoords) + [] == Filter(data, HasCoords);
  }

  /** A row with a usable location text and no coordinates is returned with
      the geocoder's answer when that answer is accepted and no box is given. */
  lemma GeocodedRowReturned(r: Row, geocode: string -> Option<Point>)
    requires !HasCoords(r) && GeocodeQuery(r).Some?
    requires Accepted(geocode(GeocodeQuery(r).value))
    ensures GetActiveIncidents(Some([r]), None, true, geocode)
            == [WithLocation(r, geocode(GeocodeQuery(r).value).value)]
  {
    assert Filter([r], HasCoords) == [];
    assert Filter([r], LacksCoords) == [r];
    assert [r][1..] == [];
  }

  // ---------------------------------------------------------------------------
  // categorize_supabase_incidents: the per-row fields
  // ---------------------------------------------------------------------------

  /** `priority_to_severity.get(incident.get('priority', 'medium'), 3)`. */
  function SeverityOf(priority: Field<string>): (s: int)
    ensures 2 <= s <= 5
    ensures s == 2 <==> priority == Present("low")
    ensures s == 4 <==> priority == Present("high")
    ensures s == 5 <==> priority == Present("critical")
    ensures priority.Absent? || priority.Null? || priority == Present("medium") ==> s == 3
  {
    match priority
    case Absent => 3
    case Null => 3
    case Present(p) =>
      if p == "low" then 2 else if p == "medium" then 3
      else if p == "high" then 4 else if p == "critical" then 5 else 3
  }

  /** The emitted `priority`: the stored value, `'medium'` when the column is
      missing, None when it is NULL. */
  function PriorityOf(priority: Field<string>): (p: Option<string>)
    ensures priority.Present? ==> p == Some(priority.value)
    ensures priority.Absent? ==> p == Some("medium")
    ensures priority.Null? <==> p.None?
  {
    match priority
    case Absent => Some("medium")
    case Null => None
    case Present(v) => Some(v)
  }

  /** Source, `verified` and `news_url` as derived from the raw `source`. */
  datatype SourceInfo = SourceInfo(source: string, verified: bool, newsUrl: Option<string>)

  /** `'mobile_upload'` is a verified field report; a string starting with
      `http` is a news article whose URL is kept; anything else, including a
      missing or NULL source, is `'unknown'`. */
  function ClassifySource(raw: Field<string>): (s: SourceInfo)
    ensures s.verified <==> raw == Present("mobile_upload")
    ensures s.verified <==> s.source == "mobile_upload"
    ensures s.source == "news_scraper" <==> raw.Present? && StartsWith(raw.value, "http")
    ensures s.newsUrl.Some? <==> s.source == "news_scraper"
    ensures s.newsUrl.Some? ==> raw == Present(s.newsUrl.value)
    ensures s.source == "unknown" <==> !s.verified && s.newsUrl.None?
  {
    var raw' := match raw case Absent => Some("unknown") case Null => None case Present(v) => Some(v);
    var isMobile := raw' == Some("mobile_upload");
    var isNews := raw'.Some? && StartsWith(raw'.value, "http");
    assert "unknown"[0] != "http"[0] && "mobile_upload"[0] != "http"[0];
    if isMobile then SourceInfo("mobile_upload", true, None)
    else if isNews then SourceInfo("news_scraper", false, Some(raw'.value))
    else SourceInfo("unknown", false, None)
  }

  /** The TomTom-style record emitted for one row. */
  datatype IncidentInfo = IncidentInfo(
    description: Option<string>,
    severity: int,
    source: SourceInfo,
    coordinates: seq<Option<real>>,
    locationName: Option<string>,
    incidentId: Option<int>,
    priority: Option<string>,
    status: Option<string>)

  /** `incident.get('title', '')`: None only when the column is NULL. */
  function TitleOf(title: Field<string>): Option<string> {
    match title
    case Absent => Some("")
    case Null => None
    case Present(t) => Some(t)
  }

  function InfoOf(r: Row): (info: IncidentInfo)
    ensures info.coordinates == [r.longitude.Get(), r.latitude.Get()]
    ensures info.severity == SeverityOf(r.priority) && info.source == ClassifySource(r.source)
  {
    IncidentInfo(TitleOf(r.title), SeverityOf(r.priority), ClassifySource(r.source),
                 [r.longitude.Get(), r.latitude.Get()], r.locationText.Get(), r.id.Get(),
                 PriorityOf(r.priority), r.status.Get())
  }

  /** The emitted pair as the scorer's coordinate list, when both are set. */
  function ScorerCoords(info: IncidentInfo): Option<Coords> {
    if |info.coordinates| == 2 && info.coordinates[0].Some? && info.coordinates[1].Some?
    then Some(Flat([info.coordinates[0].value, info.coordinates[1].value]))
    else None
  }

  /** The emitted `[longitude, latitude]` order is the one the scorer reads
      back: its location is the row's (latitude, longitude). */
  lemma CoordinatesRoundTrip(r: Row)
    requires HasCoords(r)
    ensures ScorerCoords(InfoOf(r)).Some?
    ensures RiskModel.ScorerLocation(ScorerCoords(InfoOf(r)).value) == Success(Some(LocationOf(r)))
  {
  }

  // ---------------------------------------------------------------------------
  // categorize_supabase_incidents: the buckets
  // ---------------------------------------------------------------------------

  datatype Category =
    | Accidents | RoadWorks | Closures | WeatherHazards | TrafficJams | VehicleHazards | Protests | Other

  const AllCategories: seq<Category> :=
    [Accidents, RoadWorks, Closures, WeatherHazards, TrafficJams, VehicleHazards, Protests, Other]

  const AccidentReasons: seq<string> := ["accident", "crash", "collision"]
  const RoadWorkReasons: seq<string> := ["construction", "roadwork", "maintenance", "repair"]
  const ClosureReasons: seq<string> := ["closure", "blocked", "closed", "road closure"]
  const WeatherReasons: seq<string> := ["flooding", "flood", "rain", "fog", "weather"]
  const JamReasons: seq<string> := ["congestion", "traffic", "jam", "traffic jam"]
  const VehicleReasons: seq<string> := ["breakdown", "vehicle", "hazard", "vehicle breakdown"]
  const ProtestReasons: seq<string> := ["protest", "rally", "demonstration", "procession", "event"]

  /** The bucket of a lower-cased reason by exact membership in the lists,
      tried in order; a reason in none of them is `other`. */
  function CategoryOfReason(t: string): (c: Category)
  {
    if t in AccidentReasons then Accidents
    else if t in RoadWorkReasons then RoadWorks
    else if t in ClosureReasons then Closures
    else if t in WeatherReasons then WeatherHazards
    else if t in JamReasons then TrafficJams
    else if t in VehicleReasons then VehicleHazards
    else if t in ProtestReasons then Protests
    else Other
  }

  /** The lists are disjoint, so the order of the tests does not matter: a
      reason lands in a bucket exactly when that bucket's list names it, and
      in `other` exactly when no list does. */
  lemma CategoryOfReasonFacts(t: string)
    ensures CategoryOfReason(t) == Accidents <==> t in AccidentReasons
    ensures CategoryOfReason(t) == RoadWorks <==> t in RoadWorkReasons
    ensures CategoryOfReason(t) == Closures <==> t in ClosureReasons
    ensures CategoryOfReason(t) == WeatherHazards <==> t in WeatherReasons
    ensures CategoryOfReason(t) == TrafficJams <==> t in JamReasons
    ensures CategoryOfReason(t) == VehicleHazards <==> t in VehicleReasons
    ensures CategoryOfReason(t) == Protests <==> t in ProtestReasons
    ensures CategoryOfReason(t) == Other <==>
      !(t in AccidentReasons || t in RoadWorkReasons || t in ClosureReasons || t in WeatherReasons
        || t in JamReasons || t in VehicleReasons || t in ProtestReasons)
  {
  }

  /** `incident.get('reason', 'unknown').lower()` as written: a NULL reason is
      None, which has no `lower`. */
  function ReasonTextAsWritten(reason: Field<string>): (r: Result<string>)
    ensures r.Failure? <==> reason.Null?
    ensures reason.Present? ==> r == Success(Lower(reason.value))
  {
    match reason
    case Absent => Success("unknown")
    case Null => Failure(AttributeError)
    case Present(t) => Success(Lower(t))
  }

  /** The reason text with a NULL reason read as `'unknown'`, like a missing one. */
  function ReasonText(reason: Field<string>): (t: string)
    ensures reason.Present? ==> t == Lower(reason.value)
    ensures !reason.Present? ==> t == "unknown"
  {
    if reason.Present? then Lower(reason.value) else "unknown"
  }

  function CategoryOf(r: Row): Category {
    CategoryOfReason(ReasonText(r.reason))
  }

  /** A row without a usable reason is `other`. */
  lemma MissingReasonIsOther(r: Row)
    requires !r.reason.Present?
    ensures CategoryOf(r) == Other
  {
  }

  /** The reason is matched case-insensitively. */
  lemma ReasonExamples(r: Row)
    requires r.reason == Present("Accident")
    ensures CategoryOf(r) == Accidents
  {
    assert Lower("Accident") == "accident";
  }

  /** The eight lists of the returned dictionary. */
  datatype Categorized = Categorized(
    accidents: seq<IncidentInfo>, roadWorks: seq<IncidentInfo>, closures: seq<IncidentInfo>,
    weatherHazards: seq<IncidentInfo>, trafficJams: seq<IncidentInfo>, vehicleHazards: seq<IncidentInfo>,
    protests: seq<IncidentInfo>, other: seq<IncidentInfo>)
  {
    function List(c: Category): seq<IncidentInfo> {
      match c
      case Accidents => accidents
      case RoadWorks => roadWorks
      case Closures => closures
      case WeatherHazards => weatherHazards
      case TrafficJams => trafficJams
      case VehicleHazards => vehicleHazards
      case Protests => protests
      case Other => other
    }

    function Size(): nat {
      |accidents| + |roadWorks| + |closures| + |weatherHazards| + |trafficJams|
      + |vehicleHazards| + |protests| + |other|
    }

    /** `categorized[c].append(info)`. */
    function Append(c: Category, info: IncidentInfo): (r: Categorized)
      ensures forall d :: r.List(d) == List(d) + (if d == c then [info] else [])
      ensures r.Size() == Size() + 1
    {
      match c
      case Accidents => this.(accidents := accidents + [info])
      case RoadWorks => this.(roadWorks := roadWorks + [info])
      case Closures => this.(closures := closures + [info])
      case WeatherHazards => this.(weatherHazards := weatherHazards + [info])
      case TrafficJams => this.(trafficJams := trafficJams + [info])
      case VehicleHazards => this.(vehicleHazards := vehicleHazards + [info])
      case Protests => this.(protests := protests + [info])
      case Other => this.(other := other + [info])
    }
  }

  const NoIncidents: Categorized := Categorized([], [], [], [], [], [], [], [])

  /** The emitted records of some rows, in order. */
  function Infos(rows: seq<Row>): (r: seq<IncidentInfo>)
    ensures |r| == |rows|
    ensures forall i :: 0 <= i < |rows| ==> r[i] == InfoOf(rows[i])
  {
    if |rows| == 0 then [] else [InfoOf(rows[0])] + Infos(rows[1..])
  }

  lemma {:induction false} InfosConcat(a: seq<Row>, b: seq<Row>)
    ensures Infos(a + b) == Infos(a) + Infos(b)
  {
  }

  /** The rows appended one by one to the list of their category under `cat`. */
  function CategorizeBy(rows: seq<Row>, cat: Row -> Category): (r: Categorized)
    ensures r.Size() == |rows|
  {
    if |rows| == 0 then NoIncidents
    else
      var last := rows[|rows| - 1];
      CategorizeBy(rows[..|rows| - 1], cat).Append(cat(last), InfoOf(last))
  }

  /** The returned dictionary with a NULL reason read as `'unknown'`. */
  function Categorize(rows: seq<Row>): (r: Categorized)
    ensures r.Size() == |rows|
  {
    CategorizeBy(rows, CategoryOf)
  }

  lemma {:induction false} CategorizeByList(rows: seq<Row>, cat: Row -> Category, c: Category)
    ensures CategorizeBy(rows, cat).List(c) == Infos(Bucket(rows, cat, c))
  {
    if |rows| > 0 {
      var init := rows[..|rows| - 1];
      var last := rows[|rows| - 1];
      var tail := if cat(last) == c then [last] else [];
      var prev := CategorizeBy(init, cat);
      CategorizeByList(init, cat, c);
      BucketInit(rows, cat, c);
      InfosConcat(Bucket(init, cat, c), tail);
      assert Infos(tail) == if cat(last) == c then [InfoOf(last)] else [];
      assert CategorizeBy(rows, cat).List(c) == prev.List(c) + (if cat(last) == c then [InfoOf(last)] else []);
    }
  }

  /** Each list holds the records of exactly the rows of its category, in
      input order. */
  lemma CategorizeList(rows: seq<Row>, c: Category)
    ensures Categorize(rows).List(c) == Infos(Bucket(rows, CategoryOf, c))
  {
    CategorizeByList(rows, CategoryOf, c);
  }

  /** Every row lands in exactly one list: its record is in the list of its
      category, everything in a list comes from a row of that category, and
      the sizes add up to the number of rows. */
  lemma CategorizeMember(rows: seq<Row>, c: Category, x: IncidentInfo)
    ensures x in Categorize(rows).List(c) <==> exists i :: 0 <= i < |rows| && CategoryOf(rows[i]) == c && InfoOf(rows[i]) == x
  {
    CategorizeList(rows, c);
    if x in Categorize(rows).List(c) {
      MemberFromRow(rows, c, x);
    }
    if exists i :: 0 <= i < |rows| && CategoryOf(rows[i]) == c && InfoOf(rows[i]) == x {
      var i :| 0 <= i < |rows| && CategoryOf(rows[i]) == c && InfoOf(rows[i]) == x;
      RowToMember(rows, c, i);
    }
  }

  lemma MemberFromRow(rows: seq<Row>, c: Category, x: IncidentInfo)
    requires x in Infos(Bucket(rows, CategoryOf, c))
    ensures exists i :: 0 <= i < |rows| && CategoryOf(rows[i]) == c && InfoOf(rows[i]) == x
  {
    var b := Bucket(rows, CategoryOf, c);
    var j :| 0 <= j < |b| && Infos(b)[j] == x;
    BucketMembership(rows, CategoryOf, c, b[j]);
    var i :| 0 <= i < |rows| && rows[i] == b[j];
    assert CategoryOf(rows[i]) == c && InfoOf(rows[i]) == x;
  }

  lemma RowToMember(rows: seq<Row>, c: Category, i: int)
    requires 0 <= i < |rows| && CategoryOf(rows[i]) == c
    ensures InfoOf(rows[i]) in Infos(Bucket(rows, CategoryOf, c))
  {
    var b := Bucket(rows, CategoryOf, c);
    BucketMembership(rows, CategoryOf, c, rows[i]);
    var j :| 0 <= j < |b| && b[j] == rows[i];
    assert Infos(b)[j] == InfoOf(rows[i]);
  }

  /** The bucket sizes add up as a partition over the eight categories. */
  lemma CategorizePartition(rows: seq<Row>)
    ensures |Bucket(rows, CategoryOf, Accidents)| + |Bucket(rows, CategoryOf, RoadWorks)|
            + |Bucket(rows, CategoryOf, Closures)| + |Bucket(rows, CategoryOf, WeatherHazards)|
            + |Bucket(rows, CategoryOf, TrafficJams)| + |Bucket(rows, CategoryOf, VehicleHazards)|
            + |Bucket(rows, CategoryOf, Protests)| + |Bucket(rows, CategoryOf, Other)| == |rows|
  {
    assert Distinct(AllCategories);
    PartitionTotal(rows, CategoryOf, AllCategories);
    BucketSizes8(rows, CategoryOf, Accidents, RoadWorks, Closures, WeatherHazards, TrafficJams,
                 VehicleHazards, Protests, Other);
  }

  /** The loop as written: rows are appended one by one, and the first row
      whose reason is NULL raises AttributeError. */
  function CategorizeAsWritten(rows: seq<Row>): (r: Result<Categorized>)
  {
    if |rows| == 0 then Success(NoIncidents)
    else
      match CategorizeAsWritten(rows[..|rows| - 1])
      case Failure(e) => Failure(e)
      case Success(c) =>
        var last := rows[|rows| - 1];
        match ReasonTextAsWritten(last.reason)
        case Failure(e) => Failure(e)
        case Success(t) => Success(c.Append(CategoryOfReason(t), InfoOf(last)))
  }

  /** The loop fails exactly when some row has a NULL reason; otherwise it
      agrees with the corrected version. */
  lemma {:induction false} CategorizeAgrees(rows: seq<Row>)
    ensures CategorizeAsWritten(rows).Failure? <==> exists i :: 0 <= i < |rows| && rows[i].reason.Null?
    ensures CategorizeAsWritten(rows).Failure? ==> CategorizeAsWritten(rows).error == AttributeError
    ensures CategorizeAsWritten(rows).Success? ==> CategorizeAsWritten(rows).value == Categorize(rows)
  {
    if |rows| > 0 {
      var init := rows[..|rows| - 1];
      var last := rows[|rows| - 1];
      CategorizeAgrees(init);
      assert forall i :: 0 <= i < |init| ==> init[i] == rows[i];
      if exists i :: 0 <= i < |rows| && rows[i].reason.Null? {
        var i :| 0 <= i < |rows| && rows[i].reason.Null?;
        if i < |init| {
          assert init[i].reason.Null?;
        }
      }
    }
  }

  /** The smallest input that shows the failure: one row stored with a NULL
      reason, which the corrected version files under `other`. */
  lemma NullReasonRaises(r: Row)
    requires r.reason.Null?
    ensures CategorizeAsWritten([r]) == Failure(AttributeError)
    ensures Categorize([r]).other == [InfoOf(r)]
  {
    assert [r][..0] == [];
    assert [r][1..] == [];
  }
}
