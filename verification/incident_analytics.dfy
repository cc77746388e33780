/** Incident analytics over categorised incidents: distribution counts, the
    post-processing of density-clustering labels into risk clusters, and the
    heatmap triples. The clustering itself is an oracle giving one label per
    located incident, -1 for noise. */
module IncidentAnalytics {
  import opened Wrappers
  import opened Text
  import opened Seqs
  import opened Sorting
  import opened Geo
  import opened Counters
  import RiskModel

  /** A `priority` or `severity` value: text, an integer, or null. */
  datatype PriorityValue = PText(text: string) | PInt(n: int) | PNull

  /** An incident's `description`: missing, null, or text. */
  datatype Description = NoDescription | NullDescription | DescriptionText(text: string)

  /** One incident of a category list: its `source` ("unknown" when absent),
      `priority` and `severity` when present, `coordinates` (None when
      absent or null) and `description`. */
  datatype Incident = Incident(
    source: string, priority: Option<PriorityValue>, severity: Option<PriorityValue>,
    coordinates: Option<Coords>, description: Description)

  /** Category name to incidents, in dictionary order. */
  type CategorizedData = seq<(string, seq<Incident>)>

  function SizeOf(data: CategorizedData): nat {
    if |data| == 0 then 0 else |data[0].1| + SizeOf(data[1..])
  }

  // ---------------------------------------------------------------------------
  // Distribution
  // ---------------------------------------------------------------------------

  datatype Distribution = Distribution(
    total: nat, byCategory: Counts<string>, bySource: Counts<string>, byPriority: Counts<string>,
    mobileAppCount: nat, newsCount: nat, officialCount: nat)

  function EmptyDistribution(): Distribution {
    Distribution(0, [], [], [], 0, 0, 0)
  }

  datatype SourceClass = MobileApp | Official | News | OtherSource

  function SourceClassOf(source: string): SourceClass {
    if source == "mobile_upload" then MobileApp
    else if source == "tomtom" then Official
    else if source == "news_scraper" || StartsWith(source, "http") then News
    else OtherSource
  }

  /** The `by_source` key: the three known classes get display names, any
      other source is counted under itself. */
  function SourceLabel(source: string): string {
    match SourceClassOf(source)
    case MobileApp => "Mobile App"
    case Official => "TomTom Official"
    case News => "News Sources"
    case OtherSource => source
  }

  /** Integer severities 1-5 map to priority labels, other integers to
      medium; text is lower-cased; null prints as "none". */
  function SeverityLabel(n: int): (s: string)
    ensures s in {"low", "medium", "high", "critical"}
    ensures s == "medium" <==> n == 3 || n < 1 || n > 5
  {
    if n == 1 || n == 2 then "low"
    else if n == 3 then "medium"
    else if n == 4 then "high"
    else if n == 5 then "critical"
    else "medium"
  }

  function PriorityLabel(p: PriorityValue): string {
    match p
    case PInt(n) => SeverityLabel(n)
    case PText(t) => Lower(t)
    case PNull => "none"
  }

  /** `priority`, else `severity`, else "medium". */
  function DistributionPriority(inc: Incident): PriorityValue {
    if inc.priority.Some? then inc.priority.value
    else inc.severity.GetOr(PText("medium"))
  }

  function AddIncident(d: Distribution, inc: Incident): Distribution {
    var cls := SourceClassOf(inc.source);
    d.(bySource := Bump(d.bySource, SourceLabel(inc.source)),
       byPriority := Bump(d.byPriority, PriorityLabel(DistributionPriority(inc))),
       mobileAppCount := d.mobileAppCount + (if cls == MobileApp then 1 else 0),
       officialCount := d.officialCount + (if cls == Official then 1 else 0),
       newsCount := d.newsCount + (if cls == News then 1 else 0))
  }

  function AddIncidents(d: Distribution, incs: seq<Incident>): Distribution
    decreases |incs|
  {
    if |incs| == 0 then d else AddIncidents(AddIncident(d, incs[0]), incs[1..])
  }

  function AddCategories(d: Distribution, data: CategorizedData): Distribution
    decreases |data|
  {
    if |data| == 0 then d
    else
      var (category, incs) := data[0];
      AddCategories(AddIncidents(WithCategory(d, category, |incs|), incs), data[1..])
  }

  /** `by_category[category] = len(incidents)` and `total += len(incidents)`. */
  function WithCategory(d: Distribution, category: string, n: nat): (r: Distribution)
    ensures r.total == d.total + n && r.byCategory == Put(d.byCategory, category, n)
    ensures r.bySource == d.bySource && r.byPriority == d.byPriority
    ensures r.mobileAppCount == d.mobileAppCount && r.officialCount == d.officialCount && r.newsCount == d.newsCount
  {
    d.(byCategory := Put(d.byCategory, category, n), total := d.total + n)
  }

  /** `analyze_incident_distribution`. */
  function AnalyzeDistribution(data: CategorizedData): Distribution {
    AddCategories(EmptyDistribution(), data)
  }

  /** The bookkeeping invariant: each incident adds one to `total` (via its
      category), one to `by_source`, one to `by_priority`, and at most one to
      the three named counters. */
  predicate Balanced(d: Distribution) {
    Total(d.bySource) == Total(d.byPriority)
    && d.mobileAppCount + d.officialCount + d.newsCount <= Total(d.bySource)
  }

  lemma {:induction false} AddIncidentsFacts(d: Distribution, incs: seq<Incident>)
    requires Balanced(d)
    ensures var r := AddIncidents(d, incs);
      Balanced(r) && Total(r.bySource) == Total(d.bySource) + |incs|
      && r.total == d.total && r.byCategory == d.byCategory
    decreases |incs|
  {
    if |incs| > 0 {
      var inc := incs[0];
      BumpTotal(d.bySource, SourceLabel(inc.source));
      BumpTotal(d.byPriority, PriorityLabel(DistributionPriority(inc)));
      AddIncidentsFacts(AddIncident(d, inc), incs[1..]);
    }
  }

  lemma {:induction false} AddCategoriesFacts(d: Distribution, data: CategorizedData)
    requires Balanced(d) && Total(d.bySource) == d.total
    ensures var r := AddCategories(d, data);
      Balanced(r) && r.total == d.total + SizeOf(data) && Total(r.bySource) == r.total
    decreases |data|
  {
    if |data| > 0 {
      var (category, incs) := data[0];
      var d1 := WithCategory(d, category, |incs|);
      var d2 := AddIncidents(d1, incs);
      AddIncidentsFacts(d1, incs);
      assert Balanced(d2) && Total(d2.bySource) == d2.total;
      AddCategoriesFacts(d2, data[1..]);
      assert AddCategories(d, data) == AddCategories(d2, data[1..]);
      assert SizeOf(data) == |incs| + SizeOf(data[1..]);
    }
  }

  /** `total` is the sum of the category sizes, and `by_source` and
      `by_priority` each count every incident exactly once. */
  lemma DistributionTotals(data: CategorizedData)
    ensures var r := AnalyzeDistribution(data);
      r.total == SizeOf(data) && Total(r.bySource) == r.total && Total(r.byPriority) == r.total
      && r.mobileAppCount + r.officialCount + r.newsCount <= r.total
  {
    AddCategoriesFacts(EmptyDistribution(), data);
  }

  /** Incident processing never touches `by_category`. */
  lemma {:induction false} AddIncidentsKeepsCategories(d: Distribution, incs: seq<Incident>)
    ensures AddIncidents(d, incs).byCategory == d.byCategory
    decreases |incs|
  {
    if |incs| > 0 {
      AddIncidentsKeepsCategories(AddIncident(d, incs[0]), incs[1..]);
    }
  }

  predicate DistinctCategories(data: CategorizedData) {
    forall i, j :: 0 <= i < j < |data| ==> data[i].0 != data[j].0
  }

  /** Some entry of `data` is named `c`. */
  function Named(data: CategorizedData, c: string): (b: bool)
    ensures b <==> exists i :: 0 <= i < |data| && data[i].0 == c
  {
    if |data| == 0 then false
    else
      assert forall i :: 0 < i < |data| ==> data[i] == data[1..][i - 1];
      data[0].0 == c || Named(data[1..], c)
  }

  /** Dropping the first entry keeps the names distinct, and the first name
      does not come back. */
  lemma DistinctTail(data: CategorizedData)
    requires DistinctCategories(data) && |data| > 0
    ensures DistinctCategories(data[1..]) && !Named(data[1..], data[0].0)
  {
    forall i, j | 0 <= i < j < |data[1..]| ensures data[1..][i].0 != data[1..][j].0 {
      assert data[1..][i] == data[i + 1] && data[1..][j] == data[j + 1];
    }
    forall i | 0 <= i < |data[1..]| ensures data[1..][i].0 != data[0].0 {
      assert data[1..][i] == data[i + 1];
    }
  }

  /** `by_category[c]` is the size of the entry named `c`, and is untouched
      when no entry has that name. */
  lemma {:induction false} AddCategoriesByCategory(d: Distribution, data: CategorizedData, c: string)
    requires DistinctCategories(data)
    ensures Get(AddCategories(d, data).byCategory, c)
            == if Named(data, c) then CategorySize(data, c) else Get(d.byCategory, c)
    decreases |data|
  {
    if |data| > 0 {
      var (category, incs) := data[0];
      var d1 := WithCategory(d, category, |incs|);
      AddIncidentsKeepsCategories(d1, incs);
      DistinctTail(data);
      AddCategoriesByCategory(AddIncidents(d1, incs), data[1..], c);
      PutGet(d.byCategory, category, |incs|, c);
    }
  }

  /** The size of the first category named `c`. */
  function CategorySize(data: CategorizedData, c: string): nat {
    if |data| == 0 then 0
    else if data[0].0 == c then |data[0].1|
    else CategorySize(data[1..], c)
  }

  /** With the distinct keys of a dictionary, `by_category` holds each
      category's size. */
  lemma DistributionByCategory(data: CategorizedData, i: nat)
    requires DistinctCategories(data) && i < |data|
    ensures Get(AnalyzeDistribution(data).byCategory, data[i].0) == |data[i].1|
  {
    AddCategoriesByCategory(EmptyDistribution(), data, data[i].0);
    FirstCategorySize(data, i);
  }

  lemma {:induction false} FirstCategorySize(data: CategorizedData, i: nat)
    requires DistinctCategories(data) && i < |data|
    ensures CategorySize(data, data[i].0) == |data[i].1|
  {
    if i > 0 {
      assert DistinctCategories(data[1..]) by {
        forall a, b | 0 <= a < b < |data[1..]| ensures data[1..][a].0 != data[1..][b].0 {
          assert data[1..][a] == data[a + 1] && data[1..][b] == data[b + 1];
        }
      }
      assert data[1..][i - 1] == data[i];
      FirstCategorySize(data[1..], i - 1);
    }
  }

  lemma SeverityLabelExamples()
    ensures PriorityLabel(PInt(2)) == "low" && PriorityLabel(PInt(5)) == "critical"
    ensures PriorityLabel(PInt(9)) == "medium" && PriorityLabel(PText("HIGH")) == "high"
  {
    assert Lower("HIGH") == "high";
  }

  // ---------------------------------------------------------------------------
  // Locating incidents
  // ---------------------------------------------------------------------------

  /** Coordinates as the analytics read them: at least two outer entries; a
      nested list uses its first point as [lon, lat] (and raises IndexError
      if that point is shorter than 2), a flat list is [lon, lat]. */
  function AnalyticsLocation(c: Option<Coords>): (r: Result<Option<Point>>)
    ensures c.None? || CoordsLength(c.value) < 2 ==> r == Success(None)
    ensures r.Failure? <==> c.Some? && c.value.Nested? && |c.value.points| >= 2 && |c.value.points[0]| < 2
    ensures c.Some? && c.value.Flat? && |c.value.values| >= 2 ==>
      r == Success(Some(Point(c.value.values[1], c.value.values[0])))
    ensures c.Some? && c.value.Nested? && |c.value.points| >= 2 && |c.value.points[0]| >= 2 ==>
      r == Success(Some(Point(c.value.points[0][1], c.value.points[0][0])))
  {
    match c
    case None => Success(None)
    case Some(Flat(v)) => if |v| >= 2 then Success(Some(Point(v[1], v[0]))) else Success(None)
    case Some(Nested(ps)) =>
      if |ps| < 2 then Success(None)
      else if |ps[0]| < 2 then Failure(IndexError)
      else Success(Some(Point(ps[0][1], ps[0][0])))
  }

  /** Where the analytics find a location, the risk scorer reads the same
      one; the scorer also accepts a nested list with a single point. */
  lemma AnalyticsAgreesWithScorer(c: Coords)
    ensures AnalyticsLocation(Some(c)).Success? && AnalyticsLocation(Some(c)).value.Some? ==>
            RiskModel.ScorerLocation(c) == AnalyticsLocation(Some(c))
    ensures c.Nested? && |c.points| == 1 && |c.points[0]| >= 2 ==>
            AnalyticsLocation(Some(c)) == Success(None) && RiskModel.ScorerLocation(c).value.Some?
  {
  }

  /** An incident with its category and analytics location. */
  datatype Located = Located(category: string, incident: Incident, location: Point)

  /** `description[:100]` of a clustered incident: a missing description
      reads as empty text, a null one cannot be sliced. */
  function DescriptionPrefix(d: Description): (r: Result<string>)
    ensures r.Failure? <==> d.NullDescription?
    ensures d.NoDescription? ==> r == Success("")
    ensures d.DescriptionText? ==>
      r.Success? && |r.value| == (if |d.text| < 100 then |d.text| else 100) && r.value <= d.text
  {
    match d
    case NoDescription => Success("")
    case NullDescription => Failure(TypeError)
    case DescriptionText(t) => Success(if |t| < 100 then t else t[..100])
  }

  /** The located incidents of one category list. The clustering (`details`)
      also reads each located incident's description; the heatmap does not. */
  function LocateList(category: string, incs: seq<Incident>, details: bool): (r: Result<seq<Located>>)
    ensures r.Success? ==> |r.value| <= |incs|
    ensures r.Failure? ==> r.error == IndexError || (details && r.error == TypeError)
    ensures r.Failure? && r.error == TypeError ==>
      exists i :: 0 <= i < |incs| && HasTwoCoords(incs[i]) && incs[i].description.NullDescription?
  {
    if |incs| == 0 then Success([])
    else
      match AnalyticsLocation(incs[0].coordinates)
      case Failure(e) => Failure(e)
      case Success(loc) =>
        if details && loc.Some? && DescriptionPrefix(incs[0].description).Failure? then
          Failure(TypeError)
        else
          match LocateList(category, incs[1..], details)
          case Failure(e) =>
            assert e == TypeError ==> exists i :: 1 <= i < |incs| && HasTwoCoords(incs[i]) && incs[i].description.NullDescription? by {
              if e == TypeError {
                var i :| 0 <= i < |incs[1..]| && HasTwoCoords(incs[1..][i]) && incs[1..][i].description.NullDescription?;
                assert incs[1..][i] == incs[i + 1];
              }
            }
            Failure(e)
          case Success(rest) =>
            Success((if loc.Some? then [Located(category, incs[0], loc.value)] else []) + rest)
  }

  /** The located incidents of all categories, in dictionary order. */
  function LocateAll(data: CategorizedData, details: bool): (r: Result<seq<Located>>)
    ensures r.Failure? ==> r.error == IndexError || (details && r.error == TypeError)
  {
    if |data| == 0 then Success([])
    else
      match LocateList(data[0].0, data[0].1, details)
      case Failure(e) => Failure(e)
      case Success(first) =>
        match LocateAll(data[1..], details)
        case Failure(e) => Failure(e)
        case Success(rest) => Success(first + rest)
  }

  /** Reading descriptions only adds failures: where the clustering locates
      without raising, the heatmap locates the same incidents, and a failure
      other than the null-description TypeError is one the heatmap raises too. */
  lemma {:induction false} DetailsOnlyAddTypeError(category: string, incs: seq<Incident>)
    ensures var withDetails := LocateList(category, incs, true);
      (withDetails.Success? || withDetails.error != TypeError) ==> LocateList(category, incs, false) == withDetails
  {
    if |incs| > 0 {
      DetailsOnlyAddTypeError(category, incs[1..]);
    }
  }

  /** A located incident whose description is null makes the clustering raise
      TypeError, while the heatmap still locates it. */
  lemma NullDescriptionRaises(inc: Incident)
    requires inc.coordinates == Some(Flat([73.85, 18.52])) && inc.description == NullDescription
    ensures LocateList("accidents", [inc], true) == Failure(TypeError)
    ensures LocateList("accidents", [inc], false) == Success([Located("accidents", inc, Point(18.52, 73.85))])
  {
    assert [inc][1..] == [];
    assert AnalyticsLocation(inc.coordinates) == Success(Some(Point(18.52, 73.85)));
    assert LocateList("accidents", [], false) == Success([]);
    var l := Located("accidents", inc, Point(18.52, 73.85));
    assert [l] + [] == [l];
  }

  /** An incident is located when its coordinates have two outer entries. */
  predicate HasTwoCoords(inc: Incident) {
    inc.coordinates.Some? && CoordsLength(inc.coordinates.value) >= 2
  }

  function CountLocatable(data: CategorizedData): nat {
    if |data| == 0 then 0 else Count(data[0].1, HasTwoCoords) + CountLocatable(data[1..])
  }

  lemma {:induction false} LocateListCount(category: string, incs: seq<Incident>, details: bool)
    requires LocateList(category, incs, details).Success?
    ensures |LocateList(category, incs, details).value| == Count(incs, HasTwoCoords)
    ensures forall l :: l in LocateList(category, incs, details).value ==> l.category == category
  {
    if |incs| > 0 {
      LocateListCount(category, incs[1..], details);
    }
  }

  /** Exactly the incidents with two coordinate entries are located. */
  lemma {:induction false} LocateAllCount(data: CategorizedData, details: bool)
    requires LocateAll(data, details).Success?
    ensures |LocateAll(data, details).value| == CountLocatable(data)
  {
    if |data| > 0 {
      LocateListCount(data[0].0, data[0].1, details);
      LocateAllCount(data[1..], details);
    }
  }

  // ---------------------------------------------------------------------------
  // Heatmap
  // ---------------------------------------------------------------------------

  /** The value a heat weight is read from: `priority`, else `severity`,
      else the integer 3. */
  function HeatSource(inc: Incident): PriorityValue {
    if inc.priority.Some? then inc.priority.value else inc.severity.GetOr(PInt(3))
  }

  /** Text priorities weigh low 2, medium 3, high 4, critical 5, other text 3;
      an integer is its own weight; null stays null. */
  function HeatWeight(inc: Incident): (w: Option<int>)
    ensures inc.priority.None? && inc.severity.None? ==> w == Some(3)
    ensures var p := HeatSource(inc);
      (p.PText? ==>
         (Lower(p.text) == "low" ==> w == Some(2))
         && (Lower(p.text) == "medium" ==> w == Some(3))
         && (Lower(p.text) == "high" ==> w == Some(4))
         && (Lower(p.text) == "critical" ==> w == Some(5))
         && (Lower(p.text) !in ["low", "medium", "high", "critical"] ==> w == Some(3)))
      && (p.PInt? ==> w == Some(p.n))
      && (p.PNull? ==> w.None?)
  {
    match HeatSource(inc)
    case PText(t) =>
      var key := Lower(t);
      Some(if key == "low" then 2 else if key == "high" then 4 else if key == "critical" then 5 else 3)
    case PInt(n) => Some(n)
    case PNull => None
  }

  datatype HeatPoint = HeatPoint(lat: real, lon: real, weight: Option<int>)

  function HeatPoints(ls: seq<Located>): (r: seq<HeatPoint>)
    ensures |r| == |ls|
    ensures forall i :: 0 <= i < |ls| ==> r[i].lat == ls[i].location.lat && r[i].lon == ls[i].location.lon
    ensures forall i :: 0 <= i < |ls| ==> r[i].weight == HeatWeight(ls[i].incident)
  {
    if |ls| == 0 then []
    else [HeatPoint(ls[0].location.lat, ls[0].location.lon, HeatWeight(ls[0].incident))] + HeatPoints(ls[1..])
  }

  /** `get_incident_heatmap_data`: one triple per located incident. */
  function IncidentHeatmap(data: CategorizedData): (r: Result<seq<HeatPoint>>)
    ensures r.Success? <==> LocateAll(data, false).Success?
    ensures r.Success? ==> |r.value| == CountLocatable(data)
    // The i-th triple is the i-th located incident's position and heat weight.
    ensures r.Success? ==>
      var ls := LocateAll(data, false).value;
      |r.value| == |ls|
      && forall i :: 0 <= i < |ls| ==>
           r.value[i] == HeatPoint(ls[i].location.lat, ls[i].location.lon, HeatWeight(ls[i].incident))
  {
    match LocateAll(data, false)
    case Failure(e) => Failure(e)
    case Success(ls) =>
      LocateAllCount(data, false);
      Success(HeatPoints(ls))
  }

  // ---------------------------------------------------------------------------
  // Clusters
  // ---------------------------------------------------------------------------

  datatype ClusterRisk = LowRisk | MediumRisk | HighRisk | CriticalRisk

  function RiskRank(r: ClusterRisk): nat {
    match r
    case LowRisk => 0
    case MediumRisk => 1
    case HighRisk => 2
    case CriticalRisk => 3
  }

  /** `_calculate_cluster_risk` on the member count and the number of
      high-or-critical members. */
  function CalculateClusterRisk(count: nat, highPriority: nat): (r: ClusterRisk)
    ensures r == CriticalRisk <==> count >= 5 || highPriority >= 3
    ensures r == HighRisk <==> count < 5 && highPriority < 3 && (count >= 3 || highPriority >= 2)
    ensures r == MediumRisk <==> count == 2 && highPriority < 2
    ensures r == LowRisk <==> count < 2 && highPriority < 2
  {
    if count >= 5 || highPriority >= 3 then CriticalRisk
    else if count >= 3 || highPriority >= 2 then HighRisk
    else if count >= 2 then MediumRisk
    else LowRisk
  }

  /** More members, or more urgent members, never lower the level. */
  lemma ClusterRiskMonotone(c1: nat, h1: nat, c2: nat, h2: nat)
    requires c1 <= c2 && h1 <= h2
    ensures RiskRank(CalculateClusterRisk(c1, h1)) <= RiskRank(CalculateClusterRisk(c2, h2))
  {
  }

  /** A cluster member: `priority` defaults to "medium" here (no severity
      fallback). */
  function MemberPriority(l: Located): PriorityValue {
    l.incident.priority.GetOr(PText("medium"))
  }

  predicate IsHighPriority(l: Located) {
    MemberPriority(l) == PText("high") || MemberPriority(l) == PText("critical")
  }

  datatype Cluster = Cluster(
    id: int, center: Point, count: nat, categories: Counts<string>, sources: Counts<string>,
    priorities: Counts<PriorityValue>, members: seq<Located>, risk: ClusterRisk)

  function Categories(ms: seq<Located>): (r: seq<string>)
    ensures |r| == |ms|
  {
    seq(|ms|, i requires 0 <= i < |ms| => ms[i].category)
  }

  function Sources(ms: seq<Located>): (r: seq<string>)
    ensures |r| == |ms|
  {
    seq(|ms|, i requires 0 <= i < |ms| => ms[i].incident.source)
  }

  function Priorities(ms: seq<Located>): (r: seq<PriorityValue>)
    ensures |r| == |ms|
  {
    seq(|ms|, i requires 0 <= i < |ms| => MemberPriority(ms[i]))
  }

  function SumLat(ms: seq<Located>): real {
    if |ms| == 0 then 0.0 else ms[0].location.lat + SumLat(ms[1..])
  }

  function SumLon(ms: seq<Located>): real {
    if |ms| == 0 then 0.0 else ms[0].location.lon + SumLon(ms[1..])
  }

  /** One cluster from its id (the label) and (non-empty) members: counts
      per category, source and priority, the mean position, and the risk. */
  function MakeCluster(id: int, ms: seq<Located>): (c: Cluster)
    requires |ms| > 0
    ensures c.id == id && c.count == |ms| && c.members == ms
    ensures c.risk == CalculateClusterRisk(c.count, Count(ms, IsHighPriority))
    ensures c.center == Centre(ms)
  {
    Cluster(id, Centre(ms), |ms|,
            CountAll(Categories(ms)), CountAll(Sources(ms)), CountAll(Priorities(ms)),
            ms, CalculateClusterRisk(|ms|, Count(ms, IsHighPriority)))
  }

  /** The mean member position: times the member count it gives back the
      coordinate sums. */
  function Centre(ms: seq<Located>): (p: Point)
    requires |ms| > 0
    ensures p.lat * (|ms| as real) == SumLat(ms) && p.lon * (|ms| as real) == SumLon(ms)
  {
    var n := |ms| as real;
    MeanTimesCount(SumLat(ms), n);
    MeanTimesCount(SumLon(ms), n);
    Point(SumLat(ms) / n, SumLon(ms) / n)
  }

  lemma MeanTimesCount(sum: real, n: real)
    requires n > 0.0
    ensures (sum / n) * n == sum
  {
  }

  /** Each breakdown of a cluster counts every member once. */
  lemma ClusterBreakdown(id: int, ms: seq<Located>)
    requires |ms| > 0
    ensures var c := MakeCluster(id, ms);
      Total(c.categories) == c.count && Total(c.sources) == c.count && Total(c.priorities) == c.count
  {
    CountAllTotal(Categories(ms));
    CountAllTotal(Sources(ms));
    CountAllTotal(Priorities(ms));
  }

  /** Pair every located incident with its label. */
  function Labelled(ls: seq<Located>, labels: seq<int>): (r: seq<(Located, int)>)
    requires |labels| == |ls|
    ensures |r| == |ls|
    ensures forall i :: 0 <= i < |r| ==> r[i] == (ls[i], labels[i])
  {
    seq(|ls|, i requires 0 <= i < |ls| => (ls[i], labels[i]))
  }

  function LabelOf(p: (Located, int)): int {
    p.1
  }

  function Firsts(ps: seq<(Located, int)>): (r: seq<Located>)
    ensures |r| == |ps|
    ensures forall i :: 0 <= i < |ps| ==> r[i] == ps[i].0
  {
    seq(|ps|, i requires 0 <= i < |ps| => ps[i].0)
  }

  function LabelKey(l: int): real {
    l as real
  }

  /** The distinct labels other than noise, ascending (the iteration order of
      a set of small integers). */
  function ClusterLabels(labels: seq<int>): (r: seq<int>)
    ensures forall l :: l in r <==> l in labels && l != -1
    ensures forall i, j :: 0 <= i < j < |r| ==> r[i] < r[j]
  {
    var distinct := Keys(CountAll(labels));
    var nonNoise := Filter(distinct, NotNoise);
    var r := SortBy(nonNoise, LabelKey);
    CountAllFacts(labels);
    SortFacts(nonNoise, LabelKey);
    forall l ensures l in nonNoise <==> l in labels && l != -1 {
      FilterMembership(distinct, NotNoise, l);
    }
    assert forall l :: l in r <==> l in nonNoise by {
      forall l ensures l in r <==> l in nonNoise {
        assert l in r <==> l in multiset(r);
      }
    }
    DistinctFilter(distinct, NotNoise);
    KeysDistinct(CountAll(labels));
    DistinctSorted(nonNoise);
    r
  }

  function NotNoise(l: int): bool {
    l != -1
  }

  lemma KeysDistinct<K>(c: Counts<K>)
    requires DistinctKeys(c)
    ensures forall i, j :: 0 <= i < j < |Keys(c)| ==> Keys(c)[i] != Keys(c)[j]
  {
  }

  lemma {:induction false} DistinctFilter(xs: seq<int>, p: int -> bool)
    requires forall i, j :: 0 <= i < j < |xs| ==> xs[i] != xs[j]
    ensures forall i, j :: 0 <= i < j < |Filter(xs, p)| ==> Filter(xs, p)[i] != Filter(xs, p)[j]
  {
    if |xs| > 0 {
      assert forall i, j :: 0 <= i < j < |xs[1..]| ==> xs[1..][i] != xs[1..][j] by {
        forall i, j | 0 <= i < j < |xs[1..]| ensures xs[1..][i] != xs[1..][j] {
          assert xs[1..][i] == xs[i + 1] && xs[1..][j] == xs[j + 1];
        }
      }
      DistinctFilter(xs[1..], p);
      assert xs[0] !in xs[1..];
      assert xs[0] !in Filter(xs[1..], p);
    }
  }

  /** Sorting distinct labels by value leaves them strictly ascending. */
  lemma DistinctSorted(xs: seq<int>)
    requires forall i, j :: 0 <= i < j < |xs| ==> xs[i] != xs[j]
    ensures forall i, j :: 0 <= i < j < |SortBy(xs, LabelKey)| ==> SortBy(xs, LabelKey)[i] < SortBy(xs, LabelKey)[j]
  {
    var s := SortBy(xs, LabelKey);
    SortFacts(xs, LabelKey);
    forall i, j | 0 <= i < j < |s| ensures s[i] < s[j] {
      assert LabelKey(s[i]) <= LabelKey(s[j]);
      if s[i] == s[j] {
        TwiceInMultiset(s, i, j);
        MultiplicityOfDistinct(xs, s[i]);
      }
    }
  }

  /** The members of the cluster labelled `l`, in located order. */
  function MembersOf(ls: seq<Located>, labels: seq<int>, l: int): (ms: seq<Located>)
    requires |labels| == |ls|
  {
    Firsts(Bucket(Labelled(ls, labels), LabelOf, l))
  }

  lemma MembersNonEmpty(ls: seq<Located>, labels: seq<int>, l: int)
    requires |labels| == |ls| && l in labels
    ensures |MembersOf(ls, labels, l)| > 0
  {
    var i :| 0 <= i < |labels| && labels[i] == l;
    var ps := Labelled(ls, labels);
    BucketMembership(ps, LabelOf, l, ps[i]);
  }

  function ClusterCountKey(c: Cluster): real {
    -(c.count as real)
  }

  /** One cluster per id, in id order. */
  function UnsortedClusters(ls: seq<Located>, labels: seq<int>, ids: seq<int>): (r: seq<Cluster>)
    requires |labels| == |ls| && forall k :: 0 <= k < |ids| ==> ids[k] in labels
    ensures |r| == |ids|
    ensures forall k :: 0 <= k < |r| ==>
      r[k].id == ids[k] && r[k].count > 0 && r[k].members == MembersOf(ls, labels, ids[k])
      && |MembersOf(ls, labels, ids[k])| > 0
  {
    if |ids| == 0 then []
    else
      MembersNonEmpty(ls, labels, ids[0]);
      [MakeCluster(ids[0], MembersOf(ls, labels, ids[0]))] + UnsortedClusters(ls, labels, ids[1..])
  }

  /** Each cluster is the one `MakeCluster` builds from its id's incidents. */
  lemma {:induction false} UnsortedClustersMade(ls: seq<Located>, labels: seq<int>, ids: seq<int>)
    requires |labels| == |ls| && forall k :: 0 <= k < |ids| ==> ids[k] in labels
    ensures var r := UnsortedClusters(ls, labels, ids);
      forall k :: 0 <= k < |r| ==> r[k] == MakeCluster(ids[k], MembersOf(ls, labels, ids[k]))
  {
    if |ids| > 0 {
      UnsortedClustersMade(ls, labels, ids[1..]);
      var r := UnsortedClusters(ls, labels, ids);
      var rest := UnsortedClusters(ls, labels, ids[1..]);
      assert r == [MakeCluster(ids[0], MembersOf(ls, labels, ids[0]))] + rest;
      forall k | 0 <= k < |r| ensures r[k] == MakeCluster(ids[k], MembersOf(ls, labels, ids[k])) {
        if k > 0 {
          assert r[k] == rest[k - 1] && ids[k] == ids[1..][k - 1];
        }
      }
    }
  }

  /** Sorting by descending count orders the clusters largest first. */
  lemma SortClustersOrdered(cs: seq<Cluster>)
    ensures var r := SortBy(cs, ClusterCountKey);
      forall i, j :: 0 <= i < j < |r| ==> r[i].count >= r[j].count
  {
    SortClustersFacts(cs);
  }

  /** Sorting by descending count keeps the same clusters and orders them
      largest first. */
  lemma SortClustersFacts(cs: seq<Cluster>)
    ensures forall c :: c in SortBy(cs, ClusterCountKey) <==> c in cs
    ensures var r := SortBy(cs, ClusterCountKey);
      forall i, j :: 0 <= i < j < |r| ==> r[i].count >= r[j].count
  {
    var r := SortBy(cs, ClusterCountKey);
    SortFacts(cs, ClusterCountKey);
    forall c ensures c in r <==> c in cs {
      assert c in r <==> c in multiset(r);
    }
    forall i, j | 0 <= i < j < |r| ensures r[i].count >= r[j].count {
      assert ClusterCountKey(r[i]) <= ClusterCountKey(r[j]);
    }
  }

  /** The clusters for the given labels, one per non-noise label, sorted by
      member count, largest first (a stable sort). */
  function BuildClusters(ls: seq<Located>, labels: seq<int>): seq<Cluster>
    requires |labels| == |ls|
  {
    SortBy(UnsortedClusters(ls, labels, ClusterLabels(labels)), ClusterCountKey)
  }

  /** The clusters come largest first. */
  lemma BuildClustersOrdered(ls: seq<Located>, labels: seq<int>)
    requires |labels| == |ls|
    ensures var r := BuildClusters(ls, labels);
      forall i, j :: 0 <= i < j < |r| ==> r[i].count >= r[j].count
  {
    var unsorted := UnsortedClusters(ls, labels, ClusterLabels(labels));
    SortClustersOrdered(unsorted);
    assert BuildClusters(ls, labels) == SortBy(unsorted, ClusterCountKey);
  }

  /** No two clusters share an id. */
  lemma BuildClustersDistinctIds(ls: seq<Located>, labels: seq<int>)
    requires |labels| == |ls|
    ensures var r := BuildClusters(ls, labels);
      forall i, j :: 0 <= i < j < |r| ==> r[i].id != r[j].id
  {
    var ids := ClusterLabels(labels);
    var unsorted := UnsortedClusters(ls, labels, ids);
    forall i, j | 0 <= i < j < |unsorted| ensures unsorted[i].id != unsorted[j].id {
      assert unsorted[i].id == ids[i] && unsorted[j].id == ids[j];
    }
    SortedIdsDistinct(unsorted);
    assert BuildClusters(ls, labels) == SortBy(unsorted, ClusterCountKey);
  }

  /** Sorting clusters whose ids are distinct keeps the ids distinct. */
  lemma SortedIdsDistinct(cs: seq<Cluster>)
    requires forall i, j :: 0 <= i < j < |cs| ==> cs[i].id != cs[j].id
    ensures var r := SortBy(cs, ClusterCountKey);
      forall i, j :: 0 <= i < j < |r| ==> r[i].id != r[j].id
  {
    var r := SortBy(cs, ClusterCountKey);
    SortFacts(cs, ClusterCountKey);
    forall i, j | 0 <= i < j < |r| ensures r[i].id != r[j].id {
      if r[i] == r[j] {
        TwiceInMultiset(r, i, j);
        MultiplicityOfDistinct(cs, r[i]);
      }
      assert r[i] in multiset(cs) && r[j] in multiset(cs);
      var a :| 0 <= a < |cs| && cs[a] == r[i];
      var b :| 0 <= b < |cs| && cs[b] == r[j];
      assert a != b;
    }
  }

  /** Every cluster is the cluster of one non-noise label, built from exactly
      the incidents carrying it. */
  lemma BuildClustersSound(ls: seq<Located>, labels: seq<int>)
    requires |labels| == |ls|
    ensures var r := BuildClusters(ls, labels);
      forall i :: 0 <= i < |r| ==>
        (r[i].id != -1 && r[i].id in labels && r[i].count > 0 && r[i].members == MembersOf(ls, labels, r[i].id)
         && |MembersOf(ls, labels, r[i].id)| > 0 && r[i] == MakeCluster(r[i].id, MembersOf(ls, labels, r[i].id)))
  {
    var ids := ClusterLabels(labels);
    var unsorted := UnsortedClusters(ls, labels, ids);
    SortClustersFacts(unsorted);
    UnsortedClustersMade(ls, labels, ids);
    var r := SortBy(unsorted, ClusterCountKey);
    forall i | 0 <= i < |r|
      ensures r[i].id != -1 && r[i].id in labels && r[i].count > 0 && r[i].members == MembersOf(ls, labels, r[i].id)
              && |MembersOf(ls, labels, r[i].id)| > 0 && r[i] == MakeCluster(r[i].id, MembersOf(ls, labels, r[i].id))
    {
      assert r[i] in unsorted;
      var k :| 0 <= k < |unsorted| && unsorted[k] == r[i];
      assert ids[k] in ids;
    }
  }

  /** Some cluster of `r` carries label `l`. */
  predicate HasCluster(r: seq<Cluster>, l: int) {
    exists i :: 0 <= i < |r| && r[i].id == l
  }

  /** Every non-noise label has a sorted cluster. */
  lemma ClustersCoverLabels(ls: seq<Located>, labels: seq<int>)
    requires |labels| == |ls|
    ensures var r := BuildClusters(ls, labels);
      forall l {:trigger HasCluster(r, l)} :: l in labels && l != -1 ==> HasCluster(r, l)
  {
    var ids := ClusterLabels(labels);
    var unsorted := UnsortedClusters(ls, labels, ids);
    SortClustersFacts(unsorted);
    var r := SortBy(unsorted, ClusterCountKey);
    forall l | l in labels && l != -1 ensures HasCluster(r, l) {
      assert l in ids;
      var k :| 0 <= k < |ids| && ids[k] == l;
      assert unsorted[k] in r;
      var i :| 0 <= i < |r| && r[i] == unsorted[k];
      assert r[i].id == l;
    }
  }

  /** `identify_high_risk_clusters` after labelling: nothing when fewer than
      `minSamples` incidents are located, otherwise the built clusters.
      `dbscan` gives one label per located point. */
  function IdentifyClusters(data: CategorizedData, dbscan: seq<Point> -> seq<int>, minSamples: int): (r: Result<seq<Cluster>>)
    requires forall ps :: |dbscan(ps)| == |ps|
    ensures r.Success? <==> LocateAll(data, true).Success?
    ensures r.Failure? ==> r.error == LocateAll(data, true).error
    ensures r.Success? && CountLocatable(data) < minSamples ==> r.value == []
    ensures r.Success? && CountLocatable(data) >= minSamples ==>
      var ls := LocateAll(data, true).value;
      |dbscan(Locations(ls))| == |ls| && r.value == BuildClusters(ls, dbscan(Locations(ls)))
  {
    match LocateAll(data, true)
    case Failure(e) => Failure(e)
    case Success(ls) =>
      LocateAllCount(data, true);
      if |ls| < minSamples then Success([])
      else
        var points := Locations(ls);
        Success(BuildClusters(ls, dbscan(points)))
  }

  /** The coordinates handed to the clustering, in located order. */
  function Locations(ls: seq<Located>): (ps: seq<Point>)
    ensures |ps| == |ls| && forall i :: 0 <= i < |ls| ==> ps[i] == ls[i].location
  {
    seq(|ls|, i requires 0 <= i < |ls| => ls[i].location)
  }

  /** A cluster's members are exactly the located incidents with its label. */
  lemma ClusterMembership(ls: seq<Located>, labels: seq<int>, l: int, x: Located)
    requires |labels| == |ls|
    ensures x in MembersOf(ls, labels, l) <==> exists i :: 0 <= i < |ls| && ls[i] == x && labels[i] == l
  {
    var ps := Labelled(ls, labels);
    var b := Bucket(ps, LabelOf, l);
    if x in MembersOf(ls, labels, l) {
      var k :| 0 <= k < |b| && b[k].0 == x;
      BucketMembership(ps, LabelOf, l, b[k]);
      var i :| 0 <= i < |ps| && ps[i] == b[k];
    }
    if exists i :: 0 <= i < |ls| && ls[i] == x && labels[i] == l {
      var i :| 0 <= i < |ls| && ls[i] == x && labels[i] == l;
      BucketMembership(ps, LabelOf, l, ps[i]);
      var k :| 0 <= k < |b| && b[k] == ps[i];
      assert MembersOf(ls, labels, l)[k] == x;
    }
  }
}
