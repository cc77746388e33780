/** Count-based point-of-interest risk: schools, bars and bus stops near a
    location raise it, hospitals lower it. */
module Mappls {
  import opened Wrappers
  import opened Text
  import opened Seqs

  // ---------------------------------------------------------------------------
  // Categorisation of nearby-search results
  // ---------------------------------------------------------------------------

  /** One `suggestedLocations` entry: its `poi` type text and its name. */
  datatype Suggestion = Suggestion(poiType: string, placeName: string)

  datatype PoiKind = School | Hospital | Bar | BusStop | Other

  predicate SchoolText(t: string) { Contains(t, "school") || Contains(t, "college") }

  predicate HospitalText(t: string) { Contains(t, "hospital") || Contains(t, "clinic") }

  predicate BarText(t: string) { Contains(t, "bar") || Contains(t, "pub") || Contains(t, "liquor") }

  predicate TransitText(t: string) { Contains(t, "bus") || Contains(t, "metro") || Contains(t, "station") }

  /** Substring tests on the lower-cased type, first match wins: school or
      college; hospital or clinic; bar, pub or liquor; bus, metro or station. */
  function KindOfType(poiType: string): (k: PoiKind)
    ensures var t := Lower(poiType);
      && (k == School <==> SchoolText(t))
      && (k == Hospital <==> !SchoolText(t) && HospitalText(t))
      && (k == Bar <==> !SchoolText(t) && !HospitalText(t) && BarText(t))
      && (k == BusStop <==> !SchoolText(t) && !HospitalText(t) && !BarText(t) && TransitText(t))
      && (k == Other <==>
            (!Contains(t, "school") && !Contains(t, "college") && !Contains(t, "hospital")
             && !Contains(t, "clinic") && !Contains(t, "bar") && !Contains(t, "pub")
             && !Contains(t, "liquor") && !Contains(t, "bus") && !Contains(t, "metro")
             && !Contains(t, "station")))
  {
    var t := Lower(poiType);
    if Contains(t, "school") || Contains(t, "college") then School
    else if Contains(t, "hospital") || Contains(t, "clinic") then Hospital
    else if Contains(t, "bar") || Contains(t, "pub") || Contains(t, "liquor") then Bar
    else if Contains(t, "bus") || Contains(t, "metro") || Contains(t, "station") then BusStop
    else Other
  }

  function KindOf(s: Suggestion): PoiKind {
    KindOfType(s.poiType)
  }

  /** The test "is a suggestion of kind `k`". */
  function OfKind(k: PoiKind): Suggestion -> bool {
    (s: Suggestion) => KindOf(s) == k
  }

  datatype NearbyPois = NearbyPois(
    schools: seq<Suggestion>, hospitals: seq<Suggestion>, bars: seq<Suggestion>,
    busStops: seq<Suggestion>, other: seq<Suggestion>)

  /** `get_nearby_pois` after the request; `None` is a failed request, which
      yields five empty lists. */
  function NearbyPoisOf(results: Option<seq<Suggestion>>): (r: NearbyPois)
    ensures results.None? ==> r == NearbyPois([], [], [], [], [])
    ensures results.Some? ==>
      |r.schools| + |r.hospitals| + |r.bars| + |r.busStops| + |r.other| == |results.value|
    ensures results.Some? ==> forall s :: s in r.schools <==> s in results.value && KindOf(s) == School
    ensures results.Some? ==> forall s :: s in r.hospitals <==> s in results.value && KindOf(s) == Hospital
    ensures results.Some? ==> forall s :: s in r.bars <==> s in results.value && KindOf(s) == Bar
    ensures results.Some? ==> forall s :: s in r.busStops <==> s in results.value && KindOf(s) == BusStop
    ensures results.Some? ==> forall s :: s in r.other <==> s in results.value && KindOf(s) == Other
    // Each bucket keeps its suggestions in search order, repeats included.
    ensures results.Some? ==>
      && r.schools == Filter(results.value, OfKind(School))
      && r.hospitals == Filter(results.value, OfKind(Hospital))
      && r.bars == Filter(results.value, OfKind(Bar))
      && r.busStops == Filter(results.value, OfKind(BusStop))
      && r.other == Filter(results.value, OfKind(Other))
  {
    match results
    case None => NearbyPois([], [], [], [], [])
    case Some(ss) =>
      assert forall k, s :: s in Bucket(ss, KindOf, k) <==> s in ss && KindOf(s) == k by {
        forall k, s ensures s in Bucket(ss, KindOf, k) <==> s in ss && KindOf(s) == k {
          BucketMembership(ss, KindOf, k, s);
        }
      }
      PartitionTotal(ss, KindOf, [School, Hospital, Bar, BusStop, Other]);
      BucketSizes5(ss, KindOf, School, Hospital, Bar, BusStop, Other);
      BucketIsFilter(ss, KindOf, School, OfKind(School));
      BucketIsFilter(ss, KindOf, Hospital, OfKind(Hospital));
      BucketIsFilter(ss, KindOf, Bar, OfKind(Bar));
      BucketIsFilter(ss, KindOf, BusStop, OfKind(BusStop));
      BucketIsFilter(ss, KindOf, Other, OfKind(Other));
      NearbyPois(Bucket(ss, KindOf, School), Bucket(ss, KindOf, Hospital), Bucket(ss, KindOf, Bar),
                 Bucket(ss, KindOf, BusStop), Bucket(ss, KindOf, Other))
  }

  /** Matching ignores case: "PUB" is a bar. */
  lemma KindExamples()
    ensures KindOfType("PUB") == Bar
  {
    assert Lower("PUB") == "pub";
    ThreeLetterKind("PUB", "pub");
    assert Contains("pub", "pub") && !Contains("pub", "bar");
  }

  /** "Bus" is a bus stop, though a bar test comes first. */
  lemma BusKindExample()
    ensures KindOfType("Bus") == BusStop
  {
    assert Lower("Bus") == "bus";
    ThreeLetterKind("Bus", "bus");
    assert Contains("bus", "bus") && !Contains("bus", "bar") && !Contains("bus", "pub");
  }

  /** A three-letter type can only contain three-letter keys. */
  lemma ThreeLetterKind(poiType: string, t: string)
    requires Lower(poiType) == t && |t| == 3
    ensures !Contains(t, "school") && !Contains(t, "college") && !Contains(t, "hospital")
            && !Contains(t, "clinic") && !Contains(t, "liquor") && !Contains(t, "metro") && !Contains(t, "station")
  {
    ShorterNotContained(t, "school");
    ShorterNotContained(t, "college");
    ShorterNotContained(t, "hospital");
    ShorterNotContained(t, "clinic");
    ShorterNotContained(t, "liquor");
    ShorterNotContained(t, "metro");
    ShorterNotContained(t, "station");
  }

  lemma {:induction false} ShorterNotContained(s: string, sub: string)
    requires |s| < |sub|
    ensures !Contains(s, sub)
  {
    if |s| > 0 {
      ShorterNotContained(s[1..], sub);
    }
  }

  // ---------------------------------------------------------------------------
  // Risk
  // ---------------------------------------------------------------------------

  /** The list lengths the risk depends on. */
  datatype PoiCounts = PoiCounts(schools: nat, hospitals: nat, bars: nat, busStops: nat)

  function CountsOf(p: NearbyPois): PoiCounts {
    PoiCounts(|p.schools|, |p.hospitals|, |p.bars|, |p.busStops|)
  }

  function MinR(a: real, b: real): real {
    if a <= b then a else b
  }

  function SchoolRisk(n: nat): real { MinR(0.4, n as real * 0.15) }
  function BarRisk(n: nat): real { MinR(0.5, n as real * 0.2) }
  function BusRisk(n: nat): real { MinR(0.3, n as real * 0.1) }
  function HospitalBenefit(n: nat): real { MinR(0.2, n as real * 0.1) }

  datatype FactorKind = Schools | Bars | BusStops | Hospitals

  /** One entry of `factors`: what raised (or, for hospitals, lowered) the risk. */
  datatype Factor = Factor(kind: FactorKind, count: nat, amount: real)

  datatype PoiRisk = PoiRisk(score: real, counts: PoiCounts, factors: seq<Factor>)

  function Clamp01(x: real): real {
    if x < 0.0 then 0.0 else if x > 1.0 then 1.0 else x
  }

  /** `calculate_poi_risk`: capped school, bar and bus-stop terms, minus a
      capped hospital term, clamped to [0,1]. A factor is recorded exactly for
      each category that is present, in the order schools, bars, bus stops,
      hospitals. */
  function CalculatePoiRisk(c: PoiCounts): (r: PoiRisk)
    ensures 0.0 <= r.score <= 1.0
    ensures r.counts == c
    ensures forall k :: (exists i :: 0 <= i < |r.factors| && r.factors[i].kind == k) <==> CountOfKind(c, k) > 0
    ensures forall i :: 0 <= i < |r.factors| ==> r.factors[i].count == CountOfKind(c, r.factors[i].kind)
  {
    FactorsPresent(c);
    PoiRisk(Clamp01(RawPoiRisk(c)), c, Factors(c))
  }

  /** The sum before clamping; it lies between -0.2 and 1.2, so the clamp
      only cuts the ends. */
  function RawPoiRisk(c: PoiCounts): (r: real)
    ensures -0.2 <= r <= 1.2
  {
    Capped(c.schools, 0.4, 0.15) + Capped(c.bars, 0.5, 0.2) + Capped(c.busStops, 0.3, 0.1)
    - Capped(c.hospitals, 0.2, 0.1)
  }

  /** A term present only for a non-empty list: `min(cap, n * rate)`. */
  function Capped(n: nat, cap: real, rate: real): (r: real)
    ensures 0.0 <= cap && 0.0 <= rate ==> 0.0 <= r <= cap
  {
    if n > 0 then MinR(cap, n as real * rate) else 0.0
  }

  lemma CappedMonotone(m: nat, n: nat, cap: real, rate: real)
    requires m <= n && cap >= 0.0 && rate >= 0.0
    ensures Capped(m, cap, rate) <= Capped(n, cap, rate)
  {
    assert m as real * rate <= n as real * rate;
  }

  function Factors(c: PoiCounts): seq<Factor> {
    (if c.schools > 0 then [Factor(Schools, c.schools, SchoolRisk(c.schools))] else [])
    + (if c.bars > 0 then [Factor(Bars, c.bars, BarRisk(c.bars))] else [])
    + (if c.busStops > 0 then [Factor(BusStops, c.busStops, BusRisk(c.busStops))] else [])
    + (if c.hospitals > 0 then [Factor(Hospitals, c.hospitals, HospitalBenefit(c.hospitals))] else [])
  }

  lemma FactorsPresent(c: PoiCounts)
    ensures forall k :: (exists i :: 0 <= i < |Factors(c)| && Factors(c)[i].kind == k) <==> CountOfKind(c, k) > 0
    ensures forall i :: 0 <= i < |Factors(c)| ==> Factors(c)[i].count == CountOfKind(c, Factors(c)[i].kind)
  {
    var fs := Factors(c);
    var n1 := if c.schools > 0 then 1 else 0;
    var n2 := if c.bars > 0 then 1 else 0;
    var n3 := if c.busStops > 0 then 1 else 0;
    forall k | CountOfKind(c, k) > 0 ensures exists i :: 0 <= i < |fs| && fs[i].kind == k {
      if k == Schools {
        assert fs[0].kind == k;
      } else if k == Bars {
        assert fs[n1].kind == k;
      } else if k == BusStops {
        assert fs[n1 + n2].kind == k;
      } else {
        assert fs[n1 + n2 + n3].kind == k;
      }
    }
  }

  function CountOfKind(c: PoiCounts, k: FactorKind): nat {
    match k
    case Schools => c.schools
    case Bars => c.bars
    case BusStops => c.busStops
    case Hospitals => c.hospitals
  }

  /** No points of interest at all give a risk of exactly 0 and no factors. */
  lemma NoPoisNoRisk()
    ensures CalculatePoiRisk(PoiCounts(0, 0, 0, 0)).score == 0.0
    ensures CalculatePoiRisk(PoiCounts(0, 0, 0, 0)).factors == []
  {
  }

  /** More schools, bars or bus stops never lower the risk; more hospitals
      never raise it. */
  lemma PoiRiskMonotone(c: PoiCounts, d: PoiCounts)
    requires c.schools <= d.schools && c.bars <= d.bars && c.busStops <= d.busStops
    requires c.hospitals >= d.hospitals
    ensures CalculatePoiRisk(c).score <= CalculatePoiRisk(d).score
  {
    CappedMonotone(c.schools, d.schools, 0.4, 0.15);
    CappedMonotone(c.bars, d.bars, 0.5, 0.2);
    CappedMonotone(c.busStops, d.busStops, 0.3, 0.1);
    CappedMonotone(d.hospitals, c.hospitals, 0.2, 0.1);
    assert RawPoiRisk(c) <= RawPoiRisk(d);
  }

  /** The caps are reached at three schools, three bars and three bus stops. */
  lemma PoiRiskCaps(n: nat)
    requires n >= 3
    ensures CalculatePoiRisk(PoiCounts(n, 0, 0, 0)).score == 0.4
    ensures CalculatePoiRisk(PoiCounts(0, 0, n, 0)).score == 0.5
    ensures CalculatePoiRisk(PoiCounts(0, 0, 0, n)).score == 0.3
    ensures CalculatePoiRisk(PoiCounts(n, 0, n, n)).score == 1.0
  {
  }

  /** The POI fallback in the dashboard re-implements the rule on the list
      truthiness of the OpenStreetMap buckets (app_v2.py). */
  function InlinePoiRisk(schools: seq<int>, hospitals: seq<int>, bars: seq<int>, busStops: seq<int>): (r: real)
  {
    var risk0 := 0.0;
    var risk1 := if |schools| != 0 then risk0 + MinR(0.4, |schools| as real * 0.15) else risk0;
    var risk2 := if |bars| != 0 then risk1 + MinR(0.5, |bars| as real * 0.20) else risk1;
    var risk3 := if |busStops| != 0 then risk2 + MinR(0.3, |busStops| as real * 0.10) else risk2;
    var risk4 := if |hospitals| != 0 then risk3 - MinR(0.2, |hospitals| as real * 0.10) else risk3;
    if risk4 < 0.0 then 0.0 else if risk4 > 1.0 then 1.0 else risk4
  }

  /** The inline formula and `calculate_poi_risk` agree on every input. */
  lemma InlineMatchesPoiRisk(schools: seq<int>, hospitals: seq<int>, bars: seq<int>, busStops: seq<int>)
    ensures InlinePoiRisk(schools, hospitals, bars, busStops)
            == CalculatePoiRisk(PoiCounts(|schools|, |hospitals|, |bars|, |busStops|)).score
  {
  }
}
