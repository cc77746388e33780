/** Google Places and Roads based scorers: distance-decayed POI risk, and a
    step function of how far the current speed exceeds the limit. */
module GoogleMaps {
  import opened Wrappers

  // ---------------------------------------------------------------------------
  // Speeding
  // ---------------------------------------------------------------------------

  /** How far over the limit the speed is, relative to the limit. */
  function OverLimitRatio(limit: real, current: real): real
    requires limit != 0.0
  {
    (current - limit) / limit
  }

  /** `calculate_speeding_risk` with the speed limit lookup passed in. A
      missing or zero limit, an unknown speed, or a speed within the limit
      scores 0; otherwise strictly-greater bands of the over-limit ratio score
      0.9 (over 50%), 0.7 (over 30%), 0.4 (over 10%) or 0.2. */
  function SpeedingRisk(limit: Option<real>, current: Option<real>): (r: real)
    ensures limit.None? || limit == Some(0.0) || current.None? ==> r == 0.0
    ensures limit.Some? && limit.value != 0.0 && current.Some? ==>
      var ratio := OverLimitRatio(limit.value, current.value);
      (current.value <= limit.value ==> r == 0.0)
      && (current.value > limit.value ==>
            (r == 0.9 <==> ratio > 0.5)
            && (r == 0.7 <==> 0.3 < ratio <= 0.5)
            && (r == 0.4 <==> 0.1 < ratio <= 0.3)
            && (r == 0.2 <==> ratio <= 0.1))
    ensures r in {0.0, 0.2, 0.4, 0.7, 0.9}
  {
    if limit.None? || limit.value == 0.0 || current.None? then 0.0
    else if current.value <= limit.value then 0.0
    else
      var ratio := OverLimitRatio(limit.value, current.value);
      if ratio > 0.5 then 0.9
      else if ratio > 0.3 then 0.7
      else if ratio > 0.1 then 0.4
      else 0.2
  }

  /** For a positive limit, any speeding scores at least 0.2. */
  lemma SpeedingFloor(limit: real, current: real)
    requires limit > 0.0 && current > limit
    ensures SpeedingRisk(Some(limit), Some(current)) >= 0.2
  {
  }

  lemma DivMonotone(a: real, b: real, d: real)
    requires d > 0.0 && a <= b
    ensures a / d <= b / d
  {
    assert b / d - a / d == (b - a) / d;
  }

  /** For a fixed positive limit the risk never drops as the speed rises. */
  lemma SpeedingMonotone(limit: real, slower: real, faster: real)
    requires limit > 0.0 && slower <= faster
    ensures SpeedingRisk(Some(limit), Some(slower)) <= SpeedingRisk(Some(limit), Some(faster))
  {
    DivMonotone(slower - limit, faster - limit, limit);
  }

  /** The bands are strict: exactly 50% over a 60 km/h limit is still 0.7. */
  lemma SpeedingBoundaries()
    ensures SpeedingRisk(Some(60.0), Some(90.0)) == 0.7
    ensures SpeedingRisk(Some(60.0), Some(91.0)) == 0.9
    ensures SpeedingRisk(Some(50.0), Some(55.0)) == 0.2
    ensures SpeedingRisk(Some(50.0), Some(50.0)) == 0.0
  {
  }

  // ---------------------------------------------------------------------------
  // Enhanced POI risk
  // ---------------------------------------------------------------------------

  /** A Google place: rounded distance in metres, `user_ratings_total`
      (0 when absent) and `rating`, which is null when the place has none. */
  datatype Place = Place(distance: nat, ratingsTotal: nat, rating: Option<real>)

  /** The categorised places. `shopping` and `restaurants` are `None` when
      the key is absent: the disabled client and the failed search return a
      dictionary with only the four keys schools, hospitals, bars and
      bus_stops. */
  datatype EnhancedPois = EnhancedPois(
    schools: seq<Place>, bars: seq<Place>, hospitals: seq<Place>,
    shopping: Option<seq<Place>>, restaurants: Option<seq<Place>>)

  /** The shops and restaurants, with an absent key read as no places. */
  function Dining(pois: EnhancedPois): seq<Place> {
    pois.shopping.GetOr([]) + pois.restaurants.GetOr([])
  }

  /** `1 - d/r`, in [0,1] for a place within a positive radius. */
  function DistanceFactor(distance: nat, radius: nat): (f: real)
    requires 0 < radius && distance <= radius
    ensures 0.0 <= f <= 1.0
    ensures distance == 0 ==> f == 1.0
    ensures distance == radius ==> f == 0.0
  {
    FractionBounds(distance, radius);
    1.0 - distance as real / radius as real
  }

  lemma FractionBounds(d: nat, r: nat)
    requires 0 < r && d <= r
    ensures 0.0 <= d as real / r as real <= 1.0
    ensures d == r ==> d as real / r as real == 1.0
    ensures d == 0 ==> d as real / r as real == 0.0
  {
    DivMonotone(d as real, r as real, r as real);
    assert (r as real) / (r as real) == 1.0;
  }

  lemma DistanceFactorDecreasing(near: nat, far: nat, radius: nat)
    requires 0 < radius && near <= far <= radius
    ensures DistanceFactor(near, radius) >= DistanceFactor(far, radius)
  {
    DivMonotone(near as real, far as real, radius as real);
  }

  function MinR(a: real, b: real): real {
    if a <= b then a else b
  }

  lemma MulBounds(f: real, x: real, cap: real)
    requires 0.0 <= f <= 1.0 && 0.0 <= x <= cap
    ensures 0.0 <= f * x <= cap
  {
    assert f * x <= 1.0 * x by {
      assert (1.0 - f) * x >= 0.0;
    }
  }

  /** Popular schools weigh more, up to 1.5 times at 150 ratings. */
  function SchoolTerm(p: Place, radius: nat): (t: real)
    requires radius > 0
    ensures p.distance > radius ==> t == 0.0
    ensures p.distance <= radius ==>
      t == 0.15 * DistanceFactor(p.distance, radius) * MinR(p.ratingsTotal as real / 100.0, 1.5)
    ensures 0.0 <= t <= 0.15 * 1.5
  {
    if p.distance <= radius then
      var df := DistanceFactor(p.distance, radius);
      var pop := MinR(p.ratingsTotal as real / 100.0, 1.5);
      MulBounds(df, pop, 1.5);
      0.15 * df * pop
    else 0.0
  }

  /** The 0.1-weighted term shared by hospitals (subtracted) and, at peak
      hours, shops and restaurants (added). */
  function FadingTerm(p: Place, radius: nat): (t: real)
    requires radius > 0
    ensures p.distance > radius ==> t == 0.0
    ensures p.distance <= radius ==> t == 0.10 * DistanceFactor(p.distance, radius)
    ensures 0.0 <= t <= 0.1
  {
    if p.distance <= radius then 0.10 * DistanceFactor(p.distance, radius) else 0.0
  }

  /** Bar term as written: a place with a null rating reaches `None < 3.0`
      and raises TypeError, because the `rating` key is always present. */
  function BarTermAsWritten(p: Place, radius: nat): (t: Result<real>)
    requires radius > 0
    ensures t.Failure? <==> p.distance <= radius && p.rating.None?
  {
    if p.distance <= radius then
      match p.rating
      case None => Failure(TypeError)
      case Some(rating) =>
        var factor := if rating < 3.0 then 1.5 else 1.0;
        Success(0.20 * DistanceFactor(p.distance, radius) * factor)
    else Success(0.0)
  }

  /** Bar term with a missing rating read as the neutral 3.0 the code's
      default names; low-rated bars (below 3) weigh 1.5 times more. */
  function BarTerm(p: Place, radius: nat): (t: real)
    requires radius > 0
    ensures p.distance > radius ==> t == 0.0
    ensures p.distance <= radius ==>
      t == (if p.rating.GetOr(3.0) < 3.0 then 0.30 else 0.20) * DistanceFactor(p.distance, radius)
    ensures 0.0 <= t <= 0.3
  {
    if p.distance <= radius then
      var factor := if p.rating.GetOr(3.0) < 3.0 then 1.5 else 1.0;
      0.20 * DistanceFactor(p.distance, radius) * factor
    else 0.0
  }

  lemma BarTermAgrees(p: Place, radius: nat)
    requires radius > 0
    requires BarTermAsWritten(p, radius).Success?
    ensures BarTermAsWritten(p, radius).value == BarTerm(p, radius)
  {
  }

  function SumSchools(ps: seq<Place>, radius: nat): (s: real)
    requires radius > 0
    ensures 0.0 <= s
  {
    if |ps| == 0 then 0.0 else SchoolTerm(ps[0], radius) + SumSchools(ps[1..], radius)
  }

  function SumBars(ps: seq<Place>, radius: nat): (s: real)
    requires radius > 0
    ensures 0.0 <= s
  {
    if |ps| == 0 then 0.0 else BarTerm(ps[0], radius) + SumBars(ps[1..], radius)
  }

  function SumBarsAsWritten(ps: seq<Place>, radius: nat): (s: Result<real>)
    requires radius > 0
    ensures s.Failure? <==> exists i :: 0 <= i < |ps| && ps[i].distance <= radius && ps[i].rating.None?
  {
    if |ps| == 0 then Success(0.0)
    else
      match BarTermAsWritten(ps[0], radius)
      case Failure(e) => Failure(e)
      case Success(t) =>
        match SumBarsAsWritten(ps[1..], radius)
        case Failure(e) => Failure(e)
        case Success(rest) => Success(t + rest)
  }

  /** The summed `FadingTerm` of a list of places. */
  function SumFading(ps: seq<Place>, radius: nat): (s: real)
    requires radius > 0
    ensures 0.0 <= s
  {
    if |ps| == 0 then 0.0 else FadingTerm(ps[0], radius) + SumFading(ps[1..], radius)
  }

  /** 11:00 to 21:59 counts as peak shopping time. */
  predicate IsPeakShopping(hour: int) {
    11 <= hour <= 21
  }

  function Clamp01(x: real): real {
    if x < 0.0 then 0.0 else if x > 1.0 then 1.0 else x
  }

  /** The unclamped sum of the per-place terms. */
  function RawPoiRisk(pois: EnhancedPois, radius: nat, hour: int): real
    requires radius > 0
  {
    SumSchools(pois.schools, radius) + SumBars(pois.bars, radius) - SumFading(pois.hospitals, radius)
    + (if IsPeakShopping(hour) then SumFading(Dining(pois), radius) else 0.0)
  }

  /** `calculate_poi_risk_enhanced` with the places and the hour passed in,
      reading a missing bar rating as 3.0 and a missing shopping or
      restaurants key as no places. */
  function EnhancedPoiRisk(pois: EnhancedPois, radius: nat, hour: int): (r: real)
    requires radius > 0
    ensures 0.0 <= r <= 1.0
    ensures pois.schools == [] && pois.bars == [] && (Dining(pois) == [] || !IsPeakShopping(hour))
            ==> r == 0.0
    // The school and bar terms and, at peak hours, the dining terms are
    // added, the hospital terms subtracted, and the total clamped to [0,1].
    ensures r == Clamp01(SumSchools(pois.schools, radius) + SumBars(pois.bars, radius)
                         - SumFading(pois.hospitals, radius)
                         + (if IsPeakShopping(hour) then SumFading(Dining(pois), radius) else 0.0))
  {
    Clamp01(RawPoiRisk(pois, radius, hour))
  }

  /** `calculate_poi_risk_enhanced` as written: a bar in range without a
      rating raises TypeError, and at peak hours the four-key dictionary
      raises KeyError on `pois['shopping']` or `pois['restaurants']`. */
  function EnhancedPoiRiskAsWritten(pois: EnhancedPois, radius: nat, hour: int): (r: Result<real>)
    requires radius > 0
    ensures r.Failure? <==>
      (exists i :: 0 <= i < |pois.bars| && pois.bars[i].distance <= radius && pois.bars[i].rating.None?)
      || (IsPeakShopping(hour) && (pois.shopping.None? || pois.restaurants.None?))
    ensures SumBarsAsWritten(pois.bars, radius).Success? && IsPeakShopping(hour) && pois.shopping.None? ==>
      r == Failure(KeyError("shopping"))
  {
    match SumBarsAsWritten(pois.bars, radius)
    case Failure(e) => Failure(e)
    case Success(bars) =>
      if IsPeakShopping(hour) && pois.shopping.None? then Failure(KeyError("shopping"))
      else if IsPeakShopping(hour) && pois.restaurants.None? then Failure(KeyError("restaurants"))
      else
        Success(Clamp01(SumSchools(pois.schools, radius) + bars - SumFading(pois.hospitals, radius)
          + (if IsPeakShopping(hour) then SumFading(pois.shopping.value + pois.restaurants.value, radius) else 0.0)))
  }

  lemma {:induction false} SumBarsAgrees(ps: seq<Place>, radius: nat)
    requires radius > 0
    requires SumBarsAsWritten(ps, radius).Success?
    ensures SumBarsAsWritten(ps, radius).value == SumBars(ps, radius)
  {
    if |ps| > 0 {
      BarTermAgrees(ps[0], radius);
      SumBarsAgrees(ps[1..], radius);
    }
  }

  /** Whenever the as-written scorer returns, it returns the corrected value. */
  lemma EnhancedPoiRiskAgrees(pois: EnhancedPois, radius: nat, hour: int)
    requires radius > 0
    requires EnhancedPoiRiskAsWritten(pois, radius, hour).Success?
    ensures EnhancedPoiRiskAsWritten(pois, radius, hour).value == EnhancedPoiRisk(pois, radius, hour)
  {
    SumBarsAgrees(pois.bars, radius);
  }

  /** One unrated bar next door is enough to make the as-written scorer raise. */
  lemma UnratedBarRaises()
    ensures EnhancedPoiRiskAsWritten(EnhancedPois([], [Place(100, 12, None)], [], Some([]), Some([])), 500, 12)
            == Failure(TypeError)
    ensures EnhancedPoiRisk(EnhancedPois([], [Place(100, 12, None)], [], Some([]), Some([])), 500, 12)
            == 0.2 * (1.0 - 100.0 / 500.0)
  {
  }

  /** The four-key dictionary of a disabled or failed search makes the
      as-written scorer raise KeyError at noon, though it holds no place. */
  lemma ShortPoisRaise()
    ensures EnhancedPoiRiskAsWritten(EnhancedPois([], [], [], None, None), 500, 12) == Failure(KeyError("shopping"))
    ensures EnhancedPoiRisk(EnhancedPois([], [], [], None, None), 500, 12) == 0.0
    ensures EnhancedPoiRiskAsWritten(EnhancedPois([], [], [], None, None), 500, 8) == Success(0.0)
  {
  }

  lemma {:induction false} SumSchoolsConcat(a: seq<Place>, b: seq<Place>, radius: nat)
    requires radius > 0
    ensures SumSchools(a + b, radius) == SumSchools(a, radius) + SumSchools(b, radius)
  {
    if |a| == 0 {
      assert a + b == b;
    } else {
      assert (a + b)[1..] == a[1..] + b;
      SumSchoolsConcat(a[1..], b, radius);
    }
  }

  lemma {:induction false} SumBarsConcat(a: seq<Place>, b: seq<Place>, radius: nat)
    requires radius > 0
    ensures SumBars(a + b, radius) == SumBars(a, radius) + SumBars(b, radius)
  {
    if |a| == 0 {
      assert a + b == b;
    } else {
      assert (a + b)[1..] == a[1..] + b;
      SumBarsConcat(a[1..], b, radius);
    }
  }

  lemma {:induction false} SumFadingConcat(a: seq<Place>, b: seq<Place>, radius: nat)
    requires radius > 0
    ensures SumFading(a + b, radius) == SumFading(a, radius) + SumFading(b, radius)
  {
    if |a| == 0 {
      assert a + b == b;
    } else {
      assert (a + b)[1..] == a[1..] + b;
      SumFadingConcat(a[1..], b, radius);
    }
  }

  /** Places beyond the radius change nothing, whichever list they are in. */
  lemma FarPlacesIgnored(pois: EnhancedPois, far: Place, radius: nat, hour: int)
    requires radius > 0 && far.distance > radius
    ensures EnhancedPoiRisk(pois.(schools := pois.schools + [far]), radius, hour) == EnhancedPoiRisk(pois, radius, hour)
    ensures EnhancedPoiRisk(pois.(bars := pois.bars + [far]), radius, hour) == EnhancedPoiRisk(pois, radius, hour)
    ensures EnhancedPoiRisk(pois.(hospitals := pois.hospitals + [far]), radius, hour) == EnhancedPoiRisk(pois, radius, hour)
  {
    SumSchoolsConcat(pois.schools, [far], radius);
    SumBarsConcat(pois.bars, [far], radius);
    SumFadingConcat(pois.hospitals, [far], radius);
  }

  /** A nearby hospital never raises the risk; a nearby school or bar never
      lowers it. */
  lemma CategoryDirections(pois: EnhancedPois, p: Place, radius: nat, hour: int)
    requires radius > 0
    ensures EnhancedPoiRisk(pois.(hospitals := pois.hospitals + [p]), radius, hour) <= EnhancedPoiRisk(pois, radius, hour)
    ensures EnhancedPoiRisk(pois.(schools := pois.schools + [p]), radius, hour) >= EnhancedPoiRisk(pois, radius, hour)
    ensures EnhancedPoiRisk(pois.(bars := pois.bars + [p]), radius, hour) >= EnhancedPoiRisk(pois, radius, hour)
  {
    RawRiskPerPlace(pois, p, radius, hour);
    Clamp01Monotone(RawPoiRisk(pois.(hospitals := pois.hospitals + [p]), radius, hour), RawPoiRisk(pois, radius, hour));
    Clamp01Monotone(RawPoiRisk(pois, radius, hour), RawPoiRisk(pois.(schools := pois.schools + [p]), radius, hour));
    Clamp01Monotone(RawPoiRisk(pois, radius, hour), RawPoiRisk(pois.(bars := pois.bars + [p]), radius, hour));
  }

  lemma Clamp01Monotone(x: real, y: real)
    requires x <= y
    ensures Clamp01(x) <= Clamp01(y)
  {
  }

  /** Outside 11:00-21:59 shops and restaurants do not count at all. */
  lemma OffPeakIgnoresShopping(pois: EnhancedPois, radius: nat, hour: int)
    requires radius > 0 && !IsPeakShopping(hour)
    ensures EnhancedPoiRisk(pois, radius, hour) == EnhancedPoiRisk(pois.(shopping := None, restaurants := None), radius, hour)
  {
  }

  /** Each place within the radius moves the unclamped sum by exactly its
      own term: up for a school or bar, down for a hospital. */
  lemma RawRiskPerPlace(pois: EnhancedPois, p: Place, radius: nat, hour: int)
    requires radius > 0
    ensures RawPoiRisk(pois.(schools := pois.schools + [p]), radius, hour) == RawPoiRisk(pois, radius, hour) + SchoolTerm(p, radius)
    ensures RawPoiRisk(pois.(bars := pois.bars + [p]), radius, hour) == RawPoiRisk(pois, radius, hour) + BarTerm(p, radius)
    ensures RawPoiRisk(pois.(hospitals := pois.hospitals + [p]), radius, hour) == RawPoiRisk(pois, radius, hour) - FadingTerm(p, radius)
  {
    SumSchoolsConcat(pois.schools, [p], radius);
    SumBarsConcat(pois.bars, [p], radius);
    SumFadingConcat(pois.hospitals, [p], radius);
    assert SumSchools([p], radius) == SchoolTerm(p, radius);
    assert SumBars([p], radius) == BarTerm(p, radius);
    assert SumFading([p], radius) == FadingTerm(p, radius);
  }
}
