# RoadSentinel core in Dafny

RoadSentinel scores road safety around Pune. It gives each location a risk score from 0 to 100. The score combines five signals:

- a traffic anomaly (current vs free-flow speed from TomTom);
- weather (OpenWeatherMap);
- infrastructure (OpenStreetMap junctions, crossings, traffic signals and unlit roads);
- points of interest (Mappls or Google Places);
- nearby incidents.

It also takes incident reports from several places: news feeds, an LLM extraction pipeline and a Supabase table. It validates, de-duplicates, geocodes, categorises and clusters these reports. It then serves them to volunteers through an HTTP API and an analytics view.

This project models that core as pure Dafny functions over immutable datatypes:

- the configuration constants (`config.dfy`);
- the composite scorer and its four side scorers (`risk_model.dfy`);
- the Mappls and Google Places POI scorers and the speeding scorer (`mappls.dfy`, `google_maps.dfy`);
- the TomTom, OpenWeatherMap and Overpass response normalisers (`api_clients.dfy`);
- the road-network sampler (`road_network.dfy`);
- incident distribution, clustering and heat-map analytics (`incident_analytics.dfy`);
- the Supabase incident reader and categoriser (`supabase.dfy`);
- the SQLite TTL cache and API-usage log (`cache.dfy`);
- the news pipeline: record, validation, de-duplication, extraction, geocoding, batch processing (`pipeline.dfy`);
- the API's assign/status transitions, news combination and place geocoding (`api.dfy`);
- the batch geocoder (`geocoding.dfy`);
- the volunteer analytics and skill matching (`volunteer_analytics.dfy`, `volunteer_matching.dfy`).

Shared vocabulary lives in `common.dfy`: Option/Result, ASCII text helpers, sequence filters, a stable sort, and points and boxes. Key counting is in `counters.dfy`.

Everything the Python code gets from outside becomes a function parameter of the model, and its answer is taken as given. This covers HTTP calls, the LLM, the geocoders, the clock, shapely geometry, the haversine distance and scikit-learn's DBSCAN. A failing call is modelled as `None` or an error value, exactly where the code catches it.

The model follows the code:

- speeding scores are 0.9, 0.7, 0.4 and 0.2 above 50%, 30% and 10% over the limit (strict comparisons);
- the composite uses five weights, 0.25/0.25/0.15/0.15/0.20, and the speeding score is not part of it;
- weather risk is the condition's table risk, raised to the visibility floor, plus 0.3 at night, capped at 1;
- infrastructure risk adds fixed penalties of 0.3, 0.4, 0.5 and 0.2;
- a cache entry exactly as old as its TTL is already stale.

## Model

| member | source | states |
|---|---|---|
| Config.RiskWeights | config.py:72-78 | the five component weights each lie in [0,1] and sum to exactly 1 |
| Config.CacheTtls | config.py:65-69 | traffic entries live 5 minutes, weather 30 minutes, OpenStreetMap 24 hours, in strictly increasing order |
| Config.PuneBBox | config.py:4-15 | the Pune bounding box is non-degenerate and contains the city centre |
| Config.TrafficSamplePoints | config.py:19-56 | 25 sample points, the first is the centre, and every point except the sixth (Hinjewadi, west of the box) lies inside the bounding box |
| Config.RoadSamplingConfig | config.py:86-99 | sampling every 500 m, at most 150 points, cached 7 days, over six named road types |
| RiskModel.Clamp01 | core/risk_model.py:52 | the result lies in [0,1], equals its input inside that range and the nearer bound outside it |
| RiskModel.TrafficAnomaly | core/risk_model.py:36-56 | a missing feed or a zero free-flow speed scores 0; otherwise the score is the clamped relative slow-down (free-flow minus current, over free-flow), raised to 0.7 below 10 km/h; it always lies in [0,1] |
| RiskModel.TrafficAnomalyMonotone | core/risk_model.py:42-56 | at a fixed free-flow speed, slower traffic never scores lower |
| RiskModel.TrafficAnomalyExamples | core/risk_model.py:36-56 | 20 of 60 km/h scores 2/3, 8 of 10 km/h scores 0.7, a missing free-flow speed falls back to the current speed and scores 0, traffic faster than free flow scores 0 |
| RiskModel.ConditionRisk | core/risk_model.py:84-101 | conditions outside the eleven-entry table score 0.2, every score is at most 0.9, and only a thunderstorm reaches 0.9 |
| RiskModel.WeatherRisk | core/risk_model.py:77-131 | no data scores 0; an empty weather list raises (indexing [0]); otherwise the score is the larger of the condition's table risk and the visibility floor, plus 0.3 at night, capped at 1, so at least 0.8 below 1000 m and 0.5 below 5000 m |
| RiskModel.WeatherVisibilityMonotone | core/risk_model.py:104-112 | lower visibility never lowers the weather score |
| RiskModel.WeatherNightPenalty | core/risk_model.py:117-126 | the night score is the day score plus 0.3, capped at 1 |
| RiskModel.WeatherExamples | core/risk_model.py:77-131 | rain at 3000 m scores 0.7 by day and 1.0 at night; a payload without weather entries reads as clear and scores 0 |
| RiskModel.CountNearbyAsWritten | core/risk_model.py:205-216 | counting succeeds exactly when every feature has both coordinates as keys (a present but null coordinate raises) |
| RiskModel.CountNearby | core/risk_model.py:205-216 | the count is the number of features within the radius, at most the number of features |
| RiskModel.CountNearbyAgrees | core/risk_model.py:205-216 | whenever the code as written succeeds, it returns the corrected count |
| RiskModel.CountNearbyConcat | core/risk_model.py:205-216 | counting is additive over concatenated feature lists |
| RiskModel.OnUnlitRoad | core/risk_model.py:226-241 | true exactly when some geometry point of some unlit road lies strictly within 0.001 degrees |
| RiskModel.InfraPenalties | core/risk_model.py:157-200 | the raw penalty sum lies in [0,1.4] and is 0 exactly when there is a signal, at most two junctions, no unlit road and at most three crossings |
| RiskModel.InfrastructureRiskAsWritten | core/risk_model.py:145-203 | missing features score 0; a feature with a null coordinate raises |
| RiskModel.InfrastructureRisk | core/risk_model.py:145-203 | missing features score 0; otherwise the score is the penalty sum over the nearby signal, junction and crossing counts and the unlit-road test, capped at 1, and it is 0 exactly when none of the four penalties applies |
| RiskModel.InfrastructureRiskAgrees | core/risk_model.py:145-216 | whenever the code as written succeeds, it returns the corrected score |
| RiskModel.InfrastructureNullJunctionRaises | core/api_clients.py:422-428 | a roundabout way parsed into a junction with null coordinates makes the score as written raise, while the corrected score is 0.3 |
| RiskModel.InfrastructureMonotone | core/risk_model.py:157-200 | more junctions or crossings never lower the score; more signals never raise it |
| RiskModel.InfrastructureExample | core/risk_model.py:145-203 | the sample feature set at the Pune centre scores 0.3 (no signal nearby) |
| RiskModel.PenaltyList | core/risk_model.py:157-200 | at most four penalties are reported, one per triggered rule |
| RiskModel.InfraPenaltiesReported | core/risk_model.py:157-200 | the raw penalty sum is the sum of the reported penalty list |
| RiskModel.InfrastructureRiskReported | core/risk_model.py:145-203 | the score is the capped sum of the reported penalties, and no penalty is reported exactly when the score is 0 |
| RiskModel.Nearby.Bump | core/risk_model.py:266-298 | incrementing a nearby-count succeeds exactly for the six known categories and adds one to the total |
| RiskModel.CategoryWeight | core/risk_model.py:311-375 | every known category weighs between 0.4 and 1.0, and only closures weigh 1.0 |
| RiskModel.SeverityMultiplier | core/risk_model.py:301-308 | multipliers lie in [0.2,0.9] and a severity outside 0..3 gets 0.5 |
| RiskModel.ScorerLocation | core/risk_model.py:281-292 | a flat [lon, lat] and the first point of a nested list both read as (lat, lon); the incident is skipped exactly when the list is empty or flat with fewer than two values; a nested geometry whose first point has fewer than two values raises |
| RiskModel.IncidentRisk | core/risk_model.py:258-387 | no categories scores 0 with no nearby incidents; a success lies in [0,1] and its count is the sum of the per-category counts; IncidentRiskIsNearSum gives its value |
| RiskModel.ScanCategoryCounts | core/risk_model.py:280-298 | scanning one category adds exactly its nearby incidents to the count and never lowers the risk |
| RiskModel.ScanItemsCounts | core/risk_model.py:276-298 | scanning all categories adds exactly the nearby non-"other" incidents to the count and never lowers the risk |
| RiskModel.IncidentCountIsNearCount | core/risk_model.py:380-381 | the reported incident count is the number of nearby incidents outside "other" |
| RiskModel.ScanItemsConcat | core/risk_model.py:276-375 | scanning concatenated category lists is scanning the first and continuing with the second |
| RiskModel.IncidentRiskMonotone | core/risk_model.py:276-378 | adding categories never lowers the incident score |
| RiskModel.NearRisk | core/risk_model.py:311-375 | one incident contributes a non-negative amount, its category weight times its severity multiplier when nearby |
| RiskModel.NearIncidentRiskSum | core/risk_model.py:276-378 | the reference risk sum over nearby incidents outside "other" is non-negative |
| RiskModel.IncidentRiskIsNearSum | core/risk_model.py:276-378 | a successful incident score is the clamped reference sum of category weight times severity multiplier over the nearby incidents outside "other" |
| RiskModel.ScanItemsNoFailure | core/risk_model.py:276-298 | known categories with readable coordinates never raise |
| RiskModel.ParsedIncidentsScore | core/risk_model.py:276-298 | the categories produced by the incident parser never make the scorer raise when coordinates are readable |
| RiskModel.UnknownCategoryRaises | core/risk_model.py:298 | a category outside the six known ones with a nearby incident raises KeyError |
| RiskModel.LevelOf | core/risk_model.py:460-471 | critical from 80, high from 60, medium from 30, low below, each as an if-and-only-if |
| RiskModel.LevelMonotone | core/risk_model.py:460-471 | a higher score never gets a lower level |
| RiskModel.Clamp100 | core/risk_model.py:457 | the result lies in [0,100] and equals its input inside that range |
| RiskModel.RiskScore | core/risk_model.py:404-471 | succeeds exactly when the weather and incident scorers do; the score lies in [0,100], is the clamped weighted sum of the five component scores, and carries its level |
| RiskModel.WeightedSumInRange | core/risk_model.py:447-457 | components in [0,1] give a weighted sum already in [0,100], so the clamp does nothing |
| RiskModel.RiskScoreUnclamped | core/risk_model.py:447-457 | with a POI score in [0,1] the final score is the unclamped weighted sum |
| RiskModel.SampleScore | core/risk_model.py:447-471 | a sample location (traffic 2/3, rain 0.7, infrastructure 0.3) scores 116/3 and is medium |
| RiskModel.LevelBoundaries | core/risk_model.py:460-471 | the level changes exactly at 30, 60 and 80 |
| ApiClients.CategoryOfIcon | core/api_clients.py:166-180 | each incident category as an if-and-only-if over TomTom icon codes; codes 0, 12, 13 and anything above 14 are "other" |
| ApiClients.ToIncidentInfos | core/api_clients.py:141-164 | one incident record per raw incident, in order |
| ApiClients.ParseIncidents | core/api_clients.py:128-182 | a payload without incidents gives seven empty buckets, and every bucketed incident carries the category of its bucket |
| ApiClients.ParseIncidentsPartition | core/api_clients.py:141-180 | the buckets together hold exactly as many incidents as came in, and each incident lands in the bucket of its icon code (a missing code reads as 0) |
| ApiClients.BucketedFromInput | core/api_clients.py:141-180 | every bucketed incident is the record of some input incident |
| ApiClients.ParseSpeedLimit | core/api_clients.py:282-295 | a missing or falsy limit gives None; a non-zero number is truncated to an integer; a text limit gives the integer value of its first token, and None exactly when there is no token or it is not an integer literal |
| ApiClients.SpeedLimit | core/api_clients.py:273-295 | no addresses gives None; otherwise the limit of the first address is parsed |
| ApiClients.SpeedLimitOfText | core/api_clients.py:285-290 | a limit string whose first whitespace-separated token is all digits parses to that number |
| ApiClients.SpeedLimitRoundTrip | core/api_clients.py:287-290 | printing n as "n km/h" and parsing it gives back n |
| ApiClients.BareSpeedLimitRoundTrip | core/api_clients.py:287-290 | printing n as a bare "n" and parsing it gives back n |
| ApiClients.WeatherDescription | core/api_clients.py:328-333 | no data or no weather key gives "unknown", an empty list "clear"; otherwise the first entry's main text lower-cased, and a KeyError exactly when that entry has no main text |
| ApiClients.FeatureKindOf | core/api_clients.py:413-439 | each feature kind as an if-and-only-if over the tags, with signals taking priority over junctions, junctions over unlit roads, unlit roads over crossings |
| ApiClients.ToFeaturePoints | core/api_clients.py:417-439 | every point feature keeps its element's (possibly null) coordinates, in order |
| ApiClients.ToGeometries | core/api_clients.py:429-433 | every unlit road keeps its element's geometry, in order |
| ApiClients.ParseFeatures | core/api_clients.py:398-441 | a payload without elements gives four empty feature lists; otherwise the signal, junction and crossing lists hold the coordinates of exactly the elements of that kind, and the unlit list the geometries of exactly the unlit ways |
| ApiClients.ParseFeaturesPartition | core/api_clients.py:413-441 | the four list lengths plus the number of dropped elements add up to the element count |
| ApiClients.PoiKindOf | core/api_clients.py:595-624 | each of the four kinds as an if-and-only-if over the tag tests in the code's order (school, then hospital, bar, bus stop), and no POI exactly when none of the four tag tests applies |
| ApiClients.ToPois | core/api_clients.py:610-614 | one POI record per element, in order |
| ApiClients.PoisInBBox | core/api_clients.py:587-632 | no elements gives four empty lists; otherwise each list is the records of the located elements whose tags classify as its kind, in response order with repeats kept, and the lists together never hold more than the elements |
| ApiClients.PoiPartition | core/api_clients.py:601-624 | every element lands in exactly one POI bucket or is dropped |
| ApiClients.BucketListsKind | core/api_clients.py:601-624 | the bucket of a kind is the located elements of that kind, filtered in order with repeats kept, and its records are exactly those elements' records |
| ApiClients.UnlocatedPoiSkipped | core/api_clients.py:601-608 | an element with neither coordinates nor centre is in no bucket |
| ApiClients.WithinRadius | core/api_clients.py:657-668 | every kept POI lies within the radius and carries its distance rounded half-to-even |
| ApiClients.WithinRadiusKeepsExactly | core/api_clients.py:657-668 | the kept POIs are exactly the POIs within the radius, in order |
| ApiClients.FilterPoisByDistance | core/api_clients.py:635-670 | each of the four categories keeps exactly its POIs within the radius, in order |
| RoadNetwork.OverpassServers | core/road_network.py:17-21 | the fallback list holds three Overpass servers |
| RoadNetwork.DefaultRoadTypes | core/road_network.py:39-48 | the sampler's default road types are exactly the configured road-sampling types |
| RoadNetwork.FirstSuccess | core/road_network.py:69-94 | the result is the first successful response in list order, and None exactly when every response failed |
| RoadNetwork.GetRoadNetwork | core/road_network.py:69-94 | None exactly when all three servers fail; otherwise the answer of the first server that answers, in list order |
| RoadNetwork.ParseRoadGeometries | core/road_network.py:103-138 | no elements gives no roads; otherwise one road per way element with at least two geometry points, and a road is produced exactly when such an element exists |
| RoadNetwork.ParseWays | core/road_network.py:108-135 | every parsed road has at least two coordinates, and there are no more roads than elements |
| RoadNetwork.ParseWaysCount | core/road_network.py:108-135 | the number of roads equals the number of ways with at least two geometry points |
| RoadNetwork.ParseWaysMembership | core/road_network.py:108-135 | a road is in the result exactly when some kept way element produces it |
| RoadNetwork.ParseWaysConcat | core/road_network.py:108-135 | parsing preserves input order: parsing a concatenation concatenates the parses |
| RoadNetwork.UntaggedWayDefaults | core/road_network.py:124-133 | an untagged way gets the name "Unnamed Road", highway type "unknown", no speed or lanes, lit "unknown" |
| RoadNetwork.ISqrt | core/road_network.py:156 | the integer square root r satisfies r*r <= n < (r+1)*(r+1) |
| RoadNetwork.ISqrtUnique | core/road_network.py:156 | any r with r*r <= n < (r+1)*(r+1) is the integer square root |
| RoadNetwork.GenerateGridSamples | core/road_network.py:153-183 | the loop yields the row-major grid of ISqrt(max) by ISqrt(max) points, whose size never exceeds max |
| RoadNetwork.GridInside | core/road_network.py:158-174 | on a non-degenerate box every grid point lies strictly inside it and is tagged grid_fallback |
| RoadNetwork.GridExample | core/road_network.py:156-180 | 150 requested points give a 12 by 12 grid of 144 points |
| RoadNetwork.ShortRoadCount | core/road_network.py:211-221 | a road shorter than half the interval yields exactly one point |
| RoadNetwork.IntervalPoints | core/road_network.py:224-242 | a long road yields floor(length/interval)+1 points, each carrying the road's id and highway type |
| RoadNetwork.IntervalPositions | core/road_network.py:228-241 | every interval point has a position on the road in [0,1] |
| RoadNetwork.SampleRoad | core/road_network.py:207-242 | a short road yields its centre point without a position, a long road its interval points, all tagged with the road |
| RoadNetwork.SampleRoads | core/road_network.py:199-244 | every sampled point carries the id of one of the given roads |
| RoadNetwork.Priority | core/road_network.py:262-277 | priority is 1 to 4 for the eight listed motorway to secondary types and 999 exactly for every other type |
| RoadNetwork.PrioritizePoints | core/road_network.py:253-279 | keeps min(count, max) points, all drawn from the input |
| RoadNetwork.PrioritizeKeepsBest | core/road_network.py:274-279 | no kept point has a worse priority than a dropped one |
| RoadNetwork.PrioritizeStable | core/road_network.py:274-279 | within each priority class the kept points are a prefix of that class in input order |
| RoadNetwork.SamplePointsAlongRoads | core/road_network.py:199-251 | all sampled points when they fit under the maximum, else the prioritised selection of them; never more than max points, each belonging to one of the given roads |
| RoadNetwork.CollectSamples | core/road_network.py:199-242 | the loop over the roads collects exactly the per-road samples of every road, in road order |
| RoadNetwork.EnrichSpeedLimit | core/road_network.py:402-410 | a numeric limit is truncated to an integer; a text limit gives the integer value of its first token, and None exactly when there is no token or it is not an integer literal |
| RoadNetwork.EnrichPoint | core/road_network.py:383-416 | no address marks the point not geocoded and changes nothing else; with an address, a usable street name (non-empty, not "Unknown") replaces the road name and marks it geocoded, else the name and flag are kept; municipality, subdivision and postal code are copied with "" for missing; the address's speed limit replaces the point's when it parses; location, road fields, position and source are kept |
| RoadNetwork.EnrichWithGeocoding | core/road_network.py:377-430 | the output has the input's length and locations; the first max points are enriched from the reverse geocoder, the rest are passed through unchanged |
| Mappls.KindOfType | core/mappls_client.py:112-129 | on the lower-cased type, each of the four kinds as an if-and-only-if over the keyword tests in the code's order (school, hospital, bar, bus stop), and other exactly when it contains none of the ten keywords |
| Mappls.NearbyPoisOf | core/mappls_client.py:103-135 | a failed search gives five empty buckets; otherwise every suggestion lands in exactly one bucket, and each bucket is the suggestions of its kind in search order, a repeated suggestion appended each time |
| Mappls.KindExamples | core/mappls_client.py:112-125 | "PUB" is lower-cased and classified as a bar |
| Mappls.BusKindExample | core/mappls_client.py:112-127 | "Bus" is classified as a bus stop |
| Mappls.CalculatePoiRisk | core/mappls_client.py:149-206 | the score lies in [0,1], the counts are reported, and a factor is listed for a kind exactly when that kind is present, with its count |
| Mappls.FactorsPresent | core/mappls_client.py:158-200 | a factor appears exactly for the kinds with a non-zero count |
| Mappls.NoPoisNoRisk | core/mappls_client.py:149-206 | no POIs give score 0 and no factors |
| Mappls.PoiRiskMonotone | core/mappls_client.py:158-203 | more schools, bars or bus stops never lower the score; more hospitals never raise it |
| Mappls.PoiRiskCaps | core/mappls_client.py:161-183 | from three items on, schools contribute their 0.4 cap, bars 0.5, bus stops 0.3, and all three together saturate at 1 |
| Mappls.InlineMatchesPoiRisk | app_v2.py:245-294 | the dashboard's inline POI formula equals the Mappls POI score on the same counts |
| Mappls.RawPoiRisk | core/mappls_client.py:158-203 | the unclamped POI sum lies in [-0.2, 1.2] |
| GoogleMaps.SpeedingRisk | core/google_maps_client.py:298-333 | no limit, a zero limit or no speed scores 0; at or below the limit scores 0; above it, 0.9, 0.7, 0.4 and 0.2 as if-and-only-ifs over the over-limit ratio bands (0.5, 0.3, 0.1) |
| GoogleMaps.SpeedingFloor | core/google_maps_client.py:303-324 | any speeding scores at least 0.2 |
| GoogleMaps.SpeedingMonotone | core/google_maps_client.py:303-324 | at a fixed limit, a higher speed never scores lower |
| GoogleMaps.SpeedingBoundaries | core/google_maps_client.py:311-324 | exactly 50% over scores 0.7, just above scores 0.9, 10% over scores 0.2, at the limit scores 0 |
| GoogleMaps.DistanceFactor | core/google_maps_client.py:169 | the distance factor lies in [0,1], is 1 at distance 0 and 0 at the radius |
| GoogleMaps.DistanceFactorDecreasing | core/google_maps_client.py:169 | nearer places get a larger factor |
| GoogleMaps.SchoolTerm | core/google_maps_client.py:167-175 | a school beyond the radius adds nothing; otherwise 0.15 times the distance factor times its rating count over 100, capped at 1.5 |
| GoogleMaps.FadingTerm | core/google_maps_client.py:206-228 | a hospital, shop or restaurant beyond the radius changes nothing; otherwise it moves the score by 0.10 times the distance factor |
| GoogleMaps.BarTermAsWritten | core/google_maps_client.py:186-195 | a bar within the radius whose rating is present but null raises, and nothing else does |
| GoogleMaps.BarTerm | core/google_maps_client.py:186-195 | a bar beyond the radius adds nothing; otherwise 0.3 (rating below 3) or 0.2 times the distance factor, a null rating counting as 3 |
| GoogleMaps.BarTermAgrees | core/google_maps_client.py:186-195 | whenever the bar term as written succeeds, it equals the corrected term |
| GoogleMaps.SumBarsAsWritten | core/google_maps_client.py:186-203 | summing bars as written raises exactly when some bar within the radius has a null rating |
| GoogleMaps.SumBarsAgrees | core/google_maps_client.py:186-203 | whenever the bar sum as written succeeds, it equals the corrected sum |
| GoogleMaps.EnhancedPoiRisk | core/google_maps_client.py:161-245 | the score is the school and bar sums minus the hospital sum, plus the shop and restaurant sum at peak hours, clamped to [0,1]; it is 0 when there are no schools, no bars, and no shops or restaurants counted at that hour |
| GoogleMaps.EnhancedPoiRiskAsWritten | core/google_maps_client.py:161-245 | the score as written raises exactly when some bar within the radius has a null rating, or at peak hours when the shopping or restaurant list is missing (KeyError) |
| GoogleMaps.EnhancedPoiRiskAgrees | core/google_maps_client.py:161-245 | whenever the score as written succeeds, it equals the corrected score |
| GoogleMaps.UnratedBarRaises | core/google_maps_client.py:191-192 | one unrated bar at 100 m makes the score as written raise TypeError, while the corrected score is 0.2 times 0.8 |
| GoogleMaps.SumSchoolsConcat | core/google_maps_client.py:167-183 | the school contribution is additive over concatenated lists |
| GoogleMaps.SumBarsConcat | core/google_maps_client.py:186-203 | the bar contribution is additive over concatenated lists |
| GoogleMaps.SumFadingConcat | core/google_maps_client.py:206-228 | the hospital deduction and the peak-hour congestion addition are each additive over concatenated place lists |
| GoogleMaps.FarPlacesIgnored | core/google_maps_client.py:168-207 | adding a school, bar or hospital beyond the radius leaves the score unchanged |
| GoogleMaps.CategoryDirections | core/google_maps_client.py:166-239 | adding a hospital never raises the score; adding a school or a bar never lowers it |
| GoogleMaps.OffPeakIgnoresShopping | core/google_maps_client.py:220-236 | outside 11:00 to 21:59, shops and restaurants do not affect the score |
| GoogleMaps.ShortPoisRaise | core/google_maps_client.py:224 | with the short POI dict (no shopping or restaurant key), the score as written raises KeyError at hour 12 and succeeds at hour 8, while the corrected score is 0 |
| GoogleMaps.RawRiskPerPlace | core/google_maps_client.py:167-228 | adding one school, bar or hospital changes the raw score by exactly that place's term |
| GoogleMaps.SumSchools | core/google_maps_client.py:167-183 | the school contribution is non-negative |
| GoogleMaps.SumBars | core/google_maps_client.py:186-203 | the bar contribution is non-negative |
| GoogleMaps.SumFading | core/google_maps_client.py:206-228 | the hospital and congestion contributions are non-negative |
| IncidentAnalytics.SeverityLabel | core/incident_analytics.py:55-58 | severities 1 to 5 map to low, low, medium, high, critical, and every other integer to medium |
| IncidentAnalytics.WithCategory | core/incident_analytics.py:33-35 | recording a category sets its count and adds it to the total, leaving every other counter as it was |
| IncidentAnalytics.AddIncidentsFacts | core/incident_analytics.py:37-60 | every incident adds one to the source and the priority tallies and at most one to the three named counters, and never touches the total or the category counts |
| IncidentAnalytics.AddCategoriesFacts | core/incident_analytics.py:33-60 | the total grows by the number of incidents and stays equal to the source tally |
| IncidentAnalytics.DistributionTotals | core/incident_analytics.py:23-62 | the total is the number of incidents, equals the sums of the source and the priority tallies, and bounds mobile plus official plus news |
| IncidentAnalytics.AddIncidentsKeepsCategories | core/incident_analytics.py:37-60 | counting sources and priorities leaves the category counts alone |
| IncidentAnalytics.AddCategoriesByCategory | core/incident_analytics.py:33-34 | with distinct category names, each listed category's count is its list length and other counts are untouched |
| IncidentAnalytics.DistributionByCategory | core/incident_analytics.py:33-34 | each category of the input is reported with the length of its incident list |
| IncidentAnalytics.SeverityLabelExamples | core/incident_analytics.py:54-60 | severity 2 is low, 5 critical, 9 medium, and the text "HIGH" is lower-cased to high |
| IncidentAnalytics.AnalyticsLocation | core/incident_analytics.py:82-87 | fewer than two coordinates skip the incident; a flat [lon, lat] and the first point of a nested list read as (lat, lon); a nested list whose first point has fewer than two values raises, and nothing else does |
| IncidentAnalytics.AnalyticsAgreesWithScorer | core/incident_analytics.py:82-87 | where the analytics locate an incident, they read the same (lat, lon) as the risk scorer; a single nested point is skipped here but read by the scorer |
| IncidentAnalytics.LocateListCount | core/incident_analytics.py:80-97 | one located incident per incident with at least two coordinates, each tagged with its category |
| IncidentAnalytics.LocateAllCount | core/incident_analytics.py:80-97 | collecting over all categories locates exactly the incidents with at least two coordinates |
| IncidentAnalytics.DescriptionPrefix | core/incident_analytics.py:96 | a missing description gives "", a text the first 100 characters (or all of a shorter text), and a null description raises |
| IncidentAnalytics.LocateList | core/incident_analytics.py:80-97 | locating never yields more than the incidents; it fails only with IndexError, or with TypeError when details are collected and some locatable incident has a null description |
| IncidentAnalytics.LocateAll | core/incident_analytics.py:80-97 | locating all categories fails only with IndexError, or with TypeError when details are collected |
| IncidentAnalytics.DetailsOnlyAddTypeError | core/incident_analytics.py:80-97 | collecting details changes nothing except possibly raising TypeError |
| IncidentAnalytics.NullDescriptionRaises | core/incident_analytics.py:89-96 | a locatable incident with a null description raises TypeError when details are collected, and is located without them |
| IncidentAnalytics.HeatWeight | core/incident_analytics.py:193-198 | text priorities low, medium, high, critical weigh 2, 3, 4, 5 (case-insensitively) and any other text 3; an integer priority or severity is its own weight; no priority and no severity weigh 3; a null priority gives no weight |
| IncidentAnalytics.HeatPoints | core/incident_analytics.py:183-202 | one heat point per located incident, in order, at its location and with its heat weight |
| IncidentAnalytics.IncidentHeatmap | core/incident_analytics.py:171-202 | the heatmap fails exactly when locating fails; otherwise its i-th triple is the i-th located incident's latitude, longitude and heat weight, one per locatable incident |
| IncidentAnalytics.CalculateClusterRisk | core/incident_analytics.py:155-169 | each risk level as an if-and-only-if over the cluster size and the count of high or critical incidents |
| IncidentAnalytics.ClusterRiskMonotone | core/incident_analytics.py:155-169 | a larger cluster with more high-priority incidents never gets a lower level |
| IncidentAnalytics.MakeCluster | core/incident_analytics.py:121-148 | a cluster carries its label, its members and their count, its risk from the high-priority count, and the mean of its members' locations |
| IncidentAnalytics.Centre | core/incident_analytics.py:126-127 | the centre times the member count is the coordinate sum |
| IncidentAnalytics.ClusterBreakdown | core/incident_analytics.py:130-137 | the category, source and priority tallies of a cluster each sum to its size |
| IncidentAnalytics.ClusterLabels | core/incident_analytics.py:114-118 | the cluster ids are exactly the non-noise labels, each once, in increasing order |
| IncidentAnalytics.UnsortedClusters | core/incident_analytics.py:116-148 | one non-empty cluster per id, holding exactly the incidents with that label |
| IncidentAnalytics.UnsortedClustersMade | core/incident_analytics.py:121-148 | each per-label cluster is the one built from that label's incidents, with their count, centre, tallies and risk |
| IncidentAnalytics.SortClustersFacts | core/incident_analytics.py:151 | sorting keeps the same clusters and orders them by non-increasing size |
| IncidentAnalytics.SortedIdsDistinct | core/incident_analytics.py:151 | sorting keeps the cluster ids pairwise distinct |
| IncidentAnalytics.BuildClustersSound | core/incident_analytics.py:113-153 | every cluster has a non-noise label that occurs in the labels, and is the cluster built from exactly the incidents carrying that label |
| IncidentAnalytics.ClustersCoverLabels | core/incident_analytics.py:113-153 | every non-noise label has a cluster |
| IncidentAnalytics.BuildClustersDistinctIds | core/incident_analytics.py:113-153 | no two clusters carry the same label, so each non-noise label has exactly one cluster |
| IncidentAnalytics.BuildClustersOrdered | core/incident_analytics.py:151 | clusters come largest first |
| IncidentAnalytics.IdentifyClusters | core/incident_analytics.py:76-153 | fails exactly when locating with details fails (IndexError on a short nested point, TypeError on a null description); gives no clusters when fewer incidents than min_samples are located, and otherwise the clusters built from the DBSCAN labels of the located points |
| IncidentAnalytics.ClusterMembership | core/incident_analytics.py:121-122 | an incident is a member of a cluster exactly when it carries that cluster's label |
| SupabaseIncidents.CoordinatePartition | core/supabase_logger.py:357-366 | the with-coordinates and without-coordinates lists partition the fetched rows |
| SupabaseIncidents.GeocodeQuery | core/supabase_logger.py:379-384 | a row is sent to the geocoder exactly when its location text is present, non-empty and does not start with "http", and then with that text |
| SupabaseIncidents.WithLocation | core/supabase_logger.py:403-405 | a geocoded row gains exactly the returned coordinates and keeps every other field |
| SupabaseIncidents.GeocodeRows | core/supabase_logger.py:379-414 | at most one recovered row per row without coordinates, each carrying non-zero coordinates |
| SupabaseIncidents.GetActiveIncidents | core/supabase_logger.py:355-445 | every returned incident has coordinates and, with a bbox, lies inside its inclusive bounds; a failed query gives no incidents; never more incidents than rows |
| SupabaseIncidents.GeocodeOnlyQueried | core/supabase_logger.py:380-388 | the result depends on the geocoder only at the texts it is asked about |
| SupabaseIncidents.SkippedRowsNeverGeocoded | core/supabase_logger.py:382-384 | the geocoder's answers on empty or "http" texts never affect the result |
| SupabaseIncidents.ActiveKeepsLocated | core/supabase_logger.py:358-434 | every row that already has coordinates, inside the bbox when one is given, is returned |
| SupabaseIncidents.ActiveWithoutGeocoding | core/supabase_logger.py:358-425 | with geocoding off and no bbox, the result is exactly the rows with coordinates, in order |
| SupabaseIncidents.GeocodedRowReturned | core/supabase_logger.py:379-405 | a row without coordinates whose text geocodes to non-zero coordinates comes back with those coordinates |
| SupabaseIncidents.SeverityOf | core/supabase_logger.py:472-490 | low, high and critical map to 2, 4 and 5 (each an if-and-only-if), and medium, a missing or a null priority to 3 |
| SupabaseIncidents.PriorityOf | core/supabase_logger.py:498 | a present priority is copied, a missing one becomes medium, and only a null one stays null |
| SupabaseIncidents.ClassifySource | core/supabase_logger.py:483-495 | verified exactly for "mobile_upload"; news_scraper exactly for an "http" source, which is kept as the news URL; otherwise unknown |
| SupabaseIncidents.InfoOf | core/supabase_logger.py:488-506 | the emitted coordinates are [longitude, latitude], with the priority's severity and the classified source |
| SupabaseIncidents.CoordinatesRoundTrip | core/supabase_logger.py:492 | for a row with coordinates, reading the emitted pair as the risk scorer does recovers (latitude, longitude) |
| SupabaseIncidents.CategoryOfReasonFacts | core/supabase_logger.py:509-524 | each of the eight buckets as an if-and-only-if over exact membership of the lower-cased reason in its keyword list, earlier lists taking priority |
| SupabaseIncidents.ReasonTextAsWritten | core/supabase_logger.py:480 | a null reason raises; a present reason is lower-cased |
| SupabaseIncidents.ReasonText | core/supabase_logger.py:480 | a present reason is lower-cased; a missing or null one reads as "unknown" |
| SupabaseIncidents.MissingReasonIsOther | core/supabase_logger.py:480-524 | an incident without a reason lands in other |
| SupabaseIncidents.ReasonExamples | core/supabase_logger.py:480-510 | the reason "Accident" lands in accidents |
| SupabaseIncidents.Append | core/supabase_logger.py:509-524 | appending extends exactly one bucket by one incident |
| SupabaseIncidents.Categorize | core/supabase_logger.py:460-526 | the eight buckets together hold exactly one incident per row |
| SupabaseIncidents.CategorizeList | core/supabase_logger.py:479-524 | each bucket holds the records of exactly the rows of its category, in input order |
| SupabaseIncidents.CategorizeMember | core/supabase_logger.py:479-524 | a record is in a bucket exactly when some row of that category produces it |
| SupabaseIncidents.CategorizePartition | core/supabase_logger.py:509-524 | the eight category filters partition the rows |
| SupabaseIncidents.CategorizeAgrees | core/supabase_logger.py:479-526 | categorising as written raises AttributeError exactly when some row has a null reason, and otherwise equals the corrected categoriser |
| SupabaseIncidents.NullReasonRaises | core/supabase_logger.py:480 | a single row with a null reason raises as written, and is placed in other once the reason defaults to "unknown" |
| Cache.Store | core/database.py:136-148 | storing sets exactly the given key to the data and time and leaves every other key alone |
| Cache.Lookup | core/database.py:121-126 | a lookup hits exactly when the key is present and younger than the TTL, and then returns the stored data |
| Cache.GetTrafficCache | core/database.py:105-134 | a traffic read hits exactly when the rounded key is present and younger than the TTL, returning its data |
| Cache.GetWeatherCache | core/database.py:150-169 | a weather read hits exactly when the rounded key is present and younger than the TTL, returning its data |
| Cache.GetOsmCache | core/database.py:185-203 | an OSM read hits exactly when the bbox key is present and younger than the TTL, returning its data |
| Cache.StoreThenLookup | core/database.py:105-148 | right after a store, a lookup of the same key hits exactly while younger than the TTL; an entry exactly TTL old misses |
| Cache.StoreKeepsOthers | core/database.py:142-145 | storing under one key never changes a lookup under another |
| Cache.LookupMonotone | core/database.py:121-126 | a hit stays a hit at an earlier time or with a longer TTL |
| Cache.Round4 | core/database.py:117-118 | the rounded coordinate is within half a unit of the fourth decimal |
| Cache.NearbyPointsShareKey | core/database.py:117-139 | two points that round to the same four decimals share one entry |
| Cache.BBoxKey | core/database.py:187-207 | the OSM key is the parenthesised string form of the tuple |
| Cache.DefaultTtlsMatchConfig | core/database.py:105-185 | the default TTLs of 300, 1800 and 86400 seconds equal the configured cache TTLs |
| Cache.SetTrafficCache | core/database.py:136-148 | writing traffic leaves the weather, OSM and usage tables alone |
| Cache.SetWeatherCache | core/database.py:171-183 | writing weather leaves the traffic, OSM and usage tables alone |
| Cache.SetOsmCache | core/database.py:205-216 | writing OSM leaves the traffic, weather and usage tables alone |
| Cache.TrafficRoundTrip | core/database.py:105-148 | a traffic set followed by a get on the same rounded key hits exactly while fresh; other keys and the weather cache are unaffected |
| Cache.WeatherRoundTrip | core/database.py:150-183 | a weather set followed by a get on the same rounded key hits exactly while fresh; other keys and the traffic cache are unaffected |
| Cache.OsmRoundTrip | core/database.py:185-216 | an OSM set followed by a get on the same bbox string hits exactly while fresh; other bboxes are unaffected |
| Cache.DefaultTrafficLifetime | core/database.py:105-126 | with the default TTL a traffic entry hits after 299 seconds and misses after 300 |
| Cache.Prune | core/database.py:254-258 | an entry survives exactly when it is not older than the cutoff, unchanged |
| Cache.Stale | core/database.py:254-258 | the stale keys are exactly the keys older than the cutoff |
| Cache.PruneCount | core/database.py:254-260 | the surviving and the deleted entries together are all entries |
| Cache.CleanupOldCache | core/database.py:246-266 | all three caches lose exactly their entries older than the cutoff, the usage log is kept, and the returned count is the number deleted |
| Cache.CleanupIdempotent | core/database.py:246-266 | a second cleanup at the same time deletes nothing and changes nothing |
| Cache.CleanupKeepsRecent | core/database.py:246-266 | cleanup never evicts a traffic entry that is still fresh and newer than the cutoff |
| Cache.LogApiCall | core/database.py:218-226 | logging appends one usage row and leaves the caches alone |
| Cache.NamesOnCount | core/database.py:233-238 | the names logged on a day occur as often as the calls to that API on that day |
| Cache.GetApiUsageToday | core/database.py:228-244 | the usage map has each API once, counts exactly today's calls to it, and lists exactly the APIs called today |
| Cache.LogApiCallCounts | core/database.py:218-244 | logging one call adds one to that API's count today and leaves every other API's count alone |
| Counters.CountAllFacts | core/incident_analytics.py:134-137 | counting a list in a dictionary gives each value its multiplicity, each key once, exactly the values present, and a total equal to the list length |
| Counters.BumpGet | core/incident_analytics.py:42 | incrementing a key adds one to that key's count and leaves the others alone |
| Counters.PutGet | core/incident_analytics.py:34 | assigning a key sets that key's count and leaves the others alone |
| Pipeline.NewRecord | pipeline.py:60-97 | a falsy priority becomes medium and a missing or zero volunteer estimate becomes 1; missing lists become empty; title, coordinates and status are kept; no errors yet |
| Pipeline.DefaultRecord | pipeline.py:60-97 | a record built from a title alone is unassigned, medium priority, one volunteer, nobody assigned, no coordinates |
| Pipeline.IssuesOf | pipeline.py:101-128 | an issue is reported exactly when its check fails, so no issues are reported exactly when all seven checks pass |
| Pipeline.Validate | pipeline.py:99-128 | validation succeeds exactly when the record satisfies every rule and exactly when no error is recorded; it changes nothing but the error list |
| Pipeline.ValidateIdempotent | pipeline.py:99-128 | validating twice gives the same verdict and record as validating once |
| Pipeline.ValidateAgrees | pipeline.py:111-118 | validation as written raises exactly when a latitude is set without a longitude, and otherwise equals the corrected validation |
| Pipeline.ValidateAsWritten | pipeline.py:111-118 | validation as written raises TypeError exactly when a latitude is set without a longitude; otherwise its verdict is whether no error was recorded, and only the error list changes |
| Pipeline.HalfCoordinatesRaise | pipeline.py:112-118 | a record with latitude 18.5 and no longitude raises TypeError as written, while the corrected validation rejects it with exactly the coordinates issue |
| Pipeline.Add | pipeline.py:181-187 | adding a record only ever grows the three seen-sets |
| Pipeline.AddThenDuplicate | pipeline.py:166-187 | once added, a record is a duplicate of itself |
| Pipeline.DuplicateMonotone | pipeline.py:166-187 | a duplicate stays a duplicate after more records are added |
| Pipeline.AddIff | pipeline.py:166-187 | after adding r, x is a duplicate exactly when it was one before or it matches r by checksum, URL or title and day |
| Pipeline.DuplicateIff | pipeline.py:166-187 | after adding a list, x is a duplicate exactly when it was one before or matches some added record |
| Pipeline.Or | pipeline.py:272-273 | Python's `a or b` on optional strings: a when it is truthy, else b |
| Pipeline.Extract | pipeline.py:265-275 | with the model enabled, each non-empty model answer replaces the pattern answer; otherwise the pattern answer stands |
| Pipeline.SilentModelKeepsPatterns | pipeline.py:265-275 | a model that answers nothing, or empty strings, leaves the pattern extraction unchanged |
| Pipeline.PuneBoxInsideBounds | pipeline.py:39-44 | the configured Pune bounding box lies inside the pipeline's coarser Pune bounds |
| Pipeline.Geocode | pipeline.py:336-374 | a blank location gives None; otherwise the search runs on the location with ", Pune, Maharashtra, India" appended, and its answer is returned exactly when it lies inside the Pune bounds |
| Pipeline.ProcessArticle | pipeline.py:401-484 | a record is returned exactly when the article has a title, the record is valid and not a duplicate; it is then remembered; every article adds exactly one to errors or validated, and validated grows by the duplicates plus the kept record |
| Pipeline.ProcessArticleAgrees | pipeline.py:466-484 | the validator's TypeError is caught by the article handler and counted as an error, so processing as written equals processing with the corrected validator |
| Pipeline.ProcessAll | pipeline.py:486-499 | over a batch, errors plus duplicates plus kept records equals the number of articles |
| Pipeline.ProcessBatch | pipeline.py:486-499 | fetched is set to the batch size, and every article is counted as exactly one of error, duplicate or kept |
| Pipeline.ProcessAllStep | pipeline.py:492-497 | the kept records are the first article's record, if kept, followed by the rest's, in article order |
| Pipeline.BatchKeepsValid | pipeline.py:466-479 | every record a batch returns is valid |
| Pipeline.BatchKeepsFresh | pipeline.py:474-479 | no returned record duplicates anything seen before the batch |
| Pipeline.BatchKeepsNoDuplicates | pipeline.py:474-479 | no two returned records duplicate each other |
| Api.AssignTransition | api.py:503-514 | the new list is the old list plus the assignee unless already present, with no other change; the count is its length; the status is unassigned exactly for an empty list, in_progress exactly when non-empty and previously assigned, assigned otherwise |
| Api.AssignIncident | api.py:493-516 | an unconfigured store answers 500, a missing incident 404; otherwise the patch is the assign transition of the incident, its count equals the list length, and no assignee leaves the list unchanged |
| Api.RepeatAssignment | api.py:503-514 | assigning the same volunteer twice changes neither the list nor the count, but moves assigned on to in_progress |
| Api.AssignKeepsDistinct | api.py:505-508 | a list without repeats stays without repeats |
| Api.SetIncidentStatus | api.py:519-526 | a status is accepted exactly when it is one of the four allowed ones, and is then written as given; anything else answers 400 |
| Api.StatusesAgree | api.py:522 | the endpoint's allowed statuses are exactly the pipeline's incident statuses, and every status the assign endpoint produces is allowed |
| Api.Answered | api.py:233-239 | the articles considered are exactly those of the sources that answered, failed sources being skipped |
| Api.FirstOccurrencesDistinct | api.py:240-248 | the kept articles have pairwise distinct keys |
| Api.KeyOf | api.py:240-242 | the key is the stripped URL when non-empty, else the stripped title, and empty exactly when both are |
| Api.FirstOccurrencesFrom | api.py:240-248 | every kept article comes from the input and has a non-empty key |
| Api.FirstOccurrencesKeys | api.py:240-248 | the kept keys are exactly the non-empty keys of the input |
| Api.KeepFirst | api.py:234-249 | the loop with a seen-set keeps exactly the first article of each non-empty key, in order |
| Api.CombineNews | api.py:224-249 | the combined feed keeps, in order, the first answered article for each non-empty URL-or-title key, so keys are distinct and every key seen in an answer appears |
| Api.GeocodePlace | api.py:268-301 | an empty place gives None; otherwise the first search result for the place with ", Pune, Maharashtra, India" appended is returned exactly when it lies inside the Pune window |
| Api.WindowIsPipelineBounds | api.py:297 | the endpoint's Pune window is the pipeline's Pune bounds |
| Geocoding.SuffixIff | core/geocoding.py:59-62 | the city suffix is appended exactly when biasing is on and the lower-cased text does not mention Pune |
| Geocoding.SearchQuery | core/geocoding.py:60-62 | the query is the text itself or the text with the city suffix appended |
| Geocoding.Answer | core/geocoding.py:65-70 | an empty answer for the biased query falls back to the raw text; any other answer is used as is |
| Geocoding.GeocodeLocation | core/geocoding.py:39-87 | a result is returned exactly when the service is enabled, the text is usable (non-empty, not "http") and the answer has a first entry, which is then the result |
| Geocoding.FallbackOnlyWhenEmpty | core/geocoding.py:65-83 | a non-empty biased answer is used directly, and a failed biased search gives None |
| Geocoding.OutcomeOf | core/geocoding.py:128-167 | a row is skipped exactly when its text is missing or unusable, and a located row carries the geocoder's result |
| Geocoding.UpdatesOf | core/geocoding.py:142-150 | one updated record per located row |
| Geocoding.UpdatesOfConcat | core/geocoding.py:128-150 | updated records come in row order |
| Geocoding.RunCounts | core/geocoding.py:128-170 | success, failed and skipped count the located, failed and skipped rows, and together count every row |
| Geocoding.RunUpdated | core/geocoding.py:142-150 | the updated records are exactly those of the located rows, in order |
| Geocoding.RunWrites | core/geocoding.py:152-164 | a dry run writes nothing; otherwise exactly one database write per updated record, with its coordinates |
| Geocoding.Step | core/geocoding.py:128-170 | one row adds one to exactly one counter, adds the row's updated record if located, and a dry run writes nothing |
| Geocoding.RunUntilRaise | core/geocoding.py:128-191 | the loop runs rows until an update raises and returns the run so far with the raised error, or the whole run when none raises |
| Geocoding.CompletedBatch | core/geocoding.py:128-185 | when no update raises, the batch reports the whole run |
| Geocoding.AbortedBatch | core/geocoding.py:152-191 | when an update raises, the batch reports the run up to and including that row with the error, its writes being those before the failing one |
| Geocoding.FirstRaiseUnique | core/geocoding.py:152-191 | there is exactly one first row whose update raises |
| Geocoding.BatchGeocode | core/geocoding.py:89-191 | a disabled service or logger gives its error and no writes; a failing select gives zero stats with its error; otherwise total is the number of rows, and when no update raises the counters, updated records and writes are those of the whole run, while an update that raises stops the run there with the stats so far and that error |
| Geocoding.GeocodeRows | core/geocoding.py:128-191 | a dry run sends no writes; when no update raises the stats and writes are those of the whole run; when the update of row k is the first to raise, the stats count the rows through k, carry that error, and the writes are those sent before k |
| VolunteerAnalytics.SumAssigned | core/volunteer_analytics.py:58 | the assignment total is undefined (the sum raises) exactly when some incident has a null assigned_count |
| VolunteerAnalytics.StatusTableCounts | core/volunteer_analytics.py:47 | the status table counts each status exactly as often as incidents carry it |
| VolunteerAnalytics.IncidentsSummary | core/volunteer_analytics.py:23-81 | no incidents, or a null assigned_count, give the empty summary; otherwise the total is the number of incidents, the three assignment counters count their statuses, the status and priority tables tally every incident once, and the assignment total is the sum |
| VolunteerAnalytics.AssignmentCountersGap | core/volunteer_analytics.py:53-55 | unassigned, partially assigned, fully assigned and the remaining statuses partition the incidents |
| VolunteerAnalytics.InProgressUncounted | core/volunteer_analytics.py:53-55 | with an in_progress incident present, the three assignment counters do not add up to the total |
| VolunteerAnalytics.ClosedIncidentAddsNoDemand | core/volunteer_analytics.py:105-109 | an incident that is neither unassigned nor partially assigned adds no required skills |
| VolunteerAnalytics.OpenIncidentAddsItsSkills | core/volunteer_analytics.py:105-109 | an open incident adds exactly its required skills, with multiplicity |
| VolunteerAnalytics.MostCommon | core/volunteer_analytics.py:137-138 | most_common(n) returns min(n, size) entries of the counter, in non-increasing count order; MostCommonKeepsTop and MostCommonStable say which |
| VolunteerAnalytics.MostCommonKeepsTop | core/volunteer_analytics.py:137-138 | no dropped entry has a larger count than the last kept one |
| VolunteerAnalytics.MostCommonStable | core/volunteer_analytics.py:137-138 | among equal counts the kept entries are the first ones in counter order |
| VolunteerAnalytics.MostCommonOfCounts | core/volunteer_analytics.py:104-138 | `Counter(xs).most_common(n)` has min(n, number of distinct values) entries, no value twice, each value of `xs` paired with its number of occurrences, counts non-increasing, and no unlisted value occurring more often than the last listed one |
| VolunteerAnalytics.GapTable | core/volunteer_analytics.py:119-131 | the gap table has exactly the skills needed or offered, each with its required and available multiplicities, their difference, and a shortage exactly when more are required than available |
| VolunteerAnalytics.SkillsAnalysisOf | core/volunteer_analytics.py:90-139 | the user count, the gap table over the open incidents' demand and the users' skills, and its size; most-needed and most-available are `most_common(10)` of the demand and the supply: min(10, distinct skills) distinct entries, each a skill with its count, counts non-increasing, no unlisted skill above the last |
| VolunteerAnalytics.RowFor | core/volunteer_analytics.py:226-234 | a priority's row counts its incidents, its unassigned, partially assigned and other-status incidents, and sums their assignments; it is undefined exactly when that sum raises |
| VolunteerAnalytics.OpenSplit | core/volunteer_analytics.py:230-232 | unassigned, partially assigned and all other statuses partition the incidents |
| VolunteerAnalytics.PriorityDistribution | core/volunteer_analytics.py:213-240 | four rows, critical to low, each the row of its priority whose three counters add up to its total; the whole result is empty exactly when some row's sum raises |
| SkillMatching.PyPrefix | core/volunteer_analytics.py:264 | Python slicing `xs[:n]`: a prefix of length min(n, size), or counted from the end for negative n |
| SkillMatching.Round1 | core/volunteer_analytics.py:283 | rounding to one decimal moves the value by at most 0.05 and keeps [0,100] |
| SkillMatching.Percentage | core/volunteer_analytics.py:278-283 | a match percentage lies in [0,100] |
| SkillMatching.MatchesFor | core/volunteer_analytics.py:272-284 | scanning the users raises TypeError exactly when some user's skills are null |
| SkillMatching.MatchesCount | core/volunteer_analytics.py:273-284 | one match per user sharing a required skill |
| SkillMatching.MatchesSound | core/volunteer_analytics.py:273-284 | every match comes from a user, lists exactly the shared skills and carries their percentage |
| SkillMatching.MatchesComplete | core/volunteer_analytics.py:273-284 | every user sharing a skill appears with exactly the shared skills |
| SkillMatching.ByMatch | core/volunteer_analytics.py:287 | sorting keeps the same matches and orders them by non-increasing percentage |
| SkillMatching.Recommend | core/volunteer_analytics.py:264-297 | an incident raises exactly when its skills are null, or non-empty with some user's skills null; a recommendation keeps the incident's id, priority and skill set |
| SkillMatching.RecommendFacts | core/volunteer_analytics.py:268-297 | no recommendation exactly when the skills are empty or no user shares one; otherwise a well-formed recommendation of the matching volunteers, best first |
| SkillMatching.RecommendTopFive | core/volunteer_analytics.py:268-297 | a recommendation lists min(5, number of users sharing a skill) volunteers, and no unlisted matching user scores above the last listed one |
| SkillMatching.ByMatchPrefixTop | core/volunteer_analytics.py:287-295 | after sorting, no match outside the first k scores above the k-th |
| SkillMatching.Rank | core/volunteer_analytics.py:300-302 | critical, high, medium and low rank 0 to 3, everything else 4 |
| SkillMatching.Collect | core/volunteer_analytics.py:264-297 | collecting raises exactly when some considered incident raises, and yields at most one recommendation per incident |
| SkillMatching.CollectFacts | core/volunteer_analytics.py:264-297 | every collected recommendation is well formed and is the recommendation of some considered incident |
| SkillMatching.KeyIsLexicographic | core/volunteer_analytics.py:301-304 | the single sort key orders exactly as the (rank, -best) tuple does |
| SkillMatching.RankedSort | core/volunteer_analytics.py:299-304 | sorting keeps the recommendations and orders them by rank, then by falling best percentage |
| SkillMatching.Considered | core/volunteer_analytics.py:253-264 | the first max_recommendations open (unassigned or partially assigned) incidents in fetched order, as Python slicing counts them, negative limits included |
| SkillMatching.SkillMatchingRecommendations | core/volunteer_analytics.py:242-310 | any raised error gives []; otherwise the result is a reordering of the collected recommendations, ranked by priority then best match, each the recommendation of an open incident |

## Left out

- HTTP and database I/O are not modelled. This covers `_make_request`, `_rate_limit`, the `get_*` fetchers of the TomTom, OpenWeatherMap, Overpass, Mappls and Google clients, and Supabase REST reads and writes. Each becomes an oracle parameter whose answer is taken as given. Retries, timeouts and sleeps leave no trace in the model.
- Regular-expression extraction (`extract_with_patterns` in pipeline.py and `extract_location_and_reason` in api.py) is not modelled: the model has no regex engine. Both are parameters.
- The LLM calls are parameters: `extract_with_llm` and `generate_volunteer_actions`. Their prompt text is not modelled.
- Haversine distances (`_haversine_distance`, `_haversine_distance_km`, the distance in `filter_pois_by_distance`) involve trigonometry and floating point. They are a distance parameter. Squared degree distance is used only where the code compares raw degrees.
- Shapely `length` and `interpolate` are parameters of the road sampler, and the DBSCAN labels are an input of the clustering. Both are foreign numeric code.
- Floating point is modelled as `real`. Rounding done only for display in detail dictionaries is not modelled, except the one `round(…, 1)` that the skill-match percentage exposes.
- The SHA-256 `get_checksum` is not modelled. De-duplication keys on the (title, url, occurred_at) triple that it hashes. That assumes the hash has no collisions. It also ignores two merges made by the f-string key `f"{title}|{url}|{occurred_at}"` at pipeline.py:154:
  - a missing url and the url text "None" give the same key;
  - a '|' inside a title can make two different triples give the same key.
  The model keeps such records apart.
- The clock is a parameter: the hour of day and "now" are inputs. The model does not distinguish UTC from local time.
- `asyncio.gather` concurrency in `process_batch` and `fetch_combined_news` is modelled as a sequential fold.
- SupabaseIncidents.IncidentInfo: the record built at core/supabase_logger.py:488-506 leaves out six keys: `timestamp`, `required_skills`, `actions_needed`, `estimated_volunteers`, `reporter_id` and `photo_url`. Nothing in the scoring or analytics reads them.
- Supabase insert-record construction (`log_traffic_data`, `log_weather_data`, `log_risk_score`, `log_batch_risk_scores`) is not modelled: it copies fields into dictionaries.
- The read queries `get_historical_risks`, `get_recent_risk_scores` and `get_top_risk_locations` are not modelled: they are database queries. The DDL in `create_supabase_tables_sql` is left out for the same reason.
- `create_incident_timeline` builds a pandas DataFrame and is not modelled.
- `get_road_segment_for_point` and `snap_points_to_tomtom_roads` are not part of the sampler's scoring path, so they are not modelled. They are nearest-segment geometry and a TomTom snapping call.
- Other operations left out:
  - `get_cache_stats`, `_connect`, `_create_tables` and the context-manager methods of the cache;
  - `to_dict`, `__repr__`, `get_stats` and `push_to_supabase` in pipeline.py;
  - the api.py endpoints that only chain the modelled pieces with network calls: `fetch_and_store`, `fetch_combined_and_store`, `list_incidents`, `fetch_combined_production`, `get_pipeline_stats`, `validate_batch` and `health`.
- `get_volunteer_engagement` and `get_incident_details_by_priority` are not modelled: they regroup rows already counted by the modelled summaries.
- The UI is not modelled: app.py, app_v2.py and google_maps_component.py. The one exception is the inline POI formula in app_v2.py, which `Mappls.InlineMatchesPoiRisk` relates to the client's scorer. The scripts and test files are not modelled either.
- SupabaseIncidents.GetActiveIncidents assumes the geocoded-coordinate write-back to Supabase succeeds. It does not model the ImportError path taken when the geocoder module is missing.
- SkillMatching.Percentage: states a range of [0, 100] rather than (0, 100]. `round(100 * k / n, 1)` is 0.0 when one skill of more than 2000 required skills matches.
- VolunteerAnalytics.IncidentsSummary: a null `assigned_count` makes the Python sum raise, and the model returns the empty summary, as the code's handler does. Null status and priority columns are modelled as the code counts them.
- RiskModel.RiskScore: scores the corrected infrastructure path, where a junction without coordinates is skipped. As written, core/risk_model.py:210-216 raises TypeError on such a junction; the Findings table gives the input, and `RiskModel.InfrastructureRiskAsWritten` models that path.
- RiskModel.IncidentRisk: the per-incident factor list is not modelled. That includes its description slice `incident.get('description', …)[:100]`, which raises TypeError for a nearby incident whose description is null. The score and the count are modelled.
- Text helpers (`Lower`, `Strip`, `FirstToken`, `ParseInt` in common.dfy) are ASCII-only. Python's `str.lower`, `strip`, `split` and `int()` also fold, trim and parse non-ASCII letters, spaces and digits; the model treats those characters as ordinary ones.

## Findings

| source | as written | input that shows it | evidently intended | confidence | as-written member | corrected member |
|---|---|---|---|---|---|---|
| core/google_maps_client.py:191-192 | `bar.get('rating', 3.0)` returns None when the place carries a null rating, and `None < 3.0` raises TypeError | one bar 100 m away whose rating is None | an unrated bar counts with the default rating 3.0 | not executed | GoogleMaps.UnratedBarRaises | GoogleMaps.EnhancedPoiRiskAgrees |
| pipeline.py:114-118 | the latitude check runs when latitude is set, then compares longitude with numbers even when it is None, which raises TypeError | latitude 18.5, longitude None | a record with half its coordinates is reported invalid | not executed | Pipeline.HalfCoordinatesRaise | Pipeline.ValidateAgrees |
| core/api_clients.py:422-428 | a way tagged `junction` becomes a junction feature whose `lat` and `lon` keys hold None; the key test in core/risk_model.py:210-213 passes and the haversine arithmetic raises TypeError | an Overpass way tagged `junction=roundabout` | junctions without coordinates are skipped by the nearby count | not executed | RiskModel.InfrastructureNullJunctionRaises | RiskModel.InfrastructureRiskAgrees |
| core/supabase_logger.py:480 | `incident.get('reason', 'unknown')` returns None for a null reason column, and `.lower()` raises AttributeError | one row whose reason is null | a null reason is read like a missing one and categorised as other | not executed | SupabaseIncidents.NullReasonRaises | SupabaseIncidents.CategorizeAgrees |
| core/google_maps_client.py:224 | at peak hours 11-21 `pois['shopping'] + pois['restaurants']` raises KeyError when `get_enhanced_pois` returned its four-key dict (lines 83-84 and 143: client disabled or search failed) | client disabled, hour 12 | missing shop and restaurant lists read as no places | not executed | GoogleMaps.ShortPoisRaise | GoogleMaps.EnhancedPoiRiskAgrees |
