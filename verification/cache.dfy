/** The SQLite cache of API responses: three time-to-live tables (traffic and
    weather keyed by rounded coordinates, map features keyed by the bounding
    box text), the API call log, and the clean-up of old entries. The database
    is an immutable value and every timestamp comes from one explicit clock,
    in whole seconds. */
module Cache {
  import opened Wrappers
  import opened Numbers
  import opened Seqs
  import Counters
  import Config

  // ---------------------------------------------------------------------------
  // One table
  // ---------------------------------------------------------------------------

  /** A stored row: the payload and the time it was written. */
  datatype Entry<D> = Entry(data: D, timestamp: int)

  /** A table with a UNIQUE key: at most one row per key. */
  type Table<K, D> = map<K, Entry<D>>

  /** `SELECT data ... WHERE key = ? AND timestamp > now - ttl`. */
  function Lookup<K, D>(t: Table<K, D>, k: K, now: int, ttl: int): (r: Option<D>)
    ensures r.Some? <==> k in t && now - t[k].timestamp < ttl
    ensures r.Some? ==> r.value == t[k].data
  {
    if k in t && t[k].timestamp > now - ttl then Some(t[k].data) else None
  }

  /** `INSERT OR REPLACE ... CURRENT_TIMESTAMP`: the row for `k` is replaced
      and no other row changes. */
  function Store<K, D>(t: Table<K, D>, k: K, d: D, now: int): (r: Table<K, D>)
    ensures r.Keys == t.Keys + {k}
    ensures r[k] == Entry(d, now)
    ensures forall j :: j in t && j != k ==> r[j] == t[j]
  {
    t[k := Entry(d, now)]
  }

  /** A value written at `now` is read back while it is younger than the TTL,
      and an entry exactly `ttl` seconds old is already a miss. */
  lemma StoreThenLookup<K, D>(t: Table<K, D>, k: K, d: D, now: int, later: int, ttl: int)
    ensures Lookup(Store(t, k, d, now), k, later, ttl) == if later - now < ttl then Some(d) else None
    ensures Lookup(Store(t, k, d, now), k, now + ttl, ttl) == None
  {
  }

  /** Writing one key leaves the answer for every other key alone. */
  lemma StoreKeepsOthers<K, D>(t: Table<K, D>, k: K, d: D, now: int, j: K, later: int, ttl: int)
    requires j != k
    ensures Lookup(Store(t, k, d, now), j, later, ttl) == Lookup(t, j, later, ttl)
  {
  }

  /** A hit stays a hit under a longer TTL and becomes no more likely later. */
  lemma LookupMonotone<K, D>(t: Table<K, D>, k: K, now: int, later: int, ttl: int, longer: int)
    requires now <= later && ttl <= longer
    ensures Lookup(t, k, later, ttl).Some? ==> Lookup(t, k, now, longer) == Lookup(t, k, later, ttl)
  {
  }

  // ---------------------------------------------------------------------------
  // Keys
  // ---------------------------------------------------------------------------

  /** `round(x, 4)`, as the whole number of ten-thousandths. */
  function Round4(x: real): (n: int)
    ensures x * 10000.0 - 0.5 <= n as real <= x * 10000.0 + 0.5
  {
    RoundHalfEven(x * 10000.0)
  }

  /** The (lat, lon) key shared by `get_*_cache` and `set_*_cache`. */
  type CoordKey = (int, int)

  function CoordKeyOf(lat: real, lon: real): CoordKey {
    (Round4(lat), Round4(lon))
  }

  /** Two readings a few metres apart round to the same key and share a row. */
  lemma NearbyPointsShareKey()
    ensures CoordKeyOf(18.52041, 73.85669) == CoordKeyOf(18.52039, 73.85671)
    ensures CoordKeyOf(18.52041, 73.85669) == (185204, 738567)
  {
  }

  /** `str(bbox)` for the four-float tuple: `show` is Python's float
      formatting, which is not modelled. */
  function BBoxKey(b: (real, real, real, real), show: real -> string): (s: string)
    ensures |s| >= 8 && s[0] == '(' && s[|s| - 1] == ')'
  {
    "(" + show(b.0) + ", " + show(b.1) + ", " + show(b.2) + ", " + show(b.3) + ")"
  }

  // ---------------------------------------------------------------------------
  // The database
  // ---------------------------------------------------------------------------

  /** One `log_api_call` row. */
  datatype ApiCall = ApiCall(apiName: string, endpoint: string, timestamp: int)

  datatype CacheDb<D> = CacheDb(
    traffic: Table<CoordKey, D>,
    weather: Table<CoordKey, D>,
    osm: Table<string, D>,
    usage: seq<ApiCall>)

  /** The default `ttl_seconds` of the three getters. */
  const TrafficTtl: int := 300
  const WeatherTtl: int := 1800
  const OsmTtl: int := 86400

  /** The getters' defaults are the configured lifetimes. */
  lemma DefaultTtlsMatchConfig()
    ensures TrafficTtl == Config.CacheTtls().traffic
    ensures WeatherTtl == Config.CacheTtls().weather
    ensures OsmTtl == Config.CacheTtls().osm
  {
  }

  function GetTrafficCache<D>(db: CacheDb<D>, lat: real, lon: real, now: int, ttl: int): (r: Option<D>)
    ensures var k := CoordKeyOf(lat, lon);
      (r.Some? <==> k in db.traffic && now - db.traffic[k].timestamp < ttl)
      && (r.Some? ==> r.value == db.traffic[k].data)
  {
    Lookup(db.traffic, CoordKeyOf(lat, lon), now, ttl)
  }

  function SetTrafficCache<D>(db: CacheDb<D>, lat: real, lon: real, d: D, now: int): (r: CacheDb<D>)
    ensures r.weather == db.weather && r.osm == db.osm && r.usage == db.usage
  {
    db.(traffic := Store(db.traffic, CoordKeyOf(lat, lon), d, now))
  }

  function GetWeatherCache<D>(db: CacheDb<D>, lat: real, lon: real, now: int, ttl: int): (r: Option<D>)
    ensures var k := CoordKeyOf(lat, lon);
      (r.Some? <==> k in db.weather && now - db.weather[k].timestamp < ttl)
      && (r.Some? ==> r.value == db.weather[k].data)
  {
    Lookup(db.weather, CoordKeyOf(lat, lon), now, ttl)
  }

  function SetWeatherCache<D>(db: CacheDb<D>, lat: real, lon: real, d: D, now: int): (r: CacheDb<D>)
    ensures r.traffic == db.traffic && r.osm == db.osm && r.usage == db.usage
  {
    db.(weather := Store(db.weather, CoordKeyOf(lat, lon), d, now))
  }

  function GetOsmCache<D>(db: CacheDb<D>, bbox: (real, real, real, real), show: real -> string,
                          now: int, ttl: int): (r: Option<D>)
    ensures var k := BBoxKey(bbox, show);
      (r.Some? <==> k in db.osm && now - db.osm[k].timestamp < ttl)
      && (r.Some? ==> r.value == db.osm[k].data)
  {
    Lookup(db.osm, BBoxKey(bbox, show), now, ttl)
  }

  function SetOsmCache<D>(db: CacheDb<D>, bbox: (real, real, real, real), show: real -> string,
                          d: D, now: int): (r: CacheDb<D>)
    ensures r.traffic == db.traffic && r.weather == db.weather && r.usage == db.usage
  {
    db.(osm := Store(db.osm, BBoxKey(bbox, show), d, now))
  }

  /** Traffic: a point that rounds to the same key as the stored one reads
      the stored data back until the entry is `ttl` seconds old; points with
      another key and the other two tables are unaffected. */
  lemma TrafficRoundTrip<D>(db: CacheDb<D>, lat: real, lon: real, d: D, now: int,
                            lat': real, lon': real, later: int, ttl: int)
    ensures CoordKeyOf(lat', lon') == CoordKeyOf(lat, lon) ==>
      GetTrafficCache(SetTrafficCache(db, lat, lon, d, now), lat', lon', later, ttl)
        == if later - now < ttl then Some(d) else None
    ensures CoordKeyOf(lat', lon') != CoordKeyOf(lat, lon) ==>
      GetTrafficCache(SetTrafficCache(db, lat, lon, d, now), lat', lon', later, ttl)
        == GetTrafficCache(db, lat', lon', later, ttl)
    ensures GetWeatherCache(SetTrafficCache(db, lat, lon, d, now), lat', lon', later, ttl)
            == GetWeatherCache(db, lat', lon', later, ttl)
  {
  }

  /** Weather: the same contract with its own table. */
  lemma WeatherRoundTrip<D>(db: CacheDb<D>, lat: real, lon: real, d: D, now: int,
                            lat': real, lon': real, later: int, ttl: int)
    ensures CoordKeyOf(lat', lon') == CoordKeyOf(lat, lon) ==>
      GetWeatherCache(SetWeatherCache(db, lat, lon, d, now), lat', lon', later, ttl)
        == if later - now < ttl then Some(d) else None
    ensures CoordKeyOf(lat', lon') != CoordKeyOf(lat, lon) ==>
      GetWeatherCache(SetWeatherCache(db, lat, lon, d, now), lat', lon', later, ttl)
        == GetWeatherCache(db, lat', lon', later, ttl)
    ensures GetTrafficCache(SetWeatherCache(db, lat, lon, d, now), lat', lon', later, ttl)
            == GetTrafficCache(db, lat', lon', later, ttl)
  {
  }

  /** Map features: keyed by the bounding-box text, so a box with the same
      text reads the stored features back while they are fresh. */
  lemma OsmRoundTrip<D>(db: CacheDb<D>, bbox: (real, real, real, real), show: real -> string, d: D,
                        now: int, bbox': (real, real, real, real), later: int, ttl: int)
    ensures BBoxKey(bbox', show) == BBoxKey(bbox, show) ==>
      GetOsmCache(SetOsmCache(db, bbox, show, d, now), bbox', show, later, ttl)
        == if later - now < ttl then Some(d) else None
    ensures BBoxKey(bbox', show) != BBoxKey(bbox, show) ==>
      GetOsmCache(SetOsmCache(db, bbox, show, d, now), bbox', show, later, ttl)
        == GetOsmCache(db, bbox', show, later, ttl)
  {
  }

  /** With the default lifetimes, a traffic entry written at `now` is still
      served after 299 seconds and no longer after 300. */
  lemma DefaultTrafficLifetime<D>(db: CacheDb<D>, lat: real, lon: real, d: D, now: int)
    ensures GetTrafficCache(SetTrafficCache(db, lat, lon, d, now), lat, lon, now + 299, TrafficTtl) == Some(d)
    ensures GetTrafficCache(SetTrafficCache(db, lat, lon, d, now), lat, lon, now + 300, TrafficTtl) == None
  {
  }

  // ---------------------------------------------------------------------------
  // cleanup_old_cache
  // ---------------------------------------------------------------------------

  /** The keys whose row is strictly older than the cutoff. */
  function Stale<K(!new), D>(t: Table<K, D>, cutoff: int): (s: set<K>)
    ensures forall k :: k in s <==> k in t && t[k].timestamp < cutoff
  {
    set k | k in t && t[k].timestamp < cutoff
  }

  /** `DELETE FROM table WHERE timestamp < cutoff`. */
  function Prune<K(!new), D>(t: Table<K, D>, cutoff: int): (r: Table<K, D>)
    ensures forall k :: k in r <==> k in t && t[k].timestamp >= cutoff
    ensures forall k :: k in r ==> r[k] == t[k]
  {
    map k | k in t && t[k].timestamp >= cutoff :: t[k]
  }

  /** The rows deleted and the rows kept make up the table. */
  lemma PruneCount<K(!new), D>(t: Table<K, D>, cutoff: int)
    ensures |Prune(t, cutoff)| + |Stale(t, cutoff)| == |t|
  {
    var kept := Prune(t, cutoff).Keys;
    var gone := Stale(t, cutoff);
    assert kept * gone == {};
    assert kept + gone == t.Keys;
    assert |kept + gone| == |kept| + |gone|;
    assert |Prune(t, cutoff)| == |kept|;
  }

  const SecondsPerDay: int := 86400

  /** `cleanup_old_cache(days)`: every table loses exactly its rows older than
      `now - days`; the result is the number of rows removed. */
  function CleanupOldCache<D>(db: CacheDb<D>, now: int, days: int): (r: (CacheDb<D>, nat))
    ensures var cutoff := now - days * SecondsPerDay;
      r.0.traffic == Prune(db.traffic, cutoff) && r.0.weather == Prune(db.weather, cutoff)
      && r.0.osm == Prune(db.osm, cutoff) && r.0.usage == db.usage
      && r.1 == |Stale(db.traffic, cutoff)| + |Stale(db.weather, cutoff)| + |Stale(db.osm, cutoff)|
    ensures r.1 + |r.0.traffic| + |r.0.weather| + |r.0.osm| == |db.traffic| + |db.weather| + |db.osm|
  {
    var cutoff := now - days * SecondsPerDay;
    PruneCount(db.traffic, cutoff);
    PruneCount(db.weather, cutoff);
    PruneCount(db.osm, cutoff);
    (CacheDb(Prune(db.traffic, cutoff), Prune(db.weather, cutoff), Prune(db.osm, cutoff), db.usage),
     |Stale(db.traffic, cutoff)| + |Stale(db.weather, cutoff)| + |Stale(db.osm, cutoff)|)
  }

  /** Cleaning twice with the same cutoff removes nothing the second time. */
  lemma CleanupIdempotent<D>(db: CacheDb<D>, now: int, days: int)
    ensures CleanupOldCache(CleanupOldCache(db, now, days).0, now, days).1 == 0
    ensures CleanupOldCache(CleanupOldCache(db, now, days).0, now, days).0 == CleanupOldCache(db, now, days).0
  {
    var cutoff := now - days * SecondsPerDay;
    var once := CleanupOldCache(db, now, days).0;
    assert Stale(once.traffic, cutoff) == {};
    assert Stale(once.weather, cutoff) == {};
    assert Stale(once.osm, cutoff) == {};
    assert Prune(once.traffic, cutoff) == once.traffic;
    assert Prune(once.weather, cutoff) == once.weather;
    assert Prune(once.osm, cutoff) == once.osm;
  }

  /** An entry written within the last `days` is never removed and is still
      served under a TTL longer than its age. */
  lemma CleanupKeepsRecent<D>(db: CacheDb<D>, lat: real, lon: real, d: D, written: int,
                              now: int, days: int, ttl: int)
    requires written >= now - days * SecondsPerDay && now - written < ttl
    ensures GetTrafficCache(CleanupOldCache(SetTrafficCache(db, lat, lon, d, written), now, days).0,
                            lat, lon, now, ttl) == Some(d)
  {
  }

  // ---------------------------------------------------------------------------
  // API usage
  // ---------------------------------------------------------------------------

  /** `log_api_call`: one more row stamped with the current time. */
  function LogApiCall<D>(db: CacheDb<D>, apiName: string, endpoint: string, now: int): (r: CacheDb<D>)
    ensures r.traffic == db.traffic && r.weather == db.weather && r.osm == db.osm
    ensures |r.usage| == |db.usage| + 1 && r.usage[..|db.usage|] == db.usage
  {
    db.(usage := db.usage + [ApiCall(apiName, endpoint, now)])
  }

  /** `DATE(timestamp)`: the day number of a timestamp. */
  function Day(ts: int): int {
    ts / SecondsPerDay
  }

  /** The API names of the calls logged on `today`, in log order. */
  function NamesOn(calls: seq<ApiCall>, today: int): (names: seq<string>)
    ensures |names| <= |calls|
  {
    if |calls| == 0 then []
    else NamesOn(calls[..|calls| - 1], today)
         + (if Day(calls[|calls| - 1].timestamp) == today then [calls[|calls| - 1].apiName] else [])
  }

  /** A call made by `apiName` on `today`. */
  function CallOn(apiName: string, today: int): ApiCall -> bool {
    (c: ApiCall) => c.apiName == apiName && Day(c.timestamp) == today
  }

  lemma {:induction false} NamesOnCount(calls: seq<ApiCall>, today: int, name: string)
    ensures multiset(NamesOn(calls, today))[name] == Count(calls, CallOn(name, today))
  {
    if |calls| > 0 {
      var init := calls[..|calls| - 1];
      var last := calls[|calls| - 1];
      var onToday := Day(last.timestamp) == today;
      NamesOnCount(init, today, name);
      CallOnSnoc(calls, today, name);
      assert NamesOn(calls, today) == NamesOn(init, today) + (if onToday then [last.apiName] else []);
      MultisetSnocOccurrences(NamesOn(init, today), onToday, last.apiName, name);
    }
  }

  /** Counting the calls by `name` on `today`, split at the last call. */
  lemma CallOnSnoc(calls: seq<ApiCall>, today: int, name: string)
    requires |calls| > 0
    ensures var last := calls[|calls| - 1];
      Count(calls, CallOn(name, today))
      == Count(calls[..|calls| - 1], CallOn(name, today))
         + (if last.apiName == name && Day(last.timestamp) == today then 1 else 0)
  {
    assert calls == calls[..|calls| - 1] + [calls[|calls| - 1]];
    CountSnoc(calls[..|calls| - 1], calls[|calls| - 1], CallOn(name, today));
  }

  /** The occurrences of `y` after appending `x` when `b` holds. */
  lemma MultisetSnocOccurrences<T>(xs: seq<T>, b: bool, x: T, y: T)
    ensures multiset(xs + (if b then [x] else []))[y] == multiset(xs)[y] + (if b && x == y then 1 else 0)
  {
    if b {
      assert multiset(xs + [x]) == multiset(xs) + multiset{x};
    } else {
      assert xs + [] == xs;
    }
  }

  /** `get_api_usage_today`: for each API called today, the number of its
      calls today; APIs not called today are absent. */
  function GetApiUsageToday<D>(db: CacheDb<D>, now: int): (r: Counters.Counts<string>)
    ensures Counters.DistinctKeys(r)
    ensures forall name :: Counters.Get(r, name) == Count(db.usage, CallOn(name, Day(now)))
    ensures forall name :: name in Counters.Keys(r) <==> Count(db.usage, CallOn(name, Day(now))) > 0
  {
    var names := NamesOn(db.usage, Day(now));
    Counters.CountAllFacts(names);
    forall name ensures Counters.Get(Counters.CountAll(names), name) == Count(db.usage, CallOn(name, Day(now))) {
      NamesOnCount(db.usage, Day(now), name);
    }
    Counters.CountAll(names)
  }

  /** Logging a call adds one to that API's count for the day and changes no
      other count. */
  lemma LogApiCallCounts<D>(db: CacheDb<D>, apiName: string, endpoint: string, now: int, other: string)
    requires other != apiName
    ensures Counters.Get(GetApiUsageToday(LogApiCall(db, apiName, endpoint, now), now), apiName)
            == Counters.Get(GetApiUsageToday(db, now), apiName) + 1
    ensures Counters.Get(GetApiUsageToday(LogApiCall(db, apiName, endpoint, now), now), other)
            == Counters.Get(GetApiUsageToday(db, now), other)
  {
    var call := ApiCall(apiName, endpoint, now);
    FilterConcat(db.usage, [call], CallOn(apiName, Day(now)));
    FilterConcat(db.usage, [call], CallOn(other, Day(now)));
    assert [call][1..] == [];
  }
}
