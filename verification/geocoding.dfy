/** The geocoding service: when a location text is sent to the geocoder, with
    or without the city appended, and the bookkeeping of the batch job that
    fills in coordinates for stored incidents that lack them. The geocoder is
    a parameter: None is a raised exception, Some([]) an empty answer. */
module Geocoding {
  import opened Wrappers
  import opened Text
  import opened Seqs

  /** One geocoder result: the coordinates, address and place id it carries. */
  datatype Hit = Hit(lat: real, lon: real, formattedAddress: string, placeId: string)

  type Geocoder = string -> Option<seq<Hit>>

  const CitySuffix: string := ", Pune, Maharashtra, India"

  /** Texts never sent to the geocoder: empty, or a URL left in the field. */
  predicate Unusable(text: string) {
    text == "" || StartsWith(text, "http")
  }

  /** The first query: the city is appended when biasing is on and the
      lowercased text does not already mention it. */
  function SearchQuery(text: string, biasPune: bool): (q: string)
    ensures q == text || q == text + CitySuffix
  {
    if biasPune && !Contains(Lower(text), "pune") then text + CitySuffix else text
  }

  /** The suffix is added exactly when biasing is on and the city is not
      already named. */
  lemma SuffixIff(text: string, biasPune: bool)
    ensures SearchQuery(text, biasPune) == text + CitySuffix <==> biasPune && !Contains(Lower(text), "pune")
    ensures SearchQuery(text, biasPune) == text <==> !biasPune || Contains(Lower(text), "pune")
  {
    assert |text + CitySuffix| > |text|;
  }

  /** The answer used: the first query's, unless it came back empty, in
      which case the raw text is tried; a raise at either step is None. */
  function Answer(text: string, biasPune: bool, geocode: Geocoder): (a: Option<seq<Hit>>)
    ensures geocode(SearchQuery(text, biasPune)) == Some([]) ==> a == geocode(text)
    ensures geocode(SearchQuery(text, biasPune)) != Some([]) ==> a == geocode(SearchQuery(text, biasPune))
  {
    match geocode(SearchQuery(text, biasPune))
    case None => None
    case Some(results) => if |results| == 0 then geocode(text) else Some(results)
  }

  /** `geocode_location`: None when disabled or for an unusable text, and
      otherwise the first hit of the answer, if any. */
  function GeocodeLocation(enabled: bool, text: string, biasPune: bool, geocode: Geocoder): (r: Option<Hit>)
    ensures r.Some? ==> enabled && !Unusable(text)
    ensures r.Some? <==> enabled && !Unusable(text) && Answer(text, biasPune, geocode).Some?
                         && |Answer(text, biasPune, geocode).value| > 0
    ensures r.Some? ==> r.value == Answer(text, biasPune, geocode).value[0]
  {
    if !enabled || Unusable(text) then None
    else
      match Answer(text, biasPune, geocode)
      case None => None
      case Some(results) => if |results| == 0 then None else Some(results[0])
  }

  /** The raw text is queried a second time only after an empty answer to
      the biased query, and a hit on the first query is always used. */
  lemma FallbackOnlyWhenEmpty(text: string, geocode: Geocoder)
    requires !Unusable(text)
    ensures var q := SearchQuery(text, true);
      geocode(q).Some? && |geocode(q).value| > 0 ==> GeocodeLocation(true, text, true, geocode) == Some(geocode(q).value[0])
    ensures var q := SearchQuery(text, true);
      geocode(q).None? ==> GeocodeLocation(true, text, true, geocode).None?
  {
  }

  // ---------------------------------------------------------------------------
  // batch_geocode_supabase_incidents
  // ---------------------------------------------------------------------------

  /** A stored incident without coordinates: its id and `location_text`. */
  datatype NullRow = NullRow(id: string, locationText: Option<string>)

  /** What happened to one row. */
  datatype Outcome = Skipped | Failed | Located(hit: Hit)

  function OutcomeOf(row: NullRow, geocode: Geocoder): (o: Outcome)
    ensures o.Skipped? <==> row.locationText.None? || Unusable(row.locationText.value)
    ensures o.Located? ==> Some(o.hit) == GeocodeLocation(true, row.locationText.value, true, geocode)
  {
    if row.locationText.None? || Unusable(row.locationText.value) then Skipped
    else
      match GeocodeLocation(true, row.locationText.value, true, geocode)
      case None => Failed
      case Some(hit) => Located(hit)
  }

  /** The per-row tests the three counters tally. */
  function IsLocated(geocode: Geocoder): NullRow -> bool {
    (x: NullRow) => OutcomeOf(x, geocode).Located?
  }

  function IsSkipped(geocode: Geocoder): NullRow -> bool {
    (x: NullRow) => OutcomeOf(x, geocode).Skipped?
  }

  function IsFailed(geocode: Geocoder): NullRow -> bool {
    (x: NullRow) => OutcomeOf(x, geocode).Failed?
  }

  /** A row reported in `updated_records`. */
  datatype Updated = Updated(id: string, locationText: string, lat: real, lon: real, formattedAddress: string)

  /** A coordinate update sent to the database. */
  datatype Write = Write(id: string, lat: real, lon: real)

  /** The stats dict; `error` is the message of a raise caught after the
      fetch. */
  datatype BatchStats = BatchStats(total: nat, success: nat, failed: nat, skipped: nat, updated: seq<Updated>,
                                   error: Option<string>)

  function UpdateOf(row: NullRow, hit: Hit): Updated
    requires row.locationText.Some?
  {
    Updated(row.id, row.locationText.value, hit.lat, hit.lon, hit.formattedAddress)
  }

  function WriteOf(u: Updated): Write {
    Write(u.id, u.lat, u.lon)
  }

  /** The updated records of the located rows, in row order. */
  function UpdatesOf(rows: seq<NullRow>, geocode: Geocoder): (us: seq<Updated>)
    ensures |us| == Count(rows, IsLocated(geocode))
  {
    if |rows| == 0 then [] else UpdateFor(rows[0], geocode) + UpdatesOf(rows[1..], geocode)
  }

  /** The updated record of one row: one if it was located, none otherwise. */
  function UpdateFor(row: NullRow, geocode: Geocoder): (us: seq<Updated>)
    ensures |us| == if OutcomeOf(row, geocode).Located? then 1 else 0
  {
    var o := OutcomeOf(row, geocode);
    if o.Located? then [UpdateOf(row, o.hit)] else []
  }

  lemma {:induction false} UpdatesOfConcat(xs: seq<NullRow>, ys: seq<NullRow>, geocode: Geocoder)
    ensures UpdatesOf(xs + ys, geocode) == UpdatesOf(xs, geocode) + UpdatesOf(ys, geocode)
  {
    if |xs| > 0 {
      var h := UpdateFor(xs[0], geocode);
      assert (xs + ys)[0] == xs[0];
      assert (xs + ys)[1..] == xs[1..] + ys;
      UpdatesOfConcat(xs[1..], ys, geocode);
      assert UpdatesOf(xs + ys, geocode) == h + UpdatesOf(xs[1..] + ys, geocode);
      assert UpdatesOf(xs, geocode) == h + UpdatesOf(xs[1..], geocode);
    } else {
      assert xs + ys == ys;
    }
  }

  /** The running state of the batch loop: the three counters, the reported
      records and the updates sent so far. */
  datatype Tally = Tally(success: nat, failed: nat, skipped: nat, updated: seq<Updated>, writes: seq<Write>)

  /** One iteration of the loop. */
  function Step(t: Tally, row: NullRow, dryRun: bool, geocode: Geocoder): (r: Tally)
    ensures r.success + r.failed + r.skipped == t.success + t.failed + t.skipped + 1
    ensures r.updated == t.updated + UpdateFor(row, geocode)
    ensures dryRun ==> r.writes == t.writes
  {
    match OutcomeOf(row, geocode)
    case Skipped => t.(skipped := t.skipped + 1)
    case Failed => t.(failed := t.failed + 1)
    case Located(hit) =>
      var u := UpdateOf(row, hit);
      t.(success := t.success + 1, updated := t.updated + [u],
         writes := if dryRun then t.writes else t.writes + [WriteOf(u)])
  }

  /** The loop over `rows`, as a fold. */
  function Run(rows: seq<NullRow>, dryRun: bool, geocode: Geocoder): Tally {
    if |rows| == 0 then Tally(0, 0, 0, [], [])
    else Step(Run(rows[..|rows| - 1], dryRun, geocode), rows[|rows| - 1], dryRun, geocode)
  }

  /** The counters count the rows of each outcome. */
  lemma {:induction false} RunCounts(rows: seq<NullRow>, dryRun: bool, geocode: Geocoder)
    ensures Run(rows, dryRun, geocode).success == Count(rows, IsLocated(geocode))
    ensures Run(rows, dryRun, geocode).skipped == Count(rows, IsSkipped(geocode))
    ensures Run(rows, dryRun, geocode).failed == Count(rows, IsFailed(geocode))
    ensures Run(rows, dryRun, geocode).success + Run(rows, dryRun, geocode).failed
            + Run(rows, dryRun, geocode).skipped == |rows|
  {
    if |rows| > 0 {
      var init, row := rows[..|rows| - 1], rows[|rows| - 1];
      RunCounts(init, dryRun, geocode);
      assert rows == init + [row];
      CountSnoc(init, row, IsLocated(geocode));
      CountSnoc(init, row, IsSkipped(geocode));
      CountSnoc(init, row, IsFailed(geocode));
    }
  }

  /** The reported records are those of the located rows, in order. */
  lemma {:induction false} RunUpdated(rows: seq<NullRow>, dryRun: bool, geocode: Geocoder)
    ensures Run(rows, dryRun, geocode).updated == UpdatesOf(rows, geocode)
  {
    if |rows| > 0 {
      var init, row := rows[..|rows| - 1], rows[|rows| - 1];
      RunUpdated(init, dryRun, geocode);
      assert rows == init + [row];
      UpdatesOfConcat(init, [row], geocode);
      assert UpdatesOf([row], geocode) == UpdateFor(row, geocode) + UpdatesOf([], geocode);
    }
  }

  /** The updates sent mirror the reported records, one for one. */
  predicate Mirrors(writes: seq<Write>, updated: seq<Updated>) {
    |writes| == |updated| && forall i :: 0 <= i < |writes| ==> writes[i] == WriteOf(updated[i])
  }

  /** A dry run sends no update; otherwise the updates mirror the records. */
  lemma {:induction false} RunWrites(rows: seq<NullRow>, dryRun: bool, geocode: Geocoder)
    ensures dryRun ==> Run(rows, dryRun, geocode).writes == []
    ensures !dryRun ==> Mirrors(Run(rows, dryRun, geocode).writes, Run(rows, dryRun, geocode).updated)
  {
    if |rows| > 0 {
      RunWrites(rows[..|rows| - 1], dryRun, geocode);
    }
  }

  /** The message the database update for `row` raises, when one is sent
      (a located row outside a dry run) and `update` raises. */
  function RaiseAt(row: NullRow, dryRun: bool, geocode: Geocoder, update: Write -> Option<string>): (e: Option<string>)
    ensures e.Some? ==> !dryRun && OutcomeOf(row, geocode).Located?
  {
    var o := OutcomeOf(row, geocode);
    if o.Located? && !dryRun then update(WriteOf(UpdateOf(row, o.hit))) else None
  }

  /** No update for these rows raises. */
  predicate NoRaise(rows: seq<NullRow>, dryRun: bool, geocode: Geocoder, update: Write -> Option<string>) {
    forall i :: 0 <= i < |rows| ==> RaiseAt(rows[i], dryRun, geocode, update).None?
  }

  /** The stats and writes of a batch in which no update raised. */
  predicate ReportsAll(rows: seq<NullRow>, dryRun: bool, geocode: Geocoder, stats: BatchStats, writes: seq<Write>) {
    && stats.error.None?
    && stats.total == |rows|
    && stats.success + stats.failed + stats.skipped == stats.total
    && |stats.updated| == stats.success
    && stats.success == Count(rows, IsLocated(geocode))
    && stats.skipped == Count(rows, IsSkipped(geocode))
    && stats.failed == Count(rows, IsFailed(geocode))
    && stats.updated == UpdatesOf(rows, geocode)
    && (dryRun ==> writes == [])
    && (!dryRun ==> Mirrors(writes, stats.updated))
  }

  /** The stats and writes of a batch cut short by the update of row `k`:
      rows up to and including `k` are counted and reported, the updates of
      the rows before `k` were sent, and the message is kept. */
  predicate ReportsUpTo(rows: seq<NullRow>, k: nat, dryRun: bool, geocode: Geocoder, update: Write -> Option<string>,
                        stats: BatchStats, writes: seq<Write>)
    requires k < |rows|
  {
    && stats.error == RaiseAt(rows[k], dryRun, geocode, update)
    && stats.total == |rows|
    && stats.success == Count(rows[..k + 1], IsLocated(geocode))
    && stats.skipped == Count(rows[..k + 1], IsSkipped(geocode))
    && stats.failed == Count(rows[..k + 1], IsFailed(geocode))
    && stats.updated == UpdatesOf(rows[..k + 1], geocode)
    && Mirrors(writes, UpdatesOf(rows[..k], geocode))
  }

  /** `batch_geocode_supabase_incidents`: each row is skipped, fails, or is
      located; located rows are reported and, outside a dry run, written
      back. `data` is the fetched rows (None or empty when nothing came
      back), `queryError` the message when the fetch itself raises, and
      `update` the message an update raises, if any. A raise inside the loop
      ends it: the stats so far are returned with the message under `error`. */
  method BatchGeocode(enabled: bool, loggerEnabled: bool, queryError: Option<string>, data: Option<seq<NullRow>>,
                      dryRun: bool, geocode: Geocoder, update: Write -> Option<string>)
    returns (r: Result<BatchStats>, writes: seq<Write>)
    ensures !enabled ==> r == Failure(Unavailable("Geocoding service not available"))
    ensures enabled && !loggerEnabled ==> r == Failure(Unavailable("Supabase not available"))
    ensures r.Success? <==> enabled && loggerEnabled
    ensures r.Failure? || dryRun ==> writes == []
    ensures r.Success? && queryError.Some? ==> r.value == BatchStats(0, 0, 0, 0, [], queryError) && writes == []
    ensures r.Success? && queryError.None? && NoRaise(data.GetOr([]), dryRun, geocode, update) ==>
      ReportsAll(data.GetOr([]), dryRun, geocode, r.value, writes)
    ensures r.Success? && queryError.None? ==>
      var rows := data.GetOr([]);
      forall k :: (0 <= k < |rows| && RaiseAt(rows[k], dryRun, geocode, update).Some?
                   && NoRaise(rows[..k], dryRun, geocode, update)) ==>
        ReportsUpTo(rows, k, dryRun, geocode, update, r.value, writes)
  {
    if !enabled {
      return Failure(Unavailable("Geocoding service not available")), [];
    }
    if !loggerEnabled {
      return Failure(Unavailable("Supabase not available")), [];
    }
    if queryError.Some? {
      return Success(BatchStats(0, 0, 0, 0, [], queryError)), [];
    }
    var stats;
    stats, writes := GeocodeRows(data.GetOr([]), dryRun, geocode, update);
    r := Success(stats);
  }

  /** The loop of `batch_geocode_supabase_incidents` over the fetched rows: the stats
      and the writes sent, up to the first update that raises. */
  method GeocodeRows(rows: seq<NullRow>, dryRun: bool, geocode: Geocoder, update: Write -> Option<string>)
    returns (stats: BatchStats, writes: seq<Write>)
    ensures dryRun ==> writes == []
    ensures NoRaise(rows, dryRun, geocode, update) ==> ReportsAll(rows, dryRun, geocode, stats, writes)
    ensures forall k :: (0 <= k < |rows| && RaiseAt(rows[k], dryRun, geocode, update).Some?
                         && NoRaise(rows[..k], dryRun, geocode, update)) ==>
      ReportsUpTo(rows, k, dryRun, geocode, update, stats, writes)
  {
    var t, error, n := RunUntilRaise(rows, dryRun, geocode, update);
    stats := BatchStats(|rows|, t.success, t.failed, t.skipped, t.updated, error);
    if error.None? {
      CompletedBatch(rows, dryRun, geocode, update);
      writes := t.writes;
    } else {
      AbortedBatch(rows, n - 1, dryRun, geocode, update);
      assert rows[..n - 1 + 1] == rows[..n];
      writes := t.writes[..|t.writes| - 1];
    }
  }

  /** A batch run to the end reports every row. */
  lemma CompletedBatch(rows: seq<NullRow>, dryRun: bool, geocode: Geocoder, update: Write -> Option<string>)
    requires NoRaise(rows, dryRun, geocode, update)
    ensures var t := Run(rows, dryRun, geocode);
      ReportsAll(rows, dryRun, geocode, BatchStats(|rows|, t.success, t.failed, t.skipped, t.updated, None), t.writes)
  {
    RunCounts(rows, dryRun, geocode);
    RunUpdated(rows, dryRun, geocode);
    RunWrites(rows, dryRun, geocode);
  }

  /** A batch cut short by the update of row `m`, the first to raise,
      reports the rows through `m` and the updates sent before it. */
  lemma AbortedBatch(rows: seq<NullRow>, m: nat, dryRun: bool, geocode: Geocoder, update: Write -> Option<string>)
    requires m < |rows| && RaiseAt(rows[m], dryRun, geocode, update).Some? && NoRaise(rows[..m], dryRun, geocode, update)
    ensures var t := Run(rows[..m + 1], dryRun, geocode);
      && |t.writes| > 0
      && !NoRaise(rows, dryRun, geocode, update)
      && forall k :: (0 <= k < |rows| && RaiseAt(rows[k], dryRun, geocode, update).Some?
                      && NoRaise(rows[..k], dryRun, geocode, update)) ==>
           ReportsUpTo(rows, k, dryRun, geocode, update,
                       BatchStats(|rows|, t.success, t.failed, t.skipped, t.updated, RaiseAt(rows[m], dryRun, geocode, update)),
                       t.writes[..|t.writes| - 1])
  {
    var t := Run(rows[..m + 1], dryRun, geocode);
    AbortedRun(rows, m, dryRun, geocode, update);
    RunCounts(rows[..m + 1], dryRun, geocode);
    RunUpdated(rows[..m + 1], dryRun, geocode);
    FirstRaiseUnique(rows, m, dryRun, geocode, update);
    assert RaiseAt(rows[m], dryRun, geocode, update).Some?;
  }

  /** When the update of row `m` raises, the tally through row `m` ends
      with that row's write, and the writes before it mirror the rows
      before `m`. */
  lemma AbortedRun(rows: seq<NullRow>, m: nat, dryRun: bool, geocode: Geocoder, update: Write -> Option<string>)
    requires m < |rows| && RaiseAt(rows[m], dryRun, geocode, update).Some?
    ensures var t := Run(rows[..m + 1], dryRun, geocode);
      |t.writes| > 0 && Mirrors(t.writes[..|t.writes| - 1], UpdatesOf(rows[..m], geocode))
  {
    var t := Run(rows[..m + 1], dryRun, geocode);
    var before := Run(rows[..m], dryRun, geocode);
    assert rows[..m + 1][..m] == rows[..m];
    RunUpdated(rows[..m], dryRun, geocode);
    RunWrites(rows[..m], dryRun, geocode);
    assert t.writes == before.writes + [WriteOf(UpdateOf(rows[m], OutcomeOf(rows[m], geocode).hit))];
    assert t.writes[..|t.writes| - 1] == before.writes;
  }

  /** Running one more row of a prefix is one more step. */
  lemma RunPrefixStep(rows: seq<NullRow>, n: nat, dryRun: bool, geocode: Geocoder)
    requires n < |rows|
    ensures Run(rows[..n + 1], dryRun, geocode) == Step(Run(rows[..n], dryRun, geocode), rows[n], dryRun, geocode)
  {
    assert rows[..n + 1][..n] == rows[..n];
  }

  /** A prefix stays free of raising updates when the next row's does not raise. */
  lemma NoRaisePrefixStep(rows: seq<NullRow>, n: nat, dryRun: bool, geocode: Geocoder, update: Write -> Option<string>)
    requires n < |rows| && NoRaise(rows[..n], dryRun, geocode, update)
    ensures RaiseAt(rows[n], dryRun, geocode, update).None? ==> NoRaise(rows[..n + 1], dryRun, geocode, update)
    ensures rows[..n + 1][..n] == rows[..n]
  {
    assert rows[..n + 1][..n] == rows[..n];
    assert forall i :: 0 <= i < n ==> rows[..n + 1][i] == rows[..n][i];
  }

  /** The loop of the batch job: rows are processed in order until an
      update raises; `n` rows were processed. */
  method RunUntilRaise(rows: seq<NullRow>, dryRun: bool, geocode: Geocoder, update: Write -> Option<string>)
    returns (t: Tally, error: Option<string>, n: nat)
    ensures n <= |rows| && t == Run(rows[..n], dryRun, geocode)
    ensures error.None? ==> n == |rows| && rows[..n] == rows && NoRaise(rows, dryRun, geocode, update)
    ensures error.Some? ==> 0 < n && error == RaiseAt(rows[n - 1], dryRun, geocode, update)
                            && NoRaise(rows[..n - 1], dryRun, geocode, update)
  {
    t := Tally(0, 0, 0, [], []);
    n := 0;
    error := None;
    while n < |rows| && error.None?
      invariant 0 <= n <= |rows|
      invariant t == Run(rows[..n], dryRun, geocode)
      invariant error.None? ==> NoRaise(rows[..n], dryRun, geocode, update)
      invariant error.Some? ==> n > 0 && error == RaiseAt(rows[n - 1], dryRun, geocode, update)
                                && NoRaise(rows[..n - 1], dryRun, geocode, update)
    {
      RunPrefixStep(rows, n, dryRun, geocode);
      t := Step(t, rows[n], dryRun, geocode);
      error := RaiseAt(rows[n], dryRun, geocode, update);
      NoRaisePrefixStep(rows, n, dryRun, geocode, update);
      n := n + 1;
    }
    if error.None? {
      assert rows[..n] == rows;
    }
  }

  /** Only one row can be the first whose update raises. */
  lemma FirstRaiseUnique(rows: seq<NullRow>, m: nat, dryRun: bool, geocode: Geocoder, update: Write -> Option<string>)
    requires m < |rows| && RaiseAt(rows[m], dryRun, geocode, update).Some? && NoRaise(rows[..m], dryRun, geocode, update)
    ensures forall k :: (0 <= k < |rows| && RaiseAt(rows[k], dryRun, geocode, update).Some?
                         && NoRaise(rows[..k], dryRun, geocode, update)) ==> k == m
  {
    forall k | 0 <= k < |rows| && RaiseAt(rows[k], dryRun, geocode, update).Some?
               && NoRaise(rows[..k], dryRun, geocode, update)
      ensures k == m
    {
      assert k <= m by {
        assert forall i :: 0 <= i < m ==> rows[..m][i] == rows[i];
      }
      assert m <= k by {
        assert forall i :: 0 <= i < k ==> rows[..k][i] == rows[i];
      }
    }
  }
}
