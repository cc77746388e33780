/** The news-to-incident pipeline: the validated incident record, the
    deduplicator, the rule that lets the language model override the pattern
    extractor, the Pune bounds check on geocoded places, and the per-article
    bookkeeping. Network calls (the language model, the geocoder, Supabase)
    are parameters. */
module Pipeline {
  import opened Wrappers
  import opened Text
  import opened Seqs
  import opened Geo
  import Config

  // ---------------------------------------------------------------------------
  // IncidentRecord
  // ---------------------------------------------------------------------------

  /** A publication time: its calendar day and the time within the day. */
  datatype Moment = Moment(day: int, secondOfDay: int)

  /** The four `IncidentStatus` values. */
  const Statuses: seq<string> := ["unassigned", "assigned", "in_progress", "resolved"]

  /** The fields `validate` can complain about. */
  datatype Issue = TitleIssue | UrlIssue | CoordinatesIssue | LatitudeIssue | LongitudeIssue
                 | StatusIssue | AssignedCountIssue

  datatype Record = Record(
    title: string,
    url: Option<string>,
    summary: Option<string>,
    reason: Option<string>,
    occurredAt: Option<Moment>,
    locationText: Option<string>,
    latitude: Option<real>,
    longitude: Option<real>,
    source: Option<string>,
    status: string,
    assignedCount: int,
    assignedTo: seq<string>,
    priority: string,
    actionsNeeded: seq<string>,
    requiredSkills: seq<string>,
    resolutionSteps: seq<string>,
    estimatedVolunteers: int,
    errors: seq<Issue>)

  /** Python truthiness of an optional string: None and `''` are false. */
  predicate Truthy(s: Option<string>) {
    s.Some? && s.value != ""
  }

  /** `x or default` for an optional list. */
  function ListOr(xs: Option<seq<string>>): (r: seq<string>)
    ensures xs.Some? ==> r == xs.value
    ensures xs.None? ==> r == []
  {
    if xs.Some? && xs.value != [] then xs.value else []
  }

  /** The constructor's keyword arguments. */
  datatype Args = Args(
    title: string, url: Option<string>, summary: Option<string>, reason: Option<string>,
    occurredAt: Option<Moment>, locationText: Option<string>, latitude: Option<real>,
    longitude: Option<real>, source: Option<string>, status: string, assignedCount: int,
    assignedTo: Option<seq<string>>, priority: Option<string>, actionsNeeded: Option<seq<string>>,
    requiredSkills: Option<seq<string>>, resolutionSteps: Option<seq<string>>,
    estimatedVolunteers: Option<int>)

  /** Keyword arguments with their defaults: only `title` is required. */
  function DefaultArgs(title: string): Args {
    Args(title, None, None, None, None, None, None, None, None, "unassigned", 0,
         None, None, None, None, None, None)
  }

  /** `IncidentRecord(...)`: missing lists become empty, a falsy priority
      becomes `'medium'`, a falsy volunteer estimate (None or 0) becomes 1;
      everything else is stored as given and no errors are recorded yet. */
  function NewRecord(a: Args): (r: Record)
    ensures r.priority != "" && r.estimatedVolunteers != 0
    ensures Truthy(a.priority) ==> r.priority == a.priority.value
    ensures !Truthy(a.priority) ==> r.priority == "medium"
    ensures a.estimatedVolunteers.Some? && a.estimatedVolunteers.value != 0 ==> r.estimatedVolunteers == a.estimatedVolunteers.value
    ensures a.estimatedVolunteers.None? || a.estimatedVolunteers == Some(0) ==> r.estimatedVolunteers == 1
    ensures r.assignedTo == ListOr(a.assignedTo) && r.requiredSkills == ListOr(a.requiredSkills)
    ensures r.title == a.title && r.latitude == a.latitude && r.longitude == a.longitude && r.status == a.status
    ensures r.errors == []
  {
    Record(a.title, a.url, a.summary, a.reason, a.occurredAt, a.locationText, a.latitude, a.longitude,
           a.source, a.status, a.assignedCount, ListOr(a.assignedTo),
           if Truthy(a.priority) then a.priority.value else "medium",
           ListOr(a.actionsNeeded), ListOr(a.requiredSkills), ListOr(a.resolutionSteps),
           if a.estimatedVolunteers.Some? && a.estimatedVolunteers.value != 0 then a.estimatedVolunteers.value else 1,
           [])
  }

  /** A record built from the title alone is unassigned, medium priority,
      needs one volunteer and is consistent (no one assigned, count 0). */
  lemma DefaultRecord(title: string)
    ensures var r := NewRecord(DefaultArgs(title));
      r.status == "unassigned" && r.priority == "medium" && r.estimatedVolunteers == 1
      && r.assignedTo == [] && r.assignedCount == 0 && r.latitude.None? && r.longitude.None?
  {
  }

  // ---------------------------------------------------------------------------
  // validate
  // ---------------------------------------------------------------------------

  predicate TitleOk(r: Record) {
    r.title != "" && |Strip(r.title)| >= 3
  }

  predicate UrlOk(r: Record) {
    !Truthy(r.url) || StartsWith(r.url.value, "http://") || StartsWith(r.url.value, "https://")
  }

  predicate PairedOk(r: Record) {
    r.latitude.Some? == r.longitude.Some?
  }

  predicate LatitudeOk(r: Record) {
    r.latitude.None? || -90.0 <= r.latitude.value <= 90.0
  }

  /** The longitude range is checked only when a latitude is set too. */
  predicate LongitudeOk(r: Record) {
    r.latitude.None? || r.longitude.None? || -180.0 <= r.longitude.value <= 180.0
  }

  predicate StatusOk(r: Record) {
    r.status in Statuses
  }

  predicate CountOk(r: Record) {
    r.assignedCount == |r.assignedTo|
  }

  /** The outcome of each check, in the order `validate` runs them. */
  datatype Checks = Checks(title: bool, url: bool, paired: bool, latitude: bool, longitude: bool,
                           status: bool, count: bool)

  function ChecksOf(r: Record): Checks {
    Checks(TitleOk(r), UrlOk(r), PairedOk(r), LatitudeOk(r), LongitudeOk(r), StatusOk(r), CountOk(r))
  }

  predicate AllPass(c: Checks) {
    c.title && c.url && c.paired && c.latitude && c.longitude && c.status && c.count
  }

  /** Whether the check behind issue `i` passed. */
  function Passed(c: Checks, i: Issue): bool {
    match i
    case TitleIssue => c.title
    case UrlIssue => c.url
    case CoordinatesIssue => c.paired
    case LatitudeIssue => c.latitude
    case LongitudeIssue => c.longitude
    case StatusIssue => c.status
    case AssignedCountIssue => c.count
  }

  function Failed(c: Checks): Issue -> bool {
    i => !Passed(c, i)
  }

  /** The issues in the order the checks run. */
  const CheckOrder: seq<Issue> :=
    [TitleIssue, UrlIssue, CoordinatesIssue, LatitudeIssue, LongitudeIssue, StatusIssue, AssignedCountIssue]

  /** The issues of the failed checks, in order: an issue is reported exactly
      when its check failed, so none are reported exactly when all pass. */
  function IssuesOf(c: Checks): (es: seq<Issue>)
    ensures forall i :: i in es <==> !Passed(c, i)
    ensures es == [] <==> AllPass(c)
  {
    forall i ensures i in Filter(CheckOrder, Failed(c)) <==> !Passed(c, i) {
      FilterMembership(CheckOrder, Failed(c), i);
    }
    assert !AllPass(c) ==> exists i :: !Passed(c, i) by {
      if !AllPass(c) {
        SomeCheckFails(c);
      }
    }
    Filter(CheckOrder, Failed(c))
  }

  /** A failed check names its issue. */
  lemma SomeCheckFails(c: Checks)
    requires !AllPass(c)
    ensures exists i :: !Passed(c, i)
  {
    if !c.title { assert !Passed(c, TitleIssue); }
    else if !c.url { assert !Passed(c, UrlIssue); }
    else if !c.paired { assert !Passed(c, CoordinatesIssue); }
    else if !c.latitude { assert !Passed(c, LatitudeIssue); }
    else if !c.longitude { assert !Passed(c, LongitudeIssue); }
    else if !c.status { assert !Passed(c, StatusIssue); }
    else { assert !Passed(c, AssignedCountIssue); }
  }

  /** Every rule of the record. */
  predicate IsValid(r: Record) {
    TitleOk(r) && UrlOk(r) && PairedOk(r) && LatitudeOk(r) && LongitudeOk(r) && StatusOk(r) && CountOk(r)
  }

  /** `validate()`: the previous errors are discarded, the issues of the
      failed checks stored, and the answer is whether there are none. A
      latitude without a longitude is reported by the pairing check alone,
      where the code as written raises instead. */
  function Validate(r: Record): (res: (bool, Record))
    ensures res.0 <==> IsValid(r)
    ensures res.0 <==> res.1.errors == []
    ensures res.1 == r.(errors := res.1.errors)
    ensures res.1.errors == IssuesOf(ChecksOf(r))
  {
    var es := IssuesOf(ChecksOf(r));
    (es == [], r.(errors := es))
  }

  /** Validation depends only on the fields, never on earlier errors, so
      validating again gives the same answer and the same errors. */
  lemma ValidateIdempotent(r: Record)
    ensures Validate(Validate(r).1) == Validate(r)
  {
    assert ChecksOf(Validate(r).1) == ChecksOf(r);
  }

  /** The rules as `validate` spells them out, including the range check on
      a longitude that may be None: with a latitude and no longitude the
      comparison `-180 <= None` raises TypeError. */
  function ValidateAsWritten(r: Record): (res: Result<(bool, Record)>)
    ensures res.Failure? <==> r.latitude.Some? && r.longitude.None?
    ensures res.Failure? ==> res.error == TypeError
    ensures res.Success? ==> res.value.0 == (res.value.1.errors == []) && res.value.1 == r.(errors := res.value.1.errors)
  {
    if r.latitude.Some? && r.longitude.None? then Failure(TypeError)
    else
      var es := IssuesOf(ChecksOf(r));
      Success((es == [], r.(errors := es)))
  }

  /** The written checks raise exactly for a latitude without a longitude,
      and otherwise agree with the corrected ones. */
  lemma ValidateAgrees(r: Record)
    ensures ValidateAsWritten(r).Failure? <==> r.latitude.Some? && r.longitude.None?
    ensures ValidateAsWritten(r).Success? ==> ValidateAsWritten(r).value == Validate(r)
  {
  }

  /** The smallest input that shows it: an otherwise valid record with a
      latitude and no longitude raises instead of returning False. */
  lemma HalfCoordinatesRaise()
    ensures var r := NewRecord(DefaultArgs("Jam").(latitude := Some(18.5)));
      ValidateAsWritten(r) == Failure(TypeError) && !Validate(r).0
      && forall i :: i in Validate(r).1.errors <==> i == CoordinatesIssue
  {
    var r := NewRecord(DefaultArgs("Jam").(latitude := Some(18.5)));
    assert !IsSpace('J') && !IsSpace('m');
    assert Strip(r.title) == r.title;
    assert ChecksOf(r) == Checks(true, true, false, true, true, true, true);
  }

  // ---------------------------------------------------------------------------
  // IncidentDeduplicator
  // ---------------------------------------------------------------------------

  /** What `get_checksum` hashes: title, url and publication time. */
  type Checksum = (string, Option<string>, Option<Moment>)

  function ChecksumOf(r: Record): Checksum {
    (r.title, r.url, r.occurredAt)
  }

  /** `(title, occurred_at.date() or None)`. */
  function TitleKey(r: Record): (string, Option<int>) {
    (r.title, if r.occurredAt.Some? then Some(r.occurredAt.value.day) else None)
  }

  datatype Dedup = Dedup(checksums: set<Checksum>, urls: set<string>, titles: set<(string, Option<int>)>)

  const NoneSeen: Dedup := Dedup({}, {}, {})

  /** `is_duplicate`: same checksum, same non-empty URL, or same title on the
      same day. It is a predicate: asking does not change the state. */
  predicate IsDuplicate(d: Dedup, r: Record) {
    ChecksumOf(r) in d.checksums || (Truthy(r.url) && r.url.value in d.urls) || TitleKey(r) in d.titles
  }

  /** `add`: the checksum always, the URL and the title key when non-empty. */
  function Add(d: Dedup, r: Record): (d': Dedup)
    ensures d.checksums <= d'.checksums && d.urls <= d'.urls && d.titles <= d'.titles
  {
    Dedup(d.checksums + {ChecksumOf(r)},
          if Truthy(r.url) then d.urls + {r.url.value} else d.urls,
          if r.title != "" then d.titles + {TitleKey(r)} else d.titles)
  }

  /** A record just added is a duplicate of itself. */
  lemma AddThenDuplicate(d: Dedup, r: Record)
    ensures IsDuplicate(Add(d, r), r)
  {
  }

  /** The seen sets only grow, so once a duplicate, always a duplicate. */
  lemma DuplicateMonotone(d: Dedup, r: Record, x: Record)
    requires IsDuplicate(d, x)
    ensures IsDuplicate(Add(d, r), x)
  {
  }

  /** The state after adding the records in order. */
  function AddAll(d: Dedup, rs: seq<Record>): Dedup
    decreases |rs|
  {
    if |rs| == 0 then d else AddAll(Add(d, rs[0]), rs[1..])
  }

  /** `x` matches an added record `r` on one of the three keys. */
  predicate Matches(x: Record, r: Record) {
    ChecksumOf(x) == ChecksumOf(r)
    || (Truthy(x.url) && x.url == r.url)
    || (r.title != "" && TitleKey(x) == TitleKey(r))
  }

  /** After adding records in order, a record is a duplicate exactly when it
      was one before or matches one of the records added. */
  lemma {:induction false} DuplicateIff(d: Dedup, rs: seq<Record>, x: Record)
    ensures IsDuplicate(AddAll(d, rs), x) <==> IsDuplicate(d, x) || exists i :: 0 <= i < |rs| && Matches(x, rs[i])
    decreases |rs|
  {
    if |rs| > 0 {
      DuplicateIff(Add(d, rs[0]), rs[1..], x);
      assert IsDuplicate(Add(d, rs[0]), x) <==> IsDuplicate(d, x) || Matches(x, rs[0]);
      if exists i :: 0 <= i < |rs| && Matches(x, rs[i]) {
        var i :| 0 <= i < |rs| && Matches(x, rs[i]);
        if i > 0 {
          assert rs[1..][i - 1] == rs[i];
        }
      }
      if exists i :: 0 <= i < |rs[1..]| && Matches(x, rs[1..][i]) {
        var i :| 0 <= i < |rs[1..]| && Matches(x, rs[1..][i]);
        assert Matches(x, rs[i + 1]);
      }
    }
  }

  // ---------------------------------------------------------------------------
  // Extraction and geocoding
  // ---------------------------------------------------------------------------

  /** `a or b` for optional strings. */
  function Or(a: Option<string>, b: Option<string>): (r: Option<string>)
    ensures Truthy(a) ==> r == a
    ensures !Truthy(a) ==> r == b
  {
    if Truthy(a) then a else b
  }

  /** `extract`: the pattern result, with each part replaced by the language
      model's answer when the model is used and its answer is non-empty. */
  function Extract(pattern: (Option<string>, Option<string>), useLlm: bool,
                   llm: (Option<string>, Option<string>)): (r: (Option<string>, Option<string>))
    ensures useLlm && Truthy(llm.0) ==> r.0 == llm.0
    ensures useLlm && Truthy(llm.1) ==> r.1 == llm.1
    ensures !useLlm || !Truthy(llm.0) ==> r.0 == pattern.0
    ensures !useLlm || !Truthy(llm.1) ==> r.1 == pattern.1
  {
    if useLlm then (Or(llm.0, pattern.0), Or(llm.1, pattern.1)) else pattern
  }

  /** A model that answers nothing leaves the pattern result unchanged. */
  lemma SilentModelKeepsPatterns(pattern: (Option<string>, Option<string>))
    ensures Extract(pattern, true, (None, None)) == pattern
    ensures Extract(pattern, true, (Some(""), Some(""))) == pattern
  {
  }

  /** `PUNE_BOUNDS`, inclusive. */
  const PuneBounds: BBox := BBox(18.3, 73.6, 18.7, 74.1)

  /** The configured city box lies inside the geocoder's acceptance bounds. */
  lemma PuneBoxInsideBounds()
    ensures var b := Config.PuneBBox();
      PuneBounds.minLat <= b.minLat && b.maxLat <= PuneBounds.maxLat
      && PuneBounds.minLon <= b.minLon && b.maxLon <= PuneBounds.maxLon
  {
  }

  /** True when the text is empty or only whitespace (`not s.strip()`). */
  predicate Blank(s: string) {
    forall i :: 0 <= i < |s| ==> IsSpace(s[i])
  }

  /** `geocode(location)`: the first Nominatim result for the place with the
      city appended, accepted only inside `PUNE_BOUNDS`. `search` is the
      request; None stands for a failed request, a non-200 answer or no
      results. */
  function Geocode(location: Option<string>, search: string -> Option<Point>): (r: Option<Point>)
    ensures r.Some? ==> InBBox(r.value, PuneBounds)
    ensures r.Some? <==> location.Some? && !Blank(location.value)
                         && search(location.value + ", Pune, Maharashtra, India").Some?
                         && InBBox(search(location.value + ", Pune, Maharashtra, India").value, PuneBounds)
    ensures r.Some? ==> r == search(location.value + ", Pune, Maharashtra, India")
  {
    if location.None? || |Strip(location.value)| == 0 then None
    else
      match search(location.value + ", Pune, Maharashtra, India")
      case None => None
      case Some(p) => if InBBox(p, PuneBounds) then Some(p) else None
  }

  // ---------------------------------------------------------------------------
  // IncidentPipeline.process_article
  // ---------------------------------------------------------------------------

  datatype Stats = Stats(fetched: nat, validated: nat, duplicatesRemoved: nat, errors: nat, stored: nat)

  datatype State = State(dedup: Dedup, stats: Stats)

  const Initial: State := State(NoneSeen, Stats(0, 0, 0, 0, 0))

  /** `process_article` once the record has been built: an article without a
      title is an error; an invalid record is an error; a valid duplicate is
      counted and dropped; anything else is remembered and returned. */
  function ProcessArticle(s: State, title: Option<string>, record: Record): (r: (State, Option<Record>))
    ensures r.1.Some? ==> r.1.value == Validate(record).1 && IsValid(record) && IsValid(r.1.value)
                          && !IsDuplicate(s.dedup, r.1.value) && IsDuplicate(r.0.dedup, r.1.value)
    ensures r.1.Some? <==> Truthy(title) && IsValid(record) && !IsDuplicate(s.dedup, Validate(record).1)
    ensures r.0.dedup == if r.1.Some? then Add(s.dedup, r.1.value) else s.dedup
    ensures r.0.stats.duplicatesRemoved > s.stats.duplicatesRemoved ==> r.0.stats.validated > s.stats.validated
    ensures (r.0.stats.errors - s.stats.errors) + (r.0.stats.validated - s.stats.validated) == 1
    ensures r.0.stats.validated - s.stats.validated
            == (r.0.stats.duplicatesRemoved - s.stats.duplicatesRemoved) + (if r.1.Some? then 1 else 0)
    ensures r.0.stats.fetched == s.stats.fetched && r.0.stats.stored == s.stats.stored
    ensures r.0.stats.errors >= s.stats.errors && r.0.stats.validated >= s.stats.validated
    ensures r.0.stats.duplicatesRemoved >= s.stats.duplicatesRemoved
  {
    var st := s.stats;
    if !Truthy(title) then (s.(stats := st.(errors := st.errors + 1)), None)
    else
      var (ok, rec) := Validate(record);
      if !ok then (s.(stats := st.(errors := st.errors + 1)), None)
      else
        var st1 := st.(validated := st.validated + 1);
        if IsDuplicate(s.dedup, rec) then (s.(stats := st1.(duplicatesRemoved := st1.duplicatesRemoved + 1)), None)
        else (State(Add(s.dedup, rec), st1), Some(rec))
  }

  /** With the validator as written, the TypeError is caught by the handler
      around the whole article and counted as an error, so the article's
      outcome is the same as with the corrected validator. */
  function ProcessArticleAsWritten(s: State, title: Option<string>, record: Record): (State, Option<Record>) {
    var st := s.stats;
    if !Truthy(title) then (s.(stats := st.(errors := st.errors + 1)), None)
    else
      match ValidateAsWritten(record)
      case Failure(_) => (s.(stats := st.(errors := st.errors + 1)), None)
      case Success((ok, rec)) =>
        if !ok then (s.(stats := st.(errors := st.errors + 1)), None)
        else
          var st1 := st.(validated := st.validated + 1);
          if IsDuplicate(s.dedup, rec) then (s.(stats := st1.(duplicatesRemoved := st1.duplicatesRemoved + 1)), None)
          else (State(Add(s.dedup, rec), st1), Some(rec))
  }

  lemma ProcessArticleAgrees(s: State, title: Option<string>, record: Record)
    ensures ProcessArticleAsWritten(s, title, record) == ProcessArticle(s, title, record)
  {
    ValidateAgrees(record);
  }

  /** `process_batch` as a sequential fold: `fetched` is set to the batch size
      and the kept records come back in article order. */
  function ProcessAll(s: State, articles: seq<(Option<string>, Record)>): (r: (State, seq<Record>))
    ensures |r.1| <= |articles|
    ensures r.0.stats.errors - s.stats.errors + r.0.stats.duplicatesRemoved - s.stats.duplicatesRemoved + |r.1|
            == |articles|
    ensures r.0.stats.errors >= s.stats.errors && r.0.stats.duplicatesRemoved >= s.stats.duplicatesRemoved
    ensures r.0.stats.fetched == s.stats.fetched
    decreases |articles|
  {
    if |articles| == 0 then (s, [])
    else
      var first := ProcessArticle(s, articles[0].0, articles[0].1);
      var rest := ProcessAll(first.0, articles[1..]);
      (rest.0, Kept(first.1, rest.1))
  }

  /** The record an article kept, if any, ahead of the later ones. */
  function Kept(o: Option<Record>, rest: seq<Record>): (rs: seq<Record>)
    ensures |rs| == |rest| + (if o.Some? then 1 else 0)
  {
    (if o.Some? then [o.value] else []) + rest
  }

  /** A property of the kept record and of every later one holds of all. */
  lemma KeptAll(o: Option<Record>, rest: seq<Record>, p: Record -> bool)
    requires o.Some? ==> p(o.value)
    requires forall i :: 0 <= i < |rest| ==> p(rest[i])
    ensures forall i :: 0 <= i < |Kept(o, rest)| ==> p(Kept(o, rest)[i])
  {
    var out := Kept(o, rest);
    forall i | 0 <= i < |out| ensures p(out[i]) {
      if o.Some? && i > 0 {
        assert out[i] == rest[i - 1];
      }
    }
  }

  function ProcessBatch(s: State, articles: seq<(Option<string>, Record)>): (r: (State, seq<Record>))
    ensures r.0.stats.fetched == |articles|
    ensures r.0.stats.errors - s.stats.errors + r.0.stats.duplicatesRemoved - s.stats.duplicatesRemoved + |r.1|
            == |articles|
  {
    ProcessAll(s.(stats := s.stats.(fetched := |articles|)), articles)
  }

  /** Every record of `rs` passes validation. */
  predicate AllValid(rs: seq<Record>) {
    forall i :: 0 <= i < |rs| ==> IsValid(rs[i])
  }

  /** None of `rs` would be rejected as a duplicate against `d`. */
  predicate NoneDuplicate(d: Dedup, rs: seq<Record>) {
    forall i :: 0 <= i < |rs| ==> !IsDuplicate(d, rs[i])
  }

  /** No record of `rs` matches an earlier one. */
  predicate NoRepeats(rs: seq<Record>) {
    forall i, j :: 0 <= i < j < |rs| ==> !Matches(rs[j], rs[i])
  }

  /** One step of the batch: the article's kept record, if any, then the rest. */
  lemma ProcessAllStep(s: State, articles: seq<(Option<string>, Record)>)
    requires |articles| > 0
    ensures var first := ProcessArticle(s, articles[0].0, articles[0].1);
      ProcessAll(s, articles).1 == Kept(first.1, ProcessAll(first.0, articles[1..]).1)
  {
  }

  /** Every record a batch keeps passed validation. */
  lemma {:induction false} BatchKeepsValid(s: State, articles: seq<(Option<string>, Record)>)
    ensures AllValid(ProcessAll(s, articles).1)
    decreases |articles|
  {
    if |articles| > 0 {
      var first := ProcessArticle(s, articles[0].0, articles[0].1);
      BatchKeepsValid(first.0, articles[1..]);
      ProcessAllStep(s, articles);
      KeptAll(first.1, ProcessAll(first.0, articles[1..]).1, (x: Record) => IsValid(x));
    }
  }

  /** Records fresh after an addition were fresh before it. */
  lemma FreshBeforeAdd(d: Dedup, r: Record, rest: seq<Record>)
    requires NoneDuplicate(Add(d, r), rest)
    ensures NoneDuplicate(d, rest)
  {
    forall i | 0 <= i < |rest| ensures !IsDuplicate(d, rest[i]) {
      if IsDuplicate(d, rest[i]) {
        DuplicateMonotone(d, r, rest[i]);
      }
    }
  }

  /** No record a batch keeps was already a duplicate of the starting state. */
  lemma {:induction false} BatchKeepsFresh(s: State, articles: seq<(Option<string>, Record)>)
    ensures NoneDuplicate(s.dedup, ProcessAll(s, articles).1)
    decreases |articles|
  {
    if |articles| > 0 {
      var first := ProcessArticle(s, articles[0].0, articles[0].1);
      var rest := ProcessAll(first.0, articles[1..]).1;
      BatchKeepsFresh(first.0, articles[1..]);
      ProcessAllStep(s, articles);
      if first.1.Some? {
        FreshBeforeAdd(s.dedup, first.1.value, rest);
      }
      KeptAll(first.1, rest, (x: Record) => !IsDuplicate(s.dedup, x));
    }
  }

  /** Adding one record makes exactly its matches new duplicates. */
  lemma AddIff(d: Dedup, r: Record, x: Record)
    ensures IsDuplicate(Add(d, r), x) <==> IsDuplicate(d, x) || Matches(x, r)
  {
  }

  /** Records that are not duplicates after adding `r` do not match `r`. */
  lemma FreshAfterAdd(d: Dedup, r: Record, rest: seq<Record>)
    requires NoneDuplicate(Add(d, r), rest)
    ensures forall k :: 0 <= k < |rest| ==> !Matches(rest[k], r)
  {
    forall k | 0 <= k < |rest| ensures !Matches(rest[k], r) {
      AddIff(d, r, rest[k]);
    }
  }

  lemma ConsNoRepeats(r: Record, rest: seq<Record>)
    requires NoRepeats(rest)
    requires forall k :: 0 <= k < |rest| ==> !Matches(rest[k], r)
    ensures NoRepeats([r] + rest)
  {
    var out := [r] + rest;
    forall i, j | 0 <= i < j < |out| ensures !Matches(out[j], out[i]) {
      assert out[j] == rest[j - 1];
      if i > 0 {
        assert out[i] == rest[i - 1];
      }
    }
  }

  /** No record kept from a batch matches an earlier kept one. */
  lemma {:induction false} BatchKeepsNoDuplicates(s: State, articles: seq<(Option<string>, Record)>)
    ensures NoRepeats(ProcessAll(s, articles).1)
    decreases |articles|
  {
    if |articles| > 0 {
      var first := ProcessArticle(s, articles[0].0, articles[0].1);
      BatchKeepsNoDuplicates(first.0, articles[1..]);
      ProcessAllStep(s, articles);
      var rest := ProcessAll(first.0, articles[1..]).1;
      if first.1.Some? {
        BatchKeepsFresh(first.0, articles[1..]);
        FreshAfterAdd(s.dedup, first.1.value, rest);
        ConsNoRepeats(first.1.value, rest);
      }
    }
  }
}
