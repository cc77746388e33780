/** Volunteer analytics over the stored incidents and users: the incident
    summary, the skills supply-and-demand table and the per-priority
    assignment distribution. Skill matching is in volunteer_matching.dfy.
    Table reads are parameters; a column read as SQL null is None. */
module VolunteerAnalytics {
  import opened Wrappers
  import opened Seqs
  import opened Sorting
  import opened Counters

  /** The incident columns the analytics read. */
  datatype Incident = Incident(
    id: string,
    title: Option<string>,
    priority: Option<string>,
    status: Option<string>,
    requiredSkills: Option<seq<string>>,
    assignedCount: Option<int>)

  /** The user columns the analytics read. */
  datatype User = User(id: string, name: Option<string>, skills: Option<seq<string>>)

  /** Incidents still looking for volunteers. */
  predicate IsOpen(i: Incident) {
    i.status == Some("unassigned") || i.status == Some("partially_assigned")
  }

  /** The elements `f` maps to `v`. */
  function MapsTo<T, U(==)>(f: T -> U, v: U): T -> bool {
    (x: T) => f(x) == v
  }

  /** How often a value occurs among the images equals how many elements
      map to it. */
  lemma {:induction false} MultisetOfMap<T, U>(xs: seq<T>, f: T -> U, v: U)
    ensures multiset(MapSeq(xs, f))[v] == Count(xs, MapsTo(f, v))
  {
    if |xs| > 0 {
      var init := xs[..|xs| - 1];
      var last := xs[|xs| - 1];
      MultisetOfMap(init, f, v);
      assert multiset(MapSeq(xs, f)) == multiset(MapSeq(init, f)) + multiset{f(last)};
      assert xs == init + [last];
      CountSnoc(init, last, MapsTo(f, v));
    }
  }

  // ---------------------------------------------------------------------------
  // get_incidents_summary
  // ---------------------------------------------------------------------------

  datatype Summary = Summary(
    total: nat,
    byStatus: Counts<Option<string>>,
    byPriority: Counts<Option<string>>,
    unassigned: nat,
    partiallyAssigned: nat,
    fullyAssigned: nat,
    totalAssignments: int)

  /** The summary returned for no incidents, and after any exception. */
  const EmptySummary: Summary := Summary(0, [], [], 0, 0, 0, 0)

  function StatusOf(i: Incident): Option<string> { i.status }

  function PriorityOf(i: Incident): Option<string> { i.priority }

  function HasStatus(s: string): Incident -> bool {
    (i: Incident) => i.status == Some(s)
  }

  /** `status in ['assigned', 'resolved']`. */
  function Settled(): Incident -> bool {
    (i: Incident) => i.status == Some("assigned") || i.status == Some("resolved")
  }

  /** Statuses none of the three counters looks at, such as 'in_progress'. */
  function Untracked(): Incident -> bool {
    (i: Incident) => !(i.status == Some("unassigned") || i.status == Some("partially_assigned")
                       || i.status == Some("assigned") || i.status == Some("resolved"))
  }

  /** `sum(inc.get('assigned_count', 0) ...)`: a null count makes the sum
      raise, which is None here. */
  function SumAssigned(incs: seq<Incident>): (r: Option<int>)
    ensures r.None? <==> exists k :: 0 <= k < |incs| && incs[k].assignedCount.None?
  {
    if |incs| == 0 then Some(0)
    else
      var rest := SumAssigned(incs[1..]);
      assert forall k :: 0 < k < |incs| ==> incs[k] == incs[1..][k - 1];
      if incs[0].assignedCount.None? || rest.None? then None
      else Some(incs[0].assignedCount.value + rest.value)
  }

  /** The status table's entry for a status is the number of incidents
      carrying it. */
  lemma StatusTableCounts(incs: seq<Incident>, st: string)
    ensures Get(CountAll(MapSeq(incs, StatusOf)), Some(st)) == Count(incs, HasStatus(st))
  {
    CountAllFacts(MapSeq(incs, StatusOf));
    MultisetOfMap(incs, StatusOf, Some(st));
    assert forall x :: MapsTo(StatusOf, Some(st))(x) == HasStatus(st)(x);
    CountAgree(incs, MapsTo(StatusOf, Some(st)), HasStatus(st));
  }

  /** `get_incidents_summary`: `data` is the fetched rows, None when the
      response carried none. */
  function IncidentsSummary(data: Option<seq<Incident>>): (s: Summary)
    ensures data.None? || data.value == [] ==> s == EmptySummary
    ensures data.Some? && SumAssigned(data.value).None? ==> s == EmptySummary
    ensures data.Some? && data.value != [] && SumAssigned(data.value).Some? ==>
      && s.total == |data.value|
      && s.unassigned == Count(data.value, HasStatus("unassigned"))
      && s.partiallyAssigned == Count(data.value, HasStatus("partially_assigned"))
      && s.fullyAssigned == Count(data.value, Settled())
      && s.totalAssignments == SumAssigned(data.value).value
      && Total(s.byStatus) == |data.value| && Total(s.byPriority) == |data.value|
      && DistinctKeys(s.byStatus) && DistinctKeys(s.byPriority)
      && Tallies(s.byStatus, MapSeq(data.value, StatusOf))
      && Tallies(s.byPriority, MapSeq(data.value, PriorityOf))
      && Get(s.byStatus, Some("unassigned")) == s.unassigned
      && Get(s.byStatus, Some("partially_assigned")) == s.partiallyAssigned
  {
    if data.None? || data.value == [] then EmptySummary
    else
      var incs := data.value;
      match SumAssigned(incs)
      case None => EmptySummary
      case Some(assignments) =>
        var statuses := MapSeq(incs, StatusOf);
        var priorities := MapSeq(incs, PriorityOf);
        CountAllFacts(statuses);
        CountAllFacts(priorities);
        CountAllTallies(statuses);
        CountAllTallies(priorities);
        StatusTableCounts(incs, "unassigned");
        StatusTableCounts(incs, "partially_assigned");
        Summary(|incs|, CountAll(statuses), CountAll(priorities),
                Count(incs, HasStatus("unassigned")), Count(incs, HasStatus("partially_assigned")),
                Count(incs, Settled()), assignments)
  }

  /** The three assignment counters plus the incidents none of them looks
      at (an 'in_progress' one, say) make up the whole list; so the
      counters add up to the total only when no such incident exists. */
  lemma {:induction false} AssignmentCountersGap(incs: seq<Incident>)
    ensures Count(incs, HasStatus("unassigned")) + Count(incs, HasStatus("partially_assigned"))
            + Count(incs, Settled()) + Count(incs, Untracked()) == |incs|
  {
    if |incs| > 0 {
      AssignmentCountersGap(incs[1..]);
      CountCons(incs, HasStatus("unassigned"));
      CountCons(incs, HasStatus("partially_assigned"));
      CountCons(incs, Settled());
      CountCons(incs, Untracked());
    }
  }

  /** An in-progress incident is counted in none of the three counters. */
  lemma InProgressUncounted(incs: seq<Incident>)
    requires exists k :: 0 <= k < |incs| && incs[k].status == Some("in_progress")
    ensures Count(incs, HasStatus("unassigned")) + Count(incs, HasStatus("partially_assigned"))
            + Count(incs, Settled()) < |incs|
  {
    var k :| 0 <= k < |incs| && incs[k].status == Some("in_progress");
    AssignmentCountersGap(incs);
    FilterMembership(incs, Untracked(), incs[k]);
  }

  // ---------------------------------------------------------------------------
  // get_skills_analysis
  // ---------------------------------------------------------------------------

  /** The skills open incidents ask for, with multiplicity, in incident order. */
  function RequiredSkills(incs: seq<Incident>): seq<string> {
    if |incs| == 0 then []
    else
      var i := incs[|incs| - 1];
      RequiredSkills(incs[..|incs| - 1]) + (if IsOpen(i) && i.requiredSkills.Some? then i.requiredSkills.value else [])
  }

  /** The skills users offer, with multiplicity, in user order. */
  function AvailableSkills(users: seq<User>): seq<string> {
    if |users| == 0 then []
    else
      var u := users[|users| - 1];
      AvailableSkills(users[..|users| - 1]) + (if u.skills.Some? then u.skills.value else [])
  }

  /** Skills only come from open incidents: a closed one adds none. */
  lemma ClosedIncidentAddsNoDemand(incs: seq<Incident>, i: Incident)
    requires !IsOpen(i)
    ensures RequiredSkills(incs + [i]) == RequiredSkills(incs)
  {
    assert (incs + [i])[..|incs|] == incs;
  }

  /** An open incident adds exactly its listed skills. */
  lemma OpenIncidentAddsItsSkills(incs: seq<Incident>, i: Incident)
    requires IsOpen(i) && i.requiredSkills.Some?
    ensures multiset(RequiredSkills(incs + [i])) == multiset(RequiredSkills(incs)) + multiset(i.requiredSkills.value)
  {
    assert (incs + [i])[..|incs|] == incs;
  }

  /** One row of the gap table. */
  datatype Gap = Gap(required: nat, available: nat, gap: int, shortage: bool)

  datatype SkillsAnalysis = SkillsAnalysis(
    totalUsers: nat,
    totalUniqueSkills: nat,
    skillsGap: map<string, Gap>,
    mostNeeded: Counts<string>,
    mostAvailable: Counts<string>)

  /** `Counter.most_common(n)`: the entries by count, highest first, ties in
      insertion order, cut to `n`. */
  function MostCommon(c: Counts<string>, n: nat): (r: Counts<string>)
    ensures |r| == if n < |c| then n else |c|
    ensures forall e :: e in r ==> e in c
    ensures forall i, j :: 0 <= i < j < |r| ==> r[i].1 >= r[j].1
  {
    var sorted := SortBy(c, NegCount);
    SortFacts(c, NegCount);
    var r := sorted[..if n < |c| then n else |c|];
    assert forall e :: e in r ==> e in multiset(sorted);
    assert forall i, j :: 0 <= i < j < |r| ==> r[i] == sorted[i] && r[j] == sorted[j];
    r
  }

  function NegCount(e: (string, nat)): real {
    -(e.1 as real)
  }

  /** Every entry left out counts no more than the last one kept. */
  lemma MostCommonKeepsTop(c: Counts<string>, n: nat)
    ensures var r := MostCommon(c, n);
      |r| > 0 ==> forall e :: e in c && e !in r ==> e.1 <= r[|r| - 1].1
  {
    var r := MostCommon(c, n);
    var sorted := SortBy(c, NegCount);
    SortFacts(c, NegCount);
    assert r == sorted[..|r|];
    forall e | e in c && e !in r && |r| > 0 ensures e.1 <= r[|r| - 1].1 {
      assert e in multiset(sorted);
      var j :| 0 <= j < |sorted| && sorted[j] == e;
      assert NegCount(sorted[|r| - 1]) <= NegCount(sorted[j]);
    }
  }

  /** `top` is a most-common list of `xs`: each entry is a value of `xs` with
      its number of occurrences, no value is listed twice, the counts never
      rise, there are min(n, number of distinct values) entries, and no
      unlisted value occurs more often than the last listed one. */
  ghost predicate MostCommonOf(xs: seq<string>, n: nat, top: Counts<string>) {
    var distinct := |set x | x in xs|;
    && |top| == (if n < distinct then n else distinct)
    && (forall i :: 0 <= i < |top| ==> top[i].0 in xs && top[i].1 == multiset(xs)[top[i].0])
    && DistinctKeys(top)
    && (forall i, j :: 0 <= i < j < |top| ==> top[i].1 >= top[j].1)
    && (|top| > 0 ==> forall x :: x in xs && x !in Keys(top) ==> multiset(xs)[x] <= top[|top| - 1].1)
  }

  /** `Counter(xs).most_common(n)` is a most-common list of `xs`. */
  lemma MostCommonOfCounts(xs: seq<string>, n: nat)
    ensures MostCommonOf(xs, n, MostCommon(CountAll(xs), n))
  {
    MostCommonLength(xs, n);
    MostCommonEntries(xs, n);
    MostCommonDistinct(xs, n);
    MostCommonBeatsUnlisted(xs, n);
  }

  /** There are min(n, number of distinct values) entries. */
  lemma MostCommonLength(xs: seq<string>, n: nat)
    ensures var distinct := |set x | x in xs|;
      |MostCommon(CountAll(xs), n)| == if n < distinct then n else distinct
  {
    var c := CountAll(xs);
    CountAllKeys(xs);
    DistinctKeysCard(c);
    assert (set k | k in Keys(c)) == (set x | x in xs);
  }

  /** Each entry is a value of `xs` with its number of occurrences. */
  lemma MostCommonEntries(xs: seq<string>, n: nat)
    ensures var r := MostCommon(CountAll(xs), n);
      forall i :: 0 <= i < |r| ==> r[i].0 in xs && r[i].1 == multiset(xs)[r[i].0]
  {
    var c := CountAll(xs);
    var r := MostCommon(c, n);
    forall i | 0 <= i < |r| ensures r[i].0 in xs && r[i].1 == multiset(xs)[r[i].0] {
      assert r[i] in r;
      var a :| 0 <= a < |c| && c[a] == r[i];
      EntryOfCountAll(xs, a);
    }
  }

  /** The `a`-th entry of `Counter(xs)` is a value of `xs` with its count. */
  lemma EntryOfCountAll(xs: seq<string>, a: nat)
    requires a < |CountAll(xs)|
    ensures CountAll(xs)[a].0 in xs
    ensures CountAll(xs)[a].1 == multiset(xs)[CountAll(xs)[a].0]
  {
    var c := CountAll(xs);
    CountAllKeys(xs);
    CountAllGet(xs, c[a].0);
    DistinctGet(c, a);
    assert Keys(c)[a] == c[a].0;
  }

  /** No value outside the list occurs more often than the last listed one. */
  lemma MostCommonBeatsUnlisted(xs: seq<string>, n: nat)
    ensures var r := MostCommon(CountAll(xs), n);
      |r| > 0 ==> forall x :: x in xs && x !in Keys(r) ==> multiset(xs)[x] <= r[|r| - 1].1
  {
    var c := CountAll(xs);
    var r := MostCommon(c, n);
    MostCommonKeepsTop(c, n);
    CountAllFacts(xs);
    if |r| > 0 {
      forall x | x in xs && x !in Keys(r) ensures multiset(xs)[x] <= r[|r| - 1].1 {
        TopBeatsUnlisted(c, r, x);
      }
    }
  }

  /** A list that no dropped entry beats has no unlisted key above its last
      count. */
  lemma TopBeatsUnlisted(c: Counts<string>, r: Counts<string>, x: string)
    requires DistinctKeys(c) && |r| > 0
    requires forall e :: e in c && e !in r ==> e.1 <= r[|r| - 1].1
    requires x in Keys(c) && x !in Keys(r)
    ensures Get(c, x) <= r[|r| - 1].1
  {
    var a :| 0 <= a < |c| && Keys(c)[a] == x;
    DistinctGet(c, a);
  }

  /** No value is listed twice in `Counter(xs).most_common(n)`. */
  lemma MostCommonDistinct(xs: seq<string>, n: nat)
    ensures DistinctKeys(MostCommon(CountAll(xs), n))
  {
    var c := CountAll(xs);
    var sorted := SortBy(c, NegCount);
    SortFacts(c, NegCount);
    CountAllFacts(xs);
    var m := if n < |c| then n else |c|;
    assert MostCommon(c, n) == sorted[..m];
    PrefixOfPermutationDistinct(c, sorted, m);
  }

  /** A prefix of a permutation of a list with distinct keys has distinct
      keys. */
  lemma PrefixOfPermutationDistinct(c: Counts<string>, sorted: Counts<string>, m: nat)
    requires DistinctKeys(c) && multiset(sorted) == multiset(c) && m <= |sorted|
    ensures DistinctKeys(sorted[..m])
  {
    var r := sorted[..m];
    assert sorted == r + sorted[m..];
    forall i, j | 0 <= i < j < |r| ensures r[i].0 != r[j].0 {
      if r[i].0 == r[j].0 {
        assert r[i] in multiset(c) && r[j] in multiset(c);
        var a :| 0 <= a < |c| && c[a] == r[i];
        var b :| 0 <= b < |c| && c[b] == r[j];
        assert a == b;
        TwiceInMultiset(r, i, j);
        assert multiset(sorted)[r[i]] >= 2;
        MultiplicityOfDistinct(c, r[i]);
      }
    }
  }

  /** Ties keep insertion order: among entries of one count, the kept ones
      are the first ones of the counter. */
  lemma MostCommonStable(c: Counts<string>, n: nat, k: real)
    ensures var kept := Bucket(MostCommon(c, n), NegCount, k);
      |kept| <= |Bucket(c, NegCount, k)| && kept == Bucket(c, NegCount, k)[..|kept|]
  {
    var sorted := SortBy(c, NegCount);
    SortStable(c, NegCount, k);
    var m := if n < |c| then n else |c|;
    assert MostCommon(c, n) == sorted[..m];
    assert sorted == sorted[..m] + sorted[m..];
    BucketConcat(sorted[..m], sorted[m..], NegCount, k);
  }

  /** One gap row for every skill on either side, from the two tallies. */
  function GapTable(needed: seq<string>, offered: seq<string>): (g: map<string, Gap>)
    ensures forall s :: s in g <==> s in needed || s in offered
    ensures forall s :: s in g ==>
      && g[s].required == multiset(needed)[s]
      && g[s].available == multiset(offered)[s]
      && g[s].gap == g[s].required - g[s].available
      && (g[s].shortage <==> g[s].required > g[s].available)
  {
    var required := CountAll(needed);
    var available := CountAll(offered);
    CountAllFacts(needed);
    CountAllFacts(offered);
    var all := (set s | s in Keys(required)) + (set s | s in Keys(available));
    map s | s in all :: Gap(Get(required, s), Get(available, s),
                            Get(required, s) - Get(available, s), Get(required, s) > Get(available, s))
  }

  /** `get_skills_analysis`: demand counted over open incidents, supply over
      users, and one gap row for every skill seen on either side. */
  function SkillsAnalysisOf(incs: seq<Incident>, users: seq<User>): (r: SkillsAnalysis)
    ensures r.totalUsers == |users|
    ensures forall s :: s in r.skillsGap <==> s in RequiredSkills(incs) || s in AvailableSkills(users)
    ensures r.totalUniqueSkills == |r.skillsGap.Keys|
    ensures forall s :: s in r.skillsGap ==>
      && r.skillsGap[s].required == multiset(RequiredSkills(incs))[s]
      && r.skillsGap[s].available == multiset(AvailableSkills(users))[s]
      && r.skillsGap[s].gap == r.skillsGap[s].required - r.skillsGap[s].available
      && (r.skillsGap[s].shortage <==> r.skillsGap[s].required > r.skillsGap[s].available)
    ensures |r.mostNeeded| <= 10 && |r.mostAvailable| <= 10
    ensures r.mostNeeded == MostCommon(CountAll(RequiredSkills(incs)), 10)
    ensures r.mostAvailable == MostCommon(CountAll(AvailableSkills(users)), 10)
    ensures MostCommonOf(RequiredSkills(incs), 10, r.mostNeeded)
    ensures MostCommonOf(AvailableSkills(users), 10, r.mostAvailable)
  {
    MostCommonOfCounts(RequiredSkills(incs), 10);
    MostCommonOfCounts(AvailableSkills(users), 10);
    var gaps := GapTable(RequiredSkills(incs), AvailableSkills(users));
    SkillsAnalysis(|users|, |gaps.Keys|, gaps,
                   MostCommon(CountAll(RequiredSkills(incs)), 10), MostCommon(CountAll(AvailableSkills(users)), 10))
  }

  // ---------------------------------------------------------------------------
  // get_priority_distribution
  // ---------------------------------------------------------------------------

  const Priorities: seq<string> := ["critical", "high", "medium", "low"]

  datatype PriorityRow = PriorityRow(
    total: nat,
    unassigned: nat,
    partiallyAssigned: nat,
    fullyAssigned: nat,
    totalVolunteers: int)

  function HasPriority(p: string): Incident -> bool {
    (i: Incident) => i.priority == Some(p)
  }

  /** Anything not 'unassigned' or 'partially_assigned' counts as fully
      assigned here, unlike in the summary. */
  function NotOpen(): Incident -> bool {
    (i: Incident) => !IsOpen(i)
  }

  /** The row for one priority, or None when a null `assigned_count` among
      its incidents makes the sum raise. */
  function RowFor(incs: seq<Incident>, p: string): (r: Option<PriorityRow>)
    ensures r.Some? <==> SumAssigned(Filter(incs, HasPriority(p))).Some?
    ensures r.Some? ==>
      var mine := Filter(incs, HasPriority(p));
      && r.value.total == Count(incs, HasPriority(p))
      && r.value.unassigned == Count(mine, HasStatus("unassigned"))
      && r.value.partiallyAssigned == Count(mine, HasStatus("partially_assigned"))
      && r.value.fullyAssigned == Count(mine, NotOpen())
      && r.value.totalVolunteers == SumAssigned(mine).value
  {
    var mine := Filter(incs, HasPriority(p));
    match SumAssigned(mine)
    case None => None
    case Some(volunteers) =>
      Some(PriorityRow(|mine|, Count(mine, HasStatus("unassigned")), Count(mine, HasStatus("partially_assigned")),
                       Count(mine, NotOpen()), volunteers))
  }

  /** Within one priority the three assignment columns add up to its total. */
  lemma {:induction false} OpenSplit(incs: seq<Incident>)
    ensures Count(incs, HasStatus("unassigned")) + Count(incs, HasStatus("partially_assigned"))
            + Count(incs, NotOpen()) == |incs|
  {
    if |incs| > 0 {
      OpenSplit(incs[1..]);
      CountCons(incs, HasStatus("unassigned"));
      CountCons(incs, HasStatus("partially_assigned"));
      CountCons(incs, NotOpen());
    }
  }

  /** `get_priority_distribution`: one row per priority in the fixed order,
      or nothing at all when any row's sum raises. */
  function PriorityDistribution(incs: seq<Incident>): (r: seq<(string, PriorityRow)>)
    ensures r == [] || |r| == 4
    ensures r == [] <==> exists k :: 0 <= k < 4 && RowFor(incs, Priorities[k]).None?
    ensures forall k :: 0 <= k < |r| ==> r[k].0 == Priorities[k] && Some(r[k].1) == RowFor(incs, Priorities[k])
    ensures forall k :: 0 <= k < |r| ==>
      r[k].1.unassigned + r[k].1.partiallyAssigned + r[k].1.fullyAssigned == r[k].1.total
  {
    var rows := MapSeq(Priorities, (p: string) => RowFor(incs, p));
    if exists k :: 0 <= k < 4 && rows[k].None? then []
    else
      var r := seq(4, k requires 0 <= k < 4 => (Priorities[k], rows[k].value));
      forall k | 0 <= k < 4 ensures r[k].1.unassigned + r[k].1.partiallyAssigned + r[k].1.fullyAssigned == r[k].1.total {
        OpenSplit(Filter(incs, HasPriority(Priorities[k])));
      }
      r
  }
}
