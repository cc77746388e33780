/** Skill matching (`get_skill_matching_recommendations`): for the first
    open incidents, the users sharing a required skill, scored by the share
    of required skills they cover; the best five per incident; and the
    recommendations ordered by priority and then by best score. */
module SkillMatching {
  import opened Wrappers
  import opened Seqs
  import opened Sorting
  import opened Numbers
  import opened VolunteerAnalytics

  /** `xs[:n]` with Python's slice rules: a negative `n` counts from the end. */
  function PyPrefix<T>(xs: seq<T>, n: int): (r: seq<T>)
    ensures r <= xs
    ensures n >= 0 ==> |r| == if n < |xs| then n else |xs|
    ensures n < 0 ==> |r| == if |xs| + n > 0 then |xs| + n else 0
  {
    if n >= 0 then (if n < |xs| then xs[..n] else xs)
    else if |xs| + n > 0 then xs[..|xs| + n] else []
  }

  function SetOf(xs: seq<string>): (s: set<string>)
    ensures forall x :: x in s <==> x in xs
  {
    set x | x in xs
  }

  /** `round(x, 1)`, on exact reals. */
  function Round1(x: real): (r: real)
    ensures 0.0 <= x <= 100.0 ==> 0.0 <= r <= 100.0
    ensures x - 0.05 <= r <= x + 0.05
  {
    RoundHalfEven(x * 10.0) as real / 10.0
  }

  /** One listed volunteer. */
  datatype Match = Match(userId: string, userName: Option<string>, matching: set<string>, percentage: real)

  /** The user has skills and shares at least one with `req`. */
  predicate Shares(req: set<string>, u: User) {
    u.skills.Some? && req * SetOf(u.skills.value) != {}
  }

  function SharesWith(req: set<string>): User -> bool {
    (u: User) => Shares(req, u)
  }

  /** The percentage of `req` a user covers, rounded to one decimal. */
  function Percentage(req: set<string>, matching: set<string>): (p: real)
    requires |req| > 0 && matching <= req && matching != {}
    ensures 0.0 <= p <= 100.0
  {
    var share := |matching| as real / |req| as real;
    assert |matching| <= |req| by {
      assert req == matching + (req - matching);
    }
    assert share <= 1.0;
    Round1(share * 100.0)
  }

  /** Some user's skill list is null, which makes `set(None)` raise. */
  predicate AnyNullSkills(users: seq<User>) {
    exists u :: u in users && u.skills.None?
  }

  /** `m` is scored as the source scores it: a non-empty overlap with the
      required skills and its rounded percentage. */
  predicate Scored(req: set<string>, m: Match) {
    |req| > 0 && m.matching != {} && m.matching <= req && m.percentage == Percentage(req, m.matching)
  }

  /** `m` lists a user of `users` with exactly that user's overlap. */
  predicate FromUser(req: set<string>, m: Match, users: seq<User>) {
    exists u :: u in users && u.skills.Some? && u.id == m.userId && m.matching == req * SetOf(u.skills.value)
  }

  /** The users sharing a required skill, in user order. `set(None)` for a
      user whose skills are null raises TypeError. */
  function MatchesFor(req: set<string>, users: seq<User>): (r: Result<seq<Match>>)
    requires |req| > 0
    ensures r.Failure? <==> AnyNullSkills(users)
    ensures r.Failure? ==> r.error == TypeError
  {
    if |users| == 0 then Success([])
    else
      var u := users[0];
      assert forall x :: x in users <==> x == u || x in users[1..];
      var rest := MatchesFor(req, users[1..]);
      if u.skills.None? then Failure(TypeError)
      else if rest.Failure? then rest
      else
        var m := req * SetOf(u.skills.value);
        if m == {} then Success(rest.value)
        else Success([Match(u.id, u.name, m, Percentage(req, m))] + rest.value)
  }

  /** One entry per sharing user. */
  lemma {:induction false} MatchesCount(req: set<string>, users: seq<User>)
    requires |req| > 0
    ensures MatchesFor(req, users).Success? ==> |MatchesFor(req, users).value| == Count(users, SharesWith(req))
  {
    if |users| > 0 {
      MatchesCount(req, users[1..]);
      CountCons(users, SharesWith(req));
    }
  }

  /** Every entry is a scored overlap of some user. */
  lemma {:induction false} MatchesSound(req: set<string>, users: seq<User>)
    requires |req| > 0
    ensures MatchesFor(req, users).Success? ==>
      forall m :: m in MatchesFor(req, users).value ==> Scored(req, m) && FromUser(req, m, users)
  {
    if |users| > 0 {
      MatchesSound(req, users[1..]);
      assert forall x :: x in users[1..] ==> x in users;
    }
  }

  /** Every sharing user is listed. */
  lemma {:induction false} MatchesComplete(req: set<string>, users: seq<User>)
    requires |req| > 0
    ensures MatchesFor(req, users).Success? ==> forall u :: u in users && Shares(req, u) ==>
      exists m :: m in MatchesFor(req, users).value && m.userId == u.id && m.matching == req * SetOf(u.skills.value)
  {
    if |users| > 0 {
      MatchesComplete(req, users[1..]);
      assert forall x :: x in users <==> x == users[0] || x in users[1..];
    }
  }

  /** One recommendation: the incident, its required skills and at most
      five volunteers, best first. */
  datatype Recommendation = Recommendation(
    incidentId: string,
    incidentTitle: Option<string>,
    priority: Option<string>,
    requiredSkills: set<string>,
    volunteers: seq<Match>,
    bestMatch: real)

  function NegPercentage(m: Match): real {
    -m.percentage
  }

  /** `matching_users.sort(key=percentage, reverse=True)`: stable, highest first. */
  function ByMatch(ms: seq<Match>): (r: seq<Match>)
    ensures multiset(r) == multiset(ms)
    ensures forall i, j :: 0 <= i < j < |r| ==> r[i].percentage >= r[j].percentage
  {
    SortFacts(ms, NegPercentage);
    var r := SortBy(ms, NegPercentage);
    assert forall i, j :: 0 <= i < j < |r| ==> NegPercentage(r[i]) <= NegPercentage(r[j]);
    r
  }

  /** The recommendation for one incident: a null skill list raises, no
      skills or no sharing user gives none. */
  function Recommend(i: Incident, users: seq<User>): (r: Result<Option<Recommendation>>)
    ensures r.Failure? <==> i.requiredSkills.None? || (SetOf(i.requiredSkills.value) != {} && AnyNullSkills(users))
    ensures r.Success? && r.value.Some? ==>
      && r.value.value.incidentId == i.id && r.value.value.priority == i.priority
      && r.value.value.requiredSkills == SetOf(i.requiredSkills.value)
  {
    if i.requiredSkills.None? then Failure(TypeError)
    else
      var req := SetOf(i.requiredSkills.value);
      if req == {} then Success(None)
      else
        match MatchesFor(req, users)
        case Failure(e) => Failure(e)
        case Success(ms) =>
          var sorted := ByMatch(ms);
          if |sorted| == 0 then Success(None)
          else Success(Some(Recommendation(i.id, i.title, i.priority, req,
                                           sorted[..TopCount(|sorted|)], sorted[0].percentage)))
  }

  /** What a recommendation holds: one to five volunteers, best first, each
      a sharing user; the best match beats every sharing user's score. */
  predicate Recommends(rec: Recommendation, users: seq<User>) {
    && rec.requiredSkills != {}
    && 1 <= |rec.volunteers| <= 5
    && rec.bestMatch == rec.volunteers[0].percentage
    && 0.0 <= rec.bestMatch <= 100.0
    && (forall a, b :: 0 <= a < b < |rec.volunteers| ==> rec.volunteers[a].percentage >= rec.volunteers[b].percentage)
    && MatchesFor(rec.requiredSkills, users).Success?
    && (forall m :: m in MatchesFor(rec.requiredSkills, users).value ==> m.percentage <= rec.bestMatch)
    && (forall m :: m in rec.volunteers ==> m in MatchesFor(rec.requiredSkills, users).value)
  }

  /** The volunteers listed are the top five sharing users: as many as
      there are sharing users, up to five, and no unlisted match scores
      above the last one listed. */
  predicate TopFive(rec: Recommendation, users: seq<User>) {
    && rec.requiredSkills != {}
    && MatchesFor(rec.requiredSkills, users).Success?
    && var ms := MatchesFor(rec.requiredSkills, users).value;
    && |ms| == Count(users, SharesWith(rec.requiredSkills))
    && |rec.volunteers| == (if |ms| < 5 then |ms| else 5)
    && |rec.volunteers| > 0
    && forall m :: m in ms && m !in rec.volunteers ==>
         m.percentage <= rec.volunteers[|rec.volunteers| - 1].percentage
  }

  /** How many volunteers a recommendation lists out of `n` sharing users. */
  function TopCount(n: nat): nat {
    if n < 5 then n else 5
  }

  /** The recommendation built from the sorted matches, when there are any. */
  lemma RecommendValue(i: Incident, users: seq<User>)
    requires Recommend(i, users).Success?
    ensures var req := SetOf(i.requiredSkills.value);
      && (req == {} ==> Recommend(i, users).value.None?)
      && (req != {} ==>
            && MatchesFor(req, users).Success?
            && var sorted := ByMatch(MatchesFor(req, users).value);
            && (|sorted| == 0 ==> Recommend(i, users).value.None?)
            && (|sorted| > 0 ==>
                  Recommend(i, users).value
                  == Some(Recommendation(i.id, i.title, i.priority, req, sorted[..TopCount(|sorted|)], sorted[0].percentage))))
  {
  }

  /** The best-first prefix of the sharing users' matches is a well-formed
      recommendation. */
  lemma SortedPrefixRecommends(req: set<string>, users: seq<User>, rec: Recommendation)
    requires req != {} && MatchesFor(req, users).Success?
    requires var sorted := ByMatch(MatchesFor(req, users).value);
      |sorted| > 0 && rec.requiredSkills == req && rec.volunteers == sorted[..TopCount(|sorted|)]
      && rec.bestMatch == sorted[0].percentage
    ensures Recommends(rec, users)
  {
    var ms := MatchesFor(req, users).value;
    var sorted := ByMatch(ms);
    MatchesSound(req, users);
    assert Scored(req, sorted[0]) by {
      assert sorted[0] in multiset(ms);
    }
    forall m | m in ms ensures m.percentage <= sorted[0].percentage {
      assert m in multiset(sorted);
    }
    forall m | m in rec.volunteers ensures m in ms {
      assert m in multiset(sorted);
    }
  }

  /** A recommendation is made exactly when the incident has skills and some
      user shares one, and it then holds the best-first top five. */
  lemma RecommendFacts(i: Incident, users: seq<User>)
    requires Recommend(i, users).Success?
    ensures Recommend(i, users).value.Some? ==> Recommends(Recommend(i, users).value.value, users)
    ensures Recommend(i, users).value.None? <==>
      SetOf(i.requiredSkills.value) == {} || Count(users, SharesWith(SetOf(i.requiredSkills.value))) == 0
  {
    RecommendValue(i, users);
    var req := SetOf(i.requiredSkills.value);
    if req != {} {
      MatchesCount(req, users);
      var sorted := ByMatch(MatchesFor(req, users).value);
      if |sorted| > 0 {
        SortedPrefixRecommends(req, users, Recommend(i, users).value.value);
      }
    }
  }

  /** A match left out of a best-first prefix scores no more than the last
      one kept. */
  lemma ByMatchPrefixTop(ms: seq<Match>, k: nat)
    requires 0 < k <= |ms|
    ensures forall m :: m in ms && m !in ByMatch(ms)[..k] ==> m.percentage <= ByMatch(ms)[k - 1].percentage
  {
    var sorted := ByMatch(ms);
    forall m | m in ms && m !in sorted[..k] ensures m.percentage <= sorted[k - 1].percentage {
      assert m in multiset(sorted);
      var j :| 0 <= j < |sorted| && sorted[j] == m;
      assert j >= k;
    }
  }

  /** A recommendation lists the top five sharing users. */
  lemma RecommendTopFive(i: Incident, users: seq<User>)
    requires Recommend(i, users).Success?
    ensures Recommend(i, users).value.Some? ==> TopFive(Recommend(i, users).value.value, users)
  {
    RecommendValue(i, users);
    var req := SetOf(i.requiredSkills.value);
    if req != {} {
      var ms := MatchesFor(req, users).value;
      MatchesCount(req, users);
      var sorted := ByMatch(ms);
      if |sorted| > 0 {
        ByMatchPrefixTop(ms, TopCount(|sorted|));
      }
    }
  }

  /** `priority_order.get(priority, 4)`. */
  function Rank(p: Option<string>): (n: nat)
    ensures n <= 4
  {
    if p == Some("critical") then 0
    else if p == Some("high") then 1
    else if p == Some("medium") then 2
    else if p == Some("low") then 3
    else 4
  }

  /** The sort key `(rank, -best)` folded into one real; exact because the
      best match lies in [0, 100]. */
  function RecKey(r: Recommendation): real {
    Rank(r.priority) as real * 1000.0 - r.bestMatch
  }

  predicate WellFormed(r: Recommendation) {
    0.0 <= r.bestMatch <= 100.0
  }

  /** The recommendations of `cs` in order, or the first raise. */
  function Collect(cs: seq<Incident>, users: seq<User>): (r: Result<seq<Recommendation>>)
    ensures r.Failure? <==> exists c :: c in cs && Recommend(c, users).Failure?
    ensures r.Success? ==> |r.value| <= |cs|
  {
    if |cs| == 0 then Success([])
    else
      assert forall x :: x in cs <==> x == cs[0] || x in cs[1..];
      var rest := Collect(cs[1..], users);
      match Recommend(cs[0], users)
      case Failure(e) => Failure(e)
      case Success(one) =>
        if rest.Failure? then rest
        else Success((if one.Some? then [one.value] else []) + rest.value)
  }

  /** Every collected recommendation is the one made for some incident of
      `cs`, and so holds a best match in [0, 100]. */
  lemma {:induction false} CollectFacts(cs: seq<Incident>, users: seq<User>)
    ensures Collect(cs, users).Success? ==> forall rec :: rec in Collect(cs, users).value ==>
      WellFormed(rec) && exists c :: c in cs && Recommend(c, users) == Success(Some(rec))
  {
    if |cs| > 0 && Collect(cs, users).Success? {
      CollectFacts(cs[1..], users);
      assert forall x :: x in cs[1..] ==> x in cs;
      RecommendFacts(cs[0], users);
    }
  }

  /** Recommendations in order of rank, then best match, highest first. */
  predicate RankedOrder(rs: seq<Recommendation>) {
    forall i, j :: 0 <= i < j < |rs| ==>
      Rank(rs[i].priority) < Rank(rs[j].priority)
      || (Rank(rs[i].priority) == Rank(rs[j].priority) && rs[i].bestMatch >= rs[j].bestMatch)
  }

  /** The one-real key orders well-formed recommendations exactly as the
      `(rank, -best)` tuple does. */
  lemma KeyIsLexicographic(a: Recommendation, b: Recommendation)
    requires WellFormed(a) && WellFormed(b)
    ensures RecKey(a) <= RecKey(b) <==>
      Rank(a.priority) < Rank(b.priority) || (Rank(a.priority) == Rank(b.priority) && a.bestMatch >= b.bestMatch)
  {
  }

  /** Sorting well-formed recommendations by the one-real key puts them in
      ranked order. */
  lemma RankedSort(recs: seq<Recommendation>)
    requires forall rec :: rec in recs ==> WellFormed(rec)
    ensures RankedOrder(SortBy(recs, RecKey))
    ensures multiset(SortBy(recs, RecKey)) == multiset(recs)
  {
    SortFacts(recs, RecKey);
    var sorted := SortBy(recs, RecKey);
    forall i, j | 0 <= i < j < |sorted|
      ensures Rank(sorted[i].priority) < Rank(sorted[j].priority)
              || (Rank(sorted[i].priority) == Rank(sorted[j].priority) && sorted[i].bestMatch >= sorted[j].bestMatch)
    {
      assert sorted[i] in multiset(recs) && sorted[j] in multiset(recs);
      KeyIsLexicographic(sorted[i], sorted[j]);
    }
  }

  /** The incidents still open: `status in ['unassigned', 'partially_assigned']`. */
  function OpenTest(): Incident -> bool {
    (i: Incident) => IsOpen(i)
  }

  /** The incidents considered: the open ones, cut to the first `maxRecommendations`. */
  function Considered(incs: seq<Incident>, maxRecommendations: int): (cs: seq<Incident>)
    ensures forall c :: c in cs ==> c in incs && IsOpen(c)
    ensures var open := Filter(incs, OpenTest());
      && cs <= open
      && (maxRecommendations >= 0 ==> |cs| == if maxRecommendations < |open| then maxRecommendations else |open|)
      && (maxRecommendations < 0 ==> |cs| == if |open| + maxRecommendations > 0 then |open| + maxRecommendations else 0)
  {
    var open := Filter(incs, OpenTest());
    var cs := PyPrefix(open, maxRecommendations);
    forall c | c in cs ensures c in incs && IsOpen(c) {
      assert c in open;
      FilterMembership(incs, OpenTest(), c);
    }
    cs
  }

  /** `get_skill_matching_recommendations`: open incidents, cut to the first
      `maxRecommendations`, one recommendation each where any user matches,
      sorted; any raise yields the empty list. */
  function SkillMatchingRecommendations(incs: seq<Incident>, users: seq<User>, maxRecommendations: int)
    : (r: seq<Recommendation>)
    ensures Collect(Considered(incs, maxRecommendations), users).Failure? ==> r == []
    ensures Collect(Considered(incs, maxRecommendations), users).Success? ==>
      multiset(r) == multiset(Collect(Considered(incs, maxRecommendations), users).value)
    ensures RankedOrder(r)
    ensures forall rec :: rec in r ==> exists c :: c in incs && IsOpen(c) && Recommend(c, users) == Success(Some(rec))
  {
    var considered := Considered(incs, maxRecommendations);
    match Collect(considered, users)
    case Failure(_) => []
    case Success(recs) =>
      CollectFacts(considered, users);
      RankedSort(recs);
      var sorted := SortBy(recs, RecKey);
      assert forall rec :: rec in sorted ==> rec in multiset(recs);
      sorted
  }
}
