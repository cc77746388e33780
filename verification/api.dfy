/** The volunteer API: the assignment transition of `assign_incident`, the
    status check of `set_incident_status`, the URL/title de-duplication of
    `fetch_combined_news`, and the bounds check of `geocode_place`. The
    Supabase reads and patches and the HTTP fetches are parameters. */
module Api {
  import opened Wrappers
  import opened Text
  import opened Geo
  import opened Seqs
  import Pipeline

  // ---------------------------------------------------------------------------
  // assign_incident
  // ---------------------------------------------------------------------------

  /** The columns of a stored incident the assignment reads. */
  datatype StoredIncident = StoredIncident(assignedTo: Option<seq<string>>, status: Option<string>)

  /** The body patched back: count, assignee list and status. */
  datatype Patch = Patch(assignedCount: nat, assignedTo: seq<string>, status: string)

  /** Python truthiness of an optional string. */
  predicate Given(s: Option<string>) {
    s.Some? && s.value != ""
  }

  /** `incident.get("assigned_to") or []`. */
  function CurrentList(incident: StoredIncident): seq<string> {
    incident.assignedTo.GetOr([])
  }

  /** The transition itself: a non-empty assignee is appended when absent,
      the count is recomputed from the list, and the status follows it. */
  function AssignTransition(incident: StoredIncident, assignee: Option<string>): (p: Patch)
    ensures p.assignedCount == |p.assignedTo|
    ensures CurrentList(incident) <= p.assignedTo
    ensures |p.assignedTo| <= |CurrentList(incident)| + 1
    ensures forall x :: x in p.assignedTo <==> x in CurrentList(incident) || (Given(assignee) && x == assignee.value)
    ensures Given(assignee) && assignee.value in CurrentList(incident) ==> p.assignedTo == CurrentList(incident)
    ensures p.status == "unassigned" <==> p.assignedTo == []
    ensures p.status == "in_progress" <==> p.assignedTo != [] && incident.status == Some("assigned")
    ensures p.status == "assigned" <==> p.assignedTo != [] && incident.status != Some("assigned")
  {
    var current := CurrentList(incident);
    var list := if Given(assignee) && assignee.value !in current then current + [assignee.value] else current;
    var status :=
      if |list| > 0 && incident.status == Some("assigned") then "in_progress"
      else if |list| > 0 then "assigned"
      else "unassigned";
    Patch(|list|, list, status)
  }

  /** `assign_incident`: HTTP 500 without a configured database, 404 for an
      unknown id, otherwise the patch of the transition. */
  function AssignIncident(configured: bool, incident: Option<StoredIncident>, assignee: Option<string>): (r: Result<Patch>)
    ensures !configured ==> r == Failure(HttpError(500, "Supabase not configured"))
    ensures configured && incident.None? ==> r == Failure(HttpError(404, "Incident not found"))
    ensures r.Success? <==> configured && incident.Some?
    ensures r.Success? ==> r.value.assignedCount == |r.value.assignedTo|
    ensures r.Success? ==> r.value == AssignTransition(incident.value, assignee)
    ensures r.Success? && !Given(assignee) ==> r.value.assignedTo == CurrentList(incident.value)
  {
    if !configured then Failure(HttpError(500, "Supabase not configured"))
    else if incident.None? then Failure(HttpError(404, "Incident not found"))
    else Success(AssignTransition(incident.value, assignee))
  }

  /** The stored incident after the patch is applied. */
  function Applied(p: Patch): StoredIncident {
    StoredIncident(Some(p.assignedTo), Some(p.status))
  }

  /** Assigning the same volunteer twice leaves the list as it was after the
      first assignment; the second call does move an 'assigned' incident on
      to 'in_progress'. */
  lemma RepeatAssignment(incident: StoredIncident, assignee: Option<string>)
    ensures var first := AssignTransition(incident, assignee);
      var second := AssignTransition(Applied(first), assignee);
      second.assignedTo == first.assignedTo && second.assignedCount == first.assignedCount
      && (first.status == "assigned" ==> second.status == "in_progress")
  {
  }

  /** An assignee list without repeats keeps none after an assignment. */
  lemma AssignKeepsDistinct(incident: StoredIncident, assignee: Option<string>)
    requires var l := CurrentList(incident); forall i, j :: 0 <= i < j < |l| ==> l[i] != l[j]
    ensures var l := AssignTransition(incident, assignee).assignedTo;
      forall i, j :: 0 <= i < j < |l| ==> l[i] != l[j]
  {
    var current := CurrentList(incident);
    var l := AssignTransition(incident, assignee).assignedTo;
    forall i, j | 0 <= i < j < |l| ensures l[i] != l[j] {
      if j == |current| {
        assert l[i] == current[i];
      } else {
        assert l[i] == current[i] && l[j] == current[j];
      }
    }
  }

  // ---------------------------------------------------------------------------
  // set_incident_status
  // ---------------------------------------------------------------------------

  /** The statuses the endpoint accepts. */
  const Allowed: set<string> := {"unassigned", "assigned", "in_progress", "resolved"}

  /** `set_incident_status`: HTTP 400 for a status outside the allowed set,
      otherwise the status patched unchanged. */
  function SetIncidentStatus(status: string): (r: Result<string>)
    ensures r.Success? <==> status in Allowed
    ensures r.Success? ==> r.value == status
    ensures r.Failure? ==> r.error.HttpError? && r.error.status == 400
  {
    if status !in Allowed then Failure(HttpError(400, "Invalid status")) else Success(status)
  }

  /** The endpoint accepts exactly the statuses the pipeline's validator
      accepts, and every status an assignment writes is one of them. */
  lemma StatusesAgree(incident: StoredIncident, assignee: Option<string>, status: string)
    ensures SetIncidentStatus(status).Success? <==> status in Pipeline.Statuses
    ensures SetIncidentStatus(AssignTransition(incident, assignee).status).Success?
  {
  }

  // ---------------------------------------------------------------------------
  // fetch_combined_news
  // ---------------------------------------------------------------------------

  /** A fetched news item; only its title and URL matter for merging. */
  datatype Article = Article(title: Option<string>, url: Option<string>, description: Option<string>, source: string)

  /** The de-duplication key: the stripped URL, or else the stripped title;
      the empty string means the article has no key. */
  function KeyOf(a: Article): (k: string)
    ensures Strip(a.url.GetOr("")) != "" ==> k == Strip(a.url.GetOr(""))
    ensures Strip(a.url.GetOr("")) == "" ==> k == Strip(a.title.GetOr(""))
    ensures k == "" <==> Strip(a.url.GetOr("")) == "" && Strip(a.title.GetOr("")) == ""
  {
    var url := Strip(a.url.GetOr(""));
    if url != "" then url else Strip(a.title.GetOr(""))
  }

  /** The items of the sources that answered, in source order; a source
      that raised (None) contributes nothing. */
  function Answered(results: seq<Option<seq<Article>>>): (r: seq<Article>)
    ensures forall a :: a in r <==> exists i :: 0 <= i < |results| && results[i].Some? && a in results[i].value
  {
    if |results| == 0 then []
    else
      var rest := Answered(results[1..]);
      assert forall i :: 0 < i < |results| ==> results[i] == results[1..][i - 1];
      (if results[0].Some? then results[0].value else []) + rest
  }

  /** Reference: an item is kept when its key is non-empty and no earlier
      item carries the same key. */
  function FirstOccurrences<T>(xs: seq<T>, key: T -> string): seq<T> {
    if |xs| == 0 then []
    else
      var init := xs[..|xs| - 1];
      var k := key(xs[|xs| - 1]);
      FirstOccurrences(init, key) + (if k != "" && k !in MapSeq(init, key) then [xs[|xs| - 1]] else [])
  }

  /** No two items of `xs` share a key. */
  predicate KeysDistinct<T>(xs: seq<T>, key: T -> string) {
    forall i, j :: 0 <= i < j < |xs| ==> key(xs[i]) != key(xs[j])
  }

  /** The kept items have pairwise distinct keys. */
  lemma {:induction false} FirstOccurrencesDistinct<T>(xs: seq<T>, key: T -> string)
    ensures KeysDistinct(FirstOccurrences(xs, key), key)
  {
    if |xs| > 0 {
      var init := xs[..|xs| - 1];
      var last := xs[|xs| - 1];
      FirstOccurrencesDistinct(init, key);
      FirstOccurrencesKeys(init, key);
      var prev := FirstOccurrences(init, key);
      var out := FirstOccurrences(xs, key);
      var k := key(last);
      if k != "" && k !in MapSeq(init, key) {
        assert out == prev + [last];
        forall i, j | 0 <= i < j < |out| ensures key(out[i]) != key(out[j]) {
          if j == |prev| {
            assert out[i] == prev[i] && out[j] == last;
            assert MapSeq(prev, key)[i] == key(out[i]);
            assert key(out[i]) in MapSeq(init, key);
          } else {
            assert out[i] == prev[i] && out[j] == prev[j];
          }
        }
      } else {
        assert out == prev;
      }
    }
  }

  /** The kept items are items of the input with a non-empty key. */
  lemma {:induction false} FirstOccurrencesFrom<T>(xs: seq<T>, key: T -> string)
    ensures forall a :: a in FirstOccurrences(xs, key) ==> a in xs && key(a) != ""
  {
    if |xs| > 0 {
      var init := xs[..|xs| - 1];
      FirstOccurrencesFrom(init, key);
      forall a | a in FirstOccurrences(init, key) ensures a in xs {
        assert a in init;
      }
    }
  }

  /** Every non-empty key of the input is the key of some kept item. */
  lemma {:induction false} FirstOccurrencesKeys<T>(xs: seq<T>, key: T -> string)
    ensures forall k :: k in MapSeq(FirstOccurrences(xs, key), key) <==> k != "" && k in MapSeq(xs, key)
  {
    if |xs| > 0 {
      var init := xs[..|xs| - 1];
      var k := key(xs[|xs| - 1]);
      FirstOccurrencesKeys(init, key);
      var prev := FirstOccurrences(init, key);
      assert MapSeq(xs, key) == MapSeq(init, key) + [k];
      if k != "" && k !in MapSeq(init, key) {
        assert FirstOccurrences(xs, key) == prev + [xs[|xs| - 1]];
        assert MapSeq(FirstOccurrences(xs, key), key) == MapSeq(prev, key) + [k];
      } else {
        assert FirstOccurrences(xs, key) == prev;
      }
    } else {
      assert MapSeq(FirstOccurrences(xs, key), key) == [];
    }
  }

  /** One more item extends the keys by its key, and the kept items by the
      item when its key is new and non-empty. */
  lemma FirstOccurrencesStep<T>(all: seq<T>, n: nat, key: T -> string)
    requires n < |all|
    ensures MapSeq(all[..n + 1], key) == MapSeq(all[..n], key) + [key(all[n])]
    ensures FirstOccurrences(all[..n + 1], key)
            == FirstOccurrences(all[..n], key)
               + (if key(all[n]) != "" && key(all[n]) !in MapSeq(all[..n], key) then [all[n]] else [])
  {
    assert all[..n + 1][..n] == all[..n];
    assert all[..n + 1][n] == all[n];
  }

  /** The de-duplicating walk: keep an item when its key is non-empty and
      not yet in the seen set. */
  method KeepFirst<T>(all: seq<T>, key: T -> string) returns (kept: seq<T>)
    ensures kept == FirstOccurrences(all, key)
  {
    kept := [];
    var seen: set<string> := {};
    var n := 0;
    while n < |all|
      invariant 0 <= n <= |all|
      invariant kept == FirstOccurrences(all[..n], key)
      invariant forall k :: k in seen <==> k in MapSeq(all[..n], key) && k != ""
    {
      var a := all[n];
      var k := key(a);
      FirstOccurrencesStep(all, n, key);
      if k != "" && k !in seen {
        seen := seen + {k};
        kept := kept + [a];
      }
      n := n + 1;
    }
    assert all[..n] == all;
  }

  /** `fetch_combined_news` after the concurrent fetches: walk the answered
      sources in order, keeping the first article seen for each key. */
  method CombineNews(results: seq<Option<seq<Article>>>) returns (articles: seq<Article>)
    ensures articles == FirstOccurrences(Answered(results), KeyOf)
    ensures forall i, j :: 0 <= i < j < |articles| ==> KeyOf(articles[i]) != KeyOf(articles[j])
    ensures forall a :: a in articles ==>
              KeyOf(a) != "" && exists i :: 0 <= i < |results| && results[i].Some? && a in results[i].value
    ensures forall k :: k in MapSeq(articles, KeyOf) <==> k != "" && k in MapSeq(Answered(results), KeyOf)
  {
    var all := Answered(results);
    articles := KeepFirst(all, KeyOf);
    FirstOccurrencesDistinct(all, KeyOf);
    FirstOccurrencesFrom(all, KeyOf);
    FirstOccurrencesKeys(all, KeyOf);
  }

  // ---------------------------------------------------------------------------
  // geocode_place
  // ---------------------------------------------------------------------------

  /** One geocoder hit: coordinates and the display name. */
  datatype Place = Place(lat: real, lon: real, displayName: Option<string>)

  /** The acceptance window, about 18.3-18.7 N and 73.6-74.1 E. */
  predicate NearPune(p: Place) {
    18.3 <= p.lat <= 18.7 && 73.6 <= p.lon <= 74.1
  }

  /** `geocode_place`: nothing for an empty place; otherwise the first hit
      for the place with the city appended, kept only inside the window.
      `search` returns None when the request fails. */
  function GeocodePlace(place: string, search: string -> Option<seq<Place>>): (r: Option<Place>)
    ensures place == "" ==> r.None?
    ensures r.Some? ==> NearPune(r.value)
    ensures r.Some? <==> place != "" && search(place + ", Pune, Maharashtra, India").Some?
                         && |search(place + ", Pune, Maharashtra, India").value| > 0
                         && NearPune(search(place + ", Pune, Maharashtra, India").value[0])
    ensures r.Some? ==> r.value == search(place + ", Pune, Maharashtra, India").value[0]
  {
    if place == "" then None
    else
      match search(place + ", Pune, Maharashtra, India")
      case None => None
      case Some(results) =>
        if |results| == 0 then None
        else if NearPune(results[0]) then Some(results[0]) else None
  }

  /** The window is the pipeline geocoder's `PUNE_BOUNDS`. */
  lemma WindowIsPipelineBounds(p: Place)
    ensures NearPune(p) <==> InBBox(Point(p.lat, p.lon), Pipeline.PuneBounds)
  {
  }
}
