/** The whole application as one state machine: the search box and its
    results, the selection, the detail view, and the watched list, driven
    by user actions and by responses arriving in any order. */
module App {
  import opened Wrappers
  import opened Builds
  import opened Catalog
  import Search
  import Detail
  import Watched
  import Selection

  datatype State = State(
    search: Search.State,
    selectedId: Option<Id>,
    watched: seq<Watched.Entry>,
    detail: Detail.State)

  datatype Event =
    | QueryTyped(query: string)
    | SearchSettled(token: Search.Token, outcome: Search.Outcome)
    | MovieClicked(id: Id)
    | CloseMovie                     // the back button or the Escape key
    | DeleteClicked(id: Id)
    | Rated(stars: nat)
    | AddClicked
    | DetailSettled(serial: nat, result: Detail.Outcome)

  function Init(): State {
    State(Search.Init(), None, [], Detail.Init())
  }

  /** Set the selection; the detail view follows it. */
  function Select(b: Build, s: State, sel: Option<Id>): State {
    s.(selectedId := sel, detail := Detail.Follow(b, s.detail, sel))
  }

  /** The result list is rendered when nothing is loading and no error is shown. */
  function ListShown(s: State): (r: bool)
    ensures r ==> !s.search.isLoading && s.search.error == ""
    ensures !r ==> s.search.isLoading || s.search.error != ""
  {
    !s.search.isLoading && s.search.error == ""
  }

  /** One event. A click on a control that is not rendered changes nothing.
      Only typed queries and search responses touch the search, only the
      delete and add buttons touch the watched list, and neither a
      response nor a rating nor a delete moves the selection. */
  function Step(b: Build, s: State, e: Event): (r: State)
    ensures !(e.QueryTyped? || e.SearchSettled?) ==> r.search == s.search
    ensures !(e.DeleteClicked? || e.AddClicked?) ==> r.watched == s.watched
    ensures e.SearchSettled? || e.DetailSettled? || e.Rated? || e.DeleteClicked? ==> r.selectedId == s.selectedId
    ensures e.SearchSettled? || e.DeleteClicked? ==> r.detail == s.detail
  {
    match e
    case QueryTyped(q) =>
      var s' := s.(search := Search.Apply(b, s.search, Search.QueryChanged(q)));
      if Search.Issues(s.search, q) then Select(b, s', Selection.Close(s.selectedId)) else s'
    case SearchSettled(t, o) =>
      s.(search := Search.Apply(b, s.search, Search.Settled(t, o)))
    case MovieClicked(id) =>
      if ListShown(s) && id in MovieIds(s.search.movies) then Select(b, s, Selection.Toggle(s.selectedId, id)) else s
    case CloseMovie =>
      if s.detail.panel.Some? then Select(b, s, Selection.Close(s.selectedId)) else s
    case DeleteClicked(id) =>
      if !Selection.Shown(s.selectedId) then s.(watched := Watched.Delete(s.watched, id)) else s
    case Rated(stars) =>
      if Detail.RatingShown(s.detail, s.watched) then s.(detail := Detail.Rate(s.detail, stars)) else s
    case AddClicked =>
      var added := Detail.Confirm(s.detail, s.watched);
      if added.None? then s
      else Select(b, s.(watched := Watched.Add(s.watched, added.value)), Selection.Close(s.selectedId))
    case DetailSettled(k, o) =>
      s.(detail := Detail.OnSettled(s.detail, k, o))
  }

  function Run(b: Build, s: State, es: seq<Event>): State
    decreases |es|
  {
    if es == [] then s else Run(b, Step(b, s, es[0]), es[1..])
  }

  /** The detail view is mounted exactly for a truthy selection, and for it. */
  predicate ViewFollowsSelection(s: State) {
    && (s.detail.panel.Some? <==> Selection.Shown(s.selectedId))
    && (s.detail.panel.Some? ==> s.detail.panel.value.id == s.selectedId.value)
  }

  /** What every reachable state satisfies. */
  predicate Valid(b: Build, s: State) {
    && Search.Valid(b, s.search)
    && Detail.Valid(b, s.detail)
    && ViewFollowsSelection(s)
    && Watched.UniqueIds(s.watched)
    && (forall i :: 0 <= i < |s.watched| ==> s.watched[i].userRating > 0)
  }

  lemma InitValid(b: Build)
    ensures Valid(b, Init())
  {
    Search.InitValid(b);
    Detail.InitValid(b);
  }

  lemma SelectValid(b: Build, s: State, sel: Option<Id>)
    requires Search.Valid(b, s.search) && Detail.Valid(b, s.detail)
    requires Watched.UniqueIds(s.watched)
    requires forall i :: 0 <= i < |s.watched| ==> s.watched[i].userRating > 0
    ensures Valid(b, Select(b, s, sel))
  {
    Detail.FollowPreservesValid(b, s.detail, sel);
  }

  lemma StepPreservesValid(b: Build, s: State, e: Event)
    requires Valid(b, s)
    ensures Valid(b, Step(b, s, e))
  {
    match e
    case QueryTyped(q) =>
      Search.ApplyPreservesValid(b, s.search, Search.QueryChanged(q));
      if Search.Issues(s.search, q) {
        SelectValid(b, s.(search := Search.Apply(b, s.search, Search.QueryChanged(q))), None);
      }
    case SearchSettled(t, o) =>
      Search.ApplyPreservesValid(b, s.search, Search.Settled(t, o));
    case MovieClicked(id) =>
      SelectValid(b, s, Selection.Toggle(s.selectedId, id));
    case CloseMovie =>
      SelectValid(b, s, None);
    case DeleteClicked(id) =>
      Watched.DeleteKeepsUnique(s.watched, id);
      Watched.DeleteMembers(s.watched, id);
      var w := Watched.Delete(s.watched, id);
      forall i | 0 <= i < |w| ensures w[i].userRating > 0 {
        assert w[i] in w;
        var j :| 0 <= j < |s.watched| && s.watched[j] == w[i];
      }
    case Rated(stars) =>
      if Detail.RatingShown(s.detail, s.watched) {
        Detail.RatePreservesValid(b, s.detail, stars);
      }
    case AddClicked =>
      var added := Detail.Confirm(s.detail, s.watched);
      if added.Some? {
        Watched.AddKeepsUnique(s.watched, added.value);
        SelectValid(b, s.(watched := Watched.Add(s.watched, added.value)), None);
      }
    case DetailSettled(k, o) =>
      Detail.OnSettledPreservesValid(b, s.detail, k, o);
  }

  lemma {:induction false} RunPreservesValid(b: Build, s: State, es: seq<Event>)
    requires Valid(b, s)
    ensures Valid(b, Run(b, s, es))
    decreases |es|
  {
    if es != [] {
      StepPreservesValid(b, s, es[0]);
      RunPreservesValid(b, Step(b, s, es[0]), es[1..]);
    }
  }

  /** Every state reached from the start satisfies `Valid`. */
  lemma ReachableValid(b: Build, es: seq<Event>)
    ensures Valid(b, Run(b, Init(), es))
  {
    InitValid(b);
    RunPreservesValid(b, Init(), es);
  }

  /** The search events of a sequence of events, in order. */
  function SearchEvents(es: seq<Event>): seq<Search.Event>
    decreases |es|
  {
    if es == [] then []
    else match es[0]
      case QueryTyped(q) => [Search.QueryChanged(q)] + SearchEvents(es[1..])
      case SearchSettled(t, o) => [Search.Settled(t, o)] + SearchEvents(es[1..])
      case _ => SearchEvents(es[1..])
  }

  /** The search part evolves on its own: clicks, ratings and detail
      responses never touch it. */
  lemma {:induction false} SearchRunsAlone(b: Build, s: State, es: seq<Event>)
    ensures Run(b, s, es).search == Search.Run(b, s.search, SearchEvents(es))
    decreases |es|
  {
    if es != [] {
      SearchRunsAlone(b, Step(b, s, es[0]), es[1..]);
      match es[0]
      case QueryTyped(q) =>
        var x := [Search.QueryChanged(q)] + SearchEvents(es[1..]);
        assert x[0] == Search.QueryChanged(q) && x[1..] == SearchEvents(es[1..]);
      case SearchSettled(t, o) =>
        var x := [Search.Settled(t, o)] + SearchEvents(es[1..]);
        assert x[0] == Search.Settled(t, o) && x[1..] == SearchEvents(es[1..]);
      case _ =>
    }
  }

  /** Typing "a", "ab", "abc" issues one request; in general one request
      per change of the query to three or more characters. */
  lemma RequestsMatchLongQueries(b: Build, es: seq<Event>)
    ensures Run(b, Init(), es).search.nextToken == Search.LongChanges("", SearchEvents(es))
  {
    SearchRunsAlone(b, Init(), es);
    Search.RunCountsRequests(b, Search.Init(), SearchEvents(es));
  }

  /** Typing "a", then "ab", then "abc" issues exactly one request. */
  lemma ThreeKeystrokesOneRequest(b: Build)
    ensures Run(b, Init(), [QueryTyped("a"), QueryTyped("ab"), QueryTyped("abc")]).search.nextToken == 1
  {
    var es := [QueryTyped("a"), QueryTyped("ab"), QueryTyped("abc")];
    RequestsMatchLongQueries(b, es);
    assert es[1..] == [QueryTyped("ab"), QueryTyped("abc")];
    assert es[1..][1..] == [QueryTyped("abc")];
    var xs := SearchEvents(es);
    assert xs == [Search.QueryChanged("a"), Search.QueryChanged("ab"), Search.QueryChanged("abc")];
    assert xs[1..] == [Search.QueryChanged("ab"), Search.QueryChanged("abc")];
    assert xs[1..][1..] == [Search.QueryChanged("abc")];
    assert Search.LongChanges("", xs) == 1;
  }

  /** A late response to an aborted search request, followed by any
      events, leaves the query, the result list and the error exactly as
      they would have been without it. */
  lemma StaleSearchResponseInvisible(b: Build, s: State, t: Search.Token, o: Search.Outcome, es: seq<Event>)
    requires Valid(b, s)
    requires t in s.search.cancelled
    ensures var with := Run(b, Step(b, s, SearchSettled(t, o)), es).search;
      var without := Run(b, s, es).search;
      with.query == without.query && with.movies == without.movies && with.error == without.error
  {
    SearchRunsAlone(b, Step(b, s, SearchSettled(t, o)), es);
    SearchRunsAlone(b, s, es);
    Search.StaleResponseInvisible(b, s.search, t, o, SearchEvents(es));
  }

  /** A new search of three or more characters closes the detail view,
      aborts the previous request and issues one new request. */
  lemma LongQueryClosesDetail(b: Build, s: State, q: string)
    requires Valid(b, s)
    requires Search.Issues(s.search, q)
    ensures var r := Step(b, s, QueryTyped(q));
      && r.selectedId.None? && r.detail.panel.None? && r.watched == s.watched
      && r.search.live == Some(s.search.nextToken) && r.search.isLoading && r.search.error == ""
      && (s.search.live.Some? ==> s.search.live.value in r.search.cancelled)
  {
  }

  /** A query shorter than three characters empties the list and the
      error, issues nothing, and leaves the selection alone. */
  lemma ShortQueryIssuesNothing(b: Build, s: State, q: string)
    requires Valid(b, s)
    requires q != s.search.query && |q| < Search.MinQueryLength
    ensures var r := Step(b, s, QueryTyped(q));
      && r.search.movies == [] && r.search.error == "" && r.search.live.None?
      && r.search.nextToken == s.search.nextToken
      && r.selectedId == s.selectedId && r.detail == s.detail && r.watched == s.watched
  {
  }

  /** Clicking the selected movie again closes its view; clicking another
      listed movie shows it. */
  lemma ClickTogglesView(b: Build, s: State, id: Id)
    requires Valid(b, s)
    requires ListShown(s) && id in MovieIds(s.search.movies)
    ensures var r := Step(b, s, MovieClicked(id));
      && (s.selectedId == Some(id) ==> r.selectedId.None? && r.detail.panel.None?)
      && (s.selectedId != Some(id) ==> r.selectedId == Some(id) && (id != "" ==> r.detail.panel.value.id == id))
  {
  }

  /** A result can be clicked only while the list is rendered, and only a
      listed movie; such a click toggles the selection and nothing but the
      selection and the view changes. */
  lemma ClickGate(b: Build, s: State, id: Id)
    ensures !(ListShown(s) && id in MovieIds(s.search.movies)) ==> Step(b, s, MovieClicked(id)) == s
    ensures ListShown(s) && id in MovieIds(s.search.movies) ==>
      var r := Step(b, s, MovieClicked(id));
      r.selectedId == Selection.Toggle(s.selectedId, id) && r.search == s.search && r.watched == s.watched
  {
  }

  /** The watched list, and its delete buttons, are rendered only while
      no detail view is; a delete then filters the list and touches
      nothing else. */
  lemma DeleteGate(b: Build, s: State, id: Id)
    ensures Selection.Shown(s.selectedId) ==> Step(b, s, DeleteClicked(id)) == s
    ensures !Selection.Shown(s.selectedId) ==> Step(b, s, DeleteClicked(id)) == s.(watched := Watched.Delete(s.watched, id))
  {
  }

  /** Stars can be picked only while the rating widget is rendered; a pick
      then sets the rating and nothing else. */
  lemma RateGate(b: Build, s: State, stars: nat)
    ensures !Detail.RatingShown(s.detail, s.watched) ==> Step(b, s, Rated(stars)) == s
    ensures Detail.RatingShown(s.detail, s.watched) ==>
      var r := Step(b, s, Rated(stars));
      && r.detail.panel == Some(s.detail.panel.value.(userRating := stars))
      && r.selectedId == s.selectedId && r.watched == s.watched && r.search == s.search
  {
  }

  /** Without the "Add to watched" button a click on it changes nothing. */
  lemma AddGate(b: Build, s: State)
    ensures !Detail.AddShown(s.detail, s.watched) ==> Step(b, s, AddClicked) == s
  {
  }

  /** Closing twice is closing once. */
  lemma CloseIdempotent(b: Build, s: State)
    requires Valid(b, s)
    ensures Step(b, Step(b, s, CloseMovie), CloseMovie) == Step(b, s, CloseMovie)
  {
  }

  /** Confirming appends exactly one entry for the selected movie with the
      picked rating, closes the view, and disables a second confirmation
      for that movie for as long as it stays on the list. */
  lemma ConfirmAppendsOne(b: Build, s: State)
    requires Valid(b, s)
    requires Detail.AddShown(s.detail, s.watched)
    requires s.detail.panel.value.details.runtime.Some?
    ensures var r := Step(b, s, AddClicked);
      && |r.watched| == |s.watched| + 1
      && r.watched[..|s.watched|] == s.watched
      && r.watched[|s.watched|].imdbId == s.selectedId.value
      && r.watched[|s.watched|].userRating == s.detail.panel.value.userRating
      && Watched.Contains(r.watched, s.selectedId.value)
      && r.selectedId.None? && r.detail.panel.None?
  {
    var entry := Detail.NewEntry(s.detail.panel.value).value;
    Watched.AddContains(s.watched, entry, entry.imdbId);
  }

  /** A movie on the watched list can never be added again. */
  lemma WatchedMovieCannotBeAdded(b: Build, s: State)
    requires Valid(b, s)
    requires s.detail.panel.Some? && Watched.Contains(s.watched, s.detail.panel.value.id)
    ensures Step(b, s, AddClicked) == s
  {
  }

  /** Every reachable watched list holds each movie at most once, each
      with a rating above zero. */
  lemma ReachableWatchedUnique(b: Build, es: seq<Event>)
    ensures var w := Run(b, Init(), es).watched;
      Watched.UniqueIds(w) && forall i :: 0 <= i < |w| ==> w[i].userRating > 0
  {
    ReachableValid(b, es);
  }
}
