/** The search effect of the application: the query gate, one request per
    effect run, cancellation of the previous run's request, and the
    classification of responses into results or an error message. */
module Search {
  import opened Wrappers
  import opened Builds
  import opened Catalog

  /** Stands for the abort controller of one effect run. */
  type Token = nat

  /** How a search request ends when its controller was not aborted. */
  datatype Outcome =
    | HttpNotOk                    // `res.ok` is false
    | NotFound                     // the payload says `Response: "False"`
    | Rejected(message: string)    // `fetch` or `res.json()` threw
    | Found(items: seq<Movie>)     // the payload's `Search` list

  datatype State = State(
    query: string,
    movies: seq<Movie>,
    error: string,
    isLoading: bool,
    live: Option<Token>,           // the request of the current effect run, while in flight
    cancelled: set<Token>,         // aborted requests whose rejection is still to come
    nextToken: Token)              // requests issued so far

  datatype Event = QueryChanged(query: string) | Settled(token: Token, outcome: Outcome)

  const MinQueryLength := 3
  const NetworkError := "Unable to fetch the movies. Please check your Network"
  const NotFoundError := "Movie not found"

  /** After the first effect run, with the empty query. */
  function Init(): State {
    State("", [], "", false, None, {}, 0)
  }

  /** The effect reruns only when the query really changes. */
  predicate Reruns(s: State, q: string) {
    q != s.query
  }

  /** A rerun for a long enough query issues a request. */
  predicate Issues(s: State, q: string) {
    Reruns(s, q) && |q| >= MinQueryLength
  }

  function LiveSet(s: State): set<Token> {
    if s.live.Some? then {s.live.value} else {}
  }

  /** The message a failed request publishes. */
  function ErrorText(o: Outcome): string
    requires !o.Found?
  {
    match o
    case HttpNotOk => NetworkError
    case NotFound => NotFoundError
    case Rejected(m) => m
  }

  /** A query update: the previous run's cleanup aborts its request, then
      a short query clears the list and the error, and a long one clears
      the error, shows the loader and issues one new request. */
  function OnQuery(b: Build, s: State, q: string): (r: State)
    ensures !Reruns(s, q) ==> r == s
    ensures Reruns(s, q) ==> r.query == q && r.cancelled == s.cancelled + LiveSet(s)
    ensures Reruns(s, q) && |q| < MinQueryLength ==>
      && r.movies == [] && r.error == "" && r.live.None? && r.nextToken == s.nextToken
      && r.isLoading == (b.AsWritten? && s.isLoading)
    ensures Issues(s, q) ==>
      && r.error == "" && r.isLoading && r.movies == s.movies
      && r.live == Some(s.nextToken) && r.nextToken == s.nextToken + 1
  {
    if !Reruns(s, q) then s
    else
      var aborted := s.(query := q, live := None, cancelled := s.cancelled + LiveSet(s));
      if |q| < MinQueryLength then
        aborted.(movies := [], error := "", isLoading := b.AsWritten? && s.isLoading)
      else
        aborted.(error := "", isLoading := true, live := Some(s.nextToken), nextToken := s.nextToken + 1)
  }

  /** A request settles. An aborted one rejects with an AbortError whatever
      the server sent: no error is published, but `finally` still clears
      the loader. The live one publishes its outcome and clears the loader.
      Any other token has no request in flight. */
  function OnSettled(b: Build, s: State, t: Token, o: Outcome): (r: State)
    ensures t in s.cancelled ==>
      && r.query == s.query && r.movies == s.movies && r.error == s.error
      && r.live == s.live && r.nextToken == s.nextToken && r.cancelled == s.cancelled - {t}
      && r.isLoading == (b.Corrected? && s.isLoading)
    ensures t !in s.cancelled && s.live == Some(t) ==>
      && r.query == s.query && !r.isLoading && r.live.None?
      && r.cancelled == s.cancelled && r.nextToken == s.nextToken
      && (o.Found? ==> r.movies == o.items && r.error == s.error)
      && (!o.Found? ==> r.movies == s.movies && r.error == ErrorText(o))
    ensures t !in s.cancelled && s.live != Some(t) ==> r == s
  {
    if t in s.cancelled then
      s.(cancelled := s.cancelled - {t}, isLoading := b.Corrected? && s.isLoading)
    else if s.live == Some(t) then
      var settled := s.(live := None, isLoading := false);
      if o.Found? then settled.(movies := o.items) else settled.(error := ErrorText(o))
    else s
  }

  function Apply(b: Build, s: State, e: Event): State {
    match e
    case QueryChanged(q) => OnQuery(b, s, q)
    case Settled(t, o) => OnSettled(b, s, t, o)
  }

  function Run(b: Build, s: State, es: seq<Event>): State
    decreases |es|
  {
    if es == [] then s else Run(b, Apply(b, s, es[0]), es[1..])
  }

  /** What every reachable state satisfies. */
  predicate Valid(b: Build, s: State) {
    && (forall t :: t in s.cancelled ==> t < s.nextToken)
    && (s.live.Some? ==> s.live.value < s.nextToken && s.live.value !in s.cancelled)
    && (s.live.Some? ==> s.error == "" && |s.query| >= MinQueryLength)
    && (|s.query| < MinQueryLength ==> s.movies == [] && s.error == "")
    && (b.AsWritten? ==> (s.isLoading ==> s.live.Some? || s.cancelled != {}))
    && (b.Corrected? ==> (s.isLoading <==> s.live.Some?))
  }

  lemma InitValid(b: Build)
    ensures Valid(b, Init())
  {
  }

  lemma ApplyPreservesValid(b: Build, s: State, e: Event)
    requires Valid(b, s)
    ensures Valid(b, Apply(b, s, e))
  {
  }

  lemma {:induction false} RunPreservesValid(b: Build, s: State, es: seq<Event>)
    requires Valid(b, s)
    ensures Valid(b, Run(b, s, es))
    decreases |es|
  {
    if es != [] {
      ApplyPreservesValid(b, s, es[0]);
      RunPreservesValid(b, Apply(b, s, es[0]), es[1..]);
    }
  }

  /** In every reachable state the published list and error belong to the
      current query: a short query shows nothing, and while a request is in
      flight no error is shown. At most one request is live, and it is not
      among the aborted ones. */
  lemma {:induction false} ReachableValid(b: Build, es: seq<Event>)
    ensures var s := Run(b, Init(), es);
      && (|s.query| < MinQueryLength ==> s.movies == [] && s.error == "")
      && (s.live.Some? ==> s.error == "" && s.live.value !in s.cancelled)
  {
    InitValid(b);
    RunPreservesValid(b, Init(), es);
  }

  /** Number of requests a sequence of events issues, starting from query `q`. */
  function LongChanges(q: string, es: seq<Event>): nat
    decreases |es|
  {
    if es == [] then 0
    else match es[0]
      case QueryChanged(q') =>
        (if q' != q && |q'| >= MinQueryLength then 1 else 0) + LongChanges(q', es[1..])
      case Settled(_, _) => LongChanges(q, es[1..])
  }

  /** One request per change to a query of three or more characters, and
      none otherwise. */
  lemma {:induction false} RunCountsRequests(b: Build, s: State, es: seq<Event>)
    ensures Run(b, s, es).nextToken == s.nextToken + LongChanges(s.query, es)
    decreases |es|
  {
    if es != [] {
      RunCountsRequests(b, Apply(b, s, es[0]), es[1..]);
    }
  }

  /** Two states that differ only in whether the aborted request `t` has
      already settled, and in the loader. */
  predicate Twins(t: Token, a: State, c: State) {
    && a.query == c.query && a.movies == c.movies && a.error == c.error
    && a.live == c.live && a.nextToken == c.nextToken
    && a.cancelled - {t} == c.cancelled - {t}
    && t < a.nextToken && a.live != Some(t)
  }

  lemma ApplyKeepsTwins(b: Build, t: Token, a: State, c: State, e: Event)
    requires Twins(t, a, c)
    ensures Twins(t, Apply(b, a, e), Apply(b, c, e))
  {
    match e
    case QueryChanged(q) =>
      assert LiveSet(a) == LiveSet(c) && t !in LiveSet(a);
      assert (a.cancelled + LiveSet(a)) - {t} == (a.cancelled - {t}) + LiveSet(a);
      assert (c.cancelled + LiveSet(c)) - {t} == (c.cancelled - {t}) + LiveSet(c);
    case Settled(t', o) =>
      if t' != t {
        assert t' in a.cancelled <==> t' in a.cancelled - {t};
        assert t' in c.cancelled <==> t' in c.cancelled - {t};
        assert a.cancelled - {t'} - {t} == (a.cancelled - {t}) - {t'};
        assert c.cancelled - {t'} - {t} == (c.cancelled - {t}) - {t'};
      }
  }

  lemma {:induction false} RunKeepsTwins(b: Build, t: Token, a: State, c: State, es: seq<Event>)
    requires Twins(t, a, c)
    ensures Twins(t, Run(b, a, es), Run(b, c, es))
    decreases |es|
  {
    if es != [] {
      ApplyKeepsTwins(b, t, a, c, es[0]);
      RunKeepsTwins(b, t, Apply(b, a, es[0]), Apply(b, c, es[0]), es[1..]);
    }
  }

  /** A response for an aborted request, arriving at any moment and
      followed by any events, never changes the query, the result list or
      the error the user sees later. */
  lemma StaleResponseInvisible(b: Build, s: State, t: Token, o: Outcome, es: seq<Event>)
    requires Valid(b, s)
    requires t in s.cancelled
    ensures var with := Run(b, Apply(b, s, Settled(t, o)), es);
      var without := Run(b, s, es);
      with.query == without.query && with.movies == without.movies && with.error == without.error
  {
    RunKeepsTwins(b, t, Apply(b, s, Settled(t, o)), s, es);
  }

  /** As written, the aborted request's `finally` hides the loader while
      the request for the newer query is still in flight. */
  lemma AbortedRequestHidesLoader()
    ensures var s := Run(AsWritten, Init(), [QueryChanged("batman"), QueryChanged("batmans"), Settled(0, HttpNotOk)]);
      s.live == Some(1) && !s.isLoading
  {
    var s1 := Apply(AsWritten, Init(), QueryChanged("batman"));
    var s2 := Apply(AsWritten, s1, QueryChanged("batmans"));
    assert s2.live == Some(1) && 0 in s2.cancelled;
    var s3 := Apply(AsWritten, s2, Settled(0, HttpNotOk));
    assert s3.live == Some(1) && !s3.isLoading;
    assert Run(AsWritten, s3, []) == s3;
  }

  /** Corrected, the loader is shown exactly while a live request is in
      flight, in every reachable state. */
  lemma CorrectedLoaderTracksLiveRequest(es: seq<Event>)
    ensures var s := Run(Corrected, Init(), es);
      s.isLoading <==> s.live.Some?
  {
    InitValid(Corrected);
    RunPreservesValid(Corrected, Init(), es);
  }
}
