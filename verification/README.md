# usePopcorn: the search controller, detail view and watched list, in Dafny

usePopcorn is a single-page movie application in `src/App.js`. The user types a title into a search box. The application asks a remote catalog for matching movies and lists them. Clicking a movie opens a detail view. From that view the user can rate the movie and add it to a "watched" list, and entries can later be deleted from that list.

This project models the deterministic part of that file: what remains once rendering, the DOM and `fetch` are removed.

- `Search` is the search effect as a state machine. It models the three-character gate, one request per effect run, and the abort of the previous run's request by the effect cleanup. It also classifies responses into a result list or an error message. The `finally` block that clears the loader runs even for aborted requests, and the model keeps that.
- `Detail` is the `SelectedMovies` view. It covers the detail fetch, which has no cancellation, so the last response to arrive wins. It also covers the loader, which only a successful response clears, and the picked rating. The view stays mounted, keeping its state, when the selection moves from one movie to another. The module also builds the entry that "Add to watched" appends.
- `Watched` is the watched list: append, delete by id as an order-preserving filter, and the membership check.
- `Selection` is the selection toggle and close.
- `Runtime` is `runtime.split(" ").at(0)` and the decimal conversion of that token.
- `App` folds all of these into one transition function, `Step`, over an arbitrary sequence of events. The events are typed queries, search responses, clicks, ratings and detail responses, in any order. `App` also proves invariants of every reachable state.

Network responses carry an abstract request token: a `nat` for a search request, a serial number for a detail request. An interleaving of responses is an event sequence, and a response for a token that is not in flight changes nothing.

Every transition takes a `Build` argument:
- `AsWritten` is the program as it is.
- `Corrected` repairs the three defects listed under "## Findings" and nothing else.

The general lemmas (invariants, request counting, stale responses) are proved for both builds.

Behaviour of the code that the model keeps as it is:
- On a "Movie not found" or network error, the code keeps the previous result list and only sets the error.
- An aborted search request still clears the loader through `finally`; this is the first entry under "## Findings".
- Detail fetches are never aborted; a response for a view that is still mounted is applied whenever it arrives.
- A rejected search `fetch` or `res.json()` publishes that error's own message. The detail fetch has no `catch`, so a rejection there publishes nothing and changes nothing in the view.

## Model

| member | source | states |
|---|---|---|
| Selection.Toggle | src/App.js:17-19 | clicking the selected id deselects it; clicking any other id makes it the selection |
| Selection.ToggleTwice | src/App.js:17-19 | two clicks on the same movie lead back to that movie if it was selected, and to no selection otherwise |
| Selection.Close | src/App.js:21-23 | closing leaves no selection, whatever was selected |
| Selection.CloseIdempotent | src/App.js:21-23 | closing twice is closing once |
| Selection.Shown | src/App.js:99-114 | the detail view is rendered for a truthy selection, which excludes both `null` and the empty id; otherwise the watched list is |
| Catalog.MovieIds | src/App.js:188-199 | the clickable ids are the result list's ids, one per movie, in order |
| Watched.Add | src/App.js:25-27 | the new entry is last; the list grows by one; earlier entries are unchanged and in order |
| Watched.AddContains | src/App.js:25-27 | after an add, exactly the previous ids plus the new entry's id are members |
| Watched.AddKeepsUnique | src/App.js:25-27 | adding an entry whose id is absent keeps every id unique |
| Watched.Delete | src/App.js:29-31 | no surviving entry carries the deleted id, and the list never grows |
| Watched.DeleteMembers | src/App.js:29-31 | an entry survives a delete exactly when it is on the list and its id differs |
| Watched.DeleteCons | src/App.js:29-31 | the head of the list survives exactly when its id differs, ahead of the filtered tail |
| Watched.DeleteIsFilter | src/App.js:29-31 | delete is the order-preserving filter: a subsequence of the list that drops every entry with the id and keeps every other entry with its multiplicity |
| Watched.DeleteAbsent | src/App.js:29-31 | deleting an id that is not on the list changes nothing |
| Watched.DeleteIdempotent | src/App.js:29-31 | deleting twice equals deleting once |
| Watched.DeleteConcat | src/App.js:29-31 | deleting from a concatenation deletes from each part |
| Watched.DeleteAfterAdd | src/App.js:25-31 | deleting after an add removes the new entry too when it has the id, and otherwise keeps it last |
| Watched.DeleteContains | src/App.js:29-31 | after a delete, an id is a member exactly when it was before and differs from the deleted id |
| Watched.DeleteKeepsUnique | src/App.js:29-31 | deleting keeps ids unique |
| Watched.CountWhenUnique | src/App.js:29-31 | with unique ids an id occurs once or not at all |
| Watched.DeleteRemovesOne | src/App.js:29-31 | with unique ids, deleting a present id removes exactly one entry |
| Watched.Contains | src/App.js:231-233 | membership holds exactly when some entry carries the id |
| Watched.ContainsMatchesIds | src/App.js:231-233 | membership is `includes` on the mapped list of ids |
| Runtime.Split | src/App.js:295 | `split(" ")` yields at least one piece, and no piece holds a space |
| Runtime.JoinSplit | src/App.js:295 | joining the pieces with single spaces gives back the string |
| Runtime.SplitWord | src/App.js:295 | a space-free word followed by a space splits off as the first piece |
| Runtime.SplitJoin | src/App.js:295 | splitting space-free pieces joined by spaces gives back the pieces |
| Runtime.FirstToken | src/App.js:295 | `.at(0)` is the longest space-free prefix of the runtime |
| Runtime.FirstTokenIsFirstPiece | src/App.js:295 | that prefix is the first piece of `split(" ")` |
| Runtime.Minutes | src/App.js:295 | `Number` of a token is defined exactly for digit strings, and the empty token gives 0 |
| Runtime.ShowNatRoundTrip | src/App.js:295 | the decimal digits of a number convert back to that number |
| Runtime.CatalogRuntime | src/App.js:295 | a runtime "`n` min" is stored as `n` |
| Runtime.UnknownRuntime | src/App.js:295 | the catalog's "N/A" runtime is stored as NaN |
| Search.OnQuery | src/App.js:33-81 | a changed query aborts the previous request first. A short query empties the list and the error, issues nothing and leaves the loader alone. A long query clears the error, shows the loader and issues exactly one new request. An unchanged query does nothing |
| Search.OnSettled | src/App.js:46-64 | an aborted request changes neither list nor error, but still clears the loader. The live request clears the loader. A non-ok response publishes the network message; "False" publishes "Movie not found" and keeps the list; rejections publish their message; otherwise the list becomes the returned items |
| Search.ApplyPreservesValid | src/App.js:33-81 | each search event keeps the search invariant |
| Search.RunPreservesValid | src/App.js:33-81 | any sequence of search events keeps it |
| Search.ReachableValid | src/App.js:39-44 | in every reachable state a short query shows no results and no error, and while a request is live no error shows and that request is not aborted |
| Search.RunCountsRequests | src/App.js:67-78 | events issue one request per change to a query of three or more characters, and none otherwise |
| Search.ApplyKeepsTwins | src/App.js:56-64 | a state and its copy in which an aborted request already settled stay alike, loader aside, under any event |
| Search.RunKeepsTwins | src/App.js:56-64 | the same under any sequence of events |
| Search.StaleResponseInvisible | src/App.js:56-64 | a late response to an aborted request never changes the query, list or error seen at any later time |
| Search.AbortedRequestHidesLoader | src/App.js:62-63 | as written, the aborted request's `finally` hides the loader while the next request is in flight |
| Search.CorrectedLoaderTracksLiveRequest | src/App.js:62-63 | corrected, the loader shows exactly while a live request is in flight |
| Detail.Fetch | src/App.js:256-260 | the fetch shows the loader and puts one new request in flight for the movie |
| Detail.Mount | src/App.js:228-230 | a newly mounted view starts unrated with no details and its loader on, and one request for its movie, tagged with the new mount, is put in flight under a fresh serial |
| Detail.Follow | src/App.js:254-269 | the view is mounted exactly for a truthy selection, and for it. A new movie is fetched; nothing is aborted. As written, the view keeps its details and rating across a change of movie |
| Detail.OnSettled | src/App.js:256-264 | a payload for the mounted view replaces its details and clears its loader. A rejection changes nothing in the view. A response for an earlier mount changes nothing |
| Detail.Rate | src/App.js:346-351 | picking stars sets the rating and nothing else |
| Detail.RatingShown | src/App.js:316-351 | the rating widget is rendered exactly when a view is mounted, its loader is off, and no watched entry carries its movie's id |
| Detail.AddShown | src/App.js:342-357 | "Add to watched" is rendered exactly when the rating widget is and the picked rating is above zero |
| Detail.NewEntry | src/App.js:288-297 | the entry has the selected id, the payload's fields, the picked rating, and the number before the runtime's first space. No entry is built when the runtime is undefined |
| Detail.Confirm | src/App.js:342-357 | an entry is built only when the button is rendered: details loaded, movie not watched, rating above zero. It is then for a movie not yet on the list |
| Detail.FollowPreservesValid | src/App.js:254-269 | following the selection keeps the view invariant |
| Detail.OnSettledPreservesValid | src/App.js:256-264 | a detail response keeps the view invariant |
| Detail.RatePreservesValid | src/App.js:346-351 | rating keeps the view invariant |
| App.ListShown | src/App.js:92-96 | the result list is rendered exactly when neither the loader nor an error message is |
| App.Step | src/App.js:17-31 | only typed queries and search responses change the search; only delete and add clicks change the watched list; responses, ratings and deletes never move the selection; search responses and deletes leave the detail view alone |
| App.StepPreservesValid | src/App.js:9-81 | every event keeps the application invariant: search invariant, view follows selection, watched ids unique, ratings positive |
| App.RunPreservesValid | src/App.js:9-81 | any event sequence keeps it |
| App.ReachableValid | src/App.js:9-81 | every state reached from the start satisfies it |
| App.SearchRunsAlone | src/App.js:33-81 | the search part evolves only on typed queries and search responses |
| App.RequestsMatchLongQueries | src/App.js:67-78 | one request per change of the query to three or more characters, and none otherwise |
| App.ThreeKeystrokesOneRequest | src/App.js:67-78 | typing "a", then "ab", then "abc" issues exactly one request |
| App.StaleSearchResponseInvisible | src/App.js:56-64 | amid all other events, a late response to an aborted search never shows in the list or error |
| App.LongQueryClosesDetail | src/App.js:73-78 | a long query closes the detail view, aborts the previous request and issues one new request |
| App.ShortQueryIssuesNothing | src/App.js:67-71 | a short query empties the list and error, issues nothing, and leaves the selection, detail view and list alone |
| App.ClickTogglesView | src/App.js:17-19 | clicking the selected movie closes its view; clicking another listed movie opens its view |
| App.ClickGate | src/App.js:92-95 | a click reaches `handleMovieSelect` only while the list is rendered and only for a listed movie, and then only the selection and the view change |
| App.DeleteGate | src/App.js:99-113 | while a detail view is shown a delete click changes nothing; otherwise it filters the watched list and changes nothing else |
| App.RateGate | src/App.js:342-351 | picking stars changes nothing unless the rating widget is rendered, and then only the rating |
| App.AddGate | src/App.js:353-357 | without the "Add to watched" button a click on it changes nothing |
| App.CloseIdempotent | src/App.js:21-23 | closing the view twice is closing it once |
| App.ConfirmAppendsOne | src/App.js:288-301 | confirming appends exactly one entry, with the selected id and the picked rating, then closes the view; the id is then on the list |
| App.WatchedMovieCannotBeAdded | src/App.js:342-357 | for a movie already on the list, clicking "Add to watched" changes nothing |
| App.ReachableWatchedUnique | src/App.js:288-301 | every reachable watched list holds each movie at most once, each rated above zero |
| Findings.OpeningState | src/App.js:17-19 | searching, listing and clicking a movie mounts its view with one detail request in flight |
| Findings.StaleDetailWins | src/App.js:254-269 | as written, the first movie's late details replace the second's, and the entry pairs the second's id with the first's title |
| Findings.SecondClicked | src/App.js:17-19 | as written, clicking a second movie keeps the view and issues a second request in the same mount |
| Findings.BothDetailsArrive | src/App.js:256-264 | as written, the response that arrives last decides the details shown |
| Findings.RatedAndAdded | src/App.js:288-301 | confirming on that view records the wrong title under the selected id |
| Findings.RatingCarriesOver | src/App.js:228-230 | as written, a movie never rated is added with the previous movie's rating |
| Findings.RunAppend | src/App.js:9-81 | running two event sequences in turn is running their concatenation |
| Findings.CorrectedDetailsMatchSelection | src/App.js:254-269 | corrected, a view only shows its own movie's details, and a confirmed entry's details belong to the movie it records |
| Findings.CorrectedNewMovieStartsUnrated | src/App.js:228-230 | corrected, a movie that comes into view is unrated, has no details and shows the loader, so it cannot be added before it is rated |

## Left out

- Requests and responses: `fetch`, HTTP, JSON decoding, the request URLs and the API key (src/App.js:7, 41-51, 258-261). A response is an abstract outcome attached to a token.
- Asynchrony: React's effect scheduling and state batching are not modelled. Each response is delivered atomically as one event on a single logical thread.
- The abort window: an abort that lands after `res.json()` resolved but before its continuation runs is not modelled.
- Teardown: the application itself never unmounts, so a live search request is never aborted by teardown. For the same reason the outcome set has no separate "aborted" value: a request is aborted exactly when its token is in `cancelled`.
- The `document.title` binding (src/App.js:303-312) is left out because it is browser state. The Escape `keydown` listener (src/App.js:237-252) survives only as the `CloseMovie` event.
- `average` and `toFixed(2)` (src/App.js:4-5, 373-399): floating-point arithmetic.
- `Number(imdbRating)` (src/App.js:294): floats and NaN. The entry keeps the catalog's text.
- Runtime.Minutes: covers `Number` only on empty and decimal-digit tokens, because the JavaScript numeric grammar is not modelled. Every other token is treated as NaN, although `Number` accepts forms such as "1.5", "1e3", "0x1F", "-5", "Infinity" and tokens padded with tabs.
- Search.OnQuery: measures the query in Unicode characters, while JavaScript's `length` counts UTF-16 code units. The two differ for characters outside the Basic Multilingual Plane.
- A payload whose `Response` is not "False" but lacks `Search`, so that `setMovies(undefined)` runs: not modelled. `Found` always carries a list.
- Detail fields that are only displayed (released, genre, plot, actors, director) and the console logging at src/App.js:57, 235.
- The empty `checkMovieWatched` (src/App.js:271-273).
- Presentation components are rendering only, and collapsing a `Box` is not modelled: every control is assumed visible once its own condition holds.
- `StarRating` is not part of this model. A picked rating is an arbitrary natural number.

## Findings

| source | as written | input that shows it | evidently intended | confidence | as-written member | corrected member |
|---|---|---|---|---|---|---|
| src/App.js:56-64 | the aborted request's `finally` runs `setIsLoading(false)` after the next effect run has set it to true | type "batman", then "batmans"; the first request's AbortError settles | the loader stays on while the newer request is in flight, so an aborted request changes nothing | high; not executed | Search.AbortedRequestHidesLoader | Search.CorrectedLoaderTracksLiveRequest |
| src/App.js:254-269 | the view stays mounted across a change of movie, and its detail fetch is never aborted, so the last response to arrive wins | click the first movie, then the second; the second's details arrive, then the first's; rate and add | the view shows, and the entry records, the details of the selected movie | medium; not executed | Findings.StaleDetailWins | Findings.CorrectedDetailsMatchSelection |
| src/App.js:228-230 | `userRating` survives a change of movie while "Add to watched" shows for any rating above zero | rate the first movie 7, click the second, its details arrive | a newly shown movie starts unrated | medium; not executed | Findings.RatingCarriesOver | Findings.CorrectedNewMovieStartsUnrated |

The `Corrected` build makes two changes:
- An aborted search request leaves the loader alone, and a short query hides the loader because it issues nothing.
- A change of selection remounts the detail view, which drops the previous movie's details, rating and pending responses.
