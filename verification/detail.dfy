/** The detail view of the selected movie: its detail fetch, its loader,
    the rating the user picks, and the entry the "Add to watched" button
    builds. The view stays mounted while the selection moves from one
    movie to another and keeps its state; clearing the selection unmounts
    it, and a response for a request of an unmounted view is dropped. */
module Detail {
  import opened Wrappers
  import opened Builds
  import opened Catalog
  import Watched
  import Runtime
  import Selection

  /** How a detail request ends: a parsed payload, or a rejection of
      `fetch` or `res.json()`, which nothing catches. */
  datatype Outcome = Loaded(payload: Details) | LoadFailed

  /** A detail request in flight, issued by mount `epoch` for movie `id`. */
  datatype Request = Request(epoch: nat, id: Id)

  /** A mounted view. `loadedFor` records which movie's request supplied
      `details`; it is bookkeeping of the model, not state of the program. */
  datatype Panel = Panel(
    id: Id,
    epoch: nat,
    details: Details,
    isLoading: bool,
    userRating: nat,
    loadedFor: Option<Id>)

  datatype State = State(
    panel: Option<Panel>,
    mounts: nat,                   // views mounted so far
    pending: map<nat, Request>,    // detail requests in flight, by serial
    nextSerial: nat)

  function Init(): State {
    State(None, 0, map[], 0)
  }

  /** The fetch effect: show the loader and request the movie's details. */
  function Fetch(d: State, p: Panel): (r: State)
    ensures r.panel == Some(p.(isLoading := true))
    ensures r.pending == d.pending[d.nextSerial := Request(p.epoch, p.id)]
    ensures r.nextSerial == d.nextSerial + 1 && r.mounts == d.mounts
  {
    d.(panel := Some(p.(isLoading := true)),
       pending := d.pending[d.nextSerial := Request(p.epoch, p.id)],
       nextSerial := d.nextSerial + 1)
  }

  /** A fresh view for `id`, with its first fetch under way. */
  function Mount(d: State, id: Id): (r: State)
    ensures r.panel == Some(Panel(id, d.mounts, NoDetails, true, 0, None))
    ensures r.mounts == d.mounts + 1
    ensures r.pending == d.pending[d.nextSerial := Request(d.mounts, id)]
    ensures r.nextSerial == d.nextSerial + 1
  {
    Fetch(d.(mounts := d.mounts + 1), Panel(id, d.mounts, NoDetails, false, 0, None))
  }

  /** The view after the selection became `sel`. An unchanged selection
      does nothing. As written, moving from one movie to another keeps the
      mounted view (its details and rating) and fetches again; corrected,
      the view is remounted for the new movie. No request is ever aborted. */
  function Follow(b: Build, d: State, sel: Option<Id>): (r: State)
    ensures r.panel.Some? <==> Selection.Shown(sel)
    ensures r.panel.Some? ==> r.panel.value.id == sel.value
    ensures d.pending.Keys <= r.pending.Keys
    ensures !Selection.Shown(sel) ==> r.pending == d.pending && r.nextSerial == d.nextSerial
    ensures d.panel.Some? && Selection.Shown(sel) && d.panel.value.id == sel.value ==> r == d
    ensures Selection.Shown(sel) && (d.panel.None? || d.panel.value.id != sel.value) ==>
      && r.panel.value.isLoading
      && r.nextSerial == d.nextSerial + 1
      && r.pending == d.pending[d.nextSerial := Request(r.panel.value.epoch, sel.value)]
    ensures Selection.Shown(sel) && (d.panel.None? || (b.Corrected? && d.panel.value.id != sel.value)) ==>
      && r.panel.value.details == NoDetails && r.panel.value.userRating == 0
      && r.panel.value.loadedFor.None? && r.panel.value.epoch == d.mounts
    ensures Selection.Shown(sel) && d.panel.Some? && b.AsWritten? && d.panel.value.id != sel.value ==>
      r.panel == Some(d.panel.value.(id := sel.value, isLoading := true))
  {
    if !Selection.Shown(sel) then d.(panel := None)
    else if d.panel.None? then Mount(d, sel.value)
    else if d.panel.value.id == sel.value then d
    else if b.AsWritten? then Fetch(d, d.panel.value.(id := sel.value))
    else Mount(d, sel.value)
  }

  /** A detail request settles. A payload for the mounted view replaces
      its details wholesale and hides the loader, however old the request;
      a rejection changes nothing in the view; a request of an earlier mount
      changes nothing but is no longer in flight. */
  function OnSettled(d: State, k: nat, o: Outcome): (r: State)
    ensures k !in d.pending ==> r == d
    ensures k in d.pending ==>
      && r.pending == d.pending - {k} && r.mounts == d.mounts && r.nextSerial == d.nextSerial
      && (r.panel.Some? <==> d.panel.Some?)
    ensures k in d.pending && d.panel.Some? && d.panel.value.epoch == d.pending[k].epoch && o.Loaded? ==>
      r.panel == Some(d.panel.value.(details := o.payload, isLoading := false, loadedFor := Some(d.pending[k].id)))
    ensures k in d.pending && !(d.panel.Some? && d.panel.value.epoch == d.pending[k].epoch && o.Loaded?) ==>
      r.panel == d.panel
  {
    if k !in d.pending then d
    else
      var req := d.pending[k];
      var d' := d.(pending := d.pending - {k});
      if d.panel.Some? && d.panel.value.epoch == req.epoch && o.Loaded? then
        d'.(panel := Some(d.panel.value.(details := o.payload, isLoading := false, loadedFor := Some(req.id))))
      else d'
  }

  /** The rating widget is rendered once the details are loaded and the
      movie is not on the watched list. */
  function RatingShown(d: State, w: seq<Watched.Entry>): (r: bool)
    ensures r <==> d.panel.Some? && !d.panel.value.isLoading &&
                   forall i :: 0 <= i < |w| ==> w[i].imdbId != d.panel.value.id
  {
    d.panel.Some? && !d.panel.value.isLoading && !Watched.Contains(w, d.panel.value.id)
  }

  function Rate(d: State, stars: nat): (r: State)
    requires d.panel.Some?
    ensures r.panel == Some(d.panel.value.(userRating := stars))
    ensures r.pending == d.pending && r.mounts == d.mounts && r.nextSerial == d.nextSerial
  {
    d.(panel := Some(d.panel.value.(userRating := stars)))
  }

  /** "Add to watched" is rendered only with the rating widget, and only
      once a rating above zero was picked. */
  function AddShown(d: State, w: seq<Watched.Entry>): (r: bool)
    ensures r <==> d.panel.Some? && !d.panel.value.isLoading && d.panel.value.userRating > 0 &&
                   !Watched.Contains(w, d.panel.value.id)
  {
    RatingShown(d, w) && d.panel.value.userRating > 0
  }

  /** `handleWatchedList`'s new entry: the selected id, the payload's
      fields, the picked rating, and the number before the first space of
      the runtime. An undefined runtime makes `runtime.split` throw, and
      then no entry is built. */
  function NewEntry(p: Panel): (r: Option<Watched.Entry>)
    ensures r.Some? <==> p.details.runtime.Some?
    ensures r.Some? ==>
      && r.value.imdbId == p.id && r.value.userRating == p.userRating
      && r.value.title == p.details.title && r.value.year == p.details.year
      && r.value.poster == p.details.poster && r.value.imdbRating == p.details.imdbRating
      && r.value.runtime == Runtime.Minutes(Runtime.Split(p.details.runtime.value)[0])
  {
    match p.details.runtime
    case None => None
    case Some(text) =>
      Runtime.FirstTokenIsFirstPiece(text);
      Some(Watched.Entry(p.id, p.details.title, p.details.year, p.details.poster,
                         p.details.imdbRating, Runtime.RuntimeMinutes(text), p.userRating))
  }

  /** What a click on "Add to watched" appends, if anything. */
  function Confirm(d: State, w: seq<Watched.Entry>): (r: Option<Watched.Entry>)
    ensures r.Some? ==> AddShown(d, w) && r == NewEntry(d.panel.value)
    ensures r.Some? ==> !Watched.Contains(w, r.value.imdbId) && r.value.userRating > 0
    ensures AddShown(d, w) && d.panel.value.details.runtime.Some? ==> r.Some?
  {
    if AddShown(d, w) then NewEntry(d.panel.value) else None
  }

  /** What every reachable view satisfies: a view whose loader is off shows
      the payload of some response. Corrected, in addition, every
      request of the mounted view is for its movie, and so are its details. */
  predicate Valid(b: Build, d: State) {
    && (forall k :: k in d.pending ==> k < d.nextSerial && d.pending[k].epoch < d.mounts)
    && (d.panel.Some? ==> d.panel.value.epoch < d.mounts)
    && (d.panel.Some? && !d.panel.value.isLoading ==> d.panel.value.loadedFor.Some?)
    && (b.Corrected? && d.panel.Some? ==>
         && (forall k :: k in d.pending && d.pending[k].epoch == d.panel.value.epoch ==> d.pending[k].id == d.panel.value.id)
         && (d.panel.value.loadedFor.Some? ==> d.panel.value.loadedFor.value == d.panel.value.id))
  }

  lemma InitValid(b: Build)
    ensures Valid(b, Init())
  {
  }

  lemma FollowPreservesValid(b: Build, d: State, sel: Option<Id>)
    requires Valid(b, d)
    ensures Valid(b, Follow(b, d, sel))
  {
  }

  lemma OnSettledPreservesValid(b: Build, d: State, k: nat, o: Outcome)
    requires Valid(b, d)
    ensures Valid(b, OnSettled(d, k, o))
  {
  }

  lemma RatePreservesValid(b: Build, d: State, stars: nat)
    requires Valid(b, d) && d.panel.Some?
    ensures Valid(b, Rate(d, stars))
  {
  }
}
