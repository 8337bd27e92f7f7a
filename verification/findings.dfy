/** Runs of the application that show its defects as written, and the
    properties the corrected reading has instead. */
module Findings {
  import opened Wrappers
  import opened Builds
  import opened Catalog
  import Search
  import Detail
  import App

  const First := Movie("tt0000001", "First", "2001", "first.jpg")
  const Second := Movie("tt0000002", "Second", "2002", "second.jpg")

  function Payload(title: string): Details {
    Details(Some(title), Some("2000"), Some("poster.jpg"), Some("7.5"), Some("100 min"))
  }

  /** Search for "bat", list both movies, click the first. */
  function Opening(): seq<App.Event> {
    [App.QueryTyped("bat"), App.SearchSettled(0, Search.Found([First, Second])), App.MovieClicked(First.imdbID)]
  }

  lemma OpeningState(b: Build)
    ensures var s := App.Run(b, App.Init(), Opening());
      && s.selectedId == Some(First.imdbID)
      && s.search.movies == [First, Second] && App.ListShown(s)
      && s.detail.panel == Some(Detail.Panel(First.imdbID, 0, NoDetails, true, 0, None))
      && s.detail.pending == map[0 := Detail.Request(0, First.imdbID)]
      && s.detail.nextSerial == 1 && s.detail.mounts == 1 && s.watched == []
  {
    var s1 := App.Step(b, App.Init(), App.QueryTyped("bat"));
    var s2 := App.Step(b, s1, App.SearchSettled(0, Search.Found([First, Second])));
    assert MovieIds(s2.search.movies)[0] == First.imdbID;
    var s3 := App.Step(b, s2, App.MovieClicked(First.imdbID));
    assert App.Run(b, s3, []) == s3;
    assert App.Run(b, App.Init(), Opening()) == s3 by {
      assert Opening()[1..][1..] == [Opening()[2]];
    }
  }

  /** As written, the detail request for the first movie may answer after
      the one for the second: the view of the second movie then shows the
      first movie's details, and confirming records the second movie's id
      with the first movie's title. */
  lemma StaleDetailWins()
    ensures var s := App.Run(Build.AsWritten, App.Init(), Opening() + [
        App.MovieClicked(Second.imdbID),
        App.DetailSettled(1, Detail.Loaded(Payload("Second"))),
        App.DetailSettled(0, Detail.Loaded(Payload("First"))),
        App.Rated(7),
        App.AddClicked]);
      && |s.watched| == 1
      && s.watched[0].imdbId == Second.imdbID
      && s.watched[0].title == Some("First")
  {
    var b := Build.AsWritten;
    var tail := [
        App.MovieClicked(Second.imdbID),
        App.DetailSettled(1, Detail.Loaded(Payload("Second"))),
        App.DetailSettled(0, Detail.Loaded(Payload("First"))),
        App.Rated(7),
        App.AddClicked];
    OpeningState(b);
    RunAppend(b, App.Init(), Opening(), tail);
    var s0 := App.Run(b, App.Init(), Opening());
    var s1 := App.Step(b, s0, tail[0]);
    SecondClicked(s0);
    var s2 := App.Step(b, s1, tail[1]);
    var s3 := App.Step(b, s2, tail[2]);
    BothDetailsArrive(s1);
    var s4 := App.Step(b, s3, tail[3]);
    var s5 := App.Step(b, s4, tail[4]);
    RatedAndAdded(s3);
    RunSteps(b, s0, tail);
  }

  lemma SecondClicked(s0: App.State)
    requires s0.selectedId == Some(First.imdbID)
    requires s0.search.movies == [First, Second] && App.ListShown(s0)
    requires s0.detail.panel == Some(Detail.Panel(First.imdbID, 0, NoDetails, true, 0, None))
    requires s0.detail.pending == map[0 := Detail.Request(0, First.imdbID)]
    requires s0.detail.nextSerial == 1 && s0.detail.mounts == 1 && s0.watched == []
    ensures var s1 := App.Step(Build.AsWritten, s0, App.MovieClicked(Second.imdbID));
      && s1.selectedId == Some(Second.imdbID)
      && s1.detail.panel == Some(Detail.Panel(Second.imdbID, 0, NoDetails, true, 0, None))
      && s1.detail.pending == map[0 := Detail.Request(0, First.imdbID), 1 := Detail.Request(0, Second.imdbID)]
      && s1.detail.mounts == 1 && s1.watched == []
  {
    assert MovieIds(s0.search.movies)[1] == Second.imdbID;
  }

  lemma BothDetailsArrive(s1: App.State)
    requires s1.selectedId == Some(Second.imdbID)
    requires s1.detail.panel == Some(Detail.Panel(Second.imdbID, 0, NoDetails, true, 0, None))
    requires s1.detail.pending == map[0 := Detail.Request(0, First.imdbID), 1 := Detail.Request(0, Second.imdbID)]
    requires s1.watched == []
    ensures var s2 := App.Step(Build.AsWritten, s1, App.DetailSettled(1, Detail.Loaded(Payload("Second"))));
      var s3 := App.Step(Build.AsWritten, s2, App.DetailSettled(0, Detail.Loaded(Payload("First"))));
      && s3.selectedId == Some(Second.imdbID) && s3.watched == []
      && s3.detail.panel == Some(Detail.Panel(Second.imdbID, 0, Payload("First"), false, 0, Some(First.imdbID)))
  {
  }

  lemma RatedAndAdded(s3: App.State)
    requires s3.selectedId == Some(Second.imdbID) && s3.watched == []
    requires s3.detail.panel == Some(Detail.Panel(Second.imdbID, 0, Payload("First"), false, 0, Some(First.imdbID)))
    ensures var s4 := App.Step(Build.AsWritten, s3, App.Rated(7));
      var s5 := App.Step(Build.AsWritten, s4, App.AddClicked);
      && |s5.watched| == 1
      && s5.watched[0].imdbId == Second.imdbID
      && s5.watched[0].title == Some("First")
  {
    var s4 := App.Step(Build.AsWritten, s3, App.Rated(7));
    assert s4.detail.panel.value.userRating == 7;
    assert Detail.AddShown(s4.detail, s4.watched);
  }

  /** As written, a rating picked for one movie stays picked for the next
      movie selected without closing the view: "Add to watched" is offered
      for the second movie, which was never rated, and records it with the
      first movie's rating. */
  lemma RatingCarriesOver()
    ensures var s := App.Run(Build.AsWritten, App.Init(), Opening() + [
        App.DetailSettled(0, Detail.Loaded(Payload("First"))),
        App.Rated(7),
        App.MovieClicked(Second.imdbID),
        App.DetailSettled(1, Detail.Loaded(Payload("Second"))),
        App.AddClicked]);
      && |s.watched| == 1
      && s.watched[0].imdbId == Second.imdbID
      && s.watched[0].userRating == 7
  {
    var b := Build.AsWritten;
    var tail := [
        App.DetailSettled(0, Detail.Loaded(Payload("First"))),
        App.Rated(7),
        App.MovieClicked(Second.imdbID),
        App.DetailSettled(1, Detail.Loaded(Payload("Second"))),
        App.AddClicked];
    OpeningState(b);
    RunAppend(b, App.Init(), Opening(), tail);
    var s0 := App.Run(b, App.Init(), Opening());
    var s1 := App.Step(b, s0, tail[0]);
    var s2 := App.Step(b, s1, tail[1]);
    assert s2.detail.panel.value.userRating == 7;
    assert MovieIds(s2.search.movies)[1] == Second.imdbID;
    var s3 := App.Step(b, s2, tail[2]);
    assert s3.detail.panel.value.id == Second.imdbID && s3.detail.panel.value.userRating == 7;
    var s4 := App.Step(b, s3, tail[3]);
    assert Detail.AddShown(s4.detail, s4.watched);
    var s5 := App.Step(b, s4, tail[4]);
    RunSteps(b, s0, tail);
  }

  lemma {:induction false} RunAppend(b: Build, s: App.State, xs: seq<App.Event>, ys: seq<App.Event>)
    ensures App.Run(b, s, xs + ys) == App.Run(b, App.Run(b, s, xs), ys)
    decreases |xs|
  {
    if xs == [] {
      assert xs + ys == ys;
    } else {
      assert (xs + ys)[0] == xs[0] && (xs + ys)[1..] == xs[1..] + ys;
      RunAppend(b, App.Step(b, s, xs[0]), xs[1..], ys);
    }
  }

  lemma RunSteps(b: Build, s: App.State, es: seq<App.Event>)
    requires |es| == 5
    ensures App.Run(b, s, es) ==
      App.Step(b, App.Step(b, App.Step(b, App.Step(b, App.Step(b, s, es[0]), es[1]), es[2]), es[3]), es[4])
  {
    var s1 := App.Step(b, s, es[0]);
    var s2 := App.Step(b, s1, es[1]);
    var s3 := App.Step(b, s2, es[2]);
    var s4 := App.Step(b, s3, es[3]);
    var s5 := App.Step(b, s4, es[4]);
    assert es[1..][0] == es[1] && es[1..][1..] == es[2..];
    assert es[2..][0] == es[2] && es[2..][1..] == es[3..];
    assert es[3..][0] == es[3] && es[3..][1..] == es[4..];
    assert es[4..][0] == es[4] && es[4..][1..] == [];
    assert App.Run(b, s4, es[4..]) == s5;
    assert App.Run(b, s3, es[3..]) == s5;
    assert App.Run(b, s2, es[2..]) == s5;
    assert App.Run(b, s1, es[1..]) == s5;
  }

  /** Corrected, a view only ever shows the details of its own movie, and
      a confirmed entry is built from the details of the movie it records. */
  lemma CorrectedDetailsMatchSelection(es: seq<App.Event>)
    ensures var s := App.Run(Build.Corrected, App.Init(), es);
      && (s.detail.panel.Some? && s.detail.panel.value.loadedFor.Some? ==>
           Some(s.detail.panel.value.loadedFor.value) == s.selectedId)
      && (Detail.Confirm(s.detail, s.watched).Some? ==>
           s.detail.panel.value.loadedFor == Some(Detail.Confirm(s.detail, s.watched).value.imdbId))
  {
    App.ReachableValid(Build.Corrected, es);
  }

  /** Corrected, every event that brings a different movie into view shows
      it unrated, without details, and with its loader on, so "Add to
      watched" is not offered until the user rates that movie. */
  lemma CorrectedNewMovieStartsUnrated(s: App.State, e: App.Event)
    requires App.Valid(Build.Corrected, s)
    ensures var r := App.Step(Build.Corrected, s, e);
      r.detail.panel.Some? && (s.detail.panel.None? || s.detail.panel.value.id != r.detail.panel.value.id) ==>
        && r.detail.panel.value.userRating == 0
        && r.detail.panel.value.details == NoDetails
        && r.detail.panel.value.isLoading
        && !Detail.AddShown(r.detail, r.watched)
  {
  }
}
