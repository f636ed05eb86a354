/** The track selector: collapsible category panels of track buttons, each greyed out
    once its cutoff has passed on the current day. */
module TrackSelector {
  import opened Types
  import opened Wrappers
  import opened SeqOps
  import opened Constants
  import opened App

  // ---------------------------------------------------------------------------
  // Toggling a track

  /** A track button's change handler: remove the name from the selection when it is
      there, append it otherwise. The play list is left as it is: existing rows keep
      the game mode they were given under the old selection. */
  method HandleToggleTrack(session: Session, name: string)
    modifies session`selectedTracks
    ensures session.selectedTracks == Toggle(old(session.selectedTracks), name)
    ensures name in session.selectedTracks <==> name !in old(session.selectedTracks)
  {
    session.SetSelectedTracks(Toggle(session.selectedTracks, name));
  }

  /** A click on a track button: a disabled button ignores it. */
  method ClickTrack(session: Session, name: string, today: string, clockMs: nat)
    modifies session`selectedTracks
    ensures session.selectedTracks ==
      if IsTrackDisabled(name, session.selectedDate, today, clockMs) then old(session.selectedTracks)
      else Toggle(old(session.selectedTracks), name)
  {
    if !IsTrackDisabled(name, session.selectedDate, today, clockMs) {
      HandleToggleTrack(session, name);
    }
  }

  /** Toggling a track twice restores the selection when it was not selected. */
  lemma ToggleTrackTwice(tracks: seq<string>, name: string)
    requires name !in tracks
    ensures Toggle(Toggle(tracks, name), name) == tracks
  {
    ToggleTwiceAbsent(tracks, name);
  }

  // ---------------------------------------------------------------------------
  // Cutoffs

  /** Milliseconds from local midnight to a "HH:MM" cutoff, seconds and milliseconds
      zero (`setHours(hours, minutes, 0, 0)`). */
  function CutoffMs(c: string): (ms: nat)
    requires IsClockTime(c)
    ensures ms == (ClockHours(c) * 60 + ClockMinutes(c)) * 60000
    ensures ms < 24 * 60 * 60000
  {
    (ClockHours(c) * 60 + ClockMinutes(c)) * 60000
  }

  /** `isTrackDisabled`: only on the current day (`selectedDate === today`), only for a
      track with a cutoff, and only once the clock (`clockMs`, milliseconds since local
      midnight) is past that cutoff. */
  function IsTrackDisabled(name: string, selectedDate: string, today: string, clockMs: nat): (off: bool)
    ensures selectedDate != today ==> !off
    ensures CutoffOf(name).None? ==> !off
  {
    if selectedDate != today then false
    else
      match CutoffOf(name)
      case None => false
      case Some(c) =>
        CutoffIsClockTime(name);
        if c == "" then false else clockMs > CutoffMs(c)
  }

  /** For a catalog track the rule is exactly: today, and past its cutoff. */
  lemma DisabledIffPastCutoff(i: nat, selectedDate: string, today: string, clockMs: nat)
    requires i < |AllTracks|
    ensures CutoffOf(AllTracks[i].name).Some? && IsClockTime(CutoffOf(AllTracks[i].name).value)
    ensures IsTrackDisabled(AllTracks[i].name, selectedDate, today, clockMs)
        <==> selectedDate == today && clockMs > CutoffMs(CutoffOf(AllTracks[i].name).value)
  {
    CatalogHasCutoffs(i);
  }

  /** A name outside the catalog is never disabled. */
  lemma UnknownTrackNeverDisabled(name: string, selectedDate: string, today: string, clockMs: nat)
    requires forall i :: 0 <= i < |AllTracks| ==> AllTracks[i].name != name
    ensures !IsTrackDisabled(name, selectedDate, today, clockMs)
  {
    NoCutoffOutsideCatalog(name);
  }

  /** Once disabled, a track stays disabled for the rest of the day. */
  lemma DisabledStaysDisabled(name: string, selectedDate: string, today: string, early: nat, late: nat)
    requires early <= late && IsTrackDisabled(name, selectedDate, today, early)
    ensures IsTrackDisabled(name, selectedDate, today, late)
  {
  }

  /** Before its cutoff on the current day a catalog track is still open. */
  lemma OpenBeforeCutoff(i: nat, today: string, clockMs: nat)
    requires i < |AllTracks|
    requires CutoffOf(AllTracks[i].name).Some? && IsClockTime(CutoffOf(AllTracks[i].name).value)
    requires clockMs <= CutoffMs(CutoffOf(AllTracks[i].name).value)
    ensures !IsTrackDisabled(AllTracks[i].name, today, today, clockMs)
  {
  }

  /** Venezuela's cutoff is 23:59: it is open until the last minute of the day. */
  lemma VenezuelaOpenUntilLastMinute(selectedDate: string, today: string, clockMs: nat)
    requires clockMs <= (23 * 60 + 59) * 60000
    ensures !IsTrackDisabled("Venezuela", selectedDate, today, clockMs)
  {
    CutoffTableFollowsCatalog();
    CatalogNamesDistinct();
    VenezuelaUnmarked();
    assert CutoffEntries[13] == ("Venezuela", "23:59");
    LookupAt(CutoffEntries, 13);
  }

  // ---------------------------------------------------------------------------
  // Category panels

  /** The open category after a click on category `name`'s header: a click on the open
      one closes it, any other click opens the clicked one. */
  function NextOpen(open: Option<string>, name: string): (r: Option<string>)
    ensures r == Some(name) <==> open != Some(name)
    ensures r == None <==> open == Some(name)
  {
    if open == Some(name) then None else Some(name)
  }

  /** Category k is the open one and lists track t. */
  predicate OpenHolds(categories: seq<TrackCategory>, open: Option<string>, k: int, t: Track) {
    0 <= k < |categories| && Some(categories[k].name) == open && t in categories[k].tracks
  }

  /** The track buttons shown: those of the open category. */
  function ShownTracks(categories: seq<TrackCategory>, open: Option<string>): (r: seq<Track>)
    ensures open.None? ==> r == []
    ensures forall t :: t in r <==> exists k :: OpenHolds(categories, open, k, t)
  {
    if categories == [] then []
    else
      var rest := ShownTracks(categories[1..], open);
      assert forall t :: t in rest ==> exists k :: OpenHolds(categories, open, k, t) by {
        forall t | t in rest ensures exists k :: OpenHolds(categories, open, k, t) {
          var k :| OpenHolds(categories[1..], open, k, t);
          assert categories[k + 1] == categories[1..][k];
          assert OpenHolds(categories, open, k + 1, t);
        }
      }
      var head := if Some(categories[0].name) == open then categories[0].tracks else [];
      assert forall t :: t in head ==> OpenHolds(categories, open, 0, t);
      assert forall k, t :: OpenHolds(categories, open, k, t) ==> t in head + rest by {
        forall k, t | OpenHolds(categories, open, k, t) ensures t in head + rest {
          if k > 0 {
            assert categories[1..][k - 1] == categories[k];
            assert OpenHolds(categories[1..], open, k - 1, t);
          }
        }
      }
      head + rest
  }

  /** With USA open, the selector shows the USA tracks only. */
  lemma UsaPanelShowsUsaTracks()
    ensures ShownTracks(TrackCategories, Some("USA")) == UsaTracks
  {
    var sd := TrackCategories[1..];
    assert sd[1..] == [];
    assert "Santo Domingo" != "USA";
    assert ShownTracks(sd, Some("USA")) == [];
  }

  class CategoryPanel {
    var openCategory: Option<string>

    /** USA starts open. */
    constructor ()
      ensures openCategory == Some("USA")
    {
      openCategory := Some("USA");
    }

    /** A click on a category header. */
    method Click(name: string)
      modifies this
      ensures openCategory == NextOpen(old(openCategory), name)
    {
      openCategory := NextOpen(openCategory, name);
    }

    predicate IsOpen(name: string)
      reads this
    {
      openCategory == Some(name)
    }
  }
}
