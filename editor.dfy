/** The selection editor (src/app/playlisteditor/PlaylistEditor.tsx) and
    its per-playlist view (src/app/playlisteditor/PlaylistView.tsx). Each
    scanned playlist has a selection: the set of recording ids (stolen
    track ids) to replace. Spotify only removes every occurrence of a track
    at once, so a selection names recordings, not positions. */
module Editor {
  import opened Types
  import Planner

  // ---------------------------------------------------------------------
  // JavaScript sets of strings, as duplicate-free sequences in insertion order

  predicate NoDup(s: seq<string>) {
    forall i, j :: 0 <= i < j < |s| ==> s[i] != s[j]
  }

  /** `new Set(xs)`: the first occurrence of every element, in order. */
  function FromSeq(xs: seq<string>): (r: seq<string>)
    ensures NoDup(r)
    ensures forall x :: x in r <==> x in xs
    ensures |r| <= |xs|
  {
    if xs == [] then []
    else
      var init := FromSeq(xs[..|xs| - 1]);
      var x := xs[|xs| - 1];
      assert forall y :: y in xs <==> y in xs[..|xs| - 1] || y == x;
      if x in init then init else init + [x]
  }

  /** `new Set(s).add(x)`: a copy of `s` with `x` appended unless present. */
  function Add(s: seq<string>, x: string): (r: seq<string>)
    ensures NoDup(s) ==> NoDup(r)
    ensures forall y :: y in r <==> y in s || y == x
  {
    if x in s then s else s + [x]
  }

  /** A copy of `s` with `x` deleted (`setRemove`). */
  function Delete(s: seq<string>, x: string): (r: seq<string>)
    ensures NoDup(s) ==> NoDup(r)
    ensures forall y :: y in r <==> y in s && y != x
    ensures |r| <= |s|
  {
    if s == [] then []
    else
      var init := Delete(s[..|s| - 1], x);
      var last := s[|s| - 1];
      assert forall y :: y in s <==> y in s[..|s| - 1] || y == last;
      assert NoDup(s) ==> NoDup(s[..|s| - 1]) && last !in s[..|s| - 1];
      if last == x then init else init + [last]
  }

  /** Adding a present id or deleting an absent one leaves the set as it
      was, and repeating either changes nothing more. */
  lemma SetUpdatesIdempotent(s: seq<string>, x: string)
    ensures x in s ==> Add(s, x) == s
    ensures x !in s ==> Delete(s, x) == s
    ensures Add(Add(s, x), x) == Add(s, x)
    ensures Delete(Delete(s, x), x) == Delete(s, x)
  {
    DeleteAbsent(s, x);
    DeleteAbsent(Delete(s, x), x);
  }

  /** Deleting an absent id is the identity. */
  lemma {:induction false} DeleteAbsent(s: seq<string>, x: string)
    ensures x !in s ==> Delete(s, x) == s
    decreases |s|
  {
    if s != [] && x !in s {
      DeleteAbsent(s[..|s| - 1], x);
      assert x !in s[..|s| - 1];
    }
  }

  // ---------------------------------------------------------------------
  // Selections

  /** The recording ids of a playlist's matches, one per match. */
  function StolenIds(p: ScannedPlaylist): (r: seq<string>)
    ensures |r| == |p.stolenTracks|
    ensures forall k :: 0 <= k < |r| ==> r[k] == p.stolenTracks[k].StolenId()
  {
    seq(|p.stolenTracks|, k requires 0 <= k < |p.stolenTracks| => p.stolenTracks[k].StolenId())
  }

  /** Every match of every playlist selected. */
  function InitialSelection(playlists: seq<ScannedPlaylist>): (r: seq<seq<string>>)
    ensures |r| == |playlists|
  {
    seq(|playlists|, i requires 0 <= i < |playlists| => FromSeq(StolenIds(playlists[i])))
  }

  /** `onSelectPlaylist(selected)` on playlist `index`. */
  function OnSelectPlaylist(playlists: seq<ScannedPlaylist>, selections: seq<seq<string>>, index: nat, selected: bool)
    : (r: seq<seq<string>>)
    requires |selections| == |playlists|
    ensures |r| == |selections|
  {
    seq(|selections|, i requires 0 <= i < |selections| =>
      if i == index then (if selected then FromSeq(StolenIds(playlists[i])) else []) else selections[i])
  }

  /** `onSelectTrack(trackId, selected)` on playlist `index`. */
  function OnSelectTrack(selections: seq<seq<string>>, index: nat, trackId: string, selected: bool): (r: seq<seq<string>>)
    ensures |r| == |selections|
  {
    seq(|selections|, i requires 0 <= i < |selections| =>
      if i == index then (if selected then Add(selections[i], trackId) else Delete(selections[i], trackId)) else selections[i])
  }

  /** A selection list as the editor keeps it: one duplicate-free set per playlist. */
  predicate WellFormed(playlists: seq<ScannedPlaylist>, selections: seq<seq<string>>) {
    |selections| == |playlists| && forall i :: 0 <= i < |selections| ==> NoDup(selections[i])
  }

  // ---------------------------------------------------------------------
  // The view's checkbox rules

  /** `stolenTracks.every(r => selection.has(r.track.id))`. */
  predicate IsAllSelected(entries: seq<StolenTrack>, selection: seq<string>) {
    forall k :: 0 <= k < |entries| ==> entries[k].StolenId() in selection
  }

  /** `!isAllSelected && selection.size > 0`. */
  predicate IsIndeterminate(entries: seq<StolenTrack>, selection: seq<string>) {
    !IsAllSelected(entries, selection) && |selection| > 0
  }

  /** A row is checked when its recording is selected. */
  predicate RowChecked(selection: seq<string>, entry: StolenTrack) {
    entry.StolenId() in selection
  }

  /** What a row's checkbox reports: the row's recording id, not its position. */
  function RowToggle(entry: StolenTrack, selected: bool): (string, bool) {
    (entry.StolenId(), selected)
  }

  /** The view state of one playlist right after one of its updates.
      Selecting the playlist checks it and every row, its selection being
      exactly the playlist's recording ids; deselecting it empties the
      selection, leaving nothing checked and nothing indeterminate; other
      playlists keep their selection. */
  lemma SelectPlaylistEffect(playlists: seq<ScannedPlaylist>, selections: seq<seq<string>>, index: nat, selected: bool)
    requires WellFormed(playlists, selections) && index < |playlists|
    ensures var r := OnSelectPlaylist(playlists, selections, index, selected);
            && WellFormed(playlists, r)
            && (forall i :: 0 <= i < |r| && i != index ==> r[i] == selections[i])
            && (selected ==> IsAllSelected(playlists[index].stolenTracks, r[index]) && !IsIndeterminate(playlists[index].stolenTracks, r[index]))
            && (!selected ==> !IsIndeterminate(playlists[index].stolenTracks, r[index])
                              && (forall k :: 0 <= k < |playlists[index].stolenTracks| ==> !RowChecked(r[index], playlists[index].stolenTracks[k])))
            && (!selected && playlists[index].stolenTracks != [] ==> !IsAllSelected(playlists[index].stolenTracks, r[index]))
            && (selected ==> forall y :: y in r[index] <==>
                  exists k :: 0 <= k < |playlists[index].stolenTracks| && playlists[index].stolenTracks[k].StolenId() == y)
            && (!selected ==> r[index] == [])
  {
    var r := OnSelectPlaylist(playlists, selections, index, selected);
    var entries := playlists[index].stolenTracks;
    if selected {
      forall k | 0 <= k < |entries| ensures entries[k].StolenId() in r[index] {
        assert StolenIds(playlists[index])[k] == entries[k].StolenId();
      }
      forall y | y in r[index] ensures exists k :: 0 <= k < |entries| && entries[k].StolenId() == y {
        var k :| 0 <= k < |StolenIds(playlists[index])| && StolenIds(playlists[index])[k] == y;
      }
    } else if entries != [] {
      assert entries[0].StolenId() !in r[index];
    }
  }

  /** Toggling one row changes only that playlist's selection, by exactly
      that recording id; all rows of the same recording follow it, and the
      same toggle repeated changes nothing more. */
  lemma SelectTrackEffect(playlists: seq<ScannedPlaylist>, selections: seq<seq<string>>, index: nat, trackId: string, selected: bool)
    requires WellFormed(playlists, selections) && index < |playlists|
    ensures var r := OnSelectTrack(selections, index, trackId, selected);
            && WellFormed(playlists, r)
            && (forall i :: 0 <= i < |r| && i != index ==> r[i] == selections[i])
            && (forall y :: y in r[index] <==> (y in selections[index] && y != trackId) || (selected && y == trackId))
            && (forall k :: 0 <= k < |playlists[index].stolenTracks| && playlists[index].stolenTracks[k].StolenId() == trackId ==>
                  RowChecked(r[index], playlists[index].stolenTracks[k]) == selected)
            && OnSelectTrack(r, index, trackId, selected) == r
  {
    var r := OnSelectTrack(selections, index, trackId, selected);
    SetUpdatesIdempotent(selections[index], trackId);
    assert OnSelectTrack(r, index, trackId, selected)[index] == r[index];
  }

  /** Initially every playlist is fully selected and none is indeterminate:
      each selection holds exactly the playlist's recording ids. */
  lemma InitiallyAllSelected(playlists: seq<ScannedPlaylist>)
    ensures WellFormed(playlists, InitialSelection(playlists))
    ensures forall i :: 0 <= i < |playlists| ==>
              IsAllSelected(playlists[i].stolenTracks, InitialSelection(playlists)[i])
              && !IsIndeterminate(playlists[i].stolenTracks, InitialSelection(playlists)[i])
    ensures forall i, y :: 0 <= i < |playlists| ==>
              (y in InitialSelection(playlists)[i] <==>
                 exists k :: 0 <= k < |playlists[i].stolenTracks| && playlists[i].stolenTracks[k].StolenId() == y)
  {
    forall i, k | 0 <= i < |playlists| && 0 <= k < |playlists[i].stolenTracks|
      ensures playlists[i].stolenTracks[k].StolenId() in InitialSelection(playlists)[i]
    {
      assert StolenIds(playlists[i])[k] == playlists[i].stolenTracks[k].StolenId();
    }
    forall i, y | 0 <= i < |playlists| && y in InitialSelection(playlists)[i]
      ensures exists k :: 0 <= k < |playlists[i].stolenTracks| && playlists[i].stolenTracks[k].StolenId() == y
    {
      var k :| 0 <= k < |StolenIds(playlists[i])| && StolenIds(playlists[i])[k] == y;
    }
  }

  // ---------------------------------------------------------------------
  // The Replace button

  /** `songsToReplace`: selected matches summed over playlists, counting
      occurrences, so a recording in two slots counts twice. */
  function SongsToReplace(playlists: seq<ScannedPlaylist>, selections: seq<seq<string>>): nat
    requires |selections| == |playlists|
  {
    if playlists == [] then 0
    else
      var n := |playlists| - 1;
      SongsToReplace(playlists[..n], selections[..n]) + Planner.SelectedCount(playlists[n].stolenTracks, selections[n])
  }

  /** The button is disabled when there is nothing to replace. */
  predicate ReplaceDisabled(playlists: seq<ScannedPlaylist>, selections: seq<seq<string>>)
    requires |selections| == |playlists|
  {
    SongsToReplace(playlists, selections) == 0
  }

  /** The count on the button is the number of inserts the plans built
      from the same selections will make. */
  lemma {:induction false} SongsToReplaceIsInserts(playlists: seq<ScannedPlaylist>, selections: seq<seq<string>>)
    requires |selections| == |playlists|
    ensures SongsToReplace(playlists, selections) == Planner.TotalInserts(Planner.BuildPlans(playlists, selections))
    decreases |playlists|
  {
    if playlists != [] {
      var n := |playlists| - 1;
      SongsToReplaceIsInserts(playlists[..n], selections[..n]);
      Planner.NewTracksCount(playlists[n].stolenTracks, selections[n]);
      var prev := Planner.BuildPlans(playlists[..n], selections[..n]);
      if selections[n] != [] {
        var plans := prev + [Planner.PlanFor(playlists[n], selections[n])];
        assert plans[..|plans| - 1] == prev;
      } else {
        assert Planner.BuildPlans(playlists, selections) == prev + [];
        assert prev + [] == prev;
        assert Planner.SelectedCount(playlists[n].stolenTracks, []) == 0 by {
          SelectedCountEmpty(playlists[n].stolenTracks);
        }
      }
    }
  }

  lemma {:induction false} SelectedCountEmpty(entries: seq<StolenTrack>)
    ensures Planner.SelectedCount(entries, []) == 0
    decreases |entries|
  {
    if entries != [] {
      SelectedCountEmpty(entries[..|entries| - 1]);
    }
  }

  /** The button is disabled exactly when no selected match exists, i.e.
      when every selection misses every match of its playlist. */
  lemma {:induction false} DisabledIffNothingSelected(playlists: seq<ScannedPlaylist>, selections: seq<seq<string>>)
    requires |selections| == |playlists|
    ensures ReplaceDisabled(playlists, selections) <==>
              forall i, k :: 0 <= i < |playlists| && 0 <= k < |playlists[i].stolenTracks| ==>
                !RowChecked(selections[i], playlists[i].stolenTracks[k])
    decreases |playlists|
  {
    if playlists != [] {
      var n := |playlists| - 1;
      DisabledIffNothingSelected(playlists[..n], selections[..n]);
      SelectedCountZero(playlists[n].stolenTracks, selections[n]);
      assert forall i :: 0 <= i < n ==> playlists[..n][i] == playlists[i] && selections[..n][i] == selections[i];
    }
  }

  lemma {:induction false} SelectedCountZero(entries: seq<StolenTrack>, selection: seq<string>)
    ensures Planner.SelectedCount(entries, selection) == 0 <==> forall k :: 0 <= k < |entries| ==> !RowChecked(selection, entries[k])
    decreases |entries|
  {
    if entries != [] {
      var n := |entries| - 1;
      SelectedCountZero(entries[..n], selection);
      assert forall k :: 0 <= k < n ==> entries[..n][k] == entries[k];
    }
  }
}
