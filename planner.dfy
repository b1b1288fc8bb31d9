/** The app shell of src/app/App.tsx: turning a scan result and the
    per-playlist selections into edit plans, the screen sequence, and the
    choice of the profile image. A selection is a JavaScript `Set` of
    recording ids, modelled as a duplicate-free sequence in insertion
    order (the order `Array.from` lists it in). */
module Planner {
  import opened Wrappers
  import opened Types

  // ---------------------------------------------------------------------
  // Plans

  /** The insert for one selected entry: its position and its first
      replacement id (`taylorsVersionIds[0]`, `undefined` for an empty list). */
  function InsertFor(entry: StolenTrack): (r: TrackInsert)
    ensures r.position == entry.position
    ensures r.taylorsVersionId.Some? <==> entry.VariantIds() != []
    ensures r.taylorsVersionId.Some? ==> r.taylorsVersionId.value == entry.VariantIds()[0]
  {
    TrackInsert(entry.position, if entry.VariantIds() == [] then None else Some(entry.VariantIds()[0]))
  }

  /** `p.replacements.filter(r => s.has(r.stolen.id)).map(...)`. */
  function NewTracks(entries: seq<StolenTrack>, selection: seq<string>): seq<TrackInsert> {
    if entries == [] then []
    else
      var n := |entries| - 1;
      NewTracks(entries[..n], selection) + (if entries[n].StolenId() in selection then [InsertFor(entries[n])] else [])
  }

  /** The plan for one scanned playlist and its non-empty selection. */
  function PlanFor(p: ScannedPlaylist, selection: seq<string>): (r: PlaylistSelection)
    ensures r.id == p.Info().id && r.name == p.Info().name && r.snapshotId == p.Info().snapshotId
    ensures r.stolenIdsToRemove == selection
  {
    PlaylistSelection(p.Info().id, p.Info().name, p.Info().snapshotId, selection, NewTracks(p.stolenTracks, selection))
  }

  /** The indices of the non-empty selections, ascending. */
  function SelectedIndices(selections: seq<seq<string>>): seq<nat> {
    if selections == [] then []
    else
      var n := |selections| - 1;
      SelectedIndices(selections[..n]) + (if selections[n] != [] then [n] else [])
  }

  /** The plan-building chain of `onDoReplace`: playlist `i` paired with
      `selectedTracks[i]`, empty selections dropped, one plan per rest. */
  function BuildPlans(playlists: seq<ScannedPlaylist>, selections: seq<seq<string>>): seq<PlaylistSelection>
    requires |selections| == |playlists|
  {
    if playlists == [] then []
    else
      var n := |playlists| - 1;
      BuildPlans(playlists[..n], selections[..n])
      + (if selections[n] != [] then [PlanFor(playlists[n], selections[n])] else [])
  }

  /** The selected indices are exactly the non-empty selections, ascending. */
  lemma SelectedIndicesExact(selections: seq<seq<string>>)
    ensures forall i :: i in SelectedIndices(selections) <==> 0 <= i < |selections| && selections[i] != []
    ensures forall k, l :: 0 <= k < l < |SelectedIndices(selections)| ==> SelectedIndices(selections)[k] < SelectedIndices(selections)[l]
    ensures forall k :: 0 <= k < |SelectedIndices(selections)| ==> SelectedIndices(selections)[k] < |selections|
  {
    SelectedIndicesMembers(selections);
    SelectedIndicesAscending(selections);
  }

  lemma {:induction false} SelectedIndicesMembers(selections: seq<seq<string>>)
    ensures forall i :: i in SelectedIndices(selections) <==> 0 <= i < |selections| && selections[i] != []
    decreases |selections|
  {
    if selections != [] {
      var n := |selections| - 1;
      SelectedIndicesMembers(selections[..n]);
      assert forall i :: 0 <= i < n ==> selections[..n][i] == selections[i];
    }
  }

  lemma {:induction false} SelectedIndicesAscending(selections: seq<seq<string>>)
    ensures forall k, l :: 0 <= k < l < |SelectedIndices(selections)| ==> SelectedIndices(selections)[k] < SelectedIndices(selections)[l]
    ensures forall k :: 0 <= k < |SelectedIndices(selections)| ==> SelectedIndices(selections)[k] < |selections|
    decreases |selections|
  {
    if selections != [] {
      var n := |selections| - 1;
      SelectedIndicesAscending(selections[..n]);
      var idx := SelectedIndices(selections[..n]);
      var extra: seq<nat> := if selections[n] != [] then [n] else [];
      assert SelectedIndices(selections) == idx + extra;
      assert forall k :: 0 <= k < |idx| ==> (idx + extra)[k] == idx[k];
    }
  }

  /** Plans come from the non-empty selections only, in scan order: plan
      `k` is the plan of the `k`-th playlist with a non-empty selection. */
  lemma {:induction false} PlansFollowSelections(playlists: seq<ScannedPlaylist>, selections: seq<seq<string>>)
    requires |selections| == |playlists|
    ensures |BuildPlans(playlists, selections)| == |SelectedIndices(selections)|
    ensures forall k :: 0 <= k < |SelectedIndices(selections)| ==>
              SelectedIndices(selections)[k] < |playlists|
              && BuildPlans(playlists, selections)[k]
                 == PlanFor(playlists[SelectedIndices(selections)[k]], selections[SelectedIndices(selections)[k]])
    decreases |playlists|
  {
    if playlists != [] {
      var n := |playlists| - 1;
      var ps, ss := playlists[..n], selections[..n];
      PlansFollowSelections(ps, ss);
      SelectedIndicesExact(ss);
      var idx, plans := SelectedIndices(ss), BuildPlans(ps, ss);
      var extra := if selections[n] != [] then [n] else [];
      var extraPlan := if selections[n] != [] then [PlanFor(playlists[n], selections[n])] else [];
      assert SelectedIndices(selections) == idx + extra;
      assert BuildPlans(playlists, selections) == plans + extraPlan;
      forall k | 0 <= k < |idx + extra|
        ensures (idx + extra)[k] < |playlists|
                && (plans + extraPlan)[k] == PlanFor(playlists[(idx + extra)[k]], selections[(idx + extra)[k]])
      {
        if k < |idx| {
          assert ps[idx[k]] == playlists[idx[k]] && ss[idx[k]] == selections[idx[k]];
        }
      }
    }
  }

  /** What each plan holds: plan `k` belongs to the `k`-th playlist with a
      non-empty selection, carries that playlist's id, name and snapshot id,
      removes exactly its selected ids in selection order, and inserts one
      `TrackInsert` (position and first replacement id) for each of its
      entries whose recording is selected, and nothing else. */
  lemma PlansDescribePlaylists(playlists: seq<ScannedPlaylist>, selections: seq<seq<string>>)
    requires |selections| == |playlists|
    ensures |BuildPlans(playlists, selections)| == |SelectedIndices(selections)|
    ensures forall k :: 0 <= k < |SelectedIndices(selections)| ==>
              var i := SelectedIndices(selections)[k];
              var plan := BuildPlans(playlists, selections)[k];
              && i < |playlists| && selections[i] != []
              && plan.id == playlists[i].Info().id
              && plan.name == playlists[i].Info().name
              && plan.snapshotId == playlists[i].Info().snapshotId
              && plan.stolenIdsToRemove == selections[i]
              && (forall t :: t in plan.newTracks ==> InsertOfSelected(playlists[i].stolenTracks, selections[i], t))
              && (forall e :: 0 <= e < |playlists[i].stolenTracks| && playlists[i].stolenTracks[e].StolenId() in selections[i] ==>
                    InsertFor(playlists[i].stolenTracks[e]) in plan.newTracks)
  {
    PlansFollowSelections(playlists, selections);
    SelectedIndicesExact(selections);
    forall k | 0 <= k < |SelectedIndices(selections)|
      ensures var i := SelectedIndices(selections)[k];
              var plan := BuildPlans(playlists, selections)[k];
              && i < |playlists| && selections[i] != []
              && plan.id == playlists[i].Info().id
              && plan.name == playlists[i].Info().name
              && plan.snapshotId == playlists[i].Info().snapshotId
              && plan.stolenIdsToRemove == selections[i]
              && (forall t :: t in plan.newTracks ==> InsertOfSelected(playlists[i].stolenTracks, selections[i], t))
              && (forall e :: 0 <= e < |playlists[i].stolenTracks| && playlists[i].stolenTracks[e].StolenId() in selections[i] ==>
                    InsertFor(playlists[i].stolenTracks[e]) in plan.newTracks)
    {
      var i := SelectedIndices(selections)[k];
      assert i in SelectedIndices(selections);
      var plan := PlanFor(playlists[i], selections[i]);
      assert BuildPlans(playlists, selections)[k] == plan;
      assert plan.newTracks == NewTracks(playlists[i].stolenTracks, selections[i]);
      NewTracksExact(playlists[i].stolenTracks, selections[i]);
    }
  }

  /** Every plan removes a non-empty selection. */
  lemma PlansNonEmpty(playlists: seq<ScannedPlaylist>, selections: seq<seq<string>>)
    requires |selections| == |playlists|
    ensures forall p :: p in BuildPlans(playlists, selections) ==> p.stolenIdsToRemove != []
  {
    PlansFollowSelections(playlists, selections);
    SelectedIndicesExact(selections);
    forall p | p in BuildPlans(playlists, selections) ensures p.stolenIdsToRemove != [] {
      var k :| 0 <= k < |BuildPlans(playlists, selections)| && BuildPlans(playlists, selections)[k] == p;
      assert SelectedIndices(selections)[k] in SelectedIndices(selections);
    }
  }

  /** `t` is the insert of some selected entry. */
  ghost predicate InsertOfSelected(entries: seq<StolenTrack>, selection: seq<string>, t: TrackInsert) {
    exists k :: 0 <= k < |entries| && entries[k].StolenId() in selection && t == InsertFor(entries[k])
  }

  /** Inserts exist exactly for the selected entries: each insert is the
      insert of a selected entry, every selected entry has its insert, and
      there are never more inserts than entries. */
  lemma {:induction false} NewTracksExact(entries: seq<StolenTrack>, selection: seq<string>)
    ensures |NewTracks(entries, selection)| <= |entries|
    ensures forall t :: t in NewTracks(entries, selection) ==> InsertOfSelected(entries, selection, t)
    ensures forall k :: 0 <= k < |entries| && entries[k].StolenId() in selection ==>
              InsertFor(entries[k]) in NewTracks(entries, selection)
    decreases |entries|
  {
    if entries != [] {
      var n := |entries| - 1;
      var init := entries[..n];
      NewTracksExact(init, selection);
      assert forall k :: 0 <= k < n ==> init[k] == entries[k];
      forall t | t in NewTracks(entries, selection) ensures InsertOfSelected(entries, selection, t) {
        if t in NewTracks(init, selection) {
          var k :| 0 <= k < |init| && init[k].StolenId() in selection && t == InsertFor(init[k]);
          assert entries[k] == init[k];
        } else {
          assert entries[n].StolenId() in selection && t == InsertFor(entries[n]);
        }
      }
    }
  }

  /** Entries ascending by position give inserts ascending by position, the
      order `PlaylistSelection.newTracks` is documented to have. */
  lemma {:induction false} NewTracksAscending(entries: seq<StolenTrack>, selection: seq<string>)
    requires forall k, l :: 0 <= k < l < |entries| ==> entries[k].position < entries[l].position
    ensures AscendingByPosition(NewTracks(entries, selection))
    ensures forall j :: 0 <= j < |NewTracks(entries, selection)| ==>
              exists k :: 0 <= k < |entries| && NewTracks(entries, selection)[j].position == entries[k].position
    decreases |entries|
  {
    if entries != [] {
      var n := |entries| - 1;
      var init := entries[..n];
      NewTracksAscending(init, selection);
      var prev := NewTracks(init, selection);
      forall j | 0 <= j < |prev| ensures prev[j].position < entries[n].position {
        var k :| 0 <= k < n && prev[j].position == init[k].position;
      }
      var r := NewTracks(entries, selection);
      forall j | 0 <= j < |r| ensures exists k :: 0 <= k < |entries| && r[j].position == entries[k].position {
        if j < |prev| {
          var k :| 0 <= k < n && prev[j].position == init[k].position;
          assert init[k] == entries[k];
        } else {
          assert r[j].position == entries[n].position;
        }
      }
    }
  }

  /** The number of entries whose recording is selected (occurrences, not ids). */
  function SelectedCount(entries: seq<StolenTrack>, selection: seq<string>): nat {
    if entries == [] then 0
    else
      var n := |entries| - 1;
      SelectedCount(entries[..n], selection) + (if entries[n].StolenId() in selection then 1 else 0)
  }

  lemma {:induction false} NewTracksCount(entries: seq<StolenTrack>, selection: seq<string>)
    ensures |NewTracks(entries, selection)| == SelectedCount(entries, selection)
    decreases |entries|
  {
    if entries != [] {
      NewTracksCount(entries[..|entries| - 1], selection);
    }
  }

  /** The number of inserts over all plans. */
  function TotalInserts(plans: seq<PlaylistSelection>): nat {
    if plans == [] then 0 else TotalInserts(plans[..|plans| - 1]) + |plans[|plans| - 1].newTracks|
  }

  // ---------------------------------------------------------------------
  // Screens

  datatype Screen = Scanning | Selecting | Replacing | Finished

  /** What moves the app to its next screen: the scan settling, the user
      pressing Replace, the replacement settling. */
  datatype Event = ScanDone | DoReplace | ReplaceDone

  function Rank(s: Screen): nat {
    match s
    case Scanning => 0
    case Selecting => 1
    case Replacing => 2
    case Finished => 3
  }

  /** `setState` as each event issues it. An event is only raised on the
      screen that offers it (the scan effect while scanning, the Replace
      button while selecting, the replacement while replacing); elsewhere
      it changes nothing. */
  function Next(s: Screen, e: Event): (r: Screen)
    ensures Rank(s) <= Rank(r) <= Rank(s) + 1
    ensures r != s <==> (s, e) in {(Scanning, ScanDone), (Selecting, DoReplace), (Replacing, ReplaceDone)}
  {
    match (s, e)
    case (Scanning, ScanDone) => Selecting
    case (Selecting, DoReplace) => Replacing
    case (Replacing, ReplaceDone) => Finished
    case _ => s
  }

  function Run(s: Screen, events: seq<Event>): Screen {
    if events == [] then s else Next(Run(s, events[..|events| - 1]), events[|events| - 1])
  }

  /** Screens only move forward, one step per event at most, and the last
      screen is never left. */
  lemma {:induction false} RunMonotone(s: Screen, events: seq<Event>)
    ensures Rank(s) <= Rank(Run(s, events)) <= Rank(s) + |events|
    ensures s == Finished ==> Run(s, events) == Finished
    decreases |events|
  {
    if events != [] {
      RunMonotone(s, events[..|events| - 1]);
    }
  }

  /** An example run: the three events in order take the app from
      scanning to finished. */
  lemma FullRun()
    ensures Run(Scanning, [ScanDone, DoReplace, ReplaceDone]) == Finished
  {
    var events := [ScanDone, DoReplace, ReplaceDone];
    assert events[..2] == [ScanDone, DoReplace] && events[..2][..1] == [ScanDone] && events[..2][..1][..0] == [];
  }

  // ---------------------------------------------------------------------
  // Profile image

  datatype Image = Image(url: string, width: int)

  /** `images.reduce((p, c) => p.width < c.width ? c : p)`, with no initial
      value: `None` stands for the throw on an empty list. */
  function Widest(images: seq<Image>): Option<Image> {
    if images == [] then None
    else
      var n := |images| - 1;
      match Widest(images[..n])
      case None => Some(images[n])
      case Some(p) => Some(if p.width < images[n].width then images[n] else p)
  }

  /** The fold picks a widest image, the earliest among equally wide ones,
      and fails only on an empty list. */
  lemma {:induction false} WidestIsEarliestMaximum(images: seq<Image>)
    ensures Widest(images).None? <==> images == []
    ensures Widest(images).Some? ==>
              exists i :: 0 <= i < |images| && images[i] == Widest(images).value
                          && (forall j :: 0 <= j < |images| ==> images[j].width <= images[i].width)
                          && (forall j :: 0 <= j < i ==> images[j].width < images[i].width)
    decreases |images|
  {
    if images != [] {
      var i := WidestIndex(images);
      assert images[i] == Widest(images).value;
    }
  }

  /** The index of the image the fold picks. */
  lemma {:induction false} WidestIndex(images: seq<Image>) returns (i: nat)
    requires images != []
    ensures i < |images| && Widest(images) == Some(images[i])
    ensures forall j :: 0 <= j < |images| ==> images[j].width <= images[i].width
    ensures forall j :: 0 <= j < i ==> images[j].width < images[i].width
    decreases |images|
  {
    var n := |images| - 1;
    var init := images[..n];
    if init == [] {
      i := 0;
    } else {
      var k := WidestIndex(init);
      assert forall j :: 0 <= j < n ==> init[j] == images[j];
      if images[k].width < images[n].width {
        i := n;
      } else {
        i := k;
      }
    }
  }
}
