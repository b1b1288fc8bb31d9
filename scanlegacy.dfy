/** The two earlier scanners, src/app/scan.tsx and src/app/util.tsx. They
    read a playlist through its `tracks.href` (src/api.tsx), take the first
    replacement id of a match, read `t.track.type` without a null check,
    and differ in what they do with a rejected scan: scan.tsx drops it,
    util.tsx rethrows the first one. */
module LegacyScan {
  import opened Wrappers
  import opened Text
  import opened Types
  import opened Pagination
  import Scan

  /** One match as these scanners record it. `selected` is `Some(true)` in
      src/app/scan.tsx, which marks every match selected, and `None` in
      src/app/util.tsx, whose record has no such field. */
  datatype TrackReplacement = TrackReplacement(position: nat, stolen: Track, taylorsVersionId: string, selected: Option<bool>)

  datatype LegacyScanned = LegacyScanned(playlist: PlaylistWithTracks, replacements: seq<TrackReplacement>)

  /** `{ progress: counter / total, currentPlaylistName }`, with the
      quotient kept as its two operands. */
  datatype LegacyProgress = LegacyProgress(counter: nat, total: nat, currentPlaylistName: string)

  /** The remote calls of a legacy scan; the user is passed in. */
  datatype LegacyApi = LegacyApi(
    user: User,
    listPlaylists: nat -> Result<Page<SimplifiedPlaylist>, Failure>,
    playlistsRemote: Remote<SimplifiedPlaylist>,
    itemsRemote: Remote<PlaylistedTrack>,
    maxPages: nat)

  // ---------------------------------------------------------------------
  // Matching

  /** What the slot at index `i` contributes: a throw on a null slot
      (`t.track.type` of null), nothing for an episode or an unknown ISRC,
      a throw when the catalog lists no replacement (`replacements[0].id`
      of undefined), otherwise the match with the first replacement id. */
  function SlotReplacement(catalog: Catalog, slot: PlaylistedTrack, i: nat, selected: Option<bool>)
    : Result<seq<TrackReplacement>, Failure>
  {
    match slot.track
    case None => Err(NullTrackSlot(i))
    case Some(track) =>
      if track.kind != "track" || track.isrc !in catalog then Ok([])
      else if catalog[track.isrc].ids == [] then Err(NoReplacement(track.isrc))
      else Ok([TrackReplacement(i + 1, track, catalog[track.isrc].ids[0], selected)])
  }

  /** `getTrackReplacements` of both files: the first throwing slot decides
      the outcome, otherwise the matches in slot order. */
  function LegacyMatches(catalog: Catalog, tracks: seq<PlaylistedTrack>, selected: Option<bool>)
    : Result<seq<TrackReplacement>, Failure>
  {
    if tracks == [] then Ok([])
    else
      var n := |tracks| - 1;
      match LegacyMatches(catalog, tracks[..n], selected)
      case Err(e) => Err(e)
      case Ok(rs) =>
        match SlotReplacement(catalog, tracks[n], n, selected)
        case Err(e) => Err(e)
        case Ok(more) => Ok(rs + more)
  }

  /** A slot these scanners throw on. */
  predicate Throws(catalog: Catalog, slot: PlaylistedTrack) {
    slot.track.None? || (Scan.IsMatchSlot(catalog, slot) && catalog[slot.track.value.isrc].ids == [])
  }

  /** The legacy record of a match of src/app/scan.ts, read the way these
      scanners read it. */
  function AsLegacy(m: StolenTrack, selected: Option<bool>): TrackReplacement
    requires m.variants.ids != []
  {
    TrackReplacement(m.position, m.track, m.variants.ids[0], selected)
  }

  /** The legacy matcher fails exactly when some slot throws, and the
      reason names the first such slot; otherwise it finds the same
      matches as src/app/scan.ts, each with its first replacement id. */
  lemma LegacyMatchesAgree(catalog: Catalog, tracks: seq<PlaylistedTrack>, selected: Option<bool>)
    ensures LegacyMatches(catalog, tracks, selected).Err? <==> exists i :: 0 <= i < |tracks| && Throws(catalog, tracks[i])
    ensures LegacyMatches(catalog, tracks, selected).Err? ==>
              exists i :: 0 <= i < |tracks| && Throws(catalog, tracks[i])
                          && (forall j :: 0 <= j < i ==> !Throws(catalog, tracks[j]))
                          && LegacyMatches(catalog, tracks, selected).error
                             == (if tracks[i].track.None? then NullTrackSlot(i) else NoReplacement(tracks[i].track.value.isrc))
    ensures LegacyMatches(catalog, tracks, selected).Ok? ==>
              var m := Scan.Matches(catalog, tracks);
              && |LegacyMatches(catalog, tracks, selected).value| == |m|
              && forall k :: 0 <= k < |m| ==>
                   (m[k].variants.ids != [] && LegacyMatches(catalog, tracks, selected).value[k] == AsLegacy(m[k], selected))
  {
    LegacyMatchesFailures(catalog, tracks, selected);
    LegacyMatchesSuccess(catalog, tracks, selected);
  }

  lemma {:induction false} LegacyMatchesFailures(catalog: Catalog, tracks: seq<PlaylistedTrack>, selected: Option<bool>)
    ensures LegacyMatches(catalog, tracks, selected).Err? <==> exists i :: 0 <= i < |tracks| && Throws(catalog, tracks[i])
    ensures LegacyMatches(catalog, tracks, selected).Err? ==>
              exists i :: 0 <= i < |tracks| && Throws(catalog, tracks[i])
                          && (forall j :: 0 <= j < i ==> !Throws(catalog, tracks[j]))
                          && LegacyMatches(catalog, tracks, selected).error
                             == (if tracks[i].track.None? then NullTrackSlot(i) else NoReplacement(tracks[i].track.value.isrc))
    decreases |tracks|
  {
    if tracks != [] {
      var n := |tracks| - 1;
      var init := tracks[..n];
      LegacyMatchesFailures(catalog, init, selected);
      assert forall j :: 0 <= j < n ==> init[j] == tracks[j];
      var prev := LegacyMatches(catalog, init, selected);
      if prev.Err? {
        var i :| 0 <= i < n && Throws(catalog, init[i]) && (forall j :: 0 <= j < i ==> !Throws(catalog, init[j]))
                 && prev.error == (if init[i].track.None? then NullTrackSlot(i) else NoReplacement(init[i].track.value.isrc));
        assert Throws(catalog, tracks[i]);
      } else if SlotReplacement(catalog, tracks[n], n, selected).Err? {
        assert Throws(catalog, tracks[n]);
      } else {
        assert !Throws(catalog, tracks[n]);
        forall i | 0 <= i < |tracks| ensures !Throws(catalog, tracks[i]) {
          if i < n {
            assert !Throws(catalog, init[i]);
          }
        }
      }
    }
  }

  lemma {:induction false} LegacyMatchesSuccess(catalog: Catalog, tracks: seq<PlaylistedTrack>, selected: Option<bool>)
    ensures LegacyMatches(catalog, tracks, selected).Ok? ==>
              var m := Scan.Matches(catalog, tracks);
              && |LegacyMatches(catalog, tracks, selected).value| == |m|
              && forall k :: 0 <= k < |m| ==>
                   (m[k].variants.ids != [] && LegacyMatches(catalog, tracks, selected).value[k] == AsLegacy(m[k], selected))
    decreases |tracks|
  {
    if tracks != [] {
      var n := |tracks| - 1;
      var init := tracks[..n];
      LegacyMatchesSuccess(catalog, init, selected);
      Scan.MatchesStep(catalog, tracks);
      assert forall j :: 0 <= j < n ==> init[j] == tracks[j];
    }
  }

  /** A playlist with an unavailable track makes the legacy scan of that
      playlist throw, where src/app/scan.ts skips the slot. */
  lemma NullSlotThrows(catalog: Catalog)
    ensures LegacyMatches(catalog, [PlaylistedTrack(None)], None) == Err(NullTrackSlot(0))
    ensures Scan.Matches(catalog, [PlaylistedTrack(None)]) == []
  {
    var tracks := [PlaylistedTrack(None)];
    assert tracks[..0] == [];
    Scan.MatchesStep(catalog, tracks);
  }

  /** The `tracks.forEach` of either file; a throw leaves it at the first
      throwing slot. */
  method GetTrackReplacements(catalog: Catalog, tracks: seq<PlaylistedTrack>, selected: Option<bool>)
    returns (r: Result<seq<TrackReplacement>, Failure>)
    ensures r == LegacyMatches(catalog, tracks, selected)
  {
    var replacements: seq<TrackReplacement> := [];
    for i := 0 to |tracks|
      invariant LegacyMatches(catalog, tracks[..i], selected) == Ok(replacements)
    {
      assert tracks[..i + 1][..i] == tracks[..i] && tracks[..i + 1][i] == tracks[i];
      var t := tracks[i];
      if t.track.None? {
        LegacyMatchesPrefixErr(catalog, tracks, i + 1, selected);
        return Err(NullTrackSlot(i));
      }
      var track := t.track.value;
      if track.kind == "track" && track.isrc in catalog {
        var variants := catalog[track.isrc];
        if |variants.ids| == 0 {
          LegacyMatchesPrefixErr(catalog, tracks, i + 1, selected);
          return Err(NoReplacement(track.isrc));
        }
        assert SlotReplacement(catalog, tracks[i], i, selected) == Ok([TrackReplacement(i + 1, track, variants.ids[0], selected)]);
        LegacyMatchesStep(catalog, tracks, i, selected);
        replacements := replacements + [TrackReplacement(i + 1, track, variants.ids[0], selected)];
      } else {
        assert SlotReplacement(catalog, tracks[i], i, selected) == Ok([]);
        LegacyMatchesStep(catalog, tracks, i, selected);
        assert replacements + [] == replacements;
      }
    }
    assert tracks[..|tracks|] == tracks;
    r := Ok(replacements);
  }

  lemma LegacyMatchesStep(catalog: Catalog, tracks: seq<PlaylistedTrack>, i: nat, selected: Option<bool>)
    requires i < |tracks|
    ensures LegacyMatches(catalog, tracks[..i + 1], selected)
            == match LegacyMatches(catalog, tracks[..i], selected)
               case Err(e) => Err(e)
               case Ok(rs) =>
                 match SlotReplacement(catalog, tracks[i], i, selected)
                 case Err(e) => Err(e)
                 case Ok(more) => Ok(rs + more)
  {
    assert tracks[..i + 1][..i] == tracks[..i] && tracks[..i + 1][i] == tracks[i];
  }

  /** Once a prefix throws, the whole list throws with the same reason. */
  lemma {:induction false} LegacyMatchesPrefixErr(catalog: Catalog, tracks: seq<PlaylistedTrack>, i: nat, selected: Option<bool>)
    requires i <= |tracks|
    requires LegacyMatches(catalog, tracks[..i], selected).Err?
    ensures LegacyMatches(catalog, tracks, selected) == LegacyMatches(catalog, tracks[..i], selected)
    decreases |tracks| - i
  {
    if i < |tracks| {
      var n := |tracks| - 1;
      assert tracks[..i + 1][..i] == tracks[..i];
      LegacyMatchesPrefixErrStep(catalog, tracks[..i + 1], selected);
      assert tracks[..i + 1] == tracks[..i + 1];
      LegacyMatchesPrefixErr(catalog, tracks, i + 1, selected);
    } else {
      assert tracks[..i] == tracks;
    }
  }

  lemma LegacyMatchesPrefixErrStep(catalog: Catalog, tracks: seq<PlaylistedTrack>, selected: Option<bool>)
    requires tracks != []
    requires LegacyMatches(catalog, tracks[..|tracks| - 1], selected).Err?
    ensures LegacyMatches(catalog, tracks, selected) == LegacyMatches(catalog, tracks[..|tracks| - 1], selected)
  {
  }

  // ---------------------------------------------------------------------
  // Scanning one playlist

  /** What the legacy scan of `playlist` settles to. */
  ghost predicate LegacyOutcome(api: LegacyApi, catalog: Catalog, playlist: SimplifiedPlaylist, selected: Option<bool>,
                                s: Settled<Option<LegacyScanned>>) {
    if playlist.ownerUri != api.user.uri then s == Fulfilled(None)
    else if !StartsWith(playlist.tracksHref, SPOTIFY_ROOT_URL) then s == Rejected(UnexpectedHref(playlist.tracksHref))
    else exists pages: seq<Page<PlaylistedTrack>>, requests: seq<string>, ending: Ending ::
      && Walked(api.itemsRemote, api.itemsRemote(playlist.tracksHref[|SPOTIFY_ROOT_URL|..]), api.maxPages, pages, requests, ending)
      && match ending
         case Failed(e) => s == Rejected(e)
         case Exhausted =>
           match LegacyMatches(catalog, ItemsOf(pages), selected)
           case Err(e) => s == Rejected(e)
           case Ok(rs) => s == Fulfilled(if rs == [] then None else Some(LegacyScanned(PlaylistWithTracks(playlist, ItemsOf(pages)), rs)))
  }

  /** `scanPlaylist` of either file. */
  method ScanPlaylist(api: LegacyApi, catalog: Catalog, playlist: SimplifiedPlaylist, selected: Option<bool>)
    returns (s: Settled<Option<LegacyScanned>>)
    ensures LegacyOutcome(api, catalog, playlist, selected, s)
  {
    if playlist.ownerUri != api.user.uri {
      return Fulfilled(None);
    }
    var r, requests, pages := GetPlaylistWithTracksByHref(api.itemsRemote, playlist, api.maxPages);
    if !StartsWith(playlist.tracksHref, SPOTIFY_ROOT_URL) {
      return Rejected(r.error);
    }
    assert requests[0] == playlist.tracksHref[|SPOTIFY_ROOT_URL|..] by {
      assert (SPOTIFY_ROOT_URL + requests[0])[|SPOTIFY_ROOT_URL|..] == requests[0];
    }
    ghost var ending :| Walked(api.itemsRemote, api.itemsRemote(requests[0]), api.maxPages, pages, requests[1..], ending)
                        && (ending == Exhausted <==> r.Ok?) && (ending.Failed? ==> r == Err(ending.reason));
    if r.Err? {
      return Rejected(r.error);
    }
    var replacements := GetTrackReplacements(catalog, r.value.tracks, selected);
    if replacements.Err? {
      return Rejected(replacements.error);
    }
    if |replacements.value| > 0 {
      s := Fulfilled(Some(LegacyScanned(r.value, replacements.value)));
    } else {
      s := Fulfilled(None);
    }
  }

  /** The `for await` loop of either file: the k-th scan reports
      `(k + 1) / total` of the page its playlist came from. */
  method ScanEach(api: LegacyApi, catalog: Catalog, yielded: seq<(nat, SimplifiedPlaylist)>, selected: Option<bool>)
    returns (results: seq<Settled<Option<LegacyScanned>>>, progress: seq<LegacyProgress>)
    ensures |results| == |progress| == |yielded|
    ensures forall k :: 0 <= k < |yielded| ==> LegacyOutcome(api, catalog, yielded[k].1, selected, results[k])
    ensures forall k :: 0 <= k < |yielded| ==> progress[k] == LegacyProgress(k + 1, yielded[k].0, yielded[k].1.name)
  {
    results, progress := [], [];
    for i := 0 to |yielded|
      invariant |results| == |progress| == i
      invariant forall k :: 0 <= k < i ==> LegacyOutcome(api, catalog, yielded[k].1, selected, results[k])
      invariant forall k :: 0 <= k < i ==> progress[k] == LegacyProgress(k + 1, yielded[k].0, yielded[k].1.name)
    {
      var (total, item) := yielded[i];
      var s := ScanPlaylist(api, catalog, item, selected);
      results := results + [s];
      progress := progress + [LegacyProgress(i + 1, total, item.name)];
    }
  }

  // ---------------------------------------------------------------------
  // Collecting

  /** The non-null fulfilled values in launch order, rejections dropped. */
  function Present(results: seq<Settled<Option<LegacyScanned>>>): seq<LegacyScanned> {
    if results == [] then []
    else
      var last := results[|results| - 1];
      Present(results[..|results| - 1]) + (if last.Fulfilled? && last.value.Some? then [last.value.value] else [])
  }

  /** The reason of the first rejected result, if any. */
  function FirstRejection(results: seq<Settled<Option<LegacyScanned>>>): Option<Failure> {
    if results == [] then None
    else if results[0].Rejected? then Some(results[0].reason)
    else FirstRejection(results[1..])
  }

  lemma {:induction false} PresentExactly(results: seq<Settled<Option<LegacyScanned>>>)
    ensures forall p :: p in Present(results) <==> exists k :: 0 <= k < |results| && results[k] == Fulfilled(Some(p))
    ensures |Present(results)| <= |results|
    decreases |results|
  {
    if results != [] {
      var n := |results| - 1;
      PresentExactly(results[..n]);
      assert forall k :: 0 <= k < n ==> results[..n][k] == results[k];
    }
  }

  /** `FirstRejection` finds the earliest rejection, and none when there is none. */
  lemma {:induction false} FirstRejectionEarliest(results: seq<Settled<Option<LegacyScanned>>>)
    ensures FirstRejection(results).None? <==> forall k :: 0 <= k < |results| ==> results[k].Fulfilled?
    ensures FirstRejection(results).Some? ==>
              exists k :: 0 <= k < |results| && results[k] == Rejected(FirstRejection(results).value)
                          && forall j :: 0 <= j < k ==> results[j].Fulfilled?
    decreases |results|
  {
    if results != [] && results[0].Fulfilled? {
      var tail := results[1..];
      FirstRejectionEarliest(tail);
      assert forall k :: 1 <= k < |results| ==> results[k] == tail[k - 1];
      if FirstRejection(tail).Some? {
        var k :| 0 <= k < |tail| && tail[k] == Rejected(FirstRejection(tail).value)
                 && forall j :: 0 <= j < k ==> tail[j].Fulfilled?;
        assert results[k + 1] == tail[k];
      }
    }
  }

  /** A found playlist is owned by the user and holds the legacy matches of its slots. */
  lemma PresentAreOwnedMatches(api: LegacyApi, catalog: Catalog, yielded: seq<(nat, SimplifiedPlaylist)>, selected: Option<bool>,
                               results: seq<Settled<Option<LegacyScanned>>>)
    requires |results| == |yielded|
    requires forall k :: 0 <= k < |yielded| ==> LegacyOutcome(api, catalog, yielded[k].1, selected, results[k])
    ensures forall p :: p in Present(results) ==>
              && p.playlist.playlist in Items(yielded)
              && p.playlist.playlist.ownerUri == api.user.uri
              && LegacyMatches(catalog, p.playlist.tracks, selected) == Ok(p.replacements)
              && p.replacements != []
  {
    PresentExactly(results);
    forall p | p in Present(results)
      ensures && p.playlist.playlist in Items(yielded)
              && p.playlist.playlist.ownerUri == api.user.uri
              && LegacyMatches(catalog, p.playlist.tracks, selected) == Ok(p.replacements)
              && p.replacements != []
    {
      var k :| 0 <= k < |results| && results[k] == Fulfilled(Some(p));
      var playlist := yielded[k].1;
      assert Items(yielded)[k] == playlist;
      assert LegacyOutcome(api, catalog, playlist, selected, results[k]);
      var pages, requests, ending :|
        && Walked(api.itemsRemote, api.itemsRemote(playlist.tracksHref[|SPOTIFY_ROOT_URL|..]), api.maxPages, pages, requests, ending)
        && match ending
           case Failed(e) => results[k] == Rejected(e)
           case Exhausted =>
             match LegacyMatches(catalog, ItemsOf(pages), selected)
             case Err(e) => results[k] == Rejected(e)
             case Ok(rs) => results[k] == Fulfilled(if rs == [] then None else Some(LegacyScanned(PlaylistWithTracks(playlist, ItemsOf(pages)), rs)));
    }
  }

  // ---------------------------------------------------------------------
  // The two scanners

  /** `scanUserPlaylists` of src/app/scan.tsx: every match selected,
      rejected scans dropped; only a failure of the listing rejects. */
  method ScanUserPlaylistsDropping(api: LegacyApi, catalog: Catalog)
    returns (r: Result<seq<LegacyScanned>, Failure>, progress: seq<LegacyProgress>,
             ghost listed: seq<(nat, SimplifiedPlaylist)>, ghost ending: Ending,
             ghost results: seq<Settled<Option<LegacyScanned>>>)
    ensures exists pages, requests :: Walked(api.playlistsRemote, api.listPlaylists(PLAYLIST_PAGE_LIMIT), api.maxPages, pages, requests, ending)
                                      && listed == TaggedAll(pages)
    ensures |progress| == |listed| == |results|
    ensures forall k :: 0 <= k < |listed| ==> progress[k] == LegacyProgress(k + 1, listed[k].0, listed[k].1.name)
    ensures forall k :: 0 <= k < |listed| ==> LegacyOutcome(api, catalog, listed[k].1, Some(true), results[k])
    ensures ending.Failed? <==> r.Err?
    ensures ending.Failed? ==> r == Err(ending.reason)
    ensures ending == Exhausted ==> r == Ok(Present(results))
    ensures r.Ok? ==> |r.value| <= |listed|
    ensures r.Ok? ==> forall p :: p in r.value ==>
              && p.playlist.playlist in Items(listed)
              && p.playlist.playlist.ownerUri == api.user.uri
              && LegacyMatches(catalog, p.playlist.tracks, Some(true)) == Ok(p.replacements)
              && p.replacements != []
  {
    var yielded, requests, end;
    ghost var pages;
    yielded, requests, end, pages := GetAllUserPlaylists(api.listPlaylists, api.playlistsRemote, api.maxPages);
    listed, ending := yielded, end;
    var found;
    found, progress := ScanEach(api, catalog, yielded, Some(true));
    results := found;
    if end.Failed? {
      return Err(end.reason), progress, listed, ending, results;
    }
    PresentExactly(found);
    PresentAreOwnedMatches(api, catalog, yielded, Some(true), found);
    r := Ok(Present(found));
  }

  /** `scanUserPlaylists` of src/app/util.tsx: the first rejected scan, in
      launch order, rejects the whole scan; otherwise the found playlists. */
  method ScanUserPlaylistsRethrowing(api: LegacyApi, catalog: Catalog)
    returns (r: Result<seq<LegacyScanned>, Failure>, progress: seq<LegacyProgress>,
             ghost listed: seq<(nat, SimplifiedPlaylist)>, ghost ending: Ending,
             ghost results: seq<Settled<Option<LegacyScanned>>>)
    ensures exists pages, requests :: Walked(api.playlistsRemote, api.listPlaylists(PLAYLIST_PAGE_LIMIT), api.maxPages, pages, requests, ending)
                                      && listed == TaggedAll(pages)
    ensures |progress| == |listed| == |results|
    ensures forall k :: 0 <= k < |listed| ==> progress[k] == LegacyProgress(k + 1, listed[k].0, listed[k].1.name)
    ensures forall k :: 0 <= k < |listed| ==> LegacyOutcome(api, catalog, listed[k].1, None, results[k])
    ensures ending.Failed? ==> r == Err(ending.reason)
    ensures ending == Exhausted && FirstRejection(results).Some? ==> r == Err(FirstRejection(results).value)
    ensures ending == Exhausted && FirstRejection(results).None? ==> r == Ok(Present(results))
    ensures r.Ok? ==> forall p :: p in r.value ==>
              && p.playlist.playlist in Items(listed)
              && p.playlist.playlist.ownerUri == api.user.uri
              && LegacyMatches(catalog, p.playlist.tracks, None) == Ok(p.replacements)
              && p.replacements != []
  {
    var yielded, requests, end;
    ghost var pages;
    yielded, requests, end, pages := GetAllUserPlaylists(api.listPlaylists, api.playlistsRemote, api.maxPages);
    listed, ending := yielded, end;
    var found;
    found, progress := ScanEach(api, catalog, yielded, None);
    results := found;
    if end.Failed? {
      return Err(end.reason), progress, listed, ending, results;
    }
    PresentAreOwnedMatches(api, catalog, yielded, None, results);
    r := Rethrow(found);
  }

  /** The loop over the settled results: the first rejection, in launch
      order, is rethrown; otherwise the values found, in order. */
  method Rethrow(found: seq<Settled<Option<LegacyScanned>>>) returns (r: Result<seq<LegacyScanned>, Failure>)
    ensures FirstRejection(found).Some? ==> r == Err(FirstRejection(found).value)
    ensures FirstRejection(found).None? ==> r == Ok(Present(found))
  {
    var values: seq<LegacyScanned> := [];
    for i := 0 to |found|
      invariant FirstRejection(found[..i]).None?
      invariant values == Present(found[..i])
    {
      assert found[..i + 1][..i] == found[..i];
      FirstRejectionSnoc(found[..i], found[i]);
      assert found[..i] + [found[i]] == found[..i + 1];
      if found[i].Rejected? {
        FirstRejectionPrefix(found, i + 1);
        return Err(found[i].reason);
      }
      if found[i].value.Some? {
        values := values + [found[i].value.value];
      }
    }
    assert found[..|found|] == found;
    r := Ok(values);
  }

  /** Appending to a list without a rejection. */
  lemma {:induction false} FirstRejectionSnoc(results: seq<Settled<Option<LegacyScanned>>>, s: Settled<Option<LegacyScanned>>)
    requires FirstRejection(results).None?
    ensures FirstRejection(results + [s]) == (if s.Rejected? then Some(s.reason) else None)
    decreases |results|
  {
    if results != [] {
      assert (results + [s])[1..] == results[1..] + [s];
      FirstRejectionSnoc(results[1..], s);
    }
  }

  /** A rejection in a prefix is the first rejection of the whole list. */
  lemma {:induction false} FirstRejectionPrefix(results: seq<Settled<Option<LegacyScanned>>>, i: nat)
    requires i <= |results|
    requires FirstRejection(results[..i]).Some?
    ensures FirstRejection(results) == FirstRejection(results[..i])
    decreases i
  {
    if results[0].Fulfilled? {
      assert results[..i][1..] == results[1..][..i - 1];
      FirstRejectionPrefix(results[1..], i - 1);
    }
  }
}
