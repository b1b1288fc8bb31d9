/** Scanning the user's playlists for stolen recordings (src/app/scan.ts):
    every playlist the user owns is read in full and each slot holding a
    track whose ISRC is a catalog key becomes a match. */
module Scan {
  import opened Wrappers
  import opened Types
  import opened Pagination

  /** The fields requested for every playlist item while scanning. */
  const SCAN_ITEM_FIELDS: string :=
    "track(album(external_urls.spotify,images,name),external_ids.isrc,external_urls.spotify,href,id,name,type)"

  /** The remote calls a scan makes, as functions of their arguments.
      `profile` is the single answer of `currentUser.profile()`; `maxPages`
      bounds the cursors followed by each paginated walk. */
  datatype ScanApi = ScanApi(
    profile: Result<User, Failure>,
    listPlaylists: nat -> Result<Page<SimplifiedPlaylist>, Failure>,
    playlistsRemote: Remote<SimplifiedPlaylist>,
    getPlaylistItems: (string, string) -> Result<Page<PlaylistedTrack>, Failure>,
    itemsRemote: Remote<PlaylistedTrack>,
    maxPages: nat)

  // ---------------------------------------------------------------------
  // Matching slots against the catalog

  /** A slot is matched when it holds a track (not an episode, not null)
      whose ISRC is a catalog key. */
  predicate IsMatchSlot(catalog: Catalog, slot: PlaylistedTrack) {
    slot.track.Some? && slot.track.value.kind == "track" && slot.track.value.isrc in catalog
  }

  /** The match recorded for the matched slot at 0-based index `i`. */
  function MatchAt(catalog: Catalog, slot: PlaylistedTrack, i: nat): StolenTrack
    requires IsMatchSlot(catalog, slot)
  {
    StolenTrack(i + 1, slot.track.value, catalog[slot.track.value.isrc])
  }

  /** The matches of a playlist's slots, in slot order. */
  function Matches(catalog: Catalog, tracks: seq<PlaylistedTrack>): seq<StolenTrack> {
    if tracks == [] then []
    else
      var i := |tracks| - 1;
      Matches(catalog, tracks[..i]) + (if IsMatchSlot(catalog, tracks[i]) then [MatchAt(catalog, tracks[i], i)] else [])
  }

  /** Each match is the matched slot at its 1-based position, with the
      catalog's value for the track's ISRC. */
  ghost predicate MatchesSound(catalog: Catalog, tracks: seq<PlaylistedTrack>, r: seq<StolenTrack>) {
    forall k :: 0 <= k < |r| ==>
      && 1 <= r[k].position <= |tracks|
      && IsMatchSlot(catalog, tracks[r[k].position - 1])
      && r[k] == MatchAt(catalog, tracks[r[k].position - 1], r[k].position - 1)
  }

  /** Positions strictly increase. */
  ghost predicate MatchesOrdered(r: seq<StolenTrack>) {
    forall k, l :: 0 <= k < l < |r| ==> r[k].position < r[l].position
  }

  /** Every matched slot has a match at its position. */
  ghost predicate MatchesComplete(catalog: Catalog, tracks: seq<PlaylistedTrack>, r: seq<StolenTrack>) {
    forall i :: 0 <= i < |tracks| && IsMatchSlot(catalog, tracks[i]) ==>
      exists k :: 0 <= k < |r| && r[k].position == i + 1
  }

  ghost predicate ValidMatches(catalog: Catalog, tracks: seq<PlaylistedTrack>, r: seq<StolenTrack>) {
    |r| <= |tracks| && MatchesSound(catalog, tracks, r) && MatchesOrdered(r) && MatchesComplete(catalog, tracks, r)
  }

  /** The matches of a prefix are a prefix of the matches. */
  lemma MatchesStep(catalog: Catalog, tracks: seq<PlaylistedTrack>)
    requires tracks != []
    ensures var i := |tracks| - 1;
            Matches(catalog, tracks)
            == Matches(catalog, tracks[..i]) + (if IsMatchSlot(catalog, tracks[i]) then [MatchAt(catalog, tracks[i], i)] else [])
  {
  }

  lemma {:induction false} MatchesSoundAndLength(catalog: Catalog, tracks: seq<PlaylistedTrack>)
    ensures |Matches(catalog, tracks)| <= |tracks|
    ensures MatchesSound(catalog, tracks, Matches(catalog, tracks))
    decreases |tracks|
  {
    if tracks != [] {
      var i := |tracks| - 1;
      var init := tracks[..i];
      MatchesSoundAndLength(catalog, init);
      var m := Matches(catalog, init);
      MatchesStep(catalog, tracks);
      forall k | 0 <= k < |m| ensures tracks[m[k].position - 1] == init[m[k].position - 1] {
      }
    }
  }

  lemma {:induction false} MatchesPositionsOrdered(catalog: Catalog, tracks: seq<PlaylistedTrack>)
    ensures MatchesOrdered(Matches(catalog, tracks))
    decreases |tracks|
  {
    if tracks != [] {
      var i := |tracks| - 1;
      MatchesPositionsOrdered(catalog, tracks[..i]);
      MatchesSoundAndLength(catalog, tracks[..i]);
      MatchesStep(catalog, tracks);
    }
  }

  lemma {:induction false} MatchesCover(catalog: Catalog, tracks: seq<PlaylistedTrack>)
    ensures MatchesComplete(catalog, tracks, Matches(catalog, tracks))
    decreases |tracks|
  {
    if tracks != [] {
      var i := |tracks| - 1;
      var init := tracks[..i];
      MatchesCover(catalog, init);
      MatchesStep(catalog, tracks);
      var m := Matches(catalog, init);
      var r := Matches(catalog, tracks);
      forall j | 0 <= j < |tracks| && IsMatchSlot(catalog, tracks[j])
        ensures exists k :: 0 <= k < |r| && r[k].position == j + 1
      {
        if j < i {
          assert init[j] == tracks[j];
          var k :| 0 <= k < |m| && m[k].position == j + 1;
          assert r[k] == m[k];
        } else {
          assert r[|m|].position == j + 1;
        }
      }
    }
  }

  /** `Matches` is exactly the valid match list: sound, ordered, complete. */
  lemma MatchesValid(catalog: Catalog, tracks: seq<PlaylistedTrack>)
    ensures ValidMatches(catalog, tracks, Matches(catalog, tracks))
  {
    MatchesSoundAndLength(catalog, tracks);
    MatchesPositionsOrdered(catalog, tracks);
    MatchesCover(catalog, tracks);
  }

  /** No matches exactly when no slot is matched. */
  lemma {:induction false} NoMatchesIff(catalog: Catalog, tracks: seq<PlaylistedTrack>)
    ensures Matches(catalog, tracks) == [] <==> forall i :: 0 <= i < |tracks| ==> !IsMatchSlot(catalog, tracks[i])
    decreases |tracks|
  {
    if tracks != [] {
      var n := |tracks| - 1;
      NoMatchesIff(catalog, tracks[..n]);
      MatchesStep(catalog, tracks);
      assert forall i :: 0 <= i < n ==> tracks[..n][i] == tracks[i];
    }
  }

  /** `getTrackReplacements(tracks)`: one pass over the slots, pushing a
      match for every matched slot. */
  method GetTrackReplacements(catalog: Catalog, tracks: seq<PlaylistedTrack>) returns (replacements: seq<StolenTrack>)
    ensures replacements == Matches(catalog, tracks)
    ensures ValidMatches(catalog, tracks, replacements)
  {
    replacements := [];
    for i := 0 to |tracks|
      invariant replacements == Matches(catalog, tracks[..i])
    {
      assert tracks[..i + 1][..i] == tracks[..i];
      var t := tracks[i];
      if t.track.Some? && t.track.value.kind == "track" {
        var track := t.track.value;
        if track.isrc in catalog {
          replacements := replacements + [StolenTrack(i + 1, track, catalog[track.isrc])];
        }
      }
    }
    assert tracks[..|tracks|] == tracks;
    MatchesValid(catalog, tracks);
  }

  // ---------------------------------------------------------------------
  // Scanning one playlist

  /** A playlist with its matches, or nothing when it has none. */
  function Found(catalog: Catalog, p: PlaylistWithTracks): (r: Option<ScannedPlaylist>)
    ensures r.Some? <==> Matches(catalog, p.tracks) != []
    ensures r.Some? ==> r.value.playlist == p && r.value.stolenTracks == Matches(catalog, p.tracks)
  {
    var m := Matches(catalog, p.tracks);
    if m == [] then None else Some(ScannedPlaylist(p, m))
  }

  /** What scanning `playlist` settles to: the profile's rejection; nothing
      for a playlist owned by someone else; otherwise the outcome of reading
      all of its items, a rejection with the walk's reason, or the found
      matches of the items read. */
  ghost predicate ScanOutcome(api: ScanApi, catalog: Catalog, playlist: SimplifiedPlaylist, s: Settled<Option<ScannedPlaylist>>) {
    match api.profile
    case Err(e) => s == Rejected(e)
    case Ok(user) =>
      if playlist.ownerUri != user.uri then s == Fulfilled(None)
      else exists pages: seq<Page<PlaylistedTrack>>, requests: seq<string>, ending: Ending ::
        && Walked(api.itemsRemote, api.getPlaylistItems(playlist.id, ItemsFilter(Some(SCAN_ITEM_FIELDS))),
                  api.maxPages, pages, requests, ending)
        && match ending
           case Failed(e) => s == Rejected(e)
           case Exhausted => s == Fulfilled(Found(catalog, PlaylistWithTracks(playlist, ItemsOf(pages))))
  }

  /** `scanPlaylist(playlist, total)`: awaits the profile, reads the items
      of an owned playlist, and settles to its matches if it has any. The
      progress event of the `finally` block is emitted by the caller. */
  method ScanPlaylist(api: ScanApi, catalog: Catalog, playlist: SimplifiedPlaylist)
    returns (s: Settled<Option<ScannedPlaylist>>)
    ensures ScanOutcome(api, catalog, playlist, s)
  {
    if api.profile.Err? {
      return Rejected(api.profile.error);
    }
    var user := api.profile.value;
    if playlist.ownerUri != user.uri {
      return Fulfilled(None);
    }
    var r, requests, pages := GetPlaylistWithTracks(api.getPlaylistItems, api.itemsRemote, playlist,
                                                    Some(SCAN_ITEM_FIELDS), api.maxPages);
    ghost var ending :| Walked(api.itemsRemote, api.getPlaylistItems(playlist.id, ItemsFilter(Some(SCAN_ITEM_FIELDS))),
                               api.maxPages, pages, requests, ending)
                        && (ending == Exhausted <==> r.Ok?) && (ending.Failed? ==> r == Err(ending.reason));
    if r.Err? {
      return Rejected(r.error);
    }
    var replacements := GetTrackReplacements(catalog, r.value.tracks);
    if |replacements| > 0 {
      s := Fulfilled(Some(ScannedPlaylist(r.value, replacements)));
    } else {
      s := Fulfilled(None);
    }
  }

  // ---------------------------------------------------------------------
  // Collecting the settled scans

  /** The non-null fulfilled values, in launch order. */
  function FulfilledValues(results: seq<Settled<Option<ScannedPlaylist>>>): seq<ScannedPlaylist> {
    if results == [] then []
    else
      var last := results[|results| - 1];
      FulfilledValues(results[..|results| - 1]) + (if last.Fulfilled? && last.value.Some? then [last.value.value] else [])
  }

  /** One error per rejected scan, paired with the playlist it was launched for. */
  function Rejections(playlists: seq<SimplifiedPlaylist>, results: seq<Settled<Option<ScannedPlaylist>>>): seq<ScanError>
    requires |playlists| == |results|
  {
    if results == [] then []
    else
      var n := |results| - 1;
      Rejections(playlists[..n], results[..n]) + (if results[n].Rejected? then [ScanError(playlists[n], results[n].reason)] else [])
  }

  /** Membership in both directions, and no result counted twice. */
  lemma CollectedExactly(playlists: seq<SimplifiedPlaylist>, results: seq<Settled<Option<ScannedPlaylist>>>)
    requires |playlists| == |results|
    ensures forall sp :: sp in FulfilledValues(results) <==>
              exists k :: 0 <= k < |results| && results[k] == Fulfilled(Some(sp))
    ensures forall e :: e in Rejections(playlists, results) <==>
              exists k :: 0 <= k < |results| && results[k] == Rejected(e.reason) && playlists[k] == e.playlist
    ensures |FulfilledValues(results)| + |Rejections(playlists, results)| <= |results|
  {
    FulfilledExactly(results);
    RejectionsExactly(playlists, results);
    CollectedCount(playlists, results);
  }

  lemma {:induction false} FulfilledExactly(results: seq<Settled<Option<ScannedPlaylist>>>)
    ensures forall sp :: sp in FulfilledValues(results) <==>
              exists k :: 0 <= k < |results| && results[k] == Fulfilled(Some(sp))
    decreases |results|
  {
    if results != [] {
      var n := |results| - 1;
      FulfilledExactly(results[..n]);
      assert forall k :: 0 <= k < n ==> results[..n][k] == results[k];
    }
  }

  lemma {:induction false} RejectionsExactly(playlists: seq<SimplifiedPlaylist>, results: seq<Settled<Option<ScannedPlaylist>>>)
    requires |playlists| == |results|
    ensures forall e :: e in Rejections(playlists, results) <==>
              exists k :: 0 <= k < |results| && results[k] == Rejected(e.reason) && playlists[k] == e.playlist
    decreases |results|
  {
    if results != [] {
      var n := |results| - 1;
      RejectionsExactly(playlists[..n], results[..n]);
      assert forall k :: 0 <= k < n ==> results[..n][k] == results[k] && playlists[..n][k] == playlists[k];
    }
  }

  lemma {:induction false} CollectedCount(playlists: seq<SimplifiedPlaylist>, results: seq<Settled<Option<ScannedPlaylist>>>)
    requires |playlists| == |results|
    ensures |FulfilledValues(results)| + |Rejections(playlists, results)| <= |results|
    decreases |results|
  {
    if results != [] {
      var n := |results| - 1;
      CollectedCount(playlists[..n], results[..n]);
    }
  }

  /** When every scan is rejected with the same reason, nothing is found
      and every playlist is reported with that reason, in order. */
  lemma {:induction false} AllRejected(playlists: seq<SimplifiedPlaylist>, results: seq<Settled<Option<ScannedPlaylist>>>, e: Failure)
    requires |playlists| == |results|
    requires forall k :: 0 <= k < |results| ==> results[k] == Rejected(e)
    ensures FulfilledValues(results) == []
    ensures Rejections(playlists, results) == seq(|playlists|, k requires 0 <= k < |playlists| => ScanError(playlists[k], e))
    decreases |results|
  {
    if results != [] {
      var n := |results| - 1;
      AllRejected(playlists[..n], results[..n], e);
      assert seq(|playlists|, k requires 0 <= k < |playlists| => ScanError(playlists[k], e))
             == seq(n, k requires 0 <= k < n => ScanError(playlists[..n][k], e)) + [ScanError(playlists[n], e)];
    }
  }

  /** The `results.forEach` of `scanUserPlaylists`. */
  method Collect(playlists: seq<SimplifiedPlaylist>, results: seq<Settled<Option<ScannedPlaylist>>>)
    returns (r: ScanResult)
    requires |playlists| == |results|
    ensures r == ScanResult(FulfilledValues(results), Rejections(playlists, results))
  {
    var scanned: seq<ScannedPlaylist> := [];
    var errors: seq<ScanError> := [];
    for i := 0 to |results|
      invariant scanned == FulfilledValues(results[..i])
      invariant errors == Rejections(playlists[..i], results[..i])
    {
      assert results[..i + 1][..i] == results[..i];
      assert playlists[..i + 1][..i] == playlists[..i];
      var result := results[i];
      if result.Fulfilled? {
        if result.value.Some? {
          scanned := scanned + [result.value.value];
        }
      } else {
        errors := errors + [ScanError(playlists[i], result.reason)];
      }
    }
    assert results[..|results|] == results;
    assert playlists[..|playlists|] == playlists;
    r := ScanResult(scanned, errors);
  }

  /** A found playlist is the scanned one, owned by the user, with the
      matches of its slots, and at least one of them. */
  lemma FoundIsOwnedMatch(api: ScanApi, catalog: Catalog, playlist: SimplifiedPlaylist, sp: ScannedPlaylist)
    requires ScanOutcome(api, catalog, playlist, Fulfilled(Some(sp)))
    ensures api.profile.Ok? && playlist.ownerUri == api.profile.value.uri
    ensures sp.Info() == playlist
    ensures sp.stolenTracks == Matches(catalog, sp.playlist.tracks) && sp.stolenTracks != []
  {
    var pages, requests, ending :| Walked(api.itemsRemote, api.getPlaylistItems(playlist.id, ItemsFilter(Some(SCAN_ITEM_FIELDS))),
                                          api.maxPages, pages, requests, ending)
                                   && match ending
                                      case Failed(e) => Fulfilled(Some(sp)) == Rejected(e)
                                      case Exhausted => Fulfilled(Some(sp)) == Fulfilled(Found(catalog, PlaylistWithTracks(playlist, ItemsOf(pages))));
  }

  /** What the collected result of settled scans says about each entry. */
  lemma CollectedFacts(api: ScanApi, catalog: Catalog, playlists: seq<SimplifiedPlaylist>,
                       results: seq<Settled<Option<ScannedPlaylist>>>)
    requires |playlists| == |results|
    requires forall k :: 0 <= k < |results| ==> ScanOutcome(api, catalog, playlists[k], results[k])
    ensures forall sp :: sp in FulfilledValues(results) ==>
              && sp.Info() in playlists
              && api.profile.Ok? && sp.Info().ownerUri == api.profile.value.uri
              && sp.stolenTracks == Matches(catalog, sp.playlist.tracks)
              && sp.stolenTracks != []
    ensures forall e :: e in Rejections(playlists, results) ==> e.playlist in playlists
    ensures |FulfilledValues(results)| + |Rejections(playlists, results)| <= |results|
    ensures api.profile.Err? ==>
              && FulfilledValues(results) == []
              && Rejections(playlists, results)
                 == seq(|playlists|, k requires 0 <= k < |playlists| => ScanError(playlists[k], api.profile.error))
  {
    CollectedExactly(playlists, results);
    forall sp | sp in FulfilledValues(results)
      ensures && sp.Info() in playlists
              && api.profile.Ok? && sp.Info().ownerUri == api.profile.value.uri
              && sp.stolenTracks == Matches(catalog, sp.playlist.tracks)
              && sp.stolenTracks != []
    {
      var k :| 0 <= k < |results| && results[k] == Fulfilled(Some(sp));
      FoundIsOwnedMatch(api, catalog, playlists[k], sp);
    }
    if api.profile.Err? {
      forall k | 0 <= k < |results| ensures results[k] == Rejected(api.profile.error) {
        assert ScanOutcome(api, catalog, playlists[k], results[k]);
      }
      AllRejected(playlists, results, api.profile.error);
    }
  }

  // ---------------------------------------------------------------------
  // The whole scan

  /** The `for await` loop of `scanUserPlaylists` with the progress each
      scan reports when it settles: the k-th scan reports `k + 1` of the
      total of the page its playlist came from. */
  method ScanEach(api: ScanApi, catalog: Catalog, yielded: seq<(nat, SimplifiedPlaylist)>)
    returns (playlists: seq<SimplifiedPlaylist>, results: seq<Settled<Option<ScannedPlaylist>>>, progress: seq<Progress>)
    ensures playlists == Items(yielded)
    ensures |results| == |progress| == |yielded|
    ensures forall k :: 0 <= k < |yielded| ==> ScanOutcome(api, catalog, playlists[k], results[k])
    ensures forall k :: 0 <= k < |yielded| ==> progress[k] == Progress(k + 1, yielded[k].0, yielded[k].1.name)
  {
    playlists, results, progress := [], [], [];
    for i := 0 to |yielded|
      invariant playlists == Items(yielded[..i])
      invariant |results| == |progress| == i
      invariant forall k :: 0 <= k < i ==> ScanOutcome(api, catalog, playlists[k], results[k])
      invariant forall k :: 0 <= k < i ==> progress[k] == Progress(k + 1, yielded[k].0, yielded[k].1.name)
    {
      var (total, item) := yielded[i];
      var s := ScanPlaylist(api, catalog, item);
      playlists := playlists + [item];
      results := results + [s];
      progress := progress + [Progress(i + 1, total, item.name)];
    }
    assert yielded[..|yielded|] == yielded;
  }

  /** `scanUserPlaylists`: lists the user's playlists, scans each one it
      yields, reports progress `k + 1` of the page's total after the k-th
      scan settles, and collects the results. A failure of the listing
      rejects the whole scan. */
  method ScanUserPlaylists(api: ScanApi, catalog: Catalog)
    returns (r: Result<ScanResult, Failure>, progress: seq<Progress>,
             ghost listed: seq<(nat, SimplifiedPlaylist)>, ghost requests: seq<string>,
             ghost ending: Ending, ghost pages: seq<Page<SimplifiedPlaylist>>,
             ghost results: seq<Settled<Option<ScannedPlaylist>>>)
    ensures Walked(api.playlistsRemote, api.listPlaylists(PLAYLIST_PAGE_LIMIT), api.maxPages, pages, requests, ending)
    ensures listed == TaggedAll(pages)
    ensures |progress| == |listed| == |results|
    ensures forall k :: 0 <= k < |listed| ==> progress[k] == Progress(k + 1, listed[k].0, listed[k].1.name)
    ensures forall k :: 0 <= k < |listed| ==> ScanOutcome(api, catalog, listed[k].1, results[k])
    ensures ending.Failed? <==> r.Err?
    ensures ending.Failed? ==> r == Err(ending.reason)
    ensures ending == Exhausted ==> r == Ok(ScanResult(FulfilledValues(results), Rejections(Items(listed), results)))
    ensures r.Ok? ==> |r.value.playlists| + |r.value.errors| <= |listed|
    ensures r.Ok? ==> forall sp :: sp in r.value.playlists ==>
              && sp.Info() in Items(listed)
              && api.profile.Ok? && sp.Info().ownerUri == api.profile.value.uri
              && sp.stolenTracks == Matches(catalog, sp.playlist.tracks)
              && sp.stolenTracks != []
    ensures r.Ok? ==> forall e :: e in r.value.errors ==> e.playlist in Items(listed)
    ensures r.Ok? && api.profile.Err? ==>
              r.value == ScanResult([], seq(|listed|, k requires 0 <= k < |listed| => ScanError(listed[k].1, api.profile.error)))
  {
    var yielded, reqs, end;
    yielded, reqs, end, pages := GetAllUserPlaylists(api.listPlaylists, api.playlistsRemote, api.maxPages);
    listed, requests, ending := yielded, reqs, end;
    var playlists, found;
    playlists, found, progress := ScanEach(api, catalog, yielded);
    results := found;
    if end.Failed? {
      return Err(end.reason), progress, listed, requests, ending, pages, results;
    }
    var collected := Collect(playlists, found);
    CollectedFacts(api, catalog, playlists, found);
    assert |Items(listed)| == |listed|;
    if api.profile.Err? {
      assert seq(|listed|, k requires 0 <= k < |listed| => ScanError(listed[k].1, api.profile.error))
             == seq(|playlists|, k requires 0 <= k < |playlists| => ScanError(playlists[k], api.profile.error));
    }
    r := Ok(collected);
  }
}
