/** Cursor-following pagination and id batching against the Spotify Web API
    (src/api.ts; the same generator appears verbatim in src/api.tsx and
    scripts/fetchTaylorAlbums.ts). The remote is a function from the
    requested path to the page it returns, or to the reason it rejects. */
module Pagination {
  import opened Wrappers
  import opened Text
  import opened Types

  const SPOTIFY_ROOT_URL: string := "https://api.spotify.com/v1/"

  /** Page size used when listing the user's playlists. */
  const PLAYLIST_PAGE_LIMIT: nat := 50

  /** One page of a paginated collection. */
  datatype Page<T> = Page(items: seq<T>, total: nat, next: Option<string>)

  /** `spotify.makeRequest("GET", path)` for paths inside the API root. */
  type Remote<T> = string -> Result<Page<T>, Failure>

  /** How a walk over a paginated collection ended: every page consumed, or
      the generator threw. */
  datatype Ending = Exhausted | Failed(reason: Failure)

  // ---------------------------------------------------------------------
  // Specification of the generator's output

  /** The `{ total, item }` pairs yielded for one page. */
  function Tagged<T>(p: Page<T>): seq<(nat, T)> {
    seq(|p.items|, i requires 0 <= i < |p.items| => (p.total, p.items[i]))
  }

  /** The pairs yielded for a sequence of pages, page after page. */
  function TaggedAll<T>(pages: seq<Page<T>>): seq<(nat, T)> {
    if pages == [] then [] else TaggedAll(pages[..|pages| - 1]) + Tagged(pages[|pages| - 1])
  }

  /** The items of a sequence of pages, concatenated. */
  function ItemsOf<T>(pages: seq<Page<T>>): seq<T> {
    if pages == [] then [] else ItemsOf(pages[..|pages| - 1]) + pages[|pages| - 1].items
  }

  /** The items of a sequence of yielded pairs. */
  function Items<T>(pairs: seq<(nat, T)>): (r: seq<T>)
    ensures |r| == |pairs| && forall i :: 0 <= i < |pairs| ==> r[i] == pairs[i].1
  {
    seq(|pairs|, i requires 0 <= i < |pairs| => pairs[i].1)
  }

  /** The pages form a chain: the first is `first`, and each later page is
      what the remote returned for the cursor of the page before it, with
      the API root stripped. */
  ghost predicate IsChain<T>(remote: Remote<T>, first: Page<T>, pages: seq<Page<T>>, requests: seq<string>) {
    && |pages| >= 1 && pages[0] == first
    && |requests| >= |pages| - 1
    && forall k :: 0 <= k < |pages| - 1 ==>
         pages[k].next == Some(SPOTIFY_ROOT_URL + requests[k]) && remote(requests[k]) == Ok(pages[k + 1])
  }

  /** How the walk ended after its last page: no cursor (all consumed), a
      foreign cursor (thrown before any request for it), the bound on
      followed cursors, or one more request that the remote rejected. */
  ghost predicate EndsWith<T>(remote: Remote<T>, maxPages: nat, pages: seq<Page<T>>, requests: seq<string>, ending: Ending)
    requires |pages| >= 1
  {
    var last := pages[|pages| - 1];
    match last.next
    case None => ending == Exhausted && |requests| == |pages| - 1
    case Some(url) =>
      if !StartsWith(url, SPOTIFY_ROOT_URL) then
        ending == Failed(UnexpectedNextUrl(url)) && |requests| == |pages| - 1
      else if |pages| - 1 == maxPages then
        ending == Failed(PageLimitReached) && |requests| == |pages| - 1
      else
        && |requests| == |pages|
        && SPOTIFY_ROOT_URL + requests[|pages| - 1] == url
        && remote(requests[|pages| - 1]).Err?
        && ending == Failed(remote(requests[|pages| - 1]).error)
  }

  /** The complete description of one walk: the pages read, the paths
      requested after the first response, and how it ended. */
  ghost predicate Walked<T>(remote: Remote<T>, firstResponse: Result<Page<T>, Failure>, maxPages: nat,
                            pages: seq<Page<T>>, requests: seq<string>, ending: Ending)
  {
    match firstResponse
    case Err(e) => pages == [] && requests == [] && ending == Failed(e)
    case Ok(first) =>
      && IsChain(remote, first, pages, requests)
      && |pages| - 1 <= maxPages
      && EndsWith(remote, maxPages, pages, requests, ending)
  }

  // ---------------------------------------------------------------------
  // The generator

  /** `getPaginatedItems(spotify, firstResponse)` consumed to the end: the
      pairs it yields, the paths it requests, and whether it finished or
      threw. `maxPages` bounds the number of cursors followed (the source
      has no bound; a remote that cycles would make it run forever). */
  method GetPaginatedItems<T>(remote: Remote<T>, firstResponse: Result<Page<T>, Failure>, maxPages: nat)
    returns (yielded: seq<(nat, T)>, requests: seq<string>, ending: Ending, ghost pages: seq<Page<T>>)
    ensures Walked(remote, firstResponse, maxPages, pages, requests, ending)
    ensures yielded == TaggedAll(pages)
  {
    if firstResponse.Err? {
      return [], [], Failed(firstResponse.error), [];
    }
    var resp := firstResponse.value;
    yielded, requests, pages := Tagged(resp), [], [resp];
    assert pages[..0] == [];
    while resp.next.Some?
      invariant IsChain(remote, firstResponse.value, pages, requests)
      invariant |requests| == |pages| - 1 <= maxPages
      invariant resp == pages[|pages| - 1]
      invariant yielded == TaggedAll(pages)
      decreases maxPages - |requests|
    {
      var url := resp.next.value;
      if !StartsWith(url, SPOTIFY_ROOT_URL) {
        ending := Failed(UnexpectedNextUrl(url));
        return;
      }
      if |requests| == maxPages {
        ending := Failed(PageLimitReached);
        return;
      }
      var path := url[|SPOTIFY_ROOT_URL|..];
      assert SPOTIFY_ROOT_URL + path == url;
      requests := requests + [path];
      var response := remote(path);
      if response.Err? {
        ending := Failed(response.error);
        return;
      }
      resp := response.value;
      assert (pages + [resp])[..|pages|] == pages;
      pages := pages + [resp];
      yielded := yielded + Tagged(resp);
    }
    ending := Exhausted;
  }

  /** The number of items on the pages before page `j`. */
  function Offset<T>(pages: seq<Page<T>>, j: nat): nat
    requires j <= |pages|
  {
    |ItemsOf(pages[..j])|
  }

  /** The yielded items are exactly the pages' items, concatenated in page order. */
  lemma {:induction false} TaggedAllItems<T>(pages: seq<Page<T>>)
    ensures Items(TaggedAll(pages)) == ItemsOf(pages)
    decreases |pages|
  {
    if pages != [] {
      var init := pages[..|pages| - 1];
      TaggedAllItems(init);
      assert Items(TaggedAll(pages)) == Items(TaggedAll(init)) + pages[|pages| - 1].items;
    }
  }

  /** Item `i` of page `j` is yielded at index `Offset(pages, j) + i`,
      paired with the total of page `j` (not of the first page). */
  lemma {:induction false} TaggedAllAt<T>(pages: seq<Page<T>>, j: nat, i: nat)
    requires j < |pages| && i < |pages[j].items|
    ensures Offset(pages, j) + i < |TaggedAll(pages)|
    ensures TaggedAll(pages)[Offset(pages, j) + i] == (pages[j].total, pages[j].items[i])
    decreases |pages|
  {
    var n := |pages|;
    var init := pages[..n - 1];
    TaggedAllItems(init);
    TaggedAllItems(pages);
    if j == n - 1 {
      assert pages[..j] == init;
    } else {
      assert init[..j] == pages[..j];
      TaggedAllAt(init, j, i);
    }
  }

  /** Every accepted cursor was requested as its path below the API root. */
  lemma ChainRequests<T>(remote: Remote<T>, first: Page<T>, pages: seq<Page<T>>, requests: seq<string>, k: nat)
    requires IsChain(remote, first, pages, requests) && k < |pages| - 1
    ensures StartsWith(pages[k].next.value, SPOTIFY_ROOT_URL)
    ensures requests[k] == pages[k].next.value[|SPOTIFY_ROOT_URL|..]
  {
    var url := pages[k].next.value;
    assert url == SPOTIFY_ROOT_URL + requests[k];
    assert url[..|SPOTIFY_ROOT_URL|] == SPOTIFY_ROOT_URL;
  }

  /** A foreign cursor ends the walk with that cursor's error, after every
      item of the pages already read was yielded and with no request for it. */
  lemma ForeignCursorThrows<T>(remote: Remote<T>, firstResponse: Result<Page<T>, Failure>, maxPages: nat,
                               pages: seq<Page<T>>, requests: seq<string>, ending: Ending)
    requires Walked(remote, firstResponse, maxPages, pages, requests, ending)
    requires firstResponse.Ok?
    requires pages[|pages| - 1].next.Some? && !StartsWith(pages[|pages| - 1].next.value, SPOTIFY_ROOT_URL)
    ensures ending == Failed(UnexpectedNextUrl(pages[|pages| - 1].next.value))
    ensures |requests| == |pages| - 1
    ensures forall k :: 0 <= k < |requests| ==> StartsWith(SPOTIFY_ROOT_URL + requests[k], SPOTIFY_ROOT_URL)
  {
    forall k | 0 <= k < |requests| ensures StartsWith(SPOTIFY_ROOT_URL + requests[k], SPOTIFY_ROOT_URL) {
      assert (SPOTIFY_ROOT_URL + requests[k])[..|SPOTIFY_ROOT_URL|] == SPOTIFY_ROOT_URL;
    }
  }

  // ---------------------------------------------------------------------
  // Listing helpers built on the generator

  /** `getAllUserPlaylists` (src/api.ts) / `getAllUsersPlaylists`
      (src/api.tsx): the user's playlists, first page of size 50. */
  method GetAllUserPlaylists(listPlaylists: nat -> Result<Page<SimplifiedPlaylist>, Failure>,
                             remote: Remote<SimplifiedPlaylist>, maxPages: nat)
    returns (yielded: seq<(nat, SimplifiedPlaylist)>, requests: seq<string>, ending: Ending,
             ghost pages: seq<Page<SimplifiedPlaylist>>)
    ensures Walked(remote, listPlaylists(PLAYLIST_PAGE_LIMIT), maxPages, pages, requests, ending)
    ensures yielded == TaggedAll(pages)
  {
    yielded, requests, ending, pages := GetPaginatedItems(remote, listPlaylists(PLAYLIST_PAGE_LIMIT), maxPages);
  }

  /** The SDK's field filter for a playlist's items. */
  function ItemsFilter(itemFields: Option<string>): string {
    "total,next,items(" + itemFields.GetOr("") + ")"
  }

  /** `getPlaylistWithTracks` of src/api.ts: every item of the playlist, in
      order, collected from the pages of
      `getPlaylistItems(id, undefined, "total,next,items(<fields>)")`.
      The collecting loop rethrows whatever the generator throws. */
  method GetPlaylistWithTracks(getPlaylistItems: (string, string) -> Result<Page<PlaylistedTrack>, Failure>,
                               remote: Remote<PlaylistedTrack>, playlist: SimplifiedPlaylist,
                               itemFields: Option<string>, maxPages: nat)
    returns (r: Result<PlaylistWithTracks, Failure>, requests: seq<string>, ghost pages: seq<Page<PlaylistedTrack>>)
    ensures exists ending :: Walked(remote, getPlaylistItems(playlist.id, ItemsFilter(itemFields)), maxPages, pages, requests, ending)
                             && (ending == Exhausted <==> r.Ok?)
                             && (ending.Failed? ==> r == Err(ending.reason))
    ensures r.Ok? ==> r.value == PlaylistWithTracks(playlist, ItemsOf(pages))
  {
    var yielded, ending;
    yielded, requests, ending, pages := GetPaginatedItems(remote, getPlaylistItems(playlist.id, ItemsFilter(itemFields)), maxPages);
    if ending.Failed? {
      return Err(ending.reason), requests, pages;
    }
    TaggedAllItems(pages);
    r := Ok(PlaylistWithTracks(playlist, Items(yielded)));
  }

  /** `getPlaylistWithTracks` of src/api.tsx: the playlist's `tracks.href`
      must lie inside the API root, otherwise it throws before any request;
      the first request is that href with the root stripped. */
  method GetPlaylistWithTracksByHref(remote: Remote<PlaylistedTrack>, playlist: SimplifiedPlaylist, maxPages: nat)
    returns (r: Result<PlaylistWithTracks, Failure>, requests: seq<string>, ghost pages: seq<Page<PlaylistedTrack>>)
    ensures !StartsWith(playlist.tracksHref, SPOTIFY_ROOT_URL) ==>
              r == Err(UnexpectedHref(playlist.tracksHref)) && requests == []
    ensures StartsWith(playlist.tracksHref, SPOTIFY_ROOT_URL) ==>
              && |requests| >= 1
              && SPOTIFY_ROOT_URL + requests[0] == playlist.tracksHref
              && exists ending :: Walked(remote, remote(requests[0]), maxPages, pages, requests[1..], ending)
                                  && (ending == Exhausted <==> r.Ok?)
                                  && (ending.Failed? ==> r == Err(ending.reason))
    ensures r.Ok? ==> r.value == PlaylistWithTracks(playlist, ItemsOf(pages))
  {
    var href := playlist.tracksHref;
    if !StartsWith(href, SPOTIFY_ROOT_URL) {
      return Err(UnexpectedHref(href)), [], [];
    }
    var path := href[|SPOTIFY_ROOT_URL|..];
    assert SPOTIFY_ROOT_URL + path == href;
    var yielded, followed, ending;
    yielded, followed, ending, pages := GetPaginatedItems(remote, remote(path), maxPages);
    requests := [path] + followed;
    assert requests[1..] == followed;
    if ending.Failed? {
      return Err(ending.reason), requests, pages;
    }
    TaggedAllItems(pages);
    r := Ok(PlaylistWithTracks(playlist, Items(yielded)));
  }

  // ---------------------------------------------------------------------
  // Batching

  /** `s.slice(offset, offset + n)` for every `offset = 0, n, 2n, ...` below `|s|`. */
  function ChunksFrom<T>(s: seq<T>, n: nat, offset: nat): seq<seq<T>>
    requires n > 0
    decreases |s| - offset
  {
    if offset >= |s| then []
    else [s[offset..if offset + n <= |s| then offset + n else |s|]] + ChunksFrom(s, n, offset + n)
  }

  function Chunks<T>(s: seq<T>, n: nat): seq<seq<T>>
    requires n > 0
  {
    ChunksFrom(s, n, 0)
  }

  /** Concatenation of a sequence of sequences. */
  function Flatten<T>(ss: seq<seq<T>>): seq<T> {
    if ss == [] then [] else Flatten(ss[..|ss| - 1]) + ss[|ss| - 1]
  }

  lemma {:induction false} FlattenConcat<T>(a: seq<seq<T>>, b: seq<seq<T>>)
    ensures Flatten(a + b) == Flatten(a) + Flatten(b)
    decreases |b|
  {
    if b != [] {
      var b' := b[..|b| - 1];
      assert (a + b)[..|a + b| - 1] == a + b';
      FlattenConcat(a, b');
    } else {
      assert a + b == a;
    }
  }

  /** Together the chunks are `s[offset..]`. */
  lemma {:induction false} ChunksFromFlatten<T>(s: seq<T>, n: nat, offset: nat)
    requires n > 0 && offset <= |s|
    ensures Flatten(ChunksFrom(s, n, offset)) == s[offset..]
    decreases |s| - offset
  {
    if offset < |s| {
      ChunksFromStep(s, n, offset);
      if offset + n <= |s| {
        ChunksFromFlatten(s, n, offset + n);
        assert s[offset..] == s[offset..offset + n] + s[offset + n..];
      }
    }
  }

  /** Flattening peels off the first chunk. */
  lemma ChunksFromStep<T>(s: seq<T>, n: nat, offset: nat)
    requires n > 0 && offset < |s|
    ensures offset + n <= |s| ==> Flatten(ChunksFrom(s, n, offset)) == s[offset..offset + n] + Flatten(ChunksFrom(s, n, offset + n))
    ensures offset + n > |s| ==> Flatten(ChunksFrom(s, n, offset)) == s[offset..]
  {
    var c := s[offset..if offset + n <= |s| then offset + n else |s|];
    var rest := ChunksFrom(s, n, offset + n);
    assert Flatten([c]) == c by { assert [c][..0] == []; }
    FlattenConcat([c], rest);
  }

  /** Every chunk is non-empty and at most `n` long. */
  lemma {:induction false} ChunksFromBounds<T>(s: seq<T>, n: nat, offset: nat)
    requires n > 0
    ensures forall k :: 0 <= k < |ChunksFrom(s, n, offset)| ==> 0 < |ChunksFrom(s, n, offset)[k]| <= n
    decreases |s| - offset
  {
    if offset < |s| {
      ChunksFromBounds(s, n, offset + n);
    }
  }

  /** There are `ceil((|s| - offset) / n)` chunks: the least count `c` with
      `c * n >= |s| - offset`. */
  lemma {:induction false} ChunksFromCount<T>(s: seq<T>, n: nat, offset: nat)
    requires n > 0 && offset <= |s|
    ensures var c := |ChunksFrom(s, n, offset)|; (c - 1) * n < |s| - offset <= c * n
    decreases |s| - offset
  {
    if offset < |s| {
      var c := |ChunksFrom(s, n, offset)|;
      if offset + n <= |s| {
        ChunksFromCount(s, n, offset + n);
        assert c * n == (c - 1) * n + n;
        assert (c - 1) * n == (c - 2) * n + n;
      } else {
        assert ChunksFrom(s, n, offset + n) == [];
        assert c == 1;
      }
    }
  }

  lemma ChunksProperties<T>(s: seq<T>, n: nat)
    requires n > 0
    ensures Flatten(Chunks(s, n)) == s
    ensures forall k :: 0 <= k < |Chunks(s, n)| ==> 0 < |Chunks(s, n)[k]| <= n
    ensures (|Chunks(s, n)| - 1) * n < |s| <= |Chunks(s, n)| * n
    ensures s == [] <==> Chunks(s, n) == []
  {
    ChunksFromFlatten(s, n, 0);
    ChunksFromBounds(s, n, 0);
    ChunksFromCount(s, n, 0);
  }

  /** The URI of a track id, `spotify:track:<id>`. */
  function TrackUri(id: string): string {
    TRACK_URI_PREFIX + id
  }

  const TRACK_URI_PREFIX: string := "spotify:track:"

  /** The URIs sent for a list of track ids. */
  function TrackUris(ids: seq<string>): (uris: seq<string>)
    ensures |uris| == |ids|
  {
    seq(|ids|, i requires 0 <= i < |ids| => TrackUri(ids[i]))
  }

  /** One call of `playlists.removeItemsFromPlaylist`. */
  datatype RemoveCall = RemoveCall(playlistId: string, uris: seq<string>, snapshotId: Option<string>)

  /** The calls issued for the given chunks; `snapshot_id` is never passed. */
  function RemoveCalls(playlistId: string, chunks: seq<seq<string>>): seq<RemoveCall> {
    seq(|chunks|, k requires 0 <= k < |chunks| => RemoveCall(playlistId, TrackUris(chunks[k]), None))
  }

  /** Batching limit of the remove endpoint. */
  const REMOVE_BATCH: nat := 100

  /** Batching limit of the track lookup endpoint. */
  const TRACKS_BATCH: nat := 50

  /** `removeItemsFromPlaylist`: one call per chunk of at most 100 ids,
      all issued before any is awaited; `Promise.all` rejects when any of
      them rejects. `remove` says which calls the remote accepts. */
  method RemoveItemsFromPlaylist(remove: RemoveCall -> bool, playlistId: string, trackIds: seq<string>)
    returns (calls: seq<RemoveCall>, ok: bool)
    ensures calls == RemoveCalls(playlistId, Chunks(trackIds, REMOVE_BATCH))
    ensures ok <==> forall k :: 0 <= k < |calls| ==> remove(calls[k])
  {
    calls := [];
    var offset := 0;
    while offset < |trackIds|
      invariant RemoveCalls(playlistId, Chunks(trackIds, REMOVE_BATCH))
                == calls + RemoveCalls(playlistId, ChunksFrom(trackIds, REMOVE_BATCH, offset))
      decreases |trackIds| - offset
    {
      var end := if offset + REMOVE_BATCH <= |trackIds| then offset + REMOVE_BATCH else |trackIds|;
      var chunk := trackIds[offset..end];
      ghost var rest := ChunksFrom(trackIds, REMOVE_BATCH, offset + REMOVE_BATCH);
      assert RemoveCalls(playlistId, [chunk] + rest)
             == [RemoveCall(playlistId, TrackUris(chunk), None)] + RemoveCalls(playlistId, rest);
      calls := calls + [RemoveCall(playlistId, TrackUris(chunk), None)];
      offset := offset + REMOVE_BATCH;
    }
    assert ChunksFrom(trackIds, REMOVE_BATCH, offset) == [];
    ok := true;
    var k := 0;
    while k < |calls|
      invariant 0 <= k <= |calls|
      invariant ok <==> forall j :: 0 <= j < k ==> remove(calls[j])
    {
      ok := ok && remove(calls[k]);
      k := k + 1;
    }
  }

  /** The removal calls for `trackIds` send every id exactly once, in order,
      as `spotify:track:<id>`, at most 100 per call, in ceil(n / 100) calls
      (none for an empty list), and never pass `snapshot_id`. */
  lemma RemoveCallsProperties(playlistId: string, trackIds: seq<string>)
    ensures var calls := RemoveCalls(playlistId, Chunks(trackIds, REMOVE_BATCH));
      && (|calls| - 1) * REMOVE_BATCH < |trackIds| <= |calls| * REMOVE_BATCH
      && (trackIds == [] <==> calls == [])
      && (forall k :: 0 <= k < |calls| ==> calls[k].playlistId == playlistId && calls[k].snapshotId == None
                                           && 0 < |calls[k].uris| <= REMOVE_BATCH)
      && Flatten(seq(|calls|, k requires 0 <= k < |calls| => calls[k].uris)) == TrackUris(trackIds)
  {
    var chunks := Chunks(trackIds, REMOVE_BATCH);
    ChunksProperties(trackIds, REMOVE_BATCH);
    var calls := RemoveCalls(playlistId, chunks);
    var uris := seq(|calls|, k requires 0 <= k < |calls| => calls[k].uris);
    assert uris == seq(|chunks|, k requires 0 <= k < |chunks| => TrackUris(chunks[k]));
    FlattenMap(chunks);
  }

  /** Mapping ids to URIs commutes with concatenation. */
  lemma {:induction false} FlattenMap(chunks: seq<seq<string>>)
    ensures Flatten(seq(|chunks|, k requires 0 <= k < |chunks| => TrackUris(chunks[k]))) == TrackUris(Flatten(chunks))
    decreases |chunks|
  {
    if chunks != [] {
      var init := chunks[..|chunks| - 1];
      var mapped := seq(|chunks|, k requires 0 <= k < |chunks| => TrackUris(chunks[k]));
      assert mapped[..|mapped| - 1] == seq(|init|, k requires 0 <= k < |init| => TrackUris(init[k]));
      FlattenMap(init);
      assert TrackUris(Flatten(init) + chunks[|chunks| - 1]) == TrackUris(Flatten(init)) + TrackUris(chunks[|chunks| - 1]);
    }
  }

  /** `spotify.tracks.get(ids)`: the tracks for up to 50 ids, null for ids it does not know. */
  type TracksGet = seq<string> -> Result<seq<Option<Track>>, Failure>

  /** The remote answers every lookup with one entry per requested id. */
  ghost predicate OnePerId(tracksGet: TracksGet) {
    forall ids :: tracksGet(ids).Ok? ==> |tracksGet(ids).value| == |ids|
  }

  /** The concatenated responses to a sequence of accepted lookups. */
  function Responses(tracksGet: TracksGet, calls: seq<seq<string>>): seq<Option<Track>>
    requires forall k :: 0 <= k < |calls| ==> tracksGet(calls[k]).Ok?
  {
    if calls == [] then []
    else Responses(tracksGet, calls[..|calls| - 1]) + tracksGet(calls[|calls| - 1]).value
  }

  /** One more accepted request appends its response. */
  lemma ResponsesSnoc(tracksGet: TracksGet, calls: seq<seq<string>>, chunk: seq<string>)
    requires forall k :: 0 <= k < |calls| ==> tracksGet(calls[k]).Ok?
    requires tracksGet(chunk).Ok?
    ensures forall k :: 0 <= k < |calls + [chunk]| ==> tracksGet((calls + [chunk])[k]).Ok?
    ensures Responses(tracksGet, calls + [chunk]) == Responses(tracksGet, calls) + tracksGet(chunk).value
  {
    assert (calls + [chunk])[..|calls|] == calls;
  }

  /** With one entry per id, the concatenated responses are as long as the
      concatenated requests. */
  lemma {:induction false} ResponsesLength(tracksGet: TracksGet, calls: seq<seq<string>>)
    requires OnePerId(tracksGet)
    requires forall k :: 0 <= k < |calls| ==> tracksGet(calls[k]).Ok?
    ensures |Responses(tracksGet, calls)| == |Flatten(calls)|
    decreases |calls|
  {
    if calls != [] {
      ResponsesLength(tracksGet, calls[..|calls| - 1]);
    }
  }

  /** `getTracks`: the ids are looked up in consecutive chunks of at most 50,
      one awaited request after the other; the first rejected request makes
      it throw, otherwise the result is the responses concatenated in order. */
  method GetTracks(tracksGet: TracksGet, ids: seq<string>)
    returns (r: Result<seq<Option<Track>>, Failure>, calls: seq<seq<string>>)
    ensures |calls| <= |Chunks(ids, TRACKS_BATCH)| && calls == Chunks(ids, TRACKS_BATCH)[..|calls|]
    ensures forall k :: 0 <= k < |calls| - 1 ==> tracksGet(calls[k]).Ok?
    ensures r.Ok? ==> && calls == Chunks(ids, TRACKS_BATCH)
                      && (forall k :: 0 <= k < |calls| ==> tracksGet(calls[k]).Ok?)
                      && r.value == Responses(tracksGet, calls)
    ensures r.Err? ==> |calls| > 0 && tracksGet(calls[|calls| - 1]) == Err(r.error)
  {
    var tracks: seq<Option<Track>> := [];
    calls := [];
    var offset := 0;
    ghost var all := Chunks(ids, TRACKS_BATCH);
    while offset < |ids|
      invariant all == calls + ChunksFrom(ids, TRACKS_BATCH, offset)
      invariant forall k :: 0 <= k < |calls| ==> tracksGet(calls[k]).Ok?
      invariant tracks == Responses(tracksGet, calls)
      decreases |ids| - offset
    {
      var end := if offset + TRACKS_BATCH <= |ids| then offset + TRACKS_BATCH else |ids|;
      var chunk := ids[offset..end];
      assert ChunksFrom(ids, TRACKS_BATCH, offset) == [chunk] + ChunksFrom(ids, TRACKS_BATCH, offset + TRACKS_BATCH);
      var response := tracksGet(chunk);
      assert all == (calls + [chunk]) + ChunksFrom(ids, TRACKS_BATCH, offset + TRACKS_BATCH);
      if response.Err? {
        calls := calls + [chunk];
        assert calls == all[..|calls|];
        return Err(response.error), calls;
      }
      ResponsesSnoc(tracksGet, calls, chunk);
      calls := calls + [chunk];
      tracks := tracks + response.value;
      offset := offset + TRACKS_BATCH;
    }
    assert calls == all;
    r := Ok(tracks);
  }

  /** With one entry per id, `getTracks` returns one entry per requested id. */
  lemma GetTracksLength(tracksGet: TracksGet, ids: seq<string>)
    requires OnePerId(tracksGet)
    requires forall k :: 0 <= k < |Chunks(ids, TRACKS_BATCH)| ==> tracksGet(Chunks(ids, TRACKS_BATCH)[k]).Ok?
    ensures |Responses(tracksGet, Chunks(ids, TRACKS_BATCH))| == |ids|
  {
    ResponsesLength(tracksGet, Chunks(ids, TRACKS_BATCH));
    ChunksProperties(ids, TRACKS_BATCH);
  }
}
