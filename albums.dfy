/** The album collection of scripts/fetchTaylorAlbums.ts: the artist's
    albums, singles and compilations page by page, then thirteen albums
    fetched by id, then every album's tracks. */
module Albums {
  import opened Wrappers
  import opened Types
  import opened Pagination

  const TAYLOR_SWIFT_ID: string := "06HL4z0CvFAxyc27GXpf02"
  const MARKET: string := "US"
  const ALBUM_GROUPS: string := "album,single,compilation"
  const ALBUM_PAGE_LIMIT: nat := 50

  /** Albums missing from the artist listing, fetched one by one in this order. */
  const EXTRA_ALBUM_IDS: seq<string> := [
    "4j2syEjl3h1To8KbRgvmJn", "3x4gaf5IPyFQNrxZY07CXA", "5xd9LleY1wqsgKVTwLoXYI",
    "4Vs9aG0KwsHUCVhQ5kGgxv", "1iZR600UW2HCS3L7p5kNB8", "0XCoR1j5Sa2su9uDS9AScR",
    "1ZkjQ4WBB99Rq5eFGqENNX", "0VI6ZyP6Bw2XrEnzbHKdrt", "04Ki4xEu2JWsMVBWtx97TX",
    "4o0wVh13FT8batNO2tEar1", "5sZIjREu3s225wwqJkgsYV", "2Z2KdJE0nGGu0qdWA45mza",
    "1iab5rfjNpGhoPlFzPyp4k"]

  /** A simplified album; `albumGroup` is `album_group`. */
  datatype Album = Album(id: string, name: string, albumGroup: Option<string>)

  /** A simplified track of an album listing; only its id is used. */
  datatype SimplifiedTrack = SimplifiedTrack(id: string)

  /** An album with its full tracks, as written to the output file. */
  datatype FullAlbum = FullAlbum(album: Album, tracks: seq<Option<Track>>)

  /** `{ ...album, album_group: null }` */
  function Ungrouped(a: Album): (r: Album)
    ensures r.id == a.id && r.name == a.name && r.albumGroup == None
  {
    a.(albumGroup := None)
  }

  function TrackIds(tracks: seq<SimplifiedTrack>): (ids: seq<string>)
    ensures |ids| == |tracks| && forall i :: 0 <= i < |tracks| ==> ids[i] == tracks[i].id
  {
    seq(|tracks|, i requires 0 <= i < |tracks| => tracks[i].id)
  }

  /** `spotify.albums.get(id)` for each id in turn, every result stored
      without its album group; the first rejected request throws. */
  method FetchAlbums(getAlbum: string -> Result<Album, Failure>, ids: seq<string>) returns (r: Result<seq<Album>, Failure>)
    ensures r.Ok? <==> forall i :: 0 <= i < |ids| ==> getAlbum(ids[i]).Ok?
    ensures r.Ok? ==> |r.value| == |ids| && forall i :: 0 <= i < |ids| ==> r.value[i] == Ungrouped(getAlbum(ids[i]).value)
    ensures r.Err? ==> exists i :: 0 <= i < |ids| && getAlbum(ids[i]) == Err(r.error)
                                   && forall j :: 0 <= j < i ==> getAlbum(ids[j]).Ok?
  {
    var albums: seq<Album> := [];
    for n := 0 to |ids|
      invariant |albums| == n
      invariant forall i :: 0 <= i < n ==> getAlbum(ids[i]).Ok? && albums[i] == Ungrouped(getAlbum(ids[i]).value)
    {
      var album := getAlbum(ids[n]);
      if album.Err? {
        return Err(album.error);
      }
      albums := albums + [Ungrouped(album.value)];
    }
    r := Ok(albums);
  }

  /** The album list: every album of the artist listing (groups album,
      single and compilation, market US, pages of 50) in listing order,
      followed by the extra albums in listed order. The script has no
      `catch`: a failed listing throws its reason, and otherwise the first
      failed extra fetch throws its own. */
  method CollectAlbums(artistAlbums: (string, string, string, nat) -> Result<Page<Album>, Failure>,
                       remote: Remote<Album>, getAlbum: string -> Result<Album, Failure>, maxPages: nat)
    returns (r: Result<seq<Album>, Failure>, ghost pages: seq<Page<Album>>, ghost ending: Ending)
    ensures exists requests ::
              Walked(remote, artistAlbums(TAYLOR_SWIFT_ID, ALBUM_GROUPS, MARKET, ALBUM_PAGE_LIMIT), maxPages, pages, requests, ending)
    ensures ending.Failed? ==> r == Err(ending.reason)
    ensures ending == Exhausted ==>
              (r.Ok? <==> forall i :: 0 <= i < |EXTRA_ALBUM_IDS| ==> getAlbum(EXTRA_ALBUM_IDS[i]).Ok?)
    ensures ending == Exhausted && r.Err? ==>
              exists i :: 0 <= i < |EXTRA_ALBUM_IDS| && getAlbum(EXTRA_ALBUM_IDS[i]) == Err(r.error)
                          && forall j :: 0 <= j < i ==> getAlbum(EXTRA_ALBUM_IDS[j]).Ok?
    ensures r.Ok? ==> var listed := ItemsOf(pages);
                      && |r.value| == |listed| + |EXTRA_ALBUM_IDS|
                      && r.value[..|listed|] == listed
                      && forall i :: 0 <= i < |EXTRA_ALBUM_IDS| ==>
                           getAlbum(EXTRA_ALBUM_IDS[i]).Ok? && r.value[|listed| + i] == Ungrouped(getAlbum(EXTRA_ALBUM_IDS[i]).value)
  {
    var yielded, requests, walkEnd;
    yielded, requests, walkEnd, pages := GetPaginatedItems(remote, artistAlbums(TAYLOR_SWIFT_ID, ALBUM_GROUPS, MARKET, ALBUM_PAGE_LIMIT), maxPages);
    ending := walkEnd;
    if walkEnd.Failed? {
      return Err(walkEnd.reason), pages, ending;
    }
    TaggedAllItems(pages);
    var listed := Items(yielded);
    var extras := FetchAlbums(getAlbum, EXTRA_ALBUM_IDS);
    if extras.Err? {
      return Err(extras.error), pages, ending;
    }
    r := Ok(listed + extras.value);
    assert r.value[..|listed|] == listed;
  }

  /** What fetching one album's tracks gives: the walk over its track
      listing (market US, pages of 50) and its end; a failed walk throws
      its reason; after a complete walk, the listed ids are looked up in
      batches of 50, and the result is the album with the tracks returned
      exactly when every batch succeeds, and otherwise the failure of the
      first batch that did not. */
  ghost predicate AlbumOutcome(albumTracks: (string, string, nat) -> Result<Page<SimplifiedTrack>, Failure>,
                               remote: Remote<SimplifiedTrack>, tracksGet: TracksGet, album: Album, maxPages: nat,
                               pages: seq<Page<SimplifiedTrack>>, ending: Ending, r: Result<FullAlbum, Failure>)
  {
    && (exists requests :: Walked(remote, albumTracks(album.id, MARKET, ALBUM_PAGE_LIMIT), maxPages, pages, requests, ending))
    && (ending.Failed? ==> r == Err(ending.reason))
    && (ending == Exhausted ==>
          var chunks := Chunks(TrackIds(ItemsOf(pages)), TRACKS_BATCH);
          if forall k :: 0 <= k < |chunks| ==> tracksGet(chunks[k]).Ok? then
            r == Ok(FullAlbum(album, Responses(tracksGet, chunks)))
          else
            r.Err? && exists k :: 0 <= k < |chunks| && tracksGet(chunks[k]) == Err(r.error)
                                  && forall j :: 0 <= j < k ==> tracksGet(chunks[j]).Ok?)
  }

  /** One album of the output: its track listing read to the end, then the
      full tracks looked up by the listed ids in listing order. */
  method FetchFullAlbum(albumTracks: (string, string, nat) -> Result<Page<SimplifiedTrack>, Failure>,
                        remote: Remote<SimplifiedTrack>, tracksGet: TracksGet, album: Album, maxPages: nat)
    returns (r: Result<FullAlbum, Failure>, ghost pages: seq<Page<SimplifiedTrack>>, ghost ending: Ending)
    ensures AlbumOutcome(albumTracks, remote, tracksGet, album, maxPages, pages, ending, r)
  {
    var yielded, requests, walkEnd;
    yielded, requests, walkEnd, pages := GetPaginatedItems(remote, albumTracks(album.id, MARKET, ALBUM_PAGE_LIMIT), maxPages);
    ending := walkEnd;
    if walkEnd.Failed? {
      return Err(walkEnd.reason), pages, ending;
    }
    TaggedAllItems(pages);
    var ids := TrackIds(Items(yielded));
    ghost var chunks := Chunks(ids, TRACKS_BATCH);
    var tracks, calls := GetTracks(tracksGet, ids);
    if tracks.Err? {
      assert calls[|calls| - 1] == chunks[|calls| - 1];
      assert forall j :: 0 <= j < |calls| - 1 ==> calls[j] == chunks[j];
      return Err(tracks.error), pages, ending;
    }
    r := Ok(FullAlbum(album, tracks.value));
  }

  /** Every album in list order with its full tracks, one album after the
      other; the first failure throws. `outcomes` are the albums fetched,
      all but the last successful. */
  method FetchFullAlbums(albumTracks: (string, string, nat) -> Result<Page<SimplifiedTrack>, Failure>,
                         remote: Remote<SimplifiedTrack>, tracksGet: TracksGet, albums: seq<Album>, maxPages: nat)
    returns (r: Result<seq<FullAlbum>, Failure>, ghost outcomes: seq<Result<FullAlbum, Failure>>,
             ghost walks: seq<seq<Page<SimplifiedTrack>>>, ghost endings: seq<Ending>)
    ensures 0 < |outcomes| <= |albums| || albums == []
    ensures |outcomes| == |walks| == |endings| <= |albums|
    ensures forall i :: 0 <= i < |outcomes| ==>
              AlbumOutcome(albumTracks, remote, tracksGet, albums[i], maxPages, walks[i], endings[i], outcomes[i])
    ensures forall i :: 0 <= i < |outcomes| - 1 ==> outcomes[i].Ok?
    ensures r.Ok? <==> |outcomes| == |albums| && forall i :: 0 <= i < |outcomes| ==> outcomes[i].Ok?
    ensures r.Ok? ==> |r.value| == |albums| && forall i :: 0 <= i < |albums| ==> r.value[i] == outcomes[i].value
    ensures r.Err? ==> outcomes != [] && outcomes[|outcomes| - 1] == Err(r.error)
  {
    var full: seq<FullAlbum> := [];
    outcomes, walks, endings := [], [], [];
    for n := 0 to |albums|
      invariant |full| == n && |outcomes| == n && |walks| == n && |endings| == n
      invariant forall i :: 0 <= i < n ==>
                  AlbumOutcome(albumTracks, remote, tracksGet, albums[i], maxPages, walks[i], endings[i], outcomes[i])
      invariant forall i :: 0 <= i < n ==> outcomes[i].Ok? && full[i] == outcomes[i].value
    {
      var one, pages, ending := FetchFullAlbum(albumTracks, remote, tracksGet, albums[n], maxPages);
      outcomes, walks, endings := outcomes + [one], walks + [pages], endings + [ending];
      if one.Err? {
        return Err(one.error), outcomes, walks, endings;
      }
      full := full + [one.value];
    }
    r := Ok(full);
  }
}
