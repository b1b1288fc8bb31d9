/** The entities the scan / select / replace pipeline passes around
    (src/types.ts and the Spotify SDK types it builds on), reduced to
    the fields the pipeline reads. */
module Types {
  import opened Wrappers

  /** A Spotify track. `kind` is the SDK's `type` field ("track" or
      "episode"); `isrc` is `external_ids.isrc`, the ISO 3901 recording
      code used as an opaque key. */
  datatype Track = Track(id: string, name: string, kind: string, isrc: string)

  /** One slot of a playlist; `track` is null for items Spotify no longer serves. */
  datatype PlaylistedTrack = PlaylistedTrack(track: Option<Track>)

  /** The current user's profile; only its URI is compared. */
  datatype User = User(uri: string)

  /** A playlist as it appears in the user's playlist listing. `ownerUri`
      is `owner.uri`, `tracksHref` is `tracks.href`. */
  datatype SimplifiedPlaylist =
    SimplifiedPlaylist(id: string, name: string, snapshotId: string, ownerUri: string, tracksHref: string)

  /** A playlist together with all of its slots, in playlist order. */
  datatype PlaylistWithTracks = PlaylistWithTracks(playlist: SimplifiedPlaylist, tracks: seq<PlaylistedTrack>)

  /** Catalog value for one stolen recording: the replacement track ids in
      preference order, and the optional `isLive` / `isRemix` flags (a flag
      is `true` here exactly when the key is present with value `true`). */
  datatype StolenReplacements = StolenReplacements(ids: seq<string>, isLive: bool, isRemix: bool)

  /** The catalog `taylorsversions.json`, keyed by ISRC. */
  type Catalog = map<string, StolenReplacements>

  /** One matched slot: its 1-based position in the unmodified playlist,
      the stolen track, and its catalog value. The field is called
      `variants` in src/app/scan.ts, `replacements` in src/types.ts, and
      the newer views read it as `taylorsVersionIds` next to `stolen.id`. */
  datatype StolenTrack = StolenTrack(position: nat, track: Track, variants: StolenReplacements) {
    /** The recording id selections are keyed by (`stolen.id`). */
    function StolenId(): string { track.id }
    /** The replacement ids (`taylorsVersionIds`). */
    function VariantIds(): seq<string> { variants.ids }
  }

  /** A playlist with at least one match, together with its matches. */
  datatype ScannedPlaylist = ScannedPlaylist(playlist: PlaylistWithTracks, stolenTracks: seq<StolenTrack>) {
    function Info(): SimplifiedPlaylist { playlist.playlist }
  }

  /** Why an operation threw. */
  datatype Failure =
    | UnexpectedNextUrl(url: string)   // a pagination cursor outside the API root
    | UnexpectedHref(href: string)     // a playlist's tracks href outside the API root
    | RequestFailed(request: string)   // the remote rejected a request
    | PageLimitReached                 // the model's bound on followed cursors was hit
    | ProfileUnavailable               // the current user's profile could not be fetched
    | NullTrackSlot(index: nat)        // `t.track.type` read on a null slot
    | NoReplacement(isrc: string)      // `replacements[0].id` read on an empty list
    | InsertFailed(position: nat)      // an insert call was rejected
    | RemoveFailed                     // a batched removal call was rejected

  /** The outcome of one promise under `Promise.allSettled`. */
  datatype Settled<T> = Fulfilled(value: T) | Rejected(reason: Failure)

  datatype ScanError = ScanError(playlist: SimplifiedPlaylist, reason: Failure)

  datatype ScanResult = ScanResult(playlists: seq<ScannedPlaylist>, errors: seq<ScanError>)

  /** One insertion of a plan. `taylorsVersionId` is `None` where the source
      computes JavaScript `undefined` (the first id of an empty list). */
  datatype TrackInsert = TrackInsert(position: nat, taylorsVersionId: Option<string>)

  /** The edit plan for one playlist. `newTracks` is documented as
      ascending by position. */
  datatype PlaylistSelection = PlaylistSelection(
    id: string, name: string, snapshotId: string,
    stolenIdsToRemove: seq<string>, newTracks: seq<TrackInsert>)

  /** The documented order of `PlaylistSelection.newTracks`. */
  predicate AscendingByPosition(newTracks: seq<TrackInsert>) {
    forall i, j :: 0 <= i < j < |newTracks| ==> newTracks[i].position < newTracks[j].position
  }

  datatype ReplaceError = ReplaceError(playlist: PlaylistSelection, reason: Failure)

  /** Progress of a task; `total == 0` means progress is not known yet. */
  datatype Progress = Progress(current: int, total: int, text: string) {
    predicate IsUnknown() { total == 0 }
  }

  const NO_PROGRESS: Progress := Progress(0, 0, "")
}
