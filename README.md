# Taylor's Version swapper — a Dafny model

The web app scans the playlists a Spotify user owns. It finds every track
whose ISRC is a key of the catalog `taylorsversions.json`: an earlier
recording that has a Taylor's Version re-recording. The user picks which
recordings to replace, and the app then edits each playlist in place. It
inserts the re-recording just before each selected slot, highest position
first, and then removes every occurrence of the selected recordings. Two
offline scripts build the inputs. One collects the artist's albums, and one
derives the catalog: it decides which re-recording replaces which earlier
track, orders the candidate replacements, and writes the ISRC-keyed map.

This project models that core and proves what it promises. The Spotify API
is not modelled; its responses are parameters of the model.

| file | module | models |
|---|---|---|
| wrappers.dfy | `Wrappers` | `Option` and `Result` |
| text.dfy | `Text` | the string operations the code relies on: `in`, `startswith`, `replace`, `strip`, `split`, `lower`, number formatting |
| types.dfy | `Types` | the records of src/types.ts; one `StolenTrack(position, track, variants)` stands for every naming of a match across src/app/scan.ts, src/app/scan.tsx and src/app/App.tsx, with `StolenId()` and `VariantIds()` giving the recording id and the replacement ids |
| pagination.dfy | `Pagination` | `getPaginatedItems`, in src/api.ts, src/api.tsx and scripts/fetchTaylorAlbums.ts; `getPlaylistWithTracks`; `getTracks` in batches of 50; `removeItemsFromPlaylist` in batches of 100 |
| trackcache.dfy | `TrackCaching` | `TrackCache` as a class whose `cache` map only grows |
| scan.dfy | `Scan` | `getTrackReplacements` and `scanUserPlaylists` of src/app/scan.ts |
| scanlegacy.dfy | `LegacyScan` | the older scans of src/app/scan.tsx, which drops failed playlists, and src/app/util.tsx, which rethrows the first failure |
| planner.dfy | `Planner` | the plan building of `onDoReplace`, the screen state machine and the widest-image fold of src/app/App.tsx |
| editor.dfy | `Editor` | the selection state of PlaylistEditor.tsx and the tri-state checkbox rule of PlaylistView.tsx (`IsAllSelected`, `IsIndeterminate`) |
| replace.dfy | `Replace` | `replaceTracks`: insert order, removal after the inserts, the progress arithmetic and the error list |
| effect.dfy | `ReplaceEffect` | what those calls do to a playlist of URIs: the slots of the selected recordings are replaced in place |
| plausible.dfy | `Plausible` | `floorToFirstDigit`, `formatRoundPercent` and the props of the playlists-updated event |
| albums.dfy | `Albums` | the album collection order of scripts/fetchTaylorAlbums.ts |
| artistalbums.dfy | `ArtistAlbums` | `get_all_albums` of scripts/load_taylorsversion.py |
| catalog.dfy | `CatalogBuilder` | `normalize_name`, `remove_tv`, the matching loops, the `sorted_replacements` key and the output map of scripts/load_taylorsversion.py |

The remote API is a value. A page request is a function from a path to a
page or a failure. An insert or remove call is accepted or rejected by a
fixed predicate of the call. The `Promise.allSettled` fan-outs are the
sequence of their settled results, taken in launch order.

In two places the code does something other than what its comments or
names suggest; the model follows the code:

- In src/app/replace.ts the `finally` report of a playlist is
  `counter - trackCounter + newTracks.length`, but `counter` itself is not
  advanced by the inserts that were never made. After a failed playlist,
  the next playlist can report a smaller value than the one reported
  before it. `Replace.ProgressCanDecrease` exhibits this, and
  `Replace.EventsWithinTotal` proves that every report still lies between
  0 and `total`.
- The comment at src/api.ts:23 says the rate-limit wrapper retries up to
  three times. The loop at src/api.ts:25 has `i++` as its condition, which
  is always true, so it retries until it gets a response other than 429.
  The wrapper is not part of this model (see "Left out").

## Model

| member | source | states |
|---|---|---|
| Text.ContainsAt | scripts/load_taylorsversion.py:130 | a substring found at some index makes Python's `in` hold |
| Text.ContainsIndex | scripts/load_taylorsversion.py:130 | when `sub in s` holds, an index where `sub` occurs is given |
| Text.ContainsTransitive | scripts/load_taylorsversion.py:130-135 | a string inside a string inside `c` is inside `c` |
| Text.ContainsChar | scripts/load_taylorsversion.py:121-122 | a one-character substring test is membership of that character |
| Text.ReplaceAllChars | scripts/load_taylorsversion.py:115-119 | `str.replace` introduces no character absent from the input and the replacement |
| Text.ReplaceAllRemovesChar | scripts/load_taylorsversion.py:117 | replacing every occurrence of a character by a string without it leaves none behind |
| Text.TrimStart | scripts/load_taylorsversion.py:122 | only leading whitespace is dropped, and the result does not start with whitespace |
| Text.TrimEnd | scripts/load_taylorsversion.py:122 | only trailing whitespace is dropped, and the result does not end with whitespace |
| Text.StripChars | scripts/load_taylorsversion.py:122 | `str.strip` keeps only characters of its input |
| Text.StripIdempotent | scripts/load_taylorsversion.py:122 | stripping twice strips no more than once |
| Text.BeforeFirst | scripts/load_taylorsversion.py:122 | `s.split(c, 1)[0]` is a prefix of `s` without `c`, followed in `s` by `c` when shorter than `s` |
| Text.LowerAscii | scripts/load_taylorsversion.py:192-195 | `str.lower` keeps the length and lowers each character in place |
| Text.NatToString | src/helpers/plausible.ts:68 | a number in a template literal is a non-empty string of decimal digits |
| Text.NatToStringValue | src/helpers/plausible.ts:68 | the digits read back as the number written |
| Pagination.GetPaginatedItems | src/api.ts:57-78 | the walk reads the first page and then follows each `next` cursor, requesting it with the API root stripped; it yields every item paired with its own page's `total`; it ends when a page has no cursor, a request is rejected, or a cursor lies outside the API root |
| Pagination.TaggedAllItems | src/api.ts:61-76 | the items yielded are exactly the pages' items, concatenated in page order |
| Pagination.TaggedAllAt | src/api.ts:63-65 | item `i` of page `j` is yielded at index `offset(j) + i`, paired with page `j`'s `total` |
| Pagination.ChainRequests | src/api.ts:66-73 | every cursor that was followed begins with the API root, and the request made for it is the cursor with that root removed |
| Pagination.ForeignCursorThrows | src/api.ts:67-69 | when a walk ends on a foreign cursor, the error carries that cursor, and every earlier request was inside the API root |
| Pagination.GetAllUserPlaylists | src/api.ts:80-81 | the user's playlists are walked starting from a first page of 50 |
| Pagination.GetPlaylistWithTracks | src/api.ts:83-100 | returns the playlist with every item of every page, in order, when the walk is exhausted; otherwise it fails with the walk's error |
| Pagination.GetPlaylistWithTracksByHref | src/api.tsx:81-100 | an href outside the API root fails before any request is made; otherwise the first request is the href without the root, and the result is the walk's items or the walk's error |
| Pagination.ChunksProperties | src/api.ts:108-113 | the chunks concatenate back to the input; each chunk is non-empty and at most `n` long; there are ceil(len/n) chunks; there are none exactly when the input is empty |
| Pagination.RemoveItemsFromPlaylist | src/api.ts:102-120 | one remove call per chunk of at most 100 ids; the result is ok exactly when every call is accepted |
| Pagination.RemoveCallsProperties | src/api.ts:108-117 | the remove calls send every id exactly once and in order, as `spotify:track:<id>`; at most 100 per call; ceil(n/100) calls, none for an empty list; `snapshot_id` is never passed |
| Pagination.GetTracks | src/api.ts:122-128 | looks ids up in consecutive chunks of 50, sequentially; the first rejected chunk makes it fail with that chunk's error; otherwise the result is every response, concatenated in order |
| Pagination.GetTracksLength | src/api.ts:122-128 | when the remote answers each id with one entry, `getTracks` returns one entry per requested id |
| Pagination.ChunksFromCount | src/api.ts:108-113 | the number of chunks is the least one whose batches cover everything after the offset |
| TrackCaching.Missing | src/api.ts:144 | the ids looked up are exactly the requested ids the cache does not hold, and there are no more of them than were requested |
| TrackCaching.StoredProperties | src/api.ts:135-141 | storing only adds: the keys grow by exactly the ids of the non-null fetched tracks; every entry stays keyed by its own track id; entries that no fetched track names are left as they were |
| TrackCaching.StoredKeepsNewest | src/api.ts:135-141 | later stores overwrite earlier ones: a fetched track that no later fetched track shares an id with is the entry kept under its id |
| TrackCaching.ErrorIdsExact | src/api.ts:151-159 | an id is reported as missing exactly when its position in the response is null |
| TrackCaching.TrackCache.constructor | src/api.ts:131-133 | a new cache is empty and bound to the client's track lookup |
| TrackCaching.TrackCache.AddTracks | src/api.ts:135-141 | a null track leaves the cache as it was; otherwise the track is stored under its own id, and the `id` argument is ignored |
| TrackCaching.TrackCache.GetMany | src/api.ts:143-167 | makes no lookup when every id is cached; otherwise it runs one `getTracks` over exactly the missing ids, stores the non-null results and reports the null ones; a rejected lookup leaves the cache unchanged; the result is the requested ids mapped through the cache, in the same order, and every track found carries its own id |
| TrackCaching.TrackCache.StoreFetched | src/api.ts:151-159 | the loop stores each non-null response and collects the missing id of each null one |
| TrackCaching.TrackCache.TryGet | src/api.ts:169-171 | gives the cached track on a hit and null on a miss, and never makes a lookup |
| TrackCaching.TrackCache.TryGetMany | src/api.ts:173-175 | gives `tryGet` of every id, in order |
| TrackCaching.FoundIdsCached | src/api.ts:149-166 | after a lookup, a missing id that was found is now in the cache |
| TrackCaching.NothingMissingWhenCached | src/api.ts:144-147 | once every requested id is cached, `getMany` looks nothing up |
| Scan.MatchesSoundAndLength | src/app/scan.ts:23-39 | each match is the slot at its 1-based position, holding a track of type `track` whose ISRC is a catalog key, paired with the catalog's value for that ISRC; there are no more matches than slots |
| Scan.MatchesPositionsOrdered | src/app/scan.ts:25-34 | match positions strictly increase |
| Scan.MatchesCover | src/app/scan.ts:25-37 | every matched slot has a match at its position |
| Scan.MatchesValid | src/app/scan.ts:23-39 | the match list is sound, ordered and complete |
| Scan.NoMatchesIff | src/app/scan.ts:23-39 | there are no matches exactly when no slot holds a track whose ISRC is in the catalog |
| Scan.GetTrackReplacements | src/app/scan.ts:23-39 | the single pass over the slots produces exactly the valid match list |
| Scan.Found | src/app/scan.ts:66-71 | a playlist is reported exactly when it has a match, and then with the playlist and its matches |
| Scan.ScanPlaylist | src/app/scan.ts:54-75 | a rejected profile rejects the scan; a playlist owned by someone else gives nothing; otherwise the scan reads every item, rejecting with the walk's error or giving the found matches |
| Scan.CollectedExactly | src/app/scan.ts:85-101 | the scanned playlists are exactly the non-null fulfilled values; the errors are exactly the rejected scans, each paired with its own playlist; no result is counted twice |
| Scan.FulfilledExactly | src/app/scan.ts:88-92 | a playlist is collected exactly when some scan was fulfilled with it |
| Scan.RejectionsExactly | src/app/scan.ts:92-93 | an error is collected exactly when the scan at that index was rejected, and it pairs that playlist with that reason |
| Scan.CollectedCount | src/app/scan.ts:85-101 | the collected playlists and errors together number at most the scans launched |
| Scan.AllRejected | src/app/scan.ts:48-59 | when every scan is rejected with the same reason, nothing is found and every playlist is reported, in order, with that reason |
| Scan.Collect | src/app/scan.ts:85-101 | the `forEach` collects the fulfilled values and the rejections, in launch order |
| Scan.FoundIsOwnedMatch | src/app/scan.ts:58-69 | a found playlist is owned by the user and carries the non-empty matches of its own slots |
| Scan.CollectedFacts | src/app/scan.ts:77-101 | every collected playlist was listed, is owned by the user and has matches; every error names a listed playlist; when the profile fails, every listed playlist is reported with that error |
| Scan.ScanEach | src/app/scan.ts:73-82 | each listed playlist is scanned in listing order, and the k-th report is `k + 1` of its page's `total`, with the playlist's name |
| Scan.ScanUserPlaylists | src/app/scan.ts:41-102 | every listed playlist is scanned once, with one progress report each (its 1-based place, its id, its name), and each settled scan is what scanning that playlist gives; a failed listing rejects the whole scan with the walk's error; after a complete listing the result is the playlists whose scan found matches, in listing order, with the reasons of the rejected scans beside their playlists |
| LegacyScan.LegacyMatchesAgree | src/app/scan.tsx:35-54 | the legacy matcher fails exactly when some slot throws, that is, a null slot or a catalogued track with no replacement, and the reason names the first such slot; otherwise it finds the same matches as src/app/scan.ts, each with its first replacement id |
| LegacyScan.LegacyMatchesFailures | src/app/util.tsx:33-51 | the matcher fails exactly when some slot throws, and the reason is that of the earliest throwing slot |
| LegacyScan.LegacyMatchesSuccess | src/app/scan.tsx:38-53 | a successful legacy match list is the src/app/scan.ts match list read as legacy records |
| LegacyScan.NullSlotThrows | src/app/scan.tsx:40 | a playlist whose only slot is unavailable makes the legacy matcher throw, while the current matcher finds nothing there |
| LegacyScan.GetTrackReplacements | src/app/util.tsx:36-50 | the `forEach` computes the legacy match list, stopping at the first throwing slot |
| LegacyScan.LegacyMatchesPrefixErr | src/app/scan.tsx:39-52 | once a prefix of the slots throws, the whole list throws with the same reason |
| LegacyScan.ScanPlaylist | src/app/scan.tsx:63-86 | a playlist owned by someone else gives nothing; otherwise the scan reads the playlist through its href, rejecting with the walk's error or with the matcher's throw, or gives the found matches |
| LegacyScan.ScanEach | src/app/util.tsx:77-89 | each listed playlist is scanned in order, and the k-th report is `(k + 1) / total` with the playlist's name |
| LegacyScan.PresentExactly | src/app/scan.tsx:94-103 | a playlist is kept exactly when some scan was fulfilled with it, and no more playlists are kept than there were scans |
| LegacyScan.FirstRejectionEarliest | src/app/util.tsx:91-95 | the rethrown reason is that of the earliest rejected scan, and nothing is rethrown when no scan was rejected |
| LegacyScan.PresentAreOwnedMatches | src/app/scan.tsx:68-76 | every kept playlist was listed, is owned by the user, and holds the non-empty legacy matches of its slots |
| LegacyScan.ScanUserPlaylistsDropping | src/app/scan.tsx:56-104 | every listed playlist is scanned once, with one progress report each, every match marked selected; a failed listing rejects with its reason; after a complete listing the rejected scans are dropped and the result is the playlists whose scan found matches, in listing order |
| LegacyScan.ScanUserPlaylistsRethrowing | src/app/util.tsx:53-97 | a failed listing rejects; otherwise the first rejected scan, in launch order, rejects the whole scan; otherwise the result is the found playlists |
| LegacyScan.Rethrow | src/app/util.tsx:91-96 | the loop over the settled results rethrows the first rejection, or else gives the found values in order |
| Planner.SelectedIndicesExact | src/app/App.tsx:118-120 | the playlists kept are exactly those with a non-empty selection, in ascending order |
| Planner.PlansFollowSelections | src/app/App.tsx:118-132 | there is one plan per non-empty selection, and plan `k` is the plan of the `k`-th playlist with a non-empty selection |
| Planner.PlansDescribePlaylists | src/app/App.tsx:118-132 | plan `k` belongs to the `k`-th playlist with a non-empty selection, carries its id, name and snapshot id, removes exactly its selected ids in selection order, and inserts, at each selected entry's position, its first replacement id (none when it lists none), for every selected entry and nothing else |
| Planner.PlansNonEmpty | src/app/App.tsx:120 | every plan removes a non-empty selection |
| Planner.NewTracksExact | src/app/App.tsx:126-131 | each insert is the insert of a selected entry, every selected entry has an insert, and there are never more inserts than entries |
| Planner.NewTracksAscending | src/types.ts:68-78 | entries in ascending position order give inserts in ascending position order, which is the order documented for `newTracks`, and every insert position is an entry's position |
| Planner.NewTracksCount | src/app/App.tsx:126-127 | there are as many inserts as entries whose recording is selected |
| Planner.Next | src/app/App.tsx:86-142 | a screen change moves one step forward, and happens exactly for the event offered on the current screen |
| Planner.RunMonotone | src/app/App.tsx:86-142 | screens only move forward, at most one step per event, and the finished screen is never left |
| Planner.FullRun | src/app/App.tsx:93-136 | an example run: the scan settling, the Replace press and the replacement settling take the app from scanning to finished |
| Planner.WidestIsEarliestMaximum | src/app/App.tsx:172-173 | the `reduce` picks a widest image, the earliest of equally wide ones, and throws only on an empty list |
| Planner.WidestIndex | src/app/App.tsx:173 | the image picked sits at an index where no image is wider and every earlier image is narrower |
| Planner.SelectedIndicesMembers | src/app/App.tsx:118-120 | a playlist is planned exactly when its selection is non-empty |
| Planner.SelectedIndicesAscending | src/app/App.tsx:118-120 | the planned playlists keep their input order |
| Editor.FromSeq | src/app/playlisteditor/PlaylistEditor.tsx:23 | `new Set(xs)` has no duplicates, holds exactly the elements of `xs`, and is no longer than `xs` |
| Editor.Add | src/app/playlisteditor/PlaylistEditor.tsx:95 | adding keeps the set duplicate-free and holds exactly the old members plus the new id |
| Editor.Delete | src/app/playlisteditor/PlaylistEditor.tsx:86-90 | deleting keeps the set duplicate-free and holds exactly the old members other than the id |
| Editor.SetUpdatesIdempotent | src/app/playlisteditor/PlaylistEditor.tsx:85-99 | adding a present id or deleting an absent one changes nothing, and repeating either update changes nothing more |
| Editor.InitiallyAllSelected | src/app/playlisteditor/PlaylistEditor.tsx:22-24 | initially every playlist's selection is a duplicate-free set holding exactly the recording ids of its matches, so each playlist shows as fully selected and none as indeterminate |
| Editor.SelectPlaylistEffect | src/app/playlisteditor/PlaylistEditor.tsx:72-84 | selecting a playlist makes its selection exactly the recording ids of its matches, checking it and every row; deselecting it empties the selection, so nothing is checked or indeterminate; other playlists keep their selection |
| Editor.SelectTrackEffect | src/app/playlisteditor/PlaylistEditor.tsx:85-99 | toggling a row changes only that playlist's selection, and only by that recording id; every row of the same recording follows it; repeating the toggle changes nothing more |
| Editor.SongsToReplaceIsInserts | src/app/playlisteditor/PlaylistEditor.tsx:29-38 | the count on the button equals the number of inserts that the plans built from the same selections will make |
| Editor.DisabledIffNothingSelected | src/app/playlisteditor/PlaylistEditor.tsx:47 | the Replace button is disabled exactly when no selection covers any match of its playlist |
| Editor.SelectedCountZero | src/app/playlisteditor/PlaylistEditor.tsx:26-27 | a playlist counts zero selected songs exactly when none of its rows is checked |
| Editor.OnSelectPlaylist | src/app/playlisteditor/PlaylistEditor.tsx:72-84 | the update keeps one selection per playlist |
| Editor.OnSelectTrack | src/app/playlisteditor/PlaylistEditor.tsx:85-99 | the update keeps one selection per playlist |
| Editor.DeleteAbsent | src/app/playlisteditor/PlaylistEditor.tsx:86-90 | deleting an id that is not selected leaves the selection as it was |
| Replace.PlanInserts | src/app/replace.ts:19-24 | the inserts are issued back to front over `newTracks`, one URI each, at index `position - 1`; for ascending `newTracks` the issued indices strictly decrease |
| Replace.FirstRejected | src/app/replace.ts:19-31 | gives the length of the accepted prefix of the insert calls: every earlier call is accepted, and the call at that index, if there is one, is rejected |
| Replace.PlanFailureCases | src/app/replace.ts:18-43 | a plan fails exactly when one of its issued calls is rejected; removal is attempted only after every insert succeeded; a failed insert is the plan's last call, and its failure names that insert's position |
| Replace.ReplacePlaylist | src/app/replace.ts:14-44 | the issued inserts and removes, the failure and the progress reports are those of the plan's outcome; the shared counter advances by the accepted inserts; the caller's plan is left with `newTracks` reversed |
| Replace.InsertInOrder | src/app/replace.ts:19-31 | the loop issues inserts in order until the first rejected one, counting and reporting each accepted insert, and fails with the rejected insert's position |
| Replace.InsertReportsAt | src/app/replace.ts:25-30 | the `j`-th report of a plan counts `j + 1` inserts past the counter at which the plan started |
| Replace.ReplaceTracks | src/app/replace.ts:6-57 | `total` is the number of inserts over all plans; plans are run in input order against the shared counter; the result is the errors of the failed plans, with every call and report of the run |
| Replace.OutcomesAt | src/app/replace.ts:46 | outcome `i` is the outcome of plan `i`, and together the outcomes count the plans' inserts |
| Replace.PlansAfterRun | src/app/replace.ts:19 | after the run every plan has its `newTracks` reversed and nothing else changed |
| Replace.CounterBounded | src/app/replace.ts:27 | the shared counter never exceeds the number of inserts, and reaches it exactly when every insert of every plan succeeded |
| Replace.EventCount | src/app/replace.ts:25-42 | each plan reports once per accepted insert, plus once in `finally` |
| Replace.EventsWithinTotal | src/app/replace.ts:26-42 | every report carries `total`, and its current value lies between 0 and `total` |
| Replace.LastReportComplete | src/app/replace.ts:37-42 | once every earlier plan's inserts have succeeded, the last plan's `finally` report reaches the number of inserts, whatever that plan's own calls did |
| Replace.ProgressCanDecrease | src/app/replace.ts:37-42 | the reports are not monotone: a plan whose first insert fails reports all of its inserts in `finally`, but the counter is not advanced, so the next plan reports a smaller value |
| Replace.FailedIndicesExact | src/app/replace.ts:47-48 | the failed indices are exactly the failed outcomes, in ascending order |
| Replace.ErrorsExact | src/app/replace.ts:47-56 | error `k` is the plan at the `k`-th failed index, as reversed, with its failure |
| Replace.RunErrors | src/app/replace.ts:46-56 | a run's errors are exactly its failed plans, in input order, each reversed and paired with its reason; there are none exactly when every plan succeeded |
| Replace.TotalOfPlans | src/app/replace.ts:11 | the outcomes of the plans count exactly the plans' inserts, as `total` does |
| Replace.FailedIndicesMembers | src/app/replace.ts:47-48 | an index is kept by the filter exactly when its plan failed |
| Replace.FailedIndicesAscending | src/app/replace.ts:46-48 | the kept indices are strictly ascending, so errors follow input order |
| ReplaceEffect.Insert | src/app/replace.ts:20-24 | an accepted insert grows the playlist by its URIs, keeps everything before its index and shifts everything from the index on past the inserted URIs |
| ReplaceEffect.ReplacedAt | src/app/replace.ts:19-36 | the intended result of a plan keeps the playlist's length, holds each replacement's URI at its slot and leaves every other slot as it was |
| ReplaceEffect.ReplacedSlots | src/app/replace.ts:19-24 | each insert's slot of the intended result holds that insert's URI |
| ReplaceEffect.ReplacedElsewhere | src/app/replace.ts:19-36 | a slot that no insert targets keeps its track in the intended result |
| ReplaceEffect.InsertsPrefix | src/app/replace.ts:20-24 | inserts whose indices fall inside a prefix leave whatever follows it unchanged |
| ReplaceEffect.InsertsExpand | src/app/replace.ts:19-24 | issuing the inserts highest position first places every URI just before its original slot, because no insert shifts a slot that a later insert targets |
| ReplaceEffect.RemoveAllConcat | src/api.ts:108-117 | removing URIs from a concatenation removes them from each part |
| ReplaceEffect.RemoveAllNone | src/api.ts:108-117 | removing URIs that do not occur leaves the playlist unchanged |
| ReplaceEffect.RemoveAllSameMembers | src/api.ts:108-117 | only which URIs are removed matters, not their order or repetition |
| ReplaceEffect.RemoveAllTwice | src/api.ts:108-117 | two removals in a row remove the URIs of both |
| ReplaceEffect.RemovalsCommute | src/api.ts:108-117 | the chunked removal calls, which are issued together, leave the same playlist whatever order the remote applies them in |
| ReplaceEffect.ApplyRemovesFlatten | src/api.ts:108-117 | a sequence of removal calls removes the concatenation of their URIs |
| ReplaceEffect.RemovalsRemoveSelected | src/app/replace.ts:32-36 | a plan's removal calls together remove exactly the URIs of its selected recordings |
| ReplaceEffect.RemoveAllStep | src/app/replace.ts:19-36 | removing after one insert keeps the inserted URI and drops the slot that follows it |
| ReplaceEffect.RemoveExpand | src/app/replace.ts:19-36 | when every slot of an insert is removed, no inserted URI is, and no other slot is, removing after the inserts gives the intended result |
| ReplaceEffect.CoversFromSlots | src/app/replace.ts:19-36 | those removal conditions, stated slot by slot over the whole playlist, give the recursive condition that `RemoveExpand` uses |
| ReplaceEffect.PlanReplacesSelectedSlots | src/app/replace.ts:14-36 | once every call of a plan is accepted, the plan's inserts followed by its removals turn the playlist into the intended result: each selected slot holds its replacement, and nothing else moves |
| Plausible.Log10Floor | src/helpers/plausible.ts:61 | `Math.floor(Math.log10(n))` of a positive integer: the power of ten it gives is at most `n`, and the next power is above `n` |
| Plausible.FloorToFirstDigit | src/helpers/plausible.ts:59-63 | zero stays zero; otherwise the result is a single digit from 1 to 9 times the largest power of ten not above `n`, at most `n` and less than that power below it |
| Plausible.LeadingDigit | src/helpers/plausible.ts:62 | dividing by the largest power of ten not above `n` leaves one digit from 1 to 9 |
| Plausible.FloorToFirstDigitIdempotent | src/helpers/plausible.ts:59-63 | flooring an already floored count changes nothing |
| Plausible.SameLog | src/helpers/plausible.ts:61 | a number between `10^k` and `10^(k+1)` has `k` as its floored logarithm |
| Plausible.Ceil | src/helpers/plausible.ts:68 | `Math.ceil(x)` is the least integer not below `x` |
| Plausible.RoundedPercent | src/helpers/plausible.ts:68 | strictly between 0 and 1, the percentage is the least multiple of ten not below `100 * n`, from 10 to 100 |
| Plausible.FormatRoundPercent | src/helpers/plausible.ts:65-69 | `"0%"` at or below zero, `"100%"` at or above one, and `<` then digits then `%` in between |
| Plausible.FormatRoundPercentDigits | src/helpers/plausible.ts:68 | the digits between `<` and `%` spell the rounded percentage |
| Plausible.PercentSelectedExtremes | src/helpers/plausible.ts:65-83 | with a positive total the label is `"0%"` exactly when nothing was replaced and `"100%"` exactly when every track was; with a zero total (JavaScript's `NaN` or `Infinity`) it is never `"0%"` and is `"100%"` exactly when something was replaced |
| Plausible.PlaylistsUpdatedProps | src/helpers/plausible.ts:71-87 | the event has the three counts and every selection category, and a category spread last overrides a count of the same name |
| Albums.FetchAlbums | scripts/fetchTaylorAlbums.ts:71-101 | the extra albums are fetched in listed order, each keeping its id and name with no album group; the result is them all exactly when every fetch succeeds, and otherwise the failure of the first fetch that did not |
| Albums.CollectAlbums | scripts/fetchTaylorAlbums.ts:55-101 | the artist listing (groups album, single and compilation, market US, pages of 50) is walked; a failed walk throws its reason; after a complete walk the result succeeds exactly when every extra fetch does, is then the listed albums in order followed by every extra album in order, and otherwise throws the first failing extra fetch's reason |
| Albums.FetchFullAlbum | scripts/fetchTaylorAlbums.ts:105-119 | the album's track listing is walked and a failed walk throws its reason; after a complete walk, the listed ids in listing order are looked up in batches of 50, and the album carries the tracks returned exactly when every batch succeeds, and otherwise the first failing batch's reason is thrown |
| Albums.FetchFullAlbums | scripts/fetchTaylorAlbums.ts:103-120 | the albums are fetched one after the other, each as `FetchFullAlbum` promises, stopping at the first failure, which is thrown; the result succeeds exactly when every album does, and is then one full album per listed album, in order |
| CatalogBuilder.NormalizedHasNoCurlyApostrophe | scripts/load_taylorsversion.py:115-119 | a normalised name has no typographic apostrophe left |
| CatalogBuilder.RemoveTvHasNoParen | scripts/load_taylorsversion.py:121-122 | the song name has no `(` |
| CatalogBuilder.BeforeFirstAbsent | scripts/load_taylorsversion.py:122 | splitting at a character that does not occur keeps the whole string |
| CatalogBuilder.RemoveTvIdempotent | scripts/load_taylorsversion.py:121-122 | taking the song name of a song name changes nothing |
| CatalogBuilder.NeverItsOwnStolen | scripts/load_taylorsversion.py:130-135 | no track replaces itself: the Taylor's Version mark it needs contains the ` Version)` mark the stolen side must not have |
| CatalogBuilder.Upto | scripts/load_taylorsversion.py:133-137 | the selected indices lie below the bound |
| CatalogBuilder.UptoExactly | scripts/load_taylorsversion.py:133-137 | an index is listed exactly when it is below the bound and selected, and the list is strictly ascending |
| CatalogBuilder.MatchTracks | scripts/load_taylorsversion.py:124-139 | for each track, the tracks it replaces and the tracks that replace it are exactly those related by the matching condition, in index order |
| CatalogBuilder.MatchAll | scripts/load_taylorsversion.py:128-139 | the outer loop over would-be re-recordings fills both relations for every track |
| CatalogBuilder.NoneSelected | scripts/load_taylorsversion.py:138 | a track that passes no test gets no indices |
| CatalogBuilder.MatchOne | scripts/load_taylorsversion.py:130-137 | for one eligible re-recording the inner loop records exactly the tracks it replaces, adds it to each of their replacement lists, and touches no other track's list |
| CatalogBuilder.MatchStep | scripts/load_taylorsversion.py:133-137 | one candidate stolen track is added to both relations exactly when it matches the song name |
| CatalogBuilder.SettledStep | scripts/load_taylorsversion.py:133-137 | after one more candidate, every replacement list up to it is settled for this re-recording |
| CatalogBuilder.MatchedInverse | scripts/load_taylorsversion.py:136-137 | the two relations are inverse: `s` is among the tracks `t` replaces exactly when `t` is among the replacements of `s`, exactly when `t` replaces `s` |
| CatalogBuilder.OnlyReplacingNamesReplace | scripts/load_taylorsversion.py:130 | only a name with the Taylor's Version mark and without the vault mark replaces anything |
| CatalogBuilder.KeyLessIrreflexive | scripts/load_taylorsversion.py:146-162 | no key tuple is below itself |
| CatalogBuilder.KeyLessTransitive | scripts/load_taylorsversion.py:146-162 | the tuple order is transitive |
| CatalogBuilder.KeyLessTotal | scripts/load_taylorsversion.py:146-162 | any two key tuples are equal or one is below the other |
| CatalogBuilder.NotLessTransitive | scripts/load_taylorsversion.py:162 | not-below is transitive, which the descending order relies on |
| CatalogBuilder.KeyLessAtFirstDifference | scripts/load_taylorsversion.py:146-162 | two key tuples of one length compare at their first difference, `False` below `True` |
| CatalogBuilder.RankedByCriteria | scripts/load_taylorsversion.py:146-163 | in a stolen track's ordered list, of two replacements that agree on the first criteria, the later meets the next criterion only if the earlier does: an exact song-name match first, then a non-remix, matching acoustic and piano marks, the song name in the album name, an album release, and a title equal to the album name |
| CatalogBuilder.InsertDescPermutes | scripts/load_taylorsversion.py:144-163 | inserting into the sorted list adds exactly the one element |
| CatalogBuilder.InsertDescOrdered | scripts/load_taylorsversion.py:144-163 | inserting into a descending list keeps it descending |
| CatalogBuilder.InsertedBelowLast | scripts/load_taylorsversion.py:144-163 | when the new element goes before the last one, everything in front of that last element still has a key not below it |
| CatalogBuilder.SortDescCorrect | scripts/load_taylorsversion.py:144-163 | `sorted(..., reverse=True)` gives a permutation of its input in non-increasing key order |
| CatalogBuilder.SortDescKeepsOrdered | scripts/load_taylorsversion.py:144-163 | the sort leaves an already ordered list as it is, so equal keys keep their input order |
| CatalogBuilder.SortedSelection | scripts/load_taylorsversion.py:142-163 | sorting the selected tracks gives a descending permutation of them, holding exactly the selected tracks |
| CatalogBuilder.SortedReplacementsCorrect | scripts/load_taylorsversion.py:142-163 | a stolen track's ordered list is a permutation of its replacements, descending by its key, and holds exactly the tracks that replace it |
| CatalogBuilder.SortAll | scripts/load_taylorsversion.py:142-163 | each track's list is the sorted list of its replacements: a permutation of them, in descending key order |
| CatalogBuilder.BuildOutput | scripts/load_taylorsversion.py:179-208 | the keys are exactly the ISRCs of tracks with a non-empty ordered list, and each holds the entry of the last such track with that ISRC |
| CatalogBuilder.OutputStep | scripts/load_taylorsversion.py:181-208 | one track's turn keeps both facts about the map |
| CatalogBuilder.KeysStep | scripts/load_taylorsversion.py:182-183 | one track's turn adds its ISRC exactly when its ordered list is non-empty |
| CatalogBuilder.LastWinsStep | scripts/load_taylorsversion.py:183-208 | one track's turn overwrites its ISRC's entry, so the last track with that ISRC wins |
| CatalogBuilder.BuildCatalog | scripts/load_taylorsversion.py:124-208 | the catalog maps the ISRC of every stolen track with a replacement to its replacement ids in preference order, with live and remix flags from its name, and the last such track wins a shared ISRC |
| ArtistAlbums.GetAllAlbums | scripts/load_taylorsversion.py:20-35 | the loop yields exactly the albums of the walk and asks for exactly its offsets |
| ArtistAlbums.YieldPage | scripts/load_taylorsversion.py:33-35 | every item of a page is yielded, in order, and counted |
| ArtistAlbums.WalkIsPages | scripts/load_taylorsversion.py:26-35 | the albums yielded are the concatenation of the pages asked for, in request order |
| ArtistAlbums.WalkOffsetsSpaced | scripts/load_taylorsversion.py:28-30 | the offsets grow one page at a time: the `i`-th request is at offset `50 * i` past the start |
| ArtistAlbums.WalkStopsShort | scripts/load_taylorsversion.py:26-32 | the walk yields fewer albums than `total` only when the last page it asked for came back empty |
| ArtistAlbums.WalkPagesNonEmpty | scripts/load_taylorsversion.py:31-32 | every page before the last one asked for was non-empty |

## Left out

- The rate-limit retry in `createSpotifyApi` (src/api.ts:13-55) is left out: it is real `fetch`, `setTimeout` and random jitter. A request is modelled as either succeeding or failing.
- Authentication (`createApiClient`, src/api.tsx:15-30), routing and UI rendering are left out. So are the UI files other than the selection logic of PlaylistEditor.tsx and PlaylistView.tsx, including src/app/components.tsx and src/app/app.tsx, which are older forms of modelled code.
- `VariantSelector.tsx` only passes a mode to a callback, and no file implements that mode, so it is not part of this model. Neither is the pre-release availability probe.
- Sentry reports, `console` output, Python `print` (scripts/load_taylorsversion.py:139, 165-176) and the Plausible transport (`trackPlausibleEvent`, `setupPlausible`) are observability sinks and are left out. For the event, only its props are modelled.
- Concurrency is modelled as a sequence. `Promise.allSettled` is the sequence of settled results in launch order. Async generators are loops that return the items they would yield.
- Scan.ScanUserPlaylists: it numbers progress reports in launch order. The source numbers them in the order the scans settle, which a sequential model cannot express.
- The floating-point fractions of the progress bars (src/app/App.tsx:197, src/app/scan.tsx:80-84, src/app/util.tsx:76-82) are left out.
- Plausible.Log10Floor: it is an exact integer digit count. The source's `Math.log10` is floating point and may be off near powers of ten.
- Plausible.RoundedPercent: it uses exact reals. The source divides by `0.1` in IEEE arithmetic, which may differ near multiples of 0.1.
- Pagination.GetPaginatedItems: a remote whose cursors cycle would make the source loop forever, so the model follows at most `maxPages` cursors. A walk cut short there is reported as such and is not an outcome of the source.
- Text.LowerAscii: it lowercases ASCII letters only. Python's `str.lower` also lowercases other letters, which matters only for names with non-ASCII capitals.
- `load_tracks` and the file I/O of the scripts are left out: the network, the JSON reads and dumps, the album sort by release date (scripts/load_taylorsversion.py:60-112, 209-210) and `fs.writeFile` (scripts/fetchTaylorAlbums.ts:122-128). Their data are inputs of the model.
- CatalogBuilder.SortedReplacementsCorrect: Python's `replacements` is a set, so tracks with equal keys come out in hash order. The model keeps them in track order. It also identifies tracks by index, so two tracks that compare equal as dataclasses stay two entries.
- The `EXTRA_INFO` branches of the output map (scripts/load_taylorsversion.py:184-191, 198-206) are not modelled: the constant is `False`.
- `is_live` and `is_remix` are booleans. The source omits the key instead of writing `False`.
- The catalog `taylorsversions.json` and the remote API are abstract inputs.
- ArtistAlbums.GetAllAlbums: the pages are a total function of the offset, so a failing `artist_albums` request (an exception in the script) and a response without `items` or `total` (a `KeyError` at scripts/load_taylorsversion.py:24 and :31) are not modelled; the first response's `total` is a parameter.
- Spotify's own behaviour is taken as given, not modelled: a removal drops every occurrence of each URI sent, an insert before an index past the end is rejected, and a `getTracks` batch answers with one entry per id asked, in order (`Pagination.OnePerId`). src/api.ts:152-159 walks whatever list comes back and pairs entry `i` with the `i`-th missing id; `TrackCaching.TrackCache.GetMany` and the length lemmas about `Pagination.GetTracks` take that pairing as a precondition.
- Replace.ReplaceTracks: the reason a failed plan carries is the failure of its first rejected call. The source wraps that cause in a new `Error("Playlist replace failed")`.
- LegacyScan.ScanUserPlaylistsRethrowing: the rethrown reason is the scan's own. src/app/util.tsx wraps it in `Error(...)`.
- `newTracks.reverse()` mutates the caller's plan. The model returns the reversed plans beside the errors instead of updating them in place.
- The track-cache methods are sequential. There are no overlapping `getMany` calls, so duplicate fetches for the same id are not modelled.

## Findings

| source | as written | input that shows it | evidently intended | confidence | as-written member | corrected member |
|---|---|---|---|---|---|---|
| src/app/scan.tsx:40 (and src/app/util.tsx:38) | `getTrackReplacements` reads `t.track.type` without checking that `t.track` is present, so an unavailable slot throws and the whole playlist's scan fails | a playlist whose only item is `PlaylistedTrack(null)` | skip unavailable slots, as src/app/scan.ts:26 does with `t.track &&` | not executed | `LegacyScan.LegacyMatches`, exhibited by `LegacyScan.NullSlotThrows` | `Scan.Matches`, with every entry valid by `Scan.MatchesValid` |
