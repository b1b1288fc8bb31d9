/** `TrackCache` of src/api.ts:130-176: track metadata by id, filled by
    batched lookups of the ids it does not hold yet, never evicted. */
module TrackCaching {
  import opened Wrappers
  import opened Types
  import opened Pagination

  /** The requested ids the cache does not hold, in request order
      (`ids.filter(id => !this.cache.has(id))`, duplicates kept). */
  function Missing(cache: map<string, Track>, ids: seq<string>): (r: seq<string>)
    ensures forall id :: id in r <==> id in ids && id !in cache
    ensures |r| <= |ids|
  {
    if ids == [] then []
    else (if ids[0] !in cache then [ids[0]] else []) + Missing(cache, ids[1..])
  }

  /** `ids.map(id => this.cache.get(id))`. */
  function Lookup(cache: map<string, Track>, ids: seq<string>): (r: seq<Option<Track>>)
    ensures |r| == |ids|
  {
    seq(|ids|, i requires 0 <= i < |ids| => if ids[i] in cache then Some(cache[ids[i]]) else None)
  }

  /** The cache after storing each non-null fetched track under its own id, in order. */
  function Stored(cache: map<string, Track>, fetched: seq<Option<Track>>): map<string, Track> {
    if fetched == [] then cache
    else
      var before := Stored(cache, fetched[..|fetched| - 1]);
      match fetched[|fetched| - 1]
      case None => before
      case Some(t) => before[t.id := t]
  }

  /** The ids reported as not found: `missingIds[i]` for every null `tracks[i]`. */
  function ErrorIds(missing: seq<string>, fetched: seq<Option<Track>>): seq<string>
    requires |fetched| <= |missing|
  {
    if fetched == [] then []
    else ErrorIds(missing, fetched[..|fetched| - 1])
         + (if fetched[|fetched| - 1].None? then [missing[|fetched| - 1]] else [])
  }

  /** Every entry is keyed by its own track id. */
  ghost predicate KeyedById(cache: map<string, Track>) {
    forall k :: k in cache ==> cache[k].id == k
  }

  /** No non-null track fetched after `fetched[i]` has its id. */
  ghost predicate NewestWithId(fetched: seq<Option<Track>>, i: nat)
    requires i < |fetched| && fetched[i].Some?
  {
    forall j :: i < j < |fetched| && fetched[j].Some? ==> fetched[j].value.id != fetched[i].value.id
  }

  /** Storing only adds: the keys grow by exactly the ids of the non-null
      fetched tracks, entries stay keyed by their own id, and entries no
      fetched track names are left alone. */
  lemma {:induction false} StoredProperties(cache: map<string, Track>, fetched: seq<Option<Track>>)
    ensures Stored(cache, fetched).Keys
            == cache.Keys + set i | 0 <= i < |fetched| && fetched[i].Some? :: fetched[i].value.id
    ensures KeyedById(cache) ==> KeyedById(Stored(cache, fetched))
    ensures forall k :: k in cache && (forall i :: 0 <= i < |fetched| && fetched[i].Some? ==> fetched[i].value.id != k)
                        ==> k in Stored(cache, fetched) && Stored(cache, fetched)[k] == cache[k]
    decreases |fetched|
  {
    if fetched != [] {
      var init := fetched[..|fetched| - 1];
      StoredProperties(cache, init);
      var ids := set i | 0 <= i < |fetched| && fetched[i].Some? :: fetched[i].value.id;
      var ids' := set i | 0 <= i < |init| && init[i].Some? :: init[i].value.id;
      var last := fetched[|fetched| - 1];
      if last.Some? {
        assert ids == ids' + {last.value.id};
      } else {
        assert ids == ids';
      }
    }
  }

  /** Later stores overwrite earlier ones: the newest fetched track with
      a given id is the one kept under it. */
  lemma {:induction false} StoredKeepsNewest(cache: map<string, Track>, fetched: seq<Option<Track>>)
    ensures forall i :: 0 <= i < |fetched| && fetched[i].Some? && NewestWithId(fetched, i)
                        ==> fetched[i].value.id in Stored(cache, fetched)
                            && Stored(cache, fetched)[fetched[i].value.id] == fetched[i].value
    decreases |fetched|
  {
    if fetched != [] {
      var init := fetched[..|fetched| - 1];
      StoredKeepsNewest(cache, init);
      forall i | 0 <= i < |init| && init[i].Some? && NewestWithId(fetched, i) ensures NewestWithId(init, i) {
        forall j | i < j < |init| && init[j].Some? ensures init[j].value.id != init[i].value.id {
          assert init[j] == fetched[j];
        }
      }
    }
  }

  /** A null result is reported and a non-null one is stored: an id of
      `missing` at a null position is in the error list, and every error id
      sits at a null position. */
  lemma {:induction false} ErrorIdsExact(missing: seq<string>, fetched: seq<Option<Track>>)
    requires |fetched| <= |missing|
    ensures forall id :: id in ErrorIds(missing, fetched)
                         <==> exists i :: 0 <= i < |fetched| && fetched[i].None? && missing[i] == id
    decreases |fetched|
  {
    if fetched != [] {
      ErrorIdsExact(missing, fetched[..|fetched| - 1]);
    }
  }

  class TrackCache {
    var cache: map<string, Track>
    /** The track lookup endpoint of the client the cache was built with. */
    const tracksGet: TracksGet

    ghost predicate Valid()
      reads this
    {
      KeyedById(cache)
    }

    constructor (tracksGet: TracksGet)
      ensures Valid() && cache == map[] && this.tracksGet == tracksGet
    {
      cache := map[];
      this.tracksGet := tracksGet;
    }

    /** `addTracks(track, id)`: a null track is ignored, otherwise it is
        stored under its own `id` (the `id` argument is not used). */
    method AddTracks(track: Option<Track>, id: string)
      requires Valid()
      modifies this
      ensures Valid()
      ensures cache == Stored(old(cache), [track])
    {
      assert [track][..0] == [];
      if track.Some? {
        cache := cache[track.value.id := track.value];
      }
    }

    /** `getMany(ids)`: no lookup when every id is cached; otherwise one
        `getTracks` of exactly the missing ids, whose non-null results are
        stored and whose null results are reported by id. A rejected lookup
        leaves the cache unchanged. Either way the result is `ids` mapped
        through the cache, same length and order. */
    method GetMany(ids: seq<string>)
      returns (r: Result<seq<Option<Track>>, Failure>, calls: seq<seq<string>>, errorIds: seq<string>,
               ghost fetched: seq<Option<Track>>)
      requires Valid()
      requires OnePerId(tracksGet)
      modifies this
      ensures Valid()
      ensures old(cache).Keys <= cache.Keys
      ensures Missing(old(cache), ids) == [] ==> calls == [] && cache == old(cache) && errorIds == []
      ensures |calls| <= |Chunks(Missing(old(cache), ids), TRACKS_BATCH)|
              && calls == Chunks(Missing(old(cache), ids), TRACKS_BATCH)[..|calls|]
      ensures r.Ok? ==> && |fetched| == |Missing(old(cache), ids)|
                        && cache == Stored(old(cache), fetched)
                        && errorIds == ErrorIds(Missing(old(cache), ids), fetched)
                        && r.value == Lookup(cache, ids)
                        && (forall i :: 0 <= i < |ids| && r.value[i].Some? ==> r.value[i].value.id == ids[i])
                        && (Missing(old(cache), ids) != [] ==>
                              && calls == Chunks(Missing(old(cache), ids), TRACKS_BATCH)
                              && (forall k :: 0 <= k < |calls| ==> tracksGet(calls[k]).Ok?)
                              && fetched == Responses(tracksGet, calls))
      ensures r.Err? ==> cache == old(cache) && errorIds == [] && calls != []
                         && tracksGet(calls[|calls| - 1]) == Err(r.error)
    {
      var missingIds := Missing(cache, ids);
      if |missingIds| == 0 {
        return Ok(Lookup(cache, ids)), [], [], [];
      }
      var response;
      response, calls := GetTracks(tracksGet, missingIds);
      if response.Err? {
        return Err(response.error), calls, [], [];
      }
      var tracks := response.value;
      GetTracksLength(tracksGet, missingIds);
      ghost var before := cache;
      errorIds := StoreFetched(missingIds, tracks);
      StoredProperties(before, tracks);
      fetched := tracks;
      r := Ok(Lookup(cache, ids));
    }

    /** The loop of `getMany`: `tracks[i]` answers `missingIds[i]`; a null
        answer reports the id, any other is stored with `addTracks`. */
    method StoreFetched(missingIds: seq<string>, tracks: seq<Option<Track>>) returns (errorIds: seq<string>)
      requires Valid() && |tracks| == |missingIds|
      modifies this
      ensures Valid()
      ensures cache == Stored(old(cache), tracks)
      ensures errorIds == ErrorIds(missingIds, tracks)
    {
      ghost var before := cache;
      errorIds := [];
      var i := 0;
      while i < |tracks|
        invariant 0 <= i <= |tracks|
        invariant cache == Stored(before, tracks[..i])
        invariant errorIds == ErrorIds(missingIds, tracks[..i])
        invariant KeyedById(cache)
      {
        var track := tracks[i];
        assert tracks[..i + 1][..i] == tracks[..i];
        if track.None? {
          errorIds := errorIds + [missingIds[i]];
        } else {
          cache := cache[track.value.id := track.value];
        }
        i := i + 1;
      }
      assert tracks[..i] == tracks;
    }

    /** `tryGet(id)`: what the cache holds, null on a miss, never a lookup. */
    function TryGet(id: string): (r: Option<Track>)
      reads this
      ensures r.Some? <==> id in cache
      ensures r.Some? ==> r.value == cache[id]
    {
      if id in cache then Some(cache[id]) else None
    }

    /** `tryGetMany(ids)`: `tryGet` of every id, in order. */
    function TryGetMany(ids: seq<string>): (r: seq<Option<Track>>)
      reads this
      ensures |r| == |ids|
      ensures forall i :: 0 <= i < |ids| ==> r[i] == TryGet(ids[i])
    {
      seq(|ids|, i requires 0 <= i < |ids| reads this => TryGet(ids[i]))
    }
  }

  /** After a successful `getMany`, a second `getMany` of any of the same
      ids makes no lookup for them: every requested id that the remote
      answered with a track of that id is cached. */
  lemma {:induction false} FoundIdsCached(cache: map<string, Track>, ids: seq<string>, fetched: seq<Option<Track>>, i: nat)
    requires |fetched| == |Missing(cache, ids)|
    requires i < |fetched| && fetched[i].Some? && fetched[i].value.id == Missing(cache, ids)[i]
    ensures Missing(cache, ids)[i] in Stored(cache, fetched)
  {
    StoredProperties(cache, fetched);
  }

  /** Once every requested id is cached, `getMany` of them fetches nothing. */
  lemma {:induction false} NothingMissingWhenCached(cache: map<string, Track>, ids: seq<string>)
    requires forall i :: 0 <= i < |ids| ==> ids[i] in cache
    ensures Missing(cache, ids) == []
    decreases |ids|
  {
    if ids != [] {
      NothingMissingWhenCached(cache, ids[1..]);
    }
  }
}
