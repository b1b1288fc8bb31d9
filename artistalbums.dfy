/** The album walk of scripts/load_taylorsversion.py: an artist's albums
    are read page by page at growing offsets until as many have been seen
    as the first response's `total` announced, or a page comes back empty. */
module ArtistAlbums {

  /** Albums asked for per page. */
  const PAGE_LIMIT: nat := 50

  /** The offsets the walk asks for, starting at `offset` with `count`
      albums seen; `page(o)` is the items of the page at offset `o`. */
  function WalkOffsets<A>(page: nat -> seq<A>, total: nat, offset: nat, count: nat): seq<nat>
    decreases total - count
  {
    if count >= total then []
    else if page(offset) == [] then [offset]
    else [offset] + WalkOffsets(page, total, offset + PAGE_LIMIT, count + |page(offset)|)
  }

  /** The albums the walk yields from the same starting point. */
  function WalkAlbums<A>(page: nat -> seq<A>, total: nat, offset: nat, count: nat): seq<A>
    decreases total - count
  {
    if count >= total || page(offset) == [] then []
    else page(offset) + WalkAlbums(page, total, offset + PAGE_LIMIT, count + |page(offset)|)
  }

  /** The concatenation of the pages at the given offsets. */
  function PagesAt<A>(page: nat -> seq<A>, offsets: seq<nat>): seq<A> {
    if offsets == [] then [] else page(offsets[0]) + PagesAt(page, offsets[1..])
  }

  /** Every album yielded is an item of a page that was asked for, in the
      order asked: `WalkAlbums` is the concatenation of the pages at
      `WalkOffsets`. */
  lemma {:induction false} WalkIsPages<A>(page: nat -> seq<A>, total: nat, offset: nat, count: nat)
    ensures WalkAlbums(page, total, offset, count) == PagesAt(page, WalkOffsets(page, total, offset, count))
    decreases total - count
  {
    var offsets := WalkOffsets(page, total, offset, count);
    if count < total {
      if page(offset) == [] {
        assert offsets[1..] == [];
      } else {
        WalkIsPages(page, total, offset + PAGE_LIMIT, count + |page(offset)|);
        assert offsets[1..] == WalkOffsets(page, total, offset + PAGE_LIMIT, count + |page(offset)|);
      }
    }
  }

  /** The offsets grow by one page each: the i-th request is at
      `offset + 50 * i`. */
  lemma {:induction false} WalkOffsetsSpaced<A>(page: nat -> seq<A>, total: nat, offset: nat, count: nat)
    ensures forall i :: 0 <= i < |WalkOffsets(page, total, offset, count)| ==>
              WalkOffsets(page, total, offset, count)[i] == offset + PAGE_LIMIT * i
    decreases total - count
  {
    if count < total && page(offset) != [] {
      var rest := WalkOffsets(page, total, offset + PAGE_LIMIT, count + |page(offset)|);
      WalkOffsetsSpaced(page, total, offset + PAGE_LIMIT, count + |page(offset)|);
      assert forall i :: 1 <= i < |rest| + 1 ==> ([offset] + rest)[i] == rest[i - 1];
    }
  }

  /** The walk stops short of `total` only after a page came back empty. */
  lemma {:induction false} WalkStopsShort<A>(page: nat -> seq<A>, total: nat, offset: nat, count: nat)
    ensures count + |WalkAlbums(page, total, offset, count)| < total ==>
              WalkOffsets(page, total, offset, count) != [] &&
              page(WalkOffsets(page, total, offset, count)[|WalkOffsets(page, total, offset, count)| - 1]) == []
    decreases total - count
  {
    if count < total && page(offset) != [] {
      WalkStopsShort(page, total, offset + PAGE_LIMIT, count + |page(offset)|);
      var rest := WalkOffsets(page, total, offset + PAGE_LIMIT, count + |page(offset)|);
      assert WalkOffsets(page, total, offset, count) == [offset] + rest;
    }
  }

  /** Every page before the last one asked for was non-empty. */
  lemma {:induction false} WalkPagesNonEmpty<A>(page: nat -> seq<A>, total: nat, offset: nat, count: nat)
    ensures forall i :: 0 <= i < |WalkOffsets(page, total, offset, count)| - 1 ==>
              page(WalkOffsets(page, total, offset, count)[i]) != []
    decreases total - count
  {
    if count < total && page(offset) != [] {
      WalkPagesNonEmpty(page, total, offset + PAGE_LIMIT, count + |page(offset)|);
      var rest := WalkOffsets(page, total, offset + PAGE_LIMIT, count + |page(offset)|);
      assert forall i :: 1 <= i < |rest| + 1 ==> ([offset] + rest)[i] == rest[i - 1];
    }
  }

  /** `get_all_albums`, after the one-item request that read `total`:
      returns the albums yielded and the offsets asked for. */
  method GetAllAlbums<A>(page: nat -> seq<A>, total: nat) returns (albums: seq<A>, requested: seq<nat>)
    ensures albums == WalkAlbums(page, total, 0, 0)
    ensures requested == WalkOffsets(page, total, 0, 0)
  {
    ghost var allAlbums := WalkAlbums(page, total, 0, 0);
    ghost var allOffsets := WalkOffsets(page, total, 0, 0);
    var offset: nat := 0;
    var count: nat := 0;
    albums := [];
    requested := [];
    while count < total
      invariant count == |albums|
      invariant albums + WalkAlbums(page, total, offset, count) == allAlbums
      invariant requested + WalkOffsets(page, total, offset, count) == allOffsets
      decreases total - count
    {
      var items := page(offset);
      WalkStep(page, total, offset, count);
      requested := requested + [offset];
      if items == [] {
        offset := offset + PAGE_LIMIT;
        break;
      }
      offset := offset + PAGE_LIMIT;
      albums, count := YieldPage(albums, count, items);
    }
  }

  /** One request of the walk, read off the two definitions. */
  lemma WalkStep<A>(page: nat -> seq<A>, total: nat, offset: nat, count: nat)
    requires count < total
    ensures page(offset) == [] ==>
              WalkAlbums(page, total, offset, count) == [] && WalkOffsets(page, total, offset, count) == [offset]
    ensures page(offset) != [] ==>
              WalkAlbums(page, total, offset, count) == page(offset) + WalkAlbums(page, total, offset + PAGE_LIMIT, count + |page(offset)|) &&
              WalkOffsets(page, total, offset, count) == [offset] + WalkOffsets(page, total, offset + PAGE_LIMIT, count + |page(offset)|)
  {
  }

  /** The inner loop of the walk: every item of a page is yielded and
      counted. */
  method YieldPage<A>(albums0: seq<A>, count0: nat, items: seq<A>) returns (albums: seq<A>, count: nat)
    ensures albums == albums0 + items && count == count0 + |items|
  {
    albums, count := albums0, count0;
    for k := 0 to |items|
      invariant albums == albums0 + items[..k]
      invariant count == count0 + k
    {
      albums := albums + [items[k]];
      count := count + 1;
    }
    assert items[..|items|] == items;
  }
}
