/** What the calls of `replacePlaylist` (src/app/replace.ts) do to the
    playlist they edit, with the playlist reduced to its sequence of track
    URIs. Spotify inserts the given URIs before a zero-based index, and it
    removes every occurrence of each URI it is sent. The result: inserting
    highest position first, then removing the selected recordings, puts
    each replacement exactly in the slot of the track it replaces. */
module ReplaceEffect {
  import opened Types
  import opened Pagination
  import opened Replace

  // ---------------------------------------------------------------------
  // The remote's effect on a playlist

  /** An accepted insert call: `call.uris` placed before `call.index`. An
      index past the end is rejected and leaves the playlist as it was. */
  function Insert(t: seq<string>, call: InsertCall): (r: seq<string>)
    ensures 0 <= call.index <= |t| ==> |r| == |t| + |call.uris|
    ensures 0 <= call.index <= |t| ==>
              r[..call.index] == t[..call.index] && r[call.index + |call.uris|..] == t[call.index..]
  {
    if 0 <= call.index <= |t| then t[..call.index] + call.uris + t[call.index..] else t
  }

  /** The insert calls applied one after the other, in issue order. */
  function ApplyInserts(t: seq<string>, calls: seq<InsertCall>): seq<string>
    decreases |calls|
  {
    if calls == [] then t else ApplyInserts(Insert(t, calls[0]), calls[1..])
  }

  /** Every occurrence of the given URIs removed, the rest kept in order. */
  function RemoveAll(t: seq<string>, uris: seq<string>): seq<string> {
    if t == [] then []
    else
      var n := |t| - 1;
      RemoveAll(t[..n], uris) + (if t[n] in uris then [] else [t[n]])
  }

  /** The removal calls applied one after the other. */
  function ApplyRemoves(t: seq<string>, calls: seq<RemoveCall>): seq<string> {
    if calls == [] then t
    else
      var n := |calls| - 1;
      RemoveAll(ApplyRemoves(t, calls[..n]), calls[n].uris)
  }

  // ---------------------------------------------------------------------
  // Reference definitions

  /** Every insert of `newTracks` targets a slot of `s` (1-based). */
  predicate InRange(s: seq<string>, newTracks: seq<TrackInsert>) {
    forall j :: 0 <= j < |newTracks| ==> 1 <= newTracks[j].position <= |s|
  }

  /** `s` with each insert's URI placed just before its slot. */
  function Expanded(s: seq<string>, newTracks: seq<TrackInsert>): (r: seq<string>)
    requires AscendingByPosition(newTracks) && InRange(s, newTracks)
    ensures |r| == |s| + |newTracks|
    decreases |newTracks|
  {
    if newTracks == [] then s
    else
      var m := |newTracks| - 1;
      var p := newTracks[m].position;
      Expanded(s[..p - 1], newTracks[..m]) + [InsertUri(newTracks[m])] + s[p - 1..]
  }

  /** `s` with each insert's slot holding the insert's URI instead. */
  function Replaced(s: seq<string>, newTracks: seq<TrackInsert>): (r: seq<string>)
    requires AscendingByPosition(newTracks) && InRange(s, newTracks)
    ensures |r| == |s|
    decreases |newTracks|
  {
    if newTracks == [] then s
    else
      var m := |newTracks| - 1;
      var p := newTracks[m].position;
      Replaced(s[..p - 1], newTracks[..m]) + [InsertUri(newTracks[m])] + s[p..]
  }

  /** The replaced playlist has the same length, holds each insert's URI at
      its slot, and keeps every other slot as it was. */
  lemma ReplacedAt(s: seq<string>, newTracks: seq<TrackInsert>)
    requires AscendingByPosition(newTracks) && InRange(s, newTracks)
    ensures forall j :: 0 <= j < |newTracks| ==> Replaced(s, newTracks)[newTracks[j].position - 1] == InsertUri(newTracks[j])
    ensures forall n :: 0 <= n < |s| && (forall j :: 0 <= j < |newTracks| ==> newTracks[j].position != n + 1)
                        ==> Replaced(s, newTracks)[n] == s[n]
  {
    ReplacedSlots(s, newTracks);
    ReplacedElsewhere(s, newTracks);
  }

  /** Dropping the last insert keeps the others ascending and inside the
      slots before the last one. */
  lemma InitInRange(s: seq<string>, newTracks: seq<TrackInsert>)
    requires AscendingByPosition(newTracks) && InRange(s, newTracks) && newTracks != []
    ensures var m := |newTracks| - 1;
            && AscendingByPosition(newTracks[..m])
            && InRange(s[..newTracks[m].position - 1], newTracks[..m])
            && forall j :: 0 <= j < m ==> newTracks[..m][j] == newTracks[j] && newTracks[j].position < newTracks[m].position
  {
  }

  lemma {:induction false} ReplacedSlots(s: seq<string>, newTracks: seq<TrackInsert>)
    requires AscendingByPosition(newTracks) && InRange(s, newTracks)
    ensures forall j :: 0 <= j < |newTracks| ==> Replaced(s, newTracks)[newTracks[j].position - 1] == InsertUri(newTracks[j])
    decreases |newTracks|
  {
    if newTracks != [] {
      var m := |newTracks| - 1;
      var p := newTracks[m].position;
      var init := newTracks[..m];
      InitInRange(s, newTracks);
      ReplacedSlots(s[..p - 1], init);
      var head := Replaced(s[..p - 1], init);
      assert Replaced(s, newTracks) == head + [InsertUri(newTracks[m])] + s[p..];
    }
  }

  lemma {:induction false} ReplacedElsewhere(s: seq<string>, newTracks: seq<TrackInsert>)
    requires AscendingByPosition(newTracks) && InRange(s, newTracks)
    ensures forall n :: 0 <= n < |s| && (forall j :: 0 <= j < |newTracks| ==> newTracks[j].position != n + 1)
                        ==> Replaced(s, newTracks)[n] == s[n]
    decreases |newTracks|
  {
    if newTracks != [] {
      var m := |newTracks| - 1;
      var p := newTracks[m].position;
      var init := newTracks[..m];
      InitInRange(s, newTracks);
      ReplacedElsewhere(s[..p - 1], init);
      var head := Replaced(s[..p - 1], init);
      assert Replaced(s, newTracks) == head + [InsertUri(newTracks[m])] + s[p..];
    }
  }

  // ---------------------------------------------------------------------
  // Inserts

  /** An insert inside a prefix leaves the rest of the list untouched. */
  lemma {:induction false} InsertsPrefix(a: seq<string>, b: seq<string>, calls: seq<InsertCall>)
    requires forall k :: 0 <= k < |calls| ==> 0 <= calls[k].index <= |a|
    ensures ApplyInserts(a + b, calls) == ApplyInserts(a, calls) + b
    decreases |calls|
  {
    if calls != [] {
      var c := calls[0];
      assert (a + b)[..c.index] == a[..c.index];
      assert (a + b)[c.index..] == a[c.index..] + b;
      assert Insert(a + b, c) == Insert(a, c) + b;
      InsertsPrefix(Insert(a, c), b, calls[1..]);
    }
  }

  /** Issuing the inserts highest position first places every URI just
      before its original slot: no insert shifts a slot a later insert targets. */
  lemma {:induction false} InsertsExpand(s: seq<string>, playlistId: string, newTracks: seq<TrackInsert>)
    requires AscendingByPosition(newTracks) && InRange(s, newTracks)
    ensures ApplyInserts(s, InsertCalls(playlistId, Reversed(newTracks))) == Expanded(s, newTracks)
    decreases |newTracks|
  {
    if newTracks != [] {
      var m := |newTracks| - 1;
      var last := newTracks[m];
      var p := last.position;
      var init := newTracks[..m];
      var calls := InsertCalls(playlistId, Reversed(init));
      var c := InsertCallFor(playlistId, last);
      InsertCallsLast(playlistId, newTracks);
      InitInRange(s, newTracks);
      InsertsBefore(playlistId, init, p);
      assert Insert(s, c) == s[..p - 1] + ([InsertUri(last)] + s[p - 1..]);
      InsertsPrefix(s[..p - 1], [InsertUri(last)] + s[p - 1..], calls);
      InsertsExpand(s[..p - 1], playlistId, init);
    }
  }

  /** The first call issued is the last entry's; the rest are the others'. */
  lemma InsertCallsLast(playlistId: string, newTracks: seq<TrackInsert>)
    requires newTracks != []
    ensures var m := |newTracks| - 1;
            var calls := InsertCalls(playlistId, Reversed(newTracks));
            calls[0] == InsertCallFor(playlistId, newTracks[m])
            && calls[1..] == InsertCalls(playlistId, Reversed(newTracks[..m]))
  {
  }

  /** Entries before slot `p` give calls that insert before index `p - 1`. */
  lemma InsertsBefore(playlistId: string, init: seq<TrackInsert>, p: nat)
    requires forall j :: 0 <= j < |init| ==> 1 <= init[j].position < p
    ensures var calls := InsertCalls(playlistId, Reversed(init));
            forall k :: 0 <= k < |calls| ==> 0 <= calls[k].index <= p - 1
  {
    var calls := InsertCalls(playlistId, Reversed(init));
    forall k | 0 <= k < |calls|
      ensures 0 <= calls[k].index <= p - 1
    {
      assert calls[k].index == init[|init| - 1 - k].position - 1;
    }
  }

  // ---------------------------------------------------------------------
  // Removals

  lemma {:induction false} RemoveAllConcat(a: seq<string>, b: seq<string>, uris: seq<string>)
    ensures RemoveAll(a + b, uris) == RemoveAll(a, uris) + RemoveAll(b, uris)
    decreases |b|
  {
    if b == [] {
      assert a + b == a;
    } else {
      var n := |b| - 1;
      assert (a + b)[..|a + b| - 1] == a + b[..n];
      RemoveAllConcat(a, b[..n], uris);
    }
  }

  /** Removing nothing that occurs changes nothing. */
  lemma {:induction false} RemoveAllNone(t: seq<string>, uris: seq<string>)
    requires forall i :: 0 <= i < |t| ==> t[i] !in uris
    ensures RemoveAll(t, uris) == t
    decreases |t|
  {
    if t != [] {
      RemoveAllNone(t[..|t| - 1], uris);
    }
  }

  /** Which URIs are removed is all that matters, not their order or count. */
  lemma {:induction false} RemoveAllSameMembers(t: seq<string>, u: seq<string>, v: seq<string>)
    requires forall x :: x in u <==> x in v
    ensures RemoveAll(t, u) == RemoveAll(t, v)
    decreases |t|
  {
    if t != [] {
      RemoveAllSameMembers(t[..|t| - 1], u, v);
    }
  }

  /** Two removals in a row remove the URIs of both. */
  lemma {:induction false} RemoveAllTwice(t: seq<string>, u: seq<string>, v: seq<string>)
    ensures RemoveAll(RemoveAll(t, u), v) == RemoveAll(t, u + v)
    decreases |t|
  {
    if t != [] {
      var n := |t| - 1;
      RemoveAllTwice(t[..n], u, v);
      var last := if t[n] in u then [] else [t[n]];
      RemoveAllConcat(RemoveAll(t[..n], u), last, v);
      if t[n] !in u {
        assert [t[n]][..0] == [];
      }
    }
  }

  /** The removal calls of a batch are issued together: the playlist they
      leave does not depend on the order the remote applies them in. */
  lemma RemovalsCommute(t: seq<string>, u: seq<string>, v: seq<string>)
    ensures RemoveAll(RemoveAll(t, u), v) == RemoveAll(RemoveAll(t, v), u)
  {
    RemoveAllTwice(t, u, v);
    RemoveAllTwice(t, v, u);
    RemoveAllSameMembers(t, u + v, v + u);
  }

  /** The calls together remove the concatenation of their URIs. */
  lemma {:induction false} ApplyRemovesFlatten(t: seq<string>, calls: seq<RemoveCall>)
    ensures ApplyRemoves(t, calls) == RemoveAll(t, Flatten(seq(|calls|, k requires 0 <= k < |calls| => calls[k].uris)))
    decreases |calls|
  {
    if calls == [] {
      RemoveAllNone(t, []);
    } else {
      var n := |calls| - 1;
      var uris := seq(|calls|, k requires 0 <= k < |calls| => calls[k].uris);
      var init := seq(n, k requires 0 <= k < n => calls[..n][k].uris);
      assert uris[..n] == init;
      ApplyRemovesFlatten(t, calls[..n]);
      RemoveAllTwice(t, Flatten(init), calls[n].uris);
    }
  }

  /** A plan's removal calls remove exactly its selected recordings' URIs. */
  lemma RemovalsRemoveSelected(t: seq<string>, plan: PlaylistSelection)
    ensures ApplyRemoves(t, Removals(plan)) == RemoveAll(t, TrackUris(plan.stolenIdsToRemove))
  {
    RemoveCallsProperties(plan.id, plan.stolenIdsToRemove);
    ApplyRemovesFlatten(t, Removals(plan));
  }

  /** The 1-based slots the inserts target, in order. */
  function Positions(newTracks: seq<TrackInsert>): (r: seq<nat>)
    ensures |r| == |newTracks|
  {
    seq(|newTracks|, j requires 0 <= j < |newTracks| => newTracks[j].position)
  }

  /** No element of `t` is one of `uris`. */
  predicate NoneIn(t: seq<string>, uris: seq<string>) {
    forall i :: 0 <= i < |t| ==> t[i] !in uris
  }

  /** The conditions of `RemoveExpand`, slot by slot from the last insert
      backwards: each insert's URI is not removed, its slot is, and no slot
      between two inserts is. */
  predicate Covers(s: seq<string>, newTracks: seq<TrackInsert>, uris: seq<string>)
    requires AscendingByPosition(newTracks) && InRange(s, newTracks)
    decreases |newTracks|
  {
    if newTracks == [] then NoneIn(s, uris)
    else
      var m := |newTracks| - 1;
      var p := newTracks[m].position;
      && Covers(s[..p - 1], newTracks[..m], uris)
      && InsertUri(newTracks[m]) !in uris && s[p - 1] in uris
      && NoneIn(s[p..], uris)
  }

  /** One step of `RemoveExpand`: the inserted URI stays, the slot after it goes. */
  lemma RemoveAllStep(e: seq<string>, u: string, x: string, rest: seq<string>, uris: seq<string>)
    requires u !in uris && x in uris
    ensures RemoveAll(e + [u] + ([x] + rest), uris) == RemoveAll(e, uris) + [u] + RemoveAll(rest, uris)
  {
    RemoveAllConcat(e + [u], [x] + rest, uris);
    RemoveAllConcat(e, [u], uris);
    RemoveAllConcat([x], rest, uris);
    assert [u][..0] == [] && [x][..0] == [];
  }

  /** Removing the selected URIs after the inserts leaves each insert in
      its slot's place: every selected slot goes, every inserted URI stays,
      and nothing else is touched. */
  lemma {:induction false} RemoveExpand(s: seq<string>, newTracks: seq<TrackInsert>, uris: seq<string>)
    requires AscendingByPosition(newTracks) && InRange(s, newTracks)
    requires Covers(s, newTracks, uris)
    ensures RemoveAll(Expanded(s, newTracks), uris) == Replaced(s, newTracks)
    decreases |newTracks|
  {
    if newTracks == [] {
      RemoveAllNone(s, uris);
    } else {
      var m := |newTracks| - 1;
      var last := newTracks[m];
      var p := last.position;
      var head := s[..p - 1];
      InitInRange(s, newTracks);
      RemoveExpand(head, newTracks[..m], uris);
      RemoveAllNone(s[p..], uris);
      assert s[p - 1..] == [s[p - 1]] + s[p..];
      RemoveAllStep(Expanded(head, newTracks[..m]), InsertUri(last), s[p - 1], s[p..], uris);
    }
  }

  /** The slot conditions stated over the whole playlist give `Covers`:
      every insert's slot holds a removed URI, no replacement URI is
      removed, and every slot without an insert holds no removed URI. */
  lemma {:induction false} CoversFromSlots(s: seq<string>, newTracks: seq<TrackInsert>, uris: seq<string>)
    requires AscendingByPosition(newTracks) && InRange(s, newTracks)
    requires forall j :: 0 <= j < |newTracks| ==> s[newTracks[j].position - 1] in uris
    requires forall j :: 0 <= j < |newTracks| ==> InsertUri(newTracks[j]) !in uris
    requires forall n :: 0 <= n < |s| && n + 1 !in Positions(newTracks) ==> s[n] !in uris
    ensures Covers(s, newTracks, uris)
    decreases |newTracks|
  {
    if newTracks != [] {
      var m := |newTracks| - 1;
      var p := newTracks[m].position;
      InitInRange(s, newTracks);
      SlotsInit(s, newTracks, uris);
      TailClear(s, newTracks, uris);
      CoversFromSlots(s[..p - 1], newTracks[..m], uris);
    }
  }

  /** The slot conditions carry over to the slots before the last insert. */
  lemma SlotsInit(s: seq<string>, newTracks: seq<TrackInsert>, uris: seq<string>)
    requires AscendingByPosition(newTracks) && InRange(s, newTracks) && newTracks != []
    requires forall j :: 0 <= j < |newTracks| ==> s[newTracks[j].position - 1] in uris
    requires forall j :: 0 <= j < |newTracks| ==> InsertUri(newTracks[j]) !in uris
    requires forall n :: 0 <= n < |s| && n + 1 !in Positions(newTracks) ==> s[n] !in uris
    ensures var m := |newTracks| - 1;
            var head := s[..newTracks[m].position - 1];
            var init := newTracks[..m];
            && (forall j :: 0 <= j < |init| ==> 1 <= init[j].position <= |head| && head[init[j].position - 1] in uris)
            && (forall j :: 0 <= j < |init| ==> InsertUri(init[j]) !in uris)
            && (forall n :: 0 <= n < |head| && n + 1 !in Positions(init) ==> head[n] !in uris)
  {
    var m := |newTracks| - 1;
    var p := newTracks[m].position;
    InitInRange(s, newTracks);
    assert Positions(newTracks) == Positions(newTracks[..m]) + [p];
  }

  /** No slot after the last insert holds a removed URI. */
  lemma TailClear(s: seq<string>, newTracks: seq<TrackInsert>, uris: seq<string>)
    requires AscendingByPosition(newTracks) && InRange(s, newTracks) && newTracks != []
    requires forall n :: 0 <= n < |s| && n + 1 !in Positions(newTracks) ==> s[n] !in uris
    ensures NoneIn(s[newTracks[|newTracks| - 1].position..], uris)
  {
    var m := |newTracks| - 1;
    var p := newTracks[m].position;
    forall i | 0 <= i < |s[p..]|
      ensures s[p..][i] !in uris
    {
      forall j | 0 <= j < |newTracks|
        ensures Positions(newTracks)[j] != p + i + 1
      {
        if j < m {
          assert newTracks[j].position < p;
        }
      }
    }
  }

  // ---------------------------------------------------------------------
  // The plan as a whole

  /** A plan whose inserts all target slots holding one of its selected
      recordings, whose replacement URIs are not selected, and which has an
      insert for every occurrence of a selected recording: once every call
      is accepted, the playlist is `Replaced(s, plan.newTracks)`, which by
      `ReplacedAt` keeps its length, holds each replacement in its slot and
      leaves every other slot as it was. */
  lemma PlanReplacesSelectedSlots(s: seq<string>, plan: PlaylistSelection)
    requires AscendingByPosition(plan.newTracks) && InRange(s, plan.newTracks)
    requires forall j :: 0 <= j < |plan.newTracks| ==> s[plan.newTracks[j].position - 1] in TrackUris(plan.stolenIdsToRemove)
    requires forall j :: 0 <= j < |plan.newTracks| ==> InsertUri(plan.newTracks[j]) !in TrackUris(plan.stolenIdsToRemove)
    requires forall n :: 0 <= n < |s| && n + 1 !in Positions(plan.newTracks) ==> s[n] !in TrackUris(plan.stolenIdsToRemove)
    ensures ApplyRemoves(ApplyInserts(s, PlanInserts(plan)), Removals(plan)) == Replaced(s, plan.newTracks)
  {
    var uris := TrackUris(plan.stolenIdsToRemove);
    InsertsExpand(s, plan.id, plan.newTracks);
    RemovalsRemoveSelected(ApplyInserts(s, PlanInserts(plan)), plan);
    CoversFromSlots(s, plan.newTracks, uris);
    RemoveExpand(s, plan.newTracks, uris);
  }
}
