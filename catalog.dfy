/** The offline builder of the catalog `taylorsversions.json`
    (scripts/load_taylorsversion.py): which re-recorded track replaces
    which earlier recording, the preference order of the replacements,
    and the map from a stolen recording's ISRC to its replacement ids. */
module CatalogBuilder {
  import opened Wrappers
  import opened Text
  import opened Types

  /** A track of the artist's discography as the builder loads it. */
  datatype CatalogTrack = CatalogTrack(name: string, albumName: string, albumType: string, isrc: string, id: string)

  const TV_MARK: string := "(Taylor's Version)"
  const VAULT_MARK: string := "(From The Vault)"
  const VERSION_MARK: string := " Version)"

  // ---------------------------------------------------------------------
  // Names

  /** `normalize_name`: the typographic apostrophe becomes `'`, and two
      spellings are aligned with their re-recorded titles. */
  function NormalizeName(name: string): string {
    ReplaceAll(ReplaceAll(ReplaceAll(name, "’", "'"), "SuperStar", "Superstar"),
               "I Knew You Were Trouble.", "I Knew You Were Trouble")
  }

  /** A normalised name has no typographic apostrophe: the first
      replacement removes them and the later ones do not bring one back. */
  lemma NormalizedHasNoCurlyApostrophe(name: string)
    ensures '’' !in NormalizeName(name)
  {
    var a := ReplaceAll(name, "’", "'");
    var b := ReplaceAll(a, "SuperStar", "Superstar");
    ReplaceAllRemovesChar(name, '’', "'");
    ReplaceAllChars(a, "SuperStar", "Superstar", '’');
    ReplaceAllChars(b, "I Knew You Were Trouble.", "I Knew You Were Trouble", '’');
  }

  /** `remove_tv`: the text before the first `(`, whitespace stripped. */
  function RemoveTv(name: string): string {
    Strip(BeforeFirst(name, '('))
  }

  /** The song name has no `(`. */
  lemma RemoveTvHasNoParen(name: string)
    ensures '(' !in RemoveTv(name)
  {
    StripChars(BeforeFirst(name, '('), '(');
  }

  /** A string without `(` is its own part before the first `(`. */
  lemma {:induction false} BeforeFirstAbsent(s: string, c: char)
    requires c !in s
    ensures BeforeFirst(s, c) == s
    decreases |s|
  {
    if |s| > 0 {
      assert c !in s[1..] by { SliceMembers(s, 1, |s|, c); }
      BeforeFirstAbsent(s[1..], c);
      assert s == [s[0]] + s[1..];
    }
  }

  lemma RemoveTvIdempotent(name: string)
    ensures RemoveTv(RemoveTv(name)) == RemoveTv(name)
  {
    var r := RemoveTv(name);
    RemoveTvHasNoParen(name);
    BeforeFirstAbsent(r, '(');
    StripIdempotent(BeforeFirst(name, '('));
  }

  // ---------------------------------------------------------------------
  // Which track replaces which

  /** A normalised name that marks a re-recording eligible to replace:
      it carries the Taylor's Version mark and not the vault mark. */
  predicate IsReplacingName(name: string) {
    Contains(name, TV_MARK) && !Contains(name, VAULT_MARK)
  }

  /** The stolen-side test: the normalised name starts with the song name
      and has no `... Version)` mark (which also rules out other versions). */
  predicate MatchesSong(songName: string, stolenName: string) {
    StartsWith(stolenName, songName) && !Contains(stolenName, VERSION_MARK)
  }

  /** The relation the matching loops build: `tv` replaces `stolen` when
      `tv` is an eligible re-recording and `stolen`'s normalised name
      matches `tv`'s song name. */
  predicate Replaces(tv: CatalogTrack, stolen: CatalogTrack) {
    var name := NormalizeName(tv.name);
    IsReplacingName(name) && MatchesSong(RemoveTv(name), NormalizeName(stolen.name))
  }

  /** A re-recording never replaces itself: its name carries the Taylor's
      Version mark, which contains the ` Version)` mark the stolen side
      must not have. */
  lemma NeverItsOwnStolen(t: CatalogTrack)
    ensures !Replaces(t, t)
  {
    var name := NormalizeName(t.name);
    if Replaces(t, t) {
      assert TV_MARK[9..9 + |VERSION_MARK|] == VERSION_MARK;
      ContainsAt(TV_MARK, VERSION_MARK, 9);
      ContainsTransitive(name, TV_MARK, VERSION_MARK);
    }
  }

  /** The indices below `n` that `keep` holds for, ascending. */
  function Upto(n: nat, keep: nat -> bool): (r: seq<nat>)
    ensures forall i :: 0 <= i < |r| ==> r[i] < n
  {
    if n == 0 then [] else Upto(n - 1, keep) + (if keep(n - 1) then [n - 1] else [])
  }

  /** `Upto` holds exactly the indices `keep` selects, each once and ascending. */
  lemma {:induction false} UptoExactly(n: nat, keep: nat -> bool)
    ensures forall x: nat :: x in Upto(n, keep) <==> x < n && keep(x)
    ensures forall i, j :: 0 <= i < j < |Upto(n, keep)| ==> Upto(n, keep)[i] < Upto(n, keep)[j]
  {
    if n > 0 {
      UptoExactly(n - 1, keep);
    }
  }

  /** A relation between tracks; the loops below are stated for any
      relation that agrees with `Replaces`. */
  type Relation = (CatalogTrack, CatalogTrack) -> bool

  ghost predicate IsReplaces(rel: Relation) {
    forall a, b {:trigger Replaces(a, b)} :: rel(a, b) == Replaces(a, b)
  }

  /** The tracks `tracks[t]` replaces, by index. */
  function StolenBy(tracks: seq<CatalogTrack>, t: nat, rel: Relation): nat -> bool
    requires t < |tracks|
  {
    (s: nat) => s < |tracks| && rel(tracks[t], tracks[s])
  }

  /** The tracks that replace `tracks[s]`, by index. */
  function ReplacersOf(tracks: seq<CatalogTrack>, s: nat, rel: Relation): nat -> bool
    requires s < |tracks|
  {
    (t: nat) => t < |tracks| && rel(tracks[t], tracks[s])
  }

  /** The matching loops: for every eligible re-recording, every track whose
      name it prefixes is added to its `replaces` and gets it added to its
      `replacements`. A set is kept as its elements in insertion order,
      which is ascending by index here. */
  method MatchTracks(tracks: seq<CatalogTrack>) returns (replacing: seq<seq<nat>>, replacements: seq<seq<nat>>)
    ensures |replacing| == |tracks| && |replacements| == |tracks|
    ensures forall t :: 0 <= t < |tracks| ==> replacing[t] == Upto(|tracks|, StolenBy(tracks, t, Replaces))
    ensures forall s :: 0 <= s < |tracks| ==> replacements[s] == Upto(|tracks|, ReplacersOf(tracks, s, Replaces))
  {
    replacing, replacements := MatchAll(tracks, Replaces);
  }

  /** The outer loop, over the would-be re-recordings. */
  method MatchAll(tracks: seq<CatalogTrack>, rel: Relation) returns (replacing: seq<seq<nat>>, replacements: seq<seq<nat>>)
    requires IsReplaces(rel)
    ensures |replacing| == |tracks| && |replacements| == |tracks|
    ensures forall t :: 0 <= t < |tracks| ==> replacing[t] == Upto(|tracks|, StolenBy(tracks, t, rel))
    ensures forall s :: 0 <= s < |tracks| ==> replacements[s] == Upto(|tracks|, ReplacersOf(tracks, s, rel))
  {
    var n := |tracks|;
    replacing := seq(n, _ => []);
    replacements := seq(n, _ => []);
    for t := 0 to n
      invariant |replacing| == n && |replacements| == n
      invariant forall i :: 0 <= i < t ==> replacing[i] == Upto(n, StolenBy(tracks, i, rel))
      invariant forall i :: t <= i < n ==> replacing[i] == []
      invariant forall s :: 0 <= s < n ==> replacements[s] == Upto(t, ReplacersOf(tracks, s, rel))
    {
      var name := NormalizeName(tracks[t].name);
      if IsReplacingName(name) {
        replacing, replacements := MatchOne(tracks, t, rel, replacing, replacements);
      } else {
        forall s | 0 <= s < n
          ensures Upto(t + 1, ReplacersOf(tracks, s, rel)) == Upto(t, ReplacersOf(tracks, s, rel))
          ensures !StolenBy(tracks, t, rel)(s)
        {
          assert !Replaces(tracks[t], tracks[s]);
        }
        NoneSelected(n, StolenBy(tracks, t, rel));
      }
    }
  }

  /** Nothing selected below `n` gives no indices. */
  lemma {:induction false} NoneSelected(n: nat, keep: nat -> bool)
    requires forall x: nat :: x < n ==> !keep(x)
    ensures Upto(n, keep) == []
  {
    if n > 0 {
      NoneSelected(n - 1, keep);
    }
  }

  /** The inner loop for one eligible re-recording `tracks[t]`. */
  method MatchOne(tracks: seq<CatalogTrack>, t: nat, rel: Relation, replacing0: seq<seq<nat>>, replacements0: seq<seq<nat>>)
    returns (replacing: seq<seq<nat>>, replacements: seq<seq<nat>>)
    requires IsReplaces(rel)
    requires t < |tracks| && |replacing0| == |tracks| && |replacements0| == |tracks|
    requires IsReplacingName(NormalizeName(tracks[t].name)) && replacing0[t] == []
    requires forall s :: 0 <= s < |tracks| ==> replacements0[s] == Upto(t, ReplacersOf(tracks, s, rel))
    ensures |replacing| == |tracks| && |replacements| == |tracks|
    ensures replacing[t] == Upto(|tracks|, StolenBy(tracks, t, rel))
    ensures forall i :: 0 <= i < |tracks| && i != t ==> replacing[i] == replacing0[i]
    ensures forall s :: 0 <= s < |tracks| ==> replacements[s] == Upto(t + 1, ReplacersOf(tracks, s, rel))
  {
    var n := |tracks|;
    var name := NormalizeName(tracks[t].name);
    var songName := RemoveTv(name);
    var found: seq<nat> := [];
    replacements := replacements0;
    for s := 0 to n
      invariant |replacements| == n
      invariant found == Upto(s, StolenBy(tracks, t, rel))
      invariant forall i :: 0 <= i < s ==> replacements[i] == Upto(t + 1, ReplacersOf(tracks, i, rel))
      invariant forall i :: s <= i < n ==> replacements[i] == replacements0[i]
    {
      ghost var before := replacements;
      found, replacements := MatchStep(tracks, t, s, rel, songName, found, replacements);
      SettledStep(tracks, t, s, rel, before, replacements);
    }
    replacing := replacing0[t := found];
  }

  /** One pass of the inner loop: `tracks[s]` is matched against the song
      name of `tracks[t]` and, on a match, recorded on both sides. */
  method MatchStep(tracks: seq<CatalogTrack>, t: nat, s: nat, rel: Relation, songName: string, found0: seq<nat>, replacements0: seq<seq<nat>>)
    returns (found: seq<nat>, replacements: seq<seq<nat>>)
    requires IsReplaces(rel)
    requires t < |tracks| && s < |tracks| && |replacements0| == |tracks|
    requires IsReplacingName(NormalizeName(tracks[t].name)) && songName == RemoveTv(NormalizeName(tracks[t].name))
    requires found0 == Upto(s, StolenBy(tracks, t, rel)) && replacements0[s] == Upto(t, ReplacersOf(tracks, s, rel))
    ensures found == Upto(s + 1, StolenBy(tracks, t, rel))
    ensures |replacements| == |tracks| && replacements[s] == Upto(t + 1, ReplacersOf(tracks, s, rel))
    ensures forall i :: 0 <= i < |tracks| && i != s ==> replacements[i] == replacements0[i]
  {
    var stolenName := NormalizeName(tracks[s].name);
    var matched := MatchesSong(songName, stolenName);
    assert Replaces(tracks[t], tracks[s]) == matched;
    assert StolenBy(tracks, t, rel)(s) == matched && ReplacersOf(tracks, s, rel)(t) == matched;
    found, replacements := found0, replacements0;
    if matched {
      found := found + [s];
      replacements := replacements[s := replacements[s] + [t]];
    }
  }

  /** One more column of the inner loop settled. */
  lemma SettledStep(tracks: seq<CatalogTrack>, t: nat, s: nat, rel: Relation, before: seq<seq<nat>>, after: seq<seq<nat>>)
    requires t < |tracks| && s < |tracks| && |before| == |tracks| && |after| == |tracks|
    requires forall i :: 0 <= i < s ==> before[i] == Upto(t + 1, ReplacersOf(tracks, i, rel))
    requires after[s] == Upto(t + 1, ReplacersOf(tracks, s, rel))
    requires forall i :: 0 <= i < |tracks| && i != s ==> after[i] == before[i]
    ensures forall i :: 0 <= i < s + 1 ==> after[i] == Upto(t + 1, ReplacersOf(tracks, i, rel))
  {
  }

  /** The two relations the loops build are inverse to each other, and
      both are `Replaces`. */
  lemma MatchedInverse(tracks: seq<CatalogTrack>, t: nat, s: nat)
    requires t < |tracks| && s < |tracks|
    ensures s in Upto(|tracks|, StolenBy(tracks, t, Replaces)) <==> Replaces(tracks[t], tracks[s])
    ensures t in Upto(|tracks|, ReplacersOf(tracks, s, Replaces)) <==> Replaces(tracks[t], tracks[s])
  {
    UptoExactly(|tracks|, StolenBy(tracks, t, Replaces));
    UptoExactly(|tracks|, ReplacersOf(tracks, s, Replaces));
  }

  // ---------------------------------------------------------------------
  // Preference order of the replacements

  /** Python's `<` on tuples of booleans: lexicographic, `False < True`,
      a proper prefix before its extensions. */
  predicate KeyLess(a: seq<bool>, b: seq<bool>)
    decreases |a|
  {
    if a == [] then b != []
    else if b == [] then false
    else if a[0] != b[0] then !a[0]
    else KeyLess(a[1..], b[1..])
  }

  lemma {:induction false} KeyLessIrreflexive(a: seq<bool>)
    ensures !KeyLess(a, a)
    decreases |a|
  {
    if a != [] {
      KeyLessIrreflexive(a[1..]);
    }
  }

  lemma {:induction false} KeyLessTransitive(a: seq<bool>, b: seq<bool>, c: seq<bool>)
    requires KeyLess(a, b) && KeyLess(b, c)
    ensures KeyLess(a, c)
    decreases |a|
  {
    if a != [] && b != [] && c != [] && a[0] == b[0] == c[0] {
      KeyLessTransitive(a[1..], b[1..], c[1..]);
    }
  }

  lemma {:induction false} KeyLessTotal(a: seq<bool>, b: seq<bool>)
    ensures a == b || KeyLess(a, b) || KeyLess(b, a)
    decreases |a|
  {
    if a != [] && b != [] && a[0] == b[0] {
      KeyLessTotal(a[1..], b[1..]);
      if a[1..] == b[1..] {
        assert a == [a[0]] + a[1..] && b == [b[0]] + b[1..];
      }
    }
  }

  /** Not-less-than is transitive, as a total order's complement must be. */
  lemma NotLessTransitive(a: seq<bool>, b: seq<bool>, c: seq<bool>)
    requires !KeyLess(a, b) && !KeyLess(b, c)
    ensures !KeyLess(a, c)
  {
    if KeyLess(a, c) {
      KeyLessTotal(a, b);
      if KeyLess(b, a) {
        KeyLessTransitive(b, a, c);
      }
    }
  }

  /** The sort key of a candidate replacement `track` for `stolen`, most
      important first: exact song-title match, not a remix, same acoustic
      flavour, same piano flavour, song title in the album name, released
      on an album, and titled like its album. */
  function SortKey(stolen: CatalogTrack, track: CatalogTrack): (k: seq<bool>)
    ensures |k| == 7
  {
    var songName := NormalizeName(stolen.name);
    [ songName == RemoveTv(NormalizeName(track.name)),
      !Contains(track.name, "Remix"),
      Contains(stolen.name, "Acoustic") == Contains(track.name, "Acoustic"),
      Contains(stolen.name, "Piano") == Contains(track.name, "Piano"),
      Contains(track.albumName, songName),
      track.albumType == "album",
      track.name == track.albumName ]
  }

  /** The key of every candidate for `stolen`. */
  function KeyFor(stolen: CatalogTrack): CatalogTrack -> seq<bool> {
    (track: CatalogTrack) => SortKey(stolen, track)
  }

  /** Non-increasing by key. */
  predicate Descending<T>(ys: seq<T>, key: T -> seq<bool>) {
    forall i, j :: 0 <= i < j < |ys| ==> !KeyLess(key(ys[i]), key(ys[j]))
  }

  /** `x` placed after every element whose key is not below its own. */
  function InsertDesc<T>(ys: seq<T>, x: T, key: T -> seq<bool>): seq<T>
    decreases |ys|
  {
    if ys == [] then [x]
    else
      var m := |ys| - 1;
      if !KeyLess(key(ys[m]), key(x)) then ys + [x] else InsertDesc(ys[..m], x, key) + [ys[m]]
  }

  /** `sorted(xs, key=key, reverse=True)`: non-increasing by key, and
      stable, so equal keys keep their order in `xs`. */
  function SortDesc<T>(xs: seq<T>, key: T -> seq<bool>): seq<T> {
    if xs == [] then [] else InsertDesc(SortDesc(xs[..|xs| - 1], key), xs[|xs| - 1], key)
  }

  lemma {:induction false} InsertDescPermutes<T>(ys: seq<T>, x: T, key: T -> seq<bool>)
    ensures multiset(InsertDesc(ys, x, key)) == multiset(ys) + multiset{x}
    decreases |ys|
  {
    if ys != [] {
      var m := |ys| - 1;
      assert ys == ys[..m] + [ys[m]];
      if KeyLess(key(ys[m]), key(x)) {
        InsertDescPermutes(ys[..m], x, key);
      }
    }
  }

  lemma {:induction false} InsertDescOrdered<T>(ys: seq<T>, x: T, key: T -> seq<bool>)
    requires Descending(ys, key)
    ensures Descending(InsertDesc(ys, x, key), key)
    decreases |ys|
  {
    if ys != [] {
      var m := |ys| - 1;
      var last := ys[m];
      if !KeyLess(key(last), key(x)) {
        forall i | 0 <= i < m
          ensures !KeyLess(key(ys[i]), key(x))
        {
          NotLessTransitive(key(ys[i]), key(last), key(x));
        }
      } else {
        InsertDescOrdered(ys[..m], x, key);
        InsertDescPermutes(ys[..m], x, key);
        InsertedBelowLast(ys, x, key, InsertDesc(ys[..m], x, key));
      }
    }
  }

  /** When `x` goes before the last element, everything in front of that
      element stays not below it. */
  lemma InsertedBelowLast<T>(ys: seq<T>, x: T, key: T -> seq<bool>, rest: seq<T>)
    requires ys != [] && Descending(ys, key)
    requires KeyLess(key(ys[|ys| - 1]), key(x))
    requires multiset(rest) == multiset(ys[..|ys| - 1]) + multiset{x}
    ensures forall i :: 0 <= i < |rest| ==> !KeyLess(key(rest[i]), key(ys[|ys| - 1]))
  {
    var m := |ys| - 1;
    var last := ys[m];
    forall i | 0 <= i < |rest|
      ensures !KeyLess(key(rest[i]), key(last))
    {
      assert rest[i] in multiset(ys[..m]) + multiset{x};
      if rest[i] == x {
        if KeyLess(key(x), key(last)) {
          KeyLessTransitive(key(x), key(last), key(x));
          KeyLessIrreflexive(key(x));
        }
      } else {
        assert rest[i] in ys[..m];
        var k :| 0 <= k < m && ys[k] == rest[i];
        assert !KeyLess(key(ys[k]), key(ys[m]));
      }
    }
  }

  /** The sort permutes its input into non-increasing key order. */
  lemma {:induction false} SortDescCorrect<T>(xs: seq<T>, key: T -> seq<bool>)
    ensures multiset(SortDesc(xs, key)) == multiset(xs)
    ensures Descending(SortDesc(xs, key), key)
    decreases |xs|
  {
    if xs != [] {
      var n := |xs| - 1;
      SortDescCorrect(xs[..n], key);
      InsertDescPermutes(SortDesc(xs[..n], key), xs[n], key);
      InsertDescOrdered(SortDesc(xs[..n], key), xs[n], key);
      assert xs == xs[..n] + [xs[n]];
    }
  }

  /** The sort leaves an already ordered list as it is, so in particular
      replacements with equal keys are not reordered. */
  lemma {:induction false} SortDescKeepsOrdered<T>(xs: seq<T>, key: T -> seq<bool>)
    requires Descending(xs, key)
    ensures SortDesc(xs, key) == xs
    decreases |xs|
  {
    if xs != [] {
      var n := |xs| - 1;
      assert Descending(xs[..n], key);
      SortDescKeepsOrdered(xs[..n], key);
      if n > 0 {
        assert !KeyLess(key(xs[..n][n - 1]), key(xs[n]));
      }
      assert xs == xs[..n] + [xs[n]];
    }
  }

  // ---------------------------------------------------------------------
  // The output map

  /** The tracks at the indices `idx`, in that order. */
  function Members(tracks: seq<CatalogTrack>, idx: seq<nat>): (r: seq<CatalogTrack>)
    requires forall i :: 0 <= i < |idx| ==> idx[i] < |tracks|
    ensures |r| == |idx|
    ensures forall i :: 0 <= i < |idx| ==> r[i] == tracks[idx[i]]
  {
    seq(|idx|, i requires 0 <= i < |idx| => tracks[idx[i]])
  }

  function Ids(xs: seq<CatalogTrack>): (r: seq<string>)
    ensures |r| == |xs|
    ensures forall i :: 0 <= i < |xs| ==> r[i] == xs[i].id
  {
    seq(|xs|, i requires 0 <= i < |xs| => xs[i].id)
  }

  /** The ordered replacements of the track at `s`. */
  function SortedReplacements(tracks: seq<CatalogTrack>, s: nat): seq<CatalogTrack>
    requires s < |tracks|
  {
    SortDesc(Members(tracks, Upto(|tracks|, ReplacersOf(tracks, s, Replaces))), KeyFor(tracks[s]))
  }

  /** The entry written for a stolen track with a non-empty ordered list. */
  function Entry(stolen: CatalogTrack, sorted: seq<CatalogTrack>): StolenReplacements {
    StolenReplacements(Ids(sorted), Contains(LowerAscii(stolen.name), "live"), Contains(LowerAscii(stolen.name), "remix"))
  }

  /** Sorting the tracks selected by `keep` yields each selected track as
      often as it is selected, and nothing else. */
  lemma SortedSelection(tracks: seq<CatalogTrack>, keep: nat -> bool, key: CatalogTrack -> seq<bool>)
    ensures forall i :: 0 <= i < |Upto(|tracks|, keep)| ==> Upto(|tracks|, keep)[i] < |tracks|
    ensures multiset(SortDesc(Members(tracks, Upto(|tracks|, keep)), key)) == multiset(Members(tracks, Upto(|tracks|, keep)))
    ensures Descending(SortDesc(Members(tracks, Upto(|tracks|, keep)), key), key)
    ensures forall x :: x in SortDesc(Members(tracks, Upto(|tracks|, keep)), key) <==>
              exists t :: 0 <= t < |tracks| && tracks[t] == x && keep(t)
  {
    var idx := Upto(|tracks|, keep);
    var xs := Members(tracks, idx);
    SortDescCorrect(xs, key);
    UptoExactly(|tracks|, keep);
    forall x
      ensures x in SortDesc(xs, key) <==> exists t :: 0 <= t < |tracks| && tracks[t] == x && keep(t)
    {
      assert x in SortDesc(xs, key) <==> x in multiset(xs);
      if x in xs {
        var i :| 0 <= i < |xs| && xs[i] == x;
        assert idx[i] in idx;
      }
      if t :| 0 <= t < |tracks| && tracks[t] == x && keep(t) {
        assert t in idx;
        var i :| 0 <= i < |idx| && idx[i] == t;
        assert xs[i] == x;
      }
    }
  }

  /** The ordered list of a stolen track is exactly its re-recordings, each
      as often as it occurs among the tracks, best first. */
  lemma SortedReplacementsCorrect(tracks: seq<CatalogTrack>, s: nat)
    requires s < |tracks|
    ensures multiset(SortedReplacements(tracks, s)) == multiset(Members(tracks, Upto(|tracks|, ReplacersOf(tracks, s, Replaces))))
    ensures Descending(SortedReplacements(tracks, s), KeyFor(tracks[s]))
    ensures forall x :: x in SortedReplacements(tracks, s) <==> exists t :: 0 <= t < |tracks| && tracks[t] == x && Replaces(x, tracks[s])
  {
    SortedSelection(tracks, ReplacersOf(tracks, s, Replaces), KeyFor(tracks[s]));
  }

  /** Key tuples of one length compare at their first difference. */
  lemma {:induction false} KeyLessAtFirstDifference(a: seq<bool>, b: seq<bool>, d: nat)
    requires |a| == |b| && d < |a| && a[..d] == b[..d]
    ensures !a[d] && b[d] ==> KeyLess(a, b)
    decreases d
  {
    if d > 0 {
      assert a[0] == a[..d][0] && b[0] == b[..d][0];
      assert a[1..][..d - 1] == a[..d][1..] && b[1..][..d - 1] == b[..d][1..];
      KeyLessAtFirstDifference(a[1..], b[1..], d - 1);
    }
  }

  /** In a stolen track's ordered list the criteria decide most important
      first: of two replacements that agree on the first `d` criteria, the
      later one meets criterion `d` only if the earlier one does. So an
      exact song-name match precedes every other, a non-remix precedes a
      remix among those, and so on down the seven criteria. */
  lemma RankedByCriteria(tracks: seq<CatalogTrack>, s: nat, i: nat, j: nat, d: nat)
    requires s < |tracks| && i < j < |SortedReplacements(tracks, s)| && d < 7
    requires SortKey(tracks[s], SortedReplacements(tracks, s)[i])[..d] == SortKey(tracks[s], SortedReplacements(tracks, s)[j])[..d]
    ensures SortKey(tracks[s], SortedReplacements(tracks, s)[j])[d] ==> SortKey(tracks[s], SortedReplacements(tracks, s)[i])[d]
  {
    var ys := SortedReplacements(tracks, s);
    SortedReplacementsCorrect(tracks, s);
    assert !KeyLess(KeyFor(tracks[s])(ys[i]), KeyFor(tracks[s])(ys[j]));
    KeyLessAtFirstDifference(SortKey(tracks[s], ys[i]), SortKey(tracks[s], ys[j]), d);
  }

  /** Only a name marked as a re-recording, and not as a vault track, ever
      replaces anything. */
  lemma OnlyReplacingNamesReplace(tracks: seq<CatalogTrack>, t: nat)
    requires t < |tracks| && Upto(|tracks|, StolenBy(tracks, t, Replaces)) != []
    ensures IsReplacingName(NormalizeName(tracks[t].name))
  {
    UptoExactly(|tracks|, StolenBy(tracks, t, Replaces));
    var s := Upto(|tracks|, StolenBy(tracks, t, Replaces))[0];
    assert s in Upto(|tracks|, StolenBy(tracks, t, Replaces));
  }

  /** The per-track sort, one stolen track at a time; `keyOf(stolen)` is
      the key of the candidates for `stolen`. */
  method SortAll(tracks: seq<CatalogTrack>, replacements: seq<seq<nat>>, keyOf: CatalogTrack -> CatalogTrack -> seq<bool>)
    returns (sorted: seq<seq<CatalogTrack>>)
    requires |replacements| == |tracks|
    requires forall s, i :: 0 <= s < |tracks| && 0 <= i < |replacements[s]| ==> replacements[s][i] < |tracks|
    ensures |sorted| == |tracks|
    ensures forall s :: 0 <= s < |tracks| ==> sorted[s] == SortDesc(Members(tracks, replacements[s]), keyOf(tracks[s]))
    ensures forall s :: 0 <= s < |tracks| ==>
              multiset(sorted[s]) == multiset(Members(tracks, replacements[s])) && Descending(sorted[s], keyOf(tracks[s]))
  {
    sorted := [];
    for s := 0 to |tracks|
      invariant |sorted| == s
      invariant forall i :: 0 <= i < s ==> sorted[i] == SortDesc(Members(tracks, replacements[i]), keyOf(tracks[i]))
    {
      sorted := sorted + [SortDesc(Members(tracks, replacements[s]), keyOf(tracks[s]))];
    }
    forall s | 0 <= s < |tracks|
      ensures multiset(sorted[s]) == multiset(Members(tracks, replacements[s])) && Descending(sorted[s], keyOf(tracks[s]))
    {
      SortDescCorrect(Members(tracks, replacements[s]), keyOf(tracks[s]));
    }
  }

  /** No later track with an ordered list shares the ISRC of the one at `i`. */
  predicate LastOfIsrc(tracks: seq<CatalogTrack>, sorted: seq<seq<CatalogTrack>>, i: nat, n: nat)
    requires n <= |tracks| && |sorted| == |tracks|
  {
    forall j :: i < j < n && sorted[j] != [] ==> tracks[j].isrc != tracks[i].isrc
  }

  /** The keys of `catalog` are the ISRCs of the tracks below `n` that
      have a non-empty ordered list. */
  ghost predicate KeysBelow(tracks: seq<CatalogTrack>, sorted: seq<seq<CatalogTrack>>, n: nat, catalog: Catalog)
    requires n <= |tracks| && |sorted| == |tracks|
  {
    forall k :: k in catalog <==> exists i :: 0 <= i < n && sorted[i] != [] && tracks[i].isrc == k
  }

  /** How the entry of one stolen track is formed from it and its list. */
  type EntryOf = (CatalogTrack, seq<CatalogTrack>) -> StolenReplacements

  /** Each such ISRC holds the entry of the last of those tracks. */
  predicate LastWinsBelow(tracks: seq<CatalogTrack>, sorted: seq<seq<CatalogTrack>>, n: nat, catalog: Catalog, entryOf: EntryOf)
    requires n <= |tracks| && |sorted| == |tracks|
  {
    forall i :: 0 <= i < n && sorted[i] != [] && LastOfIsrc(tracks, sorted, i, n) ==>
      tracks[i].isrc in catalog && catalog[tracks[i].isrc] == entryOf(tracks[i], sorted[i])
  }

  /** The ISRC-keyed map: one key per ISRC of a track with a non-empty
      ordered list, holding the entry of the last such track;
      `entryOf(stolen, sorted)` is the entry written for one track. */
  method BuildOutput(tracks: seq<CatalogTrack>, sorted: seq<seq<CatalogTrack>>, entryOf: EntryOf) returns (catalog: Catalog)
    requires |sorted| == |tracks|
    ensures forall k :: k in catalog <==> exists i :: 0 <= i < |tracks| && sorted[i] != [] && tracks[i].isrc == k
    ensures forall i :: 0 <= i < |tracks| && sorted[i] != [] && LastOfIsrc(tracks, sorted, i, |tracks|) ==>
              tracks[i].isrc in catalog && catalog[tracks[i].isrc] == entryOf(tracks[i], sorted[i])
  {
    catalog := map[];
    for n := 0 to |tracks|
      invariant KeysBelow(tracks, sorted, n, catalog)
      invariant LastWinsBelow(tracks, sorted, n, catalog, entryOf)
    {
      var before := catalog;
      if sorted[n] != [] {
        catalog := catalog[tracks[n].isrc := entryOf(tracks[n], sorted[n])];
      }
      OutputStep(tracks, sorted, n, entryOf, before, catalog);
    }
  }

  /** One track's turn keeps both facts about the map. */
  lemma OutputStep(tracks: seq<CatalogTrack>, sorted: seq<seq<CatalogTrack>>, n: nat, entryOf: EntryOf, before: Catalog, after: Catalog)
    requires n < |tracks| && |sorted| == |tracks|
    requires KeysBelow(tracks, sorted, n, before) && LastWinsBelow(tracks, sorted, n, before, entryOf)
    requires after == if sorted[n] != [] then before[tracks[n].isrc := entryOf(tracks[n], sorted[n])] else before
    ensures KeysBelow(tracks, sorted, n + 1, after) && LastWinsBelow(tracks, sorted, n + 1, after, entryOf)
  {
    KeysStep(tracks, sorted, n, before, after);
    LastWinsStep(tracks, sorted, n, entryOf, before, after);
  }

  lemma KeysStep(tracks: seq<CatalogTrack>, sorted: seq<seq<CatalogTrack>>, n: nat, before: Catalog, after: Catalog)
    requires n < |tracks| && |sorted| == |tracks|
    requires KeysBelow(tracks, sorted, n, before)
    requires sorted[n] != [] ==> after.Keys == before.Keys + {tracks[n].isrc}
    requires sorted[n] == [] ==> after.Keys == before.Keys
    ensures KeysBelow(tracks, sorted, n + 1, after)
  {
    forall k
      ensures k in after <==> exists i :: 0 <= i < n + 1 && sorted[i] != [] && tracks[i].isrc == k
    {
      if sorted[n] != [] && k == tracks[n].isrc {
        assert 0 <= n < n + 1 && sorted[n] != [] && tracks[n].isrc == k;
      } else if i :| 0 <= i < n + 1 && sorted[i] != [] && tracks[i].isrc == k {
        assert i < n;
      }
    }
  }

  lemma LastWinsStep(tracks: seq<CatalogTrack>, sorted: seq<seq<CatalogTrack>>, n: nat, entryOf: EntryOf, before: Catalog, after: Catalog)
    requires n < |tracks| && |sorted| == |tracks|
    requires LastWinsBelow(tracks, sorted, n, before, entryOf)
    requires after == if sorted[n] != [] then before[tracks[n].isrc := entryOf(tracks[n], sorted[n])] else before
    ensures LastWinsBelow(tracks, sorted, n + 1, after, entryOf)
  {
    forall i | 0 <= i < n + 1 && sorted[i] != [] && LastOfIsrc(tracks, sorted, i, n + 1)
      ensures tracks[i].isrc in after && after[tracks[i].isrc] == entryOf(tracks[i], sorted[i])
    {
      if i < n {
        assert LastOfIsrc(tracks, sorted, i, n);
        assert sorted[n] != [] ==> tracks[n].isrc != tracks[i].isrc;
      }
    }
  }

  /** The whole offline build: match, order, and write the map. */
  method BuildCatalog(tracks: seq<CatalogTrack>) returns (catalog: Catalog)
    ensures forall k :: k in catalog <==> exists i :: 0 <= i < |tracks| && SortedReplacements(tracks, i) != [] && tracks[i].isrc == k
    ensures forall i :: 0 <= i < |tracks| && SortedReplacements(tracks, i) != [] &&
                        (forall j :: i < j < |tracks| && SortedReplacements(tracks, j) != [] ==> tracks[j].isrc != tracks[i].isrc) ==>
              tracks[i].isrc in catalog && catalog[tracks[i].isrc] == Entry(tracks[i], SortedReplacements(tracks, i))
  {
    var replacing, replacements := MatchTracks(tracks);
    var sorted := SortAll(tracks, replacements, KeyFor);
    assert forall i :: 0 <= i < |tracks| ==> sorted[i] == SortedReplacements(tracks, i);
    catalog := BuildOutput(tracks, sorted, Entry);
  }
}
