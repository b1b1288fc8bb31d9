/** The value rounding of the analytics event sent after a replacement
    (src/helpers/plausible.ts): counts floored to their first digit and
    a selected fraction reported as a coarse percentage. */
module Plausible {
  import opened Text

  function Pow10(k: nat): (r: nat)
    ensures r >= 1
  {
    if k == 0 then 1 else 10 * Pow10(k - 1)
  }

  /** `Math.floor(Math.log10(n))` for a positive integer: its number of
      decimal digits less one. */
  function Log10Floor(n: nat): (k: nat)
    requires n >= 1
    ensures Pow10(k) <= n < Pow10(k + 1)
  {
    if n < 10 then 0 else Log10Floor(n / 10) + 1
  }

  /** `floorToFirstDigit(n)`: zero for zero, otherwise the leading digit of
      `n` followed by zeros. */
  function FloorToFirstDigit(n: nat): (r: nat)
    ensures n == 0 ==> r == 0
    ensures n >= 1 ==> exists d: nat :: 1 <= d <= 9 && r == d * Pow10(Log10Floor(n))
    ensures r <= n && n - r < (if n == 0 then 1 else Pow10(Log10Floor(n)))
  {
    if n == 0 then 0
    else
      var x := Pow10(Log10Floor(n));
      var d := n / x;
      LeadingDigit(n, Log10Floor(n));
      d * x
  }

  /** Dividing by the largest power of ten not above `n` leaves one digit. */
  lemma LeadingDigit(n: nat, k: nat)
    requires Pow10(k) <= n < Pow10(k + 1)
    ensures 1 <= n / Pow10(k) <= 9
    ensures n / Pow10(k) * Pow10(k) <= n < n / Pow10(k) * Pow10(k) + Pow10(k)
  {
    var x := Pow10(k);
    var d := n / x;
    var m := n % x;
    assert n == d * x + m && 0 <= m < x;
    if d >= 10 {
      MulAtLeast(d, 10, x);
    }
  }

  lemma MulAtLeast(a: nat, b: nat, x: nat)
    requires a >= b
    ensures a * x >= b * x
  {
  }

  /** A number floored to its first digit keeps the same number of digits,
      so flooring it again changes nothing. */
  lemma FloorToFirstDigitIdempotent(n: nat)
    ensures FloorToFirstDigit(FloorToFirstDigit(n)) == FloorToFirstDigit(n)
  {
    if n > 0 {
      var k := Log10Floor(n);
      var x := Pow10(k);
      var d := n / x;
      LeadingDigit(n, k);
      var r := d * x;
      assert r == FloorToFirstDigit(n);
      MulAtLeast(d, 1, x);
      MulAtLeast(9, d, x);
      assert Pow10(k + 1) == 10 * x;
      SameLog(r, k);
      assert r / x == d by { DivExact(d, x); }
    }
  }

  lemma DivExact(d: nat, x: nat)
    requires x > 0
    ensures d * x / x == d
  {
    var q := d * x / x;
    var rr := d * x % x;
    assert d * x == q * x + rr && 0 <= rr < x;
    if q < d {
      MulAtLeast(d, q + 1, x);
    } else if q > d {
      MulAtLeast(q, d + 1, x);
    }
  }

  /** The digit count determines `Log10Floor`. */
  lemma {:induction false} SameLog(n: nat, k: nat)
    requires Pow10(k) <= n < Pow10(k + 1)
    ensures n >= 1 && Log10Floor(n) == k
    decreases k
  {
    if k > 0 {
      assert Pow10(k) == 10 * Pow10(k - 1);
      SameLog(n / 10, k - 1);
    } else {
      assert n < 10;
    }
  }

  /** `Math.ceil(x)` for a real. */
  function Ceil(x: real): (c: int)
    ensures c as real >= x && (c - 1) as real < x
  {
    -((-x).Floor)
  }

  /** For `0 < n < 1`, the percentage `Math.ceil(n / 0.1) * 10`: the least
      multiple of ten that is at least `100 * n`. */
  function RoundedPercent(n: real): (m: nat)
    requires 0.0 < n < 1.0
    ensures m % 10 == 0 && 10 <= m <= 100
    ensures (m - 10) as real < 100.0 * n <= m as real
  {
    Ceil(n * 10.0) * 10
  }

  /** `formatRoundPercent(n)`: `"0%"` at or below zero, `"100%"` at or
      above one, and `"<m%"` with `m` the rounded-up percentage between. */
  function FormatRoundPercent(n: real): (r: string)
    ensures n <= 0.0 ==> r == "0%"
    ensures n >= 1.0 ==> r == "100%"
    ensures 0.0 < n < 1.0 ==> |r| >= 3 && r[0] == '<' && r[|r| - 1] == '%'
  {
    if n <= 0.0 then "0%"
    else if n >= 1.0 then "100%"
    else "<" + NatToString(RoundedPercent(n)) + "%"
  }

  /** Between zero and one, the digits between `<` and `%` spell the rounded percentage. */
  lemma FormatRoundPercentDigits(n: real)
    requires 0.0 < n < 1.0
    ensures var r := FormatRoundPercent(n);
            var digits := r[1..|r| - 1];
            (forall i :: 0 <= i < |digits| ==> '0' <= digits[i] <= '9')
            && DigitsValue(digits) == RoundedPercent(n)
  {
    var r := FormatRoundPercent(n);
    assert r[1..|r| - 1] == NatToString(RoundedPercent(n));
    NatToStringValue(RoundedPercent(n));
  }

  /** The value of one event property. */
  datatype PropValue = Number(n: nat) | Text(s: string)

  /** `replacedTrackCount / totalTrackCount` formatted: a zero total makes
      JavaScript divide by zero, giving `NaN` for `0 / 0` (which passes
      neither guard and prints as `"<NaN%"`) and `Infinity` otherwise. */
  function PercentSelected(replacedTrackCount: nat, totalTrackCount: nat): (r: string)
    ensures totalTrackCount > 0 ==> r == FormatRoundPercent(replacedTrackCount as real / totalTrackCount as real)
    ensures totalTrackCount == 0 && replacedTrackCount == 0 ==> r == "<NaN%"
    ensures totalTrackCount == 0 && replacedTrackCount > 0 ==> r == "100%"
  {
    if totalTrackCount == 0 then
      if replacedTrackCount == 0 then "<NaN%" else "100%"
    else FormatRoundPercent(replacedTrackCount as real / totalTrackCount as real)
  }

  /** With a positive total, the label reads `"0%"` exactly when nothing
      was replaced and `"100%"` exactly when every track was; with a zero
      total it never reads `"0%"`, and reads `"100%"` exactly when some
      track was replaced. */
  lemma PercentSelectedExtremes(replacedTrackCount: nat, totalTrackCount: nat)
    ensures totalTrackCount > 0 ==>
              (PercentSelected(replacedTrackCount, totalTrackCount) == "0%" <==> replacedTrackCount == 0)
    ensures totalTrackCount > 0 ==>
              (PercentSelected(replacedTrackCount, totalTrackCount) == "100%" <==> replacedTrackCount >= totalTrackCount)
    ensures totalTrackCount == 0 ==>
              PercentSelected(replacedTrackCount, totalTrackCount) != "0%"
              && (PercentSelected(replacedTrackCount, totalTrackCount) == "100%" <==> replacedTrackCount > 0)
  {
    if totalTrackCount > 0 {
      RatioBounds(replacedTrackCount as real, totalTrackCount as real);
      if 0 < replacedTrackCount < totalTrackCount {
        assert PercentSelected(replacedTrackCount, totalTrackCount)[0] == '<';
      }
    }
  }

  /** Where `n / t` lies for a positive `t`. */
  lemma RatioBounds(n: real, t: real)
    requires t > 0.0 && n >= 0.0
    ensures n >= t ==> n / t >= 1.0
    ensures 0.0 < n < t ==> 0.0 < n / t < 1.0
  {
    assert (n / t) * t == n;
  }

  /** The props of the playlists-updated event; the selection categories
      are spread last, so a category named like a count overrides it. */
  function PlaylistsUpdatedProps(replacedPlaylistsCount: nat, replacedTrackCount: nat, totalTrackCount: nat,
                                 selectionCategories: map<string, string>): (props: map<string, PropValue>)
    ensures props.Keys == selectionCategories.Keys + {"count-playlists", "count-tracks", "percent-selected"}
    ensures forall name :: name in selectionCategories ==> props[name] == Text(selectionCategories[name])
    ensures "count-playlists" !in selectionCategories ==> props["count-playlists"] == Number(FloorToFirstDigit(replacedPlaylistsCount))
    ensures "count-tracks" !in selectionCategories ==> props["count-tracks"] == Number(FloorToFirstDigit(replacedTrackCount))
    ensures "percent-selected" !in selectionCategories ==> props["percent-selected"] == Text(PercentSelected(replacedTrackCount, totalTrackCount))
  {
    map["count-playlists" := Number(FloorToFirstDigit(replacedPlaylistsCount)),
        "count-tracks" := Number(FloorToFirstDigit(replacedTrackCount)),
        "percent-selected" := Text(PercentSelected(replacedTrackCount, totalTrackCount))]
    + map name | name in selectionCategories :: Text(selectionCategories[name])
  }
}
