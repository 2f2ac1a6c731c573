/**
 * The background palette: ten colours the scene background cycles through,
 * one step per timer event. A colour that is not in the palette restarts the
 * cycle at the palette's first entry.
 */
module Palette {

  const BACKGROUND_COLORS: seq<string> := [
    "#87CEEB", "#FFA07A", "#98FB98", "#DDA0DD", "#F0E68C",
    "#E6E6FA", "#FFB6C1", "#B0E0E6", "#D8BFD8", "#FFE4B5"
  ]

  /**
   * The position of the first occurrence of `c` in `s`, or -1 when `c` does
   * not occur.
   */
  function IndexOf(s: seq<string>, c: string): (i: int)
    ensures -1 <= i < |s|
    ensures i == -1 <==> c !in s
    ensures 0 <= i ==> s[i] == c && forall j :: 0 <= j < i ==> s[j] != c
  {
    if |s| == 0 then -1
    else if s[0] == c then 0
    else
      var j := IndexOf(s[1..], c);
      if j == -1 then -1 else j + 1
  }

  /** No colour occurs twice in the palette. */
  predicate Distinct(palette: seq<string>)
  {
    forall i, j :: 0 <= i < j < |palette| ==> palette[i] != palette[j]
  }

  /**
   * The colour after `prev`: the entry after the first occurrence of `prev`,
   * wrapping from the last entry to the first; a colour that is not in the
   * palette maps to the first entry. The result is always a palette colour.
   */
  function NextColour(palette: seq<string>, prev: string): (next: string)
    requires |palette| > 0
    ensures next in palette
    ensures prev !in palette ==> next == palette[0]
  {
    var currentIndex := IndexOf(palette, prev);
    palette[(currentIndex + 1) % |palette|]
  }

  /** In a palette without repeats, each entry is followed by the next one, the last by the first. */
  lemma NextOfEntry(palette: seq<string>, i: nat)
    requires Distinct(palette) && i < |palette|
    ensures NextColour(palette, palette[i]) == palette[(i + 1) % |palette|]
  {
  }

  /** The colour after `n` timer events, starting from `c`. */
  function Cycle(palette: seq<string>, c: string, n: nat): (colour: string)
    requires |palette| > 0
  {
    if n == 0 then c else NextColour(palette, Cycle(palette, c, n - 1))
  }

  /**
   * Starting from the i-th entry of a palette without repeats, `n` timer
   * events reach the entry `n` places further round the palette.
   */
  lemma {:induction false} CycleAdvancesIndex(palette: seq<string>, i: nat, n: nat)
    requires Distinct(palette) && i < |palette|
    ensures Cycle(palette, palette[i], n) == palette[(i + n) % |palette|]
  {
    if n == 0 {
      ModUnique(i, |palette|, 0, i);
      assert (i + n) % |palette| == i;
      assert Cycle(palette, palette[i], n) == palette[i];
    } else {
      CycleAdvancesIndex(palette, i, n - 1);
      assert Cycle(palette, palette[i], n - 1) == palette[(i + (n - 1)) % |palette|];
      NextAdvancesIndex(palette, i, n);
      assert Cycle(palette, palette[i], n) == NextColour(palette, Cycle(palette, palette[i], n - 1));
    }
  }

  /** One more timer event moves from entry (i + n - 1) mod length to entry (i + n) mod length. */
  lemma NextAdvancesIndex(palette: seq<string>, i: nat, n: nat)
    requires Distinct(palette) && i < |palette| && n > 0
    ensures NextColour(palette, palette[(i + (n - 1)) % |palette|]) == palette[(i + n) % |palette|]
  {
    NextOfEntry(palette, (i + (n - 1)) % |palette|);
    SuccessorMod(i, n, |palette|);
  }

  /** As many timer events as there are colours bring every palette colour back to itself. */
  lemma CycleReturns(palette: seq<string>, i: nat)
    requires Distinct(palette) && i < |palette|
    ensures Cycle(palette, palette[i], |palette|) == palette[i]
  {
    var m := |palette|;
    CycleAdvancesIndex(palette, i, m);
    AddPeriod(i, m);
  }

  /**
   * The background palette has ten distinct colours, so the background
   * visits each of them in turn and is back where it started after ten
   * timer events.
   */
  lemma BackgroundCycle(i: nat)
    requires i < 10
    ensures |BACKGROUND_COLORS| == 10 && Distinct(BACKGROUND_COLORS)
    ensures Cycle(BACKGROUND_COLORS, BACKGROUND_COLORS[i], 10) == BACKGROUND_COLORS[i]
  {
    CycleReturns(BACKGROUND_COLORS, i);
  }

  // Arithmetic facts about Euclidean remainder used above.

  lemma ModUnique(x: int, m: int, q: int, r: int)
    requires m > 0 && 0 <= r < m && x == m * q + r
    ensures x % m == r
  {
    var q' := x / m;
    if q > q' {
      MulGap(m, q, q');
      assert false;
    } else if q < q' {
      MulGap(m, q', q);
      assert false;
    }
  }

  lemma {:induction false} MulGap(m: int, a: int, b: int)
    requires m > 0 && a > b
    ensures m * a >= m * b + m
    decreases a - b
  {
    if a > b + 1 {
      MulGap(m, a - 1, b);
      assert m * a == m * (a - 1) + m;
    }
  }

  lemma AddPeriod(i: nat, m: nat)
    requires i < m
    ensures (i + m) % m == i
  {
    ModUnique(i + m, m, 1, i);
  }

  lemma SuccessorMod(i: nat, n: nat, m: nat)
    requires m > 0 && n > 0
    ensures ((i + (n - 1)) % m + 1) % m == (i + n) % m
  {
    var k := i + (n - 1);
    var q, r := k / m, k % m;
    if r + 1 < m {
      ModUnique(k + 1, m, q, r + 1);
      ModUnique(r + 1, m, 0, r + 1);
    } else {
      ModUnique(k + 1, m, q + 1, 0);
      ModUnique(r + 1, m, 1, 0);
    }
  }
}
