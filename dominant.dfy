/**
 * Per-image dominant colour (`find_dominant_colour`): seven counters filled
 * by a loop over the HSL list, then the largest counter, ties going to the
 * colour that comes first in the fixed order.
 */
module Dominant {
  import opened Counting
  import opened Pixels
  import opened Palette

  /** The seven counters of the loop, in the fixed order. */
  datatype Counters = Counters(yellow: nat, orange: nat, red: nat, pink: nat,
                               blue: nat, green: nat, monochrome: nat)
  {
    function Get(c: Colour): nat {
      match c
      case Yellow => yellow
      case Orange => orange
      case Red => red
      case Pink => pink
      case Blue => blue
      case Green => green
      case Monochrome => monochrome
    }

    /** The largest of the seven counters. */
    function Max(): (m: nat)
      ensures forall c: Colour :: Get(c) <= m
      ensures m == yellow || m == orange || m == red || m == pink
           || m == blue || m == green || m == monochrome
    {
      Max2(yellow, Max2(orange, Max2(red, Max2(pink, Max2(blue, Max2(green, monochrome))))))
    }
  }

  function Max2(a: nat, b: nat): nat {
    if a < b then b else a
  }

  /**
   * The colour whose counter is largest; of several such, the first in the
   * order yellow, orange, red, pink, blue, green, monochrome.
   */
  function DominantOf(t: Counters): (c: Colour)
    ensures forall d: Colour :: t.Get(d) <= t.Get(c)
    ensures forall d: Colour :: d.Rank() < c.Rank() ==> t.Get(d) < t.Get(c)
  {
    var m := t.Max();
    if t.yellow == m then Yellow
    else if t.orange == m then Orange
    else if t.red == m then Red
    else if t.pink == m then Pink
    else if t.blue == m then Blue
    else if t.green == m then Green
    else assert t.monochrome == m; Monochrome
  }

  /** The two properties of `DominantOf` pick out a single colour. */
  lemma DominantOfUnique(t: Counters, c: Colour)
    requires forall d: Colour :: t.Get(d) <= t.Get(c)
    requires forall d: Colour :: d.Rank() < c.Rank() ==> t.Get(d) < t.Get(c)
    ensures DominantOf(t) == c
  {
    var w := DominantOf(t);
    OrderIsRank(w, c);
  }

  /** The branch of the per-pixel if-chain that a pixel takes, from `hue * 360`. */
  function Degrees(hsl: Hsl): real {
    hsl.hue * 360.0
  }

  function Bin(hsl: Hsl): (c: Colour)
    ensures c != Monochrome ==> InBand(c, Degrees(hsl))
    ensures c == Monochrome ==> forall b: Colour :: !InBand(b, Degrees(hsl))
  {
    Classify(Degrees(hsl))
  }

  function Bins(hslList: seq<Hsl>): seq<Colour> {
    seq(|hslList|, i requires 0 <= i < |hslList| => Bin(hslList[i]))
  }

  /**
   * The counters after the loop: each hued counter is the number of pixels
   * in its band, while `monochrome` is only a flag (1 when some pixel took
   * the else branch), because the source writes `monochrome =+ 1`, which
   * assigns +1 instead of incrementing.
   */
  function Tally(hslList: seq<Hsl>): (t: Counters)
    ensures forall c: Colour :: t.Get(c) <= |hslList|
    ensures t.monochrome <= 1
  {
    var bins := Bins(hslList);
    Counters(Count(bins, Yellow), Count(bins, Orange), Count(bins, Red), Count(bins, Pink),
             Count(bins, Blue), Count(bins, Green), if Monochrome in bins then 1 else 0)
  }

  /** How one more pixel changes each count and the else-branch flag. */
  lemma BinsStep(hslList: seq<Hsl>, i: nat, bin: Colour)
    requires i < |hslList| && bin == Bin(hslList[i])
    ensures var before, after := Bins(hslList[..i]), Bins(hslList[..i + 1]);
      && Count(after, Yellow) == Count(before, Yellow) + (if bin == Yellow then 1 else 0)
      && Count(after, Orange) == Count(before, Orange) + (if bin == Orange then 1 else 0)
      && Count(after, Red) == Count(before, Red) + (if bin == Red then 1 else 0)
      && Count(after, Pink) == Count(before, Pink) + (if bin == Pink then 1 else 0)
      && Count(after, Blue) == Count(before, Blue) + (if bin == Blue then 1 else 0)
      && Count(after, Green) == Count(before, Green) + (if bin == Green then 1 else 0)
      && (Monochrome in after <==> Monochrome in before || bin == Monochrome)
  {
    var before := Bins(hslList[..i]);
    assert Bins(hslList[..i + 1]) == before + [bin];
    CountSnoc(before, bin, Yellow);
    CountSnoc(before, bin, Orange);
    CountSnoc(before, bin, Red);
    CountSnoc(before, bin, Pink);
    CountSnoc(before, bin, Blue);
    CountSnoc(before, bin, Green);
  }

  /** The per-image result: the loop over the HSL list, then the choice among the counters. */
  method FindDominantColour(hslList: seq<Hsl>) returns (colour: Colour)
    ensures colour == DominantOf(Tally(hslList))
    ensures forall c: Colour :: Tally(hslList).Get(c) <= Tally(hslList).Get(colour)
    ensures forall c: Colour :: c.Rank() < colour.Rank() ==> Tally(hslList).Get(c) < Tally(hslList).Get(colour)
  {
    var yellow: nat, orange: nat, red: nat, pink: nat := 0, 0, 0, 0;
    var blue: nat, green: nat, monochrome: nat := 0, 0, 0;
    for i := 0 to |hslList|
      invariant yellow == Count(Bins(hslList[..i]), Yellow)
      invariant orange == Count(Bins(hslList[..i]), Orange)
      invariant red == Count(Bins(hslList[..i]), Red)
      invariant pink == Count(Bins(hslList[..i]), Pink)
      invariant blue == Count(Bins(hslList[..i]), Blue)
      invariant green == Count(Bins(hslList[..i]), Green)
      invariant monochrome == if Monochrome in Bins(hslList[..i]) then 1 else 0
    {
      var bin := Bin(hslList[i]);
      BinsStep(hslList, i, bin);
      match bin
      case Yellow => yellow := yellow + 1;
      case Orange => orange := orange + 1;
      case Red => red := red + 1;
      case Pink => pink := pink + 1;
      case Blue => blue := blue + 1;
      case Green => green := green + 1;
      case Monochrome => monochrome := 1;  // `monochrome =+ 1` in the source
    }
    assert hslList[..|hslList|] == hslList;
    colour := DominantOf(Counters(yellow, orange, red, pink, blue, green, monochrome));
  }

  /** Every element of a colour sequence is counted under exactly one of the seven colours. */
  lemma {:induction false} ColourCountsSum(s: seq<Colour>)
    ensures Count(s, Yellow) + Count(s, Orange) + Count(s, Red) + Count(s, Pink)
          + Count(s, Blue) + Count(s, Green) + Count(s, Monochrome) == |s|
  {
    if |s| > 0 {
      var front := s[..|s| - 1];
      ColourCountsSum(front);
      match s[|s| - 1]
      case Yellow =>
      case Orange =>
      case Red =>
      case Pink =>
      case Blue =>
      case Green =>
      case Monochrome =>
    }
  }

  /**
   * The six hued counters add up to the number of pixels minus the number
   * of pixels that took the else branch; the monochrome counter is 1 exactly
   * when at least one pixel took it.
   */
  lemma TallyTotals(hslList: seq<Hsl>)
    ensures var t := Tally(hslList);
      t.yellow + t.orange + t.red + t.pink + t.blue + t.green
        == |hslList| - Count(Bins(hslList), Monochrome)
    ensures Tally(hslList).monochrome
        == if exists i :: 0 <= i < |hslList| && Bin(hslList[i]) == Monochrome then 1 else 0
  {
    var bins := Bins(hslList);
    ColourCountsSum(bins);
    if exists i :: 0 <= i < |hslList| && Bin(hslList[i]) == Monochrome {
      var i :| 0 <= i < |hslList| && Bin(hslList[i]) == Monochrome;
      assert bins[i] == Monochrome;
    }
  }

  /** With no pixels every counter is 0 and the tie-break gives yellow. */
  lemma EmptyIsYellow()
    ensures DominantOf(Tally([])) == Yellow
  {
  }

  /**
   * Monochrome wins only when there is at least one pixel and no pixel
   * falls in a hue band, however many pixels took the else branch otherwise.
   */
  lemma MonochromeOnlyWithoutHue(hslList: seq<Hsl>)
    ensures DominantOf(Tally(hslList)) == Monochrome <==>
      |hslList| > 0 && forall i :: 0 <= i < |hslList| ==> Bin(hslList[i]) == Monochrome
  {
    var t := Tally(hslList);
    var bins := Bins(hslList);
    if DominantOf(t) == Monochrome {
      assert t.monochrome > t.yellow;
      assert Monochrome in bins;
      forall i | 0 <= i < |hslList|
        ensures Bin(hslList[i]) == Monochrome
      {
        assert bins[i] in bins;
      }
    } else if |hslList| > 0 && forall i :: 0 <= i < |hslList| ==> Bin(hslList[i]) == Monochrome {
      assert bins[0] == Monochrome;
      forall c: Colour | c != Monochrome
        ensures t.Get(c) == 0
      {
        assert c !in bins;
      }
      DominantOfUnique(t, Monochrome);
    }
  }
}
