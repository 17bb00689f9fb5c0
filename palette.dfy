/** The seven colour categories and the hue bands that select them. */
module Palette {

  /** Declared in the fixed order that breaks ties and orders the corpus tally. */
  datatype Colour = Yellow | Orange | Red | Pink | Blue | Green | Monochrome {

    /** Position in the order yellow, orange, red, pink, blue, green, monochrome. */
    function Rank(): nat {
      match this
      case Yellow => 0
      case Orange => 1
      case Red => 2
      case Pink => 3
      case Blue => 4
      case Green => 5
      case Monochrome => 6
    }

    /** The string the program uses for the colour. */
    function Label(): string {
      match this
      case Yellow => "yellow"
      case Orange => "orange"
      case Red => "red"
      case Pink => "pink"
      case Blue => "blue"
      case Green => "green"
      case Monochrome => "monochrome"
    }
  }

  const Order: seq<Colour> := [Yellow, Orange, Red, Pink, Blue, Green, Monochrome]

  /** A string that some colour uses as its label. */
  predicate IsLabel(s: string) {
    exists c: Colour :: c.Label() == s
  }

  /** `Order` lists every colour exactly once, at its rank, and labels tell colours apart. */
  lemma OrderIsRank(c: Colour, d: Colour)
    ensures |Order| == 7 && Order[c.Rank()] == c
    ensures c.Rank() == d.Rank() <==> c == d
    ensures c.Label() == d.Label() <==> c == d
  {
  }

  /**
   * The open interval(s) of hue degrees that select a colour. Monochrome
   * has no band: it is what is left over.
   */
  predicate InBand(c: Colour, degrees: real) {
    match c
    case Red => (0.0 < degrees < 25.0) || (337.5 < degrees < 360.0)
    case Orange => 25.0 < degrees < 37.5
    case Yellow => 37.5 < degrees < 82.5
    case Green => 82.5 < degrees < 157.5
    case Blue => 157.5 < degrees < 262.5
    case Pink => 262.5 < degrees < 337.5
    case Monochrome => false
  }

  /**
   * The per-pixel branch chosen by the if-chain on hue degrees; Monochrome
   * stands for the final else branch.
   */
  function Classify(degrees: real): (c: Colour)
    ensures c != Monochrome ==> InBand(c, degrees)
    ensures c == Monochrome ==> forall b: Colour :: !InBand(b, degrees)
  {
    if 37.5 < degrees < 82.5 then Yellow
    else if 25.0 < degrees < 37.5 then Orange
    else if 0.0 < degrees < 25.0 || 337.5 < degrees < 360.0 then Red
    else if 262.5 < degrees < 337.5 then Pink
    else if 157.5 < degrees < 262.5 then Blue
    else if 82.5 < degrees < 157.5 then Green
    else Monochrome
  }

  /** No hue value lies in two bands, so a pixel increments at most one hued counter. */
  lemma BandsDisjoint(b1: Colour, b2: Colour, degrees: real)
    requires InBand(b1, degrees) && InBand(b2, degrees)
    ensures b1 == b2
  {
  }

  /** A hue inside a colour's band is classified as that colour, whatever the order of the tests. */
  lemma ClassifyByBand(c: Colour, degrees: real)
    ensures c != Monochrome ==> (Classify(degrees) == c <==> InBand(c, degrees))
  {
  }

  /** Band edges, non-positive values and values of a full turn or more all reach the else branch. */
  lemma BoundaryIsMonochrome(degrees: real)
    requires degrees <= 0.0 || degrees == 25.0 || degrees == 37.5 || degrees == 82.5
          || degrees == 157.5 || degrees == 262.5 || degrees == 337.5 || degrees >= 360.0
    ensures Classify(degrees) == Monochrome
  {
  }
}
