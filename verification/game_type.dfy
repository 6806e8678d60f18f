/** The four contracts a taker can bid, each with a slam (`chelem`) flag
    (business/game_engine/game_type.rs). */
module GameTypes {

  datatype GameType =
    | Petit(chelem: bool)
    | Garde(chelem: bool)
    | GardeSans(chelem: bool)
    | GardeContre(chelem: bool)

  /** Position of the variant in the declaration, which the derived order compares first. */
  function Level(g: GameType): nat {
    match g
    case Petit(_) => 0
    case Garde(_) => 1
    case GardeSans(_) => 2
    case GardeContre(_) => 3
  }

  /** The derived `<` on `GameType`: the variant decides, then `chelem` with false < true. */
  predicate Less(a: GameType, b: GameType) {
    Level(a) < Level(b) || (Level(a) == Level(b) && !a.chelem && b.chelem)
  }

  lemma LessIsStrictTotalOrder(a: GameType, b: GameType, c: GameType)
    ensures !Less(a, a)
    ensures Less(a, b) && Less(b, c) ==> Less(a, c)
    ensures a != b ==> Less(a, b) || Less(b, a)
    ensures !(Less(a, b) && Less(b, a))
  {
  }

  /** The variant order is Petit < Garde < GardeSans < GardeContre, whatever the flags. */
  lemma VariantOrder(x: bool, y: bool)
    ensures Less(Petit(x), Garde(y)) && Less(Garde(x), GardeSans(y)) && Less(GardeSans(x), GardeContre(y))
  {
  }

  /** The kitty is shown for GardeSans and GardeContre, regardless of the slam flag. */
  function KittyShouldBeRevealed(g: GameType): (r: bool)
    ensures r <==> Level(g) >= 2
  {
    match g
    case Petit(_) | Garde(_) => false
    case GardeSans(_) | GardeContre(_) => true
  }

  /** The score multiplier of a contract: 1, 2, 4, 6. */
  function HandPointsMultiplier(g: GameType): (r: nat)
    ensures 1 <= r <= 6
    ensures r == 1 <==> Level(g) == 0
    ensures r == 6 <==> Level(g) == 3
    ensures r == 2 <==> Level(g) == 1
    ensures r == 4 <==> Level(g) == 2
  {
    match g
    case Petit(_) => 1
    case Garde(_) => 2
    case GardeSans(_) => 4
    case GardeContre(_) => 6
  }

  /** Both the multiplier and the kitty flag are monotone in the contract order; the
      multiplier strictly increases between variants. */
  lemma MultiplierMonotone(a: GameType, b: GameType)
    requires Less(a, b)
    ensures HandPointsMultiplier(a) <= HandPointsMultiplier(b)
    ensures Level(a) < Level(b) ==> HandPointsMultiplier(a) < HandPointsMultiplier(b)
    ensures KittyShouldBeRevealed(a) ==> KittyShouldBeRevealed(b)
  {
  }

  /** The kitty is revealed exactly for the contracts worth four times or more. */
  lemma KittyRevealedIffHighMultiplier(g: GameType)
    ensures KittyShouldBeRevealed(g) <==> HandPointsMultiplier(g) >= 4
  {
  }
}
