/** Handful declarations and their bonus (business/game_engine/handfuls.rs). */
module HandfulRules {

  datatype Handfuls = Simple | Double | Triple

  function Index(h: Handfuls): nat {
    match h
    case Simple => 0
    case Double => 1
    case Triple => 2
  }

  /** Bonus points of a handful: 20, 40, 60. */
  function HandfulPoints(h: Handfuls): (r: nat)
    ensures r == 20 * (1 + Index(h))
  {
    match h
    case Simple => 20
    case Double => 40
    case Triple => 60
  }

  /** Trumps a player must show to declare the handful: 10, 13, 15. */
  function TrumpsRequired(h: Handfuls): (r: nat)
    ensures 10 <= r <= 15
    ensures h == Simple <==> r == 10
    ensures h == Double <==> r == 13
    ensures h == Triple <==> r == 15
  {
    match h
    case Simple => 10
    case Double => 13
    case Triple => 15
  }

  /** A larger handful needs strictly more trumps and is worth strictly more. */
  lemma HandfulsIncrease(a: Handfuls, b: Handfuls)
    requires Index(a) < Index(b)
    ensures HandfulPoints(a) < HandfulPoints(b)
    ensures TrumpsRequired(a) < TrumpsRequired(b)
  {
  }
}
