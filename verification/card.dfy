/** Cards, their validity, their point values and the trick-beating comparison
    (business/game_engine/card.rs). */
module Cards {
  import opened Wrappers
  import opened EngineErrors

  datatype Color = Spade | Heart | Diamond | Club | Trump | Excuse

  datatype Card = Card(color: Color, value: U8)

  /** The four plain suits: neither trump nor the Excuse. */
  predicate IsSuit(c: Color) {
    c != Trump && c != Excuse
  }

  /** The cards `validate` accepts. */
  predicate Valid(card: Card) {
    Validate(card).Ok?
  }

  /** The Excuse takes any value; trumps must be 1..=21 and suit cards 1..=14. */
  function Validate(card: Card): (r: Result<(), EngineError>)
    ensures r.Ok? <==>
              || card.color == Excuse
              || (card.color == Trump && 1 <= card.value <= 21)
              || (IsSuit(card.color) && 1 <= card.value <= 14)
    ensures r.Err? ==> r.error == InvalidCardValue(card.value)
  {
    match card.color
    case Excuse => Ok(())
    case Trump => if 1 <= card.value <= 21 then Ok(()) else Err(InvalidCardValue(card.value))
    case _ => if 1 <= card.value <= 14 then Ok(()) else Err(InvalidCardValue(card.value))
  }

  /** `Card::new`: builds the card exactly when it validates. */
  function New(color: Color, value: U8): (r: Result<Card, EngineError>)
    ensures r.Ok? <==> Valid(Card(color, value))
    ensures r.Ok? ==> r.value.color == color && r.value.value == value
    ensures r.Err? ==> r.error == InvalidCardValue(value)
  {
    var res := Card(color, value);
    var _ :- Validate(res);
    Ok(res)
  }

  /** Card points on the doubled scale: the oudlers (trumps 1 and 21, the Excuse) and
      kings 9, queens 7, knights 5, jacks 3, every other card 1. Always odd. */
  function Points(card: Card): (r: nat)
    ensures r % 2 == 1
    ensures Valid(card) ==> 1 <= r <= 9
    ensures card.color == Trump ==> (r == 9 <==> card.value == 1 || card.value == 21)
    ensures card.color == Trump && card.value != 1 && card.value != 21 ==> r == 1
    ensures card.color == Excuse ==> r == 9
    ensures IsSuit(card.color) && card.value <= 10 ==> r == 1
    ensures IsSuit(card.color) && card.value == 11 ==> r == 3
    ensures IsSuit(card.color) && card.value == 12 ==> r == 5
    ensures IsSuit(card.color) && card.value == 13 ==> r == 7
    ensures IsSuit(card.color) && card.value == 14 ==> r == 9
  {
    match card.color
    case Trump => if card.value == 1 || card.value == 21 then 9 else 1
    case Excuse => 9
    case _ => if card.value < 11 then 1 else (card.value - 10) * 2 + 1
  }

  /** Whether `card` beats the currently winning card `other` when `lead` is the colour
      being followed. */
  function WinAgainst(card: Card, other: Card, lead: Color): (r: bool)
    ensures card.color == other.color ==> (r <==> card.value > other.value)
    ensures card.color != other.color && card.color == Trump ==> r
    ensures card.color != other.color && other.color == Trump ==> !r
    ensures card.color != other.color && card.color != Trump && other.color != Trump ==>
              (r <==> card.color == lead)
  {
    if card.color == other.color then card.value > other.value
    else if card.color == Trump then true
    else if other.color == Trump then false
    else card.color == lead
  }

  /** No card beats itself, whatever the lead colour. */
  lemma WinIrreflexive(card: Card, lead: Color)
    ensures !WinAgainst(card, card, lead)
  {
  }

  /** For a fixed lead colour, two cards never beat each other. */
  lemma WinAsymmetric(a: Card, b: Card, lead: Color)
    ensures !(WinAgainst(a, b, lead) && WinAgainst(b, a, lead))
  {
  }

  /** Beating is transitive for a fixed lead colour: a card that beats the winner also
      beats everything the winner beat. */
  lemma WinTransitive(a: Card, b: Card, c: Card, lead: Color)
    requires WinAgainst(a, b, lead) && WinAgainst(b, c, lead)
    ensures WinAgainst(a, c, lead)
  {
  }
}
