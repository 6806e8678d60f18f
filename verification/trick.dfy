/** One exchange of four plays (business/game_engine/trick.rs). */
module Tricks {
  import opened Wrappers
  import opened EngineErrors
  import opened Cards

  /** The four per-seat slots of a trick, indexed by seat. */
  type Slots = s: seq<Option<Card>> | |s| == 4 witness [None, None, None, None]

  /** The four cards of a finished trick, indexed by seat. */
  type FourCards = s: seq<Card> | |s| == 4
    witness [Card(Excuse, 0), Card(Excuse, 0), Card(Excuse, 0), Card(Excuse, 0)]

  datatype Trick = Trick(cards: Slots, leader: Seat)

  datatype PlayedTrick = PlayedTrick(cards: FourCards, winner: Seat)

  // ---------------------------------------------------------------------------
  // Seats and slots

  /** The seat `k` places clockwise after `from`. */
  function After(from: Seat, k: int): Seat {
    (from + k) % 4
  }

  /** The clockwise distance from `from` to `to`. */
  function Offset(from: Seat, to: Seat): (k: nat)
    ensures k < 4 && After(from, k) == to
  {
    if from <= to then to - from else to - from + 4
  }

  lemma OffsetOfAfter(from: Seat, k: int)
    requires 0 <= k < 4
    ensures Offset(from, After(from, k)) == k
  {
    assert After(from, k) == if from + k < 4 then from + k else from + k - 4;
  }

  predicate HasColor(slot: Option<Card>, c: Color) {
    slot.Some? && slot.value.color == c
  }

  predicate Full(t: Trick) {
    forall i | 0 <= i < 4 :: t.cards[i].Some?
  }

  predicate HasTrump(t: Trick) {
    exists i | 0 <= i < 4 :: HasColor(t.cards[i], Trump)
  }

  function FilledFrom(cards: Slots, i: int): nat
    requires 0 <= i <= 4
    decreases 4 - i
  {
    if i == 4 then 0 else (if cards[i].Some? then 1 else 0) + FilledFrom(cards, i + 1)
  }

  /** How many seats have played. */
  function Filled(t: Trick): nat {
    FilledFrom(t.cards, 0)
  }

  // ---------------------------------------------------------------------------
  // Creation and turn order

  /** `Trick::new`: an empty trick led by `leader`. */
  function New(leader: Seat): (t: Trick)
    ensures t.leader == leader
    ensures forall i | 0 <= i < 4 :: t.cards[i].None?
    ensures NextToPlay(t) == Some(leader)
    ensures TrickColor(t) == None
    ensures Winner(t) == Err(NotBegunHand)
    ensures TrickPoints(t) == 0 && HighestTrump(t) == 0
  {
    Trick([None, None, None, None], leader)
  }

  /** The clockwise probe of `next_to_play`, `k` seats after the leader. */
  function FirstEmpty(cards: Slots, leader: Seat, k: int): (r: Option<Seat>)
    requires 0 <= k <= 4
    decreases 4 - k
    ensures r.None? <==> forall j | k <= j < 4 :: cards[After(leader, j)].Some?
    ensures r.Some? ==> cards[r.value].None? && k <= Offset(leader, r.value)
    ensures r.Some? ==> forall j | k <= j < Offset(leader, r.value) :: cards[After(leader, j)].Some?
  {
    if k == 4 then None
    else if cards[After(leader, k)].Some? then FirstEmpty(cards, leader, k + 1)
    else (OffsetOfAfter(leader, k); Some(After(leader, k)))
  }

  /** `next_to_play`: the first empty seat clockwise from the leader, none once all four
      have played. */
  function NextToPlay(t: Trick): (r: Option<Seat>)
    ensures r.None? <==> Full(t)
    ensures r.Some? ==> t.cards[r.value].None?
    ensures r.Some? ==> forall j | 0 <= j < Offset(t.leader, r.value) :: t.cards[After(t.leader, j)].Some?
  {
    var r := FirstEmpty(t.cards, t.leader, 0);
    assert Full(t) ==> r.None?;
    assert r.None? ==> Full(t) by {
      if r.None? {
        forall i | 0 <= i < 4
          ensures t.cards[i].Some?
        {
          assert After(t.leader, Offset(t.leader, i)) == i;
        }
      }
    }
    r
  }

  /** `play_card`: only the next seat may play, into its own slot. */
  function PlayCard(t: Trick, player: U8, card: Card): (r: Result<Trick, EngineError>)
    ensures r == Err(FinishedHand) <==> Full(t)
    ensures r.Ok? <==> NextToPlay(t) == Some(player)
    ensures r.Err? ==> r.error == FinishedHand || r.error == OutOfOrderPlay
    ensures r.Ok? ==> t.cards[player].None?
    ensures r.Ok? ==> r.value.leader == t.leader && r.value.cards == t.cards[player := Some(card)]
  {
    match NextToPlay(t)
    case None => Err(FinishedHand)
    case Some(p) => if p == player then Ok(Trick(t.cards[p := Some(card)], t.leader)) else Err(OutOfOrderPlay)
  }

  lemma {:induction false} FilledFromUpdate(cards: Slots, i: int, p: Seat, card: Card)
    requires 0 <= i <= 4
    requires cards[p].None?
    ensures FilledFrom(cards[p := Some(card)], i) == FilledFrom(cards, i) + (if i <= p then 1 else 0)
    decreases 4 - i
  {
    if i < 4 {
      FilledFromUpdate(cards, i + 1, p, card);
    }
  }

  /** A successful play fills one more slot, never clears a filled one, and adds the card's
      points to the trick. */
  lemma PlayCardProgress(t: Trick, player: U8, card: Card)
    requires PlayCard(t, player, card).Ok?
    ensures var t' := PlayCard(t, player, card).value;
      && Filled(t') == Filled(t) + 1
      && (forall i | 0 <= i < 4 && t.cards[i].Some? :: t'.cards[i] == t.cards[i])
      && TrickPoints(t') == TrickPoints(t) + Points(card)
  {
    FilledFromUpdate(t.cards, 0, player, card);
    SlotPointsUpdate(t.cards, 0, player, card);
  }

  // ---------------------------------------------------------------------------
  // Lead colour and winner

  /** `color`: the leader's colour; after an Excuse lead, the colour of the card of the
      seat after the leader, if that seat has played. */
  function TrickColor(t: Trick): (r: Option<Color>)
    ensures r.None? <==>
              || t.cards[t.leader].None?
              || (t.cards[t.leader].value.color == Excuse && t.cards[After(t.leader, 1)].None?)
    ensures r.Some? && !HasColor(t.cards[t.leader], Excuse) ==> HasColor(t.cards[t.leader], r.value)
    ensures r.Some? && HasColor(t.cards[t.leader], Excuse) ==> HasColor(t.cards[After(t.leader, 1)], r.value)
  {
    match t.cards[t.leader]
    case None => None
    case Some(leaderCard) =>
      if leaderCard.color != Excuse then Some(leaderCard.color)
      else
        match t.cards[After(t.leader, 1)]
        case None => None
        case Some(next) => Some(next.color)
  }

  /** The loop of `winner`: seats `i..3` are compared in seat order (not from the leader)
      against the best card so far; the lead colour changes only while it is the Excuse. */
  function Scan(cards: Slots, i: int, best: Card, w: Seat, lead: Color): (r: (Seat, Card))
    requires 0 <= i <= 4
    requires cards[w] == Some(best)
    ensures cards[r.0] == Some(r.1)
    decreases 4 - i
  {
    if i == 4 then (w, best)
    else match cards[i]
      case None => Scan(cards, i + 1, best, w, lead)
      case Some(c) =>
        if WinAgainst(c, best, lead) then Scan(cards, i + 1, c, i, if lead == Excuse then c.color else lead)
        else Scan(cards, i + 1, best, w, lead)
  }

  /** `winner`: fails on a trick whose leader has not played, otherwise names a seat that
      has played. */
  function Winner(t: Trick): (r: Result<Seat, EngineError>)
    ensures r.Err? <==> t.cards[t.leader].None?
    ensures r.Err? ==> r.error == NotBegunHand
    ensures r.Ok? ==> t.cards[r.value].Some?
  {
    match t.cards[t.leader]
    case None => Err(NotBegunHand)
    case Some(leaderCard) => Ok(Scan(t.cards, 0, leaderCard, t.leader, leaderCard.color).0)
  }

  lemma {:induction false} ScanKeepsHighestTrump(cards: Slots, i: int, best: Card, w: Seat, lead: Color)
    requires 0 <= i <= 4
    requires cards[w] == Some(best)
    requires best.color != Trump ==> forall j | 0 <= j < i :: !HasColor(cards[j], Trump)
    requires best.color == Trump ==>
               forall j | 0 <= j < i :: HasColor(cards[j], Trump) ==> cards[j].value.value <= best.value
    ensures var r := Scan(cards, i, best, w, lead);
      (best.color == Trump || exists j | i <= j < 4 :: HasColor(cards[j], Trump)) ==>
        && r.1.color == Trump
        && forall j | 0 <= j < 4 :: HasColor(cards[j], Trump) ==> cards[j].value.value <= r.1.value
    decreases 4 - i
  {
    if i < 4 {
      match cards[i]
      case None =>
        ScanKeepsHighestTrump(cards, i + 1, best, w, lead);
      case Some(c) =>
        if WinAgainst(c, best, lead) {
          ScanKeepsHighestTrump(cards, i + 1, c, i, if lead == Excuse then c.color else lead);
        } else {
          ScanKeepsHighestTrump(cards, i + 1, best, w, lead);
        }
    }
  }

  lemma {:induction false} ScanFollowsLead(cards: Slots, i: int, best: Card, w: Seat, lead: Color)
    requires 0 <= i <= 4
    requires cards[w] == Some(best)
    requires best.color == lead && IsSuit(lead)
    requires forall j | 0 <= j < 4 :: !HasColor(cards[j], Trump)
    requires forall j | 0 <= j < i :: HasColor(cards[j], lead) ==> cards[j].value.value <= best.value
    ensures var r := Scan(cards, i, best, w, lead);
      && r.1.color == lead
      && forall j | 0 <= j < 4 :: HasColor(cards[j], lead) ==> cards[j].value.value <= r.1.value
    decreases 4 - i
  {
    if i < 4 {
      match cards[i]
      case None =>
        ScanFollowsLead(cards, i + 1, best, w, lead);
      case Some(c) =>
        assert c.color != Trump && lead != Excuse;
        if WinAgainst(c, best, lead) {
          assert c.color == lead && best.value < c.value;
          ScanFollowsLead(cards, i + 1, c, i, lead);
        } else {
          assert c.color == lead ==> c.value <= best.value;
          ScanFollowsLead(cards, i + 1, best, w, lead);
        }
    }
  }

  lemma {:induction false} ScanKeepsExcuse(cards: Slots, i: int, best: Card, w: Seat)
    requires 0 <= i <= 4
    requires cards[w] == Some(best)
    requires best.color == Excuse
    requires forall j | 0 <= j < 4 :: !HasColor(cards[j], Trump)
    ensures Scan(cards, i, best, w, Excuse).1.color == Excuse
    decreases 4 - i
  {
    if i < 4 {
      match cards[i]
      case None =>
        ScanKeepsExcuse(cards, i + 1, best, w);
      case Some(c) =>
        if WinAgainst(c, best, Excuse) {
          ScanKeepsExcuse(cards, i + 1, c, i);
        } else {
          ScanKeepsExcuse(cards, i + 1, best, w);
        }
    }
  }

  /** When a trump has been played, the winner holds the highest trump of the trick. */
  lemma WinnerHoldsHighestTrump(t: Trick)
    requires t.cards[t.leader].Some?
    requires HasTrump(t)
    ensures var w := Winner(t).value;
      HasColor(t.cards[w], Trump) && t.cards[w].value.value == HighestTrump(t)
  {
    var lc := t.cards[t.leader].value;
    ScanKeepsHighestTrump(t.cards, 0, lc, t.leader, lc.color);
  }

  /** Without trumps, a trick led in a plain suit is won by the highest card of that suit. */
  lemma WinnerFollowsLead(t: Trick)
    requires t.cards[t.leader].Some? && IsSuit(t.cards[t.leader].value.color)
    requires !HasTrump(t)
    ensures var w := Winner(t).value; var lead := t.cards[t.leader].value.color;
      && HasColor(t.cards[w], lead)
      && forall j | 0 <= j < 4 :: HasColor(t.cards[j], lead) ==> t.cards[j].value.value <= t.cards[w].value.value
  {
    var lc := t.cards[t.leader].value;
    ScanFollowsLead(t.cards, 0, lc, t.leader, lc.color);
  }

  /** Without trumps, a trick led with the Excuse is won by an Excuse: `winner` keeps the
      Excuse as lead colour instead of taking the next card's colour as `color` does. */
  lemma WinnerAfterExcuseLead(t: Trick)
    requires HasColor(t.cards[t.leader], Excuse)
    requires !HasTrump(t)
    ensures HasColor(t.cards[Winner(t).value], Excuse)
  {
    var lc := t.cards[t.leader].value;
    ScanKeepsExcuse(t.cards, 0, lc, t.leader);
  }

  // ---------------------------------------------------------------------------
  // Points and trumps

  function SlotPoints(cards: Slots, i: int): nat
    requires 0 <= i <= 4
    decreases 4 - i
  {
    if i == 4 then 0 else (if cards[i].Some? then Points(cards[i].value) else 0) + SlotPoints(cards, i + 1)
  }

  /** `Trick::points`: the points of the cards played so far. */
  function TrickPoints(t: Trick): nat {
    SlotPoints(t.cards, 0)
  }

  lemma {:induction false} SlotPointsUpdate(cards: Slots, i: int, p: Seat, card: Card)
    requires 0 <= i <= 4
    requires cards[p].None?
    ensures SlotPoints(cards[p := Some(card)], i) == SlotPoints(cards, i) + (if i <= p then Points(card) else 0)
    decreases 4 - i
  {
    if i < 4 {
      SlotPointsUpdate(cards, i + 1, p, card);
    }
  }

  /** `PlayedTrick::points`: the sum of its four cards' points. */
  function PlayedPoints(p: PlayedTrick): (r: nat)
    ensures 4 <= r
    ensures (forall i | 0 <= i < 4 :: Valid(p.cards[i])) ==> r <= 36
  {
    Points(p.cards[0]) + Points(p.cards[1]) + Points(p.cards[2]) + Points(p.cards[3])
  }

  /** The loop of `highest_trump` from seat `i`, with `acc` the highest trump seen so far. */
  function TrumpFold(cards: Slots, i: int, acc: U8): (r: U8)
    requires 0 <= i <= 4
    decreases 4 - i
    ensures acc <= r
    ensures forall j | i <= j < 4 :: HasColor(cards[j], Trump) ==> cards[j].value.value <= r
    ensures r == acc || exists j | i <= j < 4 :: HasColor(cards[j], Trump) && cards[j].value.value == r
  {
    if i == 4 then acc
    else if HasColor(cards[i], Trump) && cards[i].value.value > acc then TrumpFold(cards, i + 1, cards[i].value.value)
    else TrumpFold(cards, i + 1, acc)
  }

  /** `highest_trump`: 0 when no trump has been played, else the highest trump value. */
  function HighestTrump(t: Trick): (r: U8)
    ensures forall j | 0 <= j < 4 :: HasColor(t.cards[j], Trump) ==> t.cards[j].value.value <= r
    ensures r == 0 || exists j | 0 <= j < 4 :: HasColor(t.cards[j], Trump) && t.cards[j].value.value == r
    ensures !HasTrump(t) ==> r == 0
  {
    TrumpFold(t.cards, 0, 0)
  }

  /** `overtrumped_by`: `card` is a trump above every trump of the trick. */
  function OvertrumpedBy(t: Trick, card: Card): (r: bool)
    ensures r ==> card.color == Trump
    ensures r ==> forall j, lead | 0 <= j < 4 && HasColor(t.cards[j], Trump) :: WinAgainst(card, t.cards[j].value, lead)
    ensures card.color == Trump && !HasTrump(t) ==> (r <==> card.value > 0)
    ensures r <==> && card.color == Trump && card.value > 0
                   && forall j | 0 <= j < 4 && HasColor(t.cards[j], Trump) :: t.cards[j].value.value < card.value
  {
    card.color == Trump && card.value > HighestTrump(t)
  }

  // ---------------------------------------------------------------------------
  // Finishing

  /** `into_played`: a full trick becomes a played trick with the same cards and its
      winner; a trick with an empty slot is refused. */
  function IntoPlayed(t: Trick): (r: Result<PlayedTrick, EngineError>)
    ensures r.Err? <==> !Full(t)
    ensures r.Err? ==> r.error == UnfinishedHand
    ensures r.Ok? ==> forall i | 0 <= i < 4 :: t.cards[i] == Some(r.value.cards[i])
    ensures r.Ok? ==> Winner(t) == Ok(r.value.winner)
  {
    if !Full(t) then Err(UnfinishedHand)
    else
      // `winner()?` cannot fail here: the leader's slot is filled.
      Ok(PlayedTrick([t.cards[0].value, t.cards[1].value, t.cards[2].value, t.cards[3].value], Winner(t).value))
  }

  /** A played trick is worth what the full trick was worth. */
  lemma IntoPlayedKeepsPoints(t: Trick)
    requires IntoPlayed(t).Ok?
    ensures PlayedPoints(IntoPlayed(t).value) == TrickPoints(t)
  {
  }

  // ---------------------------------------------------------------------------
  // Literal cases

  /** Spade 5, Spade 10, Trump 3, Spade King: the trump wins. */
  lemma TrumpWinsExample()
    ensures Winner(Trick([Some(Card(Spade, 5)), Some(Card(Spade, 10)), Some(Card(Trump, 3)), Some(Card(Spade, 14))], 0)) == Ok(2)
  {
  }

  /** Excuse led, then Heart 7, Heart King, Trump 1: the trump wins. */
  lemma ExcuseLeadTrumpedExample()
    ensures Winner(Trick([Some(Card(Excuse, 0)), Some(Card(Heart, 7)), Some(Card(Heart, 14)), Some(Card(Trump, 1))], 0)) == Ok(3)
  {
  }

  /** Excuse led, then three hearts: `color` says Heart, yet the Excuse wins. */
  lemma ExcuseLeadUntrumpedExample()
    ensures var t := Trick([Some(Card(Excuse, 0)), Some(Card(Heart, 7)), Some(Card(Heart, 14)), Some(Card(Heart, 2))], 0);
      TrickColor(t) == Some(Heart) && Winner(t) == Ok(0)
  {
  }

  /** Trump 1, Trump 21, Excuse, Heart 2 score 9 + 9 + 9 + 1. */
  lemma PointsExample()
    ensures TrickPoints(Trick([Some(Card(Trump, 1)), Some(Card(Trump, 21)), Some(Card(Excuse, 0)), Some(Card(Heart, 2))], 0)) == 28
  {
  }
}
