/** One seat's hand and the legality of its plays
    (business/game_engine/player_game_state.rs). */
module PlayerStates {
  import opened Wrappers
  import opened Seqs
  import opened EngineErrors
  import opened Cards
  import opened Tricks

  datatype PlayerGameState = PlayerGameState(hand: set<Card>)

  /** `use_card`: removes a held card; an unheld card is refused and nothing changes. */
  function UseCard(s: PlayerGameState, card: Card): (r: Result<PlayerGameState, EngineError>)
    ensures r.Err? <==> card !in s.hand
    ensures r.Err? ==> r.error == DoesNotHaveCard
    ensures r.Ok? ==> r.value.hand == s.hand - {card} && |r.value.hand| == |s.hand| - 1
  {
    if card in s.hand then Ok(PlayerGameState(s.hand - {card})) else Err(DoesNotHaveCard)
  }

  /** `has_color`. */
  predicate HoldsColor(hand: set<Card>, c: Color) {
    exists card | card in hand :: card.color == c
  }

  /** `can_overtrump`: the hand holds a trump above every trump of the trick. */
  predicate CanOvertrump(hand: set<Card>, t: Trick) {
    exists card | card in hand :: card.color == Trump && card.value > HighestTrump(t)
  }

  /** The playing rule the engine enforces, stated by case rather than by the order of its
      checks: with a lead colour, a player holding it must play it; a player void in it
      must trump when holding a trump, and a trump must go above the trick's trumps when
      some held trump can. */
  predicate Legal(hand: set<Card>, card: Card, t: Trick) {
    && card in hand
    && match TrickColor(t)
       case None => true
       case Some(lead) =>
         if HoldsColor(hand, lead) then card.color == lead
         else if card.color == Trump then OvertrumpedBy(t, card) || !CanOvertrump(hand, t)
         else !HoldsColor(hand, Trump)
  }

  /** `allowed_to_play`: the checks in their fixed order, reporting the first violation. */
  function AllowedToPlay(s: PlayerGameState, card: Card, t: Trick): (r: Result<(), EngineError>)
    ensures r.Ok? <==> Legal(s.hand, card, t)
    ensures r == Err(DoesNotHaveCard) <==> card !in s.hand
    ensures card in s.hand && (TrickColor(t).None? || TrickColor(t) == Some(card.color)) ==> r.Ok?
    ensures r == Err(HasToFollowSuit) <==>
              card in s.hand && TrickColor(t).Some? && TrickColor(t) != Some(card.color)
              && HoldsColor(s.hand, TrickColor(t).value)
    ensures r == Err(HasToTrump) ==> card.color != Trump && HoldsColor(s.hand, Trump)
    ensures r == Err(HasToOvertrump) ==> card.color == Trump && !OvertrumpedBy(t, card) && CanOvertrump(s.hand, t)
    ensures r.Err? ==> r.error in {DoesNotHaveCard, HasToFollowSuit, HasToTrump, HasToOvertrump}
  {
    if card !in s.hand then Err(DoesNotHaveCard)
    else match TrickColor(t)
      case None => Ok(())
      case Some(lead) =>
        if lead != card.color && HoldsColor(s.hand, lead) then Err(HasToFollowSuit)
        else if !HoldsColor(s.hand, lead) && card.color != Trump && HoldsColor(s.hand, Trump) then Err(HasToTrump)
        else if !HoldsColor(s.hand, lead) && card.color == Trump && CanOvertrump(s.hand, t) && !OvertrumpedBy(t, card) then
          Err(HasToOvertrump)
        else Ok(())
  }

  /** `cards_allowed`: the held cards that `allowed_to_play` accepts. */
  function CardsAllowed(s: PlayerGameState, t: Trick): (r: set<Card>)
    ensures r <= s.hand
    ensures forall c :: c in r <==> c in s.hand && AllowedToPlay(s, c, t).Ok?
    ensures TrickColor(t).None? ==> r == s.hand
  {
    set c | c in s.hand && AllowedToPlay(s, c, t).Ok?
  }

  /** A seat holding any card always has a legal card to play. */
  lemma CardsAllowedNonEmpty(s: PlayerGameState, t: Trick)
    requires s.hand != {}
    ensures CardsAllowed(s, t) != {}
  {
    var any :| any in s.hand;
    match TrickColor(t)
    case None =>
      assert any in CardsAllowed(s, t);
    case Some(lead) =>
      if HoldsColor(s.hand, lead) {
        var c :| c in s.hand && c.color == lead;
        assert c in CardsAllowed(s, t);
      } else if CanOvertrump(s.hand, t) {
        var c :| c in s.hand && c.color == Trump && c.value > HighestTrump(t);
        assert c in CardsAllowed(s, t);
      } else if HoldsColor(s.hand, Trump) {
        var c :| c in s.hand && c.color == Trump;
        assert c in CardsAllowed(s, t);
      } else {
        assert any in CardsAllowed(s, t);
      }
  }

  /** `play_a_card`. The seat order is checked first; the card is then removed from the hand
      before the trick accepts it, so a full trick reports `FinishedHand` with the card
      already gone. The state holds the hand and the trick. */
  function PlayACard(s: PlayerGameState, t: Trick, player: U8, card: Card): (r: Step<(PlayerGameState, Trick), EngineError>)
    ensures NextToPlay(t).Some? && NextToPlay(t).value != player ==> r == Step((s, t), Err(OutOfOrderPlay))
    ensures r.result.Ok? <==> NextToPlay(t) == Some(player) && Legal(s.hand, card, t)
    ensures r.result.Ok? ==>
              && card in s.hand
              && r.state.0.hand == s.hand - {card}
              && r.state.1 == Trick(t.cards[player := Some(card)], t.leader)
    ensures Full(t) && Legal(s.hand, card, t) ==>
              r.result == Err(FinishedHand) && r.state == (PlayerGameState(s.hand - {card}), t)
    ensures r.result.Err? && r.result.error != FinishedHand ==> r.state == (s, t)
  {
    if NextToPlay(t).Some? && NextToPlay(t).value != player then Step((s, t), Err(OutOfOrderPlay))
    else match AllowedToPlay(s, card, t)
      case Err(e) => Step((s, t), Err(e))
      case Ok(_) =>
        // `use_card` cannot fail after `allowed_to_play` accepted the card.
        var s' := UseCard(s, card).value;
        match PlayCard(t, player, card)
        case Ok(t') => Step((s', t'), Ok(()))
        case Err(e) => Step((s', t), Err(e))
  }

  /** The loop of `chose_aside`: removes the cards in order and succeeds when each card is
      still held at its turn. */
  function UseAll(s: PlayerGameState, cards: seq<Card>): (r: Step<PlayerGameState, EngineError>)
    ensures r.result.Ok? <==> Distinct(cards) && Elems(cards) <= s.hand
    ensures r.result.Ok? ==> r.state.hand == s.hand - Elems(cards)
    ensures r.result.Err? ==> r.result.error == DoesNotHaveCard && r.state.hand <= s.hand
    decreases |cards|
  {
    if cards == [] then Step(s, Ok(()))
    else match UseCard(s, cards[0])
      case Err(e) => Step(s, Err(e))
      case Ok(s') =>
        DistinctCons(cards);
        UseAll(s', cards[1..])
  }

  /** A failing `UseAll` stops at the first card no longer held and keeps the removals
      made before it. */
  lemma {:induction false} UseAllStopsAtFirstUnheld(s: PlayerGameState, cards: seq<Card>)
    requires UseAll(s, cards).result.Err?
    ensures var h := UseAll(s, cards).state.hand;
      exists k | 0 <= k < |cards| :: h == s.hand - Elems(cards[..k]) && cards[k] !in h
    decreases |cards|
  {
    var h := UseAll(s, cards).state.hand;
    if cards[0] !in s.hand {
      assert cards[..0] == [];
      assert h == s.hand - Elems(cards[..0]);
    } else {
      var s' := PlayerGameState(s.hand - {cards[0]});
      assert UseAll(s, cards) == UseAll(s', cards[1..]);
      UseAllStopsAtFirstUnheld(s', cards[1..]);
      var k' :| 0 <= k' < |cards[1..]| && h == s'.hand - Elems(cards[1..][..k']) && cards[1..][k'] !in h;
      ShiftFailure(s.hand, cards, h, k');
    }
  }

  lemma ShiftFailure(hand: set<Card>, cards: seq<Card>, h: set<Card>, k: int)
    requires 0 <= k < |cards| - 1
    requires h == (hand - {cards[0]}) - Elems(cards[1..][..k]) && cards[1..][k] !in h
    ensures h == hand - Elems(cards[..k + 1]) && cards[k + 1] !in h
  {
    PrefixCons(cards, k);
  }

  /** `chose_aside`: the taker sets six cards aside. */
  function ChoseAside(s: PlayerGameState, aside: seq<Card>): (r: Step<PlayerGameState, EngineError>)
    requires |aside| == 6
    ensures r.result.Ok? <==> Distinct(aside) && Elems(aside) <= s.hand
    ensures r.result.Ok? ==> r.state.hand == s.hand - Elems(aside) && |r.state.hand| == |s.hand| - 6
    ensures r.result.Err? ==> r.result.error == DoesNotHaveCard && r.state.hand <= s.hand
    ensures r.result.Err? ==> exists k | 0 <= k < 6 :: r.state.hand == s.hand - Elems(aside[..k]) && aside[k] !in r.state.hand
  {
    var r := UseAll(s, aside);
    assert r.result.Ok? ==> |r.state.hand| == |s.hand| - 6 by {
      if r.result.Ok? {
        DistinctCard(aside);
      }
    }
    assert r.result.Err? ==>
      exists k | 0 <= k < 6 :: r.state.hand == s.hand - Elems(aside[..k]) && aside[k] !in r.state.hand by {
      if r.result.Err? {
        UseAllStopsAtFirstUnheld(s, aside);
      }
    }
    r
  }
}
