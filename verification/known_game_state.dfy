/** What one seat knows of a deal, and the constraints it infers about the other hands
    (business/game_engine/known_game_state.rs). */
module KnownStates {
  import opened Wrappers
  import opened Seqs
  import opened EngineErrors
  import opened Cards
  import opened Tricks
  import opened PlayerStates
  import opened SharedStates
  import GameStates
  import HandGeneration

  datatype KnownGameState = KnownGameState(
    playerState: PlayerGameState,
    playerIndex: U8,
    kitty: Option<GameStates.Kitty>,
    sharedState: SharedGameState)

  /** `KnownGameState::initialize`: a seat's view of a fresh deal. */
  function Initialize(hand: set<Card>, playerIndex: U8, kitty: Option<GameStates.Kitty>, dealer: Seat): (k: KnownGameState)
    ensures k.playerState.hand == hand && k.playerIndex == playerIndex && k.kitty == kitty
    ensures k.sharedState == SharedStates.Initialize(dealer)
  {
    KnownGameState(PlayerGameState(hand), playerIndex, kitty, SharedStates.Initialize(dealer))
  }

  /** `from_omniscient`: the seat's own hand and the public state; the kitty only once the
      contract reveals it. */
  function FromOmniscient(g: GameStates.GameState, player: Seat): (k: KnownGameState)
    ensures k.playerState == g.playersState[player] && k.playerIndex == player
    ensures k.sharedState == g.sharedState
    ensures k.kitty.Some? <==> KittyRevealed(g.sharedState)
    ensures k.kitty.Some? ==> k.kitty.value == g.kitty
  {
    KnownGameState(g.playersState[player], player,
      if KittyRevealed(g.sharedState) then Some(g.kitty) else None,
      g.sharedState)
  }

  /** The projection depends only on what the seat may see: two deals that agree on the
      seat's hand, the public state and (once revealed) the kitty look the same from it. */
  lemma FromOmniscientHidesOthers(g1: GameStates.GameState, g2: GameStates.GameState, player: Seat)
    requires g1.playersState[player] == g2.playersState[player]
    requires g1.sharedState == g2.sharedState
    requires KittyRevealed(g1.sharedState) ==> g1.kitty == g2.kitty
    ensures FromOmniscient(g1, player) == FromOmniscient(g2, player)
  {
  }

  /** At the start of a deal no contract is known, so the seat's projection of a fresh
      deal is the fresh view of its own hand, without the kitty. */
  lemma InitialViewHidesKitty(hands: GameStates.HandSets, kitty: GameStates.Kitty, dealer: Seat, player: Seat)
    ensures FromOmniscient(GameStates.Initialize(hands, kitty, dealer), player)
         == Initialize(hands[player], player, None, dealer)
  {
    var g := GameStates.Initialize(hands, kitty, dealer);
    assert g.playersState[player] == PlayerGameState(hands[player]);
    assert !KittyRevealed(g.sharedState);
  }

  /** What can be inferred from one played trick, which the trick type computes itself:
      the lead colour, whether the seat showed a void in it, and the trump value the seat
      showed it could not beat. */
  datatype TrickInference = TrickInference(
    color: PlayedTrick -> Color,
    didNotHaveColor: (PlayedTrick, Seat) -> bool,
    didNotHaveTrumpHigher: (PlayedTrick, Seat) -> Option<U8>)

  datatype PlayerConstraint = PlayerConstraint(
    numberCards: int,
    highestTrump: U8,
    voidedColors: set<Color>,
    knownCards: set<Card>)

  const HighestTrumpValue: U8 := 21

  /** Whether `player` already has a card in the current trick. */
  predicate InCurrentTrick(s: SharedGameState, player: Seat) {
    s.currentTrick.Some? && s.currentTrick.value.cards[player].Some?
  }

  /** The number of cards `player` still holds, before the `usize` conversion. */
  function SeatCount(s: SharedGameState, player: Seat): int {
    GameStates.HandSize - |s.playedTricks| - (if InCurrentTrick(s, player) then 1 else 0)
  }

  /** The cards of `player` the caller can name. */
  function KnownCards(k: KnownGameState, player: Seat): set<Card> {
    if player == k.playerIndex as int then k.playerState.hand
    else match k.sharedState.declaredHandfuls[player]
      case Some(h) => h.cards
      case None => {}
  }

  /** The trump ceiling after scanning `tricks` in order from 21. */
  function Ceiling(tricks: seq<PlayedTrick>, player: Seat, inf: TrickInference): (r: U8)
    ensures r <= HighestTrumpValue
    ensures forall i | 0 <= i < |tricks| && inf.didNotHaveTrumpHigher(tricks[i], player).Some? ::
              r <= inf.didNotHaveTrumpHigher(tricks[i], player).value
    ensures r == HighestTrumpValue
            || exists i | 0 <= i < |tricks| :: inf.didNotHaveTrumpHigher(tricks[i], player) == Some(r)
  {
    if |tricks| == 0 then HighestTrumpValue
    else
      var h := Ceiling(tricks[..|tricks| - 1], player, inf);
      assert forall i | 0 <= i < |tricks| - 1 :: tricks[..|tricks| - 1][i] == tricks[i];
      match inf.didNotHaveTrumpHigher(tricks[|tricks| - 1], player)
      case Some(b) => if b < h then b else h
      case None => h
  }

  /** The void colours after scanning `tricks` in order. */
  function Voids(tricks: seq<PlayedTrick>, player: Seat, inf: TrickInference): (r: set<Color>)
    ensures r == set i | 0 <= i < |tricks| && inf.didNotHaveColor(tricks[i], player) :: inf.color(tricks[i])
  {
    if |tricks| == 0 then {}
    else
      var v := Voids(tricks[..|tricks| - 1], player, inf);
      assert forall i | 0 <= i < |tricks| - 1 :: tricks[..|tricks| - 1][i] == tricks[i];
      if inf.didNotHaveColor(tricks[|tricks| - 1], player) then v + {inf.color(tricks[|tricks| - 1])}
      else v
  }

  /** A trump ceiling only ever comes down as more tricks are scanned. */
  lemma {:induction false} CeilingOnlyDecreases(tricks: seq<PlayedTrick>, more: seq<PlayedTrick>, player: Seat, inf: TrickInference)
    ensures Ceiling(tricks + more, player, inf) <= Ceiling(tricks, player, inf)
    decreases |more|
  {
    if |more| > 0 {
      var init := more[..|more| - 1];
      assert (tricks + more)[..|tricks + more| - 1] == tricks + init;
      CeilingOnlyDecreases(tricks, init, player, inf);
    } else {
      assert tricks + more == tricks;
    }
  }

  /** `get_known_constraints`. The count is a `usize` in the source: a seat that has
      played more than 18 cards would underflow, which no deal reaches. */
  function GetKnownConstraints(k: KnownGameState, player: Seat, inf: TrickInference): (r: Result<PlayerConstraint, EngineError>)
    requires SeatCount(k.sharedState, player) >= 0
    ensures r.Ok?
    ensures r.value.numberCards == GameStates.HandSize - |k.sharedState.playedTricks|
                                   - (if InCurrentTrick(k.sharedState, player) then 1 else 0)
    ensures player == k.playerIndex as int ==> r.value.knownCards == k.playerState.hand
    ensures player != k.playerIndex as int && k.sharedState.declaredHandfuls[player].Some? ==>
              r.value.knownCards == k.sharedState.declaredHandfuls[player].value.cards
    ensures player != k.playerIndex as int && k.sharedState.declaredHandfuls[player].None? ==>
              r.value.knownCards == {}
    ensures var tricks := k.sharedState.playedTricks;
      && r.value.highestTrump <= HighestTrumpValue
      && (forall i | 0 <= i < |tricks| && inf.didNotHaveTrumpHigher(tricks[i], player).Some? ::
            r.value.highestTrump <= inf.didNotHaveTrumpHigher(tricks[i], player).value)
      && (r.value.highestTrump == HighestTrumpValue
          || exists i | 0 <= i < |tricks| :: inf.didNotHaveTrumpHigher(tricks[i], player) == Some(r.value.highestTrump))
    ensures var tricks := k.sharedState.playedTricks;
      r.value.voidedColors == set i | 0 <= i < |tricks| && inf.didNotHaveColor(tricks[i], player) :: inf.color(tricks[i])
  {
    Ok(SeatConstraint(k, player, inf))
  }

  function SeatConstraint(k: KnownGameState, player: Seat, inf: TrickInference): PlayerConstraint
    requires SeatCount(k.sharedState, player) >= 0
  {
    PlayerConstraint(
      SeatCount(k.sharedState, player),
      Ceiling(k.sharedState.playedTricks, player, inf),
      Voids(k.sharedState.playedTricks, player, inf),
      KnownCards(k, player))
  }

  /** Whether `possible_cards` skips `card` for seat `index`. */
  predicate Excluded(k: KnownGameState, constraints: seq<PlayerConstraint>, index: Seat, card: Card)
    requires |constraints| == 4
  {
    || (k.sharedState.taker.Some? && k.playerIndex != k.sharedState.taker.value
        && k.kitty.Some? && card in k.kitty.value)
    || card.color in constraints[index].voidedColors
    || (exists i | 0 <= i < 4 :: card in constraints[i].knownCards)
    || (card.color == Trump && constraints[index].highestTrump < card.value)
  }

  /** `possible_cards`: the cards left to play that seat `index` may hold. */
  function PossibleCards(k: KnownGameState, constraints: seq<PlayerConstraint>, leftToPlay: set<Card>, index: Seat): (r: set<Card>)
    requires |constraints| == 4
    ensures r <= leftToPlay
    ensures forall c | c in r :: c.color !in constraints[index].voidedColors
    ensures forall c, i | c in r && 0 <= i < 4 :: c !in constraints[i].knownCards
    ensures forall c | c in r && c.color == Trump :: c.value <= constraints[index].highestTrump
    ensures forall c | c in r && k.kitty.Some? && c in k.kitty.value ::
              k.sharedState.taker.None? || k.playerIndex == k.sharedState.taker.value
    ensures forall c | c in leftToPlay && !Excluded(k, constraints, index, c) :: c in r
  {
    set c | c in leftToPlay && !Excluded(k, constraints, index, c)
  }

  /** The eligible sets of the four seats. */
  function PossibleSets(k: KnownGameState, constraints: seq<PlayerConstraint>, leftToPlay: set<Card>): (r: GameStates.HandSets)
    requires |constraints| == 4
    ensures forall p: Seat :: r[p] == PossibleCards(k, constraints, leftToPlay, p)
  {
    seq(4, (p: int) requires 0 <= p < 4 => PossibleCards(k, constraints, leftToPlay, p))
  }

  /** Soundness of the sampler: every card a successful generation adds to a seat's known
      cards was left to play and breaks none of that seat's constraints. */
  lemma SampledHandsRespectConstraints(
    k: KnownGameState, constraints: seq<PlayerConstraint>, leftToPlay: set<Card>,
    known: GameStates.HandSets, remaining: HandGeneration.Counts, draws: seq<Card>, picks: seq<nat>)
    requires |constraints| == 4
    requires forall p: Seat :: remaining[p] >= 0
    requires multiset(draws) == HandGeneration.DeckAsWritten(PossibleSets(k, constraints, leftToPlay), known)
    requires |picks| == |draws|
    requires HandGeneration.GenerateHands(PossibleSets(k, constraints, leftToPlay), known, remaining, draws, picks).Ok?
    ensures var hands := HandGeneration.GenerateHands(PossibleSets(k, constraints, leftToPlay), known, remaining, draws, picks).value.0;
      forall p: Seat, c | c in hands[p] && c !in known[p] ::
        && c in leftToPlay
        && c.color !in constraints[p].voidedColors
        && (c.color == Trump ==> c.value <= constraints[p].highestTrump)
        && forall q: Seat :: c !in constraints[q].knownCards
  {
  }

  /** The constraint array the sampler builds, as written: seat 3 is given the constraints
      computed for seat 2. */
  function ConstraintsAsWritten(k: KnownGameState, inf: TrickInference): (r: Result<seq<PlayerConstraint>, EngineError>)
    requires forall p: Seat :: SeatCount(k.sharedState, p) >= 0
    ensures r.Ok? && |r.value| == 4
    ensures forall p | 0 <= p < 3 :: r.value[p] == ConstraintsPerSeat(k, inf)[p]
    ensures r.value[3] == r.value[2]
  {
    // Each `?` of the source propagates an error `get_known_constraints` never returns.
    var per := ConstraintsPerSeat(k, inf);
    Ok([per[0], per[1], per[2], per[2]])
  }

  /** Seat 3's constraints as written ignore seat 3's declared handful whenever seat 2 has
      none: cards every seat can name for seat 3 are not excluded for the others. */
  lemma SeatThreeLosesItsHandful(k: KnownGameState, inf: TrickInference)
    requires forall p: Seat :: SeatCount(k.sharedState, p) >= 0
    requires k.playerIndex < 2
    requires k.sharedState.declaredHandfuls[2].None? && k.sharedState.declaredHandfuls[3].Some?
    requires k.sharedState.declaredHandfuls[3].value.cards != {}
    ensures ConstraintsAsWritten(k, inf).value[3].knownCards == {}
    ensures GetKnownConstraints(k, 3, inf).value.knownCards == k.sharedState.declaredHandfuls[3].value.cards
  {
  }

  /** The constraint array with every seat's own constraints. */
  function ConstraintsPerSeat(k: KnownGameState, inf: TrickInference): (r: seq<PlayerConstraint>)
    requires forall p: Seat :: SeatCount(k.sharedState, p) >= 0
    ensures |r| == 4
    ensures forall p: Seat :: r[p].knownCards == KnownCards(k, p)
    ensures forall p: Seat :: r[p].numberCards == SeatCount(k.sharedState, p)
    ensures forall p: Seat :: r[p].voidedColors == Voids(k.sharedState.playedTricks, p, inf)
  {
    seq(4, (p: int) requires 0 <= p < 4 => SeatConstraint(k, p, inf))
  }

  /** The cards the caller cannot place: those left to play, minus its own hand and the
      kitty when it is known. */
  function Pool(k: KnownGameState): set<Card> {
    CardsLeftToPlay(k.sharedState) - k.playerState.hand
    - (if k.kitty.Some? then Elems(k.kitty.value) else {})
  }

  /** The number of cards dealt to the seats before seat `p`. */
  function Before(s: SharedGameState, p: int): (r: int)
    requires 0 <= p <= 4
    ensures !CountUnderflows(s) ==> 0 <= r
    ensures !CountUnderflows(s) && p > 0 ==> Before(s, p - 1) <= r
  {
    if p == 0 then 0 else Before(s, p - 1) + SeatCount(s, p - 1)
  }

  predicate CountUnderflows(s: SharedGameState) {
    exists p: Seat :: SeatCount(s, p) < 0
  }

  lemma {:induction false} BeforeUpTo(s: SharedGameState, p: int, q: int)
    requires !CountUnderflows(s) && 0 <= p <= q <= 4
    ensures 0 <= Before(s, p) <= Before(s, q)
    decreases q - p
  {
    if p < q {
      BeforeUpTo(s, p, q - 1);
    }
  }

  /** `possible_random_full_state`, with the shuffled pool `order` as input. `None` stands
      for a panic: a seat count below zero in `usize`, or a `drain` past the end of the
      pool. All four seats are dealt from the pool, the caller's seat included, and the
      leftover cards must number six even when the kitty is known. The state returned is
      built by `GameState::initialize`, so its public part is a new deal's. */
  function PossibleRandomFullState(k: KnownGameState, order: seq<Card>): (r: Option<Result<GameStates.GameState, EngineError>>)
    requires Enumerates(order, Pool(k))
    ensures r.None? <==> CountUnderflows(k.sharedState) || Before(k.sharedState, 4) > |order|
    ensures r.Some? && r.value.Err? <==>
              !CountUnderflows(k.sharedState) && Before(k.sharedState, 4) <= |order| && |order| - Before(k.sharedState, 4) != 6
    ensures r.Some? && r.value.Err? ==> r.value.error == RustError
    ensures r.Some? && r.value.Ok? ==>
              var g := r.value.value;
              && (forall p: Seat :: g.playersState[p].hand == PoolBlock(k.sharedState, order, p))
              && (k.kitty.Some? ==> g.kitty == k.kitty.value)
              && (k.kitty.None? ==> g.kitty == order[Before(k.sharedState, 4)..])
              && g.sharedState == SharedStates.Initialize(k.sharedState.dealer)
  {
    var s := k.sharedState;
    if CountUnderflows(s) || Before(s, 4) > |order| then None
    else
      var hands: GameStates.HandSets :=
        [PoolBlock(s, order, 0), PoolBlock(s, order, 1), PoolBlock(s, order, 2), PoolBlock(s, order, 3)];
      var rest := order[Before(s, 4)..];
      if |rest| != 6 then Some(Err(RustError))
      else
        var kitty := match k.kitty case Some(known) => known case None => rest;
        Some(Ok(GameStates.Initialize(hands, kitty, s.dealer)))
  }

  /** The block of the shuffled pool drained for seat `p`. */
  function PoolBlock(s: SharedGameState, order: seq<Card>, p: Seat): set<Card>
    requires !CountUnderflows(s) && Before(s, 4) <= |order|
  {
    BeforeUpTo(s, p, p + 1);
    BeforeUpTo(s, p + 1, 4);
    Elems(order[Before(s, p)..Before(s, p + 1)])
  }

  /** The seat whose view this is. */
  predicate OwnSeat(k: KnownGameState) {
    k.playerIndex < 4
  }

  /** The number of cards the seats before `p` other than `me` still hold. */
  function OthersBefore(s: SharedGameState, me: Seat, p: int): (r: int)
    requires 0 <= p <= 4
    ensures !CountUnderflows(s) ==> 0 <= r
    ensures !CountUnderflows(s) && p > 0 ==> OthersBefore(s, me, p - 1) <= r
  {
    if p == 0 then 0 else OthersBefore(s, me, p - 1) + (if p - 1 == me then 0 else SeatCount(s, p - 1))
  }

  lemma {:induction false} OthersBeforeUpTo(s: SharedGameState, me: Seat, p: int, q: int)
    requires !CountUnderflows(s) && 0 <= p <= q <= 4
    ensures 0 <= OthersBefore(s, me, p) <= OthersBefore(s, me, q)
    decreases q - p
  {
    if p < q {
      OthersBeforeUpTo(s, me, p, q - 1);
    }
  }

  lemma OthersBeforeMonotone(s: SharedGameState, me: Seat)
    requires !CountUnderflows(s)
    ensures forall p, q | 0 <= p <= q <= 4 :: 0 <= OthersBefore(s, me, p) <= OthersBefore(s, me, q)
  {
    forall p, q | 0 <= p <= q <= 4
      ensures 0 <= OthersBefore(s, me, p) <= OthersBefore(s, me, q)
    {
      OthersBeforeUpTo(s, me, p, q);
    }
  }

  lemma OthersBeforeAll(s: SharedGameState, me: Seat)
    ensures OthersBefore(s, me, 4) == Before(s, 4) - SeatCount(s, me)
  {
    assert Before(s, 1) == SeatCount(s, 0);
    assert Before(s, 2) == Before(s, 1) + SeatCount(s, 1);
    assert Before(s, 3) == Before(s, 2) + SeatCount(s, 2);
    assert Before(s, 4) == Before(s, 3) + SeatCount(s, 3);
    assert OthersBefore(s, me, 1) == (if me == 0 then 0 else SeatCount(s, 0));
    assert OthersBefore(s, me, 2) == OthersBefore(s, me, 1) + (if me == 1 then 0 else SeatCount(s, 1));
    assert OthersBefore(s, me, 3) == OthersBefore(s, me, 2) + (if me == 2 then 0 else SeatCount(s, 2));
    assert OthersBefore(s, me, 4) == OthersBefore(s, me, 3) + (if me == 3 then 0 else SeatCount(s, 3));
  }

  /** A slot's card, as a set of at most one card. */
  function SlotSet(slot: Option<Card>): (r: set<Card>)
    ensures |r| <= 1
    ensures forall c :: c in r <==> slot == Some(c)
  {
    if slot.Some? then {slot.value} else {}
  }

  /** The cards lying in the open trick: still left to play, but in no hand. */
  function TableCards(s: SharedGameState): (r: set<Card>)
    ensures |r| <= 4
    ensures forall c :: c in r <==> s.currentTrick.Some? && exists i | 0 <= i < 4 :: s.currentTrick.value.cards[i] == Some(c)
  {
    if s.currentTrick.None? then {}
    else
      var cs := s.currentTrick.value.cards;
      UnionCard(SlotSet(cs[0]), SlotSet(cs[1]));
      UnionCard(SlotSet(cs[0]) + SlotSet(cs[1]), SlotSet(cs[2]));
      UnionCard(SlotSet(cs[0]) + SlotSet(cs[1]) + SlotSet(cs[2]), SlotSet(cs[3]));
      SlotSet(cs[0]) + SlotSet(cs[1]) + SlotSet(cs[2]) + SlotSet(cs[3])
  }

  lemma UnionCard(a: set<Card>, b: set<Card>)
    ensures |a + b| <= |a| + |b|
  {
    assert a + b == a + (b - a);
  }

  /** The view agrees with a real deal: the pool holds the other seats' cards, the cards on
      the table (which `cards_left_to_play` keeps), and the six kitty cards when the kitty
      is not known. */
  predicate ConsistentPool(k: KnownGameState)
    requires OwnSeat(k)
  {
    && TableCards(k.sharedState) <= Pool(k)
    && |Pool(k)| == OthersBefore(k.sharedState, k.playerIndex as int, 4) + |TableCards(k.sharedState)|
                    + (if k.kitty.None? then 6 else 0)
  }

  /** The cards the caller can neither place nor see on the table. */
  function Unseen(k: KnownGameState): (r: set<Card>)
    ensures r <= Pool(k) && r !! TableCards(k.sharedState)
  {
    Pool(k) - TableCards(k.sharedState)
  }

  /** In a consistent view the unseen cards are exactly the other seats' cards and the
      hidden kitty. */
  lemma UnseenSize(k: KnownGameState)
    requires OwnSeat(k) && ConsistentPool(k)
    ensures |Unseen(k)| == OthersBefore(k.sharedState, k.playerIndex as int, 4) + (if k.kitty.None? then 6 else 0)
  {
    var t := TableCards(k.sharedState);
    assert Pool(k) == Unseen(k) + t;
    assert Unseen(k) !! t;
  }

  /** Every hand dealt from the pool is the block of the order it was drained from, so it
      has the seat's count of cards. */
  lemma FullStateHandSizes(k: KnownGameState, order: seq<Card>)
    requires Enumerates(order, Pool(k))
    requires PossibleRandomFullState(k, order).Some? && PossibleRandomFullState(k, order).value.Ok?
    ensures forall p: Seat :: |PossibleRandomFullState(k, order).value.value.playersState[p].hand| == SeatCount(k.sharedState, p)
  {
    var s := k.sharedState;
    var g := PossibleRandomFullState(k, order).value.value;
    forall p: Seat
      ensures |g.playersState[p].hand| == SeatCount(s, p)
    {
      assert g.playersState[p].hand == PoolBlock(s, order, p);
      BeforeUpTo(s, p, p + 1);
      BeforeUpTo(s, p + 1, 4);
      SliceCard(order, Before(s, p), Before(s, p + 1));
    }
  }

  /** The caller's seat is dealt from the pool, which excludes the caller's own hand: the
      sampled deal never gives the caller the cards it holds. */
  lemma CallerHandRedealt(k: KnownGameState, order: seq<Card>)
    requires Enumerates(order, Pool(k)) && OwnSeat(k)
    requires PossibleRandomFullState(k, order).Some? && PossibleRandomFullState(k, order).value.Ok?
    ensures var g := PossibleRandomFullState(k, order).value.value;
      && g.playersState[k.playerIndex].hand !! k.playerState.hand
      && (k.playerState.hand != {} ==> g.playersState[k.playerIndex].hand != k.playerState.hand)
  {
    var s := k.sharedState;
    var me: Seat := k.playerIndex as int;
    var g := PossibleRandomFullState(k, order).value.value;
    BeforeUpTo(s, me, me + 1);
    BeforeUpTo(s, me + 1, 4);
    SliceElems(order, Before(s, me), Before(s, me + 1));
  }

  /** In a view consistent with a real deal, the sampler as written produces a state only
      when the kitty is hidden and the cards on the table happen to number as many as the
      caller holds: it drains the caller's count too, from a pool that lacks the caller's
      hand but keeps the table's cards. */
  lemma SucceedsOnlyWhenTableMatchesHand(k: KnownGameState, order: seq<Card>)
    requires Enumerates(order, Pool(k)) && OwnSeat(k) && ConsistentPool(k)
    ensures var r := PossibleRandomFullState(k, order);
      (r.Some? && r.value.Ok?) <==>
        && !CountUnderflows(k.sharedState) && k.kitty.None?
        && |TableCards(k.sharedState)| == SeatCount(k.sharedState, k.playerIndex as int)
  {
    DistinctCard(order);
    OthersBeforeAll(k.sharedState, k.playerIndex as int);
  }

  /** A known kitty is still refused unless exactly six cards are left over, although it is
      not built from them. */
  lemma KnownKittyStillNeedsSixLeft(k: KnownGameState, order: seq<Card>)
    requires Enumerates(order, Pool(k))
    requires k.kitty.Some? && !CountUnderflows(k.sharedState)
    requires Before(k.sharedState, 4) <= |order| && |order| - Before(k.sharedState, 4) != 6
    ensures PossibleRandomFullState(k, order) == Some(Err(RustError))
  {
  }

  /** The hand the corrected sampler gives seat `p`. */
  function DealtHand(k: KnownGameState, order: seq<Card>, p: Seat): (r: set<Card>)
    requires OwnSeat(k) && !CountUnderflows(k.sharedState)
    requires OthersBefore(k.sharedState, k.playerIndex as int, 4) <= |order|
    ensures p == k.playerIndex as int ==> r == k.playerState.hand
    ensures p != k.playerIndex as int ==> r <= Elems(order)
  {
    var s := k.sharedState;
    var me: Seat := k.playerIndex as int;
    OthersBeforeUpTo(s, me, p, p + 1);
    OthersBeforeUpTo(s, me, p + 1, 4);
    SliceElems(order, OthersBefore(s, me, p), OthersBefore(s, me, p + 1));
    if p == me then k.playerState.hand
    else Elems(order[OthersBefore(s, me, p)..OthersBefore(s, me, p + 1)])
  }

  /** `possible_random_full_state` as evidently intended: the caller keeps its own hand,
      the cards on the table stay out of the deal, only the other three seats are dealt
      from the rest, and a known kitty is used as is. */
  function PossibleRandomFullStateFixed(k: KnownGameState, order: seq<Card>): (r: Option<Result<GameStates.GameState, EngineError>>)
    requires Enumerates(order, Unseen(k)) && OwnSeat(k)
    ensures r.None? <==> CountUnderflows(k.sharedState) || OthersBefore(k.sharedState, k.playerIndex as int, 4) > |order|
    ensures r.Some? && r.value.Ok? ==>
              var g := r.value.value;
              && (forall p: Seat :: g.playersState[p].hand == DealtHand(k, order, p))
              && g.playersState[k.playerIndex].hand == k.playerState.hand
              && (forall p: Seat | p != k.playerIndex as int :: g.playersState[p].hand <= Unseen(k))
              && (k.kitty.Some? ==> g.kitty == k.kitty.value)
              && (k.kitty.None? ==> Elems(g.kitty) <= Unseen(k))
  {
    var s := k.sharedState;
    var me: Seat := k.playerIndex as int;
    if CountUnderflows(s) || OthersBefore(s, me, 4) > |order| then None
    else
      var hands: GameStates.HandSets :=
        [DealtHand(k, order, 0), DealtHand(k, order, 1), DealtHand(k, order, 2), DealtHand(k, order, 3)];
      var rest := order[OthersBefore(s, me, 4)..];
      match k.kitty
      case Some(known) => Some(Ok(GameStates.Initialize(hands, known, s.dealer)))
      case None =>
        if |rest| != 6 then Some(Err(RustError))
        else
          SliceElems(order, OthersBefore(s, me, 4), |order|);
          assert rest == order[OthersBefore(s, me, 4)..|order|];
          Some(Ok(GameStates.Initialize(hands, rest, s.dealer)))
  }

  lemma DealtHandSize(k: KnownGameState, order: seq<Card>, p: Seat)
    requires Enumerates(order, Unseen(k)) && OwnSeat(k) && !CountUnderflows(k.sharedState)
    requires OthersBefore(k.sharedState, k.playerIndex as int, 4) <= |order|
    requires p != k.playerIndex as int
    ensures |DealtHand(k, order, p)| == SeatCount(k.sharedState, p)
  {
    var s := k.sharedState;
    var me: Seat := k.playerIndex as int;
    OthersBeforeMonotone(s, me);
    SliceCard(order, OthersBefore(s, me, p), OthersBefore(s, me, p + 1));
  }

  lemma DealtHandsApart(k: KnownGameState, order: seq<Card>, p: Seat, q: Seat)
    requires Enumerates(order, Unseen(k)) && OwnSeat(k) && !CountUnderflows(k.sharedState)
    requires OthersBefore(k.sharedState, k.playerIndex as int, 4) <= |order|
    requires p < q
    ensures DealtHand(k, order, p) !! DealtHand(k, order, q)
  {
    var s := k.sharedState;
    var me: Seat := k.playerIndex as int;
    OthersBeforeMonotone(s, me);
    if p != me && q != me {
      assert OthersBefore(s, me, p + 1) <= OthersBefore(s, me, q);
      DisjointSlices(order, OthersBefore(s, me, p), OthersBefore(s, me, p + 1),
                            OthersBefore(s, me, q), OthersBefore(s, me, q + 1));
    } else if p == me {
      SliceElems(order, OthersBefore(s, me, q), OthersBefore(s, me, q + 1));
    } else {
      SliceElems(order, OthersBefore(s, me, p), OthersBefore(s, me, p + 1));
    }
  }

  /** In a view consistent with a real deal, the corrected sampler always produces a state;
      the caller keeps its hand, every other seat gets exactly its count of cards, and no card
      is dealt to two seats. */
  lemma FixedSucceedsWhenConsistent(k: KnownGameState, order: seq<Card>)
    requires Enumerates(order, Unseen(k)) && OwnSeat(k) && ConsistentPool(k)
    requires !CountUnderflows(k.sharedState)
    ensures var r := PossibleRandomFullStateFixed(k, order);
      && r.Some? && r.value.Ok?
      && (forall p: Seat | p != k.playerIndex as int ::
            |r.value.value.playersState[p].hand| == SeatCount(k.sharedState, p))
      && (forall p: Seat, q: Seat | p < q :: r.value.value.playersState[p].hand !! r.value.value.playersState[q].hand)
  {
    DistinctCard(order);
    UnseenSize(k);
    var g := PossibleRandomFullStateFixed(k, order).value.value;
    forall p: Seat | p != k.playerIndex as int
      ensures |g.playersState[p].hand| == SeatCount(k.sharedState, p)
    {
      DealtHandSize(k, order, p);
    }
    forall p: Seat, q: Seat | p < q
      ensures g.playersState[p].hand !! g.playersState[q].hand
    {
      DealtHandsApart(k, order, p, q);
    }
  }
}
