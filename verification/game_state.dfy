/** The omniscient state of a deal: four hands, the kitty and the public state
    (business/game_engine/game_state.rs). */
module GameStates {
  import opened Wrappers
  import opened Seqs
  import opened EngineErrors
  import opened Cards
  import opened Deck
  import opened Tricks
  import opened PlayerStates
  import SharedStates

  type HandSets = s: seq<set<Card>> | |s| == 4 witness [{}, {}, {}, {}]

  type Hands = s: seq<PlayerGameState> | |s| == 4
    witness [PlayerGameState({}), PlayerGameState({}), PlayerGameState({}), PlayerGameState({})]

  type Kitty = s: seq<Card> | |s| == 6
    witness [Card(Excuse, 0), Card(Excuse, 0), Card(Excuse, 0), Card(Excuse, 0), Card(Excuse, 0), Card(Excuse, 0)]

  datatype GameState = GameState(playersState: Hands, kitty: Kitty, sharedState: SharedStates.SharedGameState)

  const HandSize := 18

  /** The hands and the kitty split `deck` with no card twice and none missing. */
  predicate SplitsDeck(hands: HandSets, kitty: seq<Card>, deck: set<Card>) {
    && Distinct(kitty)
    && (forall i, j | 0 <= i < j < 4 :: hands[i] !! hands[j])
    && (forall i | 0 <= i < 4 :: hands[i] !! Elems(kitty))
    && hands[0] + hands[1] + hands[2] + hands[3] + Elems(kitty) == deck
  }

  function HandsOf(g: GameState): HandSets {
    [g.playersState[0].hand, g.playersState[1].hand, g.playersState[2].hand, g.playersState[3].hand]
  }

  /** `initialize`: the given hands and kitty, with a fresh public state. */
  function Initialize(hands: HandSets, kitty: Kitty, dealer: Seat): (g: GameState)
    ensures forall i | 0 <= i < 4 :: g.playersState[i].hand == hands[i]
    ensures g.kitty == kitty
    ensures g.sharedState == SharedStates.Initialize(dealer)
  {
    GameState(
      [PlayerGameState(hands[0]), PlayerGameState(hands[1]), PlayerGameState(hands[2]), PlayerGameState(hands[3])],
      kitty,
      SharedStates.Initialize(dealer))
  }

  /** The cards `drain(0..18)` hands to seat `i` from the shuffled deck. */
  function Block(order: seq<Card>, i: int): set<Card>
    requires 0 <= i < 4 && |order| >= 72
  {
    Elems(order[HandSize * i..HandSize * i + HandSize])
  }

  /** A shuffle of the whole deck: the 78 cards, each once. */
  predicate ShuffledDeck(order: seq<Card>) {
    |order| == DeckSize && Enumerates(order, AllPossibles())
  }

  /** Every enumeration of the deck is 78 cards long. */
  lemma EnumerationIsShuffle(order: seq<Card>)
    requires Enumerates(order, AllPossibles())
    ensures ShuffledDeck(order)
  {
    DeckCardinality();
    DistinctCard(order);
  }

  /** `random_init`, with the shuffle's result `order` and the random dealer as inputs:
      seat i receives cards 18i..18i+17 of the order and the last six form the kitty. */
  function RandomInit(order: seq<Card>, dealer: Seat): (r: Result<GameState, EngineError>)
    requires ShuffledDeck(order)
    ensures r.Ok?
    ensures forall i | 0 <= i < 4 :: r.value.playersState[i].hand == Block(order, i)
    ensures r.value.kitty == order[72..]
    ensures r.value.sharedState == SharedStates.Initialize(dealer)
  {
    var hands: HandSets := [Block(order, 0), Block(order, 1), Block(order, 2), Block(order, 3)];
    var rest := order[72..];
    if |rest| != 6 then Err(RustError)
    else Ok(Initialize(hands, rest, dealer))
  }

  lemma ElemsSplit(s: seq<Card>, i: int)
    requires 0 <= i <= |s|
    ensures Elems(s) == Elems(s[..i]) + Elems(s[i..])
  {
    assert s == s[..i] + s[i..];
  }

  lemma BlocksHaveHandSize(order: seq<Card>, i: int)
    requires ShuffledDeck(order) && 0 <= i < 4
    ensures |Block(order, i)| == HandSize
  {
    SliceDistinct(order, 18 * i, 18 * i + 18);
    DistinctCard(order[18 * i..18 * i + 18]);
  }

  lemma BlocksCoverDeck(order: seq<Card>)
    requires ShuffledDeck(order)
    ensures Block(order, 0) + Block(order, 1) + Block(order, 2) + Block(order, 3) + Elems(order[72..])
            == AllPossibles()
  {
    ElemsSplit(order, 18);
    ElemsSplit(order[18..], 18);
    ElemsSplit(order[36..], 18);
    ElemsSplit(order[54..], 18);
    assert order[..18] == order[0..18];
    assert order[18..][..18] == order[18..36] && order[18..][18..] == order[36..];
    assert order[36..][..18] == order[36..54] && order[36..][18..] == order[54..];
    assert order[54..][..18] == order[54..72] && order[54..][18..] == order[72..];
  }

  lemma BlocksSplitDeck(order: seq<Card>)
    requires ShuffledDeck(order)
    ensures SplitsDeck([Block(order, 0), Block(order, 1), Block(order, 2), Block(order, 3)], order[72..], AllPossibles())
  {
    var hands: HandSets := [Block(order, 0), Block(order, 1), Block(order, 2), Block(order, 3)];
    forall i, j | 0 <= i < j < 4
      ensures hands[i] !! hands[j]
    {
      DisjointSlices(order, 18 * i, 18 * i + 18, 18 * j, 18 * j + 18);
    }
    forall i | 0 <= i < 4
      ensures hands[i] !! Elems(order[72..])
    {
      DisjointSlices(order, 18 * i, 18 * i + 18, 72, 78);
    }
    SliceDistinct(order, 72, 78);
    BlocksCoverDeck(order);
  }

  /** A dealt game splits the deck: every hand holds 18 cards, and the hands and the kitty
      are disjoint and together make up the 78 cards. */
  lemma RandomInitPartitionsDeck(order: seq<Card>, dealer: Seat)
    requires ShuffledDeck(order)
    ensures var g := RandomInit(order, dealer).value;
      && SplitsDeck(HandsOf(g), g.kitty, AllPossibles())
      && forall i | 0 <= i < 4 :: |g.playersState[i].hand| == HandSize
  {
    var g := RandomInit(order, dealer).value;
    assert HandsOf(g) == [Block(order, 0), Block(order, 1), Block(order, 2), Block(order, 3)];
    BlocksSplitDeck(order);
    forall i | 0 <= i < 4
      ensures |g.playersState[i].hand| == HandSize
    {
      BlocksHaveHandSize(order, i);
    }
  }

  /** The trick `play_card` plays into: the current trick if there is one, else a new one. */
  function LocalTrick(g: GameState): Trick {
    match g.sharedState.currentTrick
    case Some(t) => t
    case None => Tricks.New(SharedStates.PlayerToLead(g.sharedState))
  }

  /** `GameState::play_card` as written. The argument of `unwrap_or` is evaluated first, so
      the shared current trick is always replaced by a new empty one; the card is played into
      a local copy of the previous trick, which is then dropped. When that copy becomes full,
      `finish_trick` runs on the new empty trick and fails with `UnfinishedHand`. */
  function PlayCard(g: GameState, player: Seat, card: Card): (r: Step<GameState, EngineError>)
    ensures var empty := Tricks.New(SharedStates.PlayerToLead(g.sharedState));
      r.state.sharedState == g.sharedState.(currentTrick := Some(empty))
    ensures r.state.kitty == g.kitty
    ensures forall i | 0 <= i < 4 && i != player :: r.state.playersState[i] == g.playersState[i]
    ensures var p := PlayACard(g.playersState[player], LocalTrick(g), player, card);
      && r.state.playersState[player] == p.state.0
      && (p.result.Err? ==> r.result == p.result)
      && (p.result.Ok? && Full(p.state.1) ==> r.result == Err(UnfinishedHand))
      && (r.result.Ok? <==> p.result.Ok? && !Full(p.state.1))
  {
    var (shared, newTrick) := SharedStates.NewTrick(g.sharedState);
    var local := match g.sharedState.currentTrick case Some(t) => t case None => newTrick;
    var g1 := g.(sharedState := shared);
    var p := PlayACard(g.playersState[player], local, player, card);
    var g2 := g1.(playersState := g1.playersState[player := p.state.0]);
    if p.result.Err? then Step(g2, p.result)
    else if NextToPlay(p.state.1).None? then
      match SharedStates.FinishTrick(g2.sharedState)
      case Err(e) => Step(g2, Err(e))
      case Ok(s) => Step(g2.(sharedState := s), Ok(()))
    else Step(g2, Ok(()))
  }

  /** After any `play_card` the shared trick is empty and the player to lead is next: the
      card just played is not recorded anywhere public, and no trick is ever completed. */
  lemma PlayCardNeverAdvances(g: GameState, player: Seat, card: Card)
    requires !SharedStates.Finished(g.sharedState)
    ensures var s := PlayCard(g, player, card).state.sharedState;
      && s.playedTricks == g.sharedState.playedTricks
      && Filled(s.currentTrick.value) == 0
      && SharedStates.SeatToPlay(s) == Some(SharedStates.PlayerToLead(g.sharedState))
  {
  }

  /** The trick `play_card` evidently means to play into: the current trick while it
      still has a seat to play, else a new one led by the player to lead. */
  function OpenTrick(s: SharedStates.SharedGameState): (r: SharedStates.SharedGameState)
    ensures r.currentTrick.Some? && !Full(r.currentTrick.value)
    ensures r.playedTricks == s.playedTricks
  {
    match s.currentTrick
    case Some(t) => if NextToPlay(t).Some? then s else SharedStates.NewTrick(s).0
    case None => SharedStates.NewTrick(s).0
  }

  /** `GameState::play_card` as evidently intended: the card is played into the shared
      trick, which is kept, and a trick that becomes full is recorded. */
  function PlayCardFixed(g: GameState, player: Seat, card: Card): (r: Step<GameState, EngineError>)
    ensures var p := PlayACard(g.playersState[player], OpenTrick(g.sharedState).currentTrick.value, player, card);
      && r.state.playersState[player] == p.state.0
      && (r.result.Ok? <==> p.result.Ok?)
      && (p.result.Err? ==> r.result == p.result && r.state.sharedState == OpenTrick(g.sharedState))
    ensures r.state.kitty == g.kitty
    ensures forall i | 0 <= i < 4 && i != player :: r.state.playersState[i] == g.playersState[i]
    ensures r.result.Ok? ==>
              var s := r.state.sharedState;
              && s.currentTrick.Some? && s.currentTrick.value.cards[player] == Some(card)
              && (Full(s.currentTrick.value) ==>
                    && s.playedTricks == g.sharedState.playedTricks + [IntoPlayed(s.currentTrick.value).value]
                    && SharedStates.PlayerToLead(s) == Winner(s.currentTrick.value).value)
              && (!Full(s.currentTrick.value) ==> s.playedTricks == g.sharedState.playedTricks)
  {
    var shared := OpenTrick(g.sharedState);
    var p := PlayACard(g.playersState[player], shared.currentTrick.value, player, card);
    var hands := g.playersState[player := p.state.0];
    if p.result.Err? then Step(g.(playersState := hands, sharedState := shared), p.result)
    else
      var s := shared.(currentTrick := Some(p.state.1));
      if NextToPlay(p.state.1).None? then
        // The trick just became full, so `finish_trick` succeeds.
        Step(GameState(hands, g.kitty, SharedStates.FinishTrick(s).value), Ok(()))
      else Step(GameState(hands, g.kitty, s), Ok(()))
  }

  /** Unlike the code as written, a successful play is recorded: the public state now shows
      the card, and the player to lead changes only when the trick is complete. */
  lemma PlayCardFixedRecordsCard(g: GameState, player: Seat, card: Card)
    requires PlayCardFixed(g, player, card).result.Ok?
    ensures PlayCard(g, player, card).state.sharedState.currentTrick.value.cards[player] == None
    ensures PlayCardFixed(g, player, card).state.sharedState.currentTrick.value.cards[player] == Some(card)
  {
  }

  /** `GameState::cards_allowed`: nothing without a current trick, else the seat's
      allowed cards on it. */
  function CardsAllowed(g: GameState, player: Seat): (r: set<Card>)
    ensures g.sharedState.currentTrick.None? ==> r == {}
    ensures g.sharedState.currentTrick.Some? ==>
              r == PlayerStates.CardsAllowed(g.playersState[player], g.sharedState.currentTrick.value)
    ensures r <= g.playersState[player].hand
  {
    match g.sharedState.currentTrick
    case None => {}
    case Some(t) => PlayerStates.CardsAllowed(g.playersState[player], t)
  }

  /** With a current trick, a seat holding cards always has one it may play. */
  lemma CardsAllowedWhileHolding(g: GameState, player: Seat)
    requires g.sharedState.currentTrick.Some? && g.playersState[player].hand != {}
    ensures CardsAllowed(g, player) != {}
  {
    CardsAllowedNonEmpty(g.playersState[player], g.sharedState.currentTrick.value);
  }
}
