/** The public part of a match: dealer, bidding, tricks and score
    (business/game_engine/shared_game_state.rs). */
module SharedStates {
  import opened Wrappers
  import opened EngineErrors
  import opened Cards
  import opened Deck
  import opened GameTypes
  import opened HandfulRules
  import opened Tricks

  /** A declared handful: its size and the trumps shown. */
  datatype DeclaredHandful = DeclaredHandful(kind: Handfuls, cards: set<Card>)

  type Declarations = s: seq<Option<DeclaredHandful>> | |s| == 4 witness [None, None, None, None]

  datatype SharedGameState = SharedGameState(
    dealer: Seat,
    taker: Option<U8>,
    currentTrick: Option<Trick>,
    playedTricks: seq<PlayedTrick>,
    gameType: Option<GameType>,
    declaredHandfuls: Declarations)

  const TricksPerDeal := 18

  /** `initialize`: a deal with nothing bid, declared or played yet. */
  function Initialize(dealer: Seat): (s: SharedGameState)
    ensures s.dealer == dealer && s.taker.None? && s.gameType.None?
    ensures s.currentTrick.None? && s.playedTricks == []
    ensures forall i | 0 <= i < 4 :: s.declaredHandfuls[i].None?
    ensures PlayerToLead(s) == (dealer + 1) % 4
    ensures SeatToPlay(s) == Some((dealer + 1) % 4)
    ensures CurrentScore(s) == 0
    ensures CardsLeftToPlay(s) == AllPossibles()
  {
    SharedGameState(dealer, None, None, [], None, [None, None, None, None])
  }

  /** `player_to_lead`: the seat after the dealer for the first trick, then the winner of
      the last trick. */
  function PlayerToLead(s: SharedGameState): (r: Seat)
    ensures s.playedTricks == [] ==> r == (s.dealer + 1) % 4
    ensures s.playedTricks != [] ==> r == s.playedTricks[|s.playedTricks| - 1].winner
  {
    if s.playedTricks == [] then (s.dealer + 1) % 4 else s.playedTricks[|s.playedTricks| - 1].winner
  }

  /** `finish_trick`: appends the current trick, once full, to the played tricks; the
      current trick itself is left in place. */
  function FinishTrick(s: SharedGameState): (r: Result<SharedGameState, EngineError>)
    ensures s.currentTrick.None? ==> r == Err(NotBegunHand)
    ensures s.currentTrick.Some? ==> (r.Ok? <==> Full(s.currentTrick.value))
    ensures s.currentTrick.Some? && r.Err? ==> r.error == UnfinishedHand
    ensures r.Ok? ==> r.value == s.(playedTricks := s.playedTricks + [IntoPlayed(s.currentTrick.value).value])
    ensures r.Ok? ==> PlayerToLead(r.value) == Winner(s.currentTrick.value).value
  {
    match s.currentTrick
    case None => Err(NotBegunHand)
    case Some(t) =>
      var played :- IntoPlayed(t);
      Ok(s.(playedTricks := s.playedTricks + [played]))
  }

  /** `bid`: a bid below the standing contract is refused; an equal or higher bid, or any
      call while nothing stands (a pass included), makes `player` the taker with that
      contract; a pass over a standing contract changes nothing. */
  function Bid(s: SharedGameState, player: U8, bid: Option<GameType>): (r: Result<SharedGameState, EngineError>)
    ensures r.Err? <==> s.gameType.Some? && bid.Some? && Less(bid.value, s.gameType.value)
    ensures r.Err? ==> r.error == InvalidBid
    ensures r.Ok? && (bid.Some? || s.gameType.None?) ==> r.value == s.(taker := Some(player), gameType := bid)
    ensures bid.None? && s.gameType.Some? ==> r == Ok(s)
  {
    if s.gameType.Some? && bid.Some? && Less(bid.value, s.gameType.value) then Err(InvalidBid)
    else if s.gameType.None? || bid.Some? then Ok(s.(taker := Some(player), gameType := bid))
    else Ok(s)
  }

  /** A successful bid never lowers the standing contract, and a contract never disappears
      once made. */
  lemma BidNeverLowers(s: SharedGameState, player: U8, bid: Option<GameType>)
    requires s.gameType.Some? && Bid(s, player, bid).Ok?
    ensures var g := Bid(s, player, bid).value.gameType;
      g.Some? && !Less(g.value, s.gameType.value)
  {
    LessIsStrictTotalOrder(s.gameType.value, if bid.Some? then bid.value else s.gameType.value, s.gameType.value);
  }

  /** Bidding through a sequence of calls, stopping at the first refused one. */
  function BidAll(s: SharedGameState, calls: seq<(U8, Option<GameType>)>): Result<SharedGameState, EngineError>
    decreases |calls|
  {
    if calls == [] then Ok(s)
    else
      var s' :- Bid(s, calls[0].0, calls[0].1);
      BidAll(s', calls[1..])
  }

  /** Across any run of accepted calls the contract never decreases. */
  lemma {:induction false} BidAllNeverLowers(s: SharedGameState, calls: seq<(U8, Option<GameType>)>)
    requires s.gameType.Some? && BidAll(s, calls).Ok?
    ensures var g := BidAll(s, calls).value.gameType;
      g.Some? && !Less(g.value, s.gameType.value)
    decreases |calls|
  {
    if calls != [] {
      var s' := Bid(s, calls[0].0, calls[0].1).value;
      BidNeverLowers(s, calls[0].0, calls[0].1);
      BidAllNeverLowers(s', calls[1..]);
      LessIsStrictTotalOrder(BidAll(s, calls).value.gameType.value, s'.gameType.value, s.gameType.value);
    }
  }

  /** An equal bid is accepted and transfers the contract to the new bidder. */
  lemma EqualBidAccepted(s: SharedGameState, player: U8)
    requires s.gameType.Some?
    ensures Bid(s, player, s.gameType) == Ok(s.(taker := Some(player)))
  {
  }

  /** Passing while nothing has been bid makes the passing seat the taker, with no contract. */
  lemma FirstPassTakes(s: SharedGameState, player: U8)
    requires s.gameType.None?
    ensures Bid(s, player, None) == Ok(s.(taker := Some(player)))
  {
  }

  function TakerPoints(tricks: seq<PlayedTrick>, taker: U8): nat
    decreases |tricks|
  {
    if tricks == [] then 0
    else TakerPoints(tricks[..|tricks| - 1], taker)
         + (if tricks[|tricks| - 1].winner == taker then PlayedPoints(tricks[|tricks| - 1]) else 0)
  }

  function AllPoints(tricks: seq<PlayedTrick>): nat
    decreases |tricks|
  {
    if tricks == [] then 0 else AllPoints(tricks[..|tricks| - 1]) + PlayedPoints(tricks[|tricks| - 1])
  }

  /** `current_score`: the points of the tricks won by the taker, 0 without a taker. */
  function CurrentScore(s: SharedGameState): (r: nat)
    ensures s.taker.None? ==> r == 0
  {
    match s.taker
    case None => 0
    case Some(taker) => TakerPoints(s.playedTricks, taker)
  }

  lemma {:induction false} TakerPointsBounded(tricks: seq<PlayedTrick>, taker: U8)
    ensures TakerPoints(tricks, taker) <= AllPoints(tricks)
    ensures (forall i | 0 <= i < |tricks| :: tricks[i].winner == taker) ==> TakerPoints(tricks, taker) == AllPoints(tricks)
    ensures (forall i | 0 <= i < |tricks| :: tricks[i].winner != taker) ==> TakerPoints(tricks, taker) == 0
    decreases |tricks|
  {
    if tricks != [] {
      TakerPointsBounded(tricks[..|tricks| - 1], taker);
    }
  }

  /** The taker's score is at most the points of all played tricks: all of them when the
      taker won every trick, none when the taker won no trick. */
  lemma ScoreBounded(s: SharedGameState)
    requires s.taker.Some?
    ensures CurrentScore(s) <= AllPoints(s.playedTricks)
    ensures (forall i | 0 <= i < |s.playedTricks| :: s.playedTricks[i].winner == s.taker.value) ==>
              CurrentScore(s) == AllPoints(s.playedTricks)
    ensures (forall i | 0 <= i < |s.playedTricks| :: s.playedTricks[i].winner != s.taker.value) ==>
              CurrentScore(s) == 0
  {
    TakerPointsBounded(s.playedTricks, s.taker.value);
  }

  /** Finishing a trick adds its points to the score exactly when the taker wins it. */
  lemma FinishTrickScore(s: SharedGameState)
    requires FinishTrick(s).Ok? && s.taker.Some?
    ensures var t := s.currentTrick.value;
      CurrentScore(FinishTrick(s).value) ==
        CurrentScore(s) + (if Winner(t).value == s.taker.value then TrickPoints(t) else 0)
  {
    var t := s.currentTrick.value;
    var tricks' := FinishTrick(s).value.playedTricks;
    assert tricks'[..|tricks'| - 1] == s.playedTricks;
    IntoPlayedKeepsPoints(t);
  }

  /** `kitty_should_be_revealed`: only under a contract that reveals it. */
  function KittyRevealed(s: SharedGameState): (r: bool)
    ensures r <==> s.gameType.Some? && KittyShouldBeRevealed(s.gameType.value)
    ensures r ==> s.gameType.value.GardeSans? || s.gameType.value.GardeContre?
  {
    match s.gameType
    case None => false
    case Some(g) => KittyShouldBeRevealed(g)
  }

  /** `finished`: all eighteen tricks have been played. */
  predicate Finished(s: SharedGameState) {
    |s.playedTricks| == TricksPerDeal
  }

  /** `SharedGameState::next_to_play`: nobody once finished; otherwise the current trick's
      next seat, or the player to lead when there is no current trick or it is full. */
  function SeatToPlay(s: SharedGameState): (r: Option<Seat>)
    ensures r.None? <==> Finished(s)
    ensures !Finished(s) && s.currentTrick.Some? && NextToPlay(s.currentTrick.value).Some? ==>
              r == NextToPlay(s.currentTrick.value)
    ensures !Finished(s) && (s.currentTrick.None? || Full(s.currentTrick.value)) ==> r == Some(PlayerToLead(s))
  {
    if Finished(s) then None
    else
      var fromTrick := match s.currentTrick case None => None case Some(t) => NextToPlay(t);
      Some(match fromTrick case None => PlayerToLead(s) case Some(p) => p)
  }

  /** `new_trick`: installs and returns an empty trick led by the player to lead. */
  function NewTrick(s: SharedGameState): (r: (SharedGameState, Trick))
    ensures r.1 == Tricks.New(PlayerToLead(s)) && r.0.currentTrick == Some(r.1)
    ensures r.0 == s.(currentTrick := Some(r.1))
    ensures SeatToPlay(r.0) == if Finished(s) then None else Some(PlayerToLead(s))
  {
    var t := Tricks.New(PlayerToLead(s));
    (s.(currentTrick := Some(t)), t)
  }

  /** The cards of a sequence of played tricks. */
  function PlayedCards(tricks: seq<PlayedTrick>): set<Card> {
    set p, j | p in tricks && 0 <= j < 4 :: p.cards[j]
  }

  /** `cards_left_to_play`: the deck minus the cards of the played tricks; the cards of the
      current trick are still counted. */
  function CardsLeftToPlay(s: SharedGameState): (r: set<Card>)
    ensures forall c :: c in r <==> c in AllPossibles() && c !in PlayedCards(s.playedTricks)
  {
    AllPossibles() - PlayedCards(s.playedTricks)
  }
}
