# French Tarot game engine — a Dafny model

This project models the game engine of a four-player French Tarot program
and its hand evaluator. It covers:

- the cards, and which card beats which;
- the 78-card deck;
- the contracts a taker can bid, and their kitty and scoring rules;
- handful declarations;
- a trick: who plays next, the lead colour, the winner, and the points in it;
- one player's hand: the follow-suit, trump and overtrump rules, and putting the six aside cards away;
- the state every player sees: bidding, finishing tricks, the taker's score, and the cards left to play;
- the omniscient game state: dealing a shuffled deck and playing a card;
- one player's partial view of a game: which cards each other seat may still hold, redealing the unseen cards into a full game, and the constrained hand generator;
- the heuristic that scores a hand and picks the highest contract it supports.

Every Rust method that takes `&mut self` is modelled as a pure function that returns the new value.
Where the Rust method changes the state even when it fails, the function returns a
`Step(state, result)` pair instead (`play_a_card`, `chose_aside`, `GameState::play_card`).

Randomness is passed in as an input, never drawn:

- the shuffled deck order;
- the order in which a hash set yields its elements;
- the draws and tie-break picks of the hand generator.

A Rust panic (an `unwrap` of `None`, or a `usize` underflow in a build with overflow checks on)
is `None` in an `Option<Result<…>>`, or is ruled out by a `requires` where the panic is the only
thing the source does. A build without overflow checks wraps instead; see "## Left out".

Modules, one per source file:

- `Cards` (card.rs)
- `Deck` (`Card::all_possibles`)
- `GameTypes` (game_type.rs)
- `HandfulRules` (handfuls.rs)
- `Tricks` (trick.rs)
- `PlayerStates` (player_game_state.rs)
- `SharedStates` (shared_game_state.rs)
- `GameStates` (game_state.rs)
- `KnownStates` (known_game_state.rs)
- `HandGeneration` (`generate_hands` in known_game_state.rs)
- `HandEvaluation` (evaluate_hand.rs)
- the helper modules `Wrappers`, `EngineErrors` and `Seqs`

## Where the usual rules of Tarot and the code differ (the model follows the code)

- **Equal bids.** `bid` refuses only a strictly lower contract, so a bid equal to the current one is accepted and makes the bidder the taker (`SharedStates.EqualBidAccepted`). A pass when nobody has bid also makes the passer the taker (`SharedStates.FirstPassTakes`).
- **Excuse led.**
  - `Trick::color` takes the lead colour from the second card played.
  - `Trick::winner` starts from the Excuse itself, so the Excuse keeps the trick unless a trump is played (`Tricks.WinnerAfterExcuseLead`, `Tricks.ExcuseLeadUntrumpedExample`).
- **Playing the Excuse.** `allowed_to_play` has no exception for the Excuse: it must follow the lead like any other card.
- **Overtrumping.** When the lead colour is trump and a player holds a trump, any trump is allowed; the overtrump obligation applies only when the player has no card of the lead colour and the lead colour is a suit.
- **`finish_trick`.** It moves the current trick into the played tricks without clearing the current trick.
- **Suggesting a contract.** `evaluate_hand` stops at the first contract the hand misses. Voids and singletons count only for Garde Sans and Garde Contre, so a hand can reach Garde Sans while missing Garde and be offered only Petit (`HandEvaluation.CascadeStopsAtFirstMiss`).

## Model

| member | source | states |
|---|---|---|
| Cards.Validate | src-tauri/src/business/game_engine/card.rs:33-51 | A card is accepted exactly when it is the Excuse (any value), a trump from 1 to 21, or a suit card from 1 to 14; otherwise the error carries the offending value |
| Cards.New | src-tauri/src/business/game_engine/card.rs:27-31 | Construction succeeds exactly for valid cards and then keeps colour and value; it fails with the invalid value |
| Cards.Points | src-tauri/src/business/game_engine/card.rs:53-77 | A card's count is odd (half points doubled); valid cards are worth 1 to 9; the Excuse, the trump 1 and the trump 21 count 9 and every other trump 1; suit cards up to 10 count 1, and Jack, Knight, Queen and King count 3, 5, 7 and 9 |
| Cards.WinAgainst | src-tauri/src/business/game_engine/card.rs:79-87 | Same colour: higher value wins; a trump beats any other colour and loses to none; otherwise only the lead colour wins |
| Cards.WinIrreflexive | src-tauri/src/business/game_engine/card.rs:79-87 | No card beats itself |
| Cards.WinAsymmetric | src-tauri/src/business/game_engine/card.rs:79-87 | Two cards never beat each other under the same lead |
| Cards.WinTransitive | src-tauri/src/business/game_engine/card.rs:79-87 | Beating is transitive under a fixed lead, so a trick has a well-defined best card |
| Deck.DeckIndex | src-tauri/src/business/game_engine/game_state.rs:28 | Every card of the deck has a position in the deck order at which it sits |
| Deck.DeckIsValidCards | src-tauri/src/business/game_engine/card.rs:33-51 | The deck holds exactly the cards whose colour and value lie in the deck's ranges |
| Deck.DeckDistinct | src-tauri/src/business/game_engine/game_state.rs:28 | The deck order lists no card twice |
| Deck.DeckCardinality | src-tauri/src/business/game_engine/game_state.rs:28-35 | The deck has 78 cards, so four hands of 18 and a kitty of 6 use it up |
| Deck.DeckTotalPoints | src-tauri/src/business/game_engine/card.rs:53-77 | The card counts of the whole deck add up to 182, i.e. 91 points |
| GameTypes.LessIsStrictTotalOrder | src-tauri/src/business/game_engine/game_type.rs:3-10 | The derived order on contracts is irreflexive, transitive, total and asymmetric |
| GameTypes.VariantOrder | src-tauri/src/business/game_engine/game_type.rs:3-10 | Petit < Garde < Garde Sans < Garde Contre whatever the chelem flags |
| GameTypes.KittyShouldBeRevealed | src-tauri/src/business/game_engine/game_type.rs:13-18 | The kitty is shown exactly for Garde Sans and Garde Contre |
| GameTypes.HandPointsMultiplier | src-tauri/src/business/game_engine/game_type.rs:20-27 | The multiplier is 1 exactly for Petit, 2 exactly for Garde, 4 exactly for Garde Sans and 6 exactly for Garde Contre |
| GameTypes.MultiplierMonotone | src-tauri/src/business/game_engine/game_type.rs:20-27 | A higher contract never multiplies less (strictly more across levels), and it shows the kitty if the lower one does |
| GameTypes.KittyRevealedIffHighMultiplier | src-tauri/src/business/game_engine/game_type.rs:13-27 | The kitty is shown exactly for contracts whose multiplier is at least 4 |
| HandfulRules.HandfulPoints | src-tauri/src/business/game_engine/handfuls.rs:9-15 | Simple, double and triple handfuls are worth 20, 40 and 60 |
| HandfulRules.TrumpsRequired | src-tauri/src/business/game_engine/handfuls.rs:17-23 | A simple handful needs exactly 10 trumps, a double exactly 13 and a triple exactly 15 |
| HandfulRules.HandfulsIncrease | src-tauri/src/business/game_engine/handfuls.rs:9-23 | A bigger handful is worth strictly more and needs strictly more trumps |
| Tricks.Offset | src-tauri/src/business/game_engine/trick.rs:83-95 | Every seat is reached from the leader after fewer than four turns |
| Tricks.OffsetOfAfter | src-tauri/src/business/game_engine/trick.rs:83-95 | Counting turns from the leader and then stepping that many seats round the table are inverse |
| Tricks.New | src-tauri/src/business/game_engine/trick.rs:42-47 | A new trick is empty: the leader plays next, it has no colour, no winner (NotBegunHand), no points and no trump |
| Tricks.FirstEmpty | src-tauri/src/business/game_engine/trick.rs:83-95 | The search from the leader returns the first empty seat in playing order, and nothing exactly when every seat has played |
| Tricks.NextToPlay | src-tauri/src/business/game_engine/trick.rs:83-95 | Nobody is next exactly when all four cards are down; otherwise the next seat is empty and every seat before it in playing order has played |
| Tricks.PlayCard | src-tauri/src/business/game_engine/trick.rs:118-127 | A full trick refuses with FinishedHand; a player out of turn gets OutOfOrderPlay; otherwise only that seat's card is set |
| Tricks.PlayCardProgress | src-tauri/src/business/game_engine/trick.rs:97-127 | A successful play adds one card, leaves the cards already down unchanged and adds the card's count to the trick's points |
| Tricks.TrickColor | src-tauri/src/business/game_engine/trick.rs:49-60 | The trick has no colour until the leader has played, or, after an Excuse lead, until the next seat has played; its colour is the leader's card's colour, or the second card's after an Excuse |
| Tricks.Winner | src-tauri/src/business/game_engine/trick.rs:62-81 | The winner is undefined (NotBegunHand) exactly when the leader has not played, and is always a seat that has played |
| Tricks.WinnerHoldsHighestTrump | src-tauri/src/business/game_engine/trick.rs:62-81 | When a trump is in the trick, the winner played the highest trump |
| Tricks.WinnerFollowsLead | src-tauri/src/business/game_engine/trick.rs:62-81 | Without trumps, after a suit lead, the winner played the highest card of the lead suit |
| Tricks.WinnerAfterExcuseLead | src-tauri/src/business/game_engine/trick.rs:62-81 | Without trumps, an Excuse lead wins its own trick |
| Tricks.SlotPointsUpdate | src-tauri/src/business/game_engine/trick.rs:97-105 | Filling an empty seat adds exactly that card's count to the trick's points |
| Tricks.PlayedPoints | src-tauri/src/business/game_engine/trick.rs:15-20 | A finished trick is worth at least 4 counts and, with valid cards, at most 36 |
| Tricks.TrumpFold | src-tauri/src/business/game_engine/trick.rs:129-139 | The running maximum is at least its start, bounds every trump from the current seat on, and is either the start or one of those trumps |
| Tricks.HighestTrump | src-tauri/src/business/game_engine/trick.rs:129-139 | The highest trump bounds every trump played, is one of them (or 0) and is 0 when no trump is down |
| Tricks.OvertrumpedBy | src-tauri/src/business/game_engine/trick.rs:141-143 | A card overtrumps exactly when it is a trump above 0 that is higher than every trump in the trick; such a card beats every trump in the trick under any lead |
| Tricks.IntoPlayed | src-tauri/src/business/game_engine/trick.rs:107-116 | Only a full trick can be recorded (UnfinishedHand otherwise); the record keeps its four cards and its winner |
| Tricks.IntoPlayedKeepsPoints | src-tauri/src/business/game_engine/trick.rs:15-20 | A recorded trick is worth what it was worth while being played |
| Tricks.TrumpWinsExample | src-tauri/src/business/game_engine/trick.rs:62-81 | A small trump beats the King of the lead suit |
| Tricks.ExcuseLeadTrumpedExample | src-tauri/src/business/game_engine/trick.rs:62-81 | After an Excuse lead, the Petit trumps a heart King and wins |
| Tricks.ExcuseLeadUntrumpedExample | src-tauri/src/business/game_engine/trick.rs:49-81 | After an Excuse lead with only hearts following, the colour is heart but the Excuse's seat wins |
| Tricks.PointsExample | src-tauri/src/business/game_engine/trick.rs:97-105 | The Petit, the 21, the Excuse and a low heart count 28 |
| PlayerStates.UseCard | src-tauri/src/business/game_engine/player_game_state.rs:15-20 | Using a card fails exactly when it is not in the hand; otherwise the hand loses exactly that card |
| PlayerStates.AllowedToPlay | src-tauri/src/business/game_engine/player_game_state.rs:29-53 | The card is allowed exactly when the rules hold: in hand; any card on an empty trick or when following; must follow when holding the colour; must trump when void; must overtrump when able; each refusal names its rule |
| PlayerStates.CardsAllowed | src-tauri/src/business/game_engine/player_game_state.rs:22-27 | The allowed cards are exactly the cards in hand that pass the rules, and the whole hand before the trick has a colour |
| PlayerStates.CardsAllowedNonEmpty | src-tauri/src/business/game_engine/player_game_state.rs:22-53 | A player with cards always has some card to play |
| PlayerStates.PlayACard | src-tauri/src/business/game_engine/player_game_state.rs:55-71 | Out of turn nothing changes; a play succeeds exactly in turn and legally, then removes the card from the hand and puts it in the trick; on a full trick the card is still removed |
| PlayerStates.UseAll | src-tauri/src/business/game_engine/player_game_state.rs:84-89 | Setting cards aside succeeds exactly when they are distinct and held, and removes exactly them; a failure only removes cards |
| PlayerStates.UseAllStopsAtFirstUnheld | src-tauri/src/business/game_engine/player_game_state.rs:84-89 | A failed put-aside has removed exactly the cards before the first card no longer held |
| PlayerStates.ChoseAside | src-tauri/src/business/game_engine/player_game_state.rs:84-89 | Six distinct held cards leave the hand six cards smaller; otherwise DoesNotHaveCard, with the cards before the failing one already gone |
| SharedStates.Initialize | src-tauri/src/business/game_engine/shared_game_state.rs:69-78 | A fresh deal has no taker, contract, trick or handful; the seat after the dealer leads; the score is 0 and all 78 cards are left to play |
| SharedStates.PlayerToLead | src-tauri/src/business/game_engine/shared_game_state.rs:41-46 | The seat after the dealer leads the first trick, and afterwards the winner of the last trick leads |
| SharedStates.FinishTrick | src-tauri/src/business/game_engine/shared_game_state.rs:48-55 | Without a trick: NotBegunHand; an unfinished trick: UnfinishedHand; otherwise the trick is appended to the played tricks and its winner leads next |
| SharedStates.Bid | src-tauri/src/business/game_engine/shared_game_state.rs:57-67 | A bid fails (InvalidBid) exactly when it is lower than the current contract; an accepted bid, or any call when nobody has bid, makes the caller the taker; a later pass changes nothing |
| SharedStates.BidNeverLowers | src-tauri/src/business/game_engine/shared_game_state.rs:57-67 | Once a contract stands, an accepted call never lowers it |
| SharedStates.BidAllNeverLowers | src-tauri/src/business/game_engine/shared_game_state.rs:57-67 | Over any sequence of accepted calls the contract never goes down |
| SharedStates.EqualBidAccepted | src-tauri/src/business/game_engine/shared_game_state.rs:57-67 | Repeating the current contract is accepted and takes the contract over |
| SharedStates.FirstPassTakes | src-tauri/src/business/game_engine/shared_game_state.rs:57-67 | A pass when nobody has bid makes the passer the taker with no contract |
| SharedStates.CurrentScore | src-tauri/src/business/game_engine/shared_game_state.rs:80-91 | Without a taker the score is 0 |
| SharedStates.TakerPointsBounded | src-tauri/src/business/game_engine/shared_game_state.rs:80-91 | The taker's points never exceed the points of all tricks; they are all of them when the taker won every trick and 0 when the taker won none |
| SharedStates.ScoreBounded | src-tauri/src/business/game_engine/shared_game_state.rs:80-91 | The score lies between 0 and the points of all played tricks, with both ends reached by a full sweep either way |
| SharedStates.FinishTrickScore | src-tauri/src/business/game_engine/shared_game_state.rs:48-91 | Finishing a trick raises the score by the trick's points exactly when the taker won it |
| SharedStates.KittyRevealed | src-tauri/src/business/game_engine/shared_game_state.rs:93-97 | The kitty is shown exactly when a contract stands that shows it, which is only Garde Sans or Garde Contre |
| SharedStates.SeatToPlay | src-tauri/src/business/game_engine/shared_game_state.rs:99-110 | Nobody plays exactly after 18 tricks; inside an open trick its next seat plays; with no trick or a full one, the seat to lead plays |
| SharedStates.NewTrick | src-tauri/src/business/game_engine/shared_game_state.rs:112-115 | The new trick is empty, led by the seat to lead, and becomes the current trick; nothing else changes |
| SharedStates.CardsLeftToPlay | src-tauri/src/business/game_engine/shared_game_state.rs:117-125 | The cards left are exactly the deck's cards that no recorded trick holds |
| GameStates.Initialize | src-tauri/src/business/game_engine/game_state.rs:18-24 | Each seat gets its hand, the kitty is kept and the shared state is the fresh one for that dealer |
| GameStates.EnumerationIsShuffle | src-tauri/src/business/game_engine/game_state.rs:28-30 | Any listing of the whole deck is a possible shuffle |
| GameStates.RandomInit | src-tauri/src/business/game_engine/game_state.rs:26-42 | Dealing a shuffle never fails: seat i gets the i-th block of 18 cards and the kitty is the last 6 |
| GameStates.BlocksHaveHandSize | src-tauri/src/business/game_engine/game_state.rs:31-35 | Each dealt block is a hand of 18 distinct cards |
| GameStates.BlocksCoverDeck | src-tauri/src/business/game_engine/game_state.rs:31-40 | The four hands and the kitty together are the whole deck |
| GameStates.BlocksSplitDeck | src-tauri/src/business/game_engine/game_state.rs:31-40 | The four hands and the kitty are pairwise disjoint and cover the deck |
| GameStates.RandomInitPartitionsDeck | src-tauri/src/business/game_engine/game_state.rs:26-42 | The dealt game splits the deck into four hands of 18 and a kitty |
| GameStates.PlayCard | src-tauri/src/business/game_engine/game_state.rs:44-58 | As written: the shared trick is replaced by a fresh empty one; only the player's hand can change; an accepted card reports UnfinishedHand when it completes the trick |
| GameStates.PlayCardNeverAdvances | src-tauri/src/business/game_engine/game_state.rs:44-58 | As written, a play never records the card in the shared trick nor finishes a trick: the leader is to play again |
| GameStates.OpenTrick | src-tauri/src/business/game_engine/game_state.rs:45-48 | Opening a trick keeps the played tricks and yields a trick that still has room |
| GameStates.PlayCardFixed | src-tauri/src/business/game_engine/game_state.rs:44-58 | The intended play: the card goes into the shared trick; a trick it completes is recorded and its winner leads; other seats and the kitty are unchanged |
| GameStates.PlayCardFixedRecordsCard | src-tauri/src/business/game_engine/game_state.rs:44-58 | Whenever the intended play succeeds, it records the card where the written one leaves the seat empty |
| GameStates.CardsAllowed | src-tauri/src/business/game_engine/game_state.rs:60-65 | Without a current trick nothing is allowed; otherwise the player's allowed cards for that trick, a subset of the hand |
| GameStates.CardsAllowedWhileHolding | src-tauri/src/business/game_engine/game_state.rs:60-65 | A player with cards in an open trick always has a legal card |
| KnownStates.Initialize | src-tauri/src/business/game_engine/known_game_state.rs:21-33 | A fresh view holds the player's hand, seat and kitty and the fresh shared state for the dealer |
| KnownStates.FromOmniscient | src-tauri/src/business/game_engine/known_game_state.rs:35-46 | A player's view keeps their own hand and the shared state, and shows the kitty exactly when the contract reveals it |
| KnownStates.FromOmniscientHidesOthers | src-tauri/src/business/game_engine/known_game_state.rs:35-46 | Two games that differ only in other hands, or in a hidden kitty, look the same to the player |
| KnownStates.InitialViewHidesKitty | src-tauri/src/business/game_engine/known_game_state.rs:21-46 | The view of a freshly dealt game is the fresh view of one's own hand, with the kitty hidden |
| KnownStates.Ceiling | src-tauri/src/business/game_engine/known_game_state.rs:68-79 | The trump ceiling is at most 21, below every bound inferred from the tricks, and is 21 or one of those bounds |
| KnownStates.Voids | src-tauri/src/business/game_engine/known_game_state.rs:68-79 | The voids are exactly the colours of the tricks in which the seat showed it lacked the colour |
| KnownStates.CeilingOnlyDecreases | src-tauri/src/business/game_engine/known_game_state.rs:68-79 | More tricks never raise a seat's trump ceiling |
| KnownStates.GetKnownConstraints | src-tauri/src/business/game_engine/known_game_state.rs:48-86 | The seat's card count is 18 minus its tricks and its card in the open trick; its known cards are the own hand or the declared handful; its ceiling and voids are the inferred ones |
| KnownStates.PossibleCards | src-tauri/src/business/game_engine/known_game_state.rs:173-209 | The candidates are exactly the cards left whose colour is not void, not known in any hand, not a trump over the ceiling and not a kitty card the player must not see |
| KnownStates.PossibleSets | src-tauri/src/business/game_engine/known_game_state.rs:173-209 | Each seat's candidate set is that seat's possible cards |
| KnownStates.SampledHandsRespectConstraints | src-tauri/src/business/game_engine/known_game_state.rs:173-261 | Every card the generator adds to a seat is left to play, of a colour the seat is not void in, under its trump ceiling and known in no hand |
| KnownStates.ConstraintsAsWritten | src-tauri/src/business/game_engine/known_game_state.rs:88-120 | As written: seats 0 to 2 get their own constraints and seat 3 gets seat 2's |
| KnownStates.SeatThreeLosesItsHandful | src-tauri/src/business/game_engine/known_game_state.rs:88-120 | As written, a handful declared by seat 3 alone is lost from seat 3's constraints |
| KnownStates.ConstraintsPerSeat | src-tauri/src/business/game_engine/known_game_state.rs:48-120 | Corrected: every seat gets its own known cards, card count and voids |
| KnownStates.Before | src-tauri/src/business/game_engine/known_game_state.rs:135-158 | The deal offsets are non-negative and non-decreasing when no count underflows |
| KnownStates.PossibleRandomFullState | src-tauri/src/business/game_engine/known_game_state.rs:122-171 | Panics on an underflowing count or too few cards; fails unless exactly 6 cards are left; otherwise deals consecutive blocks to the seats, keeps a known kitty, and returns a fresh shared state |
| KnownStates.OthersBefore | src-tauri/src/business/game_engine/known_game_state.rs:135-158 | Offsets that skip the caller's seat are non-negative and non-decreasing |
| KnownStates.OthersBeforeAll | src-tauri/src/business/game_engine/known_game_state.rs:135-158 | Skipping the caller's seat leaves out exactly the caller's card count |
| KnownStates.FullStateHandSizes | src-tauri/src/business/game_engine/known_game_state.rs:150-158 | Each dealt hand has the seat's expected card count |
| KnownStates.CallerHandRedealt | src-tauri/src/business/game_engine/known_game_state.rs:124-158 | As written, the caller's seat is dealt from the unseen cards, so it never gets back its own hand |
| KnownStates.SucceedsOnlyWhenTableMatchesHand | src-tauri/src/business/game_engine/known_game_state.rs:124-165 | As written, on a view consistent with a real deal, the redeal yields a game exactly when no count underflows, the kitty is hidden and the cards lying in the open trick number as many as the caller's card count |
| KnownStates.KnownKittyStillNeedsSixLeft | src-tauri/src/business/game_engine/known_game_state.rs:159-165 | As written, a known kitty does not spare the check that exactly 6 cards are left over |
| KnownStates.PossibleRandomFullStateFixed | src-tauri/src/business/game_engine/known_game_state.rs:122-171 | Corrected, dealing only the cards neither in the caller's hand nor on the table: panics only when the other seats need more cards than that; the caller keeps their hand, every other seat gets the next block of those cards, and the kitty is the known one or the cards left over |
| KnownStates.DealtHandSize | src-tauri/src/business/game_engine/known_game_state.rs:150-158 | Corrected deal: each other seat gets its card count |
| KnownStates.DealtHandsApart | src-tauri/src/business/game_engine/known_game_state.rs:150-158 | Corrected deal: no card goes to two seats |
| KnownStates.TableCards | src-tauri/src/business/game_engine/known_game_state.rs:137-148 | The cards on the table are at most four and are exactly the cards some seat of the open trick holds |
| KnownStates.UnseenSize | src-tauri/src/business/game_engine/known_game_state.rs:117-165 | On a view consistent with a real deal, the cards neither held by the caller nor on the table number the other seats' counts plus 6 when the kitty is hidden |
| KnownStates.FixedSucceedsWhenConsistent | src-tauri/src/business/game_engine/known_game_state.rs:122-171 | Corrected: on a consistent view the redeal of the unseen cards succeeds with the right hand sizes and disjoint hands |
| HandGeneration.Keep | src-tauri/src/business/game_engine/known_game_state.rs:236-238 | Filtering keeps exactly the seats that pass the test |
| HandGeneration.Candidates | src-tauri/src/business/game_engine/known_game_state.rs:236-238 | A seat is a candidate exactly when it still needs cards and may hold the card |
| HandGeneration.MinSlack | src-tauri/src/business/game_engine/known_game_state.rs:242-247 | The minimum slack is attained by a candidate and bounds every candidate from below |
| HandGeneration.Tightest | src-tauri/src/business/game_engine/known_game_state.rs:242-247 | The tied seats are exactly the candidates of least slack, and there is at least one |
| HandGeneration.Chosen | src-tauri/src/business/game_engine/known_game_state.rs:242-249 | The chosen seat still needs cards, may hold the card and has the least slack of all such seats |
| HandGeneration.Place | src-tauri/src/business/game_engine/known_game_state.rs:235-252 | A card nobody can take goes to the kitty; otherwise it goes to the chosen seat |
| HandGeneration.PlaceStep | src-tauri/src/business/game_engine/known_game_state.rs:235-252 | One placement moves the card into one seat (within its candidates, one fewer needed) or into the kitty; needs never go negative |
| HandGeneration.Deal | src-tauri/src/business/game_engine/known_game_state.rs:235-252 | Over all draws, seats only gain their candidate cards, the kitty only gains drawn cards and needs never go negative |
| HandGeneration.Start | src-tauri/src/business/game_engine/known_game_state.rs:217-228 | Dealing starts from the known hands, an empty kitty and each seat's need reduced by its known cards |
| HandGeneration.Generate | src-tauri/src/business/game_engine/known_game_state.rs:211-261 | TooManyKnownCards exactly when a seat knows more than its count; UnfilledHand exactly when a seat is left short; a result extends the known hands within the candidates and never overfills |
| HandGeneration.GenerateHands | src-tauri/src/business/game_engine/known_game_state.rs:211-261 | The same for draws that are a shuffle of the deck as written; kitty cards came from some seat's candidates |
| HandGeneration.DuplicateDeckDealsCardTwice | src-tauri/src/business/game_engine/known_game_state.rs:229-233 | As written, a card two seats may hold is drawn twice and ends up in both hands |
| HandGeneration.DuplicateDeckLeavesSeatShort | src-tauri/src/business/game_engine/known_game_state.rs:229-259 | As written, a seat needing two cards that alone may take a card listed twice gets it twice: generation succeeds and the seat holds one card |
| HandGeneration.AssignApart | src-tauri/src/business/game_engine/known_game_state.rs:249-250 | Giving a fresh card to a seat keeps every card in at most one place |
| HandGeneration.DealKeepsCardsApart | src-tauri/src/business/game_engine/known_game_state.rs:235-252 | Dealing distinct fresh cards keeps hands and kitty disjoint and conserves hand size plus need |
| HandGeneration.DealCoversPool | src-tauri/src/business/game_engine/known_game_state.rs:235-252 | After dealing each pooled card once, the hands and the kitty together hold exactly the known cards and the pool |
| HandGeneration.FilledDealSplits | src-tauri/src/business/game_engine/known_game_state.rs:235-259 | A deal with no short seat splits the pool: disjoint hands of the right size within the known and possible cards, a kitty within the pool, and every known or pooled card in a hand or the kitty |
| HandGeneration.GenerateHandsOnce | src-tauri/src/business/game_engine/known_game_state.rs:211-261 | Corrected: with each pooled card drawn once, TooManyKnownCards exactly when a seat knows more than its count, and a result deals every known and pooled card exactly once: disjoint hands of the right size and the rest in the kitty |
| HandGeneration.GenerateOnceSplitsPool | src-tauri/src/business/game_engine/known_game_state.rs:211-261 | Whenever the generator succeeds on a deck holding each card once, its hands and kitty split the known and pooled cards |
| HandEvaluation.ColorToIndex | src-tauri/src/business/analysis/evaluate_hand.rs:25-34 | Colours map to six rows, the four suits to the first four |
| HandEvaluation.ColorToIndexInjective | src-tauri/src/business/analysis/evaluate_hand.rs:25-34 | Different colours use different rows |
| HandEvaluation.ValidIsCountable | src-tauri/src/business/analysis/evaluate_hand.rs:46-69 | Every valid card is counted without a panic |
| HandEvaluation.AddCardReference | src-tauri/src/business/analysis/evaluate_hand.rs:46-69 | Counting one more card in the pass agrees with the tally of the grown hand |
| HandEvaluation.TallyOfEnumeration | src-tauri/src/business/analysis/evaluate_hand.rs:46-69 | The pass over any listing of a hand gives the hand's tally: its raw points, its Petit, its colour counts, its honours and its high trumps |
| HandEvaluation.RunBonus | src-tauri/src/business/analysis/evaluate_hand.rs:70-84 | Runs of high trumps score at most their length, and an unbroken run scores its full length |
| HandEvaluation.RunBonusSplit | src-tauri/src/business/analysis/evaluate_hand.rs:70-84 | A missing high trump closes the run: the flags on either side of it score apart, and the count restarts from zero after it |
| HandEvaluation.RunOfLength | src-tauri/src/business/analysis/evaluate_hand.rs:70-84 | A run of k held trumps closed by a missing one scores its whole length (with any run carried in) when that exceeds 1, and nothing otherwise |
| HandEvaluation.RunAddsItsLength | src-tauri/src/business/analysis/evaluate_hand.rs:70-84 | Each closed run of k held trumps adds k to the bonus when k > 1 and nothing otherwise, whatever follows it |
| HandEvaluation.IsolatedHighTrumpsScoreNothing | src-tauri/src/business/analysis/evaluate_hand.rs:70-84 | High trumps that are never adjacent score no run bonus |
| HandEvaluation.PetitBonus | src-tauri/src/business/analysis/evaluate_hand.rs:85-94 | The Petit's bonus is nothing exactly when it is protected by 1 to 3 trumps; it is 5 with 4 trumps, 7 with 5, and 9 with none or with 6 or more |
| HandEvaluation.PetitBonusMonotone | src-tauri/src/business/analysis/evaluate_hand.rs:85-94 | More trumps never lower the Petit's bonus |
| HandEvaluation.LengthBonus | src-tauri/src/business/analysis/evaluate_hand.rs:99-135 | A suit's length bonus is 6 for a void and 3 for a singleton exactly when short suits count, nothing for two to four cards, then 5, 7 and 9 for five, six and seven or more |
| HandEvaluation.ShortSuitBonus | src-tauri/src/business/analysis/evaluate_hand.rs:103-116 | Counting short suits adds 6 for a void, 3 for a singleton and nothing otherwise |
| HandEvaluation.LengthBonusSplits | src-tauri/src/business/analysis/evaluate_hand.rs:99-135 | With short suits counting, a suit scores its usual length bonus plus the short-suit bonus |
| HandEvaluation.HonourBonus | src-tauri/src/business/analysis/evaluate_hand.rs:99-135 | A suit's honours score at most 13, exactly 13 with all four, and nothing without one; without Knight and Jack, King and Queen score exactly 10, the King alone 6 and the Queen alone 3 |
| HandEvaluation.KnightAndJackAdd | src-tauri/src/business/analysis/evaluate_hand.rs:129-134 | The Knight adds exactly 2 and the Jack exactly 1, whatever else the suit holds |
| HandEvaluation.SuitBonuses | src-tauri/src/business/analysis/evaluate_hand.rs:99-135 | The suit bonuses are at most 22 per suit |
| HandEvaluation.SuitBonusesSplit | src-tauri/src/business/analysis/evaluate_hand.rs:37-40 | The low-suit contracts add exactly the short-suit bonuses to the others' suit score |
| HandEvaluation.SuitBonusesFrame | src-tauri/src/business/analysis/evaluate_hand.rs:99-135 | The suit score depends only on the suit counts and honours |
| HandEvaluation.Finish | src-tauri/src/business/analysis/evaluate_hand.rs:70-137 | Bonuses never lower the raw count, and more than three trumps add at least 2 per trump (exact effect of one trump: `HandEvaluation.TrumpShift`) |
| HandEvaluation.CountPointsInOrder | src-tauri/src/business/analysis/evaluate_hand.rs:36-137 | The score is at least the raw points of the hand |
| HandEvaluation.CountPoints | src-tauri/src/business/analysis/evaluate_hand.rs:36-137 | The score of a hand is at least its raw points |
| HandEvaluation.CountPointsOrderIndependent | src-tauri/src/business/analysis/evaluate_hand.rs:36-137 | The score does not depend on the order the hash set yields the cards in |
| HandEvaluation.CountByContract | src-tauri/src/business/analysis/evaluate_hand.rs:36-137 | Contracts that agree on counting short suits score alike; the low-suit ones score exactly the short-suit bonuses more |
| HandEvaluation.PlainTrumpAdds | src-tauri/src/business/analysis/evaluate_hand.rs:46-98 | Adding a trump from 2 to 15 raises the score by 2 per trump once there are more than three (8 for the fourth, 2 for each later one, nothing for the first three), plus the rise in the Petit's protection bonus when the Petit is held |
| HandEvaluation.TrumpShift | src-tauri/src/business/analysis/evaluate_hand.rs:85-98 | One more trump in the tally, and nothing else changed, moves the final count by the trump bonus and the Petit bonus only |
| HandEvaluation.ExcuseWorthEight | src-tauri/src/business/analysis/evaluate_hand.rs:61-63 | Adding the Excuse to a hand adds exactly 8 to its score |
| HandEvaluation.PointsThreshold | src-tauri/src/business/analysis/evaluate_hand.rs:139-146 | The threshold is 40 exactly for Petit, 55 exactly for Garde, 71 exactly for Garde Sans and 80 exactly for Garde Contre |
| HandEvaluation.ThresholdsIncrease | src-tauri/src/business/analysis/evaluate_hand.rs:139-146 | Higher contracts need strictly more points, equal levels the same |
| HandEvaluation.EvaluateHand | src-tauri/src/business/analysis/evaluate_hand.rs:3-23 | No contract exactly when the hand misses the Petit threshold; otherwise the highest contract such that the hand reaches it and every contract below it, never a chelem |
| HandEvaluation.CascadeStopsAtFirstMiss | src-tauri/src/business/analysis/evaluate_hand.rs:3-23 | Trumps 16 to 21 and the Excuse score 48 under Garde and 72 under Garde Sans, so the hand reaches Garde Sans yet is offered only Petit |
| HandEvaluation.GardeReachesPetit | src-tauri/src/business/analysis/evaluate_hand.rs:3-23 | A hand good enough for a Garde is good enough for a Petit |
| HandEvaluation.SampleCountsSeventyNine | src-tauri/src/business/analysis/evaluate_hand.rs:161-186 | The eighteen-card test hand scores 79 under Petit when its cards come in insertion order |
| HandEvaluation.SampleBidsGardeSans | src-tauri/src/business/analysis/evaluate_hand.rs:3-23 | The test hand scores 79 in any order, which is enough for a Garde Sans and not for a Garde Contre |

## Left out

- The Monte Carlo and tree-search players, the random player, the playout simulator, the `tarot.rs` game loop and `player.rs`: they drive the engine and are not part of this model.
- The presentation layer, the middlewares and the integration module: they do I/O.
- `possible_random_full_state_v2` is modelled only through its constraint table (`KnownStates.ConstraintsAsWritten`); its call into the hand generator is `HandGeneration.GenerateHands`, whose draws and tie-break picks are inputs.
- The random number generator: the shuffle, the hash-set iteration order, the dealer draw and the generator's picks are all inputs.
- `Display` implementations, error message texts and the error enums' conversions: presentation only.
- `Card::all_possibles` is defined outside the modelled files; it is taken to be the 78 valid cards, with the Excuse at value 0.
- `PlayedTrick::color`, `did_not_have_color` and `did_not_have_trump_higher` are defined outside the modelled files; they are a `TrickInference` parameter.
- The cards of a declared handful are defined outside the modelled files; `declared_handfuls` holds a kind and its cards.
- Arithmetic overflow of `u8` and `usize` is not modelled; card values, seats and the taker are kept in their ranges by types.
- KnownStates.GetKnownConstraints: requires the seat's card count to be non-negative; the source computes it in `usize`, where a negative count is a panic.
- The shared state `possible_random_full_state` returns is a fresh one, without the tricks already played; the model keeps that, as it is what the source does.
- HandGeneration.Generate: a seat's slack (cards still needed minus cards it may hold) is an integer. The source subtracts in `usize`, which underflows whenever a seat may hold more cards than it still needs, the ordinary case. A build with overflow checks panics there. A build without them wraps, so seats that need at least as many cards as they may hold sort first. The integer order matches neither build in general. Example: seat 0 needs 1 card and may hold {c}, seat 1 needs 1 and may hold {c, d}, and c is drawn. The model gives c to seat 1, a wrapping build gives it to seat 0, and a checked build panics.
- HandGeneration.GenerateHands: it does not say the hands are disjoint, nor that each hand reaches its count, because as written neither need hold (see Findings).
- HandEvaluation.CountPoints: requires every card to be countable (a trump up to 21, a suit card up to 14); others index out of range and panic in the source.
- HandEvaluation.CountPointsInOrder: its own contract gives only the raw-points bound; its meaning is given by `HandEvaluation.CountPointsOrderIndependent` and the reference tally.

## Findings

| source | as written | input that shows it | evidently intended | confidence | as-written member | corrected member |
|---|---|---|---|---|---|---|
| src-tauri/src/business/game_engine/game_state.rs:44-58 | `unwrap_or` builds a new empty trick eagerly and the card is played on a local copy, so the shared trick never records the card | any legal play: the shared trick is empty afterwards and the leader is to play again | the card goes into the shared trick, and a full trick is finished | not executed | GameStates.PlayCardNeverAdvances | GameStates.PlayCardFixedRecordsCard |
| src-tauri/src/business/game_engine/known_game_state.rs:229-233 | the deck lists a card once for every seat that may hold it | a card two seats may hold, each needing one card: both hands get it; and a seat needing two cards that is the only taker of a card listed twice draws it twice, so it ends one card short with no UnfilledHand error (HandGeneration.DuplicateDeckLeavesSeatShort) | each unseen card is dealt once | not executed | HandGeneration.DuplicateDeckDealsCardTwice | HandGeneration.GenerateHandsOnce |
| src-tauri/src/business/game_engine/known_game_state.rs:124-158 | the caller's own seat is dealt from the cards left to play, which still include the cards lying in the open trick | a view where the caller's card count is m and the open trick holds a number of cards other than m (for instance an empty table with m > 0): the redeal panics or fails; when the numbers match it succeeds but redeals the caller (KnownStates.CallerHandRedealt) | the caller keeps their hand, the table's cards stay out, and only the other seats are redealt | not executed | KnownStates.SucceedsOnlyWhenTableMatchesHand | KnownStates.FixedSucceedsWhenConsistent |
| src-tauri/src/business/game_engine/known_game_state.rs:159-165 | the kitty length is checked eagerly even when the kitty is known | a known kitty with other than 6 cards left over: RustError | a known kitty is used without looking at the leftover cards | not executed | KnownStates.KnownKittyStillNeedsSixLeft | KnownStates.PossibleRandomFullStateFixed |
| src-tauri/src/business/game_engine/known_game_state.rs:88-120 | seat 3 is given seat 2's constraints | a handful declared by seat 3 only: seat 3's known cards come out empty | each seat gets its own constraints | not executed | KnownStates.SeatThreeLosesItsHandful | KnownStates.ConstraintsPerSeat |
