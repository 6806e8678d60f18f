/** The integer hand-strength heuristic and the contract it suggests
    (business/analysis/evaluate_hand.rs). The source counts points in one pass over the
    hand, in the hash set's order; `Tally` is that pass's state, and `Reference` gives the
    same state directly from the set of cards, so the count does not depend on the order. */
module HandEvaluation {
  import opened Wrappers
  import opened Seqs
  import opened Cards
  import opened GameTypes
  import opened PlayerStates

  /** `color_to_index`: the row of `color` in the counting tables. */
  function ColorToIndex(color: Color): (r: nat)
    ensures r < 6
    ensures IsSuit(color) <==> r < 4
  {
    match color
    case Spade => 0
    case Club => 1
    case Heart => 2
    case Diamond => 3
    case Trump => 4
    case Excuse => 5
  }

  /** The suit whose row is `i`. */
  function SuitOfIndex(i: nat): (c: Color)
    requires i < 4
    ensures IsSuit(c) && ColorToIndex(c) == i
  {
    [Spade, Club, Heart, Diamond][i]
  }

  lemma ColorToIndexInjective(a: Color, b: Color)
    ensures ColorToIndex(a) == ColorToIndex(b) ==> a == b
  {
  }

  /** The cards `count_points` indexes its tables with in bounds: a trump above 21 or a
      suit card above 14 would index past the end. Every valid card qualifies. */
  predicate Countable(card: Card) {
    && (card.color == Trump ==> card.value <= 21)
    && (IsSuit(card.color) ==> card.value <= 14)
  }

  lemma ValidIsCountable(card: Card)
    requires Valid(card)
    ensures Countable(card)
  {
  }

  /** The state of the pass over the hand: the running total, whether the Petit was seen,
      the card count per colour row, the honours seen (the source's 4 by 4 table laid out
      row by row: flag `4 * row + rank` for Jack, Knight, Queen, King at ranks 0..3) and
      the trumps 16..21 seen. */
  datatype Tally = Tally(total: nat, hasPetit: bool, perColor: seq<nat>, honours: seq<bool>, highTrumps: seq<bool>)

  predicate Shaped(t: Tally) {
    && |t.perColor| == 6
    && |t.honours| == 16
    && |t.highTrumps| == 6
  }

  const EmptyTally := Tally(0, false, [0, 0, 0, 0, 0, 0], [false, false, false, false, false, false, false, false,
                             false, false, false, false, false, false, false, false],
                            [false, false, false, false, false, false])

  /** One turn of the pass over the hand. */
  function AddCard(t: Tally, card: Card): (r: Tally)
    requires Shaped(t) && Countable(card)
    ensures Shaped(r)
  {
    var row := ColorToIndex(card.color);
    var t1 := t.(perColor := t.perColor[row := t.perColor[row] + 1]);
    if card.color == Trump then
      t1.(total := t1.total + (if card.value == 21 then 10 else 0) + (if card.value > 15 then 2 else 0),
          hasPetit := t1.hasPetit || card.value == 1,
          highTrumps := if card.value > 15 then t1.highTrumps[card.value - 16 := true] else t1.highTrumps)
    else if card.color == Excuse then
      t1.(total := t1.total + 8)
    else if card.value > 10 then
      t1.(honours := t1.honours[4 * row + (card.value - 11) := true])
    else t1
  }

  predicate AllCountable(cards: seq<Card>) {
    forall i | 0 <= i < |cards| :: Countable(cards[i])
  }

  /** The pass over the hand in the order `order`. */
  function TallyOf(order: seq<Card>): (r: Tally)
    requires AllCountable(order)
    ensures Shaped(r)
  {
    if |order| == 0 then EmptyTally
    else AddCard(TallyOf(order[..|order| - 1]), order[|order| - 1])
  }

  function HighTrumpsIn(hand: set<Card>): set<Card> {
    set c | c in hand && c.color == Trump && c.value > 15
  }

  function ExcusesIn(hand: set<Card>): set<Card> {
    set c | c in hand && c.color == Excuse
  }

  function RowOf(hand: set<Card>, i: nat): set<Card> {
    set c | c in hand && ColorToIndex(c.color) == i
  }

  /** The state the pass reaches, defined from the set of cards. */
  function Reference(hand: set<Card>): (r: Tally)
    ensures Shaped(r)
  {
    Tally(
      (if Card(Trump, 21) in hand then 10 else 0) + 2 * |HighTrumpsIn(hand)| + 8 * |ExcusesIn(hand)|,
      Card(Trump, 1) in hand,
      seq(6, (i: int) requires 0 <= i < 6 => |RowOf(hand, i)|),
      seq(16, (k: int) requires 0 <= k < 16 => Card(SuitOfIndex(k / 4), 11 + k % 4) in hand),
      seq(6, (j: int) requires 0 <= j < 6 => Card(Trump, 16 + j) in hand))
  }

  /** Adding a card outside a filter leaves the filtered set alone; adding one inside
      it grows the filtered set by exactly that card. */
  lemma RowsGrow(hand: set<Card>, x: Card)
    requires x !in hand
    ensures forall i | 0 <= i < 6 ::
      |RowOf(hand + {x}, i)| == |RowOf(hand, i)| + (if i == ColorToIndex(x.color) then 1 else 0)
  {
    forall i | 0 <= i < 6
      ensures |RowOf(hand + {x}, i)| == |RowOf(hand, i)| + (if i == ColorToIndex(x.color) then 1 else 0)
    {
      if i == ColorToIndex(x.color) {
        assert RowOf(hand + {x}, i) == RowOf(hand, i) + {x};
      } else {
        assert RowOf(hand + {x}, i) == RowOf(hand, i);
      }
    }
  }

  lemma HighTrumpsGrow(hand: set<Card>, x: Card)
    requires x !in hand
    ensures |HighTrumpsIn(hand + {x})| == |HighTrumpsIn(hand)| + (if x.color == Trump && x.value > 15 then 1 else 0)
  {
    if x.color == Trump && x.value > 15 {
      assert HighTrumpsIn(hand + {x}) == HighTrumpsIn(hand) + {x};
    } else {
      assert HighTrumpsIn(hand + {x}) == HighTrumpsIn(hand);
    }
  }

  lemma ExcusesGrow(hand: set<Card>, x: Card)
    requires x !in hand
    ensures |ExcusesIn(hand + {x})| == |ExcusesIn(hand)| + (if x.color == Excuse then 1 else 0)
  {
    if x.color == Excuse {
      assert ExcusesIn(hand + {x}) == ExcusesIn(hand) + {x};
    } else {
      assert ExcusesIn(hand + {x}) == ExcusesIn(hand);
    }
  }

  /** One turn of the pass takes the reference state of a set to that of the set with
      one more card. */
  lemma AddCardReference(hand: set<Card>, x: Card)
    requires x !in hand && Countable(x)
    ensures AddCard(Reference(hand), x) == Reference(hand + {x})
  {
    AddCardTotals(hand, x);
    AddCardHonours(hand, x);
    AddCardHighTrumps(hand, x);
  }

  lemma AddCardTotals(hand: set<Card>, x: Card)
    requires x !in hand && Countable(x)
    ensures AddCard(Reference(hand), x).total == Reference(hand + {x}).total
    ensures AddCard(Reference(hand), x).hasPetit == Reference(hand + {x}).hasPetit
    ensures AddCard(Reference(hand), x).perColor == Reference(hand + {x}).perColor
  {
    RowsGrow(hand, x);
    HighTrumpsGrow(hand, x);
    ExcusesGrow(hand, x);
    var a := AddCard(Reference(hand), x);
    var b := Reference(hand + {x});
    assert a.perColor == b.perColor;
  }

  lemma AddCardHonours(hand: set<Card>, x: Card)
    requires x !in hand && Countable(x)
    ensures AddCard(Reference(hand), x).honours == Reference(hand + {x}).honours
  {
    var a := AddCard(Reference(hand), x);
    var b := Reference(hand + {x});
    var row := ColorToIndex(x.color);
    forall k | 0 <= k < 16
      ensures a.honours[k] == b.honours[k]
    {
      var i, j := k / 4, k % 4;
      var honour := Card(SuitOfIndex(i), 11 + j);
      assert honour == x <==> (IsSuit(x.color) && row == i && x.value == 11 + j) by {
        if honour == x {
          assert ColorToIndex(x.color) == i;
        }
        if IsSuit(x.color) && row == i && x.value == 11 + j {
          ColorToIndexInjective(x.color, SuitOfIndex(i));
        }
      }
    }
  }

  lemma AddCardHighTrumps(hand: set<Card>, x: Card)
    requires x !in hand && Countable(x)
    ensures AddCard(Reference(hand), x).highTrumps == Reference(hand + {x}).highTrumps
  {
    var a := AddCard(Reference(hand), x);
    var b := Reference(hand + {x});
    forall j | 0 <= j < 6
      ensures a.highTrumps[j] == b.highTrumps[j]
    {
      assert Card(Trump, 16 + j) == x <==> (x.color == Trump && x.value == 16 + j);
    }
  }

  /** The pass over any enumeration of a hand reaches the reference state of that hand:
      the order a hash set yields its cards in does not matter. */
  lemma {:induction false} TallyOfEnumeration(order: seq<Card>)
    requires AllCountable(order) && Distinct(order)
    ensures TallyOf(order) == Reference(Elems(order))
  {
    if |order| == 0 {
      assert Elems(order) == {};
      assert Reference({}).perColor == EmptyTally.perColor;
      assert Reference({}).honours == EmptyTally.honours;
      assert Reference({}).highTrumps == EmptyTally.highTrumps;
    } else {
      var init := order[..|order| - 1];
      var x := order[|order| - 1];
      assert order == init + [x];
      assert Distinct(init);
      assert AllCountable(init);
      TallyOfEnumeration(init);
      assert x !in Elems(init);
      assert Elems(order) == Elems(init) + {x};
      AddCardReference(Elems(init), x);
    }
  }

  /** Runs of consecutive trumps among 16..21: a run of `k > 1` trumps scores `k`.
      `current` is the length of the run the scan is inside. */
  function RunBonus(flags: seq<bool>, current: nat): (r: nat)
    ensures r <= current + |flags|
    ensures (forall i | 0 <= i < |flags| :: flags[i]) && current + |flags| > 1 ==> r == current + |flags|
  {
    if |flags| == 0 then (if current > 1 then current else 0)
    else if flags[0] then RunBonus(flags[1..], current + 1)
    else (if current > 1 then current else 0) + RunBonus(flags[1..], 0)
  }

  /** A scan that starts outside any run and never meets two adjacent trumps scores nothing. */
  lemma {:induction false} IsolatedHighTrumpsScoreNothing(flags: seq<bool>, current: nat)
    requires current <= 1
    requires current == 1 && |flags| > 0 ==> !flags[0]
    requires forall i | 0 <= i < |flags| - 1 :: !(flags[i] && flags[i + 1])
    ensures RunBonus(flags, current) == 0
  {
    if |flags| > 0 {
      if flags[0] {
        IsolatedHighTrumpsScoreNothing(flags[1..], current + 1);
      } else {
        IsolatedHighTrumpsScoreNothing(flags[1..], 0);
      }
    }
  }

  /** A missing trump closes the run: the flags before it and after it score apart, and
      the scan restarts from zero after it. */
  lemma {:induction false} RunBonusSplit(a: seq<bool>, b: seq<bool>, current: nat)
    ensures RunBonus(a + [false] + b, current) == RunBonus(a + [false], current) + RunBonus(b, 0)
    decreases |a|
  {
    if |a| == 0 {
      assert (a + [false] + b)[1..] == b;
      assert (a + [false])[1..] == [];
    } else {
      assert (a + [false] + b)[1..] == a[1..] + [false] + b;
      assert (a + [false])[1..] == a[1..] + [false];
      if a[0] {
        RunBonusSplit(a[1..], b, current + 1);
      } else {
        RunBonusSplit(a[1..], b, 0);
      }
    }
  }

  function Held(k: nat): (r: seq<bool>)
    ensures |r| == k && forall i | 0 <= i < k :: r[i]
  {
    seq(k, _ => true)
  }

  /** A run of `k` held trumps ended by a missing one scores `k` when it is longer than one,
      and nothing otherwise (the scan entering with `current` already counted). */
  lemma {:induction false} RunOfLength(k: nat, current: nat)
    ensures RunBonus(Held(k) + [false], current) == if current + k > 1 then current + k else 0
    decreases k
  {
    if k == 0 {
      assert Held(0) + [false] == [false];
      assert [false][1..] == [];
    } else {
      assert (Held(k) + [false])[1..] == Held(k - 1) + [false];
      RunOfLength(k - 1, current + 1);
    }
  }

  /** Each run of `k > 1` high trumps adds `k`, whatever follows it. */
  lemma RunAddsItsLength(k: nat, rest: seq<bool>)
    ensures RunBonus(Held(k) + [false] + rest, 0) == (if k > 1 then k else 0) + RunBonus(rest, 0)
  {
    RunBonusSplit(Held(k), rest, 0);
    RunOfLength(k, 0);
  }

  /** The bonus for holding the Petit, by the number of trumps protecting it (the Petit
      included): none for up to three, then 5, 7 and 9. */
  function PetitBonus(trumps: nat): (r: nat)
    ensures r <= 9
    ensures r == 0 <==> 1 <= trumps <= 3
    ensures trumps == 4 ==> r == 5
    ensures trumps == 5 ==> r == 7
    ensures trumps == 0 || trumps >= 6 ==> r == 9
  {
    if 1 <= trumps < 4 then 0
    else if trumps == 4 then 5
    else if trumps == 5 then 7
    else 9
  }

  /** With the Petit in hand there is at least one trump, and from there on more trumps
      never lower the bonus. */
  lemma PetitBonusMonotone(a: nat, b: nat)
    requires 1 <= a <= b
    ensures PetitBonus(a) <= PetitBonus(b)
  {
  }

  /** The bonus for a suit's length: 6 for a void and 3 for a singleton when low suits
      count, nothing for two to four cards, then 5, 7 and 9. */
  function LengthBonus(count: nat, lowSuits: bool): (r: nat)
    ensures r <= 9
    ensures !lowSuits && count < 5 ==> r == 0
    ensures count == 0 ==> (r == 6 <==> lowSuits)
    ensures count == 1 ==> (r == 3 <==> lowSuits)
    ensures 2 <= count <= 4 ==> r == 0
    ensures count == 5 ==> r == 5
    ensures count == 6 ==> r == 7
    ensures count >= 7 ==> r == 9
  {
    if count == 0 then (if lowSuits then 6 else 0)
    else if count == 1 then (if lowSuits then 3 else 0)
    else if count < 5 then 0
    else if count == 5 then 5
    else if count == 6 then 7
    else 9
  }

  /** What counting low suits adds to one suit: 6 for a void, 3 for a singleton. */
  function ShortSuitBonus(count: nat): (r: nat)
    ensures count == 0 ==> r == 6
    ensures count == 1 ==> r == 3
    ensures count >= 2 ==> r == 0
  {
    if count == 0 then 6 else if count == 1 then 3 else 0
  }

  lemma LengthBonusSplits(count: nat)
    ensures LengthBonus(count, true) == LengthBonus(count, false) + ShortSuitBonus(count)
  {
  }

  /** The honours of one suit, flags indexed Jack, Knight, Queen, King: King and Queen 10,
      King alone 6, Queen alone 3, Knight 2, Jack 1. */
  function HonourBonus(row: seq<bool>): (r: nat)
    requires |row| == 4
    ensures r <= 13
    ensures r == 13 <==> (row[0] && row[1] && row[2] && row[3])
    ensures r == 0 <==> !(row[0] || row[1] || row[2] || row[3])
    ensures !row[0] && !row[1] ==> (r == 10 <==> row[3] && row[2])
    ensures !row[0] && !row[1] ==> (r == 6 <==> row[3] && !row[2])
    ensures !row[0] && !row[1] ==> (r == 3 <==> !row[3] && row[2])
  {
    (if row[3] && row[2] then 10 else if row[3] then 6 else if row[2] then 3 else 0)
      + (if row[1] then 2 else 0)
      + (if row[0] then 1 else 0)
  }

  /** The Knight adds 2 and the Jack 1, whatever else the suit holds. */
  lemma KnightAndJackAdd(row: seq<bool>)
    requires |row| == 4
    ensures HonourBonus(row[1 := true]) == HonourBonus(row[1 := false]) + 2
    ensures HonourBonus(row[0 := true]) == HonourBonus(row[0 := false]) + 1
  {
  }

  /** The length and honour bonuses of suit rows `i..3`. */
  function SuitBonuses(t: Tally, lowSuits: bool, i: nat): (r: nat)
    requires Shaped(t) && i <= 4
    ensures r <= 22 * (4 - i)
    decreases 4 - i
  {
    if i == 4 then 0
    else LengthBonus(t.perColor[i], lowSuits) + HonourBonus(t.honours[4 * i..4 * i + 4]) + SuitBonuses(t, lowSuits, i + 1)
  }

  /** What counting low suits adds over rows `i..3`. */
  function ShortSuitBonuses(perColor: seq<nat>, i: nat): nat
    requires |perColor| == 6 && i <= 4
    decreases 4 - i
  {
    if i == 4 then 0 else ShortSuitBonus(perColor[i]) + ShortSuitBonuses(perColor, i + 1)
  }

  lemma {:induction false} SuitBonusesSplit(t: Tally, i: nat)
    requires Shaped(t) && i <= 4
    ensures SuitBonuses(t, true, i) == SuitBonuses(t, false, i) + ShortSuitBonuses(t.perColor, i)
    decreases 4 - i
  {
    if i < 4 {
      LengthBonusSplits(t.perColor[i]);
      SuitBonusesSplit(t, i + 1);
    }
  }

  /** The suit bonuses read only the suit rows: the counts of rows 0..3 and the honours. */
  lemma {:induction false} SuitBonusesFrame(t: Tally, u: Tally, lowSuits: bool, i: nat)
    requires Shaped(t) && Shaped(u) && i <= 4
    requires t.perColor[..4] == u.perColor[..4] && t.honours == u.honours
    ensures SuitBonuses(t, lowSuits, i) == SuitBonuses(u, lowSuits, i)
    decreases 4 - i
  {
    if i < 4 {
      assert t.perColor[i] == t.perColor[..4][i];
      assert u.perColor[i] == u.perColor[..4][i];
      SuitBonusesFrame(t, u, lowSuits, i + 1);
    }
  }

  /** GardeSans and GardeContre count voids and singletons. */
  predicate LowSuits(gameType: GameType) {
    gameType.GardeSans? || gameType.GardeContre?
  }

  /** The bonuses added after the pass over the hand. */
  function Finish(t: Tally, lowSuits: bool): (r: nat)
    requires Shaped(t)
    ensures r >= t.total
    ensures t.perColor[ColorToIndex(Trump)] > 3 ==> r >= t.total + 2 * t.perColor[ColorToIndex(Trump)]
  {
    var trumps := t.perColor[ColorToIndex(Trump)];
    t.total
      + RunBonus(t.highTrumps, 0)
      + (if t.hasPetit then PetitBonus(trumps) else 0)
      + (if trumps > 3 then 2 * trumps else 0)
      + SuitBonuses(t, lowSuits, 0)
  }

  /** `count_points` as written: the pass over the hand in the order the hash set yields
      its cards (`order`), then the run, Petit, trump and suit bonuses. */
  function CountPointsInOrder(order: seq<Card>, gameType: GameType): (r: nat)
    requires AllCountable(order)
    ensures r >= TallyOf(order).total
  {
    Finish(TallyOf(order), LowSuits(gameType))
  }

  /** No card of the hand makes `count_points` index out of bounds. */
  predicate CountableHand(state: PlayerGameState) {
    forall c | c in state.hand :: Countable(c)
  }

  /** The count, from the set of cards. */
  function CountPoints(state: PlayerGameState, gameType: GameType): (r: nat)
    requires CountableHand(state)
    ensures r >= Reference(state.hand).total
  {
    Finish(Reference(state.hand), LowSuits(gameType))
  }

  /** Every order of the hand gives the same count. */
  lemma CountPointsOrderIndependent(order: seq<Card>, state: PlayerGameState, gameType: GameType)
    requires Enumerates(order, state.hand) && AllCountable(order)
    ensures CountableHand(state)
    ensures CountPointsInOrder(order, gameType) == CountPoints(state, gameType)
  {
    TallyOfEnumeration(order);
  }

  /** The contract only matters through whether low suits count: Petit and Garde score
      alike, and GardeSans and GardeContre add the void and singleton bonuses to that. */
  lemma CountByContract(state: PlayerGameState, a: GameType, b: GameType)
    requires CountableHand(state)
    ensures LowSuits(a) == LowSuits(b) ==> CountPoints(state, a) == CountPoints(state, b)
    ensures LowSuits(a) && !LowSuits(b) ==>
      CountPoints(state, a) == CountPoints(state, b) + ShortSuitBonuses(Reference(state.hand).perColor, 0)
  {
    SuitBonusesSplit(Reference(state.hand), 0);
  }

  /** The Excuse is worth 8 points whatever else is in the hand. */
  lemma ExcuseWorthEight(state: PlayerGameState, excuse: Card, gameType: GameType)
    requires CountableHand(state) && excuse.color == Excuse && excuse !in state.hand
    ensures CountableHand(PlayerGameState(state.hand + {excuse}))
    ensures CountPoints(PlayerGameState(state.hand + {excuse}), gameType) == CountPoints(state, gameType) + 8
  {
    CountableAdd(state.hand, excuse);
    var t := Reference(state.hand);
    AddCardReference(state.hand, excuse);
    FinishShift(t, AddCard(t, excuse), LowSuits(gameType));
  }

  /** A trump from 2 to 15 scores nothing by itself; it counts through the number of
      trumps. Those are worth 2 each once the hand holds more than three, so the fourth
      trump adds 8, each later one 2 and the first three nothing; with the Petit in hand the
      Petit's protection bonus moves up with the count as well. */
  lemma PlainTrumpAdds(state: PlayerGameState, trump: Card, gameType: GameType)
    requires CountableHand(state) && trump.color == Trump && 2 <= trump.value <= 15 && trump !in state.hand
    ensures CountableHand(PlayerGameState(state.hand + {trump}))
    ensures var n := |RowOf(state.hand, ColorToIndex(Trump))|;
      CountPoints(PlayerGameState(state.hand + {trump}), gameType)
        == CountPoints(state, gameType)
           + (if n >= 4 then 2 else if n == 3 then 8 else 0)
           + (if Card(Trump, 1) in state.hand then PetitBonus(n + 1) - PetitBonus(n) else 0)
  {
    CountableAdd(state.hand, trump);
    var t := Reference(state.hand);
    assert t.perColor[ColorToIndex(Trump)] == |RowOf(state.hand, ColorToIndex(Trump))|;
    AddCardReference(state.hand, trump);
    PlainTrumpTally(t, trump);
    TrumpShift(t, Reference(state.hand + {trump}), LowSuits(gameType));
  }

  /** A trump from 2 to 15 only adds one to the trump row of the pass. */
  lemma PlainTrumpTally(t: Tally, trump: Card)
    requires Shaped(t) && trump.color == Trump && 2 <= trump.value <= 15
    ensures var u := AddCard(t, trump);
      && u.total == t.total && u.hasPetit == t.hasPetit
      && u.highTrumps == t.highTrumps && u.honours == t.honours
      && u.perColor[..4] == t.perColor[..4] && u.perColor[4] == t.perColor[4] + 1
  {
    var u := AddCard(t, trump);
    assert u.perColor[..4] == t.perColor[..4];
  }

  /** One more trump in the trump row, and nothing else but that row changed. */
  lemma TrumpShift(t: Tally, u: Tally, lowSuits: bool)
    requires Shaped(t) && Shaped(u) && t.total == u.total && t.hasPetit == u.hasPetit
    requires u.highTrumps == t.highTrumps && u.honours == t.honours
    requires u.perColor[..4] == t.perColor[..4] && u.perColor[4] == t.perColor[4] + 1
    ensures var n := t.perColor[4];
      Finish(u, lowSuits)
        == Finish(t, lowSuits)
           + (if n >= 4 then 2 else if n == 3 then 8 else 0)
           + (if t.hasPetit then PetitBonus(n + 1) - PetitBonus(n) else 0)
  {
    SuitBonusesFrame(t, u, lowSuits, 0);
  }

  lemma CountableAdd(hand: set<Card>, x: Card)
    requires CountableHand(PlayerGameState(hand)) && Countable(x)
    ensures CountableHand(PlayerGameState(hand + {x}))
  {
    forall c | c in hand + {x}
      ensures Countable(c)
    {
      if c != x {
        assert c in hand;
      }
    }
  }

  /** Raising only the running total, and the Excuse row, raises the final count by as much. */
  lemma FinishShift(t: Tally, u: Tally, lowSuits: bool)
    requires Shaped(t) && Shaped(u) && t.total <= u.total
    requires u.hasPetit == t.hasPetit && u.highTrumps == t.highTrumps && u.honours == t.honours
    requires u.perColor[..5] == t.perColor[..5]
    ensures Finish(u, lowSuits) == Finish(t, lowSuits) + (u.total - t.total)
  {
    assert u.perColor[..4] == u.perColor[..5][..4];
    assert t.perColor[..4] == t.perColor[..5][..4];
    SuitBonusesFrame(t, u, lowSuits, 0);
    assert u.perColor[4] == u.perColor[..5][4];
    assert t.perColor[4] == t.perColor[..5][4];
  }

  /** `points_threshold`: the count a hand needs to bid each contract. */
  function PointsThreshold(gameType: GameType): (r: nat)
    ensures 40 <= r <= 80
    ensures r == 40 <==> gameType.Petit?
    ensures r == 80 <==> gameType.GardeContre?
    ensures r == 55 <==> gameType.Garde?
    ensures r == 71 <==> gameType.GardeSans?
  {
    match gameType
    case Petit(_) => 40
    case Garde(_) => 55
    case GardeSans(_) => 71
    case GardeContre(_) => 80
  }

  /** Higher contracts need strictly more points; the slam flag plays no part. */
  lemma ThresholdsIncrease(a: GameType, b: GameType)
    ensures Level(a) < Level(b) ==> PointsThreshold(a) < PointsThreshold(b)
    ensures Level(a) == Level(b) ==> PointsThreshold(a) == PointsThreshold(b)
  {
  }

  /** The hand reaches the threshold of `gameType`. */
  predicate Reaches(state: PlayerGameState, gameType: GameType)
    requires CountableHand(state)
  {
    CountPoints(state, gameType) >= PointsThreshold(gameType)
  }

  /** `evaluate_hand`: the highest contract, never a slam, such that the hand reaches it and
      every contract below it; nothing when it does not even reach Petit. */
  function EvaluateHand(state: PlayerGameState): (r: Option<GameType>)
    requires CountableHand(state)
    ensures r.None? <==> !Reaches(state, Petit(false))
    ensures r.Some? ==> !r.value.chelem
    ensures r.Some? && Level(r.value) >= 1 ==> Reaches(state, Garde(false))
    ensures r.Some? && Level(r.value) >= 2 ==> Reaches(state, GardeSans(false))
    ensures r.Some? && Level(r.value) >= 3 ==> Reaches(state, GardeContre(false))
    ensures r.Some? && Level(r.value) == 0 ==> !Reaches(state, Garde(false))
    ensures r.Some? && Level(r.value) == 1 ==> !Reaches(state, GardeSans(false))
    ensures r.Some? && Level(r.value) == 2 ==> !Reaches(state, GardeContre(false))
  {
    if !Reaches(state, Petit(false)) then None
    else if !Reaches(state, Garde(false)) then Some(Petit(false))
    else if !Reaches(state, GardeSans(false)) then Some(Garde(false))
    else if !Reaches(state, GardeContre(false)) then Some(GardeSans(false))
    else Some(GardeContre(false))
  }

  /** Trumps 16 to 21 and the Excuse. */
  const HighTrumpsOrder: seq<Card> := [
    Card(Trump, 16), Card(Trump, 17), Card(Trump, 18), Card(Trump, 19), Card(Trump, 20), Card(Trump, 21), Card(Excuse, 0)]

  /** Its pass: 30 direct points (the 21, six trumps above 15, the Excuse), six trumps,
      one Excuse, no suit card and every trump from 16 to 21. */
  const HighTrumpsFinal := Tally(30, false, [0, 0, 0, 0, 6, 1],
    [false, false, false, false, false, false, false, false, false, false, false, false, false, false, false, false],
    [true, true, true, true, true, true])

  lemma HighTrumpsChain()
    ensures AddCard(AddCard(AddCard(AddCard(AddCard(AddCard(AddCard(EmptyTally, Card(Trump, 16)), Card(Trump, 17)), Card(Trump, 18)), Card(Trump, 19)), Card(Trump, 20)), Card(Trump, 21)), Card(Excuse, 0))
         == HighTrumpsFinal
  {
  }

  /** The first seven turns of any pass of at least seven cards, written out. */
  lemma TallyFirstSeven(order: seq<Card>)
    requires AllCountable(order) && |order| >= 7
    ensures AllCountable(order[..7])
    ensures TallyOf(order[..7]) == AddCard(AddCard(AddCard(AddCard(AddCard(AddCard(AddCard(
      EmptyTally, order[0]), order[1]), order[2]), order[3]), order[4]), order[5]), order[6])
  {
    assert order[..0] == [];
    TallyPrefix(order, 0);
    TallyPrefix(order, 1);
    TallyPrefix(order, 2);
    TallyPrefix(order, 3);
    TallyPrefix(order, 4);
    TallyPrefix(order, 5);
    TallyPrefix(order, 6);
  }

  lemma HighTrumpsTally()
    ensures AllCountable(HighTrumpsOrder) && Distinct(HighTrumpsOrder)
    ensures TallyOf(HighTrumpsOrder) == HighTrumpsFinal
  {
    assert AllCountable(HighTrumpsOrder);
    TallyFirstSeven(HighTrumpsOrder);
    assert HighTrumpsOrder[..7] == HighTrumpsOrder;
    HighTrumpsChain();
  }

  /** Suits that are all void and without honours score 6 each when low suits count, and
      nothing otherwise. */
  lemma {:induction false} VoidSuitBonuses(t: Tally, lowSuits: bool, i: nat)
    requires Shaped(t) && i <= 4
    requires forall k | 0 <= k < 4 :: t.perColor[k] == 0
    requires forall k | 0 <= k < 16 :: !t.honours[k]
    ensures SuitBonuses(t, lowSuits, i) == (if lowSuits then 6 * (4 - i) else 0)
    decreases 4 - i
  {
    if i < 4 {
      var row := t.honours[4 * i..4 * i + 4];
      assert !row[0] && !row[1] && !row[2] && !row[3];
      VoidSuitBonuses(t, lowSuits, i + 1);
    }
  }

  /** 30 direct points, 6 for the run 16..21 and 12 for six trumps; the low-suit contracts
      add 6 for each of the four void suits. */
  lemma HighTrumpsFinishes()
    ensures Finish(HighTrumpsFinal, false) == 48
    ensures Finish(HighTrumpsFinal, true) == 72
  {
    var t := HighTrumpsFinal;
    assert t.highTrumps == Held(6);
    assert RunBonus(t.highTrumps, 0) == 6;
    assert t.perColor[ColorToIndex(Trump)] == 6;
    VoidSuitBonuses(t, false, 0);
    VoidSuitBonuses(t, true, 0);
  }

  /** Any hand whose pass reaches that state scores 48 under Petit and Garde and 72 under
      GardeSans and GardeContre. */
  lemma HighTrumpsStateCounts(state: PlayerGameState)
    requires CountableHand(state) && Reference(state.hand) == HighTrumpsFinal
    ensures forall g: GameType :: CountPoints(state, g) == (if LowSuits(g) then 72 else 48)
  {
    HighTrumpsFinishes();
  }

  /** Scoring 48 under Petit and Garde clears 40 but not 55; 72 under GardeSans clears 71. */
  lemma LowSuitsAloneReachGardeSans(state: PlayerGameState)
    requires CountableHand(state)
    requires CountPoints(state, Petit(false)) == 48 && CountPoints(state, Garde(false)) == 48
    requires CountPoints(state, GardeSans(false)) == 72
    ensures Reaches(state, GardeSans(false)) && EvaluateHand(state) == Some(Petit(false))
  {
  }

  /** The set of those seven cards scores 48 without low suits and 72 with them. */
  lemma HighTrumpsHandCounts(g: GameType)
    ensures CountableHand(PlayerGameState(Elems(HighTrumpsOrder)))
    ensures CountPoints(PlayerGameState(Elems(HighTrumpsOrder)), g) == (if LowSuits(g) then 72 else 48)
  {
    HighTrumpsTally();
    TallyOfEnumeration(HighTrumpsOrder);
    HighTrumpsStateCounts(PlayerGameState(Elems(HighTrumpsOrder)));
  }

  /** The cascade stops at the first contract the hand misses: six high trumps and the
      Excuse score 48 under Garde but 72 under GardeSans, where the four voids count, so
      the hand reaches GardeSans and is still offered only Petit. */
  lemma CascadeStopsAtFirstMiss()
    ensures CountableHand(PlayerGameState(Elems(HighTrumpsOrder)))
    ensures var state := PlayerGameState(Elems(HighTrumpsOrder));
      && CountPoints(state, Garde(false)) == 48
      && CountPoints(state, GardeSans(false)) == 72
      && Reaches(state, GardeSans(false))
      && EvaluateHand(state) == Some(Petit(false))
  {
    HighTrumpsHandCounts(Petit(false));
    HighTrumpsHandCounts(Garde(false));
    HighTrumpsHandCounts(GardeSans(false));
    LowSuitsAloneReachGardeSans(PlayerGameState(Elems(HighTrumpsOrder)));
  }

  /** Reaching Garde implies reaching Petit, since both score alike and Petit asks less;
      so the hands that get no contract are exactly those below 40 points. */
  lemma GardeReachesPetit(state: PlayerGameState)
    requires CountableHand(state) && Reaches(state, Garde(false))
    ensures Reaches(state, Petit(false))
  {
    CountByContract(state, Petit(false), Garde(false));
  }

  /** The eighteen-card hand of the source's threshold test, in insertion order. */
  const SampleOrder: seq<Card> := [
    Card(Diamond, 10), Card(Spade, 7), Card(Spade, 14), Card(Trump, 1), Card(Trump, 21), Card(Club, 11),
    Card(Trump, 20), Card(Trump, 14), Card(Trump, 15), Card(Diamond, 13), Card(Heart, 12), Card(Trump, 18),
    Card(Heart, 14), Card(Club, 14), Card(Diamond, 8), Card(Diamond, 12), Card(Trump, 19), Card(Excuse, 0)]

  lemma SampleCountable()
    ensures AllCountable(SampleOrder)
  {
    forall i | 0 <= i < |SampleOrder|
      ensures Countable(SampleOrder[i])
    {
    }
  }

  /** The pass over one more card of `order`. */
  lemma TallyPrefix(order: seq<Card>, k: nat)
    requires AllCountable(order) && k < |order|
    ensures AllCountable(order[..k]) && AllCountable(order[..k + 1])
    ensures TallyOf(order[..k + 1]) == AddCard(TallyOf(order[..k]), order[k])
  {
    assert order[..k + 1][..k] == order[..k];
  }


  /** The state after the first nine cards of the sample. */
  const SampleAfterNine := Tally(14, true, [2, 1, 0, 1, 5, 0],
    [false, false, false, true, true, false, false, false, false, false, false, false, false, false, false, false],
    [false, false, false, false, true, true])

  /** The state after the whole sample: 26 direct points (the 21, four trumps above 15,
      the Excuse), the Petit, seven trumps, the honours and the run 18..21. */
  const SampleFinal := Tally(26, true, [2, 2, 2, 4, 7, 1],
    [false, false, false, true, true, false, false, true, false, true, false, true, false, true, true, false],
    [false, false, true, true, true, true])

  lemma SampleFirstNine()
    ensures AddCard(AddCard(AddCard(AddCard(AddCard(AddCard(AddCard(AddCard(AddCard(EmptyTally, Card(Diamond, 10)), Card(Spade, 7)), Card(Spade, 14)), Card(Trump, 1)), Card(Trump, 21)), Card(Club, 11)), Card(Trump, 20)), Card(Trump, 14)), Card(Trump, 15))
         == SampleAfterNine
  {
  }

  lemma SampleLastNine()
    ensures AddCard(AddCard(AddCard(AddCard(AddCard(AddCard(AddCard(AddCard(AddCard(SampleAfterNine, Card(Diamond, 13)), Card(Heart, 12)), Card(Trump, 18)), Card(Heart, 14)), Card(Club, 14)), Card(Diamond, 8)), Card(Diamond, 12)), Card(Trump, 19)), Card(Excuse, 0))
         == SampleFinal
  {
  }

  /** The pass over the sample hand, in insertion order. */
  lemma SampleTally()
    ensures AllCountable(SampleOrder) && TallyOf(SampleOrder) == SampleFinal
  {
    SampleCountable();
    TallyFirstNine(SampleOrder);
    SampleFirstNine();
    TallyNextNine(SampleOrder);
    assert SampleOrder[..18] == SampleOrder;
    SampleLastNine();
  }

  /** The first nine turns of any pass of at least nine cards, written out. */
  lemma TallyFirstNine(order: seq<Card>)
    requires AllCountable(order) && |order| >= 9
    ensures AllCountable(order[..9])
    ensures TallyOf(order[..9]) == AddCard(AddCard(AddCard(AddCard(AddCard(AddCard(AddCard(AddCard(AddCard(
      EmptyTally, order[0]), order[1]), order[2]), order[3]), order[4]), order[5]), order[6]), order[7]), order[8])
  {
    assert order[..0] == [];
    TallyPrefix(order, 0);
    TallyPrefix(order, 1);
    TallyPrefix(order, 2);
    TallyPrefix(order, 3);
    TallyPrefix(order, 4);
    TallyPrefix(order, 5);
    TallyPrefix(order, 6);
    TallyPrefix(order, 7);
    TallyPrefix(order, 8);
  }

  /** Turns ten to eighteen of any pass of at least eighteen cards, written out. */
  lemma TallyNextNine(order: seq<Card>)
    requires AllCountable(order) && |order| >= 18
    ensures AllCountable(order[..9]) && AllCountable(order[..18])
    ensures TallyOf(order[..18]) == AddCard(AddCard(AddCard(AddCard(AddCard(AddCard(AddCard(AddCard(AddCard(
      TallyOf(order[..9]), order[9]), order[10]), order[11]), order[12]), order[13]), order[14]), order[15]), order[16]), order[17])
  {
    TallyPrefix(order, 9);
    TallyPrefix(order, 10);
    TallyPrefix(order, 11);
    TallyPrefix(order, 12);
    TallyPrefix(order, 13);
    TallyPrefix(order, 14);
    TallyPrefix(order, 15);
    TallyPrefix(order, 16);
    TallyPrefix(order, 17);
  }

  lemma SampleDistinct()
    ensures Distinct(SampleOrder)
  {
  }

  /** The sample's suit rows: no suit of five or more, and honours worth 6 (Spade King),
      7 (Club King and Jack), 8 (Heart King and Knight) and 5 (Diamond Queen and Knight). */
  lemma SampleSuitBonuses()
    ensures SuitBonuses(SampleFinal, false, 0) == 26
    ensures SuitBonuses(SampleFinal, true, 0) == 26
  {
    assert SampleFinal.honours[0..4] == [false, false, false, true];
    assert SampleFinal.honours[4..8] == [true, false, false, true];
    assert SampleFinal.honours[8..12] == [false, true, false, true];
    assert SampleFinal.honours[12..16] == [false, true, true, false];
  }

  /** The bonuses on top of the sample's 26 direct points: 4 for the run 18..21, 9 for
      the Petit with seven trumps, 14 for the trumps and 26 for the suits. */
  lemma SampleFinishes()
    ensures Finish(SampleFinal, false) == 79
    ensures Finish(SampleFinal, true) == 79
  {
    SampleRunBonus();
    SampleSuitBonuses();
  }

  /** The sample holds trumps 18 to 21 and neither 16 nor 17: one run of four. */
  lemma SampleRunBonus()
    ensures RunBonus(SampleFinal.highTrumps, 0) == 4
  {
    var flags := SampleFinal.highTrumps;
    assert flags[2..] == [true, true, true, true];
    assert RunBonus(flags[2..], 0) == 4;
    assert flags[1..][1..] == flags[2..];
  }

  /** The sample hand scores 79 under Petit, as the source's threshold test expects. */
  lemma SampleCountsSeventyNine()
    ensures AllCountable(SampleOrder)
    ensures CountPointsInOrder(SampleOrder, Petit(false)) == 79
  {
    SampleTally();
    SampleFinishes();
  }

  /** Any hand whose pass reaches the sample's final state scores 79 under every contract. */
  lemma SampleStateCounts(state: PlayerGameState)
    requires CountableHand(state) && Reference(state.hand) == SampleFinal
    ensures forall g: GameType :: CountPoints(state, g) == 79
  {
    SampleFinishes();
  }

  /** A hand scoring 79 under every contract clears 40, 55 and 71 but not 80: it bids GardeSans. */
  lemma SeventyNineBidsGardeSans(state: PlayerGameState)
    requires CountableHand(state)
    requires forall g: GameType :: CountPoints(state, g) == 79
    ensures EvaluateHand(state) == Some(GardeSans(false))
  {
    assert CountPoints(state, Petit(false)) == 79;
    assert CountPoints(state, Garde(false)) == 79;
    assert CountPoints(state, GardeSans(false)) == 79;
    assert CountPoints(state, GardeContre(false)) == 79;
  }

  /** The same 79 from the set of cards; with no void or singleton the low-suit contracts
      score 79 too, so the hand bids GardeSans, one point short of GardeContre. */
  lemma SampleBidsGardeSans()
    ensures CountableHand(PlayerGameState(Elems(SampleOrder)))
    ensures CountPoints(PlayerGameState(Elems(SampleOrder)), Petit(false)) == 79
    ensures EvaluateHand(PlayerGameState(Elems(SampleOrder))) == Some(GardeSans(false))
  {
    SampleTally();
    SampleDistinct();
    TallyOfEnumeration(SampleOrder);
    SampleStateCounts(PlayerGameState(Elems(SampleOrder)));
    SeventyNineBidsGardeSans(PlayerGameState(Elems(SampleOrder)));
  }
}
