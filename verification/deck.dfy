/** The full 78-card deck (`Card::all_possibles`, defined outside the modelled files):
    the 56 suit cards, the 21 trumps and the Excuse, which the model places at value 0. */
module Deck {
  import opened Wrappers
  import opened Seqs
  import opened Cards

  const DeckSize := 78

  /** The i-th card of the canonical deck order: spades, hearts, diamonds and clubs from
      1 to 14, then trumps from 1 to 21, then the Excuse. */
  function DeckCard(i: int): Card
    requires 0 <= i < DeckSize
  {
    if i < 14 then Card(Spade, i + 1)
    else if i < 28 then Card(Heart, i - 13)
    else if i < 42 then Card(Diamond, i - 27)
    else if i < 56 then Card(Club, i - 41)
    else if i < 77 then Card(Trump, i - 55)
    else Card(Excuse, 0)
  }

  /** A card that occurs in the deck. */
  predicate InDeckRange(c: Card) {
    Valid(c) && (c.color == Excuse ==> c.value == 0)
  }

  /** Position of a deck card in the canonical order. */
  function DeckIndex(c: Card): (i: int)
    requires InDeckRange(c)
    ensures 0 <= i < DeckSize && DeckCard(i) == c
  {
    match c.color
    case Spade => c.value - 1
    case Heart => 14 + c.value - 1
    case Diamond => 28 + c.value - 1
    case Club => 42 + c.value - 1
    case Trump => 55 + c.value
    case Excuse => 77
  }

  function DeckOrder(): (s: seq<Card>)
    ensures |s| == DeckSize
    ensures forall i | 0 <= i < DeckSize :: s[i] == DeckCard(i)
  {
    seq(DeckSize, i requires 0 <= i < DeckSize => DeckCard(i))
  }

  /** `Card::all_possibles`. */
  function AllPossibles(): set<Card> {
    Elems(DeckOrder())
  }

  lemma DeckCardInRange(i: int)
    requires 0 <= i < DeckSize
    ensures InDeckRange(DeckCard(i)) && DeckIndex(DeckCard(i)) == i
  {
  }

  /** The deck holds exactly the cards `validate` accepts, with the Excuse at value 0. */
  lemma DeckIsValidCards(c: Card)
    ensures c in AllPossibles() <==> InDeckRange(c)
  {
    if c in AllPossibles() {
      var i :| 0 <= i < DeckSize && DeckOrder()[i] == c;
      DeckCardInRange(i);
    }
    if InDeckRange(c) {
      assert DeckOrder()[DeckIndex(c)] == c;
    }
  }

  lemma DeckDistinct()
    ensures Distinct(DeckOrder())
  {
    forall i, j | 0 <= i < j < DeckSize
      ensures DeckOrder()[i] != DeckOrder()[j]
    {
      DeckCardInRange(i);
      DeckCardInRange(j);
    }
  }

  /** The deck holds 78 distinct cards. */
  lemma DeckCardinality()
    ensures |AllPossibles()| == DeckSize
  {
    DeckDistinct();
    DistinctCard(DeckOrder());
  }

  function SumPoints(s: seq<Card>): nat {
    if s == [] then 0 else Points(s[0]) + SumPoints(s[1..])
  }

  function DeckPointsFrom(i: int): nat
    requires 0 <= i <= DeckSize
    decreases DeckSize - i
  {
    if i == DeckSize then 0 else Points(DeckCard(i)) + DeckPointsFrom(i + 1)
  }

  lemma {:induction false} DeckPointsSuffix(i: int)
    requires 0 <= i <= DeckSize
    ensures SumPoints(DeckOrder()[i..]) == DeckPointsFrom(i)
    decreases DeckSize - i
  {
    if i < DeckSize {
      assert DeckOrder()[i..][1..] == DeckOrder()[i + 1..];
      DeckPointsSuffix(i + 1);
    }
  }

  lemma TrumpsAndExcusePoints()
    ensures DeckPointsFrom(56) == 46
  {
    assert DeckPointsFrom(76) == 18;
    assert DeckPointsFrom(74) == 20;
    assert DeckPointsFrom(72) == 22;
    assert DeckPointsFrom(70) == 24;
    assert DeckPointsFrom(68) == 26;
    assert DeckPointsFrom(66) == 28;
    assert DeckPointsFrom(64) == 30;
    assert DeckPointsFrom(62) == 32;
    assert DeckPointsFrom(60) == 34;
    assert DeckPointsFrom(58) == 36;
  }

  lemma ClubPoints()
    ensures DeckPointsFrom(42) == 80
  {
    TrumpsAndExcusePoints();
    assert DeckPointsFrom(54) == 62;
    assert DeckPointsFrom(52) == 70;
    assert DeckPointsFrom(50) == 72;
    assert DeckPointsFrom(48) == 74;
    assert DeckPointsFrom(46) == 76;
    assert DeckPointsFrom(44) == 78;
  }

  lemma DiamondPoints()
    ensures DeckPointsFrom(28) == 114
  {
    ClubPoints();
    assert DeckPointsFrom(40) == 96;
    assert DeckPointsFrom(38) == 104;
    assert DeckPointsFrom(36) == 106;
    assert DeckPointsFrom(34) == 108;
    assert DeckPointsFrom(32) == 110;
    assert DeckPointsFrom(30) == 112;
  }

  lemma HeartPoints()
    ensures DeckPointsFrom(14) == 148
  {
    DiamondPoints();
    assert DeckPointsFrom(26) == 130;
    assert DeckPointsFrom(24) == 138;
    assert DeckPointsFrom(22) == 140;
    assert DeckPointsFrom(20) == 142;
    assert DeckPointsFrom(18) == 144;
    assert DeckPointsFrom(16) == 146;
  }

  lemma SpadePoints()
    ensures DeckPointsFrom(0) == 182
  {
    HeartPoints();
    assert DeckPointsFrom(12) == 164;
    assert DeckPointsFrom(10) == 172;
    assert DeckPointsFrom(8) == 174;
    assert DeckPointsFrom(6) == 176;
    assert DeckPointsFrom(4) == 178;
    assert DeckPointsFrom(2) == 180;
  }

  /** The deck is worth 182 points on the engine's doubled scale (91 in the game's own
      half-point count). */
  lemma DeckTotalPoints()
    ensures SumPoints(DeckOrder()) == 182
  {
    DeckPointsSuffix(0);
    assert DeckOrder()[0..] == DeckOrder();
    SpadePoints();
  }
}
