/** The greedy hand assignment of the determinization sampler
    (`generate_hands` in business/game_engine/known_game_state.rs). Each card drawn goes to
    one of the seats that may still take it and that is tightest on slack (seat count left
    minus the number of cards the seat may hold); a card no seat may take goes to the kitty.
    The deck order and the choice among equally tight seats are inputs. */
module HandGeneration {
  import opened Wrappers
  import opened Seqs
  import opened EngineErrors
  import opened Cards
  import GameStates

  type HandSets = GameStates.HandSets

  type Counts = s: seq<int> | |s| == 4 witness [0, 0, 0, 0]

  /** The sampler's progress: hands so far, cards each seat still needs, kitty so far. */
  datatype Dealing = Dealing(hands: HandSets, remaining: Counts, kitty: set<Card>)

  const Seats: seq<Seat> := [0, 1, 2, 3]

  /** The elements of `s` that satisfy `f`, in order. */
  function Keep(s: seq<Seat>, f: Seat -> bool): (r: seq<Seat>)
    ensures forall x :: x in r <==> x in s && f(x)
  {
    if s == [] then [] else (if f(s[0]) then [s[0]] else []) + Keep(s[1..], f)
  }

  function Slack(possible: HandSets, remaining: Counts, p: Seat): int {
    remaining[p] - |possible[p]|
  }

  /** The seats that still need a card and may hold `card`. */
  function Candidates(possible: HandSets, remaining: Counts, card: Card): (r: seq<Seat>)
    ensures forall p: Seat :: p in r <==> remaining[p] > 0 && card in possible[p]
  {
    Keep(Seats, (p: Seat) => remaining[p] > 0 && card in possible[p])
  }

  function MinSlack(possible: HandSets, remaining: Counts, cands: seq<Seat>): (m: int)
    requires |cands| > 0
    ensures exists p | p in cands :: Slack(possible, remaining, p) == m
    ensures forall p | p in cands :: m <= Slack(possible, remaining, p)
  {
    if |cands| == 1 then Slack(possible, remaining, cands[0])
    else
      var m := MinSlack(possible, remaining, cands[1..]);
      var s := Slack(possible, remaining, cands[0]);
      if s < m then s else m
  }

  /** The candidates of least slack. */
  function Tightest(possible: HandSets, remaining: Counts, cands: seq<Seat>): (r: seq<Seat>)
    requires |cands| > 0
    ensures |r| > 0
    ensures forall p: Seat :: p in r <==>
              p in cands && forall q | q in cands :: Slack(possible, remaining, p) <= Slack(possible, remaining, q)
  {
    var m := MinSlack(possible, remaining, cands);
    var r := Keep(cands, (p: Seat) => Slack(possible, remaining, p) == m);
    var w :| w in cands && Slack(possible, remaining, w) == m;
    assert w in r;
    r
  }

  /** The seat that receives `card`: the tie-break `pick` selects among the tightest
      candidates, as `choose` does. */
  function Chosen(possible: HandSets, remaining: Counts, card: Card, pick: nat): (p: Seat)
    requires Candidates(possible, remaining, card) != []
    ensures remaining[p] > 0 && card in possible[p]
    ensures forall q: Seat | remaining[q] > 0 && card in possible[q] ::
              Slack(possible, remaining, p) <= Slack(possible, remaining, q)
  {
    var t := Tightest(possible, remaining, Candidates(possible, remaining, card));
    assert t[pick % |t|] in t;
    t[pick % |t|]
  }

  /** `card` goes to seat `p`, which needs one card fewer. */
  function Assign(d: Dealing, p: Seat, card: Card): (r: Dealing)
    ensures r.kitty == d.kitty
    ensures r.hands[p] == d.hands[p] + {card} && r.remaining[p] == d.remaining[p] - 1
    ensures forall q: Seat | q != p :: r.hands[q] == d.hands[q] && r.remaining[q] == d.remaining[q]
  {
    d.(hands := d.hands[p := d.hands[p] + {card}], remaining := d.remaining[p := d.remaining[p] - 1])
  }

  /** One turn of the loop: place one drawn card. */
  function Place(possible: HandSets, d: Dealing, card: Card, pick: nat): (r: Dealing)
    ensures Candidates(possible, d.remaining, card) == [] ==> r == d.(kitty := d.kitty + {card})
    ensures Candidates(possible, d.remaining, card) != [] ==>
              r == Assign(d, Chosen(possible, d.remaining, card, pick), card)
  {
    if Candidates(possible, d.remaining, card) == [] then d.(kitty := d.kitty + {card})
    else Assign(d, Chosen(possible, d.remaining, card, pick), card)
  }

  lemma InsertGrowsByAtMostOne(a: set<Card>, x: Card)
    ensures |a + {x}| <= |a| + 1
    ensures x !in a ==> |a + {x}| == |a| + 1
  {
    if x in a {
      assert a + {x} == a;
    }
  }

  /** From `d` to `r`: counts stay non-negative and only come down, seats only gain
      cards they may hold and never more than they needed, and the kitty only gains cards
      of `drawn`. */
  predicate Progress(possible: HandSets, d: Dealing, r: Dealing, drawn: set<Card>) {
    && (forall p: Seat :: 0 <= r.remaining[p] <= d.remaining[p])
    && (forall p: Seat :: d.hands[p] <= r.hands[p] <= d.hands[p] + possible[p])
    && (forall p: Seat :: |r.hands[p]| + r.remaining[p] <= |d.hands[p]| + d.remaining[p])
    && d.kitty <= r.kitty <= d.kitty + drawn
  }

  /** Giving `card` to a seat that needs it and may hold it is progress. */
  lemma AssignStep(possible: HandSets, d: Dealing, c: Seat, card: Card)
    requires d.remaining[c] > 0 && card in possible[c]
    requires forall p: Seat :: d.remaining[p] >= 0
    ensures Progress(possible, d, Assign(d, c, card), {card})
  {
    var r := Assign(d, c, card);
    InsertGrowsByAtMostOne(d.hands[c], card);
    forall p: Seat
      ensures 0 <= r.remaining[p] <= d.remaining[p]
      ensures d.hands[p] <= r.hands[p] <= d.hands[p] + possible[p]
      ensures |r.hands[p]| + r.remaining[p] <= |d.hands[p]| + d.remaining[p]
    {
      if p != c {
        assert r.hands[p] == d.hands[p] && r.remaining[p] == d.remaining[p];
      }
    }
  }

  lemma PlaceStep(possible: HandSets, d: Dealing, card: Card, pick: nat)
    requires forall p: Seat :: d.remaining[p] >= 0
    ensures Progress(possible, d, Place(possible, d, card, pick), {card})
  {
    if Candidates(possible, d.remaining, card) != [] {
      AssignStep(possible, d, Chosen(possible, d.remaining, card, pick), card);
    }
  }

  lemma ProgressChains(possible: HandSets, a: Dealing, b: Dealing, c: Dealing, x: set<Card>, y: set<Card>)
    requires Progress(possible, a, b, x) && Progress(possible, b, c, y)
    ensures Progress(possible, a, c, x + y)
  {
  }

  /** Progress over the first draw and over the rest is progress over all the draws. */
  lemma ProgressCons(possible: HandSets, a: Dealing, b: Dealing, c: Dealing, draws: seq<Card>)
    requires |draws| > 0
    requires Progress(possible, a, b, {draws[0]}) && Progress(possible, b, c, Elems(draws[1..]))
    ensures Progress(possible, a, c, Elems(draws))
  {
    ProgressChains(possible, a, b, c, {draws[0]}, Elems(draws[1..]));
    assert draws == [draws[0]] + draws[1..];
    assert Elems(draws) == {draws[0]} + Elems(draws[1..]);
  }

  /** The loop over the drawn cards, first draw first. */
  function Deal(possible: HandSets, d: Dealing, draws: seq<Card>, picks: seq<nat>): (r: Dealing)
    requires |picks| == |draws|
    requires forall p: Seat :: d.remaining[p] >= 0
    ensures Progress(possible, d, r, Elems(draws))
    decreases |draws|
  {
    if |draws| == 0 then d
    else
      var next := Place(possible, d, draws[0], picks[0]);
      PlaceStep(possible, d, draws[0], picks[0]);
      var r := Deal(possible, next, draws[1..], picks[1..]);
      ProgressCons(possible, d, next, r, draws);
      r
  }

  lemma DealSingle(possible: HandSets, d: Dealing, card: Card, pick: nat)
    requires forall p: Seat :: d.remaining[p] >= 0
    ensures Deal(possible, d, [card], [pick]) == Place(possible, d, card, pick)
  {
    PlaceStep(possible, d, card, pick);
    assert [card][1..] == [] && [pick][1..] == [];
  }

  lemma DealCons(possible: HandSets, d: Dealing, card: Card, draws: seq<Card>, pick: nat, picks: seq<nat>)
    requires forall p: Seat :: d.remaining[p] >= 0
    requires |draws| == |picks|
    requires forall p: Seat :: Place(possible, d, card, pick).remaining[p] >= 0
    ensures Deal(possible, d, [card] + draws, [pick] + picks) == Deal(possible, Place(possible, d, card, pick), draws, picks)
  {
    PlaceStep(possible, d, card, pick);
    assert ([card] + draws)[1..] == draws && ([pick] + picks)[1..] == picks;
  }

  /** The sampler's state after the known cards are placed. */
  function Start(known: HandSets, remaining: Counts): (d: Dealing)
    ensures d.hands == known && d.kitty == {}
    ensures forall p: Seat :: d.remaining[p] == remaining[p] - |known[p]|
  {
    Dealing(known, [remaining[0] - |known[0]|, remaining[1] - |known[1]|,
                    remaining[2] - |known[2]|, remaining[3] - |known[3]|], {})
  }

  predicate Unfilled(d: Dealing) {
    exists p: Seat :: d.remaining[p] != 0
  }

  predicate TooManyKnown(known: HandSets, remaining: Counts) {
    exists p: Seat :: |known[p]| > remaining[p]
  }

  /** The deck as the source builds it: for every seat, the cards that seat may hold and
      does not already hold, so a card several seats may hold is in it several times. */
  function DeckAsWritten(possible: HandSets, known: HandSets): multiset<Card> {
    multiset(possible[0] - known[0]) + multiset(possible[1] - known[1])
    + multiset(possible[2] - known[2]) + multiset(possible[3] - known[3])
  }

  /** The common body of `generate_hands`, for any drawing order. */
  function Generate(possible: HandSets, known: HandSets, remaining: Counts, draws: seq<Card>, picks: seq<nat>)
    : (r: Result<(HandSets, set<Card>), EngineError>)
    requires forall p: Seat :: remaining[p] >= 0
    requires |picks| == |draws|
    ensures r == Err(HandGenerationNotPossible(TooManyKnownCards)) <==> TooManyKnown(known, remaining)
    ensures r.Err? ==> r.error in {HandGenerationNotPossible(TooManyKnownCards), HandGenerationNotPossible(UnfilledHand)}
    ensures !TooManyKnown(known, remaining) ==>
              var d := Deal(possible, Start(known, remaining), draws, picks);
              (r == Err(HandGenerationNotPossible(UnfilledHand)) <==> Unfilled(d))
    ensures r.Ok? ==> forall p: Seat :: known[p] <= r.value.0[p] <= known[p] + possible[p]
    ensures r.Ok? ==> forall p: Seat :: |r.value.0[p]| <= remaining[p]
    ensures r.Ok? ==> r.value.1 <= Elems(draws)
  {
    if TooManyKnown(known, remaining) then Err(HandGenerationNotPossible(TooManyKnownCards))
    else
      var d := Deal(possible, Start(known, remaining), draws, picks);
      if Unfilled(d) then Err(HandGenerationNotPossible(UnfilledHand))
      else
        assert forall p: Seat :: |d.hands[p]| <= remaining[p] by {
          assert forall p: Seat :: d.remaining[p] == 0;
        }
        Ok((d.hands, d.kitty))
  }

  /** `generate_hands`, with `draws` the shuffled deck in the order `pop` takes it and
      `picks` the tie-breaks of `choose`. */
  function GenerateHands(possible: HandSets, known: HandSets, remaining: Counts, draws: seq<Card>, picks: seq<nat>)
    : (r: Result<(HandSets, set<Card>), EngineError>)
    requires forall p: Seat :: remaining[p] >= 0
    requires multiset(draws) == DeckAsWritten(possible, known)
    requires |picks| == |draws|
    ensures r == Err(HandGenerationNotPossible(TooManyKnownCards)) <==> TooManyKnown(known, remaining)
    ensures r.Err? ==> r.error in {HandGenerationNotPossible(TooManyKnownCards), HandGenerationNotPossible(UnfilledHand)}
    ensures r.Ok? ==> forall p: Seat :: known[p] <= r.value.0[p] <= known[p] + possible[p]
    ensures r.Ok? ==> forall p: Seat :: |r.value.0[p]| <= remaining[p]
    ensures r.Ok? ==> forall c | c in r.value.1 :: exists p: Seat :: c in possible[p] && c !in known[p]
  {
    var r := Generate(possible, known, remaining, draws, picks);
    assert r.Ok? ==> forall c | c in r.value.1 :: exists p: Seat :: c in possible[p] && c !in known[p] by {
      if r.Ok? {
        forall c | c in r.value.1
          ensures exists p: Seat :: c in possible[p] && c !in known[p]
        {
          assert c in multiset(draws);
          DeckAsWrittenMember(possible, known, c);
        }
      }
    }
    r
  }

  lemma DeckAsWrittenMember(possible: HandSets, known: HandSets, c: Card)
    requires c in DeckAsWritten(possible, known)
    ensures exists p: Seat :: c in possible[p] && c !in known[p]
  {
    if c in possible[0] - known[0] {
      assert c in possible[0] && c !in known[0];
    } else if c in possible[1] - known[1] {
      assert c in possible[1] && c !in known[1];
    } else if c in possible[2] - known[2] {
      assert c in possible[2] && c !in known[2];
    } else {
      assert c in possible[3] && c !in known[3];
    }
  }

  /** A card that exactly one seat can take goes to that seat, whatever the tie-break. */
  lemma OnlyCandidate(possible: HandSets, d: Dealing, card: Card, pick: nat, c: Seat)
    requires d.remaining[c] > 0 && card in possible[c]
    requires forall p: Seat | p != c :: d.remaining[p] <= 0
    ensures Place(possible, d, card, pick) == Assign(d, c, card)
  {
    assert c in Candidates(possible, d.remaining, card);
  }

  /** Two draws are two placements. */
  lemma DealTwo(possible: HandSets, d: Dealing, card: Card, pick1: nat, pick2: nat)
    requires forall p: Seat :: d.remaining[p] >= 0
    ensures Deal(possible, d, [card, card], [pick1, pick2])
         == Place(possible, Place(possible, d, card, pick1), card, pick2)
  {
    PlaceStep(possible, d, card, pick1);
    DealCons(possible, d, card, [card], pick1, [pick2]);
    DealSingle(possible, Place(possible, d, card, pick1), card, pick2);
  }

  /** The needs of seats 0 and 1 are one card each and nobody else needs any. */
  predicate NeedsOneEach(d: Dealing) {
    d.remaining[0] == 1 && d.remaining[1] == 1 && d.remaining[2] == 0 && d.remaining[3] == 0
  }

  lemma NeedsOneEachNonNegative(d: Dealing)
    requires NeedsOneEach(d)
    ensures forall p: Seat :: d.remaining[p] >= 0
  {
    forall p: Seat
      ensures d.remaining[p] >= 0
    {
      if p == 0 {} else if p == 1 {} else if p == 2 {} else {}
    }
  }

  /** The first of two copies goes to seat 0 or seat 1. */
  lemma FirstCopy(possible: HandSets, d: Dealing, card: Card, pick: nat) returns (c: Seat)
    requires card in possible[0] && card in possible[1] && NeedsOneEach(d)
    ensures c <= 1 && Place(possible, d, card, pick) == Assign(d, c, card)
  {
    assert 0 in Candidates(possible, d.remaining, card);
    c := Chosen(possible, d.remaining, card, pick);
    assert c != 2 && c != 3;
  }

  /** After seat `c` took one copy, only seat `o` still needs a card; after `o` takes the
      second copy, both hold the card and nobody needs any. */
  lemma TwoAssigns(d: Dealing, c: Seat, o: Seat, card: Card)
    requires NeedsOneEach(d) && c <= 1 && o == 1 - c
    ensures var first := Assign(d, c, card);
      && first.remaining[o] > 0
      && (forall p: Seat | p != o :: first.remaining[p] <= 0)
    ensures var second := Assign(Assign(d, c, card), o, card);
      && card in second.hands[0] && card in second.hands[1]
      && forall p: Seat :: second.remaining[p] == 0
  {
    var first := Assign(d, c, card);
    var second := Assign(first, o, card);
    forall p: Seat
      ensures p != o ==> first.remaining[p] <= 0
      ensures second.remaining[p] == 0
    {
      if p != c && p != o {
        assert first.remaining[p] == d.remaining[p];
      }
    }
    assert card in second.hands[c];
  }

  /** Seats 0 and 1 may both hold `card` and each needs one card; nobody else needs any.
      Drawing `card` twice gives it to one of them and then to the other. */
  lemma SharedCardDealtTwice(possible: HandSets, d: Dealing, card: Card, pick1: nat, pick2: nat)
    requires card in possible[0] && card in possible[1] && NeedsOneEach(d)
    ensures var r := Deal(possible, d, [card, card], [pick1, pick2]);
      card in r.hands[0] && card in r.hands[1] && forall p: Seat :: r.remaining[p] == 0
  {
    var c := FirstCopy(possible, d, card, pick1);
    var o: Seat := 1 - c;
    TwoAssigns(d, c, o, card);
    OnlyCandidate(possible, Assign(d, c, card), card, pick2, o);
    NeedsOneEachNonNegative(d);
    DealTwo(possible, d, card, pick1, pick2);
  }

  const TwinCard := Card(Heart, 1)
  /** Seats 0 and 1 may both hold `TwinCard`. */
  const TwinPossible: HandSets := [{TwinCard}, {TwinCard}, {}, {}]
  const NoneKnown: HandSets := [{}, {}, {}, {}]

  /** A card two seats may hold is in the deck as written twice; when both seats need one
      card, generation succeeds with that card in both hands, whatever the tie-breaks. */
  lemma DuplicateDeckDealsCardTwice(pick1: nat, pick2: nat)
    ensures multiset([TwinCard, TwinCard]) == DeckAsWritten(TwinPossible, NoneKnown)
    ensures var r := GenerateHands(TwinPossible, NoneKnown, [1, 1, 0, 0], [TwinCard, TwinCard], [pick1, pick2]);
      r.Ok? && TwinCard in r.value.0[0] && TwinCard in r.value.0[1]
  {
    assert TwinPossible[0] - NoneKnown[0] == {TwinCard} && TwinPossible[2] - NoneKnown[2] == {};
    assert DeckAsWritten(TwinPossible, NoneKnown) == multiset{TwinCard, TwinCard};
    var counts: Counts := [1, 1, 0, 0];
    var start := Start(NoneKnown, counts);
    assert NeedsOneEach(start) by {
      assert |NoneKnown[0]| == 0 && |NoneKnown[1]| == 0 && |NoneKnown[2]| == 0 && |NoneKnown[3]| == 0;
    }
    NeedsOneEachNonNegative(start);
    SharedCardDealtTwice(TwinPossible, start, TwinCard, pick1, pick2);
    var d := Deal(TwinPossible, start, [TwinCard, TwinCard], [pick1, pick2]);
    assert !Unfilled(d);
    assert !TooManyKnown(NoneKnown, counts) by {
      forall p: Seat
        ensures |NoneKnown[p]| <= counts[p]
      {
        if p == 0 {} else if p == 1 {} else if p == 2 {} else {}
      }
    }
    assert GenerateHands(TwinPossible, NoneKnown, counts, [TwinCard, TwinCard], [pick1, pick2]) == Ok((d.hands, d.kitty));
  }

  /** Only seat 0 needs cards, `k` of them. */
  predicate SoleNeed(d: Dealing, k: int) {
    d.remaining[0] == k && d.remaining[1] == 0 && d.remaining[2] == 0 && d.remaining[3] == 0
  }

  lemma SoleNeedFacts(d: Dealing, k: nat)
    requires SoleNeed(d, k)
    ensures forall p: Seat | p != 0 :: d.remaining[p] <= 0
    ensures forall p: Seat :: d.remaining[p] >= 0
  {
    forall p: Seat
      ensures p != 0 ==> d.remaining[p] <= 0
      ensures d.remaining[p] >= 0
    {
      if p == 0 {} else if p == 1 {} else if p == 2 {} else {}
    }
  }

  lemma SoleNeedMet(d: Dealing)
    requires SoleNeed(d, 0)
    ensures !Unfilled(d)
  {
    forall p: Seat
      ensures d.remaining[p] == 0
    {
      if p == 0 {} else if p == 1 {} else if p == 2 {} else {}
    }
  }

  lemma AssignSole(d: Dealing, k: int, card: Card)
    requires SoleNeed(d, k)
    ensures SoleNeed(Assign(d, 0, card), k - 1)
  {
    var r := Assign(d, 0, card);
    assert r.remaining[1] == d.remaining[1];
    assert r.remaining[2] == d.remaining[2];
    assert r.remaining[3] == d.remaining[3];
  }

  /** When only seat 0 needs cards, two of them, and it may hold `card`, drawing `card`
      twice gives it to seat 0 both times: its need drops to zero while its hand gains one
      card. */
  lemma SoleSeatTakesBothCopies(possible: HandSets, d: Dealing, card: Card, pick1: nat, pick2: nat)
    requires card in possible[0] && SoleNeed(d, 2)
    ensures forall p: Seat :: d.remaining[p] >= 0
    ensures var r := Deal(possible, d, [card, card], [pick1, pick2]);
      r.hands[0] == d.hands[0] + {card} && SoleNeed(r, 0)
  {
    SoleNeedFacts(d, 2);
    OnlyCandidate(possible, d, card, pick1, 0);
    var first := Assign(d, 0, card);
    AssignSole(d, 2, card);
    SoleNeedFacts(first, 1);
    OnlyCandidate(possible, first, card, pick2, 0);
    AssignSole(first, 1, card);
    DealTwo(possible, d, card, pick1, pick2);
  }

  /** The other face of the same duplicate: when seat 0 alone needs cards, two of them,
      both copies of `TwinCard` go to seat 0. Its need comes down to zero, so no
      UnfilledHand error is raised, yet its hand holds one card. */
  lemma DuplicateDeckLeavesSeatShort(pick1: nat, pick2: nat)
    ensures var r := GenerateHands(TwinPossible, NoneKnown, [2, 0, 0, 0], [TwinCard, TwinCard], [pick1, pick2]);
      r.Ok? && r.value.0[0] == {TwinCard} && |r.value.0[0]| == 1
  {
    assert TwinPossible[0] - NoneKnown[0] == {TwinCard} && TwinPossible[2] - NoneKnown[2] == {};
    assert DeckAsWritten(TwinPossible, NoneKnown) == multiset{TwinCard, TwinCard};
    var counts: Counts := [2, 0, 0, 0];
    var start := Start(NoneKnown, counts);
    assert |NoneKnown[0]| == 0 && |NoneKnown[1]| == 0 && |NoneKnown[2]| == 0 && |NoneKnown[3]| == 0;
    assert SoleNeed(start, 2);
    SoleSeatTakesBothCopies(TwinPossible, start, TwinCard, pick1, pick2);
    var d := Deal(TwinPossible, start, [TwinCard, TwinCard], [pick1, pick2]);
    SoleNeedMet(d);
    assert d.hands[0] == {TwinCard};
    assert !TooManyKnown(NoneKnown, counts) by {
      forall p: Seat
        ensures |NoneKnown[p]| <= counts[p]
      {
        if p == 0 {} else if p == 1 {} else if p == 2 {} else {}
      }
    }
    assert GenerateHands(TwinPossible, NoneKnown, counts, [TwinCard, TwinCard], [pick1, pick2]) == Ok((d.hands, d.kitty));
  }

  /** The deck with every card a seat may still take exactly once. */
  function DeckOnce(possible: HandSets, known: HandSets): set<Card> {
    (possible[0] - known[0]) + (possible[1] - known[1]) + (possible[2] - known[2]) + (possible[3] - known[3])
  }

  /** No card in two hands, nor in a hand and the kitty. */
  predicate Apart(d: Dealing) {
    && (forall p: Seat, q: Seat | p < q :: d.hands[p] !! d.hands[q])
    && (forall p: Seat :: d.hands[p] !! d.kitty)
  }

  /** Every card placed so far. */
  function Holdings(d: Dealing): set<Card> {
    d.hands[0] + d.hands[1] + d.hands[2] + d.hands[3] + d.kitty
  }

  lemma HoldingsMembership(d: Dealing, y: Card)
    ensures y in Holdings(d) <==> y in d.kitty || exists p: Seat :: y in d.hands[p]
  {
    if y in d.hands[0] || y in d.hands[1] || y in d.hands[2] || y in d.hands[3] {
    }
  }

  lemma AssignHoldings(d: Dealing, c: Seat, card: Card)
    ensures Holdings(Assign(d, c, card)) == Holdings(d) + {card}
  {
    var r := Assign(d, c, card);
    forall y
      ensures y in Holdings(r) <==> y in Holdings(d) + {card}
    {
      HoldingsMembership(r, y);
      HoldingsMembership(d, y);
      if y != card && exists p: Seat :: y in r.hands[p] {
        var p: Seat :| y in r.hands[p];
        assert y in d.hands[p];
      }
      if y in d.hands[c] {
        assert y in r.hands[c];
      }
    }
  }

  lemma AssignApart(d: Dealing, c: Seat, card: Card)
    requires Apart(d) && card !in Holdings(d)
    ensures Apart(Assign(d, c, card))
  {
    var r := Assign(d, c, card);
    HoldingsMembership(d, card);
    forall p: Seat, q: Seat | p < q
      ensures r.hands[p] !! r.hands[q]
    {
      assert r.hands[p] <= d.hands[p] + {card} && r.hands[q] <= d.hands[q] + {card};
      assert card !in d.hands[p] && card !in d.hands[q];
      assert p != c ==> r.hands[p] == d.hands[p];
      assert q != c ==> r.hands[q] == d.hands[q];
    }
    forall p: Seat
      ensures r.hands[p] !! r.kitty
    {
      assert r.hands[p] <= d.hands[p] + {card};
    }
  }

  lemma AssignFresh(d: Dealing, c: Seat, card: Card)
    requires Apart(d) && card !in Holdings(d)
    ensures var r := Assign(d, c, card);
      && Apart(r)
      && Holdings(r) == Holdings(d) + {card}
      && forall p: Seat :: |r.hands[p]| + r.remaining[p] == |d.hands[p]| + d.remaining[p]
  {
    HoldingsMembership(d, card);
    InsertGrowsByAtMostOne(d.hands[c], card);
    AssignHoldings(d, c, card);
    AssignApart(d, c, card);
  }

  /** From `d` to `r` every card of `drawn` was placed exactly once: the seats stay apart,
      and a seat's hand grows by exactly as much as its count comes down. */
  predicate Conserves(d: Dealing, r: Dealing, drawn: set<Card>) {
    && Apart(r)
    && Holdings(r) == Holdings(d) + drawn
    && forall p: Seat :: |r.hands[p]| + r.remaining[p] == |d.hands[p]| + d.remaining[p]
  }

  lemma ConservesChains(a: Dealing, b: Dealing, c: Dealing, x: set<Card>, y: set<Card>)
    requires Conserves(a, b, x) && Conserves(b, c, y)
    ensures Conserves(a, c, x + y)
  {
  }

  /** A card not yet placed is placed once. */
  lemma PlaceFresh(possible: HandSets, d: Dealing, card: Card, pick: nat)
    requires Apart(d) && card !in Holdings(d)
    ensures Conserves(d, Place(possible, d, card, pick), {card})
  {
    if Candidates(possible, d.remaining, card) != [] {
      AssignFresh(d, Chosen(possible, d.remaining, card, pick), card);
    } else {
      HoldingsMembership(d, card);
    }
  }

  /** Dealing distinct fresh cards keeps every card in one place and fills each seat by
      exactly the amount its count comes down. */
  lemma {:induction false} DealKeepsCardsApart(possible: HandSets, d: Dealing, draws: seq<Card>, picks: seq<nat>)
    requires |picks| == |draws|
    requires forall p: Seat :: d.remaining[p] >= 0
    requires Distinct(draws) && Elems(draws) !! Holdings(d) && Apart(d)
    ensures Conserves(d, Deal(possible, d, draws, picks), Elems(draws))
    decreases |draws|
  {
    if |draws| > 0 {
      var next := Place(possible, d, draws[0], picks[0]);
      PlaceStep(possible, d, draws[0], picks[0]);
      PlaceFresh(possible, d, draws[0], picks[0]);
      DistinctCons(draws);
      assert Elems(draws) == {draws[0]} + Elems(draws[1..]);
      assert Elems(draws[1..]) !! Holdings(next);
      DealKeepsCardsApart(possible, next, draws[1..], picks[1..]);
      ConservesChains(d, next, Deal(possible, next, draws[1..], picks[1..]), {draws[0]}, Elems(draws[1..]));
    } else {
      assert Holdings(d) + Elems(draws) == Holdings(d);
    }
  }

  lemma StartIsFresh(possible: HandSets, known: HandSets, remaining: Counts, draws: seq<Card>)
    requires forall p: Seat, q: Seat | p < q :: known[p] !! known[q]
    requires forall p: Seat, q: Seat :: possible[p] !! known[q]
    requires Enumerates(draws, DeckOnce(possible, known))
    ensures Apart(Start(known, remaining))
    ensures Elems(draws) !! Holdings(Start(known, remaining))
  {
    var start := Start(known, remaining);
    forall c | c in Elems(draws)
      ensures c !in Holdings(start)
    {
      HoldingsMembership(start, c);
    }
  }

  /** A successful generation from a deck holding each card once: every seat holds its
      known cards plus cards it may hold, exactly as many as it needs, no card is in two
      places, the kitty holds only deck cards, and every known or deck card ends up in a
      hand or in the kitty. */
  predicate SplitsPool(possible: HandSets, known: HandSets, remaining: Counts, hands: HandSets, kitty: set<Card>) {
    && (forall p: Seat :: known[p] <= hands[p] <= known[p] + possible[p])
    && (forall p: Seat :: |hands[p]| == remaining[p])
    && (forall p: Seat, q: Seat | p < q :: hands[p] !! hands[q])
    && (forall p: Seat :: hands[p] !! kitty)
    && kitty <= DeckOnce(possible, known)
    && hands[0] + hands[1] + hands[2] + hands[3] + kitty
       == known[0] + known[1] + known[2] + known[3] + DeckOnce(possible, known)
  }

  lemma FilledDealSplits(possible: HandSets, known: HandSets, remaining: Counts, d: Dealing, draws: seq<Card>)
    requires Elems(draws) == DeckOnce(possible, known)
    requires Progress(possible, Start(known, remaining), d, Elems(draws))
    requires Conserves(Start(known, remaining), d, Elems(draws))
    requires !Unfilled(d)
    ensures SplitsPool(possible, known, remaining, d.hands, d.kitty)
  {
    assert forall p: Seat :: d.remaining[p] == 0;
    DealCoversPool(possible, known, remaining, d, draws);
  }

  /** The cards placed are the known ones and the drawn ones. */
  lemma DealCoversPool(possible: HandSets, known: HandSets, remaining: Counts, d: Dealing, draws: seq<Card>)
    requires Elems(draws) == DeckOnce(possible, known)
    requires Conserves(Start(known, remaining), d, Elems(draws))
    ensures d.hands[0] + d.hands[1] + d.hands[2] + d.hands[3] + d.kitty
            == known[0] + known[1] + known[2] + known[3] + DeckOnce(possible, known)
  {
    assert Holdings(Start(known, remaining)) == known[0] + known[1] + known[2] + known[3];
  }

  /** On a deck holding each card once, a successful generation splits the pool. */
  lemma GenerateOnceSplitsPool(possible: HandSets, known: HandSets, remaining: Counts, draws: seq<Card>, picks: seq<nat>)
    requires forall p: Seat :: remaining[p] >= 0
    requires forall p: Seat, q: Seat | p < q :: known[p] !! known[q]
    requires forall p: Seat, q: Seat :: possible[p] !! known[q]
    requires Enumerates(draws, DeckOnce(possible, known))
    requires |picks| == |draws|
    ensures var r := Generate(possible, known, remaining, draws, picks);
      r.Ok? ==> SplitsPool(possible, known, remaining, r.value.0, r.value.1)
  {
    if !TooManyKnown(known, remaining) {
      var start := Start(known, remaining);
      StartIsFresh(possible, known, remaining, draws);
      DealKeepsCardsApart(possible, start, draws, picks);
      var d := Deal(possible, start, draws, picks);
      if !Unfilled(d) {
        FilledDealSplits(possible, known, remaining, d, draws);
      }
    }
  }

  /** `generate_hands` with the deck holding each card once. */
  function GenerateHandsOnce(possible: HandSets, known: HandSets, remaining: Counts, draws: seq<Card>, picks: seq<nat>)
    : (r: Result<(HandSets, set<Card>), EngineError>)
    requires forall p: Seat :: remaining[p] >= 0
    requires forall p: Seat, q: Seat | p < q :: known[p] !! known[q]
    requires forall p: Seat, q: Seat :: possible[p] !! known[q]
    requires Enumerates(draws, DeckOnce(possible, known))
    requires |picks| == |draws|
    ensures r == Err(HandGenerationNotPossible(TooManyKnownCards)) <==> TooManyKnown(known, remaining)
    ensures r.Ok? ==> SplitsPool(possible, known, remaining, r.value.0, r.value.1)
  {
    GenerateOnceSplitsPool(possible, known, remaining, draws, picks);
    Generate(possible, known, remaining, draws, picks)
  }
}
