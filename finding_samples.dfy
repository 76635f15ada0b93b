/**
 * The hands that show where the evaluator of PokerGame.py departs from the hand
 * rankings, and the plain counting facts about them.
 * Ranks: 2 is 1, 3 is 2, ..., King is 12, Ace is 13.
 */
module FindingSamples {
  import opened Wrappers
  import opened Cards

  /** A K 5 4 3 2: the wheel, with a King beside it. */
  const WheelHand: seq<Card> :=
    [Card(13, Spades), Card(12, Hearts), Card(4, Diamonds), Card(3, Clubs), Card(2, Spades), Card(1, Hearts)]

  lemma WheelHandRanks()
    ensures Ranks(WheelHand) == {13, 12, 4, 3, 2, 1}
  {
  }

  /** A A A K K K 2: two sets of three. */
  const TwoTripsHand: seq<Card> :=
    [Card(13, Spades), Card(13, Hearts), Card(13, Diamonds), Card(12, Clubs), Card(12, Spades), Card(12, Hearts),
     Card(1, Clubs)]

  lemma TwoTripsHandRanks()
    ensures Ranks(TwoTripsHand) == {13, 12, 1}
  {
  }

  lemma TwoTripsHandAces()
    ensures CountRank(TwoTripsHand, 13) == 3
  {
  }

  lemma TwoTripsHandKings()
    ensures CountRank(TwoTripsHand, 12) == 3
  {
  }

  lemma TwoTripsHandTwos()
    ensures CountRank(TwoTripsHand, 1) == 1
  {
  }

  lemma TwoTripsHandSuits()
    ensures CountSuit(TwoTripsHand, Clubs) == 2 && CountSuit(TwoTripsHand, Diamonds) == 1
    ensures CountSuit(TwoTripsHand, Hearts) == 2 && CountSuit(TwoTripsHand, Spades) == 2
  {
  }

  lemma TwoTripsHandFirsts()
    ensures FirstOfRank(TwoTripsHand, 13) == Card(13, Spades)
    ensures FirstOfRank(TwoTripsHand, 12) == Card(12, Clubs)
  {
    TwoTripsHandRanks();
  }

  /** 5 5 A K Q 3 3: two pairs, the lower one below the three highest other cards. */
  const SplitPairsHand: seq<Card> :=
    [Card(4, Hearts), Card(4, Diamonds), Card(13, Clubs), Card(12, Clubs), Card(11, Hearts), Card(2, Clubs), Card(2, Spades)]

  /** The cards beside the fives: A K Q 3 3. */
  const SplitPairsRest: seq<Card> := [Card(13, Clubs), Card(12, Clubs), Card(11, Hearts), Card(2, Clubs), Card(2, Spades)]

  /** A K Q. */
  const SplitPairsTop: seq<Card> := [Card(13, Clubs), Card(12, Clubs), Card(11, Hearts)]

  lemma SplitPairsHandRanks()
    ensures Ranks(SplitPairsHand) == {4, 13, 12, 11, 2}
  {
  }

  lemma SplitPairsHandFives()
    ensures CountRank(SplitPairsHand, 4) == 2
  {
  }

  lemma SplitPairsHandThrees()
    ensures CountRank(SplitPairsHand, 2) == 2
  {
  }

  lemma SplitPairsHandAce()
    ensures CountRank(SplitPairsHand, 13) == 1
  {
  }

  lemma SplitPairsHandKing()
    ensures CountRank(SplitPairsHand, 12) == 1
  {
  }

  lemma SplitPairsHandQueen()
    ensures CountRank(SplitPairsHand, 11) == 1
  {
  }

  lemma SplitPairsHandSuits()
    ensures CountSuit(SplitPairsHand, Clubs) == 3 && CountSuit(SplitPairsHand, Diamonds) == 1
    ensures CountSuit(SplitPairsHand, Hearts) == 2 && CountSuit(SplitPairsHand, Spades) == 1
  {
  }

  lemma SplitPairsHandRest()
    ensures WithoutRank(SplitPairsHand, 4) == SplitPairsRest
  {
    assert SplitPairsHand == [Card(4, Hearts), Card(4, Diamonds)] + SplitPairsRest;
    WithoutLeadingRank([Card(4, Hearts), Card(4, Diamonds)], SplitPairsRest, 4);
    WithoutAbsentRank(SplitPairsRest, 4);
  }

  /** The three highest cards beside the fives are A K Q. */
  lemma SplitPairsHandKickers()
    ensures Top(SplitPairsRest, 3) == SplitPairsTop
  {
    SplitPairsRestSorted();
    TopOfSorted(SplitPairsRest, 3);
  }

  lemma SplitPairsRestSorted()
    ensures SortedDesc(SplitPairsRest)
  {
  }

  lemma SplitPairsRestCounts()
    ensures Ranks(SplitPairsRest) == {13, 12, 11, 2}
    ensures CountRank(SplitPairsRest, 2) == 2
    ensures FirstOfRank(SplitPairsRest, 2) == Card(2, Clubs)
  {
  }

  lemma SplitPairsRestSingles()
    ensures CountRank(SplitPairsRest, 13) == 1 && CountRank(SplitPairsRest, 12) == 1 && CountRank(SplitPairsRest, 11) == 1
  {
  }

  lemma SplitPairsRestWithoutThrees()
    ensures WithoutRank(SplitPairsRest, 2) == SplitPairsTop
  {
  }

  /** A K Q: one card of each rank, in order. */
  lemma SplitPairsTopFacts()
    ensures Ranks(SplitPairsTop) == {13, 12, 11}
    ensures CountRank(SplitPairsTop, 13) == 1 && CountRank(SplitPairsTop, 12) == 1 && CountRank(SplitPairsTop, 11) == 1
  {
  }

  lemma SplitPairsTopSorted()
    ensures Top(SplitPairsTop, 3) == SplitPairsTop
  {
    assert SortedDesc(SplitPairsTop);
    TopOfSorted(SplitPairsTop, 3);
  }
  /** What the evaluator needs to know about A A A K K K 2. */
  predicate TwoTripsShape(cards: seq<Card>)
  {
    && Ranks(cards) == {13, 12, 1}
    && CountRank(cards, 13) == 3 && CountRank(cards, 12) == 3 && CountRank(cards, 1) == 1
    && FirstOfRank(cards, 13) == Card(13, Spades) && FirstOfRank(cards, 12) == Card(12, Clubs)
    && CountSuit(cards, Clubs) == 2 && CountSuit(cards, Diamonds) == 1
    && CountSuit(cards, Hearts) == 2 && CountSuit(cards, Spades) == 2
  }

  lemma TwoTripsHandShape()
    ensures TwoTripsShape(TwoTripsHand)
  {
    TwoTripsHandRanks();
    TwoTripsHandAces();
    TwoTripsHandKings();
    TwoTripsHandTwos();
    TwoTripsHandFirsts();
    TwoTripsHandSuits();
  }

  /** The ranks of 5 5 A K Q 3 3 and how often each is held. */
  predicate SplitPairsRanks(cards: seq<Card>)
  {
    && Ranks(cards) == {4, 13, 12, 11, 2}
    && CountRank(cards, 4) == 2 && CountRank(cards, 2) == 2
    && CountRank(cards, 13) == 1 && CountRank(cards, 12) == 1 && CountRank(cards, 11) == 1
  }

  /** What the evaluator needs to know about 5 5 A K Q 3 3. */
  predicate SplitPairsShape(cards: seq<Card>)
  {
    && SplitPairsRanks(cards)
    && FirstOfRank(cards, 4) == Card(4, Hearts)
    && WithoutRank(cards, 4) == SplitPairsRest
    && CountSuit(cards, Clubs) == 3 && CountSuit(cards, Diamonds) == 1
    && CountSuit(cards, Hearts) == 2 && CountSuit(cards, Spades) == 1
  }

  lemma SplitPairsHandShape()
    ensures SplitPairsShape(SplitPairsHand)
  {
    SplitPairsHandRanks();
    SplitPairsHandFives();
    SplitPairsHandThrees();
    SplitPairsHandAce();
    SplitPairsHandKing();
    SplitPairsHandQueen();
    SplitPairsHandRest();
    SplitPairsHandSuits();
    assert FirstOfRank(SplitPairsHand, 4) == Card(4, Hearts);
  }

  /** No rank of A A A K K K 2 is held exactly two or four times, and none from 6 to Jack at all. */
  lemma TwoTripsCounts(cards: seq<Card>)
    requires TwoTripsShape(cards)
    ensures forall q :: CountRank(cards, q) != 2 && CountRank(cards, q) != 4
    ensures forall q | 5 <= q <= 10 :: q !in Ranks(cards)
  {
    forall q ensures CountRank(cards, q) != 2 && CountRank(cards, q) != 4 {
      TwoTripsCountAt(cards, q);
    }
  }

  lemma TwoTripsCountAt(cards: seq<Card>, q: int)
    requires TwoTripsShape(cards)
    ensures CountRank(cards, q) != 2 && CountRank(cards, q) != 4
  {
    if q != 13 && q != 12 && q != 1 {
      assert q !in Ranks(cards);
    }
  }

  /** In 5 5 A K Q 3 3 no rank is held more than twice, exactly the fives and threes twice, none from 6 to Jack. */
  lemma SplitPairsCounts(cards: seq<Card>)
    requires SplitPairsRanks(cards)
    ensures forall q :: CountRank(cards, q) <= 2
    ensures forall q :: CountRank(cards, q) == 2 <==> q == 4 || q == 2
    ensures forall q | 5 <= q <= 10 :: q !in Ranks(cards)
  {
    SplitPairsGap(cards);
    forall q ensures CountRank(cards, q) <= 2 {
      SplitPairsCountAt(cards, q);
    }
    forall q ensures CountRank(cards, q) == 2 <==> q == 4 || q == 2 {
      SplitPairsCountAt(cards, q);
    }
  }

  lemma SplitPairsGap(cards: seq<Card>)
    requires Ranks(cards) == {4, 13, 12, 11, 2}
    ensures forall q | 5 <= q <= 10 :: q !in Ranks(cards)
  {
  }

  lemma SplitPairsCountAt(cards: seq<Card>, q: int)
    requires SplitPairsRanks(cards)
    ensures CountRank(cards, q) <= 2 && (CountRank(cards, q) == 2 <==> q == 4 || q == 2)
  {
    if q != 4 && q != 13 && q != 12 && q != 11 && q != 2 {
      assert q !in Ranks(cards);
    }
  }

  /** Beside the fives no rank above the threes is held twice. */
  lemma NoHigherPair(rest: seq<Card>)
    requires Ranks(rest) == {13, 12, 11, 2}
    requires CountRank(rest, 13) == 1 && CountRank(rest, 12) == 1 && CountRank(rest, 11) == 1
    ensures forall q | 2 < q <= 13 :: CountRank(rest, q) != 2
  {
    forall q | 2 < q <= 13 ensures CountRank(rest, q) != 2 {
      NoHigherPairAt(rest, q);
    }
  }

  lemma NoHigherPairAt(rest: seq<Card>, q: int)
    requires Ranks(rest) == {13, 12, 11, 2}
    requires CountRank(rest, 13) == 1 && CountRank(rest, 12) == 1 && CountRank(rest, 11) == 1
    requires 2 < q <= 13
    ensures CountRank(rest, q) != 2
  {
    if q != 13 && q != 12 && q != 11 {
      assert q !in Ranks(rest);
    }
  }

  /** A K Q holds no rank twice. */
  lemma NoCountTwo(top: seq<Card>)
    requires Ranks(top) == {13, 12, 11}
    requires CountRank(top, 13) == 1 && CountRank(top, 12) == 1 && CountRank(top, 11) == 1
    ensures forall q | 1 <= q <= 13 :: CountRank(top, q) != 2
  {
    forall q | 1 <= q <= 13 ensures CountRank(top, q) != 2 {
      NoCountTwoAt(top, q);
    }
  }

  lemma NoCountTwoAt(top: seq<Card>, q: int)
    requires Ranks(top) == {13, 12, 11}
    requires CountRank(top, 13) == 1 && CountRank(top, 12) == 1 && CountRank(top, 11) == 1
    ensures CountRank(top, q) != 2
  {
    if q != 13 && q != 12 && q != 11 {
      assert q !in Ranks(top);
    }
  }
}
