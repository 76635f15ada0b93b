/**
 * The hands that show the three places where the evaluator of PokerGame.py departs
 * from the hand rankings, each run through the detector as written and through its
 * corrected counterpart.
 */
module HandFindings {
  import opened Wrappers
  import opened Cards
  import opened HandEvaluator
  import opened Runs
  import opened CorrectedEvaluator
  import opened FindingSamples

  /** Five ranks in a row always include one from 6 to Jack, so a hand with none of those has no run. */
  lemma NoRunAcrossGap(cards: seq<Card>)
    requires forall q | 5 <= q <= 10 :: q !in Ranks(cards)
    ensures forall h :: !HasRun(cards, h)
  {
    forall h ensures !HasRun(cards, h) {
      if 5 <= h <= 13 {
        var q := if h <= 10 then h else 10;
        assert h - 4 <= q <= h && q !in Ranks(cards);
      }
    }
  }

  /** With fewer than five cards of every suit there is no flush and no straight flush. */
  lemma NoFiveOfASuit(cards: seq<Card>)
    requires forall s :: CountSuit(cards, s) < 5
    ensures StraightFlushOf(cards).None? && FlushOf(cards).None? && StraightFlushIntendedOf(cards).None?
  {
    assert CountSuit(cards, MaxSuit(cards)) < 5;
  }

  /**
   * No rank from 6 to Jack, no wheel and fewer than five cards of each suit: no straight
   * and no flush of any kind, as written and as intended.
   */
  lemma NoStraightNoFlush(cards: seq<Card>)
    requires forall q | 5 <= q <= 10 :: q !in Ranks(cards)
    requires !HasWheel(cards)
    requires forall s :: CountSuit(cards, s) < 5
    ensures StraightFlushOf(cards).None? && FlushOf(cards).None? && StraightFlushIntendedOf(cards).None?
    ensures StraightOf(cards).None? && StraightIntendedOf(cards).None?
  {
    NoRunAcrossGap(cards);
    StraightOfSpec(cards);
    StraightIntendedSpec(cards);
    NoFiveOfASuit(cards);
  }

  /** The written chain falls through to three of a kind when nothing above it matches. */
  lemma ThreeOfKindVerdict(cards: seq<Card>)
    requires |cards| >= 5 && TripsOf(cards).Some?
    requires StraightFlushOf(cards).None? && QuadsOf(cards).None? && FullHouseOf(cards).None?
    requires FlushOf(cards).None? && StraightOf(cards).None?
    ensures Evaluate(cards) == Some(ThreeOfKind(TripsOf(cards).value.card, TripsOf(cards).value.kickers))
  {
  }

  /** The written chain falls through to one pair when nothing above it matches. */
  lemma OnePairVerdict(cards: seq<Card>)
    requires |cards| >= 5 && PairOf(cards).Some? && TwoPairOf(cards).None?
    requires StraightFlushOf(cards).None? && QuadsOf(cards).None? && FullHouseOf(cards).None?
    requires FlushOf(cards).None? && StraightOf(cards).None? && TripsOf(cards).None?
    ensures Evaluate(cards) == Some(OnePair(PairOf(cards).value.card, PairOf(cards).value.kickers))
  {
  }

  /** The corrected chain stops at a full house when no straight flush or four of a kind is held. */
  lemma FullHouseIntendedVerdict(cards: seq<Card>)
    requires |cards| >= 5 && FullHouseIntendedOf(cards).Some?
    requires StraightFlushIntendedOf(cards).None? && QuadsOf(cards).None?
    ensures EvaluateIntended(cards) == FullHouseIntendedOf(cards)
  {
  }

  /** The corrected chain falls through to two pair when nothing above it matches. */
  lemma TwoPairIntendedVerdict(cards: seq<Card>)
    requires |cards| >= 5 && TwoPairStandaloneOf(cards).Some?
    requires StraightFlushIntendedOf(cards).None? && QuadsOf(cards).None? && FullHouseIntendedOf(cards).None?
    requires FlushOf(cards).None? && StraightIntendedOf(cards).None? && TripsOf(cards).None?
    ensures EvaluateIntended(cards) == TwoPairStandaloneOf(cards)
  {
    if StraightOf(cards).Some? {
      StraightAgrees(cards);
    }
    var tp := TwoPairStandaloneOf(cards);
    assert ClassifyIntended(cards) == ClassifyBelowFlush(cards, tp);
    assert ClassifyBelowFlush(cards, tp) == tp.value;
  }

  // ---------------------------------------------------------------------------------
  // A K 5 4 3 2: the wheel is held, but a King sits between the Ace and the 5
  // ---------------------------------------------------------------------------------

  /**
   * straight() misses the wheel A-2-3-4-5 once any rank from 6 to King is also held;
   * the intended straight() finds it, five high.
   */
  lemma StraightMissesWheel(cards: seq<Card>)
    requires cards == WheelHand
    ensures HasWheel(cards) && !exists h :: HasRun(cards, h)
    ensures StraightOf(cards).None?
    ensures StraightIntendedOf(cards).Some? && StraightIntendedOf(cards).value.cards[0].rank == Five
  {
    WheelHandRanks();
    NoRunAcrossGap(cards);
    assert !WheelAsWritten(cards) by {
      assert 12 in Ranks(cards);
    }
    StraightOfSpec(cards);
    StraightIntendedSpec(cards);
  }

  // ---------------------------------------------------------------------------------
  // A A A K K K 2: two sets of three
  // ---------------------------------------------------------------------------------

  /**
   * full_house() looks for a pair of exactly two cards beside the three of a kind, so
   * a hand of two sets of three and a single card is no full house; the intended
   * full_house() finds the higher set over the lower.
   */
  lemma TwoTripsFullHouse(cards: seq<Card>)
    requires TwoTripsShape(cards)
    ensures FullHouseOf(cards).None?
    ensures FullHouseIntendedOf(cards) == Some(FullHouse(Card(13, Spades), Card(12, Clubs)))
  {
    TwoTripsCounts(cards);
    FullHouseIntendedSpec(cards);
    assert HighestAtLeast(cards, 3, 13, 0) == Some(13);
    assert HighestAtLeast(cards, 2, 12, 13) == Some(12);
  }

  /** Every detector above three of a kind comes back empty, and the three of a kind is the Aces. */
  lemma TwoTripsDetectors(cards: seq<Card>)
    requires |cards| >= 5 && TwoTripsShape(cards)
    ensures StraightFlushOf(cards).None? && QuadsOf(cards).None? && FlushOf(cards).None?
    ensures StraightOf(cards).None? && StraightFlushIntendedOf(cards).None?
    ensures TripsOf(cards).Some? && TripsOf(cards).value.card.rank == Ace
  {
    TwoTripsCounts(cards);
    assert !HasWheel(cards) by {
      assert 2 !in Ranks(cards);
    }
    NoStraightNoFlush(cards);
    HighestWithCountAt(cards, 3, 13, 13);
  }

  /** A A A K K K 2 evaluates as three Aces as written, and as Aces full of Kings as intended. */
  lemma TwoTripsNotFullHouse(cards: seq<Card>)
    requires cards == TwoTripsHand
    ensures FullHouseOf(cards).None?
    ensures Evaluate(cards).value.ThreeOfKind? && Evaluate(cards).value.trips.rank == Ace
    ensures EvaluateIntended(cards) == Some(FullHouse(Card(13, Spades), Card(12, Clubs)))
  {
    TwoTripsHandShape();
    TwoTripsFullHouse(cards);
    TwoTripsDetectors(cards);
    ThreeOfKindVerdict(cards);
    FullHouseIntendedVerdict(cards);
  }

  // ---------------------------------------------------------------------------------
  // 5 5 A K Q 3 3: the lower pair is not among the three highest other cards
  // ---------------------------------------------------------------------------------

  /** The pair is the fives, with A K Q beside it. */
  lemma SplitPairsPair(cards: seq<Card>)
    requires SplitPairsShape(cards)
    ensures PairOf(cards) == Some(Group(Card(4, Hearts), SplitPairsTop))
  {
    SplitPairsCounts(cards);
    HighestWithCountAt(cards, 2, 4, 13);
    SplitPairsHandKickers();
  }

  /** Beside the fives, the threes are the pair and the Ace the kicker. */
  lemma SplitPairsLowPair(rest: seq<Card>)
    requires rest == SplitPairsRest
    ensures PairOf(rest) == Some(Group(Card(2, Clubs), SplitPairsTop))
  {
    SplitPairsRestCounts();
    SplitPairsRestSingles();
    SplitPairsRestWithoutThrees();
    SplitPairsTopSorted();
    NoHigherPair(rest);
    HighestWithCountAt(rest, 2, 2, 13);
  }

  /** A K Q holds no pair. */
  lemma SplitPairsTopNoPair(top: seq<Card>)
    requires top == SplitPairsTop
    ensures PairOf(top).None?
  {
    SplitPairsTopFacts();
    NoCountTwo(top);
  }

  /**
   * two_pair() of PokerGame.py looks for the second pair only among the pair's three
   * kickers, A K Q, and finds none; the standalone copy looks among all other cards and
   * finds fives and threes with the Ace.
   */
  lemma TwoPairMissed(cards: seq<Card>)
    requires |cards| >= 5 && SplitPairsShape(cards)
    ensures CountRank(cards, 4) == 2 && CountRank(cards, 2) == 2
    ensures TwoPairOf(cards).None?
    ensures TwoPairStandaloneOf(cards) == Some(TwoPair(Card(4, Hearts), Card(2, Clubs), Card(13, Clubs)))
  {
    SplitPairsPair(cards);
    SplitPairsTopNoPair(SplitPairsTop);
    SplitPairsLowPair(SplitPairsRest);
  }

  /**
   * A hand of at least five cards with no rank held three times or more, no rank from 6
   * to Jack, no deuce and fewer than five cards of each suit: every detector above two pair
   * comes back empty, as written and as intended.
   */
  lemma BelowTwoPair(cards: seq<Card>)
    requires |cards| >= 5
    requires forall q :: CountRank(cards, q) <= 2
    requires forall q | 5 <= q <= 10 :: q !in Ranks(cards)
    requires 1 !in Ranks(cards)
    requires forall s :: CountSuit(cards, s) < 5
    ensures StraightFlushOf(cards).None? && QuadsOf(cards).None? && FullHouseOf(cards).None?
    ensures FlushOf(cards).None? && StraightOf(cards).None? && TripsOf(cards).None?
    ensures StraightFlushIntendedOf(cards).None? && FullHouseIntendedOf(cards).None? && StraightIntendedOf(cards).None?
  {
    assert !HasWheel(cards);
    NoStraightNoFlush(cards);
    NoGroupAboveTwo(cards);
  }

  /** With no rank held more than twice there is no four or three of a kind and no full house. */
  lemma NoGroupAboveTwo(cards: seq<Card>)
    requires |cards| >= 5
    requires forall q :: CountRank(cards, q) <= 2
    ensures QuadsOf(cards).None? && TripsOf(cards).None?
    ensures FullHouseOf(cards).None? && FullHouseIntendedOf(cards).None?
  {
    FullHouseIntendedSpec(cards);
  }

  /** Every detector above two pair comes back empty for 5 5 A K Q 3 3, as written and as intended. */
  lemma SplitPairsDetectors(cards: seq<Card>)
    requires |cards| >= 5 && SplitPairsShape(cards)
    ensures StraightFlushOf(cards).None? && QuadsOf(cards).None? && FullHouseOf(cards).None?
    ensures FlushOf(cards).None? && StraightOf(cards).None? && TripsOf(cards).None?
    ensures StraightFlushIntendedOf(cards).None? && FullHouseIntendedOf(cards).None? && StraightIntendedOf(cards).None?
  {
    SplitPairsCounts(cards);
    BelowTwoPair(cards);
  }

  /** 5 5 A K Q 3 3 evaluates as one pair of fives as written, and as fives and threes as intended. */
  lemma SplitPairsEvaluate(cards: seq<Card>)
    requires cards == SplitPairsHand
    ensures TwoPairOf(cards).None?
    ensures Evaluate(cards) == Some(OnePair(Card(4, Hearts), SplitPairsTop))
    ensures EvaluateIntended(cards) == Some(TwoPair(Card(4, Hearts), Card(2, Clubs), Card(13, Clubs)))
  {
    SplitPairsHandShape();
    TwoPairMissed(cards);
    SplitPairsPair(cards);
    SplitPairsDetectors(cards);
    OnePairVerdict(cards);
    TwoPairIntendedVerdict(cards);
  }
}
