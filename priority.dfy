/**
 * Which category each copy of the evaluator reports, stated from the cards alone:
 * the conditions below speak of rank counts, suit counts and runs of ranks held, and
 * the lemmas at the end prove that _evaluate_hand, the standalone evaluate_hand and
 * the corrected evaluator each report the first category, from straight flush down
 * to high card, whose condition the cards meet.
 */
module HandPriority {
  import opened Wrappers
  import opened Cards
  import opened HandEvaluator
  import opened Runs
  import opened CorrectedEvaluator

  /**
   * The category number (as in Category) of the first of the eight conditions that
   * holds, tried from straight flush down; high card (1) when none does.
   */
  function Priority(sf: bool, quads: bool, full: bool, flush: bool,
                    straight: bool, trips: bool, twoPair: bool, pair: bool): int
  {
    if sf then 9
    else if quads then 8
    else if full then 7
    else if flush then 6
    else if straight then 5
    else if trips then 4
    else if twoPair then 3
    else if pair then 2
    else 1
  }

  // ---------------------------------------------------------------------------------
  // The conditions, in terms of the cards
  // ---------------------------------------------------------------------------------

  /** Some rank is held by exactly k cards. */
  predicate HoldsExactly(cards: seq<Card>, k: nat)
  {
    exists q | 1 <= q <= 13 :: CountRank(cards, q) == k
  }

  /** Five consecutive ranks from a six up are held. */
  predicate HoldsRun(cards: seq<Card>)
  {
    exists h | 5 <= h <= 13 :: HasRun(cards, h)
  }

  /** Some suit has five cards or more. */
  predicate FlushHeld(cards: seq<Card>)
  {
    exists s :: CountSuit(cards, s) >= 5
  }

  /** A straight as straight() sees one: a run, or the wheel with nothing from 6 to King. */
  predicate StraightAsWritten(cards: seq<Card>)
  {
    HoldsRun(cards) || WheelAsWritten(cards)
  }

  /** A straight: a run, or Ace, 2, 3, 4, 5. */
  predicate StraightHeld(cards: seq<Card>)
  {
    HoldsRun(cards) || HasWheel(cards)
  }

  /**
   * A straight flush as straight_flush() sees one: the most common suit (the first of
   * Clubs, Diamonds, Hearts, Spades on a tie) has five cards or more and they hold a
   * straight as straight() sees one.
   */
  predicate StraightFlushAsWritten(cards: seq<Card>)
  {
    var s := MaxSuit(cards);
    CountSuit(cards, s) >= 5 && StraightAsWritten(OfSuit(cards, s))
  }

  /** A straight flush: the most common suit has five cards or more that hold a straight. */
  predicate StraightFlushHeld(cards: seq<Card>)
  {
    var s := MaxSuit(cards);
    CountSuit(cards, s) >= 5 && StraightHeld(OfSuit(cards, s))
  }

  /**
   * A full house as full_house() sees one: the highest rank held exactly three times,
   * and another rank held exactly twice.
   */
  predicate FullHouseAsWritten(cards: seq<Card>)
  {
    exists t, p | 1 <= t <= 13 && 1 <= p <= 13 && t != p ::
      && CountRank(cards, t) == 3 && CountRank(cards, p) == 2
      && forall q | t < q <= 13 :: CountRank(cards, q) != 3
  }

  /** A full house: one rank held three times or more and another held twice or more. */
  predicate FullHouseHeld(cards: seq<Card>)
  {
    exists t, p | 1 <= t <= 13 && 1 <= p <= 13 && t != p ::
      CountRank(cards, t) >= 3 && CountRank(cards, p) >= 2
  }

  /**
   * Two pair as two_pair() of PokerGame.py sees it: there is a pair, and the three
   * highest cards of the other ranks hold a rank exactly twice.
   */
  predicate TwoPairAsWritten(cards: seq<Card>)
  {
    PairOf(cards).Some? && HoldsExactly(PairOf(cards).value.kickers, 2)
  }

  /** The category _evaluate_hand of PokerGame.py reports for five cards or more. */
  function ExpectedCategory(cards: seq<Card>): int
  {
    Priority(StraightFlushAsWritten(cards), HoldsExactly(cards, 4), FullHouseAsWritten(cards),
             FlushHeld(cards), StraightAsWritten(cards), HoldsExactly(cards, 3),
             TwoPairAsWritten(cards), HoldsExactly(cards, 2))
  }

  /** The category the standalone evaluate_hand reports: as above but for two pair. */
  function ExpectedStandaloneCategory(cards: seq<Card>): int
  {
    Priority(StraightFlushAsWritten(cards), HoldsExactly(cards, 4), FullHouseAsWritten(cards),
             FlushHeld(cards), StraightAsWritten(cards), HoldsExactly(cards, 3),
             TwoPairHeld(cards), HoldsExactly(cards, 2))
  }

  /** The category of poker's ranking of hands, which the corrected evaluator reports. */
  function IntendedCategory(cards: seq<Card>): int
  {
    Priority(StraightFlushHeld(cards), HoldsExactly(cards, 4), FullHouseHeld(cards),
             FlushHeld(cards), StraightHeld(cards), HoldsExactly(cards, 3),
             TwoPairHeld(cards), HoldsExactly(cards, 2))
  }

  // ---------------------------------------------------------------------------------
  // The detectors against the conditions
  // ---------------------------------------------------------------------------------

  /** flush() reports a flush exactly when some suit has five cards or more. */
  lemma FlushOfHeld(cards: seq<Card>)
    ensures FlushOf(cards).Some? <==> FlushHeld(cards)
  {
    if FlushHeld(cards) {
      var s :| CountSuit(cards, s) >= 5;
      assert CountSuit(cards, s) <= CountSuit(cards, MaxSuit(cards));
    }
  }

  /**
   * full_house() reports a full house exactly when the highest rank held three times
   * is joined by another rank held twice.
   */
  lemma FullHouseOfSpec(cards: seq<Card>)
    ensures FullHouseOf(cards).Some? <==> FullHouseAsWritten(cards)
  {
    if FullHouseOf(cards).Some? {
      FullHouseToCounts(cards);
    }
    if FullHouseAsWritten(cards) {
      var t, p :| 1 <= t <= 13 && 1 <= p <= 13 && t != p
        && CountRank(cards, t) == 3 && CountRank(cards, p) == 2
        && forall q | t < q <= 13 :: CountRank(cards, q) != 3;
      FullHouseFromCounts(cards, t, p);
    }
  }

  /** What full_house() found meets the condition. */
  lemma FullHouseToCounts(cards: seq<Card>)
    requires FullHouseOf(cards).Some?
    ensures FullHouseAsWritten(cards)
  {
    var h := FullHouseOf(cards).value;
    var t, p := h.trips.rank, h.pair.rank;
    assert 1 <= t <= 13 && 1 <= p <= 13 && t != p
      && CountRank(cards, t) == 3 && CountRank(cards, p) == 2
      && forall q | t < q <= 13 :: CountRank(cards, q) != 3;
  }

  /** A rank t held three times with none above it, and another p held twice, make full_house() fire. */
  lemma FullHouseFromCounts(cards: seq<Card>, t: int, p: int)
    requires 1 <= t <= 13 && 1 <= p <= 13 && t != p
    requires CountRank(cards, t) == 3 && CountRank(cards, p) == 2
    requires forall q | t < q <= 13 :: CountRank(cards, q) != 3
    ensures FullHouseOf(cards).Some?
  {
    HighestWithCountAt(cards, 3, t, 13);
    assert TripsOf(cards).value.card.rank == t;
    var rest := WithoutRank(cards, t);
    WithoutRankCounts(cards, t, p);
    assert CountRank(rest, p) == 2;
    assert PairOf(rest).Some?;
  }

  /** The shared chain reports the category of the first detector that fires. */
  lemma ClassifyPriority(cards: seq<Card>, twoPair: Option<Hand>)
    requires |cards| >= 5
    requires twoPair.Some? ==> twoPair.value.TwoPair? && DrawnFrom(twoPair.value, cards)
    ensures Category(Classify(cards, twoPair)) ==
      Priority(StraightFlushOf(cards).Some?, QuadsOf(cards).Some?, FullHouseOf(cards).Some?,
               FlushOf(cards).Some?, StraightOf(cards).Some?, TripsOf(cards).Some?,
               twoPair.Some?, PairOf(cards).Some?)
  {
    if StraightFlushOf(cards).Some? {
      ReportsFirst(cards, twoPair, StraightFlushOf(cards).value);
      CategoryOf(StraightFlushOf(cards).value);
    } else if QuadsOf(cards).Some? {
      ReportsFirst(cards, twoPair, QuadsOf(cards).value);
      CategoryOf(QuadsOf(cards).value);
    } else if FullHouseOf(cards).Some? {
      ReportsFirst(cards, twoPair, FullHouseOf(cards).value);
      CategoryOf(FullHouseOf(cards).value);
    } else if FlushOf(cards).Some? {
      ReportsFirst(cards, twoPair, FlushOf(cards).value);
      CategoryOf(FlushOf(cards).value);
    } else {
      assert Classify(cards, twoPair) == ClassifyBelowFlush(cards, twoPair);
      BelowFlushPriority(cards, twoPair);
    }
  }

  /** The hand_ranking number of each kind of hand. */
  lemma CategoryOf(h: Hand)
    ensures h.StraightFlush? ==> Category(h) == 9
    ensures h.FourOfKind? ==> Category(h) == 8
    ensures h.FullHouse? ==> Category(h) == 7
    ensures h.Flush? ==> Category(h) == 6
    ensures h.Straight? ==> Category(h) == 5
    ensures h.ThreeOfKind? ==> Category(h) == 4
    ensures h.TwoPair? ==> Category(h) == 3
    ensures h.OnePair? ==> Category(h) == 2
    ensures h.HighCard? ==> Category(h) == 1
  {
  }

  /** The chain reports h when h is what the first detector to fire found. */
  lemma ReportsFirst(cards: seq<Card>, twoPair: Option<Hand>, h: Hand)
    requires |cards| >= 5
    requires twoPair.Some? ==> twoPair.value.TwoPair? && DrawnFrom(twoPair.value, cards)
    requires || StraightFlushOf(cards) == Some(h)
             || (StraightFlushOf(cards).None? && QuadsOf(cards) == Some(h))
             || (StraightFlushOf(cards).None? && QuadsOf(cards).None? && FullHouseOf(cards) == Some(h))
             || (StraightFlushOf(cards).None? && QuadsOf(cards).None? && FullHouseOf(cards).None? && FlushOf(cards) == Some(h))
    ensures Classify(cards, twoPair) == h
  {
  }

  /** The tail of the chain, likewise. */
  lemma BelowFlushPriority(cards: seq<Card>, twoPair: Option<Hand>)
    requires |cards| >= 5
    requires twoPair.Some? ==> twoPair.value.TwoPair? && DrawnFrom(twoPair.value, cards)
    ensures Category(ClassifyBelowFlush(cards, twoPair)) ==
      Priority(false, false, false, false, StraightOf(cards).Some?, TripsOf(cards).Some?,
               twoPair.Some?, PairOf(cards).Some?)
  {
  }

  /** four_of_a_kind(), three_of_a_kind() and pair() fire exactly when some rank is held four, three, two times. */
  lemma RankGroupDetectors(cards: seq<Card>)
    requires |cards| >= 5
    ensures QuadsOf(cards).Some? == HoldsExactly(cards, 4)
    ensures TripsOf(cards).Some? == HoldsExactly(cards, 3)
    ensures PairOf(cards).Some? == HoldsExactly(cards, 2)
  {
  }

  /** straight_flush() and straight(), for cards from one deck, fire exactly on their conditions. */
  lemma RunDetectors(cards: seq<Card>)
    requires NoDuplicates(cards)
    ensures StraightFlushOf(cards).Some? == StraightFlushAsWritten(cards)
    ensures StraightOf(cards).Some? == StraightAsWritten(cards)
  {
    StraightFlushOfSpec(cards);
    StraightOfSpec(cards);
  }

  // ---------------------------------------------------------------------------------
  // The three evaluators
  // ---------------------------------------------------------------------------------

  /**
   * _evaluate_hand of PokerGame.py, on five cards or more from one deck, reports the
   * first category whose condition as its helpers see it the cards meet.
   */
  lemma EvaluateCategory(cards: seq<Card>)
    requires NoDuplicates(cards)
    ensures Evaluate(cards).Some? ==> Category(Evaluate(cards).value) == ExpectedCategory(cards)
  {
    if |cards| >= 5 {
      ClassifyPriority(cards, TwoPairOf(cards));
      RunDetectors(cards);
      RankGroupDetectors(cards);
      FullHouseOfSpec(cards);
      FlushOfHeld(cards);
      TwoPairOfSpec(cards);
    }
  }

  /** The standalone evaluate_hand, likewise, with two pair found anywhere in the cards. */
  lemma EvaluateStandaloneCategory(cards: seq<Card>)
    requires NoDuplicates(cards)
    ensures EvaluateStandalone(cards).Some? ==>
      Category(EvaluateStandalone(cards).value) == ExpectedStandaloneCategory(cards)
  {
    if |cards| >= 5 {
      ClassifyPriority(cards, TwoPairStandaloneOf(cards));
      RunDetectors(cards);
      RankGroupDetectors(cards);
      FullHouseOfSpec(cards);
      FlushOfHeld(cards);
      TwoPairStandaloneExists(cards);
    }
  }

  /** The corrected chain reports the category of the first corrected detector that fires. */
  lemma ClassifyIntendedPriority(cards: seq<Card>)
    requires |cards| >= 5
    ensures Category(ClassifyIntended(cards)) ==
      Priority(StraightFlushIntendedOf(cards).Some?, QuadsOf(cards).Some?, FullHouseIntendedOf(cards).Some?,
               FlushOf(cards).Some?, StraightIntendedOf(cards).Some?, TripsOf(cards).Some?,
               TwoPairStandaloneOf(cards).Some?, PairOf(cards).Some?)
  {
    if StraightFlushIntendedOf(cards).Some? {
      IntendedReportsFirst(cards, StraightFlushIntendedOf(cards).value);
      CategoryOf(StraightFlushIntendedOf(cards).value);
    } else if QuadsOf(cards).Some? {
      IntendedReportsFirst(cards, QuadsOf(cards).value);
      CategoryOf(QuadsOf(cards).value);
    } else if FullHouseIntendedOf(cards).Some? {
      IntendedReportsFirst(cards, FullHouseIntendedOf(cards).value);
      CategoryOf(FullHouseIntendedOf(cards).value);
    } else if FlushOf(cards).Some? {
      IntendedReportsFirst(cards, FlushOf(cards).value);
      CategoryOf(FlushOf(cards).value);
    } else if StraightIntendedOf(cards).Some? {
      IntendedReportsFirst(cards, StraightIntendedOf(cards).value);
      CategoryOf(StraightIntendedOf(cards).value);
    } else {
      if StraightOf(cards).Some? {
        StraightAgrees(cards);
      }
      IntendedReportsBelow(cards);
      BelowFlushPriority(cards, TwoPairStandaloneOf(cards));
    }
  }

  /** The corrected chain reports h when h is what the first of its top five detectors to fire found. */
  lemma IntendedReportsFirst(cards: seq<Card>, h: Hand)
    requires |cards| >= 5
    requires || StraightFlushIntendedOf(cards) == Some(h)
             || (StraightFlushIntendedOf(cards).None? && QuadsOf(cards) == Some(h))
             || (StraightFlushIntendedOf(cards).None? && QuadsOf(cards).None? && FullHouseIntendedOf(cards) == Some(h))
             || (StraightFlushIntendedOf(cards).None? && QuadsOf(cards).None? && FullHouseIntendedOf(cards).None?
                 && FlushOf(cards) == Some(h))
             || (StraightFlushIntendedOf(cards).None? && QuadsOf(cards).None? && FullHouseIntendedOf(cards).None?
                 && FlushOf(cards).None? && StraightIntendedOf(cards) == Some(h))
    ensures ClassifyIntended(cards) == h
  {
  }

  /** When none of its top five detectors fires, the corrected chain ends as the shared one does. */
  lemma IntendedReportsBelow(cards: seq<Card>)
    requires |cards| >= 5
    requires StraightFlushIntendedOf(cards).None? && QuadsOf(cards).None? && FullHouseIntendedOf(cards).None?
    requires FlushOf(cards).None? && StraightIntendedOf(cards).None?
    ensures ClassifyIntended(cards) == ClassifyBelowFlush(cards, TwoPairStandaloneOf(cards))
  {
  }

  /** The corrected run detectors fire exactly on poker's conditions. */
  lemma IntendedRunDetectors(cards: seq<Card>)
    ensures StraightFlushIntendedOf(cards).Some? == StraightFlushHeld(cards)
    ensures StraightIntendedOf(cards).Some? == StraightHeld(cards)
  {
    StraightFlushIntendedSpec(cards);
    StraightIntendedSpec(cards);
  }

  /** The corrected full house and the standalone two pair fire exactly on poker's conditions. */
  lemma IntendedGroupDetectors(cards: seq<Card>)
    requires |cards| >= 5
    ensures FullHouseIntendedOf(cards).Some? == FullHouseHeld(cards)
    ensures TwoPairStandaloneOf(cards).Some? == TwoPairHeld(cards)
  {
    FullHouseIntendedSpec(cards);
    TwoPairStandaloneExists(cards);
  }

  /** The corrected evaluator reports the category poker's ranking of hands gives the cards. */
  lemma EvaluateIntendedCategory(cards: seq<Card>)
    ensures EvaluateIntended(cards).Some? ==> Category(EvaluateIntended(cards).value) == IntendedCategory(cards)
  {
    if |cards| >= 5 {
      assert EvaluateIntended(cards).value == ClassifyIntended(cards);
      ClassifyIntendedPriority(cards);
      IntendedRunDetectors(cards);
      IntendedGroupDetectors(cards);
      RankGroupDetectors(cards);
      FlushOfHeld(cards);
    }
  }
}
