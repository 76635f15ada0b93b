/** The evaluator's test cases, as lemmas about concrete hands. */
module HandExamples {
  import opened Wrappers
  import opened Cards
  import opened HandEvaluator
  import opened Runs
  import opened HandSamples

  lemma TripsHandGroup(cards: seq<Card>)
    requires cards == TripsHand
    ensures TripsOf(cards) == Some(Group(Card(7, Hearts), [Card(12, Hearts), Card(2, Spades)]))
  {
    TripsHandCounts();
    TripsHandRanks();
    forall q | 7 < q <= 13 ensures CountRank(cards, q) != 3 {
      if q != 12 {
        assert q !in Ranks(cards);
      }
    }
    HighestWithCountAt(cards, 3, 7, 13);
    TripsHandRest();
    TripsHandTop();
  }

  lemma TripsHandRestNoPair(rest: seq<Card>)
    requires rest == [Card(2, Spades), Card(12, Hearts)]
    ensures PairOf(rest).None?
  {
    TripsHandKickers();
    forall q | 1 <= q <= 13 ensures CountRank(rest, q) != 2 {
      if q != 2 && q != 12 {
        assert q !in Ranks(rest);
      }
    }
  }

  lemma TripsHandNoFull(cards: seq<Card>)
    requires cards == TripsHand
    ensures FullHouseOf(cards).None?
  {
    TripsHandGroup(cards);
    TripsHandRest();
    TripsHandRestNoPair(WithoutRank(cards, 7));
  }

  lemma TripsHandNoStraight(cards: seq<Card>)
    requires cards == TripsHand
    ensures StraightOf(cards).None?
  {
    TripsHandRanks();
    var rs := Ranks(cards);
    assert rs == {7, 2, 12};
    assert forall h :: !HasRun(cards, h) by {
      forall h ensures !HasRun(cards, h) {
        assert h - 1 !in rs || h - 2 !in rs || h - 3 !in rs || h - 4 !in rs || h !in rs;
      }
    }
    assert !WheelAsWritten(cards) by {
      assert 13 !in rs;
    }
    StraightOfSpec(cards);
  }

  lemma TripsHandNoQuads(cards: seq<Card>)
    requires cards == TripsHand
    ensures QuadsOf(cards).None?
  {
    TripsHandCounts();
    TripsHandRanks();
  }

  /** 8 8 8 3 K is three of a kind, not two pair, in both copies. */
  lemma TripsBeatTwoPair(cards: seq<Card>)
    requires cards == TripsHand
    ensures Evaluate(cards) == Some(ThreeOfKind(Card(7, Hearts), [Card(12, Hearts), Card(2, Spades)]))
    ensures EvaluateStandalone(cards) == Evaluate(cards)
  {
    TripsHandSuits();
    TripsHandNoQuads(cards);
    TripsHandNoFull(cards);
    TripsHandNoStraight(cards);
    TripsHandGroup(cards);
  }
}
