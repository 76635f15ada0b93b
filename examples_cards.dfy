/**
 * Concrete hands of the evaluator's test cases and the plain counting facts about them.
 * Ranks: 2 is 1, 3 is 2, ..., King is 12, Ace is 13.
 */
module HandSamples {
  import opened Wrappers
  import opened Cards

  /** 8 8 8 3 K. */
  const TripsHand: seq<Card> := [Card(7, Hearts), Card(7, Diamonds), Card(7, Clubs), Card(2, Spades), Card(12, Hearts)]

  lemma TripsHandCounts()
    ensures CountRank(TripsHand, 12) == 1 && CountRank(TripsHand, 7) == 3
  {
  }

  lemma TripsHandSuits()
    ensures CountSuit(TripsHand, Clubs) == 1 && CountSuit(TripsHand, Diamonds) == 1
    ensures CountSuit(TripsHand, Hearts) == 2 && CountSuit(TripsHand, Spades) == 1
  {
  }

  lemma TripsHandRanks()
    ensures Ranks(TripsHand) == {7, 2, 12}
  {
  }

  lemma TripsHandRest()
    ensures WithoutRank(TripsHand, 7) == [Card(2, Spades), Card(12, Hearts)]
  {
  }

  lemma TripsHandKickers()
    ensures CountRank([Card(2, Spades), Card(12, Hearts)], 2) == 1
    ensures CountRank([Card(2, Spades), Card(12, Hearts)], 12) == 1
    ensures Ranks([Card(2, Spades), Card(12, Hearts)]) == {2, 12}
  {
  }

  lemma TripsHandTop()
    ensures Top([Card(2, Spades), Card(12, Hearts)], 2) == [Card(12, Hearts), Card(2, Spades)]
  {
  }
}
