/**
 * _compare_hands: a higher category wins; within a category the payload cards are
 * compared by rank, position by position (Card.gt / Card.lt under the value ranks, so
 * suits never matter). The lemmas show it is a total preorder that ignores suits.
 */
module HandComparator {
  import opened Cards
  import opened HandEvaluator
  import opened Runs

  /** The sign of x: 1, 0 or -1. */
  function Sign(x: int): (s: int)
    ensures s == 1 <==> x > 0
    ensures s == -1 <==> x < 0
    ensures s == 0 <==> x == 0
  {
    if x > 0 then 1 else if x < 0 then -1 else 0
  }

  /** cards1[i].gt(cards2[i]) gives 1, cards1[i].lt(cards2[i]) gives -1, otherwise 0. */
  function CompareCard(a: Card, b: Card): (r: int)
    ensures r == Sign(a.rank - b.rank)
  {
    if a.rank > b.rank then 1 else if a.rank < b.rank then -1 else 0
  }

  /** The ranks of a sequence of cards, in order. */
  function RankSeq(cs: seq<Card>): (rs: seq<int>)
    ensures |rs| == |cs| && forall i | 0 <= i < |cs| :: rs[i] == cs[i].rank
  {
    if cs == [] then [] else [cs[0].rank] + RankSeq(cs[1..])
  }

  /** The loop over positions: the first position whose ranks differ decides, else a tie. */
  function CompareCards(a: seq<Card>, b: seq<Card>): (r: int)
    requires |a| == |b|
    decreases |a|
    ensures -1 <= r <= 1
  {
    if a == [] then 0
    else if a[0].rank > b[0].rank then 1
    else if a[0].rank < b[0].rank then -1
    else CompareCards(a[1..], b[1..])
  }

  /**
   * _compare_hands on two well-formed hands. Within a category each branch of the source
   * compares the payload positions in payload order: the five cards; the quad (or trips)
   * card, then the kicker (or pair) card; the trips (or pair) card, then the kickers; the
   * high pair, the low pair, then the kicker.
   */
  function Compare(h1: Hand, h2: Hand): (r: int)
    requires WellFormed(h1) && WellFormed(h2)
    ensures -1 <= r <= 1
  {
    if Category(h1) > Category(h2) then 1
    else if Category(h1) < Category(h2) then -1
    else
      assert |PayloadCards(h1)| == |PayloadCards(h2)|;
      CompareCards(PayloadCards(h1), PayloadCards(h2))
  }

  /** The position loop ties exactly when the two sides hold the same ranks in the same order. */
  lemma {:induction false} CompareCardsZero(a: seq<Card>, b: seq<Card>)
    requires |a| == |b|
    ensures CompareCards(a, b) == 0 <==> RankSeq(a) == RankSeq(b)
    decreases |a|
  {
    if a != [] {
      CompareCardsZero(a[1..], b[1..]);
      assert RankSeq(a) == [a[0].rank] + RankSeq(a[1..]);
      assert RankSeq(b) == [b[0].rank] + RankSeq(b[1..]);
      if RankSeq(a) == RankSeq(b) {
        assert RankSeq(a)[0] == RankSeq(b)[0];
        assert RankSeq(a)[1..] == RankSeq(b)[1..];
      }
    }
  }

  /** Swapping the sides of the position loop negates it. */
  lemma {:induction false} CompareCardsAntisymmetric(a: seq<Card>, b: seq<Card>)
    requires |a| == |b|
    ensures CompareCards(a, b) == -CompareCards(b, a)
    decreases |a|
  {
    if a != [] {
      CompareCardsAntisymmetric(a[1..], b[1..]);
    }
  }

  /** The position loop is transitive: not below, then not below, is not below; and strictly above survives. */
  lemma {:induction false} CompareCardsTransitive(a: seq<Card>, b: seq<Card>, c: seq<Card>)
    requires |a| == |b| == |c|
    ensures CompareCards(a, b) >= 0 && CompareCards(b, c) >= 0 ==> CompareCards(a, c) >= 0
    ensures CompareCards(a, b) > 0 && CompareCards(b, c) >= 0 ==> CompareCards(a, c) > 0
    ensures CompareCards(a, b) >= 0 && CompareCards(b, c) > 0 ==> CompareCards(a, c) > 0
    decreases |a|
  {
    if a != [] {
      CompareCardsTransitive(a[1..], b[1..], c[1..]);
    }
  }

  /** compare(a, b) = -compare(b, a). */
  lemma CompareAntisymmetric(h1: Hand, h2: Hand)
    requires WellFormed(h1) && WellFormed(h2)
    ensures Compare(h1, h2) == -Compare(h2, h1)
  {
    if Category(h1) == Category(h2) {
      CompareCardsAntisymmetric(PayloadCards(h1), PayloadCards(h2));
    }
  }

  /** A higher category always wins, whatever the payloads. */
  lemma CategoryDecides(h1: Hand, h2: Hand)
    requires WellFormed(h1) && WellFormed(h2) && Category(h1) != Category(h2)
    ensures Compare(h1, h2) == Sign(Category(h1) - Category(h2))
  {
  }

  /** The tie-break key: the category and the payload ranks, without suits. */
  function RankKey(h: Hand): (k: seq<int>)
    ensures |k| == |PayloadCards(h)| + 1 && k[0] == Category(h)
  {
    [Category(h)] + RankSeq(PayloadCards(h))
  }

  /** Equal payloads give 0: two hands tie exactly when category and payload ranks agree. */
  lemma CompareZeroIff(h1: Hand, h2: Hand)
    requires WellFormed(h1) && WellFormed(h2)
    ensures Compare(h1, h2) == 0 <==> RankKey(h1) == RankKey(h2)
  {
    if Category(h1) == Category(h2) {
      CompareCardsZero(PayloadCards(h1), PayloadCards(h2));
      assert RankKey(h1) == RankKey(h2) <==> RankSeq(PayloadCards(h1)) == RankSeq(PayloadCards(h2)) by {
        if RankKey(h1) == RankKey(h2) {
          assert RankKey(h1)[1..] == RankSeq(PayloadCards(h1));
          assert RankKey(h2)[1..] == RankSeq(PayloadCards(h2));
        }
      }
    } else {
      assert RankKey(h1)[0] != RankKey(h2)[0];
    }
  }

  /** Changing suits never changes the outcome. */
  lemma CompareIgnoresSuits(h1: Hand, h2: Hand, g1: Hand, g2: Hand)
    requires WellFormed(h1) && WellFormed(h2) && WellFormed(g1) && WellFormed(g2)
    requires RankKey(h1) == RankKey(g1) && RankKey(h2) == RankKey(g2)
    ensures Compare(h1, h2) == Compare(g1, g2)
  {
    assert Category(h1) == RankKey(h1)[0] == RankKey(g1)[0] == Category(g1);
    assert Category(h2) == RankKey(h2)[0] == RankKey(g2)[0] == Category(g2);
    assert RankSeq(PayloadCards(h1)) == RankKey(h1)[1..] == RankKey(g1)[1..] == RankSeq(PayloadCards(g1));
    assert RankSeq(PayloadCards(h2)) == RankKey(h2)[1..] == RankKey(g2)[1..] == RankSeq(PayloadCards(g2));
    if Category(h1) == Category(h2) {
      SameRanksCompare(PayloadCards(h1), PayloadCards(g1), PayloadCards(h2), PayloadCards(g2));
    }
  }

  /** The position loop sees only ranks. */
  lemma {:induction false} SameRanksCompare(a: seq<Card>, a': seq<Card>, b: seq<Card>, b': seq<Card>)
    requires |a| == |b| && |a'| == |b'|
    requires RankSeq(a) == RankSeq(a') && RankSeq(b) == RankSeq(b')
    ensures CompareCards(a, b) == CompareCards(a', b')
    decreases |a|
  {
    if a != [] {
      assert a[0].rank == RankSeq(a)[0] == a'[0].rank;
      assert b[0].rank == RankSeq(b)[0] == b'[0].rank;
      assert RankSeq(a[1..]) == RankSeq(a)[1..] == RankSeq(a'[1..]);
      assert RankSeq(b[1..]) == RankSeq(b)[1..] == RankSeq(b'[1..]);
      SameRanksCompare(a[1..], a'[1..], b[1..], b'[1..]);
    }
  }

  /** Compare is a total preorder: at-least is transitive, and strictly-better survives a tie. */
  lemma CompareTransitive(h1: Hand, h2: Hand, h3: Hand)
    requires WellFormed(h1) && WellFormed(h2) && WellFormed(h3)
    ensures Compare(h1, h2) >= 0 && Compare(h2, h3) >= 0 ==> Compare(h1, h3) >= 0
    ensures Compare(h1, h2) == 1 && Compare(h2, h3) >= 0 ==> Compare(h1, h3) == 1
    ensures Compare(h1, h2) >= 0 && Compare(h2, h3) == 1 ==> Compare(h1, h3) == 1
  {
    if Category(h1) == Category(h2) == Category(h3) {
      CompareCardsTransitive(PayloadCards(h1), PayloadCards(h2), PayloadCards(h3));
    }
  }

  /** Two straights (or two straight flushes) compare by their top card; the wheel is five high. */
  lemma RunsCompareByHeight(p: seq<Card>, q: seq<Card>)
    requires IsRun(p) && IsRun(q)
    ensures Compare(Straight(p), Straight(q)) == Sign(p[0].rank - q[0].rank)
    ensures Compare(StraightFlush(p), StraightFlush(q)) == Sign(p[0].rank - q[0].rank)
  {
    RunRanks(p, q);
  }

  /** Runs of the same height have the same ranks; otherwise the top cards already differ. */
  lemma RunRanks(p: seq<Card>, q: seq<Card>)
    requires IsRun(p) && IsRun(q)
    ensures CompareCards(p, q) == Sign(p[0].rank - q[0].rank)
  {
    if p[0].rank == q[0].rank {
      assert IsWheel(p) <==> IsWheel(q);
      assert p[1].rank == q[1].rank && p[2].rank == q[2].rank && p[3].rank == q[3].rank && p[4].rank == q[4].rank;
      assert CompareCards(p[4..], q[4..]) == 0;
      assert p[3..][1..] == p[4..] && q[3..][1..] == q[4..];
      assert CompareCards(p[3..], q[3..]) == 0;
      assert p[2..][1..] == p[3..] && q[2..][1..] == q[3..];
      assert CompareCards(p[2..], q[2..]) == 0;
      assert p[1..][1..] == p[2..] && q[1..][1..] == q[2..];
      assert CompareCards(p[1..], q[1..]) == 0;
    }
  }

  /** The wheel loses to every other straight, 6-high included. */
  lemma WheelLosesToStraights(p: seq<Card>, q: seq<Card>)
    requires IsWheel(p) && IsRun(q) && !IsWheel(q)
    ensures Compare(Straight(p), Straight(q)) == -1
  {
    RunsCompareByHeight(p, q);
  }
}
