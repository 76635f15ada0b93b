/**
 * The hand evaluator: _evaluate_hand of PokerGame.py and its standalone twin
 * evaluate_hand in tests/poker_hand_evaluator_tests.py. Each nested helper of the
 * source (straight_flush, four_of_a_kind, full_house, flush, straight,
 * three_of_a_kind, two_pair, pair) is one function here, written as the source
 * computes it; their contracts and the lemmas below say what each one finds.
 */
module HandEvaluator {
  import opened Wrappers
  import opened Cards

  /** An evaluated hand: its category together with its tie-break payload. */
  datatype Hand =
    | StraightFlush(cards: seq<Card>)
    | FourOfKind(quad: Card, kicker: Card)
    | FullHouse(trips: Card, pair: Card)
    | Flush(cards: seq<Card>)
    | Straight(cards: seq<Card>)
    | ThreeOfKind(trips: Card, kickers: seq<Card>)
    | TwoPair(high: Card, low: Card, kicker: Card)
    | OnePair(pair: Card, kickers: seq<Card>)
    | HighCard(cards: seq<Card>)

  /** The hand_ranking table of _compare_hands: high_card is 1, ..., straight_flush is 9. */
  function Category(h: Hand): (c: int)
    ensures 1 <= c <= 9
  {
    match h
    case HighCard(_) => 1
    case OnePair(_, _) => 2
    case TwoPair(_, _, _) => 3
    case ThreeOfKind(_, _) => 4
    case Straight(_) => 5
    case Flush(_) => 6
    case FullHouse(_, _) => 7
    case FourOfKind(_, _) => 8
    case StraightFlush(_) => 9
  }

  /** The payload shapes an evaluation produces: five cards, two kickers, three kickers. */
  predicate WellFormed(h: Hand)
  {
    match h
    case StraightFlush(p) => |p| == 5
    case Flush(p) => |p| == 5
    case Straight(p) => |p| == 5
    case HighCard(p) => |p| == 5
    case ThreeOfKind(_, ks) => |ks| == 2
    case OnePair(_, ks) => |ks| == 3
    case _ => true
  }

  /** Every card of the payload, in payload order. */
  function PayloadCards(h: Hand): seq<Card>
  {
    match h
    case StraightFlush(p) => p
    case FourOfKind(q, k) => [q, k]
    case FullHouse(t, p) => [t, p]
    case Flush(p) => p
    case Straight(p) => p
    case ThreeOfKind(t, ks) => [t] + ks
    case TwoPair(hi, lo, k) => [hi, lo, k]
    case OnePair(p, ks) => [p] + ks
    case HighCard(p) => p
  }

  /** The payload is made of the evaluated cards. */
  predicate DrawnFrom(h: Hand, cards: seq<Card>)
  {
    forall c | c in PayloadCards(h) :: c in cards
  }

  /** t is the k highest cards of s (or all of s), highest first. */
  predicate IsTopOf(t: seq<Card>, s: seq<Card>, k: nat)
  {
    && |t| == Min(k, |s|)
    && SortedDesc(t)
    && multiset(t) <= multiset(s)
    && forall x, y | x in multiset(s) - multiset(t) && y in t :: x.rank <= y.rank
  }

  /** The first of the top cards is a highest card of s. */
  lemma TopFirstIsMax(t: seq<Card>, s: seq<Card>, k: nat)
    requires IsTopOf(t, s, k) && |t| > 0
    ensures forall c | c in s :: c.rank <= t[0].rank
  {
    forall c | c in s ensures c.rank <= t[0].rank {
      if c in t {
        var i :| 0 <= i < |t| && t[i] == c;
        assert t[0].rank >= t[i].rank;
      } else {
        assert c in multiset(s) - multiset(t);
        assert t[0] in t;
      }
    }
  }

  // ---------------------------------------------------------------------------------
  // Rank groups: pair, three_of_a_kind, four_of_a_kind
  // ---------------------------------------------------------------------------------

  /**
   * Scans the ranks r, r-1, ..., 2 (the order of the rank_counter literal, Ace first)
   * for the first one held by exactly k cards.
   */
  function HighestWithCount(cards: seq<Card>, k: nat, r: int): (res: Option<Rank>)
    requires 0 <= r <= 13
    decreases r
    ensures res.Some? ==> res.value <= r && CountRank(cards, res.value) == k
    ensures res.Some? ==> forall q | res.value < q <= r :: CountRank(cards, q) != k
    ensures res.None? <==> forall q | 1 <= q <= r :: CountRank(cards, q) != k
  {
    if r == 0 then None
    else if CountRank(cards, r) == k then Some(r)
    else HighestWithCount(cards, k, r - 1)
  }

  /** The scan from top down stops at r when r is held k times and no higher rank is. */
  lemma {:induction false} HighestWithCountAt(cards: seq<Card>, k: nat, r: int, top: int)
    requires 1 <= r <= top <= 13 && CountRank(cards, r) == k
    requires forall q | r < q <= top :: CountRank(cards, q) != k
    decreases top
    ensures HighestWithCount(cards, k, top) == Some(r)
  {
    if top > r {
      HighestWithCountAt(cards, k, r, top - 1);
    }
  }

  /** A rank group: one card of the group's rank and the kickers beside it. */
  datatype Group = Group(card: Card, kickers: seq<Card>)

  /**
   * pair (k = 2, three kickers) and three_of_a_kind (k = 3, two kickers): the highest
   * rank held by exactly k cards, its first card, and the top cards of the other ranks.
   */
  function GroupOf(cards: seq<Card>, k: nat, kickerCount: nat): (g: Option<Group>)
    requires k > 0
    ensures g.Some? ==> g.value.card in cards && CountRank(cards, g.value.card.rank) == k
    ensures g.Some? ==> forall q | g.value.card.rank < q <= 13 :: CountRank(cards, q) != k
    ensures g.Some? ==> |g.value.kickers| == Min(kickerCount, |cards| - k)
    ensures g.Some? ==> forall c | c in g.value.kickers :: c in cards && c.rank != g.value.card.rank
    ensures g.None? <==> forall q | 1 <= q <= 13 :: CountRank(cards, q) != k
  {
    match HighestWithCount(cards, k, 13)
    case None => None
    case Some(r) =>
      var rest := WithoutRank(cards, r);
      TopIsHighest(rest, kickerCount);
      Some(Group(FirstOfRank(cards, r), Top(rest, kickerCount)))
  }

  /** The kickers of a group are the highest cards of the other ranks, highest first. */
  lemma GroupKickers(cards: seq<Card>, k: nat, kickerCount: nat)
    requires k > 0 && GroupOf(cards, k, kickerCount).Some?
    ensures var g := GroupOf(cards, k, kickerCount).value;
      IsTopOf(g.kickers, WithoutRank(cards, g.card.rank), kickerCount)
  {
    var g := GroupOf(cards, k, kickerCount).value;
    TopIsHighest(WithoutRank(cards, g.card.rank), kickerCount);
  }

  /** pair(cards) of the source. */
  function PairOf(cards: seq<Card>): Option<Group>
  {
    GroupOf(cards, 2, 3)
  }

  /** three_of_a_kind(cards) of the source. */
  function TripsOf(cards: seq<Card>): Option<Group>
  {
    GroupOf(cards, 3, 2)
  }

  /**
   * The first card, scanning cards left to right, whose rank all holds exactly k times:
   * the first key with count k of a rank_counter filled in order of first appearance.
   */
  function FirstWithCount(cards: seq<Card>, all: seq<Card>, k: nat): (r: Option<Card>)
    ensures r.Some? ==> r.value in cards && CountRank(all, r.value.rank) == k
    ensures r.None? <==> forall c | c in cards :: CountRank(all, c.rank) != k
  {
    if cards == [] then None
    else if CountRank(all, cards[0].rank) == k then Some(cards[0])
    else
      assert forall c | c in cards :: c == cards[0] || c in cards[1..];
      FirstWithCount(cards[1..], all, k)
  }

  /** The card FirstWithCount finds is the first, left to right, whose rank is held k times. */
  lemma {:induction false} FirstWithCountIsFirst(cards: seq<Card>, all: seq<Card>, k: nat)
    requires FirstWithCount(cards, all, k).Some?
    ensures exists i | 0 <= i < |cards| ::
      cards[i] == FirstWithCount(cards, all, k).value && forall j | 0 <= j < i :: CountRank(all, cards[j].rank) != k
  {
    if CountRank(all, cards[0].rank) != k {
      FirstWithCountIsFirst(cards[1..], all, k);
      var i :| 0 <= i < |cards[1..]| && cards[1..][i] == FirstWithCount(cards[1..], all, k).value
        && forall j | 0 <= j < i :: CountRank(all, cards[1..][j].rank) != k;
      assert cards[i + 1] == FirstWithCount(cards, all, k).value
        && forall j | 0 <= j < i + 1 :: CountRank(all, cards[j].rank) != k;
    } else {
      assert cards[0] == FirstWithCount(cards, all, k).value;
    }
  }

  /** four_of_a_kind(cards): a card of a rank held four times and the highest other card. */
  function QuadsOf(cards: seq<Card>): (h: Option<Hand>)
    requires |cards| >= 5
    ensures h.Some? ==> h.value.FourOfKind? && CountRank(cards, h.value.quad.rank) == 4
    ensures h.Some? ==> h.value.quad in cards && h.value.kicker in cards
    ensures h.Some? ==> h.value.kicker.rank != h.value.quad.rank
    ensures h.Some? ==> forall c | c in cards && c.rank != h.value.quad.rank :: c.rank <= h.value.kicker.rank
    ensures h.None? <==> forall q | 1 <= q <= 13 :: CountRank(cards, q) != 4
  {
    match FirstWithCount(cards, cards, 4)
    case None =>
      assert forall q | 1 <= q <= 13 :: CountRank(cards, q) != 4 by {
        forall q | 1 <= q <= 13 ensures CountRank(cards, q) != 4 {
          if q in Ranks(cards) {
            var c := FirstOfRank(cards, q);
            assert CountRank(cards, c.rank) != 4;
          }
        }
      }
      None
    case Some(c) =>
      var others := WithoutRank(cards, c.rank);
      assert c.rank in Ranks(cards);
      Some(FourOfKind(FirstOfRank(cards, c.rank), MaxCard(others)))
  }

  /**
   * full_house(cards) as written: the three_of_a_kind card, then a pair (exactly two
   * cards) among the cards of the other ranks.
   */
  function FullHouseOf(cards: seq<Card>): (h: Option<Hand>)
    ensures h.Some? ==> h.value.FullHouse? && h.value.trips in cards && h.value.pair in cards
    ensures h.Some? ==> CountRank(cards, h.value.trips.rank) == 3 && CountRank(cards, h.value.pair.rank) == 2
    ensures h.Some? ==> forall q | h.value.trips.rank < q <= 13 :: CountRank(cards, q) != 3
    ensures h.Some? ==> forall q | h.value.pair.rank < q <= 13 && q != h.value.trips.rank :: CountRank(cards, q) != 2
  {
    match TripsOf(cards)
    case None => None
    case Some(t) =>
      var rest := WithoutRank(cards, t.card.rank);
      match PairOf(rest)
      case None => None
      case Some(p) =>
        assert CountRank(cards, p.card.rank) == 2 by {
          WithoutRankCounts(cards, t.card.rank, p.card.rank);
        }
        assert forall q | p.card.rank < q <= 13 && q != t.card.rank :: CountRank(cards, q) != 2 by {
          forall q | p.card.rank < q <= 13 && q != t.card.rank ensures CountRank(cards, q) != 2 {
            WithoutRankCounts(cards, t.card.rank, q);
          }
        }
        Some(FullHouse(t.card, p.card))
  }

  // ---------------------------------------------------------------------------------
  // Suits: flush and the suit straight_flush works in
  // ---------------------------------------------------------------------------------

  /** max(suits_counter, key=suits_counter.get): the first suit, in the order Clubs, Diamonds, Hearts, Spades, of greatest count. */
  function MaxSuit(cards: seq<Card>): (s: Suit)
    ensures forall t :: CountSuit(cards, t) <= CountSuit(cards, s)
  {
    var c, d, h, sp := CountSuit(cards, Clubs), CountSuit(cards, Diamonds), CountSuit(cards, Hearts), CountSuit(cards, Spades);
    if c >= d && c >= h && c >= sp then Clubs
    else if d >= h && d >= sp then Diamonds
    else if h >= sp then Hearts
    else Spades
  }

  /** flush(cards): when the chosen suit has five or more cards, its top five. */
  function FlushOf(cards: seq<Card>): (h: Option<Hand>)
    ensures h.Some? <==> CountSuit(cards, MaxSuit(cards)) >= 5
    ensures h.Some? ==> h.value.Flush? && IsTopOf(h.value.cards, OfSuit(cards, MaxSuit(cards)), 5)
    ensures h.Some? ==> forall c | c in h.value.cards :: c in cards && c.suit == MaxSuit(cards)
  {
    var s := MaxSuit(cards);
    if CountSuit(cards, s) >= 5 then
      var suited := OfSuit(cards, s);
      TopIsHighest(suited, 5);
      Some(Flush(Top(suited, 5)))
    else None
  }

  // ---------------------------------------------------------------------------------
  // Runs: straight and straight_flush
  // ---------------------------------------------------------------------------------

  /**
   * for i in range(len(cs) - 4): the windows cs[i:i+5] from the left. A window that
   * starts with an Ace followed by a 5 is the wheel, returned as 5, 4, 3, 2, Ace; a
   * window whose first and last ranks differ by four is returned as it is.
   */
  function ScanWindows(cs: seq<Card>, i: nat): (r: Option<seq<Card>>)
    decreases |cs| - i
    ensures r.Some? ==> |r.value| == 5 && forall c | c in r.value :: c in cs
  {
    if i + 5 > |cs| then None
    else
      var hand := cs[i..i + 5];
      if hand[0].rank == Ace && hand[1].rank == Five then
        assert forall c | c in hand[1..] + [hand[0]] :: c in hand;
        Some(hand[1..] + [hand[0]])
      else if hand[0].rank - hand[4].rank == 4 then Some(hand)
      else ScanWindows(cs, i + 1)
  }

  /** straight_flush(cards): a run among the cards of the chosen suit. */
  function StraightFlushOf(cards: seq<Card>): (h: Option<Hand>)
    ensures h.Some? ==> h.value.StraightFlush? && |h.value.cards| == 5
    ensures h.Some? ==> forall c | c in h.value.cards :: c in cards && c.suit == MaxSuit(cards)
  {
    var s := MaxSuit(cards);
    if CountSuit(cards, s) >= 5 then
      var suited := OfSuit(cards, s);
      match ScanWindows(SortDesc(suited), 0)
      case None => None
      case Some(p) =>
        SameElements(SortDesc(suited), suited);
        Some(StraightFlush(p))
    else None
  }

  /** straight(cards): a run among one card of each rank. */
  function StraightOf(cards: seq<Card>): (h: Option<Hand>)
    ensures h.Some? ==> h.value.Straight? && |h.value.cards| == 5
    ensures h.Some? ==> forall c | c in h.value.cards :: c in cards
  {
    var u := Dedup(cards);
    match ScanWindows(SortDesc(u), 0)
    case None => None
    case Some(p) =>
      SameElements(SortDesc(u), u);
      Some(Straight(p))
  }

  // ---------------------------------------------------------------------------------
  // Two pair, in its two versions
  // ---------------------------------------------------------------------------------

  /**
   * The second half of two_pair: a pair in pool, and the first card beside it as the
   * kicker. The two copies of the source differ only in the pool they search.
   */
  function SecondPair(high: Card, pool: seq<Card>): (h: Option<Hand>)
    requires |pool| >= 3
    ensures h.Some? ==> h.value.TwoPair? && h.value.high == high
    ensures h.Some? ==> h.value.low in pool && h.value.kicker in pool
    ensures h.Some? <==> PairOf(pool).Some?
  {
    match PairOf(pool)
    case None => None
    case Some(lo) => Some(TwoPair(high, lo.card, lo.kickers[0]))
  }

  /**
   * two_pair of PokerGame.py: the pair, then a second pair looked for only among the
   * pair's three kickers.
   */
  function TwoPairOf(cards: seq<Card>): (h: Option<Hand>)
    requires |cards| >= 5
    ensures h.Some? ==> h.value.TwoPair? && DrawnFrom(h.value, cards)
  {
    match PairOf(cards)
    case None => None
    case Some(hi) =>
      assert |hi.kickers| == 3;
      SecondPair(hi.card, hi.kickers)
  }

  /**
   * What two_pair of PokerGame.py finds: two pair exactly when there is a pair and its
   * three kickers (the top three cards of the other ranks) hold a rank exactly twice;
   * the high pair is pair()'s card, the low pair and the kicker come from those three
   * kickers, and the kicker is the one of them outside the low pair.
   */
  lemma TwoPairOfSpec(cards: seq<Card>)
    requires |cards| >= 5
    ensures TwoPairOf(cards).Some? <==>
      PairOf(cards).Some? && exists q | 1 <= q <= 13 :: CountRank(PairOf(cards).value.kickers, q) == 2
    ensures TwoPairOf(cards).Some? ==>
      var hi := PairOf(cards).value;
      var h := TwoPairOf(cards).value;
      && h.high == hi.card
      && IsTopOf(hi.kickers, WithoutRank(cards, hi.card.rank), 3)
      && h.low in hi.kickers && CountRank(hi.kickers, h.low.rank) == 2
      && (forall q | h.low.rank < q <= 13 :: CountRank(hi.kickers, q) != 2)
      && h.kicker in hi.kickers && h.kicker.rank != h.low.rank
  {
    match PairOf(cards)
    case None =>
    case Some(hi) =>
      GroupKickers(cards, 2, 3);
      assert TwoPairOf(cards) == SecondPair(hi.card, hi.kickers);
      match PairOf(hi.kickers)
      case None =>
        assert forall q | 1 <= q <= 13 :: CountRank(hi.kickers, q) != 2;
      case Some(lo) =>
        assert CountRank(hi.kickers, lo.card.rank) == 2;
        assert lo.kickers[0] in lo.kickers;
  }

  /**
   * two_pair of the standalone copy: the pair, then a second pair looked for among all
   * cards of the other ranks.
   */
  function TwoPairStandaloneOf(cards: seq<Card>): (h: Option<Hand>)
    requires |cards| >= 5
    ensures h.Some? ==> h.value.TwoPair? && DrawnFrom(h.value, cards)
  {
    match PairOf(cards)
    case None => None
    case Some(hi) =>
      var rest := WithoutRank(cards, hi.card.rank);
      assert |rest| == |cards| - 2;
      SecondPair(hi.card, rest)
  }

  // ---------------------------------------------------------------------------------
  // The evaluators
  // ---------------------------------------------------------------------------------

  /**
   * The priority chain shared by both copies: the first category that matches wins;
   * the two copies differ only in the two-pair helper, passed in as twoPair.
   */
  function Classify(cards: seq<Card>, twoPair: Option<Hand>): (h: Hand)
    requires |cards| >= 5
    requires twoPair.Some? ==> twoPair.value.TwoPair? && DrawnFrom(twoPair.value, cards)
    ensures WellFormed(h) && DrawnFrom(h, cards)
  {
    var sf := StraightFlushOf(cards);
    if sf.Some? then sf.value
    else
      var quads := QuadsOf(cards);
      if quads.Some? then quads.value
      else
        var full := FullHouseOf(cards);
        if full.Some? then full.value
        else
          var fl := FlushOf(cards);
          if fl.Some? then fl.value
          else ClassifyBelowFlush(cards, twoPair)
  }

  /** The tail of the chain: straight, three of a kind, two pair, pair, high card. */
  function ClassifyBelowFlush(cards: seq<Card>, twoPair: Option<Hand>): (h: Hand)
    requires |cards| >= 5
    requires twoPair.Some? ==> twoPair.value.TwoPair? && DrawnFrom(twoPair.value, cards)
    ensures WellFormed(h) && DrawnFrom(h, cards)
  {
    var st := StraightOf(cards);
    if st.Some? then st.value
    else
      var trips := TripsOf(cards);
      if trips.Some? then ThreeOfKind(trips.value.card, trips.value.kickers)
      else if twoPair.Some? then twoPair.value
      else
        var pair := PairOf(cards);
        if pair.Some? then OnePair(pair.value.card, pair.value.kickers)
        else
          TopIsHighest(cards, 5);
          HighCard(Top(cards, 5))
  }

  /** _evaluate_hand of PokerGame.py. Fewer than five cards give None. */
  function Evaluate(cards: seq<Card>): (r: Option<Hand>)
    ensures r.None? <==> |cards| < 5
    ensures r.Some? ==> WellFormed(r.value) && DrawnFrom(r.value, cards)
  {
    if |cards| < 5 then None
    else
      Some(Classify(cards, TwoPairOf(cards)))
  }

  /** evaluate_hand of the standalone copy in the evaluator tests. */
  function EvaluateStandalone(cards: seq<Card>): (r: Option<Hand>)
    ensures r.None? <==> |cards| < 5
    ensures r.Some? ==> WellFormed(r.value) && DrawnFrom(r.value, cards)
  {
    if |cards| < 5 then None
    else
      Some(Classify(cards, TwoPairStandaloneOf(cards)))
  }
}
