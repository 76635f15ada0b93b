/**
 * The evaluator as its tests and comments intend it: straights that count the Ace low
 * whatever other ranks are held, a full house from any rank held three or more times
 * and another held two or more times, and two pair searched among all other cards.
 * Each corrected detector is proved against its intended meaning; where the source's
 * detector is right, the two agree.
 */
module CorrectedEvaluator {
  import opened Wrappers
  import opened Cards
  import opened HandEvaluator
  import opened Runs

  // ---------------------------------------------------------------------------------
  // Straights with the Ace also low
  // ---------------------------------------------------------------------------------

  /** The highest run held with top rank h or lower; below six high only the wheel (5 high) is left. */
  function BestRun(cards: seq<Card>, h: int): (r: Option<int>)
    requires 4 <= h <= 13
    decreases h
    ensures r.Some? ==> (r.value == Five && HasWheel(cards)) || (5 <= r.value <= h && HasRun(cards, r.value))
    ensures r.Some? ==> forall k | r.value < k <= h :: !HasRun(cards, k)
    ensures r.None? <==> (forall k | 5 <= k <= h :: !HasRun(cards, k)) && !HasWheel(cards)
  {
    if h == Five then (if HasWheel(cards) then Some(Five) else None)
    else if HasRun(cards, h) then Some(h)
    else BestRun(cards, h - 1)
  }

  /** One card of each rank of the run h high (the wheel for h = 5 high), the first held of each. */
  function RunCards(cards: seq<Card>, h: int): (p: seq<Card>)
    requires 4 <= h <= 13
    requires (h == Five && HasWheel(cards)) || HasRun(cards, h)
    ensures IsRun(p) && p[0].rank == h
    ensures forall c | c in p :: c in cards
  {
    if h == Five then
      [FirstOfRank(cards, Five), FirstOfRank(cards, 3), FirstOfRank(cards, 2), FirstOfRank(cards, 1), FirstOfRank(cards, Ace)]
    else
      [FirstOfRank(cards, h), FirstOfRank(cards, h - 1), FirstOfRank(cards, h - 2), FirstOfRank(cards, h - 3),
       FirstOfRank(cards, h - 4)]
  }

  /** straight() as intended: the highest run held, the Ace counting high or low. */
  function StraightIntendedOf(cards: seq<Card>): (h: Option<Hand>)
    ensures h.Some? ==> h.value.Straight? && IsRun(h.value.cards)
    ensures h.Some? ==> forall c | c in h.value.cards :: c in cards
  {
    match BestRun(cards, 13)
    case None => None
    case Some(t) => Some(Straight(RunCards(cards, t)))
  }

  /**
   * The intended meaning: a straight is reported exactly when some run or the wheel is
   * held, and it is the highest run held.
   */
  lemma StraightIntendedSpec(cards: seq<Card>)
    ensures StraightIntendedOf(cards).Some? <==> (exists h :: HasRun(cards, h)) || HasWheel(cards)
    ensures StraightIntendedOf(cards).Some? ==>
      var p := StraightIntendedOf(cards).value.cards;
      forall h | HasRun(cards, h) :: h <= p[0].rank
  {
    if exists h :: HasRun(cards, h) {
      var h :| HasRun(cards, h);
      assert BestRun(cards, 13).Some?;
    }
  }

  /** The height of what the source's straight() finds is the intended height. */
  lemma StraightHeightAgrees(cards: seq<Card>)
    requires StraightOf(cards).Some?
    ensures BestRun(cards, 13) == Some(StraightOf(cards).value.cards[0].rank)
  {
    StraightOfSpec(cards);
    var p := StraightOf(cards).value.cards;
    if IsWheel(p) {
      assert forall k | 5 <= k <= 13 :: !HasRun(cards, k) by {
        forall k | 5 <= k <= 13 ensures !HasRun(cards, k) {
          assert (k <= 12 && k !in Ranks(cards)) || (k == 13 && k - 1 !in Ranks(cards));
        }
      }
    }
  }

  /** Each card of what the source's straight() finds is the first held card of its rank. */
  lemma StraightCardsFirst(cards: seq<Card>)
    requires StraightOf(cards).Some?
    ensures forall c | c in StraightOf(cards).value.cards :: c.rank in Ranks(cards) && c == FirstOfRank(cards, c.rank)
  {
    var u := Dedup(cards);
    SameElements(SortDesc(u), u);
    DedupFirst(cards);
  }

  /** A run made of first-held cards is the run RunCards builds for its height. */
  lemma RunCardsOf(cards: seq<Card>, p: seq<Card>)
    requires IsRun(p) && forall c | c in p :: c.rank in Ranks(cards) && c == FirstOfRank(cards, c.rank)
    ensures 4 <= p[0].rank && ((p[0].rank == Five && HasWheel(cards)) || HasRun(cards, p[0].rank))
    ensures RunCards(cards, p[0].rank) == p
  {
    assert p[0] in p && p[1] in p && p[2] in p && p[3] in p && p[4] in p;
    var q := RunCards(cards, p[0].rank);
    assert q[0] == p[0] && q[1] == p[1] && q[2] == p[2] && q[3] == p[3] && q[4] == p[4];
  }

  /** Where the source's straight() reports a straight, it is the intended one. */
  lemma StraightAgrees(cards: seq<Card>)
    requires StraightOf(cards).Some?
    ensures StraightIntendedOf(cards) == StraightOf(cards)
  {
    StraightHeightAgrees(cards);
    StraightOfSpec(cards);
    StraightCardsFirst(cards);
    RunCardsOf(cards, StraightOf(cards).value.cards);
  }

  /** straight_flush() as intended: the highest run, Ace high or low, in the most common suit. */
  function StraightFlushIntendedOf(cards: seq<Card>): (h: Option<Hand>)
    ensures h.Some? ==> h.value.StraightFlush? && IsRun(h.value.cards)
    ensures h.Some? ==> forall c | c in h.value.cards :: c in cards && c.suit == MaxSuit(cards)
  {
    var s := MaxSuit(cards);
    if CountSuit(cards, s) >= 5 then
      match StraightIntendedOf(OfSuit(cards, s))
      case None => None
      case Some(st) => Some(StraightFlush(st.cards))
    else None
  }

  /** The intended meaning: the most common suit has five cards or more and holds a run or the wheel. */
  lemma StraightFlushIntendedSpec(cards: seq<Card>)
    ensures var v := OfSuit(cards, MaxSuit(cards));
      StraightFlushIntendedOf(cards).Some? <==>
        CountSuit(cards, MaxSuit(cards)) >= 5 && ((exists h :: HasRun(v, h)) || HasWheel(v))
    ensures var v := OfSuit(cards, MaxSuit(cards));
      StraightFlushIntendedOf(cards).Some? ==>
        forall h | HasRun(v, h) :: h <= StraightFlushIntendedOf(cards).value.cards[0].rank
  {
    StraightIntendedSpec(OfSuit(cards, MaxSuit(cards)));
  }

  // ---------------------------------------------------------------------------------
  // Full house from counts of three or more and two or more
  // ---------------------------------------------------------------------------------

  /** The highest rank r or lower, other than skip, held at least k times. */
  function HighestAtLeast(cards: seq<Card>, k: nat, r: int, skip: int): (res: Option<Rank>)
    requires 0 <= r <= 13
    decreases r
    ensures res.Some? ==> res.value <= r && res.value != skip && CountRank(cards, res.value) >= k
    ensures res.Some? ==> forall q | res.value < q <= r && q != skip :: CountRank(cards, q) < k
    ensures res.None? <==> forall q | 1 <= q <= r && q != skip :: CountRank(cards, q) < k
  {
    if r == 0 then None
    else if r != skip && CountRank(cards, r) >= k then Some(r)
    else HighestAtLeast(cards, k, r - 1, skip)
  }

  /**
   * full_house() as intended: three of the highest rank held three or more times over
   * two of the highest other rank held two or more times.
   */
  function FullHouseIntendedOf(cards: seq<Card>): (h: Option<Hand>)
    ensures h.Some? ==> h.value.FullHouse? && h.value.trips in cards && h.value.pair in cards
  {
    match HighestAtLeast(cards, 3, 13, 0)
    case None => None
    case Some(t) =>
      assert t in Ranks(cards);
      match HighestAtLeast(cards, 2, 13, t)
      case None => None
      case Some(p) =>
        assert p in Ranks(cards);
        Some(FullHouse(FirstOfRank(cards, t), FirstOfRank(cards, p)))
  }

  /**
   * The intended full house is three of the highest rank held three times or more over
   * the highest other rank held twice or more, and there is none exactly when no two
   * different ranks are held three and two times.
   */
  lemma FullHouseIntendedSpec(cards: seq<Card>)
    ensures var h := FullHouseIntendedOf(cards);
      h.Some? ==>
        && h.value.trips.rank != h.value.pair.rank
        && CountRank(cards, h.value.trips.rank) >= 3 && CountRank(cards, h.value.pair.rank) >= 2
        && (forall q | h.value.trips.rank < q <= 13 :: CountRank(cards, q) < 3)
        && (forall q | h.value.pair.rank < q <= 13 && q != h.value.trips.rank :: CountRank(cards, q) < 2)
    ensures FullHouseIntendedOf(cards).None? <==>
      !exists t, p | 1 <= t <= 13 && 1 <= p <= 13 && t != p :: CountRank(cards, t) >= 3 && CountRank(cards, p) >= 2
  {
    var ht := HighestAtLeast(cards, 3, 13, 0);
    if ht.Some? {
      var t := ht.value;
      var hp := HighestAtLeast(cards, 2, 13, t);
      if hp.None? {
        OnlyOneGroup(cards, t);
      } else {
        var p := hp.value;
        assert 1 <= t <= 13 && 1 <= p <= 13 && t != p && CountRank(cards, t) >= 3 && CountRank(cards, p) >= 2;
      }
    }
  }

  /** When no rank but t is held twice, no two different ranks make a full house. */
  lemma OnlyOneGroup(cards: seq<Card>, t: int)
    requires forall q | 1 <= q <= 13 && q != t :: CountRank(cards, q) < 2
    ensures !exists t', p | 1 <= t' <= 13 && 1 <= p <= 13 && t' != p ::
              CountRank(cards, t') >= 3 && CountRank(cards, p) >= 2
  {
    forall t', p | 1 <= t' <= 13 && 1 <= p <= 13 && t' != p
      ensures CountRank(cards, t') < 3 || CountRank(cards, p) < 2
    {
      if p != t {
        assert CountRank(cards, p) < 2;
      } else {
        assert CountRank(cards, t') < 2;
      }
    }
  }

  // ---------------------------------------------------------------------------------
  // Two pair searched among all other cards
  // ---------------------------------------------------------------------------------

  /** The two ranks the standalone two_pair reports are both held exactly twice, the higher first. */
  lemma TwoPairStandaloneRanks(cards: seq<Card>)
    requires |cards| >= 5 && TwoPairStandaloneOf(cards).Some?
    ensures var h := TwoPairStandaloneOf(cards).value;
      && CountRank(cards, h.high.rank) == 2 && CountRank(cards, h.low.rank) == 2
      && h.low.rank < h.high.rank
      && (forall q | h.high.rank < q <= 13 :: CountRank(cards, q) != 2)
      && (forall q | h.low.rank < q <= 13 && q != h.high.rank :: CountRank(cards, q) != 2)
  {
    var hi := PairOf(cards).value;
    var rest := WithoutRank(cards, hi.card.rank);
    var lo := PairOf(rest).value;
    forall q | q != hi.card.rank ensures CountRank(rest, q) == CountRank(cards, q) {
      WithoutRankCounts(cards, hi.card.rank, q);
    }
    assert lo.card.rank != hi.card.rank;
  }

  /** The standalone two_pair's kicker is the highest card of neither pair rank. */
  lemma TwoPairStandaloneKicker(cards: seq<Card>)
    requires |cards| >= 5 && TwoPairStandaloneOf(cards).Some?
    ensures var h := TwoPairStandaloneOf(cards).value;
      && h.kicker.rank != h.high.rank && h.kicker.rank != h.low.rank
      && (forall c | c in cards && c.rank != h.high.rank && c.rank != h.low.rank :: c.rank <= h.kicker.rank)
  {
    var hi := PairOf(cards).value;
    var rest := WithoutRank(cards, hi.card.rank);
    var lo := PairOf(rest).value;
    GroupKickers(rest, 2, 3);
    var rest2 := WithoutRank(rest, lo.card.rank);
    TopFirstIsMax(lo.kickers, rest2, 3);
    assert lo.kickers[0] in rest2;
    forall c | c in cards && c.rank != hi.card.rank && c.rank != lo.card.rank ensures c in rest2 {
    }
  }

  /** Two pair: two different ranks each held exactly twice. */
  predicate TwoPairHeld(cards: seq<Card>)
  {
    exists a, b | 1 <= a <= 13 && 1 <= b <= 13 && a != b :: CountRank(cards, a) == 2 && CountRank(cards, b) == 2
  }

  /** The standalone two_pair reports two pair exactly when two different ranks are each held exactly twice. */
  lemma TwoPairStandaloneExists(cards: seq<Card>)
    requires |cards| >= 5
    ensures TwoPairStandaloneOf(cards).Some? <==> TwoPairHeld(cards)
  {
    if TwoPairStandaloneOf(cards).Some? {
      TwoPairStandaloneRanks(cards);
      var h := TwoPairStandaloneOf(cards).value;
      assert h.high.rank != h.low.rank;
    }
    if TwoPairHeld(cards) {
      var a, b :| 1 <= a <= 13 && 1 <= b <= 13 && a != b && CountRank(cards, a) == 2 && CountRank(cards, b) == 2;
      var hi := PairOf(cards).value;
      var rest := WithoutRank(cards, hi.card.rank);
      var other := if a != hi.card.rank then a else b;
      WithoutRankCounts(cards, hi.card.rank, other);
      assert CountRank(rest, other) == 2;
    }
  }

  /**
   * The standalone copy's two_pair, the intended one: two pair exactly when two ranks
   * are each held exactly twice; the highest such rank, the highest other such rank,
   * and the highest card of neither.
   */
  lemma TwoPairStandaloneSpec(cards: seq<Card>)
    requires |cards| >= 5
    ensures TwoPairStandaloneOf(cards).Some? <==> TwoPairHeld(cards)
    ensures TwoPairStandaloneOf(cards).Some? ==>
      var h := TwoPairStandaloneOf(cards).value;
      && CountRank(cards, h.high.rank) == 2 && CountRank(cards, h.low.rank) == 2
      && h.low.rank < h.high.rank
      && (forall q | h.high.rank < q <= 13 :: CountRank(cards, q) != 2)
      && (forall q | h.low.rank < q <= 13 && q != h.high.rank :: CountRank(cards, q) != 2)
      && h.kicker.rank != h.high.rank && h.kicker.rank != h.low.rank
      && (forall c | c in cards && c.rank != h.high.rank && c.rank != h.low.rank :: c.rank <= h.kicker.rank)
  {
    TwoPairStandaloneExists(cards);
    if TwoPairStandaloneOf(cards).Some? {
      TwoPairStandaloneRanks(cards);
      TwoPairStandaloneKicker(cards);
    }
  }

  // ---------------------------------------------------------------------------------
  // The corrected evaluator
  // ---------------------------------------------------------------------------------

  /** The priority chain of _evaluate_hand over the corrected detectors. */
  function ClassifyIntended(cards: seq<Card>): (h: Hand)
    requires |cards| >= 5
    ensures WellFormed(h) && DrawnFrom(h, cards)
  {
    var sf := StraightFlushIntendedOf(cards);
    if sf.Some? then sf.value
    else
      var quads := QuadsOf(cards);
      if quads.Some? then quads.value
      else
        var full := FullHouseIntendedOf(cards);
        if full.Some? then full.value
        else
          var fl := FlushOf(cards);
          if fl.Some? then fl.value
          else
            var st := StraightIntendedOf(cards);
            if st.Some? then st.value
            else
              // ClassifyBelowFlush checks the as-written straight() again; it finds nothing
              // here, since by StraightAgrees it can only report what StraightIntendedOf does.
              var tp := TwoPairStandaloneOf(cards);
              ClassifyBelowFlush(cards, tp)
  }

  /** The evaluator with the corrected detectors. Fewer than five cards give None. */
  function EvaluateIntended(cards: seq<Card>): (r: Option<Hand>)
    ensures r.None? <==> |cards| < 5
    ensures r.Some? ==> WellFormed(r.value) && DrawnFrom(r.value, cards)
  {
    if |cards| < 5 then None else Some(ClassifyIntended(cards))
  }
}
