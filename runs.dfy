/**
 * What straight() and straight_flush() find. Both scan five-card windows of a list
 * sorted highest first in which no rank repeats; the lemmas here say which runs of
 * ranks that scan does and does not see.
 */
module Runs {
  import opened Wrappers
  import opened Cards
  import opened HandEvaluator

  /** The five ranks h, h-1, h-2, h-3, h-4 are all held; h runs from 5 (six high) to Ace. */
  predicate HasRun(cards: seq<Card>, h: int)
  {
    var rs := Ranks(cards);
    5 <= h <= 13 && h in rs && h - 1 in rs && h - 2 in rs && h - 3 in rs && h - 4 in rs
  }

  /** Ace, 2, 3, 4 and 5 are all held. */
  predicate HasWheel(cards: seq<Card>)
  {
    var rs := Ranks(cards);
    Ace in rs && 1 in rs && 2 in rs && 3 in rs && Five in rs
  }

  /** The wheel as the window scan sees it: Ace to 5, and no rank from 6 to King. */
  predicate WheelAsWritten(cards: seq<Card>)
  {
    HasWheel(cards) && forall q | 5 <= q <= 12 :: q !in Ranks(cards)
  }

  /** 5, 4, 3, 2, Ace. */
  predicate IsWheel(p: seq<Card>)
  {
    |p| == 5 && p[0].rank == Five && p[1].rank == 3 && p[2].rank == 2 && p[3].rank == 1 && p[4].rank == Ace
  }

  /** Five consecutive ranks, highest first, or the wheel. */
  predicate IsRun(p: seq<Card>)
  {
    || IsWheel(p)
    || (|p| == 5 && p[1].rank == p[0].rank - 1 && p[2].rank == p[0].rank - 2
        && p[3].rank == p[0].rank - 3 && p[4].rank == p[0].rank - 4)
  }

  /** In a strictly descending list, the next rank held below u[j] sits at j + 1. */
  lemma NextHeld(u: seq<Card>, j: nat, r: int)
    requires StrictDesc(u) && j < |u|
    requires r in Ranks(u) && r < u[j].rank
    requires forall q | r < q < u[j].rank :: q !in Ranks(u)
    ensures j + 1 < |u| && u[j + 1].rank == r
  {
    var c :| c in u && c.rank == r;
    var m :| 0 <= m < |u| && u[m] == c;
    assert j < m;
    assert u[j + 1] in u;
    assert u[j + 1].rank in Ranks(u);
  }

  /** A run h high in a strictly descending list occupies the five places from h's. */
  lemma RunAt(u: seq<Card>, h: int) returns (j: nat)
    requires StrictDesc(u) && HasRun(u, h)
    ensures j + 5 <= |u| && u[j].rank == h && u[j + 4].rank == h - 4
  {
    var c :| c in u && c.rank == h;
    var m :| 0 <= m < |u| && u[m] == c;
    j := m;
    NextHeld(u, j, h - 1);
    NextHeld(u, j + 1, h - 2);
    NextHeld(u, j + 2, h - 3);
    NextHeld(u, j + 3, h - 4);
  }

  /** In a strictly descending list every card after the first is lower than the first. */
  lemma FirstIsHighest(u: seq<Card>, m: nat)
    requires StrictDesc(u) && m < |u|
    ensures m == 0 || u[0].rank > u[m].rank
  {
  }

  /** The wheel as written sits at the head of a strictly descending list: Ace, 5, 4, 3, 2. */
  lemma WheelAtHead(u: seq<Card>)
    requires StrictDesc(u) && WheelAsWritten(u)
    ensures 5 <= |u| && u[0].rank == Ace && u[1].rank == Five
  {
    var c :| c in u && c.rank == Ace;
    var m :| 0 <= m < |u| && u[m] == c;
    FirstIsHighest(u, m);
    assert m == 0;
    NextHeld(u, 0, Five);
    NextHeld(u, 1, 3);
    NextHeld(u, 2, 2);
    NextHeld(u, 3, 1);
  }

  /**
   * Soundness of the scan: what it returns is a run, and the wheel comes only from a
   * list that starts Ace, 5.
   */
  lemma {:induction false} ScanSound(u: seq<Card>, i: nat)
    requires StrictDesc(u) && ScanWindows(u, i).Some?
    ensures IsRun(ScanWindows(u, i).value)
    ensures IsWheel(ScanWindows(u, i).value) ==> u[0].rank == Ace && u[1].rank == Five
    decreases |u| - i
  {
    var hand := u[i..i + 5];
    if hand[0].rank == Ace && hand[1].rank == Five {
      assert u[0].rank <= Ace;
      assert i == 0;
    } else if hand[0].rank - hand[4].rank == 4 {
      assert u[i] == hand[0] && u[i + 1] == hand[1] && u[i + 2] == hand[2];
      assert u[i + 3] == hand[3] && u[i + 4] == hand[4];
    } else {
      ScanSound(u, i + 1);
    }
  }

  /**
   * Completeness of the scan for runs other than the wheel: a run starting at or after
   * i is found, and what is found is at least as high.
   */
  lemma {:induction false} ScanComplete(u: seq<Card>, i: nat, j: nat)
    requires StrictDesc(u) && i <= j && j + 5 <= |u| && u[j].rank - u[j + 4].rank == 4
    ensures ScanWindows(u, i).Some? && ScanWindows(u, i).value[0].rank >= u[j].rank
    decreases j - i
  {
    var hand := u[i..i + 5];
    assert hand[0] == u[i] && hand[1] == u[i + 1] && hand[4] == u[i + 4];
    if i < j && !(hand[0].rank == Ace && hand[1].rank == Five) && hand[0].rank - hand[4].rank != 4 {
      ScanComplete(u, i + 1, j);
    }
  }

  /** Sorting a list of distinct ranks gives a strictly descending list of the same cards. */
  lemma SortedView(v: seq<Card>)
    requires DistinctRanks(v)
    ensures StrictDesc(SortDesc(v))
    ensures forall c :: c in SortDesc(v) <==> c in v
    ensures Ranks(SortDesc(v)) == Ranks(v)
  {
    SortDescSorted(v);
    SameElements(SortDesc(v), v);
  }

  /** Every run held is found, and the wheel-as-written too. */
  lemma RunScanComplete(v: seq<Card>)
    requires DistinctRanks(v)
    ensures var r := ScanWindows(SortDesc(v), 0);
      ((exists h :: HasRun(v, h)) || WheelAsWritten(v)) ==> r.Some?
    ensures var r := ScanWindows(SortDesc(v), 0);
      forall h | HasRun(v, h) :: r.Some? && h <= r.value[0].rank
  {
    var u := SortDesc(v);
    SortedView(v);
    var r := ScanWindows(u, 0);
    forall h | HasRun(v, h) ensures r.Some? && h <= r.value[0].rank {
      assert HasRun(u, h);
      var j := RunAt(u, h);
      ScanComplete(u, 0, j);
    }
    if WheelAsWritten(v) {
      assert WheelAsWritten(u);
      WheelAtHead(u);
      assert r.Some?;
    }
  }

  /** On a strictly descending list: the wheel found is the wheel-as-written, another run is held. */
  lemma ScanHeld(u: seq<Card>)
    requires StrictDesc(u) && ScanWindows(u, 0).Some?
    ensures var p := ScanWindows(u, 0).value;
      && IsRun(p)
      && (IsWheel(p) ==> WheelAsWritten(u))
      && (!IsWheel(p) ==> HasRun(u, p[0].rank))
  {
    var p := ScanWindows(u, 0).value;
    ScanSound(u, 0);
    assert p[0] in u && p[1] in u && p[2] in u && p[3] in u && p[4] in u;
    assert p[0].rank in Ranks(u) && p[1].rank in Ranks(u) && p[2].rank in Ranks(u);
    assert p[3].rank in Ranks(u) && p[4].rank in Ranks(u);
    if IsWheel(p) {
      forall c | c in u ensures c.rank == Ace || c.rank <= Five {
        var k :| 0 <= k < |u| && u[k] == c;
        if k >= 1 {
          assert u[k].rank <= u[1].rank;
        }
      }
    }
  }

  /** What the scan finds is a run of the cards, the wheel only when it is the wheel-as-written. */
  lemma RunScanSound(v: seq<Card>)
    requires DistinctRanks(v)
    ensures var r := ScanWindows(SortDesc(v), 0);
      r.Some? ==> IsRun(r.value) && (forall c | c in r.value :: c in v)
                  && (IsWheel(r.value) ==> WheelAsWritten(v))
                  && (!IsWheel(r.value) ==> HasRun(v, r.value[0].rank))
  {
    var u := SortDesc(v);
    SortedView(v);
    if ScanWindows(u, 0).Some? {
      ScanHeld(u);
    }
  }

  /**
   * The scan over a list of distinct ranks sorted highest first: it finds something
   * exactly when some run or the wheel-as-written is held, what it finds is a run of
   * those cards, and no run held is higher.
   */
  lemma RunScan(v: seq<Card>)
    requires DistinctRanks(v)
    ensures var r := ScanWindows(SortDesc(v), 0);
      r.Some? <==> (exists h :: HasRun(v, h)) || WheelAsWritten(v)
    ensures var r := ScanWindows(SortDesc(v), 0);
      r.Some? ==> IsRun(r.value) && (forall c | c in r.value :: c in v)
                  && (forall h | HasRun(v, h) :: h <= r.value[0].rank)
                  && (IsWheel(r.value) ==> WheelAsWritten(v))
                  && (!IsWheel(r.value) ==> HasRun(v, r.value[0].rank))
  {
    RunScanComplete(v);
    RunScanSound(v);
  }

  /**
   * straight(): it reports a straight exactly when some run is held or the
   * wheel-as-written is; the straight reported is a run of the cards and no run held is
   * higher.
   */
  lemma StraightOfSpec(cards: seq<Card>)
    ensures StraightOf(cards).Some? <==> (exists h :: HasRun(cards, h)) || WheelAsWritten(cards)
    ensures StraightOf(cards).Some? ==>
      var p := StraightOf(cards).value.cards;
      && IsRun(p)
      && (forall h | HasRun(cards, h) :: h <= p[0].rank)
      && (IsWheel(p) ==> WheelAsWritten(cards))
      && (!IsWheel(p) ==> HasRun(cards, p[0].rank))
  {
    var v := Dedup(cards);
    RunScan(v);
    SameRuns(v, cards);
  }

  /** Runs and the wheel depend only on the set of ranks held. */
  lemma SameRuns(a: seq<Card>, b: seq<Card>)
    requires Ranks(a) == Ranks(b)
    ensures forall h :: HasRun(a, h) <==> HasRun(b, h)
    ensures WheelAsWritten(a) <==> WheelAsWritten(b)
  {
  }

  /**
   * straight_flush(), for cards from one deck: it reports a straight flush exactly when
   * the most common suit has five or more cards and holds a run or the
   * wheel-as-written; the cards reported are a run of that suit and no run held in
   * that suit is higher.
   */
  lemma StraightFlushOfSpec(cards: seq<Card>)
    requires NoDuplicates(cards)
    ensures var v := OfSuit(cards, MaxSuit(cards));
      StraightFlushOf(cards).Some? <==>
        CountSuit(cards, MaxSuit(cards)) >= 5 && ((exists h :: HasRun(v, h)) || WheelAsWritten(v))
    ensures StraightFlushOf(cards).Some? ==>
      var v := OfSuit(cards, MaxSuit(cards));
      var p := StraightFlushOf(cards).value.cards;
      && IsRun(p)
      && (forall c | c in p :: c in cards && c.suit == MaxSuit(cards))
      && (forall h | HasRun(v, h) :: h <= p[0].rank)
      && (IsWheel(p) ==> WheelAsWritten(v))
  {
    var v := OfSuit(cards, MaxSuit(cards));
    OfSuitDistinctRanks(cards, MaxSuit(cards));
    RunScan(v);
  }
}
