/**
 * Cards as the hand evaluator sees them. A rank is its value on the RANKS scale that
 * PokerGame.py takes from POKER_RANKS: '2' is 1, '3' is 2, ..., 'King' is 12 and
 * 'Ace' is 13. Suits matter only for flush detection. Cards are ordered by rank alone.
 */
module Cards {
  import opened Wrappers

  type Rank = r: int | 1 <= r <= 13 witness 1

  const Ace: Rank := 13
  /** the card '5', the top of the wheel A-2-3-4-5 */
  const Five: Rank := 4

  datatype Suit = Clubs | Diamonds | Hearts | Spades

  datatype Card = Card(rank: Rank, suit: Suit)

  /** The set of ranks held. */
  function Ranks(cards: seq<Card>): set<int>
  {
    set c | c in cards :: c.rank
  }

  /** How many cards have rank r (the rank_counter tallies). */
  function CountRank(cards: seq<Card>, r: int): (n: nat)
    ensures n <= |cards|
    ensures n == 0 <==> r !in Ranks(cards)
  {
    if cards == [] then 0
    else
      assert forall c | c in cards :: c == cards[0] || c in cards[1..];
      (if cards[0].rank == r then 1 else 0) + CountRank(cards[1..], r)
  }

  /** How many cards have suit s (the suits_counter tallies). */
  function CountSuit(cards: seq<Card>, s: Suit): (n: nat)
    ensures n <= |cards|
  {
    if cards == [] then 0
    else (if cards[0].suit == s then 1 else 0) + CountSuit(cards[1..], s)
  }

  /** A suit counts 0 exactly when no card has it. */
  lemma {:induction false} CountSuitZero(cards: seq<Card>, s: Suit)
    ensures CountSuit(cards, s) == 0 <==> forall c | c in cards :: c.suit != s
  {
    if cards != [] {
      CountSuitZero(cards[1..], s);
      assert forall c | c in cards :: c == cards[0] || c in cards[1..];
    }
  }

  /** The cards whose rank is not r, in their original order. */
  function WithoutRank(cards: seq<Card>, r: int): (rest: seq<Card>)
    ensures |rest| == |cards| - CountRank(cards, r)
    ensures forall c :: c in rest <==> c in cards && c.rank != r
  {
    if cards == [] then []
    else
      var tail := WithoutRank(cards[1..], r);
      assert cards == [cards[0]] + cards[1..];
      if cards[0].rank == r then tail else [cards[0]] + tail
  }

  /** Removing rank r leaves the count of every other rank as it was. */
  lemma {:induction false} WithoutRankCounts(cards: seq<Card>, r: int, q: int)
    requires q != r
    ensures CountRank(WithoutRank(cards, r), q) == CountRank(cards, q)
  {
    if cards != [] {
      WithoutRankCounts(cards[1..], r, q);
    }
  }

  /** Removing a rank no card has leaves the list as it was. */
  lemma {:induction false} WithoutAbsentRank(cards: seq<Card>, r: int)
    requires r !in Ranks(cards)
    ensures WithoutRank(cards, r) == cards
  {
    if cards != [] {
      assert cards[0] in cards;
      assert Ranks(cards[1..]) <= Ranks(cards) by {
        forall c | c in cards[1..] ensures c in cards {
        }
      }
      WithoutAbsentRank(cards[1..], r);
      assert cards == [cards[0]] + cards[1..];
    }
  }

  /** Removing a rank from a leading block of that rank leaves what follows the block. */
  lemma {:induction false} WithoutLeadingRank(a: seq<Card>, b: seq<Card>, r: int)
    requires forall c | c in a :: c.rank == r
    ensures WithoutRank(a + b, r) == WithoutRank(b, r)
  {
    if a != [] {
      assert (a + b)[1..] == a[1..] + b;
      assert forall c | c in a[1..] :: c in a;
      WithoutLeadingRank(a[1..], b, r);
      assert a[0] in a && (a + b)[0] == a[0];
    } else {
      assert a + b == b;
    }
  }

  /** The cards of suit s, in their original order. */
  function OfSuit(cards: seq<Card>, s: Suit): (same: seq<Card>)
    ensures |same| == CountSuit(cards, s)
    ensures forall c :: c in same <==> c in cards && c.suit == s
  {
    if cards == [] then []
    else
      var tail := OfSuit(cards[1..], s);
      assert cards == [cards[0]] + cards[1..];
      if cards[0].suit == s then [cards[0]] + tail else tail
  }

  /** Within one suit, cards from one deck never share a rank. */
  lemma {:induction false} OfSuitDistinctRanks(cards: seq<Card>, s: Suit)
    requires NoDuplicates(cards)
    ensures DistinctRanks(OfSuit(cards, s))
  {
    if cards != [] {
      var tail := cards[1..];
      assert NoDuplicates(tail) by {
        forall i, j | 0 <= i < j < |tail| ensures tail[i] != tail[j] {
          assert tail[i] == cards[i + 1] && tail[j] == cards[j + 1];
        }
      }
      OfSuitDistinctRanks(tail, s);
      if cards[0].suit == s {
        var rest := OfSuit(tail, s);
        assert cards[0] !in tail by {
          forall k | 0 <= k < |tail| ensures tail[k] != cards[0] {
            assert tail[k] == cards[k + 1];
          }
        }
        ConsDistinct(cards[0], rest);
      }
    }
  }

  /** A card of suit s ahead of other cards of suit s keeps the ranks distinct. */
  lemma ConsDistinct(h: Card, rest: seq<Card>)
    requires DistinctRanks(rest) && h !in rest
    requires forall x | x in rest :: x.suit == h.suit
    ensures DistinctRanks([h] + rest)
  {
    var r := [h] + rest;
    forall i, j | 0 <= i < j < |r| ensures r[i].rank != r[j].rank {
      if i == 0 {
        assert r[j] in rest;
      } else {
        assert r[i] == rest[i - 1] && r[j] == rest[j - 1];
      }
    }
  }

  /** Ranks never increase from left to right. */
  predicate SortedDesc(s: seq<Card>)
  {
    forall i, j | 0 <= i < j < |s| :: s[i].rank >= s[j].rank
  }

  /** Ranks strictly decrease from left to right. */
  predicate StrictDesc(s: seq<Card>)
  {
    forall i, j | 0 <= i < j < |s| :: s[i].rank > s[j].rank
  }

  /** No two cards share a rank. */
  predicate DistinctRanks(s: seq<Card>)
  {
    forall i, j | 0 <= i < j < |s| :: s[i].rank != s[j].rank
  }

  /** No card occurs twice (cards dealt from one deck). */
  predicate NoDuplicates(s: seq<Card>)
  {
    forall i, j | 0 <= i < j < |s| :: s[i] != s[j]
  }

  /** Inserts c into a sequence, ahead of the first card whose rank is not above c's. */
  function Insert(c: Card, s: seq<Card>): (r: seq<Card>)
    ensures multiset(r) == multiset(s) + multiset{c}
    ensures |r| == |s| + 1
  {
    if s == [] || c.rank >= s[0].rank then
      [c] + s
    else
      assert s == [s[0]] + s[1..];
      [s[0]] + Insert(c, s[1..])
  }

  lemma ConsSorted(h: Card, t: seq<Card>)
    requires SortedDesc(t)
    requires forall x | x in t :: x.rank <= h.rank
    ensures SortedDesc([h] + t)
    ensures StrictDesc(t) && (forall x | x in t :: x.rank < h.rank) ==> StrictDesc([h] + t)
  {
    var r := [h] + t;
    forall i, j | 0 <= i < j < |r| ensures r[i].rank >= r[j].rank {
      assert r[j] == t[j - 1];
      if i > 0 { assert r[i] == t[i - 1]; } else { assert t[j - 1] in t; }
    }
    if StrictDesc(t) && (forall x | x in t :: x.rank < h.rank) {
      forall i, j | 0 <= i < j < |r| ensures r[i].rank > r[j].rank {
        assert r[j] == t[j - 1];
        if i > 0 { assert r[i] == t[i - 1]; } else { assert t[j - 1] in t; }
      }
    }
  }

  /** Dropping the head keeps both orders. */
  lemma TailOrdered(s: seq<Card>)
    requires s != []
    ensures SortedDesc(s) ==> SortedDesc(s[1..])
    ensures StrictDesc(s) ==> StrictDesc(s[1..])
  {
    var tail := s[1..];
    forall i, j | 0 <= i < j < |tail| ensures tail[i] == s[i + 1] && tail[j] == s[j + 1] {
    }
  }

  /** Every card after the head of a descending sequence ranks at most the head. */
  lemma BelowHead(s: seq<Card>, x: Card)
    requires s != [] && x in s[1..]
    ensures SortedDesc(s) ==> x.rank <= s[0].rank
    ensures StrictDesc(s) ==> x.rank < s[0].rank
  {
    var k :| 0 <= k < |s[1..]| && s[1..][k] == x;
    assert s[k + 1] == x;
  }

  lemma {:induction false} InsertSorted(c: Card, s: seq<Card>)
    requires SortedDesc(s)
    ensures SortedDesc(Insert(c, s))
  {
    if s == [] || c.rank >= s[0].rank {
      forall x | x in s ensures x.rank <= c.rank {
        var k :| 0 <= k < |s| && s[k] == x;
        assert s[0].rank >= s[k].rank;
      }
      ConsSorted(c, s);
    } else {
      TailOrdered(s);
      InsertSorted(c, s[1..]);
      var t := Insert(c, s[1..]);
      forall x | x in t ensures x.rank <= s[0].rank {
        assert x in multiset(t);
        if x != c {
          BelowHead(s, x);
        }
      }
      ConsSorted(s[0], t);
    }
  }

  lemma {:induction false} InsertStrict(c: Card, s: seq<Card>)
    requires StrictDesc(s) && forall x | x in s :: x.rank != c.rank
    ensures StrictDesc(Insert(c, s))
  {
    if s == [] || c.rank >= s[0].rank {
      forall x | x in s ensures x.rank < c.rank {
        var k :| 0 <= k < |s| && s[k] == x;
        assert s[0].rank >= s[k].rank;
      }
      ConsSorted(c, s);
    } else {
      TailOrdered(s);
      assert forall x | x in s[1..] :: x in s;
      InsertStrict(c, s[1..]);
      var t := Insert(c, s[1..]);
      forall x | x in t ensures x.rank < s[0].rank {
        assert x in multiset(t);
        if x != c {
          BelowHead(s, x);
        }
      }
      ConsSorted(s[0], t);
    }
  }

  /**
   * sorted(cards, reverse=True) with cards ordered by rank: a stable sort into
   * non-increasing rank order.
   */
  function SortDesc(s: seq<Card>): (r: seq<Card>)
    ensures multiset(r) == multiset(s)
    ensures |r| == |s|
  {
    if s == [] then []
    else
      assert s == [s[0]] + s[1..];
      Insert(s[0], SortDesc(s[1..]))
  }

  lemma SameElements(a: seq<Card>, b: seq<Card>)
    requires multiset(a) == multiset(b)
    ensures forall x :: x in a <==> x in b
  {
    forall x ensures x in a <==> x in b {
      assert x in a <==> x in multiset(a);
      assert x in b <==> x in multiset(b);
    }
  }

  lemma {:induction false} SortDescSorted(s: seq<Card>)
    ensures SortedDesc(SortDesc(s))
    ensures DistinctRanks(s) ==> StrictDesc(SortDesc(s))
  {
    if s != [] {
      var t := SortDesc(s[1..]);
      SortDescSorted(s[1..]);
      SameElements(t, s[1..]);
      if DistinctRanks(s) {
        forall x | x in t ensures x.rank != s[0].rank {
          var k :| 0 <= k < |s[1..]| && s[1..][k] == x;
          assert s[k + 1] == x;
        }
        assert DistinctRanks(s[1..]) by {
          forall i, j | 0 <= i < j < |s[1..]| ensures s[1..][i].rank != s[1..][j].rank {
            assert s[1..][i] == s[i + 1] && s[1..][j] == s[j + 1];
          }
        }
      }
      InsertSorted(s[0], t);
      if DistinctRanks(s) {
        InsertStrict(s[0], t);
      }
    }
  }

  /** Sorting a list that is already in order changes nothing (the sort is stable). */
  lemma {:induction false} SortDescOfSorted(s: seq<Card>)
    requires SortedDesc(s)
    ensures SortDesc(s) == s
  {
    if s != [] {
      assert SortedDesc(s[1..]) by {
        forall i, j | 0 <= i < j < |s[1..]| ensures s[1..][i].rank >= s[1..][j].rank {
          assert s[1..][i] == s[i + 1] && s[1..][j] == s[j + 1];
        }
      }
      SortDescOfSorted(s[1..]);
      assert s == [s[0]] + s[1..];
    }
  }

  /** The top k cards by rank, highest first: sorted(cards, reverse=True)[:k]. */
  function Top(s: seq<Card>, k: nat): (t: seq<Card>)
    ensures |t| == Min(k, |s|)
    ensures multiset(t) <= multiset(s)
  {
    var u := SortDesc(s);
    assert u == u[..Min(k, |u|)] + u[Min(k, |u|)..];
    u[..Min(k, |u|)]
  }

  /** The top k of a list already in order are its first k. */
  lemma TopOfSorted(s: seq<Card>, k: nat)
    requires SortedDesc(s)
    ensures Top(s, k) == s[..Min(k, |s|)]
  {
    SortDescOfSorted(s);
  }

  /**
   * The top k are sorted, drawn from s, and no card left out ranks above any card kept.
   */
  lemma TopIsHighest(s: seq<Card>, k: nat)
    ensures SortedDesc(Top(s, k))
    ensures forall x | x in Top(s, k) :: x in s
    ensures forall x, y | x in multiset(s) - multiset(Top(s, k)) && y in Top(s, k) :: x.rank <= y.rank
  {
    var u := SortDesc(s);
    SortDescSorted(s);
    PrefixOfSorted(u, Min(k, |u|));
    assert forall x | x in Top(s, k) :: x in s by {
      forall x | x in Top(s, k) ensures x in s {
        assert x in multiset(Top(s, k));
      }
    }
  }

  lemma PrefixOfSorted(u: seq<Card>, n: nat)
    requires SortedDesc(u) && n <= |u|
    ensures SortedDesc(u[..n])
    ensures forall x, y | x in multiset(u) - multiset(u[..n]) && y in u[..n] :: x.rank <= y.rank
  {
    var t := u[..n];
    var rest := u[n..];
    assert SortedDesc(t) by {
      forall i, j | 0 <= i < j < |t| ensures t[i].rank >= t[j].rank {
        assert t[i] == u[i] && t[j] == u[j];
      }
    }
    assert u == t + rest;
    assert multiset(u) - multiset(t) == multiset(rest);
    SuffixBelowPrefix(u, n);
  }

  lemma SuffixBelowPrefix(u: seq<Card>, n: nat)
    requires SortedDesc(u) && n <= |u|
    ensures forall x, y | x in multiset(u[n..]) && y in u[..n] :: x.rank <= y.rank
  {
    forall x: Card, y: Card | x in multiset(u[n..]) && y in u[..n] ensures x.rank <= y.rank {
      assert x in u[n..];
      var j :| n <= j < |u| && u[j] == x;
      var i :| 0 <= i < n && u[i] == y;
    }
  }

  /** max(cards) with cards ordered by rank: the first card of the highest rank. */
  function MaxCard(s: seq<Card>): (m: Card)
    requires |s| > 0
    ensures m in s
    ensures forall x | x in s :: x.rank <= m.rank
  {
    if |s| == 1 then s[0]
    else
      var m := MaxCard(s[1..]);
      assert forall x | x in s :: x == s[0] || x in s[1..];
      if s[0].rank >= m.rank then s[0] else m
  }

  /** The first card of rank r: next(card for card in cards if card.value == rank). */
  function FirstOfRank(cards: seq<Card>, r: int): (c: Card)
    requires r in Ranks(cards)
    ensures c in cards && c.rank == r
  {
    if cards[0].rank == r then cards[0]
    else
      assert r in Ranks(cards[1..]) by {
        var c :| c in cards && c.rank == r;
        assert c != cards[0];
      }
      FirstOfRank(cards[1..], r)
  }

  /** The card FirstOfRank returns is the first of its rank in the list. */
  lemma {:induction false} FirstOfRankIsFirst(cards: seq<Card>, r: int)
    requires r in Ranks(cards)
    ensures exists i | 0 <= i < |cards| ::
      cards[i] == FirstOfRank(cards, r) && forall j | 0 <= j < i :: cards[j].rank != r
  {
    if cards[0].rank != r {
      assert r in Ranks(cards[1..]) by {
        var c :| c in cards && c.rank == r;
        assert c != cards[0];
      }
      FirstOfRankIsFirst(cards[1..], r);
      var i :| 0 <= i < |cards[1..]| && cards[1..][i] == FirstOfRank(cards[1..], r)
        && forall j | 0 <= j < i :: cards[1..][j].rank != r;
      assert cards[i + 1] == FirstOfRank(cards, r) && forall j | 0 <= j < i + 1 :: cards[j].rank != r;
    } else {
      assert cards[0] == FirstOfRank(cards, r);
    }
  }

  /**
   * The unique_ranks stack of straight(): each card whose rank has not been seen
   * before, scanning left to right.
   */
  function Dedup(cards: seq<Card>): (u: seq<Card>)
    ensures DistinctRanks(u)
    ensures forall c | c in u :: c in cards
    ensures Ranks(u) == Ranks(cards)
  {
    if cards == [] then []
    else
      var init := cards[..|cards| - 1];
      var c := cards[|cards| - 1];
      var d := Dedup(init);
      assert cards == init + [c];
      assert Ranks(cards) == Ranks(init) + {c.rank};
      if c.rank in Ranks(d) then d
      else
        assert forall x | x in d :: x.rank != c.rank;
        assert Ranks(d + [c]) == Ranks(d) + {c.rank};
        d + [c]
  }

  /** The first card of a rank held early is not changed by cards appended after it. */
  lemma {:induction false} FirstOfRankAppend(a: seq<Card>, b: seq<Card>, r: int)
    requires r in Ranks(a)
    ensures r in Ranks(a + b) && FirstOfRank(a + b, r) == FirstOfRank(a, r)
  {
    assert a[0] == (a + b)[0];
    assert forall c | c in a :: c in a + b;
    if a[0].rank != r {
      assert r in Ranks(a[1..]) by {
        var c :| c in a && c.rank == r;
        assert c != a[0];
      }
      assert (a + b)[1..] == a[1..] + b;
      FirstOfRankAppend(a[1..], b, r);
    }
  }

  /** Cards ahead that lack rank r do not change the first card of rank r. */
  lemma {:induction false} FirstOfRankSkip(a: seq<Card>, b: seq<Card>, r: int)
    requires r !in Ranks(a) && r in Ranks(b)
    ensures r in Ranks(a + b) && FirstOfRank(a + b, r) == FirstOfRank(b, r)
  {
    var c :| c in b && c.rank == r;
    assert c in a + b;
    if a != [] {
      assert a[0] in a && (a + b)[0] == a[0];
      assert r !in Ranks(a[1..]) by {
        forall x | x in a[1..] ensures x.rank != r {
          assert x in a;
        }
      }
      assert (a + b)[1..] == a[1..] + b;
      FirstOfRankSkip(a[1..], b, r);
    } else {
      assert a + b == b;
    }
  }

  /** The unique_ranks stack keeps, for each rank, the first card of that rank. */
  lemma {:induction false} DedupFirst(cards: seq<Card>)
    ensures forall c | c in Dedup(cards) :: c.rank in Ranks(cards) && c == FirstOfRank(cards, c.rank)
  {
    if cards != [] {
      var init := cards[..|cards| - 1];
      var c := cards[|cards| - 1];
      var d := Dedup(init);
      assert cards == init + [c];
      DedupFirst(init);
      forall x | x in d ensures x.rank in Ranks(cards) && x == FirstOfRank(cards, x.rank) {
        FirstOfRankAppend(init, [c], x.rank);
      }
      if c.rank !in Ranks(d) {
        assert c.rank in Ranks([c]);
        FirstOfRankSkip(init, [c], c.rank);
      }
    }
  }

  /** Where no rank repeats, the first card of a card's rank is that card. */
  lemma DistinctFirst(v: seq<Card>, c: Card)
    requires DistinctRanks(v) && c in v
    ensures c.rank in Ranks(v) && FirstOfRank(v, c.rank) == c
  {
    var f := FirstOfRank(v, c.rank);
    var i :| 0 <= i < |v| && v[i] == c;
    var j :| 0 <= j < |v| && v[j] == f;
    assert i == j;
  }
}
