/**
 * The seat arithmetic of a hand: who posts the blinds and acts first before the flop, in
 * which order the hole cards go round, which seat a betting round starts from, and the
 * tests that end a betting round.
 */
module Streets {
  import opened Wrappers
  import opened PokerTable

  // ----- list helpers with Python's meaning -----

  /** list.index: the first position of x, None where Python raises ValueError. */
  function IndexOf(ps: seq<nat>, x: int): (r: Option<nat>)
    ensures r.Some? ==> r.value < |ps| && ps[r.value] == x && x !in ps[..r.value]
    ensures r.None? <==> x !in ps
  {
    if ps == [] then None
    else if ps[0] == x then Some(0)
    else
      var r := IndexOf(ps[1..], x);
      assert ps == [ps[0]] + ps[1..];
      if r.None? then None
      else
        assert ps[..r.value + 1] == [ps[0]] + ps[1..][..r.value];
        Some(r.value + 1)
  }

  /** ps[k:] + ps[:k], with Python's clamping of a slice bound past the end. */
  function Rotate(ps: seq<nat>, k: nat): (r: seq<nat>)
  {
    var m := Min(k, |ps|);
    ps[m..] + ps[..m]
  }

  /** A rotation keeps every element and reads the list cyclically from the cut. */
  lemma RotateSpec(ps: seq<nat>, k: nat)
    requires k <= |ps|
    ensures multiset(Rotate(ps, k)) == multiset(ps)
    ensures |Rotate(ps, k)| == |ps|
    ensures forall j | 0 <= j < |ps| :: Rotate(ps, k)[j] == ps[(k + j) % |ps|]
  {
    RotateKeeps(ps, k);
    RotateReads(ps, k, Rotate(ps, k));
  }

  /** Any list equal to the rotation at k reads ps cyclically from place k. */
  lemma RotateReads(ps: seq<nat>, k: nat, r: seq<nat>)
    requires k <= |ps| && r == Rotate(ps, k)
    ensures forall j | 0 <= j < |ps| :: r[j] == ps[(k + j) % |ps|]
  {
    forall j | 0 <= j < |ps| ensures r[j] == ps[(k + j) % |ps|] {
      RotateAt(ps, k, j);
    }
  }

  /** A rotation keeps every element and the length. */
  lemma RotateKeeps(ps: seq<nat>, k: nat)
    requires k <= |ps|
    ensures multiset(Rotate(ps, k)) == multiset(ps) && |Rotate(ps, k)| == |ps|
  {
    assert ps == ps[..k] + ps[k..];
  }

  /** Place j of the rotation at k holds the element k + j places on, wrapping. */
  lemma RotateAt(ps: seq<nat>, k: nat, j: nat)
    requires k <= |ps| && j < |ps|
    ensures Rotate(ps, k)[j] == ps[(k + j) % |ps|]
  {
    var r := Rotate(ps, k);
    assert r == ps[k..] + ps[..k];
    ModWrap(k + j, |ps|);
    if k + j < |ps| {
      assert r[j] == ps[k + j];
    } else {
      assert r[j] == ps[k + j - |ps|];
    }
  }

  // ----- blinds and dealing -----

  /** Who posts the small and big blind, who acts first, and the dealing order. */
  datatype Blinds = Blinds(small: nat, big: nat, first: nat, dealing: seq<nat>)

  /**
   * The position arithmetic of _setup_pre_flop over the occupied seats `ps` (ascending).
   * None where positions.index raises: the dealer seat is not occupied (or unset).
   */
  function PreFlopPlan(ps: seq<nat>, dealer: Option<int>): (r: Option<Blinds>)
    ensures r.Some? <==> dealer.Some? && dealer.value in ps
  {
    if dealer.None? then None
    else match IndexOf(ps, dealer.value)
      case None => None
      case Some(di) =>
        var n := |ps|;
        if n == 2 then Some(Blinds(ps[di], ps[(di + 1) % n], ps[di], Rotate(ps, di + 1)))
        else Some(Blinds(ps[(di + 1) % n], ps[(di + 2) % n], ps[(di + 3) % n], Rotate(ps, di + 1)))
  }

  /** x % n for 0 <= x < 2n: at most one wrap round the table. */
  lemma ModWrap(x: int, n: int)
    requires 0 < n && 0 <= x < 2 * n
    ensures x % n == if x < n then x else x - n
  {
  }

  /** Positions of an ascending list hold different seats. */
  lemma IncreasingDistinct(ps: seq<nat>, a: nat, b: nat)
    requires Increasing(ps) && a < |ps| && b < |ps| && a != b
    ensures ps[a] != ps[b]
  {
    if a < b {
      assert ps[a] < ps[b];
    } else {
      assert ps[b] < ps[a];
    }
  }

  /** The blind and first-actor seats for a seated dealer. */
  lemma PlanAt(ps: seq<nat>, d: int)
    requires d in ps
    ensures var di := IndexOf(ps, d).value;
      var n := |ps|;
      var b := PreFlopPlan(ps, Some(d)).value;
      (b.small, b.big, b.first) ==
        if n == 2 then (ps[di], ps[(di + 1) % n], ps[di])
        else (ps[(di + 1) % n], ps[(di + 2) % n], ps[(di + 3) % n])
  {
  }

  /** The dealing order for a seated dealer: the seats after the dealer, then up to the dealer. */
  lemma PlanDealing(ps: seq<nat>, d: int)
    requires d in ps
    ensures PreFlopPlan(ps, Some(d)).value.dealing == Rotate(ps, IndexOf(ps, d).value + 1)
  {
  }

  /** Heads-up, the dealer posts the small blind and acts first; the other seat posts the big blind. */
  lemma HeadsUpBlinds(ps: seq<nat>, d: int)
    requires Increasing(ps) && d in ps && |ps| == 2
    ensures var b := PreFlopPlan(ps, Some(d)).value;
      b.small == d && b.first == d && b.big != d && b.big in ps
  {
    var di := IndexOf(ps, d).value;
    PlanAt(ps, d);
    ModWrap(di + 1, 2);
    IncreasingDistinct(ps, di, (di + 1) % 2);
  }

  /**
   * With three or more seats the seats one, two and three past the dealer (in seat order,
   * wrapping) post the small blind, post the big blind and act first. The blinds are two
   * different seats other than the dealer; the first actor is a third seat with four or more
   * players and the dealer with three.
   */
  lemma RingBlinds(ps: seq<nat>, d: int)
    requires Increasing(ps) && d in ps && |ps| >= 3
    ensures var b := PreFlopPlan(ps, Some(d)).value;
      var di := IndexOf(ps, d).value;
      var n := |ps|;
      b.small == ps[(di + 1) % n] && b.big == ps[(di + 2) % n] && b.first == ps[(di + 3) % n] &&
      b.small != d && b.big != d && b.small != b.big &&
      (n >= 4 ==> b.first != d && b.first != b.small && b.first != b.big) &&
      (n == 3 ==> b.first == d)
  {
    PlanAt(ps, d);
    RingSeats(ps, IndexOf(ps, d).value);
  }

  /** The seats one, two and three places past place di of an ascending list of three or more. */
  lemma RingSeats(ps: seq<nat>, di: nat)
    requires Increasing(ps) && di < |ps| && |ps| >= 3
    ensures var n := |ps|;
      var s1, s2, s3 := ps[(di + 1) % n], ps[(di + 2) % n], ps[(di + 3) % n];
      s1 != ps[di] && s2 != ps[di] && s1 != s2 &&
      (n >= 4 ==> s3 != ps[di] && s3 != s1 && s3 != s2) && (n == 3 ==> s3 == ps[di])
  {
    var n := |ps|;
    RingOffsets(di, n);
    var i1, i2, i3 := (di + 1) % n, (di + 2) % n, (di + 3) % n;
    IncreasingDistinct(ps, di, i1);
    IncreasingDistinct(ps, di, i2);
    IncreasingDistinct(ps, i1, i2);
    if n >= 4 {
      IncreasingDistinct(ps, di, i3);
      IncreasingDistinct(ps, i1, i3);
      IncreasingDistinct(ps, i2, i3);
    }
  }

  /** The list places one, two and three past the dealer's, wrapping round. */
  lemma RingOffsets(di: int, n: int)
    requires 0 <= di < n && n >= 3
    ensures var i1, i2, i3 := (di + 1) % n, (di + 2) % n, (di + 3) % n;
      0 <= i1 < n && 0 <= i2 < n && 0 <= i3 < n && i1 != di && i2 != di && i1 != i2 &&
      (n >= 4 ==> i3 != di && i3 != i1 && i3 != i2) && (n == 3 ==> i3 == di)
  {
    ModWrap(di + 1, n);
    ModWrap(di + 2, n);
    ModWrap(di + 3, n);
  }

  /** The hole cards go to every occupied seat, each once. */
  lemma DealingKeepsSeats(ps: seq<nat>, d: int)
    requires d in ps
    ensures var b := PreFlopPlan(ps, Some(d)).value;
      multiset(b.dealing) == multiset(ps) && |b.dealing| == |ps|
  {
    var di := IndexOf(ps, d).value;
    PlanDealing(ps, d);
    RotateKeeps(ps, di + 1);
  }

  /** The hole cards go round the occupied seats cyclically from the one after the dealer. */
  lemma DealingOrder(ps: seq<nat>, d: int)
    requires d in ps
    ensures var b := PreFlopPlan(ps, Some(d)).value;
      var di := IndexOf(ps, d).value;
      forall j | 0 <= j < |ps| :: b.dealing[j] == ps[(di + 1 + j) % |ps|]
  {
    var di := IndexOf(ps, d).value;
    var dealing := PreFlopPlan(ps, Some(d)).value.dealing;
    PlanDealing(ps, d);
    RotateReads(ps, di + 1, dealing);
  }

  /** The dealer is dealt last. */
  lemma DealerDealtLast(ps: seq<nat>, d: int)
    requires d in ps
    ensures var b := PreFlopPlan(ps, Some(d)).value;
      |b.dealing| == |ps| && b.dealing[|ps| - 1] == d
  {
    var di := IndexOf(ps, d).value;
    PlanDealing(ps, d);
    RotateSpec(ps, di + 1);
    var last := |ps| - 1;
    var dealing := Rotate(ps, di + 1);
    assert dealing[last] == ps[(di + 1 + last) % |ps|];
    ModWrap(di + 1 + last, |ps|);
  }

  /** Every role of the plan goes to an occupied seat. */
  lemma PlanSeats(ps: seq<nat>, d: int)
    requires d in ps
    ensures var b := PreFlopPlan(ps, Some(d)).value;
      b.small in ps && b.big in ps && b.first in ps
  {
    PlanAt(ps, d);
  }

  /**
   * The stepwise effect of _setup_pre_flop up to the deal: the pot and the maximum bet are
   * zeroed, every seated player becomes active, the two blinds are posted through
   * player_bet and the first actor is chosen. None where positions.index raises.
   */
  function SetupPreFlop(t: Table): (r: Option<Table>)
  {
    var t1 := t.(pot := 0, currentMaxBet := 0, seats := Activate(t.seats));
    match PreFlopPlan(Positions(t1, Everyone), t.dealer)
    case None => None
    case Some(b) => Some(PostBlinds(t1, b))
  }

  /** The small blind, then the big blind, through player_bet, and the first actor. */
  function PostBlinds(t: Table, b: Blinds): (u: Table)
    ensures |u.seats| == |t.seats|
  {
    var t2 := Bet(t, Position(b.small), t.bigBlind / 2).table;
    var t3 := Bet(t2, Position(b.big), t.bigBlind).table;
    t3.(current := Some(b.first))
  }

  function Activate(seats: seq<Option<Seat>>): (r: seq<Option<Seat>>)
    ensures |r| == |seats|
  {
    seq(|seats|, i requires 0 <= i < |seats| => if seats[i].Some? then Some(seats[i].value.(active := true)) else None)
  }

  /** Posting the blinds moves chips only from stacks to the pot and seats nobody new. */
  lemma PostBlindsKeeps(t: Table, b: Blinds)
    ensures var u := PostBlinds(t, b);
      Chips(u) == Chips(t) && Positions(u, Everyone) == Positions(t, Everyone) &&
      u.phase == t.phase && u.current == Some(b.first)
  {
    var t2 := Bet(t, Position(b.small), t.bigBlind / 2).table;
    BetConserves(t, Position(b.small), t.bigBlind / 2);
    BetConserves(t2, Position(b.big), t.bigBlind);
    BetKeepsSeated(t, Position(b.small), t.bigBlind / 2);
    BetKeepsSeated(t2, Position(b.big), t.bigBlind);
  }

  /** A seat that can post a blind of `bigBlind` in full: seated, in the hand, nothing bet yet. */
  predicate CanPost(t: Table, p: nat)
  {
    p < |t.seats| && t.seats[p].Some? &&
    var s := t.seats[p].value;
    !s.folded && !s.allIn && s.currentBet == 0 && s.chipCount > t.bigBlind
  }

  /**
   * With two distinct blind seats that can post in full, at the start of a betting hand
   * (no bet yet, phase past Waiting), the small blind posts big_blind // 2 and the big blind
   * posts big_blind: those amounts leave the two stacks and enter the pot, the maximum bet
   * becomes the big blind, the big blind is the last raiser, and no other seat changes.
   */
  lemma PostBlindsAmounts(t: Table, b: Blinds)
    requires b.small != b.big && CanPost(t, b.small) && CanPost(t, b.big)
    requires t.bigBlind > 0 && t.currentMaxBet == 0 && t.phase != Waiting
    ensures var u := PostBlinds(t, b);
      var sb := t.seats[b.small].value;
      var bb := t.seats[b.big].value;
      && u.seats[b.small] == Some(sb.(chipCount := sb.chipCount - t.bigBlind / 2, currentBet := t.bigBlind / 2))
      && u.seats[b.big] == Some(bb.(chipCount := bb.chipCount - t.bigBlind, currentBet := t.bigBlind))
      && (forall q | 0 <= q < |t.seats| && q != b.small && q != b.big :: u.seats[q] == t.seats[q])
      && u.pot == t.pot + t.bigBlind / 2 + t.bigBlind
      && u.currentMaxBet == t.bigBlind
      && u.lastRaiser == Some(b.big)
  {
    var t2 := Bet(t, Position(b.small), t.bigBlind / 2).table;
    BetPlaced(t, Position(b.small), t.bigBlind / 2);
    BetPlaced(t2, Position(b.big), t.bigBlind);
  }

  /**
   * Pre-flop setup succeeds exactly when the dealer sits at an occupied seat; it then seats
   * the same players, puts the first actor on an occupied seat, and leaves the stacks plus
   * the pot equal to the stacks before (the old pot is discarded).
   */
  lemma SetupPreFlopSpec(t: Table)
    ensures SetupPreFlop(t).Some? <==> t.dealer.Some? && t.dealer.value in Positions(t, Everyone)
    ensures SetupPreFlop(t).Some? ==>
      var u := SetupPreFlop(t).value;
      Positions(u, Everyone) == Positions(t, Everyone) &&
      u.current.Some? && u.current.value in Positions(t, Everyone) &&
      Chips(u) == Stacks(t.seats) && u.phase == t.phase
  {
    var t1 := t.(pot := 0, currentMaxBet := 0, seats := Activate(t.seats));
    SameOccupancy(t.seats, t1.seats, Everyone, 0);
    ActivateStacks(t.seats);
    var ps := Positions(t1, Everyone);
    if PreFlopPlan(ps, t.dealer).Some? {
      var b := PreFlopPlan(ps, t.dealer).value;
      PlanSeats(ps, t.dealer.value);
      PostBlindsKeeps(t1, b);
    }
  }

  /** Making seats active changes no stack. */
  lemma {:induction false} ActivateStacks(seats: seq<Option<Seat>>)
    ensures Stacks(Activate(seats)) == Stacks(seats)
  {
    if seats != [] {
      assert Activate(seats)[1..] == Activate(seats[1..]);
      ActivateStacks(seats[1..]);
    }
  }

  /** player_bet never seats or unseats anyone. */
  lemma BetKeepsSeated(t: Table, id: Id, amount: int)
    ensures Positions(Bet(t, id, amount).table, Everyone) == Positions(t, Everyone)
  {
    var u := Bet(t, id, amount).table;
    SameOccupancy(t.seats, u.seats, Everyone, 0);
  }

  // ----- the acting order -----

  /** Walk seat by seat, (p + 1) % n each time, until an active seat or the budget runs out. */
  function Advance(ps: seq<nat>, n: nat, p: nat, budget: nat): (q: nat)
    requires 0 < n && p < n
    ensures q < n
    decreases budget
  {
    if p in ps || budget == 0 then p else Advance(ps, n, (p + 1) % n, budget - 1)
  }

  /** Seats from p forward to q, going round the table. */
  function Dist(p: nat, q: nat, n: nat): nat
    requires p < n && q < n
  {
    if p <= q then q - p else q + n - p
  }

  lemma SuccMod(p: nat, n: nat)
    requires p < n
    ensures (p + 1) % n == if p + 1 < n then p + 1 else 0
  {
  }

  /**
   * Walking from p finds an active seat, and no active seat lies closer than the one found.
   * (Here q is any active seat within the budget.)
   */
  lemma {:induction false} AdvanceFinds(ps: seq<nat>, n: nat, p: nat, budget: nat, q: nat)
    requires 0 < n && p < n && q < n && q in ps
    requires Dist(p, q, n) < budget
    decreases budget
    ensures Advance(ps, n, p, budget) in ps
    ensures Dist(p, Advance(ps, n, p, budget), n) <= Dist(p, q, n)
  {
    if p !in ps {
      SuccMod(p, n);
      var p' := (p + 1) % n;
      AdvanceFinds(ps, n, p', budget - 1, q);
      var r := Advance(ps, n, p', budget - 1);
      assert r != p;
      assert Dist(p, r, n) == Dist(p', r, n) + 1;
    }
  }

  /**
   * The seat _get_acting_order settles on: the current seat when it is active, else the
   * first active seat after it. None where `current_player_position + 1` is None + 1.
   */
  function ActingSeat(ps: seq<nat>, n: nat, current: Option<int>): (r: Option<nat>)
    requires 0 < n
    ensures r.Some? <==> current.Some?
  {
    if current.None? then None
    else if current.value in ps then Some(current.value as nat)
    else Some(Advance(ps, n, (current.value + 1) % n, n))
  }

  /**
   * _get_acting_order: the new current_player_position and the active seats rotated at
   * that seat NUMBER (not at its place in the list); None where the source raises.
   * The source loops for ever when no seat is active; the precondition rules that out.
   */
  function ActingOrder(t: Table): (r: Option<(nat, seq<nat>)>)
    requires exists j | 0 <= j < |t.seats| :: Kept(Active, t.seats[j])
    ensures r.Some? <==> t.current.Some?
  {
    var ps := Positions(t, Active);
    match ActingSeat(ps, |t.seats|, t.current)
    case None => None
    case Some(c) => Some((c, Rotate(ps, c)))
  }

  /**
   * With an active seat present and a current position set, the acting order is a
   * permutation of the active seats, and the new current seat is active: the old one if it
   * was active, else the nearest active seat after it going round the table.
   */
  lemma ActingOrderSpec(t: Table)
    requires exists j | 0 <= j < |t.seats| :: Kept(Active, t.seats[j])
    ensures ActingOrder(t).Some? <==> t.current.Some?
    ensures ActingOrder(t).Some? ==>
      var (c, order) := ActingOrder(t).value;
      var ps := Positions(t, Active);
      var n := |t.seats|;
      c in ps && c < n &&
      multiset(order) == multiset(ps) &&
      (t.current.value in ps ==> c == t.current.value) &&
      (t.current.value !in ps ==>
        var start := (t.current.value + 1) % n;
        forall q | q in ps :: Dist(start, c, n) <= Dist(start, q, n))
  {
    if t.current.Some? {
      ActingOrderSeat(t);
      ActingOrderPermutes(t);
    }
  }

  /** The seat _get_acting_order settles on, as ActingSeatSpec describes it. */
  lemma ActingOrderSeat(t: Table)
    requires exists j | 0 <= j < |t.seats| :: Kept(Active, t.seats[j])
    requires t.current.Some?
    ensures var c := ActingOrder(t).value.0;
      var ps := Positions(t, Active);
      var n := |t.seats|;
      c in ps && c < n &&
      (t.current.value in ps ==> c == t.current.value) &&
      (t.current.value !in ps ==>
        var start := (t.current.value + 1) % n;
        forall q | q in ps :: Dist(start, c, n) <= Dist(start, q, n))
  {
    var ps := Positions(t, Active);
    var j :| 0 <= j < |t.seats| && Kept(Active, t.seats[j]);
    ActingSeatSpec(ps, |t.seats|, t.current.value, j);
  }

  /** The acting order holds each active seat once. */
  lemma ActingOrderPermutes(t: Table)
    requires exists j | 0 <= j < |t.seats| :: Kept(Active, t.seats[j])
    requires t.current.Some?
    ensures multiset(ActingOrder(t).value.1) == multiset(Positions(t, Active))
  {
    var ps := Positions(t, Active);
    var c := ActingOrder(t).value.0;
    RotateKeeps(ps, Min(c, |ps|));
    assert Rotate(ps, c) == Rotate(ps, Min(c, |ps|));
  }

  /** The seat the walk settles on is active and the nearest active seat from where it starts. */
  lemma ActingSeatSpec(ps: seq<nat>, n: nat, current: int, j: nat)
    requires 0 < n && j < n && j in ps
    requires forall q | q in ps :: q < n
    ensures var c := ActingSeat(ps, n, Some(current)).value;
      c in ps && c < n &&
      (current in ps ==> c == current) &&
      (current !in ps ==>
        var start := (current + 1) % n;
        forall q | q in ps :: Dist(start, c, n) <= Dist(start, q, n))
  {
    if current !in ps {
      var start := (current + 1) % n;
      var c := Advance(ps, n, start, n);
      AdvanceFinds(ps, n, start, n, j);
      forall q | q in ps ensures Dist(start, c, n) <= Dist(start, q, n) {
        AdvanceFinds(ps, n, start, n, q);
      }
    }
  }

  /**
   * The rotation at a seat number: with active seats 2, 5 and 7 and seat 5 to act,
   * positions[5:] + positions[:5] is [] + [2, 5, 7], so seat 2 leads the order although
   * seat 5 is the current player.
   */
  lemma ActingOrderBySeatNumber(ps: seq<nat>)
    requires ps == [2, 5, 7]
    ensures Rotate(ps, 5) == [2, 5, 7]
    ensures Rotate(ps, 5)[0] != 5
  {
  }

  /** The order that starts at the acting seat, as the betting round means it to. */
  function ActingOrderIntended(t: Table): (r: Option<(nat, seq<nat>)>)
    requires exists j | 0 <= j < |t.seats| :: Kept(Active, t.seats[j])
  {
    var ps := Positions(t, Active);
    match ActingSeat(ps, |t.seats|, t.current)
    case None => None
    case Some(c) =>
      match IndexOf(ps, c)
      case None => None
      case Some(k) => Some((c, Rotate(ps, k)))
  }

  /**
   * The intended order is defined whenever the written one is, is the active seats rotated
   * so that the acting seat leads, and then follows seat order round the table.
   */
  lemma ActingOrderIntendedSpec(t: Table)
    requires exists j | 0 <= j < |t.seats| :: Kept(Active, t.seats[j])
    ensures ActingOrderIntended(t).Some? <==> ActingOrder(t).Some?
    ensures ActingOrderIntended(t).Some? ==>
      var (c, order) := ActingOrderIntended(t).value;
      var ps := Positions(t, Active);
      c == ActingOrder(t).value.0 &&
      |order| == |ps| && order[0] == c && multiset(order) == multiset(ps) &&
      forall a | 0 <= a < |order| - 1 :: order[a] < order[a + 1] || order[a + 1] == ps[0]
  {
    ActingOrderSpec(t);
    if ActingOrder(t).Some? {
      var c := ActingOrder(t).value.0;
      var ps := Positions(t, Active);
      RotateAtSeat(ps, c);
    }
  }

  /** Rotating an ascending list at the place of c puts c first and keeps every seat. */
  lemma RotateAtSeat(ps: seq<nat>, c: nat)
    requires Increasing(ps) && c in ps
    ensures var order := Rotate(ps, IndexOf(ps, c).value);
      |order| == |ps| && order[0] == c && multiset(order) == multiset(ps) &&
      forall a | 0 <= a < |order| - 1 :: order[a] < order[a + 1] || order[a + 1] == ps[0]
  {
    var k := IndexOf(ps, c).value;
    RotateSpec(ps, k);
    RotateFollows(ps, k);
    assert Rotate(ps, k) == ps[k..] + ps[..k];
  }

  /** A rotation of an ascending list climbs, except where it wraps back to the lowest seat. */
  lemma RotateFollows(ps: seq<nat>, k: nat)
    requires Increasing(ps) && k < |ps|
    ensures var order := Rotate(ps, k);
      forall a | 0 <= a < |order| - 1 :: order[a] < order[a + 1] || order[a + 1] == ps[0]
  {
    var order := Rotate(ps, k);
    assert order == ps[k..] + ps[..k];
    forall a | 0 <= a < |order| - 1 ensures order[a] < order[a + 1] || order[a + 1] == ps[0] {
      if a + 1 < |ps| - k {
        assert order[a] == ps[k + a] && order[a + 1] == ps[k + a + 1];
      } else if a + 1 == |ps| - k {
        assert order[a + 1] == ps[0];
      } else {
        assert order[a] == ps[a - (|ps| - k)] && order[a + 1] == ps[a + 1 - (|ps| - k)];
      }
    }
  }


  /**
   * The seat setup of the flop, turn and river: play starts from the seat after the dealer,
   * modulo max_players, whether or not it is occupied. None where the source raises (no
   * dealer, or no seats to take the modulus by).
   */
  function StreetStart(t: Table): (r: Option<Table>)
    ensures r.Some? <==> t.dealer.Some? && |t.seats| > 0
    ensures r.Some? ==>
      r.value == t.(current := r.value.current) &&
      r.value.current.Some? && 0 <= r.value.current.value < |t.seats|
  {
    if t.dealer.None? || |t.seats| == 0 then None
    else Some(t.(current := Some((t.dealer.value + 1) % |t.seats|)))
  }

  /** The synchronous start of _wait_for_player_action: wait, with the event cleared. */
  function BeginWait(t: Table): (u: Table)
  {
    t.(waiting := true, eventSet := false)
  }

  /** While a wait is pending, only the awaited seat can end it with an accepted action. */
  lemma WaitEndsOnlyByAction(t: Table, p: nat, id: Id, action: string, amount: int)
    requires t.current == Some(p)
    ensures var res := Act(BeginWait(t), id, action, amount);
      res.out == Accepted ==> Lookup(t, id) == Some(p) && !res.table.waiting && res.table.eventSet
    ensures var res := Act(BeginWait(t), id, action, amount);
      res.out.Refused? && res.out != Refused(CannotCall) ==> res.table == BeginWait(t)
  {
    ActRefusals(BeginWait(t), id, action, amount);
    if Act(BeginWait(t), id, action, amount).out == Accepted {
      ActAccepted(BeginWait(t), id, action, amount);
    }
  }

  // ----- a betting round -----

  /** What _betting_round returns. */
  datatype Outcome = ToWaiting | ToNextState

  /** The opening check: with at most one seat able to act there is no round to play. */
  function OpeningCheck(t: Table): (r: Option<Outcome>)
    ensures r.Some? <==> |Positions(t, Active)| <= 1
    ensures r == Some(ToWaiting) <==> |Positions(t, Active)| <= 1 && t.phase == PreFlop
  {
    if |Positions(t, Active)| <= 1 then
      Some(if t.phase == PreFlop then ToWaiting else ToNextState)
    else None
  }

  /** The hand is decided: at most one active player has not folded. */
  predicate HandDecided(t: Table)
  {
    |Positions(t, NotFolded)| <= 1
  }

  /**
   * The test made once a full lap is done (i >= len(order)): before the flop, stop when
   * nobody raised past the big blind; otherwise stop when nobody raised at all, or when the
   * lap has come back to the last raiser and their bet still equals the maximum.
   */
  predicate LapComplete(t: Table, i: nat, lapLength: nat, position: nat)
  {
    i >= lapLength &&
    ((t.phase == PreFlop && t.currentMaxBet == t.bigBlind) ||
     t.lastRaiser.None? ||
     (t.lastRaiser == Some(position) && position < |t.seats| && t.seats[position].Some? &&
      t.currentMaxBet == t.seats[position].value.currentBet))
  }

  /** A seat visited in the cycle is asked to act only if it is still seated and can act. */
  predicate Prompted(t: Table, position: nat)
  {
    position < |t.seats| && t.seats[position].Some? &&
    !t.seats[position].value.folded && !t.seats[position].value.allIn
  }

  /** What one pass of the cycle in _betting_round does at a seat. */
  datatype LapMove =
    | Decided   // at most one player has not folded: return 'next_state'
    | LapOver   // the lap test breaks out of the cycle
    | Prompt    // the seat is asked to act
    | Skip      // the seat is passed over

  /**
   * One pass of the body of the cycle in _betting_round at enumeration index i: the
   * check that the hand is decided, then the lap test, then the prompt.
   */
  function LoopStep(t: Table, i: nat, lapLength: nat, position: nat): LapMove
  {
    if HandDecided(t) then Decided
    else if LapComplete(t, i, lapLength, position) then LapOver
    else if Prompted(t, position) then Prompt
    else Skip
  }

  /**
   * The win check stops the round in any lap, the lap test never fires inside the first
   * lap, and after it a round with no raise stops at once; once the lap reaches a raiser
   * who is still matched the round stops there. A seat is asked to act only when it is
   * seated and neither folded nor all-in.
   */
  lemma RoundEnds(t: Table, i: nat, lapLength: nat, position: nat)
    ensures LoopStep(t, i, lapLength, position) == Decided <==> |Positions(t, NotFolded)| <= 1
    ensures i < lapLength ==> !LapComplete(t, i, lapLength, position)
    ensures i < lapLength ==> LoopStep(t, i, lapLength, position) != LapOver
    ensures i >= lapLength && t.lastRaiser.None? ==> LapComplete(t, i, lapLength, position)
    ensures i >= lapLength && t.lastRaiser == Some(position) && Prompted(t, position) &&
            BetsCapped(t) && t.seats[position].value.currentBet >= t.currentMaxBet ==>
            LapComplete(t, i, lapLength, position)
    ensures LoopStep(t, i, lapLength, position) == Prompt <==>
            !HandDecided(t) && !LapComplete(t, i, lapLength, position) &&
            position < |t.seats| && t.seats[position].Some? &&
            !t.seats[position].value.folded && !t.seats[position].value.allIn
  {
  }

  /**
   * A bet that the next seat matches keeps that seat as the one the lap stops at: after an
   * accepted raise by seat p, the round can end only when the cycle returns to p.
   */
  lemma RaiserStopsLap(t: Table, id: Id, amount: int, i: nat, lapLength: nat, position: nat)
    requires BetsCapped(t)
    requires Bet(t, id, amount).out.Placed?
    requires Bet(t, id, amount).table.currentMaxBet > t.currentMaxBet
    requires !(t.phase == PreFlop && Bet(t, id, amount).table.currentMaxBet == t.bigBlind)
    ensures var u := Bet(t, id, amount).table;
      LapComplete(u, i, lapLength, position) <==> i >= lapLength && position == Lookup(t, id).value
  {
    BetPlaced(t, id, amount);
  }
}
