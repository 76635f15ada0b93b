/**
 * Three places where the table logic of PokerGame.py departs from what the game needs:
 * start_game may move the dealer onto an empty seat, after which the pre-flop setup
 * fails; _get_acting_order cuts the active seats at a seat number rather than at a
 * place in the list; and no step clears a fold before the next hand. Each comes with the
 * behaviour intended and its properties.
 */
module TableFindings {
  import opened Wrappers
  import opened PokerTable
  import opened Streets

  // ----- the dealer button -----

  /**
   * As written, start_game moves the dealer to the next seat number whether or not anyone
   * sits there; when that seat is empty the game still starts, and the pre-flop setup then
   * fails looking the dealer up among the seated players.
   */
  lemma DealerOnEmptySeat(t: Table, d: int)
    requires t.phase == Waiting && |Positions(t, Everyone)| >= 2
    requires t.dealer == Some(d) && 0 < |t.seats| && t.seats[(d + 1) % |t.seats|].None?
    ensures StartGame(t).out
    ensures StartGame(t).table.dealer == Some((d + 1) % |t.seats|)
    ensures SetupPreFlop(StartGame(t).table).None?
  {
    var u := StartGame(t).table;
    StartGameSpec(t);
    SetupPreFlopSpec(u);
    assert Positions(u, Everyone) == Positions(t, Everyone);
  }

  /** Two players in seats 0 and 1 of eight with the dealer on seat 1: seat 2 gets the button. */
  lemma DealerOnEmptySeatExample(t: Table)
    requires |t.seats| == 8 && t.phase == Waiting && t.dealer == Some(1)
    requires t.seats[0].Some? && t.seats[1].Some?
    requires forall j | 2 <= j < 8 :: t.seats[j].None?
    ensures StartGame(t).out && StartGame(t).table.dealer == Some(2)
    ensures SetupPreFlop(StartGame(t).table).None?
  {
    var ps := Positions(t, Everyone);
    assert 0 in ps && 1 in ps;
    var k0 :| 0 <= k0 < |ps| && ps[k0] == 0;
    var k1 :| 0 <= k1 < |ps| && ps[k1] == 1;
    assert k0 != k1;
    DealerOnEmptySeat(t, 1);
  }

  /**
   * The seat the button moves to: the lowest occupied seat the first time, afterwards the
   * first occupied seat from the one after the old dealer, going round the table.
   */
  function NextDealer(seated: seq<nat>, n: nat, dealer: Option<int>): nat
    requires 0 < n && |seated| > 0
  {
    if dealer.None? then seated[0] else Advance(seated, n, (dealer.value + 1) % n, n)
  }

  /** The next dealer is occupied, the nearest occupied seat after the old dealer. */
  lemma NextDealerSpec(seated: seq<nat>, n: nat, dealer: Option<int>)
    requires 0 < n && |seated| > 0
    requires forall q | q in seated :: q < n
    ensures NextDealer(seated, n, dealer) in seated
    ensures dealer.Some? ==>
      var start := (dealer.value + 1) % n;
      forall q | q in seated :: Dist(start, NextDealer(seated, n, dealer), n) <= Dist(start, q, n)
  {
    if dealer.Some? {
      var start := (dealer.value + 1) % n;
      assert seated[0] in seated;
      AdvanceFinds(seated, n, start, n, seated[0]);
      forall q | q in seated ensures Dist(start, NextDealer(seated, n, dealer), n) <= Dist(start, q, n) {
        AdvanceFinds(seated, n, start, n, q);
      }
    }
  }

  /** start_game as intended: the button moves on to the next occupied seat. */
  function StartGameIntended(t: Table): (res: Step<bool>)
  {
    var seated := Positions(t, Everyone);
    if |seated| >= 2 && t.phase == Waiting && 0 < |t.seats| then
      Step(t.(dealer := Some(NextDealer(seated, |t.seats|, t.dealer)), phase := PreFlop), true)
    else Step(t, false)
  }

  /** Two seated players need at least two seats. */
  lemma SeatedNeedSeats(t: Table)
    requires |Positions(t, Everyone)| >= 2
    ensures 0 < |t.seats|
  {
    assert Positions(t, Everyone)[0] in Positions(t, Everyone);
  }

  /**
   * The intended start_game starts exactly when the written one does and changes only the
   * dealer and the phase; its dealer is the seated player NextDealer picks, so the
   * pre-flop setup that follows always succeeds.
   */
  lemma StartGameIntendedSpec(t: Table)
    ensures StartGameIntended(t).out == StartGame(t).out
    ensures !StartGameIntended(t).out ==> StartGameIntended(t).table == t
    ensures var res := StartGameIntended(t);
      res.out ==>
        res.table == t.(dealer := res.table.dealer, phase := PreFlop) &&
        res.table.dealer.Some? && res.table.dealer.value in Positions(t, Everyone) &&
        res.table.dealer == Some(NextDealer(Positions(t, Everyone), |t.seats|, t.dealer)) &&
        SetupPreFlop(res.table).Some?
  {
    var seated := Positions(t, Everyone);
    if |seated| >= 2 && t.phase == Waiting {
      SeatedNeedSeats(t);
      NextDealerSpec(seated, |t.seats|, t.dealer);
      var u := t.(dealer := Some(NextDealer(seated, |t.seats|, t.dealer)), phase := PreFlop);
      assert StartGameIntended(t).table == u;
      assert u.seats == t.seats;
      assert Positions(u, Everyone) == seated;
      SetupPreFlopSpec(u);
    }
  }

  // ----- the acting order -----

  /**
   * With seats 2, 5 and 7 active and seat 5 to act, _get_acting_order returns 2, 5, 7 as
   * written, led by seat 2; the intended order is 5, 7, 2.
   */
  lemma ActingOrderFromSeatTwo(t: Table)
    requires Positions(t, Active) == [2, 5, 7] && t.current == Some(5)
    ensures exists j | 0 <= j < |t.seats| :: Kept(Active, t.seats[j])
    ensures ActingOrder(t) == Some((5, [2, 5, 7]))
    ensures ActingOrderIntended(t) == Some((5, [5, 7, 2]))
  {
    var ps := Positions(t, Active);
    assert ps[0] in ps;
    assert ActingSeat(ps, |t.seats|, t.current) == Some(5);
    assert Rotate(ps, 5) == [2, 5, 7];
    assert IndexOf(ps, 5) == Some(1);
    assert Rotate(ps, 1) == [5, 7, 2];
  }

  // ----- the next hand -----

  /** player_bet leaves a folded seat as it was: it refuses that seat and touches no other. */
  lemma BetLeavesFolded(t: Table, id: Id, amount: int, p: nat)
    requires p < |t.seats| && t.seats[p].Some? && t.seats[p].value.folded
    ensures Bet(t, id, amount).table.seats[p] == t.seats[p]
  {
  }

  /**
   * Nothing in PokerGame.py clears `folded` between hands: _next_state resets only the
   * bets, start_game only the dealer and phase, and _setup_pre_flop only sets `active`.
   * The engine itself never moves on from showdown, so the defect is latent: once a caller
   * applies _next_state at showdown, a player who folded in that hand is still folded when
   * the next hand is set up, and is no longer counted among the not-folded players.
   */
  lemma FoldCarriesOver(t: Table, p: nat)
    requires t.phase == Showdown && p < |t.seats| && t.seats[p].Some? && t.seats[p].value.folded
    ensures var u := NextState(t);
      u.phase == Waiting && u.seats[p].Some? && u.seats[p].value.folded
    ensures var w := StartGame(NextState(t)).table;
      SetupPreFlop(w).Some? ==>
        var v := SetupPreFlop(w).value;
        v.seats[p].Some? && v.seats[p].value.folded && p !in Positions(v, NotFolded)
  {
    var u := NextState(t);
    NextStateSpec(t);
    var w := StartGame(u).table;
    StartGameSpec(u);
    assert w.seats == u.seats;
    if SetupPreFlop(w).Some? {
      var t1 := w.(pot := 0, currentMaxBet := 0, seats := Activate(w.seats));
      var b := PreFlopPlan(Positions(t1, Everyone), w.dealer).value;
      assert t1.seats[p].value.folded;
      BetLeavesFolded(t1, Position(b.small), t1.bigBlind / 2, p);
      var t2 := Bet(t1, Position(b.small), t1.bigBlind / 2).table;
      BetLeavesFolded(t2, Position(b.big), t1.bigBlind, p);
    }
  }

  /**
   * The reset the game expects between hands: the pot and the maximum bet go back to 0 and
   * every seated player is again not folded, not all-in and has no bet, as a newly seated
   * player is.
   */
  function ResetGame(t: Table): (u: Table)
  {
    t.(pot := 0, currentMaxBet := 0,
       seats := seq(|t.seats|, i requires 0 <= i < |t.seats| =>
         if t.seats[i].Some? then Some(t.seats[i].value.(folded := false, allIn := false, currentBet := 0))
         else None))
  }

  /**
   * After the reset the same players are seated with the same stacks, each back in the
   * game; once _setup_pre_flop marks them active, every seated player takes part in the
   * new hand.
   */
  lemma ResetGameSpec(t: Table)
    ensures var u := ResetGame(t);
      u.pot == 0 && u.currentMaxBet == 0 && |u.seats| == |t.seats| &&
      Positions(u, Everyone) == Positions(t, Everyone) &&
      (forall j | 0 <= j < |t.seats| && t.seats[j].Some? ::
        u.seats[j].Some? && u.seats[j].value.chipCount == t.seats[j].value.chipCount &&
        !u.seats[j].value.folded && !u.seats[j].value.allIn && u.seats[j].value.currentBet == 0)
    ensures var u := ResetGame(t);
      Positions(u.(seats := Activate(u.seats)), Active) == Positions(t, Everyone)
  {
    var u := ResetGame(t);
    SameOccupancy(t.seats, u.seats, Everyone, 0);
    var v := u.(seats := Activate(u.seats));
    SameKept(v.seats, t.seats, Active, Everyone, 0);
  }

  /** Seat lists on which two filters keep the same seats give the same positions. */
  lemma {:induction false} SameKept(a: seq<Option<Seat>>, b: seq<Option<Seat>>, f: Filter, g: Filter, i: nat)
    requires |a| == |b| && i <= |a|
    requires forall j | 0 <= j < |a| :: Kept(f, a[j]) <==> Kept(g, b[j])
    decreases |a| - i
    ensures PositionsFrom(a, f, i) == PositionsFrom(b, g, i)
  {
    if i < |a| {
      SameKept(a, b, f, g, i + 1);
    }
  }
}
