/**
 * The state of one PokerGame table as a value, and every synchronous operation of the
 * class as a function from the old state to the new one. The class PokerGame in
 * poker_game.dfy updates its fields in place and is proved to agree with these functions;
 * the lemmas here state what the operations promise.
 *
 * Seats are the keys 0 .. max_players-1 of the `players` dictionary; an empty seat is None.
 */
module PokerTable {
  import opened Wrappers
  import opened Cards

  /** A seated player's record. */
  datatype Seat = Seat(
    username: string,
    chipCount: int,
    cards: Option<seq<Card>>,
    folded: bool,
    allIn: bool,
    currentBet: int,
    active: bool)

  /** The values of game_state. */
  datatype Phase = Waiting | PreFlop | Flop | Turn | River | Showdown

  /** The state_transitions table. */
  function NextPhase(p: Phase): (q: Phase)
    ensures q != p
  {
    match p
    case Waiting => PreFlop
    case PreFlop => Flop
    case Flop => Turn
    case Turn => River
    case River => Showdown
    case Showdown => Waiting
  }

  /** k steps round the transition table. */
  function Steps(p: Phase, k: nat): Phase
    decreases k
  {
    if k == 0 then p else Steps(NextPhase(p), k - 1)
  }

  /** The transitions form one cycle through six distinct states. */
  lemma PhaseCycle(p: Phase)
    ensures Steps(p, 6) == p
    ensures forall k | 0 < k < 6 :: Steps(p, k) != p
    ensures forall j, k | 0 <= j < k < 6 :: Steps(p, j) != Steps(p, k)
  {
    assert Steps(p, 1) == NextPhase(p);
    assert Steps(p, 2) == NextPhase(NextPhase(p));
    assert Steps(p, 3) == NextPhase(NextPhase(NextPhase(p)));
    assert Steps(p, 4) == NextPhase(NextPhase(NextPhase(NextPhase(p))));
    assert Steps(p, 5) == NextPhase(NextPhase(NextPhase(NextPhase(NextPhase(p)))));
    assert Steps(p, 6) == NextPhase(NextPhase(NextPhase(NextPhase(NextPhase(NextPhase(p))))));
  }

  /**
   * The fields of a PokerGame that the synchronous operations read and write. `eventSet`
   * is whether player_action_event is set.
   */
  datatype Table = Table(
    seats: seq<Option<Seat>>,
    bigBlind: int,
    pot: int,
    currentMaxBet: int,
    phase: Phase,
    dealer: Option<int>,
    current: Option<int>,
    lastRaiser: Option<int>,
    waiting: bool,
    eventSet: bool)

  /** default_chip_count: the stack a newly seated player receives. */
  function DefaultChips(bigBlind: int): int
  {
    bigBlind * 100
  }

  /** A freshly constructed table with max_players empty seats. */
  function Init(maxPlayers: nat, bigBlind: int): (t: Table)
    ensures |t.seats| == maxPlayers
  {
    Table(seq(maxPlayers, _ => None), bigBlind, 0, 0, Waiting, None, None, None, false, false)
  }

  /** The result of an operation: the new table and what the source returns. */
  datatype Step<R> = Step(table: Table, out: R)

  // ----- looking seats up -----

  /** How get_player is addressed: by username or by seat index. */
  datatype Id = Name(name: string) | Position(pos: int)

  predicate Named(s: Option<Seat>, name: string)
  {
    s.Some? && s.value.username == name
  }

  /** The first seat at or after i held by a player called `name`. */
  function FindNameFrom(seats: seq<Option<Seat>>, name: string, i: nat): (r: Option<nat>)
    requires i <= |seats|
    decreases |seats| - i
    ensures r.Some? ==> i <= r.value < |seats| && Named(seats[r.value], name)
    ensures r.Some? ==> forall j | i <= j < r.value :: !Named(seats[j], name)
    ensures r.None? <==> forall j | i <= j < |seats| :: !Named(seats[j], name)
  {
    if i == |seats| then None
    else if Named(seats[i], name) then Some(i)
    else FindNameFrom(seats, name, i + 1)
  }

  /** get_player: the position a name or index refers to, None when nobody sits there. */
  function Lookup(t: Table, id: Id): (r: Option<nat>)
    ensures r.Some? ==> r.value < |t.seats| && t.seats[r.value].Some?
  {
    match id
    case Name(name) => FindNameFrom(t.seats, name, 0)
    case Position(p) => if 0 <= p < |t.seats| && t.seats[p].Some? then Some(p) else None
  }

  /** A lookup by name finds the lowest seat with that name, and None only when no seat has it. */
  lemma LookupName(t: Table, name: string)
    ensures Lookup(t, Name(name)).Some? <==> exists j | 0 <= j < |t.seats| :: Named(t.seats[j], name)
    ensures Lookup(t, Name(name)).Some? ==>
      var p := Lookup(t, Name(name)).value;
      Named(t.seats[p], name) && forall j | 0 <= j < p :: !Named(t.seats[j], name)
  {
  }

  /** A lookup by index finds exactly the occupied seats. */
  lemma LookupPosition(t: Table, p: int)
    ensures Lookup(t, Position(p)) == Some(p) <==> 0 <= p < |t.seats| && t.seats[p].Some?
    ensures Lookup(t, Position(p)).None? <==> !(0 <= p < |t.seats| && t.seats[p].Some?)
  {
  }

  // ----- the seat filters -----

  /** get_all_players, get_all_active_players and get_not_folded_players. */
  datatype Filter = Everyone | Active | NotFolded

  predicate Keeps(f: Filter, s: Seat)
  {
    match f
    case Everyone => true
    case Active => !s.folded && !s.allIn && s.active
    case NotFolded => !s.folded && s.active
  }

  predicate Kept(f: Filter, s: Option<Seat>)
  {
    s.Some? && Keeps(f, s.value)
  }

  predicate Increasing(ps: seq<nat>)
  {
    forall a, b | 0 <= a < b < |ps| :: ps[a] < ps[b]
  }

  /** The seats at or after i that the filter keeps, in seat order (the dictionary's key order). */
  function PositionsFrom(seats: seq<Option<Seat>>, f: Filter, i: nat): (ps: seq<nat>)
    requires i <= |seats|
    decreases |seats| - i
  {
    if i == |seats| then []
    else if Kept(f, seats[i]) then [i] + PositionsFrom(seats, f, i + 1)
    else PositionsFrom(seats, f, i + 1)
  }

  /** The scan from i lists exactly the kept seats from i on, in increasing order. */
  lemma {:induction false} PositionsFromSpec(seats: seq<Option<Seat>>, f: Filter, i: nat)
    requires i <= |seats|
    decreases |seats| - i
    ensures var ps := PositionsFrom(seats, f, i);
      (forall k | 0 <= k < |ps| :: i <= ps[k] < |seats| && Kept(f, seats[ps[k]])) &&
      (forall j | i <= j < |seats| && Kept(f, seats[j]) :: j in ps) &&
      Increasing(ps)
  {
    if i < |seats| {
      PositionsFromSpec(seats, f, i + 1);
    }
  }

  /** The keys of the filtered dictionary. */
  function Positions(t: Table, f: Filter): (ps: seq<nat>)
    ensures forall j :: j in ps <==> 0 <= j < |t.seats| && Kept(f, t.seats[j])
    ensures Increasing(ps)
  {
    PositionsFromSpec(t.seats, f, 0);
    PositionsFrom(t.seats, f, 0)
  }

  /** Every active seat is not folded, and every not-folded seat is occupied. */
  lemma FiltersNest(t: Table)
    ensures forall j | j in Positions(t, Active) :: j in Positions(t, NotFolded)
    ensures forall j | j in Positions(t, NotFolded) :: j in Positions(t, Everyone)
  {
  }

  /** The number of occupied seats never exceeds the table size. */
  lemma {:induction false} PositionsBound(seats: seq<Option<Seat>>, f: Filter, i: nat)
    requires i <= |seats|
    decreases |seats| - i
    ensures |PositionsFrom(seats, f, i)| <= |seats| - i
  {
    if i < |seats| {
      PositionsBound(seats, f, i + 1);
    }
  }

  // ----- seating -----

  /** The first empty seat at or after i. */
  function FirstEmptyFrom(seats: seq<Option<Seat>>, i: nat): (r: Option<nat>)
    requires i <= |seats|
    decreases |seats| - i
    ensures r.Some? ==> i <= r.value < |seats| && seats[r.value].None?
    ensures r.Some? ==> forall j | i <= j < r.value :: seats[j].Some?
    ensures r.None? <==> forall j | i <= j < |seats| :: seats[j].Some?
  {
    if i == |seats| then None
    else if seats[i].None? then Some(i)
    else FirstEmptyFrom(seats, i + 1)
  }

  /** The record add_player creates. */
  function NewSeat(name: string, bigBlind: int): Seat
  {
    Seat(name, DefaultChips(bigBlind), None, false, false, 0, false)
  }

  /** add_player: seat the player in the first empty seat and return its index. */
  function AddPlayer(t: Table, name: string): (res: Step<Option<nat>>)
  {
    match FirstEmptyFrom(t.seats, 0)
    case None => Step(t, None)
    case Some(i) => Step(t.(seats := t.seats[i := Some(NewSeat(name, t.bigBlind))]), Some(i))
  }

  /**
   * add_player fills the lowest empty seat with a fresh record and touches nothing else;
   * on a full table it returns None and changes nothing.
   */
  lemma AddPlayerSpec(t: Table, name: string)
    ensures var res := AddPlayer(t, name);
      res.out.None? <==> forall j | 0 <= j < |t.seats| :: t.seats[j].Some?
    ensures var res := AddPlayer(t, name);
      res.out.None? ==> res.table == t
    ensures var res := AddPlayer(t, name);
      res.out.Some? ==>
        var i := res.out.value;
        i < |t.seats| && t.seats[i].None? && (forall j | 0 <= j < i :: t.seats[j].Some?) &&
        res.table.seats[i] == Some(Seat(name, 100 * t.bigBlind, None, false, false, 0, false)) &&
        |res.table.seats| == |t.seats| &&
        (forall j | 0 <= j < |t.seats| && j != i :: res.table.seats[j] == t.seats[j]) &&
        res.table == t.(seats := res.table.seats)
  {
  }

  /** A seated player can be found again by the index add_player returned. */
  lemma AddThenLookup(t: Table, name: string)
    requires AddPlayer(t, name).out.Some?
    ensures var res := AddPlayer(t, name);
      Lookup(res.table, Position(res.out.value)) == res.out
    ensures var res := AddPlayer(t, name);
      (forall j | 0 <= j < |t.seats| :: !Named(t.seats[j], name)) ==>
        Lookup(res.table, Name(name)) == res.out
  {
    var res := AddPlayer(t, name);
    var i := res.out.value;
    if forall j | 0 <= j < |t.seats| :: !Named(t.seats[j], name) {
      assert Named(res.table.seats[i], name);
      assert forall j | 0 <= j < |res.table.seats| && j != i :: !Named(res.table.seats[j], name);
      var r := FindNameFrom(res.table.seats, name, 0);
      assert r.Some?;
      assert r.value == i;
    }
  }

  /** Raising the event flag as remove_player and player_action do. */
  function Release(t: Table): (u: Table)
  {
    t.(waiting := false, eventSet := true)
  }

  /**
   * remove_player: free the first seat held by that username. If that seat is the one being
   * waited for and the event is not yet set, stop waiting and set the event.
   */
  function RemovePlayer(t: Table, name: string): (res: Step<Option<nat>>)
  {
    match FindNameFrom(t.seats, name, 0)
    case None => Step(t, None)
    case Some(i) =>
      var u := if t.current == Some(i) && t.waiting && !t.eventSet then Release(t) else t;
      Step(u.(seats := t.seats[i := None]), Some(i))
  }

  /**
   * remove_player clears exactly the first seat with that name, releases a pending wait on
   * it, and otherwise changes nothing; without a match it returns None and changes nothing.
   */
  lemma RemovePlayerSpec(t: Table, name: string)
    ensures var res := RemovePlayer(t, name);
      res.out.None? <==> forall j | 0 <= j < |t.seats| :: !Named(t.seats[j], name)
    ensures var res := RemovePlayer(t, name);
      res.out.None? ==> res.table == t
    ensures var res := RemovePlayer(t, name);
      res.out.Some? ==>
        var i := res.out.value;
        var released := t.current == Some(i) && t.waiting && !t.eventSet;
        i < |t.seats| && Named(t.seats[i], name) && (forall j | 0 <= j < i :: !Named(t.seats[j], name)) &&
        res.table.seats == t.seats[i := None] &&
        res.table.waiting == (t.waiting && !released) &&
        res.table.eventSet == (t.eventSet || released) &&
        res.table == t.(seats := res.table.seats, waiting := res.table.waiting, eventSet := res.table.eventSet)
  {
  }

  /** Removing a newly added player whose name was not yet seated restores every seat. */
  lemma AddThenRemove(t: Table, name: string)
    requires AddPlayer(t, name).out.Some?
    requires forall j | 0 <= j < |t.seats| :: !Named(t.seats[j], name)
    ensures RemovePlayer(AddPlayer(t, name).table, name).out == AddPlayer(t, name).out
    ensures RemovePlayer(AddPlayer(t, name).table, name).table.seats == t.seats
  {
    AddThenLookup(t, name);
    var i := AddPlayer(t, name).out.value;
    assert t.seats[i := Some(NewSeat(name, t.bigBlind))][i := None] == t.seats;
  }

  // ----- chips -----

  function ChipsAt(s: Option<Seat>): int
  {
    if s.Some? then s.value.chipCount else 0
  }

  /** The sum of all stacks. */
  function Stacks(seats: seq<Option<Seat>>): int
  {
    if seats == [] then 0 else ChipsAt(seats[0]) + Stacks(seats[1..])
  }

  /** Every chip on the table: the stacks plus the pot. */
  function Chips(t: Table): int
  {
    Stacks(t.seats) + t.pot
  }

  /** Replacing one seat changes the stack sum by the difference of the two stacks. */
  lemma {:induction false} StacksUpdate(seats: seq<Option<Seat>>, p: nat, s: Option<Seat>)
    requires p < |seats|
    ensures Stacks(seats[p := s]) == Stacks(seats) - ChipsAt(seats[p]) + ChipsAt(s)
  {
    if p > 0 {
      assert seats[p := s][1..] == seats[1..][p - 1 := s];
      StacksUpdate(seats[1..], p - 1, s);
    }
  }

  /** Seating a player adds exactly the default stack; removing one takes away their stack. */
  lemma SeatingChips(t: Table, name: string)
    ensures var res := AddPlayer(t, name);
      Chips(res.table) == Chips(t) + (if res.out.Some? then 100 * t.bigBlind else 0)
    ensures var res := RemovePlayer(t, name);
      Chips(res.table) == Chips(t) - (if res.out.Some? then ChipsAt(t.seats[res.out.value]) else 0)
  {
    var a := AddPlayer(t, name);
    if a.out.Some? {
      StacksUpdate(t.seats, a.out.value, Some(NewSeat(name, t.bigBlind)));
    }
    var r := RemovePlayer(t, name);
    if r.out.Some? {
      StacksUpdate(t.seats, r.out.value, None);
    }
  }

  // ----- player_bet -----

  /** What player_bet returns: False, or the amount actually put in (which may be 0). */
  datatype BetOutcome = Rejected | Placed(amount: int)

  /**
   * player_bet. A seat that is missing, folded or all-in, or a table in `waiting`, is
   * rejected with nothing changed. Otherwise a bet of the whole stack or more is clamped to
   * the stack and marks the seat all-in -- before the check that the bet reaches
   * current_max_bet, so an undersized all-in is rejected yet leaves the seat all-in.
   */
  function Bet(t: Table, id: Id, amount: int): (res: Step<BetOutcome>)
    ensures |res.table.seats| == |t.seats|
  {
    match Lookup(t, id)
    case None => Step(t, Rejected)
    case Some(p) =>
      var s := t.seats[p].value;
      if s.folded || s.allIn || t.phase == Waiting then Step(t, Rejected)
      else
        var goesAllIn := amount >= s.chipCount;
        var a := if goesAllIn then s.chipCount else amount;
        var s1 := s.(allIn := goesAllIn);
        if a + s.currentBet >= t.currentMaxBet then
          var diff := a + s.currentBet - t.currentMaxBet;
          var s2 := s1.(chipCount := s.chipCount - a, currentBet := s.currentBet + a);
          var raised := diff > 0;
          Step(t.(seats := t.seats[p := Some(s2)], pot := t.pot + a,
                  currentMaxBet := if raised then t.currentMaxBet + diff else t.currentMaxBet,
                  lastRaiser := if raised then Some(p) else t.lastRaiser),
               Placed(a))
        else Step(t.(seats := t.seats[p := Some(s1)]), Rejected)
  }

  /** The guards under which player_bet refuses before looking at the amount. */
  predicate BetBlocked(t: Table, id: Id)
  {
    Lookup(t, id).None? ||
    var s := t.seats[Lookup(t, id).value].value;
    s.folded || s.allIn || t.phase == Waiting
  }

  /** A blocked bet, or one whose clamped commitment stays below current_max_bet, moves no chips. */
  lemma BetRejected(t: Table, id: Id, amount: int)
    ensures BetBlocked(t, id) ==> Bet(t, id, amount) == Step(t, Rejected)
    ensures !BetBlocked(t, id) ==>
      var p := Lookup(t, id).value;
      var s := t.seats[p].value;
      var a := Min(amount, s.chipCount);
      (Bet(t, id, amount).out == Rejected <==> a + s.currentBet < t.currentMaxBet) &&
      (a + s.currentBet < t.currentMaxBet ==>
        Bet(t, id, amount).table == t.(seats := t.seats[p := Some(s.(allIn := amount >= s.chipCount))]))
  {
  }

  /**
   * An accepted bet puts in min(amount, chip_count), marks the seat all-in iff the amount
   * covered the stack, moves exactly that many chips from the stack to both the seat's
   * current bet and the pot, lifts current_max_bet to the seat's new bet when it is higher,
   * and makes the seat the last raiser iff the maximum strictly rose.
   */
  lemma BetPlaced(t: Table, id: Id, amount: int)
    requires Bet(t, id, amount).out.Placed?
    ensures !BetBlocked(t, id)
    ensures var p := Lookup(t, id).value;
      var s := t.seats[p].value;
      var res := Bet(t, id, amount);
      var a := res.out.amount;
      var s' := res.table.seats[p].value;
      a == Min(amount, s.chipCount) &&
      res.table.seats == t.seats[p := Some(s')] &&
      s'.allIn == (amount >= s.chipCount) &&
      s'.chipCount == s.chipCount - a &&
      s'.currentBet == s.currentBet + a &&
      s' == s.(allIn := s'.allIn, chipCount := s'.chipCount, currentBet := s'.currentBet) &&
      res.table.pot == t.pot + a &&
      res.table.currentMaxBet == (if s'.currentBet > t.currentMaxBet then s'.currentBet else t.currentMaxBet) &&
      res.table.currentMaxBet >= s'.currentBet &&
      (res.table.lastRaiser == Some(p) || res.table.lastRaiser == t.lastRaiser) &&
      (s'.currentBet > t.currentMaxBet ==> res.table.lastRaiser == Some(p)) &&
      (s'.currentBet <= t.currentMaxBet ==> res.table.lastRaiser == t.lastRaiser) &&
      res.table == t.(seats := res.table.seats, pot := res.table.pot,
                      currentMaxBet := res.table.currentMaxBet, lastRaiser := res.table.lastRaiser)
  {
  }

  /** player_bet never creates or destroys chips. */
  lemma BetConserves(t: Table, id: Id, amount: int)
    ensures Chips(Bet(t, id, amount).table) == Chips(t)
  {
    var res := Bet(t, id, amount);
    if Lookup(t, id).Some? {
      var p := Lookup(t, id).value;
      if res.table != t {
        StacksUpdate(t.seats, p, res.table.seats[p]);
        assert res.table.seats == t.seats[p := res.table.seats[p]];
      }
    }
  }

  /** No seat's current bet is above current_max_bet. */
  predicate BetsCapped(t: Table)
  {
    forall j | 0 <= j < |t.seats| && t.seats[j].Some? :: t.seats[j].value.currentBet <= t.currentMaxBet
  }

  /** player_bet keeps every current bet at or below the maximum. */
  lemma BetKeepsCap(t: Table, id: Id, amount: int)
    requires BetsCapped(t)
    ensures BetsCapped(Bet(t, id, amount).table)
  {
  }

  // ----- player_action -----

  /** The (False, message) answers of player_action. */
  datatype Refusal =
    | PlayerNotFound
    | NotYourTurn
    | ActionNotExpected
    | CannotAct
    | CannotCall
    | RaiseNotPositive
    | RaiseTooSmall
    | InvalidAction

  function Message(r: Refusal): string
  {
    match r
    case PlayerNotFound => "Player not found."
    case NotYourTurn => "Not your turn."
    case ActionNotExpected => "Action not expected."
    case CannotAct => "You cannot act."
    case CannotCall => "Cannot call."
    case RaiseNotPositive => "Raise amount must be positive."
    case RaiseTooSmall => "Raise must be greater than current max bet."
    case InvalidAction => "Invalid action."
  }

  /** The reply strings tell the refusals apart: a client can recover the reason from the text. */
  lemma MessageTells(r1: Refusal, r2: Refusal)
    ensures Message(r1) == Message(r2) ==> r1 == r2
  {
    if r1 != r2 && Message(r1)[0] == Message(r2)[0] {
      assert |Message(r1)| != |Message(r2)|;
    }
  }

  /** (True, None) or (False, message). */
  datatype Reply = Accepted | Refused(reason: Refusal)

  /**
   * player_action. A check is a call of 0. A call whose player_bet returns False compares
   * equal to 0 and is reported as a check; only a negative amount put in gives "Cannot call.".
   */
  function Act(t: Table, id: Id, action: string, amount: int): (res: Step<Reply>)
    ensures |res.table.seats| == |t.seats|
  {
    match Lookup(t, id)
    case None => Step(t, Refused(PlayerNotFound))
    case Some(p) =>
      var s := t.seats[p].value;
      if t.current != Some(p) then Step(t, Refused(NotYourTurn))
      else if !t.waiting then Step(t, Refused(ActionNotExpected))
      else if s.allIn || s.folded then Step(t, Refused(CannotAct))
      else if action == "fold" then
        Step(Release(t.(seats := t.seats[p := Some(s.(folded := true))])), Accepted)
      else if action == "call" then
        var b := Bet(t, id, t.currentMaxBet - s.currentBet);
        if b.out.Placed? && b.out.amount < 0 then Step(b.table, Refused(CannotCall))
        else Step(Release(b.table), Accepted)
      else if action == "raise" then
        if amount <= 0 then Step(t, Refused(RaiseNotPositive))
        else if amount + s.currentBet <= t.currentMaxBet then Step(t, Refused(RaiseTooSmall))
        else Step(Release(Bet(t, id, amount).table), Accepted)
      else Step(t, Refused(InvalidAction))
  }

  /** The seat player_action would act for, when it exists and may act. */
  predicate MayAct(t: Table, id: Id)
  {
    Lookup(t, id).Some? && t.current == Some(Lookup(t, id).value) && t.waiting &&
    var s := t.seats[Lookup(t, id).value].value;
    !s.allIn && !s.folded
  }

  /**
   * The refusals come in the source's order, each exactly under its condition, and each
   * leaves the table as it was.
   */
  lemma ActRefusals(t: Table, id: Id, action: string, amount: int)
    ensures var res := Act(t, id, action, amount);
      (res.out == Refused(PlayerNotFound) <==> Lookup(t, id).None?) &&
      (res.out == Refused(NotYourTurn) <==> Lookup(t, id).Some? && t.current != Some(Lookup(t, id).value)) &&
      (res.out == Refused(ActionNotExpected) <==>
        Lookup(t, id).Some? && t.current == Some(Lookup(t, id).value) && !t.waiting) &&
      (res.out == Refused(CannotAct) <==>
        Lookup(t, id).Some? && t.current == Some(Lookup(t, id).value) && t.waiting && !MayAct(t, id))
    ensures var res := Act(t, id, action, amount);
      MayAct(t, id) ==>
        var s := t.seats[Lookup(t, id).value].value;
        (res.out == Refused(RaiseNotPositive) <==> action == "raise" && amount <= 0) &&
        (res.out == Refused(RaiseTooSmall) <==>
          action == "raise" && amount > 0 && amount + s.currentBet <= t.currentMaxBet) &&
        (res.out == Refused(InvalidAction) <==> action != "fold" && action != "call" && action != "raise")
    ensures var res := Act(t, id, action, amount);
      res.out.Refused? && res.out != Refused(CannotCall) ==> res.table == t
  {
  }

  /**
   * A successful action: a fold only marks the seat folded; a call whose amount is
   * affordable brings the seat's bet up to current_max_bet; a raise that the stack covers
   * makes current_max_bet the seat's bet plus the raise. Every accepted action stops the
   * wait and sets the event.
   */
  lemma ActAccepted(t: Table, id: Id, action: string, amount: int)
    requires Act(t, id, action, amount).out == Accepted
    ensures MayAct(t, id)
    ensures var res := Act(t, id, action, amount);
      !res.table.waiting && res.table.eventSet
    ensures var res := Act(t, id, action, amount);
      var p := Lookup(t, id).value;
      var s := t.seats[p].value;
      (action == "fold" ==>
        res.table == Release(t.(seats := t.seats[p := Some(s.(folded := true))]))) &&
      (action == "call" && t.currentMaxBet - s.currentBet <= s.chipCount && s.currentBet <= t.currentMaxBet
        && t.phase != Waiting ==>
        res.table.seats[p].value.currentBet == t.currentMaxBet &&
        res.table.currentMaxBet == t.currentMaxBet) &&
      (action == "raise" && amount <= s.chipCount && t.phase != Waiting ==>
        res.table.currentMaxBet == s.currentBet + amount &&
        res.table.seats[p].value.currentBet == s.currentBet + amount &&
        res.table.lastRaiser == Some(p))
  {
  }

  /**
   * The raise quirk: a raise the stack cannot cover, and whose whole stack still falls short
   * of current_max_bet, is accepted, marks the seat all-in and moves no chips.
   */
  lemma ShortAllInRaise(t: Table, id: Id, amount: int)
    requires MayAct(t, id) && t.phase != Waiting
    requires var s := t.seats[Lookup(t, id).value].value;
      amount > 0 && amount + s.currentBet > t.currentMaxBet &&
      amount >= s.chipCount && s.chipCount + s.currentBet < t.currentMaxBet
    ensures var res := Act(t, id, "raise", amount);
      var p := Lookup(t, id).value;
      res.out == Accepted &&
      res.table == Release(t.(seats := t.seats[p := Some(t.seats[p].value.(allIn := true))])) &&
      Chips(res.table) == Chips(t)
  {
    var p := Lookup(t, id).value;
    StacksUpdate(t.seats, p, Some(t.seats[p].value.(allIn := true)));
  }

  /** While no bet exceeds current_max_bet, "Cannot call." can never be the answer. */
  lemma CallNeverRefused(t: Table, id: Id, amount: int)
    requires BetsCapped(t)
    ensures Act(t, id, "call", amount).out != Refused(CannotCall)
  {
    if MayAct(t, id) {
      var p := Lookup(t, id).value;
      assert t.seats[p].value.currentBet <= t.currentMaxBet;
    }
  }

  /** player_action neither creates nor destroys chips. */
  lemma ActConserves(t: Table, id: Id, action: string, amount: int)
    ensures Chips(Act(t, id, action, amount).table) == Chips(t)
  {
    if MayAct(t, id) {
      var p := Lookup(t, id).value;
      var s := t.seats[p].value;
      if action == "fold" {
        StacksUpdate(t.seats, p, Some(s.(folded := true)));
      } else if action == "call" {
        BetConserves(t, id, t.currentMaxBet - s.currentBet);
      } else if action == "raise" {
        BetConserves(t, id, amount);
      }
    }
  }

  /** player_action keeps every current bet at or below current_max_bet. */
  lemma ActKeepsCap(t: Table, id: Id, action: string, amount: int)
    requires BetsCapped(t)
    ensures BetsCapped(Act(t, id, action, amount).table)
  {
    if MayAct(t, id) {
      var p := Lookup(t, id).value;
      var s := t.seats[p].value;
      if action == "call" {
        BetKeepsCap(t, id, t.currentMaxBet - s.currentBet);
      } else if action == "raise" {
        BetKeepsCap(t, id, amount);
      }
    }
  }

  // ----- stepping the game -----

  function ClearBet(s: Option<Seat>): Option<Seat>
  {
    if s.Some? then Some(s.value.(currentBet := 0)) else None
  }

  /** Every occupied seat with its current bet reset to 0. */
  function ClearBets(seats: seq<Option<Seat>>): (r: seq<Option<Seat>>)
    ensures |r| == |seats|
  {
    seq(|seats|, i requires 0 <= i < |seats| => ClearBet(seats[i]))
  }

  /**
   * The synchronous part of _next_state: forget the last raiser, the maximum bet and the
   * current player, clear every bet and move one step round the transition table. (The
   * setup of the new state is scheduled as a separate task.)
   */
  function NextState(t: Table): (u: Table)
  {
    t.(lastRaiser := None, currentMaxBet := 0, current := None, seats := ClearBets(t.seats),
       phase := NextPhase(t.phase))
  }

  /** Clearing bets changes no stack. */
  lemma {:induction false} ClearBetsStacks(seats: seq<Option<Seat>>)
    ensures Stacks(ClearBets(seats)) == Stacks(seats)
  {
    if seats != [] {
      assert ClearBets(seats)[1..] == ClearBets(seats[1..]);
      ClearBetsStacks(seats[1..]);
    }
  }

  /**
   * _next_state resets the per-street betting, keeps the pot and every stack and seat
   * otherwise as they were, and advances game_state one step.
   */
  lemma NextStateSpec(t: Table)
    ensures var u := NextState(t);
      u.lastRaiser.None? && u.currentMaxBet == 0 && u.current.None? &&
      u.pot == t.pot && u.phase == NextPhase(t.phase) && |u.seats| == |t.seats| &&
      (forall j | 0 <= j < |t.seats| :: u.seats[j].Some? <==> t.seats[j].Some?) &&
      (forall j | 0 <= j < |t.seats| && t.seats[j].Some? ::
        u.seats[j].value.currentBet == 0 && u.seats[j].value == t.seats[j].value.(currentBet := 0)) &&
      Positions(u, Everyone) == Positions(t, Everyone) &&
      Chips(u) == Chips(t) && BetsCapped(u)
  {
    ClearBetsStacks(t.seats);
    SameOccupancy(t.seats, ClearBets(t.seats), Everyone, 0);
  }

  /** Two seat lists that agree on which seats a filter keeps have the same positions. */
  lemma {:induction false} SameOccupancy(a: seq<Option<Seat>>, b: seq<Option<Seat>>, f: Filter, i: nat)
    requires |a| == |b| && i <= |a|
    requires forall j | 0 <= j < |a| :: Kept(f, a[j]) <==> Kept(f, b[j])
    decreases |a| - i
    ensures PositionsFrom(a, f, i) == PositionsFrom(b, f, i)
  {
    if i < |a| {
      SameOccupancy(a, b, f, i + 1);
    }
  }

  /**
   * start_game: with at least two seated players and the table waiting, put the dealer on
   * the lowest occupied seat the first time and one seat further, modulo max_players, after
   * that, then enter pre_flop.
   */
  function StartGame(t: Table): (res: Step<bool>)
  {
    var seated := Positions(t, Everyone);
    if |seated| >= 2 && t.phase == Waiting then
      var d := if t.dealer.None? then seated[0] else (t.dealer.value + 1) % |t.seats|;
      Step(t.(dealer := Some(d), phase := PreFlop), true)
    else Step(t, false)
  }

  /**
   * start_game succeeds exactly with two or more seated players in `waiting` and otherwise
   * changes nothing; the first dealer is the lowest occupied seat.
   */
  lemma StartGameSpec(t: Table)
    ensures var res := StartGame(t);
      res.out <==> |Positions(t, Everyone)| >= 2 && t.phase == Waiting
    ensures var res := StartGame(t);
      !res.out ==> res.table == t
    ensures var res := StartGame(t);
      res.out ==>
        res.table == t.(dealer := res.table.dealer, phase := PreFlop) &&
        res.table.dealer.Some? &&
        (t.dealer.None? ==>
          var d := res.table.dealer.value;
          0 <= d < |t.seats| && t.seats[d].Some? && forall j | 0 <= j < d :: t.seats[j].None?) &&
        (t.dealer.Some? ==> res.table.dealer == Some((t.dealer.value + 1) % |t.seats|))
  {
    var seated := Positions(t, Everyone);
    if |seated| >= 2 && t.phase == Waiting && t.dealer.None? {
      var d := seated[0];
      assert d in seated;
      assert 0 <= d < |t.seats| && t.seats[d].Some?;
      assert forall k | 0 <= k < |seated| :: d <= seated[k];
      assert forall j | 0 <= j < d :: j !in seated;
      assert forall j | 0 <= j < d :: t.seats[j].None?;
    }
  }
}
