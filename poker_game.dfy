/**
 * The PokerGame object: its seat dictionary is a fixed array of max_players slots and its
 * scalar attributes are fields that the methods update in place. State() reads the fields
 * as a PokerTable.Table value, and every method is proved to leave State() equal to the
 * function that specifies it in table.dfy or streets.dfy, where the properties of those
 * functions are proved.
 */
module Game {
  import opened Wrappers
  import opened PokerTable
  import opened Streets

  class PokerGame {
    /** players: seat index to record, None for an empty seat */
    const seats: array<Option<Seat>>
    const bigBlind: int
    var pot: int
    var currentMaxBet: int
    var phase: Phase
    var dealer: Option<int>
    var current: Option<int>
    var lastRaiser: Option<int>
    var waiting: bool
    /** whether player_action_event is set */
    var eventSet: bool

    function State(): Table
      reads this, seats
    {
      Table(seats[..], bigBlind, pot, currentMaxBet, phase, dealer, current, lastRaiser, waiting, eventSet)
    }

    constructor (maxPlayers: nat, bigBlind: int)
      ensures State() == Init(maxPlayers, bigBlind)
      ensures fresh(seats)
    {
      seats := new Option<Seat>[maxPlayers](_ => None);
      this.bigBlind := bigBlind;
      pot := 0;
      currentMaxBet := 0;
      phase := Waiting;
      dealer := None;
      current := None;
      lastRaiser := None;
      waiting := false;
      eventSet := false;
      new;
      assert seats[..] == seq(maxPlayers, _ => None);
    }

    /** get_player: by username the first seat with that name, by index an occupied seat. */
    method GetPlayer(id: Id) returns (pos: Option<nat>, seat: Option<Seat>)
      ensures pos == Lookup(State(), id)
      ensures seat == if pos.Some? then seats[pos.value] else None
    {
      match id
      case Position(p) =>
        if 0 <= p < seats.Length && seats[p].Some? {
          return Some(p), seats[p];
        }
        return None, None;
      case Name(name) =>
        var i := 0;
        while i < seats.Length
          invariant 0 <= i <= seats.Length
          invariant FindNameFrom(seats[..], name, 0) == FindNameFrom(seats[..], name, i)
        {
          if seats[i].Some? && seats[i].value.username == name {
            return Some(i), seats[i];
          }
          i := i + 1;
        }
        return None, None;
    }

    /** The seats a filter keeps, scanning the seats in order. */
    method SeatsWhere(f: Filter) returns (ps: seq<nat>)
      ensures ps == Positions(State(), f)
    {
      ps := [];
      var i := 0;
      while i < seats.Length
        invariant 0 <= i <= seats.Length
        invariant PositionsFrom(seats[..], f, 0) == ps + PositionsFrom(seats[..], f, i)
      {
        if seats[i].Some? && Keeps(f, seats[i].value) {
          assert PositionsFrom(seats[..], f, i) == [i] + PositionsFrom(seats[..], f, i + 1);
          ps := ps + [i];
        }
        i := i + 1;
      }
    }

    /** get_all_players */
    method AllPlayers() returns (ps: seq<nat>)
      ensures ps == Positions(State(), Everyone)
    {
      ps := SeatsWhere(Everyone);
    }

    /** get_all_active_players */
    method AllActivePlayers() returns (ps: seq<nat>)
      ensures ps == Positions(State(), Active)
    {
      ps := SeatsWhere(Active);
    }

    /** get_not_folded_players */
    method NotFoldedPlayers() returns (ps: seq<nat>)
      ensures ps == Positions(State(), NotFolded)
    {
      ps := SeatsWhere(NotFolded);
    }

    /** add_player */
    method AddPlayer(name: string) returns (pos: Option<nat>)
      modifies seats
      ensures State() == PokerTable.AddPlayer(old(State()), name).table
      ensures pos == PokerTable.AddPlayer(old(State()), name).out
    {
      var i := 0;
      while i < seats.Length
        invariant 0 <= i <= seats.Length
        invariant FirstEmptyFrom(seats[..], 0) == FirstEmptyFrom(seats[..], i)
      {
        if seats[i].None? {
          seats[i] := Some(NewSeat(name, bigBlind));
          return Some(i);
        }
        i := i + 1;
      }
      return None;
    }

    /** remove_player */
    method RemovePlayer(name: string) returns (pos: Option<nat>)
      modifies this, seats
      ensures State() == PokerTable.RemovePlayer(old(State()), name).table
      ensures pos == PokerTable.RemovePlayer(old(State()), name).out
    {
      var i := 0;
      while i < seats.Length
        invariant 0 <= i <= seats.Length
        invariant FindNameFrom(seats[..], name, 0) == FindNameFrom(seats[..], name, i)
      {
        if seats[i].Some? && seats[i].value.username == name {
          if current == Some(i) && waiting && !eventSet {
            waiting := false;
            eventSet := true;
          }
          seats[i] := None;
          return Some(i);
        }
        i := i + 1;
      }
      return None;
    }

    /** player_bet */
    method PlayerBet(id: Id, amount: int) returns (r: BetOutcome)
      modifies this, seats
      ensures State() == Bet(old(State()), id, amount).table
      ensures r == Bet(old(State()), id, amount).out
    {
      var pos, seat := GetPlayer(id);
      if pos.None? {
        return Rejected;
      }
      var p := pos.value;
      var s := seat.value;
      if s.folded || s.allIn || phase == Waiting {
        return Rejected;
      }
      var a := amount;
      if a >= s.chipCount {
        a := s.chipCount;
        seats[p] := Some(s.(allIn := true));
      }
      if a + s.currentBet >= currentMaxBet {
        var diff := a + s.currentBet - currentMaxBet;
        seats[p] := Some(seats[p].value.(chipCount := s.chipCount - a, currentBet := s.currentBet + a));
        pot := pot + a;
        if diff > 0 {
          currentMaxBet := currentMaxBet + diff;
          lastRaiser := Some(p);
        }
        return Placed(a);
      }
      return Rejected;
    }

    /** player_action; a check is a call of 0. */
    method PlayerAction(id: Id, action: string, amount: int) returns (reply: Reply)
      modifies this, seats
      ensures State() == Act(old(State()), id, action, amount).table
      ensures reply == Act(old(State()), id, action, amount).out
    {
      var pos, seat := GetPlayer(id);
      if pos.None? {
        return Refused(PlayerNotFound);
      }
      var p := pos.value;
      var s := seat.value;
      if current != Some(p) {
        return Refused(NotYourTurn);
      }
      if !waiting {
        return Refused(ActionNotExpected);
      }
      if s.allIn || s.folded {
        return Refused(CannotAct);
      }
      if action == "fold" {
        seats[p] := Some(s.(folded := true));
      } else if action == "call" {
        var betAmount := PlayerBet(id, currentMaxBet - s.currentBet);
        if betAmount.Placed? && betAmount.amount < 0 {
          return Refused(CannotCall);
        }
      } else if action == "raise" {
        if amount <= 0 {
          return Refused(RaiseNotPositive);
        }
        if amount + s.currentBet <= currentMaxBet {
          return Refused(RaiseTooSmall);
        }
        var _ := PlayerBet(id, amount);
      } else {
        return Refused(InvalidAction);
      }
      waiting := false;
      eventSet := true;
      return Accepted;
    }

    /** The synchronous part of _next_state. */
    method NextState()
      modifies this, seats
      ensures State() == PokerTable.NextState(old(State()))
    {
      var next := NextPhase(phase);
      lastRaiser := None;
      currentMaxBet := 0;
      current := None;
      var i := 0;
      while i < seats.Length
        invariant 0 <= i <= seats.Length
        modifies seats
        invariant forall j | 0 <= j < i :: seats[j] == ClearBet(old(seats[j]))
        invariant forall j | i <= j < seats.Length :: seats[j] == old(seats[j])
      {
        if seats[i].Some? {
          seats[i] := Some(seats[i].value.(currentBet := 0));
        }
        i := i + 1;
      }
      phase := next;
      assert seats[..] == ClearBets(old(seats[..]));
    }

    /** start_game */
    method StartGame() returns (ok: bool)
      modifies this
      ensures State() == PokerTable.StartGame(old(State())).table
      ensures ok == PokerTable.StartGame(old(State())).out
    {
      var seated := AllPlayers();
      if |seated| >= 2 && phase == Waiting {
        dealer := if dealer.None? then Some(seated[0]) else Some((dealer.value + 1) % seats.Length);
        phase := PreFlop;
        return true;
      }
      return false;
    }

    /**
     * _get_acting_order: move current_player_position forward to an active seat and return
     * the active seats rotated at that seat number; None (nothing changed) where the source
     * raises because there is no current position.
     */
    method GetActingOrder() returns (order: Option<seq<nat>>)
      requires exists j | 0 <= j < seats.Length :: Kept(Active, seats[j])
      modifies this
      ensures var r := ActingOrder(old(State()));
        (r.None? ==> order.None? && State() == old(State())) &&
        (r.Some? ==> order == Some(r.value.1) && State() == old(State()).(current := Some(r.value.0)))
    {
      var ps := AllActivePlayers();
      if current.None? {
        return None;
      }
      var c := current.value;
      if c !in ps {
        var next := NextActive(ps, seats.Length, (c + 1) % seats.Length);
        current := Some(next);
      }
      order := Some(Rotate(ps, current.value as nat));
    }

    /** The while loop of _get_acting_order: step (p + 1) % n from start to the first active seat. */
    static method NextActive(ps: seq<nat>, n: nat, start: nat) returns (next: nat)
      requires 0 < n && start < n
      requires exists j | 0 <= j < n :: j in ps
      ensures next == Advance(ps, n, start, n) && next in ps
    {
      ghost var j :| 0 <= j < n && j in ps;
      AdvanceFinds(ps, n, start, n, j);
      next := start;
      ghost var budget: nat := n;
      while next !in ps
        invariant 0 <= next < n
        invariant Dist(next, j, n) < budget
        invariant Advance(ps, n, next, budget) == Advance(ps, n, start, n)
        decreases budget
      {
        SuccMod(next, n);
        next := (next + 1) % n;
        budget := budget - 1;
      }
    }

    /**
     * _setup_pre_flop up to the deal. On false the source has raised in positions.index,
     * after zeroing the pot and the maximum bet and activating every seated player.
     */
    method SetupPreFlop() returns (ok: bool)
      modifies this, seats
      ensures var t1 := old(State()).(pot := 0, currentMaxBet := 0, seats := Activate(old(seats[..])));
        var r := Streets.SetupPreFlop(old(State()));
        ok == r.Some? && State() == if ok then r.value else t1
    {
      pot := 0;
      currentMaxBet := 0;
      var i := 0;
      while i < seats.Length
        modifies seats
        invariant 0 <= i <= seats.Length
        invariant forall j | 0 <= j < i :: seats[j] == Activate(old(seats[..]))[j]
        invariant forall j | i <= j < seats.Length :: seats[j] == old(seats[j])
      {
        if seats[i].Some? {
          seats[i] := Some(seats[i].value.(active := true));
        }
        i := i + 1;
      }
      assert seats[..] == Activate(old(seats[..]));
      ghost var t1 := State();
      var ps := AllPlayers();
      var plan := PreFlopPlan(ps, dealer);
      if plan.None? {
        return false;
      }
      var b := plan.value;
      var _ := PlayerBet(Position(b.small), bigBlind / 2);
      ghost var t2 := State();
      assert t2 == Bet(t1, Position(b.small), t1.bigBlind / 2).table;
      var _ := PlayerBet(Position(b.big), bigBlind);
      ghost var t3 := State();
      assert t3 == Bet(t2, Position(b.big), t1.bigBlind).table;
      current := Some(b.first);
      assert State() == t3.(current := Some(b.first));
      assert State() == PostBlinds(t1, b);
      return true;
    }

    /** The seat setup of _setup_flop, _setup_turn and _setup_river. */
    method SetupStreet() returns (ok: bool)
      modifies this
      ensures var r := StreetStart(old(State()));
        ok == r.Some? && State() == if ok then r.value else old(State())
    {
      if dealer.None? || seats.Length == 0 {
        return false;
      }
      current := Some((dealer.value + 1) % seats.Length);
      return true;
    }

    /** The synchronous start of _wait_for_player_action. */
    method BeginWait()
      modifies this
      ensures State() == Streets.BeginWait(old(State()))
    {
      waiting := true;
      eventSet := false;
    }
  }
}
