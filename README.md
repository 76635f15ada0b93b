# A verified model of the PokerGame table engine

This project models the single-table Texas hold'em engine of the poker site, `PokerGame`, in Dafny.
It also models the standalone copy of its hand evaluator kept beside the evaluator tests.

The model has five parts:

- **The table.** `PokerGame` holds a fixed set of `max_players` seats, each empty or holding a player's record. It also holds the pot, the current maximum bet, the game state, and the dealer, current-player and last-raiser positions. It has a "waiting for a player" flag and an action event.
  - `poker_game.dfy` is the class with those fields. Its methods update the fields in place, with the seat-scanning loops of the source.
  - Each method is proved to leave the object's state equal to a function of the old state, in `table.dfy` and `streets.dfy`.
  - What the source promises is proved as lemmas about those functions.
- **Seating and betting.** `add_player`, `remove_player`, `get_player`, the three seat filters, `player_bet` (the only place chips move) and the error ladder of `player_action`. Also the state cycle waiting → pre_flop → flop → turn → river → showdown → waiting, with `_next_state` and `start_game`.
- **Positions.** The blind, first-actor and dealing-order arithmetic of `_setup_pre_flop`, the seat walk of `_get_acting_order`, and the street setup. Also the opening check and the lap-completion test of `_betting_round`.
- **Hands.** The nine-category evaluator `_evaluate_hand`, its standalone twin `evaluate_hand`, and the comparator `_compare_hands`.
  - Cards are (rank, suit) with rank 1 (the two) to 13 (the Ace).
  - Every detector is a function whose contract says what it found. Lemmas characterise straights, flushes, groups and two pair in terms of rank and suit counts.
  - `HandPriority` states, for every input, which category each of the three evaluators returns: the first condition on rank and suit counts, in the order of the priority chain, that the cards meet.
- **Corrections.** Where the source misbehaves (see "Findings"), the as-written behaviour is what the classes and `Evaluate` use. Beside it is a corrected function with its intended property proved, and a lemma that exhibits the difference.

Modules, one per file:

| module | file |
|---|---|
| `Wrappers` | `wrappers.dfy` |
| `Cards` | `cards.dfy` |
| `HandEvaluator` | `evaluator.dfy` |
| `Runs` | `runs.dfy` |
| `CorrectedEvaluator` | `corrected.dfy` |
| `HandPriority` | `priority.dfy` |
| `HandComparator` | `comparator.dfy` |
| `HandSamples` | `examples_cards.dfy` |
| `HandExamples` | `examples_hands.dfy` |
| `PokerTable` | `table.dfy` |
| `Streets` | `streets.dfy` |
| `Game` | `poker_game.dfy` |
| `FindingSamples` | `finding_samples.dfy` |
| `HandFindings` | `finding_hands.dfy` |
| `TableFindings` | `finding_table.dfy` |

Chip conservation is stated for the quantity the code conserves. `player_bet` moves each bet into both the seat's `current_bet` and the pot, so a seat's current bet is already counted in the pot. The conserved quantity is the sum of the stacks plus the pot, and that is what `Chips` measures.

## Model

| member | source | states |
|---|---|---|
| `PokerTable.NextPhase` | app/PokerGame.py:39-46 | every state has a successor different from itself |
| `PokerTable.PhaseCycle` | app/PokerGame.py:39-46 | the transition table is one cycle through the six states: six steps return to the start and no two of the first six states coincide |
| `PokerTable.Init` | app/PokerGame.py:15-37 | a new table has exactly max_players seats |
| `Game.PokerGame.constructor` | app/PokerGame.py:15-37 | the object starts with every seat empty, pot and maximum bet 0, state waiting, no dealer, current player or last raiser, not waiting for an action and the event clear |
| `PokerTable.FindNameFrom` | app/PokerGame.py:486-488 | finds the first seat at or after i whose player has that username, and None exactly when no seat from i on has it |
| `PokerTable.Lookup` | app/PokerGame.py:484-492 | a seat that is found is in range and occupied |
| `PokerTable.LookupName` | app/PokerGame.py:485-488 | lookup by username succeeds exactly when some seat holds that name, and it returns the lowest such seat |
| `PokerTable.LookupPosition` | app/PokerGame.py:489-492 | lookup by index returns the index exactly when it is a seat that is occupied, and None otherwise |
| `Game.PokerGame.GetPlayer` | app/PokerGame.py:484-492 | the scanning loop returns the seat and record that Lookup specifies |
| `PokerTable.PositionsFromSpec` | app/PokerGame.py:494-503 | the positions a filter keeps from i on are ascending and are exactly the kept seats at or after i |
| `PokerTable.Positions` | app/PokerGame.py:494-503 | holds exactly the seats the filter keeps, in ascending order |
| `PokerTable.FiltersNest` | app/PokerGame.py:494-503 | every active seat is a not-folded seat, and every not-folded seat is occupied |
| `PokerTable.PositionsBound` | app/PokerGame.py:494-495 | the filtered positions from i on are no more than the seats from i on |
| `Game.PokerGame.SeatsWhere` | app/PokerGame.py:494-503 | the scan returns exactly the filter's positions |
| `Game.PokerGame.AllPlayers` | app/PokerGame.py:494-495 | return the occupied seats |
| `Game.PokerGame.AllActivePlayers` | app/PokerGame.py:497-499 | return the seats that are active and neither folded nor all-in |
| `Game.PokerGame.NotFoldedPlayers` | app/PokerGame.py:501-503 | return the seats that are active and not folded |
| `PokerTable.FirstEmptyFrom` | app/PokerGame.py:460-461 | finds the first empty seat at or after i, and None exactly when every seat from i on is taken |
| `PokerTable.AddPlayer` | app/PokerGame.py:459-472 | add_player's returned seat and new table; AddPlayerSpec states them |
| `PokerTable.AddPlayerSpec` | app/PokerGame.py:459-472 | add_player returns None exactly on a full table, and then changes nothing; otherwise it fills the lowest empty seat with a record of 100 big blinds, no cards, not folded, not all-in, bet 0 and inactive, and touches no other seat or field |
| `PokerTable.AddThenLookup` | app/PokerGame.py:459-492 | the returned seat can be looked up by index, and by name when that name was not already seated |
| `Game.PokerGame.AddPlayer` | app/PokerGame.py:459-472 | the seat loop changes the seats and returns exactly what AddPlayer specifies |
| `PokerTable.RemovePlayer` | app/PokerGame.py:474-482 | remove_player's returned seat and new table; RemovePlayerSpec states them |
| `PokerTable.RemovePlayerSpec` | app/PokerGame.py:474-482 | remove_player returns None exactly when no seat has that name, and then changes nothing; otherwise it empties only the first such seat; when that seat is awaited, the wait is pending and the event is clear, it stops waiting and sets the event; nothing else changes |
| `PokerTable.AddThenRemove` | app/PokerGame.py:459-482 | removing a newly added player whose name was not yet seated returns the same seat and restores every seat |
| `Game.PokerGame.RemovePlayer` | app/PokerGame.py:474-482 | the seat loop changes the state and returns exactly what RemovePlayer specifies |
| `PokerTable.SeatingChips` | app/PokerGame.py:459-482 | adding a player adds exactly 100 big blinds to the table's chips; removing one takes away exactly that seat's stack |
| `PokerTable.StacksUpdate` | app/PokerGame.py:505-522 | replacing one seat changes the sum of stacks by the difference of the two stacks |
| `PokerTable.Bet` | app/PokerGame.py:505-522 | player_bet keeps the number of seats; its refusals and its effects are stated by BetRejected, BetPlaced, BetConserves and BetKeepsCap |
| `PokerTable.BetRejected` | app/PokerGame.py:505-522 | a missing, folded or all-in seat, or a table in waiting, is refused with nothing changed; otherwise the bet is refused exactly when min(amount, stack) plus the current bet is below the maximum, and then only the all-in mark may change |
| `PokerTable.BetPlaced` | app/PokerGame.py:505-519 | an accepted bet puts in min(amount, stack); it marks all-in exactly when amount ≥ stack; it moves exactly that many chips from the stack to both the seat's bet and the pot; the maximum becomes the larger of the old maximum and the seat's new bet; the seat becomes last raiser exactly when the maximum rose; nothing else changes |
| `PokerTable.BetConserves` | app/PokerGame.py:505-522 | player_bet leaves the stacks plus the pot unchanged |
| `PokerTable.BetKeepsCap` | app/PokerGame.py:505-522 | player_bet keeps every seat's bet at or below the current maximum |
| `Game.PokerGame.PlayerBet` | app/PokerGame.py:505-522 | the method changes the state and returns exactly what Bet specifies |
| `PokerTable.Act` | app/PokerGame.py:535-582 | player_action keeps the number of seats; its replies and effects are stated by ActRefusals, ActAccepted, ShortAllInRaise, CallNeverRefused, ActConserves and ActKeepsCap |
| `PokerTable.MessageTells` | app/PokerGame.py:539-578 | the reply strings of player_action differ for every refusal, so the text gives back the reason |
| `PokerTable.ActRefusals` | app/PokerGame.py:535-546 | player_action's refusals come in the source's order, each exactly under its condition: not found, not your turn, action not expected, cannot act, then for a raise not positive or too small, and invalid action; a refusal other than "Cannot call." leaves the table unchanged |
| `PokerTable.ActAccepted` | app/PokerGame.py:547-582 | an accepted action came from the awaited seat, which may act; it stops the wait and sets the event; a fold only marks the seat folded; an affordable call brings the seat's bet to the maximum; a covered raise makes the maximum the seat's bet plus the raise and the seat the last raiser |
| `PokerTable.ShortAllInRaise` | app/PokerGame.py:569-582 | a raise that exceeds the maximum but that the stack cannot reach is accepted; it marks the seat all-in and moves no chips |
| `PokerTable.CallNeverRefused` | app/PokerGame.py:555-568 | while no bet exceeds the maximum, "Cannot call." is never the answer, because a refused call compares equal to 0 and is reported as a check |
| `PokerTable.ActConserves` | app/PokerGame.py:535-582 | player_action leaves the stacks plus the pot unchanged |
| `PokerTable.ActKeepsCap` | app/PokerGame.py:535-582 | player_action keeps every bet at or below the maximum |
| `Game.PokerGame.PlayerAction` | app/PokerGame.py:535-582 | the method changes the state and replies exactly as Act specifies |
| `PokerTable.ClearBets` | app/PokerGame.py:63-65 | clearing the bets keeps the number of seats |
| `PokerTable.ClearBetsStacks` | app/PokerGame.py:63-65 | clearing the bets changes no stack |
| `PokerTable.NextState` | app/PokerGame.py:57-68 | the synchronous part of _next_state; NextStateSpec states the new table |
| `PokerTable.NextStateSpec` | app/PokerGame.py:57-68 | the last raiser, the maximum bet and the current player are reset; every occupied seat keeps its record with its bet set to 0; the pot, the seating and the chips are unchanged; the state moves one step round the cycle |
| `PokerTable.SameOccupancy` | app/PokerGame.py:494-503 | two seat lists that agree on which seats a filter keeps give the same positions |
| `Game.PokerGame.NextState` | app/PokerGame.py:57-68 | the seat loop leaves the state equal to NextState of the old state |
| `PokerTable.StartGame` | app/PokerGame.py:449-457 | start_game's result and new table; StartGameSpec states them |
| `PokerTable.StartGameSpec` | app/PokerGame.py:449-457 | start_game succeeds exactly with two or more occupied seats in waiting, and otherwise changes nothing; on success it changes only the dealer and the state (to pre_flop); the first dealer is the lowest occupied seat, and a later one is (dealer + 1) mod max_players |
| `Game.PokerGame.StartGame` | app/PokerGame.py:449-457 | the method changes the state and returns exactly what StartGame specifies |
| `Streets.IndexOf` | app/PokerGame.py:95 | positions.index: the first place holding x, and None exactly when x is absent |
| `Streets.RotateSpec` | app/PokerGame.py:117 | rotating at k ≤ length keeps every element once and reads the list cyclically from place k |
| `Streets.PreFlopPlan` | app/PokerGame.py:94-117 | the blind plan exists exactly when the dealer is set and seated; otherwise positions.index raises |
| `Streets.HeadsUpBlinds` | app/PokerGame.py:97-101 | heads-up, the dealer posts the small blind and acts first, and the other seated player posts the big blind |
| `Streets.RingBlinds` | app/PokerGame.py:106-111 | with three or more seated, the blinds are two different non-dealer seats; the first actor is a fourth seat with four or more players, and the dealer with three |
| `Streets.DealingKeepsSeats` | app/PokerGame.py:117 | every seated player is dealt to exactly once |
| `Streets.DealingOrder` | app/PokerGame.py:117 | the deal goes round the seated players cyclically from the one after the dealer |
| `Streets.DealerDealtLast` | app/PokerGame.py:117 | the dealer is dealt last |
| `Streets.PlanSeats` | app/PokerGame.py:94-111 | both blinds and the first actor are occupied seats |
| `Streets.Activate` | app/PokerGame.py:89-93 | marking every seated player active keeps the number of seats; ActivateStacks states that no stack changes |
| `Streets.PostBlinds` | app/PokerGame.py:97-111 | the two blinds through player_bet keep the number of seats; PostBlindsAmounts states what each blind posts and PostBlindsKeeps what is kept |
| `Streets.PostBlindsAmounts` | app/PokerGame.py:97-111 | when both blind seats can post in full at the start of a hand, the small blind posts big_blind // 2 and the big blind posts big_blind: each amount leaves that seat's stack and enters the pot, the maximum bet becomes the big blind, the big blind is the last raiser, and no other seat changes |
| `Streets.PostBlindsKeeps` | app/PokerGame.py:97-111 | posting the blinds keeps the chips and the seating, and sets the first actor |
| `Streets.SetupPreFlop` | app/PokerGame.py:80-117 | _setup_pre_flop up to the deal, None where positions.index raises; SetupPreFlopSpec states when it succeeds and what it leaves |
| `Streets.SetupPreFlopSpec` | app/PokerGame.py:80-117 | the pre-flop setup succeeds exactly when the dealer is at an occupied seat; it then seats the same players and puts the first actor at an occupied seat; the stacks plus the pot equal the stacks before, because the old pot is discarded |
| `Streets.ActivateStacks` | app/PokerGame.py:89-93 | activating the seated players changes no stack |
| `Streets.BetKeepsSeated` | app/PokerGame.py:505-522 | player_bet seats and unseats nobody |
| `Game.PokerGame.SetupPreFlop` | app/PokerGame.py:80-117 | the method reaches the state SetupPreFlop specifies; where that is None (the source raises), it has zeroed the pot and maximum and activated every seat |
| `Streets.Advance` | app/PokerGame.py:195-197 | the walk stays among the seats |
| `Streets.AdvanceFinds` | app/PokerGame.py:195-198 | with an active seat within the step budget, the walk stops at an active seat no farther away than it |
| `Game.PokerGame.NextActive` | app/PokerGame.py:195-198 | the while loop stops at an active seat, the one Advance specifies |
| `Streets.ActingSeat` | app/PokerGame.py:192-198 | a seat is chosen exactly when a current position is set (otherwise `None + 1` raises); ActingSeatSpec states which |
| `Streets.ActingOrder` | app/PokerGame.py:190-199 | an order exists exactly when a current position is set; ActingOrderSpec states what it is |
| `Streets.ActingSeatSpec` | app/PokerGame.py:194-198 | the seat chosen is active: the current seat if it is active, else the nearest active seat after it going round the table |
| `Streets.ActingOrderSpec` | app/PokerGame.py:190-199 | with an active seat present, _get_acting_order fails exactly when no current position is set; otherwise it leaves the current position at an active seat and returns a permutation of the active seats |
| `Streets.ActingOrderSeat` | app/PokerGame.py:194-198 | the new current position is the current seat if active, else the nearest active seat after it |
| `Streets.ActingOrderPermutes` | app/PokerGame.py:199 | the order holds each active seat exactly once |
| `Game.PokerGame.GetActingOrder` | app/PokerGame.py:190-199 | the method moves the current position and returns the order exactly as ActingOrder specifies, and changes nothing where that is None |
| `Streets.StreetStart` | app/PokerGame.py:131-150 | the street setup succeeds exactly when a dealer is set and there are seats; it changes only the current position, to a seat in range |
| `Game.PokerGame.SetupStreet` | app/PokerGame.py:131-150 | the method reaches the state StreetStart specifies, and changes nothing where that is None |
| `Streets.WaitEndsOnlyByAction` | app/PokerGame.py:524-582 | while a wait is pending only the awaited seat can end it, with an accepted action; any other refusal than "Cannot call." leaves the wait pending |
| `Streets.BeginWait` | app/PokerGame.py:524-527 | the synchronous start of _wait_for_player_action; Game.PokerGame.BeginWait states its effect and WaitEndsOnlyByAction what ends the wait |
| `Game.PokerGame.BeginWait` | app/PokerGame.py:524-527 | the method sets the waiting flag and clears the event |
| `Streets.OpeningCheck` | app/PokerGame.py:158-163 | a round is skipped exactly when at most one seat is active; it returns to waiting exactly when that happens pre-flop |
| `Streets.RoundEnds` | app/PokerGame.py:165-185 | one pass of the cycle returns 'next_state' exactly when at most one seat has not folded, in any lap; the lap test never fires inside the first lap; after it, a round without a raise stops at once, and one that reaches a matched raiser stops there; a seat is prompted exactly when the round goes on and the seat is seated, not folded and not all-in |
| `Streets.LoopStep` | app/PokerGame.py:165-185 | one pass of the cycle: the win check of line 168, the lap test of lines 169-176, then the prompt of lines 177-185; what it does is stated by RoundEnds |
| `Streets.HandDecided` | app/PokerGame.py:168 | at most one not-folded player remains; RoundEnds states that exactly then the pass returns 'next_state' |
| `Streets.LapComplete` | app/PokerGame.py:169-176 | the lap test; RoundEnds and RaiserStopsLap state when it fires |
| `Streets.Prompted` | app/PokerGame.py:178-180 | the seat may be asked to act; RoundEnds states when a pass prompts it |
| `Streets.RaiserStopsLap` | app/PokerGame.py:171-176 | after an accepted raise (other than one that only posts the big blind pre-flop), a full lap can stop only at the raiser's seat |
| `Cards.CountRank` | app/PokerGame.py:225-227 | the count is at most the number of cards, and 0 exactly when the rank is not held |
| `Cards.WithoutRank` | app/PokerGame.py:239 | "cards of another rank": exactly the cards whose rank differs, and as many as the cards less that rank's count |
| `Cards.WithoutRankCounts` | app/PokerGame.py:239 | taking one rank out leaves every other rank's count unchanged |
| `Cards.CountSuit` | app/PokerGame.py:210-211 | the suits_counter tally is at most the number of cards |
| `Cards.CountSuitZero` | app/PokerGame.py:210-211 | a suit's tally is 0 exactly when no card has that suit |
| `Cards.OfSuit` | app/PokerGame.py:215 | exactly the cards of that suit, as many as the suit's count |
| `Cards.SortDesc` | app/PokerGame.py:215 | sorted(..., reverse=True): a permutation of its input |
| `Cards.SortDescSorted` | app/PokerGame.py:215 | the sort is descending by rank, strictly so when the ranks are distinct |
| `Cards.Top` | app/PokerGame.py:260 | keeps min(k, length) of the cards, drawn from them |
| `Cards.TopIsHighest` | app/PokerGame.py:299 | sorted(...)[:k] is descending and no card left out ranks above a card kept |
| `Cards.MaxCard` | app/PokerGame.py:231 | max(): a held card no other card outranks |
| `Cards.FirstOfRank` | app/PokerGame.py:230 | next(card ... if card.value == rank): a held card of that rank |
| `Cards.FirstOfRankIsFirst` | app/PokerGame.py:230 | that card is the first of its rank in the list, as next() returns it |
| `Cards.Dedup` | app/PokerGame.py:264-267 | one card per held rank, drawn from the cards |
| `Cards.DedupFirst` | app/PokerGame.py:264-267 | the card kept for each rank is the first held of that rank |
| `HandEvaluator.Category` | app/PokerGame.py:378-388 | hand_ranking: every hand has a category from 1 to 9 |
| `HandEvaluator.HighestWithCount` | app/PokerGame.py:296-297 | the scan from the Ace down finds the highest rank held exactly k times, and None exactly when no rank is |
| `HandEvaluator.HighestWithCountAt` | app/PokerGame.py:296-297 | a rank held k times with no higher rank held k times is the rank the scan finds |
| `HandEvaluator.GroupOf` | app/PokerGame.py:296-300 | the group is the highest rank held exactly k times, with kickers of other ranks drawn from the cards, as many as requested or as are left; None exactly when no rank is held k times |
| `HandEvaluator.GroupKickers` | app/PokerGame.py:299 | the kickers are the highest cards of the other ranks, highest first |
| `HandEvaluator.PairOf` | app/PokerGame.py:314-337 | pair(): GroupOf with k = 2 and three kickers, so its contract is GroupOf's: the highest rank held exactly twice, None exactly when none is |
| `HandEvaluator.TripsOf` | app/PokerGame.py:278-301 | three_of_a_kind(): GroupOf with k = 3 and two kickers: the highest rank held exactly three times, None exactly when none is |
| `HandEvaluator.FirstWithCount` | app/PokerGame.py:228-229 | finds a held card whose rank is held k times, and None exactly when there is none |
| `HandEvaluator.FirstWithCountIsFirst` | app/PokerGame.py:228-229 | the card found is the first, left to right, whose rank is held k times |
| `HandEvaluator.QuadsOf` | app/PokerGame.py:224-233 | four of a kind exactly when some rank is held four times; the kicker is the highest card of another rank |
| `HandEvaluator.FullHouseOf` | app/PokerGame.py:235-244 | a reported full house is the highest rank held exactly three times with the highest other rank held exactly twice |
| `HandEvaluator.MaxSuit` | app/PokerGame.py:257 | no suit is more frequent than the one chosen |
| `HandEvaluator.FlushOf` | app/PokerGame.py:246-261 | a flush exactly when the most common suit has five or more cards; it is the top five cards of that suit |
| `HandEvaluator.TopFirstIsMax` | app/PokerGame.py:260 | the first card of a top-k selection is a highest card |
| `HandEvaluator.ScanWindows` | app/PokerGame.py:270-275 | a window found is five of the scanned cards |
| `HandEvaluator.StraightFlushOf` | app/PokerGame.py:202-222 | a straight flush reported is five cards of the most common suit |
| `HandEvaluator.StraightOf` | app/PokerGame.py:263-276 | a straight reported is five held cards |
| `HandEvaluator.SecondPair` | app/PokerGame.py:307-311 | the second pair is found exactly when the pool holds a pair; the low pair and kicker come from the pool |
| `HandEvaluator.TwoPairOf` | app/PokerGame.py:303-312 | a two pair reported by PokerGame.py is made of the cards; TwoPairOfSpec states when it fires and what it reports |
| `HandEvaluator.TwoPairOfSpec` | app/PokerGame.py:303-312 | two_pair fires exactly when there is a pair and its three kickers (the top three cards of the other ranks) hold a rank exactly twice; the high pair is pair()'s card, the low pair is that rank among the kickers and the kicker is the remaining one of them |
| `HandEvaluator.TwoPairStandaloneOf` | app/tests/poker_hand_evaluator_tests.py:111-152 | a two pair reported by the standalone copy is made of the cards |
| `HandEvaluator.Classify` | app/PokerGame.py:342-375 | the priority chain always yields a well-formed hand made of the cards; the category it yields is stated by HandPriority.ClassifyPriority |
| `HandEvaluator.ClassifyBelowFlush` | app/PokerGame.py:358-375 | the tail of the chain yields a well-formed hand made of the cards; the category it yields is stated by HandPriority.BelowFlushPriority |
| `HandEvaluator.Evaluate` | app/PokerGame.py:339-375 | fewer than five cards evaluate to None, exactly; otherwise the result is a well-formed hand made of the cards; its category is stated by HandPriority.EvaluateCategory |
| `HandEvaluator.EvaluateStandalone` | app/tests/poker_hand_evaluator_tests.py:9-215 | the same for the standalone copy; its category is stated by HandPriority.EvaluateStandaloneCategory |
| `HandPriority.FlushOfHeld` | app/PokerGame.py:246-261 | flush() fires exactly when some suit has five cards or more |
| `HandPriority.FullHouseOfSpec` | app/PokerGame.py:235-244 | full_house() fires exactly when the highest rank held exactly three times is joined by another rank held exactly twice; otherwise it returns nothing |
| `HandPriority.FullHouseToCounts` | app/PokerGame.py:235-244 | a full house that full_house() reports is such a pair of ranks |
| `HandPriority.FullHouseFromCounts` | app/PokerGame.py:235-244 | such a pair of ranks makes full_house() fire |
| `HandPriority.CategoryOf` | app/PokerGame.py:378-388 | the hand_ranking number of each kind of hand |
| `HandPriority.ReportsFirst` | app/PokerGame.py:342-356 | the chain returns what the first of straight_flush, four_of_a_kind, full_house and flush to fire found |
| `HandPriority.BelowFlushPriority` | app/PokerGame.py:358-375 | below flush, the chain's category is straight, three of a kind, two pair, pair or high card, the first whose detector fires |
| `HandPriority.ClassifyPriority` | app/PokerGame.py:342-375 | the chain's category is that of the first of the eight detectors, from straight_flush down, that fires, and high card when none does |
| `HandPriority.RankGroupDetectors` | app/PokerGame.py:224-337 | four_of_a_kind, three_of_a_kind and pair fire exactly when some rank is held exactly four, three or two times |
| `HandPriority.RunDetectors` | app/PokerGame.py:202-276 | for cards from one deck, straight_flush and straight fire exactly on a run or the wheel as their scans see it, straight_flush within the most common suit |
| `HandPriority.EvaluateCategory` | app/PokerGame.py:339-375 | for five or more cards from one deck, _evaluate_hand returns the category of the first condition that holds: the most common suit holds a run or the wheel-as-written; a rank held four times; the highest rank held three times and another held twice; a suit with five cards; a run or the wheel-as-written; a rank held three times; a pair whose three kickers hold a rank twice; a rank held twice; else high card |
| `HandPriority.EvaluateStandaloneCategory` | app/tests/poker_hand_evaluator_tests.py:9-215 | the same for the standalone evaluate_hand, except that two pair is two ranks each held exactly twice |
| `Runs.RunAt` | app/PokerGame.py:270-275 | a run held in a strictly descending list of ranks sits in a window of five consecutive places |
| `Runs.WheelAtHead` | app/PokerGame.py:272-273 | in a descending list of distinct ranks, a held wheel-as-written opens the list with the Ace then the five |
| `Runs.ScanSound` | app/PokerGame.py:270-275 | every window the scan returns is a run, and a wheel only from an Ace followed by a five |
| `Runs.ScanComplete` | app/PokerGame.py:270-275 | when a run starts at place j, the scan finds one at least as high |
| `Runs.RunScan` | app/PokerGame.py:263-276 | on the distinct ranks sorted, the scan succeeds exactly when a run or a wheel-as-written is held, and returns the highest |
| `Runs.StraightOfSpec` | app/PokerGame.py:263-276 | straight() reports a straight exactly when a run of five consecutive ranks or the wheel-as-written (A 5 4 3 2 with nothing from 6 to K) is held; what it reports is a run, and no held run is higher |
| `Runs.SameRuns` | app/PokerGame.py:264-268 | runs depend only on the set of ranks held |
| `Runs.StraightFlushOfSpec` | app/PokerGame.py:202-222 | for cards from one deck, straight_flush() fires exactly when the most common suit has five or more cards and holds a run or the wheel-as-written; the run reported is in that suit and is the highest there |
| `HandComparator.Sign` | app/PokerGame.py:392-395 | the sign: +1, 0 or -1 as the difference is positive, zero or negative |
| `HandComparator.CompareCard` | app/PokerGame.py:400-403 | two cards compare by rank only |
| `HandComparator.CompareCards` | app/PokerGame.py:399-404 | a lexicographic comparison yields -1, 0 or 1 |
| `HandComparator.Compare` | app/PokerGame.py:377-446 | _compare_hands yields -1, 0 or 1 |
| `HandComparator.CompareCardsZero` | app/PokerGame.py:399-404 | two card lists tie exactly when their ranks agree place by place |
| `HandComparator.CompareCardsAntisymmetric` | app/PokerGame.py:399-404 | comparing b with a negates comparing a with b |
| `HandComparator.CompareCardsTransitive` | app/PokerGame.py:399-404 | the card-list comparison is transitive, strictly so when either step is strict |
| `HandComparator.CompareAntisymmetric` | app/PokerGame.py:377-446 | compare(a, b) = -compare(b, a) |
| `HandComparator.CategoryDecides` | app/PokerGame.py:392-395 | hands of different categories compare by category alone |
| `HandComparator.RankKey` | app/PokerGame.py:377-446 | the key of a hand is its category followed by its payload ranks |
| `HandComparator.CompareZeroIff` | app/PokerGame.py:377-446 | two hands tie exactly when their categories and payload ranks agree |
| `HandComparator.CompareIgnoresSuits` | app/PokerGame.py:377-446 | hands with the same ranks compare alike whatever their suits |
| `HandComparator.SameRanksCompare` | app/PokerGame.py:399-404 | card lists with the same ranks compare alike |
| `HandComparator.CompareTransitive` | app/PokerGame.py:377-446 | _compare_hands is a total preorder: transitive, strictly so when either step is strict |
| `HandComparator.RunsCompareByHeight` | app/PokerGame.py:397-404 | straights, and straight flushes, compare by their top card |
| `HandComparator.RunRanks` | app/PokerGame.py:399-404 | two runs compare as their top ranks do |
| `HandComparator.WheelLosesToStraights` | app/PokerGame.py:397-404 | the wheel, with its Ace last, loses to every other straight |
| `HandExamples.TripsHandGroup` | app/tests/poker_hand_evaluator_tests.py:374-388 | 8 8 8 3 K: trips of eights, kickers K, 3 |
| `HandExamples.TripsBeatTwoPair` | app/tests/poker_hand_evaluator_tests.py:374-388 | 8 8 8 3 K evaluates to three of a kind, eights with kickers K, 3, not two pair, in both copies |
| `HandFindings.ThreeOfKindVerdict` | app/PokerGame.py:342-364 | when nothing above it matches, the chain returns three of a kind |
| `HandFindings.OnePairVerdict` | app/PokerGame.py:342-372 | when nothing above it matches, the chain returns one pair |
| `HandFindings.NoStraightNoFlush` | app/PokerGame.py:202-276 | with no rank from 6 to J, no wheel and no five of a suit, neither copy nor the corrected detectors find a straight or a flush |
| `HandFindings.NoGroupAboveTwo` | app/PokerGame.py:224-244 | with no rank held three times or more, there are no quads, no trips and no full house, in either version |
| `HandFindings.StraightMissesWheel` | app/PokerGame.py:263-276 | A K 5 4 3 2 holds the wheel but no run; straight() finds nothing and the corrected straight finds the five-high wheel |
| `HandFindings.TwoTripsNotFullHouse` | app/PokerGame.py:235-244 | A A A K K K 2 evaluates to three Aces; the corrected evaluator gives Aces full of Kings |
| `HandFindings.TwoPairMissed` | app/PokerGame.py:303-312 | 5 5 A K Q 3 3: PokerGame.py's two_pair finds nothing while the standalone copy finds fives and threes with an Ace kicker |
| `HandFindings.SplitPairsEvaluate` | app/PokerGame.py:339-375 | 5 5 A K Q 3 3 evaluates to one pair of fives; the corrected evaluator gives two pair |
| `CorrectedEvaluator.BestRun` | app/tests/poker_hand_evaluator_tests.py:71-84 | the highest run held up to height h, counting the wheel as five high, and None exactly when none is held |
| `CorrectedEvaluator.StraightIntendedSpec` | app/tests/poker_hand_evaluator_tests.py:421-436 | the corrected straight fires exactly when some run or the wheel is held, and no held run is higher |
| `CorrectedEvaluator.StraightAgrees` | app/PokerGame.py:263-276 | wherever straight() reports a straight, the corrected straight reports the same one |
| `CorrectedEvaluator.StraightFlushIntendedSpec` | app/tests/poker_hand_evaluator_tests.py:516-530 | the corrected straight flush fires exactly when the most common suit has five or more cards holding a run or the wheel, and it is the highest there |
| `CorrectedEvaluator.FullHouseIntendedSpec` | app/PokerGame.py:235-244 | the corrected full house is the highest rank held three or more times with the highest other rank held twice or more, and None exactly when no two ranks give that |
| `CorrectedEvaluator.TwoPairStandaloneSpec` | app/tests/poker_hand_evaluator_tests.py:111-152 | the standalone two_pair fires exactly when two ranks are each held exactly twice; it reports the highest, then the highest other, with the highest card of neither rank as kicker |
| `CorrectedEvaluator.StraightFlushIntendedOf` | app/tests/poker_hand_evaluator_tests.py:10-29 | a corrected straight flush is a run, or the wheel, of cards of the most common suit; StraightFlushIntendedSpec states when it fires |
| `CorrectedEvaluator.ClassifyIntended` | app/PokerGame.py:342-375 | the chain over the corrected detectors yields a well-formed hand made of the cards; its category is stated by HandPriority.ClassifyIntendedPriority |
| `CorrectedEvaluator.EvaluateIntended` | app/PokerGame.py:339-375 | the corrected evaluator returns None exactly for fewer than five cards, and otherwise a well-formed hand made of the cards; its category is stated by HandPriority.EvaluateIntendedCategory |
| `HandPriority.IntendedReportsFirst` | app/PokerGame.py:342-360 | the corrected chain returns what the first of its top five detectors to fire found |
| `HandPriority.IntendedReportsBelow` | app/PokerGame.py:358-375 | when none of its top five fires, the corrected chain ends as the shared one does |
| `HandPriority.ClassifyIntendedPriority` | app/PokerGame.py:342-375 | the corrected chain's category is that of the first corrected detector that fires |
| `HandPriority.IntendedRunDetectors` | app/tests/poker_hand_evaluator_tests.py:10-84 | the corrected straight flush and straight fire exactly on a run or the wheel, the straight flush within the most common suit |
| `HandPriority.IntendedGroupDetectors` | app/PokerGame.py:235-244 | the corrected full house fires exactly on a rank held three or more times and another held two or more; the standalone two pair exactly on two ranks each held twice |
| `HandPriority.EvaluateIntendedCategory` | app/PokerGame.py:339-375 | the corrected evaluator returns the category of poker's ranking of hands: straight flush, four of a kind, full house (three or more and two or more of another rank), flush, straight (a run or A-2-3-4-5), three of a kind, two pair, pair, high card, the first that the cards hold |
| `HandFindings.FullHouseIntendedVerdict` | app/PokerGame.py:342-352 | the corrected chain stops at a full house when no straight flush and no quads are held |
| `HandFindings.TwoPairIntendedVerdict` | app/PokerGame.py:342-368 | the corrected chain reaches two pair when nothing above it matches |
| `TableFindings.DealerOnEmptySeat` | app/PokerGame.py:449-457 | when the seat after the dealer is empty, start_game succeeds and puts the dealer there, and the pre-flop setup then fails |
| `TableFindings.DealerOnEmptySeatExample` | app/PokerGame.py:453-454 | with seats 0 and 1 of 8 taken and dealer 1, the next dealer is the empty seat 2 |
| `TableFindings.NextDealerSpec` | app/PokerGame.py:453-454 | the corrected next dealer is an occupied seat, the nearest one after the old dealer going round the table |
| `TableFindings.StartGameIntendedSpec` | app/PokerGame.py:449-457 | the corrected start_game succeeds exactly when start_game does; it moves the dealer to the next occupied seat, so the pre-flop setup always succeeds after it |
| `TableFindings.FoldCarriesOver` | app/PokerGame.py:57-121 | nothing in _next_state, start_game or _setup_pre_flop clears a fold: once _next_state is applied at showdown (which no code path of PokerGame.py does yet), a player folded in that hand is still folded in the next one and is not among its not-folded players |
| `TableFindings.BetLeavesFolded` | app/PokerGame.py:505-522 | player_bet leaves a folded seat exactly as it was |
| `TableFindings.ResetGameSpec` | app/tests/tests_poker_game.py:375-397 | the corrected reset zeroes the pot and the maximum bet and clears every seated player's fold, all-in mark and bet, keeping seating and stacks; after the pre-flop activation every seated player is an active player |
| `TableFindings.ActingOrderFromSeatTwo` | app/PokerGame.py:199 | with active seats 2, 5, 7 and seat 5 to act, the order is [2, 5, 7]; the intended order is [5, 7, 2] |
| `Streets.ActingOrderBySeatNumber` | app/PokerGame.py:199 | slicing [2, 5, 7] at seat number 5 leaves it unrotated, with seat 2 first |
| `Streets.ActingOrderIntendedSpec` | app/PokerGame.py:190-199 | the intended order exists exactly when the written one does; it starts at the acting seat, holds every active seat once and goes up in seat order, wrapping once |
| `Streets.RotateAtSeat` | app/PokerGame.py:199 | rotating an ascending list at the place of c puts c first and keeps every seat |
| `Streets.RotateFollows` | app/PokerGame.py:199 | a rotated ascending list climbs except where it wraps to the lowest seat |

## Left out

- The asynchronous machinery (the action event, `create_task` and the awaits) is not modelled; it is about suspension and concurrency. The event is a boolean field. `_transition_state` is modelled only as the change of state, and `_wait_for_player_action` only as its synchronous start (`BeginWait`). Entering waiting calls `asyncio.create_task(self._setup_waiting())` (app/PokerGame.py:70-78); `_setup_waiting` is a plain function returning None, so `create_task(None)` raises TypeError after `game_state` is already set. This happens on the return to waiting at line 129; the model keeps only the change of state.
- The loop of `_betting_round`, its `itertools.cycle` and its awaits are not modelled as a loop. A round needs players' actions from outside, so it is modelled by the predicates `OpeningCheck`, `HandDecided`, `LapComplete` and `Prompted` and the lemmas `RoundEnds` and `RaiserStopsLap`.
- `LapComplete` and `Prompted` read the live seat at `position`. The source reads the record through `active_players`, the snapshot taken when the round began. The snapshot shares its records with `players`, so the two agree, except when a seat is vacated, or vacated and re-filled, during the round: the source then still reads the departed player's record.
- The notification layer (`notify_*`, `broadcast_player_turn`, `_send_*`) is left out; it is I/O.
- The deck, shuffling, dealing of hole and board cards (`Deck`, `Stack`) are left out; they belong to a foreign library. A seat's `cards` field is kept but is never filled.
- pydealer's card ordering breaks ties between equal ranks by suit. The model orders cards by rank only, with a stable sort, so two cards of the same rank keep their order.
- The wheel payload at app/PokerGame.py:219 and 273 is written `hand[1:] + hand[0]`, a list plus a card, which raises TypeError. So `_evaluate_hand` of PokerGame.py crashes on every hand whose straight flush or straight is the wheel as its scan sees it. The model does not model that crash: it returns the list form of the standalone copy (`hand[1:] + [hand[0]]`), with the Ace last.
- Showdown, payouts and side pots are left out; the source has none (`_setup_showdown` is commented out).
- The engine stalls at showdown: no setup method is registered for it (app/PokerGame.py:48-55), and `_next_state` is awaited only from the pre_flop, flop, turn and river setups (lines 127, 137, 145, 153). So nothing takes a table from showdown back to waiting. `NextPhase(Showdown) == Waiting` is the state_transitions entry, which only a caller outside PokerGame.py could use.
- `_setup_waiting`, the `poker_games` registry and the web layer (views, models, consumers) are left out. `_setup_waiting` has an empty body, but scheduling it raises TypeError, as noted above; the others are not part of the engine.
- Player identifiers are either a username or a seat index (the datatype `Id`). Identifiers of any other type, which `get_player` treats as not found, are not modelled.
- Aliasing is not modelled. The dictionaries the seat filters return share their records with `players`, and the model reads seats by position instead.
- `ActingOrder` and `Game.PokerGame.GetActingOrder` require at least one active seat. Without one the source's while loop never ends.
- Classify, ClassifyBelowFlush, Evaluate, EvaluateStandalone and EvaluateIntended: their own contracts state only the shape of the result and that it is made of the cards. The category each returns is stated, for all inputs, by the lemmas of `HandPriority` named in their rows, which cannot sit in the functions' own contracts because they rest on lemmas of the later `Runs` and `CorrectedEvaluator` modules.
- EvaluateCategory and EvaluateStandaloneCategory: stated for cards from one deck (no card twice), which is what the game deals; straight_flush's characterisation needs the cards of one suit to have distinct ranks.
- Integers are unbounded; chip counts in Python are too, so nothing wraps.

## Findings

| source | as written | input that shows it | evidently intended | confidence | as-written member | corrected member |
|---|---|---|---|---|---|---|
| app/PokerGame.py:303-312 | the second pair is looked for only among the first pair's three kickers | 5♥ 5♦ A♣ K♣ Q♥ 3♣ 3♠ evaluates to one pair of fives | two pair, fives and threes, Ace kicker, as in the standalone copy (app/tests/poker_hand_evaluator_tests.py:143-152) and its test at lines 266-283 | not executed | `HandFindings.TwoPairMissed`, `HandFindings.SplitPairsEvaluate` | `CorrectedEvaluator.TwoPairStandaloneSpec`, `CorrectedEvaluator.EvaluateIntended` |
| app/PokerGame.py:263-276 (and 202-222) | the wheel is recognised only when the Ace is followed directly by the five among the distinct ranks | A K 5 4 3 2: no straight | the five-high straight A-2-3-4-5, as the wheel tests expect (app/tests/poker_hand_evaluator_tests.py:421-436) | not executed | `HandFindings.StraightMissesWheel` | `CorrectedEvaluator.StraightIntendedOf`, `CorrectedEvaluator.StraightIntendedSpec` |
| app/PokerGame.py:235-244 | the full-house pair must be a rank held exactly twice | A A A K K K 2 evaluates to three Aces | Aces full of Kings | not executed | `HandFindings.TwoTripsNotFullHouse` | `CorrectedEvaluator.FullHouseIntendedOf`, `CorrectedEvaluator.FullHouseIntendedSpec` |
| app/PokerGame.py:453-454 | the next dealer is (dealer + 1) mod max_players, occupied or not; the pre-flop `positions.index` at line 95 then raises | 8 seats, seats 0 and 1 taken, dealer 1: the dealer moves to the empty seat 2 | the next occupied seat after the dealer | not executed | `TableFindings.DealerOnEmptySeat`, `TableFindings.DealerOnEmptySeatExample` | `TableFindings.StartGameIntended`, `TableFindings.StartGameIntendedSpec` |
| app/PokerGame.py:57-121 | no step between hands clears `folded` (it is written only at lines 466 and 548); `_reset_game`, which test_reset_game at app/tests/tests_poker_game.py:375-397 calls, does not exist. The defect is latent: the engine never leaves showdown (see "Left out"), so it shows only once a caller moves the table on from showdown with `_next_state` and no reset | a player folds, the hand reaches showdown and `_next_state` takes the table back to waiting: in the next hand the player is still folded, cannot post a blind and is never prompted | each new hand starts with every seated player not folded, not all-in and with no bet | not executed | `TableFindings.FoldCarriesOver` | `TableFindings.ResetGame`, `TableFindings.ResetGameSpec` |
| app/PokerGame.py:199 | the active positions are sliced at the current seat number, not at its place in the list | active seats 2, 5, 7 with seat 5 to act: the order is 2, 5, 7 | 5, 7, 2: the acting seat first, then round the table | not executed | `TableFindings.ActingOrderFromSeatTwo`, `Streets.ActingOrderBySeatNumber` | `Streets.ActingOrderIntended`, `Streets.ActingOrderIntendedSpec` |
