# No-limit hold'em betting round

This project models the betting round of RLCard's no-limit Texas Hold'em, the class
`NolimitholdemRound`, and proves properties of the model in Dafny. The round keeps:
- the seat to act (`game_pointer`);
- the chips each seat has put in on the current street (`raised`);
- the number of calls and checks since the last raise (`not_raise_num`);
- the size of the last raise (`current_raise_amount`) and the size every street starts with (`init_raise_amount`);
- whether someone has folded (`player_folded`).

For the seat to act, it answers which actions are legal. It applies one action, moves chips
through the player's `bet`, and passes the turn to the next seat that has not folded.

The files:
- `chips.dfy` (module `Chips`): the street's arithmetic. It defines the largest contribution
  (what everyone must call up to), the pot total, the truncated half pot and the raise size
  (`get_current_raise_amount`), with lemmas on what each action does to them.
- `seats.dfy` (module `Seats`): circular seat order. `NextLive` is a reference definition of
  the seat the turn passes to: the first seat, from a starting seat on, that has not folded.
- `actions.dfy` (module `Actions`): the eight-action vocabulary and `get_nolimit_legal_actions`
  as a pure function. `SourceRemovals` makes the source's four conditional `list.remove` calls
  in its order. `RemoveWhen` and `RemoveFromFilter` show that each removal finds its action
  and that the result is the vocabulary filtered by the actions that stay. `LegalActions` then
  states, action by action, when each one is offered.
- `round.dfy` (module `Round`): the `NolimitholdemRound` class with its fields, its constructor,
  `StartNewRound` and `ProceedRound`. `ProceedRound` is split into
  `TakeAction` (the per-action branches, specified by the two-state predicate `ActionApplied`)
  and `PassTurn` (the skip loop, proved to land on `NextLive`). The player is a small class whose
  `Bet` only records, in a ghost log, the amounts the round asks for. Three client scenarios
  build concrete tables and prove where the turn and the chips end up.

One consequence the model makes visible: a half-pot raise is offered whenever it is affordable
and the seat can still cover the call, even when it is smaller than that call.
`Actions.HalfPotOfferedBelowTheCall` shows a seat with 0 against 10 and 100 behind being offered it.
`Chips.HalfPotRaiseMayStayBehind` shows what the raise then does: the seat adds 5, its raise
amount is -5, and it is still behind. The model keeps this behaviour as written.

## Model

| member | source | states |
|---|---|---|
| Chips.Zeros | rlcard/games/nolimitholdem/round.py:30 | a street nobody has bet on: `num_players` entries, every one 0 |
| Chips.Max | rlcard/games/nolimitholdem/round.py:59-60 | Python's `max` of the contributions: an entry of the list and at least every entry |
| Chips.Sum | rlcard/games/nolimitholdem/round.py:72 | the pot total `np.sum(raised)`; never negative when no contribution is |
| Chips.HalfPot | rlcard/games/nolimitholdem/round.py:79 | `int(sum / 2)`: truncation toward zero, giving floor division bounds for a non-negative pot and rounding up for a negative one |
| Chips.RaiseAmount | rlcard/games/nolimitholdem/round.py:107-108 | the raise size: never above the quantity, and equal to it exactly when the seat has nothing to call |
| Chips.SumUpdate | rlcard/games/nolimitholdem/round.py:74 | changing one seat's entry changes the pot by exactly the change |
| Chips.CallKeepsMax | rlcard/games/nolimitholdem/round.py:59-60 | topping a seat up to the maximum leaves the maximum unchanged |
| Chips.RaiseMax | rlcard/games/nolimitholdem/round.py:74 | raising one entry makes the new maximum the larger of the old maximum and that entry |
| Chips.RaiseLiftsMaxByRaiseAmount | rlcard/games/nolimitholdem/round.py:73-74 | after adding a non-negative quantity, the level to call rises by the raise amount when it is positive and stays put otherwise |
| Chips.PotRaiseDoublesPot | rlcard/games/nolimitholdem/round.py:72-74 | a pot-sized raise doubles the street's pot |
| Chips.HalfPotRaiseGrowsPot | rlcard/games/nolimitholdem/round.py:79-81 | a half-pot raise adds the truncated half pot to the pot |
| Chips.AllInReplacesContribution | rlcard/games/nolimitholdem/round.py:65-67 | an all-in overwrites the seat's entry, so that seat's earlier chips this street leave the pot total |
| Chips.ZerosMax | rlcard/games/nolimitholdem/round.py:46 | on a fresh street there is nothing to call: the maximum is 0 |
| Chips.SumAtLeastMax | rlcard/games/nolimitholdem/round.py:72 | with no negative entries, the pot is at least the largest contribution |
| Chips.PotRaiseIsRealRaise | rlcard/games/nolimitholdem/round.py:72-74 | a pot raise's raise amount is at least the seat's own contribution, and afterwards the raiser holds the maximum |
| Chips.HalfPotRaiseMayStayBehind | rlcard/games/nolimitholdem/round.py:79-81 | concrete case: a half-pot raise of 5 against a call of 10 has raise amount -5 and leaves the seat behind |
| Seats.Seat | rlcard/games/nolimitholdem/round.py:103 | the seat `k` steps on from a start, equal to `(start + k) % n` and below `n` |
| Seats.Offset | rlcard/games/nolimitholdem/round.py:99-103 | the number of steps from the start to a given seat, fewer than `n`, which lands on that seat |
| Seats.OffsetOfSeat | rlcard/games/nolimitholdem/round.py:99-103 | Seat and Offset are inverse: any step count below `n` is measured back exactly |
| Seats.SeatStep | rlcard/games/nolimitholdem/round.py:103 | one more step is the source's `(g + 1) % n` |
| Seats.FirstLiveOffset | rlcard/games/nolimitholdem/round.py:102-103 | the first step count at which the walk meets a seat still in the hand; every seat passed before it has folded |
| Seats.LiveWithinOneLap | rlcard/games/nolimitholdem/round.py:102-103 | if some seat has not folded, the walk from any start meets one within one lap |
| Seats.NextLive | rlcard/games/nolimitholdem/round.py:99-105 | the seat the turn passes to: below `n`, not folded, and preceded on the walk only by folded seats |
| Seats.NextLiveUnique | rlcard/games/nolimitholdem/round.py:99-105 | any unfolded seat with only folded seats before it on the walk is NextLive |
| Seats.NextLiveStartsAtStart | rlcard/games/nolimitholdem/round.py:99-102 | when the seat after the actor has not folded, the turn goes straight to it |
| Seats.WrapsPastFoldedSeats | rlcard/games/nolimitholdem/round.py:99-105 | concrete case: at three seats with 2 and 0 folded, the walk from seat 2 wraps to seat 1 |
| Actions.InVocabulary | rlcard/games/nolimitholdem/round.py:119 | every action is in the vocabulary |
| Actions.VocabularyDistinct | rlcard/games/nolimitholdem/round.py:119 | the vocabulary lists each action once |
| Actions.Filter | rlcard/games/nolimitholdem/round.py:122-134 | holds exactly the entries of the list that are in the kept set, and is never longer; the order of the list comes from the definition |
| Actions.Remove | rlcard/games/nolimitholdem/round.py:124 | `list.remove`: one entry shorter, every other action kept, nothing new |
| Actions.FilterAgrees | rlcard/games/nolimitholdem/round.py:122-134 | two kept sets that agree on the list's entries give the same filtered list |
| Actions.RemoveFromFilter | rlcard/games/nolimitholdem/round.py:122-134 | on a list without repeats, removing a kept action equals filtering without it, and it is there to remove |
| Actions.FilterKeepsAll | rlcard/games/nolimitholdem/round.py:119 | filtering by a set holding every entry returns the list unchanged |
| Actions.KeptMembers | rlcard/games/nolimitholdem/round.py:122-134 | check, call, raise-pot and raise-half-pot stay exactly when their removal does not fire; the other four always stay |
| Actions.RemoveWhen | rlcard/games/nolimitholdem/round.py:130-131 | one conditional `remove` on the filtered vocabulary gives the vocabulary filtered by the smaller kept set |
| Actions.SourceRemovals | rlcard/games/nolimitholdem/round.py:119-134 | the four removals in source order equal the vocabulary filtered by the actions that stay |
| Actions.LegalActions | rlcard/games/nolimitholdem/round.py:110-151 | `[check]` alone when a call would use up the stack; otherwise vocabulary order is kept, check is offered iff level, call iff behind, fold, raise-bb, raise-3bb and all-in always, and each pot raise iff affordable |
| Actions.ExactlyOneOfCheckAndCall | rlcard/games/nolimitholdem/round.py:122-140 | whichever branch answers, exactly one of check and call is offered |
| Actions.RaisesOnlyWhenAffordable | rlcard/games/nolimitholdem/round.py:130-140 | raise-pot and raise-half-pot are offered only when in-chips plus the raise is within the remaining chips |
| Actions.FreshStreetOffersCheck | rlcard/games/nolimitholdem/round.py:122-128 | on a street nobody has bet on, check is offered and call is not |
| Actions.DeepStackUnopened | rlcard/games/nolimitholdem/round.py:119-151 | concrete case: nothing bet and 100 behind gives every action but call, in vocabulary order |
| Actions.FacingABet | rlcard/games/nolimitholdem/round.py:122-134 | concrete case: seat 0 with 1 in against 2 gets call and both pot raises but not check, seven actions in all |
| Actions.ShortStackOnlyChecks | rlcard/games/nolimitholdem/round.py:137-140 | concrete case: 90 in the hand plus 10 to call against 95 behind answers `[check]` |
| Actions.HalfPotOfferedBelowTheCall | rlcard/games/nolimitholdem/round.py:133-140 | concrete case: with 0 against 10 and 100 behind, call and raise-half-pot are both offered, and the half pot (5) is below the call (10) |
| Actions.CallerMayCheck | rlcard/games/nolimitholdem/round.py:58-62 | once a seat has called, it is offered check and not call |
| Round.Player.Bet | rlcard/games/nolimitholdem/round.py:61 | the amount asked for is appended to the bet log; the status does not change |
| Round.Statuses | rlcard/games/nolimitholdem/round.py:102 | the statuses the skip loop reads, one per seat |
| Round.NolimitholdemRound.constructor | rlcard/games/nolimitholdem/round.py:13-30 | no seat to act yet; raise size is the initial one; no call counted; every seat at 0 |
| Round.NolimitholdemRound.StartNewRound | rlcard/games/nolimitholdem/round.py:32-46 | sets the seat to act, no call counted and the initial raise size; contributions are the supplied list when non-empty, else all zero; no contribution is negative when none supplied was |
| Round.NolimitholdemRound.GetNolimitLegalActions | rlcard/games/nolimitholdem/round.py:110-151 | reads only; the answer is LegalActions of the round's contributions and the actor's two chip counts |
| Round.NolimitholdemRound.ActionKeepsNonNegative | rlcard/games/nolimitholdem/round.py:58-97 | every action keeps all contributions at least zero, given that they were and that the actor's stack is not negative |
| Round.NolimitholdemRound.TakeAction | rlcard/games/nolimitholdem/round.py:58-97 | ActionApplied. Call: bets the gap, tops up to the max, one more call. All-in: overwrites with the stack. Pot and half pot: add the quantity. All three set the raise size from the old state and the count to 1. Fold: folds only the actor. Check: one more. The two fixed raises: nothing. Contributions stay non-negative when they were and the stack is |
| Round.NolimitholdemRound.PassTurn | rlcard/games/nolimitholdem/round.py:99-105 | the pointer becomes the first unfolded seat from the seat after the actor, which is NextLive |
| Round.NolimitholdemRound.ProceedRound | rlcard/games/nolimitholdem/round.py:48-105 | ActionApplied for the old seat, with contributions kept non-negative; the returned seat is stored, below `num_players`, not folded and equal to NextLive from the seat after the actor |
| Round.FoldedSeatsAreSkipped | rlcard/games/nolimitholdem/round.py:92-105 | concrete case at three seats with seat 2 folded: a check by seat 1 passes to seat 0, a fold by seat 0 passes back to seat 1 |
| Round.PotRaiseOverBlinds | rlcard/games/nolimitholdem/round.py:71-76 | concrete case: on blinds 1 and 2, seat 0's pot raise makes the contributions 4 and 2, with raise amount 2, and passes to seat 1 |
| Round.CallClosesTheGap | rlcard/games/nolimitholdem/round.py:58-62 | concrete case: seat 1 with 2 against 4 calls, bets 2, and both seats hold 4 |

## Left out

- The parent class `LimitholdemRound` is not part of this model. Whatever the round inherits from it, such as deciding when the street is over, is left out.
- The player's `bet` is not part of this model. `Round.Player.Bet` only records the amount the round asks for. It promises the player's status is unchanged and says nothing about the two chip counts.
- `Round.NolimitholdemRound.ProceedRound` requires that some seat other than a folding actor is still in the hand. Otherwise the source's skip loop never ends.
- `Round.NolimitholdemRound.ProceedRound` requires the pointer to index `raised` and the player list for every action. The source touches them only for the actions that read them. The game keeps the pointer below `num_players`, which is the length of `raised`.
- One list removal per action: the legality list has no repeats. Each `remove` therefore finds its action (`Actions.RemoveWhen`), and the `ValueError` path of `list.remove` never arises.
- Floating point: `int(np.sum(raised) / 2)` is modelled as exact truncation toward zero. The float rounding of very large sums is not modelled.
- Raise actions given as integers, and the enumeration of raise sizes beside them, are commented out in the source and not modelled.
- raise-bb and raise-3bb have no handler in `proceed_round`. The model gives them no chip effect, only the pointer advance.
- An action string outside the vocabulary behaves like raise-bb in the source. The model's `Action` type has only the eight vocabulary actions.
- Status values other than folded are collapsed into `Alive`, because the round only ever asks whether a seat has folded.
- The caller's `raised` list is taken as a value in `StartNewRound`. Later updates to the round's list are not seen by the caller, which Python's aliasing would allow.
- `player_folded` is not created by the source's `__init__`. The model starts it at false.
- Dealing, blinds, hand evaluation and street transitions belong to the game driver, which is not part of this model.
