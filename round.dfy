/**
 The betting round of no-limit Texas Hold'em (`NolimitholdemRound`): whose
 turn it is, what each seat has put in on this street, how many calls and
 checks have followed the last raise, and the size of the last raise.
 */
module Round {
  import opened Chips
  import opened Seats
  import opened Actions

  datatype Option<T> = None | Some(value: T)

  /**
   The player object the round talks to. Its `bet` is not part of this
   model: the round only relies on `bet` recording the amount it was asked
   for and leaving the player's status alone. What `bet` does to the two chip
   counts is left open.
   */
  class Player {
    var status: Status
    /** Chips this player has put in over the whole hand. */
    var inChips: int
    /** Chips this player still has behind. */
    var remainedChips: int
    /** Every amount the round has asked this player to bet, in order. */
    ghost var betLog: seq<int>

    constructor (status: Status, inChips: int, remainedChips: int)
      ensures this.status == status && this.inChips == inChips && this.remainedChips == remainedChips
      ensures betLog == []
    {
      this.status := status;
      this.inChips := inChips;
      this.remainedChips := remainedChips;
      betLog := [];
    }

    /** `bet(chips)`: the amount is recorded; the chip counts may change in any way. */
    method Bet(chips: int)
      modifies this
      ensures betLog == old(betLog) + [chips]
      ensures status == old(status)
    {
      betLog := betLog + [chips];
    }
  }

  /** The statuses of the first `n` players, read from the objects. */
  function Statuses(players: seq<Player>, n: nat): (st: seq<Status>)
    reads players
    requires n <= |players|
    ensures |st| == n && forall i :: 0 <= i < n ==> st[i] == players[i].status
  {
    if n == 0 then [] else Statuses(players, n - 1) + [players[n - 1].status]
  }

  class NolimitholdemRound {
    const numPlayers: nat
    /** The minimum raise every street starts with. */
    const initRaiseAmount: int
    /** The seat to act; `None` until the first street starts. */
    var gamePointer: Option<nat>
    var currentRaiseAmount: int
    /** Calls and checks since the last raise. */
    var notRaiseNum: int
    /** Chips each seat has put in on this street. */
    var raised: seq<int>
    /** Set once some player folds. */
    var playerFolded: bool

    constructor (numPlayers: nat, initRaiseAmount: int)
      ensures this.numPlayers == numPlayers && this.initRaiseAmount == initRaiseAmount
      ensures gamePointer == None
      ensures currentRaiseAmount == initRaiseAmount && notRaiseNum == 0
      ensures raised == Zeros(numPlayers) && !playerFolded
    {
      this.numPlayers := numPlayers;
      this.initRaiseAmount := initRaiseAmount;
      gamePointer := None;
      currentRaiseAmount := initRaiseAmount;
      notRaiseNum := 0;
      raised := Zeros(numPlayers);
      playerFolded := false;
    }

    /**
     `start_new_round`: the street starts with `gamePointer` to act, no call
     or check counted and the initial raise size. A non-empty `raised` (the
     blinds, on the first street) seeds the contributions; otherwise every
     seat starts at zero.
     */
    method StartNewRound(gamePointer: nat, raised: Option<seq<int>>)
      modifies this
      ensures this.gamePointer == Some(gamePointer)
      ensures notRaiseNum == 0 && currentRaiseAmount == initRaiseAmount
      ensures this.raised == if raised.Some? && raised.value != [] then raised.value else Zeros(numPlayers)
      ensures playerFolded == old(playerFolded)
      ensures raised.Some? && NonNegative(raised.value) ==> NonNegative(this.raised)
    {
      this.gamePointer := Some(gamePointer);
      notRaiseNum := 0;
      currentRaiseAmount := initRaiseAmount;
      if raised.Some? && raised.value != [] {
        this.raised := raised.value;
      } else {
        this.raised := Zeros(numPlayers);
      }
    }

    /** The round has a seat to act, and that seat has a contribution and a player. */
    predicate ReadyFor(players: seq<Player>)
      reads this
    {
      gamePointer.Some? && gamePointer.value < |raised| && gamePointer.value < |players|
    }

    /**
     `get_nolimit_legal_actions`: only reads the round and the acting
     player's two chip counts.
     */
    function GetNolimitLegalActions(players: seq<Player>): (r: seq<Action>)
      reads this, players
      requires ReadyFor(players)
      ensures var p := gamePointer.value;
              r == LegalActions(raised, p, players[p].inChips, players[p].remainedChips)
    {
      var p := gamePointer.value;
      LegalActions(raised, p, players[p].inChips, players[p].remainedChips)
    }

    /**
     What seat `p` taking `action` does to the round and to that seat's
     player, between the state before and the state after. Betting actions
     hand their amount to `bet`; calls and checks add one to the count since
     the last raise, while the three sized raises that change chips restart
     it at one; the two fixed-size raises change nothing.
     */
    twostate predicate ActionApplied(players: seq<Player>, p: nat, action: Action)
      requires p < |players| && p < |old(raised)|
      reads this`raised, this`notRaiseNum, this`currentRaiseAmount, this`playerFolded, players[p]
    {
      var before, actor := old(raised), players[p];
      && actor.status == (if action == Fold then Folded else old(actor.status))
      && playerFolded == (action == Fold || old(playerFolded))
      && match action
         case Call =>
           && raised == before[p := Max(before)]
           && actor.betLog == old(actor.betLog) + [Max(before) - before[p]]
           && notRaiseNum == old(notRaiseNum) + 1
           && currentRaiseAmount == old(currentRaiseAmount)
         case AllIn =>
           var stack := old(actor.remainedChips);
           && raised == before[p := stack]
           && actor.betLog == old(actor.betLog) + [stack]
           && currentRaiseAmount == RaiseAmount(before, p, stack)
           && notRaiseNum == 1
         case RaisePot =>
           var quantity := Sum(before);
           && raised == before[p := before[p] + quantity]
           && actor.betLog == old(actor.betLog) + [quantity]
           && currentRaiseAmount == RaiseAmount(before, p, quantity)
           && notRaiseNum == 1
         case RaiseHalfPot =>
           var quantity := HalfPot(Sum(before));
           && raised == before[p := before[p] + quantity]
           && actor.betLog == old(actor.betLog) + [quantity]
           && currentRaiseAmount == RaiseAmount(before, p, quantity)
           && notRaiseNum == 1
         case _ =>
           && raised == before && currentRaiseAmount == old(currentRaiseAmount)
           && actor.betLog == old(actor.betLog)
           && actor.inChips == old(actor.inChips)
           && actor.remainedChips == old(actor.remainedChips)
           && notRaiseNum == old(notRaiseNum) + (if action == Check then 1 else 0)
    }

    /**
     No action makes a contribution negative, provided none was before and
     the actor's stack (what an all-in writes in) is not negative either.
     */
    twostate lemma ActionKeepsNonNegative(players: seq<Player>, p: nat, action: Action)
      requires p < |players| && p < |old(raised)|
      requires NonNegative(old(raised)) && old(players[p].remainedChips) >= 0
      requires ActionApplied(players, p, action)
      ensures NonNegative(raised)
    {
      match action {
        case Call => {}
        case AllIn => {}
        case RaisePot => {}
        case RaiseHalfPot => {}
        case _ => {}
      }
    }

    /** The first half of `proceed_round`: seat `p` takes `action`. */
    method TakeAction(players: seq<Player>, action: Action)
      requires ReadyFor(players)
      modifies this`raised, this`notRaiseNum, this`currentRaiseAmount, this`playerFolded, players[gamePointer.value]
      ensures ActionApplied(players, gamePointer.value, action)
      ensures NonNegative(old(raised)) && old(players[gamePointer.value].remainedChips) >= 0 ==>
        NonNegative(raised)
    {
      var p := gamePointer.value;
      var actor := players[p];
      match action {
        case Call =>
          var diff := Max(raised) - raised[p];
          raised := raised[p := Max(raised)];
          actor.Bet(diff);
          notRaiseNum := notRaiseNum + 1;
        case AllIn =>
          var allInQuantity := actor.remainedChips;
          currentRaiseAmount := RaiseAmount(raised, p, allInQuantity);
          raised := raised[p := allInQuantity];
          actor.Bet(allInQuantity);
          notRaiseNum := 1;
        case RaisePot =>
          var quantity := Sum(raised);
          currentRaiseAmount := RaiseAmount(raised, p, quantity);
          raised := raised[p := raised[p] + quantity];
          actor.Bet(quantity);
          notRaiseNum := 1;
        case RaiseHalfPot =>
          var quantity := HalfPot(Sum(raised));
          currentRaiseAmount := RaiseAmount(raised, p, quantity);
          raised := raised[p := raised[p] + quantity];
          actor.Bet(quantity);
          notRaiseNum := 1;
        case Fold =>
          actor.status := Folded;
          playerFolded := true;
        case Check =>
          notRaiseNum := notRaiseNum + 1;
        case RaiseBB =>
        case Raise3BB =>
      }
    }

    /**
     The second half of `proceed_round`: starting at the seat after `p`, step
     round the table past every folded seat; the first seat still in the hand
     is the next to act.
     */
    method PassTurn(players: seq<Player>, p: nat) returns (next: nat)
      requires 0 < numPlayers <= |players| && SomeoneLive(Statuses(players, numPlayers))
      modifies this`gamePointer
      ensures gamePointer == Some(next) && next < numPlayers && players[next].status != Folded
      ensures next == NextLive(Statuses(players, numPlayers), (p + 1) % numPlayers)
    {
      var n := numPlayers;
      var start := (p + 1) % n;
      ghost var st := Statuses(players, n);
      LiveWithinOneLap(st, start);
      ghost var target := FirstLiveOffset(st, start, 0);
      var g := start;
      ghost var d: nat := 0;
      while players[g].status == Folded
        invariant d <= target && g == Seat(start, d, n)
        invariant forall j :: 0 <= j < d ==> st[Seat(start, j, n)] == Folded
        decreases target - d
      {
        SeatStep(start, d, n);
        g := (g + 1) % n;
        d := d + 1;
      }
      OffsetOfSeat(start, d, n);
      NextLiveUnique(st, start, g);
      gamePointer := Some(g);
      next := g;
    }

    /**
     `proceed_round`: seat `p` takes `action`, then the turn passes to the
     first seat after `p`, in circular order, that has not folded. Some seat
     other than a folding actor must still be in the hand, or the source's
     skip loop never ends.
     */
    method ProceedRound(players: seq<Player>, action: Action) returns (next: nat)
      requires ReadyFor(players) && 0 < numPlayers <= |players|
      requires exists i :: 0 <= i < numPlayers && players[i].status != Folded
                 && (action == Fold ==> players[i] != players[gamePointer.value])
      modifies this, players[gamePointer.value]
      ensures gamePointer == Some(next) && next < numPlayers && players[next].status != Folded
      ensures SomeoneLive(Statuses(players, numPlayers))
      ensures next == NextLive(Statuses(players, numPlayers), (old(gamePointer.value) + 1) % numPlayers)
      ensures ActionApplied(players, old(gamePointer.value), action)
      ensures NonNegative(old(raised)) && old(players[gamePointer.value].remainedChips) >= 0 ==>
        NonNegative(raised)
    {
      var p := gamePointer.value;
      ghost var w :| 0 <= w < numPlayers && players[w].status != Folded
                     && (action == Fold ==> players[w] != players[p]);
      TakeAction(players, action);
      assert Statuses(players, numPlayers)[w] != Folded;
      next := PassTurn(players, p);
    }
  }

  /**
   Three seats with seat 2 already folded, seat 1 to act on a fresh street:
   seat 1 checks and the turn skips seat 2 to reach seat 0; seat 0 folds and
   the turn skips seats 2 and 0 to come back to seat 1.
   */
  method FoldedSeatsAreSkipped() returns (afterCheck: nat, afterFold: nat)
    ensures afterCheck == 0 && afterFold == 1
  {
    var a := new Player(Alive, 0, 100);
    var b := new Player(Alive, 0, 100);
    var c := new Player(Folded, 0, 100);
    var players := [a, b, c];
    var round := new NolimitholdemRound(3, 2);
    round.StartNewRound(1, None);
    assert players[0].status != Folded;
    afterCheck := round.ProceedRound(players, Check);
    ghost var st := Statuses(players, 3);
    assert st[0] == Alive && st[2] == Folded;
    assert Offset(2, 0, 3) == 1 && Seat(2, 0, 3) == 2;
    NextLiveUnique(st, 2, 0);
    assert players[1].status != Folded && players[1] != players[0];
    afterFold := round.ProceedRound(players, Fold);
    st := Statuses(players, 3);
    assert st[1] == Alive;
    NextLiveStartsAtStart(st, 1);
  }

  /**
   Heads-up with blinds 1 and 2 and seat 0 to act: seat 0 raises the pot, 3
   chips, which is 2 more than the call it faced; the turn passes to seat 1.
   */
  method PotRaiseOverBlinds() returns (raisedAfter: seq<int>, raiseAmount: int, next: nat)
    ensures raisedAfter == [4, 2] && raiseAmount == 2 && next == 1
  {
    var a := new Player(Alive, 1, 99);
    var b := new Player(Alive, 2, 98);
    var players := [a, b];
    var round := new NolimitholdemRound(2, 2);
    round.StartNewRound(0, Some([1, 2]));
    assert [1, 2][1..] == [2];
    assert Max([1, 2]) == 2 && Sum([1, 2]) == 3;
    assert players[1].status != Folded;
    next := round.ProceedRound(players, RaisePot);
    raisedAfter := round.raised;
    raiseAmount := round.currentRaiseAmount;
    ghost var st := Statuses(players, 2);
    assert st[1] == Alive;
    NextLiveStartsAtStart(st, 1);
  }

  /**
   Seat 1 has 2 in against seat 0's 4 and calls: it bets the 2 it is short,
   both seats now hold 4, and one more call is counted.
   */
  method CallClosesTheGap() returns (raisedAfter: seq<int>, calls: int, ghost bets: seq<int>)
    ensures raisedAfter == [4, 4] && calls == 1 && bets == [2]
  {
    var a := new Player(Alive, 4, 96);
    var b := new Player(Alive, 2, 98);
    var players := [a, b];
    var round := new NolimitholdemRound(2, 2);
    round.StartNewRound(1, Some([4, 2]));
    assert [4, 2][1..] == [2];
    assert Max([4, 2]) == 4;
    assert players[0].status != Folded;
    var next := round.ProceedRound(players, Call);
    raisedAfter := round.raised;
    calls := round.notRaiseNum;
    bets := b.betLog;
  }
}
