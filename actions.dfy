/**
 The action vocabulary of no-limit hold'em and the legal-action filter
 `get_nolimit_legal_actions`, written as a pure function of the round's
 contributions and the acting player's two chip counts.
 */
module Actions {
  import opened Chips

  /** The eight actions of the vocabulary, in the order the source lists them. */
  datatype Action = Call | Fold | Check | RaiseBB | Raise3BB | RaiseHalfPot | RaisePot | AllIn

  /** The full vocabulary, in declaration order. */
  const FullActions: seq<Action> := [Call, Fold, Check, RaiseBB, Raise3BB, RaiseHalfPot, RaisePot, AllIn]

  /** Every action belongs to the vocabulary. */
  lemma InVocabulary(a: Action)
    ensures a in FullActions
  {
  }

  /** No action occurs twice in the list. */
  predicate Distinct(s: seq<Action>) {
    forall i, j :: 0 <= i < j < |s| ==> s[i] != s[j]
  }

  /** The entries of `s` that belong to `keep`, in the order of `s`. */
  function Filter(s: seq<Action>, keep: set<Action>): (r: seq<Action>)
    ensures forall a :: a in r <==> a in s && a in keep
    ensures |r| <= |s|
  {
    if s == [] then []
    else (if s[0] in keep then [s[0]] else []) + Filter(s[1..], keep)
  }

  /** The list is the vocabulary with some entries taken out, order kept. */
  predicate InVocabularyOrder(s: seq<Action>) {
    s == Filter(FullActions, set a | a in s)
  }

  /**
   Python's `list.remove(x)`: drop the first occurrence of `x`; every other
   action that was in the list still is, and nothing new appears.
   */
  function Remove(s: seq<Action>, x: Action): (r: seq<Action>)
    requires x in s
    ensures |r| == |s| - 1
    ensures forall y :: y != x && y in s ==> y in r
    ensures forall y :: y in r ==> y in s
  {
    assert s == [s[0]] + s[1..];
    if s[0] == x then s[1..] else [s[0]] + Remove(s[1..], x)
  }

  /** Filtering by two sets that agree on the entries of `s` gives the same list. */
  lemma {:induction false} FilterAgrees(s: seq<Action>, k1: set<Action>, k2: set<Action>)
    requires forall a :: a in s ==> (a in k1 <==> a in k2)
    ensures Filter(s, k1) == Filter(s, k2)
  {
    if s != [] {
      FilterAgrees(s[1..], k1, k2);
    }
  }

  /**
   On a list without repeats, removing a kept action from the filtered list
   is the same as filtering with that action no longer kept.
   */
  lemma {:induction false} RemoveFromFilter(s: seq<Action>, keep: set<Action>, x: Action)
    requires Distinct(s) && x in s && x in keep
    ensures x in Filter(s, keep)
    ensures Remove(Filter(s, keep), x) == Filter(s, keep - {x})
  {
    var t := s[1..];
    assert Distinct(t) by {
      forall i, j | 0 <= i < j < |t| ensures t[i] != t[j] {
        assert t[i] == s[i + 1] && t[j] == s[j + 1];
      }
    }
    var f := Filter(t, keep);
    assert Filter(s, keep) == (if s[0] in keep then [s[0]] else []) + f;
    assert Filter(s, keep - {x}) == (if s[0] in keep - {x} then [s[0]] else []) + Filter(t, keep - {x});
    if s[0] == x {
      assert x !in t by {
        forall k | 0 <= k < |t| ensures t[k] != x { assert t[k] == s[k + 1]; }
      }
      FilterAgrees(t, keep, keep - {x});
      assert ([x] + f)[1..] == f;
    } else {
      assert x in t by { assert s == [s[0]] + t; }
      RemoveFromFilter(t, keep, x);
      if s[0] in keep {
        assert ([s[0]] + f)[1..] == f;
        assert Remove([s[0]] + f, x) == [s[0]] + Remove(f, x);
        assert s[0] in keep - {x};
        assert Filter(s, keep - {x}) == [s[0]] + Filter(t, keep - {x});
      } else {
        assert [] + f == f;
        assert [] + Filter(t, keep - {x}) == Filter(t, keep - {x});
      }
    }
  }

  /** Filtering by a set that keeps every entry changes nothing. */
  lemma {:induction false} FilterKeepsAll(s: seq<Action>, keep: set<Action>)
    requires forall a :: a in s ==> a in keep
    ensures Filter(s, keep) == s
  {
    if s != [] {
      FilterKeepsAll(s[1..], keep);
      assert s == [s[0]] + s[1..];
    }
  }

  /** The acting player cannot cover a call, so the filter answers `[check]` alone. */
  predicate CannotCoverCall(raised: seq<int>, p: nat, inChips: int, remainedChips: int)
    requires p < |raised|
  {
    inChips + (Max(raised) - raised[p]) >= remainedChips
  }

  /** Every action of the vocabulary, as a set. */
  const AllActions: set<Action> := {Call, Fold, Check, RaiseBB, Raise3BB, RaiseHalfPot, RaisePot, AllIn}

  /** The kept set after one conditional removal of `x`. */
  function Drop(keep: set<Action>, drop: bool, x: Action): set<Action> {
    if drop then keep - {x} else keep
  }

  /**
   The actions left after the four removals, given which of them fire, in
   the source's order: `check`, `call`, `raise-pot`, `raise-half-pot`.
   */
  function Kept(dropCheck: bool, dropCall: bool, dropPot: bool, dropHalfPot: bool): set<Action> {
    Drop(Drop(Drop(Drop(AllActions, dropCheck, Check), dropCall, Call), dropPot, RaisePot), dropHalfPot, RaiseHalfPot)
  }

  /** Which of the eight actions survive, given which removals fire. */
  lemma KeptMembers(dropCheck: bool, dropCall: bool, dropPot: bool, dropHalfPot: bool)
    ensures var k := Kept(dropCheck, dropCall, dropPot, dropHalfPot);
            && (Check in k <==> !dropCheck) && (Call in k <==> !dropCall)
            && (RaisePot in k <==> !dropPot) && (RaiseHalfPot in k <==> !dropHalfPot)
            && Fold in k && RaiseBB in k && Raise3BB in k && AllIn in k
  {
  }

  /** The vocabulary lists every action once. */
  lemma VocabularyDistinct()
    ensures Distinct(FullActions)
  {
  }

  /**
   One `if cond: full_actions.remove(x)` on a list that is the vocabulary
   filtered by `keep`: the action is still there to remove, and the result
   is the vocabulary filtered by the new kept set.
   */
  function RemoveWhen(l: seq<Action>, keep: set<Action>, drop: bool, x: Action): (r: seq<Action>)
    requires l == Filter(FullActions, keep) && x in keep
    ensures r == Filter(FullActions, Drop(keep, drop, x))
  {
    VocabularyDistinct();
    InVocabulary(x);
    RemoveFromFilter(FullActions, keep, x);
    if drop then Remove(l, x) else l
  }

  /**
   The four conditional removals exactly as the source makes them, in its
   order, starting from the whole vocabulary.
   */
  function SourceRemovals(dropCheck: bool, dropCall: bool, dropPot: bool, dropHalfPot: bool): (r: seq<Action>)
    ensures r == Filter(FullActions, Kept(dropCheck, dropCall, dropPot, dropHalfPot))
  {
    var k1 := Drop(AllActions, dropCheck, Check);
    var k2 := Drop(k1, dropCall, Call);
    var k3 := Drop(k2, dropPot, RaisePot);
    FilterKeepsAll(FullActions, AllActions);
    var l1 := RemoveWhen(FullActions, AllActions, dropCheck, Check);
    var l2 := RemoveWhen(l1, k1, dropCall, Call);
    var l3 := RemoveWhen(l2, k2, dropPot, RaisePot);
    RemoveWhen(l3, k3, dropHalfPot, RaiseHalfPot)
  }

  /**
   `get_nolimit_legal_actions` for seat `p` whose player has `inChips` in the
   pot for the whole hand and `remainedChips` left: the vocabulary with the
   four removals applied, then the short-circuit to `[check]` when the
   player cannot cover a call.
   */
  function LegalActions(raised: seq<int>, p: nat, inChips: int, remainedChips: int): (r: seq<Action>)
    requires p < |raised|
    ensures CannotCoverCall(raised, p, inChips, remainedChips) ==> r == [Check]
    ensures !CannotCoverCall(raised, p, inChips, remainedChips) ==>
      && InVocabularyOrder(r)
      && (Check in r <==> raised[p] == Max(raised))
      && (Call in r <==> raised[p] < Max(raised))
      && Fold in r && RaiseBB in r && Raise3BB in r && AllIn in r
      && (RaisePot in r <==> inChips + Sum(raised) <= remainedChips)
      && (RaiseHalfPot in r <==> inChips + HalfPot(Sum(raised)) <= remainedChips)
  {
    var m := Max(raised);
    var total := Sum(raised);
    var dropCheck, dropCall := raised[p] < m, raised[p] == m;
    var dropPot, dropHalfPot := inChips + total > remainedChips, inChips + HalfPot(total) > remainedChips;
    var kept := Kept(dropCheck, dropCall, dropPot, dropHalfPot);
    var removed := SourceRemovals(dropCheck, dropCall, dropPot, dropHalfPot);
    KeptMembers(dropCheck, dropCall, dropPot, dropHalfPot);
    InVocabulary(Check); InVocabulary(Call); InVocabulary(RaisePot); InVocabulary(RaiseHalfPot);
    InVocabulary(Fold); InVocabulary(RaiseBB); InVocabulary(Raise3BB); InVocabulary(AllIn);
    FilterAgrees(FullActions, (set a | a in removed), kept);
    if inChips + (m - raised[p]) >= remainedChips then [Check] else removed
  }

  /** Whichever branch answers, exactly one of `check` and `call` is offered. */
  lemma ExactlyOneOfCheckAndCall(raised: seq<int>, p: nat, inChips: int, remainedChips: int)
    requires p < |raised|
    ensures var r := LegalActions(raised, p, inChips, remainedChips);
            (Check in r) != (Call in r)
  {
  }

  /** The two pot-sized raises are offered only to a player who can pay for them. */
  lemma RaisesOnlyWhenAffordable(raised: seq<int>, p: nat, inChips: int, remainedChips: int)
    requires p < |raised|
    ensures var r := LegalActions(raised, p, inChips, remainedChips);
            && (RaisePot in r ==> inChips + Sum(raised) <= remainedChips)
            && (RaiseHalfPot in r ==> inChips + HalfPot(Sum(raised)) <= remainedChips)
  {
  }

  /** On a street nobody has bet on, the player may check and may not call. */
  lemma FreshStreetOffersCheck(n: nat, p: nat, inChips: int, remainedChips: int)
    requires p < n
    ensures var r := LegalActions(Zeros(n), p, inChips, remainedChips);
            Check in r && Call !in r
  {
    ZerosMax(n);
  }

  /** Nothing bet yet and a deep stack: everything but `call` is offered, in vocabulary order. */
  lemma DeepStackUnopened()
    ensures LegalActions([0, 0], 0, 0, 100) == [Fold, Check, RaiseBB, Raise3BB, RaiseHalfPot, RaisePot, AllIn]
  {
    assert Max([0, 0]) == 0 && Sum([0, 0]) == 0;
  }

  /**
   Facing a bet of 2 over the seat's 1, with 2 already in the hand and 100
   behind: `check` goes, `call` and both pot raises stay.
   */
  lemma FacingABet()
    ensures var r := LegalActions([1, 2], 0, 2, 100);
            && Call in r && Check !in r && RaisePot in r && RaiseHalfPot in r
            && |r| == 7
  {
    var raised := [1, 2];
    assert raised[1..] == [2];
    assert Max(raised) == 2 && Sum(raised) == 3 && HalfPot(3) == 1;
  }

  /**
   A stack that a call would use up: 90 in the hand plus 10 to call is at
   least the 95 behind, so only `check` is answered, even though the seat
   faces a bet.
   */
  lemma ShortStackOnlyChecks()
    ensures LegalActions([10, 20], 0, 90, 95) == [Check]
  {
    assert Max([10, 20]) == 20;
  }

  /**
   Once seat `p` has called, topping its contribution up to the maximum, it
   is offered `check` and not `call`.
   */
  lemma CallerMayCheck(raised: seq<int>, p: nat, inChips: int, remainedChips: int)
    requires p < |raised|
    ensures var r := LegalActions(raised[p := Max(raised)], p, inChips, remainedChips);
            Check in r && Call !in r
  {
    CallKeepsMax(raised, p);
  }

  /**
   The half-pot raise of `Chips.HalfPotRaiseMayStayBehind` is offered: with
   0 against 10 and 100 behind, the seat can cover the call, so no
   short-circuit fires, and the 5-chip half-pot raise is affordable,
   although it is smaller than the call.
   */
  lemma HalfPotOfferedBelowTheCall()
    ensures var r := LegalActions([0, 10], 0, 0, 100);
            RaiseHalfPot in r && Call in r
    ensures HalfPot(Sum([0, 10])) < Max([0, 10]) - 0
  {
    assert [0, 10][1..] == [10];
    assert Max([0, 10]) == 10 && Sum([0, 10]) == 10;
  }
}
