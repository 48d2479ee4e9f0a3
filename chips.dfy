/**
 Chip arithmetic of one betting street: the per-seat contributions `raised`,
 the largest contribution (the amount to call up to), the pot total, the
 half-pot size and the size of the raise an action makes.
 */
module Chips {

  /** Every seat's contribution is at least zero. */
  predicate NonNegative(s: seq<int>) {
    forall i :: 0 <= i < |s| ==> s[i] >= 0
  }

  /** `num_players` zeros: the contributions of a street nobody has bet on. */
  function Zeros(n: nat): (z: seq<int>)
    ensures |z| == n && NonNegative(z)
    ensures forall i :: 0 <= i < n ==> z[i] == 0
  {
    seq(n, _ => 0)
  }

  /** The largest contribution, as Python's `max` of a non-empty list. */
  function Max(s: seq<int>): (m: int)
    requires |s| > 0
    ensures m in s
    ensures forall i :: 0 <= i < |s| ==> s[i] <= m
  {
    if |s| == 1 then s[0]
    else
      var rest := Max(s[1..]);
      if s[0] >= rest then s[0] else rest
  }

  /** The pot of this street, as `np.sum` of an integer list. */
  function Sum(s: seq<int>): (t: int)
    ensures NonNegative(s) ==> t >= 0
  {
    if |s| == 0 then 0 else s[0] + Sum(s[1..])
  }

  /**
   `int(x / 2)`: Python's true division followed by truncation toward zero.
   For a non-negative pot this is floor division; for a negative one it
   rounds up, which Dafny's Euclidean `/` would not.
   */
  function HalfPot(total: int): (h: int)
    ensures total >= 0 ==> 0 <= h && 2 * h <= total < 2 * h + 2
    ensures total < 0 ==> h <= 0 && 2 * h - 2 < total <= 2 * h
  {
    if total >= 0 then total / 2 else -((-total) / 2)
  }

  /**
   `get_current_raise_amount`: the part of `quantity` that goes beyond what
   seat `p` needs to call. It never exceeds `quantity`, and equals it exactly
   when the seat has nothing to call.
   */
  function RaiseAmount(raised: seq<int>, p: nat, quantity: int): (r: int)
    requires p < |raised|
    ensures r <= quantity
    ensures r == quantity <==> raised[p] == Max(raised)
  {
    quantity - (Max(raised) - raised[p])
  }

  /** Changing one entry moves the total by exactly the change. */
  lemma {:induction false} SumUpdate(s: seq<int>, i: nat, v: int)
    requires i < |s|
    ensures Sum(s[i := v]) == Sum(s) - s[i] + v
  {
    if i == 0 {
      assert s[i := v][1..] == s[1..];
    } else {
      assert s[i := v][1..] == s[1..][i - 1 := v];
      SumUpdate(s[1..], i - 1, v);
    }
  }

  /** Topping one entry up to the maximum leaves the maximum where it was. */
  lemma CallKeepsMax(s: seq<int>, i: nat)
    requires i < |s|
    ensures Max(s[i := Max(s)]) == Max(s)
  {
    var t := s[i := Max(s)];
    var m := Max(t);
    assert t[i] == Max(s);
    var k :| 0 <= k < |t| && t[k] == m;
    assert m <= Max(s) by {
      if k != i { assert t[k] == s[k]; }
    }
  }

  /**
   Raising one entry: the new maximum is the larger of the old maximum and
   the raised entry.
   */
  lemma RaiseMax(s: seq<int>, i: nat, v: int)
    requires i < |s| && v >= s[i]
    ensures Max(s[i := v]) == if v >= Max(s) then v else Max(s)
  {
    var t := s[i := v];
    var m := Max(t);
    var k :| 0 <= k < |t| && t[k] == m;
    var j :| 0 <= j < |s| && s[j] == Max(s);
    assert t[i] == v;
    if j == i {
      assert t[j] >= s[j];
    } else {
      assert t[j] == s[j];
    }
    if k != i { assert t[k] == s[k]; }
  }

  /**
   After seat `p` adds `quantity >= 0` chips, the level everyone must call up
   to rises by exactly the raise amount when that amount is positive, and
   does not move otherwise.
   */
  lemma RaiseLiftsMaxByRaiseAmount(raised: seq<int>, p: nat, quantity: int)
    requires p < |raised| && quantity >= 0
    ensures var r := RaiseAmount(raised, p, quantity);
            Max(raised[p := raised[p] + quantity]) == Max(raised) + (if r > 0 then r else 0)
  {
    RaiseMax(raised, p, raised[p] + quantity);
  }

  /** A pot-sized raise doubles the pot of the street. */
  lemma PotRaiseDoublesPot(raised: seq<int>, p: nat)
    requires p < |raised|
    ensures Sum(raised[p := raised[p] + Sum(raised)]) == 2 * Sum(raised)
  {
    SumUpdate(raised, p, raised[p] + Sum(raised));
  }

  /** A half-pot raise adds the truncated half of the pot to the pot. */
  lemma HalfPotRaiseGrowsPot(raised: seq<int>, p: nat)
    requires p < |raised|
    ensures Sum(raised[p := raised[p] + HalfPot(Sum(raised))]) == Sum(raised) + HalfPot(Sum(raised))
  {
    SumUpdate(raised, p, raised[p] + HalfPot(Sum(raised)));
  }

  /**
   An all-in overwrites the seat's entry, so the chips that seat had already
   put in this street drop out of the pot total.
   */
  lemma AllInReplacesContribution(raised: seq<int>, p: nat, stack: int)
    requires p < |raised|
    ensures Sum(raised[p := stack]) == Sum(raised) - raised[p] + stack
  {
    SumUpdate(raised, p, stack);
  }

  /** A street with no bets has nothing to call: its maximum is zero. */
  lemma ZerosMax(n: nat)
    requires n > 0
    ensures Max(Zeros(n)) == 0
  {
    var z := Zeros(n);
    assert z[0] == 0;
  }

  /** With no negative entries, the pot is at least the largest contribution. */
  lemma {:induction false} SumAtLeastMax(s: seq<int>)
    requires |s| > 0 && NonNegative(s)
    ensures Sum(s) >= Max(s)
  {
    if |s| > 1 {
      assert NonNegative(s[1..]) by {
        forall i | 0 <= i < |s[1..]| ensures s[1..][i] >= 0 { assert s[1..][i] == s[i + 1]; }
      }
      SumAtLeastMax(s[1..]);
    }
  }

  /**
   A pot-sized raise is never smaller than a call: its raise amount is at
   least the seat's own contribution, and afterwards that seat holds the
   largest contribution of the street.
   */
  lemma PotRaiseIsRealRaise(raised: seq<int>, p: nat)
    requires p < |raised| && NonNegative(raised)
    ensures RaiseAmount(raised, p, Sum(raised)) >= raised[p] >= 0
    ensures var after := raised[p := raised[p] + Sum(raised)];
            Max(after) == after[p]
  {
    SumAtLeastMax(raised);
    RaiseMax(raised, p, raised[p] + Sum(raised));
  }

  /**
   A half-pot raise can be smaller than the call it faces: with 0 against 10
   the seat adds 5, its raise amount is -5, and it is still behind.
   */
  lemma HalfPotRaiseMayStayBehind()
    ensures var raised := [0, 10];
            var after := raised[0 := raised[0] + HalfPot(Sum(raised))];
            && RaiseAmount(raised, 0, HalfPot(Sum(raised))) == -5
            && after[0] < Max(after)
  {
    var raised := [0, 10];
    assert raised[1..] == [10];
    assert Max(raised) == 10 && Sum(raised) == 10;
    var after := [5, 10];
    assert after[1..] == [10];
    assert Max(after) == 10;
  }
}
