/**
 Circular seat order and the seat the turn passes to: starting from a seat,
 walk forward (wrapping round the table) until a seat that has not folded.
 */
module Seats {

  /** A player's status; the betting round only ever asks "folded or not". */
  datatype Status = Alive | Folded

  /**
   The seat `k < n` steps after seat `start` at a table of `n` seats, that is
   `(start + k) % n` with the wrap-around written out.
   */
  function Seat(start: nat, k: nat, n: nat): (s: nat)
    requires start < n && k < n
    ensures s < n && s == (start + k) % n
  {
    if start + k < n then start + k else start + k - n
  }

  /** How many steps forward from `start` it takes to reach seat `w`. */
  function Offset(start: nat, w: nat, n: nat): (k: nat)
    requires start < n && w < n
    ensures k < n && Seat(start, k, n) == w
  {
    if w >= start then w - start else w + n - start
  }

  /** Seat and Offset are inverse: stepping `k < n` times and measuring back gives `k`. */
  lemma OffsetOfSeat(start: nat, k: nat, n: nat)
    requires start < n && k < n
    ensures Offset(start, Seat(start, k, n), n) == k
  {
  }

  /** One more step is one more `(g + 1) % n`, the source's own advance. */
  lemma SeatStep(start: nat, k: nat, n: nat)
    requires start < n && k + 1 < n
    ensures Seat(start, k + 1, n) == (Seat(start, k, n) + 1) % n
  {
  }

  /** Some seat of the table has not folded. */
  predicate SomeoneLive(st: seq<Status>) {
    exists i :: 0 <= i < |st| && st[i] != Folded
  }

  /**
   The number of steps, from `k` on, until the walk from `start` first meets
   a seat that has not folded: every seat passed on the way has folded.
   */
  function FirstLiveOffset(st: seq<Status>, start: nat, k: nat): (d: nat)
    requires start < |st| && k <= |st|
    requires exists j :: k <= j < |st| && st[Seat(start, j, |st|)] != Folded
    ensures k <= d < |st| && st[Seat(start, d, |st|)] != Folded
    ensures forall j :: k <= j < d ==> st[Seat(start, j, |st|)] == Folded
    decreases |st| - k
  {
    if st[Seat(start, k, |st|)] != Folded then k
    else FirstLiveOffset(st, start, k + 1)
  }

  /** A live seat is reached within one lap, whatever seat the walk starts at. */
  lemma LiveWithinOneLap(st: seq<Status>, start: nat)
    requires start < |st| && SomeoneLive(st)
    ensures exists j :: 0 <= j < |st| && st[Seat(start, j, |st|)] != Folded
  {
    var w :| 0 <= w < |st| && st[w] != Folded;
    var k := Offset(start, w, |st|);
    assert st[Seat(start, k, |st|)] != Folded;
  }

  /**
   The seat the turn passes to when the walk starts at `start`: the first
   seat at or after `start`, in circular order, that has not folded.
   */
  function NextLive(st: seq<Status>, start: nat): (r: nat)
    requires start < |st| && SomeoneLive(st)
    ensures r < |st| && st[r] != Folded
    ensures forall j :: 0 <= j < Offset(start, r, |st|) ==> st[Seat(start, j, |st|)] == Folded
  {
    LiveWithinOneLap(st, start);
    var d := FirstLiveOffset(st, start, 0);
    OffsetOfSeat(start, d, |st|);
    Seat(start, d, |st|)
  }

  /**
   NextLive is the only seat with its two properties: any live seat whose
   predecessors on the walk from `start` have all folded is NextLive.
   */
  lemma NextLiveUnique(st: seq<Status>, start: nat, r: nat)
    requires start < |st| && r < |st| && st[r] != Folded
    requires forall j :: 0 <= j < Offset(start, r, |st|) ==> st[Seat(start, j, |st|)] == Folded
    ensures SomeoneLive(st) && NextLive(st, start) == r
  {
    var n := |st|;
    var nl := NextLive(st, start);
    var a, b := Offset(start, r, n), Offset(start, nl, n);
    assert a == b;
  }

  /** The walk stays put when the seat it starts at has not folded. */
  lemma NextLiveStartsAtStart(st: seq<Status>, start: nat)
    requires start < |st| && st[start] != Folded
    ensures SomeoneLive(st) && NextLive(st, start) == start
  {
    assert Offset(start, start, |st|) == 0;
    NextLiveUnique(st, start, start);
  }

  /**
   Three seats, seat 1 to act, seats 2 and 0 folded: the walk from seat 2
   wraps round both folded seats and comes back to seat 1.
   */
  lemma WrapsPastFoldedSeats()
    ensures SomeoneLive([Folded, Alive, Folded])
    ensures NextLive([Folded, Alive, Folded], 2) == 1
  {
    var st := [Folded, Alive, Folded];
    assert Offset(2, 1, 3) == 2;
    assert Seat(2, 0, 3) == 2 && Seat(2, 1, 3) == 0;
    NextLiveUnique(st, 2, 1);
  }
}
