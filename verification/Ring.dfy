/** The seat ring: `nextSeat` walks seats clockwise from a given one
    (packages/game-rules/src/holdem.ts). */
module Ring {
  import opened Prelude

  /** The seat `i` places clockwise of `from`. */
  function At(n: nat, from: nat, i: nat): (idx: nat)
    requires n > 0
    ensures idx < n
  {
    (from + i) % n
  }

  /** First seat of `s` met walking from `from` at distance `i`, `i + 1`, ..., `n`. */
  function NextFrom(n: nat, from: nat, s: set<nat>, i: nat): (r: Option<nat>)
    requires n > 0
    ensures r.Some? ==> r.value in s && r.value < n
    decreases n + 1 - i
  {
    if i > n then None
    else if At(n, from, i) in s then Some(At(n, from, i))
    else NextFrom(n, from, s, i + 1)
  }

  /** First seat of `s` strictly clockwise of `from`; the walk ends on `from` itself. */
  function NextSeat(n: nat, from: nat, s: set<nat>): (r: Option<nat>)
    requires n > 0
    ensures r.Some? ==> r.value in s && r.value < n
  {
    NextFrom(n, from, s, 1)
  }

  /** The wrap, without division. */
  lemma {:induction false} AtValue(n: nat, from: nat, i: nat)
    requires from < n && i <= n
    ensures At(n, from, i) == if from + i < n then from + i else from + i - n
  {
    var x := from + i;
    if x < n {
      ModUnique(x, n, 0, x);
    } else {
      ModUnique(x, n, 1, x - n);
    }
  }

  lemma {:induction false} AtWraps(n: nat, from: nat, k: nat)
    requires from < n && k < n
    ensures exists i :: 1 <= i <= n && At(n, from, i) == k
  {
    var i := if k > from then k - from else n + k - from;
    AtValue(n, from, i);
  }

  lemma {:induction false} NextFromIsFirst(n: nat, from: nat, s: set<nat>, i: nat, d: nat)
    requires n > 0 && i <= d <= n
    requires At(n, from, d) in s
    requires forall j :: i <= j < d ==> At(n, from, j) !in s
    ensures NextFrom(n, from, s, i) == Some(At(n, from, d))
    decreases d - i
  {
    if i < d {
      assert At(n, from, i) !in s;
      NextFromIsFirst(n, from, s, i + 1, d);
    }
  }

  /** What the walk finds: the nearest member clockwise, and it finds one whenever there is one. */
  lemma {:induction false} NextSeatFinds(n: nat, from: nat, s: set<nat>)
    requires from < n
    requires exists k :: k in s && k < n
    ensures NextSeat(n, from, s).Some?
    ensures exists d :: 1 <= d <= n && At(n, from, d) == NextSeat(n, from, s).value
                        && forall j :: 1 <= j < d ==> At(n, from, j) !in s
  {
    var k :| k in s && k < n;
    AtWraps(n, from, k);
    var d :| 1 <= d <= n && At(n, from, d) == k;
    d := Nearest(n, from, s, 1, d);
    NextFromIsFirst(n, from, s, 1, d);
  }

  lemma {:induction false} Nearest(n: nat, from: nat, s: set<nat>, i: nat, d: nat) returns (e: nat)
    requires n > 0 && i <= d <= n && At(n, from, d) in s
    ensures i <= e <= d && At(n, from, e) in s
    ensures forall j :: i <= j < e ==> At(n, from, j) !in s
    decreases d - i
  {
    if At(n, from, i) in s {
      e := i;
    } else {
      e := Nearest(n, from, s, i + 1, d);
    }
  }

  /** Walking on from a member never stops on that member while another one exists. */
  lemma {:induction false} NextSeatMoves(n: nat, from: nat, s: set<nat>)
    requires from < n
    requires exists k :: k in s && k < n && k != from
    ensures NextSeat(n, from, s).Some? && NextSeat(n, from, s).value != from
  {
    var k :| k in s && k < n && k != from;
    NextSeatFinds(n, from, s);
    var d :| 1 <= d <= n && At(n, from, d) == NextSeat(n, from, s).value
             && forall j :: 1 <= j < d ==> At(n, from, j) !in s;
    AtWraps(n, from, k);
    var e :| 1 <= e <= n && At(n, from, e) == k;
    AtValue(n, from, d);
    AtValue(n, from, e);
  }

  /** The source's loop. */
  method FindNextSeat(n: nat, from: nat, s: set<nat>) returns (r: Option<nat>)
    requires n > 0
    ensures r == NextSeat(n, from, s)
  {
    var i := 1;
    while i <= n
      invariant 1 <= i <= n + 1
      invariant NextSeat(n, from, s) == NextFrom(n, from, s, i)
    {
      var idx := (from + i) % n;
      if idx in s {
        return Some(idx);
      }
      i := i + 1;
    }
    return None;
  }

  // ----- Button order -----

  /** All seats clockwise from the one after the button. */
  function SeatsAfterButton(button: nat, n: nat): (order: seq<nat>)
    requires n > 0
    ensures |order| == n
    ensures forall i :: 0 <= i < n ==> order[i] == At(n, button, i + 1)
  {
    seq(n, i requires 0 <= i < n => At(n, button, i + 1))
  }

  lemma {:induction false} AtInjective(n: nat, from: nat, i: nat, j: nat)
    requires from < n && 1 <= i < j <= n
    ensures At(n, from, i) != At(n, from, j)
  {
    AtValue(n, from, i);
    AtValue(n, from, j);
  }

  /** Button order lists every seat exactly once. */
  lemma {:induction false} ButtonOrderIsPermutation(button: nat, n: nat)
    requires button < n
    ensures var order := SeatsAfterButton(button, n);
            && (forall i, j :: 0 <= i < j < n ==> order[i] != order[j])
            && (forall k: nat :: k < n ==> k in order)
  {
    var order := SeatsAfterButton(button, n);
    forall i, j | 0 <= i < j < n
      ensures order[i] != order[j]
    {
      AtInjective(n, button, i + 1, j + 1);
    }
    forall k: nat | k < n
      ensures k in order
    {
      AtWraps(n, button, k);
      var i :| 1 <= i <= n && At(n, button, i) == k;
      assert order[i - 1] == k;
    }
  }

  /** How far clockwise of `from` seat `k` lies; a full round for `from` itself. */
  function Clockwise(n: nat, from: nat, k: nat): int
  {
    if k > from then k - from else n + k - from
  }

  lemma {:induction false} ButtonOrderIsClockwise(button: nat, n: nat, p: nat)
    requires button < n && p < n
    ensures var k := SeatsAfterButton(button, n)[p]; k < n && Clockwise(n, button, k) == p + 1
  {
    AtValue(n, button, p + 1);
  }

  lemma {:induction false} ClockwiseAt(n: nat, from: nat, d: nat)
    requires from < n && 1 <= d <= n
    ensures Clockwise(n, from, At(n, from, d)) == d
  {
    AtValue(n, from, d);
  }

  /** The walk ends at the member nearest clockwise. */
  lemma {:induction false} NextSeatIsNearest(n: nat, from: nat, s: set<nat>, y: nat)
    requires from < n && y in s && y < n
    ensures NextSeat(n, from, s).Some? && NextSeat(n, from, s).value in s
    ensures Clockwise(n, from, NextSeat(n, from, s).value) <= Clockwise(n, from, y)
  {
    NextSeatFinds(n, from, s);
    var d :| 1 <= d <= n && At(n, from, d) == NextSeat(n, from, s).value
             && forall j :: 1 <= j < d ==> At(n, from, j) !in s;
    ClockwiseAt(n, from, d);
    AtWraps(n, from, y);
    var e :| 1 <= e <= n && At(n, from, e) == y;
    ClockwiseAt(n, from, e);
  }
}
