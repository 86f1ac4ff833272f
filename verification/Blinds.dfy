/** Button and blinds: `nextBlindSeats` against `startHand`, and how the button and the big blind
    travel (packages/game-rules/src/holdem.ts, lines 331-405). */
module Blinds {
  import opened Prelude
  import opened Cards
  import opened Ring
  import opened Table
  import opened Holdem

  // ----- nextBlindSeats -----

  function EligibleWith(seats: seq<Seat>, extra: set<nat>): set<nat>
  {
    set i: nat | i < |seats| && seats[i].playerId != "" && seats[i].stack > 0 && (!seats[i].sitOut || i in extra)
  }

  function NextBlindSeats(seats: seq<Seat>, lastButton: nat, extra: set<nat>): (r: Option<Positions>)
    requires lastButton < |seats|
  {
    var n, eligible := |seats|, EligibleWith(seats, extra);
    if |eligible| < 2 then None
    else
      WalkFinds(n, lastButton, eligible);
      var button := NextSeat(n, lastButton, eligible).value;
      WalkFinds(n, button, eligible);
      var after := NextSeat(n, button, eligible).value;
      WalkFinds(n, after, eligible);
      if |eligible| == 2 then Some(Positions(button, button, after, true))
      else Some(Positions(button, after, NextSeat(n, after, eligible).value, false))
  }

  /** The table with the given players sitting in; vacant seats stay as they are. */
  function SitIn(seats: seq<Seat>, who: set<nat>): (r: seq<Seat>)
    ensures |r| == |seats|
  {
    seq(|seats|, i requires 0 <= i < |seats| =>
      if i in who && seats[i].playerId != "" then seats[i].(sitOut := false) else seats[i])
  }

  /** Asking with extra seats, vacant or not, is asking about the table where their players sit in; and what it
      answers is what startHand does there: same button, small and big blind, and no hand without two players. */
  lemma {:induction false} BlindsMatchStartHand(st: State, extra: set<nat>, deck: seq<Card>)
    requires CanStart(st, deck)
    ensures CanStart(st.(seats := SitIn(st.seats, extra)), deck)
    ensures var there := st.(seats := SitIn(st.seats, extra));
            match NextBlindSeats(st.seats, st.button, extra)
            case None => StartHand(there, deck) == Err(NeedPlayers)
            case Some(pos) =>
              && StartHand(there, deck).Ok?
              && var hand := StartHand(there, deck).value;
                 && hand.button == pos.button
                 && hand.lastAggressor == Some(pos.bb)
                 && pos == HandPositions(there.seats, st.button)
  {
    var there := SitIn(st.seats, extra);
    assert EligibleWith(st.seats, extra) == EligibleSet(there);
    ButtonSetIsEligible(there);
  }

  // ----- Walking round a fixed set of seats -----

  /** The members of `s` below `n`, ascending. */
  function Ascending(s: set<nat>, n: nat): (r: seq<nat>)
    ensures |r| <= n
    ensures forall i :: 0 <= i < |r| ==> r[i] in s && r[i] < n
    ensures forall i, j :: 0 <= i < j < |r| ==> r[i] < r[j]
  {
    if n == 0 then [] else Ascending(s, n - 1) + if n - 1 in s then [n - 1] else []
  }

  lemma {:induction false} AscendingFinds(s: set<nat>, n: nat, x: nat) returns (i: nat)
    requires x in s && x < n
    ensures i < |Ascending(s, n)| && Ascending(s, n)[i] == x
  {
    if x == n - 1 {
      i := |Ascending(s, n - 1)|;
    } else {
      i := AscendingFinds(s, n - 1, x);
    }
  }

  lemma {:induction false} AscendingSize(s: set<nat>, n: nat)
    requires forall x :: x in s ==> x < n
    ensures |Ascending(s, n)| == |s|
  {
    if n == 0 {
      assert s == {};
    } else if n - 1 in s {
      AscendingSize(s - {n - 1}, n - 1);
      AscendingIgnores(s, s - {n - 1}, n - 1);
    } else {
      AscendingSize(s, n - 1);
    }
  }

  lemma {:induction false} AscendingIgnores(s: set<nat>, t: set<nat>, n: nat)
    requires forall x: nat :: x < n ==> (x in s <==> x in t)
    ensures Ascending(s, n) == Ascending(t, n)
  {
    if n > 0 {
      AscendingIgnores(s, t, n - 1);
    }
  }

  /** Nothing of `s` lies strictly between neighbours, below the first or above the last. */
  lemma {:induction false} NoneBetween(s: set<nat>, n: nat, i: nat, x: nat)
    requires i < |Ascending(s, n)| && x < n && x in s
    ensures var m := Ascending(s, n);
            && m[0] <= x <= m[|m| - 1]
            && (x > m[i] && i + 1 < |m| ==> x >= m[i + 1])
  {
    var m := Ascending(s, n);
    var j := AscendingFinds(s, n, x);
    if i + 1 < |m| && j > i + 1 {
      assert m[i + 1] < m[j];
    }
  }

  function Wrap(i: nat, k: nat): nat
  {
    if i + 1 == k then 0 else i + 1
  }

  /** From a member, the walk goes to the next one, and from the last to the first. */
  lemma {:induction false} WalkIsSuccessor(n: nat, s: set<nat>, i: nat)
    requires i < |Ascending(s, n)| && n > 0
    ensures var m := Ascending(s, n); NextSeat(n, m[i], s) == Some(m[Wrap(i, |m|)])
  {
    var m, d := Ascending(s, n), Gap(n, s, i);
    AtValue(n, m[i], d);
    forall j | 1 <= j < d
      ensures At(n, m[i], j) !in s
    {
      AtValue(n, m[i], j);
      StepMisses(n, s, i, j);
    }
    NextFromIsFirst(n, m[i], s, 1, d);
  }

  /** Distance from member `i` to the next one round the ring. */
  function Gap(n: nat, s: set<nat>, i: nat): (d: nat)
    requires i < |Ascending(s, n)|
    ensures 1 <= d <= n
  {
    var m := Ascending(s, n);
    if i + 1 < |m| then m[i + 1] - m[i]
    else
      assert i > 0 ==> m[0] < m[i];
      n - m[i] + m[0]
  }

  lemma {:induction false} StepMisses(n: nat, s: set<nat>, i: nat, j: nat)
    requires i < |Ascending(s, n)| && 1 <= j < Gap(n, s, i)
    ensures var m := Ascending(s, n); var x := if m[i] + j < n then m[i] + j else m[i] + j - n; x !in s
  {
    var m := Ascending(s, n);
    var x := if m[i] + j < n then m[i] + j else m[i] + j - n;
    if x in s {
      NoneBetween(s, n, i, x);
      assert false;
    }
  }

  // ----- Rotation -----

  /** `t` steps round a ring of `k`, starting at `i`. */
  function Rotate(i: nat, t: nat, k: nat): nat
  {
    if t == 0 then i else Wrap(Rotate(i, t - 1, k), k)
  }

  lemma {:induction false} RotateValue(i: nat, t: nat, k: nat)
    requires i < k && t <= k
    ensures Rotate(i, t, k) == if i + t < k then i + t else i + t - k
  {
    if t > 0 {
      RotateValue(i, t - 1, k);
    }
  }

  /** In `k` steps each place is visited exactly once. */
  lemma {:induction false} VisitsOnce(i: nat, j: nat, k: nat)
    requires i < k && j < k
    ensures exists t :: 0 <= t < k && Rotate(i, t, k) == j
    ensures forall t, u :: 0 <= t < k && 0 <= u < k && Rotate(i, t, k) == j && Rotate(i, u, k) == j ==> t == u
  {
    var t := if j >= i then j - i else j - i + k;
    RotateValue(i, t, k);
    assert Rotate(i, t, k) == j;
    forall u | 0 <= u < k && Rotate(i, u, k) == j
      ensures u == t
    {
      RotateValue(i, u, k);
    }
  }

  // ----- The button walk on a fixed set -----

  ghost predicate Ringed(n: nat, s: set<nat>)
  {
    |s| >= 2 && forall i :: i in s ==> i < n
  }

  function Step(n: nat, s: set<nat>, from: nat): (r: nat)
    requires Ringed(n, s) && from < n
    ensures r in s && r < n
  {
    WalkFinds(n, from, s);
    NextSeat(n, from, s).value
  }

  /** Button of the `t`-th hand from now, the last button being `last`. */
  function ButtonIn(n: nat, s: set<nat>, last: nat, t: nat): (r: nat)
    requires Ringed(n, s) && last < n
    ensures r in s && r < n
  {
    if t == 0 then Step(n, s, last) else Step(n, s, ButtonIn(n, s, last, t - 1))
  }

  /** Big blind of that hand: heads-up the button posts the small blind. */
  function BigBlindIn(n: nat, s: set<nat>, last: nat, t: nat): (r: nat)
    requires Ringed(n, s) && last < n
    ensures r in s && r < n
  {
    var after := Step(n, s, ButtonIn(n, s, last, t));
    if |s| == 2 then after else Step(n, s, after)
  }

  lemma {:induction false} RotateInRange(i: nat, t: nat, k: nat)
    requires i < k
    ensures Rotate(i, t, k) < k
  {
    if t > 0 {
      RotateInRange(i, t - 1, k);
    }
  }

  lemma {:induction false} RotateAdds(i: nat, t: nat, u: nat, k: nat)
    ensures Rotate(Rotate(i, t, k), u, k) == Rotate(i, t + u, k)
  {
    if u > 0 {
      RotateAdds(i, t, u - 1, k);
    }
  }

  lemma {:induction false} RotateCommutes(i: nat, t: nat, u: nat, k: nat)
    ensures Rotate(Rotate(i, t, k), u, k) == Rotate(Rotate(i, u, k), t, k)
  {
    RotateAdds(i, t, u, k);
    RotateAdds(i, u, t, k);
  }

  /** Seat `x` is member `j` of the ring. */
  ghost predicate Member(n: nat, s: set<nat>, x: nat, j: nat)
  {
    j < |Ascending(s, n)| && Ascending(s, n)[j] == x
  }

  lemma {:induction false} StepIsWrap(n: nat, s: set<nat>, x: nat, j: nat)
    requires Ringed(n, s) && Member(n, s, x, j)
    ensures x < n && Member(n, s, Step(n, s, x), Wrap(j, |s|))
  {
    AscendingSize(s, n);
    WalkIsSuccessor(n, s, j);
  }

  lemma {:induction false} ButtonRotates(n: nat, s: set<nat>, last: nat, i: nat, t: nat)
    requires Ringed(n, s) && last < n && Member(n, s, ButtonIn(n, s, last, 0), i)
    ensures Member(n, s, ButtonIn(n, s, last, t), Rotate(i, t, |s|))
  {
    if t > 0 {
      ButtonRotates(n, s, last, i, t - 1);
      StepIsWrap(n, s, ButtonIn(n, s, last, t - 1), Rotate(i, t - 1, |s|));
    }
  }

  function Ahead(s: set<nat>): nat
  {
    if |s| == 2 then 1 else 2
  }

  lemma {:induction false} BigBlindRotates(n: nat, s: set<nat>, last: nat, i: nat, t: nat)
    requires Ringed(n, s) && last < n && Member(n, s, ButtonIn(n, s, last, 0), i)
    ensures Member(n, s, BigBlindIn(n, s, last, t), Rotate(Rotate(i, Ahead(s), |s|), t, |s|))
  {
    var b, j := ButtonIn(n, s, last, t), Rotate(i, t, |s|);
    ButtonRotates(n, s, last, i, t);
    StepIsWrap(n, s, b, j);
    StepIsWrap(n, s, Step(n, s, b), Wrap(j, |s|));
    assert Rotate(j, 1, |s|) == Wrap(Rotate(j, 0, |s|), |s|);
    assert Rotate(j, 2, |s|) == Wrap(Rotate(j, 1, |s|), |s|);
    RotateCommutes(i, t, Ahead(s), |s|);
  }

  lemma {:induction false} MembersDiffer(n: nat, s: set<nat>, x: nat, i: nat, j: nat)
    requires Member(n, s, x, i)
    ensures Member(n, s, x, j) <==> i == j
  {
  }

  /** Any `k` hands in a row give each of the `k` seats the button exactly once ... */
  lemma {:induction false} ButtonVisitsOnce(n: nat, s: set<nat>, last: nat, x: nat) returns (t: nat)
    requires Ringed(n, s) && last < n && x in s
    ensures t < |s| && ButtonIn(n, s, last, t) == x
    ensures forall u: nat :: u < |s| && ButtonIn(n, s, last, u) == x ==> u == t
  {
    AscendingSize(s, n);
    var i := AscendingFinds(s, n, ButtonIn(n, s, last, 0));
    var j := AscendingFinds(s, n, x);
    VisitsOnce(i, j, |s|);
    t :| 0 <= t < |s| && Rotate(i, t, |s|) == j;
    forall u: nat | u < |s|
      ensures ButtonIn(n, s, last, u) == x <==> Rotate(i, u, |s|) == j
    {
      ButtonRotates(n, s, last, i, u);
      MembersDiffer(n, s, x, j, Rotate(i, u, |s|));
    }
  }

  /** ... and the big blind exactly once. */
  lemma {:induction false} BigBlindVisitsOnce(n: nat, s: set<nat>, last: nat, x: nat) returns (t: nat)
    requires Ringed(n, s) && last < n && x in s
    ensures t < |s| && BigBlindIn(n, s, last, t) == x
    ensures forall u: nat :: u < |s| && BigBlindIn(n, s, last, u) == x ==> u == t
  {
    AscendingSize(s, n);
    var i := AscendingFinds(s, n, ButtonIn(n, s, last, 0));
    var j := AscendingFinds(s, n, x);
    var first := Rotate(i, Ahead(s), |s|);
    RotateInRange(i, Ahead(s), |s|);
    VisitsOnce(first, j, |s|);
    t :| 0 <= t < |s| && Rotate(first, t, |s|) == j;
    forall u: nat | u < |s|
      ensures BigBlindIn(n, s, last, u) == x <==> Rotate(first, u, |s|) == j
    {
      BigBlindRotates(n, s, last, i, u);
      MembersDiffer(n, s, x, j, Rotate(first, u, |s|));
    }
  }

  // ----- Consecutive hands -----

  /** Hand `t` is dealt from `tables[t]` to the seats `s`, and leaves its button for hand `t + 1`. */
  ghost predicate HandAt(tables: seq<State>, n: nat, s: set<nat>, t: nat)
    requires t < |tables|
  {
    var st := tables[t];
    && |st.seats| == n && st.button < n && VacantSitOut(st.seats) && EligibleSet(st.seats) == s && |s| >= 2
    && (t + 1 < |tables| ==> tables[t + 1].button == HandPositions(st.seats, st.button).button)
  }

  ghost predicate SameSeatsDealt(tables: seq<State>, n: nat, s: set<nat>)
  {
    |tables| > 0 && forall t: nat :: t < |tables| ==> HandAt(tables, n, s, t)
  }

  lemma {:induction false} PositionsWalk(st: State, n: nat, s: set<nat>)
    requires |st.seats| == n && st.button < n && VacantSitOut(st.seats) && EligibleSet(st.seats) == s && |s| >= 2
    ensures Ringed(n, s)
    ensures HandPositions(st.seats, st.button).button == ButtonIn(n, s, st.button, 0)
    ensures HandPositions(st.seats, st.button).bb == BigBlindIn(n, s, st.button, 0)
  {
    ButtonSetIsEligible(st.seats);
  }

  /** Hand `t` has the button and big blind of the walk. */
  lemma {:induction false} HandsFollowTheWalk(tables: seq<State>, n: nat, s: set<nat>, t: nat)
    requires SameSeatsDealt(tables, n, s) && t < |tables|
    ensures Ringed(n, s) && HandAt(tables, n, s, t) && tables[0].button < n
    ensures HandPositions(tables[t].seats, tables[t].button).button == ButtonIn(n, s, tables[0].button, t)
    ensures HandPositions(tables[t].seats, tables[t].button).bb == BigBlindIn(n, s, tables[0].button, t)
  {
    assert HandAt(tables, n, s, t);
    PositionsWalk(tables[t], n, s);
    if t > 0 {
      LastButton(tables, n, s, t);
      WalkShifts(n, s, tables[0].button, tables[t].button, t);
    }
  }

  lemma {:induction false} LastButton(tables: seq<State>, n: nat, s: set<nat>, t: nat)
    requires SameSeatsDealt(tables, n, s) && 0 < t < |tables|
    ensures Ringed(n, s) && tables[0].button < n && tables[t].button == ButtonIn(n, s, tables[0].button, t - 1)
  {
    ButtonPassed(tables, n, s, t - 1);
    if t > 1 {
      LastButton(tables, n, s, t - 1);
      WalkShifts(n, s, tables[0].button, tables[t - 1].button, t - 1);
    }
  }

  lemma {:induction false} ButtonPassed(tables: seq<State>, n: nat, s: set<nat>, t: nat)
    requires SameSeatsDealt(tables, n, s) && t + 1 < |tables|
    ensures Ringed(n, s) && tables[t].button < n && tables[t + 1].button == ButtonIn(n, s, tables[t].button, 0)
  {
    assert HandAt(tables, n, s, t);
    PositionsWalk(tables[t], n, s);
  }

  lemma {:induction false} WalkShifts(n: nat, s: set<nat>, last: nat, prev: nat, t: nat)
    requires Ringed(n, s) && last < n && t > 0 && prev == ButtonIn(n, s, last, t - 1)
    ensures ButtonIn(n, s, prev, 0) == ButtonIn(n, s, last, t)
    ensures BigBlindIn(n, s, prev, 0) == BigBlindIn(n, s, last, t)
  {
  }

  /** With `k` seats dealt in, seat `x` has the button in exactly one of `k` such hands ... */
  lemma {:induction false} ButtonOncePerRound(tables: seq<State>, n: nat, s: set<nat>, x: nat) returns (t: nat)
    requires SameSeatsDealt(tables, n, s) && |tables| == |s| && x in s
    ensures t < |tables| && HandAt(tables, n, s, t) && HandPositions(tables[t].seats, tables[t].button).button == x
    ensures forall u: nat :: u < |tables| && HandAt(tables, n, s, u) && u != t
                             ==> HandPositions(tables[u].seats, tables[u].button).button != x
  {
    HandsFollowTheWalk(tables, n, s, 0);
    t := ButtonVisitsOnce(n, s, tables[0].button, x);
    forall u: nat | u < |tables|
      ensures HandAt(tables, n, s, u)
      ensures HandPositions(tables[u].seats, tables[u].button).button == ButtonIn(n, s, tables[0].button, u)
    {
      HandsFollowTheWalk(tables, n, s, u);
    }
  }

  /** ... and the big blind in exactly one. */
  lemma {:induction false} BigBlindOncePerRound(tables: seq<State>, n: nat, s: set<nat>, x: nat) returns (t: nat)
    requires SameSeatsDealt(tables, n, s) && |tables| == |s| && x in s
    ensures t < |tables| && HandAt(tables, n, s, t) && HandPositions(tables[t].seats, tables[t].button).bb == x
    ensures forall u: nat :: u < |tables| && HandAt(tables, n, s, u) && u != t
                             ==> HandPositions(tables[u].seats, tables[u].button).bb != x
  {
    HandsFollowTheWalk(tables, n, s, 0);
    t := BigBlindVisitsOnce(n, s, tables[0].button, x);
    forall u: nat | u < |tables|
      ensures HandAt(tables, n, s, u)
      ensures HandPositions(tables[u].seats, tables[u].button).bb == BigBlindIn(n, s, tables[0].button, u)
    {
      HandsFollowTheWalk(tables, n, s, u);
    }
  }

  // ----- Where button and blinds are -----

  /** Member `x` of `s` is nearest clockwise of `from`; `from` itself is a full round away. */
  ghost predicate NearestAfter(n: nat, from: nat, s: set<nat>, x: nat)
  {
    x in s && forall y :: y in s ==> Clockwise(n, from, x) <= Clockwise(n, from, y)
  }

  lemma {:induction false} WalkIsNearest(n: nat, from: nat, s: set<nat>)
    requires from < n && s != {} && forall y :: y in s ==> y < n
    ensures NextSeat(n, from, s).Some? && NearestAfter(n, from, s, NextSeat(n, from, s).value)
  {
    var x :| x in s;
    forall y | y in s
      ensures NextSeat(n, from, s).Some? && NextSeat(n, from, s).value in s
      ensures Clockwise(n, from, NextSeat(n, from, s).value) <= Clockwise(n, from, y)
    {
      NextSeatIsNearest(n, from, s, y);
    }
  }

  /** The button goes to the nearest player clockwise of the last one; the small blind is the nearest player clockwise
      of the button, or with two players the button itself; the big blind is the nearest clockwise of the small. */
  lemma {:induction false} PositionsAreClockwise(seats: seq<Seat>, lastButton: nat)
    requires lastButton < |seats| && VacantSitOut(seats) && |EligibleSet(seats)| >= 2
    ensures var n, all, pos := |seats|, EligibleSet(seats), HandPositions(seats, lastButton);
            && NearestAfter(n, lastButton, all, pos.button)
            && (if |all| == 2 then pos.sb == pos.button else NearestAfter(n, pos.button, all, pos.sb))
            && NearestAfter(n, pos.sb, all, pos.bb)
  {
    var n, all, pos := |seats|, EligibleSet(seats), HandPositions(seats, lastButton);
    ButtonSetIsEligible(seats);
    WalkIsNearest(n, lastButton, all);
    WalkIsNearest(n, pos.button, all);
    WalkIsNearest(n, pos.sb, all);
  }
}
