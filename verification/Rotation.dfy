/** How the button and the big blind travel along runs of the engine (packages/game-rules/src/holdem.ts,
    lines 353-405). */
module Rotation {
  import opened Prelude
  import opened Table
  import opened Holdem
  import opened Invariant
  import opened Runs
  import opened Blinds

  // ----- Only a deal moves the button -----

  lemma {:induction false} RunoutKeepsButton(st: State)
    requires WellFormed(st)
    ensures ContinueRunout(st).button == st.button
  {
  }

  lemma {:induction false} AdvanceKeepsButton(st: State, a: nat)
    requires WellFormed(st)
    ensures Advance(st, a).button == st.button
  {
  }

  lemma {:induction false} HandKeepsButton(s: State, t: State)
    requires InHandStreet(s.street) && Next(s, t)
    ensures t.button == s.button
  {
    if RunsOut(s, t) {
      RunoutKeepsButton(s);
    } else {
      var action, amount :| Plays(s, t, action, amount);
      LegalMovesAreAccepted(s, action, amount);
      ApplyUnfolds(s, action, amount);
      AdvanceKeepsButton(AfterWager(s, action, amount), s.acting.value);
    }
  }

  lemma {:induction false} DealMovesButton(s: State, t: State)
    requires !InHandStreet(s.street) && Next(s, t)
    ensures s.button < |s.seats| && VacantSitOut(s.seats) && |EligibleSet(s.seats)| >= 2
    ensures var pos := HandPositions(s.seats, s.button); t.button == pos.button && t.lastAggressor == Some(pos.bb)
  {
    var deck :| Deals(s, t, deck);
  }

  // ----- Consecutive hands of a run -----

  /** Hand `t` is dealt at step `at[t]`, and the next one after it at step `at[t + 1]`. */
  ghost predicate DealAt(trace: seq<State>, at: seq<nat>, t: nat)
    requires t < |at|
  {
    && at[t] + 1 < |trace| && !InHandStreet(trace[at[t]].street)
    && (t + 1 < |at| ==>
          at[t] < at[t + 1] < |trace| && forall i :: at[t] < i < at[t + 1] ==> InHandStreet(trace[i].street))
  }

  /** Consecutive hands of a run, all dealt to the seats `s`. */
  ghost predicate HandsInARow(trace: seq<State>, at: seq<nat>, s: set<nat>)
  {
    && Run(trace) && |at| > 0
    && (forall t: nat :: t < |at| ==> DealAt(trace, at, t))
    && (forall t: nat :: t < |at| && DealAt(trace, at, t) ==> EligibleSet(trace[at[t]].seats) == s)
  }

  lemma {:induction false} StepKeepsButton(trace: seq<State>, i: nat)
    requires Run(trace) && i + 1 < |trace| && InHandStreet(trace[i].street)
    ensures trace[i + 1].button == trace[i].button
  {
    assert StepAt(trace, i);
    HandKeepsButton(trace[i], trace[i + 1]);
  }

  lemma {:induction false} ButtonCarries(trace: seq<State>, i: nat, j: nat)
    requires Run(trace) && i <= j < |trace| && forall k :: i <= k < j ==> InHandStreet(trace[k].street)
    ensures trace[j].button == trace[i].button
  {
    if i < j {
      ButtonCarries(trace, i, j - 1);
      StepKeepsButton(trace, j - 1);
    }
  }

  /** What the deals start from. */
  function Tables(trace: seq<State>, at: seq<nat>): (r: seq<State>)
    requires forall t :: 0 <= t < |at| ==> at[t] < |trace|
    ensures |r| == |at| && forall t :: 0 <= t < |at| ==> r[t] == trace[at[t]]
  {
    seq(|at|, t requires 0 <= t < |at| => trace[at[t]])
  }

  /** The hand dealt at step `i` has the button and the big blind its table calls for. */
  lemma {:induction false} DealtPositions(trace: seq<State>, i: nat)
    requires Run(trace) && i + 1 < |trace| && !InHandStreet(trace[i].street)
    ensures var st := trace[i];
            && st.button < |st.seats| && VacantSitOut(st.seats) && |EligibleSet(st.seats)| >= 2
            && trace[i + 1].button == HandPositions(st.seats, st.button).button
            && trace[i + 1].lastAggressor == Some(HandPositions(st.seats, st.button).bb)
  {
    assert StepAt(trace, i);
    DealMovesButton(trace[i], trace[i + 1]);
  }

  lemma {:induction false} TableIsHand(trace: seq<State>, at: seq<nat>, s: set<nat>, n: nat, t: nat)
    requires HandsInARow(trace, at, s) && t < |at| && Resting(trace[0]) && n == |trace[0].seats|
    ensures forall u :: 0 <= u < |at| ==> at[u] < |trace|
    ensures HandAt(Tables(trace, at), n, s, t)
  {
    forall u: nat | u < |at|
      ensures at[u] < |trace|
    {
      assert DealAt(trace, at, u);
    }
    assert DealAt(trace, at, t);
    DealtPositions(trace, at[t]);
    RunKeeps(trace, at[t]);
    if t + 1 < |at| {
      ButtonCarries(trace, at[t] + 1, at[t + 1]);
    }
  }

  lemma {:induction false} TablesInARow(trace: seq<State>, at: seq<nat>, s: set<nat>)
    requires HandsInARow(trace, at, s) && Resting(trace[0])
    ensures forall t :: 0 <= t < |at| ==> at[t] + 1 < |trace|
    ensures SameSeatsDealt(Tables(trace, at), |trace[0].seats|, s)
  {
    forall t: nat | t < |at|
      ensures at[t] + 1 < |trace|
      ensures HandAt(Tables(trace, at), |trace[0].seats|, s, t)
    {
      assert DealAt(trace, at, t);
      TableIsHand(trace, at, s, |trace[0].seats|, t);
    }
  }

  lemma {:induction false} HandPositionsAt(trace: seq<State>, at: seq<nat>, s: set<nat>, t: nat)
    requires HandsInARow(trace, at, s) && Resting(trace[0]) && t < |at|
    ensures at[t] + 1 < |trace| && HandAt(Tables(trace, at), |trace[0].seats|, s, t)
    ensures var st := Tables(trace, at)[t];
            && trace[at[t] + 1].button == HandPositions(st.seats, st.button).button
            && trace[at[t] + 1].lastAggressor == Some(HandPositions(st.seats, st.button).bb)
  {
    TablesInARow(trace, at, s);
    assert DealAt(trace, at, t);
    DealtPositions(trace, at[t]);
  }

  /** While `k` seats stay dealt in, any `k` consecutive hands of a run give seat `x` the button in exactly one ... */
  lemma {:induction false} EachSeatGetsTheButtonOnce(trace: seq<State>, at: seq<nat>, s: set<nat>, x: nat)
      returns (t: nat)
    requires HandsInARow(trace, at, s) && Resting(trace[0]) && |at| == |s| && x in s
    ensures t < |at| && at[t] + 1 < |trace| && trace[at[t] + 1].button == x
    ensures forall u: nat :: u < |at| && u != t ==> at[u] + 1 < |trace| && trace[at[u] + 1].button != x
  {
    TablesInARow(trace, at, s);
    t := ButtonOncePerRound(Tables(trace, at), |trace[0].seats|, s, x);
    forall u: nat | u < |at|
      ensures at[u] + 1 < |trace| && (trace[at[u] + 1].button == x <==> u == t)
    {
      HandPositionsAt(trace, at, s, u);
    }
  }

  /** ... and the big blind in exactly one. */
  lemma {:induction false} EachSeatGetsTheBigBlindOnce(trace: seq<State>, at: seq<nat>, s: set<nat>, x: nat)
      returns (t: nat)
    requires HandsInARow(trace, at, s) && Resting(trace[0]) && |at| == |s| && x in s
    ensures t < |at| && at[t] + 1 < |trace| && trace[at[t] + 1].lastAggressor == Some(x)
    ensures forall u: nat :: u < |at| && u != t ==> at[u] + 1 < |trace| && trace[at[u] + 1].lastAggressor != Some(x)
  {
    TablesInARow(trace, at, s);
    t := BigBlindOncePerRound(Tables(trace, at), |trace[0].seats|, s, x);
    forall u: nat | u < |at|
      ensures at[u] + 1 < |trace| && (trace[at[u] + 1].lastAggressor == Some(x) <==> u == t)
    {
      HandPositionsAt(trace, at, s, u);
    }
  }
}
