/** What players are offered and how the turn passes (packages/game-rules/src/holdem.ts, lines 424-456 and 878-995). */
module Betting {
  import opened Prelude
  import opened Ring
  import opened Table
  import opened Holdem
  import opened Invariant
  import opened Runs

  /** Exactly which actions are on offer. */
  lemma {:induction false} OptionsAreExact(st: State)
    requires InHand(st) && st.acting.Some? && Active(st.seats[st.acting.value])
    ensures var legal, seat := LegalActions(st), st.seats[st.acting.value];
            var owed, free := st.currentBet - seat.bet, !IsCapped(st, st.acting.value);
            && (Fold in legal <==> owed > 0)
            && (Check in legal <==> owed == 0)
            && (Call in legal <==> 0 < owed <= seat.stack)
            && (Bet in legal <==> owed == 0 && free)
            && (Raise in legal <==> 0 < owed < seat.stack && free)
            && (AllIn in legal <==> seat.stack <= owed || free)
  {
    var seat := st.seats[st.acting.value];
    assert SeatOk(seat, st.currentBet);
  }

  /** The smallest bet is a big blind, the smallest raise lifts the bet by the minimum raise, or either is
      all the stack allows; nothing smaller is accepted. */
  lemma {:induction false} SmallestBetAndRaise(st: State, action: Action, amount: int)
    requires InHand(st) && st.acting.Some? && (action == Bet || action == Raise) && action in LegalActions(st)
    ensures var seat := st.seats[st.acting.value];
            var wanted := if action == Bet then seat.bet + st.config.bigBlind else st.currentBet + st.minRaise;
            var least := Min(wanted, seat.bet + seat.stack);
            && AfterWager(st, action, None).currentBet == least
            && (LegalMove(st, action, Some(amount)) <==> least <= seat.bet + amount <= seat.bet + seat.stack)
            && (LegalMove(st, action, Some(amount))
              ==> AfterWager(st, action, Some(amount)).currentBet == seat.bet + amount)
  {
    BoundsAreSound(st, action);
  }

  /** An action moves the acting seat's chips into the pot and touches no other seat. */
  lemma {:induction false} OnlyTheActorMoves(st: State, action: Action, amount: Option<int>, i: nat)
    requires InHand(st) && LegalMove(st, action, amount) && i < |st.seats|
    ensures var next, a := AfterWager(st, action, amount), st.acting.value;
            && (i != a ==> next.seats[i] == st.seats[i])
            && next.pot - st.pot == st.seats[a].stack - next.seats[a].stack == next.seats[a].bet - st.seats[a].bet >= 0
            && (action == Call ==> next.seats[a].bet == st.currentBet)
            && (action == AllIn ==> next.seats[a].stack == 0)
            && (next.seats[a].folded <==> action == Fold)
  {
    BoundsAreSound(st, action);
  }

  // ----- Seats that do not act -----

  /** It is not for seat `i` to move. */
  predicate Waits(st: State, i: nat)
  {
    st.acting == Some(i) && i < |st.seats| ==> LegalActions(st) == map[]
  }

  /** The same seat with the same cards and chips; only its bet of the street may have been cleared. */
  ghost predicate Untouched(before: Seat, after: Seat)
  {
    after == before || after == before.(bet := 0)
  }

  lemma {:induction false} DealLeavesSeats(st: State, i: nat)
    requires WellFormed(st) && i < |st.seats| && NextDeal(|st.board|) > 0
    ensures |DealStreet(st).seats| == |st.seats| && Untouched(st.seats[i], DealStreet(st).seats[i])
  {
  }

  lemma {:induction false} AdvanceLeavesSeats(st: State, a: nat, i: nat)
    requires WellFormed(st) && i < |st.seats| && InHandStreet(Advance(st, a).street)
    ensures |Advance(st, a).seats| == |st.seats| && Untouched(st.seats[i], Advance(st, a).seats[i])
  {
    var waiting := st.(acting := None);
    if InHandStreet(MaybeRunout(waiting).street) {
      ProceedLeavesSeats(waiting, i);
    }
  }

  lemma {:induction false} ProceedLeavesSeats(st: State, i: nat)
    requires WellFormed(st) && i < |st.seats| && InHandStreet(MaybeRunout(st).street)
    ensures |MaybeRunout(st).seats| == |st.seats| && Untouched(st.seats[i], MaybeRunout(st).seats[i])
  {
    if NextDeal(|st.board|) > 0 {
      DealLeavesSeats(st, i);
    }
  }

  lemma {:induction false} RunoutLeavesSeats(st: State, i: nat)
    requires WellFormed(st) && i < |st.seats| && InHandStreet(ContinueRunout(st).street)
    ensures |ContinueRunout(st).seats| == |st.seats| && Untouched(st.seats[i], ContinueRunout(st).seats[i])
  {
    if NextDeal(|st.board|) > 0 {
      DealLeavesSeats(st.(acting := None), i);
    }
  }

  lemma {:induction false} StepLeavesSeats(s: State, t: State, i: nat)
    requires InHand(s) && InHand(t) && Next(s, t) && i < |s.seats| && Waits(s, i)
    ensures |t.seats| == |s.seats| && Untouched(s.seats[i], t.seats[i])
  {
    if RunsOut(s, t) {
      RunoutLeavesSeats(s, i);
    } else {
      var action, amount :| Plays(s, t, action, amount);
      LegalMovesAreAccepted(s, action, amount);
      OnlyTheActorMoves(s, action, amount, i);
      WagerActs(s, action, amount);
      ApplyUnfolds(s, action, amount);
      AdvanceLeavesSeats(AfterWager(s, action, amount), s.acting.value, i);
    }
  }

  ghost predicate WaitsAt(trace: seq<State>, j: nat, i: nat)
    requires j < |trace|
  {
    Waits(trace[j], i)
  }

  lemma {:induction false} IdleStep(trace: seq<State>, k: nat, i: nat)
    requires HandRun(trace) && k + 1 < |trace| && WaitsAt(trace, k, i) && i < |trace[k].seats|
    ensures |trace[k + 1].seats| == |trace[k].seats| && Untouched(trace[k].seats[i], trace[k + 1].seats[i])
  {
    assert StepAt(trace, k) && InHandAt(trace, k) && InHandAt(trace, k + 1);
    StepLeavesSeats(trace[k], trace[k + 1], i);
  }

  /** Chips move only by acting: over any stretch of a hand in which a seat never moves, whatever the others do,
      its cards, stack and stake stay what they were. */
  lemma {:induction false} IdleSeatsKeepTheirChips(trace: seq<State>, k: nat, i: nat)
    requires HandRun(trace) && k < |trace| && i < |trace[0].seats|
    requires forall j: nat :: j < k ==> WaitsAt(trace, j, i)
    ensures |trace[k].seats| == |trace[0].seats| && Untouched(trace[0].seats[i], trace[k].seats[i])
  {
    if k > 0 {
      IdleSeatsKeepTheirChips(trace, k - 1, i);
      assert WaitsAt(trace, k - 1, i);
      IdleStep(trace, k - 1, i);
    }
  }

  /** The turn stays on the street exactly while two players are live and one of them owes chips or has not
      acted; it then goes to the nearest such seat clockwise, everything else being as the action left it. */
  lemma {:induction false} TurnGoesClockwise(s: State, t: State, action: Action, amount: Option<int>)
    requires InHand(s) && Plays(s, t, action, amount)
    ensures LegalMove(s, action, amount)
    ensures var next, a := AfterWager(s, action, amount), s.acting.value;
            if |LiveSet(next.seats)| >= 2 && ToAct(next) != {}
            then t == next.(acting := NextSeat(|next.seats|, a, ToAct(next))) && t.acting.Some?
              && t.acting.value in ToAct(next)
            else t.street != s.street || (t == next.(acting := None) && |ActiveSet(next.seats)| <= 1)
  {
    LegalMovesAreAccepted(s, action, amount);
    var next, a := AfterWager(s, action, amount), s.acting.value;
    WagerActs(s, action, amount);
    ApplyUnfolds(s, action, amount);
    CompleteIff(next);
    if |LiveSet(next.seats)| >= 2 && ToAct(next) != {} {
      SomebodyIsToAct(next, a);
    } else {
      assert LiveSet(next.seats) != {} by {
        assert |LiveSet(s.seats) - {a}| >= 1;
      }
      StreetMovesOn(next, a);
    }
  }

  lemma {:induction false} CompleteIff(st: State)
    requires Core(st)
    ensures StreetComplete(st) <==> !(|LiveSet(st.seats)| >= 2 && ToAct(st) != {})
  {
    forall i | i in ActiveSet(st.seats)
      ensures st.seats[i].bet <= st.currentBet
    {
      assert SeatOk(st.seats[i], st.currentBet);
    }
    if i :| i in ToAct(st) {
      assert i in ActiveSet(st.seats);
    }
    if i :| i in ActiveSet(st.seats) && (st.seats[i].bet != st.currentBet || i !in st.acted) {
      assert i in ToAct(st);
    }
  }

  lemma {:induction false} StreetMovesOn(st: State, a: nat)
    requires Core(st) && WellFormed(st) && StreetComplete(st) && LiveSet(st.seats) != {} && a < |st.seats|
    ensures var r := Advance(st, a);
            r.street != st.street || (r == st.(acting := None) && |ActiveSet(st.seats)| <= 1)
  {
  }
}
