/** Along runs nobody changes seats, sits out or comes back, and the session's rake never shrinks. */
module Players {
  import opened Prelude
  import opened Cards
  import opened Settlement
  import opened Table
  import opened Holdem
  import opened Invariant
  import opened Runs

  ghost predicate SameNames(a: seq<Seat>, b: seq<Seat>)
  {
    |a| == |b| && forall i :: 0 <= i < |a| ==> b[i].playerId == a[i].playerId && b[i].sitOut == a[i].sitOut
  }

  ghost predicate Onward(s: State, t: State)
  {
    SameNames(s.seats, t.seats) && t.sessionRake >= s.sessionRake
  }

  lemma {:induction false} SettleOnward(st: State)
    requires st.button < |st.seats|
    ensures Onward(st, Settle(st))
  {
  }

  lemma {:induction false} FoldWinOnward(st: State)
    ensures Onward(st, FoldWin(st))
  {
  }

  lemma {:induction false} DealOnward(st: State)
    requires WellFormed(st) && NextDeal(|st.board|) > 0
    ensures Onward(st, DealStreet(st))
  {
  }

  lemma {:induction false} ProceedOnward(st: State)
    requires WellFormed(st)
    ensures Onward(st, MaybeRunout(st))
  {
    if |LiveSet(st.seats)| == 1 {
      FoldWinOnward(st);
    } else if NextDeal(|st.board|) > 0 {
      DealOnward(st);
    } else {
      SettleOnward(st);
    }
  }

  lemma {:induction false} RunoutOnward(st: State)
    requires WellFormed(st)
    ensures Onward(st, ContinueRunout(st))
  {
    var s0 := st.(acting := None);
    if |LiveSet(st.seats)| == 1 {
      FoldWinOnward(s0);
    } else if NextDeal(|st.board|) > 0 {
      DealOnward(s0);
    } else {
      SettleOnward(s0);
    }
  }

  lemma {:induction false} WagerOnward(st: State, a: nat, action: Action, bounds: Bounds, amount: Option<int>)
    requires a < |st.seats|
    ensures Onward(st, Wager(st, a, action, bounds, amount))
  {
  }

  lemma {:induction false} AdvanceOnward(st: State, a: nat)
    requires WellFormed(st)
    ensures Onward(st, Advance(st, a))
  {
    if StreetComplete(st) && st.street == River {
      SettleOnward(st);
    } else {
      ProceedOnward(st.(acting := None));
    }
  }

  lemma {:induction false} PlayOnward(s: State, t: State, action: Action, amount: Option<int>)
    requires Plays(s, t, action, amount)
    ensures Onward(s, t)
  {
    LegalMovesAreAccepted(s, action, amount);
    ApplyUnfolds(s, action, amount);
    var a, bounds := s.acting.value, LegalActions(s)[action];
    var next := Wager(s, a, action, bounds, amount);
    WagerOnward(s, a, action, bounds, amount);
    AdvanceOnward(next, a);
  }

  lemma {:induction false} NamesDealt(seats: seq<Seat>, config: Config, pos: Positions, deck: seq<Card>)
    requires pos.sb < |seats| && pos.bb < |seats| && 2 * |seats| <= |deck|
    ensures SameNames(seats, DealtSeats(PostBlinds(FreshSeats(seats), config, pos), deck))
  {
  }

  lemma {:induction false} DealHandOnward(s: State, t: State, deck: seq<Card>)
    requires Deals(s, t, deck)
    ensures Onward(s, t)
  {
    NamesDealt(s.seats, s.config, HandPositions(s.seats, s.button), deck);
  }

  lemma {:induction false} NextOnward(s: State, t: State)
    requires Next(s, t)
    ensures Onward(s, t)
  {
    if RunsOut(s, t) {
      RunoutOnward(s);
    } else if deck :| Deals(s, t, deck) {
      DealHandOnward(s, t, deck);
    } else {
      var action, amount :| Plays(s, t, action, amount);
      PlayOnward(s, t, action, amount);
    }
  }

  /** Every player is where the run began, dealt in or not as then, and rake has only been added. */
  lemma {:induction false} PlayersStay(trace: seq<State>, j: nat, k: nat)
    requires Run(trace) && j <= k < |trace|
    ensures Onward(trace[j], trace[k])
  {
    if k > j {
      PlayersStay(trace, j, k - 1);
      StepOnward(trace, k - 1);
      OnwardTwice(trace[j], trace[k - 1], trace[k]);
    }
  }

  lemma {:induction false} StepOnward(trace: seq<State>, k: nat)
    requires Run(trace) && k + 1 < |trace|
    ensures Onward(trace[k], trace[k + 1])
  {
    assert StepAt(trace, k);
    NextOnward(trace[k], trace[k + 1]);
  }

  lemma {:induction false} OnwardTwice(s: State, t: State, u: State)
    requires Onward(s, t) && Onward(t, u)
    ensures Onward(s, u)
  {
  }
}
