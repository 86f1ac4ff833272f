/** How a hand is played in the second engine (crates/poker-core/src/engine.rs and legal.rs): dealing, legal
    actions, actions, run-outs and fold-wins as they are written there. Taking chips, the six branches of an
    action and turning cards are statement for statement those of `Engine`. */
module RustMoves {
  import opened Prelude
  import opened Cards
  import opened Ring
  import opened Pots
  import opened Settlement
  import opened Table
  import opened Holdem
  import opened Invariant
  import opened Opening
  import opened RustSettlement
  import opened RustEngine
  import Engine

  // ----- What the operations amount to -----

  function RustSettle(st: State): State
    requires st.button < |st.seats|
  {
    SettleShowdownRust(st.(street := Showdown))
  }

  /** `fold_win`, with this engine's rake. */
  function RustFoldWin(st: State): State
  {
    match FirstStanding(st.seats, 0)
    case None => st.(pot := 0, street := Street.Settlement, acting := None, winners := [])
    case Some(w) =>
      var uncalled := UncalledBet(st.seats, w);
      var eligiblePot := Max(0, st.pot - uncalled);
      var rake := ComputeRakeRust(eligiblePot, st.config.rakeBps, st.config.rakeCap, 1, Some(|st.board| == 0));
      var award := Max(0, eligiblePot - rake);
      var cleared := ResetBets(st.seats);
      st.(seats := cleared[w := cleared[w].(stack := cleared[w].stack + uncalled + award)],
          pot := 0,
          rake := rake,
          sessionRake := st.sessionRake + rake,
          winners := [Award(w, award)],
          street := Street.Settlement,
          acting := None)
  }

  function RustMaybeRunout(st: State): State
    requires WellFormed(st)
  {
    if |LiveSet(st.seats)| == 1 then RustFoldWin(st)
    else if |ActiveSet(st.seats)| > 1 then
      if st.acting.Some? then st
      else if NextDeal(|st.board|) > 0 then DealStreet(st)
      else if st.street == River || |st.board| >= 5 then RustSettle(st)
      else st
    else if |st.board| >= 5 then RustSettle(st)
    else st.(acting := None)
  }

  function RustContinueRunout(st: State): State
    requires WellFormed(st)
  {
    var s0 := st.(acting := None);
    if |LiveSet(st.seats)| == 1 then RustFoldWin(s0)
    else if |LiveSet(st.seats)| < 2 then s0.(street := Street.Settlement, pot := 0)
    else if NextDeal(|st.board|) > 0 then DealStreet(s0).(acting := None)
    else RustSettle(s0)
  }

  function RustAdvance(st: State, a: nat): State
    requires WellFormed(st)
  {
    if StreetComplete(st) then
      if st.street == River then RustSettle(st) else RustMaybeRunout(st.(acting := None))
    else
      var next := NextSeat(|st.seats|, a, ToAct(st));
      if next.None? then RustMaybeRunout(st.(acting := None)) else st.(acting := next)
  }

  function RustApplyAction(st: State, action: Action, amount: Option<int>): Result<State, Error>
    requires WellFormed(st)
  {
    if st.acting.None? then Err(NobodyToAct)
    else
      var legal := LegalActions(st);
      if action !in legal then Err(IllegalAction)
      else if legal[action].Range? && amount.Some?
              && (amount.value < legal[action].min || amount.value > legal[action].max) then Err(IllegalAmount)
      else
        var a := st.acting.value;
        Ok(RustAdvance(Wager(st, a, action, legal[action], amount), a))
  }

  // ----- start_hand -----

  /** With three or more players somebody other than the blinds is left to act first. */
  lemma {:induction false} FirstToActExists(st: State, deck: seq<Card>)
    requires Resting(st) && CanStart(st, deck) && |EligibleSet(st.seats)| > 2
    ensures var pos := HandPositions(st.seats, st.button);
            NextSeat(|st.seats|, pos.bb, ActiveSet(OpeningSeats(st, deck))).Some?
  {
    ThirdPlayerCanAct(st, deck);
    NextSeatFinds(|st.seats|, HandPositions(st.seats, st.button).bb, ActiveSet(OpeningSeats(st, deck)));
  }

  lemma {:induction false} FreshLive(seats: seq<Seat>)
    requires VacantSitOut(seats)
    ensures LiveSet(FreshSeats(seats)) == EligibleSet(seats)
  {
  }

  /** Button and blinds, found by walks over the seats; the two errors for a missing blind never arise. */
  method PickPositions(st: State) returns (pos: Option<Positions>)
    requires st.button < |st.seats| && VacantSitOut(st.seats) && |EligibleSet(st.seats)| >= 2
    ensures pos == Some(HandPositions(st.seats, st.button))
  {
    var n, eligible := |st.seats|, EligibleSet(st.seats);
    ButtonSetIsEligible(st.seats);
    FreshLive(st.seats);
    WalkFinds(n, st.button, eligible);
    var walked := FindNextSeat(n, st.button, ButtonSet(st.seats));
    var button := walked.value;
    var live := LiveSet(FreshSeats(st.seats));
    var headsUp := |eligible| == 2;
    WalkFinds(n, button, eligible);
    var sb := button;
    if !headsUp {
      var next := FindNextSeat(n, button, live);
      if next.None? {
        return None;
      }
      sb := next.value;
    }
    WalkFinds(n, sb, eligible);
    var bb := FindNextSeat(n, if headsUp then button else sb, live);
    if bb.None? {
      return None;
    }
    pos := Some(Positions(button, sb, bb.value, headsUp));
  }

  /** `start_hand`: its errors for a missing blind or first player never arise. */
  method StartHandRust(st: State, deck: seq<Card>) returns (r: Result<State, Error>)
    requires Resting(st) && |deck| == DECK_SIZE
    ensures CanStart(st, deck) && r == StartHand(st, deck)
  {
    if |EligibleSet(st.seats)| < 2 {
      return Err(NeedPlayers);
    }
    var picked := PickPositions(st);
    if picked.None? {
      return Err(NeedPlayers);
    }
    var pos := picked.value;
    var seats, pot := Engine.CollectBlinds(FreshSeats(st.seats), st.config, pos);
    var rest;
    seats, rest := DealHoles(seats, deck);
    var first := Some(pos.sb);
    if !pos.headsUp {
      FirstToActExists(st, deck);
      first := FindNextSeat(|seats|, pos.bb, ActiveSet(seats));
      if first.None? {
        return Err(NeedPlayers);
      }
    }
    r := Dealt(st, deck, pos, seats, pot, rest, first);
  }

  method Dealt(st: State, deck: seq<Card>, pos: Positions, seats: seq<Seat>, pot: int, rest: seq<Card>,
               first: Option<nat>)
    returns (r: Result<State, Error>)
    requires CanStart(st, deck) && |EligibleSet(st.seats)| >= 2 && pos == HandPositions(st.seats, st.button)
    requires var reset := FreshSeats(st.seats);
             var posted := PostBlinds(reset, st.config, pos);
             && seats == DealtSeats(posted, deck) && rest == deck[2 * DealtBefore(posted, |posted|)..]
             && pot == Paid(reset[pos.sb], st.config.smallBlind) + Paid(reset[pos.bb], st.config.bigBlind)
    requires first == if pos.headsUp then Some(pos.sb) else NextSeat(|seats|, pos.bb, ActiveSet(seats))
    ensures r == StartHand(st, deck)
  {
    r := Ok(st.(handNumber := st.handNumber + 1, button := pos.button, deck := rest, board := [],
                pot := pot, street := Preflop, winners := [], rake := 0,
                currentBet := st.config.bigBlind, minRaise := st.config.bigBlind, acted := {},
                lastRaiseComplete := true, lastAggressor := Some(pos.bb), seats := seats,
                acting := first, firstToAct := first));
  }

  // ----- get_legal_actions, street_complete -----

  /** The pushes of `get_legal_actions`, in its order. */
  method GetLegalActions(st: State) returns (legal: map<Action, Bounds>)
    requires st.acting.Some? ==> st.acting.value < |st.seats|
    ensures legal == LegalActions(st)
  {
    legal := map[];
    if st.acting.None? {
      return;
    }
    var seat := st.seats[st.acting.value];
    if seat.folded || seat.allIn {
      return;
    }
    var toCall := st.currentBet - seat.bet;
    var capped := !st.lastRaiseComplete && st.acting.value in st.acted;
    if toCall <= 0 {
      legal := legal[Check := NoAmount];
      if seat.stack > 0 && !capped {
        legal := legal[Bet := Range(Min(st.config.bigBlind, seat.stack), seat.stack)];
        legal := legal[AllIn := Range(seat.stack, seat.stack)];
      }
    } else {
      legal := legal[Fold := NoAmount];
      if seat.stack > toCall {
        legal := legal[Call := Range(toCall, toCall)];
        if !capped {
          legal := legal[Raise := Range(Min(st.currentBet + st.minRaise - seat.bet, seat.stack), seat.stack)];
          legal := legal[AllIn := Range(seat.stack, seat.stack)];
        }
      } else {
        legal := legal[AllIn := Range(seat.stack, seat.stack)];
        if seat.stack == toCall {
          legal := legal[Call := Range(toCall, toCall)];
        }
      }
    }
  }

  /** `street_complete`: the two scans over the active seats. */
  method StreetIsComplete(st: State) returns (complete: bool)
    ensures complete == StreetComplete(st)
  {
    if |LiveSet(st.seats)| <= 1 {
      return true;
    }
    var active := ActiveSet(st.seats);
    if active == {} {
      return true;
    }
    for i := 0 to |st.seats|
      invariant forall j: nat :: j < i && j in active ==> st.seats[j].bet == st.currentBet
    {
      if i in active && st.seats[i].bet != st.currentBet {
        return false;
      }
    }
    for i := 0 to |st.seats|
      invariant forall j: nat :: j < i && j in active ==> j in st.acted
    {
      if i in active && i !in st.acted {
        return false;
      }
    }
    complete := true;
  }

  // ----- fold_win, maybe_runout, continue_runout -----

  /** The first seat still standing. */
  method FindStanding(seats: seq<Seat>) returns (w: Option<nat>)
    ensures w == FirstStanding(seats, 0)
  {
    var i := 0;
    while i < |seats|
      invariant 0 <= i <= |seats|
      invariant FirstStanding(seats, i) == FirstStanding(seats, 0)
    {
      if !seats[i].folded && seats[i].playerId != "" && !seats[i].sitOut {
        return Some(i);
      }
      i := i + 1;
    }
    w := None;
  }

  method FoldWinRust(st: State) returns (r: State)
    ensures r == RustFoldWin(st)
  {
    var w := FindStanding(st.seats);
    if w.None? {
      return st.(pot := 0, street := Street.Settlement, acting := None, winners := []);
    }
    var uncalled := UncalledBetAmount(st.seats, w.value);
    var eligiblePot := Max(0, st.pot - uncalled);
    var rake := ComputeRakeRust(eligiblePot, st.config.rakeBps, st.config.rakeCap, 1, Some(|st.board| == 0));
    var award := Max(0, eligiblePot - rake);
    var seats := PaySurvivor(st.seats, w.value, uncalled + award);
    r := st.(seats := seats, pot := 0, rake := rake, sessionRake := st.sessionRake + rake,
             winners := [Award(w.value, award)], street := Street.Settlement, acting := None);
  }

  /** The mapping over the seats: the winner is paid, everybody's bet is cleared. */
  method PaySurvivor(seats: seq<Seat>, w: nat, amount: int) returns (r: seq<Seat>)
    requires w < |seats|
    ensures var cleared := ResetBets(seats); r == cleared[w := cleared[w].(stack := cleared[w].stack + amount)]
  {
    r := seats;
    for i := 0 to |seats|
      invariant |r| == |seats|
      invariant forall j :: 0 <= j < i ==>
                  r[j] == seats[j].(stack := seats[j].stack + (if j == w then amount else 0), bet := 0)
      invariant forall j :: i <= j < |seats| ==> r[j] == seats[j]
    {
      if i == w {
        r := r[i := r[i].(stack := r[i].stack + amount)];
      }
      r := r[i := r[i].(bet := 0)];
    }
  }

  /** A hand that can be shown down. */
  ghost predicate Showable(st: State)
  {
    Core(st) && WellFormed(st) && (st.street == River ==> LiveSet(st.seats) != {})
  }

  lemma {:induction false} ShowablePays(st: State)
    requires Showable(st) && st.street == River
    ensures Payable(st.(street := Showdown), RustPots(st.seats)) && CapOk(st.config)
  {
    SomeLiveStake(st);
    assert ReadyToSettle(st.(street := Showdown));
    RustLayersPay(st.(street := Showdown));
  }

  method ShowDown(st: State) returns (r: State)
    requires Showable(st) && st.street == River
    ensures r == RustSettle(st)
  {
    ShowablePays(st);
    r := RustSettlement.SettleShowdown(st.(street := Showdown));
  }

  method MaybeRunoutRust(st: State) returns (r: State)
    requires Showable(st)
    ensures r == RustMaybeRunout(st)
  {
    if |LiveSet(st.seats)| == 1 {
      r := FoldWinRust(st);
      return;
    }
    var auto := |ActiveSet(st.seats)| <= 1;
    if !auto {
      if st.acting.Some? {
        return st;
      }
      if NextDeal(|st.board|) > 0 {
        r := Engine.DealNext(st);
      } else if st.street == River || |st.board| >= 5 {
        r := ShowDown(st);
      } else {
        r := st;
      }
    } else if |st.board| >= 5 {
      r := ShowDown(st);
    } else {
      r := st.(acting := None);
    }
  }

  method ContinueRunoutRust(st: State) returns (r: State)
    requires Showable(st)
    ensures r == RustContinueRunout(st)
  {
    var s0 := st.(acting := None);
    if |LiveSet(s0.seats)| == 1 {
      r := FoldWinRust(s0);
      return;
    }
    if |LiveSet(s0.seats)| < 2 {
      return s0.(street := Street.Settlement, pot := 0);
    }
    if NextDeal(|s0.board|) > 0 {
      r := Engine.DealNext(s0);
      r := r.(acting := None);
    } else {
      r := ShowDown(s0);
    }
  }

  // ----- apply_action -----

  method PassTurnRust(st: State, a: nat) returns (r: State)
    requires Showable(st)
    ensures r == RustAdvance(st, a)
  {
    var complete := StreetIsComplete(st);
    if complete {
      if st.street == River {
        r := ShowDown(st);
      } else {
        r := MaybeRunoutRust(st.(acting := None));
      }
      return;
    }
    var n := FindNextSeat(|st.seats|, a, ToAct(st));
    if n.None? {
      r := MaybeRunoutRust(st.(acting := None));
    } else {
      r := st.(acting := n);
    }
  }

  lemma {:induction false} WagerShowable(st: State, action: Action, amount: Option<int>)
    requires InHand(st) && LegalMove(st, action, amount)
    ensures Showable(AfterWager(st, action, amount))
  {
    WagerActs(st, action, amount);
    var next, a := AfterWager(st, action, amount), st.acting.value;
    assert LiveSet(next.seats) != {} by {
      assert |LiveSet(st.seats) - {a}| >= 1;
    }
    CoreIsWellFormed(next);
  }

  /** `apply_action`. */
  method ApplyActionRust(st: State, action: Action, amount: Option<int>) returns (r: Result<State, Error>)
    requires InHand(st)
    ensures r == RustApplyAction(st, action, amount)
  {
    if st.acting.None? {
      return Err(NobodyToAct);
    }
    var legal := GetLegalActions(st);
    if action !in legal {
      return Err(IllegalAction);
    }
    var bounds := legal[action];
    if bounds.Range? && amount.Some? {
      if amount.value < bounds.min || amount.value > bounds.max {
        return Err(IllegalAmount);
      }
    }
    var next := CarryOut(st, action, amount, bounds);
    r := Ok(next);
  }

  method CarryOut(st: State, action: Action, amount: Option<int>, bounds: Bounds) returns (next: State)
    requires InHand(st) && LegalMove(st, action, amount) && bounds == LegalActions(st)[action]
    ensures next == RustAdvance(AfterWager(st, action, amount), st.acting.value)
  {
    WagerShowable(st, action, amount);
    next := Engine.PlaceWager(st, st.acting.value, action, bounds, amount);
    next := PassTurnRust(next, st.acting.value);
  }
}
