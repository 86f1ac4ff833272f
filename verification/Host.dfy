/** The table host's hand loop (services/game-server/src/table-runtime.ts, `loop`, `actForCurrent`,
    `advanceRunout`, `syncStacks` and `resetToWaiting`): one mutable engine state and the stacks last saved, two
    loops, the gate between them, and the catch that voids a hand. */
module Host {
  import opened Prelude
  import opened Cards
  import opened Ring
  import opened Table
  import opened Holdem
  import opened Invariant
  import opened Opening
  import opened Runs
  import Engine
  import Players

  // ----- isAllInRunout -----

  function Contesting(seats: seq<Seat>): (r: set<nat>)
  {
    set i: nat | i < |seats| && !seats[i].folded && seats[i].playerId != ""
  }

  function CanAct(seats: seq<Seat>): (r: set<nat>)
  {
    set i: nat | i < |seats| && !seats[i].folded && seats[i].playerId != "" && !seats[i].allIn && seats[i].stack > 0
  }

  predicate IsAllInRunout(st: State)
  {
    InHandStreet(st.street) && |Contesting(st.seats)| >= 2 && |CanAct(st.seats)| <= 1
  }

  /** A hand in progress in which nobody has options only because betting is over for good. */
  ghost predicate Staged(st: State)
  {
    InHand(st) && (LegalActions(st) == map[] ==> |ActiveSet(st.seats)| <= 1)
  }

  ghost predicate Finished(st: State)
  {
    Resting(st) && st.street == Street.Settlement
  }

  /** Where a step of the host leaves a hand. */
  ghost predicate Hosted(st: State)
  {
    Finished(st) || Staged(st)
  }

  // ----- The gate never strands a hand -----

  lemma {:induction false} LiveIsContesting(st: State)
    requires InHand(st)
    ensures Contesting(st.seats) == LiveSet(st.seats)
    ensures CanAct(st.seats) == ActiveSet(st.seats)
  {
    forall i | 0 <= i < |st.seats|
      ensures !st.seats[i].folded ==> st.seats[i].playerId != "" && (st.seats[i].allIn || st.seats[i].stack > 0)
    {
      assert SeatOk(st.seats[i], st.currentBet);
    }
  }

  /** Without options the runout gate is open. */
  lemma {:induction false} StagedGateIsOpen(st: State)
    requires Staged(st) && LegalActions(st) == map[]
    ensures IsAllInRunout(st)
  {
    LiveIsContesting(st);
  }

  lemma {:induction false} OptionsIff(st: State)
    requires InHand(st)
    ensures LegalActions(st) != map[] <==> st.acting.Some? && st.acting.value in ActiveSet(st.seats)
  {
    NoOptions(st);
  }

  lemma {:induction false} OpeningIsStaged(st: State, deck: seq<Card>)
    requires Resting(st) && |deck| == DECK_SIZE && CanStart(st, deck) && StartHand(st, deck).Ok?
    ensures Staged(StartHand(st, deck).value)
  {
    var hand := StartHand(st, deck).value;
    StartHandEnters(st, deck);
    OptionsIff(hand);
    if LegalActions(hand) == map[] {
      OpeningStuckIsHeadsUp(st, deck);
    }
  }

  lemma {:induction false} OpeningStuckIsHeadsUp(st: State, deck: seq<Card>)
    requires Resting(st) && |deck| == DECK_SIZE && CanStart(st, deck) && StartHand(st, deck).Ok?
    requires var hand := StartHand(st, deck).value; !(hand.acting.Some? && hand.acting.value in ActiveSet(hand.seats))
    ensures |ActiveSet(StartHand(st, deck).value.seats)| <= 1
  {
    var pos, seats := HandPositions(st.seats, st.button), OpeningSeats(st, deck);
    OpeningSeatsOk(st, deck);
    if |EligibleSet(st.seats)| >= 3 {
      ThirdPlayerCanAct(st, deck);
      NextSeatFinds(|seats|, pos.bb, ActiveSet(seats));
      assert false;
    }
    assert ActiveSet(seats) <= EligibleSet(st.seats) - {pos.sb};
    SubsetSize(ActiveSet(seats), EligibleSet(st.seats) - {pos.sb});
  }

  lemma {:induction false} DealtActors(st: State)
    requires WellFormed(st) && NextDeal(|st.board|) > 0
    ensures ActiveSet(DealStreet(st).seats) == ActiveSet(st.seats)
  {
  }

  lemma {:induction false} RunoutIsStaged(st: State)
    requires Staged(st) && LegalActions(st) == map[]
    ensures Kept(st, ContinueRunout(st)) && Hosted(ContinueRunout(st))
  {
    RunoutKeepsInv(st);
    if NextDeal(|st.board|) > 0 {
      DealtActors(st.(acting := None));
    }
  }

  lemma {:induction false} ActionIsStaged(st: State, action: Action, amount: Option<int>)
    requires InHand(st) && LegalMove(st, action, amount)
    ensures ApplyAction(st, action, amount).Ok?
    ensures var r := ApplyAction(st, action, amount).value; Kept(st, r) && Hosted(r)
  {
    var next, a := AfterWager(st, action, amount), st.acting.value;
    ActionKeepsInv(st, action, amount);
    ApplyUnfolds(st, action, amount);
    WagerActs(st, action, amount);
    assert LiveSet(next.seats) != {} by {
      assert |LiveSet(st.seats) - {a}| >= 1;
    }
    AdvanceStages(next, a);
  }

  /** After the turn passed: the hand is over, or somebody has options, or at most one can still act. */
  lemma {:induction false} AdvanceStages(st: State, a: nat)
    requires Core(st) && WellFormed(st) && a < |st.seats| && LiveSet(st.seats) != {} && Inv(Advance(st, a))
    ensures Hosted(Advance(st, a))
  {
    var r := Advance(st, a);
    AdvanceOutcomes(st, a);
    if InHand(r) {
      OptionsIff(r);
      if !StreetComplete(st) {
        SomebodyIsToAct(st, a);
      } else if st.street != River {
        RunoutStages(st.(acting := None));
      }
    }
  }

  lemma {:induction false} RunoutStages(st: State)
    requires Core(st) && WellFormed(st) && st.acting == None && InHand(MaybeRunout(st))
    ensures var r := MaybeRunout(st);
            |ActiveSet(r.seats)| <= 1 || (r.acting.Some? && r.acting.value in ActiveSet(r.seats))
  {
    if |LiveSet(st.seats)| != 1 && |ActiveSet(st.seats)| > 1 && NextDeal(|st.board|) > 0 {
      DealtOpens(st);
    }
  }

  lemma {:induction false} DealtOpens(st: State)
    requires Core(st) && WellFormed(st) && NextDeal(|st.board|) > 0 && |ActiveSet(st.seats)| > 1
    ensures var r := DealStreet(st); r.acting.Some? && r.acting.value in ActiveSet(r.seats)
  {
    var seats := ResetBets(st.seats);
    assert ActiveSet(seats) == ActiveSet(st.seats);
    forall i | 0 <= i < |seats|
      ensures SeatOk(st.seats[i], st.currentBet)
    {
    }
    assert Openers(seats) == ActiveSet(seats);
    var k :| k in ActiveSet(seats);
    NextSeatFinds(|seats|, st.button, Openers(seats));
  }

  // ----- Along every run -----

  ghost predicate StagedInHand(st: State)
  {
    InHandStreet(st.street) ==> Staged(st)
  }

  lemma {:induction false} NextIsStaged(s: State, t: State)
    requires Inv(s) && StagedInHand(s) && Next(s, t)
    ensures StagedInHand(t)
  {
    RestingOrInHand(s);
    if RunsOut(s, t) {
      RunoutIsStaged(s);
    } else if deck :| Deals(s, t, deck) {
      OpeningIsStaged(s, deck);
    } else {
      var action, amount :| Plays(s, t, action, amount);
      LegalMovesAreAccepted(s, action, amount);
      ActionIsStaged(s, action, amount);
    }
  }

  lemma {:induction false} RunsAreStaged(trace: seq<State>, k: nat)
    requires Run(trace) && Resting(trace[0]) && k < |trace|
    ensures StagedInHand(trace[k])
  {
    if k > 0 {
      RunsAreStaged(trace, k - 1);
      RunKeeps(trace, k - 1);
      StepIsStaged(trace, k - 1);
    }
  }

  lemma {:induction false} StepIsStaged(trace: seq<State>, k: nat)
    requires Run(trace) && k + 1 < |trace| && Inv(trace[k]) && StagedInHand(trace[k])
    ensures StagedInHand(trace[k + 1])
  {
    assert StepAt(trace, k);
    NextIsStaged(trace[k], trace[k + 1]);
  }

  /** On every run, a hand in progress that offers nobody options has the runout gate open. */
  lemma {:induction false} GateIsOpen(trace: seq<State>, k: nat)
    requires Run(trace) && Resting(trace[0]) && k < |trace|
    requires InHandStreet(trace[k].street)
    ensures WellFormed(trace[k])
    ensures LegalActions(trace[k]) == map[] ==> IsAllInRunout(trace[k])
  {
    RunsAreStaged(trace, k);
    if LegalActions(trace[k]) == map[] {
      StagedGateIsOpen(trace[k]);
    }
  }

  /** In a hand, the gate is open exactly while at most one player can still act. */
  lemma {:induction false} GateIsOpenIff(st: State)
    requires InHand(st)
    ensures IsAllInRunout(st) <==> |ActiveSet(st.seats)| <= 1
  {
    assert forall i :: 0 <= i < |st.seats| ==> SeatOk(st.seats[i], st.currentBet);
    assert Contesting(st.seats) == LiveSet(st.seats);
    assert CanAct(st.seats) == ActiveSet(st.seats);
  }

  // ----- The end of a hand -----

  /** What `syncStacks` saves: the stack of every player. */
  function SavedStacks(seats: seq<Seat>): map<nat, int>
  {
    map i: nat | i < |seats| && seats[i].playerId != "" :: seats[i].stack
  }

  /** Players without chips are sat out. */
  function SitOutBroke(s: Seat): Seat
  {
    if s.playerId != "" && s.stack <= 0 then s.(sitOut := true, folded := true, hole := None) else s
  }

  function BrokeSitOut(seats: seq<Seat>): (r: seq<Seat>)
    ensures |r| == |seats|
  {
    seq(|seats|, i requires 0 <= i < |seats| => SitOutBroke(seats[i]))
  }

  /** A seat waiting for the next hand. */
  function ClearedSeat(s: Seat, stack: int): Seat
  {
    s.(stack := stack, bet := 0, totalBet := 0, hole := None, folded := s.sitOut || s.playerId == "" || stack <= 0,
       allIn := false)
  }

  function StackOf(restore: map<nat, int>, i: nat, s: Seat): int
  {
    if i in restore then restore[i] else s.stack
  }

  function ClearedSeats(seats: seq<Seat>, restore: map<nat, int>): (r: seq<Seat>)
    ensures |r| == |seats|
  {
    seq(|seats|, i requires 0 <= i < |seats| => ClearedSeat(seats[i], StackOf(restore, i, seats[i])))
  }

  /** `resetToWaiting`, with stacks as in `restore` where it has them. */
  function Reset(st: State, restore: map<nat, int>): State
  {
    st.(street := Waiting, acting := None, board := [], pot := 0, currentBet := 0, winners := [], deck := [],
        seats := ClearedSeats(st.seats, restore))
  }

  /** The same players, and no rake taken while the hand is on. */
  ghost predicate SameTable(before: State, st: State)
  {
    && Players.SameNames(before.seats, st.seats)
    && (InHandStreet(st.street) ==> st.sessionRake == before.sessionRake)
  }

  lemma {:induction false} AdvanceTakesNoRake(st: State, a: nat)
    requires WellFormed(st) && InHandStreet(Advance(st, a).street)
    ensures Advance(st, a).sessionRake == st.sessionRake
  {
  }

  lemma {:induction false} StepTakesNoRake(s: State, t: State)
    requires Inv(s) && Next(s, t) && InHandStreet(t.street)
    ensures t.sessionRake == s.sessionRake
  {
    if RunsOut(s, t) {
      RunoutTakesNoRake(s);
    } else if deck :| Deals(s, t, deck) {
      DealTakesNoRake(s, t, deck);
    } else {
      var action, amount :| Plays(s, t, action, amount);
      PlayTakesNoRake(s, t, action, amount);
    }
  }

  lemma {:induction false} RunoutTakesNoRake(st: State)
    requires WellFormed(st) && InHandStreet(ContinueRunout(st).street)
    ensures ContinueRunout(st).sessionRake == st.sessionRake
  {
  }

  lemma {:induction false} DealTakesNoRake(s: State, t: State, deck: seq<Card>)
    requires Deals(s, t, deck)
    ensures t.sessionRake == s.sessionRake
  {
  }

  lemma {:induction false} PlayTakesNoRake(s: State, t: State, action: Action, amount: Option<int>)
    requires Plays(s, t, action, amount) && InHandStreet(t.street)
    ensures t.sessionRake == s.sessionRake
  {
    LegalMovesAreAccepted(s, action, amount);
    ApplyUnfolds(s, action, amount);
    AdvanceTakesNoRake(AfterWager(s, action, amount), s.acting.value);
  }

  lemma {:induction false} StepSameTable(before: State, s: State, t: State)
    requires Inv(s) && SameTable(before, s) && Next(s, t)
    requires InHandStreet(s.street) || s.sessionRake == before.sessionRake
    ensures SameTable(before, t)
  {
    Players.NextOnward(s, t);
    if InHandStreet(t.street) {
      StepTakesNoRake(s, t);
    }
  }

  lemma {:induction false} StaysSame(before: State, mid: State, st: State)
    requires SameTable(before, mid) && SameTable(mid, st) && (InHandStreet(st.street) ==> InHandStreet(mid.street))
    ensures SameTable(before, st)
  {
  }

  /** Nothing of a hand is left on the table, and exactly those who will be dealt in next are not folded. */
  ghost predicate Cleared(st: State)
  {
    && st.street == Waiting && st.board == [] && st.deck == [] && st.winners == [] && st.currentBet == 0
    && forall i: nat :: i < |st.seats| ==>
         && st.seats[i].hole == None && st.seats[i].bet == 0 == st.seats[i].totalBet && !st.seats[i].allIn
         && (st.seats[i].folded <==> i !in EligibleSet(st.seats))
  }

  /** A settled hand is cleared away without touching a stack. */
  lemma {:induction false} SettledResets(st: State)
    requires Finished(st)
    ensures var r := Reset(st.(seats := BrokeSitOut(st.seats)), map[]);
            && Resting(r) && Stacks(r.seats) == Stacks(st.seats) && Kept(st, r) && Cleared(r)
            && forall i :: 0 <= i < |st.seats| ==>
                 (r.seats[i].sitOut <==>
                  st.seats[i].sitOut || (st.seats[i].playerId != "" && st.seats[i].stack == 0))
  {
  }

  /** A void hand gives everybody back what was saved before it. */
  lemma {:induction false} VoidRestores(before: State, st: State)
    requires Resting(before) && Staged(st) && Kept(before, st) && SameTable(before, st)
    ensures var r := Reset(st, SavedStacks(before.seats));
            Resting(r) && Stacks(r.seats) == Stacks(before.seats) && Kept(before, r) && Cleared(r)
  {
    var r := Reset(st, SavedStacks(before.seats));
    forall i | 0 <= i < |st.seats|
      ensures r.seats[i].stack == before.seats[i].stack
      ensures r.seats[i].playerId == "" ==> r.seats[i].sitOut && r.seats[i].stack == 0
    {
      assert SeatOk(st.seats[i], st.currentBet);
    }
    assert Stacks(r.seats) == Stacks(before.seats);
  }

  // ----- The host -----

  datatype Decision = Decision(action: Action, amount: Option<int>)

  /** The amount, if any, lies within the bounds the controller was shown; the action may still be illegal. */
  predicate AmountFits(st: State, d: Decision)
    requires st.acting.Some? ==> st.acting.value < |st.seats|
  {
    d.action in LegalActions(st) && LegalActions(st)[d.action].Range? && d.amount.Some?
    ==> LegalActions(st)[d.action].min <= d.amount.value <= LegalActions(st)[d.action].max
  }

  /** What the host plays instead of an action that is not on offer: fold, or else check. */
  function Forced(st: State): (d: Decision)
    requires InHand(st) && LegalActions(st) != map[]
    ensures LegalMove(st, d.action, d.amount) && (d.action == Fold || d.action == Check)
  {
    NoOptions(st);
    Decision(if Fold in LegalActions(st) then Fold else Check, None)
  }

  /** It never moves a chip. */
  lemma {:induction false} ForcedMovesNoChip(st: State)
    requires InHand(st) && LegalActions(st) != map[]
    ensures var next := AfterWager(st, Forced(st).action, Forced(st).amount);
            next.pot == st.pot && Stacks(next.seats) == Stacks(st.seats) && Totals(next.seats) == Totals(st.seats)
  {
  }

  class TableRuntime {
    var state: State
    var saved: map<nat, int>

    /** Between hands, with the players' stacks saved. */
    ghost predicate Ready()
      reads this
    {
      Resting(state) && saved == SavedStacks(state.seats)
    }

    constructor (opening: State)
      requires Resting(opening)
      ensures state == opening && Ready()
    {
      state := opening;
      saved := SavedStacks(opening.seats);
    }

    /** Every player's stack is written down. */
    method SyncStacks()
      modifies this`saved
      ensures saved == SavedStacks(state.seats)
    {
      saved := map[];
      for i := 0 to |state.seats|
        invariant forall k :: k in saved <==> 0 <= k < i && state.seats[k].playerId != ""
        invariant forall k :: k in saved ==> saved[k] == state.seats[k].stack
      {
        if state.seats[i].playerId != "" {
          saved := saved[i := state.seats[i].stack];
        }
      }
    }

    method SitOutBrokePlayers()
      modifies this`state
      ensures state == old(state).(seats := BrokeSitOut(old(state).seats))
    {
      var seats := state.seats;
      for i := 0 to |seats|
        invariant |seats| == |state.seats|
        invariant forall j :: 0 <= j < i ==> seats[j] == SitOutBroke(state.seats[j])
        invariant forall j :: i <= j < |seats| ==> seats[j] == state.seats[j]
      {
        seats := seats[i := SitOutBroke(seats[i])];
      }
      assert seats == BrokeSitOut(state.seats);
      state := state.(seats := seats);
    }

    method ResetToWaiting(restore: map<nat, int>)
      modifies this`state
      ensures state == Reset(old(state), restore)
    {
      var seats := state.seats;
      for i := 0 to |seats|
        invariant |seats| == |state.seats|
        invariant forall j :: 0 <= j < i ==>
                    seats[j] == ClearedSeat(state.seats[j], StackOf(restore, j, state.seats[j]))
        invariant forall j :: i <= j < |seats| ==> seats[j] == state.seats[j]
      {
        seats := seats[i := ClearedSeat(seats[i], StackOf(restore, i, seats[i]))];
      }
      assert seats == ClearedSeats(state.seats, restore);
      state := state.(street := Waiting, acting := None, board := [], pot := 0, currentBet := 0, winners := [],
                      deck := [], seats := seats);
    }

    /** Deal the next hand; with fewer than two players the table keeps waiting. */
    method BeginHand(deck: seq<Card>) returns (dealt: bool)
      requires Resting(state) && IsDeck(deck)
      modifies this`state
      ensures dealt <==> |EligibleSet(old(state).seats)| >= 2
      ensures dealt ==> StartHand(old(state), deck) == Ok(state) && Staged(state) && SameTable(old(state), state)
      ensures !dealt ==> state == old(state)
      ensures Kept(old(state), state)
    {
      StartHandEnters(state, deck);
      var r := Engine.BeginHand(state, deck);
      dealt := r.Ok?;
      if dealt {
        OpeningIsStaged(state, deck);
        assert Deals(state, r.value, deck);
        StepSameTable(state, state, r.value);
        state := r.value;
      }
    }

    /** One turn: the decided action, or fold/check when it is not on offer; a seat without options gives up
        the turn. An amount out of bounds makes applyAction throw, which leaves the state as it was. */
    method ActForCurrent(decided: Decision) returns (ok: bool)
      requires Staged(state) && state.acting.Some?
      modifies this`state
      ensures Hosted(state) && Kept(old(state), state)
      ensures ok <==> AmountFits(old(state), decided)
      ensures !ok ==>
                state == old(state) && ApplyAction(old(state), decided.action, decided.amount) == Err(IllegalAmount)
      ensures LegalActions(old(state)) == map[] ==> ok && state == old(state).(acting := None)
      ensures ok && LegalActions(old(state)) != map[] ==>
                var d := if decided.action in LegalActions(old(state)) then decided else Forced(old(state));
                Next(old(state), state) && ApplyAction(old(state), d.action, d.amount) == Ok(state)
    {
      var legal := LegalActions(state);
      if legal == map[] {
        TurnGivenUp(state);
        state := state.(acting := None);
        return true;
      }
      var d := if decided.action in legal then decided else Forced(state);
      var r := Engine.Play(state, d.action, d.amount);
      if r.Err? {
        return false;
      }
      LegalMovesAreAccepted(state, d.action, d.amount);
      ActionIsStaged(state, d.action, d.amount);
      assert Plays(state, r.value, d.action, d.amount);
      state := r.value;
      return true;
    }

    method AdvanceRunout()
      requires Staged(state) && LegalActions(state) == map[]
      modifies this`state
      ensures Hosted(state) && Kept(old(state), state)
      ensures state == ContinueRunout(old(state)) && Next(old(state), state)
      ensures Staged(state) ==> state.acting.None?
    {
      RunoutIsStaged(state);
      assert RunsOut(state, ContinueRunout(state));
      state := Engine.RunOut(state);
    }

    /** The first loop: somebody acts as long as it is somebody's turn. A throw ends it with the hand still on. */
    method PlayTurns(decide: State -> Decision) returns (ok: bool)
      requires Staged(state)
      modifies this`state
      ensures Hosted(state) && Kept(old(state), state) && SameTable(old(state), state)
      ensures ok && Staged(state) ==> state.acting.None?
      ensures !ok ==> Staged(state) && state.acting.Some? && !AmountFits(state, decide(state))
    {
      while state.acting.Some? && state.street != Street.Settlement
        invariant Hosted(state) && Kept(old(state), state) && SameTable(old(state), state)
        decreases TurnFuel(state)
      {
        ghost var before := state;
        ok := ActForCurrent(decide(state));
        if !ok {
          return;
        }
        TurnDrops(before, state);
        if state != before.(acting := None) {
          StepSameTable(old(state), before, state);
        }
      }
      return true;
    }

    /** The second loop: the board is run out while the gate allows, and the gate never closes early. */
    method RunOutBoard()
      requires Hosted(state) && (Staged(state) ==> state.acting.None?)
      modifies this`state
      ensures Finished(state) && Kept(old(state), state)
    {
      while state.street != Street.Settlement && state.street != Waiting && state.acting.None?
            && (IsAllInRunout(state) || |state.board| >= 5)
        invariant Hosted(state) && Kept(old(state), state)
        invariant Staged(state) ==> state.acting.None?
        decreases TurnFuel(state)
      {
        ghost var before := state;
        AdvanceRunout();
        TurnDrops(before, state);
      }
      if Staged(state) {
        StagedGateIsOpen(state);
        assert false;
      }
    }

    /** What follows a settled hand. */
    method ClearHand()
      requires Finished(state)
      modifies this
      ensures Ready() && Kept(old(state), state) && Stacks(state.seats) == Stacks(old(state).seats)
      ensures state == Reset(old(state).(seats := BrokeSitOut(old(state).seats)), map[])
    {
      SettledResets(state);
      SavedStay(state);
      SyncStacks();
      SitOutBrokePlayers();
      ResetToWaiting(map[]);
    }

    /** The catch: the hand is void, the saved stacks come back. */
    method VoidHand(ghost before: State)
      requires Resting(before) && saved == SavedStacks(before.seats)
      requires Staged(state) && Kept(before, state) && SameTable(before, state)
      modifies this`state
      ensures Ready() && Kept(before, state) && Stacks(state.seats) == Stacks(before.seats)
      ensures state == Reset(old(state), saved)
    {
      VoidRestores(before, state);
      SavedStayVoid(before, state);
      ResetToWaiting(saved);
    }

    /** A hand that was dealt is played out and cleared away, or voided at the first amount out of bounds. */
    method FinishHand(ghost before: State, decide: State -> Decision) returns (ok: bool, ghost last: State)
      requires Resting(before) && saved == SavedStacks(before.seats)
      requires Staged(state) && Kept(before, state) && SameTable(before, state)
      modifies this
      ensures Ready() && Kept(before, state)
      ensures ok ==> Finished(last) && Stacks(state.seats) == Stacks(last.seats)
                     && state == Reset(last.(seats := BrokeSitOut(last.seats)), map[])
      ensures !ok ==> Staged(last) && last.acting.Some? && !AmountFits(last, decide(last))
      ensures !ok ==> state == Reset(last, old(saved)) && Stacks(state.seats) == Stacks(before.seats)
    {
      ghost var dealt := state;
      ok := PlayTurns(decide);
      StaysSame(before, dealt, state);
      if ok {
        RunOutBoard();
        last := state;
        ClearHand();
      } else {
        last := state;
        VoidHand(before);
      }
    }

    /** One pass of the loop. Whatever the controllers decide, it ends between hands with every chip accounted
        for. Either the hand was played out, and is cleared away with the stacks as it left them (`last` is its
        final state), or a controller named an amount out of bounds: then applyAction throws, and the catch voids
        the hand and gives everybody back the stacks saved before it. */
    method PlayHand(deck: seq<Card>, decide: State -> Decision) returns (dealt: bool, ok: bool, ghost last: State)
      requires Ready() && IsDeck(deck)
      modifies this
      ensures Ready() && Kept(old(state), state)
      ensures dealt <==> |EligibleSet(old(state).seats)| >= 2
      ensures dealt && ok ==> Finished(last) && Stacks(state.seats) == Stacks(last.seats)
                              && state == Reset(last.(seats := BrokeSitOut(last.seats)), map[])
      ensures !ok ==> dealt && Staged(last) && last.acting.Some? && !AmountFits(last, decide(last))
      ensures !ok ==> state == Reset(last, old(saved)) && Stacks(state.seats) == Stacks(old(state).seats)
      ensures (forall s :: InHand(s) ==> AmountFits(s, decide(s))) ==> ok
      ensures !dealt ==> state == old(state)
    {
      ghost var before := state;
      dealt := BeginHand(deck);
      ok, last := true, state;
      if dealt {
        ok, last := FinishHand(before, decide);
      }
    }
  }

  lemma {:induction false} SavedStay(st: State)
    ensures SavedStacks(Reset(st.(seats := BrokeSitOut(st.seats)), map[]).seats) == SavedStacks(st.seats)
  {
  }

  lemma {:induction false} SavedStayVoid(before: State, st: State)
    requires Players.SameNames(before.seats, st.seats)
    ensures SavedStacks(Reset(st, SavedStacks(before.seats)).seats) == SavedStacks(before.seats)
  {
  }

  // ----- Progress -----

  /** Giving up the turn of an all-in seat changes nothing else. */
  lemma {:induction false} TurnGivenUp(st: State)
    requires Staged(st) && LegalActions(st) == map[]
    ensures Staged(st.(acting := None)) && Kept(st, st.(acting := None))
  {
    NoOptions(st);
  }

  /** The hand's measure; an idle turn counts one. */
  ghost function TurnFuel(st: State): nat
  {
    if InHandStreet(st.street) then 2 * FuelOf(st, Funds(st)) + 2 + (if st.acting.Some? then 1 else 0) else 0
  }

  lemma {:induction false} TurnDrops(s: State, t: State)
    requires Staged(s) && Hosted(t) && Funds(s) == Funds(t)
    requires Next(s, t) || (t == s.(acting := None) && s.acting.Some? && LegalActions(s) == map[])
    ensures TurnFuel(t) < TurnFuel(s)
  {
    if InHand(t) {
      if Next(s, t) {
        HandStepDrops(s, t);
        FuelOfDrops(s, t);
      } else {
        IdleFuel(s);
      }
    }
  }

  lemma {:induction false} IdleFuel(s: State)
    requires WellFormed(s) && LegalActions(s) == map[]
    ensures FuelOf(s.(acting := None), Funds(s)) == FuelOf(s, Funds(s))
  {
  }
}
