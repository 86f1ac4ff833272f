/** Whole runs of the two engines side by side: the second engine (crates/poker-core) goes through the same
    states as the first until a showdown in which a folded seat out-staked every live one. */
module RustRuns {
  import opened Prelude
  import opened Cards
  import opened Pots
  import opened Settlement
  import opened Table
  import opened Holdem
  import opened Invariant
  import opened Opening
  import opened Runs
  import opened RustSettlement
  import opened RustEngine
  import opened RustMoves

  // ----- Steps of the second engine -----

  ghost predicate RustPlays(s: State, t: State, action: Action, amount: Option<int>)
  {
    InHandStreet(s.street) && WellFormed(s) && RustApplyAction(s, action, amount) == Ok(t)
  }

  ghost predicate RustRunsOut(s: State, t: State)
  {
    InHandStreet(s.street) && WellFormed(s) && LegalActions(s) == map[] && t == RustContinueRunout(s)
  }

  /** Deals are those of the first engine (`StartHandRust`). */
  ghost predicate RustNext(s: State, t: State)
  {
    || (exists deck :: Deals(s, t, deck))
    || (exists action, amount :: RustPlays(s, t, action, amount))
    || RustRunsOut(s, t)
  }

  ghost predicate RustStepAt(trace: seq<State>, i: nat)
    requires i + 1 < |trace|
  {
    RustNext(trace[i], trace[i + 1])
  }

  ghost predicate RustRun(trace: seq<State>)
  {
    |trace| > 0 && forall i: nat :: i + 1 < |trace| ==> RustStepAt(trace, i)
  }

  // ----- Fold-wins and stakes at a showdown -----

  lemma {:induction false} FoldWinsAgree(st: State)
    requires ConfigOk(st.config)
    ensures RustFoldWin(st) == FoldWin(st)
  {
    var w := FirstStanding(st.seats, 0);
    if w.Some? {
      RakesAgreeIff(Max(0, st.pot - UncalledBet(st.seats, w.value)), st.config.rakeBps, st.config.rakeCap, 1,
                    Some(|st.board| == 0));
    }
  }

  /** A settlement leaves stakes and folds as they are, so the table still shows whether there was an overhang. */
  lemma {:induction false} StakesStay(st: State, layers: seq<Layer>)
    requires st.button < |st.seats|
    ensures NoFoldedOverhang(SettleLayers(st, layers).seats) <==> NoFoldedOverhang(st.seats)
  {
    SameStakes(st.seats, SettleLayers(st, layers).seats);
  }

  /** The step settled a river in which a folded seat out-staked every live one. */
  ghost predicate Overhangs(s: State, t: State)
  {
    s.street == River && t.street == Street.Settlement && !NoFoldedOverhang(t.seats)
  }

  lemma {:induction false} SettlesAlikeIff(st: State)
    requires Showable(st) && st.street == River
    ensures RustSettle(st) == Settle(st) <==> NoFoldedOverhang(st.seats)
    ensures NoFoldedOverhang(Settle(st).seats) <==> NoFoldedOverhang(st.seats)
    ensures NoFoldedOverhang(RustSettle(st).seats) <==> NoFoldedOverhang(st.seats)
    ensures Settle(st).street == Street.Settlement == RustSettle(st).street
  {
    var shown := st.(street := Showdown);
    SomeLiveStake(st);
    assert ReadyToSettle(shown);
    EnginesSettleAlikeIff(shown);
    StakesStay(shown, TsPots(st.seats));
    StakesStay(shown, RustPots(st.seats));
  }

  // ----- One step -----

  lemma {:induction false} MaybeAgrees(st: State)
    requires Showable(st) && st.street != River
    ensures RustMaybeRunout(st) == MaybeRunout(st)
  {
    FoldWinsAgree(st);
  }

  /** After an action only a showdown can tell the engines apart. */
  lemma {:induction false} AdvancesAlikeIff(st: State, a: nat)
    requires Showable(st) && LiveSet(st.seats) != {} && a < |st.seats|
    ensures RustAdvance(st, a) == Advance(st, a) <==> !Overhangs(st, Advance(st, a))
    ensures Overhangs(st, Advance(st, a)) <==> Overhangs(st, RustAdvance(st, a))
  {
    if !StreetComplete(st) {
      SomebodyIsToAct(st, a);
    } else if st.street == River {
      SettlesAlikeIff(st);
    } else {
      MaybeAgrees(st.(acting := None));
    }
  }

  lemma {:induction false} RunsOutAlikeIff(st: State)
    requires InHand(st)
    ensures RustContinueRunout(st) == ContinueRunout(st) <==> !Overhangs(st, ContinueRunout(st))
    ensures Overhangs(st, ContinueRunout(st)) <==> Overhangs(st, RustContinueRunout(st))
  {
    var s0 := st.(acting := None);
    if st.street == River {
      RiverRunsOut(st);
      RustRiverRunsOut(st);
      SettlesAlikeIff(s0);
    } else {
      RunoutTurns(st);
    }
  }

  lemma {:induction false} RustRiverRunsOut(st: State)
    requires InHand(st) && st.street == River
    ensures RustContinueRunout(st) == RustSettle(st.(acting := None))
  {
    assert |st.board| == 5 && NextDeal(5) == 0;
  }

  lemma {:induction false} RunoutTurns(st: State)
    requires InHand(st) && st.street != River
    ensures NextDeal(|st.board|) > 0
    ensures RustContinueRunout(st) == ContinueRunout(st) == DealStreet(st.(acting := None)).(acting := None)
  {
  }

  /** An action is accepted by both engines or by neither, and they end in the same state exactly unless it
      settles an overhang. */
  lemma {:induction false} ActionsAlikeIff(s: State, action: Action, amount: Option<int>)
    requires InHand(s)
    ensures RustApplyAction(s, action, amount).Ok? <==> LegalMove(s, action, amount)
    ensures ApplyAction(s, action, amount).Ok? <==> LegalMove(s, action, amount)
    ensures LegalMove(s, action, amount) ==>
              var t, u := ApplyAction(s, action, amount).value, RustApplyAction(s, action, amount).value;
              (t == u <==> !Overhangs(s, t)) && (Overhangs(s, t) <==> Overhangs(s, u))
  {
    LegalMovesAreAccepted(s, action, amount);
    if LegalMove(s, action, amount) {
      RustUnfolds(s, action, amount);
      LiveAfterAction(s, action, amount);
      AdvancesAlikeIff(AfterWager(s, action, amount), s.acting.value);
    }
  }

  lemma {:induction false} RustUnfolds(s: State, action: Action, amount: Option<int>)
    requires WellFormed(s) && LegalMove(s, action, amount)
    ensures ApplyAction(s, action, amount) == Ok(Advance(AfterWager(s, action, amount), s.acting.value))
    ensures RustApplyAction(s, action, amount) == Ok(RustAdvance(AfterWager(s, action, amount), s.acting.value))
  {
    ApplyUnfolds(s, action, amount);
  }

  lemma {:induction false} LiveAfterAction(s: State, action: Action, amount: Option<int>)
    requires InHand(s) && LegalMove(s, action, amount)
    ensures var next := AfterWager(s, action, amount);
            Showable(next) && LiveSet(next.seats) != {} && next.street == s.street && s.acting.value < |next.seats|
  {
    WagerShowable(s, action, amount);
    WagerActs(s, action, amount);
    assert |LiveSet(s.seats) - {s.acting.value}| >= 1;
  }

  lemma {:induction false} NextIsRustNext(s: State, t: State)
    requires Inv(s) && !Overhangs(s, t) && Next(s, t)
    ensures RustNext(s, t)
  {
    RestingOrInHand(s);
    if RunsOut(s, t) {
      RunsOutAlikeIff(s);
    } else if action, amount :| Plays(s, t, action, amount) {
      ActionsAlikeIff(s, action, amount);
      assert RustPlays(s, t, action, amount);
    }
  }

  lemma {:induction false} RustNextIsNext(s: State, t: State)
    requires Inv(s) && !Overhangs(s, t) && RustNext(s, t)
    ensures Next(s, t)
  {
    RestingOrInHand(s);
    if RustRunsOut(s, t) {
      RunsOutAlikeIff(s);
    } else if action, amount :| RustPlays(s, t, action, amount) {
      ActionsAlikeIff(s, action, amount);
      assert Plays(s, t, action, amount);
    }
  }

  /** From a state both engines can be in, one has a step that settles no overhang exactly if the other has it. */
  lemma {:induction false} StepsAlikeIff(s: State, t: State)
    requires Inv(s) && !Overhangs(s, t)
    ensures Next(s, t) <==> RustNext(s, t)
  {
    if Next(s, t) {
      NextIsRustNext(s, t);
    }
    if RustNext(s, t) {
      RustNextIsNext(s, t);
    }
  }

  // ----- Whole runs -----

  ghost predicate OverhangsAt(trace: seq<State>, i: nat)
    requires i + 1 < |trace|
  {
    Overhangs(trace[i], trace[i + 1])
  }

  /** Which steps of a trace are steps of the first engine, and which of the second. */
  ghost function Steps(trace: seq<State>): (r: seq<bool>)
    requires |trace| > 0
    ensures |r| == |trace| - 1
  {
    seq(|trace| - 1, i requires 0 <= i < |trace| - 1 => StepAt(trace, i))
  }

  ghost function RustSteps(trace: seq<State>): (r: seq<bool>)
    requires |trace| > 0
    ensures |r| == |trace| - 1
  {
    seq(|trace| - 1, i requires 0 <= i < |trace| - 1 => RustStepAt(trace, i))
  }

  ghost predicate AllTo(marks: seq<bool>, k: nat)
    requires k <= |marks|
  {
    forall i :: 0 <= i < k ==> marks[i]
  }

  /** The first `k` steps are steps of the first engine, of the second, and settle no overhang. */
  ghost predicate RunsTo(trace: seq<State>, k: nat)
    requires k < |trace|
  {
    AllTo(Steps(trace), k)
  }

  ghost predicate RustRunsTo(trace: seq<State>, k: nat)
    requires k < |trace|
  {
    AllTo(RustSteps(trace), k)
  }

  ghost predicate NoOverhangs(trace: seq<State>, k: nat)
    requires k < |trace|
  {
    forall i: nat :: i < k ==> !OverhangsAt(trace, i)
  }

  /** A whole trace is a run exactly if all its steps are steps. */
  lemma {:induction false} RunIsRunsTo(trace: seq<State>)
    requires |trace| > 0
    ensures Run(trace) <==> RunsTo(trace, |trace| - 1)
  {
    if Run(trace) {
      forall i | 0 <= i < |trace| - 1
        ensures Steps(trace)[i]
      {
        assert StepAt(trace, i);
      }
    }
    if RunsTo(trace, |trace| - 1) {
      forall i: nat | i + 1 < |trace|
        ensures StepAt(trace, i)
      {
        assert Steps(trace)[i];
      }
    }
  }

  lemma {:induction false} RustRunIsRunsTo(trace: seq<State>)
    requires |trace| > 0
    ensures RustRun(trace) <==> RustRunsTo(trace, |trace| - 1)
  {
    if RustRun(trace) {
      forall i | 0 <= i < |trace| - 1
        ensures RustSteps(trace)[i]
      {
        assert RustStepAt(trace, i);
      }
    }
    if RustRunsTo(trace, |trace| - 1) {
      forall i: nat | i + 1 < |trace|
        ensures RustStepAt(trace, i)
      {
        assert RustSteps(trace)[i];
      }
    }
  }

  lemma {:induction false} StepKeeps(trace: seq<State>, k: nat)
    requires k + 1 < |trace| && Inv(trace[k]) && Steps(trace)[k]
    ensures Inv(trace[k + 1])
  {
    Runs.NextKeeps(trace[k], trace[k + 1]);
  }

  lemma {:induction false} RunsToKeeps(trace: seq<State>, k: nat)
    requires k < |trace| && Resting(trace[0]) && RunsTo(trace, k)
    ensures Inv(trace[k])
  {
    if k > 0 {
      RunsToKeeps(trace, k - 1);
      StepKeeps(trace, k - 1);
    }
  }

  lemma {:induction false} StepsAtAlike(trace: seq<State>, k: nat)
    requires k + 1 < |trace| && Inv(trace[k]) && !OverhangsAt(trace, k)
    ensures Steps(trace)[k] == RustSteps(trace)[k]
  {
    StepsAlikeIff(trace[k], trace[k + 1]);
  }

  /** Marks that agree as long as all were set. */
  lemma {:induction false} MarksCoincide(a: seq<bool>, b: seq<bool>, k: nat)
    requires k <= |a| == |b| && forall i: nat :: i < k && AllTo(a, i) ==> a[i] == b[i]
    ensures AllTo(a, k) <==> AllTo(b, k)
  {
    if k > 0 {
      MarksCoincide(a, b, k - 1);
    }
  }

  lemma {:induction false} StepAlike(trace: seq<State>, k: nat)
    requires k + 1 < |trace| && Resting(trace[0]) && RunsTo(trace, k) && !OverhangsAt(trace, k)
    ensures Steps(trace)[k] == RustSteps(trace)[k]
  {
    RunsToKeeps(trace, k);
    StepsAtAlike(trace, k);
  }

  /** As long as no overhang is settled, both engines go through the same states. */
  lemma {:induction false} StepsCoincide(trace: seq<State>, k: nat)
    requires k < |trace| && Resting(trace[0]) && NoOverhangs(trace, k)
    ensures RunsTo(trace, k) <==> RustRunsTo(trace, k)
  {
    forall i: nat | i < k && AllTo(Steps(trace), i)
      ensures Steps(trace)[i] == RustSteps(trace)[i]
    {
      assert !OverhangsAt(trace, i);
      StepAlike(trace, i);
    }
    MarksCoincide(Steps(trace), RustSteps(trace), k);
  }

  /** So the runs of one engine that settle no overhang are the runs of the other. */
  lemma {:induction false} RunsCoincide(trace: seq<State>)
    requires |trace| > 0 && Resting(trace[0]) && NoOverhangs(trace, |trace| - 1)
    ensures Run(trace) <==> RustRun(trace)
  {
    StepsCoincide(trace, |trace| - 1);
    RunIsRunsTo(trace);
    RustRunIsRunsTo(trace);
  }

  // ----- Where they part -----

  /** The second engine settles an overhang at a loss. */
  lemma {:induction false} OverhangLosesChips(st: State)
    requires Showable(st) && st.street == River && !NoFoldedOverhang(st.seats)
    ensures Funds(RustSettle(st)) < Funds(st)
  {
    var shown := st.(street := Showdown);
    SomeLiveStake(st);
    assert ReadyToSettle(shown);
    RustSettlementConservesIff(shown);
    var i :| 0 <= i < |st.seats| && st.seats[i].totalBet > DeepestLive(st.seats);
    CappedStrictlyLess(st.seats, DeepestLive(st.seats), i);
  }

  /** What the second engine makes of a step that settles an overhang in the first. */
  lemma {:induction false} OverhangStep(s: State, t: State) returns (u: State)
    requires InHand(s) && Next(s, t) && Overhangs(s, t)
    ensures RustNext(s, u) && Funds(u) < Funds(s)
  {
    if RunsOut(s, t) {
      u := OverhangRunout(s);
    } else {
      var action, amount :| Plays(s, t, action, amount);
      u := OverhangAction(s, t, action, amount);
      assert RustPlays(s, u, action, amount);
    }
  }

  lemma {:induction false} OverhangRunout(s: State) returns (u: State)
    requires InHand(s) && LegalActions(s) == map[] && Overhangs(s, ContinueRunout(s))
    ensures RustNext(s, u) && Funds(u) < Funds(s)
  {
    var s0 := s.(acting := None);
    u := RustContinueRunout(s);
    RiverRunsOut(s);
    RustRiverRunsOut(s);
    SettlesAlikeIff(s0);
    OverhangLosesChips(s0);
    assert RustRunsOut(s, u);
  }

  lemma {:induction false} OverhangAction(s: State, t: State, action: Action, amount: Option<int>) returns (u: State)
    requires InHand(s) && Plays(s, t, action, amount) && Overhangs(s, t)
    ensures RustPlays(s, u, action, amount) && Funds(u) < Funds(s)
  {
    ActionsAlikeIff(s, action, amount);
    u := RustApplyAction(s, action, amount).value;
    ApplyUnfolds(s, action, amount);
    WagerShowable(s, action, amount);
    WagerActs(s, action, amount);
    var next := AfterWager(s, action, amount);
    OverhangSettles(next, s.acting.value);
    SettlesAlikeIff(next);
    OverhangLosesChips(next);
  }

  lemma {:induction false} OverhangSettles(st: State, a: nat)
    requires Showable(st) && a < |st.seats| && LiveSet(st.seats) != {} && Overhangs(st, Advance(st, a))
    ensures Advance(st, a) == Settle(st) && RustAdvance(st, a) == RustSettle(st)
  {
    if !StreetComplete(st) {
      SomebodyIsToAct(st, a);
    }
  }

  /** Two engines on one table: they go through the same states up to the first overhang, and there the second
      one loses chips where the first one keeps them all. */
  lemma {:induction false} EnginesPart(trace: seq<State>, k: nat) returns (u: State)
    requires Run(trace) && Resting(trace[0]) && k + 1 < |trace|
    requires OverhangsAt(trace, k) && NoOverhangs(trace, k)
    ensures RustRunsTo(trace, k) && RustNext(trace[k], u)
    ensures Funds(trace[k + 1]) == Funds(trace[0]) > Funds(u)
  {
    RunIsRunsTo(trace);
    StepsCoincide(trace, k);
    RunKeeps(trace, k);
    RunKeeps(trace, k + 1);
    u := OverhangAt(trace, k);
  }

  lemma {:induction false} OverhangAt(trace: seq<State>, k: nat) returns (u: State)
    requires k + 1 < |trace| && Inv(trace[k]) && Steps(trace)[k] && OverhangsAt(trace, k)
    ensures RustNext(trace[k], u) && Funds(u) < Funds(trace[k])
  {
    RestingOrInHand(trace[k]);
    u := OverhangStep(trace[k], trace[k + 1]);
  }

  // ----- They never part while everybody can post a full blind -----

  /** Everybody dealt in has at least a big blind. */
  predicate EveryoneCanPost(st: State)
  {
    forall i :: 0 <= i < |st.seats| && i in EligibleSet(st.seats) ==> st.seats[i].stack >= st.config.bigBlind
  }

  /** In a hand: everybody brought a big blind, and one has been staked, before this street if it is not the first. */
  ghost predicate SeatsDeep(seats: seq<Seat>, blind: int)
  {
    && (forall i :: 0 <= i < |seats| && seats[i].hole.Some? ==> seats[i].stack + seats[i].totalBet >= blind)
    && (exists i :: 0 <= i < |seats| && seats[i].totalBet >= blind)
  }

  ghost predicate PaidBefore(seats: seq<Seat>, blind: int)
  {
    exists i :: 0 <= i < |seats| && Prior(seats[i]) >= blind
  }

  ghost predicate Deep(st: State)
  {
    SeatsDeep(st.seats, st.config.bigBlind) && (st.board != [] ==> PaidBefore(st.seats, st.config.bigBlind))
  }

  /** Then some live seat has staked a big blind, so no overhang is possible. */
  lemma {:induction false} DeepHasNoOverhang(st: State)
    requires Showable(st) && st.street == River && Deep(st) && Covered(st)
    ensures NoFoldedOverhang(st.seats)
  {
    var j :| j in LiveSet(st.seats);
    assert SeatOk(st.seats[j], st.currentBet);
    var i :| 0 <= i < |st.seats| && Prior(st.seats[i]) >= st.config.bigBlind;
    assert Active(st.seats[j]) ==> Prior(st.seats[i]) <= Prior(st.seats[j]);
    assert st.seats[j].totalBet >= st.config.bigBlind;
  }

  lemma {:induction false} OpeningDeep(s: State, t: State, deck: seq<Card>)
    requires Resting(s) && Deals(s, t, deck) && EveryoneCanPost(s)
    ensures Deep(t)
  {
    var pos := HandPositions(s.seats, s.button);
    OpeningSeatAt(s, deck, pos.bb);
    forall i | 0 <= i < |t.seats| && t.seats[i].hole.Some?
      ensures t.seats[i].stack + t.seats[i].totalBet >= t.config.bigBlind
    {
      OpeningSeatAt(s, deck, i);
    }
  }

  /** Stakes and stacks of one seat after chips went in. */
  lemma {:induction false} WagerDeep(st: State, action: Action, amount: Option<int>)
    requires InHand(st) && Deep(st) && LegalMove(st, action, amount)
    ensures Deep(AfterWager(st, action, amount))
  {
    BoundsAreSound(st, action);
    WagerMoves(st, st.acting.value, action, LegalActions(st)[action], amount);
    KeepsDeep(st.seats, AfterWager(st, action, amount).seats, st.config.bigBlind);
  }

  lemma {:induction false} WagerMoves(st: State, a: nat, action: Action, bounds: Bounds, amount: Option<int>)
    requires Core(st) && a < |st.seats| && Active(st.seats[a])
    requires action == Call ==> st.currentBet >= st.seats[a].bet
    requires action == Bet || action == Raise ==> Wanted(bounds, amount) >= 0
    ensures var next := Wager(st, a, action, bounds, amount);
            && next.config == st.config
            && forall i :: 0 <= i < |st.seats| ==>
                 && next.seats[i].hole == st.seats[i].hole && next.seats[i].totalBet >= st.seats[i].totalBet
                 && next.seats[i].stack + next.seats[i].totalBet == st.seats[i].stack + st.seats[i].totalBet
                 && Prior(next.seats[i]) == Prior(st.seats[i])
  {
    assert SeatOk(st.seats[a], st.currentBet);
  }

  lemma {:induction false} KeepsDeep(before: seq<Seat>, after: seq<Seat>, blind: int)
    requires |before| == |after| && SeatsDeep(before, blind)
    requires forall i :: 0 <= i < |before| ==>
               && after[i].hole == before[i].hole && after[i].totalBet >= before[i].totalBet
               && after[i].stack + after[i].totalBet == before[i].stack + before[i].totalBet
    ensures SeatsDeep(after, blind)
    ensures (forall i :: 0 <= i < |before| ==> Prior(after[i]) >= Prior(before[i])) && PaidBefore(before, blind) ==>
              PaidBefore(after, blind)
  {
    var i :| 0 <= i < |before| && before[i].totalBet >= blind;
    assert after[i].totalBet >= blind;
    if PaidBefore(before, blind) {
      var j :| 0 <= j < |before| && Prior(before[j]) >= blind;
      assert Prior(after[j]) >= Prior(before[j]) ==> Prior(after[j]) >= blind;
    }
  }

  lemma {:induction false} DealDeep(st: State)
    requires WellFormed(st) && Deep(st) && NextDeal(|st.board|) > 0
    ensures Deep(DealStreet(st))
  {
    var after := ResetBets(st.seats);
    KeepsDeep(st.seats, after, st.config.bigBlind);
    var i :| 0 <= i < |after| && after[i].totalBet >= st.config.bigBlind;
    assert Prior(after[i]) >= st.config.bigBlind;
  }

  lemma {:induction false} AdvanceDeep(st: State, a: nat)
    requires Showable(st) && a < |st.seats| && Deep(st)
    ensures InHandStreet(Advance(st, a).street) ==> Deep(Advance(st, a))
  {
    if StreetComplete(st) && st.street != River {
      ProceedDeep(st.(acting := None));
    } else if !StreetComplete(st) && LiveSet(st.seats) != {} {
      SomebodyIsToAct(st, a);
    }
  }

  lemma {:induction false} ProceedDeep(st: State)
    requires WellFormed(st) && Deep(st) && st.acting == None
    ensures InHandStreet(MaybeRunout(st).street) ==> Deep(MaybeRunout(st))
  {
    if NextDeal(|st.board|) > 0 {
      DealDeep(st);
    }
  }

  lemma {:induction false} ActionDeep(s: State, t: State, action: Action, amount: Option<int>)
    requires InHand(s) && Deep(s) && Covered(s) && Plays(s, t, action, amount)
    ensures !Overhangs(s, t) && (InHandStreet(t.street) ==> Deep(t))
  {
    LegalMovesAreAccepted(s, action, amount);
    WagerDeep(s, action, amount);
    WagerCovered(s, action, amount);
    WagerShowable(s, action, amount);
    WagerActs(s, action, amount);
    ApplyUnfolds(s, action, amount);
    var next, a := AfterWager(s, action, amount), s.acting.value;
    assert LiveSet(next.seats) != {} by {
      assert |LiveSet(s.seats) - {a}| >= 1;
    }
    AdvanceDeep(next, a);
    DeepSettlesAlike(next, a);
  }

  lemma {:induction false} DeepSettlesAlike(st: State, a: nat)
    requires Showable(st) && a < |st.seats| && LiveSet(st.seats) != {} && Deep(st) && Covered(st)
    ensures !Overhangs(st, Advance(st, a))
  {
    if Overhangs(st, Advance(st, a)) {
      OverhangSettles(st, a);
      SettlesAlikeIff(st);
      DeepHasNoOverhang(st);
    }
  }

  lemma {:induction false} RunoutDeep(s: State, t: State)
    requires InHand(s) && Deep(s) && Covered(s) && RunsOut(s, t)
    ensures !Overhangs(s, t) && (InHandStreet(t.street) ==> Deep(t))
  {
    if s.street == River {
      DeepRiver(s);
    } else {
      RunoutTurns(s);
      DealDeep(s.(acting := None));
    }
  }

  lemma {:induction false} DeepRiver(s: State)
    requires InHand(s) && s.street == River && Deep(s) && Covered(s)
    ensures var t := ContinueRunout(s); !Overhangs(s, t) && !InHandStreet(t.street)
  {
    RiverRunsOut(s);
    DeepShows(s.(acting := None));
  }

  lemma {:induction false} DeepShows(st: State)
    requires Showable(st) && st.street == River && Deep(st) && Covered(st)
    ensures !Overhangs(st, Settle(st)) && !InHandStreet(Settle(st).street)
  {
    SettlesAlikeIff(st);
    DeepHasNoOverhang(st);
  }

  ghost predicate DeepInHand(st: State)
  {
    InHandStreet(st.street) ==> Deep(st)
  }

  lemma {:induction false} NextDeep(s: State, t: State)
    requires Inv(s) && CoveredInHand(s) && DeepInHand(s) && Next(s, t)
    requires !InHandStreet(s.street) ==> EveryoneCanPost(s)
    ensures DeepInHand(t) && !Overhangs(s, t)
  {
    RestingOrInHand(s);
    if RunsOut(s, t) {
      RunoutDeep(s, t);
    } else if exists deck :: Deals(s, t, deck) {
      var deck :| Deals(s, t, deck);
      OpeningDeep(s, t, deck);
    } else {
      var action, amount :| Plays(s, t, action, amount);
      ActionDeep(s, t, action, amount);
    }
  }

  /** Nobody is ever dealt in with less than a big blind. */
  ghost predicate FullBlinds(trace: seq<State>)
  {
    forall i :: 0 <= i < |trace| && !InHandStreet(trace[i].street) ==> EveryoneCanPost(trace[i])
  }

  lemma {:induction false} RunDeep(trace: seq<State>, k: nat)
    requires Run(trace) && Resting(trace[0]) && FullBlinds(trace) && k < |trace|
    ensures DeepInHand(trace[k])
    ensures forall i: nat :: i < k ==> !OverhangsAt(trace, i)
  {
    if k > 0 {
      RunDeep(trace, k - 1);
      StepDeep(trace, k - 1);
    }
  }

  lemma {:induction false} StepDeep(trace: seq<State>, k: nat)
    requires Run(trace) && Resting(trace[0]) && FullBlinds(trace) && k + 1 < |trace| && DeepInHand(trace[k])
    ensures DeepInHand(trace[k + 1]) && !OverhangsAt(trace, k)
  {
    RunKeeps(trace, k);
    RunCovered(trace, k);
    assert StepAt(trace, k);
    NextDeep(trace[k], trace[k + 1]);
  }

  /** So while everybody dealt in can post a full big blind, the engines agree on every state of every run. */
  lemma {:induction false} FullBlindsNeverPart(trace: seq<State>)
    requires |trace| > 0 && Resting(trace[0]) && FullBlinds(trace) && Run(trace)
    ensures NoOverhangs(trace, |trace| - 1) && RustRun(trace)
  {
    RunDeep(trace, |trace| - 1);
    RunsCoincide(trace);
  }
}
