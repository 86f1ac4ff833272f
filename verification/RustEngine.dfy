/** Settlement in the second engine (crates/poker-core) compared with the first: when both settle alike and
    conserve chips, and when a run can make that fail. */
module RustEngine {
  import opened Prelude
  import opened Cards
  import opened Pots
  import opened Payouts
  import opened Settlement
  import opened Table
  import opened Holdem
  import opened Invariant
  import opened Opening
  import opened Runs
  import opened Scenes
  import Engine
  import RustSettlement

  /** What the loops of `settle_showdown` amount to (`RustSettlement.SettleShowdown`); the session's rake is kept
      as in the TypeScript state. */
  function SettleShowdownRust(st: State): (r: State)
    requires st.button < |st.seats|
  {
    SettleLayers(st, RustPots(st.seats))
  }

  lemma {:induction false} RustLayersPay(st: State)
    requires ReadyToSettle(st)
    ensures Payable(st, RustPots(st.seats))
  {
    var layers := RustPots(st.seats);
    forall k | 0 <= k < |layers|
      ensures layers[k].amount > 0 && Contenders(st.seats, layers[k]) != {}
    {
      LayerAmountPositive(st.seats, k);
      OrphansAreATopSuffix(st.seats, k);
      var i :| i in layers[k].eligible;
      assert i in Contenders(st.seats, layers[k]);
    }
    ContestedUpToDeepest(st.seats);
    SumOfPositives(Amounts(layers));
  }

  lemma {:induction false} SumOfPositives(s: seq<int>)
    requires |s| > 0 && forall i :: 0 <= i < |s| ==> s[i] > 0
    ensures Sum(s) > 0
  {
    SumBounds(s);
    assert s[0] > 0;
  }

  /** The Rust settlement pays out what lies below the deepest live stake, so it conserves chips
      exactly when no folded seat out-staked every live one. */
  lemma {:induction false} RustSettlementConservesIff(st: State)
    requires ReadyToSettle(st)
    ensures Funds(SettleShowdownRust(st)) == Funds(st) - st.pot + Sum(Capped(st.seats, DeepestLive(st.seats)))
    ensures Funds(SettleShowdownRust(st)) == Funds(st) <==> NoFoldedOverhang(st.seats)
  {
    RustLayersPay(st);
    SettleLayersPays(st, RustPots(st.seats));
    RustPotsHoldUpToDeepest(st.seats);
    RustPotsConserveIff(st.seats);
  }

  /** In that case, and only then, both engines settle alike. */
  lemma {:induction false} EnginesSettleAlikeIff(st: State)
    requires ReadyToSettle(st)
    ensures SettleShowdownRust(st) == SettleShowdown(st) <==> NoFoldedOverhang(st.seats)
  {
    if NoFoldedOverhang(st.seats) {
      TsAndRustAgreeIff(st.seats);
    } else {
      RustSettlementConservesIff(st);
      SettleConserves(st);
    }
  }

  /** Both engines' settlement loops run on one hand. */
  method SettleTwice(st: State) returns (ts: State, rust: State)
    requires ReadyToSettle(st) && RustSettlement.CapOk(st.config)
    ensures ts == SettleShowdown(st) && rust == SettleShowdownRust(st)
    ensures ts == rust <==> NoFoldedOverhang(st.seats)
    ensures Funds(rust) == Funds(st) <==> NoFoldedOverhang(st.seats)
  {
    ts := Engine.SettleHand(st);
    RustLayersPay(st);
    rust := RustSettlement.SettleShowdown(st);
    EnginesSettleAlikeIff(st);
    RustSettlementConservesIff(st);
  }

  // ----- Along runs, only a short big blind can cause it -----

  function Cover(seats: seq<Seat>, blind: int): int
  {
    Max(DeepestLive(seats), blind)
  }

  /** No stake, and no stake a seat may still be asked for, exceeds both the deepest live stake and the big blind. */
  ghost predicate SeatsCovered(seats: seq<Seat>, currentBet: int, blind: int)
  {
    forall i :: 0 <= i < |seats| ==>
      && seats[i].totalBet <= Cover(seats, blind)
      && (Active(seats[i]) ==> Prior(seats[i]) + currentBet <= Cover(seats, blind))
  }

  ghost predicate Covered(st: State)
  {
    SeatsCovered(st.seats, st.currentBet, st.config.bigBlind)
  }

  ghost predicate CoveredInHand(st: State)
  {
    InHandStreet(st.street) ==> Covered(st)
  }

  lemma {:induction false} CoverAtLeast(seats: seq<Seat>, blind: int, i: nat)
    requires i < |seats| && !seats[i].folded
    ensures seats[i].totalBet <= Cover(seats, blind)
  {
  }

  /** A larger live stake never lowers the cover. */
  lemma {:induction false} CoverGrows(before: seq<Seat>, after: seq<Seat>, blind: int)
    requires |before| == |after| && blind >= 0
    requires forall i :: 0 <= i < |before| ==>
               after[i].folded == before[i].folded && after[i].totalBet >= before[i].totalBet
    ensures Cover(before, blind) <= Cover(after, blind)
  {
    if DeepestLive(before) > 0 {
      var i :| 0 <= i < |before| && !before[i].folded && before[i].totalBet == DeepestLive(before);
      assert after[i].totalBet <= DeepestLive(after);
    }
  }

  /** Seat `a` stakes more, and the bet to match is at most its new bet or stays. */
  lemma {:induction false} StakeCovered(seats: seq<Seat>, a: nat, s: Seat, before: int, after: int, blind: int)
    requires SeatsOk(seats, before) && Levelled(seats) && SeatsCovered(seats, before, blind) && blind >= 0
    requires a < |seats| && Active(seats[a]) && !s.folded
    requires s.totalBet >= seats[a].totalBet && Prior(s) == Prior(seats[a])
    requires after <= before || after == s.bet
    ensures SeatsCovered(seats[a := s], after, blind)
  {
    var next := seats[a := s];
    CoverGrows(seats, next, blind);
    CoverAtLeast(next, blind, a);
    forall i | 0 <= i < |next|
      ensures next[i].totalBet <= Cover(next, blind)
      ensures Active(next[i]) ==> Prior(next[i]) + after <= Cover(next, blind)
    {
      assert Prior(seats[i]) <= Prior(seats[a]);
    }
  }

  lemma {:induction false} PutInCovered(st: State, a: nat, amount: int, to: int)
    requires Core(st) && Covered(st) && a < |st.seats| && Active(st.seats[a]) && amount >= 0
    requires to <= st.currentBet || to == TakeChips(st.seats[a], amount).bet
    ensures SeatsCovered(PutIn(st, a, amount).seats, to, st.config.bigBlind)
  {
    assert SeatOk(st.seats[a], st.currentBet);
    StakeCovered(st.seats, a, TakeChips(st.seats[a], amount), st.currentBet, to, st.config.bigBlind);
  }

  lemma {:induction false} FoldCovered(st: State, a: nat)
    requires Core(st) && Covered(st) && a < |st.seats| && Active(st.seats[a]) && st.seats[a].bet < st.currentBet
    ensures SeatsCovered(st.seats[a := st.seats[a].(folded := true)], st.currentBet, st.config.bigBlind)
  {
    FoldKeepsCover(st.seats, a, st.config.bigBlind);
  }

  /** Folding below the cover leaves it where it is. */
  lemma {:induction false} FoldKeepsCover(seats: seq<Seat>, a: nat, blind: int)
    requires a < |seats| && blind >= 0 && seats[a].totalBet < Cover(seats, blind)
    ensures Cover(seats[a := seats[a].(folded := true)], blind) == Cover(seats, blind)
  {
    var after := seats[a := seats[a].(folded := true)];
    if DeepestLive(seats) > blind {
      var i :| 0 <= i < |seats| && !seats[i].folded && seats[i].totalBet == DeepestLive(seats);
      assert after[i].totalBet <= DeepestLive(after);
    }
    if DeepestLive(after) > blind {
      var i :| 0 <= i < |after| && !after[i].folded && after[i].totalBet == DeepestLive(after);
      assert seats[i].totalBet <= DeepestLive(seats);
    }
  }

  lemma {:induction false} WagerCovered(st: State, action: Action, amount: Option<int>)
    requires InHand(st) && Covered(st) && LegalMove(st, action, amount)
    ensures Covered(AfterWager(st, action, amount))
  {
    var a, bounds := st.acting.value, LegalActions(st)[action];
    BoundsAreSound(st, action);
    match action
    case Fold => FoldCovered(st, a);
    case Check =>
    case Call => CallCovered(st, a, bounds, amount);
    case Bet => RaiseCovered(st, a, action, bounds, amount);
    case Raise => RaiseCovered(st, a, action, bounds, amount);
    case AllIn => AllInCovered(st, a, bounds, amount);
  }

  lemma {:induction false} CallCovered(st: State, a: nat, bounds: Bounds, amount: Option<int>)
    requires Core(st) && Covered(st) && a < |st.seats| && Active(st.seats[a]) && st.seats[a].bet <= st.currentBet
    ensures Covered(Wager(st, a, Call, bounds, amount))
  {
    PutInCovered(st, a, st.currentBet - st.seats[a].bet, st.currentBet);
    CallOutcome(st, a, bounds, amount);
  }

  lemma {:induction false} CallOutcome(st: State, a: nat, bounds: Bounds, amount: Option<int>)
    requires a < |st.seats|
    requires SeatsCovered(PutIn(st, a, st.currentBet - st.seats[a].bet).seats, st.currentBet, st.config.bigBlind)
    ensures Covered(Wager(st, a, Call, bounds, amount))
  {
  }

  lemma {:induction false} RaiseCovered(st: State, a: nat, action: Action, bounds: Bounds, amount: Option<int>)
    requires Core(st) && Covered(st) && a < |st.seats| && Active(st.seats[a])
    requires (action == Bet || action == Raise) && Wanted(bounds, amount) >= 0
    ensures Covered(Wager(st, a, action, bounds, amount))
  {
    PutInCovered(st, a, Wanted(bounds, amount), TakeChips(st.seats[a], Wanted(bounds, amount)).bet);
  }

  lemma {:induction false} AllInCovered(st: State, a: nat, bounds: Bounds, amount: Option<int>)
    requires Core(st) && Covered(st) && a < |st.seats| && Active(st.seats[a])
    ensures Covered(Wager(st, a, AllIn, bounds, amount))
  {
    assert SeatOk(st.seats[a], st.currentBet);
    var bet := TakeChips(st.seats[a], st.seats[a].stack).bet;
    PutInCovered(st, a, st.seats[a].stack, if bet > st.currentBet then bet else st.currentBet);
  }

  lemma {:induction false} DealStreetCovered(st: State)
    requires WellFormed(st) && Covered(st) && NextDeal(|st.board|) > 0
    ensures Covered(DealStreet(st))
  {
    ResetCovered(st.seats, st.currentBet, st.config.bigBlind);
  }

  lemma {:induction false} ResetCovered(seats: seq<Seat>, currentBet: int, blind: int)
    requires SeatsCovered(seats, currentBet, blind)
    ensures SeatsCovered(ResetBets(seats), 0, blind)
  {
    SameStakes(seats, ResetBets(seats));
  }

  lemma {:induction false} SameStakes(before: seq<Seat>, after: seq<Seat>)
    requires |before| == |after|
    requires forall i :: 0 <= i < |before| ==>
               after[i].folded == before[i].folded && after[i].totalBet == before[i].totalBet
    ensures DeepestLive(after) == DeepestLive(before)
  {
    CoverGrows(before, after, 0);
    CoverGrows(after, before, 0);
  }

  lemma {:induction false} AdvanceCovered(st: State, a: nat)
    requires Core(st) && WellFormed(st) && a < |st.seats| && LiveSet(st.seats) != {} && Covered(st)
    ensures CoveredInHand(Advance(st, a))
  {
    if !StreetComplete(st) {
      SomebodyIsToAct(st, a);
    } else if st.street != River {
      ProceedCovered(st.(acting := None));
    }
  }

  lemma {:induction false} ProceedCovered(st: State)
    requires WellFormed(st) && LiveSet(st.seats) != {} && Covered(st) && st.acting == None
    ensures CoveredInHand(MaybeRunout(st))
  {
    if NextDeal(|st.board|) > 0 {
      DealStreetCovered(st);
    }
  }

  lemma {:induction false} ActionCovered(s: State, t: State, action: Action, amount: Option<int>)
    requires InHand(s) && Covered(s) && Plays(s, t, action, amount)
    ensures CoveredInHand(t)
  {
    LegalMovesAreAccepted(s, action, amount);
    var next, a := AfterWager(s, action, amount), s.acting.value;
    WagerActs(s, action, amount);
    WagerCovered(s, action, amount);
    ApplyUnfolds(s, action, amount);
    assert LiveSet(next.seats) != {} by {
      assert |LiveSet(s.seats) - {a}| >= 1;
    }
    AdvanceCovered(next, a);
  }

  lemma {:induction false} RunoutCovered(s: State, t: State)
    requires InHand(s) && Covered(s) && RunsOut(s, t)
    ensures CoveredInHand(t)
  {
    if NextDeal(|s.board|) > 0 {
      DealStreetCovered(s.(acting := None));
    }
  }

  lemma {:induction false} OpeningCovered(s: State, t: State, deck: seq<Card>)
    requires Resting(s) && Deals(s, t, deck)
    ensures CoveredInHand(t)
  {
    forall i | 0 <= i < |t.seats|
      ensures t.seats[i].totalBet <= t.config.bigBlind && Prior(t.seats[i]) == 0
    {
      OpeningSeatAt(s, deck, i);
    }
  }

  lemma {:induction false} NextCovered(s: State, t: State)
    requires Inv(s) && CoveredInHand(s) && Next(s, t)
    ensures CoveredInHand(t)
  {
    RestingOrInHand(s);
    if RunsOut(s, t) {
      RunoutCovered(s, t);
    } else if exists deck :: Deals(s, t, deck) {
      var deck :| Deals(s, t, deck);
      OpeningCovered(s, t, deck);
    } else {
      var action, amount :| Plays(s, t, action, amount);
      ActionCovered(s, t, action, amount);
    }
  }

  lemma {:induction false} RunCovered(trace: seq<State>, k: nat)
    requires Run(trace) && Resting(trace[0]) && k < |trace|
    ensures CoveredInHand(trace[k])
  {
    if k > 0 {
      RunCovered(trace, k - 1);
      RunKeeps(trace, k - 1);
      StepCovered(trace, k - 1);
    }
  }

  lemma {:induction false} StepCovered(trace: seq<State>, k: nat)
    requires Run(trace) && k + 1 < |trace| && Inv(trace[k]) && CoveredInHand(trace[k])
    ensures CoveredInHand(trace[k + 1])
  {
    assert StepAt(trace, k);
    NextCovered(trace[k], trace[k + 1]);
  }

  /** Along every run, the engines can disagree on a pot only while every live seat has staked less
      than the big blind: the big blind itself was posted short. */
  lemma {:induction false} OverhangNeedsShortBlind(trace: seq<State>, k: nat)
    requires Run(trace) && Resting(trace[0]) && k < |trace| && InHandStreet(trace[k].street)
    requires !NoFoldedOverhang(trace[k].seats)
    ensures forall i :: 0 <= i < |trace[k].seats| && !trace[k].seats[i].folded
                        ==> trace[k].seats[i].totalBet < trace[k].config.bigBlind
  {
    RunCovered(trace, k);
  }

  // ----- A run that does cause it -----

  /** The button has 20 chips, the small blind 1000 and the big blind only 30. */
  function ShortBlindTable(): State
  {
    ThreeHanded(20, 1000, 30)
  }

  /** A goes all-in for 20, B is next. */
  lemma {:induction false} ShortBlindAllIn(hand: State) returns (t: State)
    requires InHand(hand) && |hand.seats| == 3 && hand.acting == Some(0)
    requires hand.street == Preflop && hand.currentBet == 100 && hand.acted == {}
    requires Row(hand.seats[0], 20, 0, 0, false, false)
    requires Row(hand.seats[1], 950, 50, 50, false, false)
    requires Row(hand.seats[2], 0, 30, 30, false, true)
    ensures Next(hand, t) && InHand(t) && |t.seats| == 3 && t.acting == Some(1)
    ensures t.street == Preflop && t.currentBet == 100
    ensures Row(t.seats[0], 0, 20, 20, false, true)
    ensures Row(t.seats[1], 950, 50, 50, false, false)
    ensures Row(t.seats[2], 0, 30, 30, false, true)
  {
    ActionKeepsInv(hand, AllIn, None);
    t := ApplyAction(hand, AllIn, None).value;
    assert Plays(hand, t, AllIn, None);
    ApplyUnfolds(hand, AllIn, None);
    var next := Wager(hand, 0, AllIn, Range(20, 20), None);
    assert Row(next.seats[0], 0, 20, 20, false, true);
    TurnPassesToB(next);
  }

  lemma {:induction false} TurnPassesToB(st: State)
    requires WellFormed(st) && |st.seats| == 3 && st.currentBet == 100
    requires Row(st.seats[0], 0, 20, 20, false, true)
    requires Row(st.seats[1], 950, 50, 50, false, false)
    requires Row(st.seats[2], 0, 30, 30, false, true)
    ensures Advance(st, 0) == st.(acting := Some(1))
  {
    assert LiveSet(st.seats) == {0, 1, 2};
    assert 1 in ActiveSet(st.seats) && 1 in ToAct(st);
    Neighbour(3, 0, ToAct(st));
  }

  /** The state the hand is run out from, street by street. */
  ghost predicate Overhung(st: State)
  {
    && InHand(st) && |st.seats| == 3 && st.acting == None
    && st.seats[0].totalBet == 20 && !st.seats[0].folded && st.seats[0].allIn
    && st.seats[1].totalBet == 50 && st.seats[1].folded
    && st.seats[2].totalBet == 30 && !st.seats[2].folded && st.seats[2].allIn
  }

  /** B folds its 50; A and C are all-in for less. */
  lemma {:induction false} ShortBlindFold(hand: State) returns (t: State)
    requires InHand(hand) && |hand.seats| == 3 && hand.acting == Some(1)
    requires hand.street == Preflop && hand.currentBet == 100
    requires Row(hand.seats[0], 0, 20, 20, false, true)
    requires Row(hand.seats[1], 950, 50, 50, false, false)
    requires Row(hand.seats[2], 0, 30, 30, false, true)
    ensures Next(hand, t) && Overhung(t) && t.street == Preflop
  {
    ActionKeepsInv(hand, Fold, None);
    t := ApplyAction(hand, Fold, None).value;
    assert Plays(hand, t, Fold, None);
    ApplyUnfolds(hand, Fold, None);
    var next := Wager(hand, 1, Fold, NoAmount, None);
    BettingIsOver(next, 1);
  }

  lemma {:induction false} BettingIsOver(st: State, a: nat)
    requires WellFormed(st) && |st.seats| == 3 && st.street == Preflop && |st.board| == 0
    requires !st.seats[0].folded && st.seats[0].allIn && st.seats[1].folded && !st.seats[2].folded && st.seats[2].allIn
    ensures Advance(st, a) == st.(acting := None)
  {
    assert LiveSet(st.seats) == {0, 2};
    assert ActiveSet(st.seats) == {};
  }

  lemma {:induction false} OverhungRunsOut(st: State) returns (t: State)
    requires Overhung(st) && st.street != River
    ensures Next(st, t) && Overhung(t) && StreetsLeft(t.street) == StreetsLeft(st.street) - 1
  {
    assert LegalActions(st) == map[];
    t := ContinueRunout(st);
    RunoutKeepsInv(st);
    assert RunsOut(st, t);
  }

  /** In such a hand 20 of the 100 chips vanish at a Rust showdown, and none at a TypeScript one. */
  lemma {:induction false} OverhungLoses(st: State)
    requires Overhung(st)
    ensures !NoFoldedOverhang(st.seats) && ReadyToSettle(st)
    ensures st.pot == 100 && Funds(SettleShowdown(st)) == Funds(st) && Funds(SettleShowdownRust(st)) == Funds(st) - 20
  {
    OverhungSums(st.seats);
    assert forall i :: 0 <= i < |st.seats| ==> SeatOk(st.seats[i], st.currentBet);
    RustSettlementConservesIff(st);
    SettleConserves(st);
  }

  lemma {:induction false} OverhungSums(seats: seq<Seat>)
    requires |seats| == 3 && seats[0].totalBet == 20 && seats[1].totalBet == 50 && seats[2].totalBet == 30
    requires !seats[0].folded && seats[1].folded && !seats[2].folded
    ensures DeepestLive(seats) == 30 && !NoFoldedOverhang(seats)
    ensures Sum(Capped(seats, 30)) == 80 && Sum(Totals(seats)) == 100
  {
    assert DeepestLive(seats) == 30;
    assert seats[1].totalBet > DeepestLive(seats);
    assert Capped(seats, 30) == [20, 30, 30];
    assert Totals(seats) == [20, 50, 30];
    SumOfThree(20, 30, 30);
    SumOfThree(20, 50, 30);
  }

  lemma {:induction false} SumOfThree(a: int, b: int, c: int)
    ensures Sum([a, b, c]) == a + b + c
  {
    assert [a, b, c][..2] == [a, b] && [a, b][..1] == [a] && [a][..0] == [];
    assert Sum([a]) == a;
    assert Sum([a, b]) == a + b;
  }

  lemma {:induction false} RunToRiver(trace: seq<State>) returns (longer: seq<State>)
    requires Run(trace) && Overhung(trace[|trace| - 1])
    ensures Run(longer) && longer[0] == trace[0]
    ensures Overhung(longer[|longer| - 1]) && longer[|longer| - 1].street == River
    decreases StreetsLeft(trace[|trace| - 1].street)
  {
    var last := trace[|trace| - 1];
    if last.street == River {
      longer := trace;
    } else {
      longer := OverhungRunsOn(trace);
      longer := RunToRiver(longer);
    }
  }

  lemma {:induction false} OverhungRunsOn(trace: seq<State>) returns (longer: seq<State>)
    requires Run(trace) && Overhung(trace[|trace| - 1]) && trace[|trace| - 1].street != River
    ensures Run(longer) && longer[0] == trace[0] && Overhung(longer[|longer| - 1])
    ensures StreetsLeft(longer[|longer| - 1].street) == StreetsLeft(trace[|trace| - 1].street) - 1
  {
    var t := OverhungRunsOut(trace[|trace| - 1]);
    longer := Onward(trace, trace[|trace| - 1], t);
  }

  /** From that table, with any deck, a legal run reaches a river where the Rust engine loses chips. */
  lemma {:induction false} RustLosesChips(deck: seq<Card>) returns (trace: seq<State>)
    requires IsDeck(deck)
    ensures Run(trace) && Resting(trace[0]) && trace[0] == ShortBlindTable()
    ensures var st := trace[|trace| - 1];
            && InHand(st) && st.street == River && st.acting == None
            && ReadyToSettle(st) && Funds(SettleShowdownRust(st)) == Funds(st) - 20
  {
    var hand := ThreeDealt(20, 1000, 30, deck);
    trace := [ShortBlindTable()];
    RunExtends(trace, hand);
    trace := trace + [hand];
    var t := ShortBlindAllIn(hand);
    RunExtends(trace, t);
    trace := trace + [t];
    t := ShortBlindFold(t);
    RunExtends(trace, t);
    trace := RunToRiver(trace + [t]);
    OverhungLoses(trace[|trace| - 1]);
  }
}
