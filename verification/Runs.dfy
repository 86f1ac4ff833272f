/** Whole runs of the engine under its host: hands are dealt only between hands, a player with
    options picks any of them, and a state without options is run out. */
module Runs {
  import opened Prelude
  import opened Cards
  import opened Table
  import opened Holdem
  import opened Invariant
  import opened Opening

  // ----- Steps -----

  ghost predicate Deals(s: State, t: State, deck: seq<Card>)
  {
    !InHandStreet(s.street) && IsDeck(deck) && CanStart(s, deck) && StartHand(s, deck) == Ok(t)
  }

  ghost predicate Plays(s: State, t: State, action: Action, amount: Option<int>)
  {
    InHandStreet(s.street) && WellFormed(s) && ApplyAction(s, action, amount) == Ok(t)
  }

  ghost predicate RunsOut(s: State, t: State)
  {
    InHandStreet(s.street) && WellFormed(s) && LegalActions(s) == map[] && t == ContinueRunout(s)
  }

  ghost predicate Next(s: State, t: State)
  {
    || (exists deck :: Deals(s, t, deck))
    || (exists action, amount :: Plays(s, t, action, amount))
    || RunsOut(s, t)
  }

  ghost predicate StepAt(trace: seq<State>, i: nat)
    requires i + 1 < |trace|
  {
    Next(trace[i], trace[i + 1])
  }

  ghost predicate Run(trace: seq<State>)
  {
    |trace| > 0 && forall i: nat :: i + 1 < |trace| ==> StepAt(trace, i)
  }

  ghost predicate Linked(trace: seq<State>, t: State)
  {
    Run(trace) && Next(trace[|trace| - 1], t)
  }

  lemma {:induction false} RunExtends(trace: seq<State>, t: State)
    requires Linked(trace, t)
    ensures Run(trace + [t])
  {
    var longer := trace + [t];
    forall i: nat | i + 1 < |longer|
      ensures StepAt(longer, i)
    {
      if i + 1 < |trace| {
        assert StepAt(trace, i);
      }
    }
  }

  // ----- Safety -----

  lemma {:induction false} RestingOrInHand(st: State)
    requires Inv(st)
    ensures InHandStreet(st.street) ==> InHand(st)
    ensures !InHandStreet(st.street) ==> Resting(st)
  {
  }

  lemma {:induction false} NextKeeps(s: State, t: State)
    requires Inv(s) && Next(s, t)
    ensures Kept(s, t)
  {
    RestingOrInHand(s);
    if RunsOut(s, t) {
      RunoutKeepsInv(s);
    } else if exists deck :: Deals(s, t, deck) {
      var deck :| Deals(s, t, deck);
      StartHandEnters(s, deck);
    } else {
      var action, amount :| Plays(s, t, action, amount);
      LegalMovesAreAccepted(s, action, amount);
      ActionKeepsInv(s, action, amount);
    }
  }

  lemma {:induction false} RunKeeps(trace: seq<State>, k: nat)
    requires Run(trace) && Inv(trace[0]) && k < |trace|
    ensures Kept(trace[0], trace[k])
  {
    if k > 0 {
      RunKeeps(trace, k - 1);
      StepKeeps(trace, k - 1);
    }
  }

  lemma {:induction false} StepKeeps(trace: seq<State>, k: nat)
    requires Run(trace) && k + 1 < |trace| && Inv(trace[k])
    ensures Kept(trace[k], trace[k + 1])
  {
    assert StepAt(trace, k);
    NextKeeps(trace[k], trace[k + 1]);
  }

  /** Over any run of any number of hands, stacks, pot and rake add up to the opening funds. */
  lemma {:induction false} RunsConserveChips(trace: seq<State>)
    requires Run(trace) && Inv(trace[0])
    ensures forall i :: 0 <= i < |trace| ==> Inv(trace[i]) && Funds(trace[i]) == Funds(trace[0])
  {
    forall i | 0 <= i < |trace|
      ensures Inv(trace[i]) && Funds(trace[i]) == Funds(trace[0])
    {
      RunKeeps(trace, i);
    }
  }

  /** No stack, bet, pot or net award is ever negative. */
  lemma {:induction false} NothingIsNegative(trace: seq<State>, k: nat)
    requires Run(trace) && Inv(trace[0]) && k < |trace|
    ensures var st := trace[k];
            && st.pot >= 0 && st.sessionRake >= 0
            && (forall i :: 0 <= i < |st.seats| ==> st.seats[i].stack >= 0)
            && (InHandStreet(st.street) ==>
                  forall i :: 0 <= i < |st.seats| ==> 0 <= st.seats[i].bet <= st.seats[i].totalBet)
            && (!InHandStreet(st.street) ==> forall j :: 0 <= j < |st.winners| ==> st.winners[j].amount >= 0)
  {
    RunKeeps(trace, k);
    InvNonNegative(trace[k]);
  }

  lemma {:induction false} InvNonNegative(st: State)
    requires Inv(st)
    ensures st.pot >= 0 && st.sessionRake >= 0
    ensures forall i :: 0 <= i < |st.seats| ==> st.seats[i].stack >= 0
    ensures InHandStreet(st.street) ==> forall i :: 0 <= i < |st.seats| ==> 0 <= st.seats[i].bet <= st.seats[i].totalBet
    ensures !InHandStreet(st.street) ==> forall j :: 0 <= j < |st.winners| ==> st.winners[j].amount >= 0
  {
    RestingOrInHand(st);
    if InHand(st) {
      assert forall i :: 0 <= i < |st.seats| ==> SeatOk(st.seats[i], st.currentBet);
    }
  }

  /** A hand in progress always has a next step. */
  lemma {:induction false} NeverStuck(st: State)
    requires InHand(st)
    ensures exists t :: Next(st, t)
  {
    var t := SomeStep(st);
  }

  lemma {:induction false} SomeStep(st: State) returns (t: State)
    requires InHand(st)
    ensures Next(st, t)
  {
    if LegalActions(st) == map[] {
      t := ContinueRunout(st);
      assert RunsOut(st, t);
    } else {
      var action := SomeOption(st);
      LegalMovesAreAccepted(st, action, None);
      t := ApplyAction(st, action, None).value;
      assert Plays(st, t, action, None);
    }
  }

  lemma {:induction false} SomeOption(st: State) returns (action: Action)
    requires InHand(st) && LegalActions(st) != map[]
    ensures action in LegalActions(st) && LegalMove(st, action, None)
  {
    action :| action in LegalActions(st);
  }

  // ----- Termination -----

  function StreetsLeft(street: Street): nat
  {
    match street
    case Preflop => 4
    case Flop => 3
    case Turn => 2
    case River => 1
    case _ => 0
  }

  /** Streets left, and whether somebody is still to act on this one. */
  function Phase(st: State): nat
    requires WellFormed(st)
  {
    2 * StreetsLeft(st.street) + if LegalActions(st) == map[] then 0 else 1
  }

  function Unacted(st: State): set<nat>
  {
    ActiveSet(st.seats) - st.acted
  }

  ghost predicate LexLess(p: int, x: int, y: int, z: int, p': int, x': int, y': int, z': int)
  {
    || p < p'
    || (p == p' && x < x')
    || (p == p' && x == x' && y < y')
    || (p == p' && x == x' && y == y' && z < z')
  }

  /** The lexicographic measure (phase, stacks, live seats, seats yet to act). */
  ghost predicate Smaller(t: State, s: State)
    requires WellFormed(t) && WellFormed(s)
  {
    LexLess(Phase(t), Sum(Stacks(t.seats)), |LiveSet(t.seats)|, |Unacted(t)|,
            Phase(s), Sum(Stacks(s.seats)), |LiveSet(s.seats)|, |Unacted(s)|)
  }

  /** An action that does not end the street moves chips, folds a seat, or leaves fewer seats to act. */
  ghost predicate Shrinks(t: State, s: State)
  {
    || Sum(Stacks(t.seats)) < Sum(Stacks(s.seats))
    || (Sum(Stacks(t.seats)) == Sum(Stacks(s.seats)) && |LiveSet(t.seats)| < |LiveSet(s.seats)|)
    || (Sum(Stacks(t.seats)) == Sum(Stacks(s.seats)) && |LiveSet(t.seats)| == |LiveSet(s.seats)|
      && |Unacted(t)| < |Unacted(s)|)
  }

  lemma {:induction false} FoldShrinks(st: State, a: nat, bounds: Bounds, amount: Option<int>)
    requires a in LiveSet(st.seats)
    ensures Shrinks(Wager(st, a, Fold, bounds, amount), st)
  {
    var next := Wager(st, a, Fold, bounds, amount);
    assert Stacks(next.seats) == Stacks(st.seats);
    assert LiveSet(next.seats) == LiveSet(st.seats) - {a};
  }

  lemma {:induction false} CheckShrinks(st: State, a: nat, bounds: Bounds, amount: Option<int>)
    requires a in Unacted(st)
    ensures Shrinks(Wager(st, a, Check, bounds, amount), st)
  {
    assert Unacted(Wager(st, a, Check, bounds, amount)) == Unacted(st) - {a};
  }

  /** Every other action puts chips in. */
  lemma {:induction false} PayingShrinks(st: State, a: nat, paid: int, next: State)
    requires a < |st.seats| && paid > 0 && st.seats[a].stack > 0 && next.seats == PutIn(st, a, paid).seats
    ensures Shrinks(next, st)
  {
    PutInSums(st, a, paid);
  }

  lemma {:induction false} WagerShrinks(st: State, action: Action, amount: Option<int>)
    requires InHand(st) && LegalMove(st, action, amount)
    ensures Shrinks(AfterWager(st, action, amount), st)
  {
    var a, bounds, next := st.acting.value, LegalActions(st)[action], AfterWager(st, action, amount);
    BoundsAreSound(st, action);
    match action
    case Fold => FoldShrinks(st, a, bounds, amount);
    case Check => CheckShrinks(st, a, bounds, amount);
    case Call => PayingShrinks(st, a, st.currentBet - st.seats[a].bet, next);
    case Bet => PayingShrinks(st, a, Wanted(bounds, amount), next);
    case Raise => PayingShrinks(st, a, Wanted(bounds, amount), next);
    case AllIn => PayingShrinks(st, a, st.seats[a].stack, next);
  }

  /** How a turn can pass. */
  lemma {:induction false} AdvanceOutcomes(st: State, a: nat)
    requires Core(st) && WellFormed(st) && LiveSet(st.seats) != {} && a < |st.seats|
    ensures var r := Advance(st, a);
            || r.street == Street.Settlement
            || StreetsLeft(r.street) < StreetsLeft(st.street)
            || r == st.(acting := None)
            || (r.acting.Some? && r == st.(acting := r.acting))
  {
    if !StreetComplete(st) {
      SomebodyIsToAct(st, a);
    } else if st.street != River {
      RunoutOutcomes(st.(acting := None));
    }
  }

  lemma {:induction false} RunoutOutcomes(st: State)
    requires Core(st) && WellFormed(st) && LiveSet(st.seats) != {} && st.acting == None && st.street != River
    ensures var r := MaybeRunout(st);
            || r.street == Street.Settlement
            || StreetsLeft(r.street) < StreetsLeft(st.street)
            || r == st
  {
  }

  lemma {:induction false} ActionShrinks(s: State, t: State, action: Action, amount: Option<int>)
    requires InHand(s) && Plays(s, t, action, amount) && InHand(t)
    ensures Smaller(t, s)
  {
    LegalMovesAreAccepted(s, action, amount);
    var next, a := AfterWager(s, action, amount), s.acting.value;
    WagerActs(s, action, amount);
    WagerShrinks(s, action, amount);
    ApplyUnfolds(s, action, amount);
    assert LiveSet(next.seats) != {} by {
      assert |LiveSet(s.seats) - {a}| >= 1;
    }
    AdvanceOutcomes(next, a);
    PassingShrinks(s, next, t);
  }

  lemma {:induction false} PassingShrinks(s: State, next: State, t: State)
    requires WellFormed(s) && WellFormed(t) && LegalActions(s) != map[]
    requires next.street == s.street && Shrinks(next, s)
    requires InHandStreet(t.street)
    requires || StreetsLeft(t.street) < StreetsLeft(next.street)
             || t == next.(acting := None)
             || t == next.(acting := t.acting)
    ensures Smaller(t, s)
  {
  }

  lemma {:induction false} RunoutShrinks(s: State, t: State)
    requires InHand(s) && RunsOut(s, t) && InHand(t)
    ensures Smaller(t, s)
  {
    assert t.acting == None;
    assert LegalActions(t) == map[];
    assert StreetsLeft(t.street) < StreetsLeft(s.street);
  }

  // ----- A bound on the length of a hand -----

  /** A two-digit number. */
  function Mix(high: nat, low: nat, base: nat): nat
  {
    high * base + low
  }

  /** The measure as one number; `funds` bounds the stacks. */
  function Fuel(st: State, funds: nat): nat
    requires WellFormed(st) && Sum(Stacks(st.seats)) >= 0
  {
    var n := |st.seats| + 1;
    Mix(Mix(Mix(Phase(st), Sum(Stacks(st.seats)), funds + 1), |LiveSet(st.seats)|, n), |Unacted(st)|, n)
  }

  lemma {:induction false} Carry(p: nat, x: nat, q: nat, y: nat, base: nat)
    requires x < base && (p < q || (p == q && x < y))
    ensures Mix(p, x, base) < Mix(q, y, base)
  {
    if p < q {
      MulAtLeast(q - p, base);
      assert q * base == p * base + (q - p) * base;
    }
  }

  lemma {:induction false} StacksWithinFunds(st: State)
    requires InHand(st)
    ensures 0 <= Sum(Stacks(st.seats)) <= Funds(st)
  {
    assert forall i :: 0 <= i < |st.seats| ==> SeatOk(st.seats[i], st.currentBet);
    SumBounds(Stacks(st.seats));
  }

  lemma {:induction false} FuelDrops(s: State, t: State, funds: nat)
    requires WellFormed(s) && WellFormed(t) && Smaller(t, s)
    requires |s.seats| == |t.seats| && 0 <= Sum(Stacks(s.seats)) && 0 <= Sum(Stacks(t.seats)) <= funds
    ensures Fuel(t, funds) < Fuel(s, funds)
  {
    var n := |s.seats|;
    RangeSize(LiveSet(t.seats), n);
    RangeSize(Unacted(t), n);
    FuelArithmetic(Phase(t), Sum(Stacks(t.seats)), |LiveSet(t.seats)|, |Unacted(t)|,
                   Phase(s), Sum(Stacks(s.seats)), |LiveSet(s.seats)|, |Unacted(s)|, funds + 1, n + 1);
  }

  lemma {:induction false} FuelArithmetic(p: nat, x: nat, y: nat, z: nat, p': nat, x': nat, y': nat, z': nat, f: nat,
                                          n: nat)
    requires x < f && y < n && z < n
    requires LexLess(p, x, y, z, p', x', y', z')
    ensures Mix(Mix(Mix(p, x, f), y, n), z, n) < Mix(Mix(Mix(p', x', f), y', n), z', n)
  {
    var u, u' := Mix(p, x, f), Mix(p', x', f);
    if p < p' || x < x' {
      Carry(p, x, p', x', f);
    }
    var v, v' := Mix(u, y, n), Mix(u', y', n);
    if u < u' || y < y' {
      Carry(u, y, u', y', n);
    }
    Carry(v, z, v', z', n);
  }

  ghost predicate Drops(s: State, t: State)
  {
    && Funds(t) == Funds(s) >= 0
    && WellFormed(s) && WellFormed(t)
    && Sum(Stacks(s.seats)) >= 0 && Sum(Stacks(t.seats)) >= 0
    && Fuel(t, Funds(s)) < Fuel(s, Funds(s))
  }

  lemma {:induction false} HandStepDrops(s: State, t: State)
    requires InHand(s) && Next(s, t) && InHand(t)
    ensures Drops(s, t)
  {
    NextKeeps(s, t);
    StacksWithinFunds(s);
    StacksWithinFunds(t);
    if RunsOut(s, t) {
      RunoutShrinks(s, t);
    } else {
      var action, amount :| Plays(s, t, action, amount);
      ActionShrinks(s, t, action, amount);
    }
    FuelDrops(s, t, Funds(s));
  }

  ghost predicate InHandAt(trace: seq<State>, i: nat)
    requires i < |trace|
  {
    InHand(trace[i])
  }

  /** A run that stays inside one hand. */
  ghost predicate HandRun(trace: seq<State>)
  {
    Run(trace) && forall i: nat :: i < |trace| ==> InHandAt(trace, i)
  }

  /** A strictly falling sequence of naturals is no longer than its first entry allows. */
  lemma {:induction false} FallingIsShort(f: seq<nat>)
    requires |f| > 0 && forall i: nat :: i + 1 < |f| ==> f[i + 1] < f[i]
    ensures |f| <= f[0] + 1
  {
    if |f| > 1 {
      FallingIsShort(f[1..]);
    }
  }

  lemma {:induction false} StepDrops(trace: seq<State>, k: nat)
    requires HandRun(trace) && k + 1 < |trace|
    ensures Drops(trace[k], trace[k + 1])
  {
    assert StepAt(trace, k) && InHandAt(trace, k) && InHandAt(trace, k + 1);
    HandStepDrops(trace[k], trace[k + 1]);
  }

  lemma {:induction false} FundsStay(trace: seq<State>, k: nat)
    requires HandRun(trace) && k < |trace|
    ensures Funds(trace[k]) == Funds(trace[0])
  {
    if k > 0 {
      FundsStay(trace, k - 1);
      StepDrops(trace, k - 1);
    }
  }

  /** The measure, and 0 where it does not apply. */
  ghost function FuelOf(st: State, funds: int): nat
  {
    if WellFormed(st) && Sum(Stacks(st.seats)) >= 0 && funds >= 0 then Fuel(st, funds) else 0
  }

  /** Every hand ends: a run inside one hand is no longer than a bound fixed at its start. */
  lemma {:induction false} HandsEnd(trace: seq<State>)
    requires HandRun(trace)
    ensures |trace| <= FuelOf(trace[0], Funds(trace[0])) + 1
  {
    var f := Fuels(trace, Funds(trace[0]));
    forall i: nat | i + 1 < |f|
      ensures f[i + 1] < f[i]
    {
      FundsStay(trace, i);
      StepDrops(trace, i);
      FuelOfDrops(trace[i], trace[i + 1]);
    }
    FallingIsShort(f);
  }

  ghost function Fuels(trace: seq<State>, funds: int): (f: seq<nat>)
    ensures |f| == |trace|
    ensures forall i :: 0 <= i < |trace| ==> f[i] == FuelOf(trace[i], funds)
  {
    seq(|trace|, i requires 0 <= i < |trace| => FuelOf(trace[i], funds))
  }

  lemma {:induction false} FuelOfDrops(s: State, t: State)
    requires Drops(s, t)
    ensures FuelOf(t, Funds(s)) < FuelOf(s, Funds(s))
  {
  }
}
