/** Short all-ins do not reopen the betting (packages/game-rules/src/holdem.ts, lines 424-456 and 911-953). */
module ShortAllIn {
  import opened Prelude
  import opened Table
  import opened Holdem
  import opened Invariant
  import opened Runs
  import opened Cards
  import opened Scenes

  /** Size of the raise an all-in by the acting seat would make. */
  function AllInRaise(st: State): int
    requires st.acting.Some? && st.acting.value < |st.seats|
  {
    st.seats[st.acting.value].bet + st.seats[st.acting.value].stack - st.currentBet
  }

  /** Actions that reopen the betting: any bet or raise, and an all-in that raises by the minimum or more. */
  predicate Reopens(st: State, action: Action)
    requires st.acting.Some? && st.acting.value < |st.seats|
  {
    action == Bet || action == Raise || (action == AllIn && AllInRaise(st) > 0 && AllInRaise(st) >= st.minRaise)
  }

  predicate IsShortAllIn(st: State, action: Action)
    requires st.acting.Some? && st.acting.value < |st.seats|
  {
    action == AllIn && 0 < AllInRaise(st) < st.minRaise
  }

  /** Fold, call, or put in no more than the call. */
  ghost predicate MayOnlyCall(st: State)
    requires WellFormed(st) && st.acting.Some?
  {
    var legal, seat := LegalActions(st), st.seats[st.acting.value];
    && Fold in legal
    && Check !in legal && Bet !in legal && Raise !in legal
    && (AllIn in legal ==> seat.stack <= st.currentBet - seat.bet)
  }

  lemma {:induction false} CappedMayOnlyCall(st: State)
    requires InHand(st) && st.acting.Some? && Active(st.seats[st.acting.value]) && IsCapped(st, st.acting.value)
    ensures MayOnlyCall(st)
  {
  }

  /** What an action does to the cap. */
  lemma {:induction false} WagerAndCap(st: State, action: Action, amount: Option<int>)
    requires InHand(st) && LegalMove(st, action, amount)
    ensures var next := AfterWager(st, action, amount);
            if Reopens(st, action) then next.lastRaiseComplete
            else st.acted <= next.acted
                 && next.lastRaiseComplete == (st.lastRaiseComplete && !IsShortAllIn(st, action))
  {
    BoundsAreSound(st, action);
  }

  /** The turn passes within the street, or the street is over. */
  lemma {:induction false} PlayAndCap(s: State, t: State, action: Action, amount: Option<int>)
    requires InHand(s) && Plays(s, t, action, amount) && InHand(t) && t.street == s.street
    ensures LegalMove(s, action, amount)
    ensures if Reopens(s, action) then t.lastRaiseComplete
            else s.acted <= t.acted && t.lastRaiseComplete == (s.lastRaiseComplete && !IsShortAllIn(s, action))
  {
    LegalMovesAreAccepted(s, action, amount);
    var next, a := AfterWager(s, action, amount), s.acting.value;
    WagerActs(s, action, amount);
    WagerAndCap(s, action, amount);
    ApplyUnfolds(s, action, amount);
    assert LiveSet(next.seats) != {} by {
      assert |LiveSet(s.seats) - {a}| >= 1;
    }
    AdvanceOutcomes(next, a);
  }

  datatype Move = Move(action: Action, amount: Option<int>)

  ghost predicate MoveAt(trace: seq<State>, moves: seq<Move>, i: nat)
    requires |trace| == |moves| + 1 && i < |moves|
  {
    && InHand(trace[i]) && InHand(trace[i + 1])
    && Plays(trace[i], trace[i + 1], moves[i].action, moves[i].amount)
    && trace[i + 1].street == trace[0].street == trace[i].street
    && trace[i].acting.Some?
  }

  /** A street: the first move is a short all-in, and no later one reopens the betting. */
  ghost predicate AfterShortAllIn(trace: seq<State>, moves: seq<Move>)
  {
    && |trace| == |moves| + 1 >= 2
    && (forall i: nat :: i < |moves| ==> MoveAt(trace, moves, i))
    && MoveAt(trace, moves, 0) && IsShortAllIn(trace[0], moves[0].action)
    && (forall i: nat :: 0 < i < |moves| && MoveAt(trace, moves, i) ==> !Reopens(trace[i], moves[i].action))
  }

  lemma {:induction false} CapPersists(trace: seq<State>, moves: seq<Move>, k: nat)
    requires AfterShortAllIn(trace, moves) && 0 < k < |trace|
    ensures !trace[k].lastRaiseComplete && trace[0].acted <= trace[k].acted
  {
    assert MoveAt(trace, moves, k - 1);
    PlayAndCap(trace[k - 1], trace[k], moves[k - 1].action, moves[k - 1].amount);
    if k > 1 {
      CapPersists(trace, moves, k - 1);
    }
  }

  /** After a short all-in, whoever had already acted may only fold, call, or go all-in for no more
      than the call, until somebody reopens the betting or the street ends. */
  lemma {:induction false} ShortAllInRule(trace: seq<State>, moves: seq<Move>, k: nat, x: nat)
    requires AfterShortAllIn(trace, moves) && 0 < k < |trace|
    requires x in trace[0].acted && trace[k].acting == Some(x)
    ensures InHand(trace[k])
    ensures LegalActions(trace[k]) == map[] || MayOnlyCall(trace[k])
  {
    CapPersists(trace, moves, k);
    assert MoveAt(trace, moves, k - 1);
    NoOptions(trace[k]);
    if LegalActions(trace[k]) != map[] {
      CappedMayOnlyCall(trace[k]);
    }
  }

  /** A reopening action lifts the cap for everybody. */
  lemma {:induction false} ReopeningLiftsCap(s: State, t: State, action: Action, amount: Option<int>, x: nat)
    requires InHand(s) && Plays(s, t, action, amount) && InHand(t) && t.street == s.street
    requires s.acting.Some? && Reopens(s, action)
    ensures !IsCapped(t, x)
  {
    PlayAndCap(s, t, action, amount);
  }

  // ----- Bets and raises by short stacks -----

  /** A bet leaves the minimum raise below the big blind exactly when the bettor's stack was below it. */
  lemma {:induction false} ShortBetLowersMinRaise(st: State, amount: Option<int>)
    requires InHand(st) && LegalMove(st, Bet, amount)
    ensures AfterWager(st, Bet, amount).minRaise < st.config.bigBlind
            <==> st.seats[st.acting.value].stack < st.config.bigBlind
    ensures AfterWager(st, Bet, amount).minRaise > 0
  {
    BoundsAreSound(st, Bet);
  }

  /** A raise always reopens the betting, even when the stack only allowed less than a full raise; an
      all-in of the same size would not have. */
  lemma {:induction false} ShortRaiseReopens(st: State, amount: Option<int>)
    requires InHand(st) && LegalMove(st, Raise, amount)
    ensures var next, seat := AfterWager(st, Raise, amount), st.seats[st.acting.value];
            && next.lastRaiseComplete && next.acted == {st.acting.value}
            && (next.currentBet - st.currentBet < st.minRaise <==> seat.bet + seat.stack < st.currentBet + st.minRaise)
            && (next.currentBet - st.currentBet < st.minRaise ==>
                  AllIn in LegalActions(st) && !AfterWager(st, AllIn, None).lastRaiseComplete
                  && AfterWager(st, AllIn, None).currentBet == next.currentBet)
  {
    BoundsAreSound(st, Raise);
  }

  /** A street that begins with a raise of any size and sees no short all-in. */
  ghost predicate AfterRaise(trace: seq<State>, moves: seq<Move>)
  {
    && |trace| == |moves| + 1 >= 2
    && (forall i: nat :: i < |moves| ==> MoveAt(trace, moves, i))
    && MoveAt(trace, moves, 0) && moves[0].action == Raise
    && (forall i: nat :: 0 < i < |moves| && MoveAt(trace, moves, i) ==> !IsShortAllIn(trace[i], moves[i].action))
  }

  lemma {:induction false} NoCapPersists(trace: seq<State>, moves: seq<Move>, k: nat)
    requires AfterRaise(trace, moves) && 0 < k < |trace|
    ensures trace[k].lastRaiseComplete
  {
    assert MoveAt(trace, moves, k - 1);
    PlayAndCap(trace[k - 1], trace[k], moves[k - 1].action, moves[k - 1].amount);
    if k > 1 {
      NoCapPersists(trace, moves, k - 1);
    }
  }

  /** After a raise, however short, anybody who has more than the call may raise again, until a short all-in
      or the end of the street: seats that had already acted are no exception. */
  lemma {:induction false} RaiseReopensStreet(trace: seq<State>, moves: seq<Move>, k: nat, x: nat)
    requires AfterRaise(trace, moves) && 0 < k < |trace| && trace[k].acting == Some(x)
    ensures InHand(trace[k])
    ensures var st, seat := trace[k], trace[k].seats[x];
            Active(seat) && 0 < st.currentBet - seat.bet < seat.stack ==> Raise in LegalActions(st)
  {
    NoCapPersists(trace, moves, k);
    assert MoveAt(trace, moves, k - 1);
    UncappedMayRaise(trace[k], x);
  }

  lemma {:induction false} UncappedMayRaise(st: State, x: nat)
    requires InHand(st) && st.acting == Some(x) && st.lastRaiseComplete
    ensures Active(st.seats[x]) && 0 < st.currentBet - st.seats[x].bet < st.seats[x].stack ==> Raise in LegalActions(st)
  {
  }

  /** After a bet by a stack below the big blind, the next player with chips to spare may raise by less than a
      big blind. */
  lemma {:induction false} ShortBetAllowsSmallRaise(s: State, t: State, amount: Option<int>, x: nat)
    requires InHand(s) && Plays(s, t, Bet, amount) && InHand(t) && t.street == s.street && t.acting == Some(x)
    requires s.acting.Some? && s.seats[s.acting.value].stack < s.config.bigBlind
    requires Active(t.seats[x]) && 0 < t.currentBet - t.seats[x].bet < t.seats[x].stack
    ensures Raise in LegalActions(t) && LegalMove(t, Raise, None)
    ensures 0 < AfterWager(t, Raise, None).currentBet - t.currentBet < t.config.bigBlind
  {
    PlayAndCap(s, t, Bet, amount);
    BetPassesOn(s, t, amount);
    BoundsAreSound(t, Raise);
  }

  lemma {:induction false} BetPassesOn(s: State, t: State, amount: Option<int>)
    requires InHand(s) && Plays(s, t, Bet, amount) && InHand(t) && t.street == s.street
    ensures LegalMove(s, Bet, amount) && t.config == s.config && t.minRaise == AfterWager(s, Bet, amount).minRaise
    ensures s.seats[s.acting.value].stack < s.config.bigBlind ==> t.minRaise < s.config.bigBlind
  {
    LegalMovesAreAccepted(s, Bet, amount);
    var next, a := AfterWager(s, Bet, amount), s.acting.value;
    WagerActs(s, Bet, amount);
    ShortBetLowersMinRaise(s, amount);
    ApplyUnfolds(s, Bet, amount);
    assert LiveSet(next.seats) != {} by {
      assert |LiveSet(s.seats) - {a}| >= 1;
    }
    AdvanceOutcomes(next, a);
  }

  // ----- Runs that show it -----

  ghost predicate ThreeRows(st: State, a: int, aBet: int, b: int, bBet: int, c: int, cBet: int)
  {
    && InHand(st) && |st.seats| == 3 && st.street == Preflop && st.config.bigBlind == 100
    && Row(st.seats[0], a, aBet, aBet, false, a == 0)
    && Row(st.seats[1], b, bBet, bBet, false, b == 0)
    && Row(st.seats[2], c, cBet, cBet, false, c == 0)
  }

  lemma {:induction false} ARaise(hand: State)
    requires Fresh(hand, 3, 0) && ThreeRows(hand, 1000, 0, 950, 50, 300, 100)
    ensures LegalMove(hand, Raise, Some(300))
    ensures var next := AfterWager(hand, Raise, Some(300));
            && |next.seats| == 3 && Row(next.seats[0], 700, 300, 300, false, false)
            && next.seats[1] == hand.seats[1] && next.seats[2] == hand.seats[2]
            && next.currentBet == 300 && next.minRaise == 200 && next.acted == {0} && next.lastRaiseComplete
            && 1 in ToAct(next)
  {
  }

  /** A, with 1000, raises to 300. */
  lemma {:induction false} ARaises(hand: State) returns (t: State)
    requires Fresh(hand, 3, 0) && ThreeRows(hand, 1000, 0, 950, 50, 300, 100)
    ensures Next(hand, t) && ThreeRows(t, 700, 300, 950, 50, 300, 100)
    ensures t.acting == Some(1) && t.currentBet == 300 && t.minRaise == 200 && t.acted == {0} && t.lastRaiseComplete
  {
    ARaise(hand);
    t := Moves(hand, Raise, Some(300));
    NeighbourActs(AfterWager(hand, Raise, Some(300)), 0, 1, 0);
  }

  /** B calls. */
  lemma {:induction false} BCalls(s: State) returns (t: State)
    requires ThreeRows(s, 700, 300, 950, 50, 300, 100)
    requires s.acting == Some(1) && s.currentBet == 300 && s.minRaise == 200 && s.acted == {0} && s.lastRaiseComplete
    ensures Next(s, t) && ThreeRows(t, 700, 300, 700, 300, 300, 100)
    ensures t.acting == Some(2) && t.currentBet == 300 && t.minRaise == 200 && t.acted == {0, 1} && t.lastRaiseComplete
  {
    t := Moves(s, Call, None);
    NeighbourActs(AfterWager(s, Call, None), 1, 2, 0);
  }

  /** A called pot: C has 300 left behind its blind of 100, the others have acted. */
  ghost predicate BeforeShortRaise(s: State)
  {
    && ThreeRows(s, 700, 300, 700, 300, 300, 100)
    && s.acting == Some(2) && s.currentBet == 300 && s.minRaise == 200 && s.acted == {0, 1} && s.lastRaiseComplete
  }

  lemma {:induction false} ShortRaiseLifts(s: State)
    requires BeforeShortRaise(s)
    ensures LegalMove(s, Raise, None)
    ensures var next := AfterWager(s, Raise, None);
            && next.currentBet == 400 && next.lastRaiseComplete && next.acted == {2}
            && next.seats[0] == s.seats[0] && next.seats[1] == s.seats[1] && |next.seats| == 3
            && 0 in ToAct(next)
  {
  }

  /** C puts in its 300 as a raise, by 100 where 200 is the minimum: A may raise again. */
  lemma {:induction false} CRaisesShort(s: State) returns (t: State)
    requires BeforeShortRaise(s)
    ensures Plays(s, t, Raise, None) && Next(s, t) && InHand(t) && t.acting == Some(0)
    ensures t.currentBet - s.currentBet == 100 < s.minRaise && Raise in LegalActions(t)
  {
    ShortRaiseLifts(s);
    t := Moves(s, Raise, None);
    NeighbourActs(AfterWager(s, Raise, None), 2, 0, 1);
  }

  lemma {:induction false} ShortAllInCaps(s: State)
    requires BeforeShortRaise(s)
    ensures LegalMove(s, AllIn, None)
    ensures var next := AfterWager(s, AllIn, None);
            && next.currentBet == 400 && !next.lastRaiseComplete && next.acted == {0, 1, 2}
            && next.seats[0] == s.seats[0] && next.seats[1] == s.seats[1] && |next.seats| == 3
            && 0 in ToAct(next)
  {
  }

  /** The same 300 put in as an all-in: A may only fold or call. */
  lemma {:induction false} CGoesAllIn(s: State) returns (t: State)
    requires BeforeShortRaise(s)
    ensures Plays(s, t, AllIn, None) && InHand(t) && t.acting == Some(0)
    ensures t.currentBet - s.currentBet == 100 && MayOnlyCall(t)
  {
    ShortAllInCaps(s);
    t := Moves(s, AllIn, None);
    NeighbourActs(AfterWager(s, AllIn, None), 2, 0, 1);
    CappedMayOnlyCall(t);
  }

  /** From a fresh table, with any deck, a run in which a short `raise` gives a seat that had already acted its
      raise back; after an `all_in` of the same chips from the same state it would not have it. */
  lemma {:induction false} ShortRaiseReopensRun(deck: seq<Card>)
    returns (trace: seq<State>, s: State, t: State, u: State)
    requires IsDeck(deck)
    ensures Run(trace) && Resting(trace[0]) && trace[0] == ThreeHanded(1000, 1000, 400)
    ensures trace[|trace| - 1] == t && s in trace
    ensures InHand(s) && InHand(t) && InHand(u) && t.acting == Some(0) == u.acting && 0 in s.acted
    ensures Plays(s, t, Raise, None) && t.currentBet - s.currentBet < s.minRaise && Raise in LegalActions(t)
    ensures Plays(s, u, AllIn, None) && u.currentBet == t.currentBet && MayOnlyCall(u)
  {
    trace := ToTheCall(deck);
    s := trace[|trace| - 1];
    t := CRaisesShort(s);
    u := CGoesAllIn(s);
    trace := Onward(trace, s, t);
    assert trace[|trace| - 2] == s;
  }

  lemma {:induction false} ToTheCall(deck: seq<Card>) returns (trace: seq<State>)
    requires IsDeck(deck)
    ensures Run(trace) && Resting(trace[0]) && trace[0] == ThreeHanded(1000, 1000, 400)
    ensures BeforeShortRaise(trace[|trace| - 1])
  {
    var hand := ThreeDealt(1000, 1000, 400, deck);
    trace := Onward([ThreeHanded(1000, 1000, 400)], ThreeHanded(1000, 1000, 400), hand);
    var raised := ARaises(hand);
    trace := Onward(trace, hand, raised);
    var called := BCalls(raised);
    trace := Onward(trace, raised, called);
  }

  ghost predicate TwoRows(st: State, a: int, aBet: int, aTotal: int, b: int, bBet: int, bTotal: int)
  {
    && InHand(st) && |st.seats| == 2 && st.button == 0 && st.config.bigBlind == 100
    && Row(st.seats[0], a, aBet, aTotal, false, a == 0)
    && Row(st.seats[1], b, bBet, bTotal, false, b == 0)
  }

  /** A completes the small blind. */
  lemma {:induction false} ACompletes(hand: State) returns (t: State)
    requires Fresh(hand, 2, 0) && TwoRows(hand, 950, 50, 50, 30, 100, 100)
    ensures Next(hand, t) && TwoRows(t, 900, 100, 100, 30, 100, 100)
    ensures t.acting == Some(1) && t.currentBet == 100 && t.acted == {0} && t.street == Preflop
  {
    t := Moves(hand, Call, None);
    NeighbourActs(AfterWager(hand, Call, None), 0, 1, 0);
  }

  /** B, with its last 30, is first to act on the flop. */
  ghost predicate BeforeShortBet(s: State)
  {
    && TwoRows(s, 900, 0, 100, 30, 0, 100)
    && s.acting == Some(1) && s.currentBet == 0 && s.acted == {} && s.street == Flop && s.lastRaiseComplete
  }

  /** B checks and the flop comes; B is first to act on it. */
  lemma {:induction false} BChecks(s: State) returns (t: State)
    requires TwoRows(s, 900, 100, 100, 30, 100, 100)
    requires s.acting == Some(1) && s.currentBet == 100 && s.acted == {0} && s.street == Preflop
    ensures Next(s, t) && BeforeShortBet(t)
  {
    t := Moves(s, Check, None);
    FlopFor(AfterWager(s, Check, None));
  }

  lemma {:induction false} FlopFor(st: State)
    requires WellFormed(st) && |st.seats| == 2 && st.button == 0 && st.street == Preflop && |st.board| == 0
    requires st.acted == {0, 1} && st.currentBet == 100
    requires Row(st.seats[0], 900, 100, 100, false, false) && Row(st.seats[1], 30, 100, 100, false, false)
    ensures Advance(st, 1) == DealBoard(st.(acting := None), 3, Flop)
    ensures DealBoard(st.(acting := None), 3, Flop).acting == Some(1)
  {
    var both: set<nat> := {0, 1};
    assert ActiveSet(st.seats) == both && LiveSet(st.seats) == both && |both| == 2;
    assert 1 in Openers(ResetBets(st.seats));
    Neighbour(2, 0, Openers(ResetBets(st.seats)));
  }

  /** B bets its last 30; A may raise by 30 more. */
  lemma {:induction false} BBetsShort(s: State) returns (t: State)
    requires BeforeShortBet(s)
    ensures Plays(s, t, Bet, None) && Next(s, t) && InHand(t) && t.acting == Some(0) && t.street == Flop
    ensures t.config.bigBlind == 100 && LegalMove(t, Raise, None)
    ensures AfterWager(t, Raise, None).currentBet - t.currentBet == 30
  {
    t := Moves(s, Bet, None);
    NeighbourActs(AfterWager(s, Bet, None), 1, 0, 1);
    SmallRaise(t);
  }

  lemma {:induction false} SmallRaise(t: State)
    requires InHand(t) && t.acting == Some(0) && Row(t.seats[0], 900, 0, 100, false, false)
    requires t.currentBet == 30 && t.minRaise == 30 && t.lastRaiseComplete
    ensures LegalMove(t, Raise, None) && AfterWager(t, Raise, None).currentBet - t.currentBet == 30
  {
  }

  /** From a fresh heads-up table, with any deck, a run to a flop where a raise by 30 is on offer at a big blind
      of 100. */
  lemma {:induction false} SmallRaiseRun(deck: seq<Card>) returns (trace: seq<State>)
    requires IsDeck(deck)
    ensures Run(trace) && Resting(trace[0]) && trace[0] == HeadsUp(1000, 130)
    ensures var t := trace[|trace| - 1];
            && InHand(t) && t.config.bigBlind == 100 && t.acting.Some? && LegalMove(t, Raise, None)
            && AfterWager(t, Raise, None).currentBet - t.currentBet == 30
  {
    trace := ToTheFlop(deck);
    var flop := trace[|trace| - 1];
    var t := BBetsShort(flop);
    trace := Onward(trace, flop, t);
  }

  lemma {:induction false} ToTheFlop(deck: seq<Card>) returns (trace: seq<State>)
    requires IsDeck(deck)
    ensures Run(trace) && Resting(trace[0]) && trace[0] == HeadsUp(1000, 130)
    ensures BeforeShortBet(trace[|trace| - 1])
  {
    var hand, called;
    trace, hand := OneHand(1000, 130, deck);
    called := ACompletes(hand);
    trace := Onward(trace, hand, called);
    var flop := BChecks(called);
    trace := Onward(trace, called, flop);
  }

  lemma {:induction false} OneHand(a: int, b: int, deck: seq<Card>) returns (trace: seq<State>, hand: State)
    requires IsDeck(deck) && a > 50 && b > 100
    ensures Run(trace) && Resting(trace[0]) && trace[0] == HeadsUp(a, b) && trace[|trace| - 1] == hand
    ensures Fresh(hand, 2, 0) && TwoRows(hand, a - 50, 50, 50, b - 100, 100, 100)
  {
    HeadsUpSeated(a, b);
    hand := TwoDealt(HeadsUp(a, b), a, b, 1, deck);
    trace := Onward([HeadsUp(a, b)], HeadsUp(a, b), hand);
  }
}
