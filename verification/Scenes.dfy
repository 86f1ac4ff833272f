/** Small tables for runs that show what can happen: blinds 50 and 100, two or three players, seat 0 about to
    get the button. */
module Scenes {
  import opened Prelude
  import opened Cards
  import opened Ring
  import opened Table
  import opened Holdem
  import opened Invariant
  import opened Opening
  import opened Runs

  function Player(name: string, stack: int): Seat
  {
    Seat(name, stack, 0, 0, None, false, false, false)
  }

  function TableOf(seats: seq<Seat>): State
    requires |seats| > 0
  {
    State(Config(50, 100, 0, None), 0, Waiting, |seats| - 1, [], [], 0, seats,
          None, 0, 0, None, None, [], 0, 0, {}, true)
  }

  function ThreeHanded(a: int, b: int, c: int): State
  {
    TableOf([Player("A", a), Player("B", b), Player("C", c)])
  }

  function HeadsUp(a: int, b: int): State
  {
    TableOf([Player("A", a), Player("B", b)])
  }

  /** What matters of a seat in a hand. */
  ghost predicate Row(s: Seat, stack: int, bet: int, total: int, folded: bool, allIn: bool)
  {
    s.stack == stack && s.bet == bet && s.totalBet == total && s.folded == folded && s.allIn == allIn
  }

  /** A seat after a blind of at most `blind`. */
  ghost predicate BlindPosted(s: Seat, stack: int, blind: int)
  {
    Row(s, stack - Min(stack, blind), Min(stack, blind), Min(stack, blind), false, stack <= blind)
  }

  /** A fresh hand in which the seat with the button acts first. */
  ghost predicate Fresh(hand: State, seats: nat, button: nat)
  {
    && InHand(hand) && |hand.seats| == seats && hand.button == button && hand.acting == Some(button)
    && hand.street == Preflop && hand.currentBet == 100 && hand.minRaise == 100
    && hand.acted == {} && hand.lastRaiseComplete && hand.config.bigBlind == 100
  }

  lemma {:induction false} Neighbour(n: nat, from: nat, s: set<nat>)
    requires from < n && (if from + 1 == n then 0 else from + 1) in s
    ensures NextSeat(n, from, s) == Some(if from + 1 == n then 0 else from + 1)
  {
    AtValue(n, from, 1);
  }

  // ----- Three players -----

  lemma {:induction false} ThreeRest(a: int, b: int, c: int)
    requires a > 0 && b > 0 && c > 0
    ensures Resting(ThreeHanded(a, b, c)) && EligibleSet(ThreeHanded(a, b, c).seats) == {0, 1, 2}
    ensures |EligibleSet(ThreeHanded(a, b, c).seats)| == 3
  {
    var s: set<nat> := {0, 1, 2};
    assert EligibleSet(ThreeHanded(a, b, c).seats) == s;
    assert |s| == 3;
  }

  lemma {:induction false} ThreePositions(a: int, b: int, c: int)
    requires a > 0 && b > 0 && c > 0
    ensures Resting(ThreeHanded(a, b, c)) && |EligibleSet(ThreeHanded(a, b, c).seats)| == 3
    ensures HandPositions(ThreeHanded(a, b, c).seats, 2) == Positions(0, 1, 2, false)
  {
    ThreeRest(a, b, c);
    ButtonSetIsEligible(ThreeHanded(a, b, c).seats);
    var s: set<nat> := {0, 1, 2};
    Neighbour(3, 2, s);
    Neighbour(3, 0, s);
    Neighbour(3, 1, s);
  }

  lemma {:induction false} ThreeRows(a: int, b: int, c: int, deck: seq<Card>)
    requires a > 0 && b > 0 && c > 0 && IsDeck(deck)
    ensures CanStart(ThreeHanded(a, b, c), deck) && |EligibleSet(ThreeHanded(a, b, c).seats)| >= 2
    ensures var seats := OpeningSeats(ThreeHanded(a, b, c), deck);
            && |seats| == 3
            && Row(seats[0], a, 0, 0, false, false) && BlindPosted(seats[1], b, 50) && BlindPosted(seats[2], c, 100)
  {
    var st := ThreeHanded(a, b, c);
    ThreePositions(a, b, c);
    ThreeRest(a, b, c);
    OpeningSeatAt(st, deck, 0);
    OpeningSeatAt(st, deck, 1);
    OpeningSeatAt(st, deck, 2);
  }

  /** B posts 50 and C 100, or what they have; A is first to act. */
  lemma {:induction false} ThreeDealt(a: int, b: int, c: int, deck: seq<Card>) returns (hand: State)
    requires a > 0 && b > 0 && c > 0 && IsDeck(deck)
    ensures Resting(ThreeHanded(a, b, c)) && Next(ThreeHanded(a, b, c), hand) && Fresh(hand, 3, 0)
    ensures Row(hand.seats[0], a, 0, 0, false, false)
    ensures BlindPosted(hand.seats[1], b, 50) && BlindPosted(hand.seats[2], c, 100)
  {
    var st := ThreeHanded(a, b, c);
    ThreePositions(a, b, c);
    StartHandEnters(st, deck);
    ThreeRows(a, b, c, deck);
    assert 0 in ActiveSet(OpeningSeats(st, deck));
    Neighbour(3, 2, ActiveSet(OpeningSeats(st, deck)));
    hand := StartHand(st, deck).value;
    assert Deals(st, hand, deck);
  }

  // ----- Two players -----

  /** Heads-up between hands. */
  ghost predicate TwoSeated(st: State, a: int, b: int, button: nat)
  {
    && Resting(st) && |st.seats| == 2 && st.config == Config(50, 100, 0, None) && st.button == button < 2
    && st.seats[0].playerId == "A" && !st.seats[0].sitOut && st.seats[0].stack == a > 0
    && st.seats[1].playerId == "B" && !st.seats[1].sitOut && st.seats[1].stack == b > 0
  }

  lemma {:induction false} TwoPositions(st: State, a: int, b: int, button: nat)
    requires TwoSeated(st, a, b, button)
    ensures EligibleSet(st.seats) == {0, 1} && |EligibleSet(st.seats)| == 2
    ensures HandPositions(st.seats, button) == Positions(1 - button, 1 - button, button, true)
  {
    var s: set<nat> := {0, 1};
    assert EligibleSet(st.seats) == s;
    assert |s| == 2;
    ButtonSetIsEligible(st.seats);
    Neighbour(2, 1, s);
    Neighbour(2, 0, s);
  }

  lemma {:induction false} TwoRows(st: State, a: int, b: int, button: nat, deck: seq<Card>)
    requires TwoSeated(st, a, b, button) && IsDeck(deck)
    ensures CanStart(st, deck) && |EligibleSet(st.seats)| >= 2
    ensures var seats := OpeningSeats(st, deck);
            && |seats| == 2
            && BlindPosted(seats[0], a, if button == 1 then 50 else 100)
            && BlindPosted(seats[1], b, if button == 1 then 100 else 50)
  {
    TwoPositions(st, a, b, button);
    OpeningSeatAt(st, deck, 0);
    OpeningSeatAt(st, deck, 1);
  }

  /** The other player gets the button, posts 50 and is first to act; the opponent posts 100. */
  lemma {:induction false} TwoDealt(st: State, a: int, b: int, button: nat, deck: seq<Card>) returns (hand: State)
    requires TwoSeated(st, a, b, button) && IsDeck(deck)
    ensures Next(st, hand) && Fresh(hand, 2, 1 - button) && hand.config == st.config
    ensures BlindPosted(hand.seats[0], a, if button == 1 then 50 else 100)
    ensures BlindPosted(hand.seats[1], b, if button == 1 then 100 else 50)
  {
    TwoPositions(st, a, b, button);
    StartHandEnters(st, deck);
    TwoRows(st, a, b, button, deck);
    hand := StartHand(st, deck).value;
    assert Deals(st, hand, deck);
  }

  lemma {:induction false} HeadsUpSeated(a: int, b: int)
    requires a > 0 && b > 0
    ensures TwoSeated(HeadsUp(a, b), a, b, 1)
  {
  }

  // ----- Moves -----

  /** A legal move, and what it comes to. */
  lemma {:induction false} Moves(s: State, action: Action, amount: Option<int>) returns (t: State)
    requires InHand(s) && LegalMove(s, action, amount)
    ensures Plays(s, t, action, amount) && Next(s, t) && (InHandStreet(t.street) ==> InHand(t))
    ensures WellFormed(AfterWager(s, action, amount)) && t == Advance(AfterWager(s, action, amount), s.acting.value)
  {
    ActionKeepsInv(s, action, amount);
    WagerActs(s, action, amount);
    ApplyUnfolds(s, action, amount);
    t := ApplyAction(s, action, amount).value;
    assert Plays(s, t, action, amount);
    RestingOrInHand(t);
  }

  lemma {:induction false} Onward(trace: seq<State>, s: State, t: State) returns (longer: seq<State>)
    requires Run(trace) && trace[|trace| - 1] == s && Next(s, t)
    ensures Run(longer) && longer == trace + [t] && longer[|longer| - 1] == t && longer[0] == trace[0]
  {
    RunExtends(trace, t);
    longer := trace + [t];
  }

  /** The turn passes to the left neighbour if that seat still has to act. */
  lemma {:induction false} NeighbourActs(st: State, a: nat, x: nat, other: nat)
    requires WellFormed(st) && a < |st.seats| && x == (if a + 1 == |st.seats| then 0 else a + 1) && x in ToAct(st)
    requires other < |st.seats| && other != x && !st.seats[other].folded
    ensures Advance(st, a) == st.(acting := Some(x))
  {
    assert {x, other} <= LiveSet(st.seats);
    SubsetSize({x, other}, LiveSet(st.seats));
    assert x in ActiveSet(st.seats);
    Neighbour(|st.seats|, a, ToAct(st));
  }
}
