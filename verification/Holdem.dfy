/** The hand state machine of packages/game-rules/src/holdem.ts: startHand, getLegalActions,
    applyAction, continueRunout and what they call. Events are left out. */
module Holdem {
  import opened Prelude
  import opened Cards
  import opened Ring
  import opened Settlement
  import opened Table

  datatype Action = Fold | Check | Call | Bet | Raise | AllIn

  /** Amounts a legal action admits; folds and checks carry none. */
  datatype Bounds = NoAmount | Range(min: int, max: int)

  datatype Error = NeedPlayers | NobodyToAct | IllegalAction | IllegalAmount

  // ----- takeChips -----

  function Paid(seat: Seat, amount: int): int
  {
    if seat.stack < amount then seat.stack else amount
  }

  function TakeChips(seat: Seat, amount: int): (r: Seat)
  {
    var paid := Paid(seat, amount);
    seat.(stack := seat.stack - paid,
          bet := seat.bet + paid,
          totalBet := seat.totalBet + paid,
          allIn := seat.allIn || seat.stack - paid == 0)
  }

  // ----- startHand -----

  /** Seats that will be dealt in. */
  function EligibleSet(seats: seq<Seat>): (r: set<nat>)
  {
    set i: nat | i < |seats| && !seats[i].sitOut && seats[i].playerId != "" && seats[i].stack > 0
  }

  /** Seats the button walk stops at; it does not look at the player. */
  function ButtonSet(seats: seq<Seat>): (r: set<nat>)
  {
    set i: nat | i < |seats| && !seats[i].sitOut && seats[i].stack > 0
  }

  function FreshSeats(seats: seq<Seat>): (r: seq<Seat>)
    ensures |r| == |seats|
  {
    seq(|seats|, i requires 0 <= i < |seats| =>
      seats[i].(bet := 0, totalBet := 0, allIn := false, hole := None,
                folded := seats[i].sitOut || seats[i].playerId == "" || seats[i].stack <= 0))
  }

  /** How many of the first `i` seats are dealt in. */
  function DealtBefore(seats: seq<Seat>, i: nat): (r: nat)
    requires i <= |seats|
    ensures r <= i
  {
    if i == 0 then 0 else DealtBefore(seats, i - 1) + if seats[i - 1].folded then 0 else 1
  }

  /** Two cards off the top of the deck to every seat dealt in, in seat order. */
  function DealtSeats(seats: seq<Seat>, deck: seq<Card>): (r: seq<Seat>)
    requires 2 * |seats| <= |deck|
    ensures |r| == |seats|
  {
    seq(|seats|, i requires 0 <= i < |seats| =>
      if seats[i].folded then seats[i]
      else
        var top := 2 * DealtBefore(seats, i);
        seats[i].(hole := Some([deck[top], deck[top + 1]])))
  }

  /** The source's dealing loop. */
  method DealHoles(seats: seq<Seat>, deck: seq<Card>) returns (dealt: seq<Seat>, rest: seq<Card>)
    requires 2 * |seats| <= |deck|
    ensures dealt == DealtSeats(seats, deck)
    ensures rest == deck[2 * DealtBefore(seats, |seats|)..]
  {
    dealt, rest := seats, deck;
    for i := 0 to |seats|
      invariant |dealt| == |seats|
      invariant rest == deck[2 * DealtBefore(seats, i)..]
      invariant forall j :: 0 <= j < i ==> dealt[j] == DealtSeats(seats, deck)[j]
      invariant forall j :: i <= j < |seats| ==> dealt[j] == seats[j]
    {
      if !dealt[i].folded {
        dealt := dealt[i := dealt[i].(hole := Some([rest[0], rest[1]]))];
        rest := rest[2..];
      }
    }
  }

  datatype Positions = Positions(button: nat, sb: nat, bb: nat, headsUp: bool)

  /** Vacant seats sit out with nothing in front of them, as createTable and clearSeat leave them. */
  ghost predicate VacantSitOut(seats: seq<Seat>)
  {
    forall i :: 0 <= i < |seats| && seats[i].playerId == "" ==> seats[i].sitOut && seats[i].stack == 0
  }

  lemma {:induction false} ButtonSetIsEligible(seats: seq<Seat>)
    requires VacantSitOut(seats)
    ensures ButtonSet(seats) == EligibleSet(seats)
  {
  }

  lemma {:induction false} TwoMembers(s: set<nat>, x: nat)
    requires |s| >= 2
    ensures exists k :: k in s && k != x
  {
    var a :| a in s;
    var rest := s - {a};
    assert |rest| == |s| - 1;
    var b :| b in rest;
    assert a != x || b != x;
  }

  /** The walk from any seat reaches a member other than that seat. */
  lemma {:induction false} WalkFinds(n: nat, from: nat, s: set<nat>)
    requires from < n && |s| >= 2 && forall i :: i in s ==> i < n
    ensures NextSeat(n, from, s).Some? && NextSeat(n, from, s).value in s && NextSeat(n, from, s).value != from
  {
    TwoMembers(s, from);
    NextSeatMoves(n, from, s);
  }

  /** Button and blinds as startHand picks them, with at least two seats to deal in. */
  function HandPositions(seats: seq<Seat>, lastButton: nat): (r: Positions)
    requires lastButton < |seats| && VacantSitOut(seats) && |EligibleSet(seats)| >= 2
    ensures r.button in EligibleSet(seats) && r.sb in EligibleSet(seats) && r.bb in EligibleSet(seats)
    ensures r.sb != r.bb && (r.headsUp <==> |EligibleSet(seats)| == 2)
  {
    var n, eligible := |seats|, EligibleSet(seats);
    ButtonSetIsEligible(seats);
    WalkFinds(n, lastButton, eligible);
    var button := NextSeat(n, lastButton, ButtonSet(seats)).value;
    WalkFinds(n, button, eligible);
    var after := NextSeat(n, button, eligible).value;
    WalkFinds(n, after, eligible);
    if |eligible| == 2 then Positions(button, button, after, true)
    else Positions(button, after, NextSeat(n, after, eligible).value, false)
  }

  /** A table ready to deal: the two-card deal and the board fit in the deck. */
  ghost predicate CanStart(st: State, deck: seq<Card>)
  {
    && st.button < |st.seats|
    && VacantSitOut(st.seats)
    && 2 * |st.seats| + 8 <= |deck|
  }

  /** Seats after both blinds are posted. */
  function PostBlinds(seats: seq<Seat>, config: Config, pos: Positions): (r: seq<Seat>)
    requires pos.sb < |seats| && pos.bb < |seats|
    ensures |r| == |seats|
  {
    var posted := seats[pos.sb := TakeChips(seats[pos.sb], config.smallBlind)];
    posted[pos.bb := TakeChips(posted[pos.bb], config.bigBlind)]
  }

  function StartHand(st: State, deck: seq<Card>): (r: Result<State, Error>)
    requires CanStart(st, deck)
  {
    if |EligibleSet(st.seats)| < 2 then Err(NeedPlayers)
    else
      var pos := HandPositions(st.seats, st.button);
      var reset := FreshSeats(st.seats);
      var posted := PostBlinds(reset, st.config, pos);
      var dealt := DealtSeats(posted, deck);
      var first :=
        if pos.headsUp then Some(pos.sb) else NextSeat(|dealt|, pos.bb, ActiveSet(dealt));
      Ok(st.(handNumber := st.handNumber + 1,
             button := pos.button,
             deck := deck[2 * DealtBefore(posted, |posted|)..],
             board := [],
             pot := Paid(reset[pos.sb], st.config.smallBlind) + Paid(reset[pos.bb], st.config.bigBlind),
             street := Preflop,
             winners := [],
             rake := 0,
             currentBet := st.config.bigBlind,
             minRaise := st.config.bigBlind,
             acted := {},
             lastRaiseComplete := true,
             lastAggressor := Some(pos.bb),
             seats := dealt,
             acting := first,
             firstToAct := first))
  }

  // ----- getLegalActions -----

  /** A player who acted before a short all-in raise may not raise again. */
  predicate IsCapped(st: State, a: nat)
  {
    !st.lastRaiseComplete && a in st.acted
  }

  function LegalActions(st: State): (legal: map<Action, Bounds>)
    requires st.acting.Some? ==> st.acting.value < |st.seats|
  {
    if st.acting.None? then map[]
    else
      var a := st.acting.value;
      var seat := st.seats[a];
      if seat.folded || seat.allIn then map[]
      else
        var toCall := st.currentBet - seat.bet;
        var all := Range(seat.stack, seat.stack);
        if toCall <= 0 then
          if seat.stack > 0 && !IsCapped(st, a) then
            map[Check := NoAmount,
                Bet := Range(Min(st.config.bigBlind, seat.stack), seat.stack),
                AllIn := all]
          else map[Check := NoAmount]
        else if seat.stack > toCall then
          if IsCapped(st, a) then map[Fold := NoAmount, Call := Range(toCall, toCall)]
          else
            map[Fold := NoAmount,
                Call := Range(toCall, toCall),
                Raise := Range(Min(st.currentBet + st.minRaise - seat.bet, seat.stack), seat.stack),
                AllIn := all]
        else if seat.stack == toCall then map[Fold := NoAmount, AllIn := all, Call := Range(toCall, toCall)]
        else map[Fold := NoAmount, AllIn := all]
  }

  // ----- Dealing the board -----

  /** Cards still needed for the next street, burn included. */
  function NextDeal(board: nat): nat
  {
    if board == 0 then 4 else if board == 3 || board == 4 then 2 else 0
  }

  ghost predicate WellFormed(st: State)
  {
    && st.button < |st.seats|
    && (st.acting.Some? ==> st.acting.value < |st.seats|)
    && |st.deck| >= NextDeal(|st.board|)
  }

  /** Seats that may open the betting on a new street. */
  function Openers(seats: seq<Seat>): set<nat>
  {
    set i: nat | i < |seats| && !seats[i].folded && !seats[i].allIn && seats[i].stack > 0
  }

  /** Burn one card, turn `count`, and start the street's betting left of the button. */
  function DealBoard(st: State, count: nat, street: Street): (r: State)
    requires WellFormed(st) && count + 1 <= |st.deck|
  {
    var seats := ResetBets(st.seats);
    var first := NextSeat(|seats|, st.button, Openers(seats));
    st.(deck := st.deck[count + 1..],
        board := st.board + st.deck[1..count + 1],
        street := street,
        seats := seats,
        currentBet := 0,
        minRaise := st.config.bigBlind,
        lastAggressor := None,
        acted := {},
        lastRaiseComplete := true,
        acting := first,
        firstToAct := first)
  }

  function Settle(st: State): (r: State)
    requires st.button < |st.seats|
  {
    SettleShowdown(st.(street := Showdown))
  }

  /** Deal the flop, turn or river. */
  function DealStreet(st: State): (r: State)
    requires WellFormed(st) && NextDeal(|st.board|) > 0
  {
    if |st.board| == 0 then DealBoard(st, 3, Flop)
    else if |st.board| == 3 then DealBoard(st, 1, Turn)
    else DealBoard(st, 1, River)
  }

  function MaybeRunout(st: State): (r: State)
    requires WellFormed(st)
  {
    if |LiveSet(st.seats)| == 1 then FoldWin(st)
    else if |ActiveSet(st.seats)| > 1 then
      if st.acting.Some? then st
      else if NextDeal(|st.board|) > 0 then DealStreet(st)
      else if st.street == River || |st.board| >= 5 then Settle(st)
      else st
    else if |st.board| >= 5 then Settle(st)
    else st.(acting := None)
  }

  function ContinueRunout(st: State): (r: State)
    requires WellFormed(st)
  {
    var s0 := st.(acting := None);
    if |LiveSet(st.seats)| == 1 then FoldWin(s0)
    else if |LiveSet(st.seats)| < 2 then s0.(street := Street.Settlement, pot := 0)
    else if NextDeal(|st.board|) > 0 then DealStreet(s0).(acting := None)
    else Settle(s0)
  }

  // ----- applyAction -----

  predicate StreetComplete(st: State)
  {
    || |LiveSet(st.seats)| <= 1
    || ActiveSet(st.seats) == {}
    || ((forall i :: i in ActiveSet(st.seats) ==> st.seats[i].bet == st.currentBet) && ActiveSet(st.seats) <= st.acted)
  }

  /** Seats that owe chips or have not acted. */
  function ToAct(st: State): set<nat>
  {
    set i: nat | i < |st.seats| && !st.seats[i].folded && !st.seats[i].allIn
                 && (st.seats[i].bet < st.currentBet || i !in st.acted)
  }

  /** The acting seat's chips move; nothing else changes. */
  function PutIn(st: State, a: nat, amount: int): State
    requires a < |st.seats|
  {
    st.(seats := st.seats[a := TakeChips(st.seats[a], amount)], pot := st.pot + Paid(st.seats[a], amount))
  }

  /** The state right after the action itself, before the turn moves on. */
  function Wager(st: State, a: nat, action: Action, bounds: Bounds, amount: Option<int>): (r: State)
    requires a < |st.seats|
    ensures r.deck == st.deck && r.board == st.board && r.street == st.street && r.button == st.button
    ensures |r.seats| == |st.seats| && r.acting == st.acting
  {
    var seat := st.seats[a];
    var wanted := if amount.Some? then amount.value else if bounds.Range? then bounds.min else 0;
    match action
    case Fold =>
      st.(seats := st.seats[a := seat.(folded := true)], acted := st.acted + {a})
    case Check =>
      st.(acted := st.acted + {a})
    case Call =>
      PutIn(st, a, st.currentBet - seat.bet).(acted := st.acted + {a})
    case Bet =>
      var next := PutIn(st, a, wanted);
      next.(minRaise := Paid(seat, wanted),
            currentBet := next.seats[a].bet,
            lastAggressor := Some(a),
            lastRaiseComplete := true,
            acted := {a})
    case Raise =>
      var next := PutIn(st, a, wanted);
      var size := next.seats[a].bet - st.currentBet;
      next.(minRaise := if size >= st.minRaise then size else st.minRaise,
            currentBet := next.seats[a].bet,
            lastAggressor := Some(a),
            lastRaiseComplete := true,
            acted := {a})
    case AllIn =>
      var next := PutIn(st, a, seat.stack);
      var size := next.seats[a].bet - st.currentBet;
      if size <= 0 then next.(acted := st.acted + {a})
      else if size >= st.minRaise then
        next.(minRaise := size,
              currentBet := next.seats[a].bet,
              lastAggressor := Some(a),
              lastRaiseComplete := true,
              acted := {a})
      else
        next.(currentBet := next.seats[a].bet, lastRaiseComplete := false, acted := st.acted + {a})
  }

  /** After an action by seat `a`: settle, move to the next street, or pass the turn. */
  function Advance(st: State, a: nat): (r: State)
    requires WellFormed(st)
  {
    if StreetComplete(st) then
      if st.street == River then Settle(st)
      else MaybeRunout(st.(acting := None))
    else
      var next := NextSeat(|st.seats|, a, ToAct(st));
      if next.None? then MaybeRunout(st.(acting := None)) else st.(acting := next)
  }

  function ApplyAction(st: State, action: Action, amount: Option<int>): (r: Result<State, Error>)
    requires WellFormed(st)
  {
    if st.acting.None? then Err(NobodyToAct)
    else
      var legal := LegalActions(st);
      if action !in legal then Err(IllegalAction)
      else if legal[action].Range? && amount.Some?
              && (amount.value < legal[action].min || amount.value > legal[action].max) then Err(IllegalAmount)
      else
        var a := st.acting.value;
        Ok(Advance(Wager(st, a, action, legal[action], amount), a))
  }
}
