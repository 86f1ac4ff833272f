/** What every step of a hand keeps true. */
module Invariant {
  import opened Prelude
  import opened Ring
  import opened Pots
  import opened Settlement
  import opened Table
  import opened Holdem

  ghost predicate ConfigOk(c: Config)
  {
    0 < c.smallBlind <= c.bigBlind && 0 <= c.rakeBps <= 10_000 && (c.rakeCap.Some? ==> c.rakeCap.value >= 0)
  }

  predicate Active(s: Seat)
  {
    !s.folded && !s.allIn
  }

  /** What the seat had staked when the street began. */
  function Prior(s: Seat): int
  {
    s.totalBet - s.bet
  }

  ghost predicate SeatOk(s: Seat, currentBet: int)
  {
    && s.stack >= 0
    && 0 <= s.bet <= s.totalBet
    && s.bet <= currentBet
    && (s.playerId == "" ==> s.sitOut && s.stack == 0)
    && (s.folded ==> !s.allIn)
    && (s.hole.None? ==> s.folded && s.totalBet == 0)
    && (s.hole.Some? ==> |s.hole.value| == 2 && s.playerId != "" && !s.sitOut
                         && (s.allIn <==> s.stack == 0) && s.stack + s.totalBet > 0)
  }

  ghost predicate SeatsOk(seats: seq<Seat>, currentBet: int)
  {
    forall i :: 0 <= i < |seats| ==> SeatOk(seats[i], currentBet)
  }

  /** Seats that can still act entered the street with equal stakes, nobody with a larger one. */
  ghost predicate Levelled(seats: seq<Seat>)
  {
    forall i, j :: 0 <= i < |seats| && 0 <= j < |seats| && Active(seats[i]) ==> Prior(seats[j]) <= Prior(seats[i])
  }

  /** Seats that can still act had chips in before this street. */
  ghost predicate Seasoned(seats: seq<Seat>)
  {
    forall i :: 0 <= i < |seats| && Active(seats[i]) ==> Prior(seats[i]) > 0
  }

  /** Nobody has staked more than a seat that can still act: betting on the street is over. */
  ghost predicate Closed(seats: seq<Seat>)
  {
    forall i, j :: 0 <= i < |seats| && 0 <= j < |seats| && Active(seats[i]) ==> seats[j].totalBet <= seats[i].totalBet
  }

  function BoardSize(street: Street): nat
  {
    match street
    case Preflop => 0
    case Flop => 3
    case Turn => 4
    case _ => 5
  }

  /** Cards the rest of the hand may still take from the deck. */
  function CardsToCome(street: Street): nat
  {
    match street
    case Preflop => 8
    case Flop => 4
    case Turn => 2
    case _ => 0
  }

  predicate InHandStreet(street: Street)
  {
    street == Preflop || street == Flop || street == Turn || street == River
  }

  /** The part of the invariant that also holds between an action and the passing of the turn. */
  ghost predicate Core(st: State)
  {
    && ConfigOk(st.config)
    && InHandStreet(st.street)
    && st.button < |st.seats|
    && 2 * |st.seats| + 8 <= DECK_SIZE
    && |st.board| == BoardSize(st.street)
    && |st.deck| >= CardsToCome(st.street)
    && SeatsOk(st.seats, st.currentBet)
    && Levelled(st.seats)
    && (st.board != [] ==> Seasoned(st.seats))
    && st.pot == Sum(Totals(st.seats)) > 0
    && st.minRaise > 0 && st.currentBet >= 0 && st.sessionRake >= 0
  }

  /** Whose turn it is: nobody's or an all-in seat's only when betting is over; otherwise a seat
      that owes chips or has not acted. */
  ghost predicate TurnOk(st: State)
  {
    match st.acting
    case None => Closed(st.seats)
    case Some(a) =>
      && a < |st.seats|
      && !st.seats[a].folded
      && (if st.seats[a].allIn then Closed(st.seats) else st.seats[a].bet < st.currentBet || a !in st.acted)
  }

  ghost predicate InHand(st: State)
  {
    WellFormed(st) && Core(st) && TurnOk(st) && |LiveSet(st.seats)| >= 2
  }

  /** Between hands. */
  ghost predicate Resting(st: State)
  {
    && ConfigOk(st.config)
    && (st.street == Waiting || st.street == Street.Settlement)
    && st.button < |st.seats|
    && 2 * |st.seats| + 8 <= DECK_SIZE
    && VacantSitOut(st.seats)
    && (forall i :: 0 <= i < |st.seats| ==> st.seats[i].stack >= 0)
    && st.pot == 0 && st.sessionRake >= 0 && st.acting == None
    && (forall j :: 0 <= j < |st.winners| ==> st.winners[j].amount >= 0)
  }

  ghost predicate Inv(st: State)
  {
    Resting(st) || InHand(st)
  }

  /** A step's outcome: the invariant holds and no chip appeared or vanished. */
  ghost predicate Kept(before: State, after: State)
  {
    Inv(after) && Funds(after) == Funds(before) && after.config == before.config && |after.seats| == |before.seats|
  }

  // ----- Changing one seat -----

  lemma {:induction false} UpdateSeat(seats: seq<Seat>, a: nat, s: Seat, before: int, after: int)
    requires a < |seats| && SeatsOk(seats, before) && Levelled(seats) && before <= after
    requires SeatOk(s, after) && Prior(s) == Prior(seats[a]) && (Active(s) ==> Active(seats[a]))
    ensures SeatsOk(seats[a := s], after) && Levelled(seats[a := s])
    ensures Seasoned(seats) ==> Seasoned(seats[a := s])
  {
    var r := seats[a := s];
    forall i, j | 0 <= i < |r| && 0 <= j < |r| && Active(r[i])
      ensures Prior(r[j]) <= Prior(r[i])
    {
      assert Prior(seats[j]) <= Prior(seats[i]);
    }
  }

  lemma {:induction false} TakeChipsOk(s: Seat, amount: int, before: int, after: int)
    requires SeatOk(s, before) && Active(s) && amount > 0 && before <= after
    requires s.bet + Paid(s, amount) <= after
    ensures var r := TakeChips(s, amount); SeatOk(r, after) && Prior(r) == Prior(s) && !r.folded
    ensures 0 < Paid(s, amount) <= s.stack
  {
  }

  lemma {:induction false} PutInSums(st: State, a: nat, amount: int)
    requires a < |st.seats|
    ensures var r := PutIn(st, a, amount);
            && Sum(Stacks(r.seats)) == Sum(Stacks(st.seats)) - Paid(st.seats[a], amount)
            && Sum(Totals(r.seats)) == Sum(Totals(st.seats)) + Paid(st.seats[a], amount)
            && Funds(r) == Funds(st)
  {
    var r, seat, paid := PutIn(st, a, amount), st.seats[a], Paid(st.seats[a], amount);
    assert Stacks(r.seats) == Stacks(st.seats)[a := seat.stack - paid];
    assert Totals(r.seats) == Totals(st.seats)[a := seat.totalBet + paid];
    SumUpdate(Stacks(st.seats), a, seat.stack - paid);
    SumUpdate(Totals(st.seats), a, seat.totalBet + paid);
  }

  /** Chips going in keep the core, as long as the new bet to match covers them. */
  lemma {:induction false} PutInKeepsCore(st: State, a: nat, amount: int, after: int)
    requires Core(st) && a < |st.seats| && Active(st.seats[a]) && amount > 0
    requires st.currentBet <= after && st.seats[a].bet + Paid(st.seats[a], amount) <= after
    ensures Core(PutIn(st, a, amount).(currentBet := after))
    ensures Funds(PutIn(st, a, amount)) == Funds(st)
    ensures Sum(Stacks(PutIn(st, a, amount).seats)) < Sum(Stacks(st.seats))
    ensures LiveSet(PutIn(st, a, amount).seats) == LiveSet(st.seats)
  {
    TakeChipsOk(st.seats[a], amount, st.currentBet, after);
    UpdateSeat(st.seats, a, TakeChips(st.seats[a], amount), st.currentBet, after);
    PutInSums(st, a, amount);
  }

  // ----- The action itself -----

  ghost predicate LegalMove(st: State, action: Action, amount: Option<int>)
    requires st.acting.Some? ==> st.acting.value < |st.seats|
  {
    && st.acting.Some?
    && action in LegalActions(st)
    && (LegalActions(st)[action].Range? && amount.Some?
        ==> LegalActions(st)[action].min <= amount.value <= LegalActions(st)[action].max)
  }

  /** A legal move is never refused, and every other one is. */
  lemma {:induction false} LegalMovesAreAccepted(st: State, action: Action, amount: Option<int>)
    requires WellFormed(st)
    ensures ApplyAction(st, action, amount).Ok? <==> LegalMove(st, action, amount)
  {
  }

  /** What the state looks like right after seat `a` has acted. */
  ghost predicate Acted(before: State, st: State, a: nat)
  {
    && Core(st)
    && a < |st.seats|
    && Funds(st) == Funds(before) && |st.seats| == |before.seats|
    && st.config == before.config && st.street == before.street && st.board == before.board
    && a in st.acted
    && (Active(st.seats[a]) ==> st.seats[a].bet == st.currentBet)
    && LiveSet(st.seats) == (if st.seats[a].folded then LiveSet(before.seats) - {a} else LiveSet(before.seats))
    && a in LiveSet(before.seats)
  }

  /** The acting player's options make sense. */
  lemma {:induction false} BoundsAreSound(st: State, action: Action)
    requires InHand(st) && st.acting.Some? && action in LegalActions(st)
    ensures var seat, b := st.seats[st.acting.value], LegalActions(st)[action];
            && Active(seat) && seat.stack > 0
            && (b.Range? ==> 0 < b.min <= b.max <= seat.stack)
            && (action == Call ==> b.Range? && b.min == b.max == st.currentBet - seat.bet)
            && (action == Bet ==> b.Range? && st.currentBet == seat.bet)
            && (action == Raise ==> b.Range? && b.min > st.currentBet - seat.bet > 0)
            && (action == Check ==> b.NoAmount? && st.currentBet == seat.bet)
            && (action == Fold ==> b.NoAmount? && st.currentBet > seat.bet)
  {
  }

  lemma {:induction false} WagerActs(st: State, action: Action, amount: Option<int>)
    requires InHand(st) && LegalMove(st, action, amount)
    ensures Acted(st, AfterWager(st, action, amount), st.acting.value)
  {
    var a := st.acting.value;
    var bounds := LegalActions(st)[action];
    BoundsAreSound(st, action);
    match action
    case Fold => FoldActs(st, a, bounds, amount);
    case Check => CheckActs(st, a, bounds, amount);
    case Call => CallActs(st, a, bounds, amount);
    case Bet => BetActs(st, a, bounds, amount);
    case Raise => RaiseActs(st, a, bounds, amount);
    case AllIn => AllInActs(st, a, bounds, amount);
  }

  lemma {:induction false} FoldActs(st: State, a: nat, bounds: Bounds, amount: Option<int>)
    requires InHand(st) && a < |st.seats| && Active(st.seats[a])
    ensures Acted(st, Wager(st, a, Fold, bounds, amount), a)
  {
    var r := Wager(st, a, Fold, bounds, amount);
    UpdateSeat(st.seats, a, st.seats[a].(folded := true), st.currentBet, st.currentBet);
    assert Stacks(r.seats) == Stacks(st.seats);
    assert Totals(r.seats) == Totals(st.seats);
  }

  lemma {:induction false} CheckActs(st: State, a: nat, bounds: Bounds, amount: Option<int>)
    requires InHand(st) && a < |st.seats| && Active(st.seats[a]) && st.currentBet == st.seats[a].bet
    ensures Acted(st, Wager(st, a, Check, bounds, amount), a)
  {
  }

  lemma {:induction false} CallActs(st: State, a: nat, bounds: Bounds, amount: Option<int>)
    requires InHand(st) && a < |st.seats| && Active(st.seats[a])
    requires 0 < st.currentBet - st.seats[a].bet <= st.seats[a].stack
    ensures Acted(st, Wager(st, a, Call, bounds, amount), a)
  {
    PutInKeepsCore(st, a, st.currentBet - st.seats[a].bet, st.currentBet);
  }

  /** The amount a bet or raise moves. */
  function Wanted(bounds: Bounds, amount: Option<int>): int
  {
    if amount.Some? then amount.value else if bounds.Range? then bounds.min else 0
  }

  ghost predicate Exceeds(st: State, a: nat, amount: int)
    requires a < |st.seats|
  {
    st.currentBet - st.seats[a].bet < amount <= st.seats[a].stack && amount > 0
  }

  lemma {:induction false} BetActs(st: State, a: nat, bounds: Bounds, amount: Option<int>)
    requires InHand(st) && a < |st.seats| && Active(st.seats[a]) && Exceeds(st, a, Wanted(bounds, amount))
    ensures Acted(st, Wager(st, a, Bet, bounds, amount), a)
  {
    var wanted := Wanted(bounds, amount);
    PutInKeepsCore(st, a, wanted, st.seats[a].bet + wanted);
  }

  lemma {:induction false} RaiseActs(st: State, a: nat, bounds: Bounds, amount: Option<int>)
    requires InHand(st) && a < |st.seats| && Active(st.seats[a]) && Exceeds(st, a, Wanted(bounds, amount))
    ensures Acted(st, Wager(st, a, Raise, bounds, amount), a)
  {
    var wanted := Wanted(bounds, amount);
    PutInKeepsCore(st, a, wanted, st.seats[a].bet + wanted);
  }

  lemma {:induction false} AllInActs(st: State, a: nat, bounds: Bounds, amount: Option<int>)
    requires InHand(st) && a < |st.seats| && Active(st.seats[a]) && st.seats[a].stack > 0
    ensures Acted(st, Wager(st, a, AllIn, bounds, amount), a)
  {
    var seat := st.seats[a];
    assert TakeChips(seat, seat.stack).allIn;
    if seat.bet + seat.stack <= st.currentBet {
      PutInKeepsCore(st, a, seat.stack, st.currentBet);
    } else {
      AllInRaises(st, a, bounds, amount);
    }
  }

  lemma {:induction false} AllInRaises(st: State, a: nat, bounds: Bounds, amount: Option<int>)
    requires InHand(st) && a < |st.seats| && Active(st.seats[a]) && st.seats[a].stack > 0
    requires st.seats[a].bet + st.seats[a].stack > st.currentBet
    ensures Acted(st, Wager(st, a, AllIn, bounds, amount), a)
  {
    var seat, r := st.seats[a], Wager(st, a, AllIn, bounds, amount);
    PutInKeepsCore(st, a, seat.stack, seat.bet + seat.stack);
    var put := PutIn(st, a, seat.stack);
    assert r.currentBet == seat.bet + seat.stack && r.seats == put.seats;
    assert r == put.(currentBet := r.currentBet, minRaise := r.minRaise, lastAggressor := r.lastAggressor,
                     lastRaiseComplete := r.lastRaiseComplete, acted := r.acted);
    CoreIgnores(put.(currentBet := r.currentBet), r);
  }

  lemma {:induction false} CoreIgnores(st: State, r: State)
    requires Core(st) && r.minRaise > 0
    requires r == st.(minRaise := r.minRaise, lastAggressor := r.lastAggressor, acted := r.acted,
                      lastRaiseComplete := r.lastRaiseComplete)
    ensures Core(r)
  {
  }

  // ----- Ending the hand -----

  lemma {:induction false} SomeLiveStake(st: State)
    requires Core(st) && st.board != [] && LiveSet(st.seats) != {}
    ensures DeepestLive(st.seats) > 0
  {
    var i :| i in LiveSet(st.seats);
    assert SeatOk(st.seats[i], st.currentBet);
  }

  lemma {:induction false} SettleRests(st: State)
    requires Core(st) && st.board != [] && LiveSet(st.seats) != {}
    ensures Kept(st, Settle(st))
  {
    CoreIsReady(st);
    ShowdownRests(st.(street := Showdown));
  }

  lemma {:induction false} CoreIsReady(st: State)
    requires Core(st) && st.board != [] && LiveSet(st.seats) != {}
    ensures ReadyToSettle(st.(street := Showdown)) && Funds(st.(street := Showdown)) == Funds(st)
  {
    SomeLiveStake(st);
    assert forall i :: 0 <= i < |st.seats| ==> SeatOk(st.seats[i], st.currentBet);
  }

  lemma {:induction false} ShowdownRests(st: State)
    requires ReadyToSettle(st) && SeatsOk(st.seats, st.currentBet)
    requires ConfigOk(st.config) && 2 * |st.seats| + 8 <= DECK_SIZE && st.sessionRake >= 0
    ensures Resting(SettleShowdown(st)) && Funds(SettleShowdown(st)) == Funds(st)
  {
    SettleConserves(st);
    SettledSeatsRest(st);
    assert forall i :: 0 <= i < |st.seats| ==> SeatOk(st.seats[i], st.currentBet);
  }

  lemma {:induction false} SettledSeatsRest(st: State)
    requires ReadyToSettle(st) && SeatsOk(st.seats, st.currentBet)
    ensures VacantSitOut(SettleShowdown(st).seats)
  {
    var r := SettleShowdown(st);
    forall i | 0 <= i < |r.seats| && r.seats[i].playerId == ""
      ensures r.seats[i].sitOut && r.seats[i].stack == 0
    {
      assert SeatOk(st.seats[i], st.currentBet);
      NobodyExceedsEntitlement(st, i);
      TsLayersPay(st);
      ChargesAreExact(st, TsPots(st.seats));
    }
  }

  lemma {:induction false} SoleSurvivor(seats: seq<Seat>, currentBet: int, i: nat, w: nat)
    requires SeatsOk(seats, currentBet) && i <= w < |seats| && !seats[w].folded
    requires forall j :: i <= j < w ==> seats[j].folded
    ensures FirstStanding(seats, i) == Some(w)
    decreases w - i
  {
    assert SeatOk(seats[w], currentBet);
    if i < w {
      SoleSurvivor(seats, currentBet, i + 1, w);
    }
  }

  lemma {:induction false} FoldWinRests(st: State)
    requires Core(st) && |LiveSet(st.seats)| == 1
    ensures Kept(st, FoldWin(st))
  {
    var w :| w in LiveSet(st.seats);
    OthersFolded(st.seats, w);
    SoleSurvivor(st.seats, st.currentBet, 0, w);
    BetWithinPot(st, w);
    FoldWinConserves(st, w);
    FoldWinSeatsRest(st, w);
  }

  lemma {:induction false} OthersFolded(seats: seq<Seat>, w: nat)
    requires |LiveSet(seats)| == 1 && w in LiveSet(seats)
    ensures forall j :: 0 <= j < |seats| && j != w ==> seats[j].folded
  {
    var rest := LiveSet(seats) - {w};
    assert |rest| == 0;
    assert forall j: nat :: j < |seats| && j != w && !seats[j].folded ==> j in rest;
  }

  lemma {:induction false} BetWithinPot(st: State, w: nat)
    requires Core(st) && w < |st.seats|
    ensures UncalledBet(st.seats, w) <= st.seats[w].bet <= st.pot
  {
    assert forall i :: 0 <= i < |st.seats| ==> SeatOk(st.seats[i], st.currentBet);
    SumBounds(Totals(st.seats));
    assert Totals(st.seats)[w] <= st.pot;
  }

  lemma {:induction false} FoldWinSeatsRest(st: State, w: nat)
    requires Core(st) && FirstStanding(st.seats, 0) == Some(w)
    requires FoldWin(st).seats[w].stack >= st.seats[w].stack
    requires forall i :: 0 <= i < |st.seats| && i != w ==> FoldWin(st).seats[i].stack == st.seats[i].stack
    ensures VacantSitOut(FoldWin(st).seats)
    ensures forall i :: 0 <= i < |st.seats| ==> FoldWin(st).seats[i].stack >= 0
  {
    var r := FoldWin(st);
    forall i | 0 <= i < |r.seats|
      ensures r.seats[i].stack >= 0
      ensures r.seats[i].playerId == "" ==> r.seats[i].sitOut && r.seats[i].stack == 0
    {
      assert SeatOk(st.seats[i], st.currentBet);
    }
  }

  // ----- New streets -----

  lemma {:induction false} ResetOk(seats: seq<Seat>, currentBet: int)
    requires SeatsOk(seats, currentBet) && Closed(seats) && Sum(Totals(seats)) > 0
    ensures SeatsOk(ResetBets(seats), 0) && Levelled(ResetBets(seats)) && Seasoned(ResetBets(seats))
    ensures Closed(ResetBets(seats))
    ensures Stacks(ResetBets(seats)) == Stacks(seats) && Totals(ResetBets(seats)) == Totals(seats)
    ensures LiveSet(ResetBets(seats)) == LiveSet(seats) && ActiveSet(ResetBets(seats)) == ActiveSet(seats)
  {
    var r := ResetBets(seats);
    SumPositiveWitness(Totals(seats));
    var p :| 0 <= p < |seats| && Totals(seats)[p] > 0;
    forall i | 0 <= i < |r|
      ensures SeatOk(r[i], 0)
      ensures Active(r[i]) ==> Prior(r[i]) > 0
    {
      assert SeatOk(seats[i], currentBet);
      assert Active(r[i]) ==> seats[p].totalBet <= seats[i].totalBet;
    }
    forall i, j | 0 <= i < |r| && 0 <= j < |r| && Active(r[i])
      ensures r[j].totalBet <= r[i].totalBet && Prior(r[j]) <= Prior(r[i])
    {
      assert seats[j].totalBet <= seats[i].totalBet;
    }
  }

  lemma {:induction false} DealBoardCore(st: State, count: nat, street: Street)
    requires Core(st) && WellFormed(st) && Closed(st.seats)
    requires InHandStreet(street) && street != Preflop && |st.board| + count == BoardSize(street)
    requires |st.deck| >= count + 1 + CardsToCome(street)
    ensures var r := DealBoard(st, count, street);
            && Core(r) && Closed(r.seats)
            && Funds(r) == Funds(st)
            && LiveSet(r.seats) == LiveSet(st.seats) && ActiveSet(r.seats) == ActiveSet(st.seats)
            && r.currentBet == 0 && r.acted == {}
  {
    ResetOk(st.seats, st.currentBet);
  }

  lemma {:induction false} DealBoardOk(st: State, count: nat, street: Street)
    requires Core(st) && WellFormed(st) && Closed(st.seats) && |LiveSet(st.seats)| >= 2
    requires InHandStreet(street) && street != Preflop && |st.board| + count == BoardSize(street)
    requires |st.deck| >= count + 1 + CardsToCome(street)
    ensures Kept(st, DealBoard(st, count, street).(acting := None))
    ensures |ActiveSet(st.seats)| > 1 ==>
              DealBoard(st, count, street).acting.Some? && Kept(st, DealBoard(st, count, street))
  {
    var r := DealBoard(st, count, street);
    DealBoardCore(st, count, street);
    CoreStill(r.(acting := None));
    if |ActiveSet(st.seats)| > 1 {
      OpenersAreActive(r.seats);
      WalkFinds(|r.seats|, st.button, Openers(r.seats));
      CoreStill(r);
    }
  }

  lemma {:induction false} CoreStill(st: State)
    requires Core(st) && TurnOk(st) && |LiveSet(st.seats)| >= 2
    ensures InHand(st)
  {
  }

  lemma {:induction false} OpenersAreActive(seats: seq<Seat>)
    requires SeatsOk(seats, 0)
    ensures Openers(seats) == ActiveSet(seats)
  {
    forall i: nat | i < |seats| && Active(seats[i])
      ensures seats[i].stack > 0
    {
      assert SeatOk(seats[i], 0);
    }
  }

  lemma {:induction false} DealStreetOk(st: State)
    requires Core(st) && st.acting == None && Closed(st.seats) && |LiveSet(st.seats)| >= 2 && st.street != River
    ensures WellFormed(st) && NextDeal(|st.board|) > 0
    ensures Kept(st, DealStreet(st).(acting := None))
    ensures |ActiveSet(st.seats)| > 1 ==> Kept(st, DealStreet(st))
  {
    match st.street
    case Preflop => DealBoardOk(st, 3, Flop);
    case Flop => DealBoardOk(st, 1, Turn);
    case Turn => DealBoardOk(st, 1, River);
  }

  // ----- Passing the turn -----

  lemma {:induction false} CompleteIsClosed(st: State)
    requires Core(st) && StreetComplete(st) && |LiveSet(st.seats)| >= 2
    ensures Closed(st.seats)
  {
    forall i, j | 0 <= i < |st.seats| && 0 <= j < |st.seats| && Active(st.seats[i])
      ensures st.seats[j].totalBet <= st.seats[i].totalBet
    {
      assert i in ActiveSet(st.seats);
      assert SeatOk(st.seats[j], st.currentBet);
      assert Prior(st.seats[j]) <= Prior(st.seats[i]);
    }
  }

  /** The `n === null` branch of applyAction is never taken. */
  lemma {:induction false} SomebodyIsToAct(st: State, a: nat)
    requires Core(st) && !StreetComplete(st) && a < |st.seats|
    ensures NextSeat(|st.seats|, a, ToAct(st)).Some?
  {
    var i :| i in ActiveSet(st.seats) && (st.seats[i].bet != st.currentBet || i !in st.acted);
    assert SeatOk(st.seats[i], st.currentBet);
    assert i in ToAct(st);
    NextSeatFinds(|st.seats|, a, ToAct(st));
  }

  lemma {:induction false} CoreIsWellFormed(st: State)
    requires Core(st) && (st.acting.Some? ==> st.acting.value < |st.seats|)
    ensures WellFormed(st)
  {
  }

  lemma {:induction false} AdvanceStays(st: State, a: nat)
    requires WellFormed(st) && Core(st) && LiveSet(st.seats) != {} && a < |st.seats| && !StreetComplete(st)
    ensures Kept(st, Advance(st, a))
  {
    SomebodyIsToAct(st, a);
    var r := Advance(st, a);
    assert |LiveSet(st.seats)| >= 2;
    assert TurnOk(r);
    CoreStill(r);
  }

  lemma {:induction false} AdvanceOk(st: State, a: nat)
    requires Core(st) && LiveSet(st.seats) != {} && a < |st.seats| && st.acting == Some(a)
    ensures WellFormed(st)
    ensures Kept(st, Advance(st, a))
  {
    CoreIsWellFormed(st);
    if !StreetComplete(st) {
      AdvanceStays(st, a);
    } else if st.street == River {
      SettleRests(st);
    } else {
      RunoutOk(st.(acting := None));
    }
  }

  lemma {:induction false} RunoutOk(st: State)
    requires Core(st) && LiveSet(st.seats) != {} && st.acting == None && StreetComplete(st) && st.street != River
    ensures WellFormed(st)
    ensures Kept(st, MaybeRunout(st))
  {
    if |LiveSet(st.seats)| == 1 {
      FoldWinRests(st);
    } else {
      assert |LiveSet(st.seats)| >= 2;
      CompleteIsClosed(st);
      if |ActiveSet(st.seats)| > 1 {
        DealStreetOk(st);
      }
    }
  }

  /** Every legal action keeps the invariant and every chip. */
  lemma {:induction false} ActionKeepsInv(st: State, action: Action, amount: Option<int>)
    requires InHand(st) && LegalMove(st, action, amount)
    ensures ApplyAction(st, action, amount).Ok? && Kept(st, ApplyAction(st, action, amount).value)
  {
    var next := AfterWager(st, action, amount);
    WagerActs(st, action, amount);
    ActedAdvances(st, next, st.acting.value);
    ApplyUnfolds(st, action, amount);
  }

  /** The state after a legal move, before the turn passes. */
  function AfterWager(st: State, action: Action, amount: Option<int>): State
    requires WellFormed(st) && st.acting.Some? && action in LegalActions(st)
  {
    Wager(st, st.acting.value, action, LegalActions(st)[action], amount)
  }

  lemma {:induction false} ApplyUnfolds(st: State, action: Action, amount: Option<int>)
    requires WellFormed(st) && LegalMove(st, action, amount)
    ensures ApplyAction(st, action, amount) == Ok(Advance(AfterWager(st, action, amount), st.acting.value))
  {
  }

  lemma {:induction false} ActedAdvances(before: State, st: State, a: nat)
    requires InHand(before) && Acted(before, st, a) && st.acting == Some(a)
    ensures WellFormed(st)
    ensures Kept(before, Advance(st, a))
  {
    assert |LiveSet(before.seats) - {a}| >= 1;
    AdvanceOk(st, a);
  }

  /** So does the runout, whenever there is no legal action. */
  lemma {:induction false} RunoutKeepsInv(st: State)
    requires InHand(st) && LegalActions(st) == map[]
    ensures Kept(st, ContinueRunout(st))
  {
    NoOptions(st);
    if st.street == River {
      RunoutSettles(st);
    } else {
      RunoutDeals(st);
    }
  }

  lemma {:induction false} RunoutSettles(st: State)
    requires InHand(st) && st.street == River
    ensures Kept(st, ContinueRunout(st))
  {
    RiverRunsOut(st);
    SettleRests(st.(acting := None));
  }

  lemma {:induction false} RiverRunsOut(st: State)
    requires InHand(st) && st.street == River
    ensures ContinueRunout(st) == Settle(st.(acting := None))
  {
    assert |st.board| == 5 && NextDeal(5) == 0;
  }

  lemma {:induction false} RunoutDeals(st: State)
    requires InHand(st) && st.street != River && Closed(st.seats)
    ensures Kept(st, ContinueRunout(st))
  {
    DealStreetOk(st.(acting := None));
    assert ContinueRunout(st) == DealStreet(st.(acting := None)).(acting := None);
  }

  /** The engine offers nothing exactly when nobody is to act or the seat to act is all-in. */
  lemma {:induction false} NoOptions(st: State)
    requires InHand(st)
    ensures LegalActions(st) == map[] <==> st.acting.None? || st.seats[st.acting.value].allIn
  {
    if st.acting.Some? && Active(st.seats[st.acting.value]) {
      assert Check in LegalActions(st) || Fold in LegalActions(st);
    }
  }
}
