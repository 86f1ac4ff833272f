/** The operations of packages/game-rules/src/holdem.ts as the source carries them out: local
    copies updated step by step. Each is proved to end in the state its function gives. */
module Engine {
  import opened Prelude
  import opened Cards
  import opened Ring
  import opened Pots
  import opened Rake
  import opened Payouts
  import opened Settlement
  import opened Table
  import opened Holdem

  // ----- Moving chips -----

  method MoveChips(seats: seq<Seat>, i: nat, amount: int) returns (after: seq<Seat>, paid: int)
    requires i < |seats|
    ensures paid == Paid(seats[i], amount)
    ensures after == seats[i := TakeChips(seats[i], amount)]
  {
    var seat := seats[i];
    paid := if seat.stack < amount then seat.stack else amount;
    seat := seat.(stack := seat.stack - paid);
    seat := seat.(bet := seat.bet + paid);
    seat := seat.(totalBet := seat.totalBet + paid);
    if seat.stack == 0 {
      seat := seat.(allIn := true);
    }
    after := seats[i := seat];
  }

  // ----- startHand -----

  method CollectBlinds(seats: seq<Seat>, config: Config, pos: Positions) returns (posted: seq<Seat>, pot: int)
    requires pos.sb < |seats| && pos.bb < |seats| && pos.sb != pos.bb
    ensures posted == PostBlinds(seats, config, pos)
    ensures pot == Paid(seats[pos.sb], config.smallBlind) + Paid(seats[pos.bb], config.bigBlind)
  {
    var sbPaid, bbPaid;
    posted, sbPaid := MoveChips(seats, pos.sb, config.smallBlind);
    posted, bbPaid := MoveChips(posted, pos.bb, config.bigBlind);
    pot := sbPaid + bbPaid;
  }

  /** Blinds, hole cards and the first to act. */
  method DealIn(st: State, deck: seq<Card>, pos: Positions)
    returns (seats: seq<Seat>, pot: int, rest: seq<Card>, first: Option<nat>)
    requires CanStart(st, deck) && |EligibleSet(st.seats)| >= 2 && pos == HandPositions(st.seats, st.button)
    ensures var posted := PostBlinds(FreshSeats(st.seats), st.config, pos);
            && seats == DealtSeats(posted, deck) && rest == deck[2 * DealtBefore(posted, |posted|)..]
    ensures var reset := FreshSeats(st.seats);
            pot == Paid(reset[pos.sb], st.config.smallBlind) + Paid(reset[pos.bb], st.config.bigBlind)
    ensures first == if pos.headsUp then Some(pos.sb) else NextSeat(|seats|, pos.bb, ActiveSet(seats))
  {
    seats, pot := CollectBlinds(FreshSeats(st.seats), st.config, pos);
    seats, rest := DealHoles(seats, deck);
    first := Some(pos.sb);
    if !pos.headsUp {
      first := FindNextSeat(|seats|, pos.bb, ActiveSet(seats));
    }
  }

  method BeginHand(st: State, deck: seq<Card>) returns (r: Result<State, Error>)
    requires CanStart(st, deck)
    ensures r == StartHand(st, deck)
  {
    if |EligibleSet(st.seats)| < 2 {
      return Err(NeedPlayers);
    }
    var pos := HandPositions(st.seats, st.button);
    var seats, pot, rest, first := DealIn(st, deck, pos);
    r := Ok(st.(handNumber := st.handNumber + 1, button := pos.button, deck := rest, board := [],
                pot := pot, street := Preflop, winners := [], rake := 0,
                currentBet := st.config.bigBlind, minRaise := st.config.bigBlind, acted := {},
                lastRaiseComplete := true, lastAggressor := Some(pos.bb), seats := seats,
                acting := first, firstToAct := first));
  }

  // ----- dealBoard -----

  method TurnCards(st: State, count: nat, street: Street) returns (r: State)
    requires WellFormed(st) && count + 1 <= |st.deck|
    ensures r == DealBoard(st, count, street)
  {
    var deck := st.deck[1..];
    var cards := [];
    for i := 0 to count
      invariant deck == st.deck[i + 1..]
      invariant cards == st.deck[1..i + 1]
    {
      cards := cards + [deck[0]];
      deck := deck[1..];
    }
    r := st.(deck := deck, board := st.board + cards, street := street, seats := ResetBets(st.seats),
             currentBet := 0, minRaise := st.config.bigBlind, lastAggressor := None, acted := {},
             lastRaiseComplete := true);
    var first := FindNextSeat(|r.seats|, r.button, Openers(r.seats));
    r := r.(acting := first, firstToAct := first);
  }

  // ----- settleShowdown -----

  method PayShares(gross: seq<int>, winners: seq<nat>, amount: nat) returns (after: seq<int>)
    requires |winners| > 0 && Below(winners, |gross|)
    ensures after == Pay(gross, winners, SplitShares(amount, |winners|), |winners|)
  {
    var shares := SplitPotShares(amount, |winners|);
    after := gross;
    for i := 0 to |winners|
      invariant after == Pay(gross, winners, shares, i)
    {
      after := after[winners[i] := after[winners[i]] + shares[i]];
    }
  }

  method RecordWinners(won: seq<nat>, winners: seq<nat>) returns (after: seq<nat>)
    requires NoRepeats(won)
    ensures after == AddNew(won, winners, |winners|)
  {
    after := won;
    for i := 0 to |winners|
      invariant after == AddNew(won, winners, i)
    {
      if winners[i] !in after {
        after := after + [winners[i]];
      }
    }
  }

  /** Gross awards and the order they were first made in, layer by layer. */
  method AwardLayers(seats: seq<Seat>, scores: seq<seq<int>>, button: nat, layers: seq<Layer>)
    returns (gross: seq<int>, won: seq<nat>)
    requires button < |seats| == |scores|
    ensures gross == Gross(seats, scores, button, layers, |layers|)
    ensures won == WonOrder(seats, scores, button, layers, |layers|)
  {
    gross, won := Zeros(|seats|), [];
    for k := 0 to |layers|
      invariant gross == Gross(seats, scores, button, layers, k)
      invariant won == WonOrder(seats, scores, button, layers, k)
    {
      AwardsUnfold(seats, scores, button, layers, k);
      if layers[k].amount > 0 {
        gross, won := AwardLayer(gross, won, button, Winners(seats, scores, layers[k]), layers[k].amount);
      }
    }
  }

  lemma {:induction false} AwardsUnfold(seats: seq<Seat>, scores: seq<seq<int>>, button: nat, layers: seq<Layer>,
                                        k: nat)
    requires button < |seats| == |scores| && k < |layers|
    ensures var winners, amount := Winners(seats, scores, layers[k]), layers[k].amount;
            var w := ByButton(button, |seats|, winners);
            var gross, won := Gross(seats, scores, button, layers, k), WonOrder(seats, scores, button, layers, k);
            && Gross(seats, scores, button, layers, k + 1)
              == (if amount > 0 then PayLayer(gross, button, winners, amount) else gross)
            && WonOrder(seats, scores, button, layers, k + 1) == (if amount > 0 then AddNew(won, w, |w|) else won)
  {
  }

  method AwardLayer(gross: seq<int>, won: seq<nat>, button: nat, winners: set<nat>, amount: nat)
    returns (gross': seq<int>, won': seq<nat>)
    requires button < |gross| && NoRepeats(won) && amount > 0
    requires forall i :: i in winners ==> i < |gross|
    ensures gross' == PayLayer(gross, button, winners, amount)
    ensures var w := ByButton(button, |gross|, winners); won' == AddNew(won, w, |w|)
  {
    var w := ByButton(button, |gross|, winners);
    ByButtonLists(button, |gross|, winners);
    NobodyListedIff(button, |gross|, winners);
    gross' := gross;
    if |w| > 0 {
      gross' := PayShares(gross, w, amount);
    }
    won' := RecordWinners(won, w);
  }

  lemma {:induction false} NobodyListedIff(button: nat, n: nat, winners: set<nat>)
    requires button < n && forall i :: i in winners ==> i < n
    ensures |ByButton(button, n, winners)| == 0 <==> winners == {}
  {
    var listed := ByButton(button, n, winners);
    ByButtonLists(button, n, winners);
    if |listed| > 0 {
      assert listed[0] in winners;
    }
    if winners != {} {
      var x :| x in winners;
      assert Covers(listed, x);
    }
  }

  method ChargeTabs(n: nat, who: seq<nat>, tabs: seq<int>) returns (charges: seq<int>)
    requires |tabs| == |who| && Below(who, n)
    ensures charges == Pay(Zeros(n), who, tabs, |who|)
  {
    charges := Zeros(n);
    for i := 0 to |who|
      invariant charges == Pay(Zeros(n), who, tabs, i)
    {
      charges := charges[who[i] := charges[who[i]] + tabs[i]];
    }
  }

  method SettleHand(st: State) returns (r: State)
    requires st.button < |st.seats|
    ensures r == SettleShowdown(st)
  {
    var scores := Scores(st.seats, st.board);
    var layers := BuildPots(st.seats);
    var rake := ShowdownRake(st, layers);
    var gross, won := AwardLayers(st.seats, scores, st.button, layers);
    assert gross == GrossAwards(st, layers) && won == WonBy(st, layers);
    var who := ChargedSeats(st, layers);
    var tabs := AllocateRakeByAwards(Read(gross, who), rake);
    var charges := ChargeTabs(|st.seats|, who, tabs);
    r := st.(seats := Credit(st.seats, gross, charges), pot := 0, rake := rake,
             sessionRake := st.sessionRake + rake, winners := NetAwards(won, gross, charges),
             street := Street.Settlement, acting := None);
  }

  // ----- maybeRunout, continueRunout -----

  method DealNext(st: State) returns (r: State)
    requires WellFormed(st) && NextDeal(|st.board|) > 0
    ensures r == DealStreet(st)
  {
    if |st.board| == 0 {
      r := TurnCards(st, 3, Flop);
    } else if |st.board| == 3 {
      r := TurnCards(st, 1, Turn);
    } else {
      r := TurnCards(st, 1, River);
    }
  }

  method Proceed(st: State) returns (r: State)
    requires WellFormed(st)
    ensures r == MaybeRunout(st)
  {
    if |LiveSet(st.seats)| == 1 {
      return FoldWin(st);
    }
    var auto := |ActiveSet(st.seats)| <= 1;
    if !auto {
      if st.acting.Some? {
        return st;
      }
      if NextDeal(|st.board|) > 0 {
        r := DealNext(st);
      } else if st.street == River || |st.board| >= 5 {
        r := SettleHand(st.(street := Showdown));
      } else {
        r := st;
      }
    } else if |st.board| >= 5 {
      r := SettleHand(st.(street := Showdown));
    } else {
      r := st.(acting := None);
    }
  }

  method RunOut(st: State) returns (r: State)
    requires WellFormed(st)
    ensures r == ContinueRunout(st)
  {
    var s0 := st.(acting := None);
    if |LiveSet(s0.seats)| == 1 {
      return FoldWin(s0);
    }
    if |LiveSet(s0.seats)| < 2 {
      return s0.(street := Street.Settlement, pot := 0);
    }
    if NextDeal(|s0.board|) > 0 {
      r := DealNext(s0);
      r := r.(acting := None);
    } else {
      r := SettleHand(s0.(street := Showdown));
    }
  }

  // ----- applyAction -----

  method PlaceWager(st: State, a: nat, action: Action, bounds: Bounds, amount: Option<int>) returns (next: State)
    requires a < |st.seats|
    requires action == Bet || action == Raise ==> bounds.Range?
    ensures next == Wager(st, a, action, bounds, amount)
  {
    var seats, pot, acted := st.seats, st.pot, st.acted;
    var currentBet, minRaise := st.currentBet, st.minRaise;
    var lastAggressor, lastRaiseComplete := st.lastAggressor, st.lastRaiseComplete;
    var paid := 0;
    match action {
      case Fold =>
        seats := seats[a := seats[a].(folded := true)];
      case Check =>
      case Call =>
        seats, paid := MoveChips(seats, a, currentBet - seats[a].bet);
        pot := pot + paid;
      case Bet =>
        var betAmount := if amount.Some? then amount.value else bounds.min;
        seats, paid := MoveChips(seats, a, betAmount);
        pot := pot + paid;
        minRaise := paid;
        currentBet := seats[a].bet;
        lastAggressor := Some(a);
        lastRaiseComplete := true;
        acted := {};
      case Raise =>
        var target := if amount.Some? then amount.value else bounds.min;
        seats, paid := MoveChips(seats, a, target);
        pot := pot + paid;
        var raiseSize := seats[a].bet - currentBet;
        if raiseSize >= minRaise {
          minRaise := raiseSize;
        }
        currentBet := seats[a].bet;
        lastAggressor := Some(a);
        lastRaiseComplete := true;
        acted := {};
      case AllIn =>
        seats, paid := MoveChips(seats, a, seats[a].stack);
        pot := pot + paid;
        if seats[a].bet > currentBet {
          var raiseSize := seats[a].bet - currentBet;
          if raiseSize >= minRaise {
            minRaise := raiseSize;
            lastAggressor := Some(a);
            lastRaiseComplete := true;
            acted := {};
          } else {
            lastRaiseComplete := false;
          }
          currentBet := seats[a].bet;
        }
    }
    acted := acted + {a};
    next := st.(seats := seats, pot := pot, currentBet := currentBet, minRaise := minRaise,
                lastAggressor := lastAggressor, acted := acted, lastRaiseComplete := lastRaiseComplete);
  }

  method PassTurn(st: State, a: nat) returns (r: State)
    requires WellFormed(st)
    ensures r == Advance(st, a)
  {
    if StreetComplete(st) {
      if st.street == River {
        r := SettleHand(st.(street := Showdown));
      } else {
        r := Proceed(st.(acting := None));
      }
      return;
    }
    var n := FindNextSeat(|st.seats|, a, ToAct(st));
    if n.None? {
      r := Proceed(st.(acting := None));
    } else {
      r := st.(acting := n);
    }
  }

  method Play(st: State, action: Action, amount: Option<int>) returns (r: Result<State, Error>)
    requires WellFormed(st)
    ensures r == ApplyAction(st, action, amount)
  {
    if st.acting.None? {
      return Err(NobodyToAct);
    }
    var legal := LegalActions(st);
    if action !in legal {
      return Err(IllegalAction);
    }
    var bounds := legal[action];
    if bounds.Range? && amount.Some? {
      if amount.value < bounds.min || amount.value > bounds.max {
        return Err(IllegalAmount);
      }
    }
    var next := PlaceWager(st, st.acting.value, action, bounds, amount);
    next := PassTurn(next, st.acting.value);
    r := Ok(next);
  }
}
