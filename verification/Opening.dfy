/** Dealing a hand establishes the invariant (`startHand`, packages/game-rules/src/holdem.ts). */
module Opening {
  import opened Prelude
  import opened Cards
  import opened Ring
  import opened Table
  import opened Holdem
  import opened Invariant

  /** The seats a new hand starts with. */
  function OpeningSeats(st: State, deck: seq<Card>): (r: seq<Seat>)
    requires CanStart(st, deck) && |EligibleSet(st.seats)| >= 2
    ensures |r| == |st.seats|
  {
    DealtSeats(PostBlinds(FreshSeats(st.seats), st.config, HandPositions(st.seats, st.button)), deck)
  }

  /** The blind a seat is asked for. */
  function BlindOf(config: Config, pos: Positions, i: nat): int
  {
    if i == pos.bb then config.bigBlind else if i == pos.sb then config.smallBlind else 0
  }

  lemma {:induction false} PostedAt(seats: seq<Seat>, config: Config, pos: Positions, i: nat)
    requires pos.sb < |seats| && pos.bb < |seats| && pos.sb != pos.bb && i < |seats|
    ensures PostBlinds(seats, config, pos)[i]
         == if i == pos.sb || i == pos.bb then TakeChips(seats[i], BlindOf(config, pos, i)) else seats[i]
  {
  }

  lemma {:induction false} OpeningSeatAt(st: State, deck: seq<Card>, i: nat)
    requires Resting(st) && CanStart(st, deck) && |EligibleSet(st.seats)| >= 2 && i < |st.seats|
    ensures var s, old_, pos := OpeningSeats(st, deck)[i], st.seats[i], HandPositions(st.seats, st.button);
            var paid := if i in EligibleSet(st.seats) then Min(old_.stack, BlindOf(st.config, pos, i)) else 0;
            && SeatOk(s, st.config.bigBlind)
            && (s.folded <==> i !in EligibleSet(st.seats))
            && s.bet == s.totalBet == paid
            && s.stack == old_.stack - paid
            && (s.allIn ==> i == pos.sb || i == pos.bb)
  {
    PostedAt(FreshSeats(st.seats), st.config, HandPositions(st.seats, st.button), i);
  }

  lemma {:induction false} OpeningSums(st: State, deck: seq<Card>)
    requires Resting(st) && CanStart(st, deck) && |EligibleSet(st.seats)| >= 2
    ensures var pos := HandPositions(st.seats, st.button);
            var pot := Min(st.seats[pos.sb].stack, st.config.smallBlind)
              + Min(st.seats[pos.bb].stack, st.config.bigBlind);
            && pot > 0
            && Sum(Totals(OpeningSeats(st, deck))) == pot
            && Sum(Stacks(OpeningSeats(st, deck))) == Sum(Stacks(st.seats)) - pot
  {
    var pos, dealt := HandPositions(st.seats, st.button), OpeningSeats(st, deck);
    var small := Min(st.seats[pos.sb].stack, st.config.smallBlind);
    var big := Min(st.seats[pos.bb].stack, st.config.bigBlind);
    forall i | 0 <= i < |dealt|
      ensures Totals(dealt)[i] == if i == pos.bb then big else if i == pos.sb then small else 0
      ensures Stacks(dealt)[i] == Stacks(st.seats)[i] - Totals(dealt)[i]
    {
      OpeningSeatAt(st, deck, i);
    }
    PostSums(Stacks(st.seats), Stacks(dealt), Totals(dealt), pos.sb, small, pos.bb, big);
  }

  lemma {:induction false} PostSums(before: seq<int>, after: seq<int>, posted: seq<int>, i: nat, x: int, j: nat, y: int)
    requires |before| == |after| == |posted| && i < |before| && j < |before| && i != j
    requires forall k :: 0 <= k < |posted| ==> posted[k] == if k == j then y else if k == i then x else 0
    requires forall k :: 0 <= k < |posted| ==> after[k] == before[k] - posted[k]
    ensures Sum(posted) == x + y && Sum(after) == Sum(before) - x - y
  {
    var zeros := seq(|before|, _ => 0);
    assert posted == zeros[i := zeros[i] + x][j := zeros[j] + y];
    TwoUpdates(zeros, i, x, j, y);
    SumZero(zeros);
    SumAdd(after, posted, before);
  }

  lemma {:induction false} TwoUpdates(s: seq<int>, i: nat, x: int, j: nat, y: int)
    requires i < |s| && j < |s| && i != j
    ensures Sum(s[i := s[i] + x][j := s[j] + y]) == Sum(s) + x + y
  {
    SumUpdate(s, i, s[i] + x);
    SumUpdate(s[i := s[i] + x], j, s[j] + y);
  }

  lemma {:induction false} OpeningSeatsOk(st: State, deck: seq<Card>)
    requires Resting(st) && CanStart(st, deck) && |EligibleSet(st.seats)| >= 2
    ensures var seats := OpeningSeats(st, deck);
            && SeatsOk(seats, st.config.bigBlind)
            && Levelled(seats)
            && LiveSet(seats) == EligibleSet(st.seats)
  {
    var seats := OpeningSeats(st, deck);
    forall i: nat | i < |seats|
      ensures SeatOk(seats[i], st.config.bigBlind) && Prior(seats[i]) == 0
      ensures seats[i].folded <==> i !in EligibleSet(st.seats)
    {
      OpeningSeatAt(st, deck, i);
    }
  }

  lemma {:induction false} OpeningTurn(st: State, deck: seq<Card>)
    requires Resting(st) && CanStart(st, deck) && |EligibleSet(st.seats)| >= 2
    ensures TurnOk(StartHand(st, deck).value) && StartHand(st, deck).value.acting.Some?
  {
    var pos, seats := HandPositions(st.seats, st.button), OpeningSeats(st, deck);
    OpeningSeatsOk(st, deck);
    OpeningSeatAt(st, deck, pos.sb);
    if pos.headsUp {
      if seats[pos.sb].allIn {
        HeadsUpClosed(st, deck);
      }
    } else {
      ThirdPlayerCanAct(st, deck);
      NextSeatFinds(|seats|, pos.bb, ActiveSet(seats));
    }
  }

  /** Heads-up with the small blind all-in, the big blind covers it. */
  lemma {:induction false} HeadsUpClosed(st: State, deck: seq<Card>)
    requires Resting(st) && CanStart(st, deck) && |EligibleSet(st.seats)| == 2
    requires OpeningSeats(st, deck)[HandPositions(st.seats, st.button).sb].allIn
    ensures Closed(OpeningSeats(st, deck))
  {
    var pos, seats := HandPositions(st.seats, st.button), OpeningSeats(st, deck);
    assert EligibleSet(st.seats) == {pos.sb, pos.bb} by {
      SubsetSize({pos.sb, pos.bb}, EligibleSet(st.seats));
    }
    forall i, j | 0 <= i < |seats| && 0 <= j < |seats| && Active(seats[i])
      ensures seats[j].totalBet <= seats[i].totalBet
    {
      OpeningSeatAt(st, deck, i);
      OpeningSeatAt(st, deck, j);
    }
  }

  lemma {:induction false} ThirdPlayerCanAct(st: State, deck: seq<Card>)
    requires Resting(st) && CanStart(st, deck) && |EligibleSet(st.seats)| >= 3
    ensures exists k :: k in ActiveSet(OpeningSeats(st, deck)) && k < |st.seats|
  {
    var pos, seats := HandPositions(st.seats, st.button), OpeningSeats(st, deck);
    var others := EligibleSet(st.seats) - {pos.sb, pos.bb};
    assert EligibleSet(st.seats) == others + {pos.sb, pos.bb};
    assert |others + {pos.sb, pos.bb}| == |others| + 2;
    var k :| k in others;
    OpeningSeatAt(st, deck, k);
    assert k in ActiveSet(seats);
  }

  lemma {:induction false} OpeningCore(st: State, deck: seq<Card>)
    requires Resting(st) && CanStart(st, deck) && |EligibleSet(st.seats)| >= 2
    ensures Core(StartHand(st, deck).value) && Funds(StartHand(st, deck).value) == Funds(st)
  {
    OpeningSeatsOk(st, deck);
    OpeningPot(st, deck);
  }

  lemma {:induction false} OpeningPot(st: State, deck: seq<Card>)
    requires Resting(st) && CanStart(st, deck) && |EligibleSet(st.seats)| >= 2
    ensures var r := StartHand(st, deck).value;
            && r.seats == OpeningSeats(st, deck) && r.pot == Sum(Totals(r.seats)) > 0
            && Funds(r) == Funds(st)
  {
    OpeningSums(st, deck);
  }

  /** Dealing succeeds exactly with two players or more; then the hand invariant holds and no chip is lost. */
  lemma {:induction false} StartHandEnters(st: State, deck: seq<Card>)
    requires Resting(st) && |deck| == DECK_SIZE
    ensures CanStart(st, deck)
    ensures StartHand(st, deck).Ok? <==> |EligibleSet(st.seats)| >= 2
    ensures StartHand(st, deck).Ok? ==> InHand(StartHand(st, deck).value) && Kept(st, StartHand(st, deck).value)
  {
    if |EligibleSet(st.seats)| >= 2 {
      OpeningCore(st, deck);
      OpeningTurn(st, deck);
      OpeningSeatsOk(st, deck);
      CoreStill(StartHand(st, deck).value);
    }
  }
}
