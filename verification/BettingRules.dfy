/** The rules of a betting round, told by its history alone (packages/game-rules/src/holdem.ts, lines 353-479 and
    887-995): what may be raised, by whom and by how much follows from who did what on the street, without
    `minRaise`, `actedThisStreet` or `lastRaiseComplete`. */
module BettingRules {
  import opened Prelude
  import opened Ring
  import opened Table
  import opened Holdem
  import opened Invariant
  import opened Opening
  import opened Runs
  import opened ShortAllIn
  import Betting
  import Cards

  // ----- One move -----

  /** How far a move of seat `a` took its bet beyond the bet to match; not positive if it did not. */
  function Lift(s: State, t: State, a: nat): int
    requires a < |t.seats|
  {
    t.seats[a].bet - s.currentBet
  }

  /** A bet, a raise, or an all-in that raises by at least `full`. */
  predicate Full(s: State, t: State, a: nat, action: Action, full: int)
    requires a < |t.seats|
  {
    action == Bet || action == Raise || (action == AllIn && Lift(s, t, a) >= full)
  }

  /** An all-in that raises by less. */
  predicate Short(s: State, t: State, a: nat, action: Action, full: int)
    requires a < |t.seats|
  {
    action == AllIn && 0 < Lift(s, t, a) < full
  }

  /** What the next raise has to be after a move: a bet counts whatever its size, a raise or all-in if it was full. */
  function NextFull(s: State, t: State, a: nat, action: Action, full: int): int
    requires a < |t.seats|
  {
    if action == Bet || ((action == Raise || action == AllIn) && Lift(s, t, a) >= full) then Lift(s, t, a) else full
  }

  /** A move within a street. */
  ghost predicate Moved(s: State, t: State, a: nat, action: Action, amount: Option<int>)
  {
    && InHand(s) && InHand(t) && Plays(s, t, action, amount) && t.street == s.street
    && s.acting == Some(a) && a < |s.seats| == |t.seats|
  }

  /** What a move by seat `a` writes down. */
  ghost predicate Bookkept(s: State, t: State, a: nat, action: Action)
  {
    && a < |s.seats| == |t.seats|
    && t.config == s.config
    && t.currentBet == Max(s.currentBet, t.seats[a].bet)
    && t.minRaise == NextFull(s, t, a, action, s.minRaise)
    && t.acted == (if Full(s, t, a, action, s.minRaise) then {a} else s.acted + {a})
    && (t.lastRaiseComplete <==>
        Full(s, t, a, action, s.minRaise) || (s.lastRaiseComplete && !Short(s, t, a, action, s.minRaise)))
    && t.lastAggressor == (if Full(s, t, a, action, s.minRaise) then Some(a) else s.lastAggressor)
  }

  lemma {:induction false} WagerBookkeeping(s: State, action: Action, amount: Option<int>)
    requires InHand(s) && LegalMove(s, action, amount)
    ensures Bookkept(s, AfterWager(s, action, amount), s.acting.value, action)
  {
    BoundsAreSound(s, action);
    assert SeatOk(s.seats[s.acting.value], s.currentBet);
  }

  lemma {:induction false} MovePassesTurn(s: State, t: State, a: nat, action: Action, amount: Option<int>)
    requires Moved(s, t, a, action, amount)
    ensures LegalMove(s, action, amount) && t == AfterWager(s, action, amount).(acting := t.acting)
  {
    Betting.TurnGoesClockwise(s, t, action, amount);
  }

  lemma {:induction false} MoveBookkeeping(s: State, t: State, a: nat, action: Action, amount: Option<int>)
    requires Moved(s, t, a, action, amount)
    ensures Bookkept(s, t, a, action)
  {
    MovePassesTurn(s, t, a, action, amount);
    WagerBookkeeping(s, action, amount);
  }

  /** Seat `a` put `x` chips in. */
  ghost predicate PutsIn(s: State, t: State, a: nat, x: int)
  {
    && a < |s.seats| == |t.seats|
    && t.seats[a].stack == s.seats[a].stack - x
    && t.seats[a].bet == s.seats[a].bet + x
    && t.seats[a].totalBet == s.seats[a].totalBet + x
    && t.pot == s.pot + x
    && (t.seats[a].allIn <==> t.seats[a].stack == 0)
    && t.seats[a].hole == s.seats[a].hole
    && forall i :: 0 <= i < |s.seats| && i != a ==> t.seats[i] == s.seats[i]
  }

  /** What the action says about the chips put in. */
  ghost predicate Wagered(s: State, t: State, a: nat, action: Action, amount: Option<int>)
    requires a < |s.seats| == |t.seats|
  {
    var x := t.seats[a].bet - s.seats[a].bet;
    && (t.seats[a].folded <==> action == Fold)
    && (action == Fold || action == Check ==> x == 0)
    && (action == Call ==> t.seats[a].bet == s.currentBet)
    && (action == AllIn ==> x == s.seats[a].stack)
    && ((action == Bet || action == Raise) && amount.Some? ==> x == amount.value)
  }

  lemma {:induction false} WagerPutsIn(s: State, action: Action, amount: Option<int>)
    requires InHand(s) && LegalMove(s, action, amount)
    ensures var t, a := AfterWager(s, action, amount), s.acting.value;
            && a < |s.seats| == |t.seats|
            && PutsIn(s, t, a, t.seats[a].bet - s.seats[a].bet) && Wagered(s, t, a, action, amount)
  {
    BoundsAreSound(s, action);
    assert SeatOk(s.seats[s.acting.value], s.currentBet);
  }

  /** The chips of a move: out of the acting seat's stack, into its bet and the pot; nobody else's move. */
  lemma {:induction false} MoveTakesChips(s: State, t: State, a: nat, action: Action, amount: Option<int>)
    requires Moved(s, t, a, action, amount)
    ensures PutsIn(s, t, a, t.seats[a].bet - s.seats[a].bet) && Wagered(s, t, a, action, amount)
  {
    MovePassesTurn(s, t, a, action, amount);
    WagerPutsIn(s, action, amount);
  }

  // ----- A street -----

  /** The first state of a street, with nobody having acted on it. */
  ghost predicate OpensStreet(st: State)
  {
    InHand(st) && st.acted == {} && st.lastRaiseComplete && st.minRaise == st.config.bigBlind
  }

  /** The seat that makes move `j`. */
  ghost function Mover(trace: seq<State>, j: nat): nat
    requires j < |trace|
  {
    if trace[j].acting.Some? then trace[j].acting.value else 0
  }

  /** A street from its opening on, move by move. */
  ghost predicate Street(trace: seq<State>, moves: seq<Move>)
  {
    && |trace| == |moves| + 1 && OpensStreet(trace[0])
    && forall i: nat :: i < |moves| ==> StreetMove(trace, moves, i)
  }

  ghost predicate StreetMove(trace: seq<State>, moves: seq<Move>, i: nat)
    requires |trace| == |moves| + 1 && i < |moves|
  {
    Moved(trace[i], trace[i + 1], Mover(trace, i), moves[i].action, moves[i].amount)
  }

  /** Size of the last full bet or raise of the first `k` moves; a big blind to begin with. */
  ghost function LastFull(trace: seq<State>, moves: seq<Move>, k: nat): int
    requires Street(trace, moves) && k <= |moves|
  {
    if k == 0 then trace[0].config.bigBlind
    else
      assert StreetMove(trace, moves, k - 1);
      NextFull(trace[k - 1], trace[k], Mover(trace, k - 1), moves[k - 1].action, LastFull(trace, moves, k - 1))
  }

  /** Move `j` reopens the betting. */
  ghost predicate ReopensAt(trace: seq<State>, moves: seq<Move>, j: nat)
    requires Street(trace, moves) && j < |moves|
  {
    assert StreetMove(trace, moves, j);
    Full(trace[j], trace[j + 1], Mover(trace, j), moves[j].action, LastFull(trace, moves, j))
  }

  /** Move `j` is a short all-in. */
  ghost predicate ShortAt(trace: seq<State>, moves: seq<Move>, j: nat)
    requires Street(trace, moves) && j < |moves|
  {
    assert StreetMove(trace, moves, j);
    Short(trace[j], trace[j + 1], Mover(trace, j), moves[j].action, LastFull(trace, moves, j))
  }

  /** No move of `i` .. `k` - 1 reopens the betting. */
  ghost predicate Quiet(trace: seq<State>, moves: seq<Move>, i: nat, k: nat)
    requires Street(trace, moves) && k <= |moves|
  {
    forall j: nat :: i <= j < k ==> !ReopensAt(trace, moves, j)
  }

  /** Seat `x` has moved, and nobody reopened the betting after it. */
  ghost predicate HasActed(trace: seq<State>, moves: seq<Move>, k: nat, x: nat)
    requires Street(trace, moves) && k <= |moves|
  {
    exists j: nat :: j < k && Mover(trace, j) == x && Quiet(trace, moves, j + 1, k)
  }

  /** Somebody went all-in for less than a full raise, and nobody reopened the betting after that. */
  ghost predicate ShortAllInStands(trace: seq<State>, moves: seq<Move>, k: nat)
    requires Street(trace, moves) && k <= |moves|
  {
    exists j: nat :: j < k && ShortAt(trace, moves, j) && Quiet(trace, moves, j + 1, k)
  }

  // ----- The state follows from the history -----

  lemma {:induction false} StreetBookkept(trace: seq<State>, moves: seq<Move>, k: nat)
    requires Street(trace, moves) && k < |moves|
    ensures Bookkept(trace[k], trace[k + 1], Mover(trace, k), moves[k].action)
    ensures InHand(trace[k]) && InHand(trace[k + 1])
  {
    assert StreetMove(trace, moves, k);
    MoveBookkeeping(trace[k], trace[k + 1], Mover(trace, k), moves[k].action, moves[k].amount);
  }

  lemma {:induction false} FullFollows(trace: seq<State>, moves: seq<Move>, k: nat)
    requires Street(trace, moves) && k <= |moves|
    ensures trace[k].minRaise == LastFull(trace, moves, k)
  {
    if k > 0 {
      FullFollows(trace, moves, k - 1);
      StreetBookkept(trace, moves, k - 1);
    }
  }

  /** What a move leaves behind of who has acted and whether the last raise was full. */
  lemma {:induction false} MoveMarks(trace: seq<State>, moves: seq<Move>, k: nat)
    requires Street(trace, moves) && k < |moves|
    ensures trace[k + 1].acted
         == if ReopensAt(trace, moves, k) then {Mover(trace, k)} else trace[k].acted + {Mover(trace, k)}
    ensures trace[k + 1].lastRaiseComplete <==>
              !ShortAt(trace, moves, k) && (trace[k].lastRaiseComplete || ReopensAt(trace, moves, k))
  {
    FullFollows(trace, moves, k);
    StreetBookkept(trace, moves, k);
  }

  lemma {:induction false} QuietGrows(trace: seq<State>, moves: seq<Move>, i: nat, k: nat)
    requires Street(trace, moves) && k < |moves| && i <= k
    ensures Quiet(trace, moves, i, k + 1) <==> Quiet(trace, moves, i, k) && !ReopensAt(trace, moves, k)
  {
  }

  lemma {:induction false} ActedGrows(trace: seq<State>, moves: seq<Move>, k: nat, x: nat)
    requires Street(trace, moves) && k < |moves|
    ensures HasActed(trace, moves, k + 1, x) <==>
              Mover(trace, k) == x || (HasActed(trace, moves, k, x) && !ReopensAt(trace, moves, k))
  {
    if Mover(trace, k) == x {
      assert Quiet(trace, moves, k + 1, k + 1);
    }
    if HasActed(trace, moves, k, x) && !ReopensAt(trace, moves, k) {
      var j: nat :| j < k && Mover(trace, j) == x && Quiet(trace, moves, j + 1, k);
      QuietGrows(trace, moves, j + 1, k);
    }
    if HasActed(trace, moves, k + 1, x) {
      var j: nat :| j < k + 1 && Mover(trace, j) == x && Quiet(trace, moves, j + 1, k + 1);
      if j < k {
        QuietGrows(trace, moves, j + 1, k);
      }
    }
  }

  lemma {:induction false} ActedFollows(trace: seq<State>, moves: seq<Move>, k: nat, x: nat)
    requires Street(trace, moves) && k <= |moves|
    ensures x in trace[k].acted <==> HasActed(trace, moves, k, x)
  {
    if k > 0 {
      ActedFollows(trace, moves, k - 1, x);
      ActedGrows(trace, moves, k - 1, x);
      MoveMarks(trace, moves, k - 1);
    }
  }

  lemma {:induction false} ShortGrows(trace: seq<State>, moves: seq<Move>, k: nat)
    requires Street(trace, moves) && k < |moves|
    ensures ShortAllInStands(trace, moves, k + 1) <==>
              ShortAt(trace, moves, k) || (ShortAllInStands(trace, moves, k) && !ReopensAt(trace, moves, k))
  {
    if ShortAt(trace, moves, k) {
      assert Quiet(trace, moves, k + 1, k + 1);
    }
    if ShortAllInStands(trace, moves, k) && !ReopensAt(trace, moves, k) {
      var j: nat :| j < k && ShortAt(trace, moves, j) && Quiet(trace, moves, j + 1, k);
      QuietGrows(trace, moves, j + 1, k);
    }
    if ShortAllInStands(trace, moves, k + 1) {
      var j: nat :| j < k + 1 && ShortAt(trace, moves, j) && Quiet(trace, moves, j + 1, k + 1);
      if j < k {
        QuietGrows(trace, moves, j + 1, k);
      }
    }
  }

  lemma {:induction false} CapFollows(trace: seq<State>, moves: seq<Move>, k: nat)
    requires Street(trace, moves) && k <= |moves|
    ensures trace[k].lastRaiseComplete <==> !ShortAllInStands(trace, moves, k)
  {
    if k > 0 {
      CapFollows(trace, moves, k - 1);
      ShortGrows(trace, moves, k - 1);
      MoveMarks(trace, moves, k - 1);
    }
  }

  // ----- What the rules come to -----

  lemma {:induction false} StateIsInHand(trace: seq<State>, moves: seq<Move>, k: nat)
    requires Street(trace, moves) && k <= |moves|
    ensures InHand(trace[k]) && |trace[k].seats| == |trace[0].seats| && trace[k].config == trace[0].config
  {
    if k > 0 {
      StateIsInHand(trace, moves, k - 1);
      StreetBookkept(trace, moves, k - 1);
    }
  }

  /** Which actions are on offer: betting, raising and raising all-in are closed exactly to a seat that has acted
      since the last full bet or raise, while a short all-in stands. */
  lemma {:induction false} OffersFollow(trace: seq<State>, moves: seq<Move>, k: nat, x: nat)
    requires Street(trace, moves) && k <= |moves| && trace[k].acting == Some(x)
    ensures InHand(trace[k]) && x < |trace[k].seats|
    ensures var st, seat := trace[k], trace[k].seats[x];
            var legal, owed := LegalActions(st), st.currentBet - seat.bet;
            var open := !(HasActed(trace, moves, k, x) && ShortAllInStands(trace, moves, k));
            Active(seat) ==>
              && (Fold in legal <==> owed > 0)
              && (Check in legal <==> owed == 0)
              && (Call in legal <==> 0 < owed <= seat.stack)
              && (Bet in legal <==> owed == 0 && open)
              && (Raise in legal <==> 0 < owed < seat.stack && open)
              && (AllIn in legal <==> seat.stack <= owed || open)
  {
    StateIsInHand(trace, moves, k);
    ActedFollows(trace, moves, k, x);
    CapFollows(trace, moves, k);
    if Active(trace[k].seats[x]) {
      Betting.OptionsAreExact(trace[k]);
    }
  }

  /** How much: a raise short of the whole stack must lift the bet by at least the last full bet or raise of the
      street, and any such raise is accepted; a bet short of the whole stack must be a big blind. */
  lemma {:induction false} RaisesFollow(trace: seq<State>, moves: seq<Move>, k: nat, x: nat, amount: int)
    requires Street(trace, moves) && k <= |moves| && trace[k].acting == Some(x)
    ensures InHand(trace[k]) && x < |trace[k].seats|
    ensures var st, seat := trace[k], trace[k].seats[x];
            && (Raise in LegalActions(st) ==>
                  (LegalMove(st, Raise, Some(amount)) <==>
                     amount <= seat.stack
                     && (seat.bet + amount - st.currentBet >= LastFull(trace, moves, k) || amount == seat.stack)))
            && (Bet in LegalActions(st) ==>
                  (LegalMove(st, Bet, Some(amount)) <==>
                     amount <= seat.stack && (amount >= st.config.bigBlind || amount == seat.stack)))
            && (Call in LegalActions(st) ==>
                  (LegalMove(st, Call, Some(amount)) <==> amount == st.currentBet - seat.bet))
            && (AllIn in LegalActions(st) ==> (LegalMove(st, AllIn, Some(amount)) <==> amount == seat.stack))
  {
    StateIsInHand(trace, moves, k);
    FullFollows(trace, moves, k);
  }

  /** Somebody has put in all there is to match. */
  ghost predicate SomebodyMatches(st: State)
  {
    exists i :: 0 <= i < |st.seats| && st.seats[i].bet == st.currentBet
  }

  /** What there is to match: the largest bet, or what it was when the street opened while nobody has put in more. */
  lemma {:induction false} BetToMatchFollows(trace: seq<State>, moves: seq<Move>, k: nat)
    requires Street(trace, moves) && k <= |moves|
    ensures trace[k].currentBet >= trace[0].currentBet
    ensures trace[k].currentBet == trace[0].currentBet || SomebodyMatches(trace[k])
    ensures forall i :: 0 <= i < |trace[k].seats| ==> trace[k].seats[i].bet <= trace[k].currentBet
  {
    NobodyExceeds(trace, moves, k);
    if k > 0 {
      BetToMatchFollows(trace, moves, k - 1);
      MatchGrows(trace, moves, k - 1);
    }
  }

  lemma {:induction false} NobodyExceeds(trace: seq<State>, moves: seq<Move>, k: nat)
    requires Street(trace, moves) && k <= |moves|
    ensures forall i :: 0 <= i < |trace[k].seats| ==> trace[k].seats[i].bet <= trace[k].currentBet
  {
    StateIsInHand(trace, moves, k);
    assert forall i :: 0 <= i < |trace[k].seats| ==> SeatOk(trace[k].seats[i], trace[k].currentBet);
  }

  lemma {:induction false} MatchGrows(trace: seq<State>, moves: seq<Move>, k: nat)
    requires Street(trace, moves) && k < |moves|
    ensures trace[k + 1].currentBet >= trace[k].currentBet
    ensures trace[k + 1].currentBet > trace[k].currentBet || SomebodyMatches(trace[k]) ==> SomebodyMatches(trace[k + 1])
  {
    assert StreetMove(trace, moves, k);
    MatchStep(trace[k], trace[k + 1], Mover(trace, k), moves[k].action, moves[k].amount);
  }

  lemma {:induction false} MatchStep(s: State, t: State, a: nat, action: Action, amount: Option<int>)
    requires Moved(s, t, a, action, amount)
    ensures t.currentBet >= s.currentBet
    ensures t.currentBet > s.currentBet || SomebodyMatches(s) ==> SomebodyMatches(t)
  {
    MoveBookkeeping(s, t, a, action, amount);
    if t.currentBet == s.currentBet && SomebodyMatches(s) {
      var i :| 0 <= i < |s.seats| && s.seats[i].bet == s.currentBet;
      MoveTakesChips(s, t, a, action, amount);
      if i == a {
        BetsOnlyGrow(s, t, a, action, amount);
      }
      assert t.seats[i].bet == t.currentBet;
    }
  }

  lemma {:induction false} BetsOnlyGrow(s: State, t: State, a: nat, action: Action, amount: Option<int>)
    requires Moved(s, t, a, action, amount)
    ensures s.seats[a].bet <= t.seats[a].bet <= t.currentBet
  {
    MovePassesTurn(s, t, a, action, amount);
    BoundsAreSound(s, action);
    assert SeatOk(s.seats[a], s.currentBet) && SeatOk(t.seats[a], t.currentBet);
  }

  // ----- Whose turn it is -----

  /** Seat `y` can act, and owes chips or has not acted since the last full bet or raise. */
  ghost predicate InPlay(trace: seq<State>, moves: seq<Move>, k: nat, y: nat)
    requires Street(trace, moves) && k <= |moves|
  {
    && y < |trace[k].seats| && Active(trace[k].seats[y])
    && (trace[k].seats[y].bet < trace[k].currentBet || !HasActed(trace, moves, k, y))
  }

  lemma {:induction false} InPlayIff(trace: seq<State>, moves: seq<Move>, k: nat, y: nat)
    requires Street(trace, moves) && k <= |moves|
    ensures InPlay(trace, moves, k, y) <==> y in ToAct(trace[k])
  {
    ActedFollows(trace, moves, k, y);
  }

  /** After a move the turn is with the nearest seat clockwise that is in play, or nobody is. */
  lemma {:induction false} TurnFollows(trace: seq<State>, moves: seq<Move>, k: nat, y: nat)
    requires Street(trace, moves) && k < |moves|
    ensures var n, a := |trace[k].seats|, Mover(trace, k);
            match trace[k + 1].acting
            case Some(x) =>
              && x < n && InPlay(trace, moves, k + 1, x)
              && (InPlay(trace, moves, k + 1, y) ==> Clockwise(n, a, x) <= Clockwise(n, a, y))
            case None => !InPlay(trace, moves, k + 1, y)
  {
    var s, t, n, a := trace[k], trace[k + 1], |trace[k].seats|, Mover(trace, k);
    assert StreetMove(trace, moves, k);
    Betting.TurnGoesClockwise(s, t, moves[k].action, moves[k].amount);
    var next := AfterWager(s, moves[k].action, moves[k].amount);
    WagerKeepsTable(s, moves[k].action, moves[k].amount);
    assert ToAct(next) == ToAct(t);
    InPlayIff(trace, moves, k + 1, y);
    if t.acting.Some? {
      InPlayIff(trace, moves, k + 1, t.acting.value);
      if y in ToAct(t) {
        NextSeatIsNearest(n, a, ToAct(t), y);
      }
    }
  }

  lemma {:induction false} WagerKeepsTable(s: State, action: Action, amount: Option<int>)
    requires InHand(s) && LegalMove(s, action, amount)
    ensures var next := AfterWager(s, action, amount); |next.seats| == |s.seats| && |LiveSet(next.seats)| >= 1
  {
    WagerActs(s, action, amount);
    assert |LiveSet(s.seats) - {s.acting.value}| >= 1;
  }

  /** Seat `y` is in play after one more action, which left the table as `next`. */
  ghost predicate InPlayAfter(trace: seq<State>, moves: seq<Move>, next: State, action: Action, y: nat)
    requires Street(trace, moves)
  {
    var k, a := |moves|, Mover(trace, |moves|);
    && y < |next.seats| && a < |next.seats| && Active(next.seats[y])
    && (next.seats[y].bet < next.currentBet
        || (y != a && (Full(trace[k], next, a, action, LastFull(trace, moves, k)) || !HasActed(trace, moves, k, y))))
  }

  /** The street goes on after an action exactly if two players are left and somebody is in play. */
  lemma {:induction false} StreetGoesOnIff(trace: seq<State>, moves: seq<Move>, t: State, action: Action,
                                           amount: Option<int>)
    requires Street(trace, moves) && Plays(trace[|moves|], t, action, amount)
    ensures InHand(trace[|moves|]) && LegalMove(trace[|moves|], action, amount)
    ensures var next := AfterWager(trace[|moves|], action, amount);
            t.street == trace[|moves|].street && t.acting.Some? <==>
              |LiveSet(next.seats)| >= 2 && exists y :: InPlayAfter(trace, moves, next, action, y)
  {
    StateIsInHand(trace, moves, |moves|);
    Betting.TurnGoesClockwise(trace[|moves|], t, action, amount);
    InPlayAfterIff(trace, moves, action, amount);
  }

  lemma {:induction false} InPlayAfterIff(trace: seq<State>, moves: seq<Move>, action: Action, amount: Option<int>)
    requires Street(trace, moves) && InHand(trace[|moves|]) && LegalMove(trace[|moves|], action, amount)
    ensures var next := AfterWager(trace[|moves|], action, amount);
            (exists y :: InPlayAfter(trace, moves, next, action, y)) <==> ToAct(next) != {}
  {
    var k, s := |moves|, trace[|moves|];
    FullFollows(trace, moves, k);
    WagerBookkeeping(s, action, amount);
    var next := AfterWager(s, action, amount);
    forall y: nat
      ensures InPlayAfter(trace, moves, next, action, y) <==> y in ToAct(next)
    {
      ActedFollows(trace, moves, k, y);
    }
  }

  // ----- How a street opens -----

  /** A hand opens with the blinds as its only bets and the big blind to match; first to act is the button when two
      players are dealt in, and otherwise the nearest player clockwise of the big blind who has chips left. */
  lemma {:induction false} HandOpens(s: State, t: State, deck: seq<Cards.Card>)
    requires Resting(s) && Deals(s, t, deck)
    ensures |EligibleSet(s.seats)| >= 2 && |t.seats| == |s.seats|
    ensures var pos, all := HandPositions(s.seats, s.button), EligibleSet(s.seats);
            && OpensStreet(t) && t.street == Preflop && t.board == [] && t.config == s.config
            && t.button == pos.button && t.handNumber == s.handNumber + 1 && t.rake == 0 && t.winners == []
            && t.currentBet == s.config.bigBlind && t.lastAggressor == Some(pos.bb) && t.firstToAct == t.acting
            && t.acting == (if |all| == 2 then Some(pos.button) else NextSeat(|t.seats|, pos.bb, ActiveSet(t.seats)))
    ensures var pos, all := HandPositions(s.seats, s.button), EligibleSet(s.seats);
            forall i: nat :: i < |s.seats| ==>
              var blind := if i == pos.bb then s.config.bigBlind else if i == pos.sb then s.config.smallBlind else 0;
              && (t.seats[i].folded <==> i !in all)
              && t.seats[i].bet == t.seats[i].totalBet == (if i in all then Min(s.seats[i].stack, blind) else 0)
              && t.seats[i].stack == s.seats[i].stack - t.seats[i].bet
  {
    StartHandEnters(s, deck);
    forall i: nat | i < |s.seats|
      ensures var pos, all := HandPositions(s.seats, s.button), EligibleSet(s.seats);
              var blind := if i == pos.bb then s.config.bigBlind else if i == pos.sb then s.config.smallBlind else 0;
              && (t.seats[i].folded <==> i !in all)
              && t.seats[i].bet == t.seats[i].totalBet == (if i in all then Min(s.seats[i].stack, blind) else 0)
              && t.seats[i].stack == s.seats[i].stack - t.seats[i].bet
    {
      OpeningSeatAt(s, deck, i);
    }
  }

  function StreetAfter(street: Table.Street): Table.Street
  {
    match street
    case Preflop => Flop
    case Flop => Turn
    case _ => River
  }

  /** The next street is open: no bets, nothing to match, nobody has acted. */
  ghost predicate FreshStreet(s: State, t: State)
  {
    && t.button < |t.seats|
    && t.street == StreetAfter(s.street)
    && t.button == s.button && t.config == s.config
    && t.acted == {} && t.lastRaiseComplete && t.minRaise == t.config.bigBlind
    && t.currentBet == 0 && t.lastAggressor == None && t.firstToAct == NextSeat(|t.seats|, t.button, Openers(t.seats))
    && |t.seats| == |s.seats| && forall i :: 0 <= i < |t.seats| ==> t.seats[i].bet == 0
  }

  lemma {:induction false} DealtStreetIsFresh(st: State)
    requires Core(st) && WellFormed(st) && st.street != River
    ensures NextDeal(|st.board|) > 0 && FreshStreet(st, DealStreet(st))
    ensures var r := DealStreet(st);
            && r.acting == NextSeat(|r.seats|, r.button, Openers(r.seats))
            && (forall i :: 0 <= i < |r.seats| ==> r.seats[i] == st.seats[i].(bet := 0))
  {
  }

  /** When the betting on a street is over and two players can still act, the next street opens fresh, and first to
      act is the nearest of them clockwise of the button. */
  lemma {:induction false} StreetOpens(s: State, t: State, action: Action, amount: Option<int>)
    requires InHand(s) && Plays(s, t, action, amount) && InHandStreet(t.street) && t.street != s.street
    ensures InHand(t) && OpensStreet(t) && FreshStreet(s, t)
    ensures t.acting == NextSeat(|t.seats|, t.button, ActiveSet(t.seats)) && t.acting.Some?
  {
    var next := LastMove(s, t, action, amount);
    StreetTurns(next, s.acting.value);
    SomebodyOpens(t, ActiveSet(next.seats));
  }

  /** The move that ended the street. */
  lemma {:induction false} LastMove(s: State, t: State, action: Action, amount: Option<int>) returns (next: State)
    requires InHand(s) && Plays(s, t, action, amount) && InHandStreet(t.street)
    ensures InHand(t) && s.acting.Some? && s.acting.value < |next.seats|
    ensures Core(next) && WellFormed(next) && t == Advance(next, s.acting.value)
    ensures next.street == s.street && next.button == s.button && next.config == s.config && |next.seats| == |s.seats|
  {
    LegalMovesAreAccepted(s, action, amount);
    NextKeeps(s, t);
    WagerActs(s, action, amount);
    ApplyUnfolds(s, action, amount);
    next := AfterWager(s, action, amount);
    CoreIsWellFormed(next);
  }

  lemma {:induction false} SomebodyOpens(t: State, active: set<nat>)
    requires InHand(t) && t.currentBet == 0 && ActiveSet(t.seats) == active && |active| > 1
    requires t.acting == NextSeat(|t.seats|, t.button, Openers(t.seats))
    ensures t.acting == NextSeat(|t.seats|, t.button, ActiveSet(t.seats)) && t.acting.Some?
  {
    OpenersAreActive(t.seats);
    var i :| i in active;
    NextSeatFinds(|t.seats|, t.button, active);
  }

  lemma {:induction false} StreetTurns(st: State, a: nat)
    requires Core(st) && WellFormed(st) && a < |st.seats|
    requires var t := Advance(st, a); InHandStreet(t.street) && t.street != st.street
    ensures var t := Advance(st, a);
            && FreshStreet(st, t) && t.acting == NextSeat(|t.seats|, t.button, Openers(t.seats))
            && |ActiveSet(st.seats)| > 1 && ActiveSet(t.seats) == ActiveSet(st.seats)
  {
    ProceedTurns(st.(acting := None));
    assert Advance(st, a) == MaybeRunout(st.(acting := None));
  }

  lemma {:induction false} ProceedTurns(st: State)
    requires Core(st) && WellFormed(st) && st.acting == None
    ensures var t := MaybeRunout(st);
            InHandStreet(t.street) && t.street != st.street ==>
              && FreshStreet(st, t) && t.acting == NextSeat(|t.seats|, t.button, Openers(t.seats))
              && |ActiveSet(st.seats)| > 1 && ActiveSet(t.seats) == ActiveSet(st.seats)
  {
    if InHandStreet(MaybeRunout(st).street) && MaybeRunout(st).street != st.street {
      TurnIsDeal(st);
      DealtStreetIsFresh(st);
      SameActive(st.seats, DealStreet(st).seats);
    }
  }

  lemma {:induction false} TurnIsDeal(st: State)
    requires Core(st) && WellFormed(st) && st.acting == None
    requires InHandStreet(MaybeRunout(st).street) && MaybeRunout(st).street != st.street
    ensures st.street != River && NextDeal(|st.board|) > 0
    ensures MaybeRunout(st) == DealStreet(st) && |ActiveSet(st.seats)| > 1
  {
  }

  lemma {:induction false} SameActive(before: seq<Seat>, after: seq<Seat>)
    requires |after| == |before| && forall i :: 0 <= i < |before| ==> after[i] == before[i].(bet := 0)
    ensures ActiveSet(after) == ActiveSet(before)
  {
  }

  /** With nobody left to act, a run-out step deals the next street, nobody being to act on it. */
  lemma {:induction false} RunoutOpens(s: State, t: State)
    requires InHand(s) && RunsOut(s, t) && InHandStreet(t.street)
    ensures FreshStreet(s, t) && t.acting == None
    ensures forall i :: 0 <= i < |s.seats| ==> t.seats[i] == s.seats[i].(bet := 0)
  {
    if s.street != River {
      DealtStreetIsFresh(s.(acting := None));
    }
  }

  /** A hand ends with a move exactly when one player is left, or nobody is to act any more on the river. */
  lemma {:induction false} HandSettlesIff(s: State, t: State, action: Action, amount: Option<int>)
    requires InHand(s) && Plays(s, t, action, amount)
    ensures LegalMove(s, action, amount)
    ensures var next := AfterWager(s, action, amount);
            !InHandStreet(t.street) <==> |LiveSet(next.seats)| == 1 || (s.street == River && ToAct(next) == {})
  {
    LegalMovesAreAccepted(s, action, amount);
    var next := AfterWager(s, action, amount);
    WagerActs(s, action, amount);
    ApplyUnfolds(s, action, amount);
    Betting.CompleteIff(next);
    assert |LiveSet(s.seats) - {s.acting.value}| >= 1;
    AdvanceSettlesIff(next, s.acting.value);
  }

  lemma {:induction false} AdvanceSettlesIff(st: State, a: nat)
    requires Core(st) && WellFormed(st) && a < |st.seats| && |LiveSet(st.seats)| >= 1
    ensures !InHandStreet(Advance(st, a).street) <==>
              StreetComplete(st) && (st.street == River || |LiveSet(st.seats)| == 1)
  {
    if !StreetComplete(st) {
      SomebodyIsToAct(st, a);
    } else if st.street != River {
      ProceedSettlesIff(st.(acting := None));
    }
  }

  lemma {:induction false} ProceedSettlesIff(st: State)
    requires Core(st) && WellFormed(st) && st.acting == None && st.street != River
    ensures !InHandStreet(MaybeRunout(st).street) <==> |LiveSet(st.seats)| == 1
  {
    DealtStreetIsFresh(st);
  }

  /** A run-out step ends the hand exactly on the river. */
  lemma {:induction false} RunoutSettlesIff(s: State, t: State)
    requires InHand(s) && RunsOut(s, t)
    ensures !InHandStreet(t.street) <==> s.street == River
  {
    if s.street == River {
      RiverRunsOut(s);
    } else {
      DealtStreetIsFresh(s.(acting := None));
    }
  }
}
