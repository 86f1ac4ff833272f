/** What a fold that leaves one player costs: a fold-out on the river goes through the showdown, the others
    through `foldWin` (packages/game-rules/src/holdem.ts, lines 731-804 and 976-983). */
module FoldOuts {
  import opened Prelude
  import opened Rake
  import opened Pots
  import opened Settlement
  import opened Table
  import opened Holdem
  import opened Invariant
  import opened Runs

  /** Seat `w` is the only one left. */
  ghost predicate Alone(st: State, w: nat)
  {
    Core(st) && WellFormed(st) && w < |st.seats| && LiveSet(st.seats) == {w}
  }

  /** Stacks after `w` took the pot less the rake and nobody else got anything. */
  ghost predicate TakesPot(before: State, after: State, w: nat, rake: int)
  {
    && after.street == Street.Settlement && after.rake == rake && |after.seats| == |before.seats| && w < |before.seats|
    && after.seats[w].stack == before.seats[w].stack + before.pot - rake
    && forall i :: 0 <= i < |before.seats| && i != w ==> after.seats[i].stack == before.seats[i].stack
  }

  lemma {:induction false} TakesSamePot(s: State, next: State, t: State, w: nat, rake: int)
    requires TakesPot(next, t, w, rake) && next.pot == s.pot && |next.seats| == |s.seats|
    requires forall i :: 0 <= i < |s.seats| ==> next.seats[i].stack == s.seats[i].stack
    ensures TakesPot(s, t, w, rake)
  {
  }

  // ----- On the river -----

  lemma {:induction false} AloneIsReady(st: State, w: nat)
    requires Alone(st, w) && st.street == River
    ensures ReadyToSettle(st) && |Shown(st.seats)| == 1 && DeepestLive(st.seats) == st.seats[w].totalBet
  {
    assert w in LiveSet(st.seats);
    SomeLiveStake(st);
    forall i: nat | i < |st.seats|
      ensures !st.seats[i].folded ==> i == w && st.seats[i].hole.Some?
    {
      assert SeatOk(st.seats[i], st.currentBet);
      assert !st.seats[i].folded ==> i in LiveSet(st.seats);
    }
    assert forall i :: 0 <= i < |st.seats| ==> SeatOk(st.seats[i], st.currentBet);
    assert Shown(st.seats) == {w};
  }

  lemma {:induction false} NothingCharged(st: State, i: nat)
    requires ReadyToSettle(st) && |Shown(st.seats)| == 1 && i < |st.seats|
    ensures ShowdownRake(st, TsPots(st.seats)) == 0
    ensures Charges(st, TsPots(st.seats))[i] == 0
  {
    var layers := TsPots(st.seats);
    TsLayersPay(st);
    ChargesAreExact(st, layers);
    SumBounds(Charges(st, layers));
    assert Charges(st, layers)[i] <= Sum(Charges(st, layers));
  }

  lemma {:induction false} AloneDominates(st: State, w: nat)
    requires Alone(st, w)
    ensures Dominates(st, w)
  {
    assert forall j: nat :: j < |st.seats| && !st.seats[j].folded ==> j in LiveSet(st.seats);
    assert w in LiveSet(st.seats);
  }

  lemma {:induction false} AloneGrosses(st: State, w: nat, i: nat)
    requires Alone(st, w) && st.street == River && i < |st.seats|
    ensures ReadyToSettle(st)
    ensures GrossAwards(st, TsPots(st.seats))[i] == if i == w then st.pot else 0
  {
    AloneIsReady(st, w);
    if i == w {
      AloneDominates(st, w);
      DominantHandWinsEntitlement(st, w);
    } else {
      assert i !in LiveSet(st.seats);
      NobodyExceedsEntitlement(st, i);
    }
  }

  /** Nobody left to beat on the river: the whole pot, and never any rake. */
  lemma {:induction false} RiverFoldOut(st: State, w: nat)
    requires Alone(st, w) && st.street == River
    ensures TakesPot(st, Settle(st), w, 0)
  {
    var shown := st.(street := Showdown);
    AloneIsReady(st, w);
    assert ReadyToSettle(shown);
    forall i | 0 <= i < |st.seats|
      ensures Settle(st).seats[i].stack == st.seats[i].stack + if i == w then st.pot else 0
    {
      AloneGrosses(st, w, i);
      NothingCharged(shown, i);
      SameAwards(st, shown);
    }
    NothingCharged(shown, w);
  }

  lemma {:induction false} SameAwards(a: State, b: State)
    requires a.button < |a.seats| && b == a.(street := Showdown)
    ensures GrossAwards(b, TsPots(b.seats)) == GrossAwards(a, TsPots(a.seats))
  {
  }

  // ----- Before it -----

  /** What `foldWin` rakes. */
  function FoldWinRake(st: State, w: nat): int
    requires w < |st.seats|
  {
    ComputeRake(Max(0, st.pot - UncalledBet(st.seats, w)), st.config.rakeBps, st.config.rakeCap, 1,
      Some(|st.board| == 0))
  }

  lemma {:induction false} EarlierFoldOut(st: State, w: nat)
    requires Alone(st, w)
    ensures TakesPot(st, FoldWin(st), w, FoldWinRake(st, w))
  {
    assert w in LiveSet(st.seats);
    assert |LiveSet(st.seats)| == 1;
    OthersFolded(st.seats, w);
    SoleSurvivor(st.seats, st.currentBet, 0, w);
    BetWithinPot(st, w);
    FoldWinConserves(st, w);
  }

  // ----- Every fold-out -----

  /** The rake of a fold-out: that of `foldWin` on flop and turn, none before the flop and none on the river. */
  function FoldOutRake(st: State, w: nat): int
    requires w < |st.seats|
  {
    if st.street == Flop || st.street == Turn then
      ComputeRake(Max(0, st.pot - UncalledBet(st.seats, w)), st.config.rakeBps, st.config.rakeCap, 1, Some(false))
    else 0
  }

  lemma {:induction false} AloneAdvances(st: State, a: nat, w: nat)
    requires Alone(st, w) && a < |st.seats|
    ensures TakesPot(st, Advance(st, a), w, FoldOutRake(st, w))
  {
    AloneEnds(st, a, w);
    if st.street == River {
      RiverFoldOut(st, w);
    } else {
      var s0 := st.(acting := None);
      EarlierFoldOut(s0, w);
      RakeOfFoldOut(st, w);
      TakesSamePot(st, s0, FoldWin(s0), w, FoldWinRake(s0, w));
    }
  }

  lemma {:induction false} RakeOfFoldOut(st: State, w: nat)
    requires Alone(st, w) && st.street != River
    ensures FoldWinRake(st.(acting := None), w) == FoldOutRake(st, w)
  {
  }

  lemma {:induction false} AloneEnds(st: State, a: nat, w: nat)
    requires Alone(st, w) && a < |st.seats|
    ensures Advance(st, a) == if st.street == River then Settle(st) else FoldWin(st.(acting := None))
  {
    assert |LiveSet(st.seats)| == 1;
  }

  lemma {:induction false} FoldLeaves(s: State, w: nat)
    requires InHand(s) && LegalMove(s, Fold, None) && LiveSet(s.seats) == {s.acting.value, w} && w != s.acting.value
    ensures var next := AfterWager(s, Fold, None);
            && Alone(next, w) && next.pot == s.pot && |next.seats| == |s.seats|
            && FoldOutRake(next, w) == FoldOutRake(s, w)
            && (forall i :: 0 <= i < |s.seats| ==> next.seats[i].stack == s.seats[i].stack)
  {
    var next := AfterWager(s, Fold, None);
    WagerActs(s, Fold, None);
    assert LiveSet(next.seats) == {w};
    assert w in LiveSet(s.seats);
    assert Bets(next.seats) == Bets(s.seats);
  }

  lemma {:induction false} FoldOutTakesPot(s: State, t: State, w: nat)
    requires InHand(s) && Plays(s, t, Fold, None)
    requires s.acting.Some? && LiveSet(s.seats) == {s.acting.value, w} && w != s.acting.value
    ensures w < |s.seats| && TakesPot(s, t, w, FoldOutRake(s, w))
  {
    LegalMovesAreAccepted(s, Fold, None);
    ApplyUnfolds(s, Fold, None);
    FoldLeaves(s, w);
    var next := AfterWager(s, Fold, None);
    AloneAdvances(next, s.acting.value, w);
    TakesSamePot(s, next, t, w, FoldOutRake(s, w));
  }

  /** What was matched of a pot when `w` bet and nobody else bet more than `m`. */
  function Matched(st: State, w: nat, m: int): int
    requires w < |st.seats|
  {
    st.pot - Max(0, st.seats[w].bet - m)
  }

  lemma {:induction false} FoldOutRakeIs(st: State, w: nat, m: int)
    requires InHand(st) && w < |st.seats| && NextBet(st.seats, w, m)
    ensures Matched(st, w, m) >= 0
    ensures FoldOutRake(st, w)
         == if st.street == Flop || st.street == Turn
            then CappedShare(Matched(st, w, m), st.config.rakeBps, st.config.rakeCap) else 0
  {
    BetWithinPot(st, w);
    UncalledBetExceedsNext(st.seats, w, m);
    RakeIsCappedShare(Matched(st, w, m), st.config.rakeBps, st.config.rakeCap, 1, Some(false));
  }

  /** When all but one of the players have folded, the one left takes the pot less a rake: on flop and turn the
      rounded share of what was matched, the next bet being `m`, and nothing on the other streets. */
  lemma {:induction false} FoldOutIsRaked(s: State, t: State, w: nat, m: int)
    requires InHand(s) && Plays(s, t, Fold, None)
    requires s.acting.Some? && LiveSet(s.seats) == {s.acting.value, w} && w != s.acting.value
    requires NextBet(s.seats, w, m)
    ensures w < |s.seats|
    ensures TakesPot(s, t, w,
              if s.street == Flop || s.street == Turn
              then CappedShare(Matched(s, w, m), s.config.rakeBps, s.config.rakeCap) else 0)
  {
    FoldOutTakesPot(s, t, w);
    FoldOutRakeIs(s, w, m);
  }

  /** So a fold-out is raked exactly when it happens on flop or turn, the matched pot times the rate comes to a
      chip, and no zero cap forbids it: the same fold on the river is free. */
  lemma {:induction false} FoldOutIsRakedIff(s: State, t: State, w: nat, m: int)
    requires InHand(s) && Plays(s, t, Fold, None)
    requires s.acting.Some? && LiveSet(s.seats) == {s.acting.value, w} && w != s.acting.value
    requires NextBet(s.seats, w, m)
    ensures w < |s.seats|
    ensures t.rake > 0 <==>
              && (s.street == Flop || s.street == Turn)
              && Matched(s, w, m) * s.config.rakeBps >= BPS_DENOMINATOR
              && (s.config.rakeCap.Some? ==> s.config.rakeCap.value > 0)
  {
    FoldOutIsRaked(s, t, w, m);
    FoldOutRakeIs(s, w, m);
    CappedShareIsPositiveIff(Matched(s, w, m), s.config.rakeBps, s.config.rakeCap);
  }
}
