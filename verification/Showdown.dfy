/** Who gets nothing and who shares at showdown (packages/game-rules/src/holdem.ts, lines 622-684). */
module Showdown {
  import opened Prelude
  import opened Rake
  import opened HandRank
  import opened Pots
  import opened Payouts
  import opened Settlement
  import opened Table

  // ----- A beaten hand -----

  lemma {:induction false} NeverAWinner(seats: seq<Seat>, scores: seq<seq<int>>, button: nat, layers: seq<Layer>,
                                        k: nat, i: nat)
    requires button < |seats| == |scores| && k <= |layers| && i < |seats|
    requires forall j :: 0 <= j < k ==> i !in Winners(seats, scores, layers[j])
    ensures Gross(seats, scores, button, layers, k)[i] == 0
  {
    if k > 0 {
      NeverAWinner(seats, scores, button, layers, k - 1, i);
      PayLayerAt(Gross(seats, scores, button, layers, k - 1), button,
                 Winners(seats, scores, layers[k - 1]), layers[k - 1].amount, i);
    }
  }

  /** Layers are contested by every live seat that staked at least as much as another contender. */
  lemma {:induction false} DeeperContends(st: State, i: nat, j: nat, k: nat)
    requires ReadyToSettle(st) && i < |st.seats| && j < |st.seats| && k < |TsPots(st.seats)|
    requires !st.seats[j].folded && st.seats[j].totalBet >= st.seats[i].totalBet
    requires i in Contenders(st.seats, TsPots(st.seats)[k])
    ensures j in Contenders(st.seats, TsPots(st.seats)[k])
  {
    LayersPay(st, k);
  }

  /** A live hand beaten by one that staked at least as much wins nothing. */
  lemma {:induction false} LowerScoreWinsNothing(st: State, i: nat, j: nat)
    requires ReadyToSettle(st) && i < |st.seats| && j < |st.seats|
    requires !st.seats[j].folded && st.seats[j].totalBet >= st.seats[i].totalBet
    requires Compare(Score(st.seats[j], st.board), Score(st.seats[i], st.board)) > 0
    ensures GrossAwards(st, TsPots(st.seats))[i] == 0
  {
    var layers, scores := TsPots(st.seats), Scores(st.seats, st.board);
    CompareIsTotalPreorder(scores[i], scores[j], scores[j]);
    CompareIsTotalPreorder(scores[j], scores[i], scores[i]);
    forall k | 0 <= k < |layers|
      ensures i !in Winners(st.seats, scores, layers[k])
    {
      if i in Contenders(st.seats, layers[k]) {
        DeeperContends(st, i, j, k);
      }
    }
    NeverAWinner(st.seats, scores, st.button, layers, |layers|, i);
  }

  // ----- Equal hands -----

  /** Two winners of a layer get the same from it, up to one odd chip. */
  lemma {:induction false} LayerSharesAlike(gross: seq<int>, button: nat, winners: set<nat>, amount: int, i: nat,
                                            j: nat)
    requires button < |gross| && i < |gross| && j < |gross| && (i in winners <==> j in winners)
    requires forall x :: x in winners ==> x < |gross|
    ensures var r := PayLayer(gross, button, winners, amount); -1 <= (r[i] - gross[i]) - (r[j] - gross[j]) <= 1
  {
    PayLayerAt(gross, button, winners, amount, i);
    PayLayerAt(gross, button, winners, amount, j);
    if amount > 0 && i in winners {
      var w := ByButton(button, |gross|, winners);
      ByButtonLists(button, |gross|, winners);
      assert Covers(w, i) && Covers(w, j);
      var p :| 0 <= p < |w| && w[p] == i;
      var q :| 0 <= q < |w| && w[q] == j;
      SharesAreExact(amount, |w|);
      PayHits(gross, w, SplitShares(amount, |w|), |w|, p);
      PayHits(gross, w, SplitShares(amount, |w|), |w|, q);
      SharesClose(amount, |w|, p, q);
    }
  }

  lemma {:induction false} SharesClose(amount: nat, n: nat, p: nat, q: nat)
    requires n > 0 && p < n && q < n
    ensures -1 <= SplitShares(amount, n)[p] - SplitShares(amount, n)[q] <= 1
  {
    SharesAreExact(amount, n);
    if p <= q {
      assert 0 <= SplitShares(amount, n)[p] - SplitShares(amount, n)[q] <= 1;
    } else {
      assert 0 <= SplitShares(amount, n)[q] - SplitShares(amount, n)[p] <= 1;
    }
  }

  lemma {:induction false} GrossAlike(seats: seq<Seat>, scores: seq<seq<int>>, button: nat, layers: seq<Layer>, k: nat,
                                      i: nat, j: nat)
    requires button < |seats| == |scores| && k <= |layers| && i < |seats| && j < |seats|
    requires forall m :: 0 <= m < k ==>
               (i in Winners(seats, scores, layers[m]) <==> j in Winners(seats, scores, layers[m]))
    ensures var g := Gross(seats, scores, button, layers, k); g[i] <= g[j] + k && g[j] <= g[i] + k
  {
    if k > 0 {
      GrossAlike(seats, scores, button, layers, k - 1, i, j);
      LayerSharesAlike(Gross(seats, scores, button, layers, k - 1), button,
                       Winners(seats, scores, layers[k - 1]), layers[k - 1].amount, i, j);
    }
  }

  lemma {:induction false} EqualScoresWinAlike(scores: seq<seq<int>>, who: set<nat>, i: nat, j: nat)
    requires (forall x :: x in who ==> x < |scores|) && i in who && j in who
    requires Compare(scores[i], scores[j]) == 0 && i in TopSeats(scores, who)
    ensures j in TopSeats(scores, who)
  {
    forall x | x in who
      ensures Compare(scores[j], scores[x]) >= 0
    {
      CompareIsTotalPreorder(scores[j], scores[i], scores[x]);
      CompareIsTotalPreorder(scores[i], scores[j], scores[x]);
    }
  }

  /** Two live seats with equal stakes and equal hands gross the same, up to one odd chip per pot layer. */
  lemma {:induction false} EqualScoresShareAlike(st: State, i: nat, j: nat)
    requires ReadyToSettle(st) && i < |st.seats| && j < |st.seats|
    requires !st.seats[i].folded && !st.seats[j].folded && st.seats[i].totalBet == st.seats[j].totalBet
    requires Compare(Score(st.seats[i], st.board), Score(st.seats[j], st.board)) == 0
    ensures var g, n := GrossAwards(st, TsPots(st.seats)), |TsPots(st.seats)|; g[i] <= g[j] + n && g[j] <= g[i] + n
  {
    var layers, scores := TsPots(st.seats), Scores(st.seats, st.board);
    CompareIsTotalPreorder(scores[i], scores[j], scores[i]);
    forall k | 0 <= k < |layers|
      ensures i in Winners(st.seats, scores, layers[k]) <==> j in Winners(st.seats, scores, layers[k])
    {
      WinTogether(st, k, i, j);
    }
    GrossAlike(st.seats, scores, st.button, layers, |layers|, i, j);
  }

  lemma {:induction false} WinTogether(st: State, k: nat, i: nat, j: nat)
    requires ReadyToSettle(st) && i < |st.seats| && j < |st.seats| && k < |TsPots(st.seats)|
    requires !st.seats[i].folded && !st.seats[j].folded && st.seats[i].totalBet == st.seats[j].totalBet
    requires Compare(Score(st.seats[i], st.board), Score(st.seats[j], st.board)) == 0
    ensures var layer, scores := TsPots(st.seats)[k], Scores(st.seats, st.board);
            i in Winners(st.seats, scores, layer) <==> j in Winners(st.seats, scores, layer)
  {
    var layer, scores := TsPots(st.seats)[k], Scores(st.seats, st.board);
    var who := Contenders(st.seats, layer);
    CompareIsTotalPreorder(scores[i], scores[j], scores[i]);
    CompareIsTotalPreorder(scores[j], scores[i], scores[j]);
    if i in Winners(st.seats, scores, layer) {
      DeeperContends(st, i, j, k);
      EqualScoresWinAlike(scores, who, i, j);
    }
    if j in Winners(st.seats, scores, layer) {
      DeeperContends(st, j, i, k);
      EqualScoresWinAlike(scores, who, j, i);
    }
  }

  // ----- The uncalled part -----

  /** Seat `top` is live and staked more than everybody else, the next stake being `second`. */
  ghost predicate Overcalled(seats: seq<Seat>, top: nat, second: int)
  {
    && top < |seats| && !seats[top].folded && 0 < second < seats[top].totalBet
    && (forall j :: 0 <= j < |seats| && j != top ==> seats[j].totalBet <= second)
    && (exists j :: 0 <= j < |seats| && j != top && seats[j].totalBet == second)
  }

  lemma {:induction false} UncalledMeans(seats: seq<Seat>) returns (top: nat, second: int)
    requires UncalledFromTotals(seats) > 0
    ensures Overcalled(seats, top, second) && UncalledFromTotals(seats) == seats[top].totalBet - second
  {
    top := TopStake(seats, |seats|);
    second := MaxOther(Totals(seats), top, |seats|);
    AnotherStaked(seats, top);
    assert forall j :: 0 <= j < |seats| ==> Totals(seats)[j] == seats[j].totalBet;
  }

  lemma {:induction false} OvercalledIsUncalled(seats: seq<Seat>, top: nat, second: int)
    requires Overcalled(seats, top, second)
    ensures UncalledFromTotals(seats) == seats[top].totalBet - second
  {
    var i := TopStake(seats, |seats|);
    assert i == top;
    assert forall j :: 0 <= j < |seats| ==> Totals(seats)[j] == seats[j].totalBet;
    assert MaxOther(Totals(seats), top, |seats|) == second;
    TwoStaked(seats, top, second);
  }

  lemma {:induction false} TwoStaked(seats: seq<Seat>, top: nat, second: int)
    requires Overcalled(seats, top, second)
    ensures |Contributors(seats, 1)| >= 2
  {
    var j :| 0 <= j < |seats| && j != top && seats[j].totalBet == second;
    SubsetSize({top, j}, Contributors(seats, 1));
  }

  /** `u` is what one live seat staked beyond everybody else, others having staked too; 0 if there is no such seat. */
  ghost predicate IsUncalled(seats: seq<Seat>, u: int)
  {
    && u >= 0
    && (u > 0 ==> exists top: nat, second :: Overcalled(seats, top, second) && u == seats[top].totalBet - second)
    && (u == 0 ==> forall top: nat, second :: !Overcalled(seats, top, second))
  }

  /** That is what `uncalledFromTotals` computes, whatever the stakes. */
  lemma {:induction false} UncalledIffOvercalled(seats: seq<Seat>, u: int)
    ensures UncalledFromTotals(seats) == u <==> IsUncalled(seats, u)
  {
    if UncalledFromTotals(seats) > 0 {
      var top, second := UncalledMeans(seats);
    }
    forall top: nat, second | Overcalled(seats, top, second)
      ensures UncalledFromTotals(seats) == seats[top].totalBet - second
    {
      OvercalledIsUncalled(seats, top, second);
    }
  }

  lemma {:induction false} AnotherStaked(seats: seq<Seat>, top: nat)
    requires |Contributors(seats, 1)| >= 2
    ensures exists j :: 0 <= j < |seats| && j != top && seats[j].totalBet >= 1
  {
    var rest := Contributors(seats, 1) - {top};
    assert |rest| >= 1;
    var j :| j in rest;
  }

  /** The top level is that seat's alone and begins where the next stake ends. */
  lemma {:induction false} TopLevel(seats: seq<Seat>, top: nat, second: int) returns (k: nat)
    requires Overcalled(seats, top, second)
    ensures k + 1 == |Levels(seats)| == Contested(seats)
    ensures Levels(seats)[k] == seats[top].totalBet && Floor(Levels(seats), k) == second
  {
    var levels := Levels(seats);
    k := TotalIsLevel(seats, top);
    if k + 1 < |levels| {
      var i := LevelHolds(seats, k + 1);
      assert false;
    }
    assert top in Eligible(seats, levels[k]);
    OrphansAreATopSuffix(seats, k);
    BelowTop(seats, top, second, k);
  }

  /** No level but the top one exceeds the second stake. */
  lemma {:induction false} OtherLevels(seats: seq<Seat>, top: nat, second: int, k: nat)
    requires Overcalled(seats, top, second) && k < |Levels(seats)| && Levels(seats)[k] < seats[top].totalBet
    ensures Levels(seats)[k] <= second
  {
    var i := LevelHolds(seats, k);
    assert i != top;
  }

  lemma {:induction false} SecondIsLevel(seats: seq<Seat>, top: nat, second: int) returns (m: nat)
    requires Overcalled(seats, top, second)
    ensures m < |Levels(seats)| && Levels(seats)[m] == second
  {
    var j :| 0 <= j < |seats| && j != top && seats[j].totalBet == second;
    m := TotalIsLevel(seats, j);
  }

  lemma {:induction false} BelowTop(seats: seq<Seat>, top: nat, second: int, k: nat)
    requires Overcalled(seats, top, second) && k < |Levels(seats)| && Levels(seats)[k] == seats[top].totalBet
    ensures Floor(Levels(seats), k) == second
  {
    var levels := Levels(seats);
    var m := SecondIsLevel(seats, top, second);
    SortedOrder(levels, m, k);
    SortedOrder(levels, k - 1, k);
    OtherLevels(seats, top, second, k - 1);
    SortedOrder(levels, m, k - 1);
  }

  lemma {:induction false} SortedOrder(s: seq<int>, i: nat, j: nat)
    requires StrictlySorted(s) && i < |s| && j < |s|
    ensures s[i] < s[j] <==> i < j
  {
  }

  lemma {:induction false} TopLayerHolds(st: State, top: nat, second: int, k: nat)
    requires ReadyToSettle(st) && Overcalled(st.seats, top, second)
    requires k + 1 == |Levels(st.seats)| == Contested(st.seats)
    requires Levels(st.seats)[k] == st.seats[top].totalBet && Floor(Levels(st.seats), k) == second
    ensures TsPots(st.seats)[k].amount == st.seats[top].totalBet - second
    ensures Contenders(st.seats, TsPots(st.seats)[k]) == {top}
  {
    var seats, t := st.seats, st.seats[top].totalBet;
    TsLayersRefineChipHeights(seats, k);
    LayersPay(st, k);
    forall c | second < c <= t
      ensures Contributors(seats, c) == {top}
    {
    }
    EqualSlices(seats, second, t, {top});
    assert Eligible(seats, t) == {top};
  }

  /** The part of the deepest stake nobody called is not raked, and its owner wins it back with the top layer. */
  lemma {:induction false} UncalledComesBack(st: State) returns (top: nat)
    requires ReadyToSettle(st) && UncalledFromTotals(st.seats) > 0
    ensures top < |st.seats| && !st.seats[top].folded
    ensures GrossAwards(st, TsPots(st.seats))[top] >= UncalledFromTotals(st.seats)
    ensures RakedPot(st, TsPots(st.seats)) == st.pot - UncalledFromTotals(st.seats)
  {
    var second;
    top, second := UncalledMeans(st.seats);
    var k := TopLevel(st.seats, top, second);
    TopLayerHolds(st, top, second, k);
    TopLayerWon(st, top, k);
    TsLayersPay(st);
    SumBounds(Totals(st.seats));
    assert Totals(st.seats)[top] <= st.pot;
  }

  lemma {:induction false} TopLayerWon(st: State, top: nat, k: nat)
    requires ReadyToSettle(st) && top < |st.seats| && k + 1 == |TsPots(st.seats)|
    requires Contenders(st.seats, TsPots(st.seats)[k]) == {top}
    ensures GrossAwards(st, TsPots(st.seats))[top] >= TsPots(st.seats)[k].amount
  {
    LastLayerWon(st.seats, Scores(st.seats, st.board), st.button, TsPots(st.seats), k, top);
  }

  lemma {:induction false} LastLayerWon(seats: seq<Seat>, scores: seq<seq<int>>, button: nat, layers: seq<Layer>,
                                        k: nat, top: nat)
    requires button < |seats| == |scores| && top < |seats| && k + 1 == |layers|
    requires Contenders(seats, layers[k]) == {top}
    ensures Gross(seats, scores, button, layers, |layers|)[top] >= layers[k].amount
  {
    SoleContenderWins(scores, top);
    GrossNonNegative(seats, scores, button, layers, k, top);
    PayLayerAt(Gross(seats, scores, button, layers, k), button, {top}, layers[k].amount, top);
  }

  lemma {:induction false} SoleContenderWins(scores: seq<seq<int>>, top: nat)
    requires top < |scores|
    ensures TopSeats(scores, {top}) == {top}
  {
    SomebodyWins(scores, {top});
  }
}
