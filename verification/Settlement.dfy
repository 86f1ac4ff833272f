/** End of a hand: `settleShowdown` and `foldWin` of packages/game-rules/src/holdem.ts. */
module Settlement {
  import opened Prelude
  import opened Rake
  import opened HandRank
  import opened Pots
  import opened Payouts
  import opened Table

  // ----- Uncalled bets -----

  /** First of the largest stakes among the first `n` seats. */
  function TopStake(seats: seq<Seat>, n: nat): (i: nat)
    requires 0 < n <= |seats|
    ensures i < n && forall j :: 0 <= j < n ==> seats[j].totalBet <= seats[i].totalBet
  {
    if n == 1 then 0
    else
      var i := TopStake(seats, n - 1);
      if seats[n - 1].totalBet > seats[i].totalBet then n - 1 else i
  }

  /** Largest positive value of the first `n` other than entry `skip`, 0 if none. */
  function MaxOther(values: seq<int>, skip: nat, n: nat): (m: int)
    requires n <= |values|
    ensures m >= 0
    ensures forall j :: 0 <= j < n && j != skip ==> values[j] <= m
    ensures m > 0 ==> exists j :: 0 <= j < n && j != skip && values[j] == m
  {
    if n == 0 then 0
    else
      var m := MaxOther(values, skip, n - 1);
      if n - 1 != skip && values[n - 1] > m then values[n - 1] else m
  }

  /** Excess of the deepest stake over the next one; nothing if that seat folded. */
  function UncalledFromTotals(seats: seq<Seat>): (r: int)
    ensures r >= 0
  {
    if |seats| == 0 || |Contributors(seats, 1)| < 2 then 0
    else
      var top := TopStake(seats, |seats|);
      var second := MaxOther(Totals(seats), top, |seats|);
      if seats[top].folded then 0 else Max(0, seats[top].totalBet - second)
  }

  function Bets(seats: seq<Seat>): (r: seq<int>)
    ensures |r| == |seats|
  {
    seq(|seats|, i requires 0 <= i < |seats| => seats[i].bet)
  }

  /** Part of the survivor's street bet that nobody matched. */
  function UncalledBet(seats: seq<Seat>, winner: nat): (r: int)
    requires winner < |seats|
    ensures r >= 0
  {
    if seats[winner].bet <= 0 then 0
    else Max(0, seats[winner].bet - MaxOther(Bets(seats), winner, |seats|))
  }

  /** `m` is the largest bet of the other seats, or 0 if there is none. */
  ghost predicate NextBet(seats: seq<Seat>, winner: nat, m: int)
  {
    && m >= 0
    && (forall j :: 0 <= j < |seats| && j != winner ==> seats[j].bet <= m)
    && (m > 0 ==> exists j :: 0 <= j < |seats| && j != winner && seats[j].bet == m)
  }

  /** The uncalled part is what the bet exceeds the next one by. */
  lemma {:induction false} UncalledBetExceedsNext(seats: seq<Seat>, winner: nat, m: int)
    requires winner < |seats| && NextBet(seats, winner, m)
    ensures UncalledBet(seats, winner) == Max(0, seats[winner].bet - m)
  {
    var bets := Bets(seats);
    assert forall j :: 0 <= j < |seats| ==> bets[j] == seats[j].bet;
    assert MaxOther(bets, winner, |seats|) == m;
  }

  /** The source's loop. */
  method UncalledBetAmount(seats: seq<Seat>, winner: nat) returns (r: int)
    requires winner < |seats|
    ensures r == UncalledBet(seats, winner)
    ensures forall m :: NextBet(seats, winner, m) ==> r == Max(0, seats[winner].bet - m)
  {
    forall m | NextBet(seats, winner, m)
      ensures UncalledBet(seats, winner) == Max(0, seats[winner].bet - m)
    {
      UncalledBetExceedsNext(seats, winner, m);
    }
    if seats[winner].bet <= 0 {
      return 0;
    }
    var maxOther := 0;
    for i := 0 to |seats|
      invariant maxOther == MaxOther(Bets(seats), winner, i)
    {
      if i != winner && seats[i].bet > maxOther {
        maxOther := seats[i].bet;
      }
    }
    r := if seats[winner].bet - maxOther > 0 then seats[winner].bet - maxOther else 0;
  }

  // ----- Showdown -----

  /** Seats that show a hand. */
  function Shown(seats: seq<Seat>): set<nat>
  {
    set i: nat | i < |seats| && !seats[i].folded && seats[i].hole.Some?
  }

  function Score(seat: Seat, board: seq<Cards.Card>): seq<int>
  {
    if seat.folded || seat.hole.None? || |seat.hole.value| + |board| == 0 then []
    else BestHand(seat.hole.value, board).score
  }

  function Scores(seats: seq<Seat>, board: seq<Cards.Card>): (r: seq<seq<int>>)
    ensures |r| == |seats|
  {
    seq(|seats|, i requires 0 <= i < |seats| => Score(seats[i], board))
  }

  function PotPool(st: State, layers: seq<Layer>): int
  {
    var total := Sum(Amounts(layers));
    if total > 0 then total else st.pot
  }

  /** The pot less what nobody called. */
  function RakedPot(st: State, layers: seq<Layer>): (r: nat)
  {
    Max(0, PotPool(st, layers) - UncalledFromTotals(st.seats))
  }

  function ShowdownRake(st: State, layers: seq<Layer>): (r: int)
    ensures r >= 0
  {
    ComputeRake(RakedPot(st, layers), st.config.rakeBps, st.config.rakeCap, |Shown(st.seats)|, None)
  }

  /** Gross award of every seat. */
  function GrossAwards(st: State, layers: seq<Layer>): (r: seq<int>)
    requires st.button < |st.seats|
    ensures |r| == |st.seats|
  {
    Gross(st.seats, Scores(st.seats, st.board), st.button, layers, |layers|)
  }

  function WonBy(st: State, layers: seq<Layer>): (r: seq<nat>)
    requires st.button < |st.seats|
    ensures Below(r, |st.seats|) && NoRepeats(r)
  {
    WonOrder(st.seats, Scores(st.seats, st.board), st.button, layers, |layers|)
  }

  function Members(s: seq<nat>, n: nat): (r: set<nat>)
    ensures forall i :: i in r <==> i < n && i in s
  {
    set i: nat | i < n && i in s
  }

  /** Winners in button order, the order rake is charged in. */
  function ChargedSeats(st: State, layers: seq<Layer>): (r: seq<nat>)
    requires st.button < |st.seats|
    ensures Below(r, |st.seats|)
  {
    ByButtonLists(st.button, |st.seats|, Members(WonBy(st, layers), |st.seats|));
    ByButton(st.button, |st.seats|, Members(WonBy(st, layers), |st.seats|))
  }

  /** Rake charged to every seat. */
  function Charges(st: State, layers: seq<Layer>): (r: seq<int>)
    requires st.button < |st.seats|
    ensures |r| == |st.seats|
  {
    var who := ChargedSeats(st, layers);
    Pay(Zeros(|st.seats|), who, RakeTabs(Read(GrossAwards(st, layers), who), ShowdownRake(st, layers)), |who|)
  }

  function Credit(seats: seq<Seat>, gross: seq<int>, charges: seq<int>): (r: seq<Seat>)
    requires |seats| == |gross| == |charges|
    ensures |r| == |seats|
  {
    seq(|seats|, i requires 0 <= i < |seats| => seats[i].(stack := seats[i].stack + gross[i] - charges[i]))
  }

  function NetAwards(who: seq<nat>, gross: seq<int>, charges: seq<int>): (r: seq<Award>)
    requires |gross| == |charges| && Below(who, |gross|)
    ensures |r| == |who|
  {
    seq(|who|, j requires 0 <= j < |who| => Award(who[j], gross[who[j]] - charges[who[j]]))
  }

  /** Settlement out of the given pot layers. */
  function SettleLayers(st: State, layers: seq<Layer>): (r: State)
    requires st.button < |st.seats|
  {
    var rake := ShowdownRake(st, layers);
    var gross, charges := GrossAwards(st, layers), Charges(st, layers);
    st.(seats := Credit(st.seats, gross, charges),
        pot := 0,
        rake := rake,
        sessionRake := st.sessionRake + rake,
        winners := NetAwards(WonBy(st, layers), gross, charges),
        street := Settlement,
        acting := None)
  }

  function SettleShowdown(st: State): (r: State)
    requires st.button < |st.seats|
  {
    SettleLayers(st, TsPots(st.seats))
  }

  // ----- Fold-win -----

  function FirstStanding(seats: seq<Seat>, i: nat): (r: Option<nat>)
    requires i <= |seats|
    ensures r.Some? ==> r.value < |seats| && !seats[r.value].folded
    decreases |seats| - i
  {
    if i == |seats| then None
    else if !seats[i].folded && seats[i].playerId != "" && !seats[i].sitOut then Some(i)
    else FirstStanding(seats, i + 1)
  }

  function FoldWin(st: State): (r: State)
  {
    match FirstStanding(st.seats, 0)
    case None => st.(pot := 0, street := Settlement, acting := None, winners := [])
    case Some(w) =>
      var uncalled := UncalledBet(st.seats, w);
      var eligiblePot := Max(0, st.pot - uncalled);
      var rake := ComputeRake(eligiblePot, st.config.rakeBps, st.config.rakeCap, 1, Some(|st.board| == 0));
      var net := Max(0, eligiblePot - rake);
      var cleared := ResetBets(st.seats);
      st.(seats := cleared[w := cleared[w].(stack := cleared[w].stack + uncalled + net)],
          pot := 0,
          rake := rake,
          sessionRake := st.sessionRake + rake,
          winners := [Award(w, net)],
          street := Settlement,
          acting := None)
  }

  // ----- What settlement relies on -----

  /** A hand ready to be settled: chips accounted for, and somebody live holding cards has staked. */
  ghost predicate ReadyToSettle(st: State)
  {
    && st.button < |st.seats|
    && st.config.rakeBps <= BPS_DENOMINATOR
    && NonNegative(st.seats)
    && st.pot == Sum(Totals(st.seats))
    && (forall i :: 0 <= i < |st.seats| && !st.seats[i].folded ==> st.seats[i].hole.Some?)
    && DeepestLive(st.seats) > 0
  }

  lemma {:induction false} LayersPay(st: State, k: nat)
    requires ReadyToSettle(st) && k < |TsPots(st.seats)|
    ensures TsPots(st.seats)[k].amount > 0
    ensures Contenders(st.seats, TsPots(st.seats)[k]) == TsPots(st.seats)[k].eligible != {}
  {
    TsLayersRefineChipHeights(st.seats, k);
    LayerAmountPositive(st.seats, k);
    AmountsAreSlices(st.seats, Contested(st.seats));
    SlicesNonNegative(st.seats, Floor(Levels(st.seats), Contested(st.seats)), Top(Levels(st.seats)));
  }

  lemma {:induction false} SlicesNonNegative(seats: seq<Seat>, lo: int, hi: int)
    requires lo <= hi
    ensures ChipSlices(seats, lo, hi) >= 0
    decreases hi - lo
  {
    if lo < hi {
      SlicesNonNegative(seats, lo, hi - 1);
    }
  }

  /** Layers that can all be paid out. */
  ghost predicate Payable(st: State, layers: seq<Layer>)
  {
    && st.button < |st.seats|
    && st.config.rakeBps <= BPS_DENOMINATOR
    && Sum(Amounts(layers)) > 0
    && forall k :: 0 <= k < |layers| ==> layers[k].amount > 0 && Contenders(st.seats, layers[k]) != {}
  }

  lemma {:induction false} TsLayersPay(st: State)
    requires ReadyToSettle(st)
    ensures Payable(st, TsPots(st.seats)) && Sum(Amounts(TsPots(st.seats))) == st.pot
  {
    TsPotsHoldEverything(st.seats);
    DeepestIsStaked(st.seats);
    forall k | 0 <= k < |TsPots(st.seats)|
      ensures TsPots(st.seats)[k].amount > 0 && Contenders(st.seats, TsPots(st.seats)[k]) != {}
    {
      LayersPay(st, k);
    }
  }

  lemma {:induction false} DeepestIsStaked(seats: seq<Seat>)
    requires NonNegative(seats) && DeepestLive(seats) > 0
    ensures Sum(Totals(seats)) > 0
  {
    SumBounds(Totals(seats));
    var i :| 0 <= i < |seats| && !seats[i].folded && seats[i].totalBet == DeepestLive(seats);
    assert Totals(seats)[i] > 0;
  }

  /** Gross awards hand out the layers whole. */
  lemma {:induction false} GrossIsPot(st: State, layers: seq<Layer>)
    requires Payable(st, layers)
    ensures Sum(GrossAwards(st, layers)) == Sum(Amounts(layers))
    ensures forall i :: 0 <= i < |st.seats| ==> GrossAwards(st, layers)[i] >= 0
  {
    var scores := Scores(st.seats, st.board);
    GrossSum(st.seats, scores, st.button, layers, |layers|);
    assert Amounts(layers)[..|layers|] == Amounts(layers);
    forall i | 0 <= i < |st.seats|
      ensures GrossAwards(st, layers)[i] >= 0
    {
      GrossNonNegative(st.seats, scores, st.button, layers, |layers|, i);
    }
  }

  lemma {:induction false} ChargedCoverAwards(st: State, layers: seq<Layer>, i: nat)
    requires st.button < |st.seats| && i < |st.seats|
    ensures Covers(ChargedSeats(st, layers), i) || GrossAwards(st, layers)[i] == 0
  {
    var scores := Scores(st.seats, st.board);
    if i in WonBy(st, layers) {
      ByButtonLists(st.button, |st.seats|, Members(WonBy(st, layers), |st.seats|));
    } else {
      UnrecordedSeatsGetNothing(st.seats, scores, st.button, layers, |layers|, i);
    }
  }

  lemma {:induction false} ChargedDistinct(st: State, layers: seq<Layer>)
    requires st.button < |st.seats|
    ensures NoRepeats(ChargedSeats(st, layers))
  {
    ByButtonLists(st.button, |st.seats|, Members(WonBy(st, layers), |st.seats|));
  }

  /** The awards, read off in button order. */
  lemma {:induction false} ChargedAwards(st: State, layers: seq<Layer>)
    requires Payable(st, layers)
    ensures var a := Read(GrossAwards(st, layers), ChargedSeats(st, layers));
            Sum(a) == Sum(Amounts(layers)) && (forall j :: 0 <= j < |a| ==> a[j] >= 0)
  {
    var who, gross := ChargedSeats(st, layers), GrossAwards(st, layers);
    ChargedDistinct(st, layers);
    GrossIsPot(st, layers);
    forall i | 0 <= i < |gross|
      ensures Covers(who, i) || gross[i] == 0
    {
      ChargedCoverAwards(st, layers, i);
    }
    PayBack(gross, who);
  }

  lemma {:induction false} RakeFits(st: State, layers: seq<Layer>)
    requires Payable(st, layers)
    ensures 0 <= ShowdownRake(st, layers) <= Sum(Amounts(layers))
  {
    RakeWithinPot(RakedPot(st, layers), st.config.rakeBps, st.config.rakeCap, |Shown(st.seats)|, None);
  }

  lemma {:induction false} TabsAreExact(a: seq<int>, rake: int)
    requires (forall i :: 0 <= i < |a| ==> a[i] >= 0) && 0 <= rake <= Sum(a)
    ensures Sum(RakeTabs(a, rake)) == rake
    ensures forall i :: 0 <= i < |a| ==> 0 <= RakeTabs(a, rake)[i] <= a[i]
  {
    if rake > 0 {
      RakeTabsAreExact(a, rake);
    } else {
      SumZero(RakeTabs(a, rake));
    }
  }

  /** Charges add up to the rake, and nobody is charged more than the award. */
  lemma {:induction false} ChargesAreExact(st: State, layers: seq<Layer>)
    requires Payable(st, layers)
    ensures Sum(Charges(st, layers)) == ShowdownRake(st, layers)
    ensures forall i :: 0 <= i < |st.seats| ==> 0 <= Charges(st, layers)[i] <= GrossAwards(st, layers)[i]
  {
    var n, who, gross, rake := |st.seats|, ChargedSeats(st, layers), GrossAwards(st, layers), ShowdownRake(st, layers);
    ChargedAwards(st, layers);
    ChargedDistinct(st, layers);
    RakeFits(st, layers);
    var a := Read(gross, who);
    TabsAreExact(a, rake);
    var tabs := RakeTabs(a, rake);
    PaySum(Zeros(n), who, tabs, |who|);
    SumZero(Zeros(n));
    assert tabs[..|who|] == tabs;
    GrossIsPot(st, layers);
    forall i | 0 <= i < n
      ensures 0 <= Charges(st, layers)[i] <= gross[i]
    {
      ChargeAt(gross, who, tabs, i);
    }
  }

  lemma {:induction false} ChargeAt(gross: seq<int>, who: seq<nat>, tabs: seq<int>, i: nat)
    requires Below(who, |gross|) && NoRepeats(who) && |tabs| == |who| && i < |gross|
    requires gross[i] >= 0
    requires forall j :: 0 <= j < |who| ==> 0 <= tabs[j] <= gross[who[j]]
    ensures 0 <= Pay(Zeros(|gross|), who, tabs, |who|)[i] <= gross[i]
  {
    if Covers(who, i) {
      var j :| 0 <= j < |who| && who[j] == i;
      PayHits(Zeros(|gross|), who, tabs, |who|, j);
    } else {
      PayMisses(Zeros(|gross|), who, tabs, |who|, i);
    }
  }

  /** Settlement pays the layers out, less the rake. */
  lemma {:induction false} SettleLayersPays(st: State, layers: seq<Layer>)
    requires Payable(st, layers)
    ensures var r := SettleLayers(st, layers);
            && Sum(Stacks(r.seats)) + r.rake == Sum(Stacks(st.seats)) + Sum(Amounts(layers))
            && 0 <= r.rake <= Sum(Amounts(layers))
            && (forall i :: 0 <= i < |st.seats| ==> r.seats[i].stack >= st.seats[i].stack)
            && (forall j :: 0 <= j < |r.winners| ==> r.winners[j].amount >= 0)
  {
    var gross, charges := GrossAwards(st, layers), Charges(st, layers);
    GrossIsPot(st, layers);
    ChargesAreExact(st, layers);
    RakeFits(st, layers);
    CreditSum(st.seats, gross, charges);
  }

  /** Settling a showdown moves every chip of the pot to a stack or to the session's rake. */
  lemma {:induction false} SettleConserves(st: State)
    requires ReadyToSettle(st)
    ensures Funds(SettleShowdown(st)) == Funds(st)
    ensures 0 <= SettleShowdown(st).rake <= st.pot
    ensures forall i :: 0 <= i < |st.seats| ==> SettleShowdown(st).seats[i].stack >= st.seats[i].stack
    ensures forall j :: 0 <= j < |SettleShowdown(st).winners| ==> SettleShowdown(st).winners[j].amount >= 0
  {
    TsLayersPay(st);
    SettleLayersPays(st, TsPots(st.seats));
  }

  lemma {:induction false} CreditSum(seats: seq<Seat>, gross: seq<int>, charges: seq<int>)
    requires |seats| == |gross| == |charges|
    ensures Sum(Stacks(Credit(seats, gross, charges))) == Sum(Stacks(seats)) + Sum(gross) - Sum(charges)
  {
    var before, after := Stacks(seats), Stacks(Credit(seats, gross, charges));
    var mid := seq(|seats|, i requires 0 <= i < |seats| => before[i] + gross[i]);
    SumAdd(before, gross, mid);
    SumAdd(after, charges, mid);
  }

  // ----- Who is entitled to what -----

  /** What a seat can win from the others' stakes: all of the pot if it is deepest. */
  function Entitlement(seats: seq<Seat>, i: nat): int
    requires i < |seats|
  {
    if seats[i].totalBet < DeepestLive(seats) then Sum(Capped(seats, seats[i].totalBet)) else Sum(Totals(seats))
  }

  /** How many layers seat `i` contests. */
  function Reach(seats: seq<Seat>, i: nat, k: nat): (c: nat)
    requires i < |seats| && k <= Contested(seats)
    ensures c <= k
  {
    if k == 0 then 0
    else if i in Eligible(seats, Levels(seats)[k - 1]) then k
    else Reach(seats, i, k - 1)
  }

  lemma {:induction false} ReachSplits(seats: seq<Seat>, i: nat, k: nat, j: nat)
    requires i < |seats| && j < k <= Contested(seats)
    ensures i in Eligible(seats, Levels(seats)[j]) <==> j < Reach(seats, i, k)
  {
    if i in Eligible(seats, Levels(seats)[k - 1]) {
      assert Levels(seats)[j] <= Levels(seats)[k - 1];
    } else if j < k - 1 {
      ReachSplits(seats, i, k - 1, j);
    }
  }

  /** The layers a live seat contests hold exactly its entitlement. */
  lemma {:induction false} ReachHoldsEntitlement(seats: seq<Seat>, i: nat)
    requires i < |seats| && !seats[i].folded && NonNegative(seats) && DeepestLive(seats) > 0
    ensures Sum(Amounts(TsPots(seats))[..Reach(seats, i, Contested(seats))]) == Entitlement(seats, i)
  {
    var levels, d, t := Levels(seats), Contested(seats), seats[i].totalBet;
    var c := Reach(seats, i, d);
    ContestedUpToDeepest(seats);
    TsPrefix(seats, c);
    CappedAtZero(seats);
    LevelAtReach(seats, i);
    if t < DeepestLive(seats) {
      SlicesAreCapped(seats, 0, t);
    } else {
      TsPotsHoldEverything(seats);
      assert Amounts(TsPots(seats))[..d] == Amounts(TsPots(seats));
    }
  }

  /** A live seat contests exactly the layers up to its own stake. */
  lemma {:induction false} LevelAtReach(seats: seq<Seat>, i: nat)
    requires i < |seats| && !seats[i].folded && seats[i].totalBet >= 0
    ensures Floor(Levels(seats), Reach(seats, i, Contested(seats))) == seats[i].totalBet
    ensures Reach(seats, i, Contested(seats)) == Contested(seats) <==> seats[i].totalBet == DeepestLive(seats)
  {
    var levels, d, t := Levels(seats), Contested(seats), seats[i].totalBet;
    var c := Reach(seats, i, d);
    ContestedUpToDeepest(seats);
    if c > 0 {
      ReachSplits(seats, i, d, c - 1);
      LevelPositive(seats, c - 1);
    }
    if d > 0 {
      LevelPositive(seats, d - 1);
    }
    if t > 0 {
      var k := LevelOf(seats, i);
      ReachSplits(seats, i, d, k);
      assert c == k + 1;
    }
  }

  lemma {:induction false} LevelPositive(seats: seq<Seat>, k: nat)
    requires k < |Levels(seats)|
    ensures Levels(seats)[k] > 0
  {
    var _ := LevelHolds(seats, k);
  }

  lemma {:induction false} LevelOf(seats: seq<Seat>, i: nat) returns (k: nat)
    requires i < |seats| && !seats[i].folded && seats[i].totalBet > 0
    ensures k < Contested(seats) && Levels(seats)[k] == seats[i].totalBet
  {
    k := TotalIsLevel(seats, i);
    assert i in Eligible(seats, Levels(seats)[k]);
    OrphansAreATopSuffix(seats, k);
  }

  lemma {:induction false} FoldedReachesNothing(seats: seq<Seat>, i: nat, k: nat)
    requires i < |seats| && seats[i].folded && k <= Contested(seats)
    ensures Reach(seats, i, k) == 0
  {
    if k > 0 {
      FoldedReachesNothing(seats, i, k - 1);
    }
  }

  /** Layers from `Reach` on are out of seat `i`'s reach. */
  lemma {:induction false} BeyondReach(st: State, i: nat)
    requires ReadyToSettle(st) && i < |st.seats|
    ensures forall k :: 0 <= k < |TsPots(st.seats)| ==> TsPots(st.seats)[k].amount > 0
    ensures forall k :: 0 <= k < |TsPots(st.seats)| ==>
              (i in TsPots(st.seats)[k].eligible <==> k < Reach(st.seats, i, Contested(st.seats)))
  {
    forall k | 0 <= k < |TsPots(st.seats)|
      ensures TsPots(st.seats)[k].amount > 0
      ensures i in TsPots(st.seats)[k].eligible <==> k < Reach(st.seats, i, Contested(st.seats))
    {
      LayersPay(st, k);
      ReachSplits(st.seats, i, Contested(st.seats), k);
    }
  }

  /** At showdown a folded seat wins nothing, and a live one at most its entitlement. */
  lemma {:induction false} NobodyExceedsEntitlement(st: State, i: nat)
    requires ReadyToSettle(st) && i < |st.seats|
    ensures st.seats[i].folded ==> GrossAwards(st, TsPots(st.seats))[i] == 0
    ensures !st.seats[i].folded ==> 0 <= GrossAwards(st, TsPots(st.seats))[i] <= Entitlement(st.seats, i)
  {
    var layers := TsPots(st.seats);
    BeyondReach(st, i);
    GrossWithin(st.seats, Scores(st.seats, st.board), st.button, layers, |layers|, i,
                Reach(st.seats, i, Contested(st.seats)));
    if st.seats[i].folded {
      FoldedReachesNothing(st.seats, i, Contested(st.seats));
    } else {
      ReachHoldsEntitlement(st.seats, i);
    }
  }

  /** Seat `i` beats every other live seat outright. */
  ghost predicate Dominates(st: State, i: nat)
    requires i < |st.seats|
  {
    && !st.seats[i].folded
    && forall j :: 0 <= j < |st.seats| && j != i && !st.seats[j].folded
                   ==> Compare(Score(st.seats[i], st.board), Score(st.seats[j], st.board)) > 0
  }

  lemma {:induction false} DominantWinsLayer(st: State, i: nat, k: nat)
    requires ReadyToSettle(st) && i < |st.seats| && Dominates(st, i)
    requires k < |TsPots(st.seats)| && i in TsPots(st.seats)[k].eligible
    ensures Winners(st.seats, Scores(st.seats, st.board), TsPots(st.seats)[k]) == {i}
  {
    var scores, layer := Scores(st.seats, st.board), TsPots(st.seats)[k];
    LayersPay(st, k);
    TsLayersRefineChipHeights(st.seats, k);
    var who := Contenders(st.seats, layer);
    CompareIsTotalPreorder(scores[i], scores[i], scores[i]);
    assert Unbeaten(scores, who, i);
    forall j | j in who && j != i
      ensures !Unbeaten(scores, who, j)
    {
      CompareIsTotalPreorder(scores[i], scores[j], scores[j]);
      CompareIsTotalPreorder(scores[j], scores[i], scores[i]);
      assert i in who;
    }
  }

  /** A hand that beats every other live hand wins exactly its entitlement. */
  lemma {:induction false} DominantHandWinsEntitlement(st: State, i: nat)
    requires ReadyToSettle(st) && i < |st.seats| && Dominates(st, i)
    ensures GrossAwards(st, TsPots(st.seats))[i] == Entitlement(st.seats, i)
  {
    var layers, scores, c := TsPots(st.seats), Scores(st.seats, st.board), Reach(st.seats, i, Contested(st.seats));
    BeyondReach(st, i);
    forall k | 0 <= k < c
      ensures Winners(st.seats, scores, layers[k]) == {i}
    {
      DominantWinsLayer(st, i, k);
    }
    GrossAlone(st.seats, scores, st.button, layers, |layers|, i, c);
    ReachHoldsEntitlement(st.seats, i);
  }

  // ----- Fold-win conserves too -----

  lemma {:induction false} FoldWinConserves(st: State, w: nat)
    requires FirstStanding(st.seats, 0) == Some(w)
    requires st.config.rakeBps <= BPS_DENOMINATOR
    requires UncalledBet(st.seats, w) <= st.pot
    ensures Funds(FoldWin(st)) == Funds(st)
    ensures 0 <= FoldWin(st).rake <= st.pot
    ensures FoldWin(st).seats[w].stack == st.seats[w].stack + st.pot - FoldWin(st).rake
    ensures forall i :: 0 <= i < |st.seats| && i != w ==> FoldWin(st).seats[i].stack == st.seats[i].stack
    ensures |st.board| == 0 ==> FoldWin(st).rake == 0
    ensures FoldWin(st).winners == [Award(w, st.pot - UncalledBet(st.seats, w) - FoldWin(st).rake)]
  {
    var uncalled := UncalledBet(st.seats, w);
    RakeWithinPot(st.pot - uncalled, st.config.rakeBps, st.config.rakeCap, 1, Some(|st.board| == 0));
    var r := FoldWin(st);
    var before := Stacks(st.seats);
    assert Stacks(r.seats) == before[w := before[w] + st.pot - r.rake];
    SumUpdate(before, w, before[w] + st.pot - r.rake);
  }
}
