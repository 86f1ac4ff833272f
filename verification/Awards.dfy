/** Who is paid what at a showdown (`settleShowdown`, packages/game-rules/src/holdem.ts, lines 622-728), told by
    the cards, stakes and seats alone: no score, award list or winner list appears in what is claimed. */
module Awards {
  import opened Prelude
  import opened Ring
  import opened Rake
  import opened Cards
  import opened HandRank
  import opened Pots
  import opened Payouts
  import opened Settlement
  import opened Table
  import opened Holdem
  import opened Invariant
  import opened Runs
  import opened Showdown

  /** Every live seat can make a hand of five. */
  ghost predicate AtShowdown(st: State)
  {
    && ReadyToSettle(st) && |st.board| == 5
    && forall i :: 0 <= i < |st.seats| && !st.seats[i].folded ==> |st.seats[i].hole.value| == 2
  }

  /** So it is whenever the engine settles a river. */
  lemma {:induction false} RiverIsAtShowdown(st: State)
    requires Core(st) && st.street == River && LiveSet(st.seats) != {}
    ensures AtShowdown(st.(street := Street.Showdown))
  {
    SomeLiveStake(st);
    assert forall i :: 0 <= i < |st.seats| ==> SeatOk(st.seats[i], st.currentBet);
  }

  /** Five of the seat's own two cards and the board. */
  ghost predicate HandOf(st: State, i: nat, f: seq<Card>)
    requires i < |st.seats|
  {
    !st.seats[i].folded && st.seats[i].hole.Some? && FiveOf(f, st.seats[i].hole.value + st.board)
  }

  ghost predicate BeatsAll(st: State, f: seq<Card>, i: nat)
    requires |f| == 5 && i < |st.seats|
  {
    forall g :: HandOf(st, i, g) ==> Compare(RankFive(f).score, RankFive(g).score) > 0
  }

  /** Some hand of seat `j` beats every hand of seat `i`. */
  ghost predicate Beats(st: State, j: nat, i: nat)
    requires i < |st.seats| && j < |st.seats|
  {
    exists f :: HandOf(st, j, f) && BeatsAll(st, f, i)
  }

  /** What a seat is ranked by is the best hand it can make. */
  lemma {:induction false} ScoreIsBestFive(st: State, i: nat) returns (f: seq<Card>)
    requires AtShowdown(st) && i < |st.seats| && !st.seats[i].folded
    ensures HandOf(st, i, f) && RankFive(f).score == Score(st.seats[i], st.board)
    ensures forall g :: HandOf(st, i, g) ==> Compare(Score(st.seats[i], st.board), RankFive(g).score) >= 0
  {
    var all := st.seats[i].hole.value + st.board;
    f := BestHandAttained(all);
    BestHandIsBest(all);
  }

  lemma {:induction false} BeatsIff(st: State, j: nat, i: nat)
    requires AtShowdown(st) && i < |st.seats| && j < |st.seats| && !st.seats[i].folded && !st.seats[j].folded
    ensures Beats(st, j, i) <==> Compare(Score(st.seats[j], st.board), Score(st.seats[i], st.board)) > 0
  {
    var best := ScoreIsBestFive(st, j);
    var other := ScoreIsBestFive(st, i);
    var high, low := RankFive(best).score, RankFive(other).score;
    if Compare(high, low) > 0 {
      forall g | HandOf(st, i, g)
        ensures Compare(high, RankFive(g).score) > 0
      {
        Exceeds(high, low, RankFive(g).score);
      }
      assert BeatsAll(st, best, i);
    }
    if f :| HandOf(st, j, f) && BeatsAll(st, f, i) {
      assert Compare(RankFive(f).score, low) > 0;
      ExceedsBelow(high, RankFive(f).score, low);
    }
  }

  lemma {:induction false} Exceeds(a: seq<int>, b: seq<int>, c: seq<int>)
    requires Compare(a, b) > 0 && Compare(b, c) >= 0
    ensures Compare(a, c) > 0
  {
    CompareIsTotalPreorder(a, b, c);
    CompareIsTotalPreorder(b, c, a);
    CompareIsTotalPreorder(c, a, b);
  }

  lemma {:induction false} ExceedsBelow(a: seq<int>, b: seq<int>, c: seq<int>)
    requires Compare(a, b) >= 0 && Compare(b, c) > 0
    ensures Compare(a, c) > 0
  {
    CompareIsTotalPreorder(a, b, c);
    CompareIsTotalPreorder(b, c, a);
    CompareIsTotalPreorder(c, a, b);
  }

  // ----- The three laws of a showdown -----

  /** A seat that beats every other live one is paid its entitlement less a rake charge. */
  lemma {:induction false} BestHandTakesEntitlement(st: State, i: nat)
    requires AtShowdown(st) && i < |st.seats| && !st.seats[i].folded
    requires forall j: nat :: j < |st.seats| && j != i && !st.seats[j].folded ==> Beats(st, i, j)
    ensures var r := SettleShowdown(st); var paid := r.seats[i].stack - st.seats[i].stack;
            Max(0, Entitlement(st.seats, i) - r.rake) <= paid <= Entitlement(st.seats, i)
  {
    forall j: nat | j < |st.seats| && j != i && !st.seats[j].folded
      ensures Compare(Score(st.seats[i], st.board), Score(st.seats[j], st.board)) > 0
    {
      BeatsIff(st, i, j);
    }
    DominantHandWinsEntitlement(st, i);
    PaidAt(st, i);
  }

  /** A seat beaten by one that staked at least as much is paid nothing. */
  lemma {:induction false} BeatenHandIsPaidNothing(st: State, i: nat, j: nat)
    requires AtShowdown(st) && i < |st.seats| && j < |st.seats| && !st.seats[i].folded && !st.seats[j].folded
    requires st.seats[j].totalBet >= st.seats[i].totalBet && Beats(st, j, i)
    ensures SettleShowdown(st).seats[i].stack == st.seats[i].stack
  {
    BeatsIff(st, j, i);
    LowerScoreWinsNothing(st, i, j);
    PaidAt(st, i);
  }

  lemma {:induction false} PaidAt(st: State, i: nat)
    requires ReadyToSettle(st) && i < |st.seats|
    ensures var r := SettleShowdown(st); var paid := r.seats[i].stack - st.seats[i].stack;
            && paid == GrossAwards(st, TsPots(st.seats))[i] - Charges(st, TsPots(st.seats))[i]
            && Max(0, GrossAwards(st, TsPots(st.seats))[i] - r.rake) <= paid <= GrossAwards(st, TsPots(st.seats))[i]
  {
    var layers := TsPots(st.seats);
    TsLayersPay(st);
    ChargesAreExact(st, layers);
    SumBounds(Charges(st, layers));
  }

  // ----- Every layer, to the chip -----

  /** Nobody of `who` beats seat `i`. */
  ghost predicate BeatenByNone(st: State, who: set<nat>, i: nat)
    requires i < |st.seats|
  {
    forall j :: j in who && j < |st.seats| ==> !Beats(st, j, i)
  }

  /** Seats that share layer `k`: those that staked into it and are live, and that none of them beats. */
  ghost function SharersOf(st: State, k: nat): (r: set<nat>)
    requires k < |TsPots(st.seats)|
    ensures forall i :: i in r ==> i < |st.seats|
  {
    var who := TsPots(st.seats)[k].eligible;
    set i | i in who && i < |st.seats| && BeatenByNone(st, who, i)
  }

  lemma {:induction false} NotBeatenIff(st: State, i: nat, j: nat)
    requires AtShowdown(st) && i < |st.seats| && j < |st.seats| && !st.seats[i].folded && !st.seats[j].folded
    ensures Compare(Score(st.seats[i], st.board), Score(st.seats[j], st.board)) >= 0 <==> !Beats(st, j, i)
  {
    BeatsIff(st, j, i);
    CompareIsTotalPreorder(Score(st.seats[i], st.board), Score(st.seats[j], st.board), []);
    CompareIsTotalPreorder(Score(st.seats[j], st.board), Score(st.seats[i], st.board), []);
  }

  /** The eligible seats of a layer are live. */
  lemma {:induction false} EligibleAreLive(st: State, k: nat)
    requires AtShowdown(st) && k < |TsPots(st.seats)|
    ensures forall i :: i in TsPots(st.seats)[k].eligible ==> i < |st.seats| && !st.seats[i].folded
  {
    TsLayersRefineChipHeights(st.seats, k);
  }

  lemma {:induction false} UnbeatenIff(st: State, who: set<nat>, i: nat)
    requires AtShowdown(st) && i in who && forall j :: j in who ==> j < |st.seats| && !st.seats[j].folded
    ensures Unbeaten(Scores(st.seats, st.board), who, i) <==> BeatenByNone(st, who, i)
  {
    var scores := Scores(st.seats, st.board);
    forall j | j in who
      ensures Compare(scores[i], scores[j]) >= 0 <==> !Beats(st, j, i)
    {
      NotBeatenIff(st, i, j);
    }
  }

  lemma {:induction false} WinnersAreSharers(st: State, k: nat)
    requires AtShowdown(st) && k < |TsPots(st.seats)|
    ensures Winners(st.seats, Scores(st.seats, st.board), TsPots(st.seats)[k]) == SharersOf(st, k)
  {
    var who := TsPots(st.seats)[k].eligible;
    LayersPay(st, k);
    EligibleAreLive(st, k);
    forall i | i in who
      ensures Unbeaten(Scores(st.seats, st.board), who, i) <==> BeatenByNone(st, who, i)
    {
      UnbeatenIff(st, who, i);
    }
  }

  /** What layer `k` pays seat `i`. */
  ghost function ShareOf(st: State, k: nat, i: nat): int
    requires k < |TsPots(st.seats)|
  {
    var who, amount := SharersOf(st, k), TsPots(st.seats)[k].amount;
    if i !in who then 0
    else amount / |who| + if |Ahead(st.button, |st.seats|, who, i)| < amount % |who| then 1 else 0
  }

  ghost function SharesUpTo(st: State, k: nat, i: nat): int
    requires k <= |TsPots(st.seats)|
  {
    if k == 0 then 0 else SharesUpTo(st, k - 1, i) + ShareOf(st, k - 1, i)
  }

  /** Awards of the first `k` layers. */
  ghost function GrossTo(st: State, k: nat): (r: seq<int>)
    requires st.button < |st.seats| && k <= |TsPots(st.seats)|
    ensures |r| == |st.seats|
  {
    Gross(st.seats, Scores(st.seats, st.board), st.button, TsPots(st.seats), k)
  }

  /** Awards after paying layer `k` as well. */
  ghost function WithLayer(st: State, gross: seq<int>, k: nat): (r: seq<int>)
    requires st.button < |st.seats| == |gross| && k < |TsPots(st.seats)|
    ensures |r| == |gross|
  {
    var layer := TsPots(st.seats)[k];
    PayLayer(gross, st.button, Winners(st.seats, Scores(st.seats, st.board), layer), layer.amount)
  }

  /** Whether the awards after `k` layers are the shares so far, for every `k`. */
  ghost function Tallies(st: State, i: nat): (r: seq<bool>)
    requires st.button < |st.seats| && i < |st.seats|
    ensures |r| == |TsPots(st.seats)| + 1
    ensures forall k :: 0 <= k < |r| ==> r[k] == (GrossTo(st, k)[i] == SharesUpTo(st, k, i))
  {
    seq(|TsPots(st.seats)| + 1, k requires 0 <= k <= |TsPots(st.seats)| => GrossTo(st, k)[i] == SharesUpTo(st, k, i))
  }

  lemma {:induction false} GrossIsShares(st: State, k: nat, i: nat)
    requires AtShowdown(st) && k <= |TsPots(st.seats)| && i < |st.seats|
    ensures GrossTo(st, k)[i] == SharesUpTo(st, k, i)
  {
    var tallies := Tallies(st, i);
    forall j: nat | j < k && tallies[j]
      ensures tallies[j + 1]
    {
      GrossGrows(st, j, i);
    }
    Carried(tallies, k);
  }

  lemma {:induction false} GrossGrows(st: State, k: nat, i: nat)
    requires AtShowdown(st) && k < |TsPots(st.seats)| && i < |st.seats|
    ensures GrossTo(st, k + 1)[i] == GrossTo(st, k)[i] + ShareOf(st, k, i)
  {
    GrossToStep(st, k);
    LayerPaysShare(st, GrossTo(st, k), GrossTo(st, k + 1), k, i);
  }

  /** Layer `k` was paid between the two. */
  ghost predicate PaysLayer(st: State, before: seq<int>, after: seq<int>, k: nat)
  {
    && st.button < |st.seats| == |before| == |after| && k < |TsPots(st.seats)|
    && after == WithLayer(st, before, k)
  }

  lemma {:induction false} GrossToStep(st: State, k: nat)
    requires st.button < |st.seats| && k < |TsPots(st.seats)|
    ensures PaysLayer(st, GrossTo(st, k), GrossTo(st, k + 1), k)
  {
  }

  lemma {:induction false} LayerPaysShare(st: State, before: seq<int>, after: seq<int>, k: nat, i: nat)
    requires AtShowdown(st) && PaysLayer(st, before, after, k) && i < |st.seats|
    ensures after[i] == before[i] + ShareOf(st, k, i)
  {
    var layer := TsPots(st.seats)[k];
    LayersPay(st, k);
    WinnersAreSharers(st, k);
    if i in SharersOf(st, k) {
      PayLayerShare(before, st.button, SharersOf(st, k), layer.amount, i);
    } else {
      PayLayerAt(before, st.button, SharersOf(st, k), layer.amount, i);
    }
  }

  /** Each charge is within one chip per charged seat of the exact proportion. */
  lemma {:induction false} ChargeNearShare(st: State, i: nat)
    requires ReadyToSettle(st) && i < |st.seats| && GrossAwards(st, TsPots(st.seats))[i] > 0
    ensures var layers := TsPots(st.seats);
            NearShare(st.pot, Charges(st, layers)[i], GrossAwards(st, layers)[i], ShowdownRake(st, layers),
                      |ChargedSeats(st, layers)|)
  {
    var layers := TsPots(st.seats);
    ChargedCoverAwards(st, layers, i);
    TsLayersPay(st);
    ChargedAwards(st, layers);
    ChargedDistinct(st, layers);
    RakeFits(st, layers);
    TabPaidIsNear(GrossAwards(st, layers), ChargedSeats(st, layers), ShowdownRake(st, layers), i);
  }

  lemma {:induction false} TabPaidIsNear(gross: seq<int>, who: seq<nat>, rake: int, i: nat)
    requires NoRepeats(who) && Below(who, |gross|) && Covers(who, i)
    requires var a := Read(gross, who); 0 <= rake <= Sum(a) && Sum(a) > 0 && forall j :: 0 <= j < |a| ==> a[j] >= 0
    ensures i < |gross|
    ensures var a := Read(gross, who);
            NearShare(Sum(a), Pay(Zeros(|gross|), who, RakeTabs(a, rake), |who|)[i], gross[i], rake, |who|)
  {
    var a := Read(gross, who);
    var j :| 0 <= j < |who| && who[j] == i;
    PayHits(Zeros(|gross|), who, RakeTabs(a, rake), |who|, j);
    TabIsNear(a, rake, j);
  }

  lemma {:induction false} TabIsNear(a: seq<int>, rake: int, j: nat)
    requires (forall i :: 0 <= i < |a| ==> a[i] >= 0) && 0 <= rake <= Sum(a) && j < |a| && Sum(a) > 0
    ensures NearShare(Sum(a), RakeTabs(a, rake)[j], a[j], rake, |a|)
  {
    if rake > 0 {
      RakeTabsAreExact(a, rake);
    } else {
      MulAtLeast(|a|, Sum(a));
    }
  }

  lemma {:induction false} DistinctBelow(s: seq<nat>, n: nat)
    requires NoRepeats(s) && Below(s, n)
    ensures |s| <= n
  {
    var all := set i | 0 <= i < |s| :: s[i];
    DistinctSize(s);
    RangeSize(all, n);
  }

  lemma {:induction false} DistinctSize(s: seq<nat>)
    requires NoRepeats(s)
    ensures |set i | 0 <= i < |s| :: s[i]| == |s|
  {
    if |s| > 0 {
      var n := |s| - 1;
      DistinctSize(s[..n]);
      var front := set i | 0 <= i < n :: s[..n][i];
      assert (set i | 0 <= i < |s| :: s[i]) == front + {s[n]};
      assert s[n] !in front;
    }
  }

  /** What `r` is to be for charges `charges` of `charged` seats. */
  ghost predicate PaidOut(st: State, r: State, charges: seq<int>, charged: nat, i: nat)
  {
    && i < |st.seats| == |r.seats| == |charges|
    && var share := SharesUpTo(st, |TsPots(st.seats)|, i);
       && r.seats[i].stack == st.seats[i].stack + share - charges[i]
       && 0 <= charges[i] <= share
       && (share > 0 ==> NearShare(st.pot, charges[i], share, r.rake, charged))
  }

  /** To the chip: every seat is paid its share of every layer, less a charge; the charges add up to the rake, and
      each is within one chip per charged seat of the exact proportion. */
  lemma {:induction false} LayersArePaidOut(st: State) returns (charges: seq<int>, charged: nat)
    requires AtShowdown(st)
    ensures Sum(charges) == SettleShowdown(st).rake && charged <= |st.seats|
    ensures forall i: nat :: i < |st.seats| ==> PaidOut(st, SettleShowdown(st), charges, charged, i)
  {
    var layers := TsPots(st.seats);
    charges, charged := Charges(st, layers), |ChargedSeats(st, layers)|;
    TsLayersPay(st);
    ChargesAreExact(st, layers);
    ChargedDistinct(st, layers);
    DistinctBelow(ChargedSeats(st, layers), |st.seats|);
    forall i: nat | i < |st.seats|
      ensures PaidOut(st, SettleShowdown(st), charges, charged, i)
    {
      SeatIsPaidOut(st, i);
    }
  }

  lemma {:induction false} SeatIsPaidOut(st: State, i: nat)
    requires AtShowdown(st) && i < |st.seats|
    ensures var layers := TsPots(st.seats);
            PaidOut(st, SettleShowdown(st), Charges(st, layers), |ChargedSeats(st, layers)|, i)
  {
    var layers := TsPots(st.seats);
    TsLayersPay(st);
    ChargesAreExact(st, layers);
    if GrossAwards(st, layers)[i] > 0 {
      ChargeNearShare(st, i);
    }
    GrossIsShares(st, |layers|, i);
    PaidAt(st, i);
  }

  /** Two live seats with equal stakes, neither beating the other, get the same shares, up to one odd chip a
      layer. */
  lemma {:induction false} TiedHandsShareAlike(st: State, i: nat, j: nat)
    requires AtShowdown(st) && i < |st.seats| && j < |st.seats| && !st.seats[i].folded && !st.seats[j].folded
    requires st.seats[i].totalBet == st.seats[j].totalBet && !Beats(st, i, j) && !Beats(st, j, i)
    ensures var n := |TsPots(st.seats)|; -n <= SharesUpTo(st, n, i) - SharesUpTo(st, n, j) <= n
  {
    var n := |TsPots(st.seats)|;
    NotBeatenIff(st, i, j);
    NotBeatenIff(st, j, i);
    CompareIsTotalPreorder(Score(st.seats[i], st.board), Score(st.seats[j], st.board), []);
    EqualScoresShareAlike(st, i, j);
    GrossIsShares(st, n, i);
    GrossIsShares(st, n, j);
  }

  /** The list of winners names everybody who got a share, once, with the change of the stack. */
  lemma {:induction false} WinnersAreListed(st: State)
    requires AtShowdown(st)
    ensures var r := SettleShowdown(st);
            && (forall j :: 0 <= j < |r.winners| ==>
                  r.winners[j].seat < |st.seats| == |r.seats|
                  && r.winners[j].amount == r.seats[r.winners[j].seat].stack - st.seats[r.winners[j].seat].stack)
            && (forall j, k :: 0 <= j < k < |r.winners| ==> r.winners[j].seat != r.winners[k].seat)
    ensures forall i: nat :: i < |st.seats| && SharesUpTo(st, |TsPots(st.seats)|, i) > 0 ==>
              exists j :: 0 <= j < |SettleShowdown(st).winners| && SettleShowdown(st).winners[j].seat == i
  {
    var layers := TsPots(st.seats);
    forall i: nat | i < |st.seats| && SharesUpTo(st, |layers|, i) > 0
      ensures exists j :: 0 <= j < |SettleShowdown(st).winners| && SettleShowdown(st).winners[j].seat == i
    {
      GrossIsShares(st, |layers|, i);
      ShareIsListed(st, i);
    }
  }

  lemma {:induction false} ShareIsListed(st: State, i: nat)
    requires ReadyToSettle(st) && i < |st.seats| && GrossAwards(st, TsPots(st.seats))[i] > 0
    ensures exists j :: 0 <= j < |SettleShowdown(st).winners| && SettleShowdown(st).winners[j].seat == i
  {
    var layers := TsPots(st.seats);
    if i !in WonBy(st, layers) {
      UnrecordedSeatsGetNothing(st.seats, Scores(st.seats, st.board), st.button, layers, |layers|, i);
    }
    var j :| 0 <= j < |WonBy(st, layers)| && WonBy(st, layers)[j] == i;
    assert SettleShowdown(st).winners[j].seat == i;
  }

  /** What a showdown of so many hands costs. */
  function RakeFor(hands: nat, matched: int, config: Config): int
  {
    if hands >= 2 then CappedShare(matched, config.rakeBps, config.rakeCap) else 0
  }

  /** The rake of a showdown: the rounded share of the pot less what nobody called, and none if nobody is left to
      show against. */
  lemma {:induction false} ShowdownIsRaked(st: State, u: int, matched: int)
    requires AtShowdown(st) && ConfigOk(st.config) && IsUncalled(st.seats, u) && matched == st.pot - u
    ensures 0 <= u <= st.pot
    ensures SettleShowdown(st).rake == RakeFor(|LiveSet(st.seats)|, matched, st.config)
  {
    MatchedIsRaked(st, u);
    RakeOfMatched(st, TsPots(st.seats), matched);
    RakeIsShowdownRake(st);
  }

  lemma {:induction false} RakeIsShowdownRake(st: State)
    requires st.button < |st.seats|
    ensures SettleShowdown(st).rake == ShowdownRake(st, TsPots(st.seats))
  {
  }

  lemma {:induction false} RakeOfMatched(st: State, layers: seq<Layer>, matched: nat)
    requires RakedPot(st, layers) == matched && ConfigOk(st.config)
    requires forall i :: 0 <= i < |st.seats| && !st.seats[i].folded ==> st.seats[i].hole.Some?
    ensures ShowdownRake(st, layers) == RakeFor(|LiveSet(st.seats)|, matched, st.config)
  {
    assert Shown(st.seats) == LiveSet(st.seats);
    RakeIsCappedShare(matched, st.config.rakeBps, st.config.rakeCap, |Shown(st.seats)|, None);
  }

  lemma {:induction false} MatchedIsRaked(st: State, u: int)
    requires ReadyToSettle(st) && IsUncalled(st.seats, u)
    ensures 0 <= u <= st.pot && RakedPot(st, TsPots(st.seats)) == st.pot - u
  {
    TsLayersPay(st);
    UncalledIffOvercalled(st.seats, u);
    if u > 0 {
      var top := UncalledComesBack(st);
    }
  }

  // ----- On a run -----

  /** An action that ends a hand on the river settles it in this way, with the cards, the button and the stakes as
      the action left them. */
  lemma {:induction false} RiverActionSettles(s: State, t: State, action: Action, amount: Option<int>)
    requires InHand(s) && Plays(s, t, action, amount) && s.street == River && !InHandStreet(t.street)
    ensures LegalMove(s, action, amount)
    ensures var st := AfterWager(s, action, amount).(street := Street.Showdown);
            && AtShowdown(st) && t == SettleShowdown(st)
            && st.board == s.board && st.button == s.button && st.config == s.config && |st.seats| == |s.seats|
            && forall i :: 0 <= i < |s.seats| ==> st.seats[i].hole == s.seats[i].hole
  {
    LegalMovesAreAccepted(s, action, amount);
    WagerActs(s, action, amount);
    ApplyUnfolds(s, action, amount);
    WagerKeepsCards(s, action, amount);
    assert |LiveSet(s.seats) - {s.acting.value}| >= 1;
    RiverAdvanceSettles(AfterWager(s, action, amount), s.acting.value);
  }

  lemma {:induction false} WagerKeepsCards(s: State, action: Action, amount: Option<int>)
    requires InHand(s) && LegalMove(s, action, amount)
    ensures var next := AfterWager(s, action, amount);
            && |next.seats| == |s.seats| && next.config == s.config
            && forall i :: 0 <= i < |s.seats| ==> next.seats[i].hole == s.seats[i].hole
  {
  }

  lemma {:induction false} RiverAdvanceSettles(st: State, a: nat)
    requires Core(st) && WellFormed(st) && st.street == River && LiveSet(st.seats) != {} && a < |st.seats|
    requires !InHandStreet(Advance(st, a).street)
    ensures var shown := st.(street := Street.Showdown); AtShowdown(shown) && Advance(st, a) == SettleShowdown(shown)
  {
    RiverIsAtShowdown(st);
    if !StreetComplete(st) {
      SomebodyIsToAct(st, a);
    }
  }

  /** And so does a run-out step on the river. */
  lemma {:induction false} RiverRunoutSettles(s: State, t: State)
    requires InHand(s) && RunsOut(s, t) && s.street == River
    ensures var st := s.(acting := None, street := Street.Showdown); AtShowdown(st) && t == SettleShowdown(st)
  {
    RiverIsAtShowdown(s.(acting := None));
    RiverRunsOut(s);
  }

  // ----- Who pays the rake -----

  ghost function UnionTo(sets: seq<set<nat>>, k: nat): set<nat>
    requires k <= |sets|
  {
    if k == 0 then {} else UnionTo(sets, k - 1) + sets[k - 1]
  }

  lemma {:induction false} UnionWithin(sets: seq<set<nat>>, k: nat, n: nat)
    requires k <= |sets| && forall j, x :: 0 <= j < |sets| && x in sets[j] ==> x < n
    ensures forall x :: x in UnionTo(sets, k) ==> x < n
  {
    if k > 0 {
      UnionWithin(sets, k - 1, n);
    }
  }

  lemma {:induction false} UnionGrows(sets: seq<set<nat>>, j: nat, k: nat)
    requires j < k <= |sets|
    ensures UnionTo(sets, j) <= UnionTo(sets, k) && sets[j] <= UnionTo(sets, k)
  {
    if j < k - 1 {
      UnionGrows(sets, j, k - 1);
    }
  }

  lemma {:induction false} InSomeSet(sets: seq<set<nat>>, k: nat, x: nat) returns (j: nat)
    requires k <= |sets| && x in UnionTo(sets, k)
    ensures j < k && x in sets[j]
  {
    if x in sets[k - 1] {
      j := k - 1;
    } else {
      j := InSomeSet(sets, k - 1, x);
    }
  }

  /** The sharers of every layer. */
  ghost function Sharers(st: State): (r: seq<set<nat>>)
    ensures |r| == |TsPots(st.seats)|
    ensures forall k :: 0 <= k < |r| ==> r[k] == SharersOf(st, k)
  {
    seq(|TsPots(st.seats)|, k requires 0 <= k < |TsPots(st.seats)| => SharersOf(st, k))
  }

  /** Seats with a share in some layer before `k`, if only of nothing. */
  ghost function SharersUpTo(st: State, k: nat): (r: set<nat>)
    requires k <= |TsPots(st.seats)|
    ensures forall i :: i in r ==> i < |st.seats|
  {
    UnionWithin(Sharers(st), k, |st.seats|);
    UnionTo(Sharers(st), k)
  }

  /** Whether seat `i` is listed after `k` layers exactly if it has shared one of them, for every `k`. */
  ghost function Listings(st: State, i: nat): (r: seq<bool>)
    requires st.button < |st.seats|
    ensures |r| == |TsPots(st.seats)| + 1
    ensures forall k :: 0 <= k < |r| ==>
              r[k] == (i in WonOrder(st.seats, Scores(st.seats, st.board), st.button, TsPots(st.seats), k)
                       <==> i in SharersUpTo(st, k))
  {
    seq(|TsPots(st.seats)| + 1, k requires 0 <= k <= |TsPots(st.seats)| =>
      (i in WonOrder(st.seats, Scores(st.seats, st.board), st.button, TsPots(st.seats), k)
       <==> i in SharersUpTo(st, k)))
  }

  lemma {:induction false} WonToIs(st: State, k: nat, i: nat)
    requires AtShowdown(st) && k <= |TsPots(st.seats)|
    ensures i in WonOrder(st.seats, Scores(st.seats, st.board), st.button, TsPots(st.seats), k)
       <==> i in SharersUpTo(st, k)
  {
    var listed := Listings(st, i);
    forall j: nat | j < k && listed[j]
      ensures listed[j + 1]
    {
      WonInLayer(st, j, i);
    }
    Carried(listed, k);
  }

  lemma {:induction false} WonInLayer(st: State, k: nat, i: nat)
    requires AtShowdown(st) && k < |TsPots(st.seats)|
    ensures i in WonOrder(st.seats, Scores(st.seats, st.board), st.button, TsPots(st.seats), k + 1)
       <==> i in WonOrder(st.seats, Scores(st.seats, st.board), st.button, TsPots(st.seats), k) || i in SharersOf(st, k)
  {
    var n, scores, layers, who := |st.seats|, Scores(st.seats, st.board), TsPots(st.seats), SharersOf(st, k);
    LayersPay(st, k);
    WinnersAreSharers(st, k);
    ByButtonLists(st.button, n, who);
    var w := ByButton(st.button, n, who);
    AddNewAdds(WonOrder(st.seats, scores, st.button, layers, k), w, |w|, i);
    assert i in who ==> Covers(w, i);
  }

  lemma {:induction false} AddNewAdds(before: seq<nat>, more: seq<nat>, k: nat, i: nat)
    requires k <= |more| && NoRepeats(before)
    ensures i in AddNew(before, more, k) <==> i in before || i in more[..k]
  {
    if k > 0 {
      AddNewAdds(before, more, k - 1, i);
      assert more[..k] == more[..k - 1] + [more[k - 1]];
    }
  }

  /** The shares of some seats, in their order. */
  ghost function SharesOfSeats(st: State, seats: seq<nat>): (r: seq<int>)
    ensures |r| == |seats|
    ensures forall j :: 0 <= j < |r| ==> r[j] == SharesUpTo(st, |TsPots(st.seats)|, seats[j])
  {
    seq(|seats|, j requires 0 <= j < |seats| => SharesUpTo(st, |TsPots(st.seats)|, seats[j]))
  }

  /** The rake is charged in button order to the seats that shared a layer, by what each of them got in all
      (`Rake.OddChipsGoInOrder` has the charges to the chip); nobody else is charged. */
  lemma {:induction false} ChargesGoByButton(st: State, i: nat)
    requires AtShowdown(st) && i < |st.seats|
    ensures var r, who := SettleShowdown(st), SharersUpTo(st, |TsPots(st.seats)|);
            var payers, place := ByButton(st.button, |st.seats|, who), |Ahead(st.button, |st.seats|, who, i)|;
            var charge := SharesUpTo(st, |TsPots(st.seats)|, i) - (r.seats[i].stack - st.seats[i].stack);
            if i in who then place < |payers| && charge == RakeTabs(SharesOfSeats(st, payers), r.rake)[place]
            else charge == 0
  {
    var layers, who := TsPots(st.seats), SharersUpTo(st, |TsPots(st.seats)|);
    var payers := ByButton(st.button, |st.seats|, who);
    PaidAt(st, i);
    GrossIsShares(st, |layers|, i);
    ChargedAreSharers(st);
    ReadIsShares(st, payers);
    ByButtonLists(st.button, |st.seats|, who);
    if i in who {
      ByButtonAt(st.button, |st.seats|, who, i);
    }
    ChargeByPlace(st, payers, i);
  }

  lemma {:induction false} ChargedAreSharers(st: State)
    requires AtShowdown(st)
    ensures ChargedSeats(st, TsPots(st.seats))
         == ByButton(st.button, |st.seats|, SharersUpTo(st, |TsPots(st.seats)|))
  {
    forall i: nat
      ensures i in WonBy(st, TsPots(st.seats)) <==> i in SharersUpTo(st, |TsPots(st.seats)|)
    {
      WonToIs(st, |TsPots(st.seats)|, i);
    }
    assert Members(WonBy(st, TsPots(st.seats)), |st.seats|) == SharersUpTo(st, |TsPots(st.seats)|);
  }

  lemma {:induction false} ReadIsShares(st: State, seats: seq<nat>)
    requires AtShowdown(st) && Below(seats, |st.seats|)
    ensures Read(GrossAwards(st, TsPots(st.seats)), seats) == SharesOfSeats(st, seats)
  {
    forall j | 0 <= j < |seats|
      ensures GrossAwards(st, TsPots(st.seats))[seats[j]] == SharesUpTo(st, |TsPots(st.seats)|, seats[j])
    {
      GrossIsShares(st, |TsPots(st.seats)|, seats[j]);
    }
  }

  lemma {:induction false} ChargeByPlace(st: State, payers: seq<nat>, i: nat)
    requires st.button < |st.seats| && i < |st.seats| && payers == ChargedSeats(st, TsPots(st.seats))
    ensures Below(payers, |st.seats|)
    ensures var a, rake := Read(GrossAwards(st, TsPots(st.seats)), payers), ShowdownRake(st, TsPots(st.seats));
            if Covers(payers, i) then
              forall p :: 0 <= p < |payers| && payers[p] == i ==>
                Charges(st, TsPots(st.seats))[i] == RakeTabs(a, rake)[p]
            else Charges(st, TsPots(st.seats))[i] == 0
  {
    var layers, n := TsPots(st.seats), |st.seats|;
    var a := Read(GrossAwards(st, layers), payers);
    ChargedDistinct(st, layers);
    var tabs := RakeTabs(a, ShowdownRake(st, layers));
    forall p | 0 <= p < |payers| && payers[p] == i
      ensures Charges(st, layers)[i] == tabs[p]
    {
      PayHits(Zeros(n), payers, tabs, |payers|, p);
    }
    if !Covers(payers, i) {
      PayMisses(Zeros(n), payers, tabs, |payers|, i);
    }
  }

  // ----- The order of the winners -----

  /** Entry `j` of a list grown by `AddNew` is an old one, or entry `p` of the added list and not an old one. */
  lemma {:induction false} AddedFrom(before: seq<nat>, more: seq<nat>, k: nat, j: nat) returns (p: nat)
    requires k <= |more| && NoRepeats(before) && |before| <= j < |AddNew(before, more, k)|
    ensures p < k && more[p] == AddNew(before, more, k)[j] && more[p] !in before
  {
    if j == |AddNew(before, more, k - 1)| {
      p := k - 1;
    } else {
      p := AddedFrom(before, more, k - 1, j);
    }
  }

  lemma {:induction false} AddNewPrefix(before: seq<nat>, more: seq<nat>, k: nat)
    requires k <= |more| && NoRepeats(before)
    ensures before <= AddNew(before, more, k)
  {
    if k > 0 {
      AddNewPrefix(before, more, k - 1);
    }
  }

  /** New entries keep the order of the added list. */
  lemma {:induction false} AddedInOrder(before: seq<nat>, more: seq<nat>, k: nat, i: nat, j: nat)
    returns (p: nat, q: nat)
    requires k <= |more| && NoRepeats(before) && |before| <= i < j < |AddNew(before, more, k)|
    ensures p < q < k && more[p] == AddNew(before, more, k)[i] && more[q] == AddNew(before, more, k)[j]
  {
    if j == |AddNew(before, more, k - 1)| {
      p := AddedFrom(before, more, k - 1, i);
      q := k - 1;
    } else {
      p, q := AddedInOrder(before, more, k - 1, i, j);
    }
  }

  lemma {:induction false} ButtonListAscends(button: nat, n: nat, who: set<nat>, p: nat, q: nat)
    requires button < n && (forall x :: x in who ==> x < n) && p < q < |ByButton(button, n, who)|
    ensures var w := ByButton(button, n, who); Clockwise(n, button, w[p]) < Clockwise(n, button, w[q])
  {
    var w := ByButton(button, n, who);
    ByButtonLists(button, n, who);
    PlaceOf(button, n, who, p);
    PlaceOf(button, n, who, q);
    if Clockwise(n, button, w[q]) <= Clockwise(n, button, w[p]) {
      SubsetSize(Ahead(button, n, who, w[q]), Ahead(button, n, who, w[p]));
    }
  }

  lemma {:induction false} PlaceOf(button: nat, n: nat, who: set<nat>, p: nat)
    requires button < n && (forall x :: x in who ==> x < n) && p < |ByButton(button, n, who)|
    ensures |Ahead(button, n, who, ByButton(button, n, who)[p])| == p
  {
    var w := ByButton(button, n, who);
    ByButtonLists(button, n, who);
    ByButtonAt(button, n, who, w[p]);
  }

  /** At layer `k`, `x` shares and `y`, who has shared nothing before, does not, or comes later in button order. */
  ghost predicate SharesFirstAt(st: State, k: nat, x: nat, y: nat)
    requires k < |TsPots(st.seats)|
  {
    && x in SharersOf(st, k) && y !in SharersUpTo(st, k)
    && (y in SharersOf(st, k) ==>
          x !in SharersUpTo(st, k) && Clockwise(|st.seats|, st.button, x) < Clockwise(|st.seats|, st.button, y))
  }

  /** `x` got a share in an earlier layer than `y`, or in the same one and before it in button order. */
  ghost predicate SharesBefore(st: State, x: nat, y: nat)
  {
    exists k: nat :: k < |TsPots(st.seats)| && SharesFirstAt(st, k, x, y)
  }

  ghost predicate InSharingOrder(st: State, who: seq<nat>)
  {
    forall i, j :: 0 <= i < j < |who| ==> SharesBefore(st, who[i], who[j])
  }

  ghost function WonTo(st: State, k: nat): (r: seq<nat>)
    requires st.button < |st.seats| && k <= |TsPots(st.seats)|
    ensures NoRepeats(r)
  {
    WonOrder(st.seats, Scores(st.seats, st.board), st.button, TsPots(st.seats), k)
  }

  lemma {:induction false} NewcomerFollows(st: State, k: nat, x: nat, y: nat)
    requires k <= |TsPots(st.seats)| && x in SharersUpTo(st, k) && y !in SharersUpTo(st, k)
    ensures SharesBefore(st, x, y)
  {
    var j := InSomeSet(Sharers(st), k, x);
    UnionGrows(Sharers(st), j, k);
    assert SharesFirstAt(st, j, x, y);
  }

  lemma {:induction false} LayerKeepsOrder(st: State, k: nat)
    requires AtShowdown(st) && k < |TsPots(st.seats)| && InSharingOrder(st, WonTo(st, k))
    requires forall i :: i in WonTo(st, k) <==> i in SharersUpTo(st, k)
    ensures InSharingOrder(st, WonTo(st, k + 1))
  {
    var before, after := WonTo(st, k), WonTo(st, k + 1);
    var more := ByButton(st.button, |st.seats|, SharersOf(st, k));
    WonToStep(st, k);
    AddNewPrefix(before, more, |more|);
    forall i, j | 0 <= i < j < |after|
      ensures SharesBefore(st, after[i], after[j])
    {
      AddedFollows(st, k, before, more, i, j);
    }
  }

  lemma {:induction false} WonToStep(st: State, k: nat)
    requires AtShowdown(st) && k < |TsPots(st.seats)|
    ensures var more := ByButton(st.button, |st.seats|, SharersOf(st, k));
            WonTo(st, k + 1) == AddNew(WonTo(st, k), more, |more|)
  {
    LayersPay(st, k);
    WinnersAreSharers(st, k);
  }

  lemma {:induction false} AddedFollows(st: State, k: nat, before: seq<nat>, more: seq<nat>, i: nat, j: nat)
    requires st.button < |st.seats| && k < |TsPots(st.seats)| && NoRepeats(before) && InSharingOrder(st, before)
    requires more == ByButton(st.button, |st.seats|, SharersOf(st, k))
    requires (forall i :: i in before <==> i in SharersUpTo(st, k)) && before <= AddNew(before, more, |more|)
    requires i < j < |AddNew(before, more, |more|)|
    ensures var after := AddNew(before, more, |more|); SharesBefore(st, after[i], after[j])
  {
    var after := AddNew(before, more, |more|);
    if |before| <= i {
      var p, q := AddedInOrder(before, more, |more|, i, j);
      var p' := AddedFrom(before, more, |more|, i);
      var q' := AddedFrom(before, more, |more|, j);
      ButtonListAscends(st.button, |st.seats|, SharersOf(st, k), p, q);
      assert SharesFirstAt(st, k, after[i], after[j]);
    } else if |before| <= j {
      var q := AddedFrom(before, more, |more|, j);
      NewcomerFollows(st, k, after[i], after[j]);
    }
  }

  ghost function Orderings(st: State): (r: seq<bool>)
    requires st.button < |st.seats|
    ensures |r| == |TsPots(st.seats)| + 1
    ensures forall k :: 0 <= k < |r| ==> r[k] == InSharingOrder(st, WonTo(st, k))
  {
    seq(|TsPots(st.seats)| + 1, k requires 0 <= k <= |TsPots(st.seats)| => InSharingOrder(st, WonTo(st, k)))
  }

  /** Winners are listed by the layer they first shared, and within a layer in button order. */
  lemma {:induction false} WinnersAreInOrder(st: State)
    requires AtShowdown(st)
    ensures var r := SettleShowdown(st);
            forall i, j :: 0 <= i < j < |r.winners| ==> SharesBefore(st, r.winners[i].seat, r.winners[j].seat)
  {
    var ordered := Orderings(st);
    forall k: nat | k < |TsPots(st.seats)| && ordered[k]
      ensures ordered[k + 1]
    {
      forall i: nat
        ensures i in WonTo(st, k) <==> i in SharersUpTo(st, k)
      {
        WonToIs(st, k, i);
      }
      LayerKeepsOrder(st, k);
    }
    Carried(ordered, |TsPots(st.seats)|);
  }
}
