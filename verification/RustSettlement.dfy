/** `settle_showdown` of crates/poker-core/src/engine.rs as it runs: stacks and winner entries updated award by
    award, tabs charged without a lower clamp. It is proved to end in `SettleLayers` over the layers of
    `build_pots`. Subtractions that saturate at the ends of a 64-bit range are plain subtractions here. */
module RustSettlement {
  import opened Prelude
  import opened Rake
  import opened Pots
  import opened Payouts
  import opened Settlement
  import opened Table
  import opened Engine

  // ----- compute_rake -----

  /** Only the cap is taken as it is: there is no clamp at zero. */
  function ComputeRakeRust(pot: int, rakeBps: int, rakeCap: Option<int>, liveHands: nat,
                           endedBeforeFlop: Option<bool>): int
  {
    if rakeBps == 0 || pot <= 0 then 0
    else if endedBeforeFlop == Some(true) then 0
    else if endedBeforeFlop != Some(false) && liveHands <= 1 then 0
    else
      var rake := pot * rakeBps / 10_000;
      if rakeCap.Some? then Min(rake, rakeCap.value) else rake
  }

  /** The two rake functions agree for every pot exactly when the cap is not negative or nothing is raked. */
  lemma {:induction false} RakesAgreeIff(
      pot: int, rakeBps: nat, rakeCap: Option<int>, liveHands: nat, endedBeforeFlop: Option<bool>)
    ensures ComputeRakeRust(pot, rakeBps, rakeCap, liveHands, endedBeforeFlop)
              == ComputeRake(pot, rakeBps, rakeCap, liveHands, endedBeforeFlop)
       <==> (rakeCap.Some? && rakeCap.value < 0 ==>
               rakeBps == 0 || pot <= 0 || (if endedBeforeFlop.Some? then endedBeforeFlop.value else liveHands <= 1))
  {
    if rakeBps > 0 && pot > 0 {
      assert pot * rakeBps >= 0;
    }
  }

  // ----- Awards -----

  /** The running state: stacks and winner entries show what was awarded and charged so far. */
  ghost predicate Tracks(
      start: seq<Seat>, seats: seq<Seat>, won: seq<Award>, order: seq<nat>, gross: seq<int>, charges: seq<int>)
  {
    && |seats| == |start| == |gross| == |charges|
    && Below(order, |start|) && NoRepeats(order)
    && seats == Credit(start, gross, charges)
    && won == NetAwards(order, gross, charges)
  }

  /** Seats without an entry were awarded nothing. */
  ghost predicate Recorded(order: seq<nat>, gross: seq<int>)
  {
    forall x :: 0 <= x < |gross| ==> gross[x] == 0 || Covers(order, x)
  }

  /** The first entry of seat `x`, or the number of entries. */
  method FindEntry(won: seq<Award>, x: nat) returns (j: nat)
    ensures j <= |won|
    ensures j < |won| ==> won[j].seat == x
    ensures forall k :: 0 <= k < j ==> won[k].seat != x
  {
    j := 0;
    while j < |won| && won[j].seat != x
      invariant 0 <= j <= |won|
      invariant forall k :: 0 <= k < j ==> won[k].seat != x
    {
      j := j + 1;
    }
  }

  lemma {:induction false} CreditMore(start: seq<Seat>, gross: seq<int>, charges: seq<int>, x: nat, amount: int)
    requires |gross| == |charges| == |start| && x < |start|
    ensures var seats := Credit(start, gross, charges);
            seats[x := seats[x].(stack := seats[x].stack + amount)]
              == Credit(start, gross[x := gross[x] + amount], charges)
  {
  }

  /** Entries after a seat listed at `j` is awarded more. */
  lemma {:induction false} EntryGrows(order: seq<nat>, gross: seq<int>, charges: seq<int>, j: nat, amount: int)
    requires |gross| == |charges| && Below(order, |gross|) && NoRepeats(order) && j < |order|
    ensures var won, x := NetAwards(order, gross, charges), order[j];
            won[j := Award(x, won[j].amount + amount)] == NetAwards(order, gross[x := gross[x] + amount], charges)
  {
  }

  /** Entries after a new seat is awarded. */
  lemma {:induction false} EntryPushed(order: seq<nat>, gross: seq<int>, charges: seq<int>, x: nat, amount: int)
    requires |gross| == |charges| && Below(order, |gross|) && x < |gross| && x !in order && gross[x] == charges[x] == 0
    ensures Below(order + [x], |gross|)
    ensures NetAwards(order, gross, charges) + [Award(x, amount)]
         == NetAwards(order + [x], gross[x := gross[x] + amount], charges)
  {
    assert forall k :: 0 <= k < |order| ==> order[k] != x;
  }

  /** Push an entry, or add to the one there is. */
  method AddEntry(won: seq<Award>, x: nat, amount: int, ghost order: seq<nat>, ghost gross: seq<int>)
    returns (won': seq<Award>)
    requires x < |gross| && Below(order, |gross|) && NoRepeats(order)
    requires won == NetAwards(order, gross, Zeros(|gross|)) && Recorded(order, gross)
    ensures var more := if x in order then order else order + [x];
            && Below(more, |gross|) && NoRepeats(more)
            && won' == NetAwards(more, gross[x := gross[x] + amount], Zeros(|gross|))
  {
    var j := FindEntry(won, x);
    EntryOf(won, order, gross, x, j);
    if j < |won| {
      EntryGrows(order, gross, Zeros(|gross|), j, amount);
      won' := won[j := Award(x, won[j].amount + amount)];
    } else {
      EntryPushed(order, gross, Zeros(|gross|), x, amount);
      won' := won + [Award(x, amount)];
    }
  }

  /** The running state of the award loops, in which nothing has been charged yet. */
  ghost predicate Awarded(start: seq<Seat>, seats: seq<Seat>, won: seq<Award>, order: seq<nat>, gross: seq<int>)
  {
    Tracks(start, seats, won, order, gross, Zeros(|start|)) && Recorded(order, gross)
  }

  lemma {:induction false} AwardedMore(start: seq<Seat>, seats: seq<Seat>, won: seq<Award>, order: seq<nat>,
                                       gross: seq<int>)
    requires |gross| == |start| && Below(order, |start|) && NoRepeats(order) && Recorded(order, gross)
    requires seats == Credit(start, gross, Zeros(|start|)) && won == NetAwards(order, gross, Zeros(|start|))
    ensures Awarded(start, seats, won, order, gross)
  {
  }

  /** Credit a share and record it. */
  method AwardShare(seats: seq<Seat>, won: seq<Award>, x: nat, amount: int,
                    ghost start: seq<Seat>, ghost order: seq<nat>, ghost gross: seq<int>)
    returns (seats': seq<Seat>, won': seq<Award>)
    requires x < |gross| && Awarded(start, seats, won, order, gross)
    ensures Awarded(start, seats', won', if x in order then order else order + [x], gross[x := gross[x] + amount])
  {
    ghost var more, sum := if x in order then order else order + [x], gross[x := gross[x] + amount];
    seats' := CreditSeat(seats, x, amount, start, gross);
    won' := AddEntry(won, x, amount, order, gross);
    StillRecorded(order, gross, x, amount);
    AwardedMore(start, seats', won', more, sum);
  }

  method CreditSeat(seats: seq<Seat>, x: nat, amount: int, ghost start: seq<Seat>, ghost gross: seq<int>)
    returns (seats': seq<Seat>)
    requires |gross| == |start| && x < |start| && seats == Credit(start, gross, Zeros(|start|))
    ensures seats' == Credit(start, gross[x := gross[x] + amount], Zeros(|start|))
  {
    CreditMore(start, gross, Zeros(|start|), x, amount);
    seats' := seats[x := seats[x].(stack := seats[x].stack + amount)];
  }

  lemma {:induction false} EntryOf(won: seq<Award>, order: seq<nat>, gross: seq<int>, x: nat, j: nat)
    requires x < |gross| && Below(order, |gross|) && won == NetAwards(order, gross, Zeros(|gross|))
    requires Recorded(order, gross)
    requires j <= |won| && (j < |won| ==> won[j].seat == x) && forall k :: 0 <= k < j ==> won[k].seat != x
    ensures x in order <==> j < |won|
    ensures x !in order ==> gross[x] == 0
  {
    assert forall k :: 0 <= k < |won| ==> won[k].seat == order[k];
    if x in order {
      var k :| 0 <= k < |order| && order[k] == x;
      assert won[k].seat == x;
    }
  }

  lemma {:induction false} StillRecorded(order: seq<nat>, gross: seq<int>, x: nat, amount: int)
    requires x < |gross| && Recorded(order, gross)
    ensures Recorded(if x in order then order else order + [x], gross[x := gross[x] + amount])
  {
    var more, sum := if x in order then order else order + [x], gross[x := gross[x] + amount];
    forall y | 0 <= y < |sum|
      ensures sum[y] == 0 || Covers(more, y)
    {
      if y == x {
        assert Covers(more, x) by {
          var k :| 0 <= k < |more| && more[k] == x;
        }
      } else if gross[y] != 0 {
        var k :| 0 <= k < |order| && order[k] == y;
        assert more[k] == y;
      }
    }
  }

  /** One winner more: `o` and `g` become `o'` and `g'`. */
  ghost predicate Adds(o: seq<nat>, g: seq<int>, x: nat, amount: int, o': seq<nat>, g': seq<int>)
  {
    x < |g| && o' == (if x in o then o else o + [x]) && g' == g[x := g[x] + amount]
  }

  lemma {:induction false} NextWinner(order: seq<nat>, gross: seq<int>, w: seq<nat>, shares: seq<int>, i: nat)
    requires i < |w| == |shares| && Below(w, |gross|) && NoRepeats(order)
    ensures Adds(AddNew(order, w, i), Pay(gross, w, shares, i), w[i], shares[i],
                 AddNew(order, w, i + 1), Pay(gross, w, shares, i + 1))
  {
  }

  method AwardInto(seats: seq<Seat>, won: seq<Award>, x: nat, portion: int, ghost start: seq<Seat>,
                   ghost o: seq<nat>, ghost g: seq<int>, ghost o': seq<nat>, ghost g': seq<int>)
    returns (seats': seq<Seat>, won': seq<Award>)
    requires Awarded(start, seats, won, o, g) && Adds(o, g, x, portion, o', g')
    ensures Awarded(start, seats', won', o', g')
  {
    seats', won' := AwardShare(seats, won, x, portion, start, o, g);
  }

  /** The odd chips left after `i` winners. */
  ghost predicate OddChips(amount: nat, n: nat, i: nat, share: int, rem: int)
    requires n > 0
  {
    share == amount / n && rem == Max(0, amount % n - i)
  }

  method NextPortion(share: int, rem: int, ghost amount: nat, ghost n: nat, ghost i: nat)
    returns (portion: int, rem': int)
    requires i < n && OddChips(amount, n, i, share, rem)
    ensures portion == SplitShares(amount, n)[i] && OddChips(amount, n, i + 1, share, rem')
  {
    portion := share + if rem > 0 then 1 else 0;
    rem' := if rem > 0 then rem - 1 else rem;
  }

  /** The state after the first `i` winners of a layer. */
  ghost predicate Reached(start: seq<Seat>, seats: seq<Seat>, won: seq<Award>, order: seq<nat>, gross: seq<int>,
                          w: seq<nat>, shares: seq<int>, i: nat)
    requires i <= |w| == |shares| && Below(w, |gross|) && NoRepeats(order)
  {
    Awarded(start, seats, won, AddNew(order, w, i), Pay(gross, w, shares, i))
  }

  method AwardNext(seats: seq<Seat>, won: seq<Award>, w: seq<nat>, portion: int, i: nat, ghost shares: seq<int>,
                   ghost start: seq<Seat>, ghost order: seq<nat>, ghost gross: seq<int>)
    returns (seats': seq<Seat>, won': seq<Award>)
    requires i < |w| == |shares| && Below(w, |gross|) && NoRepeats(order) && portion == shares[i]
    requires Reached(start, seats, won, order, gross, w, shares, i)
    ensures Reached(start, seats', won', order, gross, w, shares, i + 1)
  {
    NextWinner(order, gross, w, shares, i);
    seats', won' := AwardInto(seats, won, w[i], portion, start, AddNew(order, w, i), Pay(gross, w, shares, i),
                              AddNew(order, w, i + 1), Pay(gross, w, shares, i + 1));
  }

  /** A layer's winners in button order: equal shares, the odd chips one each to the first. */
  method AwardWinners(seats: seq<Seat>, won: seq<Award>, w: seq<nat>, amount: nat, ghost shares: seq<int>,
                      ghost start: seq<Seat>, ghost order: seq<nat>, ghost gross: seq<int>)
    returns (seats': seq<Seat>, won': seq<Award>)
    requires |w| > 0 && shares == SplitShares(amount, |w|) && Below(w, |gross|) && NoRepeats(order)
    requires Reached(start, seats, won, order, gross, w, shares, 0)
    ensures Reached(start, seats', won', order, gross, w, shares, |w|)
  {
    seats', won' := seats, won;
    var share := amount / |w|;
    DivisionEquation(amount, |w|);
    var rem := amount - share * |w|;
    assert OddChips(amount, |w|, 0, share, rem);
    for i := 0 to |w|
      invariant OddChips(amount, |w|, i, share, rem)
      invariant Reached(start, seats', won', order, gross, w, shares, i)
    {
      var portion;
      portion, rem := NextPortion(share, rem, amount, |w|, i);
      seats', won' := AwardNext(seats', won', w, portion, i, shares, start, order, gross);
    }
  }

  /** The loop over the layers. */
  method AwardAll(st: State, layers: seq<Layer>) returns (seats: seq<Seat>, won: seq<Award>)
    requires st.button < |st.seats|
    ensures Awarded(st.seats, seats, won, WonBy(st, layers), GrossAwards(st, layers))
  {
    var n, scores := |st.seats|, Scores(st.seats, st.board);
    seats, won := st.seats, [];
    assert st.seats == Credit(st.seats, Zeros(n), Zeros(n));
    for k := 0 to |layers|
      invariant Awarded(st.seats, seats, won, WonOrder(st.seats, scores, st.button, layers, k),
                        Gross(st.seats, scores, st.button, layers, k))
    {
      var winners := Winners(st.seats, scores, layers[k]);
      AwardsUnfold(st.seats, scores, st.button, layers, k);
      NobodyListedIff(st.button, n, winners);
      ByButtonLists(st.button, n, winners);
      if layers[k].amount > 0 && winners != {} {
        var w := ByButton(st.button, n, winners);
        seats, won := AwardWinners(seats, won, w, layers[k].amount, SplitShares(layers[k].amount, |w|), st.seats,
                                   WonOrder(st.seats, scores, st.button, layers, k),
                                   Gross(st.seats, scores, st.button, layers, k));
      }
    }
  }

  // ----- Rake -----

  /** Where awards cover the rake, no share of the first pass is negative. */
  lemma {:induction false} NoLowerClamp(a: seq<int>, rake: int, i: nat)
    requires Awards(a, rake) && i < |a|
    ensures var tabs := FirstPass(a, Floors(a, rake), rake, i);
            var share := if i + 1 == |a| then rake - Sum(tabs) else Floors(a, rake)[i];
            FirstPass(a, Floors(a, rake), rake, i + 1) == tabs + [if share > a[i] then a[i] else share]
  {
    FloorsDoFit(a, rake);
    FrontPass(a, Floors(a, rake), rake, i);
  }

  method RustShares(a: seq<int>, rake: int, totalGross: int) returns (tabs: seq<int>, charged: int)
    requires Awards(a, rake) && totalGross == Sum(a)
    ensures tabs == SharesCharged(a, rake) && charged == Sum(tabs)
  {
    tabs, charged := [], 0;
    for i := 0 to |a|
      invariant tabs == FirstPass(a, Floors(a, rake), rake, i) && charged == Sum(tabs)
    {
      NoLowerClamp(a, rake, i);
      var share := if i + 1 == |a| then rake - charged else (a[i] * rake) / totalGross;
      if share > a[i] {
        share := a[i];
      }
      SumAppend(tabs, [share]);
      tabs := tabs + [share];
      charged := charged + share;
    }
  }

  method RustRemainder(a: seq<int>, first: seq<int>, owed: int) returns (tabs: seq<int>)
    requires |first| == |a| && owed > 0 && forall i :: 0 <= i < |a| ==> first[i] <= a[i]
    ensures tabs == SecondPass(a, first, owed)
  {
    tabs := first;
    var remaining := owed;
    var i := 0;
    while i < |a| && remaining != 0
      invariant 0 <= i <= |a| == |tabs|
      invariant remaining == Owed(a, first, owed, i)
      invariant forall j :: 0 <= j < i ==> tabs[j] == SecondPass(a, first, owed)[j]
      invariant forall j :: i <= j < |a| ==> tabs[j] == first[j]
    {
      var room := a[i] - tabs[i];
      if room != 0 {
        var add := if remaining < room then remaining else room;
        tabs := tabs[i := tabs[i] + add];
        remaining := remaining - add;
      }
      i := i + 1;
    }
    OwedStaysZero(a, first, owed, i);
  }

  lemma {:induction false} OwedStaysZero(a: seq<int>, tabs: seq<int>, owed: int, i: nat)
    requires i <= |a| == |tabs| && owed >= 0 && (i == |a| || Owed(a, tabs, owed, i) == 0)
    ensures forall j :: i <= j < |a| ==> SecondPass(a, tabs, owed)[j] == tabs[j]
    decreases |a| - i
  {
    if i < |a| {
      OwedStaysZero(a, tabs, owed, i + 1);
    }
  }

  method RustTabs(a: seq<int>, rake: int, totalGross: int) returns (tabs: seq<int>)
    requires Awards(a, rake) && totalGross == Sum(a)
    ensures tabs == RakeTabs(a, rake)
  {
    assert |a| > 0;
    BetweenPasses(a, rake);
    var charged;
    tabs, charged := RustShares(a, rake, totalGross);
    var remaining := rake - charged;
    if remaining > 0 {
      tabs := RustRemainder(a, tabs, remaining);
    } else {
      NothingOwed(a, tabs);
    }
  }

  lemma {:induction false} CreditLess(start: seq<Seat>, gross: seq<int>, charges: seq<int>, x: nat, tab: int)
    requires |gross| == |charges| == |start| && x < |start|
    ensures var seats := Credit(start, gross, charges);
            seats[x := seats[x].(stack := seats[x].stack - tab)]
              == Credit(start, gross, charges[x := charges[x] + tab])
  {
  }

  lemma {:induction false} EntryShrinks(order: seq<nat>, gross: seq<int>, charges: seq<int>, j: nat, tab: int)
    requires |gross| == |charges| && Below(order, |gross|) && NoRepeats(order) && j < |order|
    ensures var won, x := NetAwards(order, gross, charges), order[j];
            won[j := Award(x, won[j].amount - tab)] == NetAwards(order, gross, charges[x := charges[x] + tab])
  {
  }

  method ApplyTab(seats: seq<Seat>, won: seq<Award>, x: nat, tab: int,
                  ghost start: seq<Seat>, ghost order: seq<nat>, ghost gross: seq<int>, ghost charges: seq<int>)
    returns (seats': seq<Seat>, won': seq<Award>)
    requires x < |start| && Covers(order, x) && Tracks(start, seats, won, order, gross, charges)
    ensures Tracks(start, seats', won', order, gross, charges[x := charges[x] + tab])
  {
    CreditLess(start, gross, charges, x, tab);
    seats' := seats[x := seats[x].(stack := seats[x].stack - tab)];
    var j := FindEntry(won, x);
    assert forall k :: 0 <= k < |won| ==> won[k].seat == order[k];
    assert j < |won| by {
      var k :| 0 <= k < |order| && order[k] == x;
      assert won[k].seat == x;
    }
    EntryShrinks(order, gross, charges, j, tab);
    won' := won[j := Award(x, won[j].amount - tab)];
  }

  method ApplyTabs(seats: seq<Seat>, won: seq<Award>, who: seq<nat>, tabs: seq<int>,
                   ghost start: seq<Seat>, ghost order: seq<nat>, ghost gross: seq<int>)
    returns (seats': seq<Seat>, won': seq<Award>)
    requires |who| == |tabs| && Below(who, |start|) && Tracks(start, seats, won, order, gross, Zeros(|start|))
    requires forall i :: 0 <= i < |who| ==> Covers(order, who[i])
    ensures Tracks(start, seats', won', order, gross, Pay(Zeros(|start|), who, tabs, |who|))
  {
    seats', won' := seats, won;
    for i := 0 to |who|
      invariant Tracks(start, seats', won', order, gross, Pay(Zeros(|start|), who, tabs, i))
    {
      seats', won' := ApplyTab(seats', won', who[i], tabs[i], start, order, gross, Pay(Zeros(|start|), who, tabs, i));
    }
  }

  /** What the entry of seat `x` holds. */
  function EntryAmount(won: seq<Award>, x: nat): int
  {
    if |won| == 0 then 0 else if won[0].seat == x then won[0].amount else EntryAmount(won[1..], x)
  }

  lemma {:induction false} EntryHolds(won: seq<Award>, j: nat)
    requires j < |won| && forall k :: 0 <= k < j ==> won[k].seat != won[j].seat
    ensures EntryAmount(won, won[j].seat) == won[j].amount
  {
    if j > 0 {
      assert won[1..][j - 1] == won[j];
      assert forall k :: 0 <= k < j - 1 ==> won[1..][k] == won[k + 1];
      EntryHolds(won[1..], j - 1);
    }
  }

  /** The seats with an entry, and what their entries hold, in button order. */
  function EntrySeats(won: seq<Award>): (r: seq<nat>)
    ensures |r| == |won| && forall j :: 0 <= j < |won| ==> r[j] == won[j].seat
  {
    seq(|won|, j requires 0 <= j < |won| => won[j].seat)
  }

  function EntryAmounts(won: seq<Award>, who: seq<nat>): (r: seq<int>)
    ensures |r| == |who| && forall i :: 0 <= i < |who| ==> r[i] == EntryAmount(won, who[i])
  {
    seq(|who|, i requires 0 <= i < |who| => EntryAmount(won, who[i]))
  }

  lemma {:induction false} EntriesAreAwards(won: seq<Award>, order: seq<nat>, gross: seq<int>, who: seq<nat>)
    requires Below(order, |gross|) && NoRepeats(order) && won == NetAwards(order, gross, Zeros(|gross|))
    requires Below(who, |gross|) && forall i :: 0 <= i < |who| ==> Covers(order, who[i])
    ensures EntrySeats(won) == order
    ensures EntryAmounts(won, who) == Read(gross, who)
  {
    forall i | 0 <= i < |who|
      ensures EntryAmount(won, who[i]) == gross[who[i]]
    {
      var j :| 0 <= j < |order| && order[j] == who[i];
      assert forall k :: 0 <= k < |won| ==> won[k].seat == order[k];
      EntryHolds(won, j);
    }
  }

  lemma {:induction false} ChargedAreRecorded(st: State, layers: seq<Layer>)
    requires st.button < |st.seats|
    ensures forall i :: 0 <= i < |ChargedSeats(st, layers)| ==> Covers(WonBy(st, layers), ChargedSeats(st, layers)[i])
  {
    var who, order := ChargedSeats(st, layers), WonBy(st, layers);
    forall i | 0 <= i < |who|
      ensures Covers(order, who[i])
    {
      assert who[i] in Members(order, |st.seats|);
      var j :| 0 <= j < |order| && order[j] == who[i];
    }
  }

  lemma {:induction false} PayNothing(n: nat, who: seq<nat>, tabs: seq<int>, k: nat)
    requires k <= |who| == |tabs| && Below(who, n) && forall i :: 0 <= i < |tabs| ==> tabs[i] == 0
    ensures Pay(Zeros(n), who, tabs, k) == Zeros(n)
  {
    if k > 0 {
      PayNothing(n, who, tabs, k - 1);
    }
  }

  lemma {:induction false} SomeEntry(st: State, layers: seq<Layer>)
    requires Payable(st, layers)
    ensures |WonBy(st, layers)| > 0
  {
    ChargedAwards(st, layers);
    ChargedAreRecorded(st, layers);
    var who := ChargedSeats(st, layers);
    assert |who| > 0;
    var j :| 0 <= j < |WonBy(st, layers)| && WonBy(st, layers)[j] == who[0];
  }

  /** The deduction of the rake, skipped when there is none. */
  method DeductRake(st: State, layers: seq<Layer>, rake: int, seats: seq<Seat>, won: seq<Award>)
    returns (seats': seq<Seat>, won': seq<Award>)
    requires Payable(st, layers) && rake == ShowdownRake(st, layers)
    requires Tracks(st.seats, seats, won, WonBy(st, layers), GrossAwards(st, layers), Zeros(|st.seats|))
    ensures Tracks(st.seats, seats', won', WonBy(st, layers), GrossAwards(st, layers), Charges(st, layers))
  {
    ghost var gross := GrossAwards(st, layers);
    ChargedAreRecorded(st, layers);
    EntriesAreAwards(won, WonBy(st, layers), gross, ChargedSeats(st, layers));
    var who := ByButton(st.button, |st.seats|, Members(EntrySeats(won), |st.seats|));
    var ordered := EntryAmounts(won, who);
    var totalGross := Sum(ordered);
    ChargedAwards(st, layers);
    RakeFits(st, layers);
    SomeEntry(st, layers);
    if rake > 0 && |won| > 0 && totalGross > 0 {
      var tabs := RustTabs(ordered, rake, totalGross);
      seats', won' := ApplyTabs(seats, won, who, tabs, st.seats, WonBy(st, layers), gross);
    } else {
      seats', won' := seats, won;
      PayNothing(|st.seats|, who, RakeTabs(ordered, rake), |who|);
    }
  }

  lemma {:induction false} TracksSettled(st: State, layers: seq<Layer>, rake: int, seats: seq<Seat>, won: seq<Award>)
    requires st.button < |st.seats| && rake == ShowdownRake(st, layers)
    requires Tracks(st.seats, seats, won, WonBy(st, layers), GrossAwards(st, layers), Charges(st, layers))
    ensures st.(seats := seats, pot := 0, rake := rake, sessionRake := st.sessionRake + rake, winners := won,
                street := Street.Settlement, acting := None) == SettleLayers(st, layers)
  {
  }

  ghost predicate CapOk(config: Config)
  {
    config.rakeBps >= 0 && (config.rakeCap.Some? ==> config.rakeCap.value >= 0)
  }

  /** The rake `settle_showdown` takes. */
  function RustRake(st: State, layers: seq<Layer>): int
  {
    ComputeRakeRust(RakedPot(st, layers), st.config.rakeBps, st.config.rakeCap, |Shown(st.seats)|, None)
  }

  lemma {:induction false} RustRakeIsRake(st: State, layers: seq<Layer>)
    requires CapOk(st.config)
    ensures RustRake(st, layers) == ShowdownRake(st, layers)
  {
    RakesAgreeIff(RakedPot(st, layers), st.config.rakeBps, st.config.rakeCap, |Shown(st.seats)|, None);
  }

  /** `settle_showdown`: on a hand whose pots can be paid and with no negative cap, it pays out the layers
      `build_pots` keeps. */
  method SettleShowdown(st: State) returns (r: State)
    requires Payable(st, RustPots(st.seats)) && CapOk(st.config)
    ensures r == SettleLayers(st, RustPots(st.seats))
  {
    var layers := BuildPotsRust(st.seats);
    var rake := RustRake(st, layers);
    RustRakeIsRake(st, layers);
    var seats, won := AwardAll(st, layers);
    seats, won := DeductRake(st, layers, rake, seats, won);
    TracksSettled(st, layers, rake, seats, won);
    r := st.(seats := seats, pot := 0, rake := rake, sessionRake := st.sessionRake + rake, winners := won,
             street := Street.Settlement, acting := None);
  }
}
