/** Paying seats out of pot layers: winners of a layer in button order, split shares,
    gross awards and rake charges (the loops of `settleShowdown`,
    packages/game-rules/src/holdem.ts). */
module Payouts {
  import opened Prelude
  import opened Ring
  import opened Rake
  import opened HandRank
  import opened Pots
  import opened Table

  // ----- Seats of a set, in a given order -----

  /** The members of `who` among the first `k` of `order`, in that order: what sorting a list of
      distinct seats by their place in `order` yields. */
  function InOrder(order: seq<nat>, who: set<nat>, k: nat): (r: seq<nat>)
    requires k <= |order|
    ensures |r| <= k
    ensures forall j :: 0 <= j < |r| ==> r[j] in who
  {
    if k == 0 then []
    else
      var front := InOrder(order, who, k - 1);
      if order[k - 1] in who then front + [order[k - 1]] else front
  }

  ghost predicate NoRepeats(s: seq<nat>)
  {
    forall i, j :: 0 <= i < j < |s| ==> s[i] != s[j]
  }

  ghost predicate Below(s: seq<nat>, n: nat)
  {
    forall i :: 0 <= i < |s| ==> s[i] < n
  }

  ghost predicate Covers(s: seq<nat>, x: nat)
  {
    exists i :: 0 <= i < |s| && s[i] == x
  }

  lemma {:induction false} InOrderFrom(order: seq<nat>, who: set<nat>, k: nat, j: nat)
    requires k <= |order| && j < |InOrder(order, who, k)|
    ensures exists p :: 0 <= p < k && order[p] == InOrder(order, who, k)[j]
  {
    var front := InOrder(order, who, k - 1);
    if j < |front| {
      InOrderFrom(order, who, k - 1, j);
    } else {
      assert order[k - 1] == InOrder(order, who, k)[j];
    }
  }

  lemma {:induction false} InOrderDistinct(order: seq<nat>, who: set<nat>, k: nat)
    requires k <= |order| && NoRepeats(order)
    ensures NoRepeats(InOrder(order, who, k))
  {
    if k > 0 {
      InOrderDistinct(order, who, k - 1);
      var front := InOrder(order, who, k - 1);
      forall j | 0 <= j < |front|
        ensures front[j] != order[k - 1]
      {
        InOrderFrom(order, who, k - 1, j);
      }
    }
  }

  lemma {:induction false} InOrderCovers(order: seq<nat>, who: set<nat>, k: nat, p: nat)
    requires p < k <= |order| && order[p] in who
    ensures Covers(InOrder(order, who, k), order[p])
  {
    var front := InOrder(order, who, k - 1);
    var r := InOrder(order, who, k);
    if p == k - 1 {
      assert r[|front|] == order[p];
    } else {
      InOrderCovers(order, who, k - 1, p);
      var i :| 0 <= i < |front| && front[i] == order[p];
      assert r[i] == order[p];
    }
  }

  /** Seats of `who` in button order. */
  function ByButton(button: nat, n: nat, who: set<nat>): (r: seq<nat>)
    requires n > 0
    ensures forall j :: 0 <= j < |r| ==> r[j] in who
  {
    InOrder(SeatsAfterButton(button, n), who, n)
  }

  lemma {:induction false} ByButtonLists(button: nat, n: nat, who: set<nat>)
    requires button < n
    requires forall i :: i in who ==> i < n
    ensures var r := ByButton(button, n, who);
            NoRepeats(r) && Below(r, n) && (forall x :: x in who ==> Covers(r, x))
  {
    var order := SeatsAfterButton(button, n);
    ButtonOrderIsPermutation(button, n);
    InOrderDistinct(order, who, n);
    forall x | x in who
      ensures Covers(ByButton(button, n, who), x)
    {
      assert x in order;
      var p :| 0 <= p < n && order[p] == x;
      InOrderCovers(order, who, n, p);
    }
  }

  /** The members of `who` met before place `p`. */
  ghost function MetBefore(order: seq<nat>, who: set<nat>, p: nat): set<nat>
    requires p <= |order|
  {
    set q: nat | q < p && order[q] in who :: order[q]
  }

  lemma {:induction false} InOrderCounts(order: seq<nat>, who: set<nat>, p: nat)
    requires p <= |order| && NoRepeats(order)
    ensures |InOrder(order, who, p)| == |MetBefore(order, who, p)|
  {
    if p > 0 {
      InOrderCounts(order, who, p - 1);
      var before := MetBefore(order, who, p - 1);
      assert order[p - 1] !in before;
      assert MetBefore(order, who, p) == if order[p - 1] in who then before + {order[p - 1]} else before;
    } else {
      assert MetBefore(order, who, 0) == {};
    }
  }

  /** A member comes right after all the members met before it. */
  lemma {:induction false} InOrderAt(order: seq<nat>, who: set<nat>, k: nat, p: nat)
    requires p < k <= |order| && order[p] in who
    ensures |InOrder(order, who, p)| < |InOrder(order, who, k)|
    ensures InOrder(order, who, k)[|InOrder(order, who, p)|] == order[p]
  {
    if p < k - 1 {
      InOrderAt(order, who, k - 1, p);
    }
  }

  /** The members nearer clockwise of the button than seat `i`. */
  ghost function Ahead(button: nat, n: nat, who: set<nat>, i: nat): set<nat>
  {
    set x | x in who && Clockwise(n, button, x) < Clockwise(n, button, i)
  }

  /** Button order is clockwise order: a seat's place is the number of members ahead of it. */
  lemma {:induction false} ByButtonAt(button: nat, n: nat, who: set<nat>, i: nat)
    requires button < n && i in who && forall x :: x in who ==> x < n
    ensures var r := ByButton(button, n, who);
            |Ahead(button, n, who, i)| < |r| && r[|Ahead(button, n, who, i)|] == i
  {
    var order := SeatsAfterButton(button, n);
    ButtonOrderIsPermutation(button, n);
    assert i in order;
    var p :| 0 <= p < n && order[p] == i;
    InOrderAt(order, who, n, p);
    InOrderCounts(order, who, p);
    MetIsAhead(button, n, who, p);
  }

  lemma {:induction false} MetIsAhead(button: nat, n: nat, who: set<nat>, p: nat)
    requires button < n && p < n && forall x :: x in who ==> x < n
    ensures var order := SeatsAfterButton(button, n);
            MetBefore(order, who, p) == Ahead(button, n, who, order[p])
  {
    var order := SeatsAfterButton(button, n);
    ButtonOrderIsPermutation(button, n);
    ButtonOrderIsClockwise(button, n, p);
    forall x | x in MetBefore(order, who, p)
      ensures x in Ahead(button, n, who, order[p])
    {
      var q: nat :| q < p && order[q] == x;
      ButtonOrderIsClockwise(button, n, q);
    }
    forall x | x in Ahead(button, n, who, order[p])
      ensures x in MetBefore(order, who, p)
    {
      assert x in order;
      var q: nat :| q < n && order[q] == x;
      ButtonOrderIsClockwise(button, n, q);
    }
  }

  lemma {:induction false} ByButtonSize(button: nat, n: nat, who: set<nat>)
    requires button < n && forall x :: x in who ==> x < n
    ensures |ByButton(button, n, who)| == |who|
  {
    var order := SeatsAfterButton(button, n);
    ButtonOrderIsPermutation(button, n);
    InOrderCounts(order, who, n);
    forall x | x in who
      ensures x in MetBefore(order, who, n)
    {
      assert x in order;
    }
    assert MetBefore(order, who, n) == who;
  }

  // ----- Adding amounts to seats -----

  function Zeros(n: nat): (r: seq<int>)
    ensures |r| == n
    ensures forall i :: 0 <= i < n ==> r[i] == 0
  {
    seq(n, _ => 0)
  }

  /** `base` after adding `amounts[j]` to seat `seats[j]`, for `j < k`. */
  function Pay(base: seq<int>, seats: seq<nat>, amounts: seq<int>, k: nat): (r: seq<int>)
    requires k <= |seats| == |amounts| && Below(seats, |base|)
    ensures |r| == |base|
  {
    if k == 0 then base
    else
      var r := Pay(base, seats, amounts, k - 1);
      r[seats[k - 1] := r[seats[k - 1]] + amounts[k - 1]]
  }

  lemma {:induction false} PaySum(base: seq<int>, seats: seq<nat>, amounts: seq<int>, k: nat)
    requires k <= |seats| == |amounts| && Below(seats, |base|)
    ensures Sum(Pay(base, seats, amounts, k)) == Sum(base) + Sum(amounts[..k])
  {
    if k > 0 {
      PaySum(base, seats, amounts, k - 1);
      var r := Pay(base, seats, amounts, k - 1);
      SumUpdate(r, seats[k - 1], r[seats[k - 1]] + amounts[k - 1]);
      assert amounts[..k][..k - 1] == amounts[..k - 1];
    }
  }

  lemma {:induction false} PayMisses(base: seq<int>, seats: seq<nat>, amounts: seq<int>, k: nat, i: nat)
    requires k <= |seats| == |amounts| && Below(seats, |base|) && i < |base|
    requires forall j :: 0 <= j < k ==> seats[j] != i
    ensures Pay(base, seats, amounts, k)[i] == base[i]
  {
    if k > 0 {
      PayMisses(base, seats, amounts, k - 1, i);
    }
  }

  lemma {:induction false} PayHits(base: seq<int>, seats: seq<nat>, amounts: seq<int>, k: nat, j: nat)
    requires j < k <= |seats| == |amounts| && Below(seats, |base|) && NoRepeats(seats)
    ensures Pay(base, seats, amounts, k)[seats[j]] == base[seats[j]] + amounts[j]
  {
    if j == k - 1 {
      PayMisses(base, seats, amounts, k - 1, seats[j]);
    } else {
      PayHits(base, seats, amounts, k - 1, j);
    }
  }

  /** Reading seats off and paying them back restores the amounts. */
  lemma {:induction false} PayBack(amounts: seq<int>, seats: seq<nat>)
    requires NoRepeats(seats) && Below(seats, |amounts|)
    requires forall i :: 0 <= i < |amounts| ==> Covers(seats, i) || amounts[i] == 0
    ensures Pay(Zeros(|amounts|), seats, Read(amounts, seats), |seats|) == amounts
    ensures Sum(Read(amounts, seats)) == Sum(amounts)
  {
    var n, m, a := |amounts|, |seats|, Read(amounts, seats);
    var paid := Pay(Zeros(n), seats, a, m);
    forall i | 0 <= i < n
      ensures paid[i] == amounts[i]
    {
      if Covers(seats, i) {
        var j :| 0 <= j < m && seats[j] == i;
        PayHits(Zeros(n), seats, a, m, j);
      } else {
        PayMisses(Zeros(n), seats, a, m, i);
      }
    }
    assert paid == amounts;
    PaySum(Zeros(n), seats, a, m);
    SumZero(Zeros(n));
    assert a[..m] == a;
  }

  function Read(amounts: seq<int>, seats: seq<nat>): (r: seq<int>)
    requires Below(seats, |amounts|)
    ensures |r| == |seats|
    ensures forall j :: 0 <= j < |seats| ==> r[j] == amounts[seats[j]]
  {
    seq(|seats|, j requires 0 <= j < |seats| => amounts[seats[j]])
  }

  // ----- Who wins a layer -----

  predicate Unbeaten(scores: seq<seq<int>>, who: set<nat>, i: nat)
    requires i < |scores| && forall j :: j in who ==> j < |scores|
  {
    forall j :: j in who ==> Compare(scores[i], scores[j]) >= 0
  }

  /** Contenders whose score nobody beats. */
  function TopSeats(scores: seq<seq<int>>, who: set<nat>): (r: set<nat>)
    requires forall j :: j in who ==> j < |scores|
    ensures r <= who
  {
    set i | i in who && Unbeaten(scores, who, i)
  }

  lemma {:induction false} SomebodyWins(scores: seq<seq<int>>, who: set<nat>)
    requires forall j :: j in who ==> j < |scores|
    requires who != {}
    ensures TopSeats(scores, who) != {}
    decreases |who|
  {
    var x :| x in who;
    var rest := who - {x};
    CompareIsTotalPreorder(scores[x], scores[x], scores[x]);
    if rest == {} {
      assert who == {x};
      assert Unbeaten(scores, who, x);
      assert x in TopSeats(scores, who);
    } else {
      SomebodyWins(scores, rest);
      var t :| t in TopSeats(scores, rest);
      var w := if Compare(scores[t], scores[x]) >= 0 then t else x;
      CompareIsTotalPreorder(scores[x], scores[t], scores[t]);
      forall j | j in who
        ensures Compare(scores[w], scores[j]) >= 0
      {
        if j != x {
          CompareIsTotalPreorder(scores[w], scores[t], scores[j]);
        }
      }
      assert Unbeaten(scores, who, w);
      assert w in TopSeats(scores, who);
    }
  }

  // ----- Paying a layer -----

  /** Contenders of a layer: eligible seats holding cards. */
  function Contenders(seats: seq<Seat>, layer: Layer): (r: set<nat>)
    ensures forall i :: i in r ==> i < |seats| && i in layer.eligible
  {
    set i | i in layer.eligible && i < |seats| && seats[i].hole.Some?
  }

  function Winners(seats: seq<Seat>, scores: seq<seq<int>>, layer: Layer): (r: set<nat>)
    requires |scores| == |seats|
    ensures forall i :: i in r ==> i < |seats| && i in layer.eligible
  {
    TopSeats(scores, Contenders(seats, layer))
  }

  /** Awards after paying one more layer; `gross` holds the awards so far. */
  function PayLayer(gross: seq<int>, button: nat, winners: set<nat>, amount: int): (r: seq<int>)
    requires button < |gross|
    requires forall i :: i in winners ==> i < |gross|
    ensures |r| == |gross|
  {
    if amount <= 0 || winners == {} then gross
    else
      var w := ByButton(button, |gross|, winners);
      ByButtonLists(button, |gross|, winners);
      Pay(gross, w, SplitShares(amount, |w|), |w|)
  }

  lemma {:induction false} PayLayerSum(gross: seq<int>, button: nat, winners: set<nat>, amount: int)
    requires button < |gross| && winners != {} && amount > 0
    requires forall i :: i in winners ==> i < |gross|
    ensures Sum(PayLayer(gross, button, winners, amount)) == Sum(gross) + amount
  {
    var w := ByButton(button, |gross|, winners);
    ByButtonLists(button, |gross|, winners);
    assert |w| > 0 by {
      var x :| x in winners;
      assert Covers(w, x);
    }
    PaySharesSum(gross, w, amount);
  }

  lemma {:induction false} PaySharesSum(gross: seq<int>, w: seq<nat>, amount: nat)
    requires |w| > 0 && Below(w, |gross|)
    ensures Sum(Pay(gross, w, SplitShares(amount, |w|), |w|)) == Sum(gross) + amount
  {
    var shares := SplitShares(amount, |w|);
    SharesAreExact(amount, |w|);
    PaySum(gross, w, shares, |w|);
    assert shares[..|w|] == shares;
  }

  /** A layer pays only its winners, never more than it holds, and a sole winner all of it. */
  lemma {:induction false} PayLayerAt(gross: seq<int>, button: nat, winners: set<nat>, amount: int, i: nat)
    requires button < |gross| && i < |gross|
    requires forall i :: i in winners ==> i < |gross|
    ensures var r := PayLayer(gross, button, winners, amount);
            && gross[i] <= r[i] <= gross[i] + Max(0, amount)
            && (i !in winners ==> r[i] == gross[i])
            && (winners == {i} ==> r[i] == gross[i] + Max(0, amount))
  {
    if amount > 0 && winners != {} {
      var w := ByButton(button, |gross|, winners);
      ByButtonLists(button, |gross|, winners);
      if i in winners {
        assert Covers(w, i);
        var j :| 0 <= j < |w| && w[j] == i;
        SharesAreExact(amount, |w|);
        PayHits(gross, w, SplitShares(amount, |w|), |w|, j);
        if winners == {i} {
          SoleWinner(w, i, amount);
        }
      } else {
        PayMisses(gross, w, SplitShares(amount, |w|), |w|, i);
      }
    }
  }

  /** What a winner of a layer is paid: an equal share, odd chips going to the winners nearest clockwise of the
      button. */
  lemma {:induction false} PayLayerShare(gross: seq<int>, button: nat, winners: set<nat>, amount: nat, i: nat)
    requires button < |gross| && i in winners && amount > 0
    requires forall x :: x in winners ==> x < |gross|
    ensures |winners| > 0
    ensures PayLayer(gross, button, winners, amount)[i] - gross[i]
         == amount / |winners| + if |Ahead(button, |gross|, winners, i)| < amount % |winners| then 1 else 0
  {
    var w, j := ByButton(button, |gross|, winners), |Ahead(button, |gross|, winners, i)|;
    ByButtonLists(button, |gross|, winners);
    ByButtonAt(button, |gross|, winners, i);
    ByButtonSize(button, |gross|, winners);
    PayHits(gross, w, SplitShares(amount, |w|), |w|, j);
  }

  lemma {:induction false} SoleWinner(w: seq<nat>, i: nat, amount: nat)
    requires |w| > 0 && NoRepeats(w) && forall j :: 0 <= j < |w| ==> w[j] in {i}
    ensures |w| == 1 && SplitShares(amount, |w|) == [amount]
  {
    assert w[0] == i == w[|w| - 1];
    SharesAreExact(amount, 1);
    assert SplitShares(amount, 1)[..0] == [];
  }

  /** Awards after the first `k` layers. */
  function Gross(seats: seq<Seat>, scores: seq<seq<int>>, button: nat, layers: seq<Layer>, k: nat): (r: seq<int>)
    requires button < |seats| == |scores| && k <= |layers|
    ensures |r| == |seats|
  {
    if k == 0 then Zeros(|seats|)
    else
      PayLayer(Gross(seats, scores, button, layers, k - 1), button,
               Winners(seats, scores, layers[k - 1]), layers[k - 1].amount)
  }

  lemma {:induction false} GrossSum(seats: seq<Seat>, scores: seq<seq<int>>, button: nat, layers: seq<Layer>, k: nat)
    requires button < |seats| == |scores| && k <= |layers|
    requires forall j :: 0 <= j < k ==> layers[j].amount > 0 && Contenders(seats, layers[j]) != {}
    ensures Sum(Gross(seats, scores, button, layers, k)) == Sum(Amounts(layers)[..k])
  {
    if k == 0 {
      SumZero(Zeros(|seats|));
    } else {
      GrossSum(seats, scores, button, layers, k - 1);
      SomebodyWins(scores, Contenders(seats, layers[k - 1]));
      PayLayerSum(Gross(seats, scores, button, layers, k - 1), button,
                  Winners(seats, scores, layers[k - 1]), layers[k - 1].amount);
      var a := Amounts(layers);
      assert a[..k][..k - 1] == a[..k - 1];
    }
  }

  /** Seats that won a layer among the first `k`, in the order they first did. */
  function WonOrder(seats: seq<Seat>, scores: seq<seq<int>>, button: nat, layers: seq<Layer>, k: nat): (r: seq<nat>)
    requires button < |seats| == |scores| && k <= |layers|
    ensures Below(r, |seats|) && NoRepeats(r)
  {
    if k == 0 then []
    else
      var before := WonOrder(seats, scores, button, layers, k - 1);
      var winners := Winners(seats, scores, layers[k - 1]);
      if layers[k - 1].amount <= 0 then before
      else
        ByButtonLists(button, |seats|, winners);
        AddNew(before, ByButton(button, |seats|, winners), |ByButton(button, |seats|, winners)|)
  }

  function AddNew(before: seq<nat>, more: seq<nat>, k: nat): (r: seq<nat>)
    requires k <= |more| && NoRepeats(before)
    ensures NoRepeats(r)
    ensures forall n :: Below(before, n) && Below(more, n) ==> Below(r, n)
    ensures forall x :: x in before ==> x in r
    ensures forall j :: 0 <= j < k ==> more[j] in r
  {
    if k == 0 then before
    else
      var r := AddNew(before, more, k - 1);
      if more[k - 1] in r then r else r + [more[k - 1]]
  }

  /** Only recorded winners hold an award. */
  lemma {:induction false} UnrecordedSeatsGetNothing(
      seats: seq<Seat>, scores: seq<seq<int>>, button: nat, layers: seq<Layer>, k: nat, i: nat)
    requires button < |seats| == |scores| && k <= |layers| && i < |seats|
    requires i !in WonOrder(seats, scores, button, layers, k)
    ensures Gross(seats, scores, button, layers, k)[i] == 0
  {
    if k > 0 {
      var winners := Winners(seats, scores, layers[k - 1]);
      var w := ByButton(button, |seats|, winners);
      UnrecordedSeatsGetNothing(seats, scores, button, layers, k - 1, i);
      PayLayerAt(Gross(seats, scores, button, layers, k - 1), button, winners, layers[k - 1].amount, i);
      ByButtonLists(button, |seats|, winners);
      assert i in winners ==> Covers(w, i);
    }
  }

  lemma {:induction false} GrossNonNegative(seats: seq<Seat>, scores: seq<seq<int>>, button: nat, layers: seq<Layer>,
                                            k: nat, i: nat)
    requires button < |seats| == |scores| && k <= |layers| && i < |seats|
    ensures Gross(seats, scores, button, layers, k)[i] >= 0
  {
    if k > 0 {
      GrossNonNegative(seats, scores, button, layers, k - 1, i);
      PayLayerAt(Gross(seats, scores, button, layers, k - 1), button,
                 Winners(seats, scores, layers[k - 1]), layers[k - 1].amount, i);
    }
  }

  /** A seat that contests only the first `c` layers wins at most what they hold ... */
  lemma {:induction false} GrossWithin(
      seats: seq<Seat>, scores: seq<seq<int>>, button: nat, layers: seq<Layer>, k: nat, i: nat, c: nat)
    requires button < |seats| == |scores| && k <= |layers| && i < |seats| && c <= |layers|
    requires forall j :: 0 <= j < |layers| ==> layers[j].amount > 0
    requires forall j :: c <= j < |layers| ==> i !in layers[j].eligible
    ensures 0 <= Gross(seats, scores, button, layers, k)[i] <= Sum(Amounts(layers)[..Min(k, c)])
  {
    if k > 0 {
      GrossWithin(seats, scores, button, layers, k - 1, i, c);
      PayLayerAt(Gross(seats, scores, button, layers, k - 1), button,
                 Winners(seats, scores, layers[k - 1]), layers[k - 1].amount, i);
      PrefixStep(layers, k, c);
    }
  }

  /** ... and exactly that if it wins each of them alone. */
  lemma {:induction false} GrossAlone(
      seats: seq<Seat>, scores: seq<seq<int>>, button: nat, layers: seq<Layer>, k: nat, i: nat, c: nat)
    requires button < |seats| == |scores| && k <= |layers| && i < |seats| && c <= |layers|
    requires forall j :: 0 <= j < |layers| ==> layers[j].amount > 0
    requires forall j :: c <= j < |layers| ==> i !in layers[j].eligible
    requires forall j :: 0 <= j < c ==> Winners(seats, scores, layers[j]) == {i}
    ensures Gross(seats, scores, button, layers, k)[i] == Sum(Amounts(layers)[..Min(k, c)])
  {
    if k > 0 {
      GrossAlone(seats, scores, button, layers, k - 1, i, c);
      PayLayerAt(Gross(seats, scores, button, layers, k - 1), button,
                 Winners(seats, scores, layers[k - 1]), layers[k - 1].amount, i);
      PrefixStep(layers, k, c);
    }
  }

  lemma {:induction false} PrefixStep(layers: seq<Layer>, k: nat, c: nat)
    requires 0 < k <= |layers| && c <= |layers|
    ensures Sum(Amounts(layers)[..Min(k, c)])
         == Sum(Amounts(layers)[..Min(k - 1, c)]) + if k <= c then layers[k - 1].amount else 0
  {
    var a := Amounts(layers);
    if k <= c {
      assert a[..k][..k - 1] == a[..k - 1];
    }
  }
}
