/** Rake: packages/game-rules/src/rake.ts, and `allocateRakeByAwards` and `splitPotShares`
    of packages/game-rules/src/holdem.ts. */
module Rake {
  import opened Prelude

  const BPS_DENOMINATOR: int := 10_000

  /** `computeRake`. `endedBeforeFlop` is None where the caller leaves it out. */
  function ComputeRake(eligiblePot: int, rakeBps: int, rakeCap: Option<int>, liveHands: nat,
                       endedBeforeFlop: Option<bool>): (rake: int)
    ensures rake >= 0
  {
    if rakeBps <= 0 || eligiblePot <= 0 then 0
    else if endedBeforeFlop == Some(true) then 0
    else if endedBeforeFlop != Some(false) && liveHands <= 1 then 0
    else
      var rake := (eligiblePot * rakeBps) / BPS_DENOMINATOR;
      var capped := if rakeCap.Some? && rake > rakeCap.value then rakeCap.value else rake;
      if capped < 0 then 0 else capped
  }

  lemma {:induction false} FloorShare(a: int, r: int, t: int)
    requires t > 0
    ensures t * ((a * r) / t) <= a * r < t * ((a * r) / t) + t
  {
    var x := a * r;
    assert x == t * (x / t) + x % t;
  }

  lemma {:induction false} ScaleDown(a: nat, r: nat, t: int)
    requires r <= t && t > 0
    ensures 0 <= (a * r) / t <= a
  {
    FloorShare(a, r, t);
    assert 0 <= a * r <= a * t == t * a;
    QuotientBetween(t, (a * r) / t, a * r, a);
  }

  lemma {:induction false} QuotientBetween(t: int, q: int, x: int, a: int)
    requires t > 0 && t * q <= x < t * q + t && 0 <= x <= t * a
    ensures 0 <= q <= a
  {
    MulOrder(t, a, q);
    MulOrder(t, 0, q + 1);
  }

  /** Rake never exceeds a cap that is not negative. */
  lemma {:induction false} RakeWithinCap(eligiblePot: int, rakeBps: int, cap: nat, liveHands: nat,
                                         endedBeforeFlop: Option<bool>)
    ensures ComputeRake(eligiblePot, rakeBps, Some(cap), liveHands, endedBeforeFlop) <= cap
  {
  }

  /** Rake never exceeds the pot it is taken from. */
  lemma {:induction false} RakeWithinPot(eligiblePot: int, rakeBps: int, rakeCap: Option<int>, liveHands: nat,
                                         endedBeforeFlop: Option<bool>)
    requires eligiblePot >= 0 && rakeBps <= BPS_DENOMINATOR
    ensures ComputeRake(eligiblePot, rakeBps, rakeCap, liveHands, endedBeforeFlop) <= eligiblePot
  {
    if rakeBps > 0 {
      ScaleDown(eligiblePot, rakeBps, BPS_DENOMINATOR);
    }
  }

  /** A raked hand (two hands shown, or ended on the flop or later) pays the exact share rounded down, unless
      the cap is below it; a hand folded out before the flop, or shown by one player, pays nothing. */
  lemma {:induction false} RakeIsRoundedShare(pot: nat, rakeBps: nat, rakeCap: Option<int>, liveHands: nat,
                                              endedBeforeFlop: Option<bool>)
    requires rakeCap.Some? ==> rakeCap.value >= 0
    ensures var rake := ComputeRake(pot, rakeBps, rakeCap, liveHands, endedBeforeFlop);
            if (if endedBeforeFlop.Some? then endedBeforeFlop.value else liveHands <= 1) then rake == 0
            else
              && BPS_DENOMINATOR * rake <= pot * rakeBps
              && (pot * rakeBps < BPS_DENOMINATOR * (rake + 1) || (rakeCap.Some? && rakeCap.value == rake))
  {
    var exact := pot * rakeBps;
    var floor := exact / BPS_DENOMINATOR;
    FloorShare(pot, rakeBps, BPS_DENOMINATOR);
    assert BPS_DENOMINATOR * floor <= exact < BPS_DENOMINATOR * (floor + 1);
    if pot == 0 || rakeBps == 0 {
      assert exact == 0;
    } else {
      MulAtLeast(pot, rakeBps);
    }
  }

  /** The rate's share of an amount, rounded down, or the cap if that is less. */
  function CappedShare(amount: int, rakeBps: int, rakeCap: Option<int>): int
  {
    var share := amount * rakeBps / BPS_DENOMINATOR;
    if rakeCap.Some? && rakeCap.value < share then rakeCap.value else share
  }

  lemma {:induction false} ChipOfRake(pot: nat, bps: nat)
    ensures pot * bps / BPS_DENOMINATOR > 0 <==> pot * bps >= BPS_DENOMINATOR
    ensures pot == 0 || bps == 0 ==> pot * bps == 0
    ensures pot * bps >= 0
  {
  }

  lemma {:induction false} RakeIsCappedShare(pot: nat, rakeBps: nat, rakeCap: Option<int>, liveHands: nat,
                                             endedBeforeFlop: Option<bool>)
    requires rakeCap.Some? ==> rakeCap.value >= 0
    ensures ComputeRake(pot, rakeBps, rakeCap, liveHands, endedBeforeFlop)
         == if (if endedBeforeFlop.Some? then endedBeforeFlop.value else liveHands <= 1) then 0
            else CappedShare(pot, rakeBps, rakeCap)
  {
    ChipOfRake(pot, rakeBps);
  }

  lemma {:induction false} CappedShareIsPositiveIff(amount: nat, rakeBps: nat, rakeCap: Option<int>)
    ensures CappedShare(amount, rakeBps, rakeCap) > 0 <==>
              amount * rakeBps >= BPS_DENOMINATOR && (rakeCap.Some? ==> rakeCap.value > 0)
  {
    ChipOfRake(amount, rakeBps);
  }

  // ----- splitPotShares -----

  function Share(amount: nat, n: nat, i: nat): (s: int)
    requires n > 0
  {
    amount / n + if i < amount % n then 1 else 0
  }

  /** Equal shares, odd chips to the first winners. */
  function SplitShares(amount: nat, n: nat): (r: seq<int>)
    ensures |r| == n
  {
    seq(n, i requires 0 <= i < n => Share(amount, n, i))
  }

  lemma {:induction false} SharesPrefix(amount: nat, n: nat, k: nat)
    requires 0 < n && k <= n
    ensures Sum(SplitShares(amount, n)[..k]) == k * (amount / n) + Min(k, amount % n)
  {
    if k > 0 {
      SharesPrefix(amount, n, k - 1);
      var s := SplitShares(amount, n);
      assert s[..k][..k - 1] == s[..k - 1];
      assert k * (amount / n) == (k - 1) * (amount / n) + amount / n;
    }
  }

  /** Shares add up to the pot exactly, and differ by at most one chip. */
  lemma {:induction false} SharesAreExact(amount: nat, n: nat)
    requires n > 0
    ensures Sum(SplitShares(amount, n)) == amount
    ensures forall i :: 0 <= i < n ==> 0 <= SplitShares(amount, n)[i] <= amount
    ensures forall i, j :: 0 <= i <= j < n ==> 0 <= SplitShares(amount, n)[i] - SplitShares(amount, n)[j] <= 1
  {
    var s := SplitShares(amount, n);
    SharesPrefix(amount, n, n);
    assert s[..n] == s;
    DivisionEquation(amount, n);
    assert n * (amount / n) == (amount / n) * n;
    assert amount / n >= 0;
    SumBounds(s);
  }

  /** The source's loop. */
  method SplitPotShares(amount: nat, winnerCount: nat) returns (out: seq<int>)
    requires winnerCount > 0
    ensures out == SplitShares(amount, winnerCount)
  {
    var share := amount / winnerCount;
    DivisionEquation(amount, winnerCount);
    var remainder := amount - share * winnerCount;
    out := [];
    for i := 0 to winnerCount
      invariant remainder == Max(0, amount % winnerCount - i)
      invariant out == SplitShares(amount, winnerCount)[..i]
    {
      var extra := if remainder > 0 then 1 else 0;
      if remainder > 0 {
        remainder := remainder - 1;
      }
      out := out + [share + extra];
    }
  }

  // ----- allocateRakeByAwards -----

  /** Proportional shares, rounded down. */
  function Floors(a: seq<int>, rake: int): (f: seq<int>)
    requires Sum(a) > 0
    ensures |f| == |a|
  {
    seq(|a|, i requires 0 <= i < |a| => (a[i] * rake) / Sum(a))
  }

  function Clamp(x: int, hi: int): int
  {
    if x > hi then Max(hi, 0) else Max(x, 0)
  }

  /** First pass over awards `a` (in button order): floors `f`, the last seat taking what is left. */
  function FirstPass(a: seq<int>, f: seq<int>, rake: int, k: nat): (tabs: seq<int>)
    requires k <= |a| == |f|
    ensures |tabs| == k
  {
    if k == 0 then []
    else
      var tabs := FirstPass(a, f, rake, k - 1);
      var share := if k == |a| then rake - Sum(tabs) else f[k - 1];
      tabs + [Clamp(share, a[k - 1])]
  }

  /** Room left under seat `i`'s award. */
  function Room(a: seq<int>, tabs: seq<int>, i: nat): int
    requires i < |a| == |tabs|
  {
    Max(0, a[i] - tabs[i])
  }

  /** What is still owed after offering it to the first `k` seats with room. */
  function Owed(a: seq<int>, tabs: seq<int>, remaining: int, k: nat): (r: int)
    requires k <= |a| == |tabs| && remaining >= 0
    ensures 0 <= r <= remaining
  {
    if k == 0 then remaining
    else
      var r := Owed(a, tabs, remaining, k - 1);
      r - Min(r, Room(a, tabs, k - 1))
  }

  /** Second pass: the remainder goes to seats with room, in order. */
  function SecondPass(a: seq<int>, tabs: seq<int>, remaining: int): (r: seq<int>)
    requires |a| == |tabs| && remaining >= 0
    ensures |r| == |a|
  {
    seq(|a|, i requires 0 <= i < |a| => tabs[i] + Owed(a, tabs, remaining, i) - Owed(a, tabs, remaining, i + 1))
  }

  function SharesCharged(a: seq<int>, rake: int): (r: seq<int>)
    requires Sum(a) > 0
    ensures |r| == |a|
  {
    FirstPass(a, Floors(a, rake), rake, |a|)
  }

  function Unassigned(a: seq<int>, rake: int): (r: nat)
    requires Sum(a) > 0
  {
    Max(0, rake - Sum(SharesCharged(a, rake)))
  }

  /** Rake owed by each award, in button order; nothing is owed where the source returns no tabs. */
  function RakeTabs(a: seq<int>, rake: int): (r: seq<int>)
    ensures |r| == |a|
  {
    if rake <= 0 || |a| == 0 || Sum(a) <= 0 then seq(|a|, _ => 0)
    else
      SecondPass(a, SharesCharged(a, rake), Unassigned(a, rake))
  }

  /** The source's two loops. */
  method AllocateRakeByAwards(a: seq<int>, rake: int) returns (tabs: seq<int>)
    ensures tabs == RakeTabs(a, rake)
  {
    if rake <= 0 || |a| == 0 || Sum(a) <= 0 {
      return seq(|a|, _ => 0);
    }
    tabs := ChargeShares(a, rake, Sum(a));
    var remaining := rake - Sum(tabs);
    if remaining > 0 {
      tabs := ChargeRemainder(a, tabs, remaining);
    } else {
      NothingOwed(a, tabs);
    }
  }

  method ChargeShares(a: seq<int>, rake: int, totalGross: int) returns (tabs: seq<int>)
    requires totalGross == Sum(a) > 0
    ensures tabs == SharesCharged(a, rake)
  {
    tabs := [];
    var charged := 0;
    for i := 0 to |a|
      invariant tabs == FirstPass(a, Floors(a, rake), rake, i)
      invariant charged == Sum(tabs)
    {
      var share := if i == |a| - 1 then rake - charged else (a[i] * rake) / totalGross;
      if share > a[i] {
        share := a[i];
      }
      if share < 0 {
        share := 0;
      }
      SumAppend(tabs, [share]);
      tabs := tabs + [share];
      charged := charged + share;
    }
  }

  method ChargeRemainder(a: seq<int>, first: seq<int>, owed: int) returns (tabs: seq<int>)
    requires |first| == |a| && owed > 0
    ensures tabs == SecondPass(a, first, owed)
  {
    tabs := first;
    var remaining := owed;
    for i := 0 to |a|
      invariant |tabs| == |a|
      invariant remaining == Owed(a, first, owed, i)
      invariant forall j :: 0 <= j < i ==> tabs[j] == SecondPass(a, first, owed)[j]
      invariant forall j :: i <= j < |a| ==> tabs[j] == first[j]
    {
      var room := a[i] - tabs[i];
      if remaining > 0 && room > 0 {
        var add := if remaining < room then remaining else room;
        tabs := tabs[i := tabs[i] + add];
        remaining := remaining - add;
      }
    }
  }

  lemma {:induction false} OwedZero(a: seq<int>, tabs: seq<int>, k: nat)
    requires k <= |a| == |tabs|
    ensures Owed(a, tabs, 0, k) == 0
  {
  }

  lemma {:induction false} NothingOwed(a: seq<int>, tabs: seq<int>)
    requires |a| == |tabs|
    ensures SecondPass(a, tabs, 0) == tabs
  {
    forall i | 0 <= i < |a|
      ensures SecondPass(a, tabs, 0)[i] == tabs[i]
    {
      OwedZero(a, tabs, i);
    }
  }

  // ----- Why the tabs are exact -----

  ghost predicate Awards(a: seq<int>, rake: int)
  {
    (forall i :: 0 <= i < |a| ==> a[i] >= 0) && 0 < rake <= Sum(a)
  }

  /** Each floor fits under its award and misses the exact share by less than a chip. */
  ghost predicate NearFloors(a: seq<int>, f: seq<int>, r: int, t: int)
  {
    && |f| == |a|
    && (forall i :: 0 <= i < |a| ==> 0 <= f[i] <= a[i])
    && (forall i :: 0 <= i < |a| ==> t * f[i] <= a[i] * r < t * f[i] + t)
  }

  lemma {:induction false} FloorsAreNear(a: seq<int>, rake: int)
    requires Awards(a, rake)
    ensures NearFloors(a, Floors(a, rake), rake, Sum(a))
  {
    forall i | 0 <= i < |a|
      ensures 0 <= Floors(a, rake)[i] <= a[i]
      ensures Sum(a) * Floors(a, rake)[i] <= a[i] * rake < Sum(a) * Floors(a, rake)[i] + Sum(a)
    {
      FloorIsNear(a, rake, i);
    }
  }

  lemma {:induction false} FloorIsNear(a: seq<int>, rake: int, i: nat)
    requires Awards(a, rake) && i < |a|
    ensures 0 <= Floors(a, rake)[i] <= a[i]
    ensures Sum(a) * Floors(a, rake)[i] <= a[i] * rake < Sum(a) * Floors(a, rake)[i] + Sum(a)
  {
    ScaleDown(a[i], rake, Sum(a));
    FloorShare(a[i], rake, Sum(a));
  }

  /** Sums of lists that are termwise less than `t` apart. */
  lemma {:induction false} SumsNear(lo: seq<int>, hi: seq<int>, t: int)
    requires |lo| == |hi|
    requires forall i :: 0 <= i < |lo| ==> lo[i] <= hi[i] < lo[i] + t
    ensures Sum(lo) <= Sum(hi) <= Sum(lo) + |lo| * t
  {
    if |lo| > 0 {
      var n := |lo| - 1;
      SumsNear(lo[..n], hi[..n], t);
      assert |lo| * t == n * t + t;
    }
  }

  lemma {:induction false} FloorSums(a: seq<int>, f: seq<int>, r: int, t: int, k: nat)
    requires NearFloors(a, f, r, t) && k <= |a|
    ensures t * Sum(f[..k]) <= r * Sum(a[..k]) <= t * Sum(f[..k]) + k * t
  {
    var lo := seq(k, i requires 0 <= i < k => t * f[i]);
    var hi := seq(k, i requires 0 <= i < k => r * a[i]);
    SumScale(f[..k], lo, t);
    SumScale(a[..k], hi, r);
    SumsNear(lo, hi, t);
  }

  /** All but the last seat are charged their floor. */
  lemma {:induction false} FrontPass(a: seq<int>, f: seq<int>, rake: int, k: nat)
    requires |f| == |a| && k < |a|
    requires forall i :: 0 <= i < |a| ==> 0 <= f[i] <= a[i]
    ensures FirstPass(a, f, rake, k) == f[..k]
  {
    if k > 0 {
      FrontPass(a, f, rake, k - 1);
      assert f[..k] == f[..k - 1] + [f[k - 1]];
    }
  }

  /** What the last seat is asked for lies between its exact share and that share plus `k` chips. */
  lemma {:induction false} AskArithmetic(t: int, r: int, s: int, p: int, x: int, k: nat)
    requires 0 < r <= t && t == p + x && x >= 0
    requires t * s <= r * p <= t * s + k * t
    ensures r - s >= 0
    ensures x * r <= t * (r - s) <= x * r + k * t
  {
    assert r * t == r * p + x * r;
    assert t * (r - s) == r * t - t * s;
    assert x * r >= 0;
    MulOrder(t, r - s, 0);
  }

  lemma {:induction false} LastAsk(a: seq<int>, f: seq<int>, rake: int)
    requires Awards(a, rake) && |a| > 0 && NearFloors(a, f, rake, Sum(a))
    ensures var n := |a|; var ask := rake - Sum(f[..n - 1]);
            ask >= 0 && LastInRange(Sum(a), ask, a[n - 1], rake, n - 1)
  {
    var n := |a|;
    FloorSums(a, f, rake, Sum(a), n - 1);
    AskArithmetic(Sum(a), rake, Sum(f[..n - 1]), Sum(a[..n - 1]), a[n - 1], n - 1);
  }

  lemma {:induction false} OwedDrains(a: seq<int>, tabs: seq<int>, remaining: int, k: nat)
    requires k <= |a| == |tabs| && remaining >= 0
    requires forall i :: 0 <= i < |a| ==> tabs[i] <= a[i]
    ensures Owed(a, tabs, remaining, k) == Max(0, remaining - (Sum(a[..k]) - Sum(tabs[..k])))
    ensures Sum(a[..k]) >= Sum(tabs[..k])
  {
    if k > 0 {
      OwedDrains(a, tabs, remaining, k - 1);
      assert a[..k][..k - 1] == a[..k - 1] && tabs[..k][..k - 1] == tabs[..k - 1];
    }
  }

  lemma {:induction false} SecondPassSum(a: seq<int>, tabs: seq<int>, remaining: int, k: nat)
    requires k <= |a| == |tabs| && remaining >= 0
    ensures Sum(SecondPass(a, tabs, remaining)[..k]) == Sum(tabs[..k]) + remaining - Owed(a, tabs, remaining, k)
  {
    if k > 0 {
      SecondPassSum(a, tabs, remaining, k - 1);
      var r := SecondPass(a, tabs, remaining);
      assert r[..k][..k - 1] == r[..k - 1] && tabs[..k][..k - 1] == tabs[..k - 1];
    }
  }

  /** The state between the passes. */
  ghost predicate Between(a: seq<int>, f: seq<int>, tabs: seq<int>, left: int)
  {
    && |f| == |a| == |tabs| > 0
    && 0 <= left <= |a| - 1
    && (forall i :: 0 <= i < |a| ==> 0 <= tabs[i] <= a[i])
    && (forall i :: 0 <= i < |a| - 1 ==> tabs[i] == f[i])
    && (left > 0 ==> tabs[|a| - 1] == a[|a| - 1])
  }

  /** Floors that fit under their awards and leave the last seat a reasonable ask. */
  ghost predicate FloorsFit(a: seq<int>, f: seq<int>, rake: int)
  {
    && |f| == |a| > 0
    && (forall i :: 0 <= i < |a| ==> 0 <= f[i] <= a[i])
    && rake - Sum(f[..|a| - 1]) >= 0
    && LastInRange(Sum(a), rake - Sum(f[..|a| - 1]), a[|a| - 1], rake, |a| - 1)
  }

  lemma {:induction false} FloorsDoFit(a: seq<int>, rake: int)
    requires Awards(a, rake) && |a| > 0
    ensures FloorsFit(a, Floors(a, rake), rake)
  {
    FloorsAreNear(a, rake);
    LastAsk(a, Floors(a, rake), rake);
  }

  lemma {:induction false} AfterFirstPass(a: seq<int>, f: seq<int>, rake: int)
    requires 0 < rake <= Sum(a) && FloorsFit(a, f, rake)
    ensures var tabs := FirstPass(a, f, rake, |a|); Between(a, f, tabs, rake - Sum(tabs))
    ensures LastInRange(Sum(a), FirstPass(a, f, rake, |a|)[|a| - 1], a[|a| - 1], rake, |a| - 1)
  {
    var n := |a|;
    var ask := rake - Sum(f[..n - 1]);
    FrontPass(a, f, rake, n - 1);
    var tab := Clamp(ask, a[n - 1]);
    LastTab(Sum(a), rake, ask, a[n - 1], n - 1);
    FirstPassShape(a, f, rake, tab);
    BetweenShape(a, f, ask, tab);
  }

  lemma {:induction false} BetweenShape(a: seq<int>, f: seq<int>, ask: int, tab: int)
    requires |f| == |a| > 0 && forall i :: 0 <= i < |a| ==> 0 <= f[i] <= a[i]
    requires tab == Clamp(ask, a[|a| - 1]) && 0 <= ask - tab <= |a| - 1
    ensures Between(a, f, f[..|a| - 1] + [tab], ask - tab)
  {
  }

  lemma {:induction false} FirstPassShape(a: seq<int>, f: seq<int>, rake: int, tab: int)
    requires |f| == |a| > 0
    requires FirstPass(a, f, rake, |a| - 1) == f[..|a| - 1]
    requires tab == Clamp(rake - Sum(f[..|a| - 1]), a[|a| - 1])
    ensures FirstPass(a, f, rake, |a|) == f[..|a| - 1] + [tab]
    ensures Sum(FirstPass(a, f, rake, |a|)) == Sum(f[..|a| - 1]) + tab
  {
    SumAppend(f[..|a| - 1], [tab]);
  }

  /** The last seat's tab lies between its exact share and that share plus `k` chips. */
  ghost predicate LastInRange(t: int, tab: int, x: int, r: int, k: int)
  {
    x * r <= t * tab <= x * r + k * t
  }

  lemma {:induction false} LastTab(t: int, r: int, ask: int, x: int, k: nat)
    requires 0 < r <= t && 0 <= x && 0 <= ask
    requires LastInRange(t, ask, x, r, k)
    ensures var tab := Clamp(ask, x);
            && 0 <= tab <= x && 0 <= ask - tab <= k
            && LastInRange(t, tab, x, r, k)
  {
    if ask > x {
      LeftOver(t, r, ask, x, k);
    }
  }

  /** A clamped last seat leaves at most `k` chips. */
  lemma {:induction false} LeftOver(t: int, r: int, ask: int, x: int, k: nat)
    requires 0 < r <= t && 0 <= x < ask
    requires t * ask <= x * r + k * t
    ensures ask - x <= k
    ensures x * r <= t * x <= x * r + k * t
  {
    assert x * r <= x * t == t * x;
    assert t * x <= t * ask;
    assert t * (ask - x) == t * ask - t * x;
    MulOrder(t, k, ask - x);
  }

  lemma {:induction false} TabsBounded(a: seq<int>, tabs: seq<int>, remaining: int, i: nat)
    requires |a| == |tabs| && remaining >= 0 && i < |a| && tabs[i] <= a[i]
    ensures tabs[i] <= SecondPass(a, tabs, remaining)[i] <= Min(a[i], tabs[i] + remaining)
  {
  }

  /** `tab` is less than `n` chips away from the exact proportional share `x * r / t`. */
  ghost predicate NearShare(t: int, tab: int, x: int, r: int, n: int)
  {
    -(n * t) < t * tab - x * r < n * t
  }

  lemma {:induction false} TabNearShare(t: int, x: int, r: int, first: int, tab: int, n: int)
    requires t > 0 && n >= 1 && first <= tab <= first + (n - 1)
    requires t * first <= x * r < t * first + t
    ensures NearShare(t, tab, x, r, n)
  {
    assert t * first <= t * tab <= t * (first + (n - 1)) == t * first + (n - 1) * t;
    assert n * t == (n - 1) * t + t;
    assert (n - 1) * t >= 0;
  }

  lemma {:induction false} LastTabNearShare(t: int, x: int, r: int, tab: int, n: int)
    requires t > 0 && n >= 1 && LastInRange(t, tab, x, r, n - 1)
    ensures NearShare(t, tab, x, r, n)
  {
    assert n * t == (n - 1) * t + t;
    assert (n - 1) * t >= 0;
  }

  lemma {:induction false} BetweenPasses(a: seq<int>, rake: int)
    requires Awards(a, rake) && |a| > 0
    ensures Between(a, Floors(a, rake), SharesCharged(a, rake), Unassigned(a, rake))
    ensures Unassigned(a, rake) == rake - Sum(SharesCharged(a, rake))
    ensures LastInRange(Sum(a), SharesCharged(a, rake)[|a| - 1], a[|a| - 1], rake, |a| - 1)
  {
    FloorsDoFit(a, rake);
    AfterFirstPass(a, Floors(a, rake), rake);
  }

  lemma {:induction false} RakeTabNearShare(a: seq<int>, rake: int, i: nat)
    requires Awards(a, rake) && i < |a|
    ensures 0 <= RakeTabs(a, rake)[i] <= a[i]
    ensures NearShare(Sum(a), RakeTabs(a, rake)[i], a[i], rake, |a|)
  {
    BetweenPasses(a, rake);
    TabsBounded(a, SharesCharged(a, rake), Unassigned(a, rake), i);
    if i < |a| - 1 {
      FrontTabNear(a, rake, i);
    } else {
      LastTabNear(a, rake);
    }
  }

  lemma {:induction false} FrontTabNear(a: seq<int>, rake: int, i: nat)
    requires Awards(a, rake) && i < |a| - 1
    ensures NearShare(Sum(a), RakeTabs(a, rake)[i], a[i], rake, |a|)
  {
    BetweenPasses(a, rake);
    TabsBounded(a, SharesCharged(a, rake), Unassigned(a, rake), i);
    FloorIsNear(a, rake, i);
    TabNearShare(Sum(a), a[i], rake, SharesCharged(a, rake)[i], RakeTabs(a, rake)[i], |a|);
  }

  /** The second pass leaves the last tab alone. */
  lemma {:induction false} LastTabStays(a: seq<int>, f: seq<int>, tabs: seq<int>, left: int)
    requires Between(a, f, tabs, left)
    ensures SecondPass(a, tabs, left)[|a| - 1] == tabs[|a| - 1]
  {
    TabsBounded(a, tabs, left, |a| - 1);
  }

  lemma {:induction false} LastTabNear(a: seq<int>, rake: int)
    requires Awards(a, rake) && |a| > 0
    ensures NearShare(Sum(a), RakeTabs(a, rake)[|a| - 1], a[|a| - 1], rake, |a|)
  {
    BetweenPasses(a, rake);
    LastTabStays(a, Floors(a, rake), SharesCharged(a, rake), Unassigned(a, rake));
    LastTabNearShare(Sum(a), a[|a| - 1], rake, RakeTabs(a, rake)[|a| - 1], |a|);
  }

  lemma {:induction false} RakeTabsSum(a: seq<int>, rake: int)
    requires Awards(a, rake) && |a| > 0
    ensures Sum(RakeTabs(a, rake)) == rake
  {
    var n, tabs, left := |a|, SharesCharged(a, rake), Unassigned(a, rake);
    BetweenPasses(a, rake);
    assert tabs[..n] == tabs && a[..n] == a;
    assert SecondPass(a, tabs, left)[..n] == SecondPass(a, tabs, left);
    SecondPassSum(a, tabs, left, n);
    OwedDrains(a, tabs, left, n);
  }

  /** `allocateRakeByAwards` takes exactly the rake, never more than a seat was awarded, and charges
      every seat within n chips of its proportional share. */
  lemma {:induction false} RakeTabsAreExact(a: seq<int>, rake: int)
    requires Awards(a, rake)
    ensures Sum(RakeTabs(a, rake)) == rake
    ensures forall i :: 0 <= i < |a| ==> 0 <= RakeTabs(a, rake)[i] <= a[i]
    ensures forall i :: 0 <= i < |a| ==> NearShare(Sum(a), RakeTabs(a, rake)[i], a[i], rake, |a|)
  {
    RakeTabsSum(a, rake);
    forall i | 0 <= i < |a|
      ensures 0 <= RakeTabs(a, rake)[i] <= a[i]
      ensures NearShare(Sum(a), RakeTabs(a, rake)[i], a[i], rake, |a|)
    {
      RakeTabNearShare(a, rake, i);
    }
  }

  // ----- Who pays the odd chips -----

  lemma {:induction false} OwedFalls(a: seq<int>, tabs: seq<int>, remaining: int, i: nat, j: nat)
    requires i <= j <= |a| == |tabs| && remaining >= 0
    ensures Owed(a, tabs, remaining, j) <= Owed(a, tabs, remaining, i)
  {
    if i < j {
      OwedFalls(a, tabs, remaining, i, j - 1);
    }
  }

  /** A seat further on is offered something only after every seat before it is full. */
  lemma {:induction false} EarlierSeatsFillFirst(a: seq<int>, tabs: seq<int>, remaining: int, i: nat, j: nat)
    requires i < j < |a| == |tabs| && remaining >= 0 && tabs[i] <= a[i]
    requires SecondPass(a, tabs, remaining)[j] > tabs[j]
    ensures SecondPass(a, tabs, remaining)[i] == a[i]
  {
    OwedFalls(a, tabs, remaining, i + 1, j);
  }

  /** In button order: every seat but the last is charged its share rounded down, and the last one what is then
      missing, as far as its award goes. Only what that leaves is charged to the others, each up to its award before
      the next one pays. */
  lemma {:induction false} OddChipsGoInOrder(a: seq<int>, rake: int)
    requires Awards(a, rake) && |a| > 0
    ensures var n, f, tabs := |a|, Floors(a, rake), RakeTabs(a, rake);
            && tabs[n - 1] == Min(rake - Sum(f[..n - 1]), a[n - 1])
            && (forall i :: 0 <= i < n - 1 ==> tabs[i] >= f[i] && (tabs[i] > f[i] ==> tabs[n - 1] == a[n - 1]))
            && (forall i, j :: 0 <= i < j < n - 1 && tabs[j] > f[j] ==> tabs[i] == a[i])
  {
    var n, f, first, left := |a|, Floors(a, rake), SharesCharged(a, rake), Unassigned(a, rake);
    BetweenPasses(a, rake);
    LastTabStays(a, f, first, left);
    LastIsAsked(a, rake);
    forall i | 0 <= i < n - 1
      ensures RakeTabs(a, rake)[i] >= f[i]
      ensures RakeTabs(a, rake)[i] > f[i] ==> RakeTabs(a, rake)[n - 1] == a[n - 1]
    {
      TabsBounded(a, first, left, i);
    }
    forall i, j | 0 <= i < j < n - 1 && RakeTabs(a, rake)[j] > f[j]
      ensures RakeTabs(a, rake)[i] == a[i]
    {
      EarlierSeatsFillFirst(a, first, left, i, j);
    }
  }

  lemma {:induction false} LastIsAsked(a: seq<int>, rake: int)
    requires Awards(a, rake) && |a| > 0
    ensures SharesCharged(a, rake)[|a| - 1] == Min(rake - Sum(Floors(a, rake)[..|a| - 1]), a[|a| - 1])
  {
    FloorsDoFit(a, rake);
    FrontPass(a, Floors(a, rake), rake, |a| - 1);
  }
}
