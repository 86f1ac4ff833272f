/** Main and side pots: `buildPots` of packages/game-rules/src/holdem.ts, `build_pots` of
    crates/poker-core/src/pots.rs, and a chip-by-chip reading both are held to. */
module Pots {
  import opened Prelude
  import opened Table

  datatype Layer = Layer(amount: int, contributors: set<nat>, eligible: set<nat>)

  ghost predicate StrictlySorted(s: seq<int>)
  {
    forall i, j :: 0 <= i < j < |s| ==> s[i] < s[j]
  }

  // ----- Levels: the distinct positive totals, ascending -----

  function Insert(s: seq<int>, x: int): (r: seq<int>)
    requires StrictlySorted(s)
    ensures StrictlySorted(r)
    ensures forall y :: y in r <==> y in s || y == x
  {
    if |s| == 0 then [x]
    else if x < s[0] then [x] + s
    else if x == s[0] then s
    else
      var rest := Insert(s[1..], x);
      InsertsAbove(s, x, rest);
      [s[0]] + rest
  }

  lemma {:induction false} InsertsAbove(s: seq<int>, x: int, rest: seq<int>)
    requires StrictlySorted(s) && |s| > 0 && s[0] < x
    requires StrictlySorted(rest) && forall y :: y in rest <==> y in s[1..] || y == x
    ensures StrictlySorted([s[0]] + rest)
    ensures forall y :: y in [s[0]] + rest <==> y in s || y == x
  {
    forall j | 0 <= j < |rest|
      ensures s[0] < rest[j]
    {
      assert rest[j] in rest;
      if rest[j] != x {
        var i :| 0 <= i < |s| - 1 && s[1..][i] == rest[j];
        assert s[i + 1] == rest[j];
      }
    }
    assert s == [s[0]] + s[1..];
  }

  function Levels(seats: seq<Seat>): (r: seq<int>)
    ensures StrictlySorted(r)
  {
    if |seats| == 0 then []
    else
      var n := |seats| - 1;
      var rest := Levels(seats[..n]);
      if seats[n].totalBet > 0 then Insert(rest, seats[n].totalBet) else rest
  }

  /** Every level is some seat's total ... */
  lemma {:induction false} LevelHolds(seats: seq<Seat>, k: nat) returns (i: nat)
    requires k < |Levels(seats)|
    ensures i < |seats| && seats[i].totalBet == Levels(seats)[k] > 0
  {
    var n := |seats| - 1;
    var rest, level := Levels(seats[..n]), Levels(seats)[k];
    if seats[n].totalBet > 0 && level == seats[n].totalBet {
      i := n;
    } else {
      assert level in rest;
      var j :| 0 <= j < |rest| && rest[j] == level;
      i := LevelHolds(seats[..n], j);
    }
  }

  /** ... and every positive total is a level. */
  lemma {:induction false} TotalIsLevel(seats: seq<Seat>, i: nat) returns (k: nat)
    requires i < |seats| && seats[i].totalBet > 0
    ensures k < |Levels(seats)| && Levels(seats)[k] == seats[i].totalBet
  {
    var n := |seats| - 1;
    if i < n {
      var j := TotalIsLevel(seats[..n], i);
      assert Levels(seats[..n])[j] in Levels(seats);
    } else {
      assert seats[i].totalBet in Levels(seats);
    }
    k :| 0 <= k < |Levels(seats)| && Levels(seats)[k] == seats[i].totalBet;
  }

  /** Seats that put in at least `level` chips (`level` is positive in every use). */
  function Contributors(seats: seq<Seat>, level: int): set<nat>
  {
    set i: nat | i < |seats| && seats[i].totalBet >= level
  }

  function Eligible(seats: seq<Seat>, level: int): set<nat>
  {
    set i: nat | i < |seats| && seats[i].totalBet >= level && !seats[i].folded
  }

  function Floor(levels: seq<int>, k: nat): int
    requires k <= |levels|
  {
    if k == 0 then 0 else levels[k - 1]
  }

  /** Chips between level `k - 1` and level `k`. */
  function LayerAmount(seats: seq<Seat>, levels: seq<int>, k: nat): int
    requires k < |levels|
  {
    (levels[k] - Floor(levels, k)) * |Contributors(seats, levels[k])|
  }

  /** Chips in layers `from`, `from + 1`, ... */
  function AmountsFrom(seats: seq<Seat>, levels: seq<int>, from: nat): int
    requires from <= |levels|
    decreases |levels| - from
  {
    if from == |levels| then 0 else LayerAmount(seats, levels, from) + AmountsFrom(seats, levels, from + 1)
  }

  /** How many leading levels still have somebody to win them. */
  function ContestedFrom(seats: seq<Seat>, levels: seq<int>, k: nat): (d: nat)
    requires k <= |levels|
    ensures k <= d <= |levels|
    decreases |levels| - k
  {
    if k == |levels| || Eligible(seats, levels[k]) == {} then k
    else ContestedFrom(seats, levels, k + 1)
  }

  function Contested(seats: seq<Seat>): (d: nat)
    ensures d <= |Levels(seats)|
  {
    ContestedFrom(seats, Levels(seats), 0)
  }

  /** Uncontested levels sit on top of the contested ones, never among them. */
  lemma {:induction false} OrphansAreATopSuffix(seats: seq<Seat>, k: nat)
    requires k < |Levels(seats)|
    ensures Eligible(seats, Levels(seats)[k]) != {} <==> k < Contested(seats)
  {
    ContestedSplits(seats, Levels(seats), 0, k);
  }

  lemma {:induction false} ContestedSplits(seats: seq<Seat>, levels: seq<int>, j: nat, k: nat)
    requires StrictlySorted(levels)
    requires j <= k < |levels|
    ensures Eligible(seats, levels[k]) != {} <==> k < ContestedFrom(seats, levels, j)
    decreases k - j
  {
    if Eligible(seats, levels[j]) == {} {
      assert Eligible(seats, levels[k]) <= Eligible(seats, levels[j]);
    } else if j < k {
      ContestedSplits(seats, levels, j + 1, k);
    }
  }

  // ----- The two implementations, in closed form -----

  function RustLayer(seats: seq<Seat>, levels: seq<int>, k: nat): Layer
    requires k < |levels|
  {
    Layer(LayerAmount(seats, levels, k), Contributors(seats, levels[k]), Eligible(seats, levels[k]))
  }

  /** `build_pots`: uncontested levels are dropped. */
  function RustPots(seats: seq<Seat>): (r: seq<Layer>)
    ensures |r| == Contested(seats)
  {
    seq(Contested(seats), k requires 0 <= k < Contested(seats) => RustLayer(seats, Levels(seats), k))
  }

  function TsLayer(seats: seq<Seat>, levels: seq<int>, d: nat, k: nat): Layer
    requires k < d <= |levels|
  {
    var layer := RustLayer(seats, levels, k);
    if k == d - 1 then layer.(amount := layer.amount + AmountsFrom(seats, levels, d)) else layer
  }

  /** `buildPots`: the chips of uncontested levels join the last contested one. */
  function TsPots(seats: seq<Seat>): (r: seq<Layer>)
    ensures |r| == Contested(seats)
  {
    var d := Contested(seats);
    seq(d, k requires 0 <= k < d => TsLayer(seats, Levels(seats), d, k))
  }

  /** The running state of the TypeScript loop. */
  datatype Tally = Tally(pots: seq<Layer>, prev: int, orphaned: int)

  function AddLevel(seats: seq<Seat>, t: Tally, level: int): Tally
  {
    var amount := (level - t.prev) * |Contributors(seats, level)|;
    var eligible := Eligible(seats, level);
    if amount <= 0 then t.(prev := level)
    else if eligible == {} then t.(prev := level, orphaned := t.orphaned + amount)
    else Tally(t.pots + [Layer(amount + t.orphaned, Contributors(seats, level), eligible)], level, 0)
  }

  function TallyUpTo(seats: seq<Seat>, levels: seq<int>, k: nat): Tally
    requires k <= |levels|
  {
    if k == 0 then Tally([], 0, 0) else AddLevel(seats, TallyUpTo(seats, levels, k - 1), levels[k - 1])
  }

  /** The body of the TypeScript loop. */
  method AddLayer(seats: seq<Seat>, level: int, pots: seq<Layer>, prev: int, orphaned: int)
    returns (pots': seq<Layer>, orphaned': int)
    ensures Tally(pots', level, orphaned') == AddLevel(seats, Tally(pots, prev, orphaned), level)
  {
    pots', orphaned' := pots, orphaned;
    var amount := (level - prev) * |Contributors(seats, level)|;
    if amount > 0 {
      var eligible := Eligible(seats, level);
      if eligible == {} {
        orphaned' := orphaned + amount;
      } else {
        pots' := pots + [Layer(amount + orphaned, Contributors(seats, level), eligible)];
        orphaned' := 0;
      }
    }
  }

  /** The TypeScript loop, with its running `orphaned` total. */
  method BuildPots(seats: seq<Seat>) returns (pots: seq<Layer>)
    ensures pots == TsPots(seats)
  {
    var levels := Levels(seats);
    var prev := 0;
    var orphaned := 0;
    pots := [];
    var k := 0;
    while k < |levels|
      invariant 0 <= k <= |levels|
      invariant Tally(pots, prev, orphaned) == TallyUpTo(seats, levels, k)
    {
      pots, orphaned := AddLayer(seats, levels[k], pots, prev, orphaned);
      prev := levels[k];
      k := k + 1;
    }
    TallyIsPots(seats);
    pots := JoinOrphans(pots, orphaned);
  }

  /** What was never contested goes to the last layer. */
  method JoinOrphans(pots: seq<Layer>, orphaned: int) returns (joined: seq<Layer>)
    ensures joined == AddToLast(pots, orphaned)
  {
    joined := pots;
    if orphaned > 0 && |pots| > 0 {
      var last := |pots| - 1;
      joined := joined[last := joined[last].(amount := joined[last].amount + orphaned)];
    }
  }

  lemma {:induction false} AddLevelAt(seats: seq<Seat>, t: Tally, k: nat)
    requires k < |Levels(seats)| && t.prev == Floor(Levels(seats), k)
    ensures var levels := Levels(seats);
            && levels[k] == Floor(levels, k + 1)
            && (k < Contested(seats) && t.orphaned == 0 ==>
                  AddLevel(seats, t, levels[k]) == Tally(t.pots + [RustLayer(seats, levels, k)], levels[k], 0))
            && (k >= Contested(seats) ==>
                  AddLevel(seats, t, levels[k])
                    == t.(prev := levels[k], orphaned := t.orphaned + LayerAmount(seats, levels, k)))
  {
    OrphansAreATopSuffix(seats, k);
    LayerAmountPositive(seats, k);
  }

  /** While levels are contested, nothing is orphaned. */
  lemma {:induction false} TallyContested(seats: seq<Seat>, k: nat)
    requires k <= Contested(seats)
    ensures var levels := Levels(seats);
            TallyUpTo(seats, levels, k) == Tally(RustPots(seats)[..k], Floor(levels, k), 0)
  {
    if k > 0 {
      TallyContested(seats, k - 1);
      ContestedStep(seats, k - 1, TallyUpTo(seats, Levels(seats), k - 1));
    }
  }

  lemma {:induction false} ContestedStep(seats: seq<Seat>, k: nat, t: Tally)
    requires k < Contested(seats)
    requires t == Tally(RustPots(seats)[..k], Floor(Levels(seats), k), 0)
    ensures AddLevel(seats, t, Levels(seats)[k]) == Tally(RustPots(seats)[..k + 1], Floor(Levels(seats), k + 1), 0)
  {
    AddLevelAt(seats, t, k);
    PrefixGrows(RustPots(seats), k);
  }

  lemma {:induction false} PrefixGrows<T>(s: seq<T>, k: nat)
    requires k < |s|
    ensures s[..k + 1] == s[..k] + [s[k]]
  {
  }

  /** The tally after `k` levels, the uncontested ones all orphaned. */
  ghost predicate Orphaning(seats: seq<Seat>, t: Tally, k: nat)
  {
    var levels, d := Levels(seats), Contested(seats);
    && d <= k <= |levels|
    && t.pots == RustPots(seats) && t.prev == Floor(levels, k)
    && t.orphaned == AmountsFrom(seats, levels, d) - AmountsFrom(seats, levels, k) >= 0
  }

  /** From there on, everything is. */
  lemma {:induction false} TallyOrphaned(seats: seq<Seat>, k: nat)
    requires Contested(seats) <= k <= |Levels(seats)|
    ensures Orphaning(seats, TallyUpTo(seats, Levels(seats), k), k)
  {
    if k == Contested(seats) {
      FirstOrphan(seats);
    } else {
      TallyOrphaned(seats, k - 1);
      OrphanedStep(seats, k - 1, TallyUpTo(seats, Levels(seats), k - 1));
      TallyUnfolds(seats, Levels(seats), k - 1);
    }
  }

  lemma {:induction false} TallyUnfolds(seats: seq<Seat>, levels: seq<int>, k: nat)
    requires k < |levels|
    ensures TallyUpTo(seats, levels, k + 1) == AddLevel(seats, TallyUpTo(seats, levels, k), levels[k])
  {
  }

  lemma {:induction false} FirstOrphan(seats: seq<Seat>)
    ensures Orphaning(seats, TallyUpTo(seats, Levels(seats), Contested(seats)), Contested(seats))
  {
    TallyContested(seats, Contested(seats));
    assert RustPots(seats)[..Contested(seats)] == RustPots(seats);
  }

  lemma {:induction false} OrphanedStep(seats: seq<Seat>, k: nat, t: Tally)
    requires k < |Levels(seats)| && Orphaning(seats, t, k)
    ensures Orphaning(seats, AddLevel(seats, t, Levels(seats)[k]), k + 1)
  {
    AddLevelAt(seats, t, k);
    LayerAmountPositive(seats, k);
  }

  lemma {:induction false} TallyIsPots(seats: seq<Seat>)
    ensures var t := TallyUpTo(seats, Levels(seats), |Levels(seats)|);
            AddToLast(t.pots, t.orphaned) == TsPots(seats)
  {
    TallyOrphaned(seats, |Levels(seats)|);
    OrphansJoinLast(seats, AmountsFrom(seats, Levels(seats), Contested(seats)));
  }

  function AddToLast(pots: seq<Layer>, orphaned: int): seq<Layer>
  {
    if orphaned > 0 && |pots| > 0 then
      var last := |pots| - 1;
      pots[last := pots[last].(amount := pots[last].amount + orphaned)]
    else pots
  }

  lemma {:induction false} TsLayerAt(seats: seq<Seat>, k: nat)
    requires k < Contested(seats)
    ensures var rust, d := RustPots(seats)[k], Contested(seats);
            TsPots(seats)[k]
              == if k + 1 == d then rust.(amount := rust.amount + AmountsFrom(seats, Levels(seats), d)) else rust
  {
  }

  lemma {:induction false} OrphansJoinLast(seats: seq<Seat>, orphaned: int)
    requires orphaned >= 0
    requires orphaned == AmountsFrom(seats, Levels(seats), Contested(seats))
    ensures AddToLast(RustPots(seats), orphaned) == TsPots(seats)
  {
    forall k | 0 <= k < Contested(seats)
      ensures TsPots(seats)[k] == AddToLast(RustPots(seats), orphaned)[k]
    {
      TsLayerAt(seats, k);
    }
  }

  /** The body of the Rust loop. */
  method AddRustLayer(seats: seq<Seat>, levels: seq<int>, k: nat, pots: seq<Layer>, prev: int)
    returns (pots': seq<Layer>)
    requires levels == Levels(seats) && k < |levels| && prev == Floor(levels, k)
    requires pots == RustPots(seats)[..Min(k, Contested(seats))]
    ensures pots' == RustPots(seats)[..Min(k + 1, Contested(seats))]
  {
    pots' := pots;
    var amount := (levels[k] - prev) * |Contributors(seats, levels[k])|;
    var eligible := Eligible(seats, levels[k]);
    RustLevel(seats, k);
    if amount > 0 && eligible != {} {
      pots' := pots + [Layer(amount, Contributors(seats, levels[k]), eligible)];
    }
  }

  /** The Rust loop: the same levels, without an `orphaned` total. */
  method BuildPotsRust(seats: seq<Seat>) returns (pots: seq<Layer>)
    ensures pots == RustPots(seats)
  {
    var levels := Levels(seats);
    pots := [];
    var prev := 0;
    var k := 0;
    while k < |levels|
      invariant 0 <= k <= |levels|
      invariant prev == Floor(levels, k)
      invariant pots == RustPots(seats)[..Min(k, Contested(seats))]
    {
      pots := AddRustLayer(seats, levels, k, pots, prev);
      prev := levels[k];
      k := k + 1;
    }
    assert RustPots(seats)[..Contested(seats)] == RustPots(seats);
  }

  lemma {:induction false} RustLevel(seats: seq<Seat>, k: nat)
    requires k < |Levels(seats)|
    ensures var levels := Levels(seats);
            var amount := (levels[k] - Floor(levels, k)) * |Contributors(seats, levels[k])|;
            && amount > 0
            && (Eligible(seats, levels[k]) != {} <==> k < Contested(seats))
            && (k < Contested(seats) ==>
                  RustPots(seats)[..k + 1]
                    == RustPots(seats)[..k]
                      + [Layer(amount, Contributors(seats, levels[k]), Eligible(seats, levels[k]))])
  {
    OrphansAreATopSuffix(seats, k);
    LayerAmountPositive(seats, k);
  }

  lemma {:induction false} LayerAmountPositive(seats: seq<Seat>, k: nat)
    requires k < |Levels(seats)|
    ensures LayerAmount(seats, Levels(seats), k) > 0
  {
    var levels := Levels(seats);
    var i := LevelHolds(seats, k);
    assert i in Contributors(seats, levels[k]);
    assert Floor(levels, k) < levels[k];
    MulAtLeast(levels[k] - Floor(levels, k), |Contributors(seats, levels[k])|);
  }

  // ----- Chip by chip -----

  /** Each seat's first `c` chips. */
  function Capped(seats: seq<Seat>, c: int): (r: seq<int>)
    ensures |r| == |seats|
  {
    seq(|seats|, i requires 0 <= i < |seats| => Min(seats[i].totalBet, c))
  }

  /** Chips lying at heights `lo + 1` .. `hi`, one height at a time. */
  function ChipSlices(seats: seq<Seat>, lo: int, hi: int): int
    requires lo <= hi
    decreases hi - lo
  {
    if lo == hi then 0 else ChipSlices(seats, lo, hi - 1) + |Contributors(seats, hi)|
  }

  lemma {:induction false} OneSlice(seats: seq<Seat>, c: int)
    ensures Sum(Capped(seats, c)) == Sum(Capped(seats, c - 1)) + |Contributors(seats, c)|
  {
    if |seats| == 0 {
      assert Contributors(seats, c) == {};
    } else {
      var n := |seats| - 1;
      var front := seats[..n];
      OneSlice(front, c);
      assert Capped(seats, c)[..n] == Capped(front, c);
      assert Capped(seats, c - 1)[..n] == Capped(front, c - 1);
      if seats[n].totalBet >= c {
        assert Contributors(seats, c) == Contributors(front, c) + {n};
      } else {
        assert Contributors(seats, c) == Contributors(front, c);
      }
    }
  }

  /** Counting chips by height or by seat gives the same number. */
  lemma {:induction false} SlicesAreCapped(seats: seq<Seat>, lo: int, hi: int)
    requires lo <= hi
    ensures ChipSlices(seats, lo, hi) == Sum(Capped(seats, hi)) - Sum(Capped(seats, lo))
    decreases hi - lo
  {
    if lo < hi {
      SlicesAreCapped(seats, lo, hi - 1);
      OneSlice(seats, hi);
    }
  }

  lemma {:induction false} SlicesJoin(seats: seq<Seat>, lo: int, mid: int, hi: int)
    requires lo <= mid <= hi
    ensures ChipSlices(seats, lo, hi) == ChipSlices(seats, lo, mid) + ChipSlices(seats, mid, hi)
  {
    SlicesAreCapped(seats, lo, mid);
    SlicesAreCapped(seats, mid, hi);
    SlicesAreCapped(seats, lo, hi);
  }

  /** No total ends strictly between two neighbouring levels. */
  lemma {:induction false} SameContributors(seats: seq<Seat>, k: nat, c: int)
    requires k < |Levels(seats)|
    requires Floor(Levels(seats), k) < c <= Levels(seats)[k]
    ensures Contributors(seats, c) == Contributors(seats, Levels(seats)[k])
    ensures Eligible(seats, c) == Eligible(seats, Levels(seats)[k])
  {
    var levels := Levels(seats);
    forall i: nat | i < |seats| && seats[i].totalBet >= c
      ensures seats[i].totalBet >= levels[k]
    {
      NoTotalBetween(seats, k, i);
    }
    assert Contributors(seats, c) == Contributors(seats, levels[k]);
    assert Eligible(seats, c) == Eligible(seats, levels[k]);
  }

  lemma {:induction false} NoTotalBetween(seats: seq<Seat>, k: nat, i: nat)
    requires k < |Levels(seats)| && i < |seats|
    requires seats[i].totalBet > Floor(Levels(seats), k)
    ensures seats[i].totalBet >= Levels(seats)[k]
  {
    var levels := Levels(seats);
    FloorNonNegative(seats, k);
    var j := TotalIsLevel(seats, i);
    assert j >= k;
  }

  lemma {:induction false} FloorNonNegative(seats: seq<Seat>, k: nat)
    requires k <= |Levels(seats)|
    ensures Floor(Levels(seats), k) >= 0
  {
    if k > 0 {
      var _ := LevelHolds(seats, k - 1);
    }
  }

  lemma {:induction false} EqualSlices(seats: seq<Seat>, lo: int, hi: int, s: set<nat>)
    requires lo <= hi
    requires forall c :: lo < c <= hi ==> Contributors(seats, c) == s
    ensures ChipSlices(seats, lo, hi) == (hi - lo) * |s|
    decreases hi - lo
  {
    if lo < hi {
      EqualSlices(seats, lo, hi - 1, s);
      assert (hi - lo) * |s| == (hi - 1 - lo) * |s| + |s|;
    }
  }

  lemma {:induction false} LayerIsSlices(seats: seq<Seat>, k: nat)
    requires k < |Levels(seats)|
    ensures Floor(Levels(seats), k) < Levels(seats)[k]
    ensures LayerAmount(seats, Levels(seats), k)
         == ChipSlices(seats, Floor(Levels(seats), k), Levels(seats)[k])
  {
    var levels := Levels(seats);
    var _ := LevelHolds(seats, k);
    forall c | Floor(levels, k) < c <= levels[k]
      ensures Contributors(seats, c) == Contributors(seats, levels[k])
    {
      SameContributors(seats, k, c);
    }
    EqualSlices(seats, Floor(levels, k), levels[k], Contributors(seats, levels[k]));
  }

  function Top(levels: seq<int>): int
  {
    Floor(levels, |levels|)
  }

  lemma {:induction false} AmountsAreSlices(seats: seq<Seat>, k: nat)
    requires k <= |Levels(seats)|
    ensures Floor(Levels(seats), k) <= Top(Levels(seats))
    ensures AmountsFrom(seats, Levels(seats), k)
         == ChipSlices(seats, Floor(Levels(seats), k), Top(Levels(seats)))
    decreases |Levels(seats)| - k
  {
    var levels := Levels(seats);
    if k < |levels| {
      AmountsAreSlices(seats, k + 1);
      LayerIsSlices(seats, k);
      SlicesJoin(seats, Floor(levels, k), levels[k], Top(levels));
    }
  }

  // ----- What the pots add up to -----

  function Amounts(layers: seq<Layer>): (r: seq<int>)
    ensures |r| == |layers|
  {
    seq(|layers|, k requires 0 <= k < |layers| => layers[k].amount)
  }

  /** The largest stake of a live seat, 0 if there is none. */
  function DeepestLive(seats: seq<Seat>): (m: int)
    ensures m >= 0
    ensures forall i :: 0 <= i < |seats| && !seats[i].folded ==> seats[i].totalBet <= m
    ensures m > 0 ==> exists i :: 0 <= i < |seats| && !seats[i].folded && seats[i].totalBet == m
  {
    if |seats| == 0 then 0
    else
      var n := |seats| - 1;
      var m := DeepestLive(seats[..n]);
      assert forall i :: 0 <= i < n ==> seats[..n][i] == seats[i];
      if !seats[n].folded && seats[n].totalBet > m then seats[n].totalBet else m
  }

  ghost predicate NonNegative(seats: seq<Seat>)
  {
    forall i :: 0 <= i < |seats| ==> seats[i].totalBet >= 0
  }

  lemma {:induction false} ContestedUpToDeepest(seats: seq<Seat>)
    ensures Floor(Levels(seats), Contested(seats)) == DeepestLive(seats)
  {
    var levels, d, m := Levels(seats), Contested(seats), DeepestLive(seats);
    if d > 0 {
      OrphansAreATopSuffix(seats, d - 1);
      var _ := LevelHolds(seats, d - 1);
      var i :| i in Eligible(seats, levels[d - 1]);
    }
    if m > 0 {
      var i :| 0 <= i < |seats| && !seats[i].folded && seats[i].totalBet == m;
      var k := TotalIsLevel(seats, i);
      assert i in Eligible(seats, levels[k]);
      OrphansAreATopSuffix(seats, k);
    }
  }

  /** The first `k` layers hold exactly the chips up to level `k`. */
  lemma {:induction false} RustPrefix(seats: seq<Seat>, k: nat)
    requires k <= Contested(seats)
    ensures Floor(Levels(seats), k) >= 0
    ensures Sum(Amounts(RustPots(seats))[..k]) == ChipSlices(seats, 0, Floor(Levels(seats), k))
  {
    if k > 0 {
      RustPrefix(seats, k - 1);
      LayerIsSlices(seats, k - 1);
      var levels := Levels(seats);
      SlicesJoin(seats, 0, Floor(levels, k - 1), levels[k - 1]);
      var a := Amounts(RustPots(seats));
      assert a[..k][..k - 1] == a[..k - 1];
    }
  }

  lemma {:induction false} TsPrefix(seats: seq<Seat>, k: nat)
    requires k <= Contested(seats)
    ensures 0 <= Floor(Levels(seats), k) <= Top(Levels(seats))
    ensures Sum(Amounts(TsPots(seats))[..k])
         == if k == 0 then 0
            else if k < Contested(seats) then ChipSlices(seats, 0, Floor(Levels(seats), k))
            else ChipSlices(seats, 0, Top(Levels(seats)))
  {
    RustPrefix(seats, k);
    AmountsAreSlices(seats, k);
    if 0 < k < Contested(seats) {
      assert Amounts(TsPots(seats))[..k] == Amounts(RustPots(seats))[..k];
    } else if k > 0 {
      TsWhole(seats);
    }
  }

  lemma {:induction false} LastLayerGrows(seats: seq<Seat>)
    requires Contested(seats) > 0
    ensures var d := Contested(seats); var rust := Amounts(RustPots(seats));
            Amounts(TsPots(seats))[..d] == rust[d - 1 := rust[d - 1] + AmountsFrom(seats, Levels(seats), d)]
  {
    var d := Contested(seats);
    var ts, rust := Amounts(TsPots(seats)), Amounts(RustPots(seats));
    assert ts[d - 1] == rust[d - 1] + AmountsFrom(seats, Levels(seats), d);
    assert forall k :: 0 <= k < d - 1 ==> ts[k] == rust[k];
  }

  lemma {:induction false} TsWhole(seats: seq<Seat>)
    requires Contested(seats) > 0
    ensures Top(Levels(seats)) >= 0
    ensures Sum(Amounts(TsPots(seats))[..Contested(seats)]) == ChipSlices(seats, 0, Top(Levels(seats)))
  {
    var levels, d := Levels(seats), Contested(seats);
    RustPrefix(seats, d);
    AmountsAreSlices(seats, d);
    var rust, ts, extra := Amounts(RustPots(seats)), Amounts(TsPots(seats)), AmountsFrom(seats, levels, d);
    assert rust[..d] == rust;
    LastLayerGrows(seats);
    SumUpdate(rust, d - 1, rust[d - 1] + extra);
    SlicesJoin(seats, 0, Floor(levels, d), Top(levels));
  }

  lemma {:induction false} CappedAtZero(seats: seq<Seat>)
    requires NonNegative(seats)
    ensures Sum(Capped(seats, 0)) == 0
  {
    SumZero(Capped(seats, 0));
  }

  lemma {:induction false} CappedAtTop(seats: seq<Seat>)
    requires NonNegative(seats)
    ensures forall i :: 0 <= i < |seats| ==> seats[i].totalBet <= Top(Levels(seats))
    ensures Capped(seats, Top(Levels(seats))) == Totals(seats)
  {
    var levels := Levels(seats);
    forall i | 0 <= i < |seats|
      ensures seats[i].totalBet <= Top(levels)
    {
      if seats[i].totalBet > 0 {
        var k := TotalIsLevel(seats, i);
      } else {
        AmountsAreSlices(seats, 0);
      }
    }
  }

  /** TypeScript pots hold every chip staked, as soon as a live seat staked one. */
  lemma {:induction false} TsPotsHoldEverything(seats: seq<Seat>)
    requires NonNegative(seats)
    ensures DeepestLive(seats) == 0 ==> TsPots(seats) == []
    ensures DeepestLive(seats) > 0 ==> Sum(Amounts(TsPots(seats))) == Sum(Totals(seats))
  {
    var d := Contested(seats);
    ContestedUpToDeepest(seats);
    if d > 0 {
      var _ := LevelHolds(seats, d - 1);
      TsPrefix(seats, d);
      var ts := Amounts(TsPots(seats));
      assert ts[..d] == ts;
      SlicesAreCapped(seats, 0, Top(Levels(seats)));
      CappedAtZero(seats);
      CappedAtTop(seats);
    }
  }

  /** Rust pots hold what every seat staked up to the deepest live stake, and nothing above it. */
  lemma {:induction false} RustPotsHoldUpToDeepest(seats: seq<Seat>)
    requires NonNegative(seats)
    ensures Sum(Amounts(RustPots(seats))) == Sum(Capped(seats, DeepestLive(seats)))
  {
    var d := Contested(seats);
    ContestedUpToDeepest(seats);
    RustPrefix(seats, d);
    var a := Amounts(RustPots(seats));
    assert a[..d] == a;
    SlicesAreCapped(seats, 0, DeepestLive(seats));
    CappedAtZero(seats);
  }

  /** No seat staked more than the deepest live one. */
  ghost predicate NoFoldedOverhang(seats: seq<Seat>)
  {
    forall i :: 0 <= i < |seats| ==> seats[i].totalBet <= DeepestLive(seats)
  }

  lemma {:induction false} CappedStrictlyLess(seats: seq<Seat>, c: int, i: nat)
    requires i < |seats| && seats[i].totalBet > c
    ensures Sum(Capped(seats, c)) < Sum(Totals(seats))
  {
    var n := |seats| - 1;
    var front := seats[..n];
    assert Capped(seats, c)[..n] == Capped(front, c);
    assert Totals(seats)[..n] == Totals(front);
    if i == n {
      SumMonotone(Capped(front, c), Totals(front));
    } else {
      CappedStrictlyLess(front, c, i);
    }
  }

  /** Rust pots hold every chip exactly when no folded seat out-staked all live ones. */
  lemma {:induction false} RustPotsConserveIff(seats: seq<Seat>)
    requires NonNegative(seats)
    ensures Sum(Amounts(RustPots(seats))) == Sum(Totals(seats)) <==> NoFoldedOverhang(seats)
  {
    RustPotsHoldUpToDeepest(seats);
    var m := DeepestLive(seats);
    if NoFoldedOverhang(seats) {
      assert Capped(seats, m) == Totals(seats);
    } else {
      var i :| 0 <= i < |seats| && seats[i].totalBet > m;
      CappedStrictlyLess(seats, m, i);
    }
  }

  /** The two implementations build the same pots exactly in that case, or when nothing is contested. */
  lemma {:induction false} TsAndRustAgreeIff(seats: seq<Seat>)
    requires NonNegative(seats)
    ensures TsPots(seats) == RustPots(seats) <==> NoFoldedOverhang(seats) || DeepestLive(seats) == 0
  {
    var d := Contested(seats);
    if DeepestLive(seats) == 0 {
      TsPotsHoldEverything(seats);
      assert RustPots(seats) == [];
    } else if NoFoldedOverhang(seats) {
      NothingAboveDeepest(seats);
      assert forall k :: 0 <= k < d ==> TsPots(seats)[k] == RustPots(seats)[k];
    } else {
      RustPotsConserveIff(seats);
      TsPotsHoldEverything(seats);
    }
  }

  lemma {:induction false} NothingAboveDeepest(seats: seq<Seat>)
    requires NoFoldedOverhang(seats)
    ensures Contested(seats) == |Levels(seats)|
  {
    ContestedUpToDeepest(seats);
    var levels := Levels(seats);
    if |levels| > 0 {
      var i := LevelHolds(seats, |levels| - 1);
      assert levels[|levels| - 1] <= Floor(levels, Contested(seats));
    }
  }

  /** `buildPots` refines the chip-by-chip reading: a layer is a run of heights with the same
      contributors and the same contenders, holding exactly the chips at those heights; the last
      layer also takes the heights nobody live reached. */
  lemma {:induction false} TsLayersRefineChipHeights(seats: seq<Seat>, k: nat)
    requires k < Contested(seats)
    ensures var levels, layer := Levels(seats), TsPots(seats)[k];
            var lo, hi := Floor(levels, k), levels[k];
            var last := k + 1 == Contested(seats);
            && 0 <= lo < hi <= Top(levels)
            && layer.amount == ChipSlices(seats, lo, if last then Top(levels) else hi)
            && (forall c :: lo < c <= hi ==>
                  layer.contributors == Contributors(seats, c) && layer.eligible == Eligible(seats, c) != {})
            && (last ==> forall c :: hi < c ==> Eligible(seats, c) == {})
  {
    var levels, d := Levels(seats), Contested(seats);
    LayerIsSlices(seats, k);
    OrphansAreATopSuffix(seats, k);
    RustPrefix(seats, k);
    AmountsAreSlices(seats, k + 1);
    forall c | Floor(levels, k) < c <= levels[k]
      ensures Contributors(seats, c) == Contributors(seats, levels[k])
      ensures Eligible(seats, c) == Eligible(seats, levels[k])
    {
      SameContributors(seats, k, c);
    }
    if k + 1 == d {
      SlicesJoin(seats, Floor(levels, k), levels[k], Top(levels));
      ContestedUpToDeepest(seats);
    }
  }
}
