/** The engine and the ledger together. The host posts every finished hand under its own id: the rake to the
    cent, then, in dollars, what each stack changed by since the last hand (`syncStacks`,
    services/game-server/src/table-runtime.ts). A chip is a cent, and each posting is rounded to whole dollars. */
module HandLedger {
  import opened Prelude
  import opened Cards
  import opened Table
  import opened Settlement
  import opened Holdem
  import opened Invariant
  import opened Runs
  import Players
  import opened Scenes
  import opened Ledger
  import FoldOuts
  import Rotation

  /** Stack changes between two states of one table, a player per seat. */
  function StackChanges(before: seq<Seat>, after: seq<Seat>, mode: Mode): (r: seq<StackChange>)
    requires |before| == |after|
    ensures |r| == |before|
    ensures forall i :: 0 <= i < |r| ==> r[i] == StackChange(before[i].playerId, before[i].stack, after[i].stack, mode)
  {
    if |before| == 0 then []
    else
      var n := |before| - 1;
      StackChanges(before[..n], after[..n], mode)
        + [StackChange(before[n].playerId, before[n].stack, after[n].stack, mode)]
  }

  lemma {:induction false} NetIsStacks(before: seq<Seat>, after: seq<Seat>, mode: Mode, k: nat)
    requires |before| == |after| && k <= |before|
    ensures var c := StackChanges(before, after, mode);
            Net(c, k, true) + Net(c, k, false) == Sum(Stacks(after)[..k]) - Sum(Stacks(before)[..k])
  {
    if k > 0 {
      NetIsStacks(before, after, mode, k - 1);
      assert Stacks(after)[..k][..k - 1] == Stacks(after)[..k - 1];
      assert Stacks(before)[..k][..k - 1] == Stacks(before)[..k - 1];
    }
  }

  /** No two seats are one player's; bots, who have no escrow, may share a name. */
  ghost predicate PlayersDistinct(seats: seq<Seat>)
  {
    forall i, j :: 0 <= i < j < |seats| && IsPlayer(seats[i]) ==> seats[i].playerId != seats[j].playerId
  }

  predicate IsPlayer(s: Seat)
  {
    s.playerId != "" && s.playerId != "bot"
  }

  // ----- The hands of a run -----

  /** Where the run is between hands. */
  function Rests(trace: seq<State>): (r: seq<nat>)
    ensures forall k :: 0 <= k < |r| ==> r[k] < |trace| && !InHandStreet(trace[r[k]].street)
    ensures forall j, k :: 0 <= j < k < |r| ==> r[j] < r[k]
  {
    if |trace| == 0 then []
    else
      var n := |trace| - 1;
      var before := Rests(trace[..n]);
      if InHandStreet(trace[n].street) then before else before + [n]
  }

  lemma {:induction false} RestsAreAll(trace: seq<State>, i: nat) returns (k: nat)
    requires i < |trace| && !InHandStreet(trace[i].street)
    ensures k < |Rests(trace)| && Rests(trace)[k] == i
  {
    var n := |trace| - 1;
    if i == n {
      k := |Rests(trace[..n])|;
    } else {
      k := RestsAreAll(trace[..n], i);
    }
  }

  /** A run of whole hands starts and ends between hands. */
  lemma {:induction false} RestsEnds(trace: seq<State>)
    requires |trace| > 0 && !InHandStreet(trace[0].street) && !InHandStreet(trace[|trace| - 1].street)
    ensures var r := Rests(trace); |r| > 0 && r[0] == 0 && r[|r| - 1] == |trace| - 1
  {
    var k := RestsAreAll(trace, 0);
    var l := RestsAreAll(trace, |trace| - 1);
    var r := Rests(trace);
    assert r[0] <= r[k] && r[l] <= r[|r| - 1];
  }

  ghost predicate TableStays(trace: seq<State>)
  {
    forall k :: 0 <= k < |trace| ==> |trace[k].seats| == |trace[0].seats|
  }

  /** What the host posts for the hand from `s` to `t`. */
  function HandBetween(s: State, t: State, id: string, mode: Mode): PlayedHand
    requires |s.seats| == |t.seats|
  {
    PlayedHand(id, StackChanges(s.seats, t.seats, mode), t.sessionRake - s.sessionRake)
  }

  /** Where the run is after `k` hands. */
  function After(trace: seq<State>, k: nat): State
    requires k < |Rests(trace)|
  {
    trace[Rests(trace)[k]]
  }

  /** Hand number `k`. */
  function HandNo(trace: seq<State>, ids: seq<string>, mode: Mode, k: nat): PlayedHand
    requires TableStays(trace) && |Rests(trace)| == |ids| + 1 && k < |ids|
  {
    HandBetween(After(trace, k), After(trace, k + 1), ids[k], mode)
  }

  /** The first `k` hands of a run as they are posted one after the other. */
  function HandsUpTo(trace: seq<State>, ids: seq<string>, mode: Mode, k: nat): (hands: seq<PlayedHand>)
    requires TableStays(trace) && |Rests(trace)| == |ids| + 1 && k <= |ids|
    ensures |hands| == k
  {
    if k == 0 then []
    else HandsUpTo(trace, ids, mode, k - 1) + [HandNo(trace, ids, mode, k - 1)]
  }

  function HandsOf(trace: seq<State>, ids: seq<string>, mode: Mode): (hands: seq<PlayedHand>)
    requires TableStays(trace) && |Rests(trace)| == |ids| + 1
    ensures |hands| == |ids|
  {
    HandsUpTo(trace, ids, mode, |ids|)
  }

  lemma {:induction false} HandAt(trace: seq<State>, ids: seq<string>, mode: Mode, k: nat, n: nat)
    requires TableStays(trace) && |Rests(trace)| == |ids| + 1 && k < n <= |ids|
    ensures HandsUpTo(trace, ids, mode, n)[k] == HandNo(trace, ids, mode, k)
  {
    if k < n - 1 {
      HandAt(trace, ids, mode, k, n - 1);
    }
  }

  /** A run of whole hands, and new, different ids for them. */
  ghost predicate PlayedHands(trace: seq<State>, b: Books, ids: seq<string>)
  {
    && Run(trace) && Resting(trace[0]) && Resting(trace[|trace| - 1]) && PlayersDistinct(trace[0].seats)
    && |Rests(trace)| == |ids| + 1
    && (forall k :: 0 <= k < |ids| ==> HandIsNew(b, ids[k]))
    && (forall j, k :: 0 <= j < k < |ids| ==> ids[j] != ids[k])
  }

  lemma {:induction false} RunsKeepTheTable(trace: seq<State>)
    requires Run(trace) && Resting(trace[0])
    ensures TableStays(trace)
  {
    forall k | 0 <= k < |trace|
      ensures |trace[k].seats| == |trace[0].seats|
    {
      RunKeeps(trace, k);
    }
  }

  /** Between two resting states of a run chips only moved, but for the rake. */
  lemma {:induction false} RestingFunds(trace: seq<State>, j: nat, k: nat)
    requires Run(trace) && Resting(trace[0]) && j <= k < |trace|
    requires !InHandStreet(trace[j].street) && !InHandStreet(trace[k].street)
    ensures var s, t := trace[j], trace[k];
            && Resting(s) && Resting(t) && |t.seats| == |s.seats| == |trace[0].seats|
            && Sum(Stacks(t.seats)) + (t.sessionRake - s.sessionRake) == Sum(Stacks(s.seats))
  {
    RunKeeps(trace, j);
    RunKeeps(trace, k);
  }

  lemma {:induction false} VacantOrBot(s: seq<Seat>, t: seq<Seat>, mode: Mode)
    requires |s| == |t| && PlayersDistinct(s)
    ensures UsersDistinct(StackChanges(s, t, mode)) && OneMode(StackChanges(s, t, mode), mode)
  {
  }

  /** Every hand of a run is fit to be posted, and conserves chips. */
  lemma {:induction false} HandsAreOk(trace: seq<State>, b: Books, ids: seq<string>, mode: Mode)
    requires PlayedHands(trace, b, ids)
    ensures TableStays(trace)
    ensures var hands := HandsOf(trace, ids, mode);
            HandsOk(b, hands, mode) && forall k :: 0 <= k < |hands| ==> Conserves(hands[k])
  {
    RunsKeepTheTable(trace);
    var hands := HandsOf(trace, ids, mode);
    forall k | 0 <= k < |hands|
      ensures HandOk(hands[k], mode) && Conserves(hands[k]) && hands[k].id == ids[k]
    {
      HandAt(trace, ids, mode, k, |ids|);
      HandIsOk(trace, Rests(trace)[k], Rests(trace)[k + 1], ids[k], mode);
    }
  }

  lemma {:induction false} HandIsOk(trace: seq<State>, j: nat, k: nat, id: string, mode: Mode)
    requires Run(trace) && Resting(trace[0]) && PlayersDistinct(trace[0].seats) && j <= k < |trace|
    requires !InHandStreet(trace[j].street) && !InHandStreet(trace[k].street)
    ensures |trace[j].seats| == |trace[k].seats|
    ensures var h := HandBetween(trace[j], trace[k], id, mode); HandOk(h, mode) && Conserves(h)
  {
    var s, t := trace[j].seats, trace[k].seats;
    RestingFunds(trace, j, k);
    Players.PlayersStay(trace, 0, j);
    Players.PlayersStay(trace, j, k);
    VacantOrBot(s, t, mode);
    NetIsStacks(s, t, mode, |s|);
    assert Stacks(s)[..|s|] == Stacks(s) && Stacks(t)[..|t|] == Stacks(t);
  }

  lemma {:induction false} SeatOfHand(trace: seq<State>, ids: seq<string>, mode: Mode, k: nat, i: nat)
    requires Run(trace) && TableStays(trace) && |Rests(trace)| == |ids| + 1 && k < |ids| && i < |trace[0].seats|
    ensures var c, s, t := HandsOf(trace, ids, mode)[k].changes, After(trace, k).seats, After(trace, k + 1).seats;
            && |c| == |s| == |t| == |trace[0].seats|
            && c[i] == StackChange(trace[0].seats[i].playerId, s[i].stack, t[i].stack, mode)
  {
    HandAt(trace, ids, mode, k, |ids|);
    Players.PlayersStay(trace, 0, Rests(trace)[k]);
  }

  /** A seat is one player's through all hands of a run, and each starts from the stack the last one left. */
  lemma {:induction false} SeatsStay(trace: seq<State>, ids: seq<string>, mode: Mode, i: nat)
    requires Run(trace) && TableStays(trace) && |Rests(trace)| == |ids| + 1 && i < |trace[0].seats|
    ensures StaysSeated(HandsOf(trace, ids, mode), i, trace[0].seats[i].playerId)
  {
    var hands := HandsOf(trace, ids, mode);
    forall k | 0 <= k < |hands|
      ensures i < |hands[k].changes| && hands[k].changes[i].user == trace[0].seats[i].playerId
      ensures k > 0 ==> i < |hands[k - 1].changes| && hands[k].changes[i].prev == hands[k - 1].changes[i].next
    {
      SeatOfHand(trace, ids, mode, k, i);
      if k > 0 {
        SeatOfHand(trace, ids, mode, k - 1, i);
      }
    }
  }

  /** The seat at both ends. */
  lemma {:induction false} SeatEnds(trace: seq<State>, ids: seq<string>, mode: Mode, i: nat)
    requires Run(trace) && TableStays(trace) && |Rests(trace)| == |ids| + 1 && i < |trace[0].seats| && |ids| > 0
    requires !InHandStreet(trace[0].street) && !InHandStreet(trace[|trace| - 1].street)
    ensures var hands := HandsOf(trace, ids, mode);
            && i < |hands[0].changes| && hands[0].changes[i].prev == trace[0].seats[i].stack
            && i < |hands[|ids| - 1].changes| && hands[|ids| - 1].changes[i].next == trace[|trace| - 1].seats[i].stack
  {
    RestsEnds(trace);
    SeatOfHand(trace, ids, mode, 0, i);
    SeatOfHand(trace, ids, mode, |ids| - 1, i);
  }

  // ----- What becomes of the books -----

  /** Over any run of hands, an escrow strays from its stack by the rounding errors of all its hands: one that
      equalled the stack equals it again exactly when those cancel ... */
  lemma {:induction false} PlayedHandsKeepEscrowIff(
      trace: seq<State>, b: Books, ids: seq<string>, mode: Mode, i: nat)
    requires PlayedHands(trace, b, ids) && i < |trace[0].seats| && IsPlayer(trace[0].seats[i])
    ensures TableStays(trace)
    ensures var s, t, hands := trace[0].seats[i], trace[|trace| - 1].seats[i], HandsOf(trace, ids, mode);
            var before := Balance(b.entries, Escrow(s.playerId, mode));
            var after := Balance(HandsPosted(b, hands, mode).entries, Escrow(s.playerId, mode));
            && (forall k :: 0 <= k < |hands| ==> i < |hands[k].changes|)
            && after - t.stack == before - s.stack + SeatDrift(hands, i)
            && (before == s.stack ==> (after == t.stack <==> SeatDrift(hands, i) == 0))
            && -50 * |ids| <= SeatDrift(hands, i) <= 50 * |ids|
  {
    HandsAreOk(trace, b, ids, mode);
    SeatsStay(trace, ids, mode, i);
    var hands := HandsOf(trace, ids, mode);
    SeatDriftBounds(hands, i);
    if |hands| > 0 {
      SeatEnds(trace, ids, mode, i);
      EscrowErrorsAddUp(b, hands, mode, i, trace[0].seats[i].playerId);
    } else {
      RestsEnds(trace);
    }
  }

  /** ... which for a single hand is when the player won or lost whole dollars. */
  lemma {:induction false} HandKeepsEscrowIff(trace: seq<State>, b: Books, id: string, mode: Mode, i: nat)
    requires PlayedHands(trace, b, [id]) && i < |trace[0].seats| && IsPlayer(trace[0].seats[i])
    ensures TableStays(trace)
    ensures var s, t, hands := trace[0].seats[i], trace[|trace| - 1].seats[i], HandsOf(trace, [id], mode);
            var after := Balance(HandsPosted(b, hands, mode).entries, Escrow(s.playerId, mode));
            Balance(b.entries, Escrow(s.playerId, mode)) == s.stack ==>
              (after == t.stack <==> (t.stack - s.stack) % 100 == 0)
  {
    PlayedHandsKeepEscrowIff(trace, b, [id], mode, i);
    SeatEnds(trace, [id], mode, i);
    OneSeatDrift(HandsOf(trace, [id], mode), i);
  }

  lemma {:induction false} OneSeatDrift(hands: seq<PlayedHand>, i: nat)
    requires |hands| == 1 && i < |hands[0].changes|
    ensures SeatDrift(hands, i) == 0 <==> Delta(hands[0].changes[i]) % 100 == 0
  {
    assert SeatDrift(hands[..0], i) == 0;
    DriftBounds(hands[0].changes[i]);
  }

  /** Clearing is where it was exactly when all rounding errors add up to what bots won; the rake is booked to
      the cent. */
  lemma {:induction false} PlayedHandsBalanceIff(trace: seq<State>, b: Books, ids: seq<string>, mode: Mode)
    requires PlayedHands(trace, b, ids)
    ensures TableStays(trace)
    ensures var s, t, hands := trace[0], trace[|trace| - 1], HandsOf(trace, ids, mode);
            var after := HandsPosted(b, hands, mode).entries;
            var moved := Balance(after, Clearing(mode)) - Balance(b.entries, Clearing(mode));
            && moved == Unescrowed(hands) - AllDrifts(hands)
            && (moved == 0 <==> AllDrifts(hands) == Unescrowed(hands))
            && Balance(after, RakeIncome(mode)) == Balance(b.entries, RakeIncome(mode)) + t.sessionRake - s.sessionRake
  {
    HandsAreOk(trace, b, ids, mode);
    var hands := HandsOf(trace, ids, mode);
    ClearingErrorsAddUp(b, hands, mode);
    RestsEnds(trace);
    RakeAddsUp(trace, ids, mode, |ids|);
  }

  lemma {:induction false} RakeAddsUp(trace: seq<State>, ids: seq<string>, mode: Mode, k: nat)
    requires TableStays(trace) && |Rests(trace)| == |ids| + 1 && k <= |ids|
    ensures AllRake(HandsUpTo(trace, ids, mode, k)) == After(trace, k).sessionRake - After(trace, 0).sessionRake
  {
    if k > 0 {
      RakeAddsUp(trace, ids, mode, k - 1);
      assert HandsUpTo(trace, ids, mode, k)[..k - 1] == HandsUpTo(trace, ids, mode, k - 1);
    }
  }

  // ----- Runs that break them -----

  /** Heads-up with the blinds in, the small blind to act. */
  ghost predicate Posted(hand: State, a: int, b: int, button: nat)
  {
    && button < 2 && Fresh(hand, 2, 1 - button) && hand.config == Config(50, 100, 0, None)
    && hand.seats[0].playerId == "A" && !hand.seats[0].sitOut && hand.seats[1].playerId == "B" && !hand.seats[1].sitOut
    && BlindPosted(hand.seats[0], a, if button == 1 then 50 else 100)
    && BlindPosted(hand.seats[1], b, if button == 1 then 100 else 50)
  }

  lemma {:induction false} PostsBlinds(trace: seq<State>, a: int, b: int, button: nat, deck: seq<Card>)
      returns (longer: seq<State>)
    requires Run(trace) && TwoSeated(trace[|trace| - 1], a, b, button) && IsDeck(deck)
    ensures Run(longer) && |longer| == |trace| + 1 && longer[..|trace|] == trace
    ensures Posted(longer[|trace|], a, b, button) && Rests(longer) == Rests(trace)
  {
    var st := trace[|trace| - 1];
    var hand := TwoDealt(st, a, b, button, deck);
    Players.NextOnward(st, hand);
    RestsGrow(trace, hand);
    longer := Scenes.Onward(trace, st, hand);
  }

  /** The small blind folds and the big blind takes the pot: 50 chips change hands. */
  lemma {:induction false} SmallBlindFolds(trace: seq<State>, a: int, b: int, button: nat)
      returns (longer: seq<State>)
    requires Run(trace) && Posted(trace[|trace| - 1], a, b, button) && a > 200 && b > 200
    ensures Run(longer) && |longer| == |trace| + 1 && longer[..|trace|] == trace
    ensures TwoSeated(longer[|trace|], if button == 1 then a - 50 else a + 50, if button == 1 then b + 50 else b - 50,
                      1 - button)
    ensures Rests(longer) == Rests(trace) + [|trace|]
  {
    var hand := trace[|trace| - 1];
    PostedMayFold(hand, a, b, button);
    var t := FoldsToBlind(hand, 1 - button);
    Players.NextOnward(hand, t);
    Rotation.HandKeepsButton(hand, t);
    RestsGrow(trace, t);
    longer := Scenes.Onward(trace, hand, t);
  }

  lemma {:induction false} PostedMayFold(hand: State, a: int, b: int, button: nat)
    requires Posted(hand, a, b, button) && a > 200 && b > 200
    ensures MayFold(hand, 1 - button)
    ensures if button == 1 then hand.seats[0].stack == a - 50 && hand.seats[1].stack == b - 100
            else hand.seats[0].stack == a - 100 && hand.seats[1].stack == b - 50
  {
  }

  /** Heads-up before the flop, the player with the button has only posted the small blind. */
  ghost predicate MayFold(hand: State, x: nat)
  {
    && Fresh(hand, 2, x) && x < 2
    && !hand.seats[0].folded && !hand.seats[1].folded && !hand.seats[x].allIn
    && hand.seats[x].bet == 50 == hand.seats[x].totalBet && hand.seats[1 - x].totalBet == 100
  }

  lemma {:induction false} FoldIsLegal(hand: State, x: nat)
    requires MayFold(hand, x)
    ensures LegalMove(hand, Fold, None) && LiveSet(hand.seats) == {x, 1 - x} && hand.pot == 150
  {
    PotOfTwo(hand, x);
  }

  lemma {:induction false} FoldsToBlind(hand: State, x: nat) returns (t: State)
    requires MayFold(hand, x)
    ensures Next(hand, t) && Resting(t) && |t.seats| == 2 && t.config == hand.config
    ensures t.seats[x].stack == hand.seats[x].stack && t.seats[1 - x].stack == hand.seats[1 - x].stack + 150
  {
    FoldIsLegal(hand, x);
    ActionKeepsInv(hand, Fold, None);
    t := ApplyAction(hand, Fold, None).value;
    assert Plays(hand, t, Fold, None);
    FoldOuts.FoldOutTakesPot(hand, t, 1 - x);
  }

  lemma {:induction false} PotOfTwo(hand: State, x: nat)
    requires InHand(hand) && |hand.seats| == 2 && x < 2
    requires hand.seats[x].totalBet == 50 && hand.seats[1 - x].totalBet == 100
    ensures hand.pot == 150
  {
    TwoTotals(hand.seats);
  }

  lemma {:induction false} TwoTotals(seats: seq<Seat>)
    requires |seats| == 2
    ensures Sum(Totals(seats)) == seats[0].totalBet + seats[1].totalBet
  {
    assert Totals(seats)[..1] == [seats[0].totalBet];
    assert [seats[0].totalBet][..0] == [];
    assert Sum([seats[0].totalBet]) == seats[0].totalBet;
  }

  /** Heads-up with blinds of half a dollar and a dollar, `m` hands in which the small blind folds at once: after
      an even number both stacks are back where they were. */
  ghost predicate FoldRun(trace: seq<State>, m: nat)
  {
    && Run(trace) && trace[0] == HeadsUp(1000, 1000) && |Rests(trace)| == m + 1
    && (forall k: nat :: k <= m ==> FoldedAt(trace, k))
    && FoldedState(trace[|trace| - 1], m)
  }

  ghost predicate FoldedState(st: State, k: nat)
  {
    TwoSeated(st, LeftOf(k, 1000, 950), LeftOf(k, 1000, 1050), LeftOf(k, 1, 0))
  }

  function LeftOf(k: nat, even: nat, odd: nat): nat
  {
    if k % 2 == 0 then even else odd
  }

  ghost predicate FoldedAt(trace: seq<State>, k: nat)
  {
    k < |Rests(trace)| && FoldedState(After(trace, k), k)
  }

  lemma {:induction false} RestsGrow(trace: seq<State>, t: State)
    ensures Rests(trace + [t]) == if InHandStreet(t.street) then Rests(trace) else Rests(trace) + [|trace|]
  {
    assert (trace + [t])[..|trace|] == trace;
  }

  lemma {:induction false} FoldsGrow(trace: seq<State>, m: nat, longer: seq<State>)
    requires FoldRun(trace, m) && |longer| == |trace| + 2 && longer[..|trace|] == trace
    requires Rests(longer) == Rests(trace) + [|trace| + 1] && FoldedState(longer[|trace| + 1], m + 1) && Run(longer)
    ensures FoldRun(longer, m + 1)
  {
    assert longer[..|trace|][0] == trace[0];
    forall k: nat | k <= m + 1
      ensures FoldedAt(longer, k)
    {
      if k <= m {
        assert FoldedAt(trace, k);
      }
    }
  }

  lemma {:induction false} LeftSwaps(k: nat)
    ensures LeftOf(k, 1, 0) == 1 <==> LeftOf(k, 1000, 950) == 1000
    ensures var left := LeftOf(k, 1000, 950);
            LeftOf(k + 1, 1000, 950) == if LeftOf(k, 1, 0) == 1 then left - 50 else left + 50
    ensures LeftOf(k + 1, 1000, 1050)
         == if LeftOf(k, 1, 0) == 1 then LeftOf(k, 1000, 1050) + 50 else LeftOf(k, 1000, 1050) - 50
    ensures LeftOf(k + 1, 1, 0) == 1 - LeftOf(k, 1, 0)
  {
  }

  lemma {:induction false} FoldRunGrows(trace: seq<State>, m: nat, deck: seq<Card>) returns (longer: seq<State>)
    requires FoldRun(trace, m) && IsDeck(deck)
    ensures FoldRun(longer, m + 1)
  {
    var a, b, button := LeftOf(m, 1000, 950), LeftOf(m, 1000, 1050), LeftOf(m, 1, 0);
    var dealt := PostsBlinds(trace, a, b, button, deck);
    longer := SmallBlindFolds(dealt, a, b, button);
    assert longer[..|trace|] == longer[..|dealt|][..|trace|] == trace;
    LeftSwaps(m);
    FoldsGrow(trace, m, longer);
  }

  lemma {:induction false} FoldRunExists(m: nat, deck: seq<Card>) returns (trace: seq<State>)
    requires IsDeck(deck)
    ensures FoldRun(trace, m)
  {
    if m == 0 {
      trace := [HeadsUp(1000, 1000)];
      HeadsUpSeated(1000, 1000);
      RestsGrow([], HeadsUp(1000, 1000));
      assert [] + trace == trace;
    } else {
      trace := FoldRunExists(m - 1, deck);
      trace := FoldRunGrows(trace, m - 1, deck);
    }
  }

  /** Half a dollar lost is rounded away, half a dollar won becomes a dollar. */
  lemma {:induction false} HalfDollar(c: StackChange)
    requires Delta(c) == 50 || Delta(c) == -50
    ensures Drift(c) == 50
  {
  }

  lemma {:induction false} FoldMoves(s: State, t: State, k: nat)
    requires FoldedState(s, k) && FoldedState(t, k + 1)
    ensures forall i :: 0 <= i < 2 ==>
              t.seats[i].stack - s.seats[i].stack == 50 || t.seats[i].stack - s.seats[i].stack == -50
  {
  }

  lemma {:induction false} FoldDrifts(trace: seq<State>, m: nat, ids: seq<string>, mode: Mode, k: nat)
    requires FoldRun(trace, m) && TableStays(trace) && |ids| == m && k < m
    ensures var c := HandsOf(trace, ids, mode)[k].changes;
            && |c| == 2 && Drift(c[0]) == 50 == Drift(c[1]) && Drifts(c, 2) == 100 && Net(c, 2, false) == 0
  {
    var c := HandsOf(trace, ids, mode)[k].changes;
    SeatOfHand(trace, ids, mode, k, 0);
    SeatOfHand(trace, ids, mode, k, 1);
    assert FoldedAt(trace, k) && FoldedAt(trace, k + 1);
    FoldMoves(After(trace, k), After(trace, k + 1), k);
    HalfDollar(c[0]);
    HalfDollar(c[1]);
    TwoDrifts(c);
  }

  lemma {:induction false} TwoDrifts(c: seq<StackChange>)
    requires |c| == 2 && HasEscrow(c[0]) && HasEscrow(c[1])
    ensures Drifts(c, 2) == Drift(c[0]) + Drift(c[1]) && Net(c, 2, false) == 0
  {
    assert Drifts(c, 1) == Drift(c[0]);
    assert Net(c, 1, false) == 0;
  }

  lemma {:induction false} SteadyDrift(hands: seq<PlayedHand>)
    requires forall k :: 0 <= k < |hands| ==>
               var c := hands[k].changes;
               |c| == 2 && Drift(c[0]) == 50 == Drift(c[1]) && Drifts(c, 2) == 100 && Net(c, 2, false) == 0
    ensures SeatDrift(hands, 0) == SeatDrift(hands, 1) == 50 * |hands|
    ensures AllDrifts(hands) == 100 * |hands| && Unescrowed(hands) == 0
  {
    if |hands| > 0 {
      SteadyDrift(hands[..|hands| - 1]);
    }
  }

  /** In such a run every hand leaves each escrow half a dollar further above its stack and takes a dollar out of
      clearing. The errors never cancel: after two hands nobody has won or lost anything, and both escrows are a
      dollar too high. */
  lemma {:induction false} RoundingBreaksTheBooks(m: nat, deck: seq<Card>, b: Books, ids: seq<string>, mode: Mode)
      returns (trace: seq<State>)
    requires IsDeck(deck) && |ids| == m
    requires forall k :: 0 <= k < m ==> HandIsNew(b, ids[k])
    requires forall j, k :: 0 <= j < k < m ==> ids[j] != ids[k]
    requires Balance(b.entries, Escrow("A", mode)) == 1000 == Balance(b.entries, Escrow("B", mode))
    ensures PlayedHands(trace, b, ids) && trace[0] == HeadsUp(1000, 1000) && TableStays(trace)
    ensures var t := trace[|trace| - 1];
            var after := HandsPosted(b, HandsOf(trace, ids, mode), mode).entries;
            && |t.seats| == 2 && (m % 2 == 0 ==> t.seats[0].stack == 1000 == t.seats[1].stack)
            && Balance(after, Escrow("A", mode)) == t.seats[0].stack + 50 * m
            && Balance(after, Escrow("B", mode)) == t.seats[1].stack + 50 * m
            && Balance(after, Clearing(mode)) == Balance(b.entries, Clearing(mode)) - 100 * m
  {
    trace := FoldRunExists(m, deck);
    FoldRunPlays(trace, m, b, ids);
    RunsKeepTheTable(trace);
    forall k | 0 <= k < m
      ensures var c := HandsOf(trace, ids, mode)[k].changes;
              |c| == 2 && Drift(c[0]) == 50 == Drift(c[1]) && Drifts(c, 2) == 100 && Net(c, 2, false) == 0
    {
      FoldDrifts(trace, m, ids, mode, k);
    }
    SteadyDrift(HandsOf(trace, ids, mode));
    PlayedHandsKeepEscrowIff(trace, b, ids, mode, 0);
    PlayedHandsKeepEscrowIff(trace, b, ids, mode, 1);
    PlayedHandsBalanceIff(trace, b, ids, mode);
  }

  lemma {:induction false} FoldRunPlays(trace: seq<State>, m: nat, b: Books, ids: seq<string>)
    requires FoldRun(trace, m) && |ids| == m
    requires forall k :: 0 <= k < m ==> HandIsNew(b, ids[k])
    requires forall j, k :: 0 <= j < k < m ==> ids[j] != ids[k]
    ensures PlayedHands(trace, b, ids) && |trace[|trace| - 1].seats| == 2
    ensures m % 2 == 0 ==> trace[|trace| - 1].seats[0].stack == 1000 == trace[|trace| - 1].seats[1].stack
  {
    assert FoldedAt(trace, 0);
    HeadsUpSeated(1000, 1000);
  }
}
