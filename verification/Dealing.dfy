/** Where every card is: hole cards, burns, board and deck are slices of the one shuffled deck
    (packages/game-rules/src/holdem.ts, lines 409-416 and 470-479). */
module Dealing {
  import opened Prelude
  import opened Cards
  import opened Table
  import opened Holdem
  import opened Settlement
  import opened Invariant
  import opened Opening
  import opened Runs

  // ----- Hole cards -----

  function Holes(seats: seq<Seat>): (r: seq<Option<seq<Card>>>)
    ensures |r| == |seats|
    ensures forall i :: 0 <= i < |seats| ==> r[i] == seats[i].hole
  {
    seq(|seats|, i requires 0 <= i < |seats| => seats[i].hole)
  }

  /** How many of the first `i` seats hold cards. */
  function HoldersBefore(holes: seq<Option<seq<Card>>>, i: nat): (r: nat)
    requires i <= |holes|
    ensures r <= i
  {
    if i == 0 then 0 else HoldersBefore(holes, i - 1) + if holes[i - 1].Some? then 1 else 0
  }

  /** Each holder has the next two cards from the top of the deck. */
  ghost predicate HolesFrom(holes: seq<Option<seq<Card>>>, deck: seq<Card>)
  {
    && 2 * HoldersBefore(holes, |holes|) <= |deck|
    && forall i :: 0 <= i < |holes| && holes[i].Some? ==>
         2 * HoldersBefore(holes, i) + 2 <= |deck|
         && holes[i].value == deck[2 * HoldersBefore(holes, i)..2 * HoldersBefore(holes, i) + 2]
  }

  /** All hole cards, in seat order. */
  function AllHoles(holes: seq<Option<seq<Card>>>, i: nat): seq<Card>
    requires i <= |holes|
  {
    if i == 0 then [] else AllHoles(holes, i - 1) + if holes[i - 1].Some? then holes[i - 1].value else []
  }

  lemma {:induction false} HolesAreTopCards(holes: seq<Option<seq<Card>>>, deck: seq<Card>, i: nat)
    requires HolesFrom(holes, deck) && i <= |holes|
    ensures 2 * HoldersBefore(holes, i) <= |deck|
    ensures AllHoles(holes, i) == deck[..2 * HoldersBefore(holes, i)]
  {
    if i > 0 {
      HolesAreTopCards(holes, deck, i - 1);
      var k := 2 * HoldersBefore(holes, i - 1);
      if holes[i - 1].Some? {
        assert deck[..k + 2] == deck[..k] + deck[k..k + 2];
      }
    }
  }

  // ----- The rest of the deck -----

  /** Cards used once the board holds `b` cards: three burns and the board. */
  function UsedFor(b: nat): nat
  {
    if b == 0 then 0 else if b == 3 then 4 else if b == 4 then 6 else 8
  }

  /** The board dealt from the cards below the hole cards. */
  function BoardFrom(rest: seq<Card>, b: nat): seq<Card>
    requires |rest| >= 8
  {
    if b == 0 then []
    else if b == 3 then rest[1..4]
    else if b == 4 then rest[1..4] + rest[5..6]
    else rest[1..4] + rest[5..6] + rest[7..8]
  }

  function BurnsFrom(rest: seq<Card>, b: nat): seq<Card>
    requires |rest| >= 8
  {
    if b == 0 then []
    else if b == 3 then rest[..1]
    else if b == 4 then rest[..1] + rest[4..5]
    else rest[..1] + rest[4..5] + rest[6..7]
  }

  /** Every card is where the shuffled deck `d` puts it. */
  ghost predicate DealtFrom(st: State, d: seq<Card>)
  {
    var holes := Holes(st.seats);
    var top := 2 * HoldersBefore(holes, |holes|);
    && HolesFrom(holes, d)
    && |d| - top >= 8
    && (|st.board| == 0 || 3 <= |st.board| <= 5)
    && st.board == BoardFrom(d[top..], |st.board|)
    && st.deck == d[top + UsedFor(|st.board|)..]
  }

  /** Burned cards; the engine drops them, but the deck says which they were. */
  ghost function Burned(st: State, d: seq<Card>): seq<Card>
    requires DealtFrom(st, d)
  {
    BurnsFrom(d[2 * HoldersBefore(Holes(st.seats), |st.seats|)..], |st.board|)
  }

  ghost predicate Partitioned(rest: seq<Card>, b: nat)
    requires |rest| >= 8
  {
    multiset(rest) == multiset(BurnsFrom(rest, b)) + multiset(BoardFrom(rest, b)) + multiset(rest[UsedFor(b)..])
  }

  lemma {:induction false} RestPartition(rest: seq<Card>, b: nat)
    requires |rest| >= 8 && (b == 0 || 3 <= b <= 5)
    ensures Partitioned(rest, b)
  {
    if b == 0 {
      assert rest[0..] == rest;
    } else {
      FlopPartition(rest);
      if b > 3 {
        TurnPartition(rest);
      }
      if b > 4 {
        RiverPartition(rest);
      }
    }
  }

  lemma {:induction false} FlopPartition(rest: seq<Card>)
    requires |rest| >= 8
    ensures Partitioned(rest, 3)
  {
    CutAt(rest, 1);
    CutAt(rest[1..], 3);
    assert rest[1..][..3] == rest[1..4] && rest[1..][3..] == rest[4..];
  }

  lemma {:induction false} TurnPartition(rest: seq<Card>)
    requires |rest| >= 8 && Partitioned(rest, 3)
    ensures Partitioned(rest, 4)
  {
    TwoMore(rest, 4);
    JoinContents(rest[..1], rest[4..5]);
    JoinContents(rest[1..4], rest[5..6]);
  }

  lemma {:induction false} RiverPartition(rest: seq<Card>)
    requires |rest| >= 8 && Partitioned(rest, 4)
    ensures Partitioned(rest, 5)
  {
    TwoMore(rest, 6);
    JoinContents(rest[..1] + rest[4..5], rest[6..7]);
    JoinContents(rest[1..4] + rest[5..6], rest[7..8]);
  }

  lemma {:induction false} CutAt(s: seq<Card>, k: nat)
    requires k <= |s|
    ensures multiset(s) == multiset(s[..k]) + multiset(s[k..])
  {
    assert s == s[..k] + s[k..];
  }

  lemma {:induction false} JoinContents(a: seq<Card>, b: seq<Card>)
    ensures multiset(a + b) == multiset(a) + multiset(b)
  {
  }

  lemma {:induction false} TwoMore(s: seq<Card>, k: nat)
    requires k + 2 <= |s|
    ensures multiset(s[k..]) == multiset(s[k..k + 1]) + multiset(s[k + 1..k + 2]) + multiset(s[k + 2..])
  {
    assert s[k..] == s[k..k + 1] + (s[k + 1..k + 2] + s[k + 2..]);
    JoinContents(s[k..k + 1], s[k + 1..k + 2] + s[k + 2..]);
    JoinContents(s[k + 1..k + 2], s[k + 2..]);
  }

  /** Hole cards, burns, board and deck together are the full deck: no card is ever dealt twice. */
  lemma {:induction false} CardsPartition(st: State, d: seq<Card>)
    requires IsDeck(d) && DealtFrom(st, d)
    ensures multiset(AllHoles(Holes(st.seats), |st.seats|)) + multiset(Burned(st, d)) + multiset(st.board)
            + multiset(st.deck)
         == multiset(FullDeck())
  {
    var holes := Holes(st.seats);
    var top := 2 * HoldersBefore(holes, |holes|);
    HolesAreTopCards(holes, d, |holes|);
    RestPartition(d[top..], |st.board|);
    CutAt(d, top);
    assert d[top..][UsedFor(|st.board|)..] == st.deck;
  }

  // ----- Dealing a hand -----

  lemma {:induction false} HoldersAreDealt(seats: seq<Seat>, deck: seq<Card>, i: nat)
    requires 2 * |seats| <= |deck| && i <= |seats|
    requires forall j :: 0 <= j < |seats| ==> seats[j].hole.None?
    ensures HoldersBefore(Holes(DealtSeats(seats, deck)), i) == DealtBefore(seats, i)
  {
    if i > 0 {
      HoldersAreDealt(seats, deck, i - 1);
    }
  }

  lemma {:induction false} DealtHolesFrom(seats: seq<Seat>, deck: seq<Card>)
    requires 2 * |seats| <= |deck|
    requires forall j :: 0 <= j < |seats| ==> seats[j].hole.None?
    ensures HolesFrom(Holes(DealtSeats(seats, deck)), deck)
    ensures HoldersBefore(Holes(DealtSeats(seats, deck)), |seats|) == DealtBefore(seats, |seats|)
  {
    var holes := Holes(DealtSeats(seats, deck));
    HoldersAreDealt(seats, deck, |seats|);
    forall i | 0 <= i < |holes| && holes[i].Some?
      ensures 2 * HoldersBefore(holes, i) + 2 <= |deck|
      ensures holes[i].value == deck[2 * HoldersBefore(holes, i)..2 * HoldersBefore(holes, i) + 2]
    {
      HoldersAreDealt(seats, deck, i);
    }
  }

  lemma {:induction false} PostedHoldNothing(st: State, deck: seq<Card>, j: nat)
    requires CanStart(st, deck) && |EligibleSet(st.seats)| >= 2 && j < |st.seats|
    ensures PostBlinds(FreshSeats(st.seats), st.config, HandPositions(st.seats, st.button))[j].hole.None?
  {
    PostedAt(FreshSeats(st.seats), st.config, HandPositions(st.seats, st.button), j);
  }

  lemma {:induction false} StartHandDeals(st: State, deck: seq<Card>)
    requires CanStart(st, deck) && StartHand(st, deck).Ok?
    ensures DealtFrom(StartHand(st, deck).value, deck)
  {
    var posted := PostBlinds(FreshSeats(st.seats), st.config, HandPositions(st.seats, st.button));
    forall j | 0 <= j < |posted|
      ensures posted[j].hole.None?
    {
      PostedHoldNothing(st, deck, j);
    }
    DealtHolesFrom(posted, deck);
  }

  // ----- Nothing else moves cards -----

  ghost predicate SameCards(s: State, t: State)
  {
    Holes(t.seats) == Holes(s.seats) && t.board == s.board && t.deck == s.deck
  }

  /** One burn and the next board cards have left the deck. */
  ghost predicate Turned(s: State, t: State)
  {
    var need := NextDeal(|s.board|);
    && Holes(t.seats) == Holes(s.seats)
    && 0 < need <= |s.deck|
    && t.board == s.board + s.deck[1..need]
    && t.deck == s.deck[need..]
  }

  lemma {:induction false} TurnedStaysDealt(s: State, t: State, d: seq<Card>)
    requires DealtFrom(s, d) && Turned(s, t)
    ensures DealtFrom(t, d)
  {
    var top := 2 * HoldersBefore(Holes(s.seats), |s.seats|);
    var rest := d[top..];
    var b := |s.board|;
    assert s.deck == rest[UsedFor(b)..];
    assert b == 0 || b == 3 || b == 4;
    SliceOfDrop(rest, UsedFor(b), 1, NextDeal(b));
    assert t.deck == d[top + UsedFor(b) + NextDeal(b)..];
    assert t.board == BoardFrom(rest, |t.board|);
  }

  lemma {:induction false} SliceOfDrop(rest: seq<Card>, u: nat, i: nat, j: nat)
    requires i <= j && u + j <= |rest|
    ensures rest[u..][i..j] == rest[u + i..u + j]
  {
  }

  lemma {:induction false} WagerSameCards(st: State, a: nat, action: Action, bounds: Bounds, amount: Option<int>)
    requires a < |st.seats|
    ensures SameCards(st, Wager(st, a, action, bounds, amount))
  {
  }

  lemma {:induction false} DealStreetTurns(st: State)
    requires WellFormed(st) && NextDeal(|st.board|) > 0
    ensures Turned(st, DealStreet(st))
  {
    assert Holes(ResetBets(st.seats)) == Holes(st.seats);
  }

  lemma {:induction false} FoldWinSameCards(st: State)
    ensures SameCards(st, FoldWin(st))
  {
    assert Holes(FoldWin(st).seats) == Holes(st.seats);
  }

  lemma {:induction false} SettleSameCards(st: State)
    requires st.button < |st.seats|
    ensures SameCards(st, Settle(st))
  {
    assert Holes(Settle(st).seats) == Holes(st.seats);
  }

  lemma {:induction false} RunoutCards(st: State)
    requires WellFormed(st)
    ensures SameCards(st, MaybeRunout(st)) || Turned(st, MaybeRunout(st))
  {
    var r := MaybeRunout(st);
    if |LiveSet(st.seats)| == 1 {
      FoldWinSameCards(st);
    } else if r == Settle(st) {
      SettleSameCards(st);
    } else if NextDeal(|st.board|) > 0 && r == DealStreet(st) {
      DealStreetTurns(st);
    } else {
      assert r.seats == st.seats;
    }
  }

  lemma {:induction false} AdvanceCards(st: State, a: nat)
    requires WellFormed(st)
    ensures SameCards(st, Advance(st, a)) || Turned(st, Advance(st, a))
  {
    var r, s0 := Advance(st, a), st.(acting := None);
    if r == Settle(st) {
      SettleSameCards(st);
    } else if r == MaybeRunout(s0) {
      RunoutCards(s0);
      SameCardsChain(st, s0, r);
    } else {
      assert r.seats == st.seats;
    }
  }

  lemma {:induction false} ContinueCards(st: State)
    requires WellFormed(st)
    ensures SameCards(st, ContinueRunout(st)) || Turned(st, ContinueRunout(st))
  {
    var s0 := st.(acting := None);
    FoldWinSameCards(s0);
    SettleSameCards(s0);
    if NextDeal(|st.board|) > 0 {
      DealStreetTurns(s0);
    }
  }

  lemma {:induction false} SameCardsChain(s: State, t: State, u: State)
    requires SameCards(s, t) && (SameCards(t, u) || Turned(t, u))
    ensures SameCards(s, u) || Turned(s, u)
  {
  }

  lemma {:induction false} PlayCards(s: State, t: State, action: Action, amount: Option<int>)
    requires Plays(s, t, action, amount)
    ensures SameCards(s, t) || Turned(s, t)
  {
    LegalMovesAreAccepted(s, action, amount);
    ApplyUnfolds(s, action, amount);
    var next := AfterWager(s, action, amount);
    WagerSameCards(s, s.acting.value, action, LegalActions(s)[action], amount);
    AdvanceCards(next, s.acting.value);
    SameCardsChain(s, next, t);
  }

  ghost predicate CardsAccounted(st: State)
  {
    exists d :: IsDeck(d) && DealtFrom(st, d)
  }

  lemma {:induction false} NextKeepsCards(s: State, t: State)
    requires Next(s, t) && (CardsAccounted(s) || !InHandStreet(s.street))
    ensures CardsAccounted(t)
  {
    if exists deck :: Deals(s, t, deck) {
      var deck :| Deals(s, t, deck);
      StartHandDeals(s, deck);
      assert IsDeck(deck) && DealtFrom(t, deck);
    } else {
      var d :| IsDeck(d) && DealtFrom(s, d);
      if RunsOut(s, t) {
        ContinueCards(s);
      } else {
        var action, amount :| Plays(s, t, action, amount);
        PlayCards(s, t, action, amount);
      }
      MovedStaysDealt(s, t, d);
    }
  }

  lemma {:induction false} MovedStaysDealt(s: State, t: State, d: seq<Card>)
    requires DealtFrom(s, d) && (SameCards(s, t) || Turned(s, t))
    ensures DealtFrom(t, d)
  {
    if !SameCards(s, t) {
      TurnedStaysDealt(s, t, d);
    }
  }

  /** In every run, from the first deal on, the cards in play come from one full deck, each once. */
  lemma {:induction false} RunsDealEachCardOnce(trace: seq<State>, k: nat)
    requires Run(trace) && !InHandStreet(trace[0].street) && 0 < k < |trace|
    ensures CardsAccounted(trace[k])
  {
    if k > 1 {
      RunsDealEachCardOnce(trace, k - 1);
    }
    assert StepAt(trace, k - 1);
    NextKeepsCards(trace[k - 1], trace[k]);
  }
}
