/** The double-entry ledger (packages/database/src/ledger.ts): `transfer`, `postRake` and
    `rebalanceEscrowToStacks` over the entries and the idempotency keys. A transfer is one database
    transaction, so it happens as a whole or not at all. Stacks and amounts are in hundredths of a dollar, the
    worth of one chip, but a rebalance posts whole dollars. */
module Ledger {
  import opened Prelude

  datatype Mode = Demo | Onchain

  datatype Account =
    | Available(user: string, mode: Mode)
    | Escrow(user: string, mode: Mode)
    | Clearing(mode: Mode)
    | RakeIncome(mode: Mode)

  /** Idempotency keys, one constructor per key template. */
  datatype Key =
    | HandLoss(mode: Mode, hand: string, user: string)
    | HandWin(mode: Mode, hand: string, user: string)
    | HandRake(mode: Mode, hand: string)
    | OtherKey(text: string)

  datatype Entry = Entry(account: Account, amount: int)

  datatype Books = Books(entries: seq<Entry>, keys: set<Key>)

  datatype Error = AmountNotPositive

  // ----- Transfers -----

  function Posting(from: Account, to: Account, amount: int): seq<Entry>
  {
    [Entry(from, -amount), Entry(to, amount)]
  }

  /** A key that was used before makes the transfer a no-op. */
  function Transfer(b: Books, key: Key, from: Account, to: Account, amount: int): (r: Result<Books, Error>)
  {
    if amount <= 0 then Err(AmountNotPositive)
    else if key in b.keys then Ok(b)
    else Ok(Books(b.entries + Posting(from, to, amount), b.keys + {key}))
  }

  function PostRake(b: Books, amount: int, hand: string, mode: Mode): Books
  {
    if amount <= 0 then b
    else Transfer(b, HandRake(mode, hand), Clearing(mode), RakeIncome(mode), amount).value
  }

  // ----- Rebalancing -----

  datatype StackChange = StackChange(user: string, prev: int, next: int, mode: Mode)

  function Delta(c: StackChange): int
  {
    c.next - c.prev
  }

  /** `Math.round` of a difference in dollars, in hundredths again: half a dollar rounds up. */
  function WholeDollars(d: int): int
  {
    (d + 50) / 100 * 100
  }

  /** What a rebalance posts for a change ... */
  function Posted(c: StackChange): int
  {
    WholeDollars(Delta(c))
  }

  /** ... and by how much that misses the change. */
  function Drift(c: StackChange): int
  {
    Posted(c) - Delta(c)
  }

  /** At most half a dollar is lost or gained, and nothing exactly for whole dollars. */
  lemma {:induction false} DriftBounds(c: StackChange)
    ensures -50 < Drift(c) <= 50 && Posted(c) % 100 == 0
    ensures Drift(c) == 0 <==> Delta(c) % 100 == 0
  {
  }

  /** Vacant and bot seats have no escrow. */
  predicate HasEscrow(c: StackChange)
  {
    c.user != "" && c.user != "bot"
  }

  function KeyOf(hand: string, c: StackChange): Key
  {
    if Posted(c) < 0 then HandLoss(c.mode, hand, c.user) else HandWin(c.mode, hand, c.user)
  }

  function Rebalance(b: Books, hand: string, c: StackChange): Books
  {
    if Posted(c) == 0 || !HasEscrow(c) then b
    else if Posted(c) < 0 then Transfer(b, KeyOf(hand, c), Escrow(c.user, c.mode), Clearing(c.mode), -Posted(c)).value
    else Transfer(b, KeyOf(hand, c), Clearing(c.mode), Escrow(c.user, c.mode), Posted(c)).value
  }

  /** The books after the first `k` changes. */
  function Rebalanced(b: Books, hand: string, changes: seq<StackChange>, k: nat): Books
    requires k <= |changes|
  {
    if k == 0 then b else Rebalance(Rebalanced(b, hand, changes, k - 1), hand, changes[k - 1])
  }

  class LedgerStore {
    var entries: seq<Entry>
    var keys: set<Key>

    ghost function State(): Books
      reads this
    {
      Books(entries, keys)
    }

    constructor ()
      ensures State() == Books([], {})
    {
      entries, keys := [], {};
    }

    method Post(key: Key, from: Account, to: Account, amount: int) returns (ok: bool)
      modifies this
      ensures ok <==> amount > 0
      ensures State() == if ok then Transfer(old(State()), key, from, to, amount).value else old(State())
    {
      if amount <= 0 {
        return false;
      }
      ok := true;
      if key in keys {
        return;
      }
      keys := keys + {key};
      entries := entries + [Entry(from, -amount)];
      entries := entries + [Entry(to, amount)];
      assert entries == old(entries) + Posting(from, to, amount);
    }

    method PostHandRake(amount: int, hand: string, mode: Mode)
      modifies this
      ensures State() == PostRake(old(State()), amount, hand, mode)
    {
      if amount > 0 {
        var _ := Post(HandRake(mode, hand), Clearing(mode), RakeIncome(mode), amount);
      }
    }

    /** The source's loop; stopping it after any change leaves `Rebalanced(..., k)` for that many. */
    method RebalanceEscrowToStacks(hand: string, changes: seq<StackChange>)
      modifies this
      ensures State() == Rebalanced(old(State()), hand, changes, |changes|)
    {
      for k := 0 to |changes|
        invariant State() == Rebalanced(old(State()), hand, changes, k)
      {
        var c := changes[k];
        var delta := (c.next - c.prev + 50) / 100 * 100;
        if delta != 0 && HasEscrow(c) {
          if delta < 0 {
            var _ := Post(HandLoss(c.mode, hand, c.user), Escrow(c.user, c.mode), Clearing(c.mode), -delta);
          } else {
            var _ := Post(HandWin(c.mode, hand, c.user), Clearing(c.mode), Escrow(c.user, c.mode), delta);
          }
        }
      }
    }

    /** What the host does at the end of a hand: post the rake, then bring the escrows in line. */
    method PostHand(hand: string, changes: seq<StackChange>, rake: int, mode: Mode)
      modifies this
      ensures State() == HandPosted(old(State()), hand, changes, rake, mode)
    {
      PostHandRake(rake, hand, mode);
      RebalanceEscrowToStacks(hand, changes);
    }
  }

  // ----- Zero-sum -----

  function ModeSum(entries: seq<Entry>, mode: Mode): int
  {
    if |entries| == 0 then 0
    else
      var e := entries[|entries| - 1];
      ModeSum(entries[..|entries| - 1], mode) + if e.account.mode == mode then e.amount else 0
  }

  function Balance(entries: seq<Entry>, account: Account): int
  {
    if |entries| == 0 then 0
    else
      var e := entries[|entries| - 1];
      Balance(entries[..|entries| - 1], account) + if e.account == account then e.amount else 0
  }

  lemma {:induction false} ModeSumPosting(entries: seq<Entry>, from: Account, to: Account, amount: int, mode: Mode)
    requires from.mode == to.mode
    ensures ModeSum(entries + Posting(from, to, amount), mode) == ModeSum(entries, mode)
  {
    var more := entries + Posting(from, to, amount);
    var n := |entries|;
    assert more[..n + 1][..n] == entries;
    assert ModeSum(more[..n + 1], mode) == ModeSum(entries, mode) + if from.mode == mode then -amount else 0;
    assert more[..n + 2] == more;
  }

  lemma {:induction false} BalancePosting(entries: seq<Entry>, from: Account, to: Account, amount: int,
                                          account: Account)
    ensures Balance(entries + Posting(from, to, amount), account)
         == Balance(entries, account) - (if account == from then amount else 0) + (if account == to then amount else 0)
  {
    var more := entries + Posting(from, to, amount);
    var n := |entries|;
    assert more[..n + 1][..n] == entries;
    assert Balance(more[..n + 1], account) == Balance(entries, account) - if from == account then amount else 0;
    assert more[..n + 2] == more;
  }

  /** Any transfer between accounts of one mode. */
  ghost predicate TransfersTo(a: Books, b: Books)
  {
    exists key, from: Account, to: Account, amount :: from.mode == to.mode
      && Transfer(a, key, from, to, amount) == Ok(b)
  }

  ghost predicate TransferAt(trace: seq<Books>, i: nat)
    requires i + 1 < |trace|
  {
    TransfersTo(trace[i], trace[i + 1])
  }

  ghost predicate LedgerRun(trace: seq<Books>)
  {
    |trace| > 0 && trace[0] == Books([], {}) && forall i: nat :: i + 1 < |trace| ==> TransferAt(trace, i)
  }

  /** Over every run of transfers, each mode's entries sum to zero: no chip appears, and none crosses modes. */
  lemma {:induction false} RunsAreZeroSum(trace: seq<Books>, k: nat, mode: Mode)
    requires LedgerRun(trace) && k < |trace|
    ensures ModeSum(trace[k].entries, mode) == 0
  {
    if k > 0 {
      RunsAreZeroSum(trace, k - 1, mode);
      assert TransferAt(trace, k - 1);
      NextIsZeroSum(trace[k - 1], trace[k], mode);
    }
  }

  lemma {:induction false} NextIsZeroSum(a: Books, b: Books, mode: Mode)
    requires TransfersTo(a, b)
    ensures ModeSum(b.entries, mode) == ModeSum(a.entries, mode)
  {
    var key, from: Account, to: Account, amount :| from.mode == to.mode && Transfer(a, key, from, to, amount) == Ok(b);
    ModeSumPosting(a.entries, from, to, amount, mode);
  }

  /** Rebalancing consists of such steps, so it is zero-sum whatever it rounds. */
  lemma {:induction false} RebalanceIsAStep(b: Books, hand: string, c: StackChange)
    ensures Rebalance(b, hand, c) == b || TransfersTo(b, Rebalance(b, hand, c))
  {
    var after := Rebalance(b, hand, c);
    if Posted(c) != 0 && HasEscrow(c) {
      if Posted(c) < 0 {
        assert Transfer(b, KeyOf(hand, c), Escrow(c.user, c.mode), Clearing(c.mode), -Posted(c)) == Ok(after);
      } else {
        assert Transfer(b, KeyOf(hand, c), Clearing(c.mode), Escrow(c.user, c.mode), Posted(c)) == Ok(after);
      }
    }
  }

  lemma {:induction false} RebalanceIsZeroSum(b: Books, hand: string, changes: seq<StackChange>, k: nat, mode: Mode)
    requires k <= |changes|
    ensures ModeSum(Rebalanced(b, hand, changes, k).entries, mode) == ModeSum(b.entries, mode)
  {
    if k > 0 {
      RebalanceIsZeroSum(b, hand, changes, k - 1, mode);
      var before := Rebalanced(b, hand, changes, k - 1);
      RebalanceIsAStep(before, hand, changes[k - 1]);
      if Rebalance(before, hand, changes[k - 1]) != before {
        NextIsZeroSum(before, Rebalance(before, hand, changes[k - 1]), mode);
      }
    }
  }

  // ----- Retries -----

  /** The change has nothing left to do. */
  predicate Handled(b: Books, hand: string, c: StackChange)
  {
    Posted(c) == 0 || !HasEscrow(c) || KeyOf(hand, c) in b.keys
  }

  lemma {:induction false} HandledIsNoOp(b: Books, hand: string, c: StackChange)
    ensures Handled(b, hand, c) ==> Rebalance(b, hand, c) == b
    ensures Handled(Rebalance(b, hand, c), hand, c)
    ensures b.keys <= Rebalance(b, hand, c).keys
  {
  }

  lemma {:induction false} EarlierAreHandled(b: Books, hand: string, changes: seq<StackChange>, k: nat, i: nat)
    requires i < k <= |changes|
    ensures Handled(Rebalanced(b, hand, changes, k), hand, changes[i])
  {
    HandledIsNoOp(Rebalanced(b, hand, changes, k - 1), hand, changes[k - 1]);
    if i < k - 1 {
      EarlierAreHandled(b, hand, changes, k - 1, i);
    }
  }

  /** Starting over after `done` changes and getting through `k` leaves the books as if the further of the two
      had been reached in one go. */
  lemma {:induction false} RetryResumes(b: Books, hand: string, changes: seq<StackChange>, done: nat, k: nat)
    requires done <= |changes| && k <= |changes|
    ensures Rebalanced(Rebalanced(b, hand, changes, done), hand, changes, k)
         == Rebalanced(b, hand, changes, if k <= done then done else k)
  {
    if k > 0 {
      RetryResumes(b, hand, changes, done, k - 1);
      if k <= done {
        EarlierAreHandled(b, hand, changes, done, k - 1);
        HandledIsNoOp(Rebalanced(b, hand, changes, done), hand, changes[k - 1]);
      }
    }
  }

  /** The books after a series of interrupted attempts. */
  function Attempts(b: Books, hand: string, changes: seq<StackChange>, reached: seq<nat>): Books
    requires forall i :: 0 <= i < |reached| ==> reached[i] <= |changes|
  {
    if |reached| == 0 then b
    else Rebalanced(Attempts(b, hand, changes, reached[..|reached| - 1]), hand, changes, reached[|reached| - 1])
  }

  lemma {:induction false} AttemptsReach(b: Books, hand: string, changes: seq<StackChange>, reached: seq<nat>)
    returns (done: nat)
    requires forall i :: 0 <= i < |reached| ==> reached[i] <= |changes|
    ensures done <= |changes| && Attempts(b, hand, changes, reached) == Rebalanced(b, hand, changes, done)
  {
    if |reached| == 0 {
      done := 0;
    } else {
      var before := AttemptsReach(b, hand, changes, reached[..|reached| - 1]);
      var last := reached[|reached| - 1];
      RetryResumes(b, hand, changes, before, last);
      done := if last <= before then before else last;
    }
  }

  /** However often and wherever a rebalance was cut short, a complete retry ends where one run would have. */
  lemma {:induction false} RetriesAreIdempotent(b: Books, hand: string, changes: seq<StackChange>, reached: seq<nat>)
    requires forall i :: 0 <= i < |reached| ==> reached[i] <= |changes|
    ensures Rebalanced(Attempts(b, hand, changes, reached), hand, changes, |changes|)
            == Rebalanced(b, hand, changes, |changes|)
  {
    var done := AttemptsReach(b, hand, changes, reached);
    RetryResumes(b, hand, changes, done, |changes|);
  }

  // ----- Escrows follow the stacks -----

  ghost predicate UsersDistinct(changes: seq<StackChange>)
  {
    forall i, j :: 0 <= i < j < |changes| && HasEscrow(changes[i]) && HasEscrow(changes[j]) ==>
      changes[i].user != changes[j].user
  }

  /** No stack has been rebalanced for this hand. */
  ghost predicate StacksAreNew(b: Books, hand: string)
  {
    forall mode, user :: HandLoss(mode, hand, user) !in b.keys && HandWin(mode, hand, user) !in b.keys
  }

  /** Nothing has been posted for this hand. */
  ghost predicate HandIsNew(b: Books, hand: string)
  {
    StacksAreNew(b, hand) && forall mode :: HandRake(mode, hand) !in b.keys
  }

  ghost predicate OneMode(changes: seq<StackChange>, mode: Mode)
  {
    forall i :: 0 <= i < |changes| ==> changes[i].mode == mode
  }

  /** What the first `k` changes add to an account. */
  function Effect(changes: seq<StackChange>, k: nat, account: Account): int
    requires k <= |changes|
  {
    if k == 0 then 0
    else
      var c := changes[k - 1];
      Effect(changes, k - 1, account)
      + (if HasEscrow(c) && account == Escrow(c.user, c.mode) then Posted(c) else 0)
      - (if HasEscrow(c) && account == Clearing(c.mode) then Posted(c) else 0)
  }

  lemma {:induction false} RebalanceBalance(b: Books, hand: string, c: StackChange, account: Account)
    requires KeyOf(hand, c) !in b.keys
    ensures Balance(Rebalance(b, hand, c).entries, account)
         == Balance(b.entries, account)
            + (if HasEscrow(c) && account == Escrow(c.user, c.mode) then Posted(c) else 0)
            - (if HasEscrow(c) && account == Clearing(c.mode) then Posted(c) else 0)
  {
    BalancePosting(b.entries, Escrow(c.user, c.mode), Clearing(c.mode), -Posted(c), account);
    BalancePosting(b.entries, Clearing(c.mode), Escrow(c.user, c.mode), Posted(c), account);
  }

  /** No key of change `i` while only the changes before it have been handled. */
  lemma {:induction false} KeysStayFresh(b: Books, hand: string, changes: seq<StackChange>, k: nat, i: nat)
    requires StacksAreNew(b, hand) && UsersDistinct(changes) && k <= i < |changes| && HasEscrow(changes[i])
    ensures KeyOf(hand, changes[i]) !in Rebalanced(b, hand, changes, k).keys
  {
    if k > 0 {
      KeysStayFresh(b, hand, changes, k - 1, i);
      OneKey(Rebalanced(b, hand, changes, k - 1), hand, changes[k - 1]);
    }
  }

  lemma {:induction false} OneKey(b: Books, hand: string, c: StackChange)
    ensures Rebalance(b, hand, c).keys == b.keys
            || (HasEscrow(c) && Rebalance(b, hand, c).keys == b.keys + {KeyOf(hand, c)})
  {
  }

  lemma {:induction false} RebalancedBalance(b: Books, hand: string, changes: seq<StackChange>, k: nat,
                                             account: Account)
    requires StacksAreNew(b, hand) && UsersDistinct(changes) && k <= |changes|
    ensures Balance(Rebalanced(b, hand, changes, k).entries, account)
            == Balance(b.entries, account) + Effect(changes, k, account)
  {
    if k > 0 {
      RebalancedBalance(b, hand, changes, k - 1, account);
      if HasEscrow(changes[k - 1]) {
        KeysStayFresh(b, hand, changes, k - 1, k - 1);
        RebalanceBalance(Rebalanced(b, hand, changes, k - 1), hand, changes[k - 1], account);
      }
    }
  }

  lemma {:induction false} EscrowEffect(changes: seq<StackChange>, k: nat, i: nat)
    requires UsersDistinct(changes) && k <= |changes| && i < |changes| && HasEscrow(changes[i])
    ensures Effect(changes, k, Escrow(changes[i].user, changes[i].mode)) == if i < k then Posted(changes[i]) else 0
  {
    if k > 0 {
      EscrowEffect(changes, k - 1, i);
    }
  }

  /** Net winnings of the first `k` seats, those without an escrow counted apart. */
  function Net(changes: seq<StackChange>, k: nat, escrowed: bool): int
    requires k <= |changes|
  {
    if k == 0 then 0
    else Net(changes, k - 1, escrowed) + if HasEscrow(changes[k - 1]) == escrowed then Delta(changes[k - 1]) else 0
  }

  /** Rounding errors of the first `k` seats with an escrow. */
  function Drifts(changes: seq<StackChange>, k: nat): int
    requires k <= |changes|
  {
    if k == 0 then 0 else Drifts(changes, k - 1) + if HasEscrow(changes[k - 1]) then Drift(changes[k - 1]) else 0
  }

  lemma {:induction false} ClearingEffect(changes: seq<StackChange>, k: nat, mode: Mode)
    requires OneMode(changes, mode) && k <= |changes|
    ensures Effect(changes, k, Clearing(mode)) == -Net(changes, k, true) - Drifts(changes, k)
    ensures Effect(changes, k, RakeIncome(mode)) == 0
  {
    if k > 0 {
      ClearingEffect(changes, k - 1, mode);
    }
  }

  lemma {:induction false} RakeBalance(b: Books, amount: int, hand: string, mode: Mode, account: Account)
    requires amount >= 0 && HandIsNew(b, hand)
    ensures StacksAreNew(PostRake(b, amount, hand, mode), hand)
    ensures Balance(PostRake(b, amount, hand, mode).entries, account)
         == Balance(b.entries, account)
            - (if account == Clearing(mode) then amount else 0) + (if account == RakeIncome(mode) then amount else 0)
  {
    BalancePosting(b.entries, Clearing(mode), RakeIncome(mode), amount, account);
  }

  /** A settled hand on the books: the rake posted to the cent, then the stacks rebalanced. */
  function HandPosted(b: Books, hand: string, changes: seq<StackChange>, rake: int, mode: Mode): Books
  {
    Rebalanced(PostRake(b, rake, hand, mode), hand, changes, |changes|)
  }

  lemma {:induction false} HandPostedBalance(
      b: Books, hand: string, changes: seq<StackChange>, rake: int, mode: Mode, account: Account)
    requires HandIsNew(b, hand) && UsersDistinct(changes) && rake >= 0
    ensures Balance(HandPosted(b, hand, changes, rake, mode).entries, account)
         == Balance(b.entries, account) + Effect(changes, |changes|, account)
            - (if account == Clearing(mode) then rake else 0) + (if account == RakeIncome(mode) then rake else 0)
  {
    RakeBalance(b, rake, hand, mode, account);
    RebalancedBalance(PostRake(b, rake, hand, mode), hand, changes, |changes|, account);
  }

  /** A hand moves an escrow's error by the rounding: one that equalled its stack equals it again exactly
      when the stack changed by whole dollars. */
  lemma {:induction false} EscrowFollowsStackIff(
      b: Books, hand: string, changes: seq<StackChange>, rake: int, mode: Mode, i: nat)
    requires HandIsNew(b, hand) && UsersDistinct(changes) && OneMode(changes, mode) && rake >= 0
    requires i < |changes| && HasEscrow(changes[i])
    ensures var c := changes[i];
            var before := Balance(b.entries, Escrow(c.user, mode));
            var after := Balance(HandPosted(b, hand, changes, rake, mode).entries, Escrow(c.user, mode));
            && after - c.next == before - c.prev + Drift(c)
            && (before == c.prev ==> (after == c.next <==> Delta(c) % 100 == 0))
  {
    HandPostedBalance(b, hand, changes, rake, mode, Escrow(changes[i].user, mode));
    EscrowEffect(changes, |changes|, i);
    DriftBounds(changes[i]);
  }

  /** When the hand conserved chips, clearing is back where it was exactly if the rounding errors of the
      escrowed seats add up to what the seats without an escrow won; the rake account gains the rake to the cent. */
  lemma {:induction false} ClearingIsUnchangedIff(
      b: Books, hand: string, changes: seq<StackChange>, rake: int, mode: Mode)
    requires HandIsNew(b, hand) && UsersDistinct(changes) && OneMode(changes, mode) && rake >= 0
    requires Net(changes, |changes|, true) + Net(changes, |changes|, false) + rake == 0
    ensures var after := HandPosted(b, hand, changes, rake, mode);
            var moved := Balance(after.entries, Clearing(mode)) - Balance(b.entries, Clearing(mode));
            && moved == Net(changes, |changes|, false) - Drifts(changes, |changes|)
            && (moved == 0 <==> Drifts(changes, |changes|) == Net(changes, |changes|, false))
            && Balance(after.entries, RakeIncome(mode)) == Balance(b.entries, RakeIncome(mode)) + rake
  {
    HandPostedBalance(b, hand, changes, rake, mode, Clearing(mode));
    HandPostedBalance(b, hand, changes, rake, mode, RakeIncome(mode));
    ClearingEffect(changes, |changes|, mode);
  }

  // ----- Hand after hand -----

  datatype PlayedHand = PlayedHand(id: string, changes: seq<StackChange>, rake: int)

  function HandsPosted(b: Books, hands: seq<PlayedHand>, mode: Mode): Books
  {
    if |hands| == 0 then b
    else
      var h := hands[|hands| - 1];
      HandPosted(HandsPosted(b, hands[..|hands| - 1], mode), h.id, h.changes, h.rake, mode)
  }

  ghost predicate HandOk(h: PlayedHand, mode: Mode)
  {
    UsersDistinct(h.changes) && OneMode(h.changes, mode) && h.rake >= 0
  }

  /** Hands with different ids, none of them posted yet. */
  ghost predicate HandsOk(b: Books, hands: seq<PlayedHand>, mode: Mode)
  {
    && (forall i :: 0 <= i < |hands| ==> HandOk(hands[i], mode) && HandIsNew(b, hands[i].id))
    && (forall i, j :: 0 <= i < j < |hands| ==> hands[i].id != hands[j].id)
  }

  lemma {:induction false} OtherHandsStayNew(b: Books, h: PlayedHand, mode: Mode, k: nat, other: string)
    requires k <= |h.changes| && h.id != other && HandIsNew(b, other)
    ensures HandIsNew(Rebalanced(PostRake(b, h.rake, h.id, mode), h.id, h.changes, k), other)
  {
    if k > 0 {
      OtherHandsStayNew(b, h, mode, k - 1, other);
      OneKey(Rebalanced(PostRake(b, h.rake, h.id, mode), h.id, h.changes, k - 1), h.id, h.changes[k - 1]);
    }
  }

  lemma {:induction false} LaterHandsAreNew(b: Books, hands: seq<PlayedHand>, mode: Mode, id: string)
    requires HandIsNew(b, id) && forall i :: 0 <= i < |hands| ==> hands[i].id != id
    ensures HandIsNew(HandsPosted(b, hands, mode), id)
  {
    if |hands| > 0 {
      var n := |hands| - 1;
      LaterHandsAreNew(b, hands[..n], mode, id);
      OtherHandsStayNew(HandsPosted(b, hands[..n], mode), hands[n], mode, |hands[n].changes|, id);
    }
  }

  /** Seat `i` is one player's throughout, each hand starting from the stack the last one left. */
  ghost predicate StaysSeated(hands: seq<PlayedHand>, i: nat, user: string)
  {
    && (forall k :: 0 <= k < |hands| ==> i < |hands[k].changes| && hands[k].changes[i].user == user)
    && (forall k :: 0 < k < |hands| ==> hands[k].changes[i].prev == hands[k - 1].changes[i].next)
  }

  /** The rounding errors of one seat. */
  function SeatDrift(hands: seq<PlayedHand>, i: nat): int
    requires forall k :: 0 <= k < |hands| ==> i < |hands[k].changes|
  {
    if |hands| == 0 then 0 else SeatDrift(hands[..|hands| - 1], i) + Drift(hands[|hands| - 1].changes[i])
  }

  /** Over a series of hands the errors only add up: nothing ever corrects them. */
  lemma {:induction false} EscrowErrorsAddUp(b: Books, hands: seq<PlayedHand>, mode: Mode, i: nat, user: string)
    requires |hands| > 0 && HandsOk(b, hands, mode) && StaysSeated(hands, i, user)
    requires user != "" && user != "bot"
    ensures var last := hands[|hands| - 1].changes[i];
            Balance(HandsPosted(b, hands, mode).entries, Escrow(user, mode)) - last.next
              == Balance(b.entries, Escrow(user, mode)) - hands[0].changes[i].prev + SeatDrift(hands, i)
  {
    var n := |hands| - 1;
    var h := hands[n];
    LaterHandsAreNew(b, hands[..n], mode, h.id);
    EscrowFollowsStackIff(HandsPosted(b, hands[..n], mode), h.id, h.changes, h.rake, mode, i);
    if n > 0 {
      EscrowErrorsAddUp(b, hands[..n], mode, i, user);
    }
  }

  lemma {:induction false} SeatDriftBounds(hands: seq<PlayedHand>, i: nat)
    requires forall k :: 0 <= k < |hands| ==> i < |hands[k].changes|
    ensures -50 * |hands| <= SeatDrift(hands, i) <= 50 * |hands|
  {
    if |hands| > 0 {
      SeatDriftBounds(hands[..|hands| - 1], i);
      DriftBounds(hands[|hands| - 1].changes[i]);
    }
  }

  /** All rounding errors of escrowed seats, what seats without an escrow won, and the rake. */
  function AllDrifts(hands: seq<PlayedHand>): int
  {
    if |hands| == 0 then 0
    else
      var c := hands[|hands| - 1].changes;
      AllDrifts(hands[..|hands| - 1]) + Drifts(c, |c|)
  }

  function Unescrowed(hands: seq<PlayedHand>): int
  {
    if |hands| == 0 then 0
    else
      var c := hands[|hands| - 1].changes;
      Unescrowed(hands[..|hands| - 1]) + Net(c, |c|, false)
  }

  function AllRake(hands: seq<PlayedHand>): int
  {
    if |hands| == 0 then 0 else AllRake(hands[..|hands| - 1]) + hands[|hands| - 1].rake
  }

  /** The winners got what the losers lost, less the rake. */
  predicate Conserves(h: PlayedHand)
  {
    Net(h.changes, |h.changes|, true) + Net(h.changes, |h.changes|, false) + h.rake == 0
  }

  /** Clearing, too, only collects the errors: over any series of hands that conserve chips it is back where it
      was exactly if they add up to what the seats without an escrow won. */
  lemma {:induction false} ClearingErrorsAddUp(b: Books, hands: seq<PlayedHand>, mode: Mode)
    requires HandsOk(b, hands, mode) && forall k :: 0 <= k < |hands| ==> Conserves(hands[k])
    ensures var after := HandsPosted(b, hands, mode).entries;
            && Balance(after, Clearing(mode))
               == Balance(b.entries, Clearing(mode)) + Unescrowed(hands) - AllDrifts(hands)
            && Balance(after, RakeIncome(mode)) == Balance(b.entries, RakeIncome(mode)) + AllRake(hands)
  {
    if |hands| > 0 {
      var n := |hands| - 1;
      var h := hands[n];
      ClearingErrorsAddUp(b, hands[..n], mode);
      LaterHandsAreNew(b, hands[..n], mode, h.id);
      assert Conserves(h);
      ClearingIsUnchangedIff(HandsPosted(b, hands[..n], mode), h.id, h.changes, h.rake, mode);
    }
  }

  // ----- Which keys a hand uses up -----

  /** Posting the change uses this key: one for losses and another for wins, by hand and player. */
  predicate Uses(hand: string, c: StackChange, key: Key)
  {
    HasEscrow(c) && ((WholeDollars(c.next - c.prev) < 0 && key == HandLoss(c.mode, hand, c.user))
                     || (WholeDollars(c.next - c.prev) > 0 && key == HandWin(c.mode, hand, c.user)))
  }

  /** A rebalance adds exactly the keys of the changes it posts. */
  lemma {:induction false} RebalanceKeys(b: Books, hand: string, changes: seq<StackChange>, k: nat, key: Key)
    requires k <= |changes|
    ensures key in Rebalanced(b, hand, changes, k).keys <==>
              key in b.keys || exists i :: 0 <= i < k && Uses(hand, changes[i], key)
  {
    if k > 0 {
      RebalanceKeys(b, hand, changes, k - 1, key);
      ChangeKeys(Rebalanced(b, hand, changes, k - 1), hand, changes[k - 1], key);
    }
  }

  lemma {:induction false} ChangeKeys(b: Books, hand: string, c: StackChange, key: Key)
    ensures key in Rebalance(b, hand, c).keys <==> key in b.keys || Uses(hand, c, key)
  {
  }
}
