/** Epoch rotation (packages/database/src/epoch-rotation.ts): seat changes queue up during a hand and
    are applied at the boundary to the next epoch. Amounts are whole numbers. */
module Epochs {
  import opened Prelude

  datatype Phase = BetweenHands | HandActive

  datatype Kind = Join | Leave | TopUp

  datatype Status = Pending | Applied | Rejected | Cancelled

  datatype Participant = Participant(owner: string, seat: int, stack: int, allIn: bool)

  /** The idempotency key of a queued change: the caller's, or one made of the request, its target and the phase. */
  datatype Key = Given(text: string) | Standard(kind: Kind, owner: string, targetEpoch: int, phase: Phase)

  /** `order` stands for the place of the request's time (or id) among all requests. */
  datatype Change = Change(
    id: string,
    targetEpoch: int,
    kind: Kind,
    status: Status,
    owner: string,
    seat: Option<int>,
    amount: Option<int>,
    order: int,
    key: Key)

  datatype Reason =
    | NotSeatedAtBoundary
    | AllInUnresolved
    | InvalidTopUp
    | AlreadySeated
    | InvalidBuyIn
    | NoOpenSeat

  datatype Rejection = Rejection(id: string, reason: Reason)

  /** The plan in the making: the table so far and what became of each change. */
  datatype Plan = Plan(
    seats: seq<Participant>,
    leaves: seq<Change>,
    topUps: seq<Change>,
    joins: seq<Change>,
    applied: seq<string>,
    rejected: seq<Rejection>)

  // ----- Seats -----

  function FindOwner(seats: seq<Participant>, owner: string): (r: Option<nat>)
    ensures r.Some? ==> r.value < |seats| && seats[r.value].owner == owner
    ensures r.None? ==> forall i :: 0 <= i < |seats| ==> seats[i].owner != owner
  {
    if |seats| == 0 then None
    else
      var n := |seats| - 1;
      var r := FindOwner(seats[..n], owner);
      if r.Some? then r
      else
        assert forall i :: 0 <= i < n ==> seats[..n][i] == seats[i];
        if seats[n].owner == owner then Some(n) else None
  }

  function RemoveAt(seats: seq<Participant>, i: nat): (r: seq<Participant>)
    requires i < |seats|
    ensures |r| == |seats| - 1
  {
    seats[..i] + seats[i + 1..]
  }

  predicate Taken(seats: seq<Participant>, seat: int)
  {
    exists i :: 0 <= i < |seats| && seats[i].seat == seat
  }

  /** Free seats below `n`, ascending. */
  function Empties(seats: seq<Participant>, n: nat): (r: seq<int>)
    ensures forall i :: 0 <= i < |r| ==> 0 <= r[i] < n && !Taken(seats, r[i])
  {
    if n == 0 then [] else Empties(seats, n - 1) + if Taken(seats, n - 1) then [] else [n - 1]
  }

  lemma {:induction false} EmptiesLists(seats: seq<Participant>, n: nat, seat: int)
    requires 0 <= seat < n && !Taken(seats, seat)
    ensures seat in Empties(seats, n)
  {
    if seat < n - 1 {
      EmptiesLists(seats, n - 1, seat);
    }
  }

  /** The seat a join gets: the one asked for if it is free, else the lowest free one. */
  function SeatFor(seats: seq<Participant>, maxSeats: nat, wish: Option<int>): (r: Option<int>)
    ensures r.Some? ==> 0 <= r.value < maxSeats && !Taken(seats, r.value)
  {
    var free := Empties(seats, maxSeats);
    if wish.Some? && wish.value in free then wish else if |free| > 0 then Some(free[0]) else None
  }

  // ----- One change at the boundary -----

  function Amount(c: Change): int
  {
    if c.amount.Some? then c.amount.value else 0
  }

  function Refuse(p: Plan, c: Change, why: Reason): Plan
  {
    p.(rejected := p.rejected + [Rejection(c.id, why)])
  }

  function ApplyLeave(p: Plan, c: Change): Plan
  {
    match FindOwner(p.seats, c.owner)
    case None => Refuse(p, c, NotSeatedAtBoundary)
    case Some(i) =>
      if p.seats[i].allIn then Refuse(p, c, AllInUnresolved)
      else p.(seats := RemoveAt(p.seats, i), leaves := p.leaves + [c], applied := p.applied + [c.id])
  }

  function ApplyTopUp(p: Plan, c: Change): Plan
  {
    match FindOwner(p.seats, c.owner)
    case None => Refuse(p, c, NotSeatedAtBoundary)
    case Some(i) =>
      if Amount(c) <= 0 then Refuse(p, c, InvalidTopUp)
      else p.(seats := p.seats[i := p.seats[i].(stack := p.seats[i].stack + Amount(c))],
              topUps := p.topUps + [c], applied := p.applied + [c.id])
  }

  function ApplyJoin(p: Plan, c: Change, maxSeats: nat): Plan
  {
    if FindOwner(p.seats, c.owner).Some? then Refuse(p, c, AlreadySeated)
    else if Amount(c) <= 0 then Refuse(p, c, InvalidBuyIn)
    else
      match SeatFor(p.seats, maxSeats, c.seat)
      case None => Refuse(p, c, NoOpenSeat)
      case Some(seat) =>
        p.(seats := p.seats + [Participant(c.owner, seat, Amount(c), false)],
           joins := p.joins + [c.(seat := Some(seat))], applied := p.applied + [c.id])
  }

  function ApplyChange(p: Plan, c: Change, maxSeats: nat): Plan
  {
    match c.kind
    case Leave => ApplyLeave(p, c)
    case TopUp => ApplyTopUp(p, c)
    case Join => ApplyJoin(p, c, maxSeats)
  }

  function Opening(participants: seq<Participant>): Plan
  {
    Plan(participants, [], [], [], [], [])
  }

  /** The plan after the first `k` changes. */
  function Planned(participants: seq<Participant>, changes: seq<Change>, maxSeats: nat, k: nat): Plan
    requires k <= |changes|
  {
    if k == 0 then Opening(participants)
    else ApplyChange(Planned(participants, changes, maxSeats, k - 1), changes[k - 1], maxSeats)
  }

  // ----- Order of application -----

  function Rank(k: Kind): int
  {
    match k case Leave => 0 case TopUp => 1 case Join => 2
  }

  predicate NotAfter(a: Change, b: Change)
  {
    Rank(a.kind) < Rank(b.kind) || (Rank(a.kind) == Rank(b.kind) && a.order <= b.order)
  }

  ghost predicate InOrder(s: seq<Change>)
  {
    forall i, j :: 0 <= i < j < |s| ==> NotAfter(s[i], s[j])
  }

  /** `x` put in behind everything it does not precede: equal keys keep their order. */
  function Place(s: seq<Change>, x: Change): (r: seq<Change>)
    decreases |s|
  {
    if |s| == 0 then [x]
    else if NotAfter(s[|s| - 1], x) then s + [x]
    else Place(s[..|s| - 1], x) + [s[|s| - 1]]
  }

  function Sort(s: seq<Change>): (r: seq<Change>)
  {
    if |s| == 0 then [] else Place(Sort(s[..|s| - 1]), s[|s| - 1])
  }

  lemma {:induction false} PlaceAdds(s: seq<Change>, x: Change)
    ensures multiset(Place(s, x)) == multiset(s) + multiset{x}
  {
    if |s| > 0 {
      var n := |s| - 1;
      assert s == s[..n] + [s[n]];
      PlaceAdds(s[..n], x);
    }
  }

  lemma {:induction false} SortPermutes(s: seq<Change>)
    ensures multiset(Sort(s)) == multiset(s)
  {
    if |s| > 0 {
      var n := |s| - 1;
      assert s == s[..n] + [s[n]];
      SortPermutes(s[..n]);
      PlaceAdds(Sort(s[..n]), s[n]);
    }
  }

  ghost predicate AllNotAfter(s: seq<Change>, x: Change)
  {
    forall i :: 0 <= i < |s| ==> NotAfter(s[i], x)
  }

  lemma {:induction false} PlaceBounded(s: seq<Change>, x: Change, y: Change)
    requires AllNotAfter(s, y) && NotAfter(x, y)
    ensures AllNotAfter(Place(s, x), y)
  {
    if |s| > 0 && !NotAfter(s[|s| - 1], x) {
      PlaceBounded(s[..|s| - 1], x, y);
    }
  }

  lemma {:induction false} PlaceSorts(s: seq<Change>, x: Change)
    requires InOrder(s)
    ensures InOrder(Place(s, x))
  {
    if |s| > 0 && !NotAfter(s[|s| - 1], x) {
      PlaceSorts(s[..|s| - 1], x);
      PlaceBounded(s[..|s| - 1], x, s[|s| - 1]);
    }
  }

  lemma {:induction false} SortSorts(s: seq<Change>)
    ensures InOrder(Sort(s))
  {
    if |s| > 0 {
      SortSorts(s[..|s| - 1]);
      PlaceSorts(Sort(s[..|s| - 1]), s[|s| - 1]);
    }
  }

  /** Changes the boundary that closes `epoch` looks at. */
  predicate Due(c: Change, epoch: int)
  {
    c.status == Pending && (c.targetEpoch == epoch + 1 || c.targetEpoch == epoch)
  }

  function DueOf(queue: seq<Change>, epoch: int): (r: seq<Change>)
    ensures |r| <= |queue|
    ensures forall i :: 0 <= i < |r| ==> Due(r[i], epoch)
  {
    if |queue| == 0 then []
    else
      var front := DueOf(queue[..|queue| - 1], epoch);
      if Due(queue[|queue| - 1], epoch) then front + [queue[|queue| - 1]] else front
  }

  // ----- Seat order -----

  function PlaceSeat(s: seq<Participant>, x: Participant): (r: seq<Participant>)
    decreases |s|
  {
    if |s| == 0 then [x]
    else if s[|s| - 1].seat <= x.seat then s + [x]
    else PlaceSeat(s[..|s| - 1], x) + [s[|s| - 1]]
  }

  function SortSeats(s: seq<Participant>): (r: seq<Participant>)
  {
    if |s| == 0 then [] else PlaceSeat(SortSeats(s[..|s| - 1]), s[|s| - 1])
  }

  lemma {:induction false} PlaceSeatAdds(s: seq<Participant>, x: Participant)
    ensures multiset(PlaceSeat(s, x)) == multiset(s) + multiset{x}
  {
    if |s| > 0 {
      var n := |s| - 1;
      assert s == s[..n] + [s[n]];
      PlaceSeatAdds(s[..n], x);
    }
  }

  lemma {:induction false} SortSeatsPermutes(s: seq<Participant>)
    ensures multiset(SortSeats(s)) == multiset(s)
  {
    if |s| > 0 {
      var n := |s| - 1;
      assert s == s[..n] + [s[n]];
      SortSeatsPermutes(s[..n]);
      PlaceSeatAdds(SortSeats(s[..n]), s[n]);
    }
  }

  ghost predicate SeatsAscend(s: seq<Participant>)
  {
    forall i, j :: 0 <= i < j < |s| ==> s[i].seat <= s[j].seat
  }

  ghost predicate SeatsUpTo(s: seq<Participant>, y: int)
  {
    forall i :: 0 <= i < |s| ==> s[i].seat <= y
  }

  lemma {:induction false} PlaceSeatUpTo(s: seq<Participant>, x: Participant, y: int)
    requires SeatsUpTo(s, y) && x.seat <= y
    ensures SeatsUpTo(PlaceSeat(s, x), y)
  {
    if |s| > 0 && s[|s| - 1].seat > x.seat {
      PlaceSeatUpTo(s[..|s| - 1], x, y);
    }
  }

  lemma {:induction false} PlaceSeatAscends(s: seq<Participant>, x: Participant)
    requires SeatsAscend(s)
    ensures SeatsAscend(PlaceSeat(s, x))
  {
    if |s| > 0 && s[|s| - 1].seat > x.seat {
      PlaceSeatAscends(s[..|s| - 1], x);
      PlaceSeatUpTo(s[..|s| - 1], x, s[|s| - 1].seat);
    }
  }

  lemma {:induction false} SortSeatsAscends(s: seq<Participant>)
    ensures SeatsAscend(SortSeats(s))
  {
    if |s| > 0 {
      SortSeatsAscends(s[..|s| - 1]);
      PlaceSeatAscends(SortSeats(s[..|s| - 1]), s[|s| - 1]);
    }
  }

  // ----- planEpochBoundary -----

  function Changes(queue: seq<Change>, epoch: int): seq<Change>
  {
    Sort(DueOf(queue, epoch))
  }

  /** The finished plan; the table of the next epoch is in seat order. */
  function Boundary(participants: seq<Participant>, queue: seq<Change>, epoch: int, maxSeats: nat): Plan
  {
    var changes := Changes(queue, epoch);
    var p := Planned(participants, changes, maxSeats, |changes|);
    p.(seats := SortSeats(p.seats))
  }

  /** The source's loop. */
  method PlanEpochBoundary(currentEpoch: int, participants: seq<Participant>, pending: seq<Change>, maxSeats: nat)
    returns (plan: Plan, closedEpoch: int, nextEpoch: int)
    ensures plan == Boundary(participants, pending, currentEpoch, maxSeats)
    ensures closedEpoch == currentEpoch && nextEpoch == currentEpoch + 1
  {
    closedEpoch, nextEpoch := currentEpoch, currentEpoch + 1;
    var relevant := Changes(pending, currentEpoch);
    plan := Opening(participants);
    for k := 0 to |relevant|
      invariant plan == Planned(participants, relevant, maxSeats, k)
    {
      plan := HandleChange(plan, relevant[k], maxSeats);
    }
    plan := plan.(seats := SortSeats(plan.seats));
  }

  /** The loop's body. */
  method HandleChange(p: Plan, c: Change, maxSeats: nat) returns (q: Plan)
    ensures q == ApplyChange(p, c, maxSeats)
  {
    q := p;
    var found := FindOwner(p.seats, c.owner);
    var verdict: Option<Reason> := None;
    match c.kind {
      case Leave =>
        if found.None? {
          verdict := Some(NotSeatedAtBoundary);
        } else if p.seats[found.value].allIn {
          verdict := Some(AllInUnresolved);
        } else {
          q := q.(seats := RemoveAt(p.seats, found.value), leaves := p.leaves + [c]);
        }
      case TopUp =>
        if found.None? {
          verdict := Some(NotSeatedAtBoundary);
        } else if Amount(c) <= 0 {
          verdict := Some(InvalidTopUp);
        } else {
          var topped := p.seats[found.value].(stack := p.seats[found.value].stack + Amount(c));
          q := q.(seats := p.seats[found.value := topped], topUps := p.topUps + [c]);
        }
      case Join =>
        var free := EmptySeatIndices(p.seats, maxSeats);
        if found.Some? {
          verdict := Some(AlreadySeated);
        } else if Amount(c) <= 0 {
          verdict := Some(InvalidBuyIn);
        } else if |free| == 0 {
          verdict := Some(NoOpenSeat);
        } else {
          var seat := if c.seat.Some? && c.seat.value in free then c.seat.value else free[0];
          q := q.(seats := p.seats + [Participant(c.owner, seat, Amount(c), false)],
                  joins := p.joins + [c.(seat := Some(seat))]);
        }
    }
    if verdict.Some? {
      q := q.(rejected := p.rejected + [Rejection(c.id, verdict.value)]);
    } else {
      q := q.(applied := p.applied + [c.id]);
    }
  }

  method EmptySeatIndices(seats: seq<Participant>, maxSeats: nat) returns (free: seq<int>)
    ensures free == Empties(seats, maxSeats)
  {
    var taken := set p | p in seats :: p.seat;
    free := [];
    for i := 0 to maxSeats
      invariant free == Empties(seats, i)
    {
      assert i in taken <==> Taken(seats, i);
      if i !in taken {
        free := free + [i];
      }
    }
  }

  // ----- Owners and seats stay distinct and in range -----

  ghost predicate SeatsOk(seats: seq<Participant>, maxSeats: nat)
  {
    && (forall i :: 0 <= i < |seats| ==> 0 <= seats[i].seat < maxSeats)
    && (forall i, j :: 0 <= i < j < |seats| ==> seats[i].owner != seats[j].owner && seats[i].seat != seats[j].seat)
  }

  lemma {:induction false} ApplyKeepsSeats(p: Plan, c: Change, maxSeats: nat)
    requires SeatsOk(p.seats, maxSeats)
    ensures SeatsOk(ApplyChange(p, c, maxSeats).seats, maxSeats)
  {
    var found := FindOwner(p.seats, c.owner);
    match c.kind
    case Leave =>
      if found.Some? {
        RemoveKeepsSeats(p.seats, found.value, maxSeats);
      }
    case TopUp =>
    case Join => JoinKeepsSeats(p, c, maxSeats);
  }

  lemma {:induction false} RemoveKeepsSeats(seats: seq<Participant>, k: nat, maxSeats: nat)
    requires SeatsOk(seats, maxSeats) && k < |seats|
    ensures SeatsOk(RemoveAt(seats, k), maxSeats)
  {
  }

  lemma {:induction false} JoinKeepsSeats(p: Plan, c: Change, maxSeats: nat)
    requires SeatsOk(p.seats, maxSeats)
    ensures SeatsOk(ApplyJoin(p, c, maxSeats).seats, maxSeats)
  {
  }

  lemma {:induction false} PlannedKeepsSeats(participants: seq<Participant>, changes: seq<Change>, maxSeats: nat,
                                             k: nat)
    requires SeatsOk(participants, maxSeats) && k <= |changes|
    ensures SeatsOk(Planned(participants, changes, maxSeats, k).seats, maxSeats)
  {
    if k > 0 {
      PlannedKeepsSeats(participants, changes, maxSeats, k - 1);
      ApplyKeepsSeats(Planned(participants, changes, maxSeats, k - 1), changes[k - 1], maxSeats);
    }
  }

  ghost predicate Apart(s: seq<Participant>, x: Participant)
  {
    forall i :: 0 <= i < |s| ==> s[i].owner != x.owner && s[i].seat != x.seat
  }

  lemma {:induction false} PlaceSeatApart(s: seq<Participant>, x: Participant, y: Participant)
    requires Apart(s, y) && x.owner != y.owner && x.seat != y.seat
    ensures Apart(PlaceSeat(s, x), y)
  {
    if |s| > 0 && s[|s| - 1].seat > x.seat {
      PlaceSeatApart(s[..|s| - 1], x, y);
    }
  }

  lemma {:induction false} PlaceSeatOk(s: seq<Participant>, x: Participant, maxSeats: nat)
    requires SeatsOk(s, maxSeats) && Apart(s, x) && 0 <= x.seat < maxSeats
    ensures SeatsOk(PlaceSeat(s, x), maxSeats)
  {
    if |s| > 0 && s[|s| - 1].seat > x.seat {
      PlaceSeatOk(s[..|s| - 1], x, maxSeats);
      PlaceSeatApart(s[..|s| - 1], x, s[|s| - 1]);
    }
  }

  lemma {:induction false} SortSeatsApart(s: seq<Participant>, x: Participant)
    requires Apart(s, x)
    ensures Apart(SortSeats(s), x)
  {
    if |s| > 0 {
      SortSeatsApart(s[..|s| - 1], x);
      PlaceSeatApart(SortSeats(s[..|s| - 1]), s[|s| - 1], x);
    }
  }

  lemma {:induction false} SortSeatsOk(s: seq<Participant>, maxSeats: nat)
    requires SeatsOk(s, maxSeats)
    ensures SeatsOk(SortSeats(s), maxSeats)
  {
    if |s| > 0 {
      var n := |s| - 1;
      SortSeatsOk(s[..n], maxSeats);
      SortSeatsApart(s[..n], s[n]);
      PlaceSeatOk(SortSeats(s[..n]), s[n], maxSeats);
    }
  }

  /** A boundary keeps owners and seats distinct and in range, and lists the table in ascending order of seats. */
  lemma {:induction false} BoundaryKeepsSeats(participants: seq<Participant>, queue: seq<Change>, epoch: int,
                                              maxSeats: nat)
    requires SeatsOk(participants, maxSeats)
    ensures SeatsOk(Boundary(participants, queue, epoch, maxSeats).seats, maxSeats)
    ensures var next := Boundary(participants, queue, epoch, maxSeats).seats;
            forall i, j :: 0 <= i < j < |next| ==> next[i].seat < next[j].seat
  {
    var changes := Changes(queue, epoch);
    PlannedKeepsSeats(participants, changes, maxSeats, |changes|);
    SortSeatsOk(Planned(participants, changes, maxSeats, |changes|).seats, maxSeats);
    SortSeatsAscends(Planned(participants, changes, maxSeats, |changes|).seats);
  }

  // ----- Every change is applied or rejected, once -----

  function CountChanges(s: seq<Change>, id: string): (n: nat)
  {
    if |s| == 0 then 0 else CountChanges(s[..|s| - 1], id) + if s[|s| - 1].id == id then 1 else 0
  }

  function CountApplied(s: seq<string>, id: string): (n: nat)
  {
    if |s| == 0 then 0 else CountApplied(s[..|s| - 1], id) + if s[|s| - 1] == id then 1 else 0
  }

  function CountRejected(s: seq<Rejection>, id: string): (n: nat)
  {
    if |s| == 0 then 0 else CountRejected(s[..|s| - 1], id) + if s[|s| - 1].id == id then 1 else 0
  }

  /** How often the plan decided on `id`. */
  function Decided(p: Plan, id: string): (n: nat)
  {
    CountApplied(p.applied, id) + CountRejected(p.rejected, id)
  }

  lemma {:induction false} AppliedGrows(s: seq<string>, x: string, id: string)
    ensures CountApplied(s + [x], id) == CountApplied(s, id) + if x == id then 1 else 0
  {
    assert (s + [x])[..|s|] == s;
  }

  lemma {:induction false} RejectedGrows(s: seq<Rejection>, x: Rejection, id: string)
    ensures CountRejected(s + [x], id) == CountRejected(s, id) + if x.id == id then 1 else 0
  {
    assert (s + [x])[..|s|] == s;
  }

  lemma {:induction false} ChangesGrow(s: seq<Change>, x: Change, id: string)
    ensures CountChanges(s + [x], id) == CountChanges(s, id) + if x.id == id then 1 else 0
  {
    assert (s + [x])[..|s|] == s;
  }

  /** One step writes one id, to one of the two lists. */
  ghost predicate DecidesOne(p: Plan, q: Plan, id: string)
  {
    || (q.applied == p.applied + [id] && q.rejected == p.rejected)
    || (q.applied == p.applied && exists why :: q.rejected == p.rejected + [Rejection(id, why)])
  }

  lemma {:induction false} ApplyDecides(p: Plan, c: Change, maxSeats: nat)
    ensures DecidesOne(p, ApplyChange(p, c, maxSeats), c.id)
  {
  }

  lemma {:induction false} DecidedGrows(p: Plan, q: Plan, x: string, id: string)
    requires DecidesOne(p, q, x)
    ensures Decided(q, id) == Decided(p, id) + if x == id then 1 else 0
  {
    AppliedGrows(p.applied, x, id);
    if q.applied == p.applied {
      var why :| q.rejected == p.rejected + [Rejection(x, why)];
      RejectedGrows(p.rejected, Rejection(x, why), id);
    }
  }

  lemma {:induction false} PlannedDecides(participants: seq<Participant>, changes: seq<Change>, maxSeats: nat, k: nat,
                                          id: string)
    requires k <= |changes|
    ensures Decided(Planned(participants, changes, maxSeats, k), id) == CountChanges(changes[..k], id)
  {
    if k > 0 {
      PlannedDecides(participants, changes, maxSeats, k - 1, id);
      ApplyDecided(Planned(participants, changes, maxSeats, k - 1), changes[k - 1], maxSeats, id);
      CountPrefix(changes, k - 1, id);
    }
  }

  lemma {:induction false} ApplyDecided(p: Plan, c: Change, maxSeats: nat, id: string)
    ensures Decided(ApplyChange(p, c, maxSeats), id) == Decided(p, id) + if c.id == id then 1 else 0
  {
    ApplyDecides(p, c, maxSeats);
    DecidedGrows(p, ApplyChange(p, c, maxSeats), c.id, id);
  }

  lemma {:induction false} CountPrefix(s: seq<Change>, k: nat, id: string)
    requires k < |s|
    ensures CountChanges(s[..k + 1], id) == CountChanges(s[..k], id) + if s[k].id == id then 1 else 0
  {
    ChangesGrow(s[..k], s[k], id);
    assert s[..k + 1] == s[..k] + [s[k]];
  }

  lemma {:induction false} PlaceCounts(s: seq<Change>, x: Change, id: string)
    ensures CountChanges(Place(s, x), id) == CountChanges(s, id) + if x.id == id then 1 else 0
  {
    if |s| > 0 && !NotAfter(s[|s| - 1], x) {
      PlaceCounts(s[..|s| - 1], x, id);
      ChangesGrow(Place(s[..|s| - 1], x), s[|s| - 1], id);
    } else {
      ChangesGrow(s, x, id);
    }
  }

  lemma {:induction false} SortCounts(s: seq<Change>, id: string)
    ensures CountChanges(Sort(s), id) == CountChanges(s, id)
  {
    if |s| > 0 {
      SortCounts(s[..|s| - 1], id);
      PlaceCounts(Sort(s[..|s| - 1]), s[|s| - 1], id);
    }
  }

  /** At a boundary, every due change is applied or rejected, exactly as often as it is due. */
  lemma {:induction false} BoundaryDecidesOnce(participants: seq<Participant>, queue: seq<Change>, epoch: int,
                                               maxSeats: nat, id: string)
    ensures Decided(Boundary(participants, queue, epoch, maxSeats), id) == CountChanges(DueOf(queue, epoch), id)
  {
    var changes := Changes(queue, epoch);
    PlannedDecides(participants, changes, maxSeats, |changes|, id);
    assert changes[..|changes|] == changes;
    SortCounts(DueOf(queue, epoch), id);
  }
}
