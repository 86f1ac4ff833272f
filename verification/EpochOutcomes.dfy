/** Where a boundary leaves everybody, told by the table and the queue alone (packages/database/src/epoch-rotation.ts,
    lines 167-273; packages/database/src/epoch-store.ts, lines 226-273). */
module EpochOutcomes {
  import opened Prelude
  import opened Epochs
  import opened EpochStacks
  import opened EpochRuns

  // ----- One change -----

  predicate Free(seats: seq<Participant>, maxSeats: nat, seat: int)
  {
    0 <= seat < maxSeats && !Taken(seats, seat)
  }

  /** The seat a join is due: the one asked for if it is free, and otherwise the lowest free one. */
  ghost predicate DueSeat(seats: seq<Participant>, maxSeats: nat, wish: Option<int>, seat: int)
  {
    && Free(seats, maxSeats, seat)
    && (if wish.Some? && Free(seats, maxSeats, wish.value) then seat == wish.value
        else forall s :: 0 <= s < seat ==> Taken(seats, s))
  }

  lemma {:induction false} EmptiesAscend(seats: seq<Participant>, n: nat)
    ensures forall i, j :: 0 <= i < j < |Empties(seats, n)| ==> Empties(seats, n)[i] < Empties(seats, n)[j]
  {
    if n > 0 {
      EmptiesAscend(seats, n - 1);
    }
  }

  lemma {:induction false} EmptiesIff(seats: seq<Participant>, n: nat, seat: int)
    ensures seat in Empties(seats, n) <==> Free(seats, n, seat)
  {
    if Free(seats, n, seat) {
      EmptiesLists(seats, n, seat);
    }
  }

  lemma {:induction false} FirstEmptyIsLowest(seats: seq<Participant>, n: nat, s: int)
    requires |Empties(seats, n)| > 0 && 0 <= s < Empties(seats, n)[0]
    ensures Taken(seats, s)
  {
    EmptiesAscend(seats, n);
    EmptiesIff(seats, n, s);
  }

  /** A seat is found exactly if one is free, and it is the one due. */
  lemma {:induction false} SeatForIsDue(seats: seq<Participant>, maxSeats: nat, wish: Option<int>)
    ensures match SeatFor(seats, maxSeats, wish)
            case None => forall s :: !Free(seats, maxSeats, s)
            case Some(seat) => DueSeat(seats, maxSeats, wish, seat)
  {
    var free := Empties(seats, maxSeats);
    forall s
      ensures s in free <==> Free(seats, maxSeats, s)
    {
      EmptiesIff(seats, maxSeats, s);
    }
    if |free| > 0 {
      assert free[0] in free;
      forall s | 0 <= s < free[0]
        ensures Taken(seats, s)
      {
        FirstEmptyIsLowest(seats, maxSeats, s);
      }
    }
  }

  /** The change was applied, or rejected for a reason. */
  predicate Applies(p: Plan, q: Plan, c: Change)
  {
    q.applied == p.applied + [c.id] && q.rejected == p.rejected
  }

  predicate Rejects(p: Plan, q: Plan, c: Change, why: Reason)
  {
    q.applied == p.applied && q.rejected == p.rejected + [Rejection(c.id, why)] && q.seats == p.seats
  }

  /** Nobody but the owner of the change is touched. */
  ghost predicate OthersStay(before: seq<Participant>, after: seq<Participant>, owner: string)
  {
    forall other :: other != owner ==> SeatOf(after, other) == SeatOf(before, other)
  }

  /** A leave is applied exactly to a seated player who is not all-in. */
  lemma {:induction false} LeaveOutcome(p: Plan, c: Change, maxSeats: nat)
    requires OwnersDistinct(p.seats) && c.kind == Leave
    ensures var q, was := ApplyChange(p, c, maxSeats), SeatOf(p.seats, c.owner);
            if was.None? then Rejects(p, q, c, NotSeatedAtBoundary)
            else if was.value.allIn then Rejects(p, q, c, AllInUnresolved)
            else Applies(p, q, c) && SeatOf(q.seats, c.owner) == None && OthersStay(p.seats, q.seats, c.owner)
  {
    var q, found := ApplyChange(p, c, maxSeats), FindOwner(p.seats, c.owner);
    if found.Some? && !p.seats[found.value].allIn {
      forall owner
        ensures SeatOf(q.seats, owner) == if owner == c.owner then None else SeatOf(p.seats, owner)
      {
        SeatOfRemove(p.seats, found.value, owner);
      }
    }
  }

  /** A top-up is applied exactly to a seated player, if it is positive. */
  lemma {:induction false} TopUpOutcome(p: Plan, c: Change, maxSeats: nat)
    requires OwnersDistinct(p.seats) && c.kind == TopUp
    ensures var q, was := ApplyChange(p, c, maxSeats), SeatOf(p.seats, c.owner);
            if was.None? then Rejects(p, q, c, NotSeatedAtBoundary)
            else if Amount(c) <= 0 then Rejects(p, q, c, InvalidTopUp)
            else
              && Applies(p, q, c) && OthersStay(p.seats, q.seats, c.owner)
              && SeatOf(q.seats, c.owner) == Some(was.value.(stack := was.value.stack + Amount(c)))
  {
    var q, found := ApplyChange(p, c, maxSeats), FindOwner(p.seats, c.owner);
    if found.Some? && Amount(c) > 0 {
      forall owner
        ensures SeatOf(q.seats, owner)
             == if owner == c.owner then Some(q.seats[found.value]) else SeatOf(p.seats, owner)
      {
        SeatOfUpdate(p.seats, found.value, q.seats[found.value], owner);
      }
    }
  }

  /** A join is applied exactly to an owner without a seat, if it is positive and a seat is free; the player gets the
      seat asked for if that one is free, and otherwise the lowest free one. */
  lemma {:induction false} JoinIsSeated(p: Plan, c: Change, maxSeats: nat)
    requires OwnersDistinct(p.seats) && c.kind == Join
    ensures var q, was := ApplyChange(p, c, maxSeats), SeatOf(p.seats, c.owner);
            if was.Some? then Rejects(p, q, c, AlreadySeated)
            else if Amount(c) <= 0 then Rejects(p, q, c, InvalidBuyIn)
            else if exists s :: Free(p.seats, maxSeats, s) then
              && Applies(p, q, c) && OthersStay(p.seats, q.seats, c.owner)
              && exists s :: DueSeat(p.seats, maxSeats, c.seat, s)
                             && SeatOf(q.seats, c.owner) == Some(Participant(c.owner, s, Amount(c), false))
                             && q.seats == p.seats + [Participant(c.owner, s, Amount(c), false)]
            else Rejects(p, q, c, NoOpenSeat)
  {
    var q, seat := ApplyChange(p, c, maxSeats), SeatFor(p.seats, maxSeats, c.seat);
    SeatForIsDue(p.seats, maxSeats, c.seat);
    if SeatOf(p.seats, c.owner).None? && Amount(c) > 0 && seat.Some? {
      var x := Participant(c.owner, seat.value, Amount(c), false);
      forall owner
        ensures SeatOf(q.seats, owner) == if owner == c.owner then Some(x) else SeatOf(p.seats, owner)
      {
        SeatOfAppend(p.seats, x, owner);
      }
      assert DueSeat(p.seats, maxSeats, c.seat, seat.value);
    }
  }

  // ----- A player who was seated -----

  /** All top-ups of an owner among the first `k` changes. */
  function TopUpsOf(changes: seq<Change>, k: nat, owner: string): int
    requires k <= |changes|
  {
    if k == 0 then 0
    else
      var c := changes[k - 1];
      TopUpsOf(changes, k - 1, owner) + if c.kind == TopUp && c.owner == owner then Amount(c) else 0
  }

  /** Where a seated player is after some changes: gone if it asked to leave and is not all-in, otherwise where it
      was with its top-ups. */
  ghost function Fate(was: Participant, leaves: bool, topUps: int): Option<Participant>
  {
    if leaves && !was.allIn then None else Some(was.(stack := was.stack + topUps))
  }

  ghost predicate SeatedFate(changes: seq<Change>, k: nat, was: Participant, seats: seq<Participant>)
    requires k <= |changes|
  {
    SeatOf(seats, was.owner) == Fate(was, Among(changes, k, Leave, was.owner), TopUpsOf(changes, k, was.owner))
  }

  lemma {:induction false} AmongStep(changes: seq<Change>, k: nat, kind: Kind, owner: string)
    requires k < |changes|
    ensures Among(changes, k + 1, kind, owner) <==>
              Among(changes, k, kind, owner) || (changes[k].kind == kind && changes[k].owner == owner)
  {
  }

  lemma {:induction false} SeatedStep(before: seq<Participant>, changes: seq<Change>, maxSeats: nat, k: nat,
                                      was: Participant, p: Plan)
    requires Sound(before, changes) && k < |changes| && SeatOf(before, was.owner) == Some(was)
    requires OwnersDistinct(p.seats) && SeatedFate(changes, k, was, p.seats)
    ensures SeatedFate(changes, k + 1, was, ApplyChange(p, changes[k], maxSeats).seats)
  {
    var c := changes[k];
    AmongStep(changes, k, Leave, was.owner);
    assert StillValid(before, c);
    match c.kind
    case Leave => LeaveOutcome(p, c, maxSeats);
    case TopUp => TopUpOutcome(p, c, maxSeats);
    case Join => JoinIsSeated(p, c, maxSeats);
  }

  lemma {:induction false} SeatedFollows(before: seq<Participant>, changes: seq<Change>, maxSeats: nat, k: nat,
                                         was: Participant)
    requires Sound(before, changes) && SeatsOk(before, maxSeats) && k <= |changes|
    requires SeatOf(before, was.owner) == Some(was)
    ensures SeatedFate(changes, k, was, Planned(before, changes, maxSeats, k).seats)
  {
    var fates := Fates(before, changes, maxSeats, was);
    forall j: nat | j < k && fates[j]
      ensures fates[j + 1]
    {
      PlannedKeepsSeats(before, changes, maxSeats, j);
      SeatedStep(before, changes, maxSeats, j, was, Planned(before, changes, maxSeats, j));
    }
    Carried(fates, k);
  }

  ghost function Fates(before: seq<Participant>, changes: seq<Change>, maxSeats: nat, was: Participant): (r: seq<bool>)
    ensures |r| == |changes| + 1
    ensures forall k :: 0 <= k <= |changes| ==>
              r[k] == SeatedFate(changes, k, was, Planned(before, changes, maxSeats, k).seats)
  {
    seq(|changes| + 1, k requires 0 <= k <= |changes| =>
      SeatedFate(changes, k, was, Planned(before, changes, maxSeats, k).seats))
  }

  // ----- A player who was not -----

  /** What becomes of an owner, change by change. */
  ghost function Course(before: seq<Participant>, changes: seq<Change>, maxSeats: nat, owner: string)
    : (r: seq<Option<Participant>>)
    ensures |r| == |changes| + 1
    ensures forall k :: 0 <= k <= |changes| ==> r[k] == SeatOf(Planned(before, changes, maxSeats, k).seats, owner)
  {
    seq(|changes| + 1, k requires 0 <= k <= |changes| => SeatOf(Planned(before, changes, maxSeats, k).seats, owner))
  }

  lemma {:induction false} Steady<T>(s: seq<T>, a: nat, b: nat)
    requires a <= b < |s| && forall k: nat :: a <= k < b ==> s[k + 1] == s[k]
    ensures s[b] == s[a]
  {
    if b > a {
      Steady(s, a, b - 1);
      assert s[b - 1 + 1] == s[b - 1];
    }
  }

  /** Who had no seat at first is only moved by a join. */
  lemma {:induction false} OwnerStays(before: seq<Participant>, changes: seq<Change>, maxSeats: nat, owner: string,
                                      a: nat, b: nat)
    requires Sound(before, changes) && SeatsOk(before, maxSeats) && a <= b <= |changes|
    requires SeatOf(before, owner) == None
    requires forall j: nat :: a <= j < b ==> !(changes[j].kind == Join && changes[j].owner == owner)
    ensures SeatOf(Planned(before, changes, maxSeats, b).seats, owner)
         == SeatOf(Planned(before, changes, maxSeats, a).seats, owner)
  {
    var course := Course(before, changes, maxSeats, owner);
    forall j: nat | a <= j < b
      ensures course[j + 1] == course[j]
    {
      UnseatedAt(before, changes, maxSeats, j, owner);
    }
    Steady(course, a, b);
  }

  /** Nobody without a seat or a join gets one. */
  lemma {:induction false} NoJoinNoSeat(before: seq<Participant>, changes: seq<Change>, maxSeats: nat, k: nat,
                                        owner: string)
    requires Sound(before, changes) && SeatsOk(before, maxSeats) && k <= |changes|
    requires SeatOf(before, owner) == None && !Among(changes, k, Join, owner)
    ensures SeatOf(Planned(before, changes, maxSeats, k).seats, owner) == None
  {
    OwnerStays(before, changes, maxSeats, owner, 0, k);
  }

  lemma {:induction false} UnseatedAt(before: seq<Participant>, changes: seq<Change>, maxSeats: nat, k: nat,
                                      owner: string)
    requires Sound(before, changes) && SeatsOk(before, maxSeats) && k < |changes|
    requires SeatOf(before, owner) == None && !(changes[k].kind == Join && changes[k].owner == owner)
    ensures SeatOf(Planned(before, changes, maxSeats, k + 1).seats, owner)
         == SeatOf(Planned(before, changes, maxSeats, k).seats, owner)
  {
    PlannedKeepsSeats(before, changes, maxSeats, k);
    UnseatedStep(before, changes, maxSeats, k, owner, Planned(before, changes, maxSeats, k));
  }

  /** Changes of others leave an owner alone. */
  lemma {:induction false} UnseatedStep(before: seq<Participant>, changes: seq<Change>, maxSeats: nat, k: nat,
                                        owner: string, p: Plan)
    requires Sound(before, changes) && k < |changes| && OwnersDistinct(p.seats)
    requires SeatOf(before, owner) == None && !(changes[k].kind == Join && changes[k].owner == owner)
    ensures SeatOf(ApplyChange(p, changes[k], maxSeats).seats, owner) == SeatOf(p.seats, owner)
  {
    var c := changes[k];
    assert StillValid(before, c);
    match c.kind
    case Leave => LeaveOutcome(p, c, maxSeats);
    case TopUp => TopUpOutcome(p, c, maxSeats);
    case Join => JoinIsSeated(p, c, maxSeats);
  }

  lemma {:induction false} JoinsOnce(changes: seq<Change>, k: nat, j: nat)
    requires (forall a, b :: 0 <= a < b < |changes| ==> Compatible(changes[a], changes[b]))
    requires k < |changes| && j < |changes| && k != j && changes[k].kind == Join == changes[j].kind
    ensures changes[k].owner != changes[j].owner
  {
    assert Compatible(changes[if k < j then k else j], changes[if k < j then j else k]);
  }

  /** After its turn, a join's player stays where it was put. */
  lemma {:induction false} JoinerStays(before: seq<Participant>, changes: seq<Change>, maxSeats: nat, k: nat, m: nat)
    requires Sound(before, changes) && SeatsOk(before, maxSeats) && k < m <= |changes| && changes[k].kind == Join
    ensures SeatOf(Planned(before, changes, maxSeats, m).seats, changes[k].owner)
         == SeatOf(Planned(before, changes, maxSeats, k + 1).seats, changes[k].owner)
  {
    OnlyOneJoins(before, changes, k);
    OwnerStays(before, changes, maxSeats, changes[k].owner, k + 1, m);
  }

  lemma {:induction false} OnlyOneJoins(before: seq<Participant>, changes: seq<Change>, k: nat)
    requires Sound(before, changes) && k < |changes| && changes[k].kind == Join
    ensures SeatOf(before, changes[k].owner) == None
    ensures forall j: nat :: j < |changes| && j != k ==>
              !(changes[j].kind == Join && changes[j].owner == changes[k].owner)
  {
    assert StillValid(before, changes[k]);
    forall j: nat | j < |changes| && j != k && changes[j].kind == Join
      ensures changes[j].owner != changes[k].owner
    {
      JoinsOnce(changes, k, j);
    }
  }

  /** Once the joins' turn has come, nobody gives up a seat. */
  lemma {:induction false} JoinsOnlyFill(before: seq<Participant>, changes: seq<Change>, maxSeats: nat, k: nat, m: nat,
                                         seat: int)
    requires InOrder(changes) && SeatsOk(before, maxSeats) && k <= m <= |changes|
    requires k < |changes| && changes[k].kind == Join
    requires Taken(Planned(before, changes, maxSeats, k).seats, seat)
    ensures Taken(Planned(before, changes, maxSeats, m).seats, seat)
  {
    if m > k {
      JoinsOnlyFill(before, changes, maxSeats, k, m - 1, seat);
      assert NotAfter(changes[k], changes[m - 1]) || m - 1 == k;
      FillStep(Planned(before, changes, maxSeats, m - 1), changes[m - 1], maxSeats, seat);
    }
  }

  lemma {:induction false} FillStep(p: Plan, c: Change, maxSeats: nat, seat: int)
    requires c.kind == Join && Taken(p.seats, seat)
    ensures Taken(ApplyChange(p, c, maxSeats).seats, seat)
  {
    var q := ApplyChange(p, c, maxSeats);
    var i :| 0 <= i < |p.seats| && p.seats[i].seat == seat;
    assert q.seats[i] == p.seats[i];
  }

  /** The seat of a granted join, seen from the table of the next epoch: the one asked for unless it is somebody
      else's, and with no free seat below unless it is the one asked for. */
  ghost predicate WellPlaced(after: seq<Participant>, maxSeats: nat, c: Change, seat: int)
  {
    && 0 <= seat < maxSeats
    && (c.seat.Some? && 0 <= c.seat.value < maxSeats && seat != c.seat.value ==> Taken(after, c.seat.value))
    && (c.seat != Some(seat) ==> forall s :: 0 <= s < seat ==> Taken(after, s))
  }

  /** How a join can end: seated with its buy-in, or turned away from a full table. */
  ghost predicate JoinEnds(after: seq<Participant>, maxSeats: nat, c: Change)
  {
    var at := SeatOf(after, c.owner);
    if at.Some? then at.value == Participant(c.owner, at.value.seat, Amount(c), false)
                     && WellPlaced(after, maxSeats, c, at.value.seat)
    else forall s :: 0 <= s < maxSeats ==> Taken(after, s)
  }

  lemma {:induction false} JoinFollows(before: seq<Participant>, changes: seq<Change>, maxSeats: nat, k: nat)
    requires Sound(before, changes) && SeatsOk(before, maxSeats) && InOrder(changes)
    requires k < |changes| && changes[k].kind == Join
    ensures JoinEnds(Planned(before, changes, maxSeats, |changes|).seats, maxSeats, changes[k])
  {
    var c, p := changes[k], Planned(before, changes, maxSeats, k);
    var after := Planned(before, changes, maxSeats, |changes|).seats;
    PlannedKeepsSeats(before, changes, maxSeats, k);
    assert StillValid(before, c);
    NotYetJoined(before, changes, maxSeats, k);
    JoinIsSeated(p, c, maxSeats);
    JoinerStays(before, changes, maxSeats, k, |changes|);
    forall s | Taken(p.seats, s)
      ensures Taken(after, s)
    {
      JoinsOnlyFill(before, changes, maxSeats, k, |changes|, s);
    }
    forall s | 0 <= s < maxSeats
      ensures Free(p.seats, maxSeats, s) || Taken(after, s)
    {
    }
  }

  lemma {:induction false} NotYetJoined(before: seq<Participant>, changes: seq<Change>, maxSeats: nat, k: nat)
    requires Sound(before, changes) && SeatsOk(before, maxSeats) && k < |changes| && changes[k].kind == Join
    ensures SeatOf(Planned(before, changes, maxSeats, k).seats, changes[k].owner) == None
  {
    assert StillValid(before, changes[k]);
    forall j | 0 <= j < k && changes[j].kind == Join
      ensures changes[j].owner != changes[k].owner
    {
      JoinsOnce(changes, k, j);
    }
    NoJoinNoSeat(before, changes, maxSeats, k, changes[k].owner);
  }

  // ----- From the queue -----

  /** All pending top-ups of an owner. */
  function PendingTopUps(queue: seq<Change>, owner: string): int
  {
    if |queue| == 0 then 0
    else
      var c := queue[|queue| - 1];
      PendingTopUps(queue[..|queue| - 1], owner) + if PendingOf(c, owner, TopUp) then Amount(c) else 0
  }

  function TopUpAmount(c: Change, owner: string): int
  {
    if c.kind == TopUp && c.owner == owner then Amount(c) else 0
  }

  function TopUpSum(s: seq<Change>, owner: string): int
  {
    if |s| == 0 then 0 else TopUpSum(s[..|s| - 1], owner) + TopUpAmount(s[|s| - 1], owner)
  }

  lemma {:induction false} TopUpSumAppend(s: seq<Change>, c: Change, owner: string)
    ensures TopUpSum(s + [c], owner) == TopUpSum(s, owner) + TopUpAmount(c, owner)
  {
    assert (s + [c])[..|s|] == s;
  }

  lemma {:induction false} PlaceTopUps(s: seq<Change>, x: Change, owner: string)
    ensures TopUpSum(Place(s, x), owner) == TopUpSum(s, owner) + TopUpAmount(x, owner)
  {
    if |s| > 0 && !NotAfter(s[|s| - 1], x) {
      PlaceTopUps(s[..|s| - 1], x, owner);
      TopUpSumAppend(Place(s[..|s| - 1], x), s[|s| - 1], owner);
    } else {
      TopUpSumAppend(s, x, owner);
    }
  }

  lemma {:induction false} SortTopUps(s: seq<Change>, owner: string)
    ensures TopUpSum(Sort(s), owner) == TopUpSum(s, owner)
  {
    if |s| > 0 {
      SortTopUps(s[..|s| - 1], owner);
      PlaceTopUps(Sort(s[..|s| - 1]), s[|s| - 1], owner);
    }
  }

  lemma {:induction false} TopUpsOfIsSum(s: seq<Change>, k: nat, owner: string)
    requires k <= |s|
    ensures TopUpsOf(s, k, owner) == TopUpSum(s[..k], owner)
  {
    if k > 0 {
      TopUpsOfIsSum(s, k - 1, owner);
      assert s[..k] == s[..k - 1] + [s[k - 1]];
      TopUpSumAppend(s[..k - 1], s[k - 1], owner);
    }
  }

  /** Everything pending is due. */
  ghost predicate PendingIsDue(queue: seq<Change>, epoch: int)
  {
    forall i :: 0 <= i < |queue| && queue[i].status == Pending ==> Due(queue[i], epoch)
  }

  lemma {:induction false} DueTopUps(queue: seq<Change>, epoch: int, owner: string)
    requires PendingIsDue(queue, epoch)
    ensures TopUpSum(DueOf(queue, epoch), owner) == PendingTopUps(queue, owner)
  {
    if |queue| > 0 {
      var n := |queue| - 1;
      DueTopUps(queue[..n], epoch, owner);
      if Due(queue[n], epoch) {
        TopUpSumAppend(DueOf(queue[..n], epoch), queue[n], owner);
      }
    }
  }

  lemma {:induction false} DueHolds(queue: seq<Change>, epoch: int, c: Change)
    requires PendingIsDue(queue, epoch)
    ensures c in DueOf(queue, epoch) <==> c.status == Pending && c in queue
  {
    if |queue| > 0 {
      DueHolds(queue[..|queue| - 1], epoch, c);
      assert queue == queue[..|queue| - 1] + [queue[|queue| - 1]];
    }
  }

  lemma {:induction false} ChangesHold(queue: seq<Change>, epoch: int, c: Change)
    requires PendingIsDue(queue, epoch)
    ensures c in Changes(queue, epoch) <==> c.status == Pending && c in queue
  {
    DueHolds(queue, epoch, c);
    SortPermutes(DueOf(queue, epoch));
    assert c in multiset(Changes(queue, epoch)) <==> c in multiset(DueOf(queue, epoch));
  }

  lemma {:induction false} AmongIffPending(queue: seq<Change>, epoch: int, kind: Kind, owner: string)
    requires PendingIsDue(queue, epoch)
    ensures Among(Changes(queue, epoch), |Changes(queue, epoch)|, kind, owner) <==> HasPending(queue, owner, kind)
  {
    var changes := Changes(queue, epoch);
    if j :| 0 <= j < |changes| && changes[j].kind == kind && changes[j].owner == owner {
      ChangesHold(queue, epoch, changes[j]);
      var i :| 0 <= i < |queue| && queue[i] == changes[j];
      assert PendingOf(queue[i], owner, kind);
    }
    if i :| 0 <= i < |queue| && PendingOf(queue[i], owner, kind) {
      ChangesHold(queue, epoch, queue[i]);
    }
  }

  // ----- On every run -----

  lemma {:induction false} FateIsPending(queue: seq<Change>, epoch: int, was: Participant)
    requires PendingIsDue(queue, epoch)
    ensures var changes := Changes(queue, epoch);
            Fate(was, Among(changes, |changes|, Leave, was.owner), TopUpsOf(changes, |changes|, was.owner))
              == Fate(was, HasPending(queue, was.owner, Leave), PendingTopUps(queue, was.owner))
  {
    var changes := Changes(queue, epoch);
    AmongIffPending(queue, epoch, Leave, was.owner);
    TopUpsOfIsSum(changes, |changes|, was.owner);
    assert changes[..|changes|] == changes;
    SortTopUps(DueOf(queue, epoch), was.owner);
    DueTopUps(queue, epoch, was.owner);
  }

  /** What a boundary works with. */
  lemma {:induction false} RunIsSound(trace: seq<Table>, n: nat)
    requires Run(trace) && n < |trace|
    ensures var t := trace[n];
            && SeatsOk(t.participants, t.maxSeats) && PendingIsDue(t.queue, t.epoch)
            && Sound(t.participants, Changes(t.queue, t.epoch)) && InOrder(Changes(t.queue, t.epoch))
  {
    var t := trace[n];
    RunKeeps(trace, n);
    InvIsSound(t);
    DueSound(t.participants, t.queue, t.epoch);
    SortSound(t.participants, DueOf(t.queue, t.epoch));
    SortSorts(DueOf(t.queue, t.epoch));
    forall i | 0 <= i < |t.queue| && t.queue[i].status == Pending
      ensures Due(t.queue[i], t.epoch)
    {
      assert ChangeOk(t, t.queue[i]);
    }
  }

  lemma {:induction false} RotatedSeat(t: Table, owner: string)
    requires SeatsOk(t.participants, t.maxSeats)
    ensures var changes := Changes(t.queue, t.epoch);
            var last := Planned(t.participants, changes, t.maxSeats, |changes|);
            && SeatOf(Rotate(t).participants, owner) == SeatOf(last.seats, owner)
            && forall s :: Taken(Rotate(t).participants, s) <==> Taken(last.seats, s)
  {
    var changes := Changes(t.queue, t.epoch);
    var last := Planned(t.participants, changes, t.maxSeats, |changes|).seats;
    PlannedKeepsSeats(t.participants, changes, t.maxSeats, |changes|);
    SeatOfSorted(last, t.maxSeats, owner);
    SortSeatsPermutes(last);
    SamePlaces(last, SortSeats(last));
  }

  lemma {:induction false} SamePlaces(a: seq<Participant>, b: seq<Participant>)
    requires multiset(a) == multiset(b)
    ensures forall s :: Taken(a, s) <==> Taken(b, s)
  {
    forall s
      ensures Taken(a, s) <==> Taken(b, s)
    {
      if i :| 0 <= i < |a| && a[i].seat == s {
        assert a[i] in multiset(b);
        assert a[i] in b;
      }
      if i :| 0 <= i < |b| && b[i].seat == s {
        assert b[i] in multiset(a);
        assert b[i] in a;
      }
    }
  }

  /** On every run, a boundary lets a seated player go exactly if a leave is pending and the player is not all-in;
      anybody else keeps the seat, with all pending top-ups on the stack. */
  lemma {:induction false} SeatedOutcome(trace: seq<Table>, n: nat, was: Participant)
    requires Run(trace) && n < |trace| && SeatOf(trace[n].participants, was.owner) == Some(was)
    ensures var t := trace[n];
            SeatOf(Rotate(t).participants, was.owner)
              == Fate(was, HasPending(t.queue, was.owner, Leave), PendingTopUps(t.queue, was.owner))
  {
    var t := trace[n];
    var changes := Changes(t.queue, t.epoch);
    RunIsSound(trace, n);
    SeatedFollows(t.participants, changes, t.maxSeats, |changes|, was);
    FateIsPending(t.queue, t.epoch, was);
    RotatedSeat(t, was.owner);
  }

  /** On every run, a pending join ends with its player seated for the buy-in, at the seat asked for unless somebody
      else has it and with no free seat below otherwise, or with every seat taken. */
  lemma {:induction false} JoinerOutcome(trace: seq<Table>, n: nat, i: nat)
    requires Run(trace) && n < |trace| && i < |trace[n].queue|
    requires PendingOf(trace[n].queue[i], trace[n].queue[i].owner, Join)
    ensures var t := trace[n]; JoinEnds(Rotate(t).participants, t.maxSeats, t.queue[i])
  {
    var t := trace[n];
    var changes := Changes(t.queue, t.epoch);
    RunIsSound(trace, n);
    ChangesHold(t.queue, t.epoch, t.queue[i]);
    var k :| 0 <= k < |changes| && changes[k] == t.queue[i];
    JoinFollows(t.participants, changes, t.maxSeats, k);
    RotatedSeat(t, t.queue[i].owner);
  }

  /** And nobody else is seated. */
  lemma {:induction false} StrangersStayOut(trace: seq<Table>, n: nat, owner: string)
    requires Run(trace) && n < |trace| && SeatOf(trace[n].participants, owner) == None
    requires !HasPending(trace[n].queue, owner, Join)
    ensures SeatOf(Rotate(trace[n]).participants, owner) == None
  {
    var t := trace[n];
    var changes := Changes(t.queue, t.epoch);
    RunIsSound(trace, n);
    AmongIffPending(t.queue, t.epoch, Join, owner);
    NoJoinNoSeat(t.participants, changes, t.maxSeats, |changes|, owner);
    RotatedSeat(t, owner);
  }

  // ----- The rows of the queue -----

  /** The change has come about. */
  predicate CameAbout(after: seq<Participant>, c: Change)
  {
    if c.kind == Leave then SeatOf(after, c.owner).None? else SeatOf(after, c.owner).Some?
  }

  lemma {:induction false} LeavesComeFirst(changes: seq<Change>, k: nat, owner: string)
    requires InOrder(changes) && k < |changes| && changes[k].kind == TopUp
    ensures Among(changes, k, Leave, owner) <==> Among(changes, |changes|, Leave, owner)
  {
    if j :| 0 <= j < |changes| && changes[j].kind == Leave && changes[j].owner == owner {
      if k < j {
        assert NotAfter(changes[k], changes[j]);
      }
    }
  }

  lemma {:induction false} LeaveComesAbout(before: seq<Participant>, changes: seq<Change>, maxSeats: nat, k: nat)
    requires Sound(before, changes) && SeatsOk(before, maxSeats) && k < |changes| && changes[k].kind == Leave
    ensures var p := Planned(before, changes, maxSeats, k);
            var after := Planned(before, changes, maxSeats, |changes|).seats;
            if CameAbout(after, changes[k]) then Applies(p, ApplyChange(p, changes[k], maxSeats), changes[k])
            else Rejects(p, ApplyChange(p, changes[k], maxSeats), changes[k], AllInUnresolved)
  {
    var c := changes[k];
    assert StillValid(before, c);
    var was := SeatOf(before, c.owner).value;
    SeatedFollows(before, changes, maxSeats, k, was);
    SeatedFollows(before, changes, maxSeats, |changes|, was);
    NotTwice(changes, k, Leave);
    PlannedKeepsSeats(before, changes, maxSeats, k);
    LeaveOutcome(Planned(before, changes, maxSeats, k), c, maxSeats);
    assert Among(changes, |changes|, Leave, c.owner);
  }

  lemma {:induction false} TopUpComesAbout(before: seq<Participant>, changes: seq<Change>, maxSeats: nat, k: nat)
    requires Sound(before, changes) && SeatsOk(before, maxSeats) && InOrder(changes)
    requires k < |changes| && changes[k].kind == TopUp
    ensures var p := Planned(before, changes, maxSeats, k);
            var after := Planned(before, changes, maxSeats, |changes|).seats;
            if CameAbout(after, changes[k]) then Applies(p, ApplyChange(p, changes[k], maxSeats), changes[k])
            else Rejects(p, ApplyChange(p, changes[k], maxSeats), changes[k], NotSeatedAtBoundary)
  {
    var c := changes[k];
    assert StillValid(before, c);
    var was := SeatOf(before, c.owner).value;
    SeatedFollows(before, changes, maxSeats, k, was);
    SeatedFollows(before, changes, maxSeats, |changes|, was);
    LeavesComeFirst(changes, k, c.owner);
    PlannedKeepsSeats(before, changes, maxSeats, k);
    TopUpOutcome(Planned(before, changes, maxSeats, k), c, maxSeats);
  }

  lemma {:induction false} JoinComesAbout(before: seq<Participant>, changes: seq<Change>, maxSeats: nat, k: nat)
    requires Sound(before, changes) && SeatsOk(before, maxSeats) && k < |changes| && changes[k].kind == Join
    ensures var p := Planned(before, changes, maxSeats, k);
            var after := Planned(before, changes, maxSeats, |changes|).seats;
            if CameAbout(after, changes[k]) then Applies(p, ApplyChange(p, changes[k], maxSeats), changes[k])
            else Rejects(p, ApplyChange(p, changes[k], maxSeats), changes[k], NoOpenSeat)
  {
    var c := changes[k];
    assert StillValid(before, c);
    NotYetJoined(before, changes, maxSeats, k);
    PlannedKeepsSeats(before, changes, maxSeats, k);
    JoinIsSeated(Planned(before, changes, maxSeats, k), c, maxSeats);
    JoinerStays(before, changes, maxSeats, k, |changes|);
  }

  /** How often the first `k` changes led to `id` being applied, and rejected, for every `k`. */
  ghost function AppliedCounts(before: seq<Participant>, changes: seq<Change>, maxSeats: nat, id: string)
    : (r: seq<int>)
    ensures |r| == |changes| + 1
    ensures forall k :: 0 <= k <= |changes| ==>
              r[k] == CountApplied(Planned(before, changes, maxSeats, k).applied, id)
  {
    seq(|changes| + 1, k requires 0 <= k <= |changes| =>
      CountApplied(Planned(before, changes, maxSeats, k).applied, id))
  }

  ghost function RejectedCounts(before: seq<Participant>, changes: seq<Change>, maxSeats: nat, id: string)
    : (r: seq<int>)
    ensures |r| == |changes| + 1
    ensures forall k :: 0 <= k <= |changes| ==>
              r[k] == CountRejected(Planned(before, changes, maxSeats, k).rejected, id)
  {
    seq(|changes| + 1, k requires 0 <= k <= |changes| =>
      CountRejected(Planned(before, changes, maxSeats, k).rejected, id))
  }

  lemma {:induction false} Rising(s: seq<int>, a: nat, b: nat)
    requires a <= b < |s| && forall k: nat :: a <= k < b ==> s[k + 1] >= s[k]
    ensures s[b] >= s[a]
  {
    if b > a {
      Rising(s, a, b - 1);
      assert s[b - 1 + 1] >= s[b - 1];
    }
  }

  /** Decisions are never taken back. */
  lemma {:induction false} DecisionsStand(before: seq<Participant>, changes: seq<Change>, maxSeats: nat, k: nat, m: nat,
                                          id: string)
    requires k <= m <= |changes|
    ensures var p, q := Planned(before, changes, maxSeats, k), Planned(before, changes, maxSeats, m);
            && CountApplied(q.applied, id) >= CountApplied(p.applied, id)
            && CountRejected(q.rejected, id) >= CountRejected(p.rejected, id)
  {
    var applied := AppliedCounts(before, changes, maxSeats, id);
    var rejected := RejectedCounts(before, changes, maxSeats, id);
    forall j: nat | k <= j < m
      ensures applied[j + 1] >= applied[j] && rejected[j + 1] >= rejected[j]
    {
      DecisionGrows(Planned(before, changes, maxSeats, j), changes[j], maxSeats, id);
    }
    Rising(applied, k, m);
    Rising(rejected, k, m);
  }

  lemma {:induction false} DecisionGrows(p: Plan, c: Change, maxSeats: nat, id: string)
    ensures var q := ApplyChange(p, c, maxSeats);
            && CountApplied(q.applied, id) >= CountApplied(p.applied, id)
            && CountRejected(q.rejected, id) >= CountRejected(p.rejected, id)
  {
    var q := ApplyChange(p, c, maxSeats);
    ApplyDecides(p, c, maxSeats);
    AppliedGrows(p.applied, c.id, id);
    if q.applied == p.applied {
      var why :| q.rejected == p.rejected + [Rejection(c.id, why)];
      RejectedGrows(p.rejected, Rejection(c.id, why), id);
    }
  }

  /** A due change is counted among the applied ones if it has come about, and among the rejected ones if not. */
  lemma {:induction false} DecidedByOutcome(before: seq<Participant>, changes: seq<Change>, maxSeats: nat, k: nat)
    requires Sound(before, changes) && SeatsOk(before, maxSeats) && InOrder(changes) && k < |changes|
    ensures var last := Planned(before, changes, maxSeats, |changes|);
            if CameAbout(last.seats, changes[k]) then CountApplied(last.applied, changes[k].id) > 0
            else CountRejected(last.rejected, changes[k].id) > 0
  {
    var p, q := Planned(before, changes, maxSeats, k), Planned(before, changes, maxSeats, k + 1);
    match changes[k].kind {
      case Leave => LeaveComesAbout(before, changes, maxSeats, k);
      case TopUp => TopUpComesAbout(before, changes, maxSeats, k);
      case Join => JoinComesAbout(before, changes, maxSeats, k);
    }
    StepIsCounted(p, q, changes[k]);
    DecisionsStand(before, changes, maxSeats, k + 1, |changes|, changes[k].id);
  }

  lemma {:induction false} StepIsCounted(p: Plan, q: Plan, c: Change)
    ensures Applies(p, q, c) ==> CountApplied(q.applied, c.id) > 0
    ensures forall why :: Rejects(p, q, c, why) ==> CountRejected(q.rejected, c.id) > 0
  {
    AppliedGrows(p.applied, c.id, c.id);
    forall why
      ensures CountRejected(p.rejected + [Rejection(c.id, why)], c.id) > 0
    {
      RejectedGrows(p.rejected, Rejection(c.id, why), c.id);
    }
  }

  lemma {:induction false} AppliedIsCounted(s: seq<string>, id: string)
    ensures id in s <==> CountApplied(s, id) > 0
  {
    if |s| > 0 {
      AppliedIsCounted(s[..|s| - 1], id);
      assert s == s[..|s| - 1] + [s[|s| - 1]];
    }
  }

  lemma {:induction false} RejectedIsCounted(s: seq<Rejection>, id: string)
    ensures IsRejected(s, id) <==> CountRejected(s, id) > 0
  {
    if |s| > 0 {
      var n := |s| - 1;
      RejectedIsCounted(s[..n], id);
      if i :| 0 <= i < |s| && s[i].id == id && s[n].id != id {
        assert s[..n][i].id == id;
      }
    }
  }

  /** On every run, a boundary opens the next epoch and marks each pending row by what came of it, and no other. */
  lemma {:induction false} RowsTellOutcome(trace: seq<Table>, n: nat, i: nat)
    requires Run(trace) && n < |trace| && i < |trace[n].queue|
    ensures var t, c := trace[n], trace[n].queue[i];
            Rotate(t).queue[i]
              == if c.status != Pending then c
                 else c.(status := if CameAbout(Rotate(t).participants, c) then Applied else Rejected)
    ensures Rotate(trace[n]).epoch == trace[n].epoch + 1 && Rotate(trace[n]).maxSeats == trace[n].maxSeats
  {
    var t, c := trace[n], trace[n].queue[i];
    RunKeeps(trace, n);
    AppliedIsCounted(PlanOf(t).applied, c.id);
    RejectedIsCounted(PlanOf(t).rejected, c.id);
    if c.status != Pending {
      DecidedCounts(t, i);
    } else {
      PendingIsDecidedOnce(t, i);
      PendingOutcome(trace, n, i);
    }
  }

  lemma {:induction false} PendingOutcome(trace: seq<Table>, n: nat, i: nat)
    requires Run(trace) && n < |trace| && i < |trace[n].queue| && trace[n].queue[i].status == Pending
    ensures var t, c := trace[n], trace[n].queue[i];
            if CameAbout(Rotate(t).participants, c) then CountApplied(PlanOf(t).applied, c.id) > 0
            else CountRejected(PlanOf(t).rejected, c.id) > 0
  {
    var t, c := trace[n], trace[n].queue[i];
    var changes := Changes(t.queue, t.epoch);
    RunIsSound(trace, n);
    ChangesHold(t.queue, t.epoch, c);
    var k :| 0 <= k < |changes| && changes[k] == c;
    DecidedByOutcome(t.participants, changes, t.maxSeats, k);
    RotatedSeat(t, c.owner);
  }

  // ----- Requests -----

  /** Whether a request is accepted: who sits may leave unless a leave is pending; may top up likewise, with a
      positive amount; who does not sit may join, with a positive amount, unless a join or a leave is pending. */
  lemma {:induction false} RequestIsAcceptedIff(t: Table, r: Request)
    requires t.epoch >= 1
    ensures var seated := exists p :: p in t.participants && p.owner == r.owner;
            var leaving := exists c :: c in t.queue && c.status == Pending && c.owner == r.owner && c.kind == Leave;
            var joining := exists c :: c in t.queue && c.status == Pending && c.owner == r.owner && c.kind == Join;
            var positive := r.amount.Some? && r.amount.value > 0;
            Enqueue(t, r).Ok? <==>
              match r.kind
              case Leave => seated && !leaving
              case TopUp => seated && !leaving && positive
              case Join => !seated && !joining && !leaving && positive
  {
    var found := FindOwner(t.participants, r.owner);
    assert found.Some? <==> exists p :: p in t.participants && p.owner == r.owner by {
      assert found.Some? ==> t.participants[found.value] in t.participants;
    }
    PendingRows(t.queue, r.owner, Leave);
    PendingRows(t.queue, r.owner, Join);
  }

  lemma {:induction false} PendingRows(queue: seq<Change>, owner: string, kind: Kind)
    ensures HasPending(queue, owner, kind)
       <==> exists c :: c in queue && c.status == Pending && c.owner == owner && c.kind == kind
  {
    if i :| 0 <= i < |queue| && PendingOf(queue[i], owner, kind) {
      assert queue[i] in queue;
    }
    if c :| c in queue && c.status == Pending && c.owner == owner && c.kind == kind {
      var i :| 0 <= i < |queue| && queue[i] == c;
      assert PendingOf(queue[i], owner, kind);
    }
  }

  /** An accepted request under a new key is queued as it was made, pending, for the next epoch if a hand is on and
      for this one otherwise; under a used key nothing is queued and the caller is shown a row with that key. */
  lemma {:induction false} RequestIsQueuedAsMade(t: Table, r: Request)
    requires Enqueue(t, r).Ok?
    ensures var target := if t.phase == HandActive then t.epoch + 1 else t.epoch;
            var key := if r.key.Some? then Given(r.key.value) else Standard(r.kind, r.owner, target, t.phase);
            var q := Enqueue(t, r).value;
            if exists c :: c in t.queue && c.key == key then q.table == t && q.change in t.queue && q.change.key == key
            else
              && q.change == Change(r.id, target, r.kind, Pending, r.owner, r.seat, r.amount, r.order, key)
              && q.table == t.(queue := t.queue + [q.change])
  {
    if RowOf(t.queue, KeyOf(t, r)).None? {
      forall c | c in t.queue
        ensures c.key != KeyOf(t, r)
      {
        var i :| 0 <= i < |t.queue| && t.queue[i] == c;
      }
    }
  }
}
