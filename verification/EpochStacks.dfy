/** What a boundary does to each player and to the chips on the table. */
module EpochStacks {
  import opened Prelude
  import opened Epochs

  // ----- The table by owner -----

  function SeatOf(seats: seq<Participant>, owner: string): (r: Option<Participant>)
    ensures r.Some? ==> r.value.owner == owner
  {
    match FindOwner(seats, owner)
    case None => None
    case Some(i) => Some(seats[i])
  }

  ghost predicate OwnersDistinct(seats: seq<Participant>)
  {
    forall i, j :: 0 <= i < j < |seats| ==> seats[i].owner != seats[j].owner
  }

  lemma {:induction false} SeatOfIs(seats: seq<Participant>, i: nat)
    requires OwnersDistinct(seats) && i < |seats|
    ensures SeatOf(seats, seats[i].owner) == Some(seats[i])
  {
    var r := FindOwner(seats, seats[i].owner);
    assert r.Some? && r.value == i;
  }

  lemma {:induction false} SeatOfNone(seats: seq<Participant>, owner: string)
    requires forall i :: 0 <= i < |seats| ==> seats[i].owner != owner
    ensures SeatOf(seats, owner) == None
  {
  }

  lemma {:induction false} SeatOfAppend(seats: seq<Participant>, x: Participant, owner: string)
    requires SeatOf(seats, x.owner) == None && OwnersDistinct(seats)
    ensures OwnersDistinct(seats + [x])
    ensures SeatOf(seats + [x], owner) == if owner == x.owner then Some(x) else SeatOf(seats, owner)
  {
    assert (seats + [x])[..|seats|] == seats;
  }

  lemma {:induction false} SeatOfUpdate(seats: seq<Participant>, i: nat, x: Participant, owner: string)
    requires OwnersDistinct(seats) && i < |seats| && x.owner == seats[i].owner
    ensures SeatOf(seats[i := x], owner) == if owner == x.owner then Some(x) else SeatOf(seats, owner)
  {
    var after := seats[i := x];
    match FindOwner(seats, owner)
    case None => SeatOfNone(after, owner);
    case Some(j) => SeatOfIs(after, j);
  }

  lemma {:induction false} SeatOfRemove(seats: seq<Participant>, i: nat, owner: string)
    requires OwnersDistinct(seats) && i < |seats|
    ensures SeatOf(RemoveAt(seats, i), owner) == if owner == seats[i].owner then None else SeatOf(seats, owner)
  {
    var after := RemoveAt(seats, i);
    match FindOwner(seats, owner)
    case None => SeatOfNone(after, owner);
    case Some(j) =>
      if owner == seats[i].owner {
        SeatOfNone(after, owner);
      } else {
        assert after[if j < i then j else j - 1] == seats[j];
        SeatOfIs(after, if j < i then j else j - 1);
      }
  }

  // ----- What becomes of an owner -----

  /** The last join an owner was granted. */
  function JoinOf(joins: seq<Change>, owner: string): (r: Option<Change>)
  {
    if |joins| == 0 then None
    else if joins[|joins| - 1].owner == owner then Some(joins[|joins| - 1])
    else JoinOf(joins[..|joins| - 1], owner)
  }

  predicate Left(leaves: seq<Change>, owner: string)
  {
    |leaves| > 0 && (leaves[|leaves| - 1].owner == owner || Left(leaves[..|leaves| - 1], owner))
  }

  function ToppedUp(topUps: seq<Change>, owner: string): int
  {
    if |topUps| == 0 then 0
    else
      ToppedUp(topUps[..|topUps| - 1], owner)
      + if topUps[|topUps| - 1].owner == owner then Amount(topUps[|topUps| - 1]) else 0
  }

  /** Where an owner ends up: in the seat and with the buy-in of a granted join; else where it sat, with
      its top-ups added, unless it left. */
  function Expected(before: seq<Participant>, leaves: seq<Change>, topUps: seq<Change>, joins: seq<Change>,
                    owner: string)
    : Option<Participant>
  {
    match JoinOf(joins, owner)
    case Some(c) => if c.seat.Some? then Some(Participant(owner, c.seat.value, Amount(c), false)) else None
    case None =>
      if SeatOf(before, owner).None? || Left(leaves, owner) then None
      else
        var was := SeatOf(before, owner).value;
        Some(was.(stack := was.stack + ToppedUp(topUps, owner)))
  }

  /** Every owner is where it should be. */
  ghost predicate Accounted(before: seq<Participant>, p: Plan)
  {
    OwnersDistinct(p.seats)
      && forall owner :: SeatOf(p.seats, owner) == Expected(before, p.leaves, p.topUps, p.joins, owner)
  }

  /** Nothing of a later rank has been applied yet. */
  ghost predicate Early(p: Plan, rank: int)
  {
    (rank == 0 ==> p.topUps == []) && (rank <= 1 ==> p.joins == [])
  }

  lemma {:induction false} LeaveAccounts(before: seq<Participant>, p: Plan, c: Change)
    requires Accounted(before, p) && Early(p, 0) && c.kind == Leave
    ensures Accounted(before, ApplyLeave(p, c))
    ensures ApplyLeave(p, c) != p && ApplyLeave(p, c).leaves != p.leaves ==>
              SeatOf(before, c.owner).Some? && SeatOf(p.seats, c.owner) == SeatOf(before, c.owner)
              && !SeatOf(before, c.owner).value.allIn
  {
    var q, found := ApplyLeave(p, c), FindOwner(p.seats, c.owner);
    assert SeatOf(p.seats, c.owner) == Expected(before, p.leaves, p.topUps, p.joins, c.owner);
    if found.Some? && !p.seats[found.value].allIn {
      assert q.leaves[..|q.leaves| - 1] == p.leaves;
      forall owner
        ensures SeatOf(q.seats, owner) == Expected(before, q.leaves, q.topUps, q.joins, owner)
      {
        SeatOfRemove(p.seats, found.value, owner);
        assert SeatOf(p.seats, owner) == Expected(before, p.leaves, p.topUps, p.joins, owner);
      }
    }
  }

  lemma {:induction false} TopUpAccounts(before: seq<Participant>, p: Plan, c: Change)
    requires Accounted(before, p) && Early(p, 1) && c.kind == TopUp
    ensures Accounted(before, ApplyTopUp(p, c))
  {
    var q, found := ApplyTopUp(p, c), FindOwner(p.seats, c.owner);
    if found.Some? && Amount(c) > 0 {
      assert q.topUps[..|q.topUps| - 1] == p.topUps;
      assert SeatOf(p.seats, c.owner) == Expected(before, p.leaves, p.topUps, p.joins, c.owner);
      forall owner
        ensures SeatOf(q.seats, owner) == Expected(before, q.leaves, q.topUps, q.joins, owner)
      {
        SeatOfUpdate(p.seats, found.value, q.seats[found.value], owner);
        assert SeatOf(p.seats, owner) == Expected(before, p.leaves, p.topUps, p.joins, owner);
      }
    }
  }

  lemma {:induction false} JoinOfAppend(joins: seq<Change>, c: Change, owner: string)
    ensures JoinOf(joins + [c], owner) == if c.owner == owner then Some(c) else JoinOf(joins, owner)
  {
    assert (joins + [c])[..|joins|] == joins;
  }

  lemma {:induction false} GrantAccounts(before: seq<Participant>, p: Plan, c: Change, seat: int)
    requires Accounted(before, p) && SeatOf(p.seats, c.owner) == None && c.seat == Some(seat)
    ensures Accounted(before, p.(seats := p.seats + [Participant(c.owner, seat, Amount(c), false)],
                                 joins := p.joins + [c]))
  {
    var x := Participant(c.owner, seat, Amount(c), false);
    SeatOfAppend(p.seats, x, c.owner);
    forall owner
      ensures SeatOf(p.seats + [x], owner) == Expected(before, p.leaves, p.topUps, p.joins + [c], owner)
    {
      SeatOfAppend(p.seats, x, owner);
      JoinOfAppend(p.joins, c, owner);
      assert SeatOf(p.seats, owner) == Expected(before, p.leaves, p.topUps, p.joins, owner);
    }
  }

  lemma {:induction false} JoinAccounts(before: seq<Participant>, p: Plan, c: Change, maxSeats: nat)
    requires Accounted(before, p) && c.kind == Join
    ensures Accounted(before, ApplyJoin(p, c, maxSeats))
  {
    var seat := SeatFor(p.seats, maxSeats, c.seat);
    if FindOwner(p.seats, c.owner).None? && seat.Some? {
      GrantAccounts(before, p, c.(seat := seat), seat.value);
    }
  }

  lemma {:induction false} StepAccounts(before: seq<Participant>, p: Plan, c: Change, maxSeats: nat)
    requires Accounted(before, p) && Early(p, Rank(c.kind))
    ensures Accounted(before, ApplyChange(p, c, maxSeats))
  {
    match c.kind
    case Leave => LeaveAccounts(before, p, c);
    case TopUp => TopUpAccounts(before, p, c);
    case Join => JoinAccounts(before, p, c, maxSeats);
  }

  // ----- The plans a boundary goes through -----

  ghost predicate AppliesAt(plans: seq<Plan>, changes: seq<Change>, maxSeats: nat, k: nat)
    requires k < |changes| && k + 1 < |plans|
  {
    plans[k + 1] == ApplyChange(plans[k], changes[k], maxSeats)
  }

  ghost predicate Trail(before: seq<Participant>, changes: seq<Change>, maxSeats: nat, plans: seq<Plan>)
  {
    && |plans| == |changes| + 1 && plans[0] == Opening(before)
    && forall k: nat :: k < |changes| ==> AppliesAt(plans, changes, maxSeats, k)
  }

  ghost function Plans(before: seq<Participant>, changes: seq<Change>, maxSeats: nat, n: nat): (r: seq<Plan>)
    requires n <= |changes|
    ensures |r| == n + 1
    ensures forall k :: 0 <= k <= n ==> r[k] == Planned(before, changes, maxSeats, k)
  {
    if n == 0 then [Opening(before)]
    else Plans(before, changes, maxSeats, n - 1) + [Planned(before, changes, maxSeats, n)]
  }

  lemma {:induction false} PlansAreATrail(before: seq<Participant>, changes: seq<Change>, maxSeats: nat)
    ensures Trail(before, changes, maxSeats, Plans(before, changes, maxSeats, |changes|))
  {
    var plans := Plans(before, changes, maxSeats, |changes|);
    forall k: nat | k < |changes|
      ensures AppliesAt(plans, changes, maxSeats, k)
    {
      assert plans[k] == Planned(before, changes, maxSeats, k);
      assert plans[k + 1] == Planned(before, changes, maxSeats, k + 1);
    }
  }

  /** After the first `k` changes of a sorted list, nothing ranking behind change `k` has been applied. */
  lemma {:induction false} SortedIsEarly(before: seq<Participant>, changes: seq<Change>, maxSeats: nat,
                                         plans: seq<Plan>, k: nat, rank: int)
    requires Trail(before, changes, maxSeats, plans) && k <= |changes|
    requires forall i :: 0 <= i < k ==> Rank(changes[i].kind) <= rank
    ensures Early(plans[k], rank)
  {
    if k > 0 {
      SortedIsEarly(before, changes, maxSeats, plans, k - 1, rank);
      assert AppliesAt(plans, changes, maxSeats, k - 1);
      ApplyIsEarly(plans[k - 1], changes[k - 1], maxSeats, rank);
    }
  }

  lemma {:induction false} ApplyIsEarly(p: Plan, c: Change, maxSeats: nat, rank: int)
    requires Early(p, rank) && Rank(c.kind) <= rank
    ensures Early(ApplyChange(p, c, maxSeats), rank)
  {
  }

  lemma {:induction false} NextIsEarly(before: seq<Participant>, changes: seq<Change>, maxSeats: nat, plans: seq<Plan>,
                                       k: nat)
    requires Trail(before, changes, maxSeats, plans) && InOrder(changes) && k < |changes|
    ensures Early(plans[k], Rank(changes[k].kind))
  {
    forall i | 0 <= i < k
      ensures Rank(changes[i].kind) <= Rank(changes[k].kind)
    {
      assert NotAfter(changes[i], changes[k]);
    }
    SortedIsEarly(before, changes, maxSeats, plans, k, Rank(changes[k].kind));
  }

  lemma {:induction false} TrailAccounts(before: seq<Participant>, changes: seq<Change>, maxSeats: nat,
                                         plans: seq<Plan>, k: nat)
    requires Trail(before, changes, maxSeats, plans) && InOrder(changes) && k <= |changes| && OwnersDistinct(before)
    ensures Accounted(before, plans[k])
  {
    if k == 0 {
      OpeningAccounts(before);
    } else {
      TrailAccounts(before, changes, maxSeats, plans, k - 1);
      ChangeAccounts(before, changes, maxSeats, plans, k - 1);
    }
  }

  lemma {:induction false} ChangeAccounts(before: seq<Participant>, changes: seq<Change>, maxSeats: nat,
                                          plans: seq<Plan>, k: nat)
    requires Trail(before, changes, maxSeats, plans) && InOrder(changes) && k < |changes| && Accounted(before, plans[k])
    ensures Accounted(before, plans[k + 1])
  {
    NextIsEarly(before, changes, maxSeats, plans, k);
    assert AppliesAt(plans, changes, maxSeats, k);
    StepAccounts(before, plans[k], changes[k], maxSeats);
  }

  lemma {:induction false} OpeningAccounts(before: seq<Participant>)
    requires OwnersDistinct(before)
    ensures Accounted(before, Opening(before))
  {
  }

  lemma {:induction false} SeatOfSorted(s: seq<Participant>, maxSeats: nat, owner: string)
    requires SeatsOk(s, maxSeats)
    ensures SeatOf(SortSeats(s), owner) == SeatOf(s, owner)
  {
    var t := SortSeats(s);
    SortSeatsOk(s, maxSeats);
    SortSeatsPermutes(s);
    match FindOwner(s, owner)
    case None =>
      forall i | 0 <= i < |t|
        ensures t[i].owner != owner
      {
        assert t[i] in multiset(t);
        assert t[i] in s;
      }
      SeatOfNone(t, owner);
    case Some(j) =>
      assert s[j] in multiset(s);
      assert s[j] in t;
      var i :| 0 <= i < |t| && t[i] == s[j];
      SeatOfIs(t, i);
  }

  lemma {:induction false} FinalPlan(before: seq<Participant>, queue: seq<Change>, epoch: int, maxSeats: nat)
    returns (p: Plan)
    requires SeatsOk(before, maxSeats)
    ensures Accounted(before, p) && Orderly(before, p) && Balanced(before, p) && FullIfTurnedAway(p, maxSeats)
    ensures SeatsOk(p.seats, maxSeats)
    ensures Boundary(before, queue, epoch, maxSeats) == p.(seats := SortSeats(p.seats))
  {
    var changes := Changes(queue, epoch);
    SortSorts(DueOf(queue, epoch));
    p := LastPlan(before, changes, maxSeats);
    PlannedKeepsSeats(before, changes, maxSeats, |changes|);
  }

  lemma {:induction false} LastPlan(before: seq<Participant>, changes: seq<Change>, maxSeats: nat) returns (p: Plan)
    requires OwnersDistinct(before) && InOrder(changes)
    ensures Accounted(before, p) && Orderly(before, p) && Balanced(before, p) && FullIfTurnedAway(p, maxSeats)
    ensures p == Planned(before, changes, maxSeats, |changes|)
  {
    var plans := Plans(before, changes, maxSeats, |changes|);
    PlansAreATrail(before, changes, maxSeats);
    p := plans[|changes|];
    TrailAccounts(before, changes, maxSeats, plans, |changes|);
    TrailOrderly(before, changes, maxSeats, plans, |changes|);
    TrailBalances(before, changes, maxSeats, plans, |changes|);
    TrailFull(before, changes, maxSeats, plans, |changes|);
  }

  /** A boundary leaves every owner exactly where its applied changes put it. */
  lemma {:induction false} BoundaryIsExact(before: seq<Participant>, queue: seq<Change>, epoch: int, maxSeats: nat,
                                           owner: string)
    requires SeatsOk(before, maxSeats)
    ensures var plan := Boundary(before, queue, epoch, maxSeats);
            SeatOf(plan.seats, owner) == Expected(before, plan.leaves, plan.topUps, plan.joins, owner)
  {
    var p := FinalPlan(before, queue, epoch, maxSeats);
    SeatOfSorted(p.seats, maxSeats, owner);
    assert SeatOf(p.seats, owner) == Expected(before, p.leaves, p.topUps, p.joins, owner);
  }

  // ----- Nobody all-in vacates -----

  /** Leaves free the seats of players who sat and were not all-in; joins take in owners who did not sit, or left. */
  ghost predicate Orderly(before: seq<Participant>, p: Plan)
  {
    && (forall i :: 0 <= i < |p.leaves| ==>
      SeatOf(before, p.leaves[i].owner).Some? && !SeatOf(before, p.leaves[i].owner).value.allIn)
    && (forall i :: 0 <= i < |p.joins| ==> SeatOf(before, p.joins[i].owner).None? || Left(p.leaves, p.joins[i].owner))
    && (forall i :: 0 <= i < |p.joins| ==> p.joins[i].seat.Some?)
  }

  lemma {:induction false} LeaveOrderly(before: seq<Participant>, p: Plan, c: Change)
    requires Accounted(before, p) && Orderly(before, p) && Early(p, 0) && c.kind == Leave
    ensures Orderly(before, ApplyLeave(p, c))
  {
    LeaveAccounts(before, p, c);
  }

  lemma {:induction false} JoinOrderly(before: seq<Participant>, p: Plan, c: Change, maxSeats: nat)
    requires Accounted(before, p) && Orderly(before, p) && c.kind == Join
    ensures Orderly(before, ApplyJoin(p, c, maxSeats))
  {
    assert SeatOf(p.seats, c.owner) == Expected(before, p.leaves, p.topUps, p.joins, c.owner);
    JoinOfFinds(p.joins, c.owner);
  }

  lemma {:induction false} JoinOfFinds(joins: seq<Change>, owner: string)
    ensures JoinOf(joins, owner).Some?
            ==> exists i :: 0 <= i < |joins| && joins[i] == JoinOf(joins, owner).value && joins[i].owner == owner
  {
    if |joins| > 0 && joins[|joins| - 1].owner != owner {
      JoinOfFinds(joins[..|joins| - 1], owner);
    }
  }

  lemma {:induction false} StepOrderly(before: seq<Participant>, p: Plan, c: Change, maxSeats: nat)
    requires Accounted(before, p) && Orderly(before, p) && Early(p, Rank(c.kind))
    ensures Orderly(before, ApplyChange(p, c, maxSeats))
  {
    match c.kind
    case Leave => LeaveOrderly(before, p, c);
    case TopUp =>
    case Join => JoinOrderly(before, p, c, maxSeats);
  }

  lemma {:induction false} TrailOrderly(before: seq<Participant>, changes: seq<Change>, maxSeats: nat,
                                        plans: seq<Plan>, k: nat)
    requires Trail(before, changes, maxSeats, plans) && InOrder(changes) && k <= |changes| && OwnersDistinct(before)
    ensures Orderly(before, plans[k])
  {
    if k > 0 {
      TrailOrderly(before, changes, maxSeats, plans, k - 1);
      TrailAccounts(before, changes, maxSeats, plans, k - 1);
      ChangeOrderly(before, changes, maxSeats, plans, k - 1);
    }
  }

  lemma {:induction false} ChangeOrderly(before: seq<Participant>, changes: seq<Change>, maxSeats: nat,
                                         plans: seq<Plan>, k: nat)
    requires Trail(before, changes, maxSeats, plans) && InOrder(changes) && k < |changes|
             && Accounted(before, plans[k]) && Orderly(before, plans[k])
    ensures Orderly(before, plans[k + 1])
  {
    NextIsEarly(before, changes, maxSeats, plans, k);
    assert AppliesAt(plans, changes, maxSeats, k);
    StepOrderly(before, plans[k], changes[k], maxSeats);
  }

  lemma {:induction false} LeftFinds(leaves: seq<Change>, owner: string)
    ensures Left(leaves, owner) ==> exists i :: 0 <= i < |leaves| && leaves[i].owner == owner
  {
    if |leaves| > 0 && leaves[|leaves| - 1].owner != owner {
      LeftFinds(leaves[..|leaves| - 1], owner);
    }
  }

  /** A player who is all-in keeps the seat, with any top-ups added, whatever was queued. */
  lemma {:induction false} AllInNeverVacates(before: seq<Participant>, queue: seq<Change>, epoch: int, maxSeats: nat,
                                             i: nat)
    requires SeatsOk(before, maxSeats) && i < |before| && before[i].allIn
    ensures var plan := Boundary(before, queue, epoch, maxSeats); var owner := before[i].owner;
            SeatOf(plan.seats, owner) == Some(before[i].(stack := before[i].stack + ToppedUp(plan.topUps, owner)))
  {
    var p := FinalAllIn(before, queue, epoch, maxSeats, i);
    SeatOfSorted(p.seats, maxSeats, before[i].owner);
  }

  lemma {:induction false} FinalAllIn(before: seq<Participant>, queue: seq<Change>, epoch: int, maxSeats: nat, i: nat)
    returns (p: Plan)
    requires SeatsOk(before, maxSeats) && i < |before| && before[i].allIn
    ensures SeatsOk(p.seats, maxSeats) && Boundary(before, queue, epoch, maxSeats) == p.(seats := SortSeats(p.seats))
    ensures SeatOf(p.seats, before[i].owner)
            == Some(before[i].(stack := before[i].stack + ToppedUp(p.topUps, before[i].owner)))
  {
    p := FinalPlan(before, queue, epoch, maxSeats);
    AllInStays(before, p, i);
  }

  lemma {:induction false} AllInStays(before: seq<Participant>, p: Plan, i: nat)
    requires OwnersDistinct(before) && Accounted(before, p) && Orderly(before, p) && i < |before| && before[i].allIn
    ensures SeatOf(p.seats, before[i].owner)
            == Some(before[i].(stack := before[i].stack + ToppedUp(p.topUps, before[i].owner)))
  {
    SeatOfIs(before, i);
    NeitherLeftNorJoined(before, p, before[i].owner);
    ExpectedStays(before, p.leaves, p.topUps, p.joins, before[i]);
  }

  lemma {:induction false} ExpectedStays(before: seq<Participant>, leaves: seq<Change>, topUps: seq<Change>,
                                         joins: seq<Change>, was: Participant)
    requires SeatOf(before, was.owner) == Some(was) && !Left(leaves, was.owner) && JoinOf(joins, was.owner) == None
    ensures Expected(before, leaves, topUps, joins, was.owner)
            == Some(was.(stack := was.stack + ToppedUp(topUps, was.owner)))
  {
  }

  lemma {:induction false} NeitherLeftNorJoined(before: seq<Participant>, p: Plan, owner: string)
    requires Orderly(before, p) && SeatOf(before, owner).Some? && SeatOf(before, owner).value.allIn
    ensures !Left(p.leaves, owner) && JoinOf(p.joins, owner) == None
  {
    LeftFinds(p.leaves, owner);
    JoinOfFinds(p.joins, owner);
  }

  // ----- Chips -----

  function Total(seats: seq<Participant>): int
  {
    if |seats| == 0 then 0 else Total(seats[..|seats| - 1]) + seats[|seats| - 1].stack
  }

  function AmountSum(s: seq<Change>): int
  {
    if |s| == 0 then 0 else AmountSum(s[..|s| - 1]) + Amount(s[|s| - 1])
  }

  /** What leaving players take with them: their stacks from before the boundary. */
  function CashedOut(before: seq<Participant>, leaves: seq<Change>): int
  {
    if |leaves| == 0 then 0
    else
      var c := leaves[|leaves| - 1];
      CashedOut(before, leaves[..|leaves| - 1])
      + if SeatOf(before, c.owner).Some? then SeatOf(before, c.owner).value.stack else 0
  }

  lemma {:induction false} TotalAppend(a: seq<Participant>, b: seq<Participant>)
    ensures Total(a + b) == Total(a) + Total(b)
  {
    if |b| == 0 {
      assert a + b == a;
    } else {
      TotalAppend(a, b[..|b| - 1]);
      assert (a + b)[..|a + b| - 1] == a + b[..|b| - 1];
    }
  }

  lemma {:induction false} TotalRemove(seats: seq<Participant>, i: nat)
    requires i < |seats|
    ensures Total(RemoveAt(seats, i)) == Total(seats) - seats[i].stack
  {
    assert seats == seats[..i] + [seats[i]] + seats[i + 1..];
    TotalAppend(seats[..i] + [seats[i]], seats[i + 1..]);
    TotalAppend(seats[..i], [seats[i]]);
    TotalAppend(seats[..i], seats[i + 1..]);
  }

  lemma {:induction false} TotalUpdate(seats: seq<Participant>, i: nat, x: Participant)
    requires i < |seats|
    ensures Total(seats[i := x]) == Total(seats) - seats[i].stack + x.stack
  {
    TotalRemove(seats, i);
    TotalRemove(seats[i := x], i);
    assert RemoveAt(seats[i := x], i) == RemoveAt(seats, i);
  }

  ghost predicate Balanced(before: seq<Participant>, p: Plan)
  {
    Total(p.seats) == Total(before) - CashedOut(before, p.leaves) + AmountSum(p.topUps) + AmountSum(p.joins)
  }

  lemma {:induction false} StepBalances(before: seq<Participant>, p: Plan, c: Change, maxSeats: nat)
    requires Accounted(before, p) && Early(p, Rank(c.kind)) && Balanced(before, p)
    ensures Balanced(before, ApplyChange(p, c, maxSeats))
  {
    match c.kind
    case Leave => LeaveBalances(before, p, c);
    case TopUp => TopUpBalances(before, p, c);
    case Join => JoinBalances(before, p, c, maxSeats);
  }

  lemma {:induction false} LeaveBalances(before: seq<Participant>, p: Plan, c: Change)
    requires Accounted(before, p) && Early(p, 0) && Balanced(before, p) && c.kind == Leave
    ensures Balanced(before, ApplyLeave(p, c))
  {
    var q, found := ApplyLeave(p, c), FindOwner(p.seats, c.owner);
    LeaveAccounts(before, p, c);
    if found.Some? && !p.seats[found.value].allIn {
      TotalRemove(p.seats, found.value);
      assert q.leaves[..|q.leaves| - 1] == p.leaves;
    }
  }

  lemma {:induction false} TopUpBalances(before: seq<Participant>, p: Plan, c: Change)
    requires Balanced(before, p)
    ensures Balanced(before, ApplyTopUp(p, c))
  {
    var q, found := ApplyTopUp(p, c), FindOwner(p.seats, c.owner);
    if found.Some? && Amount(c) > 0 {
      TotalUpdate(p.seats, found.value, q.seats[found.value]);
      assert q.topUps[..|q.topUps| - 1] == p.topUps;
    }
  }

  lemma {:induction false} AmountAppend(s: seq<Change>, c: Change)
    ensures AmountSum(s + [c]) == AmountSum(s) + Amount(c)
  {
    assert (s + [c])[..|s|] == s;
  }

  lemma {:induction false} GrantBalances(before: seq<Participant>, p: Plan, c: Change, x: Participant)
    requires Balanced(before, p) && x.stack == Amount(c)
    ensures Balanced(before, p.(seats := p.seats + [x], joins := p.joins + [c]))
  {
    TotalPlus(p.seats, x);
    AmountAppend(p.joins, c);
  }

  lemma {:induction false} TotalPlus(s: seq<Participant>, x: Participant)
    ensures Total(s + [x]) == Total(s) + x.stack
  {
    assert (s + [x])[..|s|] == s;
  }

  /** A join changes nothing but the list of rejections, or seats one player. */
  lemma {:induction false} JoinOutcome(p: Plan, c: Change, maxSeats: nat) returns (granted: Change, x: Participant)
    ensures var q := ApplyJoin(p, c, maxSeats);
            && q.leaves == p.leaves && q.topUps == p.topUps && x.stack == Amount(granted)
            && ((q.seats == p.seats && q.joins == p.joins)
                || (q.seats == p.seats + [x] && q.joins == p.joins + [granted]))
  {
    var seat := SeatFor(p.seats, maxSeats, c.seat);
    granted := c.(seat := seat);
    x := Participant(c.owner, if seat.Some? then seat.value else 0, Amount(c), false);
  }

  lemma {:induction false} JoinBalances(before: seq<Participant>, p: Plan, c: Change, maxSeats: nat)
    requires Balanced(before, p)
    ensures Balanced(before, ApplyJoin(p, c, maxSeats))
  {
    var granted, x := JoinOutcome(p, c, maxSeats);
    GrantBalances(before, p, granted, x);
    SameBalance(before, ApplyJoin(p, c, maxSeats), p.(seats := p.seats + [x], joins := p.joins + [granted]), p);
  }

  lemma {:induction false} SameBalance(before: seq<Participant>, q: Plan, a: Plan, b: Plan)
    requires Balanced(before, a) && Balanced(before, b) && q.leaves == a.leaves == b.leaves
             && q.topUps == a.topUps == b.topUps
    requires (q.seats == a.seats && q.joins == a.joins) || (q.seats == b.seats && q.joins == b.joins)
    ensures Balanced(before, q)
  {
  }

  lemma {:induction false} TrailBalances(before: seq<Participant>, changes: seq<Change>, maxSeats: nat,
                                         plans: seq<Plan>, k: nat)
    requires Trail(before, changes, maxSeats, plans) && InOrder(changes) && k <= |changes| && OwnersDistinct(before)
    ensures Balanced(before, plans[k])
  {
    if k > 0 {
      TrailBalances(before, changes, maxSeats, plans, k - 1);
      TrailAccounts(before, changes, maxSeats, plans, k - 1);
      ChangeBalances(before, changes, maxSeats, plans, k - 1);
    }
  }

  lemma {:induction false} ChangeBalances(before: seq<Participant>, changes: seq<Change>, maxSeats: nat,
                                          plans: seq<Plan>, k: nat)
    requires Trail(before, changes, maxSeats, plans) && InOrder(changes) && k < |changes|
             && Accounted(before, plans[k]) && Balanced(before, plans[k])
    ensures Balanced(before, plans[k + 1])
  {
    NextIsEarly(before, changes, maxSeats, plans, k);
    assert AppliesAt(plans, changes, maxSeats, k);
    StepBalances(before, plans[k], changes[k], maxSeats);
  }

  lemma {:induction false} TotalPlaced(s: seq<Participant>, x: Participant)
    ensures Total(PlaceSeat(s, x)) == Total(s) + x.stack
  {
    if |s| > 0 && s[|s| - 1].seat > x.seat {
      TotalPlaced(s[..|s| - 1], x);
      TotalAppend(PlaceSeat(s[..|s| - 1], x), [s[|s| - 1]]);
      assert Total([s[|s| - 1]]) == s[|s| - 1].stack;
    } else {
      TotalAppend(s, [x]);
      assert Total([x]) == x.stack;
    }
  }

  lemma {:induction false} TotalSorted(s: seq<Participant>)
    ensures Total(SortSeats(s)) == Total(s)
  {
    if |s| > 0 {
      TotalSorted(s[..|s| - 1]);
      TotalPlaced(SortSeats(s[..|s| - 1]), s[|s| - 1]);
    }
  }

  /** The table's chips change by what leaves take out and top-ups and joins bring in, to the chip. */
  lemma {:induction false} BoundaryBalances(before: seq<Participant>, queue: seq<Change>, epoch: int, maxSeats: nat)
    requires SeatsOk(before, maxSeats)
    ensures Balanced(before, Boundary(before, queue, epoch, maxSeats))
  {
    var p := FinalPlan(before, queue, epoch, maxSeats);
    TotalSorted(p.seats);
  }

  // ----- A join is turned away only from a full table -----

  function SeatNumbers(seats: seq<Participant>): (r: set<int>)
  {
    set i | 0 <= i < |seats| :: seats[i].seat
  }

  lemma {:induction false} FewSeatNumbers(seats: seq<Participant>)
    ensures |SeatNumbers(seats)| <= |seats|
  {
    if |seats| > 0 {
      var n := |seats| - 1;
      FewSeatNumbers(seats[..n]);
      assert SeatNumbers(seats) == SeatNumbers(seats[..n]) + {seats[n].seat};
    }
  }

  function UpTo(n: nat): (r: set<int>)
    ensures forall i :: i in r <==> 0 <= i < n
  {
    if n == 0 then {} else UpTo(n - 1) + {n - 1}
  }

  lemma {:induction false} UpToSize(n: nat)
    ensures |UpTo(n)| == n
  {
    if n > 0 {
      UpToSize(n - 1);
    }
  }

  lemma {:induction false} NoFreeSeatIsFull(seats: seq<Participant>, maxSeats: nat)
    requires Empties(seats, maxSeats) == []
    ensures |seats| >= maxSeats
  {
    forall s | s in UpTo(maxSeats)
      ensures s in SeatNumbers(seats)
    {
      if !Taken(seats, s) {
        EmptiesLists(seats, maxSeats, s);
      }
    }
    UpToSize(maxSeats);
    FewSeatNumbers(seats);
    SubsetSize(UpTo(maxSeats), SeatNumbers(seats));
  }

  ghost predicate TurnedAway(p: Plan)
  {
    exists i :: 0 <= i < |p.rejected| && p.rejected[i].reason == NoOpenSeat
  }

  ghost predicate FullIfTurnedAway(p: Plan, maxSeats: nat)
  {
    TurnedAway(p) ==> |p.seats| >= maxSeats
  }

  lemma {:induction false} JoinFull(p: Plan, c: Change, maxSeats: nat)
    requires FullIfTurnedAway(p, maxSeats)
    ensures FullIfTurnedAway(ApplyJoin(p, c, maxSeats), maxSeats)
  {
    if Empties(p.seats, maxSeats) == [] {
      NoFreeSeatIsFull(p.seats, maxSeats);
    }
  }

  lemma {:induction false} NobodyTurnedAwayYet(p: Plan, c: Change, maxSeats: nat)
    requires !TurnedAway(p) && c.kind != Join
    ensures !TurnedAway(ApplyChange(p, c, maxSeats))
  {
  }

  lemma {:induction false} EarlyTurnsNobodyAway(before: seq<Participant>, changes: seq<Change>, maxSeats: nat,
                                                plans: seq<Plan>, k: nat)
    requires Trail(before, changes, maxSeats, plans) && k <= |changes|
    requires forall i :: 0 <= i < k ==> changes[i].kind != Join
    ensures !TurnedAway(plans[k])
  {
    if k > 0 {
      EarlyTurnsNobodyAway(before, changes, maxSeats, plans, k - 1);
      assert AppliesAt(plans, changes, maxSeats, k - 1);
      NobodyTurnedAwayYet(plans[k - 1], changes[k - 1], maxSeats);
    }
  }

  lemma {:induction false} TrailFull(before: seq<Participant>, changes: seq<Change>, maxSeats: nat, plans: seq<Plan>,
                                     k: nat)
    requires Trail(before, changes, maxSeats, plans) && InOrder(changes) && k <= |changes|
    ensures FullIfTurnedAway(plans[k], maxSeats)
  {
    if k > 0 {
      if changes[k - 1].kind == Join {
        TrailFull(before, changes, maxSeats, plans, k - 1);
        assert AppliesAt(plans, changes, maxSeats, k - 1);
        JoinFull(plans[k - 1], changes[k - 1], maxSeats);
      } else {
        forall i | 0 <= i < k
          ensures changes[i].kind != Join
        {
          assert i < k - 1 ==> NotAfter(changes[i], changes[k - 1]);
        }
        EarlyTurnsNobodyAway(before, changes, maxSeats, plans, k);
      }
    }
  }

  lemma {:induction false} AtMostMaxSeats(seats: seq<Participant>, maxSeats: nat)
    requires SeatsOk(seats, maxSeats)
    ensures |seats| <= maxSeats
  {
    DistinctSeatNumbers(seats, maxSeats);
    UpToSize(maxSeats);
    SubsetSize(SeatNumbers(seats), UpTo(maxSeats));
  }

  lemma {:induction false} DistinctSeatNumbers(seats: seq<Participant>, maxSeats: nat)
    requires SeatsOk(seats, maxSeats)
    ensures |SeatNumbers(seats)| == |seats|
  {
    if |seats| > 0 {
      var n := |seats| - 1;
      DistinctSeatNumbers(seats[..n], maxSeats);
      assert SeatNumbers(seats) == SeatNumbers(seats[..n]) + {seats[n].seat};
      assert seats[n].seat !in SeatNumbers(seats[..n]);
    }
  }

  /** A join fails for want of a seat only when the table ends up with every seat taken. */
  lemma {:induction false} TurnedAwayOnlyFromFullTable(before: seq<Participant>, queue: seq<Change>, epoch: int,
                                                       maxSeats: nat)
    requires SeatsOk(before, maxSeats)
    ensures var plan := Boundary(before, queue, epoch, maxSeats); TurnedAway(plan) ==> |plan.seats| == maxSeats
  {
    var p := FinalPlan(before, queue, epoch, maxSeats);
    SortSeatsPermutes(p.seats);
    assert |SortSeats(p.seats)| == |multiset(SortSeats(p.seats))| == |multiset(p.seats)| == |p.seats|;
    BoundaryKeepsSeats(before, queue, epoch, maxSeats);
    AtMostMaxSeats(SortSeats(p.seats), maxSeats);
  }
}
