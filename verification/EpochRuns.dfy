/** Runs of validated enqueues, withdrawn leaves, hands and epoch boundaries (packages/database/src/epoch-rotation.ts,
    `validateEnqueue`, `targetEpochForQueue`; packages/database/src/epoch-store.ts, `enqueueSeatChange`,
    `cancelPendingLeave`, `rotateEpochAtBoundary`). */
module EpochRuns {
  import opened Prelude
  import opened Epochs
  import opened EpochStacks

  datatype Table = Table(epoch: int, phase: Phase, participants: seq<Participant>, queue: seq<Change>, maxSeats: nat)

  datatype EnqueueError =
    | NotSeated
    | LeaveAlreadyQueued
    | OwnerSeated
    | JoinAlreadyQueued
    | ConflictingLeavePending
    | BadBuyIn
    | LeavePending
    | BadTopUp
    | InvalidEpoch

  datatype Request = Request(
    id: string,
    kind: Kind,
    owner: string,
    seat: Option<int>,
    amount: Option<int>,
    order: int,
    key: Option<string>)

  /** The table after a request was accepted, and the row its caller is shown. */
  datatype Queued = Queued(table: Table, change: Change)

  // ----- Enqueueing -----

  predicate PendingOf(c: Change, owner: string, kind: Kind)
  {
    c.status == Pending && c.owner == owner && c.kind == kind
  }

  predicate HasPending(queue: seq<Change>, owner: string, kind: Kind)
  {
    exists i :: 0 <= i < |queue| && PendingOf(queue[i], owner, kind)
  }

  /** Why a request may not join the queue. */
  function ValidateEnqueue(participants: seq<Participant>, queue: seq<Change>, r: Request): Option<EnqueueError>
  {
    var seated := SeatOf(participants, r.owner).Some?;
    var amount := if r.amount.Some? then r.amount.value else 0;
    match r.kind
    case Leave =>
      if !seated then Some(NotSeated)
      else if HasPending(queue, r.owner, Leave) then Some(LeaveAlreadyQueued)
      else None
    case Join =>
      if seated then Some(OwnerSeated)
      else if HasPending(queue, r.owner, Join) then Some(JoinAlreadyQueued)
      else if HasPending(queue, r.owner, Leave) then Some(ConflictingLeavePending)
      else if amount <= 0 then Some(BadBuyIn)
      else None
    case TopUp =>
      if !seated then Some(NotSeated)
      else if HasPending(queue, r.owner, Leave) then Some(LeavePending)
      else if amount <= 0 then Some(BadTopUp)
      else None
  }

  function TargetEpoch(epoch: int, phase: Phase): int
  {
    if phase == HandActive then epoch + 1 else epoch
  }

  function KeyOf(t: Table, r: Request): Key
  {
    if r.key.Some? then Given(r.key.value) else Standard(r.kind, r.owner, TargetEpoch(t.epoch, t.phase), t.phase)
  }

  function RowOf(queue: seq<Change>, key: Key): (r: Option<Change>)
    ensures r.None? <==> forall i :: 0 <= i < |queue| ==> queue[i].key != key
    ensures r.Some? ==> r.value.key == key && exists i :: 0 <= i < |queue| && queue[i] == r.value
  {
    if |queue| == 0 then None
    else if queue[|queue| - 1].key == key then Some(queue[|queue| - 1])
    else RowOf(queue[..|queue| - 1], key)
  }

  function NewChange(t: Table, r: Request): Change
  {
    Change(r.id, TargetEpoch(t.epoch, t.phase), r.kind, Pending, r.owner, r.seat, r.amount, r.order, KeyOf(t, r))
  }

  /** A row with the same key, whatever its status, takes the place of the request. */
  function Enqueue(t: Table, r: Request): (res: Result<Queued, EnqueueError>)
  {
    var refused := ValidateEnqueue(t.participants, t.queue, r);
    if refused.Some? then Err(refused.value)
    else if t.epoch < 1 then Err(InvalidEpoch)
    else
      match RowOf(t.queue, KeyOf(t, r))
      case Some(row) => Ok(Queued(t, row))
      case None => Ok(Queued(t.(queue := t.queue + [NewChange(t, r)]), NewChange(t, r)))
  }

  // ----- Cancelling a leave -----

  function Cancel(queue: seq<Change>, owner: string): (r: seq<Change>)
    ensures |r| == |queue|
    ensures forall i :: 0 <= i < |queue| ==>
              r[i] == if PendingOf(queue[i], owner, Leave) then queue[i].(status := Cancelled) else queue[i]
  {
    if |queue| == 0 then []
    else
      var c := queue[|queue| - 1];
      Cancel(queue[..|queue| - 1], owner) + [if PendingOf(c, owner, Leave) then c.(status := Cancelled) else c]
  }

  function CancelLeave(t: Table, owner: string): Table
  {
    t.(queue := Cancel(t.queue, owner))
  }

  // ----- Rotating -----

  predicate IsRejected(rejected: seq<Rejection>, id: string)
  {
    exists i :: 0 <= i < |rejected| && rejected[i].id == id
  }

  function MarkOne(c: Change, plan: Plan): (r: Change)
    ensures r == c.(status := r.status)
  {
    if IsRejected(plan.rejected, c.id) then c.(status := Rejected)
    else if c.id in plan.applied then c.(status := Applied)
    else c
  }

  function Mark(queue: seq<Change>, plan: Plan): (r: seq<Change>)
    ensures |r| == |queue|
    ensures forall i :: 0 <= i < |queue| ==> r[i] == MarkOne(queue[i], plan)
  {
    if |queue| == 0 then [] else Mark(queue[..|queue| - 1], plan) + [MarkOne(queue[|queue| - 1], plan)]
  }

  function PlanOf(t: Table): Plan
  {
    Boundary(t.participants, t.queue, t.epoch, t.maxSeats)
  }

  function Rotate(t: Table): Table
  {
    t.(epoch := t.epoch + 1, participants := PlanOf(t).seats, queue := Mark(t.queue, PlanOf(t)))
  }

  // ----- Runs -----

  /** Between boundaries a hand may change stacks and all-in flags, and nothing else about the seats. */
  ghost predicate HandMoves(t: Table, u: Table)
  {
    && u == t.(phase := u.phase, participants := u.participants)
    && |u.participants| == |t.participants|
    && forall i :: 0 <= i < |t.participants| ==>
         u.participants[i].owner == t.participants[i].owner && u.participants[i].seat == t.participants[i].seat
  }

  predicate FreshId(queue: seq<Change>, id: string)
  {
    forall i :: 0 <= i < |queue| ==> queue[i].id != id
  }

  ghost predicate Enqueues(t: Table, r: Request, u: Table)
  {
    FreshId(t.queue, r.id) && Enqueue(t, r).Ok? && Enqueue(t, r).value.table == u
  }

  ghost predicate Next(t: Table, u: Table)
  {
    || (exists r: Request :: Enqueues(t, r, u))
    || (exists owner: string :: u == CancelLeave(t, owner))
    || HandMoves(t, u)
    || (t.phase == BetweenHands && u == Rotate(t))
  }

  ghost predicate StepAt(trace: seq<Table>, i: nat)
    requires i + 1 < |trace|
  {
    Next(trace[i], trace[i + 1])
  }

  /** Any run from a table with an empty queue. */
  ghost predicate Run(trace: seq<Table>)
  {
    && |trace| > 0 && trace[0].epoch >= 1 && SeatsOk(trace[0].participants, trace[0].maxSeats) && trace[0].queue == []
    && forall i: nat :: i + 1 < |trace| ==> StepAt(trace, i)
  }

  // ----- What runs keep -----

  /** What a pending change was validated for still holds. */
  ghost predicate StillValid(participants: seq<Participant>, c: Change)
  {
    match c.kind
    case Leave => SeatOf(participants, c.owner).Some?
    case TopUp => SeatOf(participants, c.owner).Some? && Amount(c) > 0
    case Join => SeatOf(participants, c.owner).None? && Amount(c) > 0
  }

  /** A key made from the request belongs to this epoch or an earlier one; in this epoch only a leave can have
      been withdrawn. */
  ghost predicate KeyOk(epoch: int, c: Change)
  {
    c.key.Standard? ==>
      && c.key.kind == c.kind && c.key.owner == c.owner && c.key.targetEpoch <= TargetEpoch(epoch, c.key.phase)
      && (c.key.targetEpoch == TargetEpoch(epoch, c.key.phase) ==>
            c.status == Pending || (c.status == Cancelled && c.kind == Leave))
  }

  ghost predicate ChangeOk(t: Table, c: Change)
  {
    KeyOk(t.epoch, c) && (c.status == Pending ==> Due(c, t.epoch) && StillValid(t.participants, c))
  }

  /** Two changes of one owner are never both leaves or both joins. */
  predicate Compatible(a: Change, b: Change)
  {
    a.owner == b.owner && a.kind == b.kind ==> a.kind == TopUp
  }

  ghost predicate QueueOk(queue: seq<Change>)
  {
    forall i, j :: 0 <= i < j < |queue| ==>
      queue[i].id != queue[j].id && queue[i].key != queue[j].key
        && (queue[i].status == Pending && queue[j].status == Pending ==> Compatible(queue[i], queue[j]))
  }

  ghost predicate Inv(t: Table)
  {
    && t.epoch >= 1
    && SeatsOk(t.participants, t.maxSeats)
    && QueueOk(t.queue)
    && forall i :: 0 <= i < |t.queue| ==> ChangeOk(t, t.queue[i])
  }

  lemma {:induction false} EnqueueKeeps(t: Table, r: Request)
    requires Inv(t) && FreshId(t.queue, r.id) && Enqueue(t, r).Ok?
    ensures Inv(Enqueue(t, r).value.table)
  {
    var u := Enqueue(t, r).value.table;
    if RowOf(t.queue, KeyOf(t, r)).None? {
      var n := |t.queue|;
      var c := u.queue[n];
      assert c == NewChange(t, r) && ChangeOk(u, c);
      forall i | 0 <= i < |u.queue|
        ensures ChangeOk(u, u.queue[i])
      {
        if i < n {
          assert ChangeOk(t, t.queue[i]);
        }
      }
      forall i | 0 <= i < n && t.queue[i].status == Pending
        ensures Compatible(t.queue[i], c)
      {
        assert !PendingOf(t.queue[i], r.owner, r.kind) || r.kind == TopUp;
      }
      assert QueueOk(u.queue);
    }
  }

  lemma {:induction false} CancelKeeps(t: Table, owner: string)
    requires Inv(t)
    ensures Inv(CancelLeave(t, owner))
  {
    var u := CancelLeave(t, owner);
    forall i | 0 <= i < |u.queue|
      ensures ChangeOk(u, u.queue[i])
    {
      assert ChangeOk(t, t.queue[i]);
    }
  }

  lemma {:induction false} SameOwners(a: seq<Participant>, b: seq<Participant>, owner: string)
    requires |a| == |b| && forall i :: 0 <= i < |a| ==> a[i].owner == b[i].owner
    ensures SeatOf(a, owner).Some? <==> SeatOf(b, owner).Some?
  {
  }

  lemma {:induction false} HandKeeps(t: Table, u: Table)
    requires Inv(t) && HandMoves(t, u)
    ensures Inv(u)
  {
    forall i | 0 <= i < |u.queue|
      ensures ChangeOk(u, u.queue[i])
    {
      assert ChangeOk(t, t.queue[i]);
      SameOwners(t.participants, u.participants, t.queue[i].owner);
    }
  }

  // ----- Every pending change is decided at the next boundary -----

  lemma {:induction false} CountedIsApplied(s: seq<string>, id: string)
    requires CountApplied(s, id) > 0
    ensures id in s
  {
    if s[|s| - 1] != id {
      CountedIsApplied(s[..|s| - 1], id);
    }
  }

  lemma {:induction false} CountedIsRejected(s: seq<Rejection>, id: string)
    requires CountRejected(s, id) > 0
    ensures IsRejected(s, id)
  {
    if s[|s| - 1].id != id {
      CountedIsRejected(s[..|s| - 1], id);
    }
  }

  lemma {:induction false} DueCounts(queue: seq<Change>, epoch: int, i: nat)
    requires i < |queue| && Due(queue[i], epoch)
    ensures CountChanges(DueOf(queue, epoch), queue[i].id) > 0
  {
    var n := |queue| - 1;
    if Due(queue[n], epoch) {
      ChangesGrow(DueOf(queue[..n], epoch), queue[n], queue[i].id);
    }
    if i < n {
      DueCounts(queue[..n], epoch, i);
    }
  }

  lemma {:induction false} DueWithin(queue: seq<Change>, epoch: int, id: string)
    ensures CountChanges(DueOf(queue, epoch), id) <= CountChanges(queue, id)
  {
    if |queue| > 0 {
      var n := |queue| - 1;
      DueWithin(queue[..n], epoch, id);
      if Due(queue[n], epoch) {
        ChangesGrow(DueOf(queue[..n], epoch), queue[n], id);
      }
    }
  }

  lemma {:induction false} FreshCountsZero(queue: seq<Change>, id: string)
    requires FreshId(queue, id)
    ensures CountChanges(queue, id) == 0
  {
    if |queue| > 0 {
      FreshCountsZero(queue[..|queue| - 1], id);
    }
  }

  lemma {:induction false} IdsCountOnce(queue: seq<Change>, id: string)
    requires QueueOk(queue)
    ensures CountChanges(queue, id) <= 1
  {
    if |queue| > 0 {
      var n := |queue| - 1;
      if queue[n].id == id {
        FreshCountsZero(queue[..n], id);
      } else {
        IdsCountOnce(queue[..n], id);
      }
    }
  }

  /** On every run, the next boundary applies or rejects each pending change exactly once. */
  lemma {:induction false} PendingIsDecidedOnce(t: Table, i: nat)
    requires Inv(t) && i < |t.queue| && t.queue[i].status == Pending
    ensures Decided(PlanOf(t), t.queue[i].id) == 1
  {
    var id := t.queue[i].id;
    assert ChangeOk(t, t.queue[i]);
    BoundaryDecidesOnce(t.participants, t.queue, t.epoch, t.maxSeats, id);
    DueCounts(t.queue, t.epoch, i);
    DueWithin(t.queue, t.epoch, id);
    IdsCountOnce(t.queue, id);
  }

  /** ... so nothing stays pending across it. */
  lemma {:induction false} NothingStaysPending(t: Table, i: nat)
    requires Inv(t) && i < |t.queue|
    ensures Rotate(t).queue[i].status != Pending
  {
    var c, plan := t.queue[i], PlanOf(t);
    if c.status == Pending {
      PendingIsDecidedOnce(t, i);
      if CountApplied(plan.applied, c.id) > 0 {
        CountedIsApplied(plan.applied, c.id);
      } else {
        CountedIsRejected(plan.rejected, c.id);
      }
    }
  }

  lemma {:induction false} RotateKeeps(t: Table)
    requires Inv(t)
    ensures Inv(Rotate(t))
  {
    var u := Rotate(t);
    BoundaryKeepsSeats(t.participants, t.queue, t.epoch, t.maxSeats);
    forall i | 0 <= i < |u.queue|
      ensures u.queue[i].status != Pending && u.queue[i] == t.queue[i].(status := u.queue[i].status)
      ensures ChangeOk(u, u.queue[i])
    {
      NothingStaysPending(t, i);
      assert ChangeOk(t, t.queue[i]);
    }
  }

  lemma {:induction false} NextKeeps(t: Table, u: Table)
    requires Inv(t) && Next(t, u)
    ensures Inv(u)
  {
    if HandMoves(t, u) {
      HandKeeps(t, u);
    } else if r: Request :| Enqueues(t, r, u) {
      EnqueueKeeps(t, r);
    } else if owner: string :| u == CancelLeave(t, owner) {
      CancelKeeps(t, owner);
    } else {
      RotateKeeps(t);
    }
  }

  /** On every run, owners and seats stay distinct and in range, and pending changes stay valid and due. */
  lemma {:induction false} RunKeeps(trace: seq<Table>, k: nat)
    requires Run(trace) && k < |trace|
    ensures Inv(trace[k])
  {
    if k > 0 {
      RunKeeps(trace, k - 1);
      assert StepAt(trace, k - 1);
      NextKeeps(trace[k - 1], trace[k]);
    }
  }

  // ----- What becomes of an accepted request -----

  /** The owner has withdrawn a leave asked for in this epoch and phase. */
  ghost predicate Withdrawn(t: Table, owner: string)
  {
    exists i :: 0 <= i < |t.queue| && t.queue[i].status == Cancelled
                && t.queue[i].key == Standard(Leave, owner, TargetEpoch(t.epoch, t.phase), t.phase)
  }

  lemma {:induction false} DecidedCounts(t: Table, i: nat)
    requires Inv(t) && i < |t.queue| && t.queue[i].status != Pending
    ensures Decided(PlanOf(t), t.queue[i].id) == 0
  {
    BoundaryDecidesOnce(t.participants, t.queue, t.epoch, t.maxSeats, t.queue[i].id);
    OthersNotDue(t.queue, t.epoch, i);
  }

  lemma {:induction false} OthersNotDue(queue: seq<Change>, epoch: int, i: nat)
    requires QueueOk(queue) && i < |queue| && !Due(queue[i], epoch)
    ensures CountChanges(DueOf(queue, epoch), queue[i].id) == 0
  {
    var n := |queue| - 1;
    if i < n {
      OthersNotDue(queue[..n], epoch, i);
    } else {
      DueWithin(queue[..n], epoch, queue[n].id);
      FreshCountsZero(queue[..n], queue[n].id);
    }
    if Due(queue[n], epoch) {
      ChangesGrow(DueOf(queue[..n], epoch), queue[n], queue[i].id);
    }
  }

  lemma {:induction false} RowIsDecidedIff(t: Table, c: Change)
    requires Inv(t) && exists i :: 0 <= i < |t.queue| && t.queue[i] == c
    ensures Decided(PlanOf(t), c.id) == if c.status == Pending then 1 else 0
  {
    var i :| 0 <= i < |t.queue| && t.queue[i] == c;
    if c.status == Pending {
      PendingIsDecidedOnce(t, i);
    } else {
      DecidedCounts(t, i);
    }
  }

  /** An accepted request without a key of its own: the row shown to the caller is decided at the next boundary,
      unless the request is a leave and the owner withdrew one in the same epoch and phase. Then the caller is
      shown the withdrawn row, nothing is queued and the player stays. */
  lemma {:induction false} AcceptedIsDecidedIff(t: Table, r: Request)
    requires Inv(t) && FreshId(t.queue, r.id) && r.key.None? && Enqueue(t, r).Ok?
    ensures var q := Enqueue(t, r).value;
            && (Decided(PlanOf(q.table), q.change.id) == 1 <==> !(r.kind == Leave && Withdrawn(t, r.owner)))
            && (r.kind == Leave && Withdrawn(t, r.owner) ==> q.table == t && q.change.status == Cancelled)
  {
    var q := Enqueue(t, r).value;
    EnqueueKeeps(t, r);
    match RowOf(t.queue, KeyOf(t, r))
    case Some(row) =>
      var i :| 0 <= i < |t.queue| && t.queue[i] == row;
      assert ChangeOk(t, t.queue[i]);
      SameKeyStatus(t, r, i);
      RowIsDecidedIff(t, row);
    case None =>
      assert q.table.queue[|t.queue|] == q.change;
      RowIsDecidedIff(q.table, q.change);
  }

  lemma {:induction false} SameKeyStatus(t: Table, r: Request, i: nat)
    requires Inv(t) && r.key.None? && Enqueue(t, r).Ok? && i < |t.queue| && t.queue[i].key == KeyOf(t, r)
    ensures r.kind == Leave <==> t.queue[i].status == Cancelled
    ensures t.queue[i].status == Cancelled || (t.queue[i].status == Pending && r.kind == TopUp)
    ensures r.kind == Leave <==> r.kind == Leave && Withdrawn(t, r.owner)
  {
    assert ChangeOk(t, t.queue[i]);
    assert !PendingOf(t.queue[i], r.owner, r.kind) || r.kind == TopUp;
  }

  /** ... and a request joins the queue exactly when no row has its key: a second top-up in one epoch and phase,
      without a key of its own, is accepted and adds nothing. */
  lemma {:induction false} AcceptedIsQueuedIff(t: Table, r: Request)
    requires Inv(t) && r.key.None? && Enqueue(t, r).Ok?
    ensures var u := Enqueue(t, r).value.table;
            u == t.(queue := t.queue + [NewChange(t, r)]) <==>
            && !(r.kind == Leave && Withdrawn(t, r.owner))
            && !(r.kind == TopUp && exists i :: 0 <= i < |t.queue| && t.queue[i].status == Pending
                                                && t.queue[i].key == KeyOf(t, r))
  {
    var u := Enqueue(t, r).value.table;
    match RowOf(t.queue, KeyOf(t, r))
    case Some(row) =>
      var i :| 0 <= i < |t.queue| && t.queue[i] == row;
      SameKeyStatus(t, r, i);
      assert |u.queue| == |t.queue|;
    case None =>
  }

  /** A player in a hand asks to leave, withdraws, and asks again. */
  function Seated(phase: Phase, queue: seq<Change>): Table
  {
    Table(1, phase, [Participant("A", 0, 100, false)], queue, 2)
  }

  function LeaveOf(id: string): Request
  {
    Request(id, Leave, "A", None, None, 0, None)
  }

  function Row(status: Status): Change
  {
    Change("first", 2, Leave, status, "A", None, None, 0, Standard(Leave, "A", 2, HandActive))
  }

  lemma {:induction false} AsksAndWithdraws()
    ensures Enqueues(Seated(HandActive, []), LeaveOf("first"), Seated(HandActive, [Row(Pending)]))
    ensures CancelLeave(Seated(HandActive, [Row(Pending)]), "A") == Seated(HandActive, [Row(Cancelled)])
    ensures Enqueues(Seated(HandActive, [Row(Cancelled)]), LeaveOf("second"), Seated(HandActive, [Row(Cancelled)]))
  {
    var none, asked := Seated(HandActive, []), Seated(HandActive, [Row(Pending)]);
    var withdrawn := Seated(HandActive, [Row(Cancelled)]);
    assert none.participants[0].owner == "A";
    assert SeatOf(none.participants, "A").Some?;
    assert Enqueue(none, LeaveOf("first")).Ok?;
    assert CancelLeave(asked, "A").queue == [Row(Cancelled)];
    assert withdrawn.queue[0].key == KeyOf(withdrawn, LeaveOf("second"));
    assert Enqueue(withdrawn, LeaveOf("second")).Ok?;
  }

  lemma {:induction false} NothingDueNothingChanges(t: Table)
    requires DueOf(t.queue, t.epoch) == []
    ensures Rotate(t).participants == SortSeats(t.participants)
  {
    assert Changes(t.queue, t.epoch) == [];
  }

  /** A run in which both requests are accepted and the player is still seated after the boundary. */
  lemma {:induction false} LostLeaveRun() returns (trace: seq<Table>)
    ensures Run(trace) && |trace| == 6
    ensures Enqueues(trace[0], LeaveOf("first"), trace[1]) && trace[2] == CancelLeave(trace[1], "A")
    ensures Enqueues(trace[2], LeaveOf("second"), trace[3])
    ensures trace[5] == Rotate(trace[4]) && SeatOf(trace[5].participants, "A").Some?
  {
    AsksAndWithdraws();
    var over := Seated(BetweenHands, [Row(Cancelled)]);
    NothingDueNothingChanges(over);
    assert SortSeats(over.participants) == over.participants;
    trace := [Seated(HandActive, []), Seated(HandActive, [Row(Pending)]), Seated(HandActive, [Row(Cancelled)]),
              Seated(HandActive, [Row(Cancelled)]), over, Rotate(over)];
    assert HandMoves(trace[3], trace[4]);
    forall i: nat | i + 1 < |trace|
      ensures StepAt(trace, i)
    {
      assert i == 0 || i == 1 || i == 2 || i == 3 || i == 4;
    }
  }

  // ----- Why a boundary rejects, on runs -----

  /** A due list in which every change is still valid and no two clash. */
  ghost predicate Sound(before: seq<Participant>, s: seq<Change>)
  {
    && (forall i :: 0 <= i < |s| ==> StillValid(before, s[i]))
    && (forall i, j :: 0 <= i < j < |s| ==> Compatible(s[i], s[j]))
  }

  ghost predicate CompatibleWith(s: seq<Change>, x: Change)
  {
    forall i :: 0 <= i < |s| ==> Compatible(s[i], x)
  }

  lemma {:induction false} PlaceCompatible(s: seq<Change>, x: Change, y: Change)
    requires CompatibleWith(s, y) && Compatible(x, y)
    ensures CompatibleWith(Place(s, x), y)
  {
    if |s| > 0 && !NotAfter(s[|s| - 1], x) {
      PlaceCompatible(s[..|s| - 1], x, y);
    }
  }

  lemma {:induction false} PlaceSound(before: seq<Participant>, s: seq<Change>, x: Change)
    requires Sound(before, s) && CompatibleWith(s, x) && StillValid(before, x)
    ensures Sound(before, Place(s, x))
  {
    if |s| > 0 && !NotAfter(s[|s| - 1], x) {
      PlaceSound(before, s[..|s| - 1], x);
      PlaceCompatible(s[..|s| - 1], x, s[|s| - 1]);
    }
  }

  lemma {:induction false} SortCompatible(s: seq<Change>, x: Change)
    requires CompatibleWith(s, x)
    ensures CompatibleWith(Sort(s), x)
  {
    if |s| > 0 {
      SortCompatible(s[..|s| - 1], x);
      PlaceCompatible(Sort(s[..|s| - 1]), s[|s| - 1], x);
    }
  }

  lemma {:induction false} SortSound(before: seq<Participant>, s: seq<Change>)
    requires Sound(before, s)
    ensures Sound(before, Sort(s))
  {
    if |s| > 0 {
      var n := |s| - 1;
      SortSound(before, s[..n]);
      SortCompatible(s[..n], s[n]);
      PlaceSound(before, Sort(s[..n]), s[n]);
    }
  }

  /** Pending changes are valid and do not clash. */
  ghost predicate QueueSound(before: seq<Participant>, queue: seq<Change>)
  {
    && (forall i :: 0 <= i < |queue| && queue[i].status == Pending ==> StillValid(before, queue[i]))
    && (forall i, j :: 0 <= i < j < |queue| && queue[i].status == Pending && queue[j].status == Pending
                       ==> Compatible(queue[i], queue[j]))
  }

  lemma {:induction false} DueCompatible(queue: seq<Change>, epoch: int, x: Change)
    requires forall i :: 0 <= i < |queue| && queue[i].status == Pending ==> Compatible(queue[i], x)
    ensures CompatibleWith(DueOf(queue, epoch), x)
  {
    if |queue| > 0 {
      DueCompatible(queue[..|queue| - 1], epoch, x);
    }
  }

  lemma {:induction false} DueSound(before: seq<Participant>, queue: seq<Change>, epoch: int)
    requires QueueSound(before, queue)
    ensures Sound(before, DueOf(queue, epoch))
  {
    if |queue| > 0 {
      var n := |queue| - 1;
      DueSound(before, queue[..n], epoch);
      if Due(queue[n], epoch) {
        DueCompatible(queue[..n], epoch, queue[n]);
      }
    }
  }

  ghost predicate Among(changes: seq<Change>, k: nat, kind: Kind, owner: string)
    requires k <= |changes|
  {
    exists j :: 0 <= j < k && changes[j].kind == kind && changes[j].owner == owner
  }

  /** Applied leaves and joins are among the first `k` changes. */
  ghost predicate FromFirst(changes: seq<Change>, k: nat, p: Plan)
    requires k <= |changes|
  {
    && (forall i :: 0 <= i < |p.leaves| ==> Among(changes, k, Leave, p.leaves[i].owner))
    && (forall i :: 0 <= i < |p.joins| ==> Among(changes, k, Join, p.joins[i].owner))
  }

  lemma {:induction false} AmongGrows(changes: seq<Change>, k: nat, kind: Kind, owner: string)
    requires k < |changes| && (Among(changes, k, kind, owner) || (changes[k].kind == kind && changes[k].owner == owner))
    ensures Among(changes, k + 1, kind, owner)
  {
  }

  lemma {:induction false} StepFromFirst(changes: seq<Change>, k: nat, p: Plan, maxSeats: nat)
    requires k < |changes| && FromFirst(changes, k, p)
    ensures FromFirst(changes, k + 1, ApplyChange(p, changes[k], maxSeats))
  {
    var q := ApplyChange(p, changes[k], maxSeats);
    forall i | 0 <= i < |q.leaves|
      ensures Among(changes, k + 1, Leave, q.leaves[i].owner)
    {
      AmongGrows(changes, k, Leave, q.leaves[i].owner);
    }
    forall i | 0 <= i < |q.joins|
      ensures Among(changes, k + 1, Join, q.joins[i].owner)
    {
      AmongGrows(changes, k, Join, q.joins[i].owner);
    }
  }

  lemma {:induction false} TrailFromFirst(before: seq<Participant>, changes: seq<Change>, maxSeats: nat,
                                          plans: seq<Plan>, k: nat)
    requires Trail(before, changes, maxSeats, plans) && k <= |changes|
    ensures FromFirst(changes, k, plans[k])
  {
    if k > 0 {
      TrailFromFirst(before, changes, maxSeats, plans, k - 1);
      assert AppliesAt(plans, changes, maxSeats, k - 1);
      StepFromFirst(changes, k - 1, plans[k - 1], maxSeats);
    }
  }

  /** The only ways a validated change can fail: an unresolved all-in, a top-up whose owner has just left,
      or a full table. */
  predicate Excused(c: Change, p: Plan, why: Reason)
  {
    match c.kind
    case Leave => why == AllInUnresolved
    case TopUp => why == NotSeatedAtBoundary && Left(p.leaves, c.owner)
    case Join => why == NoOpenSeat
  }

  /** The step either applies the change or rejects it with an excuse. */
  ghost predicate StepExcused(p: Plan, c: Change, maxSeats: nat)
  {
    var q := ApplyChange(p, c, maxSeats);
    q.rejected == p.rejected || (exists why :: q.rejected == p.rejected + [Rejection(c.id, why)] && Excused(c, p, why))
  }

  lemma {:induction false} ValidChangesAreExcused(before: seq<Participant>, changes: seq<Change>, maxSeats: nat, k: nat)
    requires InOrder(changes) && Sound(before, changes) && OwnersDistinct(before) && k < |changes|
    ensures StepExcused(Planned(before, changes, maxSeats, k), changes[k], maxSeats)
  {
    var plans := Plans(before, changes, maxSeats, |changes|);
    PlansAreATrail(before, changes, maxSeats);
    TrailAccounts(before, changes, maxSeats, plans, k);
    TrailFromFirst(before, changes, maxSeats, plans, k);
    NextIsEarly(before, changes, maxSeats, plans, k);
    ExcusedStep(before, changes, maxSeats, k, plans[k]);
  }

  lemma {:induction false} ExcusedStep(before: seq<Participant>, changes: seq<Change>, maxSeats: nat, k: nat, p: Plan)
    requires Sound(before, changes) && k < |changes|
    requires Accounted(before, p) && FromFirst(changes, k, p) && Early(p, Rank(changes[k].kind))
    ensures StepExcused(p, changes[k], maxSeats)
  {
    var c := changes[k];
    assert SeatOf(p.seats, c.owner) == Expected(before, p.leaves, p.topUps, p.joins, c.owner);
    assert StillValid(before, c);
    LeftFinds(p.leaves, c.owner);
    JoinOfFinds(p.joins, c.owner);
    match c.kind
    case Leave =>
      NotTwice(changes, k, Leave);
      LeaveExcused(p, c);
    case TopUp => TopUpExcused(p, c);
    case Join =>
      NotTwice(changes, k, Join);
      JoinExcused(p, c, maxSeats);
  }

  lemma {:induction false} NotTwice(changes: seq<Change>, k: nat, kind: Kind)
    requires k < |changes| && changes[k].kind == kind != TopUp
    requires forall i, j :: 0 <= i < j < |changes| ==> Compatible(changes[i], changes[j])
    ensures forall j :: 0 <= j < k && changes[j].kind == kind ==> changes[j].owner != changes[k].owner
  {
  }

  lemma {:induction false} LeaveExcused(p: Plan, c: Change)
    requires c.kind == Leave && SeatOf(p.seats, c.owner).Some?
    ensures var q := ApplyLeave(p, c);
            q.rejected == p.rejected || q.rejected == p.rejected + [Rejection(c.id, AllInUnresolved)]
  {
  }

  lemma {:induction false} TopUpExcused(p: Plan, c: Change)
    requires c.kind == TopUp && Amount(c) > 0
    ensures var q := ApplyTopUp(p, c);
            q.rejected == p.rejected
              || (SeatOf(p.seats, c.owner).None? && q.rejected == p.rejected + [Rejection(c.id, NotSeatedAtBoundary)])
  {
  }

  lemma {:induction false} JoinExcused(p: Plan, c: Change, maxSeats: nat)
    requires c.kind == Join && SeatOf(p.seats, c.owner).None? && Amount(c) > 0
    ensures var q := ApplyJoin(p, c, maxSeats);
            q.rejected == p.rejected || q.rejected == p.rejected + [Rejection(c.id, NoOpenSeat)]
  {
  }

  /** On every run, each change a boundary handles is applied, or rejected for one of these three reasons. */
  lemma {:induction false} RunsRejectOnlyExcused(trace: seq<Table>, n: nat, k: nat)
    requires Run(trace) && n < |trace|
    requires var t := trace[n]; k < |Changes(t.queue, t.epoch)|
    ensures var t := trace[n]; var changes := Changes(t.queue, t.epoch);
            StepExcused(Planned(t.participants, changes, t.maxSeats, k), changes[k], t.maxSeats)
  {
    var t := trace[n];
    RunKeeps(trace, n);
    InvIsSound(t);
    DueSound(t.participants, t.queue, t.epoch);
    SortSound(t.participants, DueOf(t.queue, t.epoch));
    SortSorts(DueOf(t.queue, t.epoch));
    ValidChangesAreExcused(t.participants, Changes(t.queue, t.epoch), t.maxSeats, k);
  }

  lemma {:induction false} InvIsSound(t: Table)
    requires Inv(t)
    ensures QueueSound(t.participants, t.queue) && OwnersDistinct(t.participants)
  {
    forall i | 0 <= i < |t.queue| && t.queue[i].status == Pending
      ensures StillValid(t.participants, t.queue[i])
    {
      assert ChangeOk(t, t.queue[i]);
    }
  }
}
