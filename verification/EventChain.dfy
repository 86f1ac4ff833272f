/** The PokerEventV1 hash chain: `EventHashChain` and `verifyEventHashChain`
    (packages/event-store/src/store.ts) and the transcript verifier of
    crates/poker-replay/src/event_chain.rs. Hex strings are compared as values; the encoding and the
    hash are parameters. */
module EventChain {
  import opened Prelude

  type Digest = nat

  type Bytes = seq<nat>

  const ZERO_EVENT_HASH: Digest := 0

  const DEFAULT_PROTOCOL_VERSION: int := 3

  datatype Event = Event(
    protocolVersion: int,
    sessionId: Digest,
    epoch: int,
    handNumber: int,
    sequence: int,
    eventType: int,
    hasActorSeat: bool,
    actorSeat: int,
    publicPayloadHash: Digest,
    privatePayloadCommitment: Digest,
    elapsedMs: int,
    previousEventHash: Digest,
    engineHash: Digest)

  /** A row; `resultingStateHash` and the time of writing are kept beside the event, outside its hash. */
  datatype StoredEvent = StoredEvent(
    event: Event,
    eventHash: Digest,
    canonicalBytes: Bytes,
    resultingStateHash: Option<Digest>,
    persistedAt: int)

  /** Canonical encoding of an event, and the digest of an encoding. */
  datatype Codec = Codec(encode: Event -> Bytes, digest: Bytes -> Digest)

  function EventHash(codec: Codec, e: Event): Digest
  {
    codec.digest(codec.encode(e))
  }

  // ----- Checks on one event -----

  predicate IsKnownEventType(code: int)
  {
    1 <= code <= 3 || 10 <= code <= 15 || 20 <= code <= 22 || code == 30 || code == 40 || code == 50
  }

  predicate ActorSeatValid(hasActorSeat: bool, actorSeat: int)
  {
    (hasActorSeat || actorSeat == 0) && 0 <= actorSeat <= 255
  }

  datatype Code =
    | SessionMismatch
    | EpochMismatch
    | UnknownEventType
    | ActorSeatInvalid
    | SequenceGap
    | PrevBreak
    | HashMismatch
    | CanonicalBytesMismatch
    | EmptyChain
    | TipMismatch
    | ProposalRootMismatch
    | ProposalSequenceMismatch

  /** What is at fault, with the sequence number of the event; an empty chain has none. */
  datatype Issue = Issue(sequence: Option<int>, code: Code)

  // ----- Verification, as a specification -----

  /** The hash the row at `i` has to point back to: the stored hash of the row before it. */
  function PrevStored(rows: seq<StoredEvent>, i: nat): Digest
    requires i <= |rows|
  {
    if i == 0 then ZERO_EVENT_HASH else rows[i - 1].eventHash
  }

  function Tip(rows: seq<StoredEvent>): Digest
  {
    PrevStored(rows, |rows|)
  }

  ghost predicate RowOk(codec: Codec, rows: seq<StoredEvent>, i: nat)
    requires i < |rows|
  {
    var e := rows[i].event;
    && e.sequence == i
    && IsKnownEventType(e.eventType)
    && ActorSeatValid(e.hasActorSeat, e.actorSeat)
    && e.previousEventHash == PrevStored(rows, i)
    && rows[i].eventHash == EventHash(codec, e)
    && rows[i].canonicalBytes == codec.encode(e)
  }

  /** A chain that verifies. */
  ghost predicate Clean(codec: Codec, rows: seq<StoredEvent>)
  {
    forall i: nat :: i < |rows| ==> RowOk(codec, rows, i)
  }

  function When(bad: bool, e: Event, code: Code): seq<Issue>
  {
    if bad then [Issue(Some(e.sequence), code)] else []
  }

  /** What is wrong with one row, in the order the checks are made. */
  function RowIssues(codec: Codec, rows: seq<StoredEvent>, i: nat): (r: seq<Issue>)
    requires i < |rows|
    ensures r == [] <==> RowOk(codec, rows, i)
  {
    var row := rows[i];
    var e := row.event;
    When(e.sequence != i, e, SequenceGap)
    + When(!IsKnownEventType(e.eventType), e, UnknownEventType)
    + When(!ActorSeatValid(e.hasActorSeat, e.actorSeat), e, ActorSeatInvalid)
    + When(e.previousEventHash != PrevStored(rows, i), e, PrevBreak)
    + When(row.eventHash != EventHash(codec, e), e, HashMismatch)
    + When(row.canonicalBytes != codec.encode(e), e, CanonicalBytesMismatch)
  }

  /** Every fault of a row is reported under its own name, with the row's number, and nothing else is. */
  lemma {:induction false} FaultsAreNamed(codec: Codec, rows: seq<StoredEvent>, i: nat, x: Issue)
    requires i < |rows|
    ensures var row, e := rows[i], rows[i].event;
            x in RowIssues(codec, rows, i) <==>
              x.sequence == Some(e.sequence)
              && match x.code
                 case SequenceGap => e.sequence != i
                 case UnknownEventType => !IsKnownEventType(e.eventType)
                 case ActorSeatInvalid => !ActorSeatValid(e.hasActorSeat, e.actorSeat)
                 case PrevBreak => e.previousEventHash != PrevStored(rows, i)
                 case HashMismatch => row.eventHash != EventHash(codec, e)
                 case CanonicalBytesMismatch => row.canonicalBytes != codec.encode(e)
                 case _ => false
  {
  }

  function Issues(codec: Codec, rows: seq<StoredEvent>, k: nat): (r: seq<Issue>)
    requires k <= |rows|
  {
    if k == 0 then [] else Issues(codec, rows, k - 1) + RowIssues(codec, rows, k - 1)
  }

  /** A chain verifies exactly when no row is at fault. */
  lemma {:induction false} NoIssuesIff(codec: Codec, rows: seq<StoredEvent>, k: nat)
    requires k <= |rows|
    ensures Issues(codec, rows, k) == [] <==> forall i: nat :: i < k ==> RowOk(codec, rows, i)
  {
    if k > 0 {
      NoIssuesIff(codec, rows, k - 1);
      assert |Issues(codec, rows, k)| == |Issues(codec, rows, k - 1)| + |RowIssues(codec, rows, k - 1)|;
    }
  }

  method VerifyRows(codec: Codec, rows: seq<StoredEvent>) returns (issues: seq<Issue>)
    ensures issues == Issues(codec, rows, |rows|)
    ensures issues == [] <==> Clean(codec, rows)
  {
    issues := [];
    var expectedPrev := ZERO_EVENT_HASH;
    for i := 0 to |rows|
      invariant expectedPrev == PrevStored(rows, i)
      invariant issues == Issues(codec, rows, i)
    {
      var found := CheckRow(codec, rows[i], i, expectedPrev);
      assert found == RowIssues(codec, rows, i);
      issues := issues + found;
      expectedPrev := rows[i].eventHash;
    }
    NoIssuesIff(codec, rows, |rows|);
  }

  method CheckRow(codec: Codec, row: StoredEvent, i: nat, expectedPrev: Digest) returns (issues: seq<Issue>)
    ensures var e := row.event;
            issues == When(e.sequence != i, e, SequenceGap)
                      + When(!IsKnownEventType(e.eventType), e, UnknownEventType)
                      + When(!ActorSeatValid(e.hasActorSeat, e.actorSeat), e, ActorSeatInvalid)
                      + When(e.previousEventHash != expectedPrev, e, PrevBreak)
                      + When(row.eventHash != EventHash(codec, e), e, HashMismatch)
                      + When(row.canonicalBytes != codec.encode(e), e, CanonicalBytesMismatch)
  {
    var e, bytes := row.event, codec.encode(row.event);
    issues := When(e.sequence != i, e, SequenceGap);
    issues := issues + When(!IsKnownEventType(e.eventType), e, UnknownEventType);
    issues := issues + When(!ActorSeatValid(e.hasActorSeat, e.actorSeat), e, ActorSeatInvalid);
    issues := issues + When(e.previousEventHash != expectedPrev, e, PrevBreak);
    issues := issues + When(row.eventHash != codec.digest(bytes), e, HashMismatch);
    issues := issues + When(row.canonicalBytes != bytes, e, CanonicalBytesMismatch);
  }

  // ----- Appending -----

  datatype AppendInput = AppendInput(
    protocolVersion: Option<int>,
    sessionId: Digest,
    epoch: int,
    handNumber: int,
    sequence: Option<int>,
    eventType: int,
    hasActorSeat: bool,
    actorSeat: int,
    publicPayloadHash: Digest,
    privatePayloadCommitment: Option<Digest>,
    elapsedMs: int,
    previousEventHash: Option<Digest>,
    engineHash: Digest,
    resultingStateHash: Option<Digest>)

  function GetOr<T>(o: Option<T>, default: T): T
  {
    if o.Some? then o.value else default
  }

  /** Why an append is refused, the first reason only. */
  function Refusal(sessionId: Digest, epoch: int, rows: seq<StoredEvent>, input: AppendInput): (r: Option<Code>)
  {
    if input.sessionId != sessionId then Some(SessionMismatch)
    else if input.epoch != epoch then Some(EpochMismatch)
    else if !IsKnownEventType(input.eventType) then Some(UnknownEventType)
    else if !ActorSeatValid(input.hasActorSeat, input.actorSeat) then Some(ActorSeatInvalid)
    else if GetOr(input.sequence, |rows|) != |rows| then Some(SequenceGap)
    else if GetOr(input.previousEventHash, Tip(rows)) != Tip(rows) then Some(PrevBreak)
    else None
  }

  /** The row an accepted append writes. */
  function NewRow(codec: Codec, sessionId: Digest, epoch: int, rows: seq<StoredEvent>, input: AppendInput, now: int)
    : (row: StoredEvent)
    ensures row.event.sequence == |rows| && row.event.previousEventHash == Tip(rows)
    ensures row.event.eventType == input.eventType && row.resultingStateHash == input.resultingStateHash
  {
    var e := Event(GetOr(input.protocolVersion, DEFAULT_PROTOCOL_VERSION), sessionId, epoch, input.handNumber, |rows|,
                   input.eventType, input.hasActorSeat, input.actorSeat, input.publicPayloadHash,
                   GetOr(input.privatePayloadCommitment, ZERO_EVENT_HASH), input.elapsedMs, Tip(rows),
                   input.engineHash);
    StoredEvent(e, EventHash(codec, e), codec.encode(e), input.resultingStateHash, now)
  }

  /** Rows of one session and epoch. */
  ghost predicate OfSegment(rows: seq<StoredEvent>, sessionId: Digest, epoch: int)
  {
    forall i :: 0 <= i < |rows| ==> rows[i].event.sessionId == sessionId && rows[i].event.epoch == epoch
  }

  /** An accepted append keeps the chain verifying, and leaves the segment exactly if it had been left. */
  lemma {:induction false} AppendKeepsClean(codec: Codec, sessionId: Digest, epoch: int, rows: seq<StoredEvent>,
                                            input: AppendInput, now: int)
    requires Clean(codec, rows)
    requires Refusal(sessionId, epoch, rows, input) == None
    ensures var longer := rows + [NewRow(codec, sessionId, epoch, rows, input, now)];
            && Clean(codec, longer)
            && (OfSegment(longer, sessionId, epoch) <==> OfSegment(rows, sessionId, epoch))
  {
    var longer := rows + [NewRow(codec, sessionId, epoch, rows, input, now)];
    forall i: nat | i < |longer|
      ensures RowOk(codec, longer, i)
    {
      assert PrevStored(longer, i) == PrevStored(rows, i);
      if i < |rows| {
        assert RowOk(codec, rows, i);
      }
    }
    assert forall i :: 0 <= i < |rows| ==> longer[i] == rows[i];
  }

  /** A chain grown from nothing by accepted appends. */
  ghost predicate Built(codec: Codec, sessionId: Digest, epoch: int, rows: seq<StoredEvent>)
  {
    |rows| > 0 ==>
      var before := rows[..|rows| - 1];
      && Built(codec, sessionId, epoch, before)
      && exists input, now ::
           && Refusal(sessionId, epoch, before, input) == None
           && rows[|rows| - 1] == NewRow(codec, sessionId, epoch, before, input, now)
  }

  /** Every chain built by appending verifies, and holds one session and epoch throughout. */
  lemma {:induction false} BuiltIsClean(codec: Codec, sessionId: Digest, epoch: int, rows: seq<StoredEvent>)
    requires Built(codec, sessionId, epoch, rows)
    ensures Clean(codec, rows) && OfSegment(rows, sessionId, epoch)
  {
    if |rows| > 0 {
      var before := rows[..|rows| - 1];
      BuiltIsClean(codec, sessionId, epoch, before);
      var input, now :|
        && Refusal(sessionId, epoch, before, input) == None
        && rows[|rows| - 1] == NewRow(codec, sessionId, epoch, before, input, now);
      AppendKeepsClean(codec, sessionId, epoch, before, input, now);
      assert rows == before + [rows[|rows| - 1]];
    }
  }

  /** Within its segment, a chain that verifies could have been appended: the two notions coincide. */
  lemma {:induction false} CleanIsBuilt(codec: Codec, sessionId: Digest, epoch: int, rows: seq<StoredEvent>)
    requires Clean(codec, rows) && OfSegment(rows, sessionId, epoch)
    ensures Built(codec, sessionId, epoch, rows)
  {
    if |rows| > 0 {
      var n := |rows| - 1;
      var before, row := rows[..n], rows[n];
      CleanPrefix(codec, rows, n);
      CleanIsBuilt(codec, sessionId, epoch, before);
      assert RowOk(codec, rows, n);
      assert PrevStored(rows, n) == Tip(before);
      var e := row.event;
      var input := AppendInput(Some(e.protocolVersion), sessionId, epoch, e.handNumber, None, e.eventType,
                               e.hasActorSeat, e.actorSeat, e.publicPayloadHash,
                               Some(e.privatePayloadCommitment), e.elapsedMs, None, e.engineHash,
                               row.resultingStateHash);
      assert row == NewRow(codec, sessionId, epoch, before, input, row.persistedAt);
    }
  }

  lemma {:induction false} CleanPrefix(codec: Codec, rows: seq<StoredEvent>, k: nat)
    requires Clean(codec, rows) && k <= |rows|
    ensures Clean(codec, rows[..k])
  {
    forall i: nat | i < k
      ensures RowOk(codec, rows[..k], i)
    {
      assert RowOk(codec, rows, i);
      assert PrevStored(rows[..k], i) == PrevStored(rows, i);
    }
  }

  class EventHashChain {
    const codec: Codec
    const sessionId: Digest
    const epoch: int
    var rows: seq<StoredEvent>
    var tipHash: Digest

    /** The chain verifies and the tip is its last hash. */
    ghost predicate Valid()
      reads this
    {
      Clean(codec, rows) && tipHash == Tip(rows)
    }

    constructor (codec: Codec, sessionId: Digest, epoch: int)
      ensures this.codec == codec && this.sessionId == sessionId && this.epoch == epoch
      ensures rows == [] && Valid()
    {
      this.codec, this.sessionId, this.epoch := codec, sessionId, epoch;
      rows, tipHash := [], ZERO_EVENT_HASH;
    }

    /** Accepted exactly when nothing speaks against it; a refused append changes nothing. An accepted one commits
        what was handed in, field by field, at the end of the chain. */
    method Append(input: AppendInput, now: int) returns (r: Result<StoredEvent, Code>)
      requires Valid()
      modifies this
      ensures Valid()
      ensures r.Ok? <==>
                && input.sessionId == sessionId && input.epoch == epoch
                && IsKnownEventType(input.eventType) && ActorSeatValid(input.hasActorSeat, input.actorSeat)
                && (input.sequence.Some? ==> input.sequence.value == |old(rows)|)
                && (input.previousEventHash.Some? ==> input.previousEventHash.value == old(tipHash))
      ensures r == Err(SessionMismatch) <==> input.sessionId != sessionId
      ensures r == Err(EpochMismatch) <==> input.sessionId == sessionId && input.epoch != epoch
      ensures r == Err(UnknownEventType) <==>
                input.sessionId == sessionId && input.epoch == epoch && !IsKnownEventType(input.eventType)
      ensures r == Err(PrevBreak) ==>
                input.previousEventHash.Some? && input.previousEventHash.value != old(tipHash)
      ensures r == Err(SequenceGap) ==> input.sequence.Some? && input.sequence.value != |old(rows)|
      ensures r == Err(ActorSeatInvalid) ==> !ActorSeatValid(input.hasActorSeat, input.actorSeat)
      ensures r.Ok? ==>
                var e := r.value.event;
                && e.protocolVersion == (if input.protocolVersion.Some? then input.protocolVersion.value else 3)
                && e.sessionId == input.sessionId && e.epoch == input.epoch && e.handNumber == input.handNumber
                && e.sequence == |old(rows)| && e.previousEventHash == old(tipHash)
                && e.eventType == input.eventType
                && e.hasActorSeat == input.hasActorSeat && e.actorSeat == input.actorSeat
                && e.publicPayloadHash == input.publicPayloadHash
                && e.privatePayloadCommitment
                     == (if input.privatePayloadCommitment.Some? then input.privatePayloadCommitment.value else 0)
                && e.elapsedMs == input.elapsedMs && e.engineHash == input.engineHash
      ensures r.Ok? ==>
                && r.value.canonicalBytes == codec.encode(r.value.event)
                && r.value.eventHash == codec.digest(r.value.canonicalBytes)
                && r.value.resultingStateHash == input.resultingStateHash && r.value.persistedAt == now
      ensures OfSegment(rows, sessionId, epoch) <==> old(OfSegment(rows, sessionId, epoch))
      ensures match Refusal(sessionId, epoch, old(rows), input)
              case Some(code) => r == Err(code) && rows == old(rows) && tipHash == old(tipHash)
              case None =>
                && r == Ok(NewRow(codec, sessionId, epoch, old(rows), input, now))
                && rows == old(rows) + [r.value]
                && tipHash == r.value.eventHash
    {
      if input.sessionId != sessionId {
        return Err(SessionMismatch);
      }
      if input.epoch != epoch {
        return Err(EpochMismatch);
      }
      if !IsKnownEventType(input.eventType) {
        return Err(UnknownEventType);
      }
      if !ActorSeatValid(input.hasActorSeat, input.actorSeat) {
        return Err(ActorSeatInvalid);
      }
      var sequence := GetOr(input.sequence, |rows|);
      if sequence != |rows| {
        return Err(SequenceGap);
      }
      var previous := GetOr(input.previousEventHash, tipHash);
      if previous != tipHash {
        return Err(PrevBreak);
      }
      AppendKeepsClean(codec, sessionId, epoch, rows, input, now);
      var e := Event(GetOr(input.protocolVersion, DEFAULT_PROTOCOL_VERSION), sessionId, epoch, input.handNumber,
                     sequence, input.eventType, input.hasActorSeat, input.actorSeat, input.publicPayloadHash,
                     GetOr(input.privatePayloadCommitment, ZERO_EVENT_HASH), input.elapsedMs, previous,
                     input.engineHash);
      var bytes := codec.encode(e);
      var stored := StoredEvent(e, codec.digest(bytes), bytes, input.resultingStateHash, now);
      rows := rows + [stored];
      tipHash := stored.eventHash;
      r := Ok(stored);
    }
  }

  /** Reload a chain: it comes back row for row exactly when it verifies; otherwise the first fault is
      reported. The rows' session and epoch are not compared with the chain's. */
  method FromStored(codec: Codec, sessionId: Digest, epoch: int, stored: seq<StoredEvent>)
    returns (r: Result<EventHashChain, Code>)
    ensures r.Ok? <==> Clean(codec, stored)
    ensures r.Ok? ==> fresh(r.value) && r.value.rows == stored && r.value.Valid()
                      && r.value.codec == codec && r.value.sessionId == sessionId && r.value.epoch == epoch
    ensures r.Err? ==> Issues(codec, stored, |stored|) != [] && r.error == Issues(codec, stored, |stored|)[0].code
  {
    var chain := new EventHashChain(codec, sessionId, epoch);
    for i := 0 to |stored|
      invariant chain.rows == stored[..i] && chain.tipHash == Tip(stored[..i])
      invariant chain.codec == codec && chain.sessionId == sessionId && chain.epoch == epoch
    {
      chain.rows := chain.rows + [stored[i]];
      chain.tipHash := stored[i].eventHash;
    }
    assert stored[..|stored|] == stored;
    var issues := VerifyRows(codec, chain.rows);
    if issues != [] {
      return Err(issues[0].code);
    }
    r := Ok(chain);
  }

  // ----- Tamper evidence -----

  /** No two events share a hash, and none hashes to zero. */
  ghost predicate Binding(codec: Codec)
  {
    && (forall a: Event, b: Event {:trigger EventHash(codec, a), EventHash(codec, b)} ::
          EventHash(codec, a) == EventHash(codec, b) ==> a == b)
    && (forall a: Event :: EventHash(codec, a) != ZERO_EVENT_HASH)
  }

  function EventsOf(rows: seq<StoredEvent>): (r: seq<Event>)
    ensures |r| == |rows|
    ensures forall i :: 0 <= i < |rows| ==> r[i] == rows[i].event
  {
    if |rows| == 0 then [] else EventsOf(rows[..|rows| - 1]) + [rows[|rows| - 1].event]
  }

  /** The tip fixes the whole history: verified chains with the same tip hold the same events. */
  lemma {:induction false} SameTipSameEvents(codec: Codec, a: seq<StoredEvent>, b: seq<StoredEvent>)
    requires Binding(codec) && Clean(codec, a) && Clean(codec, b) && Tip(a) == Tip(b)
    ensures EventsOf(a) == EventsOf(b)
  {
    if |a| > 0 || |b| > 0 {
      LastEventsAgree(codec, a, b);
      var n := |a| - 1;
      CleanPrefix(codec, a, n);
      CleanPrefix(codec, b, n);
      SameTipSameEvents(codec, a[..n], b[..n]);
    }
  }

  lemma {:induction false} LastEventsAgree(codec: Codec, a: seq<StoredEvent>, b: seq<StoredEvent>)
    requires Binding(codec) && Clean(codec, a) && Clean(codec, b) && Tip(a) == Tip(b)
    requires |a| > 0 || |b| > 0
    ensures |a| == |b| > 0 && a[|a| - 1].event == b[|b| - 1].event
    ensures Tip(a[..|a| - 1]) == Tip(b[..|b| - 1])
  {
    if |a| > 0 {
      assert RowOk(codec, a, |a| - 1);
    }
    if |b| > 0 {
      assert RowOk(codec, b, |b| - 1);
    }
  }

  /** Nothing but the events is fixed: what is stored beside them can change freely under the same tip. */
  lemma {:induction false} SidecarIsUncommitted(codec: Codec, rows: seq<StoredEvent>, i: nat, state: Option<Digest>,
                                                at: int)
    requires Clean(codec, rows) && i < |rows|
    ensures var changed := rows[i := rows[i].(resultingStateHash := state, persistedAt := at)];
            Clean(codec, changed) && Tip(changed) == Tip(rows)
  {
    var changed := rows[i := rows[i].(resultingStateHash := state, persistedAt := at)];
    forall j: nat | j < |changed|
      ensures RowOk(codec, changed, j)
    {
      assert RowOk(codec, rows, j);
      assert PrevStored(changed, j) == PrevStored(rows, j);
    }
  }

  // ----- Such an encoding and hash exist -----

  /** An odd number times a power of two: both can be told. */
  function Paired(k: nat, x: nat): (r: nat)
    ensures r > 2 * x
  {
    if k == 0 then 2 * x + 1 else 2 * Paired(k - 1, x)
  }

  lemma {:induction false} PairedInjective(k: nat, x: nat, l: nat, y: nat)
    requires Paired(k, x) == Paired(l, y)
    ensures k == l && x == y
  {
    if k > 0 && l > 0 {
      PairedInjective(k - 1, x, l - 1, y);
    }
  }

  /** A number for every list of numbers, never zero. */
  function Numbered(bytes: Bytes): (r: Digest)
    ensures r > 0 && (r == 1 <==> bytes == [])
  {
    if |bytes| == 0 then 1 else Paired(bytes[0], Numbered(bytes[1..]))
  }

  lemma {:induction false} HeadsAgree(a: Bytes, b: Bytes)
    requires |a| > 0 && |b| > 0 && Numbered(a) == Numbered(b)
    ensures a[0] == b[0] && Numbered(a[1..]) == Numbered(b[1..])
  {
    PairedInjective(a[0], Numbered(a[1..]), b[0], Numbered(b[1..]));
  }

  lemma {:induction false} NumberedInjective(a: Bytes, b: Bytes)
    requires Numbered(a) == Numbered(b)
    ensures a == b
  {
    assert a == [] <==> b == [];
    if |a| > 0 {
      HeadsAgree(a, b);
      NumberedInjective(a[1..], b[1..]);
      assert a == [a[0]] + a[1..] == [b[0]] + b[1..] == b;
    }
  }

  function Unsigned(x: int): nat
  {
    if x >= 0 then 2 * x else -2 * x - 1
  }

  function Listed(e: Event): Bytes
  {
    [Unsigned(e.protocolVersion), e.sessionId, Unsigned(e.epoch), Unsigned(e.handNumber), Unsigned(e.sequence),
     Unsigned(e.eventType), if e.hasActorSeat then 1 else 0, Unsigned(e.actorSeat), e.publicPayloadHash,
     e.privatePayloadCommitment, Unsigned(e.elapsedMs), e.previousEventHash, e.engineHash]
  }

  lemma {:induction false} ListedInjective(a: Event, b: Event)
    requires Listed(a) == Listed(b)
    ensures a == b
  {
    var s, t := Listed(a), Listed(b);
    assert s[0] == t[0] && s[1] == t[1] && s[2] == t[2] && s[3] == t[3] && s[4] == t[4] && s[5] == t[5];
    assert s[6] == t[6] && s[7] == t[7] && s[8] == t[8] && s[9] == t[9] && s[10] == t[10];
    assert s[11] == t[11] && s[12] == t[12];
  }

  lemma {:induction false} NumberedEvents(a: Event, b: Event)
    requires Numbered(Listed(a)) == Numbered(Listed(b))
    ensures a == b
  {
    NumberedInjective(Listed(a), Listed(b));
    ListedInjective(a, b);
  }

  lemma {:induction false} CodecsExist() returns (codec: Codec)
    ensures Binding(codec)
  {
    codec := Codec(Listed, Numbered);
    forall a: Event, b: Event | EventHash(codec, a) == EventHash(codec, b)
      ensures a == b
    {
      NumberedEvents(a, b);
    }
  }

  // ----- The other two verifiers -----

  /** The hash an event has to point back to when hashes are recomputed. */
  function PrevRecomputed(codec: Codec, events: seq<Event>, i: nat): Digest
    requires i <= |events|
  {
    if i == 0 then ZERO_EVENT_HASH else EventHash(codec, events[i - 1])
  }

  ghost predicate LinkOk(codec: Codec, events: seq<Event>, i: nat)
    requires i < |events|
  {
    events[i].sequence == i && events[i].previousEventHash == PrevRecomputed(codec, events, i)
  }

  /** Sequence numbers and links hold, with recomputed hashes. */
  ghost predicate Linked(codec: Codec, events: seq<Event>)
  {
    forall i: nat :: i < |events| ==> LinkOk(codec, events, i)
  }

  /** Stored hashes, where there are any, are the recomputed ones. */
  ghost predicate HashesMatch(codec: Codec, events: seq<Event>, hashes: seq<Option<Digest>>)
    requires |hashes| == |events|
  {
    forall i :: 0 <= i < |events| ==> hashes[i] == None || hashes[i] == Some(EventHash(codec, events[i]))
  }

  /** What the standalone verifier finds wrong with one event. */
  function LinkIssues(codec: Codec, events: seq<Event>, hashes: seq<Option<Digest>>, i: nat): (r: seq<Issue>)
    requires i < |events| == |hashes|
    ensures r == [] <==>
            LinkOk(codec, events, i) && (hashes[i] == None || hashes[i] == Some(EventHash(codec, events[i])))
  {
    var e := events[i];
    When(e.sequence != i, e, SequenceGap)
    + When(e.previousEventHash != PrevRecomputed(codec, events, i), e, PrevBreak)
    + When(hashes[i].Some? && hashes[i].value != EventHash(codec, e), e, HashMismatch)
  }

  function AllLinkIssues(codec: Codec, events: seq<Event>, hashes: seq<Option<Digest>>, k: nat): (r: seq<Issue>)
    requires k <= |events| == |hashes|
  {
    if k == 0 then [] else AllLinkIssues(codec, events, hashes, k - 1) + LinkIssues(codec, events, hashes, k - 1)
  }

  lemma {:induction false} NoLinkIssuesIff(codec: Codec, events: seq<Event>, hashes: seq<Option<Digest>>, k: nat)
    requires k <= |events| == |hashes|
    ensures AllLinkIssues(codec, events, hashes, k) == [] <==>
            && (forall i: nat :: i < k ==> LinkOk(codec, events, i))
            && (forall i :: 0 <= i < k ==> hashes[i] == None || hashes[i] == Some(EventHash(codec, events[i])))
  {
    if k > 0 {
      NoLinkIssuesIff(codec, events, hashes, k - 1);
      assert |AllLinkIssues(codec, events, hashes, k)|
          == |AllLinkIssues(codec, events, hashes, k - 1)| + |LinkIssues(codec, events, hashes, k - 1)|;
    }
  }

  /** `verifyEventHashChain`: no check of event types or actor seats. Without stored hashes, every entry of
      `hashes` is None. */
  method VerifyEvents(codec: Codec, events: seq<Event>, hashes: seq<Option<Digest>>)
    returns (tip: Digest, issues: seq<Issue>)
    requires |hashes| == |events|
    ensures issues == AllLinkIssues(codec, events, hashes, |events|)
    ensures issues == [] <==> Linked(codec, events) && HashesMatch(codec, events, hashes)
    ensures tip == PrevRecomputed(codec, events, |events|)
  {
    issues, tip := [], ZERO_EVENT_HASH;
    var expectedPrev := ZERO_EVENT_HASH;
    for i := 0 to |events|
      invariant tip == expectedPrev == PrevRecomputed(codec, events, i)
      invariant issues == AllLinkIssues(codec, events, hashes, i)
    {
      var e := events[i];
      var recomputed := EventHash(codec, e);
      var found := When(e.sequence != i, e, SequenceGap);
      found := found + When(e.previousEventHash != expectedPrev, e, PrevBreak);
      found := found + When(hashes[i].Some? && hashes[i].value != recomputed, e, HashMismatch);
      issues := issues + found;
      tip, expectedPrev := recomputed, recomputed;
    }
    NoLinkIssuesIff(codec, events, hashes, |events|);
  }

  datatype Proposal = Proposal(finalSequence: int, eventRoot: Digest)

  /** What the Rust verifier asks of the actor; its type keeps the seat within a byte. */
  ghost predicate ActorsOk(events: seq<Event>)
  {
    forall i :: 0 <= i < |events| ==> events[i].hasActorSeat || events[i].actorSeat == 0
  }

  ghost predicate ProposalHolds(codec: Codec, events: seq<Event>, p: Proposal)
    requires events != []
  {
    p.eventRoot == PrevRecomputed(codec, events, |events|) && p.finalSequence == events[|events| - 1].sequence
  }

  ghost predicate RustAccepts(codec: Codec, events: seq<Event>, hashes: seq<Option<Digest>>,
                              expectedTip: Option<Digest>, proposal: Option<Proposal>)
    requires |hashes| == |events|
  {
    && events != []
    && Linked(codec, events) && ActorsOk(events) && HashesMatch(codec, events, hashes)
    && (expectedTip.Some? ==> expectedTip.value == PrevRecomputed(codec, events, |events|))
    && (proposal.Some? ==> ProposalHolds(codec, events, proposal.value))
  }

  /** What the Rust verifier finds wrong with one event. */
  function EventIssues(codec: Codec, events: seq<Event>, hashes: seq<Option<Digest>>, i: nat): (r: seq<Issue>)
    requires i < |events| == |hashes|
    ensures r == [] <==> TranscriptOk(codec, events, hashes, i)
  {
    var e := events[i];
    When(e.sequence != i, e, SequenceGap)
    + When(!e.hasActorSeat && e.actorSeat != 0, e, ActorSeatInvalid)
    + When(e.previousEventHash != PrevRecomputed(codec, events, i), e, PrevBreak)
    + When(hashes[i].Some? && hashes[i].value != EventHash(codec, e), e, HashMismatch)
  }

  function AllEventIssues(codec: Codec, events: seq<Event>, hashes: seq<Option<Digest>>, k: nat): (r: seq<Issue>)
    requires k <= |events| == |hashes|
  {
    if k == 0 then [] else AllEventIssues(codec, events, hashes, k - 1) + EventIssues(codec, events, hashes, k - 1)
  }

  /** What it finds wrong with the tip and the settlement proposal, put down to the last event. */
  function ClosingIssues(last: Event, tip: Digest, expectedTip: Option<Digest>, proposal: Option<Proposal>): seq<Issue>
  {
    When(expectedTip.Some? && expectedTip.value != tip, last, TipMismatch)
    + When(proposal.Some? && proposal.value.eventRoot != tip, last, ProposalRootMismatch)
    + When(proposal.Some? && proposal.value.finalSequence != last.sequence, last, ProposalSequenceMismatch)
  }

  /** Its names for the faults. */
  lemma {:induction false} TranscriptFaultsAreNamed(codec: Codec, events: seq<Event>, hashes: seq<Option<Digest>>,
                                                    tip: Digest, expectedTip: Option<Digest>,
                                                    proposal: Option<Proposal>, i: nat, x: Issue)
    requires i < |events| == |hashes|
    ensures var e := events[i];
            x in EventIssues(codec, events, hashes, i) <==>
              x.sequence == Some(e.sequence)
              && match x.code
                 case SequenceGap => e.sequence != i
                 case ActorSeatInvalid => !e.hasActorSeat && e.actorSeat != 0
                 case PrevBreak => e.previousEventHash != PrevRecomputed(codec, events, i)
                 case HashMismatch => hashes[i].Some? && hashes[i].value != EventHash(codec, e)
                 case _ => false
    ensures var last := events[|events| - 1];
            x in ClosingIssues(last, tip, expectedTip, proposal) <==>
              x.sequence == Some(last.sequence)
              && match x.code
                 case TipMismatch => expectedTip.Some? && expectedTip.value != tip
                 case ProposalRootMismatch => proposal.Some? && proposal.value.eventRoot != tip
                 case ProposalSequenceMismatch => proposal.Some? && proposal.value.finalSequence != last.sequence
                 case _ => false
  {
  }

  /** Everything the Rust verifier reports, in order. */
  function TranscriptIssues(codec: Codec, events: seq<Event>, hashes: seq<Option<Digest>>, expectedTip: Option<Digest>,
                            proposal: Option<Proposal>): (r: seq<Issue>)
    requires |hashes| == |events|
  {
    if events == [] then [Issue(None, EmptyChain)]
    else
      AllEventIssues(codec, events, hashes, |events|)
      + ClosingIssues(events[|events| - 1], PrevRecomputed(codec, events, |events|), expectedTip, proposal)
  }

  ghost predicate TranscriptOk(codec: Codec, events: seq<Event>, hashes: seq<Option<Digest>>, i: nat)
    requires i < |events| == |hashes|
  {
    && LinkOk(codec, events, i)
    && (events[i].hasActorSeat || events[i].actorSeat == 0)
    && (hashes[i] == None || hashes[i] == Some(EventHash(codec, events[i])))
  }

  lemma {:induction false} NoEventIssuesIff(codec: Codec, events: seq<Event>, hashes: seq<Option<Digest>>, k: nat)
    requires k <= |events| == |hashes|
    ensures AllEventIssues(codec, events, hashes, k) == [] <==>
            forall i: nat :: i < k ==> TranscriptOk(codec, events, hashes, i)
  {
    if k > 0 {
      NoEventIssuesIff(codec, events, hashes, k - 1);
      assert |AllEventIssues(codec, events, hashes, k)|
          == |AllEventIssues(codec, events, hashes, k - 1)| + |EventIssues(codec, events, hashes, k - 1)|;
    }
  }

  lemma {:induction false} TranscriptIff(codec: Codec, events: seq<Event>, hashes: seq<Option<Digest>>)
    requires |events| == |hashes|
    ensures (forall j: nat :: j < |events| ==> TranscriptOk(codec, events, hashes, j))
       <==> Linked(codec, events) && ActorsOk(events) && HashesMatch(codec, events, hashes)
  {
    if Linked(codec, events) && ActorsOk(events) && HashesMatch(codec, events, hashes) {
      forall j: nat | j < |events|
        ensures TranscriptOk(codec, events, hashes, j)
      {
        assert LinkOk(codec, events, j);
      }
    }
    if forall j: nat :: j < |events| ==> TranscriptOk(codec, events, hashes, j) {
      forall j: nat | j < |events|
        ensures LinkOk(codec, events, j) && (events[j].hasActorSeat || events[j].actorSeat == 0)
        ensures hashes[j] == None || hashes[j] == Some(EventHash(codec, events[j]))
      {
        assert TranscriptOk(codec, events, hashes, j);
      }
    }
  }

  /** Nothing is reported exactly for chains that hold together. */
  lemma {:induction false} NothingReportedIff(codec: Codec, events: seq<Event>, hashes: seq<Option<Digest>>,
                                              expectedTip: Option<Digest>, proposal: Option<Proposal>)
    requires |hashes| == |events|
    ensures TranscriptIssues(codec, events, hashes, expectedTip, proposal) == []
       <==> RustAccepts(codec, events, hashes, expectedTip, proposal)
  {
    if events != [] {
      var n := |events|;
      var early := AllEventIssues(codec, events, hashes, n);
      var late := ClosingIssues(events[n - 1], PrevRecomputed(codec, events, n), expectedTip, proposal);
      assert |TranscriptIssues(codec, events, hashes, expectedTip, proposal)| == |early| + |late|;
      NoEventIssuesIff(codec, events, hashes, n);
      TranscriptIff(codec, events, hashes);
    }
  }

  /** `verify_poker_event_v1_chain`: every issue in order, the tip, the last sequence number and the verdict on
      the proposal. */
  method VerifyTranscript(codec: Codec, events: seq<Event>, hashes: seq<Option<Digest>>, expectedTip: Option<Digest>,
                          proposal: Option<Proposal>)
    returns (ok: bool, tip: Digest, finalSequence: Option<int>, issues: seq<Issue>, proposalOk: Option<bool>)
    requires |hashes| == |events|
    ensures issues == TranscriptIssues(codec, events, hashes, expectedTip, proposal)
    ensures ok <==> RustAccepts(codec, events, hashes, expectedTip, proposal)
    ensures tip == PrevRecomputed(codec, events, |events|)
    ensures finalSequence == if events == [] then None else Some(events[|events| - 1].sequence)
    ensures proposalOk == if proposal.None? || events == [] then None
                          else Some(ProposalHolds(codec, events, proposal.value))
  {
    NothingReportedIff(codec, events, hashes, expectedTip, proposal);
    if |events| == 0 {
      return false, ZERO_EVENT_HASH, None, [Issue(None, EmptyChain)], None;
    }
    issues, tip := [], ZERO_EVENT_HASH;
    var expectedPrev, lastSeq := ZERO_EVENT_HASH, 0;
    for i := 0 to |events|
      invariant tip == expectedPrev == PrevRecomputed(codec, events, i)
      invariant i > 0 ==> lastSeq == events[i - 1].sequence
      invariant issues == AllEventIssues(codec, events, hashes, i)
    {
      var e := events[i];
      var found := CheckEvent(codec, e, hashes[i], i, expectedPrev);
      assert found == EventIssues(codec, events, hashes, i);
      issues := issues + found;
      var recomputed := EventHash(codec, e);
      tip, expectedPrev, lastSeq := recomputed, recomputed, e.sequence;
    }
    var last := events[|events| - 1];
    var late;
    late, proposalOk := CheckClosing(last, tip, expectedTip, proposal);
    issues := issues + late;
    ok := issues == [];
    finalSequence := Some(lastSeq);
  }

  /** The expected tip and the proposal, once the whole chain was read. */
  method CheckClosing(last: Event, tip: Digest, expectedTip: Option<Digest>, proposal: Option<Proposal>)
    returns (late: seq<Issue>, proposalOk: Option<bool>)
    ensures late == ClosingIssues(last, tip, expectedTip, proposal)
    ensures proposalOk == if proposal.None? then None
                          else Some(proposal.value.eventRoot == tip && proposal.value.finalSequence == last.sequence)
  {
    late, proposalOk := [], None;
    if expectedTip.Some? && expectedTip.value != tip {
      late := late + [Issue(Some(last.sequence), TipMismatch)];
    }
    if proposal.Some? {
      var holds := true;
      if proposal.value.eventRoot != tip {
        holds := false;
        late := late + [Issue(Some(last.sequence), ProposalRootMismatch)];
      }
      if proposal.value.finalSequence != last.sequence {
        holds := false;
        late := late + [Issue(Some(last.sequence), ProposalSequenceMismatch)];
      }
      proposalOk := Some(holds);
    }
  }

  method CheckEvent(codec: Codec, e: Event, hash: Option<Digest>, i: nat, expectedPrev: Digest)
    returns (issues: seq<Issue>)
    ensures issues == When(e.sequence != i, e, SequenceGap)
                      + When(!e.hasActorSeat && e.actorSeat != 0, e, ActorSeatInvalid)
                      + When(e.previousEventHash != expectedPrev, e, PrevBreak)
                      + When(hash.Some? && hash.value != EventHash(codec, e), e, HashMismatch)
  {
    issues := When(e.sequence != i, e, SequenceGap);
    issues := issues + When(!e.hasActorSeat && e.actorSeat != 0, e, ActorSeatInvalid);
    issues := issues + When(e.previousEventHash != expectedPrev, e, PrevBreak);
    issues := issues + When(hash.Some? && hash.value != EventHash(codec, e), e, HashMismatch);
  }

  function HashesOf(rows: seq<StoredEvent>): (r: seq<Option<Digest>>)
    ensures |r| == |rows|
    ensures forall i :: 0 <= i < |rows| ==> r[i] == Some(rows[i].eventHash)
  {
    if |rows| == 0 then [] else HashesOf(rows[..|rows| - 1]) + [Some(rows[|rows| - 1].eventHash)]
  }

  /** Rows of known types, seats within a byte, and the encoding the verifier would produce. */
  ghost predicate WellTyped(codec: Codec, rows: seq<StoredEvent>)
  {
    forall i :: 0 <= i < |rows| ==>
      && IsKnownEventType(rows[i].event.eventType)
      && 0 <= rows[i].event.actorSeat <= 255
      && rows[i].canonicalBytes == codec.encode(rows[i].event)
  }

  /** The three verifiers on the same rows. The class's, which links through stored hashes, accepts exactly what
      the Rust verifier accepts, which links through recomputed ones, if moreover types are known, seats fit a
      byte and the bytes are those of the event; only the class accepts the empty chain. The standalone verifier
      looks at actor seats no more than at any of these. */
  lemma {:induction false} VerifiersAgree(codec: Codec, rows: seq<StoredEvent>)
    ensures Clean(codec, rows) <==>
            rows == [] || (WellTyped(codec, rows) && RustAccepts(codec, EventsOf(rows), HashesOf(rows), None, None))
    ensures var events, hashes := EventsOf(rows), HashesOf(rows);
            Clean(codec, rows) <==>
            WellTyped(codec, rows) && ActorsOk(events) && AllLinkIssues(codec, events, hashes, |events|) == []
  {
    var events, hashes := EventsOf(rows), HashesOf(rows);
    NoLinkIssuesIff(codec, events, hashes, |events|);
    assert AllLinkIssues(codec, events, hashes, |events|) == []
      <==> Linked(codec, events) && HashesMatch(codec, events, hashes);
    if Clean(codec, rows) {
      CleanLinks(codec, rows);
    }
    if WellTyped(codec, rows) && Linked(codec, events) && HashesMatch(codec, events, hashes) && ActorsOk(events) {
      LinkedIsClean(codec, rows);
    }
  }

  lemma {:induction false} CleanLinks(codec: Codec, rows: seq<StoredEvent>)
    requires Clean(codec, rows)
    ensures WellTyped(codec, rows)
    ensures var events := EventsOf(rows);
            Linked(codec, events) && HashesMatch(codec, events, HashesOf(rows)) && ActorsOk(events)
  {
    var events := EventsOf(rows);
    forall i: nat | i < |rows|
      ensures LinkOk(codec, events, i) && rows[i].eventHash == EventHash(codec, events[i])
      ensures events[i].hasActorSeat || events[i].actorSeat == 0
      ensures IsKnownEventType(rows[i].event.eventType) && 0 <= rows[i].event.actorSeat <= 255
      ensures rows[i].canonicalBytes == codec.encode(rows[i].event)
    {
      assert RowOk(codec, rows, i);
      if i > 0 {
        assert RowOk(codec, rows, i - 1);
      }
    }
  }

  lemma {:induction false} LinkedIsClean(codec: Codec, rows: seq<StoredEvent>)
    requires WellTyped(codec, rows)
    requires var events := EventsOf(rows);
             Linked(codec, events) && HashesMatch(codec, events, HashesOf(rows)) && ActorsOk(events)
    ensures Clean(codec, rows)
  {
    var events, hashes := EventsOf(rows), HashesOf(rows);
    forall i: nat | i < |rows|
      ensures RowOk(codec, rows, i)
    {
      assert LinkOk(codec, events, i);
      assert hashes[i] == Some(EventHash(codec, events[i]));
      if i > 0 {
        assert hashes[i - 1] == Some(EventHash(codec, events[i - 1]));
      }
    }
  }
}
