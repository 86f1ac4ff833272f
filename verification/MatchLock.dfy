/** The matchmaking lock (packages/database/src/onchain-match.ts, `withMatchmakingLock`): callers are
    chained behind one another through promises. A caller runs in three uninterrupted pieces (up to its
    first await, the entry into its body, and its finally block), and pieces of different callers
    interleave freely. */
module MatchLock {
  type Key = string

  type Caller = nat

  /** A promise is the resolved one, a caller's gate, or another promise followed by a caller's gate. */
  datatype Promise = Resolved | Gate(caller: Caller) | Chained(prev: Promise, caller: Caller)

  datatype Phase = Waiting | Inside | Done(failed: bool)

  datatype Ticket = Ticket(key: Key, prev: Promise, phase: Phase)

  /** The shared map, every caller so far, and the gates released. */
  datatype Lock = Lock(chains: map<Key, Promise>, tickets: map<Caller, Ticket>, released: set<Caller>)

  function Empty(): Lock
  {
    Lock(map[], map[], {})
  }

  predicate Settled(p: Promise, released: set<Caller>)
  {
    match p
    case Resolved => true
    case Gate(c) => c in released
    case Chained(q, c) => Settled(q, released) && c in released
  }

  // ----- The three pieces -----

  function Latest(l: Lock, key: Key): Promise
  {
    if key in l.chains then l.chains[key] else Resolved
  }

  predicate CanArrive(l: Lock, c: Caller)
  {
    c !in l.tickets
  }

  function Arrive(l: Lock, c: Caller, key: Key): Lock
  {
    var prev := Latest(l, key);
    l.(chains := l.chains[key := Chained(prev, c)], tickets := l.tickets[c := Ticket(key, prev, Waiting)])
  }

  predicate CanEnter(l: Lock, c: Caller)
  {
    c in l.tickets && l.tickets[c].phase == Waiting && Settled(l.tickets[c].prev, l.released)
  }

  function Enter(l: Lock, c: Caller): Lock
    requires CanEnter(l, c)
  {
    l.(tickets := l.tickets[c := l.tickets[c].(phase := Inside)])
  }

  predicate CanFinish(l: Lock, c: Caller)
  {
    c in l.tickets && l.tickets[c].phase == Inside
  }

  /** The body returned or threw: the gate opens, and the map entry goes if it is this very gate. */
  function Finish(l: Lock, c: Caller, failed: bool): Lock
    requires CanFinish(l, c)
  {
    var key := l.tickets[c].key;
    l.(tickets := l.tickets[c := l.tickets[c].(phase := Done(failed))],
       released := l.released + {c},
       chains := if Latest(l, key) == Gate(c) then l.chains - {key} else l.chains)
  }

  ghost predicate Next(l: Lock, m: Lock)
  {
    || (exists c, key :: CanArrive(l, c) && m == Arrive(l, c, key))
    || (exists c :: CanEnter(l, c) && m == Enter(l, c))
    || (exists c, failed :: CanFinish(l, c) && m == Finish(l, c, failed))
  }

  ghost predicate StepAt(trace: seq<Lock>, i: nat)
    requires i + 1 < |trace|
  {
    Next(trace[i], trace[i + 1])
  }

  /** Any interleaving, from an unused lock. */
  ghost predicate Run(trace: seq<Lock>)
  {
    |trace| > 0 && trace[0] == Empty() && forall i: nat :: i + 1 < |trace| ==> StepAt(trace, i)
  }

  /** The pieces as operations on the shared state. */
  class Matchmaking {
    var chains: map<Key, Promise>
    var tickets: map<Caller, Ticket>
    var released: set<Caller>

    ghost function State(): Lock
      reads this
    {
      Lock(chains, tickets, released)
    }

    constructor ()
      ensures State() == Empty()
    {
      chains, tickets, released := map[], map[], {};
    }

    method Enqueue(c: Caller, key: Key)
      requires CanArrive(State(), c)
      modifies this
      ensures State() == Arrive(old(State()), c, key)
      ensures Next(old(State()), State())
    {
      var prev := if key in chains then chains[key] else Resolved;
      chains := chains[key := Chained(prev, c)];
      tickets := tickets[c := Ticket(key, prev, Waiting)];
    }

    method Proceed(c: Caller)
      requires CanEnter(State(), c)
      modifies this
      ensures State() == Enter(old(State()), c)
      ensures Next(old(State()), State())
    {
      tickets := tickets[c := tickets[c].(phase := Inside)];
    }

    method Release(c: Caller, failed: bool)
      requires CanFinish(State(), c)
      modifies this
      ensures State() == Finish(old(State()), c, failed)
      ensures Next(old(State()), State())
    {
      var key := tickets[c].key;
      released := released + {c};
      if key in chains && chains[key] == Gate(c) {
        chains := chains - {key};
      }
      tickets := tickets[c := tickets[c].(phase := Done(failed))];
      assert State() == Finish(old(State()), c, failed);
    }
  }

  // ----- What every interleaving keeps -----

  /** The callers a promise waits for, in order. */
  function Queue(p: Promise): (r: seq<Caller>)
  {
    match p
    case Resolved => []
    case Gate(c) => [c]
    case Chained(q, c) => Queue(q) + [c]
  }

  /** `p` is a chain of callers of `key`, each of which awaits exactly the chain before it. */
  ghost predicate WellChained(tickets: map<Caller, Ticket>, key: Key, p: Promise)
  {
    match p
    case Resolved => true
    case Gate(_) => false
    case Chained(q, c) =>
      && WellChained(tickets, key, q)
      && c in tickets && tickets[c].key == key && tickets[c].prev == q
      && c !in Queue(q)
  }

  ghost predicate ChainsOk(l: Lock)
  {
    forall key :: key in l.chains ==> WellChained(l.tickets, key, l.chains[key])
  }

  /** A caller is queued under its key; once it got past the await, everybody before it is done. */
  ghost predicate TicketOk(l: Lock, c: Caller)
    requires c in l.tickets
  {
    var t := l.tickets[c];
    && t.key in l.chains
    && c in Queue(l.chains[t.key])
    && WellChained(l.tickets, t.key, t.prev)
    && (t.phase.Done? <==> c in l.released)
    && (t.phase != Waiting ==> Settled(t.prev, l.released))
  }

  ghost predicate Inv(l: Lock)
  {
    && ChainsOk(l)
    && (forall c :: c in l.tickets ==> TicketOk(l, c))
    && (forall c :: c in l.released ==> c in l.tickets)
  }

  /** Keys and awaited promises never change once a caller has arrived. */
  ghost predicate Extends(tickets: map<Caller, Ticket>, later: map<Caller, Ticket>)
  {
    forall c :: c in tickets ==> c in later && later[c].key == tickets[c].key && later[c].prev == tickets[c].prev
  }

  lemma {:induction false} ChainKept(tickets: map<Caller, Ticket>, later: map<Caller, Ticket>, key: Key, p: Promise)
    requires WellChained(tickets, key, p) && Extends(tickets, later)
    ensures WellChained(later, key, p)
  {
    if p.Chained? {
      ChainKept(tickets, later, key, p.prev);
    }
  }

  lemma {:induction false} QueuedArrived(tickets: map<Caller, Ticket>, key: Key, p: Promise, c: Caller)
    requires WellChained(tickets, key, p) && c in Queue(p)
    ensures c in tickets && tickets[c].key == key
  {
    if c != p.caller {
      QueuedArrived(tickets, key, p.prev, c);
    }
  }

  /** Waiting for a chain is waiting for all its callers. */
  lemma {:induction false} SettledIff(tickets: map<Caller, Ticket>, key: Key, p: Promise, released: set<Caller>)
    requires WellChained(tickets, key, p)
    ensures Settled(p, released) <==> forall c :: c in Queue(p) ==> c in released
  {
    if p.Chained? {
      SettledIff(tickets, key, p.prev, released);
    }
  }

  lemma {:induction false} SettledGrows(p: Promise, released: set<Caller>, more: set<Caller>)
    requires Settled(p, released) && released <= more
    ensures Settled(p, more)
  {
    if p.Chained? {
      SettledGrows(p.prev, released, more);
    }
  }

  lemma {:induction false} ArriveKeeps(l: Lock, c: Caller, key: Key)
    requires Inv(l) && CanArrive(l, c)
    ensures Inv(Arrive(l, c, key))
  {
    var m, prev := Arrive(l, c, key), Latest(l, key);
    assert WellChained(l.tickets, key, prev);
    if c in Queue(prev) {
      QueuedArrived(l.tickets, key, prev, c);
      assert false;
    }
    forall k | k in m.chains
      ensures WellChained(m.tickets, k, m.chains[k])
    {
      ChainKept(l.tickets, m.tickets, k, if k == key then prev else l.chains[k]);
    }
    forall d | d in m.tickets
      ensures TicketOk(m, d)
    {
      ChainKept(l.tickets, m.tickets, m.tickets[d].key, m.tickets[d].prev);
      if d != c {
        assert TicketOk(l, d);
      }
    }
  }

  lemma {:induction false} EnterKeeps(l: Lock, c: Caller)
    requires Inv(l) && CanEnter(l, c)
    ensures Inv(Enter(l, c))
  {
    var m := Enter(l, c);
    forall k | k in m.chains
      ensures WellChained(m.tickets, k, m.chains[k])
    {
      ChainKept(l.tickets, m.tickets, k, l.chains[k]);
    }
    forall d | d in m.tickets
      ensures TicketOk(m, d)
    {
      assert TicketOk(l, d);
      ChainKept(l.tickets, m.tickets, m.tickets[d].key, m.tickets[d].prev);
    }
  }

  /** The map's entry is a chain, never a bare gate: the cleanup of the finally block does not fire. */
  lemma {:induction false} CleanupNeverFires(l: Lock, c: Caller, failed: bool)
    requires Inv(l) && CanFinish(l, c)
    ensures Finish(l, c, failed).chains == l.chains && l.tickets[c].key in l.chains
  {
    assert TicketOk(l, c);
    assert WellChained(l.tickets, l.tickets[c].key, Latest(l, l.tickets[c].key));
  }

  lemma {:induction false} FinishKeeps(l: Lock, c: Caller, failed: bool)
    requires Inv(l) && CanFinish(l, c)
    ensures Inv(Finish(l, c, failed))
  {
    var m := Finish(l, c, failed);
    CleanupNeverFires(l, c, failed);
    forall k | k in m.chains
      ensures WellChained(m.tickets, k, m.chains[k])
    {
      ChainKept(l.tickets, m.tickets, k, l.chains[k]);
    }
    forall d | d in m.tickets
      ensures TicketOk(m, d)
    {
      assert TicketOk(l, d);
      ChainKept(l.tickets, m.tickets, m.tickets[d].key, m.tickets[d].prev);
      if l.tickets[d].phase != Waiting {
        SettledGrows(l.tickets[d].prev, l.released, m.released);
      }
    }
  }

  lemma {:induction false} NextKeeps(l: Lock, m: Lock)
    requires Inv(l) && Next(l, m)
    ensures Inv(m)
    ensures l.chains.Keys <= m.chains.Keys
  {
    if c, key :| CanArrive(l, c) && m == Arrive(l, c, key) {
      ArriveKeeps(l, c, key);
    } else if c :| CanEnter(l, c) && m == Enter(l, c) {
      EnterKeeps(l, c);
    } else {
      var c, failed :| CanFinish(l, c) && m == Finish(l, c, failed);
      FinishKeeps(l, c, failed);
      CleanupNeverFires(l, c, failed);
    }
  }

  lemma {:induction false} RunKeeps(trace: seq<Lock>, k: nat)
    requires Run(trace) && k < |trace|
    ensures Inv(trace[k])
  {
    if k > 0 {
      RunKeeps(trace, k - 1);
      assert StepAt(trace, k - 1);
      NextKeeps(trace[k - 1], trace[k]);
    }
  }

  // ----- Exclusion and order -----

  /** Of two callers of the same key, one arrived before the other. */
  lemma {:induction false} OneIsBehind(tickets: map<Caller, Ticket>, key: Key, p: Promise, a: Caller, b: Caller)
    requires WellChained(tickets, key, p) && a in Queue(p) && b in Queue(p) && a != b
    ensures a in tickets && b in tickets
    ensures a in Queue(tickets[b].prev) || b in Queue(tickets[a].prev)
  {
    QueuedArrived(tickets, key, p, a);
    QueuedArrived(tickets, key, p, b);
    if p.caller != a && p.caller != b {
      OneIsBehind(tickets, key, p.prev, a, b);
    }
  }

  /** Whoever got past the await finds everybody who arrived before it finished. */
  lemma {:induction false} EarlierAreDone(l: Lock, a: Caller, b: Caller)
    requires Inv(l) && b in l.tickets && a in Queue(l.tickets[b].prev) && l.tickets[b].phase != Waiting
    ensures a in l.tickets && l.tickets[a].phase.Done?
  {
    assert TicketOk(l, b);
    var t := l.tickets[b];
    QueuedArrived(l.tickets, t.key, t.prev, a);
    SettledIff(l.tickets, t.key, t.prev, l.released);
    assert TicketOk(l, a);
  }

  /** In every interleaving, at most one caller of a key is inside its body. */
  lemma {:induction false} AtMostOneInside(trace: seq<Lock>, k: nat, a: Caller, b: Caller)
    requires Run(trace) && k < |trace|
    requires a in trace[k].tickets && b in trace[k].tickets && trace[k].tickets[a].key == trace[k].tickets[b].key
    requires trace[k].tickets[a].phase == Inside && trace[k].tickets[b].phase == Inside
    ensures a == b
  {
    var l := trace[k];
    RunKeeps(trace, k);
    assert TicketOk(l, a) && TicketOk(l, b);
    if a != b {
      var key := l.tickets[a].key;
      OneIsBehind(l.tickets, key, l.chains[key], a, b);
      if a in Queue(l.tickets[b].prev) {
        EarlierAreDone(l, a, b);
      } else {
        EarlierAreDone(l, b, a);
      }
      assert false;
    }
  }

  /** Everybody a caller is chained behind is done before it enters. */
  lemma {:induction false} EntersInChainOrder(trace: seq<Lock>, k: nat, a: Caller, b: Caller)
    requires Run(trace) && k < |trace|
    requires b in trace[k].tickets && a in Queue(trace[k].tickets[b].prev)
    requires CanEnter(trace[k], b) || trace[k].tickets[b].phase != Waiting
    ensures a in trace[k].tickets && trace[k].tickets[a].phase.Done?
  {
    var l := trace[k];
    RunKeeps(trace, k);
    if l.tickets[b].phase != Waiting {
      EarlierAreDone(l, a, b);
    } else {
      EnterKeeps(l, b);
      EarlierAreDone(Enter(l, b), a, b);
      assert a != b by {
        NotBehindItself(l, b);
      }
    }
  }

  lemma {:induction false} NextExtends(l: Lock, m: Lock)
    requires Next(l, m)
    ensures Extends(l.tickets, m.tickets)
  {
  }

  /** Whoever appears in one step has arrived in it, behind the latest promise of its key. */
  lemma {:induction false} NewcomerChains(l: Lock, m: Lock, b: Caller)
    requires Next(l, m) && b !in l.tickets && b in m.tickets
    ensures m.tickets[b].prev == Latest(l, m.tickets[b].key)
  {
  }

  /** Callers of a key are chained in the order they arrived: if `a` was there when `b` was not yet, `b` comes to
      wait for `a`. */
  lemma {:induction false} LaterIsBehind(trace: seq<Lock>, i: nat, k: nat, a: Caller, b: Caller)
    requires Run(trace) && i <= k < |trace|
    requires a in trace[i].tickets && b !in trace[i].tickets && b in trace[k].tickets
    requires a in trace[k].tickets ==> trace[k].tickets[a].key == trace[k].tickets[b].key
    ensures a in trace[k].tickets && a in Queue(trace[k].tickets[b].prev)
  {
    TicketsStay(trace, i, k);
    TicketsStay(trace, i, k - 1);
    assert StepAt(trace, k - 1);
    NextExtends(trace[k - 1], trace[k]);
    if b in trace[k - 1].tickets {
      LaterIsBehind(trace, i, k - 1, a, b);
    } else {
      RunKeeps(trace, k - 1);
      assert TicketOk(trace[k - 1], a);
      NewcomerChains(trace[k - 1], trace[k], b);
    }
  }

  lemma {:induction false} TicketsStay(trace: seq<Lock>, i: nat, k: nat)
    requires Run(trace) && i <= k < |trace|
    ensures Extends(trace[i].tickets, trace[k].tickets)
  {
    if i < k {
      TicketsStay(trace, i, k - 1);
      assert StepAt(trace, k - 1);
      NextExtends(trace[k - 1], trace[k]);
    }
  }

  /** First come, first served, whatever the interleaving: a caller enters only when everybody who was there
      before it, under the same key, is done. */
  lemma {:induction false} EntersInArrivalOrder(trace: seq<Lock>, i: nat, k: nat, a: Caller, b: Caller)
    requires Run(trace) && i <= k < |trace|
    requires a in trace[i].tickets && b !in trace[i].tickets && b in trace[k].tickets
    requires trace[i].tickets[a].key == trace[k].tickets[b].key
    requires CanEnter(trace[k], b) || trace[k].tickets[b].phase != Waiting
    ensures a in trace[k].tickets && trace[k].tickets[a].phase.Done?
  {
    TicketsStay(trace, i, k);
    LaterIsBehind(trace, i, k, a, b);
    EntersInChainOrder(trace, k, a, b);
  }

  /** And nobody waits for anyone else: `b` is chained behind `a` exactly if `a` came first. */
  lemma {:induction false} BehindIffLater(trace: seq<Lock>, k: nat, a: Caller, b: Caller)
    requires Run(trace) && k < |trace| && a in trace[k].tickets && b in trace[k].tickets
    requires trace[k].tickets[a].key == trace[k].tickets[b].key
    ensures a in Queue(trace[k].tickets[b].prev) <==>
            exists i: nat :: i <= k && a in trace[i].tickets && b !in trace[i].tickets
  {
    if i: nat :| i <= k && a in trace[i].tickets && b !in trace[i].tickets {
      LaterIsBehind(trace, i, k, a, b);
    }
    if a in Queue(trace[k].tickets[b].prev) {
      var i := WasThere(trace, k, a, b);
    }
  }

  lemma {:induction false} WasThere(trace: seq<Lock>, k: nat, a: Caller, b: Caller) returns (i: nat)
    requires Run(trace) && k < |trace| && b in trace[k].tickets && a in Queue(trace[k].tickets[b].prev)
    ensures i <= k && a in trace[i].tickets && b !in trace[i].tickets
  {
    i := Arrived(trace, k, b);
    TicketsStay(trace, i + 1, k);
    assert StepAt(trace, i);
    NewcomerChains(trace[i], trace[i + 1], b);
    RunKeeps(trace, i);
    LatestArrived(trace[i], trace[k].tickets[b].key, a);
  }

  lemma {:induction false} LatestArrived(l: Lock, key: Key, a: Caller)
    requires Inv(l) && a in Queue(Latest(l, key))
    ensures a in l.tickets
  {
    assert key in l.chains;
    QueuedArrived(l.tickets, key, l.chains[key], a);
  }

  /** The step in which a caller arrived. */
  lemma {:induction false} Arrived(trace: seq<Lock>, k: nat, b: Caller) returns (i: nat)
    requires Run(trace) && k < |trace| && b in trace[k].tickets
    ensures i < k && b !in trace[i].tickets && b in trace[i + 1].tickets
  {
    if b in trace[k - 1].tickets {
      i := Arrived(trace, k - 1, b);
    } else {
      i := k - 1;
    }
  }

  lemma {:induction false} NotBehindItself(l: Lock, c: Caller)
    requires Inv(l) && c in l.tickets
    ensures c !in Queue(l.tickets[c].prev)
  {
    assert TicketOk(l, c);
    NotInOwnPrev(l.tickets, l.tickets[c].key, l.chains[l.tickets[c].key], c);
  }

  lemma {:induction false} NotInOwnPrev(tickets: map<Caller, Ticket>, key: Key, p: Promise, c: Caller)
    requires WellChained(tickets, key, p) && c in Queue(p)
    ensures c in tickets && c !in Queue(tickets[c].prev)
  {
    if c != p.caller {
      NotInOwnPrev(tickets, key, p.prev, c);
    }
  }

  // ----- Progress -----

  /** A finish, failed or not, lets the caller chained right behind it in at once. */
  lemma {:induction false} FinishEnablesNext(l: Lock, c: Caller, failed: bool, d: Caller)
    requires Inv(l) && CanFinish(l, c)
    requires d in l.tickets && l.tickets[d].prev == Chained(l.tickets[c].prev, c)
    ensures CanEnter(Finish(l, c, failed), d)
  {
    var m := Finish(l, c, failed);
    assert TicketOk(l, c) && TicketOk(l, d);
    SettledGrows(l.tickets[c].prev, l.released, m.released);
    assert d != c by {
      NotBehindItself(l, d);
    }
    assert c !in l.released;
    assert l.tickets[d].phase == Waiting;
  }

  /** While somebody waits, somebody of the same key is inside or can enter: no caller is ever stranded. */
  lemma {:induction false} SomebodyMoves(l: Lock, d: Caller) returns (c: Caller)
    requires Inv(l) && d in l.tickets && l.tickets[d].phase == Waiting
    ensures c in l.tickets && l.tickets[c].key == l.tickets[d].key && (CanEnter(l, c) || CanFinish(l, c))
    ensures c == d || c in Queue(l.tickets[d].prev)
  {
    assert TicketOk(l, d);
    c := FirstUnfinished(l, l.tickets[d].key, l.tickets[d].prev, d);
  }

  /** The first caller of a chain that is not done, or `last` when all are. */
  lemma {:induction false} FirstUnfinished(l: Lock, key: Key, p: Promise, last: Caller) returns (c: Caller)
    requires Inv(l) && WellChained(l.tickets, key, p)
    requires last in l.tickets && l.tickets[last].key == key && l.tickets[last].prev == p
             && !l.tickets[last].phase.Done?
    ensures c in l.tickets && l.tickets[c].key == key && (CanEnter(l, c) || CanFinish(l, c))
    ensures c == last || c in Queue(p)
    decreases p
  {
    assert TicketOk(l, last);
    if Settled(p, l.released) {
      c := last;
    } else if p.caller in l.released {
      c := SomebodyBehind(l, key, p.prev);
    } else {
      assert TicketOk(l, p.caller);
      c := FirstUnfinished(l, key, p.prev, p.caller);
    }
  }

  lemma {:induction false} SomebodyBehind(l: Lock, key: Key, p: Promise) returns (c: Caller)
    requires Inv(l) && WellChained(l.tickets, key, p) && !Settled(p, l.released)
    ensures c in l.tickets && l.tickets[c].key == key && (CanEnter(l, c) || CanFinish(l, c)) && c in Queue(p)
    decreases p
  {
    if p.caller in l.released {
      c := SomebodyBehind(l, key, p.prev);
    } else {
      assert TicketOk(l, p.caller);
      c := FirstUnfinished(l, key, p.prev, p.caller);
    }
  }

  /** The map only ever grows: an entry outlives all its callers. */
  lemma {:induction false} EntriesAreNeverDeleted(trace: seq<Lock>, j: nat, k: nat)
    requires Run(trace) && j <= k < |trace|
    ensures trace[j].chains.Keys <= trace[k].chains.Keys
  {
    if j < k {
      EntriesAreNeverDeleted(trace, j, k - 1);
      RunKeeps(trace, k - 1);
      assert StepAt(trace, k - 1);
      NextKeeps(trace[k - 1], trace[k]);
    }
  }
}
