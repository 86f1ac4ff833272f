/** The table state of packages/game-rules/src/holdem.ts. A seat's index is its position in
    `seats`; chips are unbounded integers, as the source's bigint is. */
module Table {
  import opened Prelude
  import opened Cards

  datatype Seat = Seat(
    playerId: string,
    stack: int,
    bet: int,
    totalBet: int,
    hole: Option<seq<Card>>,
    folded: bool,
    allIn: bool,
    sitOut: bool)

  datatype Config = Config(smallBlind: int, bigBlind: int, rakeBps: int, rakeCap: Option<int>)

  datatype Street = Waiting | Preflop | Flop | Turn | River | Showdown | Settlement

  datatype Award = Award(seat: nat, amount: int)

  datatype State = State(
    config: Config,
    handNumber: nat,
    street: Street,
    button: nat,
    deck: seq<Card>,
    board: seq<Card>,
    pot: int,
    seats: seq<Seat>,
    acting: Option<nat>,
    currentBet: int,
    minRaise: int,
    lastAggressor: Option<nat>,
    firstToAct: Option<nat>,
    winners: seq<Award>,
    rake: int,
    sessionRake: int,
    acted: set<nat>,
    lastRaiseComplete: bool)

  // ----- Projections -----

  function Stacks(seats: seq<Seat>): (r: seq<int>)
    ensures |r| == |seats|
  {
    seq(|seats|, i requires 0 <= i < |seats| => seats[i].stack)
  }

  function Totals(seats: seq<Seat>): (r: seq<int>)
    ensures |r| == |seats|
  {
    seq(|seats|, i requires 0 <= i < |seats| => seats[i].totalBet)
  }

  /** Seats still contesting the pot. */
  function LiveSet(seats: seq<Seat>): (r: set<nat>)
  {
    set i: nat | i < |seats| && !seats[i].folded
  }

  /** Live seats that still have a decision to make. */
  function ActiveSet(seats: seq<Seat>): (r: set<nat>)
  {
    set i: nat | i < |seats| && !seats[i].folded && !seats[i].allIn
  }

  /** Every chip the table accounts for: stacks, pot and the rake taken so far. */
  function Funds(st: State): int
  {
    Sum(Stacks(st.seats)) + st.pot + st.sessionRake
  }

  function ResetBets(seats: seq<Seat>): (r: seq<Seat>)
    ensures |r| == |seats|
  {
    seq(|seats|, i requires 0 <= i < |seats| => seats[i].(bet := 0))
  }
}
