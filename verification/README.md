# MozettoCasino: a verified model

A Dafny model of the parts of MozettoCasino that move chips, cards and commitments, with proofs about whole runs.

* **No-Limit Hold'em engine** (`Table`, `Ring`, `Pots`, `HandRank`, `Rake`, `Payouts`, `Settlement`, `Holdem`): the rules as
  functions on states; `Engine` carries out the same operations step by step as the source does and is proved equal.
  `Invariant`, `Opening` and `Runs` prove conservation, safety and termination over every run; `Host` is the table host with
  its mutable state, its two loops and the catch that voids a hand. `BettingRules` derives the betting rules from the history of a
  street alone, and `Awards` who is paid what at a showdown from cards, stakes and seats alone; `Betting`, `ShortAllIn`,
  `Showdown`, `FoldOuts`, `Blinds`, `Rotation`, `Dealing`, `Players` and `HandMeaning` add the rules named after them. `Scenes`
  holds the small tables of the runs exhibited below.
* **Second engine** (`RustSettlement`, `RustEngine`, `RustMoves`, `RustRuns`): the Rust deal, actions, run-out, fold-win and
  settlement, and, over whole runs, how far both engines go through the same states.
* **Committed shuffling** (`Shuffle`, `Cards`, `Dealer`, `FairDeal`, `Merkle`): which shuffle is exactly fair, down to the
  words a dealer reads and rejects, and position binding of card openings.
* **Event hash chain** (`EventChain`): tamper evidence and agreement of the three verifiers.
* **Table and ledger protocols** (`MatchLock`, `Epochs`, `EpochStacks`, `EpochRuns`, `EpochOutcomes`, `Ledger`,
  `HandLedger`).

`dafny verify dfyconfig.toml` checks everything. A seat's index is its position in `seats`; chips are unbounded integers, as the
source's bigint is. Hash functions are parameters; where binding is claimed they are required to be collision-free. Digests are
values of an unbounded type, so that such functions exist (`Merkle.SchemesExist`, `EventChain.CodecsExist`). The ledger counts
hundredths of a dollar, as chips do.

## What the proofs found

* **The Rust engine can lose chips.** `build_pots` drops layers nobody live reached, where the TypeScript engine adds them to the
  last contested layer. Over whole runs the two engines go through the same states until a showdown in which a folded seat
  out-staked every live one (`RunsCoincide`), and there the Rust engine loses chips (`EnginesPart`, `RustSettlementConservesIff`).
  While everybody dealt in can post a full big blind they never part (`FullBlindsNeverPart`). `RustLosesChips` exhibits a legal
  run that does: blinds 50/100, the big blind posts its last 30, the button is all-in for 20, the small blind folds its 50; 20 of
  the 100 chips vanish.
* **The ledger does not follow the stacks.** After every hand `rebalanceEscrowToStacks` rounds each change to whole dollars, while
  a stack is worth cents and the rake is booked to the cent. An escrow that equalled its stack equals it again after one hand
  exactly when the player won or lost whole dollars (`HandKeepsEscrowIff`), and after any number of hands exactly when the
  rounding errors of all of them sum to 0 (`PlayedHandsKeepEscrowIff`); winning back what was lost does not repair it. Clearing
  comes back exactly when the errors of all escrowed seats sum to what seats without an escrow won (`PlayedHandsBalanceIff`).
  `RoundingBreaksTheBooks` is a run of m hands, for every m: blinds of half a dollar and a dollar, the small blind always folds.
  After every second hand nobody has won or lost anything, and yet both escrows are half a dollar a hand above their stacks
  and clearing a dollar a hand short.
* **The engine's own shuffle is not fair.** It draws plain remainders of 32-bit words. Such a shuffle is fair exactly when every
  bound used divides 2^32, which means for at most two cards (`PlainIsFairIff`); for the 52 cards `EngineShuffleIsUnfair` names two
  orders that different numbers of word sequences give. The dealer's rejection sampling is exactly fair on the stream it reads,
  rejected words included (`StreamIsFair`, `DeckIsDealtFairly`).
* **A leave that was withdrawn cannot be asked for again in the same hand.** The request is accepted, but the database row with the
  same idempotency key stays cancelled and nothing is queued: `AcceptedIsDecidedIff` has the exact condition and `LostLeaveRun`
  a run in which the player is still seated after the boundary. A second top-up without a key of its own is likewise accepted and
  adds nothing (`AcceptedIsQueuedIff`).
* **The matchmaking map is never cleaned up.** The comparison in the finally block is between a chained promise and the bare gate
  (`CleanupNeverFires`, `EntriesAreNeverDeleted`). Exclusion and order are unaffected.
* **A short `raise` reopens the betting and a short `bet` lowers `minRaise` below the big blind**; the no-reopen rule is about
  `all_in`. `ShortRaiseReopensRun` is a legal run to a state where a `raise` of all a seat's chips gives back the raise to a
  player who had acted, and an `all_in` of the same chips would not; `SmallRaiseRun` is one to a flop where a raise by 30 is on
  offer at a big blind of 100.
* **A fold-out on the river is never raked**, while the same fold on flop or turn is (`FoldOutIsRakedIff`).
* **The tip of an event chain does not commit to `resultingStateHash`** (`SidecarIsUncommitted`), and the standalone verifier does
  not look at actor seats or event types.

## Model

| member | source | states |
|---|---|---|
| `Runs.RunsConserveChips` | packages/game-rules/src/holdem.ts:353-995 | over every run of any number of hands (deal between hands, any legal action and amount, run-out when there are no options), stacks + pot + session rake equal the opening funds in every state, and every state keeps the betting invariant |
| `Runs.NothingIsNegative` | packages/game-rules/src/holdem.ts:353-995 | no stack, bet, pot, session rake or net award is negative in any state of any run |
| `Runs.NeverStuck` | packages/game-rules/src/holdem.ts:815-995 | a hand in progress always has a next step: a legal action or a run-out |
| `Runs.HandsEnd` | packages/game-rules/src/holdem.ts:815-995 | every run inside one hand is at most as long as a bound fixed when it starts; the lexicographic measure (streets left, stacks, live seats, seats yet to act) falls at every step |
| `Runs.NextKeeps` | packages/game-rules/src/holdem.ts:353-995 | one step of any kind keeps the invariant, the funds, the configuration and the number of seats |
| `Invariant.ActionKeepsInv` | packages/game-rules/src/holdem.ts:887-995 | every legal action is accepted and keeps the invariant: pot = sum of totals, no bet above the bet to match, all-in iff no stack, seats that can act entered the street level and deepest, street matches board, the acting seat owes chips or has not acted |
| `Invariant.RunoutKeepsInv` | packages/game-rules/src/holdem.ts:815-836 | a run-out step from a state without options keeps invariant and funds |
| `Invariant.LegalMovesAreAccepted` | packages/game-rules/src/holdem.ts:887-902 | an action is accepted exactly when getLegalActions offers it with an amount in bounds |
| `Invariant.BoundsAreSound` | packages/game-rules/src/holdem.ts:424-456 | every offered amount is positive and within the stack; call is exactly what is owed; a raise exceeds it; bet and check only with nothing owed, fold only with something owed |
| `Invariant.SomebodyIsToAct` | packages/game-rules/src/holdem.ts:984-994 | while a street is not complete somebody is left to act: the branch for no next seat is unreachable |
| `Opening.StartHandEnters` | packages/game-rules/src/holdem.ts:353-422 | dealing succeeds exactly with two or more players, establishes the hand invariant and conserves chips |
| `Engine.MoveChips` | packages/game-rules/src/holdem.ts:145-152 | the mutation takeChips makes, field by field |
| `Engine.BeginHand` | packages/game-rules/src/holdem.ts:353-422 | startHand step by step ends in the state of StartHand |
| `Engine.Play` | packages/game-rules/src/holdem.ts:887-995 | applyAction step by step, with its local copies, ends in the state or error of ApplyAction |
| `Engine.PlaceWager` | packages/game-rules/src/holdem.ts:904-969 | the six action branches on local variables give Wager |
| `Engine.TurnCards` | packages/game-rules/src/holdem.ts:470-479 | burn-and-turn loop gives DealBoard |
| `Engine.SettleHand` | packages/game-rules/src/holdem.ts:622-728 | settleShowdown with its layer, winner and rake loops gives SettleShowdown |
| `Engine.RunOut` | packages/game-rules/src/holdem.ts:815-836 | continueRunout gives ContinueRunout |
| `Engine.Proceed` | packages/game-rules/src/holdem.ts:838-876 | maybeRunout gives MaybeRunout |
| `Holdem.DealHoles` | packages/game-rules/src/holdem.ts:409-416 | the dealing loop gives each dealt-in seat the next two cards, in seat order, and leaves the rest of the deck |
| `Holdem.HandPositions` | packages/game-rules/src/holdem.ts:356-390 | button and blinds are dealt-in seats, the blinds differ, and heads-up is exactly two players |
| `Host.TableRuntime.PlayHand` | services/game-server/src/table-runtime.ts:2469-2560 | whatever the controllers decide, the two host loops terminate, the table is between hands again and no chip is lost: either the hand settled and is cleared away with the stacks as it left them, or an amount out of bounds made applyAction throw, and then the hand is void and every stack is the one saved before it; with fewer than two players nothing happens |
| `Host.VoidRestores` | services/game-server/src/table-runtime.ts:2530-2560 | from any state of a hand, putting back the saved stacks gives a table between hands with everybody's stack, and so all funds, as before the hand |
| `Host.SettledResets` | services/game-server/src/table-runtime.ts:2343-2378 | after a settled hand no card, bet or winner is left on the table, stacks are as the hand left them, players without chips sit out, and exactly those to be dealt in next are not folded |
| `Host.TableRuntime.BeginHand` | packages/game-rules/src/holdem.ts:353-422 | deals exactly with two or more players, otherwise leaves the table unchanged |
| `Host.TableRuntime.ActForCurrent` | services/game-server/src/table-runtime.ts:3116-3455 | plays the decided action, or fold/check when it is not on offer; an amount out of bounds is refused with nothing changed; a seat without options only gives up the turn |
| `Host.TableRuntime.AdvanceRunout` | services/game-server/src/table-runtime.ts:2400-2414 | one continueRunout step; nobody is to act afterwards |
| `Host.GateIsOpen` | packages/game-rules/src/holdem.ts:806-813 | on every run, whenever a hand in progress offers no options, isAllInRunout holds, so the host's run-out loop cannot strand it |
| `Host.GateIsOpenIff` | packages/game-rules/src/holdem.ts:806-813 | in a hand isAllInRunout holds exactly while at most one player can still act |
| `Host.ForcedMovesNoChip` | services/game-server/src/table-runtime.ts:3116-3455 | what is played instead of an action not on offer, a fold or a check, moves no chip |
| `Host.ActionIsStaged` | packages/game-rules/src/holdem.ts:887-995 | after every legal action the hand is settled, somebody has options, or at most one live seat can still act |
| `Host.OpeningIsStaged` | packages/game-rules/src/holdem.ts:418-421 | the same after the deal, including heads-up with an all-in small blind left as the acting seat |
| `Ring.FindNextSeat` | packages/game-rules/src/holdem.ts:135-143 | the ring walk finds NextSeat |
| `Ring.NextSeatFinds` | packages/game-rules/src/holdem.ts:135-143 | the seat found is the nearest matching one clockwise, and one is found whenever one matches |
| `Ring.NextSeatIsNearest` | packages/game-rules/src/holdem.ts:135-143 | no member of the set is nearer clockwise than the seat found |
| `Ring.ButtonOrderIsPermutation` | packages/game-rules/src/holdem.ts:566-570 | button order lists every seat exactly once |
| `Blinds.BlindsMatchStartHand` | packages/game-rules/src/holdem.ts:331-393 | nextBlindSeats with extra seats predicts the button and blinds startHand picks on the table where those seats sit in, and None exactly where startHand refuses |
| `Blinds.PositionsAreClockwise` | packages/game-rules/src/holdem.ts:353-390 | the button is the nearest player clockwise of the last one, the small blind the nearest clockwise of the button (heads-up the button), the big blind the nearest clockwise of the small one |
| `Rotation.EachSeatGetsTheButtonOnce` | packages/game-rules/src/holdem.ts:353-390 | on every run of the engine, while k >= 2 seats stay dealt in, any k consecutive hands give each of them the button exactly once; that the hand in between keeps the button is part of the proof |
| `Rotation.EachSeatGetsTheBigBlindOnce` | packages/game-rules/src/holdem.ts:387-406 | and the big blind exactly once |
| `Betting.IdleSeatsKeepTheirChips` | packages/game-rules/src/holdem.ts:470-479 | chips move only by acting: over any stretch of a hand in which a seat never moves, its cards, stack and stake stay the same through all actions, streets and run-outs |
| `Betting.TurnGoesClockwise` | packages/game-rules/src/holdem.ts:971-994 | the turn stays on the street exactly while two players are live and one owes chips or has not acted, and goes to the nearest such seat clockwise; otherwise the street ends or nobody is left to act |
| `BettingRules.OffersFollow` | packages/game-rules/src/holdem.ts:424-456 | which actions are on offer at any point of a street follows from its history: bets, raises and raising all-ins are closed exactly to a seat that has acted since the last full bet or raise while a short all-in stands |
| `BettingRules.RaisesFollow` | packages/game-rules/src/holdem.ts:424-456 | a raise is accepted exactly if it lifts the bet by at least the last full bet or raise of the street (a big blind to begin with) or is the whole stack; likewise the amounts of bets, calls and all-ins |
| `BettingRules.BetToMatchFollows` | packages/game-rules/src/holdem.ts:904-953 | what there is to match is the largest bet of the street, or what it opened with while nobody has put in more |
| `BettingRules.MoveTakesChips` | packages/game-rules/src/holdem.ts:904-953 | a move takes its chips out of the acting seat's stack into its bet and the pot, as many as the action says, and touches no other seat |
| `BettingRules.TurnFollows` | packages/game-rules/src/holdem.ts:984-994 | after a move the turn is with the nearest seat clockwise that owes chips or has not acted since the last full bet or raise, or there is none |
| `BettingRules.StreetGoesOnIff` | packages/game-rules/src/holdem.ts:878-885 | the street goes on after an action exactly if two players are left and one of them owes chips or has not acted since the last full bet or raise |
| `BettingRules.HandOpens` | packages/game-rules/src/holdem.ts:353-422 | a hand opens with the two blinds as its only bets and the big blind to match; first to act is the nearest player clockwise of the big blind with chips left, heads-up the button |
| `BettingRules.StreetOpens` | packages/game-rules/src/holdem.ts:458-479 | each later street opens with no bets and nothing to match, the first to act being the nearest player clockwise of the button who can |
| `BettingRules.RunoutOpens` | packages/game-rules/src/holdem.ts:815-836 | a run-out step deals the next street and moves no chip |
| `BettingRules.HandSettlesIff` | packages/game-rules/src/holdem.ts:971-995 | a hand ends with an action exactly when one player is left or nobody is to act any more on the river |
| `BettingRules.RunoutSettlesIff` | packages/game-rules/src/holdem.ts:815-836 | a run-out step ends the hand exactly on the river |
| `ShortAllIn.ShortAllInRule` | packages/game-rules/src/holdem.ts:424-456 | after a short all-in raise, a seat that had acted may only fold, call, or go all-in for no more than the call, until a bet, raise or full all-in or the end of the street |
| `ShortAllIn.ReopeningLiftsCap` | packages/game-rules/src/holdem.ts:911-953 | a bet, raise or full all-in lifts the cap for everybody |
| `ShortAllIn.ShortBetLowersMinRaise` | packages/game-rules/src/holdem.ts:919-927 | a bet leaves minRaise below the big blind exactly when the bettor's stack was below it |
| `ShortAllIn.ShortBetAllowsSmallRaise` | packages/game-rules/src/holdem.ts:434-449 | and then the next player with chips to spare may raise by less than a big blind |
| `ShortAllIn.SmallRaiseRun` | packages/game-rules/src/holdem.ts:353-995 | a legal run from a fresh table, for any deck, to a flop where a raise by 30 is on offer at a big blind of 100 |
| `ShortAllIn.ShortRaiseReopens` | packages/game-rules/src/holdem.ts:928-937 | a raise clamped below the minimum still reopens the betting, where an all-in of the same size does not |
| `ShortAllIn.RaiseReopensStreet` | packages/game-rules/src/holdem.ts:424-456 | after a raise, however short, everybody with more than the call may raise until a short all-in or the end of the street, seats that had acted included |
| `ShortAllIn.ShortRaiseReopensRun` | packages/game-rules/src/holdem.ts:353-995 | a legal run, for any deck, to a state where a short raise gives a seat that had acted its raise back and an all-in of the same chips would not |
| `Pots.BuildPots` | packages/game-rules/src/holdem.ts:484-513 | the loop with its orphaned total builds TsPots |
| `Pots.BuildPotsRust` | crates/poker-core/src/pots.rs:11-44 | the Rust loop builds RustPots |
| `Pots.OrphansAreATopSuffix` | packages/game-rules/src/holdem.ts:484-513 | levels without a live contributor lie above all contested ones |
| `Pots.TsLayersRefineChipHeights` | packages/game-rules/src/holdem.ts:484-513 | each layer holds exactly the chips at its heights, with the same contributors and contenders at every height; the last also takes all heights nobody live reached |
| `Pots.TsPotsHoldEverything` | packages/game-rules/src/holdem.ts:484-513 | the layers sum to all chips staked as soon as a live seat staked one |
| `Pots.RustPotsHoldUpToDeepest` | crates/poker-core/src/pots.rs:11-44 | the Rust layers sum to every stake capped at the deepest live stake |
| `Pots.RustPotsConserveIff` | crates/poker-core/src/pots.rs:11-44 | they hold every chip iff no folded seat out-staked all live ones |
| `Pots.TsAndRustAgreeIff` | crates/poker-core/src/pots.rs:11-44 | the two builds agree iff that holds (or nothing is contested) |
| `RustEngine.RustSettlementConservesIff` | crates/poker-core/src/engine.rs:372-540 | the Rust showdown conserves chips iff no folded seat out-staked every live seat; otherwise it loses exactly the overhang |
| `RustSettlement.SettleShowdown` | crates/poker-core/src/engine.rs:372-540 | the Rust award, won and rake loops, with their push-or-add and saturating subtractions, end in the state that pays out the layers of build_pots |
| `RustSettlement.RakesAgreeIff` | crates/poker-core/src/types.rs:77-105 | the two rake functions agree exactly unless a negative cap meets a hand that is raked |
| `RustEngine.EnginesSettleAlikeIff` | crates/poker-core/src/engine.rs:372-540 | the two settlements end in the same state iff no folded seat out-staked every live one |
| `RustEngine.SettleTwice` | crates/poker-core/src/engine.rs:372-540 | the loops of both engines run on one hand: same result, and no chip lost by Rust, iff that holds |
| `RustEngine.OverhangNeedsShortBlind` | packages/game-rules/src/holdem.ts:353-995 | along every run, the overhang needs every live seat to have staked less than the big blind |
| `RustEngine.RustLosesChips` | crates/poker-core/src/engine.rs:396-453 | a concrete table and legal run, for any deck, ending at a river where the Rust showdown loses 20 of 100 chips |
| `RustMoves.StartHandRust` | crates/poker-core/src/engine.rs:209-339 | start_hand step by step deals the hand of the first engine; its errors for a missing blind or first player never arise |
| `RustMoves.GetLegalActions` | crates/poker-core/src/legal.rs:13-88 | the pushes give exactly the options and bounds of the first engine |
| `RustMoves.ApplyActionRust` | crates/poker-core/src/engine.rs:785-919 | apply_action step by step, down to the pot loops of the showdown, ends in the state or error of RustApplyAction |
| `RustMoves.ContinueRunoutRust` | crates/poker-core/src/engine.rs:644-699 | continue_runout gives RustContinueRunout |
| `RustMoves.FoldWinRust` | crates/poker-core/src/engine.rs:552-620 | fold_win gives RustFoldWin |
| `RustRuns.ActionsAlikeIff` | crates/poker-core/src/engine.rs:785-919 | in every state of a hand both engines accept the same actions and amounts, and end in the same state iff the action does not settle a folded seat's overhang |
| `RustRuns.RunsCoincide` | crates/poker-core/src/engine.rs:209-919 | a trace in which no overhang is settled is a run of one engine iff it is a run of the other |
| `RustRuns.EnginesPart` | crates/poker-core/src/engine.rs:372-540 | at the first overhang of a run the second engine, having gone through the same states, loses chips where the first keeps its opening funds |
| `RustRuns.FullBlindsNeverPart` | crates/poker-core/src/engine.rs:209-919 | while everybody dealt in can post a full big blind, every run of the first engine is a run of the second |
| `Settlement.SettleConserves` | packages/game-rules/src/holdem.ts:622-728 | showdown moves every chip of the pot to a stack or the session rake; stacks never fall and net awards are not negative |
| `Settlement.ChargesAreExact` | packages/game-rules/src/holdem.ts:686-702 | rake charges sum to the rake and never exceed a seat's award |
| `Settlement.NobodyExceedsEntitlement` | packages/game-rules/src/holdem.ts:622-690 | folded seats win nothing; a live seat grosses at most what every seat staked up to its own stake (the whole pot if deepest) |
| `Awards.ScoreIsBestFive` | packages/game-rules/src/holdem.ts:622-627 | what a live seat is ranked by is the score of some five of its own two cards and the board, and no other five of them scores higher |
| `Awards.LayersArePaidOut` | packages/game-rules/src/holdem.ts:655-728 | to the chip: each pot layer is split equally among the live seats in it that no other one beats with five of its own seven cards, odd chips going to those nearest clockwise of the button; every stack grows by its shares less a charge, the charges add up to the rake, and each is within one chip per charged seat of the exact proportion |
| `Awards.BestHandTakesEntitlement` | packages/game-rules/src/holdem.ts:655-684 | a seat with a five-card hand that beats every five-card hand of every other live seat is paid its entitlement (all stakes up to its own, or the whole pot if it is deepest) less at most the rake |
| `Awards.BeatenHandIsPaidNothing` | packages/game-rules/src/holdem.ts:655-684 | a live seat beaten, hand against hand, by one that staked at least as much is paid nothing |
| `Awards.TiedHandsShareAlike` | packages/game-rules/src/holdem.ts:655-684 | two live seats with equal stakes, neither beating the other, get the same shares up to one odd chip per layer |
| `Awards.ChargesGoByButton` | packages/game-rules/src/holdem.ts:575-620 | the rake is charged exactly to the seats that shared a layer, in button order, as the two passes split it by what each got |
| `Awards.ShowdownIsRaked` | packages/game-rules/src/holdem.ts:641-653 | the rake is the rounded share, at most the cap, of the pot less what one live seat staked beyond everybody else; nothing when nobody is left to show against |
| `Awards.WinnersAreListed` | packages/game-rules/src/holdem.ts:696-713 | the list of winners names everybody who got a share, once, with the change of the stack |
| `Awards.WinnersAreInOrder` | packages/game-rules/src/holdem.ts:655-690 | winners are listed by the layer they first shared, and within a layer in button order |
| `Awards.RiverActionSettles` | packages/game-rules/src/holdem.ts:971-979 | an action that ends a hand on the river settles it so, with the cards, the button and the stakes as the action left them |
| `Awards.RiverRunoutSettles` | packages/game-rules/src/holdem.ts:815-836 | and so does a run-out step on the river |
| `Settlement.FoldWinConserves` | packages/game-rules/src/holdem.ts:731-804 | the survivor gets the pot less rake, nobody else changes, and there is no rake before the flop |
| `FoldOuts.FoldOutIsRaked` | packages/game-rules/src/holdem.ts:731-804 | a fold that leaves one player gives that player the pot less a rake: on flop and turn the rounded share, at most the cap, of the pot less what the bet exceeds the next bet by; nothing before the flop and nothing on the river |
| `FoldOuts.FoldOutIsRakedIff` | packages/game-rules/src/holdem.ts:731-804 | so it costs rake exactly on flop or turn, when that matched pot times the rate comes to a chip and no zero cap forbids it |
| `Settlement.UncalledBetAmount` | packages/game-rules/src/rake.ts:96-112 | the loop computes that part |
| `Settlement.UncalledBetExceedsNext` | packages/game-rules/src/rake.ts:96-112 | the uncalled part of a bet is what it exceeds the largest bet of any other seat by, folded ones included |
| `Showdown.UncalledComesBack` | packages/game-rules/src/holdem.ts:637-660 | the uncalled part of the deepest stake is not raked and its owner wins it back with the top layer |
| `Showdown.UncalledIffOvercalled` | packages/game-rules/src/holdem.ts:554-564 | for any stakes: the uncalled part is u > 0 exactly when one live seat staked u more than the next stake, itself positive, and 0 exactly when there is no such seat |
| `Payouts.GrossSum` | packages/game-rules/src/holdem.ts:662-684 | awards over the first k layers sum to those layers' amounts |
| `Payouts.SomebodyWins` | packages/game-rules/src/holdem.ts:664-671 | a layer with contenders has a best hand |
| `Payouts.ByButtonLists` | packages/game-rules/src/holdem.ts:669-671 | winners in button order are listed once each, all of them |
| `Payouts.ByButtonAt` | packages/game-rules/src/holdem.ts:566-570 | in button order a seat's place is the number of listed seats nearer clockwise of the button |
| `Rake.RakeTabsAreExact` | packages/game-rules/src/holdem.ts:577-620 | for any awards covering the rake, tabs sum exactly to it, each between 0 and the award and less than n chips from the exact proportional share |
| `Rake.OddChipsGoInOrder` | packages/game-rules/src/holdem.ts:592-619 | every seat but the last in button order is charged its rounded-down share, the last one what is then missing as far as its award goes, and only the rest goes to the others, each filled up before the next |
| `Rake.AllocateRakeByAwards` | packages/game-rules/src/holdem.ts:577-620 | the floor, clamp and remainder passes give RakeTabs |
| `Rake.SharesAreExact` | packages/game-rules/src/holdem.ts:527-544 | split shares sum to the amount, differ by at most one chip, larger first |
| `Rake.SplitPotShares` | packages/game-rules/src/holdem.ts:527-544 | the remainder loop gives SplitShares |
| `Rake.RakeIsRoundedShare` | packages/game-rules/src/rake.ts:50-63 | a raked hand pays the exact share rounded down or the cap; a hand folded out before the flop or shown by one player pays nothing |
| `Rake.RakeWithinPot` | packages/game-rules/src/rake.ts:50-63 | rake lies between 0 and the eligible pot |
| `Rake.RakeWithinCap` | packages/game-rules/src/rake.ts:50-63 | and within the cap |
| `HandMeaning.RankFiveIsTextbook` | packages/game-rules/src/hand-rank.ts:62-104 | five real cards rank as a textbook reading of their sorted values: category, tie-break values and kickers in order |
| `HandMeaning.StraightOfFive` | packages/game-rules/src/hand-rank.ts:41-59 | the two window searches find exactly five consecutive values or the five-high straight |
| `HandRank.CompareScores` | packages/game-rules/src/hand-rank.ts:106-113 | the loop computes Compare |
| `HandRank.CompareIsLexicographic` | packages/game-rules/src/hand-rank.ts:106-113 | comparison is lexicographic order on zero-padded lists, all three ways |
| `HandRank.CompareIsTotalPreorder` | packages/game-rules/src/hand-rank.ts:106-113 | reflexive, antisymmetric in sign, transitive |
| `HandRank.CombinationsWithin` | packages/game-rules/src/hand-rank.ts:33-39 | every combination is drawn from the list |
| `HandRank.CombinationsComplete` | packages/game-rules/src/hand-rank.ts:33-39 | every k-element sub-multiset is listed |
| `HandRank.RankFiveIgnoresOrder` | packages/game-rules/src/hand-rank.ts:62-104 | ranking five cards ignores their order |
| `HandRank.BestHandIsBest` | packages/game-rules/src/hand-rank.ts:115-124 | with five or more cards the best hand is attained by five of them and beats or ties all others |
| `HandRank.BestHandGrows` | packages/game-rules/src/hand-rank.ts:115-124 | adding a card never lowers it |
| `HandMeaning.BestHandIgnoresOrder` | packages/game-rules/src/hand-rank.ts:115-124 | card order does not matter: the best hands tie, and for real cards are equal in category and score |
| `HandRank.FindBest` | packages/game-rules/src/hand-rank.ts:118-122 | the selection loop finds the first best |
| `Dealing.RunsDealEachCardOnce` | packages/game-rules/src/holdem.ts:409-479 | in every state of every run after the first deal, the cards in play come from one full deck, each used once |
| `Dealing.CardsPartition` | packages/game-rules/src/holdem.ts:409-479 | holes, burns, board and deck together are exactly the 52 cards |
| `Cards.ShuffledDeckIsDeck` | packages/game-rules/src/cards.ts:27-41 | the engine's shuffle yields the 52 cards for any stream of words |
| `Cards.BuildDeck` | packages/game-rules/src/cards.ts:15-19 | the push loops fill the full deck |
| `Cards.CodesAndCards` | packages/game-rules/src/cards.ts:67-76 | codes 0..51 and cards correspond one to one |
| `Cards.CodesRunThroughSuits` | packages/game-rules/src/cards.ts:4-19 | cards are coded suit by suit, each suit from the deuce to the ace |
| `Cards.DecksHaveNoRepeats` | packages/game-rules/src/cards.ts:15-41 | a permutation of the full deck holds every card once |
| `Shuffle.ShuffleInPlace` | packages/dealer-deck/src/shuffle.ts:13-18 | the descending swap loop on the array gives Shuffled |
| `Shuffle.ShufflePermutes` | packages/dealer-deck/src/shuffle.ts:10-20 | whatever indices are drawn, the result is a permutation |
| `Shuffle.ShuffleInjective` | packages/dealer-deck/src/shuffle.ts:10-20 | different index sequences give different permutations |
| `Shuffle.ShuffleSurjective` | packages/dealer-deck/src/shuffle.ts:10-20 | every permutation is reached |
| `Shuffle.LastIsDrawn` | packages/dealer-deck/src/shuffle.ts:10-20 | a shuffle is drawing without replacement: its last card is the one its index draws, and the cards before it are the shuffle of those left |
| `Shuffle.AcceptedWordsAreEven` | packages/dealer-deck/src/csprng.ts:69-80 | rejection sampling: each residue has exactly floor(2^32 / bound) accepted words |
| `Shuffle.ShuffleIsFair` | packages/dealer-deck/src/shuffle.ts:10-20 | for every permutation the sequences of accepted words producing it are equally many |
| `Shuffle.RemaindersFavourSmall` | packages/game-rules/src/cards.ts:36-39 | plain remainders, as the engine's own shuffle draws them, give residues below 2^32 mod bound one word more |
| `Shuffle.RemaindersEvenIff` | packages/game-rules/src/cards.ts:36-39 | so they are even iff the bound divides 2^32 |
| `Shuffle.PlainIsFairIff` | packages/game-rules/src/cards.ts:27-41 | a shuffle by plain remainders gives all permutations equally many word sequences iff every bound 2..n divides 2^32, which is for n <= 2 |
| `Cards.ShuffleDeck` | packages/game-rules/src/cards.ts:27-41 | the descending loop over counter words gives ShuffledDeck |
| `Cards.EngineShuffleIsUnfair` | packages/game-rules/src/cards.ts:27-41 | two orders of the 52 cards that different, positive numbers of word sequences make shuffleDeck return |
| `Cards.FirstWordDrawsLast` | packages/game-rules/src/cards.ts:27-41 | the first word draws the last card of the deck |
| `Dealer.HandSeedCsprng.NextUint32` | packages/dealer-deck/src/csprng.ts:47-63 | successive calls read the block stream word by word, refilling every eight words |
| `Dealer.WordsSpellBlocks` | packages/dealer-deck/src/csprng.ts:47-63 | byte by byte, most significant first, the words spell out the blocks |
| `Dealer.WordsCompareBytewise` | packages/dealer-deck/src/csprng.ts:53-59 | words compare as their four bytes do, first byte first |
| `Dealer.HandSeedCsprng.UniformBelow` | packages/dealer-deck/src/csprng.ts:69-80 | invalid bounds are refused, bound 1 draws nothing, otherwise the first word below the limit decides, whenever there is one |
| `Dealer.ShuffleDeckV2` | packages/dealer-deck/src/shuffle.ts:10-20 | array shuffle driven by the generator gives Deal, whenever the samples end |
| `Dealer.FirstBelowIsFirst` | packages/dealer-deck/src/csprng.ts:76-79 | the accepted word is the first below the limit |
| `FairDeal.DealsIffListDeals` | packages/dealer-deck/src/shuffle.ts:10-20 | a deck is dealt from a stream iff it is dealt from one of its finite prefixes |
| `FairDeal.DealReadsAccepted` | packages/dealer-deck/src/shuffle.ts:10-20 | the dealt deck is the Fisher-Yates image under the words kept of the stretch read: one accepted word for each round |
| `FairDeal.FirstAcceptedDrawsLast` | packages/dealer-deck/src/shuffle.ts:10-20 | the last card of a dealt deck is drawn by the first word below the limit, modulo the number of cards |
| `FairDeal.StreamIsFair` | packages/dealer-deck/src/shuffle.ts:10-20 | for every length, any two permutations are dealt from equally many sequences of that many words, rejected words included |
| `FairDeal.DeckIsDealtFairly` | packages/dealer-deck/src/shuffle.ts:10-20 | in particular any two orders of the 52 cards |
| `FairDeal.DealtDeckIsPermutation` | packages/dealer-deck/src/shuffle.ts:10-20 | a dealt deck is a permutation of 0..51 |
| `Dealer.PatienceDoesNotMatter` | packages/dealer-deck/src/csprng.ts:76-79 | how many words a sample may take never changes a deck that was dealt |
| `Dealer.AssertValidDeck` | packages/dealer-deck/src/shuffle.ts:23-35 | the seen-array loop accepts exactly decks of 52 distinct codes in range |
| `Dealer.ValidDecksArePermutations` | packages/dealer-deck/src/shuffle.ts:23-35 | which are exactly the permutations of 0..51 |
| `Merkle.BuildLayers` | packages/protocol-vectors-ts/src/merkle.ts:6-22 | padding and pairing loops give the root and all layers |
| `Merkle.MerkleRootIsTree` | packages/protocol-vectors-ts/src/merkle.ts:6-22 | the root built layer by layer is the one built half by half from the top, over the leaves filled up with zeros to the least power of two; zero for no leaves |
| `Merkle.AndTestsPowers` | crates/protocol-vectors-rs/src/lib.rs:236-238 | the bit test n & (n - 1) vanishes exactly at powers of two |
| `Merkle.MerkleProof` | packages/protocol-vectors-ts/src/merkle.ts:24-37 | the proof loop gives the sibling path |
| `Merkle.VerifyMerkleProof` | packages/dealer-deck/src/deck.ts:32-44 | the running hash decides acceptance |
| `Merkle.PathAccepted` | packages/dealer-deck/src/deck.ts:32-44 | the sibling path of every position is accepted |
| `Merkle.FullDepthBinds` | packages/dealer-deck/src/deck.ts:32-44 | with an injective pair hash, an accepted full-depth proof opens exactly the leaf its directions name, with exactly that leaf's path |
| `Merkle.MerkleRootBinds` | crates/protocol-vectors-rs/src/lib.rs:231-250 | equally long leaf lists with equal roots are equal |
| `Merkle.AcceptedIsFullDepth` | packages/dealer-deck/src/deck.ts:32-44 | if leaves and padding are no pair hashes, acceptance forces full depth |
| `Merkle.OpenCard` | packages/dealer-deck/src/deck.ts:46-65 | opens exactly in-range positions against the deck's own root, with the card, salt and an accepted proof; each error iff its condition |
| `Merkle.OpeningsBind` | crates/protocol-vectors-rs/src/lib.rs:402-413 | against the root of a committed deck a full-depth opening can only reveal the hand, position, card and salt committed there |
| `Merkle.AnyLengthOpeningsBind` | packages/dealer-deck/src/deck.ts:32-44 | the same for proofs of any length under domain separation |
| `Merkle.DeckRootBinds` | packages/dealer-deck/src/deck.ts:12-25 | equal roots of equally large decks mean the same hand, cards and salts |
| `Merkle.SchemesExist` | packages/dealer-deck/src/deck.ts:12-44 | the conditions binding asks of leaf and pair hash can be met: a scheme of free terms binds and separates domains |
| `EventChain.EventHashChain.Append` | packages/event-store/src/store.ts:58-131 | accepted exactly for the right segment, a known type, a valid actor and the next sequence number and link if given; the row then carries, field by field, what was handed in; otherwise the first failing check is named and nothing changes; the chain still verifies, also one reloaded with rows of another segment |
| `EventChain.AppendKeepsClean` | packages/event-store/src/store.ts:58-131 | an accepted append keeps the chain verifying |
| `EventChain.BuiltIsClean` | packages/event-store/src/store.ts:58-188 | every chain built by appends verifies and holds one session and epoch |
| `EventChain.CleanIsBuilt` | packages/event-store/src/store.ts:58-188 | and within a segment every chain that verifies could have been appended |
| `EventChain.VerifyRows` | packages/event-store/src/store.ts:134-189 | the verify loop reports every issue in order, and none iff every row is in order |
| `EventChain.FaultsAreNamed` | packages/event-store/src/store.ts:134-189 | every fault of a row is reported under its own name with the row's number, and nothing else is |
| `EventChain.FromStored` | packages/event-store/src/store.ts:226-253 | reload succeeds iff the rows verify, returns them unchanged, and otherwise reports the first issue |
| `EventChain.SameTipSameEvents` | packages/event-store/src/store.ts:134-189 | with an injective, never-zero hash, verified chains with the same tip hold the same events |
| `EventChain.SidecarIsUncommitted` | packages/event-store/src/store.ts:115-126 | resultingStateHash and the time of writing can change under the same tip |
| `EventChain.CodecsExist` | packages/event-store/src/store.ts:134-189 | an injective, never-zero event hash exists |
| `EventChain.VerifyEvents` | packages/event-store/src/store.ts:257-292 | the standalone verifier accepts iff sequence numbers, recomputed links and stored hashes hold |
| `EventChain.VerifyTranscript` | crates/poker-replay/src/event_chain.rs:118-268 | the Rust loop reports exactly the issues of each event in order, then those of tip and proposal; none iff the chain is non-empty and links, actors, stored hashes, expected tip and proposal hold |
| `EventChain.TranscriptFaultsAreNamed` | crates/poker-replay/src/event_chain.rs:118-268 | the same for the Rust verifier's events, tip and proposal |
| `EventChain.VerifiersAgree` | crates/poker-replay/src/event_chain.rs:118-268 | for all rows: the class accepts iff there are none, or the Rust verifier accepts and types are known, seats fit a byte and bytes match; and iff the standalone verifier reports nothing and actors, types, seats and bytes are in order |
| `MatchLock.AtMostOneInside` | packages/database/src/onchain-match.ts:294-312 | in every interleaving at most one caller of a key is inside |
| `MatchLock.EntersInArrivalOrder` | packages/database/src/onchain-match.ts:294-312 | for any run and interleaving: when a caller can enter or has entered, every caller of the same key that was in an earlier state of the run without it is done |
| `MatchLock.BehindIffLater` | packages/database/src/onchain-match.ts:294-312 | a caller awaits another, directly or through others, iff the other one of the same key arrived first |
| `MatchLock.FinishEnablesNext` | packages/database/src/onchain-match.ts:308-311 | a finish, failed or not, lets the next waiter in at once |
| `MatchLock.SomebodyMoves` | packages/database/src/onchain-match.ts:294-312 | while somebody waits, somebody of the same key is inside or can enter |
| `MatchLock.CleanupNeverFires` | packages/database/src/onchain-match.ts:310 | the stored promise is never the caller's gate, so the entry is not deleted |
| `MatchLock.EntriesAreNeverDeleted` | packages/database/src/onchain-match.ts:295-310 | over every run the map only grows |
| `MatchLock.Matchmaking.Enqueue` | packages/database/src/onchain-match.ts:295-304 | the piece up to the first await |
| `MatchLock.Matchmaking.Release` | packages/database/src/onchain-match.ts:308-311 | the finally block |
| `Epochs.PlanEpochBoundary` | packages/database/src/epoch-rotation.ts:167-273 | the loop over sorted changes gives the boundary plan |
| `Epochs.EmptySeatIndices` | packages/database/src/epoch-rotation.ts:154-161 | free seats in ascending order |
| `Epochs.BoundaryKeepsSeats` | packages/database/src/epoch-rotation.ts:167-273 | owners and seats stay distinct and in range, and the next table is in ascending order of seats |
| `Epochs.BoundaryDecidesOnce` | packages/database/src/epoch-rotation.ts:167-273 | each due change is applied or rejected, as often as it is due |
| `Epochs.SortPermutes` | packages/database/src/epoch-rotation.ts:179-188 | sorting loses and invents no change |
| `Epochs.SortSorts` | packages/database/src/epoch-rotation.ts:179-188 | leaves come before top-ups before joins, each by request order |
| `EpochStacks.BoundaryIsExact` | packages/database/src/epoch-rotation.ts:190-261 | for any queue, every owner ends exactly where the changes the plan lists as applied put it: seat, stack and all-in flag |
| `EpochStacks.BoundaryBalances` | packages/database/src/epoch-rotation.ts:190-261 | table chips change exactly by cashed-out stacks, top-ups and buy-ins |
| `EpochStacks.AllInNeverVacates` | packages/database/src/epoch-rotation.ts:196-211 | an all-in player keeps the seat whatever was queued |
| `EpochStacks.TurnedAwayOnlyFromFullTable` | packages/database/src/epoch-rotation.ts:230-259 | a join fails for want of a seat only if the table ends up full |
| `EpochOutcomes.LeaveOutcome` | packages/database/src/epoch-rotation.ts:196-211 | a leave is applied exactly to a seated player who is not all-in, who is then gone; each refusal has its reason; nobody else is touched |
| `EpochOutcomes.TopUpOutcome` | packages/database/src/epoch-rotation.ts:213-228 | a top-up is applied exactly to a seated player with a positive amount, which the stack grows by; nobody else is touched |
| `EpochOutcomes.JoinIsSeated` | packages/database/src/epoch-rotation.ts:230-261 | a join is applied exactly to an owner without a seat with a positive amount while a seat is free: at the seat asked for if that one is in range and free, otherwise at the lowest free one |
| `EpochOutcomes.SeatedOutcome` | packages/database/src/epoch-store.ts:226-273 | on every run a boundary lets a seated player go exactly if a leave is pending and the player is not all-in; anybody else keeps the seat, with all pending top-ups added |
| `EpochOutcomes.JoinerOutcome` | packages/database/src/epoch-store.ts:226-273 | on every run a pending join ends with its player seated for the buy-in, at the seat asked for unless somebody else has it and with no free seat below otherwise, or with every seat taken |
| `EpochOutcomes.StrangersStayOut` | packages/database/src/epoch-store.ts:226-273 | nobody else is seated |
| `EpochOutcomes.RowsTellOutcome` | packages/database/src/epoch-store.ts:200-224 | a boundary opens the next epoch and marks each pending row applied or rejected by what came of it, and no other row |
| `EpochOutcomes.RequestIsAcceptedIff` | packages/database/src/epoch-rotation.ts:103-152 | exactly which leaves, top-ups and joins are accepted, by who sits and what is pending |
| `EpochOutcomes.RequestIsQueuedAsMade` | packages/database/src/epoch-store.ts:145-198 | an accepted request under a new key is queued as made, for the next epoch if a hand is on; under a used key nothing is queued and the row of that key is shown |
| `EpochRuns.RunKeeps` | packages/database/src/epoch-store.ts:113-273 | over any run of validated enqueues, withdrawn leaves, hands and boundaries, owners and seats stay distinct and in range, ids and keys stay distinct, and pending changes stay valid and due |
| `EpochRuns.PendingIsDecidedOnce` | packages/database/src/epoch-store.ts:226-273 | on runs the next boundary decides each pending change exactly once |
| `EpochRuns.NothingStaysPending` | packages/database/src/epoch-store.ts:226-273 | so nothing stays pending across it |
| `EpochRuns.RunsRejectOnlyExcused` | packages/database/src/epoch-rotation.ts:103-152 | on runs a boundary rejects only all-in leaves, top-ups of owners who just left, and joins at a full table |
| `EpochRuns.AcceptedIsDecidedIff` | packages/database/src/epoch-store.ts:145-198 | an accepted request without a key of its own is decided at the boundary iff it is no leave whose owner withdrew one in the same epoch and phase; otherwise nothing is queued |
| `EpochRuns.AcceptedIsQueuedIff` | packages/database/src/epoch-store.ts:161-186 | it joins the queue iff it is neither that nor a repeated top-up |
| `EpochRuns.LostLeaveRun` | packages/database/src/epoch-store.ts:113-273 | a run in which a leave is accepted, withdrawn and accepted again, and the player is still seated after the boundary |
| `Ledger.LedgerStore.Post` | packages/database/src/ledger.ts:128-167 | refuses non-positive amounts, ignores a used key, otherwise writes both entries |
| `Ledger.LedgerStore.RebalanceEscrowToStacks` | packages/database/src/ledger.ts:254-287 | the loop, with its rounding to whole dollars, gives Rebalanced; stopping early leaves a prefix of it |
| `Ledger.RunsAreZeroSum` | packages/database/src/ledger.ts:128-167 | over every run each mode's entries sum to zero |
| `Ledger.RetryResumes` | packages/database/src/ledger.ts:254-287 | starting over after some changes continues where the further attempt got |
| `Ledger.RetriesAreIdempotent` | packages/database/src/ledger.ts:254-287 | however often cut short, a complete retry ends as one run would |
| `Ledger.RebalanceIsZeroSum` | packages/database/src/ledger.ts:254-287 | every prefix of a rebalance keeps each mode's entries zero-sum |
| `Ledger.RebalanceKeys` | packages/database/src/ledger.ts:254-287 | a rebalance uses up exactly the keys of the changes it posts: one for losses and another for wins, by hand and player |
| `Ledger.LedgerStore.PostHand` | services/game-server/src/table-runtime.ts:3486-3503 | rake first, then the rebalance, gives HandPosted |
| `Ledger.EscrowFollowsStackIff` | packages/database/src/ledger.ts:254-287 | after rake and rebalance an escrow is off by exactly the rounding error; one that equalled its stack equals the new stack iff the change is whole dollars |
| `Ledger.EscrowErrorsAddUp` | packages/database/src/ledger.ts:254-287 | over any series of posted hands the errors of an escrow add up |
| `Ledger.ClearingIsUnchangedIff` | packages/database/src/ledger.ts:217-287 | for a chip-conserving hand clearing is unchanged iff the rounding errors of the escrowed seats add up to what seats without an escrow won; rake income gains the rake to the cent |
| `Ledger.ClearingErrorsAddUp` | packages/database/src/ledger.ts:217-287 | over any series of chip-conserving hands clearing moves by what seats without an escrow won minus all rounding errors, and rake income gains every rake to the cent |
| `HandLedger.HandKeepsEscrowIff` | services/game-server/src/table-runtime.ts:3813-3837 | one hand the engine plays, posted with its rake: an escrow that equalled its stack equals it again iff the player won or lost whole dollars |
| `HandLedger.PlayedHandsKeepEscrowIff` | services/game-server/src/table-runtime.ts:3813-3837 | any run between two resting states, each of its hands posted under its own id: an escrow moves away from its stack by the sum of the hands' rounding errors, at most half a dollar each, and equals it again iff that sum is 0 |
| `HandLedger.PlayedHandsBalanceIff` | services/game-server/src/table-runtime.ts:3813-3837 | clearing moves by what seats without an escrow won minus the rounding errors of all seats and hands, so it is where it was iff these are equal; rake income gains what the session's rake gained |
| `HandLedger.RoundingBreaksTheBooks` | packages/game-rules/src/money.ts:67-69 | for every m, a legal run of m hands, for any deck, after which both escrows are 50 cents times m above their stacks and clearing is m dollars short, though for even m the stacks are those of the start |
| `Players.PlayersStay` | packages/game-rules/src/holdem.ts:353-995 | between any two states of a run nobody changes seats or sits in or out, and session rake never shrinks |

## Left out

- Events, labels, private and public views, hand ids and seeds of the engine: they do not feed back into the state.
- `foldSeat`, `setSitOut`, `clearSeat`, `seatPlayer` during a hand: they do not advance the acting seat, and what the host does next is outside the engine.
- Rake percentages as floating point: the model starts from basis points.
- The fallback button when no seat qualifies: unreachable with two players and vacant seats sitting out.
- `allocateSidePotRake`, rake clawback and the profit-based session fees of rake.ts: not used by the engine's settlement.
- RustSettlement.SettleShowdown: saturation at the ends of the 64-bit chip type and a negative rake cap are left out, and likewise in `RustMoves`.
- The Rust hand evaluator, shuffle and events: the evaluator is taken to rank as the TypeScript one, and decks are parameters.
- Dealer.UniformBelow: promises a result only on streams on which the sample ends, since the loop of the source has no bound and a stream of rejected words keeps it going forever.
- Dealer.ShuffleDeckV2: likewise.
- That keccak blocks and HMAC words are uniform: fairness counts word sequences.
- The forced test stream of the generator, and the hash that fills its blocks.
- Host.TableRuntime.PlayHand: timers, cancellations, failures of persistence, seat changes between hands, and the hand number the catch reads back from the database are not modelled.
- Merkle.OpeningsBind: `verifyMerkleProof` does not check the proof's length, so full depth is a condition; `AnyLengthOpeningsBind` replaces it by domain separation.
- Event payload JSON and ciphertext, and the session and epoch of reloaded rows, which `verify` does not compare.
- The hex spelling of hashes: values are compared.
- Idempotency keys of seat changes and transfers are structured values, not strings; the payload a repeated request replaces is not modelled.
- Floating point: ledger amounts are exact hundredths, so a difference of two amounts that lies exactly on a half dollar but is computed just below it is not modelled. Amounts in epochs are integers, and request order is a number instead of collated times.
- `lockBuyIn`, `releaseSession`, `fakeDeposit`: single transfers after a balance query.
- HTTP, SQL, signing, chain access, equity and range estimation, ratings, admin and web code.
