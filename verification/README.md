# Exact money, books and capture: a verified model

This project models the parts of the event-market engine whose correctness is arithmetic or
state-machine reasoning, and proves the properties the engine relies on.

* **Cost and sizing.** Fees rounded up and aligned to a balance quantum with a running rebate
  (`ExecutionCost`, `Reservation`), the reference walk of a depth (`DepthWalk`), the optimum and its
  linear bound (`PairOptimum`), the two-leg branch-and-bound search (`NetSizing`) and the three-leg
  enumeration with incremental cursors (`BasketSizing`).
* **Simulated execution.** Liquidity that earlier simulated orders have consumed (`LiquidityWalk`),
  first-in first-out lots (`LotAccounting`, `StudyPositions`), the books of the lifecycle simulation on
  values (`StudyLedger`), what its next event leads to and what it decides (`StudyOutcome`,
  `StudyDecision`), the simulation itself (`ExecutionStudy`), one scenario of the three-leg study
  (`BasketExecution`) and the passive queue (`PassiveQueue`). `StudyRules` and `BasketRules` say in
  plain terms what the steps of both studies come to; `StudyRun` and `BasketRun` hold the runs behind
  the first and third finding below.
* **Market state.** Order books (`OrderBook`), connection generations and shared streams
  (`MarketState`), the incremental candidate index (`CandidateTracker`); `Contracts` names legs,
  physical price levels and what depends on a market.
* **Capture.** The single-producer single-consumer ring as interleaved steps (`AsyncCapture`), the
  record codec (`JournalCodec`), its CRC-32 (`Checksum`), the framed journal (`RawJournal`) and their
  bytes (`JournalFormat`).
* **Observation.** The depth that a basket is sized on (`ObservedDepth`), what an update uses up
  (`ObservedBudget`), interval accounting per basket and for their union (`BasketObservation`), and
  both in plain terms (`ObservationRules`).

Amounts are unbounded integers. Where the width matters it is explicit: unsigned intermediates of the
fee arithmetic, of a lot's share and of the sizing search are of the types `uint64` and `int64`, lemmas
bound the others, and codec and checksum use bit-vectors.
Objects that the engine updates in place are classes; each method is related to a function of the old
state, and the theorems are about those functions and the invariants. Exceptions are values of a
`Fault` or `Error` datatype. Every guard that throws is in the code; where it can never decide, the
contract excludes its fault. Books, latencies, market observations, settlements and the outcomes of
the session's writer are parameters, so the theorems hold for all of them.

Findings about the code, each with its exact condition:

* `ExecutionStudy.Simulation.OptimalQuote` faults on its sizing input exactly when the available cash
  exceeds 10^15 microdollars. Settlement compares its payout with the available cash alone, so
  reservations released later can push the cash above that limit. `StudyRuns.CashAboveLimit` is a run
  from a new simulation in which a market settles before the response that releases the rest of a
  reservation, and the next decision faults; `StudyLedger.AvailableWithinLimit` is the same condition
  in terms of the other accounts.
* An observation's end fails on an interval clock exactly when it is earlier than an expiry that an
  earlier callback has accounted at the deadline (`BasketObservation.Observation.Finish`); ends not
  before any earlier callback never fail so. The run `ExpiryThenEarlierEnd` is an input of the class
  interface only: both drivers (src/session/replay.cpp:146-209 and
  src/transport/readonly_capture.cpp:124 and 182) end at a time not before any earlier callback.
* An unwound basket attempt is classified by its cost. An attempt that bought at a price of zero only
  counts as empty, and its proceeds are missing from the unwinding result. The cash differs from what
  the results account for if and only if some finished attempt bought at a price of zero only and a sale
  of it credited something (`BasketExecution.Scenario.UnwindingMisses`); `BasketRuns.FreeAttempt` is a run
  that ends with 300,000 microdollars more than its capital, one empty attempt and an unwinding result
  of zero.

## Model

| member | source | states |
|---|---|---|
| ExecutionCost.CeilProduct | src/core/execution_cost.cpp:12-42 | the rounded-up quotient of any 64-bit product by 10^10 exactly when it fits a signed 64-bit integer and nothing otherwise, on the direct and the bitwise path, with every intermediate in 64 bits |
| ExecutionCost.CeilProductByBits | src/core/execution_cost.cpp:20-41 | the bitwise path alone is exact, or too large exactly when the result is |
| ExecutionCost.FillMeaning | src/core/execution_cost.cpp:65-77 | a fill's change is a whole number of quanta, at least (buy) or at most (sell) its notional; the rebate is the largest multiple of the quantum the outstanding rounding and the fill's own fees allow, so the fee paid is never negative |
| ExecutionCost.FillSpelledOut | src/core/execution_cost.cpp:46-78 | a fill's amounts in plain numbers: notional q p, the trade fee the least n/10^10 rounded up for n = q k p (10,000 - p), the rounding below a quantum, the rebate the most whole quanta of rounding and fees, and the change from them |
| ExecutionCost.SellFeeWithinRevenue | src/core/execution_cost.cpp:60-64 | a sale's fee never exceeds its revenue, so that guard cannot decide |
| ExecutionCost.SellCreditNonNegative | src/core/execution_cost.cpp:65-77 | a sale never credits less than nothing |
| ExecutionCost.FillOrder | src/core/execution_cost.cpp:46-78 | succeeds exactly when every amount is representable, yields those amounts and advances the accumulator, and otherwise leaves it alone; the trade fee is q k p (10,000 - p) / 10^10 rounded up |
| ExecutionCost.RoundFill | src/core/execution_cost.cpp:65-77 | the rounding and rebate half, with its overflow guards decided exactly |
| ExecutionCost.ChargeBuyFill | src/core/execution_cost.cpp:81-86 | the buy instance of a fill, with its trade fee and debit in plain numbers |
| ExecutionCost.CreditSellFill | src/core/execution_cost.cpp:87-92 | the sell instance of a fill, with its trade fee and credit in plain numbers |
| Reservation.OrderTotals | src/core/execution_cost.cpp:46-78 | over any fills of one order, cash = notional plus (buy) or minus (sell) trade fees and outstanding rounding, and is a whole number of quanta |
| Reservation.FreshOrderTotals | src/core/execution_cost.cpp:46-78 | the same from a new accumulator: total debit = total notional + total trade fees + final accumulator |
| Reservation.ReservationExists | src/core/net_sizing.cpp:208-218 | a reservation exists for every supported quantity and is at most 3 * 10^12 |
| Reservation.ReservationSpelledOut | src/core/net_sizing.cpp:208-218 | when a reservation exists and what it is in plain numbers: the limit price and the fee at 50 cents on the whole quantity, and a quantum and a microdollar for every step |
| Reservation.DebitWithinReservation | src/core/net_sizing.cpp:208-218 | however a buy of at most q is fragmented into step multiples at prices no worse than the limit, its debit is at most the reservation for q |
| Reservation.ReserveMonotone | src/core/basket_sizing.cpp:93-95 | reservations grow with size and limit |
| DepthWalk.AcquireMonotone | src/core/net_sizing.cpp:80-91 | coverage and worst price are monotone in the quantity, which makes funding monotone |
| DepthWalk.CoverageIsDepth | src/core/net_sizing.cpp:31-47 | a leg covers exactly the quantities up to its whole depth on the grid |
| DepthWalk.AcquireIsGreedy | src/core/net_sizing.cpp:31-47 | what a leg costs is what the greedy fills of its levels cost, each level in whole steps and to its end before the next, and its limit is the price of the last level used |
| DepthWalk.DebitWithinQuote | src/core/net_sizing.cpp:139-185 | every quoted leg costs at most its reservation |
| PairOptimum.NoMarginAtADollar | src/core/net_sizing.cpp:69-72 | when the best prices sum to a dollar no quantity has a positive margin |
| PairOptimum.LegIdentity | src/core/net_sizing.cpp:172-177 | debit = exact linear cost + outstanding rounding + the fee's ceiling error |
| PairOptimum.UpperFromMargin | src/core/net_sizing.cpp:165-177 | the reported bound is the floor of the unrounded margin |
| PairOptimum.SegmentBound | src/core/net_sizing.cpp:186-193 | between two evaluated quantities no margin exceeds the bound at the end that the slope points to |
| PairOptimum.SearchFitsInt64 | src/core/net_sizing.cpp:94-177 | slope and its terms, remainder products, margins, reservations, rounding sums, upper bounds, ceiling-error sums and prefix sums fit 64 bits |
| NetSizing.Cursor.Seek | src/core/net_sizing.cpp:31-34 | stops at the first level with something on the grid, without changing the prefix |
| NetSizing.Cursor.Advance | src/core/net_sizing.cpp:36-46 | charges a whole level onto the prefix ledger and always succeeds |
| NetSizing.Search.EvaluateLeg | src/core/net_sizing.cpp:150-171 | quotes exactly the leg of a from-scratch walk |
| NetSizing.Search.CeilError | src/core/net_sizing.cpp:166-170 | the fee ceiling error from a remainder whose factors are reduced first, in unsigned 64-bit arithmetic |
| NetSizing.Search.Sum | src/core/net_sizing.cpp:172-177 | margin, reservation and upper bound in signed 64-bit arithmetic without overflow |
| NetSizing.Search.SlopeOf | src/core/net_sizing.cpp:94-100 | the slope of the unrounded margin in signed 64-bit arithmetic without overflow |
| NetSizing.Search.Evaluate | src/core/net_sizing.cpp:139-185 | evaluates one quantity exactly, keeps the better of it and the best so far, or reports the spent budget |
| NetSizing.Search.Interval | src/core/net_sizing.cpp:186-198 | after a bisection or a pruning no quantity between the ends beats the best |
| NetSizing.Search.LastFunded | src/core/net_sizing.cpp:80-91 | the binary search finds the last funded quantity of a segment |
| NetSizing.Search.SearchSegment | src/core/net_sizing.cpp:93-105 | settles every quantity of one segment of constant prices |
| NetSizing.Search.SearchFrom | src/core/net_sizing.cpp:77-113 | settles every quantity from a segment start to the cap |
| NetSizing.Search.Conclude | src/core/net_sizing.cpp:114-123 | the status distinguishes no depth, no cash and no margin exactly |
| NetSizing.Search.Run | src/core/net_sizing.cpp:63-124 | a run answers for its depths and limits: the optimum, or why there is none |
| NetSizing.SizeBuyPair | src/core/net_sizing.cpp:220-233 | for every validated input: the greatest margin, then the least reservation, then the least quantity over all covered and funded grid quantities above the minimum margin; no quote with budget left means no such quantity; no depth and no cash exactly; at most min(budget, cap/step) evaluations and a spent budget only below cap/step; never an arithmetic error; invalid input exactly when validation fails |
| NetSizing.AnswerSpelledOut | src/core/net_sizing.cpp:63-124 | what that answer means: the quote is a funded grid quantity above the minimum margin, with legs as bought level by level and reserved; every other one has a smaller margin, or the same and a larger reservation, or both the same and a larger quantity; when there is no depth and no cash |
| BasketSizing.CostCursor.At | src/core/basket_sizing.cpp:20-41 | for increasing quantities the incremental cursor returns exactly the leg of a from-scratch walk |
| BasketSizing.FundingMonotone | src/core/basket_sizing.cpp:93-95 | coverage and total reservation are monotone |
| BasketSizing.UnfundedEndsSearch | src/core/basket_sizing.cpp:93-95 | the early break loses no funded size |
| BasketSizing.SizesMeaning | src/core/basket_sizing.cpp:70-95 | a size is evaluated exactly when it is covered and the size before it, if any, is funded |
| BasketSizing.SizeBuyBasket | src/core/basket_sizing.cpp:45-108 | the optimum over all funded whole-contract sizes, the exact reason when there is none, exactly how many sizes are evaluated, a spent budget exactly when there are more sizes than it, never an arithmetic error |
| BasketSizing.AnswerSpelledOut | src/core/basket_sizing.cpp:45-108 | what that answer means for three legs and a floor of two dollars |
| LotAccounting.SplitShareIsFloor | src/session/study_positions.hpp:107-108 | the split quotient equals floor(debit * take / quantity) |
| LotAccounting.CloseConserves | src/session/study_positions.hpp:98-120 | quantity and cost are split exactly between what is closed and what is left |
| LotAccounting.CloseAllReleasesAll | src/session/study_positions.hpp:83-84 | closing everything releases all cost |
| LotAccounting.FifoSpelledOut | src/session/study_positions.hpp:98-120 | closing whole oldest lots and part of the next gives up all their cost and the floor of its share, each at its own age, and leaves the rest in order |
| StudyPositions.CapitalTime.Add | src/session/study_positions.hpp:13-28 | adds cash times nanoseconds exactly, fails exactly on a negative input or when the seconds leave 64 bits, and no intermediate overflows |
| StudyPositions.StudyPositions.constructor | src/session/study_positions.hpp:45-47 | empty positions, one per leg of every attempt |
| StudyPositions.StudyPositions.QuantityIsHeld | src/session/study_positions.hpp:39-43 | a position's quantity is the sum of its open lots |
| StudyPositions.StudyPositions.Acquire | src/session/study_positions.hpp:48-61 | appends one lot to exactly one chain, or fails exactly on its bound |
| StudyPositions.StudyPositions.CloseLots | src/session/study_positions.hpp:102-117 | the loop over the chain releases the shares of first-in first-out accounting; its two accounting guards never decide; the fault is exactly that of the first lot whose share cannot be added to the capital time |
| StudyPositions.StudyPositions.ShareOf | src/session/study_positions.hpp:107-108 | the share of a split lot in unsigned 64-bit arithmetic without overflow |
| StudyPositions.StudyPositions.ClosePosition | src/session/study_positions.hpp:98-120 | closes oldest lots first, releases floor shares, conserves cost, leaves every other position alone; faults exactly on an unowned quantity or on the first lot whose share cannot be added to the capital time |
| StudyPositions.StudyPositions.Close | src/session/study_positions.hpp:67-70 | the same for a leg of an attempt |
| StudyPositions.CloseFaultMeaning | src/session/study_positions.hpp:98-120 | a close succeeds exactly when every lot that it takes was acquired by then and their capital time fits; it fails on a negative time exactly when a lot that it takes was acquired later and the capital time of the lots before it fits |
| StudyPositions.StudyPositions.Settle | src/session/study_positions.hpp:72-86 | closes exactly the positions of one market and pays a dollar per winning contract; the fault is that of the first position that breaks a bound, and none exactly otherwise |
| StudyPositions.StudyPositions.SettleOne | src/session/study_positions.hpp:75-85 | closes and pays one position of the market, with its exact fault |
| StudyPositions.SettleFaultMeaning | src/session/study_positions.hpp:72-86 | a settlement succeeds exactly when its total quantity fits 64 bits, its total payout is within 10^15 and its capital time does not overflow |
| StudyPositions.PayoutSpelledOut | src/session/study_positions.hpp:75-82 | who is paid: the payouts under the two outcomes sum to a dollar per settled contract; positions with only the losing outcome are paid nothing, those with only the winning one in full |
| StudyPositions.SettlementAdds | src/session/study_positions.hpp:72-86 | what one more position adds to a settlement: its contracts, their payout if they win, its capital time, and that it is emptied, exactly if it is on the market |
| StudyPositions.StudyPositions.Finish | src/session/study_positions.hpp:87-91 | the capital time is the exact time integral of held cost, however it was cut into lots |
| LiquidityWalk.FillFits | src/session/execution_study.cpp:249-258 | a fill is a step multiple within the order, and with earlier consumption within the displayed level |
| LiquidityWalk.SharedKey | src/session/execution_study.cpp:247-250 | selling an outcome depletes the same physical level as buying its complement |
| LiquidityWalk.TakesWithin | src/session/execution_study.cpp:243-292 | all fills are positive step multiples within the limit and together within the order |
| LiquidityWalk.WalkSpelledOut | src/session/execution_study.cpp:243-258 | what every walk takes, by displayed quantities, earlier consumption, share and step: an executed order at most its share of what is left at a level, within limit and order; and every acceptable level all whole steps of its share before a later one is used and while a step of the order is open |
| LiquidityWalk.ConsumedSpelledOut | src/session/execution_study.cpp:249-258 | an executed order adds what it takes at a physical level to that level's consumption, and a quote nothing |
| LiquidityWalk.ExecutedSpelledOut | src/session/execution_study.cpp:259-294 | what the takes come to: quantity, notional, debit or credit with all fees and the outstanding rounding, worst price |
| LiquidityWalk.ConsumedWithinDisplay | src/session/execution_study.cpp:249-258 | cumulative consumption at a physical level never passes what it displays |
| LiquidityWalk.BuyWithinReservation | src/session/execution_study.cpp:609 | a simulated buy never costs more than its reservation |
| LiquidityWalk.SaleCredit | src/session/execution_study.cpp:259-264 | a simulated sale credits between nothing and its notional, at no worse than its limit |
| StudyLedger.InsertKeepsOrder | src/session/execution_study.cpp:63-70 | the event queue stays ordered by time, order and arrival before response |
| StudyLedger.BuyArrivedKeeps | src/session/execution_study.cpp:604-615 | an executed buy keeps the books consistent: sums per account, one reservation per waiting order, hedge bounds, conservation |
| StudyLedger.BuyAnsweredKeeps | src/session/execution_study.cpp:579-584 | a response always finds its attempt waiting, releases exactly its reservation and keeps the books consistent |
| StudyLedger.SaleArrivedKeeps | src/session/execution_study.cpp:543-551 | an executed exit keeps the books consistent |
| StudyLedger.SaleAnsweredKeeps | src/session/execution_study.cpp:570-577 | an exit's response keeps the books consistent |
| StudyLedger.AcquisitionFinishedKeeps | src/session/execution_study.cpp:459-464 | ending the purchases releases the second reservation consistently |
| StudyLedger.CompletionSentKeeps | src/session/execution_study.cpp:486-494 | a funded completion order within what is missing keeps the books consistent |
| StudyLedger.ExitSentKeeps | src/session/execution_study.cpp:527-533 | an exit is the only sale of its attempt |
| StudyLedger.DecidedKeeps | src/session/execution_study.cpp:395-416 | a funded decision keeps the books consistent, parallel or sequential |
| StudyLedger.PaidKeeps | src/session/execution_study.cpp:501-504 | a settlement keeps the books consistent |
| StudyLedger.SubmitKeepsEvents | src/session/execution_study.cpp:451-454 | exactly one event waits for every unanswered order, none in the past |
| StudyLedger.ArrivalKeepsEvents | src/session/execution_study.cpp:593-619 | an arrival is replaced by the response of the same order |
| StudyLedger.ResponseKeepsEvents | src/session/execution_study.cpp:564-569 | a response takes the last event of its order |
| StudyLedger.AccountsHold | src/session/execution_study.cpp:445-450 | all components of the cash check are non-negative and bounded by three times the cash limit |
| StudyLedger.AllAnswered | src/session/execution_study.cpp:166-180 | with every order answered nothing is reserved and the available cash is exactly the final cash |
| StudyLedger.HedgeWithinAttempt | src/session/execution_study.cpp:469-495 | the second leg never passes the first in sequential execution, neither leg its decision; an exit follows the last purchase, is the only one, and sells of the leg that was bought more, at most what the other leg does not match |
| StudyLedger.AvailableWithinLimit | src/session/execution_study.cpp:324-340 | the sizing limit on the available cash in terms of the other accounts: settlements and answered sales less answered purchases exceed what the capital leaves below the limit plus the reservations |
| StudyRuns.CashAboveLimit | src/session/execution_study.cpp:501-503 | a run from a new simulation with the index that it builds, in which every call succeeds, the available cash becomes 10^15 + 100 and the next decision faults on its sizing input |
| StudyRuns.MarketsFollow | src/market/market_state.cpp:40-52 | the markets of that run are those of a connection that has received three snapshots |
| StudyOutcome.FaultIsBound | src/session/execution_study.cpp:553-621 | the next event faults only on a bound of the policy or of 64-bit values |
| StudyOutcome.StepDisplayed | src/session/execution_study.cpp:243-258 | a settlement, arrival or response leaves the consumption at every physical level unchanged or within what the book displays there |
| StudyOutcome.RunDisplayed | src/session/execution_study.cpp:553-621 | so does every run of due events on one state of the market |
| StudyDecisions.ObservedDisplayed | src/session/execution_study.cpp:99-127 | over any sequence of callbacks, while the market changes: the consumption at a physical level is what it was, or the callback that took it there found at least as much displayed |
| StudyRules.AttemptSpelledOut | src/session/execution_study.cpp:391-402 | an attempt is a pair that no other funded pair surpasses on what the books have left up to the cap, with the limits and reservations of its legs |
| StudyRules.DecisionSpelledOut | src/session/execution_study.cpp:402-416 | a decision sets both reservations aside and sends one order, or both when parallel, each due after its leg's latency |
| StudyRules.DecidableSpelledOut | src/session/execution_study.cpp:387-390 | a decision needs two recent books of unsettled markets |
| StudyRules.NextStep | src/session/execution_study.cpp:556-564 | a settlement comes before every event at its time or later; at equal times the older order comes first, and its arrival before its response |
| StudyRules.DueSpelledOut | src/session/execution_study.cpp:554-559 | before a time its events wait, at the end they do not; settlements at it never do |
| StudyRules.BuyArrives | src/session/execution_study.cpp:593-619 | what an arriving buy takes and books: its share of a usable book at its limit, as spent but unconfirmed, as fills of its attempt and as one lot; its response after the response latency |
| StudyRules.SaleArrives | src/session/execution_study.cpp:535-551 | what an arriving exit takes and books: the exit's share of no more than is held, out of the oldest lots, credited but unconfirmed |
| StudyRules.ArrivalUses | src/session/execution_study.cpp:249-258 | what an arrival uses up of the displayed levels, out of the policy's share or the exit's |
| StudyRules.ArrivalFaults | src/session/execution_study.cpp:597-619 | exactly what an arrival fails on, and in which order: 10^15 spent, received from exits or paid in their fees, the capital time, the clock of its response |
| StudyRules.BuyAnswers | src/session/execution_study.cpp:579-592 | a buy's response gives back what its reservation did not spend, and the attempt goes on with its completion or its exit |
| StudyRules.SaleAnswers | src/session/execution_study.cpp:570-577 | an exit's response makes its proceeds available |
| StudyRules.ResponseFaults | src/session/execution_study.cpp:570-592 | exactly what a response fails on: 10^15 available, or the clock of its follow-up order |
| StudyRules.SettlesSpelledOut | src/session/execution_study.cpp:496-507 | a settlement closes its market, empties its positions and pays them, and exactly what it fails on |
| StudyRules.CompletionSpelledOut | src/session/execution_study.cpp:469-495 | exactly when another completion order is sent, for what is unmatched of the first leg, and on which reservation; otherwise the second reservation is given back |
| StudyRules.ExitSpelledOut | src/session/execution_study.cpp:508-534 | exactly when an exit is sent, that it sells of the leg that was bought more what the other does not match and the book takes, and at which price |
| ExecutionStudy.Simulation.constructor | src/session/execution_study.cpp:73-97 | a new simulation holds its capital, every invariant and the index of its constraints |
| ExecutionStudy.Compile | src/session/execution_study.cpp:77-86 | orients the legs of every constraint and lists it under both of its markets and nowhere else, in the order of identities |
| ExecutionStudy.Simulation.Walk | src/session/execution_study.cpp:237-294 | fills best level first net of consumption with one accumulator, and consumes exactly that (see LiquidityWalk.WalkSpelledOut); its charge and liquidity guards never decide |
| ExecutionStudy.Simulation.ReserveFor | src/session/execution_study.cpp:295-300 | the reservation always exists |
| ExecutionStudy.Simulation.CheckCash | src/session/execution_study.cpp:445-450 | the conservation check never fails |
| ExecutionStudy.Simulation.Submit | src/session/execution_study.cpp:451-458 | one more order and its arrival event |
| ExecutionStudy.Simulation.Depth | src/session/execution_study.cpp:304-322 | sizing sees exactly the fills that a buy of the whole cap would take |
| ExecutionStudy.Simulation.OptimalQuote | src/session/execution_study.cpp:301-342 | the optimum of the remaining depths for the available cash or exactly why there is none, and no quote on a spent budget only below the grid; faults exactly when that cash exceeds 10^15 |
| ExecutionStudy.Simulation.Decide | src/session/execution_study.cpp:384-420 | either one attempt, at the optimum of what is left for the available cash, or the reason why not (a leg that cannot be bought now, what sizing found) and nothing changes; moves exactly its reservations; faults exactly on the sizing limit or the clock |
| ExecutionStudy.Simulation.SendLeg | src/session/execution_study.cpp:403-413 | one leg's reservation and order, or a clock overflow exactly then |
| ExecutionStudy.Simulation.FinishAcquisition | src/session/execution_study.cpp:459-468 | releases the second reservation and decides on the exit |
| ExecutionStudy.Simulation.CompleteSecond | src/session/execution_study.cpp:469-495 | sends another completion order exactly under the configured conditions, and otherwise ends the purchases; every fault exactly |
| ExecutionStudy.Simulation.PlanCompletion | src/session/execution_study.cpp:474-485 | quotes what is missing, and plans an order of exactly that quote exactly when time, order count, book, loss limit and cash allow one |
| ExecutionStudy.Simulation.ConsiderExit | src/session/execution_study.cpp:508-534 | decides once, after the last response, and sends at most the excess that is still owned; its two ordering guards never decide |
| ExecutionStudy.Simulation.SettleMarket | src/session/execution_study.cpp:496-507 | closes and pays one market; the state after and the fault are exactly those of the settlement, cash bounds included |
| ExecutionStudy.Simulation.ReceiveFill | src/session/execution_study.cpp:608-619 | charges an executed buy, books it as a lot and queues its response; faults exactly on the spending bound, the position bound and the clock |
| ExecutionStudy.Simulation.ReceiveSale | src/session/execution_study.cpp:543-551 | closes what an exit sold, credits it and queues its response; the released basis is exactly that of the lots; every fault exactly |
| ExecutionStudy.Simulation.HandleArrival | src/session/execution_study.cpp:593-619 | no order arrives twice; books, consumption, positions and fault are exactly those of the executed order |
| ExecutionStudy.Simulation.HandleResponse | src/session/execution_study.cpp:567-592 | every response finds an arrived, unanswered order and a waiting attempt; books and fault are exactly those of the answer, follow-up orders included |
| ExecutionStudy.Simulation.Drain | src/session/execution_study.cpp:553-621 | everything due is processed in time order, settlements first: each recorded state is the outcome function of the one before it (books, consumption, settled markets, positions, clock), the last has nothing due, or the fault is exactly that of its next event; the loop ends; at an earlier time nothing happens |
| ExecutionStudy.Simulation.HandleEvent | src/session/execution_study.cpp:564-620 | the first event leads to exactly the state, or the fault, that the outcome function of the state before gives |
| ExecutionStudy.Simulation.Before | src/session/execution_study.cpp:99-102 | the same exact run for strictly earlier arrivals, at any time |
| ExecutionStudy.Simulation.After | src/session/execution_study.cpp:103-112 | records an applied update and decides every constraint of its market in order, each on the cash and liquidity the earlier ones left; every decision made or not made is accounted for; faults exactly when a decision does |
| ExecutionStudy.Simulation.DecideAll | src/session/execution_study.cpp:107-111 | the decisions of one record one after another, none for a constraint that has an attempt, up to the first that faults |
| ExecutionStudy.Simulation.Finish | src/session/execution_study.cpp:113-127 | everything due is processed by exact outcomes; exactly one unobserved event per unknown order; the remaining settlements are paid by exact outcomes; every fault is that of a step or the overflow of the final capital time |
| ExecutionStudy.Replay | src/session/replay.cpp:146-209 | every record's time passes on the market before it until nothing is due, then the record is noted and exactly the constraints on its market are decided on the market after it; the end follows; a fault is a bound and stops this where it occurs |
| ExecutionStudy.Simulation.Report | src/session/execution_study.cpp:137-193 | completed and unbalanced counts, the fees paid, the payout floor and its bound exactly; the summed reservations never disagree with the running total, and with no unknown order the available cash is the final cash |
| ExecutionStudy.Simulation.Tally | src/session/execution_study.cpp:137-150 | the payout floor of all attempts, or its bound exactly, and how many pairs are completed and unbalanced |
| BasketExecution.DeductionsDisplayed | src/session/basket_execution.cpp:302-339 | every fill leaves cumulative consumption at its physical level within the displayed quantity |
| BasketExecution.EventDisplayed | src/session/basket_execution.cpp:302-339 | every event of a scenario leaves the consumption at each physical level unchanged or within what that level displays |
| BasketExecution.BuyFunded | src/session/basket_execution.cpp:519-522 | no buy costs more than what was set aside for it |
| BasketExecution.SaleNonNegative | src/session/basket_execution.cpp:514-518 | a sale never sells more than asked or credits less than nothing |
| BasketExecution.FreeOnlyAtZero | src/session/basket_execution.cpp:302-339 | an order costs nothing exactly when every fill was at a price of zero |
| BasketExecution.FreeMeaning | src/session/basket_execution.cpp:484-489 | a finished attempt without cost brought in cash exactly when all its buys were at a price of zero and a sale of it credited something |
| BasketRules.FillsSpelledOut | src/session/basket_execution.cpp:278-339 | what every order takes: of each level, from best to worst, no more than earlier orders have left, within the limit, the order and the cap; and all that is left before a later level is used and while order and cap are open |
| BasketRules.OutcomeSpelledOut | src/session/basket_execution.cpp:302-336 | what the fills come to: their quantity, cash with all fees in whole quanta, and the price of the last |
| BasketRules.ArrivalUses | src/session/basket_execution.cpp:334-336 | an arrival adds what it traded at each physical level to that level's consumption |
| BasketRules.DepthsSpelledOut | src/session/basket_execution.cpp:357-362 | which sides sizing sees: YES of the first market from its asks, NO of the others from their bids, as far as earlier orders have left them |
| BasketRules.DepthSpelledOut | src/session/basket_execution.cpp:278-301 | sizing sees exactly the fills that a buy of the whole cap would take |
| BasketRules.ChoiceSpelledOut | src/session/basket_execution.cpp:351-383 | a decision takes a signal whose opening was observed, in a size that no size of any such signal surpasses in margin, and at the same margin the smallest identity |
| BasketRules.SendSpelledOut | src/session/basket_execution.cpp:404-449 | the next leg is sent exactly when all remaining legs are offered whole, what is spent and what they would cost leave the margin, and its reservation is in the cash; otherwise unwinding starts |
| BasketRules.RunWithinBudget | src/session/basket_execution.cpp:421-425 | over a whole run a buy is under way only if it was sent while what is spent and what the rest would cost left the margin |
| BasketRules.BuyArrives | src/session/basket_execution.cpp:505-540 | what an arriving buy takes at its limit and books |
| BasketRules.SaleArrives | src/session/basket_execution.cpp:505-540 | what an arriving sale takes at any price and books |
| BasketRules.BuyAnswered | src/session/basket_execution.cpp:541-565 | a leg bought in part starts unwinding, one bought whole sends the next, and the third completes the basket with its floor, cost and margin |
| BasketRules.ExitSpelledOut | src/session/basket_execution.cpp:464-504 | unwinding sells the next held leg; with none left it ends, or halts on what could not be sold, and counts by what was spent |
| BasketRules.SaleAnswered | src/session/basket_execution.cpp:566-569 | after a sale unwinding goes on behind its leg |
| BasketExecution.Scenario.UnwindingMisses | src/session/basket_execution.cpp:484-489 | in every state that the methods keep, cash differs from capital less completed cost plus the unwinding result and the open attempt's proceeds exactly when some finished attempt is such a free sale, and by exactly their proceeds |
| BasketRuns.FreeAttempt | src/session/basket_execution.cpp:484-489 | a run from a new scenario that buys at zero, unwinds and sells: counted as empty, in the cash and not in the unwinding result |
| BasketExecution.Scenario.constructor | src/session/basket_execution.cpp:45-53 | a new scenario holds its capital |
| BasketExecution.Scenario.Levels | src/session/basket_execution.cpp:278-301 | what is left of one side, up to the cap |
| BasketExecution.Scenario.FillOrder | src/session/basket_execution.cpp:302-339 | fills or quotes an order exactly and never fails on its cost |
| BasketExecution.Scenario.SizeBasket | src/session/basket_execution.cpp:356-371 | the optimal size of one basket; faults exactly when the cash exceeds what sizing accepts |
| BasketExecution.Scenario.SizeSignals | src/session/basket_execution.cpp:349-381 | every uncensored signal is sized at its optimum, and the best is kept; faults exactly when a signal is sized and the cash exceeds what sizing accepts |
| BasketExecution.Scenario.PlanBuy | src/session/basket_execution.cpp:405-432 | a limit and a funded reservation exactly when all remaining legs are covered and within budget |
| BasketExecution.Scenario.Decide | src/session/basket_execution.cpp:340-398 | starts at most one attempt, for the uncensored signal with the greatest optimal margin and on a tie the smallest identity; none exactly when busy, halted, exhausted or no signal has a candidate size; then sends its first leg or unwinds |
| BasketExecution.Scenario.SendBuy | src/session/basket_execution.cpp:405-449 | sends the next leg exactly when all remaining legs are covered, within budget and funded, reserving its cost, and unwinds otherwise; the peak of what is encumbered exactly |
| BasketExecution.Scenario.BeginExit | src/session/basket_execution.cpp:450-463 | gives back the reservation and starts unwinding |
| BasketExecution.Scenario.SendExit | src/session/basket_execution.cpp:464-504 | sells the next held leg, ends the attempt when nothing is held, and halts on a residual |
| BasketExecution.Scenario.EndAttempt | src/session/basket_execution.cpp:484-489 | records the attempt and classifies it by its cost |
| BasketExecution.Scenario.ArriveBuy | src/session/basket_execution.cpp:510-540 | an arriving buy takes what the levels offer within its limit; the funding guard never decides; faults exactly on the clock |
| BasketExecution.Scenario.ArriveSell | src/session/basket_execution.cpp:510-540 | an arriving sale sells at most what is held; faults exactly on the clock |
| BasketExecution.Scenario.HoldBasket | src/session/basket_execution.cpp:545-562 | a basket counts as complete only with all three holdings equal to the quantity |
| BasketExecution.Scenario.AnswerBuy | src/session/basket_execution.cpp:541-565 | completes, continues or unwinds by what was bought |
| BasketExecution.Scenario.AnswerSell | src/session/basket_execution.cpp:566-569 | goes on with the next held leg |
| BasketExecution.Scenario.Advance | src/session/basket_execution.cpp:505-575 | the state after is that of the due events one after another, each the exact outcome of its stage; ends because each event moves the next by the delay; the ledger guard never decides, and only a clock overflow faults |
| BasketExecution.Scenario.Censor | src/session/basket_execution.cpp:576-590 | stops a scenario with an open attempt as it is, and counts it |
| PassiveQueues.PassiveQueue.Advance | include/eme/core/passive_queue.hpp:18-24 | drops what left the window; reductions move the order only in the favorable scenario |
| PassiveQueues.PassiveQueue.Depth | include/eme/core/passive_queue.hpp:25-31 | one displayed change, or the reconciliation budget exactly then |
| PassiveQueues.PassiveQueue.Trade | include/eme/core/passive_queue.hpp:32-40 | one trade and what it fills |
| PassiveQueues.RunReconciles | include/eme/core/passive_queue.hpp:18-55 | in every run one deque is empty, and reductions and trades are conserved as matched, pending and expired |
| PassiveQueues.RunFromStart | include/eme/core/passive_queue.hpp:14-17 | what a new queue holds, and that every run from it is reconciled |
| PassiveQueues.StepTimely | include/eme/core/passive_queue.hpp:18-24 | everything pending is within the window, oldest first |
| PassiveQueues.TradesOnlyFill | include/eme/core/passive_queue.hpp:32-40 | trades only: the cumulative fill is exactly min(order, max(0, traded - initially displayed)) |
| PassiveQueues.FavorableBracketsTradesOnly | include/eme/core/passive_queue.hpp:10-13 | on any trace the favorable queue is no longer and its fills no smaller, and by no more than the expired reductions |
| PassiveQueues.FavorableAhead | include/eme/core/passive_queue.hpp:18-31 | without trades the favorable priority ahead is exactly max(0, displayed - expired reductions) |
| PassiveQueues.AdvanceSpelledOut | include/eme/core/passive_queue.hpp:18-24 | exactly the changes beyond the window are dropped, and in the favorable scenario their reductions come off the priority ahead |
| PassiveQueues.StepSpelledOut | include/eme/core/passive_queue.hpp:25-40 | what a fall of the display and a trade match, serve and leave pending, and when the budget is spent |
| OrderBooks.SnapshotMeaning | src/book/order_book.cpp:8-55 | exactly when a snapshot is taken, that it replaces the whole depth, and that any other leaves the depth alone |
| OrderBooks.DeltaMeaning | src/book/order_book.cpp:67-111 | exactly when a delta is taken, that it changes one level by its amount, and that any other leaves the book unusable |
| OrderBooks.VisitedMeaning | include/eme/book/order_book.hpp:88-104 | a valid book is visited best to worst, every level once |
| OrderBooks.LoadLevels | src/book/order_book.cpp:29-42 | loads exactly the levels of a list without empty or repeated ones |
| OrderBooks.OrderBook.ApplySnapshot | src/book/order_book.cpp:8-55 | the object follows the snapshot function |
| OrderBooks.OrderBook.ApplyDelta | src/book/order_book.cpp:57-65 | a delta after the book's own last number |
| OrderBooks.OrderBook.ApplyDeltaAfter | src/book/order_book.cpp:67-111 | the object follows the delta function, with the 64-bit guards decided exactly |
| OrderBooks.OrderBook.BeginRecovery | src/book/order_book.cpp:117-123 | only a stale book starts recovering |
| MarketStates.NextKeepsInv | src/market/market_state.cpp:7-91 | every transition keeps the invariant of either scope |
| MarketStates.ReachableBooks | src/market/market_state.cpp:7-91 | in every reachable state a live book implies a connection, has positive quantities and equals its latest snapshot plus all later deltas on its stream; applied numbers are consecutive per stream or per book |
| MarketStates.FailsClosed | src/market/market_state.cpp:82-87 | on a shared stream a rejected update of the open generation closes the connection, leaves no book live, and everything later of that generation is refused |
| MarketStates.SharedDeltaApplied | src/market/market_state.cpp:54-71 | exactly when a shared-stream delta is applied |
| MarketStates.OnlyOneBookChanges | src/market/market_state.cpp:40-74 | a transition changes at most the book it names unless the connection changes |
| MarketStates.MarketState.OpenConnection | src/market/market_state.cpp:7-20 | a newer generation invalidates all books and forgets the streams |
| MarketStates.MarketState.CloseConnection | src/market/market_state.cpp:22-30 | only the open generation closes, and invalidates all books |
| MarketStates.MarketState.InvalidateAll | src/market/market_state.cpp:114-119 | every book becomes stale and nothing else changes |
| MarketStates.MarketState.BeginRecovery | src/market/market_state.cpp:32-38 | one stale book of an open connection starts recovering |
| MarketStates.MarketState.FinishShared | src/market/market_state.cpp:82-87 | advances the stream or closes the connection |
| MarketStates.MarketState.ApplySnapshot | src/market/market_state.cpp:40-52 | the objects follow the update function, creating a book only when the snapshot reaches it |
| MarketStates.MarketState.ApplyDelta | src/market/market_state.cpp:54-74 | the objects follow the update function without touching other books |
| MarketStates.MarketState.Apply | src/market/market_state.cpp:89-91 | either update |
| CandidateTrackers.QuoteLegMeaning | src/opportunity/candidate_tracker.cpp:18-32 | a leg's price is the cheapest way to buy it, with all there is at that price; both failures exactly |
| CandidateTrackers.QuoteMeaning | src/opportunity/candidate_tracker.cpp:14-46 | a candidate is quoted exactly when both legs can be bought for less than a dollar with a representable payout; then cost, payout and a positive margin |
| CandidateTrackers.QuoteFrame | src/opportunity/candidate_tracker.cpp:14-46 | a quote reads only the connection and its two books |
| CandidateTrackers.CandidateTracker.constructor | src/opportunity/candidate_tracker.cpp:50-74 | one entry per identity, indexed by both of its markets |
| CandidateTrackers.CandidateTracker.Evaluate | src/opportunity/candidate_tracker.cpp:76-92 | one entry becomes current, the count of live entries follows, and the event emitted replays the change |
| CandidateTrackers.CandidateTracker.RefreshAll | src/opportunity/candidate_tracker.cpp:94-101 | every entry becomes current |
| CandidateTrackers.CandidateTracker.Refresh | src/opportunity/candidate_tracker.cpp:103-115 | after any single market transition every entry, not only the dependents, equals a fresh quote; replaying the events rebuilds the live quotes; within a connection only dependents are evaluated |
| AsyncCapture.StepKeepsInv | src/session/async_capture.cpp:32-130 | every step of either thread keeps the ring, byte, call, failure, finalization, wake-up and epoch invariants |
| AsyncCapture.Beginning | src/session/async_capture.cpp:27-30 | every run begins with an empty ring, without failure or signal |
| AsyncCapture.WrittenIsPrefix | src/session/async_capture.cpp:84-123 | over every run what is written is a prefix of what was accepted, and reaching finalization, or a manifest, means all of it was written, closed, without failure or abandoned destructor |
| AsyncCapture.CapacityHeld | src/session/async_capture.cpp:54-83 | at most the configured slots and bytes are held, the producer's slot is never the worker's, and byte and epoch counters do not wrap (when an append is refused: AppendRefused) |
| AsyncCapture.AppendRefused | src/session/async_capture.cpp:60-73 | in every reached state an append is refused if and only if as many records as configured are published and not released, or with this one more bytes than configured are held as far as the producer has seen them consumed, or the byte counter would run out; otherwise it is queued |
| AsyncCapture.AppendTaken | src/session/async_capture.cpp:54-83 | an append checks its room against what is consumed then, takes the next slot, counts its bytes and publishes the record |
| AsyncCapture.WorkerLooks | src/session/async_capture.cpp:88-101 | in every reached state: what the worker looks at, in which order, and that it then writes the oldest record that is not released, finalizes, sleeps, looks again or leaves |
| AsyncCapture.WorkerWritesOldest | src/session/async_capture.cpp:102-123 | in every reached state: the record written is the oldest accepted one that is not released; its bytes are consumed, its slot freed and it is counted, in this order; a failed writer leaves a failure and no manifest |
| AsyncCapture.ClosingSpelledOut | src/session/async_capture.cpp:32-50 | in every reached state: what finishing, destroying and failing do, up to the join |
| AsyncCapture.NoMissedWork | src/session/async_capture.cpp:88-99 | a worker that waits or is about to cannot miss a record, closing or a failure |
| AsyncCapture.FailureKept | src/session/async_capture.cpp:38-41 | the first failure is never overwritten |
| AsyncCapture.FailureIsFinal | src/session/async_capture.cpp:116-117 | a run with a failure publishes no manifest |
| AsyncCapture.JoinProgress | src/session/async_capture.cpp:46-50 | while joining the worker is never stuck and every step brings it closer |
| AsyncCapture.JoinCompletes | src/session/async_capture.cpp:46-50 | joining ends within a bounded number of worker steps, whatever its writer does |
| AsyncCapture.CleanFinish | src/session/async_capture.cpp:124-130 | without failure finishing publishes exactly the accepted records |
| JournalCodec.EncodeInto | src/journal/journal_codec.cpp:92-119 | encodes exactly the valid records |
| JournalCodec.DecodeRecord | src/journal/journal_codec.cpp:121-185 | succeeds exactly on the encodings of valid records |
| JournalCodec.DecodeInvertsEncode | src/journal/journal_codec.cpp:92-185 | every valid record decodes from its encoding |
| JournalCodec.EncodeInvertsDecode | src/journal/journal_codec.cpp:92-185 | what decodes is the encoding of a valid record |
| JournalFormat.EncodedSpelledOut | src/journal/journal_codec.cpp:92-119 | the value of every field at its byte offset, least significant byte first |
| JournalFormat.ByteValue | src/journal/journal_codec.cpp:43-57 | the binary digits in which sizes are assembled are the value of the byte |
| JournalFormat.DecodeFailures | src/journal/journal_codec.cpp:121-185 | why bytes are not a record, and which reason comes first |
| JournalCodec.RecordReader.Take | src/journal/journal_codec.cpp:39-75 | takes the next bytes or none |
| Checksum.TableStep | src/journal/journal_codec.cpp:187-194 | eight bit steps are one shift and one table look-up |
| Checksum.TableEntry | src/journal/journal_codec.cpp:18-28 | a table entry is eight bit steps of its index |
| Checksum.Compute | src/journal/journal_codec.cpp:187-194 | the table-driven checksum is the bit-by-bit reflected CRC-32 of section 8 of RFC 1952 |
| Checksum.OneByteDetected | src/journal/journal_codec.cpp:187-194 | strings of equal length that differ in one byte have different checksums |
| JournalFormat.CheckValue | src/journal/journal_codec.cpp:187-194 | the checksum of the digits 1 to 9 is 0xcbf43926 |
| RawJournal.ReadsBack | src/journal/raw_journal.cpp:128-195 | writing any list of valid records and reading back yields exactly that list |
| RawJournal.CutReads | src/journal/raw_journal.cpp:154-195 | any cut of a valid journal body yields exactly the whole frames before it, then the end on a boundary and a truncated record elsewhere |
| RawJournal.WholeFramesMeaning | src/journal/raw_journal.cpp:154-195 | which frames a cut holds |
| RawJournal.OneByteReported | src/journal/raw_journal.cpp:186-188 | a body with one changed byte is reported as a checksum mismatch |
| JournalFormat.FrameSpelledOut | src/journal/raw_journal.cpp:128-146 | a frame is the record's size, the record and its checksum, at their offsets |
| JournalFormat.ReadSpelledOut | src/journal/raw_journal.cpp:154-195 | what reading finds by the size, the bytes there are and the checksum behind them, and which error comes first |
| RawJournal.RawJournalWriter.Append | src/journal/raw_journal.cpp:128-146 | appends one frame or rejects an invalid record, and everything written reads back |
| RawJournal.RawJournalReader.ReadNext | src/journal/raw_journal.cpp:154-195 | exactly what the next frame's bytes say |
| BasketObservation.TimePasses | src/session/basket_observation.cpp:348-353 | while time passes the union stays between the longest and the sum of the positive times |
| BasketObservation.SwitchKeeps | src/session/basket_observation.cpp:354-374 | a change of status keeps the accounts: durations fill the time since the first record, active baskets are the positive ones |
| BasketObservation.AccountedSpelledOut | src/session/basket_observation.cpp:348-353 | the interval since the last change is added to the status that the basket has had, and to no other |
| BasketObservation.TimesOverRun | src/session/basket_observation.cpp:348-356 | over a whole run the time of every status is the sum of the intervals in which the basket had it |
| BasketObservation.UnionOverRun | src/session/basket_observation.cpp:429-434 | over a whole run the union is the sum of the intervals in which some basket was positive |
| ObservationRules.NewSpelledOut | src/session/basket_observation.cpp:39-49 | what a basket starts with |
| ObservationRules.EvaluatedSpelledOut | src/session/basket_observation.cpp:403-423 | an evaluation opens or closes an episode, with its censoring and counts |
| ObservationRules.UnavailableSpelledOut | src/session/basket_observation.cpp:371-374 | dropping a basket closes its episode, censored on the right |
| ObservedDepths.UpdateCache | src/session/basket_observation.cpp:301-320 | validity, crossing and the needed sides up to the cap |
| ObservationRules.CrossedSpelledOut | src/session/basket_observation.cpp:304 | a market is crossed exactly when some bid of its book is above some ask |
| ObservationRules.UpdatedSpelledOut | src/session/basket_observation.cpp:301-319 | what an updated cache holds: of each needed side whole levels up to the cap, asks at their price and bids at what they leave of a dollar; nothing for an invalid or crossed book |
| ObservationRules.RecachedSpelledOut | src/session/basket_observation.cpp:121-138 | what a record makes of every market's cache |
| ObservationRules.AssessedSpelledOut | src/session/basket_observation.cpp:379-403 | the status of a basket: its first missing or crossed leg; else one contract that is not offered, or not funded, or some size above the minimum margin |
| ObservedDepths.CappedAscends | src/session/basket_observation.cpp:310-317 | a cached side ascends strictly and is positive, so sizing accepts it |
| ObservedDepths.SizeDepths | src/session/basket_observation.cpp:391-403 | what exact sizing finds on three legs within the remaining budget, and how many sizes it evaluates; incomplete exactly when there are more sizes than the budget |
| ObservedBudgets.UpdateFaultMeaning | src/session/basket_observation.cpp:144-145 | the update of a market's baskets succeeds exactly when its budget covers every basket that it sizes and the events of all episodes that it opens or closes fit; then that is how many events it emits |
| ObservedBudgets.EnoughBudget | src/session/basket_observation.cpp:390-393 | a budget of all sizes for every dependent basket is enough |
| BasketObservation.Observation.AccountTime | src/session/basket_observation.cpp:348-353 | the interval belongs to the current status, or the clock regressed exactly then |
| BasketObservation.Observation.AccountUnion | src/session/basket_observation.cpp:429-434 | the union is brought up to a time |
| BasketObservation.Observation.Close | src/session/basket_observation.cpp:361-370 | ends an open episode once, and changes nothing else; faults exactly when its event does not fit |
| BasketObservation.Observation.MarkUnavailable | src/session/basket_observation.cpp:371-374 | closes and restates one basket; faults exactly when the event of its open episode does not fit |
| BasketObservation.Observation.Expire | src/session/basket_observation.cpp:375-378 | every basket is expired from the given time; faults exactly when the events of all open episodes do not fit |
| BasketObservation.Observation.Evaluate | src/session/basket_observation.cpp:379-424 | a missing or crossed leg first, else what exact sizing finds on the cached depths for the configured limits; opens, keeps or closes the episode; every fault, what is left of the budget and the events exactly |
| BasketObservation.Observation.Before | src/session/basket_observation.cpp:93-96 | fails exactly on an earlier time or when the events of an expiry do not fit; accounts expiry at the deadline, which is later than the last record until then |
| BasketObservation.Observation.After | src/session/basket_observation.cpp:98-150 | the exact fault of a record and the exact number of events after it; every basket has exactly the status that the record gives it: dropped by a connection change, sized or dropped with its market, and otherwise unchanged; what happens at a time changes no basket's time in any status until then, nor the union; interval and union clocks never regress; the deadline only moves earlier; the most baskets that were active at once |
| BasketObservation.Observation.RecordFaultMeaning | src/session/basket_observation.cpp:98-150 | what each fault of a record says about it; a budget that covers every size never fails, and no clock regresses |
| ObservationRules.RecordFaultSpelledOut | src/session/basket_observation.cpp:93-150 | exactly what a record fails on, and in which order |
| ObservationRules.FollowSpelledOut | src/session/basket_observation.cpp:121-149 | what a record makes of a basket, by its market, its outcome and the connection |
| BasketObservation.Observation.Reconnect | src/session/basket_observation.cpp:121-127 | another connection, or none, drops every market and basket; faults exactly when the events of all open episodes do not fit |
| BasketObservation.Observation.UpdateMarket | src/session/basket_observation.cpp:131-149 | one market's cache follows its book and exactly its baskets are sized on the updated depths or dropped, one after another on one budget; the fault and the events exactly |
| BasketObservation.Observation.Finish | src/session/basket_observation.cpp:152-162 | the exact fault and number of events; durations sum to the whole observation and the union lies between the longest and the sum of the positive times; every open episode is closed and censored; the interval clock regresses exactly when the end precedes an accounted expiry |
| BasketObservation.ExpiryThenEarlierEnd | src/session/basket_observation.cpp:93-96 | a run of the class interface in which it does |

## Left out

- BasketObservation.Observation.Evaluate: the best quotes kept for the report are not modelled.
- ExecutionStudy.Simulation.After: requires a time not before what was already processed, which the replay guarantees (it rejects a clock that regresses); counters of declined and evaluated decisions are not kept.
- ExecutionStudy.Simulation.Finish: requires an end not before what was already processed, which the replay guarantees.
- ExecutionStudy.Simulation.Report: carries the ledger part of the report and its counts, not its output format or the sums of sizing work.
- RawJournal.RawJournalWriter.Append: stream and file errors are not modelled, nor is the file header.
- Checksum.TableEntry: the 256-entry array is a function of its index.
- JournalCodec.RecordReader.Take: the loops that assemble one integer are unrolled; sizes convert by their binary digits and times are their 64-bit patterns.
- AsyncCapture.StepKeepsInv: atomics are sequentially consistent steps; C++ memory orders are not modelled, and statistics are left out.
- NetSizing.SizeBuyPair: the array of two cursors is two fields, and the count of pruned intervals has no contract.
- MarketStates.MarketState.Apply: the source's map owns its books by value; here they are distinct objects.
- BasketExecution.Scenario.Decide: the control observation and the wall-clock and continuity checks around it are not modelled; signals are inputs, and the counters of busy, rejected and aborted signals have no contract.
- The first two policy versions of the execution study, with their pending list, repeat easier ledgers.
- JSON policies, metadata, manifests, hashing and JSONL output are parsed inputs or dropped output here.
- Transport, timers, reconnection and the venue decoder feed normalized updates, which are inputs here.
- Constraint compilation and the two- and three-leg payoff floors are assumed by the sizing payoffs.
- The passive probe around its queue repeats the ledgers of the other studies.
- Scripts, screens, benchmarks and audits are plumbing or duplicate oracles.
