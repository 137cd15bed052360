/** What one step of the lifecycle simulation leads to (src/session/execution_study.cpp), as
    functions of the whole state: a settlement, an order's arrival or its response, and the
    bound that stops it, if any. The simulation's methods are proved to compute them. */
module StudyOutcome {
  import opened FixedPoint
  import opened Contracts
  import opened ExecutionCost
  import opened Reservation
  import opened LiquidityWalk
  import opened OrderBooks
  import opened MarketStates
  import opened StudyLedger
  import opened LotAccounting
  import Positions = StudyPositions

  datatype Fault =
    // a configured or 64-bit bound is exceeded
    | SizingInput | ArrivalClock | ResponseClock | CompletionClock | ExitClock | ExitResponseClock
    | SettlementCashBound | SpendingBound | ExitCashBound | AvailableExitBound | PayoutBound
    | PositionBound(reason: Positions.PositionFault)
    // the simulation would disagree with itself
    | FillCharge | SaleOverflow | LiquidityOverflow | ReservationOverflow | ReservationExceeded | CashConservation
    | ReservationDisagreement | DuplicateArrival | ResponseLifecycle | ResponseCount | DuplicateExit | EarlyExit

  /** The faults that an input can cause. */
  predicate BoundFault(f: Fault) {
    match f
    case SizingInput => true
    case ArrivalClock => true
    case ResponseClock => true
    case CompletionClock => true
    case ExitClock => true
    case ExitResponseClock => true
    case SettlementCashBound => true
    case SpendingBound => true
    case ExitCashBound => true
    case AvailableExitBound => true
    case PayoutBound => true
    case PositionBound(reason) =>
      reason.CapitalTimeOverflow? || reason.SettledQuantityOverflow? || reason.SettlementPayoutBound?
    case _ => false
  }

  // ------------------------------------------------------------------------
  // The state
  // ------------------------------------------------------------------------

  /** What orders meet: liquidity already taken, settled markets, each market's latest update
      and what every position holds. */
  datatype Scene = Scene(consumed: Consumed, settled: set<nat>, updates: map<nat, int>, stocks: seq<Positions.Stock>)

  /** Everything that a step reads or changes. */
  datatype Moment = Moment(books: Account, scene: Scene, index: nat, costTime: int, exitBasis: int, exitQuantity: int)

  /** Before anything has happened. */
  function StartOf(p: Policy, constraints: nat): Moment {
    Moment(Account([], [], [], p.capital, 0, 0, 0, 0, 0, 0, 0, 0),
           Scene(map[], {}, map[], seq(constraints * 2, _ => Positions.Stock(PayoffLeg(0, false), []))), 0, 0, 0, 0)
  }

  function Slot(k: nat, leg: nat): nat {
    k * 2 + leg
  }

  function Owned(c: Scene, k: nat, leg: nat): nat {
    if Slot(k, leg) < |c.stocks| then HeldQuantity(c.stocks[Slot(k, leg)].lots) else 0
  }

  /** A live book of this connection, seen recently enough. */
  predicate Fresh(p: Policy, updates: map<nat, int>, leg: PayoffLeg, time: int, market: Market) {
    && market.connected && MarketStates.Live(market, leg.marketId)
    && leg.marketId in updates && time >= updates[leg.marketId] && time - updates[leg.marketId] <= p.maxAge
  }

  function TermsOf(p: Policy, leg: PayoffLeg, sell: bool, limit: Price, execute: bool): Terms
    requires ValidPolicy(p)
  {
    Terms(leg, sell, limit, p.step, execute, if sell && p.exit.Some? then p.exit.value.fillShare else p.fillShare)
  }

  /** The levels that an order can take, best first. */
  function LevelsFor(market: Market, t: Terms): seq<Level> {
    if t.leg.marketId in market.books then Visited(market.books[t.leg.marketId], SideTaken(t)) else []
  }

  /** What an order for `quantity` takes now. */
  function TakesOf(market: Market, t: Terms, c: Consumed, quantity: nat): seq<Take>
    requires ValidTerms(t)
  {
    Takes(t, LevelsFor(market, t), c, quantity)
  }

  /** What those fills amount to. */
  function ExecutionOf(p: Policy, market: Market, t: Terms, c: Consumed, quantity: nat): Execution
    requires ValidPolicy(p) && ValidTerms(t) && t.leg.marketId in p.fees
  {
    Executed(t, p.fees[t.leg.marketId], TakesOf(market, t, c, quantity))
  }

  // ------------------------------------------------------------------------
  // Exits
  // ------------------------------------------------------------------------

  /** The leg that an attempt holds too much of, and by how much. */
  function ExcessLeg(a: Attempt): nat {
    if a.fills.first.quantity - a.fills.second.quantity > 0 then 0 else 1
  }

  function Excess(a: Attempt): int {
    var difference := a.fills.first.quantity - a.fills.second.quantity;
    if difference > 0 then difference else -difference
  }

  /** An exit is tried: there is an excess to reduce, in time, on a live and unsettled book. */
  predicate ExitWanted(p: Policy, c: Scene, a: Attempt, time: int, market: Market)
    requires p.exit.Some?
  {
    var leg, config := a.legs.At(ExcessLeg(a)), p.exit.value;
    && Excess(a) != 0 && config.reduce
    && a.started <= time && time - a.started <= config.timeout && config.latency <= config.timeout - (time - a.started)
    && leg.marketId !in c.settled && Fresh(p, c.updates, leg, time, market) && market.generation == Some(a.generation)
  }

  /** What an exit of attempt k would sell now. */
  function ExitQuote(p: Policy, c: Scene, a: Attempt, k: nat, market: Market): Execution
    requires ValidPolicy(p) && p.exit.Some? && Tradable(p, a.legs)
  {
    var t := TermsOf(p, a.legs.At(ExcessLeg(a)), true, p.exit.value.minimumPrice, false);
    ExecutionOf(p, market, t, c.consumed, Min(Excess(a), Owned(c, k, ExcessLeg(a))))
  }

  /** Attempt k sends an exit for the excess that is still held, if the book takes any of it at
      the minimum price. */
  predicate Exits(p: Policy, c: Scene, a: Attempt, k: nat, time: int, market: Market)
    requires ValidPolicy(p) && Tradable(p, a.legs)
  {
    p.exit.Some? && ExitWanted(p, c, a, time, market) && ExitQuote(p, c, a, k, market).quantity != 0
  }

  /** The books after the exit decision of attempt k. */
  function ExitOutcome(p: Policy, c: Scene, s: Account, k: nat, time: int, market: Market): Account
    requires ValidPolicy(p) && k < |s.attempts| && Tradable(p, s.attempts[k].legs)
  {
    var a := s.attempts[k];
    if p.exit.None? then s
    else if !Exits(p, c, a, k, time, market) then ExitDecided(s, k)
    else
      var quote := ExitQuote(p, c, a, k, market);
      ExitSent(ExitDecided(s, k), k, ExcessLeg(a), quote.quantity, quote.worstPrice, time + p.exit.value.latency)
  }

  function ExitFault(p: Policy, c: Scene, a: Attempt, k: nat, time: int, market: Market): Option<Fault>
    requires ValidPolicy(p) && Tradable(p, a.legs)
  {
    if Exits(p, c, a, k, time, market) && time > INT64_MAX - p.exit.value.latency then Some(ExitClock) else None
  }

  // ------------------------------------------------------------------------
  // Completing the second leg
  // ------------------------------------------------------------------------

  /** There is still something to complete, in time and within the number of orders, on a
      live and unsettled book. */
  predicate CompletionWanted(p: Policy, c: Scene, a: Attempt, time: int, market: Market) {
    && a.fills.first.quantity > a.fills.second.quantity
    && a.started <= time && time - a.started <= p.completionTimeout
    && p.latency.second <= p.completionTimeout - (time - a.started)
    && a.completionOrders < p.maxCompletionOrders
    && Fresh(p, c.updates, a.legs.second, time, market) && market.generation == Some(a.generation)
    && a.legs.second.marketId !in c.settled
  }

  /** What completing would take now, at any price. */
  function CompletionQuote(p: Policy, c: Scene, a: Attempt, market: Market): Execution
    requires ValidPolicy(p) && Tradable(p, a.legs) && a.fills.first.quantity >= a.fills.second.quantity
  {
    ExecutionOf(p, market, TermsOf(p, a.legs.second, false, 10_000, false), c.consumed, a.fills.first.quantity - a.fills.second.quantity)
  }

  predicate CompletionWorth(p: Policy, a: Attempt, quote: Execution) {
    a.fills.first.debit + a.fills.second.debit + quote.debit - (a.fills.second.quantity + quote.quantity) * 10_000 <= p.completionLossLimit
  }

  function CompletionReserve(p: Policy, a: Attempt, quote: Execution): nat
    requires ValidPolicy(p) && Tradable(p, a.legs)
  {
    Reserve(quote.quantity, p.step, quote.worstPrice, p.fees[a.legs.second.marketId])
  }

  /** Attempt k sends another order for its second leg: some of it can be bought, at an
      acceptable loss and within the available cash. */
  predicate Completes(p: Policy, c: Scene, s: Account, k: nat, time: int, market: Market)
    requires ValidPolicy(p) && k < |s.attempts| && Tradable(p, s.attempts[k].legs)
  {
    var a := s.attempts[k];
    && CompletionWanted(p, c, a, time, market)
    && var quote := CompletionQuote(p, c, a, market);
    quote.quantity != 0 && CompletionWorth(p, a, quote) && CompletionReserve(p, a, quote) <= s.available + a.reserve.second
  }

  /** The books after a sequential attempt k has had a response: another order for the second
      leg, or the end of its purchases and its exit decision. */
  function CompletionOutcome(p: Policy, c: Scene, s: Account, k: nat, time: int, market: Market): Account
    requires ValidPolicy(p) && k < |s.attempts| && Tradable(p, s.attempts[k].legs)
  {
    var a := s.attempts[k];
    if Completes(p, c, s, k, time, market) then
      var quote := CompletionQuote(p, c, a, market);
      CompletionSent(s, k, quote.quantity, quote.worstPrice, CompletionReserve(p, a, quote), time + p.latency.second)
    else ExitOutcome(p, c, AcquisitionFinished(s, k), k, time, market)
  }

  function CompletionFault(p: Policy, c: Scene, s: Account, k: nat, time: int, market: Market): Option<Fault>
    requires ValidPolicy(p) && k < |s.attempts| && Tradable(p, s.attempts[k].legs)
  {
    if Completes(p, c, s, k, time, market) then (if time > INT64_MAX - p.latency.second then Some(CompletionClock) else None)
    else ExitFault(p, c, AcquisitionFinished(s, k).attempts[k], k, time, market)
  }

  // ------------------------------------------------------------------------
  // The next step
  // ------------------------------------------------------------------------

  /** The first event is for an order that fits its attempt and waits for it. */
  predicate EventReady(p: Policy, m: Moment) {
    && ValidPolicy(p) && m.books.events != [] && m.books.events[0].order < |m.books.orders|
    && var e := m.books.events[0];
    var x := m.books.orders[e.order];
    && x.attempt < |m.books.attempts| && Slot(x.attempt, 1) < |m.scene.stocks|
    && var a := m.books.attempts[x.attempt];
    && Tradable(p, a.legs) && OrderFits(p, a, x)
    && (e.response && !x.sell ==> a.pendingBuys > 0)
  }

  /** A settlement is next when it is not later than the first event. */
  predicate SettlesNext(p: Policy, m: Moment) {
    m.index < |p.settlements| && (m.books.events == [] || p.settlements[m.index].time <= m.books.events[0].time)
  }

  predicate Ready(p: Policy, m: Moment) {
    SettlesNext(p, m) || EventReady(p, m)
  }

  /** The next step is due at `time`; events at that time wait unless `inclusive`. */
  predicate Due(p: Policy, m: Moment, time: int, inclusive: bool) {
    || (m.index < |p.settlements| && p.settlements[m.index].time <= time)
    || (m.books.events != [] && (m.books.events[0].time < time || (inclusive && m.books.events[0].time == time)))
  }

  function Outcome(p: Policy, m: Moment, market: Market): Moment
    requires Ready(p, m)
  {
    if SettlesNext(p, m) then AfterSettlement(p, m)
    else if m.books.events[0].response then AfterResponse(p, m, market)
    else AfterArrival(p, m, market)
  }

  function FaultOf(p: Policy, m: Moment, market: Market): Option<Fault>
    requires Ready(p, m)
  {
    if SettlesNext(p, m) then SettlementFault(p, m)
    else if m.books.events[0].response then ResponseFault(p, m, market)
    else ArrivalFault(p, m, market)
  }

  // ------------------------------------------------------------------------
  // Settlements
  // ------------------------------------------------------------------------

  /** Every position on the market is closed and its winning contracts are paid. */
  function AfterSettlement(p: Policy, m: Moment): Moment
    requires m.index < |p.settlements|
  {
    var x, stocks := p.settlements[m.index], m.scene.stocks;
    m.(books := Paid(m.books, Positions.SettledPayout(stocks, x)), index := m.index + 1,
       scene := m.scene.(settled := m.scene.settled + {x.marketId}, stocks := Positions.SettledStocks(stocks, x)),
       costTime := m.costTime + Positions.SettledCostTime(stocks, x))
  }

  function SettlementFault(p: Policy, m: Moment): Option<Fault>
    requires m.index < |p.settlements|
  {
    var x, stocks := p.settlements[m.index], m.scene.stocks;
    var f := Positions.SettleFault(stocks, x, m.costTime);
    if f.Some? then Some(PositionBound(f.value)) else CashFault(m.books, Positions.SettledPayout(stocks, x))
  }

  function CashFault(s: Account, payout: int): Option<Fault> {
    if payout > CASH_LIMIT - s.settlementCash || payout > CASH_LIMIT - s.available then Some(SettlementCashBound) else None
  }

  // ------------------------------------------------------------------------
  // Responses
  // ------------------------------------------------------------------------

  /** The books after the first event, a response: its reservation is released or its proceeds
      become available, and then its attempt completes further, ends or decides on an exit. */
  function Answered(p: Policy, m: Moment, market: Market): Account
    requires EventReady(p, m) && m.books.events[0].response
  {
    var e, s := m.books.events[0], m.books.(events := m.books.events[1..]);
    if s.orders[e.order].sell then SaleAnswered(s, e.order)
    else
      var k, t := s.orders[e.order].attempt, BuyAnswered(s, e.order);
      if p.sequential then CompletionOutcome(p, m.scene, t, k, e.time, market)
      else if t.attempts[k].pendingBuys == 0 then ExitOutcome(p, m.scene, t, k, e.time, market)
      else t
  }

  function AfterResponse(p: Policy, m: Moment, market: Market): Moment
    requires EventReady(p, m) && m.books.events[0].response
  {
    m.(books := Answered(p, m, market))
  }

  function ResponseFault(p: Policy, m: Moment, market: Market): Option<Fault>
    requires EventReady(p, m) && m.books.events[0].response
  {
    var e, s := m.books.events[0], m.books.(events := m.books.events[1..]);
    var x := s.orders[e.order];
    if x.sell then (if x.fill.credit > CASH_LIMIT - s.available then Some(AvailableExitBound) else None)
    else
      var k, t := x.attempt, BuyAnswered(s, e.order);
      if p.sequential then CompletionFault(p, m.scene, t, k, e.time, market)
      else if t.attempts[k].pendingBuys == 0 then ExitFault(p, m.scene, t.attempts[k], k, e.time, market)
      else None
  }

  // ------------------------------------------------------------------------
  // Arrivals
  // ------------------------------------------------------------------------

  /** An order of attempt a meets a live, unsettled book of the attempt's own connection. */
  predicate Meets(p: Policy, c: Scene, a: Attempt, leg: PayoffLeg, time: int, market: Market) {
    leg.marketId !in c.settled && market.generation == Some(a.generation) && Fresh(p, c.updates, leg, time, market)
  }

  /** A buy executes unless the policy rejects its leg or the book is unusable. */
  predicate Buys(p: Policy, c: Scene, a: Attempt, x: Order, time: int, market: Market) {
    !p.reject.At(x.leg) && Meets(p, c, a, a.legs.At(x.leg), time, market)
  }

  function BuyTermsOf(p: Policy, a: Attempt, x: Order): Terms
    requires ValidPolicy(p)
  {
    TermsOf(p, a.legs.At(x.leg), false, x.limit, true)
  }

  function BuyFill(p: Policy, c: Scene, a: Attempt, x: Order, time: int, market: Market): Execution
    requires ValidPolicy(p) && Tradable(p, a.legs) && x.quantity >= 0
  {
    if Buys(p, c, a, x, time, market) then ExecutionOf(p, market, BuyTermsOf(p, a, x), c.consumed, x.quantity) else NOTHING
  }

  function BuyConsumption(p: Policy, c: Scene, a: Attempt, x: Order, time: int, market: Market): Consumed
    requires ValidPolicy(p) && x.quantity >= 0
  {
    var t := BuyTermsOf(p, a, x);
    if Buys(p, c, a, x, time, market) then Depleted(t, LevelsFor(market, t), c.consumed, x.quantity) else c.consumed
  }

  /** An exit sells at most what is still owned. */
  predicate Sells(p: Policy, c: Scene, a: Attempt, x: Order, time: int, market: Market)
    requires p.exit.Some?
  {
    !p.exit.value.reject && Meets(p, c, a, a.legs.At(x.leg), time, market) && Owned(c, x.attempt, x.leg) != 0
  }

  function SaleTermsOf(p: Policy, a: Attempt, x: Order): Terms
    requires ValidPolicy(p)
  {
    TermsOf(p, a.legs.At(x.leg), true, x.limit, true)
  }

  function SaleFill(p: Policy, c: Scene, a: Attempt, x: Order, time: int, market: Market): Execution
    requires ValidPolicy(p) && Tradable(p, a.legs) && x.quantity >= 0 && p.exit.Some?
  {
    if Sells(p, c, a, x, time, market) then
      ExecutionOf(p, market, SaleTermsOf(p, a, x), c.consumed, Min(Owned(c, x.attempt, x.leg), x.quantity))
    else NOTHING
  }

  function SaleConsumption(p: Policy, c: Scene, a: Attempt, x: Order, time: int, market: Market): Consumed
    requires ValidPolicy(p) && x.quantity >= 0 && p.exit.Some?
  {
    var t := SaleTermsOf(p, a, x);
    if Sells(p, c, a, x, time, market) then
      Depleted(t, LevelsFor(market, t), c.consumed, Min(Owned(c, x.attempt, x.leg), x.quantity))
    else c.consumed
  }

  lemma BuyFillFits(p: Policy, c: Scene, a: Attempt, x: Order, time: int, market: Market)
    requires ValidPolicy(p) && Tradable(p, a.legs) && OrderFits(p, a, x) && !x.sell
    ensures var fill := BuyFill(p, c, a, x, time, market);
      FillsOrder(p, x, fill) && (fill.quantity == 0 ==> fill.debit == 0)
  {
    hide Takes, Executed, Reserve, Meets;
    var t := BuyTermsOf(p, a, x);
    BuyWithinReservation(t, LevelsFor(market, t), c.consumed, x.quantity, p.fees[a.legs.At(x.leg).marketId]);
  }

  lemma SaleFillFits(p: Policy, c: Scene, a: Attempt, x: Order, time: int, market: Market)
    requires ValidPolicy(p) && Tradable(p, a.legs) && OrderFits(p, a, x) && x.sell
    ensures var fill := SaleFill(p, c, a, x, time, market);
      FillsSale(x, fill) && fill.quantity <= Owned(c, x.attempt, x.leg)
  {
    hide Takes, Executed, Reserve, Meets;
    var t := SaleTermsOf(p, a, x);
    SaleCredit(t, LevelsFor(market, t), c.consumed, Min(Owned(c, x.attempt, x.leg), x.quantity), p.fees[a.legs.At(x.leg).marketId]);
  }

  /** The positions after a purchase: one more lot. */
  function Stocked(stocks: seq<Positions.Stock>, i: nat, leg: PayoffLeg, fill: Execution, time: int): seq<Positions.Stock>
    requires i < |stocks| && (fill.quantity == 0 || fill.debit >= 0)
  {
    if fill.quantity == 0 then stocks else stocks[i := Positions.Stock(leg, stocks[i].lots + [Holding(fill.quantity, fill.debit, time)])]
  }

  /** The queue after an arrival: the first event gives way to the order's response. */
  function Queued(p: Policy, s: Account): seq<Event>
    requires s.events != [] && s.events[0].order < |s.orders| && (s.orders[s.events[0].order].sell ==> p.exit.Some?)
  {
    var e := s.events[0];
    Insert(s.events[1..], Event(e.time + ResponseLatency(p, s.orders[e.order]), e.order, true))
  }

  function ResponseLatency(p: Policy, x: Order): nat
    requires x.sell ==> p.exit.Some?
  {
    if x.sell then p.exit.value.responseLatency else p.responseLatency.At(x.leg)
  }

  function AfterBuy(p: Policy, m: Moment, market: Market): Moment
    requires EventReady(p, m) && !m.books.events[0].response && !m.books.orders[m.books.events[0].order].sell
  {
    var e := m.books.events[0];
    var x := m.books.orders[e.order];
    var a := m.books.attempts[x.attempt];
    var fill := BuyFill(p, m.scene, a, x, e.time, market);
    BuyFillFits(p, m.scene, a, x, e.time, market);
    m.(books := BuyArrived(m.books.(events := Queued(p, m.books)), e.order, fill),
       scene := m.scene.(consumed := BuyConsumption(p, m.scene, a, x, e.time, market),
                         stocks := Stocked(m.scene.stocks, Slot(x.attempt, x.leg), a.legs.At(x.leg), fill, e.time)))
  }

  function AfterSale(p: Policy, m: Moment, market: Market): Moment
    requires EventReady(p, m) && !m.books.events[0].response && m.books.orders[m.books.events[0].order].sell
  {
    var e := m.books.events[0];
    var x := m.books.orders[e.order];
    var a, i := m.books.attempts[x.attempt], Slot(x.attempt, x.leg);
    var fill := SaleFill(p, m.scene, a, x, e.time, market);
    var closed := CloseFifo(m.scene.stocks[i].lots, fill.quantity, e.time);
    m.(books := SaleArrived(m.books.(events := Queued(p, m.books)), e.order, fill),
       scene := m.scene.(consumed := SaleConsumption(p, m.scene, a, x, e.time, market),
                         stocks := m.scene.stocks[i := m.scene.stocks[i].(lots := closed.left)]),
       costTime := m.costTime + closed.costTime, exitBasis := m.exitBasis + closed.released, exitQuantity := m.exitQuantity + fill.quantity)
  }

  function AfterArrival(p: Policy, m: Moment, market: Market): Moment
    requires EventReady(p, m) && !m.books.events[0].response
  {
    if m.books.orders[m.books.events[0].order].sell then AfterSale(p, m, market) else AfterBuy(p, m, market)
  }

  function BuyFault(p: Policy, s: Account, x: Order, fill: Execution, time: int): Option<Fault> {
    if fill.debit > CASH_LIMIT - s.spent then Some(SpendingBound)
    else if time > INT64_MAX - p.responseLatency.At(x.leg) then Some(ResponseClock)
    else None
  }

  function SaleFault(p: Policy, m: Moment, x: Order, fill: Execution, time: int): Option<Fault>
    requires p.exit.Some? && Slot(x.attempt, x.leg) < |m.scene.stocks|
  {
    if fill.credit > CASH_LIMIT - m.books.exitCredit || fill.notional - fill.credit > CASH_LIMIT - m.books.exitFees then Some(ExitCashBound)
    else if Positions.Overflows(m.costTime + CloseFifo(m.scene.stocks[Slot(x.attempt, x.leg)].lots, fill.quantity, time).costTime) then
      Some(PositionBound(Positions.CapitalTimeOverflow))
    else if time > INT64_MAX - p.exit.value.responseLatency then Some(ExitResponseClock)
    else None
  }

  function ArrivalFault(p: Policy, m: Moment, market: Market): Option<Fault>
    requires EventReady(p, m) && !m.books.events[0].response
  {
    var e := m.books.events[0];
    var x := m.books.orders[e.order];
    var a := m.books.attempts[x.attempt];
    if x.sell then SaleFault(p, m, x, SaleFill(p, m.scene, a, x, e.time, market), e.time)
    else BuyFault(p, m.books, x, BuyFill(p, m.scene, a, x, e.time, market), e.time)
  }

  // ------------------------------------------------------------------------
  // Runs
  // ------------------------------------------------------------------------

  /** From the first moment of the trace on, every step is due, breaks no bound and leads to
      exactly its outcome. */
  ghost predicate Traced(p: Policy, market: Market, time: int, inclusive: bool, trace: seq<Moment>) {
    && trace != []
    && forall i :: 0 <= i < |trace| - 1 ==> Stepped(p, market, time, inclusive, trace[i], trace[i + 1])
  }

  predicate Stepped(p: Policy, market: Market, time: int, inclusive: bool, m: Moment, n: Moment) {
    Due(p, m, time, inclusive) && Ready(p, m) && FaultOf(p, m, market) == None && n == Outcome(p, m, market)
  }

  /** A due step that breaks the bound reported. */
  predicate FailsAt(p: Policy, market: Market, time: int, inclusive: bool, m: Moment, fault: Option<Fault>) {
    Due(p, m, time, inclusive) && Ready(p, m) && FaultOf(p, m, market) == fault && fault.Some?
  }

  lemma StepTaken(p: Policy, market: Market, time: int, inclusive: bool, m: Moment, n: Moment)
    requires Due(p, m, time, inclusive) && Ready(p, m) && FaultOf(p, m, market) == None && n == Outcome(p, m, market)
    ensures Stepped(p, market, time, inclusive, m, n)
  {
  }

  /** Otherwise the first event is. */
  lemma EventIsNext(p: Policy, m: Moment, market: Market)
    requires Ready(p, m) && !SettlesNext(p, m)
    ensures EventReady(p, m) && m.books.events != []
    ensures Outcome(p, m, market) == if m.books.events[0].response then AfterResponse(p, m, market) else AfterArrival(p, m, market)
    ensures FaultOf(p, m, market) == if m.books.events[0].response then ResponseFault(p, m, market) else ArrivalFault(p, m, market)
  {
  }

  /** Without orders under way every settlement is next. */
  lemma SettlementIsNext(p: Policy, m: Moment, market: Market)
    requires m.books.events == [] && m.index < |p.settlements| && p.settlements[m.index].time <= INT64_MAX
    ensures SettlesNext(p, m) && Ready(p, m) && Due(p, m, INT64_MAX, true)
    ensures Outcome(p, m, market) == AfterSettlement(p, m) && FaultOf(p, m, market) == SettlementFault(p, m)
    ensures SettlementFault(p, m).Some? ==> FailsAt(p, market, INT64_MAX, true, m, SettlementFault(p, m))
  {
  }

  lemma PaidQueue(p: Policy, m: Moment)
    requires m.index < |p.settlements|
    ensures AfterSettlement(p, m).books.events == m.books.events && AfterSettlement(p, m).books.orders == m.books.orders
    ensures AfterSettlement(p, m).index == m.index + 1
  {
  }

  /** Executing a sale does not change what may stop it. */
  lemma SaleFaultFrame(p: Policy, m: Moment, n: Moment, x: Order, fill: Execution, time: int)
    requires p.exit.Some? && Slot(x.attempt, x.leg) < |m.scene.stocks| && n.scene.stocks == m.scene.stocks
    requires n.books == m.books && n.costTime == m.costTime
    ensures SaleFault(p, n, x, fill, time) == SaleFault(p, m, x, fill, time)
  {
  }

  lemma TraceGrows(p: Policy, market: Market, time: int, inclusive: bool, trace: seq<Moment>, n: Moment)
    requires Traced(p, market, time, inclusive, trace) && Stepped(p, market, time, inclusive, trace[|trace| - 1], n)
    ensures Traced(p, market, time, inclusive, trace + [n])
  {
    hide Stepped;
    var t := trace + [n];
    forall i | 0 <= i < |t| - 1 ensures Stepped(p, market, time, inclusive, t[i], t[i + 1]) {
      if i < |trace| - 1 {
        assert t[i] == trace[i] && t[i + 1] == trace[i + 1];
      }
    }
  }

  /** Only bounds of the policy and of 64-bit values stop a run. */
  lemma FaultIsBound(p: Policy, m: Moment, market: Market)
    requires Ready(p, m)
    ensures FaultOf(p, m, market).Some? ==> BoundFault(FaultOf(p, m, market).value)
  {
    hide EventReady, BuyFill, SaleFill, Completes, Exits, CloseFifo;
    if SettlesNext(p, m) {
      Positions.SettleFaultKinds(m.scene.stocks, p.settlements[m.index], m.costTime);
    }
  }

  // ------------------------------------------------------------------------
  // Liquidity over a run
  // ------------------------------------------------------------------------

  /** What the book displays at the physical level of a key. */
  function Shown(market: Market, key: Key): nat {
    if key.market !in market.books || market.books[key.market].state != Valid then 0
    else if key.ask then Offered(market.books[key.market].asks, key.price)
    else Offered(market.books[key.market].bids, PRICE_SCALE - key.price)
  }

  /** No step takes more from a physical level than the book displays there. */
  lemma StepDisplayed(p: Policy, m: Moment, market: Market, key: Key)
    requires Ready(p, m) && Fit(market)
    ensures var used := Used(Outcome(p, m, market).scene.consumed, key);
      used == Used(m.scene.consumed, key) || Used(m.scene.consumed, key) < used <= Shown(market, key)
  {
    hide EventReady, Used, Shown, BuyFill, SaleFill, Meets, BuyArrived, SaleArrived, Answered, Insert, Depleted, Takes, Fit;
    if !SettlesNext(p, m) {
      EventFacts(p, m);
      var x := m.books.orders[m.books.events[0].order];
      var a := m.books.attempts[x.attempt];
      if !m.books.events[0].response && x.sell {
        TakesDisplayed(SaleTermsOf(p, a, x), market, m.scene.consumed, Min(Owned(m.scene, x.attempt, x.leg), x.quantity), key);
      } else if !m.books.events[0].response {
        TakesDisplayed(BuyTermsOf(p, a, x), market, m.scene.consumed, x.quantity, key);
      }
    }
  }

  lemma EventFacts(p: Policy, m: Moment)
    requires EventReady(p, m)
    ensures ValidPolicy(p) && m.books.events != [] && m.books.events[0].order < |m.books.orders|
    ensures var x := m.books.orders[m.books.events[0].order];
      x.attempt < |m.books.attempts| && Tradable(p, m.books.attempts[x.attempt].legs) && x.quantity >= 0 && (x.sell ==> p.exit.Some?)
  {
  }

  lemma TakesDisplayed(t: Terms, market: Market, c: Consumed, quantity: nat, key: Key)
    requires ValidTerms(t) && t.execute && Fit(market)
    ensures var used := Used(Depleted(t, LevelsFor(market, t), c, quantity), key);
      used == Used(c, key) || Used(c, key) < used <= Shown(market, key)
  {
    var levels := LevelsFor(market, t);
    if t.leg.marketId in market.books {
      VisitedMeaning(market.books[t.leg.marketId], SideTaken(t));
    }
    hide Depleted, Used, Visited, Shown;
    ConsumedWithinDisplay(t, levels, c, quantity, key);
    var used := Used(Depleted(t, levels, c, quantity), key);
    if used != Used(c, key) {
      var i :| 0 <= i < |levels| && key == KeyAt(t, OutcomePrice(t.leg, levels[i].price)) && Used(c, key) < used <= levels[i].quantity;
      LevelShown(t, market, levels, i);
    }
  }

  lemma LevelShown(t: Terms, market: Market, levels: seq<Level>, i: nat)
    requires Fit(market) && levels == LevelsFor(market, t) && i < |levels|
    ensures Shown(market, KeyAt(t, OutcomePrice(t.leg, levels[i].price))) == levels[i].quantity
  {
    VisitedMeaning(market.books[t.leg.marketId], SideTaken(t));
    hide Upwards, Downwards;
  }

  /** Over any run against one state of the market, what is consumed at a physical level stays as
      it was or within what is displayed there. */
  lemma {:induction false} RunDisplayed(p: Policy, market: Market, time: int, inclusive: bool, trace: seq<Moment>, key: Key)
    requires Traced(p, market, time, inclusive, trace) && Fit(market)
    ensures var first, last := Used(trace[0].scene.consumed, key), Used(trace[|trace| - 1].scene.consumed, key);
      last == first || first < last <= Shown(market, key)
    decreases |trace|
  {
    hide Used, Shown, Fit, Outcome, FaultOf;
    var n := |trace| - 1;
    if n > 0 {
      assert Stepped(p, market, time, inclusive, trace[n - 1], trace[n]);
      forall i | 0 <= i < n - 1 ensures Stepped(p, market, time, inclusive, trace[..n][i], trace[..n][i + 1]) {
        assert Stepped(p, market, time, inclusive, trace[i], trace[i + 1]);
      }
      RunDisplayed(p, market, time, inclusive, trace[..n], key);
      StepDisplayed(p, trace[n - 1], market, key);
    }
  }
}
