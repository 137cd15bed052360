/** The books of the lifecycle simulation (src/session/execution_study.cpp) on values: attempts,
    orders, the event queue and the cash accounts, what every step keeps of them, and why the
    simulation's event loop ends. */
module StudyLedger {
  import opened FixedPoint
  import opened Contracts
  import opened ExecutionCost
  import opened Reservation
  import opened LiquidityWalk
  import Positions = StudyPositions

  /** One value per leg of an attempt. */
  datatype Legs<T> = Legs(first: T, second: T) {
    function At(leg: nat): T {
      if leg == 0 then first else second
    }

    function With(leg: nat, x: T): Legs<T> {
      if leg == 0 then Legs(x, second) else Legs(first, x)
    }
  }

  datatype ExitPolicy = ExitPolicy(reduce: bool, reject: bool, latency: nat, responseLatency: nat, timeout: nat,
                                   minimumPrice: Price, fillShare: nat)

  datatype Policy = Policy(capital: int, quantityCap: int, step: int, minMargin: int, maxEvaluations: nat, maxAge: nat,
                           latency: Legs<nat>, reject: Legs<bool>, fillShare: nat, fees: map<nat, FeePolicy>,
                           sequential: bool, responseLatency: Legs<nat>, completionTimeout: nat, completionLossLimit: int,
                           maxCompletionOrders: nat, settlements: seq<Positions.Settlement>, exit: Option<ExitPolicy>,
                           reverseLegs: bool)

  /** What loading a policy checks (src/session/study_policy.cpp). */
  predicate ValidPolicy(p: Policy) {
    && 0 < p.capital <= CASH_LIMIT && 0 < p.quantityCap <= QUANTITY_LIMIT
    && (p.step == 1 || p.step == 100) && p.step <= p.quantityCap
    && 0 <= p.minMargin <= CASH_LIMIT && 0 < p.maxEvaluations <= 1_000_000
    && p.maxAge <= CASH_LIMIT && p.fillShare <= 10_000
    && p.latency.first <= CASH_LIMIT && p.latency.second <= CASH_LIMIT
    && p.responseLatency.first <= CASH_LIMIT && p.responseLatency.second <= CASH_LIMIT
    && p.completionTimeout <= CASH_LIMIT && 0 <= p.completionLossLimit <= CASH_LIMIT
    && 1 <= p.maxCompletionOrders <= 4
    && (forall m :: m in p.fees ==> ValidFee(p.fees[m]))
    && (forall i :: 0 <= i < |p.settlements| ==> 0 <= p.settlements[i].time <= INT64_MAX)
    && (forall i, j :: 0 <= i < j < |p.settlements| ==> p.settlements[i].time <= p.settlements[j].time)
    && (p.exit.Some? ==>
          && p.exit.value.fillShare <= 10_000 && p.exit.value.latency <= CASH_LIMIT
          && p.exit.value.responseLatency <= CASH_LIMIT && p.exit.value.timeout <= CASH_LIMIT)
  }

  datatype Attempt = Attempt(id: nat, legs: Legs<PayoffLeg>, generation: nat, quantity: int, limit: Legs<Price>,
                             reserve: Legs<int>, fills: Legs<Execution>, started: int, completionOrders: nat,
                             pendingBuys: nat, exitConsidered: bool)

  datatype Order = Order(attempt: nat, leg: nat, quantity: int, limit: Price, reserve: int, fill: Execution,
                         arrived: bool, responded: bool, sell: bool)

  datatype Event = Event(time: int, order: nat, response: bool)

  datatype Account = Account(attempts: seq<Attempt>, orders: seq<Order>, events: seq<Event>, available: int, reservedTotal: int,
                             unconfirmedDebit: int, unconfirmedCredit: int, spent: int, notional: int, settlementCash: int,
                             exitCredit: int, exitFees: int)

  // ------------------------------------------------------------------------
  // The event queue
  // ------------------------------------------------------------------------

  /** Earlier time first, then the older order, then the arrival before the response. */
  predicate Precedes(a: Event, b: Event) {
    a.time < b.time || (a.time == b.time && (a.order < b.order || (a.order == b.order && !a.response && b.response)))
  }

  predicate InOrder(events: seq<Event>) {
    forall i, j :: 0 <= i < j < |events| ==> !Precedes(events[j], events[i])
  }

  /** The first place whose event has to wait for e. */
  function Place(events: seq<Event>, e: Event): (k: nat)
    ensures k <= |events|
  {
    if events == [] || Precedes(e, events[0]) then 0 else 1 + Place(events[1..], e)
  }

  function Insert(events: seq<Event>, e: Event): seq<Event> {
    events[..Place(events, e)] + [e] + events[Place(events, e)..]
  }

  lemma {:induction false} PlaceMeaning(events: seq<Event>, e: Event)
    ensures var k := Place(events, e);
      && (forall i :: 0 <= i < k ==> !Precedes(e, events[i]))
      && (k < |events| ==> Precedes(e, events[k]))
    decreases events
  {
    if events != [] && !Precedes(e, events[0]) {
      PlaceMeaning(events[1..], e);
    }
  }

  lemma InsertKeepsOrder(events: seq<Event>, e: Event)
    requires InOrder(events)
    ensures InOrder(Insert(events, e))
  {
    PlaceMeaning(events, e);
    var k, all := Place(events, e), Insert(events, e);
    forall i, j | 0 <= i < j < |all| ensures !Precedes(all[j], all[i]) {
      if j > k && i == k {
        assert j - 1 > k ==> !Precedes(events[j - 1], events[k]);
      }
    }
  }

  /** A predicate on events that all of them and the new one meet. */
  lemma InsertAll(events: seq<Event>, e: Event, orders: seq<Order>, now: int)
    requires EventFits(orders, now, e) && forall i :: 0 <= i < |events| ==> EventFits(orders, now, events[i])
    ensures forall i :: 0 <= i < |Insert(events, e)| ==> EventFits(orders, now, Insert(events, e)[i])
  {
  }

  lemma InsertDistinct(events: seq<Event>, e: Event)
    requires DistinctOrders(events) && forall i :: 0 <= i < |events| ==> events[i].order != e.order
    ensures DistinctOrders(Insert(events, e))
  {
  }

  predicate DistinctOrders(events: seq<Event>) {
    forall i, j :: 0 <= i < j < |events| ==> events[i].order != events[j].order
  }

  /** An event is for an order that waits for it, and not in the past. */
  predicate EventFits(orders: seq<Order>, now: int, e: Event) {
    && e.order < |orders| && now <= e.time <= INT64_MAX
    && !orders[e.order].responded && e.response == orders[e.order].arrived
  }

  function Waiting(x: Order): int {
    if x.responded then 0 else 1
  }

  /** Exactly one event for every order that has not been answered. */
  ghost predicate EventsOk(orders: seq<Order>, events: seq<Event>, now: int) {
    && InOrder(events) && DistinctOrders(events)
    && (forall i :: 0 <= i < |events| ==> EventFits(orders, now, events[i]))
    && |events| == Sum(orders, Waiting)
  }

  // ------------------------------------------------------------------------
  // Sums over orders
  // ------------------------------------------------------------------------

  function Sum(orders: seq<Order>, f: Order -> int): int {
    if orders == [] then 0 else f(orders[0]) + Sum(orders[1..], f)
  }

  lemma {:induction false} SumUpdate(orders: seq<Order>, i: nat, x: Order, f: Order -> int)
    requires i < |orders|
    ensures Sum(orders[i := x], f) == Sum(orders, f) - f(orders[i]) + f(x)
    decreases orders
  {
    if i == 0 {
      assert orders[0 := x][1..] == orders[1..];
    } else {
      assert orders[i := x][1..] == orders[1..][i - 1 := x];
      SumUpdate(orders[1..], i - 1, x, f);
    }
  }

  lemma {:induction false} SumAppend(orders: seq<Order>, x: Order, f: Order -> int)
    ensures Sum(orders + [x], f) == Sum(orders, f) + f(x)
    decreases orders
  {
    if orders == [] {
      assert orders + [x] == [x];
      assert [x][1..] == [];
    } else {
      assert (orders + [x])[1..] == orders[1..] + [x];
      SumAppend(orders[1..], x, f);
    }
  }

  /** Terms in order give sums in order; non-negative terms give a sum of at least any of them. */
  lemma {:induction false} SumAtMost(orders: seq<Order>, f: Order -> int, g: Order -> int)
    requires forall i :: 0 <= i < |orders| ==> 0 <= f(orders[i]) <= g(orders[i])
    ensures 0 <= Sum(orders, f) <= Sum(orders, g)
    ensures forall i :: 0 <= i < |orders| ==> f(orders[i]) <= Sum(orders, f)
    decreases orders
  {
    if orders != [] {
      SumAtMost(orders[1..], f, g);
      forall i | 0 <= i < |orders| ensures f(orders[i]) <= Sum(orders, f) {
        if i > 0 {
          assert orders[i] == orders[1..][i - 1];
        }
      }
    }
  }

  function Bought(x: Order): int {
    if x.sell then 0 else x.fill.debit
  }

  function BoughtNotional(x: Order): int {
    if x.sell then 0 else x.fill.notional
  }

  function Unconfirmed(x: Order): int {
    if x.sell || x.responded then 0 else x.fill.debit
  }

  function Sold(x: Order): int {
    if x.sell then x.fill.credit else 0
  }

  function SoldUnconfirmed(x: Order): int {
    if x.sell && !x.responded then x.fill.credit else 0
  }

  function SaleFee(x: Order): int {
    if x.sell then x.fill.notional - x.fill.credit else 0
  }

  /** A buy that still holds its attempt's reservation for the leg. */
  predicate Live(x: Order, a: nat, leg: nat) {
    x.attempt == a && x.leg == leg && !x.sell && !x.responded
  }

  function LiveBuys(orders: seq<Order>, a: nat, leg: nat): nat {
    if orders == [] then 0 else (if Live(orders[0], a, leg) then 1 else 0) + LiveBuys(orders[1..], a, leg)
  }

  lemma {:induction false} LiveUpdate(orders: seq<Order>, i: nat, x: Order, a: nat, leg: nat)
    requires i < |orders|
    ensures LiveBuys(orders[i := x], a, leg)
      == LiveBuys(orders, a, leg) - (if Live(orders[i], a, leg) then 1 else 0) + (if Live(x, a, leg) then 1 else 0)
    decreases orders
  {
    if i == 0 {
      assert orders[0 := x][1..] == orders[1..];
    } else {
      assert orders[i := x][1..] == orders[1..][i - 1 := x];
      LiveUpdate(orders[1..], i - 1, x, a, leg);
    }
  }

  lemma {:induction false} LiveAppend(orders: seq<Order>, x: Order, a: nat, leg: nat)
    ensures LiveBuys(orders + [x], a, leg) == LiveBuys(orders, a, leg) + (if Live(x, a, leg) then 1 else 0)
    decreases orders
  {
    if orders == [] {
      assert orders + [x] == [x];
      assert [x][1..] == [];
    } else {
      assert (orders + [x])[1..] == orders[1..] + [x];
      LiveAppend(orders[1..], x, a, leg);
    }
  }

  /** With none live no order is; with at most one, a live order is the only one. */
  lemma {:induction false} LiveMeaning(orders: seq<Order>, a: nat, leg: nat)
    ensures LiveBuys(orders, a, leg) == 0 ==> forall i :: 0 <= i < |orders| ==> !Live(orders[i], a, leg)
    ensures LiveBuys(orders, a, leg) <= 1 ==>
      forall i, j :: 0 <= i < j < |orders| ==> !(Live(orders[i], a, leg) && Live(orders[j], a, leg))
    ensures LiveBuys(orders, a, leg) == 0 <== forall i :: 0 <= i < |orders| ==> !Live(orders[i], a, leg)
    decreases orders
  {
    if orders != [] {
      LiveMeaning(orders[1..], a, leg);
      var rest := orders[1..];
      assert forall i :: 0 < i < |orders| ==> orders[i] == rest[i - 1];
      if forall i :: 0 <= i < |orders| ==> !Live(orders[i], a, leg) {
        assert forall i :: 0 <= i < |rest| ==> rest[i] == orders[i + 1];
      }
    }
  }

  // ------------------------------------------------------------------------
  // Sums over attempts
  // ------------------------------------------------------------------------

  function Reserved(attempts: seq<Attempt>): int {
    if attempts == [] then 0
    else Reserved(attempts[..|attempts| - 1]) + attempts[|attempts| - 1].reserve.first + attempts[|attempts| - 1].reserve.second
  }

  lemma {:induction false} ReservedUpdate(attempts: seq<Attempt>, k: nat, a: Attempt)
    requires k < |attempts|
    ensures Reserved(attempts[k := a])
      == Reserved(attempts) - attempts[k].reserve.first - attempts[k].reserve.second + a.reserve.first + a.reserve.second
    decreases |attempts|
  {
    var n := |attempts| - 1;
    if k == n {
      assert attempts[k := a][..n] == attempts[..n];
    } else {
      assert attempts[k := a][..n] == attempts[..n][k := a];
      ReservedUpdate(attempts[..n], k, a);
    }
  }

  lemma ReservedAppend(attempts: seq<Attempt>, a: Attempt)
    ensures Reserved(attempts + [a]) == Reserved(attempts) + a.reserve.first + a.reserve.second
  {
    assert (attempts + [a])[..|attempts|] == attempts;
  }

  lemma {:induction false} ReservedAtLeast(attempts: seq<Attempt>, k: nat)
    requires forall i :: 0 <= i < |attempts| ==> attempts[i].reserve.first >= 0 && attempts[i].reserve.second >= 0
    ensures Reserved(attempts) >= 0
    ensures k < |attempts| ==> attempts[k].reserve.first + attempts[k].reserve.second <= Reserved(attempts)
    decreases |attempts|
  {
    if attempts != [] {
      ReservedAtLeast(attempts[..|attempts| - 1], k);
    }
  }

  /** The orders that an attempt may still send. */
  function Budget(p: Policy, a: Attempt): int {
    3 * (p.maxCompletionOrders - a.completionOrders) + (if a.exitConsidered then 0 else 3)
  }

  function Budgets(p: Policy, attempts: seq<Attempt>): int {
    if attempts == [] then 0 else Budgets(p, attempts[..|attempts| - 1]) + Budget(p, attempts[|attempts| - 1])
  }

  lemma {:induction false} BudgetsUpdate(p: Policy, attempts: seq<Attempt>, k: nat, a: Attempt)
    requires k < |attempts|
    ensures Budgets(p, attempts[k := a]) == Budgets(p, attempts) - Budget(p, attempts[k]) + Budget(p, a)
    decreases |attempts|
  {
    var n := |attempts| - 1;
    if k == n {
      assert attempts[k := a][..n] == attempts[..n];
    } else {
      assert attempts[k := a][..n] == attempts[..n][k := a];
      BudgetsUpdate(p, attempts[..n], k, a);
    }
  }

  lemma {:induction false} BudgetsNonNegative(p: Policy, attempts: seq<Attempt>)
    requires forall i :: 0 <= i < |attempts| ==> attempts[i].completionOrders <= p.maxCompletionOrders
    ensures Budgets(p, attempts) >= 0
    decreases |attempts|
  {
    if attempts != [] {
      BudgetsNonNegative(p, attempts[..|attempts| - 1]);
    }
  }

  // ------------------------------------------------------------------------
  // What every reachable account satisfies
  // ------------------------------------------------------------------------

  predicate Tradable(p: Policy, legs: Legs<PayoffLeg>) {
    legs.first.marketId in p.fees && legs.second.marketId in p.fees
  }

  /** One attempt, of which `live0` and `live1` buys per leg await their response. */
  predicate AttemptOk(p: Policy, a: Attempt, live0: nat, live1: nat) {
    && Tradable(p, a.legs)
    && 0 < a.quantity <= QUANTITY_LIMIT && OnGrid(a.quantity, p.step)
    && 0 <= a.reserve.first && 0 <= a.reserve.second
    && 0 <= a.fills.first.quantity <= a.quantity && 0 <= a.fills.second.quantity <= a.quantity
    && OnGrid(a.fills.first.quantity, p.step) && OnGrid(a.fills.second.quantity, p.step)
    && live0 <= 1 && live1 <= 1 && a.pendingBuys == live0 + live1
    && (a.pendingBuys > 0 ==> !a.exitConsidered)
    && (live0 == 0 ==> a.reserve.first == 0)
    && a.completionOrders <= p.maxCompletionOrders
    && (if p.sequential then a.pendingBuys <= 1 && a.fills.second.quantity <= a.fills.first.quantity
        else live1 == 0 ==> a.reserve.second == 0)
  }

  /** What a leg may reach: sequentially, the second leg only completes the first. */
  function Target(p: Policy, a: Attempt, leg: nat): int {
    if p.sequential && leg == 1 then a.fills.first.quantity else a.quantity
  }

  /** One order and the attempt that sent it. */
  predicate OrderFits(p: Policy, a: Attempt, x: Order) {
    && x.leg < 2 && a.legs.At(x.leg).marketId in p.fees && ValidFee(p.fees[a.legs.At(x.leg).marketId])
    && 0 <= x.quantity <= QUANTITY_LIMIT && OnGrid(x.quantity, p.step)
    && (x.responded ==> x.arrived) && (!x.arrived ==> x.fill == NOTHING)
    && 0 <= x.fill.quantity <= x.quantity
    && (if x.sell then
          && p.exit.Some? && x.reserve == 0 && x.fill.debit == 0 && 0 <= x.fill.credit <= x.fill.notional && a.exitConsidered
          && 0 < x.quantity <= a.fills.At(x.leg).quantity - a.fills.At(1 - x.leg).quantity
        else
          && p.step > 0 && x.reserve == Reserve(x.quantity, p.step, x.limit, p.fees[a.legs.At(x.leg).marketId])
          && 0 <= x.fill.debit <= x.reserve && x.fill.credit == 0
          && (!x.responded ==> a.reserve.At(x.leg) == x.reserve)
          && (!x.arrived ==> a.fills.At(x.leg).quantity + x.quantity <= Target(p, a, x.leg)))
  }

  predicate OrderOk(p: Policy, attempts: seq<Attempt>, x: Order) {
    x.attempt < |attempts| && OrderFits(p, attempts[x.attempt], x)
  }

  ghost predicate OrdersOk(p: Policy, attempts: seq<Attempt>, orders: seq<Order>) {
    forall i :: 0 <= i < |orders| ==> OrderOk(p, attempts, orders[i])
  }

  ghost predicate AttemptsOk(p: Policy, attempts: seq<Attempt>, orders: seq<Order>) {
    forall a :: 0 <= a < |attempts| ==> AttemptOk(p, attempts[a], LiveBuys(orders, a, 0), LiveBuys(orders, a, 1))
  }

  /** At most one exit per attempt. */
  predicate OneExit(orders: seq<Order>) {
    forall i, j :: 0 <= i < j < |orders| && orders[i].sell && orders[j].sell ==> orders[i].attempt != orders[j].attempt
  }

  /** An attempt whose buys are all answered holds no reservation; `busy` may be in the middle
      of deciding. */
  predicate Released(attempts: seq<Attempt>, busy: Option<nat>) {
    forall k :: 0 <= k < |attempts| && busy != Some(k) && attempts[k].pendingBuys == 0 ==> attempts[k].reserve.second == 0
  }

  /** The accounts: what each of them sums up, and that no cash appears or disappears. */
  ghost predicate Money(p: Policy, s: Account) {
    && s.reservedTotal == Reserved(s.attempts)
    && s.unconfirmedDebit == Sum(s.orders, Unconfirmed) && s.unconfirmedCredit == Sum(s.orders, SoldUnconfirmed)
    && s.spent == Sum(s.orders, Bought) && s.notional == Sum(s.orders, BoughtNotional)
    && s.exitCredit == Sum(s.orders, Sold) && s.exitFees == Sum(s.orders, SaleFee)
    && Conserves(p, s)
  }

  predicate Conserves(p: Policy, s: Account) {
    && 0 <= s.available
    && s.spent <= CASH_LIMIT && 0 <= s.settlementCash <= CASH_LIMIT && s.exitCredit <= CASH_LIMIT && s.exitFees <= CASH_LIMIT
    && s.available + s.reservedTotal - s.unconfirmedDebit + s.unconfirmedCredit
       == p.capital - s.spent + s.settlementCash + s.exitCredit
  }

  ghost predicate Consistent(p: Policy, s: Account, busy: Option<nat>) {
    && OrdersOk(p, s.attempts, s.orders) && AttemptsOk(p, s.attempts, s.orders) && OneExit(s.orders)
    && Released(s.attempts, busy) && Money(p, s)
  }

  // ------------------------------------------------------------------------
  // Steps
  // ------------------------------------------------------------------------

  function Submitted(s: Account, x: Order, time: int): Account {
    s.(events := Insert(s.events, Event(time, |s.orders|, false)), orders := s.orders + [x])
  }

  /** What a leg has acquired over its orders. */
  function Aggregated(total: Execution, e: Execution): Execution {
    Execution(total.quantity + e.quantity, total.notional + e.notional, total.debit + e.debit, total.credit,
              Max(total.worstPrice, e.worstPrice), total.levels + e.levels)
  }

  /** A buy reaches the market and executes as e. */
  function BuyArrived(s: Account, i: nat, e: Execution): Account
    requires i < |s.orders| && s.orders[i].attempt < |s.attempts|
  {
    var x := s.orders[i];
    var a := s.attempts[x.attempt];
    s.(orders := s.orders[i := x.(arrived := true, fill := e)],
       attempts := s.attempts[x.attempt := a.(fills := a.fills.With(x.leg, Aggregated(a.fills.At(x.leg), e)))],
       spent := s.spent + e.debit, notional := s.notional + e.notional, unconfirmedDebit := s.unconfirmedDebit + e.debit)
  }

  /** The response to a buy releases its reservation. */
  function BuyAnswered(s: Account, i: nat): Account
    requires i < |s.orders| && s.orders[i].attempt < |s.attempts| && s.attempts[s.orders[i].attempt].pendingBuys > 0
  {
    var x := s.orders[i];
    var a := s.attempts[x.attempt];
    s.(orders := s.orders[i := x.(responded := true)],
       attempts := s.attempts[x.attempt := a.(pendingBuys := a.pendingBuys - 1, reserve := a.reserve.With(x.leg, 0))],
       reservedTotal := s.reservedTotal - x.reserve, unconfirmedDebit := s.unconfirmedDebit - x.fill.debit,
       available := s.available + (x.reserve - x.fill.debit))
  }

  function SaleArrived(s: Account, i: nat, e: Execution): Account
    requires i < |s.orders|
  {
    s.(orders := s.orders[i := s.orders[i].(arrived := true, fill := e)],
       exitCredit := s.exitCredit + e.credit, exitFees := s.exitFees + (e.notional - e.credit),
       unconfirmedCredit := s.unconfirmedCredit + e.credit)
  }

  function SaleAnswered(s: Account, i: nat): Account
    requires i < |s.orders|
  {
    var x := s.orders[i];
    s.(orders := s.orders[i := x.(responded := true)],
       unconfirmedCredit := s.unconfirmedCredit - x.fill.credit, available := s.available + x.fill.credit)
  }

  /** No more completion orders: the rest of the second reservation is released. */
  function AcquisitionFinished(s: Account, k: nat): Account
    requires k < |s.attempts|
  {
    var a := s.attempts[k];
    s.(attempts := s.attempts[k := a.(reserve := a.reserve.With(1, 0))],
       reservedTotal := s.reservedTotal - a.reserve.second, available := s.available + a.reserve.second)
  }

  /** The second reservation is adjusted to what a completion order needs, and it is sent. */
  function CompletionSent(s: Account, k: nat, quantity: int, limit: Price, needed: int, time: int): Account
    requires k < |s.attempts|
  {
    var a := s.attempts[k];
    Submitted(
      s.(attempts := s.attempts[k := a.(reserve := a.reserve.With(1, needed), completionOrders := a.completionOrders + 1,
                                        pendingBuys := a.pendingBuys + 1)],
         reservedTotal := s.reservedTotal + (needed - a.reserve.second),
         available := s.available + (a.reserve.second - needed)),
      Order(k, 1, quantity, limit, needed, NOTHING, false, false, false), time)
  }

  function ExitDecided(s: Account, k: nat): Account
    requires k < |s.attempts|
  {
    s.(attempts := s.attempts[k := s.attempts[k].(exitConsidered := true)])
  }

  function ExitSent(s: Account, k: nat, leg: nat, quantity: int, limit: Price, time: int): Account {
    Submitted(s, Order(k, leg, quantity, limit, 0, NOTHING, false, false, true), time)
  }

  function Paid(s: Account, payout: int): Account {
    s.(settlementCash := s.settlementCash + payout, available := s.available + payout)
  }

  function FirstOrder(s: Account, a: Attempt, leg: nat): Order {
    Order(|s.attempts|, leg, a.quantity, a.limit.At(leg), a.reserve.At(leg), NOTHING, false, false, false)
  }

  /** A decision reserves both legs and sends both orders, or the first one only. */
  function Decided(p: Policy, s: Account, a: Attempt, time: int): Account {
    var first := Submitted(s, FirstOrder(s, a, 0), time + p.latency.first);
    var sent := if p.sequential then first else Submitted(first, FirstOrder(s, a, 1), time + p.latency.second);
    sent.(attempts := s.attempts + [a.(pendingBuys := if p.sequential then 1 else 2)],
          available := s.available - a.reserve.first - a.reserve.second,
          reservedTotal := s.reservedTotal + a.reserve.first + a.reserve.second)
  }

  // ------------------------------------------------------------------------
  // What each step keeps
  // ------------------------------------------------------------------------

  lemma SumsUpdate(s: Account, i: nat, x: Order)
    requires i < |s.orders|
    ensures var os, y := s.orders[i := x], s.orders[i];
      && Sum(os, Unconfirmed) == Sum(s.orders, Unconfirmed) - Unconfirmed(y) + Unconfirmed(x)
      && Sum(os, SoldUnconfirmed) == Sum(s.orders, SoldUnconfirmed) - SoldUnconfirmed(y) + SoldUnconfirmed(x)
      && Sum(os, Bought) == Sum(s.orders, Bought) - Bought(y) + Bought(x)
      && Sum(os, BoughtNotional) == Sum(s.orders, BoughtNotional) - BoughtNotional(y) + BoughtNotional(x)
      && Sum(os, Sold) == Sum(s.orders, Sold) - Sold(y) + Sold(x)
      && Sum(os, SaleFee) == Sum(s.orders, SaleFee) - SaleFee(y) + SaleFee(x)
  {
    SumUpdate(s.orders, i, x, Unconfirmed);
    SumUpdate(s.orders, i, x, SoldUnconfirmed);
    SumUpdate(s.orders, i, x, Bought);
    SumUpdate(s.orders, i, x, BoughtNotional);
    SumUpdate(s.orders, i, x, Sold);
    SumUpdate(s.orders, i, x, SaleFee);
  }

  /** An order that has not executed adds nothing to any account. */
  lemma SumsAppend(orders: seq<Order>, x: Order)
    requires x.fill == NOTHING
    ensures var os := orders + [x];
      && Sum(os, Unconfirmed) == Sum(orders, Unconfirmed) && Sum(os, SoldUnconfirmed) == Sum(orders, SoldUnconfirmed)
      && Sum(os, Bought) == Sum(orders, Bought) && Sum(os, BoughtNotional) == Sum(orders, BoughtNotional)
      && Sum(os, Sold) == Sum(orders, Sold) && Sum(os, SaleFee) == Sum(orders, SaleFee)
  {
    SumAppend(orders, x, Unconfirmed);
    SumAppend(orders, x, SoldUnconfirmed);
    SumAppend(orders, x, Bought);
    SumAppend(orders, x, BoughtNotional);
    SumAppend(orders, x, Sold);
    SumAppend(orders, x, SaleFee);
  }

  /** A buy that the market has not seen is the only live one of its leg. */
  lemma OnlyLive(p: Policy, s: Account, i: nat)
    requires AttemptsOk(p, s.attempts, s.orders) && OrdersOk(p, s.attempts, s.orders)
    requires i < |s.orders| && !s.orders[i].sell && !s.orders[i].responded
    ensures var x := s.orders[i];
      && OrderOk(p, s.attempts, x) && LiveBuys(s.orders, x.attempt, x.leg) == 1
      && forall j :: 0 <= j < |s.orders| && j != i ==> !Live(s.orders[j], x.attempt, x.leg)
  {
    var x := s.orders[i];
    assert OrderOk(p, s.attempts, x);
    assert AttemptOk(p, s.attempts[x.attempt], LiveBuys(s.orders, x.attempt, 0), LiveBuys(s.orders, x.attempt, 1));
    LiveMeaning(s.orders, x.attempt, x.leg);
    hide OrderFits;
    assert Live(x, x.attempt, x.leg);
  }

  /** An acceptable execution of a waiting buy. */
  predicate FillsOrder(p: Policy, x: Order, e: Execution) {
    0 <= e.quantity <= x.quantity && OnGrid(e.quantity, p.step) && 0 <= e.debit <= x.reserve && e.credit == 0
  }

  lemma BuyArrivedKeeps(p: Policy, s: Account, i: nat, e: Execution)
    requires Consistent(p, s, None) && i < |s.orders| && !s.orders[i].arrived && !s.orders[i].sell
    requires FillsOrder(p, s.orders[i], e) && s.spent + e.debit <= CASH_LIMIT
    ensures OrderOk(p, s.attempts, s.orders[i]) && Consistent(p, BuyArrived(s, i, e), None)
  {
    hide Sum, LiveBuys, Reserved;
    var t, x := BuyArrived(s, i, e), s.orders[i];
    assert OrderOk(p, s.attempts, x);
    OnlyLive(p, s, i);
    assert AttemptOk(p, s.attempts[x.attempt], LiveBuys(s.orders, x.attempt, 0), LiveBuys(s.orders, x.attempt, 1));
    SumsUpdate(s, i, t.orders[i]);
    ReservedUpdate(s.attempts, x.attempt, t.attempts[x.attempt]);
    ArrivalKeepsOrders(p, s, i, e);
    ArrivalKeepsAttempts(p, s, i, e);
    hide OrdersOk, AttemptsOk;
  }

  lemma ArrivalKeepsOrders(p: Policy, s: Account, i: nat, e: Execution)
    requires OrdersOk(p, s.attempts, s.orders) && i < |s.orders| && !s.orders[i].arrived && !s.orders[i].sell
    requires OrderOk(p, s.attempts, s.orders[i]) && FillsOrder(p, s.orders[i], e) && !s.attempts[s.orders[i].attempt].exitConsidered
    requires forall j :: 0 <= j < |s.orders| && j != i ==> !Live(s.orders[j], s.orders[i].attempt, s.orders[i].leg)
    ensures OrdersOk(p, BuyArrived(s, i, e).attempts, BuyArrived(s, i, e).orders)
  {
    hide Reserve;
    var t := BuyArrived(s, i, e);
    forall j | 0 <= j < |t.orders| ensures OrderOk(p, t.attempts, t.orders[j]) {
      assert OrderOk(p, s.attempts, s.orders[j]);
    }
  }

  lemma ArrivalKeepsAttempts(p: Policy, s: Account, i: nat, e: Execution)
    requires AttemptsOk(p, s.attempts, s.orders) && i < |s.orders| && !s.orders[i].arrived && !s.orders[i].sell
    requires OrderOk(p, s.attempts, s.orders[i]) && FillsOrder(p, s.orders[i], e)
    ensures AttemptsOk(p, BuyArrived(s, i, e).attempts, BuyArrived(s, i, e).orders)
  {
    hide LiveBuys, Reserve;
    var t := BuyArrived(s, i, e);
    forall a | 0 <= a < |t.attempts| ensures AttemptOk(p, t.attempts[a], LiveBuys(t.orders, a, 0), LiveBuys(t.orders, a, 1)) {
      assert AttemptOk(p, s.attempts[a], LiveBuys(s.orders, a, 0), LiveBuys(s.orders, a, 1));
      LiveUpdate(s.orders, i, t.orders[i], a, 0);
      LiveUpdate(s.orders, i, t.orders[i], a, 1);
      if a == s.orders[i].attempt {
        GridSum(s.attempts[a].fills.At(s.orders[i].leg).quantity, e.quantity, p.step);
      }
    }
  }

  lemma BuyAnsweredKeeps(p: Policy, s: Account, i: nat)
    requires Consistent(p, s, None) && i < |s.orders| && s.orders[i].arrived && !s.orders[i].responded && !s.orders[i].sell
    ensures OrderOk(p, s.attempts, s.orders[i])
    ensures var x := s.orders[i];
      && s.attempts[x.attempt].pendingBuys > 0
      && Consistent(p, BuyAnswered(s, i), Some(x.attempt))
      && !s.attempts[x.attempt].exitConsidered
      && (p.sequential ==> s.attempts[x.attempt].pendingBuys == 1)
  {
    hide Sum, LiveBuys, Reserved;
    var x := s.orders[i];
    OnlyLive(p, s, i);
    assert AttemptOk(p, s.attempts[x.attempt], LiveBuys(s.orders, x.attempt, 0), LiveBuys(s.orders, x.attempt, 1));
    var t := BuyAnswered(s, i);
    SumsUpdate(s, i, t.orders[i]);
    ReservedUpdate(s.attempts, x.attempt, t.attempts[x.attempt]);
    AnswerKeepsOrders(p, s, i);
    AnswerKeepsAttempts(p, s, i);
    assert x.reserve >= x.fill.debit && s.attempts[x.attempt].reserve.At(x.leg) == x.reserve;
    hide OrdersOk, AttemptsOk;
  }

  lemma AnswerKeepsOrders(p: Policy, s: Account, i: nat)
    requires OrdersOk(p, s.attempts, s.orders) && i < |s.orders| && !s.orders[i].sell && s.orders[i].arrived
    requires OrderOk(p, s.attempts, s.orders[i]) && s.attempts[s.orders[i].attempt].pendingBuys > 0
    requires forall j :: 0 <= j < |s.orders| && j != i ==> !Live(s.orders[j], s.orders[i].attempt, s.orders[i].leg)
    ensures OrdersOk(p, BuyAnswered(s, i).attempts, BuyAnswered(s, i).orders)
  {
    hide Reserve;
    var t := BuyAnswered(s, i);
    forall j | 0 <= j < |t.orders| ensures OrderOk(p, t.attempts, t.orders[j]) {
      assert OrderOk(p, s.attempts, s.orders[j]);
    }
  }

  lemma AnswerKeepsAttempts(p: Policy, s: Account, i: nat)
    requires AttemptsOk(p, s.attempts, s.orders) && i < |s.orders| && !s.orders[i].responded && !s.orders[i].sell
    requires OrderOk(p, s.attempts, s.orders[i]) && s.attempts[s.orders[i].attempt].pendingBuys > 0
    ensures AttemptsOk(p, BuyAnswered(s, i).attempts, BuyAnswered(s, i).orders)
  {
    hide LiveBuys, Reserve;
    var t := BuyAnswered(s, i);
    forall a | 0 <= a < |t.attempts| ensures AttemptOk(p, t.attempts[a], LiveBuys(t.orders, a, 0), LiveBuys(t.orders, a, 1)) {
      assert AttemptOk(p, s.attempts[a], LiveBuys(s.orders, a, 0), LiveBuys(s.orders, a, 1));
      LiveUpdate(s.orders, i, t.orders[i], a, 0);
      LiveUpdate(s.orders, i, t.orders[i], a, 1);
    }
  }

  predicate FillsSale(x: Order, e: Execution) {
    0 <= e.quantity <= x.quantity && e.debit == 0 && 0 <= e.credit <= e.notional
  }

  lemma SaleArrivedKeeps(p: Policy, s: Account, i: nat, e: Execution)
    requires Consistent(p, s, None) && i < |s.orders| && !s.orders[i].arrived && s.orders[i].sell && FillsSale(s.orders[i], e)
    requires s.exitCredit + e.credit <= CASH_LIMIT && s.exitFees + (e.notional - e.credit) <= CASH_LIMIT
    ensures Consistent(p, SaleArrived(s, i, e), None)
  {
    hide Sum, LiveBuys, Reserved, AttemptOk;
    var t := SaleArrived(s, i, e);
    assert OrderOk(p, s.attempts, s.orders[i]);
    SumsUpdate(s, i, t.orders[i]);
    forall a | 0 <= a < |t.attempts| ensures AttemptOk(p, t.attempts[a], LiveBuys(t.orders, a, 0), LiveBuys(t.orders, a, 1)) {
      LiveUpdate(s.orders, i, t.orders[i], a, 0);
      LiveUpdate(s.orders, i, t.orders[i], a, 1);
    }
  }

  lemma SaleAnsweredKeeps(p: Policy, s: Account, i: nat)
    requires Consistent(p, s, None) && i < |s.orders| && s.orders[i].arrived && !s.orders[i].responded && s.orders[i].sell
    ensures Consistent(p, SaleAnswered(s, i), None)
  {
    hide Sum, LiveBuys, Reserved, AttemptOk;
    var t := SaleAnswered(s, i);
    assert OrderOk(p, s.attempts, s.orders[i]);
    SumsUpdate(s, i, t.orders[i]);
    forall a | 0 <= a < |t.attempts| ensures AttemptOk(p, t.attempts[a], LiveBuys(t.orders, a, 0), LiveBuys(t.orders, a, 1)) {
      LiveUpdate(s.orders, i, t.orders[i], a, 0);
      LiveUpdate(s.orders, i, t.orders[i], a, 1);
    }
  }

  /** An attempt changes; its own orders still fit it. */
  lemma AttemptChanged(p: Policy, s: Account, k: nat, a: Attempt)
    requires OrdersOk(p, s.attempts, s.orders) && AttemptsOk(p, s.attempts, s.orders) && k < |s.attempts|
    requires AttemptOk(p, a, LiveBuys(s.orders, k, 0), LiveBuys(s.orders, k, 1))
    requires forall j :: 0 <= j < |s.orders| && s.orders[j].attempt == k ==> OrderFits(p, a, s.orders[j])
    ensures OrdersOk(p, s.attempts[k := a], s.orders) && AttemptsOk(p, s.attempts[k := a], s.orders)
  {
    hide OrderFits, AttemptOk, LiveBuys;
    forall j | 0 <= j < |s.orders| ensures OrderOk(p, s.attempts[k := a], s.orders[j]) {
      assert OrderOk(p, s.attempts, s.orders[j]);
    }
  }

  lemma AcquisitionFinishedKeeps(p: Policy, s: Account, k: nat)
    requires k < |s.attempts| && Consistent(p, s, Some(k)) && s.attempts[k].pendingBuys == 0
    ensures Consistent(p, AcquisitionFinished(s, k), None)
  {
    hide Sum, LiveBuys, Reserved, Reserve;
    var t := AcquisitionFinished(s, k);
    ReservedUpdate(s.attempts, k, t.attempts[k]);
    assert AttemptOk(p, s.attempts[k], LiveBuys(s.orders, k, 0), LiveBuys(s.orders, k, 1));
    LiveMeaning(s.orders, k, 1);
    forall j | 0 <= j < |s.orders| && s.orders[j].attempt == k ensures OrderFits(p, t.attempts[k], s.orders[j]) {
      assert OrderOk(p, s.attempts, s.orders[j]);
      assert !Live(s.orders[j], k, 1);
    }
    AttemptChanged(p, s, k, t.attempts[k]);
    hide OrdersOk, AttemptsOk;
  }

  lemma ExitDecidedKeeps(p: Policy, s: Account, k: nat)
    requires k < |s.attempts| && Consistent(p, s, None) && s.attempts[k].pendingBuys == 0
    ensures Consistent(p, ExitDecided(s, k), None)
  {
    hide Sum, LiveBuys, Reserved, Reserve;
    var t := ExitDecided(s, k);
    ReservedUpdate(s.attempts, k, t.attempts[k]);
    assert AttemptOk(p, s.attempts[k], LiveBuys(s.orders, k, 0), LiveBuys(s.orders, k, 1));
    forall j | 0 <= j < |s.orders| && s.orders[j].attempt == k ensures OrderFits(p, t.attempts[k], s.orders[j]) {
      assert OrderOk(p, s.attempts, s.orders[j]);
    }
    AttemptChanged(p, s, k, t.attempts[k]);
    hide OrdersOk, AttemptsOk;
  }

  /** A parallel attempt whose buys are all answered holds no reservation. */
  lemma ParallelReleased(p: Policy, s: Account, k: nat)
    requires k < |s.attempts| && Consistent(p, s, Some(k)) && !p.sequential
    ensures Consistent(p, s, None)
  {
    hide Sum, LiveBuys, Reserved;
    assert AttemptOk(p, s.attempts[k], LiveBuys(s.orders, k, 0), LiveBuys(s.orders, k, 1));
  }

  lemma ExitSentKeeps(p: Policy, s: Account, k: nat, leg: nat, quantity: int, limit: Price, time: int)
    requires k < |s.attempts| && Consistent(p, s, None) && s.attempts[k].exitConsidered && leg < 2
    requires 0 < quantity <= QUANTITY_LIMIT && OnGrid(quantity, p.step) && ValidPolicy(p) && p.exit.Some?
    requires quantity <= s.attempts[k].fills.At(leg).quantity - s.attempts[k].fills.At(1 - leg).quantity
    requires forall j :: 0 <= j < |s.orders| && s.orders[j].sell ==> s.orders[j].attempt != k
    ensures Consistent(p, ExitSent(s, k, leg, quantity, limit, time), None)
  {
    hide Sum, LiveBuys, Reserved, AttemptOk;
    var t := ExitSent(s, k, leg, quantity, limit, time);
    var x := t.orders[|s.orders|];
    SumsAppend(s.orders, x);
    assert Tradable(p, s.attempts[k].legs) by { AttemptsTradable(p, s, k); }
    forall a | 0 <= a < |t.attempts| ensures AttemptOk(p, t.attempts[a], LiveBuys(t.orders, a, 0), LiveBuys(t.orders, a, 1)) {
      LiveAppend(s.orders, x, a, 0);
      LiveAppend(s.orders, x, a, 1);
    }
    assert OrderOk(p, t.attempts, x);
  }

  lemma AttemptsTradable(p: Policy, s: Account, k: nat)
    requires AttemptsOk(p, s.attempts, s.orders) && k < |s.attempts|
    ensures Tradable(p, s.attempts[k].legs)
  {
    assert AttemptOk(p, s.attempts[k], LiveBuys(s.orders, k, 0), LiveBuys(s.orders, k, 1));
  }

  lemma CompletionSentKeeps(p: Policy, s: Account, k: nat, quantity: int, limit: Price, needed: int, time: int)
    requires ValidPolicy(p) && p.sequential && k < |s.attempts| && Consistent(p, s, Some(k))
    requires var a := s.attempts[k];
      && a.pendingBuys == 0 && !a.exitConsidered && a.completionOrders < p.maxCompletionOrders
      && Tradable(p, a.legs)
      && 0 < quantity <= a.fills.first.quantity - a.fills.second.quantity && OnGrid(quantity, p.step)
      && needed == Reserve(quantity, p.step, limit, p.fees[a.legs.second.marketId]) <= s.available + a.reserve.second
    ensures Consistent(p, CompletionSent(s, k, quantity, limit, needed, time), None)
  {
    hide Sum, LiveBuys, Reserved, Reserve;
    var t := CompletionSent(s, k, quantity, limit, needed, time);
    var x, a := t.orders[|s.orders|], t.attempts[k];
    SumsAppend(s.orders, x);
    ReservedUpdate(s.attempts, k, a);
    assert AttemptOk(p, s.attempts[k], LiveBuys(s.orders, k, 0), LiveBuys(s.orders, k, 1));
    LiveMeaning(s.orders, k, 0);
    LiveMeaning(s.orders, k, 1);
    forall j | 0 <= j < |t.orders| ensures OrderOk(p, t.attempts, t.orders[j]) {
      if j < |s.orders| {
        assert OrderOk(p, s.attempts, s.orders[j]);
      }
    }
    forall b | 0 <= b < |t.attempts| ensures AttemptOk(p, t.attempts[b], LiveBuys(t.orders, b, 0), LiveBuys(t.orders, b, 1)) {
      assert AttemptOk(p, s.attempts[b], LiveBuys(s.orders, b, 0), LiveBuys(s.orders, b, 1));
      LiveAppend(s.orders, x, b, 0);
      LiveAppend(s.orders, x, b, 1);
    }
    hide OrdersOk, AttemptsOk;
  }

  lemma PaidKeeps(p: Policy, s: Account, payout: int)
    requires Consistent(p, s, None) && 0 <= payout && s.settlementCash + payout <= CASH_LIMIT
    ensures Consistent(p, Paid(s, payout), None)
  {
    hide Sum, LiveBuys, Reserved, OrdersOk, AttemptsOk;
  }

  /** What sizing has established for a new attempt. */
  predicate NewAttempt(p: Policy, a: Attempt) {
    && Tradable(p, a.legs) && ValidFee(p.fees[a.legs.first.marketId]) && ValidFee(p.fees[a.legs.second.marketId])
    && p.step > 0 && 0 < a.quantity <= QUANTITY_LIMIT && OnGrid(a.quantity, p.step)
    && a.reserve.first == Reserve(a.quantity, p.step, a.limit.first, p.fees[a.legs.first.marketId])
    && a.reserve.second == Reserve(a.quantity, p.step, a.limit.second, p.fees[a.legs.second.marketId])
    && a.fills == Legs(NOTHING, NOTHING) && a.completionOrders == 0 && a.pendingBuys == 0 && !a.exitConsidered
  }

  lemma DecidedKeeps(p: Policy, s: Account, a: Attempt, time: int)
    requires Consistent(p, s, None) && NewAttempt(p, a) && a.reserve.first + a.reserve.second <= s.available
    ensures Consistent(p, Decided(p, s, a, time), None)
  {
    hide Sum, LiveBuys, Reserved, Reserve;
    var t, n := Decided(p, s, a, time), |s.attempts|;
    var x, y := FirstOrder(s, a, 0), FirstOrder(s, a, 1);
    ReservedAppend(s.attempts, t.attempts[n]);
    SumsAppend(s.orders, x);
    SumsAppend(s.orders + [x], y);
    DecidedKeepsOrders(p, s, a, time);
    DecidedKeepsAttempts(p, s, a, time);
    hide OrdersOk, AttemptsOk, NewAttempt;
  }

  lemma DecidedKeepsOrders(p: Policy, s: Account, a: Attempt, time: int)
    requires OrdersOk(p, s.attempts, s.orders) && NewAttempt(p, a)
    ensures OrdersOk(p, Decided(p, s, a, time).attempts, Decided(p, s, a, time).orders)
  {
    hide Reserve;
    var t := Decided(p, s, a, time);
    forall j | 0 <= j < |t.orders| ensures OrderOk(p, t.attempts, t.orders[j]) {
      if j < |s.orders| {
        assert OrderOk(p, s.attempts, s.orders[j]);
      }
    }
  }

  lemma DecidedKeepsAttempts(p: Policy, s: Account, a: Attempt, time: int)
    requires OrdersOk(p, s.attempts, s.orders) && AttemptsOk(p, s.attempts, s.orders) && NewAttempt(p, a)
    ensures AttemptsOk(p, Decided(p, s, a, time).attempts, Decided(p, s, a, time).orders)
  {
    hide Reserve, LiveBuys;
    var t, n := Decided(p, s, a, time), |s.attempts|;
    var x, y := FirstOrder(s, a, 0), FirstOrder(s, a, 1);
    forall j | 0 <= j < |s.orders| ensures s.orders[j].attempt != n {
      assert OrderOk(p, s.attempts, s.orders[j]);
    }
    LiveMeaning(s.orders, n, 0);
    LiveMeaning(s.orders, n, 1);
    forall b | 0 <= b < |t.attempts| ensures AttemptOk(p, t.attempts[b], LiveBuys(t.orders, b, 0), LiveBuys(t.orders, b, 1)) {
      LiveAppend(s.orders, x, b, 0);
      LiveAppend(s.orders, x, b, 1);
      LiveAppend(s.orders + [x], y, b, 0);
      LiveAppend(s.orders + [x], y, b, 1);
      if b < n {
        assert AttemptOk(p, s.attempts[b], LiveBuys(s.orders, b, 0), LiveBuys(s.orders, b, 1));
      }
    }
  }

  // ------------------------------------------------------------------------
  // The queue through each step
  // ------------------------------------------------------------------------

  /** Nothing in the queue is earlier than its first event. */
  lemma FirstIsNext(orders: seq<Order>, events: seq<Event>, now: int)
    requires EventsOk(orders, events, now) && events != []
    ensures EventFits(orders, now, events[0])
    ensures forall i :: 0 < i < |events| ==> EventFits(orders, events[0].time, events[i]) && events[i].order != events[0].order
    ensures InOrder(events[1..]) && DistinctOrders(events[1..])
  {
    assert forall i :: 0 < i < |events| ==> !Precedes(events[i], events[0]);
  }

  /** Time may pass until the first event. */
  lemma TimePasses(orders: seq<Order>, events: seq<Event>, now: int, later: int)
    requires EventsOk(orders, events, now) && (events != [] ==> later <= events[0].time)
    ensures EventsOk(orders, events, later)
  {
    assert forall i :: 0 < i < |events| ==> !Precedes(events[i], events[0]);
    hide Sum;
  }

  lemma SubmitKeepsEvents(orders: seq<Order>, events: seq<Event>, now: int, x: Order, time: int)
    requires EventsOk(orders, events, now) && now <= time <= INT64_MAX && !x.arrived && !x.responded
    ensures EventsOk(orders + [x], Insert(events, Event(time, |orders|, false)), now)
  {
    var e := Event(time, |orders|, false);
    InsertKeepsOrder(events, e);
    InsertDistinct(events, e);
    InsertAll(events, e, orders + [x], now);
    SumAppend(orders, x, Waiting);
    hide Sum;
  }

  /** The first event is an arrival; its order's response is scheduled. */
  lemma ArrivalKeepsEvents(orders: seq<Order>, events: seq<Event>, now: int, x: Order, time: int)
    requires EventsOk(orders, events, now) && events != [] && !events[0].response
    requires x.arrived && !x.responded && events[0].time <= time <= INT64_MAX
    ensures events[0].order < |orders|
    ensures EventsOk(orders[events[0].order := x], Insert(events[1..], Event(time, events[0].order, true)), events[0].time)
  {
    FirstIsNext(orders, events, now);
    var o, e := events[0].order, Event(time, events[0].order, true);
    InsertKeepsOrder(events[1..], e);
    InsertDistinct(events[1..], e);
    InsertAll(events[1..], e, orders[o := x], events[0].time);
    SumUpdate(orders, o, x, Waiting);
    hide Sum;
  }

  /** The first event is a response. */
  lemma ResponseKeepsEvents(orders: seq<Order>, events: seq<Event>, now: int, x: Order)
    requires EventsOk(orders, events, now) && events != [] && events[0].response && x.responded
    ensures events[0].order < |orders|
    ensures EventsOk(orders[events[0].order := x], events[1..], events[0].time)
  {
    FirstIsNext(orders, events, now);
    SumUpdate(orders, events[0].order, x, Waiting);
    hide Sum;
  }

  // ------------------------------------------------------------------------
  // Termination
  // ------------------------------------------------------------------------

  /** The events that an order still causes. */
  function Weight(x: Order): int {
    if !x.arrived then 2 else if !x.responded then 1 else 0
  }

  /** What is left to process: settlements, events, and orders that may still be sent. */
  function Remaining(p: Policy, s: Account, settled: nat): int {
    |p.settlements| - settled + Sum(s.orders, Weight) + Budgets(p, s.attempts)
  }

  lemma RemainingNonNegative(p: Policy, s: Account, settled: nat, busy: Option<nat>)
    requires Consistent(p, s, busy) && settled <= |p.settlements|
    ensures Remaining(p, s, settled) >= 0
  {
    hide LiveBuys, Reserve, Reserved;
    SumAtMost(s.orders, Weight, Weight);
    forall a | 0 <= a < |s.attempts| ensures s.attempts[a].completionOrders <= p.maxCompletionOrders {
      assert AttemptOk(p, s.attempts[a], LiveBuys(s.orders, a, 0), LiveBuys(s.orders, a, 1));
    }
    BudgetsNonNegative(p, s.attempts);
  }

  lemma RemainingSubmitted(p: Policy, s: Account, x: Order, time: int, settled: nat)
    requires !x.arrived
    ensures Remaining(p, Submitted(s, x, time), settled) == Remaining(p, s, settled) + 2
  {
    SumAppend(s.orders, x, Weight);
    hide Sum, Budgets, Insert;
  }

  lemma RemainingAttempt(p: Policy, s: Account, s': Account, k: nat, settled: nat)
    requires k < |s.attempts| && s'.orders == s.orders && |s'.attempts| == |s.attempts| && s'.attempts == s.attempts[k := s'.attempts[k]]
    ensures Remaining(p, s', settled) == Remaining(p, s, settled) - Budget(p, s.attempts[k]) + Budget(p, s'.attempts[k])
  {
    BudgetsUpdate(p, s.attempts, k, s'.attempts[k]);
    hide Sum, Budgets;
  }

  lemma RemainingOrder(p: Policy, s: Account, s': Account, i: nat, x: Order, settled: nat)
    requires i < |s.orders| && s'.attempts == s.attempts && s'.orders == s.orders[i := x]
    ensures Remaining(p, s', settled) == Remaining(p, s, settled) - Weight(s.orders[i]) + Weight(x)
  {
    SumUpdate(s.orders, i, x, Weight);
    hide Sum, Budgets;
  }

  // ------------------------------------------------------------------------
  // What follows
  // ------------------------------------------------------------------------

  /** The run-time check of the accounts never fails, and no account outgrows 64 bits. */
  lemma AccountsHold(p: Policy, s: Account, busy: Option<nat>)
    requires ValidPolicy(p) && Consistent(p, s, busy)
    ensures 0 <= s.available && 0 <= s.reservedTotal && 0 <= s.unconfirmedDebit <= s.spent && 0 <= s.unconfirmedCredit <= s.exitCredit
    ensures s.available + s.reservedTotal <= p.capital + s.settlementCash + s.exitCredit <= 3 * CASH_LIMIT
    ensures 0 <= s.exitFees
  {
    hide LiveBuys, Reserve, Reserved;
    forall j | 0 <= j < |s.orders|
      ensures 0 <= Unconfirmed(s.orders[j]) <= Bought(s.orders[j]) && 0 <= SoldUnconfirmed(s.orders[j]) <= Sold(s.orders[j])
      ensures 0 <= SaleFee(s.orders[j])
    {
      assert OrderOk(p, s.attempts, s.orders[j]);
    }
    SumAtMost(s.orders, Unconfirmed, Bought);
    SumAtMost(s.orders, SoldUnconfirmed, Sold);
    SumAtMost(s.orders, SaleFee, SaleFee);
    forall a | 0 <= a < |s.attempts| ensures s.attempts[a].reserve.first >= 0 && s.attempts[a].reserve.second >= 0 {
      assert AttemptOk(p, s.attempts[a], LiveBuys(s.orders, a, 0), LiveBuys(s.orders, a, 1));
    }
    ReservedAtLeast(s.attempts, 0);
    hide Sum;
  }

  /** With every order answered nothing is reserved or unconfirmed: all the cash is available,
      and it is exactly capital less purchases plus settlements and sales. */
  lemma AllAnswered(p: Policy, s: Account)
    requires ValidPolicy(p) && Consistent(p, s, None) && forall i :: 0 <= i < |s.orders| ==> s.orders[i].responded
    ensures s.reservedTotal == 0 && s.unconfirmedDebit == 0 && s.unconfirmedCredit == 0
    ensures s.available == p.capital - s.spent + s.settlementCash + s.exitCredit
  {
    hide Reserve;
    forall a | 0 <= a < |s.attempts| ensures s.attempts[a].reserve == Legs(0, 0) {
      LiveMeaning(s.orders, a, 0);
      LiveMeaning(s.orders, a, 1);
      assert AttemptOk(p, s.attempts[a], LiveBuys(s.orders, a, 0), LiveBuys(s.orders, a, 1));
    }
    NothingReserved(s.attempts);
    forall j | 0 <= j < |s.orders| ensures Unconfirmed(s.orders[j]) == SoldUnconfirmed(s.orders[j]) == 0 {
    }
    SumOfZeros(s.orders, Unconfirmed);
    SumOfZeros(s.orders, SoldUnconfirmed);
    hide Sum, Reserved;
  }

  lemma {:induction false} NothingReserved(attempts: seq<Attempt>)
    requires forall a :: 0 <= a < |attempts| ==> attempts[a].reserve == Legs(0, 0)
    ensures Reserved(attempts) == 0
    decreases |attempts|
  {
    if attempts != [] {
      NothingReserved(attempts[..|attempts| - 1]);
    }
  }

  lemma {:induction false} SumOfZeros(orders: seq<Order>, f: Order -> int)
    requires forall i :: 0 <= i < |orders| ==> f(orders[i]) == 0
    ensures Sum(orders, f) == 0
    decreases orders
  {
    if orders != [] {
      SumOfZeros(orders[1..], f);
    }
  }

  /** Sequential execution never buys more of the second leg than of the first, nor of either
      more than the decision; and an exit is at most one order per attempt, after all buys, and
      sells no more than what its leg has been bought beyond the other. */
  lemma HedgeWithinAttempt(p: Policy, s: Account, k: nat)
    requires Consistent(p, s, None) && k < |s.attempts|
    ensures var a := s.attempts[k];
      && a.fills.first.quantity <= a.quantity && a.fills.second.quantity <= a.quantity
      && (p.sequential ==> a.fills.second.quantity <= a.fills.first.quantity)
      && (forall i :: 0 <= i < |s.orders| && s.orders[i].attempt == k && s.orders[i].sell ==>
            && s.orders[i].leg < 2 && 0 < s.orders[i].quantity
            && s.orders[i].quantity <= a.fills.At(s.orders[i].leg).quantity - a.fills.At(1 - s.orders[i].leg).quantity
            && a.pendingBuys == 0 && forall j :: 0 <= j < |s.orders| && s.orders[j].attempt == k && j != i ==> !s.orders[j].sell && s.orders[j].responded)
  {
    hide Reserve;
    var a := s.attempts[k];
    LiveMeaning(s.orders, k, 0);
    LiveMeaning(s.orders, k, 1);
    hide LiveBuys, Sum, Reserved;
    assert AttemptOk(p, a, LiveBuys(s.orders, k, 0), LiveBuys(s.orders, k, 1));
    forall i, j | 0 <= i < |s.orders| && 0 <= j < |s.orders| && s.orders[i].attempt == k == s.orders[j].attempt && s.orders[i].sell && j != i
      ensures a.pendingBuys == 0 && !s.orders[j].sell && s.orders[j].responded
    {
      assert OrderOk(p, s.attempts, s.orders[i]) && OrderOk(p, s.attempts, s.orders[j]);
      assert !Live(s.orders[j], k, 0) && !Live(s.orders[j], k, 1);
    }
    forall i | 0 <= i < |s.orders| && s.orders[i].attempt == k && s.orders[i].sell
      ensures a.pendingBuys == 0 && s.orders[i].leg < 2 && 0 < s.orders[i].quantity
      ensures s.orders[i].quantity <= a.fills.At(s.orders[i].leg).quantity - a.fills.At(1 - s.orders[i].leg).quantity
    {
      assert OrderOk(p, s.attempts, s.orders[i]);
    }
  }

  /** Before an attempt has considered its exit it has sent none. */
  lemma NoExitYet(p: Policy, s: Account, k: nat, busy: Option<nat>)
    requires Consistent(p, s, busy) && k < |s.attempts| && !s.attempts[k].exitConsidered
    ensures forall j :: 0 <= j < |s.orders| && s.orders[j].sell ==> s.orders[j].attempt != k
  {
    hide AttemptsOk, OneExit, Released, Money;
    forall j | 0 <= j < |s.orders| && s.orders[j].sell ensures s.orders[j].attempt != k {
      assert OrderOk(p, s.attempts, s.orders[j]);
    }
  }

  lemma AttemptFacts(p: Policy, s: Account, k: nat, busy: Option<nat>)
    requires Consistent(p, s, busy) && k < |s.attempts|
    ensures AttemptOk(p, s.attempts[k], LiveBuys(s.orders, k, 0), LiveBuys(s.orders, k, 1))
  {
    hide OrdersOk, OneExit, Released, Money, AttemptOk;
  }

  lemma OrderFacts(p: Policy, s: Account, i: nat, busy: Option<nat>)
    requires Consistent(p, s, busy) && i < |s.orders|
    ensures OrderOk(p, s.attempts, s.orders[i])
  {
    hide AttemptsOk, OneExit, Released, Money, OrderOk;
  }

  /** The accounts do not depend on the queue. */
  lemma QueueIrrelevant(p: Policy, s: Account, events: seq<Event>, busy: Option<nat>)
    requires Consistent(p, s, busy)
    ensures Consistent(p, s.(events := events), busy)
  {
    hide OrdersOk, AttemptsOk, OneExit, Released, Sum, Reserved;
  }

  lemma CashConserved(p: Policy, s: Account, busy: Option<nat>)
    requires Consistent(p, s, busy)
    ensures Conserves(p, s)
  {
    hide OrdersOk, AttemptsOk, Released, OneExit, Sum, Reserved;
  }

  // ------------------------------------------------------------------------
  // Cash above the sizing limit
  // ------------------------------------------------------------------------

  /** Sizing accepts at most CASH_LIMIT of available cash. It is exceeded exactly when what
      settlements and answered sales have brought in, less what answered purchases took, is more
      than the capital leaves below the limit and the reservations still hold. */
  lemma AvailableWithinLimit(p: Policy, s: Account)
    requires ValidPolicy(p) && Consistent(p, s, None)
    ensures s.available > CASH_LIMIT <==>
      s.settlementCash + (s.exitCredit - s.unconfirmedCredit) - (s.spent - s.unconfirmedDebit) > CASH_LIMIT - p.capital + s.reservedTotal
    ensures s.available > CASH_LIMIT ==> s.settlementCash + s.exitCredit > 0
  {
    hide Consistent;
    AccountsHold(p, s, None);
    CashConserved(p, s, None);
  }
}
