/** One scenario of the three-leg execution study (src/session/basket_execution.cpp): orders for
    one leg after another with a fixed delay, an exit of whatever was bought when a leg fails,
    and cumulative deductions from the displayed levels. */
module BasketExecution {
  import opened FixedPoint
  import opened Contracts
  import opened ExecutionCost
  import opened Reservation
  import opened OrderBooks
  import opened DepthWalk
  import BasketSizing
  import LiquidityWalk

  /** One value per leg. */
  datatype Three<T> = Three(first: T, second: T, third: T) {
    function At(leg: nat): T {
      if leg == 0 then first else if leg == 1 then second else third
    }

    function With(leg: nat, x: T): Three<T> {
      if leg == 0 then Three(x, second, third) else if leg == 1 then Three(first, x, third) else Three(first, second, x)
    }
  }

  datatype Basket = Basket(id: nat, markets: Three<nat>)

  /** A market as last seen: bids descending and asks ascending, in YES units. */
  datatype Cached = Cached(bids: seq<Level>, asks: seq<Level>, valid: bool)

  /** A side of one leg's market, seen as prices of the outcome that is bought or sold. */
  datatype Want = Want(market: nat, yes: bool, sell: bool)

  datatype Fill = Fill(quantity: nat, cash: int, limit: Price)

  const NOTHING := Fill(0, 0, 0)

  function AskSide(w: Want): bool {
    w.yes != w.sell
  }

  function Displayed(c: Cached, w: Want): seq<Level> {
    if !c.valid then [] else if AskSide(w) then c.asks else c.bids
  }

  /** Outcome price from book price, and back. */
  function Converted(w: Want, p: Price): Price {
    if w.yes then p else PRICE_SCALE - p
  }

  function KeyOf(w: Want, p: Price): Key {
    Key(w.market, AskSide(w), p)
  }

  function Left(level: Level, used: nat): nat {
    if level.quantity > used then level.quantity - used else 0
  }

  /** What a side still offers, at most `room` in all. */
  function Open(w: Want, side: seq<Level>, c: Consumed, room: nat): seq<BuyLevel>
    decreases side
  {
    if side == [] || room == 0 then []
    else
      var take := Min(Left(side[0], Used(c, KeyOf(w, side[0].price))), room);
      if take == 0 then Open(w, side[1..], c, room)
      else [BuyLevel(Converted(w, side[0].price), take)] + Open(w, side[1..], c, room - take)
  }

  predicate Acceptable(w: Want, limit: Price, p: Price) {
    if w.sell then p >= limit else p <= limit
  }

  /** The fills of an order for `desired` on open levels. */
  function Filled(w: Want, levels: seq<BuyLevel>, limit: Price, desired: nat): seq<Trade>
    decreases levels
  {
    if levels == [] || !Acceptable(w, limit, levels[0].price) then []
    else
      var q := Min(desired, levels[0].quantity);
      if q == 0 then [] else [Trade(q, levels[0].price)] + Filled(w, levels[1..], limit, desired - q)
  }

  function Deduct(w: Want, c: Consumed, t: Trade): Consumed {
    var key := KeyOf(w, Converted(w, t.price));
    c[key := Used(c, key) + t.quantity]
  }

  function DeductAll(w: Want, c: Consumed, trades: seq<Trade>): Consumed
    decreases trades
  {
    if trades == [] then c else DeductAll(w, Deduct(w, c, trades[0]), trades[1..])
  }

  function LedgerOf(w: Want, fee: FeePolicy, trades: seq<Trade>): Ledger
    requires ValidFee(fee)
  {
    AddFills(!w.sell, OPENED, trades, fee)
  }

  function Outcome(w: Want, fee: FeePolicy, trades: seq<Trade>): Fill
    requires ValidFee(fee)
  {
    Fill(LedgerOf(w, fee, trades).quantity, LedgerOf(w, fee, trades).cash, if trades == [] then 0 else trades[|trades| - 1].price)
  }

  // ------------------------------------------------------------------------
  // What a fill guarantees
  // ------------------------------------------------------------------------

  lemma {:induction false} FilledWithin(w: Want, levels: seq<BuyLevel>, limit: Price, desired: nat)
    ensures var ts := Filled(w, levels, limit, desired);
      && TotalQuantity(ts) <= desired
      && (forall i :: 0 <= i < |ts| ==> ts[i].quantity > 0 && Acceptable(w, limit, ts[i].price))
    decreases levels
  {
    if levels != [] && Acceptable(w, limit, levels[0].price) && Min(desired, levels[0].quantity) != 0 {
      var q := Min(desired, levels[0].quantity);
      FilledWithin(w, levels[1..], limit, desired - q);
      var rest := Filled(w, levels[1..], limit, desired - q);
      assert ([Trade(q, levels[0].price)] + rest)[1..] == rest;
    }
  }

  /** No buy costs more than what was set aside for it. */
  lemma BuyFunded(w: Want, levels: seq<BuyLevel>, limit: Price, desired: nat, fee: FeePolicy)
    requires !w.sell && ValidFee(fee)
    ensures var f := Outcome(w, fee, Filled(w, levels, limit, desired));
      && f.quantity <= desired && 0 <= f.cash <= Reserve(desired, 1, limit, fee)
  {
    var ts := Filled(w, levels, limit, desired);
    FilledWithin(w, levels, limit, desired);
    hide Filled, Reserve;
    FreshOrderTotals(true, ts, fee);
    LiquidityWalk.TotalsNonNegative(ts, fee.coefficient);
    DebitWithinReservation(ts, desired, 1, limit, fee);
  }

  lemma SaleNonNegative(w: Want, levels: seq<BuyLevel>, limit: Price, desired: nat, fee: FeePolicy)
    requires w.sell && ValidFee(fee)
    ensures var f := Outcome(w, fee, Filled(w, levels, limit, desired)); f.quantity <= desired && f.cash >= 0
  {
    var ts := Filled(w, levels, limit, desired);
    FilledWithin(w, levels, limit, desired);
    hide Filled;
    FreshOrderTotals(false, ts, fee);
    LiquidityWalk.CreditsNonNegative(OPENED, ts, fee);
  }

  predicate DistinctPrices(side: seq<Level>) {
    forall i, j :: 0 <= i < j < |side| ==> side[i].price != side[j].price
  }

  /** A key's consumption is unchanged, or has grown within what one level displays there. */
  predicate WithinDisplay(w: Want, side: seq<Level>, key: Key, before: nat, after: nat) {
    after == before || exists i :: 0 <= i < |side| && key == KeyOf(w, side[i].price) && before < after <= side[i].quantity
  }

  lemma WithinLater(w: Want, side: seq<Level>, key: Key, before: nat, after: nat)
    requires side != [] && DistinctPrices(side) && WithinDisplay(w, side[1..], key, before, after)
    ensures WithinDisplay(w, side, key, before, after)
    ensures key == KeyOf(w, side[0].price) ==> after == before
  {
    if after != before {
      var i :| 0 <= i < |side[1..]| && key == KeyOf(w, side[1..][i].price) && before < after <= side[1..][i].quantity;
      assert side[i + 1] == side[1..][i];
    }
  }

  lemma DeductMeaning(w: Want, c: Consumed, t: Trade, p: Price, key: Key)
    requires t.price == Converted(w, p)
    ensures Used(Deduct(w, c, t), key) == Used(c, key) + (if key == KeyOf(w, p) then t.quantity else 0)
  {
  }

  /** The consumption after an order for `desired` on a side that was opened with `c`. */
  function Depleted(w: Want, side: seq<Level>, c: Consumed, room: nat, limit: Price, desired: nat, now: Consumed): Consumed {
    DeductAll(w, now, Filled(w, Open(w, side, c, room), limit, desired))
  }

  lemma DepletedUnfolds(w: Want, side: seq<Level>, c: Consumed, room: nat, limit: Price, desired: nat, now: Consumed, take: nat, t: Trade)
    requires side != [] && room != 0 && take == Min(Left(side[0], Used(c, KeyOf(w, side[0].price))), room)
    requires t == Trade(Min(desired, take), Converted(w, side[0].price))
    ensures Depleted(w, side, c, room, limit, desired, now) ==
      if take == 0 then Depleted(w, side[1..], c, room, limit, desired, now)
      else if Acceptable(w, limit, t.price) && t.quantity != 0 then
        Depleted(w, side[1..], c, room - take, limit, desired - t.quantity, Deduct(w, now, t))
      else now
  {
    hide KeyOf, Used, Deduct, Converted, Acceptable;
    if take != 0 {
      var open := Open(w, side[1..], c, room - take);
      assert ([BuyLevel(t.price, take)] + open)[1..] == open;
      if Acceptable(w, limit, t.price) && t.quantity != 0 {
        var tail := Filled(w, open, limit, desired - t.quantity);
        assert ([t] + tail)[1..] == tail;
      }
    }
  }

  /** Every deduction stays within what its level displays: `c` is the consumption that the
      levels were opened with, `now` the current one, equal on the levels still ahead. */
  lemma {:induction false} DeductionsDisplayed(w: Want, side: seq<Level>, c: Consumed, room: nat, limit: Price, desired: nat, now: Consumed, key: Key)
    requires DistinctPrices(side)
    requires forall i :: 0 <= i < |side| ==> Used(now, KeyOf(w, side[i].price)) == Used(c, KeyOf(w, side[i].price))
    ensures WithinDisplay(w, side, key, Used(now, key), Used(Depleted(w, side, c, room, limit, desired, now), key))
    decreases side
  {
    hide KeyOf, Used, Deduct, Converted, Acceptable, WithinDisplay;
    NothingDeducted(w, side, key, Used(now, key));
    if side != [] && room != 0 {
      hide Depleted;
      var rest, p := side[1..], side[0].price;
      var take := Min(Left(side[0], Used(c, KeyOf(w, p))), room);
      var t := Trade(Min(desired, take), Converted(w, p));
      DepletedUnfolds(w, side, c, room, limit, desired, now, take, t);
      assert forall i :: 0 <= i < |rest| ==> rest[i] == side[i + 1];
      if take == 0 {
        DeductionsDisplayed(w, rest, c, room, limit, desired, now, key);
        WithinLater(w, side, key, Used(now, key), Used(Depleted(w, rest, c, room, limit, desired, now), key));
      } else if Acceptable(w, limit, t.price) && t.quantity != 0 {
        forall i | 0 <= i < |rest| ensures Used(Deduct(w, now, t), KeyOf(w, rest[i].price)) == Used(c, KeyOf(w, rest[i].price)) {
          DeductMeaning(w, now, t, p, KeyOf(w, rest[i].price));
          KeysDiffer(w, p, rest[i].price);
        }
        DeductionsDisplayed(w, rest, c, room - take, limit, desired - t.quantity, Deduct(w, now, t), key);
        var after := Used(Depleted(w, rest, c, room - take, limit, desired - t.quantity, Deduct(w, now, t)), key);
        WithinLater(w, side, key, Used(Deduct(w, now, t), key), after);
        DeductMeaning(w, now, t, p, key);
        if key == KeyOf(w, p) {
          FirstLevelDisplayed(w, side, key, Used(now, key), after);
        }
      }
    }
  }

  lemma NothingDeducted(w: Want, side: seq<Level>, key: Key, used: nat)
    ensures WithinDisplay(w, side, key, used, used)
  {
  }

  lemma KeysDiffer(w: Want, p: Price, p': Price)
    ensures p != p' ==> KeyOf(w, p) != KeyOf(w, p')
  {
  }

  lemma FirstLevelDisplayed(w: Want, side: seq<Level>, key: Key, before: nat, after: nat)
    requires side != [] && key == KeyOf(w, side[0].price) && before <= after <= side[0].quantity
    ensures WithinDisplay(w, side, key, before, after)
  {
  }

  // ------------------------------------------------------------------------
  // One scenario
  // ------------------------------------------------------------------------

  datatype Stage = BuyArrival | BuyResponse | SellArrival | SellResponse

  datatype Attempt = Attempt(basket: Basket, quantity: nat, spent: int, received: int, due: int, limit: Price, reserve: int,
                             leg: nat, stage: Stage, holdings: Three<int>)

  /** A signal of the control: an episode of a basket has opened. */
  datatype Signal = Signal(basket: Basket, leftCensored: bool)

  datatype Fault = EventTime | Sizing | BuyCost | SellCost | Funding | CashLedger

  datatype Config = Config(capital: int, cap: int, margin: int, maxAttempts: nat, delay: int, fees: map<nat, FeePolicy>)

  predicate ValidConfig(c: Config) {
    && 0 <= c.capital <= CASH_LIMIT && 100 <= c.cap <= 10_000 && c.cap % 100 == 0 && 1 <= c.margin <= 1_000_000
    && 1_000_000 <= c.delay <= 1_000_000_000 && forall m :: m in c.fees ==> ValidFee(c.fees[m])
  }

  /** Every market is cached, its sides as visited from best to worst. */
  predicate Cache(c: Config, books: map<nat, Cached>) {
    forall m :: m in c.fees ==>
      && m in books && Sorted(Bid, books[m].bids) && Sorted(Ask, books[m].asks)
      && |books[m].bids| <= 10_001 && |books[m].asks| <= 10_001
  }

  predicate Tradable(c: Config, b: Basket) {
    b.markets.first in c.fees && b.markets.second in c.fees && b.markets.third in c.fees
  }

  predicate Within(h: Three<int>, q: int) {
    0 <= h.first <= q && 0 <= h.second <= q && 0 <= h.third <= q
  }

  /** The legs before `leg` are bought, and those from `from` on are not. */
  predicate Bought(a: Attempt, leg: nat, from: nat) {
    && (0 < leg ==> a.holdings.first == a.quantity) && (1 < leg ==> a.holdings.second == a.quantity)
    && (2 < leg ==> a.holdings.third == a.quantity)
    && (from <= 0 ==> a.holdings.first == 0) && (from <= 1 ==> a.holdings.second == 0) && (from <= 2 ==> a.holdings.third == 0)
  }

  predicate Sane(c: Config, a: Attempt) {
    && Tradable(c, a.basket) && 0 < a.quantity <= c.cap && Within(a.holdings, a.quantity)
    && 0 <= a.spent && 0 <= a.received && 0 <= a.due <= INT64_MAX
  }

  /** What the stage of an attempt says about its holdings and its reservation. */
  predicate Staged(c: Config, a: Attempt, reserved: int, cash: int) {
    && a.leg < 3
    && match a.stage
       case BuyArrival =>
         && Tradable(c, a.basket) && ValidConfig(c) && a.received == 0 && Bought(a, a.leg, a.leg)
         && a.reserve == reserved == Reserve(a.quantity, 1, a.limit, c.fees[a.basket.markets.At(a.leg)])
       case BuyResponse => a.received == 0 && Bought(a, a.leg, a.leg + 1)
       case _ => reserved == 0
  }

  /** Every fill of an attempt's purchases, and what each of its sales credited. */
  datatype Record = Record(bought: seq<Trade>, credits: seq<int>)

  const NO_TRADES := Record([], [])

  /** An unwound attempt, or one that bought nothing, with its trades. */
  datatype Unwinding = Unwinding(attempt: Attempt, record: Record)

  function Sum<T>(xs: seq<T>, f: T -> int): int {
    if xs == [] then 0 else Sum(xs[..|xs| - 1], f) + f(xs[|xs| - 1])
  }

  lemma SumAppend<T>(xs: seq<T>, x: T, f: T -> int)
    ensures Sum(xs + [x], f) == Sum(xs, f) + f(x)
  {
    assert (xs + [x])[..|xs|] == xs;
  }

  function Itself(x: int): int {
    x
  }

  /** Every fill was at a price of zero. */
  predicate AllFree(trades: seq<Trade>) {
    forall i :: 0 <= i < |trades| ==> trades[i].price == 0
  }

  /** What an attempt has spent and received, by its fills and credits: it cost nothing exactly
      when everything was bought at a price of zero. */
  ghost predicate Recorded(spent: int, received: int, r: Record) {
    && (spent == 0 <==> AllFree(r.bought)) && received == Sum(r.credits, Itself)
    && forall i :: 0 <= i < |r.credits| ==> r.credits[i] >= 0
  }

  /** An attempt bought at a price of zero only, and one of its sales brought in some cash. */
  ghost predicate FreeSale(r: Record) {
    AllFree(r.bought) && exists i :: 0 <= i < |r.credits| && r.credits[i] > 0
  }

  function Payout(a: Attempt): int {
    a.quantity * 20_000
  }

  function Cost(a: Attempt): int {
    a.spent
  }

  function Proceeds(a: Attempt): int {
    a.received - a.spent
  }

  /** The result of unwinding an attempt that cost something. */
  function Unwound(u: Unwinding): int {
    if u.attempt.spent != 0 then Proceeds(u.attempt) else 0
  }

  /** What an attempt without any cost brought in. */
  function Free(u: Unwinding): int {
    if u.attempt.spent != 0 then 0 else u.attempt.received
  }

  /** A completed basket holds all three legs in full, and nothing of it was sold. */
  predicate Whole(a: Attempt) {
    a.holdings == Three(a.quantity, a.quantity, a.quantity) && a.received == 0
  }

  predicate NothingHeld(a: Attempt) {
    a.holdings == Three(0, 0, 0)
  }

  /** What an event can change. */
  datatype View = View(attempt: Option<Attempt>, cash: int, spent: int, received: int, reserved: int, floor: int, completeCost: int,
                       unwindNet: int, completed: nat, exited: nat, empty: nat, breaches: nat, halted: bool, consumed: Consumed,
                       record: Record, gone: seq<Unwinding>, windfall: int, peak: int)

  /** A new scenario holds its capital, and nothing else. */
  function NewView(c: Config): View {
    View(None, c.capital, 0, 0, 0, 0, 0, 0, 0, 0, 0, 0, false, map[], NO_TRADES, [], 0, 0)
  }

  /** The first leg from `leg` on that is held. */
  function NextHeld(h: Three<int>, leg: nat): nat
    decreases 3 - leg
  {
    if leg >= 3 || h.At(leg) != 0 then leg else NextHeld(h, leg + 1)
  }

  /** The next event no longer fits the clock. */
  predicate Late(v: View) {
    v.attempt.Some? && !v.halted && v.attempt.value.due > INT64_MAX
  }

  function ClockFault(v: View): Option<Fault> {
    if Late(v) then Some(EventTime) else None
  }

  /** Unwinding goes on with the next held leg; it ends, or halts on what could not be sold. */
  function AfterExit(c: Config, v: View, a: Attempt, time: int): View {
    var leg := NextHeld(a.holdings, a.leg);
    if leg < 3 then v.(attempt := Some(a.(leg := leg, stage := SellArrival, due := time + c.delay)))
    else if a.holdings != Three(0, 0, 0) then v.(attempt := Some(a.(leg := leg)), halted := true)
    else
      var u := Unwinding(a.(leg := leg), v.record);
      v.(attempt := None, unwindNet := v.unwindNet + Unwound(u), windfall := v.windfall + Free(u), gone := v.gone + [u],
         exited := v.exited + (if a.spent != 0 then 1 else 0), empty := v.empty + (if a.spent != 0 then 0 else 1), record := NO_TRADES)
  }

  lemma ExitIgnoresAttempt(c: Config, v: View, attempt: Option<Attempt>, a: Attempt, time: int)
    ensures AfterExit(c, v.(attempt := attempt), a, time) == AfterExit(c, v, a, time)
  {
  }

  lemma SendIgnoresAttempt(c: Config, v: View, attempt: Option<Attempt>, a: Attempt, time: int, books: map<nat, Cached>)
    requires Ready(c, a, books)
    ensures AfterSend(c, v.(attempt := attempt), a, time, books) == AfterSend(c, v, a, time, books)
  {
    hide AfterExit, LegQuote, Sendable, Reserve;
    ExitIgnoresAttempt(c, v.(reserved := 0), attempt, a.(leg := 0), time);
  }

  predicate Ready(c: Config, a: Attempt, books: map<nat, Cached>) {
    Sane(c, a) && ValidConfig(c) && Cache(c, books) && a.leg < 3
  }

  /** The next leg is sent when what is left of the basket is sendable; otherwise what was
      bought is unwound. */
  ghost function AfterSend(c: Config, v: View, a: Attempt, time: int, books: map<nat, Cached>): View
    requires Ready(c, a, books)
  {
    var limit := LegQuote(c, v.consumed, a, a.leg, books).limit;
    var reserve := Reserve(a.quantity, 1, limit, c.fees[a.basket.markets.At(a.leg)]);
    if Sendable(c, v.consumed, v.cash, a, books) then
      v.(attempt := Some(a.(limit := limit, reserve := reserve, stage := BuyArrival, due := time + c.delay)), reserved := reserve,
         peak := Max(v.peak, c.capital - v.cash + reserve))
    else AfterExit(c, v.(reserved := 0), a.(leg := 0), time)
  }

  function BuyTrades(c: Config, used: Consumed, a: Attempt, books: map<nat, Cached>): seq<Trade>
    requires Ready(c, a, books)
  {
    var w := BuyOf(a, a.leg);
    Filled(w, Open(w, Displayed(books[w.market], w), used, c.cap), a.limit, a.quantity)
  }

  function SaleTrades(c: Config, used: Consumed, a: Attempt, books: map<nat, Cached>): seq<Trade>
    requires Ready(c, a, books)
  {
    var w := SaleOf(a, a.leg);
    Filled(w, Open(w, Displayed(books[w.market], w), used, c.cap), 0, a.holdings.At(a.leg))
  }

  /** What the attempt's next event leads to. */
  ghost function AfterEvent(c: Config, v: View, books: map<nat, Cached>): View
    requires v.attempt.Some? && Ready(c, v.attempt.value, books)
  {
    var a := v.attempt.value;
    match a.stage
    case BuyArrival =>
      var w, trades := BuyOf(a, a.leg), BuyTrades(c, v.consumed, a, books);
      var f := Outcome(w, c.fees[w.market], trades);
      v.(attempt := Some(a.(holdings := a.holdings.With(a.leg, f.quantity), spent := a.spent + f.cash, stage := BuyResponse, due := a.due + c.delay)),
         cash := v.cash - f.cash, spent := v.spent + f.cash, reserved := a.reserve - f.cash, consumed := DeductAll(w, v.consumed, trades),
         record := v.record.(bought := v.record.bought + trades))
    case SellArrival =>
      var w, trades := SaleOf(a, a.leg), SaleTrades(c, v.consumed, a, books);
      var f := Outcome(w, c.fees[w.market], trades);
      v.(attempt := Some(a.(holdings := a.holdings.With(a.leg, a.holdings.At(a.leg) - f.quantity), received := a.received + f.cash,
                            stage := SellResponse, due := a.due + c.delay)),
         cash := v.cash + f.cash, received := v.received + f.cash, consumed := DeductAll(w, v.consumed, trades), 
         record := v.record.(credits := v.record.credits + [f.cash]))
    case BuyResponse =>
      if a.holdings.At(a.leg) != a.quantity then AfterExit(c, v.(reserved := 0), a.(leg := 0), a.due)
      else if a.leg == 2 then
        v.(attempt := None, record := NO_TRADES, reserved := 0, completed := v.completed + 1, floor := v.floor + a.quantity * 20_000,
           completeCost := v.completeCost + a.spent, breaches := v.breaches + (if a.quantity * 20_000 - a.spent < c.margin then 1 else 0))
      else AfterSend(c, v.(reserved := 0), a.(leg := a.leg + 1), a.due, books)
    case SellResponse => AfterExit(c, v, a.(leg := a.leg + 1), a.due)
  }

  lemma BuyEvent(c: Config, v: View, books: map<nat, Cached>)
    requires v.attempt.Some? && Ready(c, v.attempt.value, books) && v.attempt.value.stage == BuyArrival
    ensures var a := v.attempt.value;
      var w, trades := BuyOf(a, a.leg), BuyTrades(c, v.consumed, a, books);
      var f := Outcome(w, c.fees[w.market], trades);
      AfterEvent(c, v, books)
      == v.(attempt := Some(a.(holdings := a.holdings.With(a.leg, f.quantity), spent := a.spent + f.cash, stage := BuyResponse, due := a.due + c.delay)),
            cash := v.cash - f.cash, spent := v.spent + f.cash, reserved := a.reserve - f.cash, consumed := DeductAll(w, v.consumed, trades),
            record := v.record.(bought := v.record.bought + trades))
  {
    hide Outcome, DeductAll, BuyTrades, AfterExit, AfterSend;
  }

  /** The order that is under way. */
  function Working(a: Attempt): Want
    requires a.leg < 3
  {
    if a.stage == SellArrival then SaleOf(a, a.leg) else BuyOf(a, a.leg)
  }

  lemma EventConsumes(c: Config, v: View, books: map<nat, Cached>)
    requires v.attempt.Some? && Ready(c, v.attempt.value, books)
    ensures var a := v.attempt.value;
      var w := Working(a);
      && w.market in books
      && AfterEvent(c, v, books).consumed ==
        match a.stage
        case BuyArrival => Depleted(w, Displayed(books[w.market], w), v.consumed, c.cap, a.limit, a.quantity, v.consumed)
        case SellArrival => Depleted(w, Displayed(books[w.market], w), v.consumed, c.cap, 0, a.holdings.At(a.leg), v.consumed)
        case _ => v.consumed
  {
    CacheHas(c, books, Working(v.attempt.value).market);
    hide Open, Filled, DeductAll, Cache, Reserve, LegQuote, Outcome, Displayed;
  }

  /** Every event leaves the consumption at each physical level as it was, or within what that
      level displays. */
  lemma EventDisplayed(c: Config, v: View, books: map<nat, Cached>, key: Key)
    requires v.attempt.Some? && Ready(c, v.attempt.value, books)
    ensures var w := Working(v.attempt.value);
      && w.market in books
      && WithinDisplay(w, Displayed(books[w.market], w), key, Used(v.consumed, key), Used(AfterEvent(c, v, books).consumed, key))
  {
    var a := v.attempt.value;
    var w := Working(a);
    EventConsumes(c, v, books);
    hide AfterEvent, Depleted, WithinDisplay, DistinctPrices, Sorted, Used, KeyOf;
    SortedIsDistinct(if AskSide(w) then Ask else Bid, Displayed(books[w.market], w));
    hide Displayed, Cache, Working;
    match a.stage {
      case BuyArrival =>
        DeductionsDisplayed(w, Displayed(books[w.market], w), v.consumed, c.cap, a.limit, a.quantity, v.consumed, key);
      case SellArrival =>
        DeductionsDisplayed(w, Displayed(books[w.market], w), v.consumed, c.cap, 0, a.holdings.At(a.leg), v.consumed, key);
      case _ =>
        NothingDeducted(w, Displayed(books[w.market], w), key, Used(v.consumed, key));
    }
  }

  lemma SortedIsDistinct(side: Side, levels: seq<Level>)
    requires Sorted(side, levels)
    ensures DistinctPrices(levels)
  {
  }

  /** The held baskets: how many, what they pay and what they cost. */
  ghost predicate Kept(kept: seq<Attempt>, completed: nat, floor: int, cost: int) {
    && completed == |kept| && floor == Sum(kept, Payout) && cost == Sum(kept, Cost)
    && forall i :: 0 <= i < |kept| ==> Whole(kept[i])
  }

  /** The finished attempts that hold nothing: how many, and what unwinding them brought. */
  ghost predicate Gone(gone: seq<Unwinding>, count: nat, unwindNet: int, windfall: int) {
    && count == |gone| && unwindNet == Sum(gone, Unwound) && windfall == Sum(gone, Free)
    && forall i :: 0 <= i < |gone| ==> NothingHeld(gone[i].attempt) && Recorded(gone[i].attempt.spent, gone[i].attempt.received, gone[i].record)
  }

  lemma KeptAppend(kept: seq<Attempt>, completed: nat, floor: int, cost: int, a: Attempt)
    requires Kept(kept, completed, floor, cost) && Whole(a)
    ensures Kept(kept + [a], completed + 1, floor + a.quantity * 20_000, cost + a.spent)
  {
    SumAppend(kept, a, Payout);
    SumAppend(kept, a, Cost);
    hide Sum;
  }

  lemma GoneAppend(gone: seq<Unwinding>, count: nat, unwindNet: int, windfall: int, u: Unwinding)
    requires Gone(gone, count, unwindNet, windfall) && NothingHeld(u.attempt) && Recorded(u.attempt.spent, u.attempt.received, u.record)
    ensures Gone(gone + [u], count + 1, unwindNet + Unwound(u), windfall + Free(u))
  {
    SumAppend(gone, u, Unwound);
    SumAppend(gone, u, Free);
    hide Sum, Recorded;
  }

  /** Credits add up to something exactly when one of them is positive. */
  lemma {:induction false} SomeCredit(credits: seq<int>)
    requires forall i :: 0 <= i < |credits| ==> credits[i] >= 0
    ensures Sum(credits, Itself) >= 0
    ensures Sum(credits, Itself) > 0 <==> exists i :: 0 <= i < |credits| && credits[i] > 0
    decreases |credits|
  {
    if credits != [] {
      var before := credits[..|credits| - 1];
      SomeCredit(before);
      assert forall i :: 0 <= i < |before| ==> before[i] == credits[i];
    }
  }

  /** An attempt without cost brings in cash exactly when it made a free sale. */
  lemma FreeMeaning(u: Unwinding)
    requires Recorded(u.attempt.spent, u.attempt.received, u.record)
    ensures Free(u) >= 0 && (Free(u) > 0 <==> FreeSale(u.record))
  {
    SomeCredit(u.record.credits);
  }

  /** The cash missing from the unwinding result is what attempts without cost brought in. */
  lemma {:induction false} WindfallMeaning(gone: seq<Unwinding>)
    requires forall i :: 0 <= i < |gone| ==> Recorded(gone[i].attempt.spent, gone[i].attempt.received, gone[i].record)
    ensures Sum(gone, Free) >= 0
    ensures Sum(gone, Free) > 0 <==> exists i :: 0 <= i < |gone| && FreeSale(gone[i].record)
    decreases |gone|
  {
    hide Recorded, FreeSale;
    if gone != [] {
      var before, last := gone[..|gone| - 1], gone[|gone| - 1];
      FreeMeaning(last);
      assert forall i :: 0 <= i < |before| ==> before[i] == gone[i];
      WindfallMeaning(before);
    }
  }

  class Scenario {
    const config: Config
    var cash: int
    var spent: int
    var received: int
    var floor: int
    var completeCost: int
    var unwindNet: int
    var reserved: int
    var peakEncumbered: int
    var attempt: Option<Attempt>
    var consumed: Consumed
    var attempts: nat
    var completed: nat
    var exited: nat
    var empty: nat
    var busy: nat
    var rejected: nat
    var budgetAborts: nat
    var censored: nat
    var breaches: nat
    var halted: bool
    /** The baskets that are held, and the attempts that were unwound or bought nothing. */
    ghost var kept: seq<Attempt>
    ghost var gone: seq<Unwinding>
    /** The trades of the open attempt. */
    ghost var record: Record
    /** What attempts without any cost brought in. */
    ghost var windfall: int

    /** The cash ledger, by flows and by attempts; and what every finished attempt holds. */
    ghost predicate Core()
      reads this`cash, this`spent, this`received, this`floor, this`completeCost, this`unwindNet, this`reserved, this`peakEncumbered,
        this`attempt, this`attempts, this`completed, this`exited, this`empty, this`halted, this`kept, this`gone, this`windfall, this`record
    {
      && ValidConfig(config)
      && cash == config.capital - spent + received && 0 <= reserved <= cash
      && cash == config.capital - completeCost + unwindNet + windfall + (if attempt.Some? then Proceeds(attempt.value) else 0)
      && Kept(kept, completed, floor, completeCost) && Gone(gone, exited + empty, unwindNet, windfall)
      && attempts == completed + exited + empty + (if attempt.Some? then 1 else 0)
      && (attempt.Some? ==> Sane(config, attempt.value) && Recorded(attempt.value.spent, attempt.value.received, record))
      && (attempt.None? ==> reserved == 0 && !halted && record == NO_TRADES)
      && config.capital - cash + reserved <= peakEncumbered
    }

    /** The cash that an unwound scenario's results account for, and what they miss: exactly the
        proceeds of attempts that bought at a price of zero only. */
    lemma UnwindingMisses()
      requires Core()
      ensures var known := config.capital - completeCost + unwindNet + (if attempt.Some? then Proceeds(attempt.value) else 0);
        && cash == known + windfall && windfall == Sum(gone, Free) >= 0
        && (cash != known <==> exists i :: 0 <= i < |gone| && FreeSale(gone[i].record))
    {
      hide Kept, Recorded, Sane, ValidConfig;
      WindfallMeaning(gone);
    }

    ghost function Look(): View
      reads this
    {
      View(attempt, cash, spent, received, reserved, floor, completeCost, unwindNet, completed, exited, empty, breaches, halted, consumed,
           record, gone, windfall, peakEncumbered)
    }

    ghost predicate Valid()
      reads this
    {
      Core() && (attempt.Some? && !halted ==> Staged(config, attempt.value, reserved, cash))
    }

    constructor (config: Config)
      requires ValidConfig(config)
      ensures this.config == config && Valid() && attempts == 0 && Look() == NewView(config)
    {
      this.config := config;
      cash, spent, received, floor, completeCost, unwindNet, reserved, peakEncumbered := config.capital, 0, 0, 0, 0, 0, 0, 0;
      attempt, consumed, halted := None, map[], false;
      attempts, completed, exited, empty, busy, rejected, budgetAborts, censored, breaches := 0, 0, 0, 0, 0, 0, 0, 0, 0;
      kept, gone, windfall, record := [], [], 0, NO_TRADES;
    }

    // ----------------------------------------------------------------------
    // Levels and fills
    // ----------------------------------------------------------------------

    /** The levels that are left for this scenario, up to the cap. */
    method Levels(w: Want, books: map<nat, Cached>) returns (levels: seq<BuyLevel>)
      requires w.market in books && ValidConfig(config)
      ensures levels == Open(w, Displayed(books[w.market], w), consumed, config.cap)
    {
      hide Open, KeyOf, Used, Displayed;
      var side := Displayed(books[w.market], w);
      levels := [];
      var collected: int, i := 0, 0;
      assert side[0..] == side;
      while i < |side|
        invariant i <= |side| && 0 <= collected < config.cap
        invariant Open(w, side, consumed, config.cap) == levels + Open(w, side[i..], consumed, config.cap - collected)
      {
        OpenUnfolds(w, side, i, consumed, config.cap - collected);
        var take := Min(Left(side[i], Used(consumed, KeyOf(w, side[i].price))), config.cap - collected);
        if take != 0 {
          levels := levels + [BuyLevel(Converted(w, side[i].price), take)];
          collected := collected + take;
          if collected == config.cap {
            NothingOpen(w, side[i + 1..], consumed, 0);
            return;
          }
        }
        i := i + 1;
      }
      NothingOpen(w, side[i..], consumed, config.cap - collected);
    }

    /** Fills an order, or only quotes it. Its cost always computes. */
    method FillOrder(w: Want, desired: int, limit: Price, apply: bool, books: map<nat, Cached>) returns (fault: Option<Fault>, r: Fill)
      requires ValidConfig(config) && w.market in config.fees && Cache(config, books) && 0 <= desired <= config.cap
      modifies this`consumed
      ensures fault == None
      ensures var trades := Filled(w, Open(w, Displayed(books[w.market], w), old(consumed), config.cap), limit, desired);
        && r == Outcome(w, config.fees[w.market], trades)
        && consumed == if apply then DeductAll(w, old(consumed), trades) else old(consumed)
    {
      hide Open, Filled, LedgerOf, Deduct, DeductAll, Displayed, Fits, ExecutionCost.Fill, Outcome, Cache, Amounts, Outstanding, ValidConfig;
      CacheHas(config, books, w.market);
      FeeIsValid(config, w.market);
      var fee := config.fees[w.market];
      var levels := Levels(w, books);
      var accumulator := new FeeAccumulator(0);
      ghost var all, done: seq<Trade>, c0 := Filled(w, levels, limit, desired), [], consumed;
      r := NOTHING;
      fault := None;
      FillBegins(w, fee, levels, c0);
      var i := 0;
      while i < |levels|
        invariant i <= |levels| && fault == None && r.quantity <= desired
        invariant all == done + Filled(w, levels[i..], limit, desired - r.quantity)
        invariant r == Outcome(w, fee, done) && accumulator.rounding as int == LedgerOf(w, fee, done).rounding <= r.quantity * 10_000
        invariant consumed == if apply then DeductAll(w, c0, done) else c0
      {
        var p := levels[i].price;
        FilledUnfolds(w, levels, i, limit, desired - r.quantity);
        if (!w.sell && p > limit) || (w.sell && p < limit) {
          assert all == done;
          return;
        }
        var q := Min(desired - r.quantity, levels[i].quantity);
        if q == 0 {
          assert all == done;
          return;
        }
        FitsSmall(!w.sell, q, p, fee, accumulator.rounding as int);
        OutcomeNext(w, fee, done, Trade(q, p));
        DeductNext(w, c0, done, Trade(q, p));
        var amounts;
        if w.sell {
          amounts := CreditSellFill(q, p, fee, accumulator);
          if amounts.None? {
            return Some(SellCost), r;
          }
        } else {
          amounts := ChargeBuyFill(q, p, fee, accumulator);
          if amounts.None? {
            return Some(BuyCost), r;
          }
        }
        r := Fill(r.quantity + q, r.cash + amounts.value.change, p);
        if apply {
          consumed := Deduct(w, consumed, Trade(q, p));
        }
        done := done + [Trade(q, p)];
        i := i + 1;
      }
      FilledNothing(w, levels[i..], limit, desired - r.quantity);
      assert all == done;
    }

    /** Quotes the remaining legs, until one is not covered. */
    method QuoteLegs(a: Attempt, books: map<nat, Cached>) returns (fault: Option<Fault>, projected: int, current: Fill, missing: bool)
      requires ValidConfig(config) && Cache(config, books) && Sane(config, a) && a.leg < 3
      modifies this`consumed
      ensures fault == None && consumed == old(consumed)
      ensures missing <==> exists leg: nat :: a.leg <= leg < 3 && LegQuote(config, consumed, a, leg, books).quantity != a.quantity
      ensures !missing ==> projected == a.spent + CostFrom(config, consumed, a, a.leg, books) && current == LegQuote(config, consumed, a, a.leg, books)
    {
      hide Open, Filled, Outcome, Reserve, DeductAll, Cache;
      var leg := a.leg;
      projected, current, missing := a.spent, NOTHING, false;
      fault := None;
      while leg < 3
        invariant a.leg <= leg <= 3 && consumed == old(consumed) && fault == None && !missing
        invariant forall l: nat :: a.leg <= l < leg ==> LegQuote(config, consumed, a, l, books).quantity == a.quantity
        invariant projected + CostFrom(config, consumed, a, leg, books) == a.spent + CostFrom(config, consumed, a, a.leg, books)
        invariant leg > a.leg ==> current == LegQuote(config, consumed, a, a.leg, books)
      {
        var f;
        CacheHas(config, books, BuyOf(a, leg).market);
        fault, f := FillOrder(BuyOf(a, leg), a.quantity, 10_000, false, books);
        if fault.Some? {
          return;
        }
        assert f == LegQuote(config, consumed, a, leg, books);
        if f.quantity != a.quantity {
          missing := true;
          return;
        }
        projected := projected + f.cash;
        if leg == a.leg {
          current := f;
        }
        leg := leg + 1;
      }
    }

    /** The limit and the reservation of the next leg, exactly when what is left of the basket is
        sendable. */
    method PlanBuy(a: Attempt, books: map<nat, Cached>) returns (fault: Option<Fault>, limit: Price, reserve: Option<int>)
      requires Ready(config, a, books)
      modifies this`consumed, this`budgetAborts
      ensures fault == None && consumed == old(consumed)
      ensures ValidFee(config.fees[a.basket.markets.At(a.leg)])
      ensures reserve.Some? <==> Sendable(config, consumed, cash, a, books)
      ensures reserve.Some? ==>
        && limit == LegQuote(config, consumed, a, a.leg, books).limit
        && reserve.value == Reserve(a.quantity, 1, limit, config.fees[a.basket.markets.At(a.leg)]) <= cash
      ensures budgetAborts == old(budgetAborts) || reserve.None?
    {
      hide Reserve, Cache, LegQuote, CostFrom, ValidConfig;
      FeeIsValid(config, a.basket.markets.At(a.leg));
      var projected, current, missing;
      fault, projected, current, missing := QuoteLegs(a, books);
      limit, reserve := current.limit, None;
      if fault.Some? || missing {
        return;
      }
      if projected > a.quantity * 20_000 - config.margin {
        budgetAborts := budgetAborts + 1;
        return;
      }
      var fee := config.fees[a.basket.markets.At(a.leg)];
      SaneFits(config, a);
      ReservationExists(a.quantity, 1, limit, fee);
      var amount := BuyReservation(a.quantity, 1, limit, fee);
      if amount.Some? && amount.value <= cash {
        reserve := amount;
      }
    }

    /** Sends the order of the next leg exactly when what is left of the basket is sendable, with
        its whole cost reserved; otherwise what was bought so far is unwound. */
    method SendBuy(time: int, books: map<nat, Cached>) returns (fault: Option<Fault>)
      requires Core() && Cache(config, books) && 0 <= time <= INT64_MAX
      requires attempt.Some? && !halted && reserved == 0 && attempt.value.leg < 3
      requires attempt.value.received == 0 && Bought(attempt.value, attempt.value.leg, attempt.value.leg)
      modifies this`attempt, this`reserved, this`halted, this`exited, this`empty, this`unwindNet, this`gone, this`windfall, this`record,
        this`budgetAborts, this`peakEncumbered, this`consumed
      ensures fault == ClockFault(old(AfterSend(config, Look(), attempt.value, time, books)))
      ensures fault.None? ==> Valid() && (attempt.Some? && !halted ==> attempt.value.due == time + config.delay)
      ensures consumed == old(consumed) && cash == old(cash)
      ensures fault.None? ==> Look() == old(AfterSend(config, Look(), attempt.value, time, books))
    {
      hide Reserve, Cache, LegQuote, CostFrom, Core, Staged, AfterExit, Bought, ValidConfig, Sendable;
      var a := attempt.value;
      SaneAttempt();
      var limit, reserve;
      fault, limit, reserve := PlanBuy(a, books);
      if fault.Some? {
        return;
      }
      if reserve.None? {
        fault := BeginExit(time);
        return;
      }
      fault := SubmitBuy(a, limit, reserve.value, time);
    }

    static lemma SaneFits(c: Config, a: Attempt)
      requires Sane(c, a) && ValidConfig(c)
      ensures 0 < a.quantity <= 10_000
    {
    }

    lemma SaneAttempt()
      requires Core() && attempt.Some?
      ensures ValidConfig(config) && Sane(config, attempt.value)
    {
    }

    method SubmitBuy(a: Attempt, limit: Price, reserve: int, time: int) returns (fault: Option<Fault>)
      requires Core() && attempt == Some(a) && !halted && a.leg < 3 && reserved == 0 && 0 <= time <= INT64_MAX
      requires a.received == 0 && Bought(a, a.leg, a.leg) && a.basket.markets.At(a.leg) in config.fees
      requires reserve == Reserve(a.quantity, 1, limit, config.fees[a.basket.markets.At(a.leg)]) <= cash
      modifies this`attempt, this`reserved, this`peakEncumbered
      ensures fault == if time > INT64_MAX - config.delay then Some(EventTime) else None
      ensures fault.None? ==>
        && Valid() && reserved == reserve && peakEncumbered == Max(old(peakEncumbered), config.capital - cash + reserve)
        && attempt == Some(a.(limit := limit, reserve := reserve, stage := BuyArrival, due := time + config.delay))
    {
      hide Reserve, Kept, Gone;
      reserved := reserve;
      peakEncumbered := Max(peakEncumbered, config.capital - cash + reserved);
      if time > INT64_MAX - config.delay {
        return Some(EventTime);
      }
      attempt := Some(a.(limit := limit, reserve := reserve, stage := BuyArrival, due := time + config.delay));
      return None;
    }

    /** Gives up on the rest of the basket. */
    method BeginExit(time: int) returns (fault: Option<Fault>)
      requires Core() && attempt.Some? && !halted && 0 <= time <= INT64_MAX
      modifies this`attempt, this`reserved, this`halted, this`exited, this`empty, this`unwindNet, this`gone, this`windfall, this`record
      ensures fault == ClockFault(old(AfterExit(config, Look().(reserved := 0), attempt.value.(leg := 0), time)))
      ensures fault.None? ==> Valid() && reserved == 0 && (attempt.Some? && !halted ==> attempt.value.due == time + config.delay)
      ensures fault.None? ==> Look() == old(AfterExit(config, Look().(reserved := 0), attempt.value.(leg := 0), time))
    {
      hide AfterExit;
      ExitIgnoresAttempt(config, Look().(reserved := 0), Some(attempt.value.(leg := 0)), attempt.value.(leg := 0), time);
      attempt := Some(attempt.value.(leg := 0));
      reserved := 0;
      fault := SendExit(time);
    }

    /** Sells the next leg that is held; with none left the attempt is over, unless some
        holdings could not be sold, which halts the scenario. */
    method SendExit(time: int) returns (fault: Option<Fault>)
      requires Core() && attempt.Some? && !halted && reserved == 0 && 0 <= time <= INT64_MAX
      modifies this`attempt, this`halted, this`exited, this`empty, this`unwindNet, this`gone, this`windfall, this`record
      ensures fault == ClockFault(old(AfterExit(config, Look(), attempt.value, time)))
      ensures fault.None? ==> Valid() && (attempt.Some? && !halted ==> attempt.value.due == time + config.delay)
      ensures fault.None? ==> Look() == old(AfterExit(config, Look(), attempt.value, time))
    {
      hide Kept, Gone, Reserve, Tradable, Within, Bought, Recorded;
      var leg := attempt.value.leg;
      while leg < 3 && attempt.value.holdings.At(leg) == 0
        invariant NextHeld(attempt.value.holdings, leg) == NextHeld(attempt.value.holdings, attempt.value.leg)
      {
        leg := leg + 1;
      }
      fault := None;
      attempt := Some(attempt.value.(leg := leg));
      var a := attempt.value;
      if leg >= 3 {
        if a.holdings != Three(0, 0, 0) {
          halted := true;
          return;
        }
        EndAttempt(a);
        return;
      }
      if time > INT64_MAX - config.delay {
        return Some(EventTime);
      }
      attempt := Some(a.(stage := SellArrival, due := time + config.delay));
    }

    /** Nothing has been bought or sold yet. */
    static lemma NothingRecorded()
      ensures Recorded(0, 0, NO_TRADES)
    {
    }

    static lemma BoughtMore(a: Attempt, r: Record, f: Fill, trades: seq<Trade>)
      requires Recorded(a.spent, a.received, r) && 0 <= a.spent && 0 <= f.cash && (f.cash == 0 <==> AllFree(trades))
      ensures Recorded(a.spent + f.cash, a.received, r.(bought := r.bought + trades))
    {
      var all := r.bought + trades;
      assert forall i :: 0 <= i < |r.bought| ==> all[i] == r.bought[i];
      assert forall i :: 0 <= i < |trades| ==> all[|r.bought| + i] == trades[i];
    }

    static lemma SoldMore(a: Attempt, r: Record, f: Fill)
      requires Recorded(a.spent, a.received, r) && 0 <= f.cash
      ensures Recorded(a.spent, a.received + f.cash, r.(credits := r.credits + [f.cash]))
    {
      SumAppend(r.credits, f.cash, Itself);
    }

    /** An attempt that holds nothing is over. */
    method EndAttempt(a: Attempt)
      requires Core() && attempt == Some(a) && !halted && reserved == 0 && NothingHeld(a)
      modifies this`attempt, this`exited, this`empty, this`unwindNet, this`gone, this`windfall, this`record
      ensures Core() && attempt.None?
      ensures var u := Unwinding(a, old(record));
        && gone == old(gone) + [u] && record == NO_TRADES
        && unwindNet == old(unwindNet) + Unwound(u) && windfall == old(windfall) + Free(u)
      ensures exited == old(exited) + (if a.spent != 0 then 1 else 0) && empty == old(empty) + (if a.spent != 0 then 0 else 1)
    {
      hide Kept, Gone, Sane, Recorded, Tradable, Within, ValidConfig;
      GoneAppend(gone, exited + empty, unwindNet, windfall, Unwinding(a, record));
      gone := gone + [Unwinding(a, record)];
      if a.spent != 0 {
        exited := exited + 1;
        unwindNet := unwindNet + (a.received - a.spent);
      } else {
        empty := empty + 1;
        windfall := windfall + a.received;
      }
      attempt, record := None, NO_TRADES;
    }

    // ----------------------------------------------------------------------
    // Events
    // ----------------------------------------------------------------------

    method ArriveBuy(books: map<nat, Cached>) returns (fault: Option<Fault>)
      requires Valid() && Cache(config, books) && attempt.Some? && !halted && attempt.value.stage == BuyArrival
      modifies this`attempt, this`cash, this`spent, this`reserved, this`consumed, this`record
      ensures fault == ClockFault(old(AfterEvent(config, Look(), books)))
      ensures fault.None? ==> Valid() && attempt.Some? && attempt.value.due == old(attempt.value.due) + config.delay
      ensures fault.None? ==> Look() == old(AfterEvent(config, Look(), books))
    {
      hide Open, Filled, Outcome, Reserve, DeductAll, Cache, Core, Staged, Sane, Ready, AfterEvent;
      BuyIsFunded(books);
      BuyEvent(config, Look(), books);
      var a := attempt.value;
      var w := BuyOf(a, a.leg);
      ghost var trades := BuyTrades(config, consumed, a, books);
      var f;
      fault, f := FillOrder(w, a.quantity, a.limit, true, books);
      if fault.Some? {
        return;
      }
      if f.cash > a.reserve || f.cash > cash {
        return Some(Funding);
      }
      fault := BookBuy(a, f, trades);
    }

    /** What an arriving buy takes is within its order and its reservation. */
    lemma BuyIsFunded(books: map<nat, Cached>)
      requires Valid() && Cache(config, books) && attempt.Some? && !halted && attempt.value.stage == BuyArrival
      ensures var a := attempt.value;
        && Ready(config, a, books) && a.leg < 3 && ValidConfig(config) && a.quantity <= config.cap && BuyOf(a, a.leg).market in config.fees && BuyOf(a, a.leg).market in books
        && ValidFee(config.fees[BuyOf(a, a.leg).market]) &&
        var trades := BuyTrades(config, consumed, a, books);
        var f := Outcome(BuyOf(a, a.leg), config.fees[BuyOf(a, a.leg).market], trades);
        0 <= f.quantity <= a.quantity && 0 <= f.cash <= a.reserve <= cash && (f.cash == 0 <==> AllFree(trades))
    {
      hide Open, Filled, Reserve, Kept, Gone, Recorded;
      var a := attempt.value;
      var w := BuyOf(a, a.leg);
      CacheHas(config, books, w.market);
      BuyFunded(w, Open(w, Displayed(books[w.market], w), consumed, config.cap), a.limit, a.quantity, config.fees[w.market]);
      FilledWithin(w, Open(w, Displayed(books[w.market], w), consumed, config.cap), a.limit, a.quantity);
      FreeOnlyAtZero(w, config.fees[w.market], BuyTrades(config, consumed, a, books));
      hide Outcome;
    }

    /** Pays for what was bought out of what was set aside, and awaits the response. */
    method BookBuy(a: Attempt, f: Fill, ghost trades: seq<Trade>) returns (fault: Option<Fault>)
      requires Valid() && attempt == Some(a) && !halted && a.stage == BuyArrival
      requires 0 <= f.quantity <= a.quantity && 0 <= f.cash <= a.reserve && (f.cash == 0 <==> AllFree(trades))
      modifies this`attempt, this`cash, this`spent, this`reserved, this`record
      ensures fault == if a.due > INT64_MAX - config.delay then Some(EventTime) else None
      ensures fault.None? ==>
        && Valid() && cash == old(cash) - f.cash && spent == old(spent) + f.cash && reserved == a.reserve - f.cash
        && record == old(record).(bought := old(record).bought + trades)
        && attempt == Some(a.(holdings := a.holdings.With(a.leg, f.quantity), spent := a.spent + f.cash,
                              stage := BuyResponse, due := a.due + config.delay))
    {
      hide Reserve, Kept, Gone, Recorded;
      BoughtMore(a, record, f, trades);
      record := record.(bought := record.bought + trades);
      cash := cash - f.cash;
      spent := spent + f.cash;
      reserved := a.reserve - f.cash;
      if a.due > INT64_MAX - config.delay {
        return Some(EventTime);
      }
      attempt := Some(a.(holdings := a.holdings.With(a.leg, a.holdings.At(a.leg) + f.quantity), spent := a.spent + f.cash,
                         stage := BuyResponse, due := a.due + config.delay));
      fault := None;
    }

    method ArriveSell(books: map<nat, Cached>) returns (fault: Option<Fault>)
      requires Valid() && Cache(config, books) && attempt.Some? && !halted && attempt.value.stage == SellArrival
      modifies this`attempt, this`cash, this`received, this`consumed, this`record
      ensures fault == ClockFault(old(AfterEvent(config, Look(), books)))
      ensures fault.None? ==> Valid() && attempt.Some? && attempt.value.due == old(attempt.value.due) + config.delay
      ensures fault.None? ==> Look() == old(AfterEvent(config, Look(), books))
    {
      hide Open, Filled, Outcome, Reserve, DeductAll, Cache, Kept, Gone, Recorded, AfterExit, AfterSend, LegQuote;
      var a := attempt.value;
      var w := SaleOf(a, a.leg);
      CacheHas(config, books, w.market);
      SaleNonNegative(w, Open(w, Displayed(books[w.market], w), consumed, config.cap), 0, a.holdings.At(a.leg), config.fees[w.market]);
      var f;
      fault, f := FillOrder(w, a.holdings.At(a.leg), 0, true, books);
      if fault.Some? {
        return;
      }
      fault := BookSale(a, f);
    }

    /** Takes in what was sold, and awaits the response. */
    method BookSale(a: Attempt, f: Fill) returns (fault: Option<Fault>)
      requires Valid() && attempt == Some(a) && !halted && a.stage == SellArrival
      requires 0 <= f.quantity <= a.holdings.At(a.leg) && 0 <= f.cash
      modifies this`attempt, this`cash, this`received, this`record
      ensures fault == if a.due > INT64_MAX - config.delay then Some(EventTime) else None
      ensures fault.None? ==>
        && Valid() && cash == old(cash) + f.cash && received == old(received) + f.cash && record == old(record).(credits := old(record).credits + [f.cash])
        && attempt == Some(a.(holdings := a.holdings.With(a.leg, a.holdings.At(a.leg) - f.quantity), received := a.received + f.cash,
                              stage := SellResponse, due := a.due + config.delay))
    {
      hide Reserve, Kept, Gone, Recorded;
      SoldMore(a, record, f);
      record := record.(credits := record.credits + [f.cash]);
      cash := cash + f.cash;
      received := received + f.cash;
      if a.due > INT64_MAX - config.delay {
        return Some(EventTime);
      }
      attempt := Some(a.(holdings := a.holdings.With(a.leg, a.holdings.At(a.leg) - f.quantity), received := a.received + f.cash,
                         stage := SellResponse, due := a.due + config.delay));
      fault := None;
    }

    /** All three legs are bought: the basket is held and the attempt is over. */
    method HoldBasket(a: Attempt)
      requires Core() && reserved == 0 && !halted && Whole(a) && attempt.Some? && attempt.value == a.(leg := attempt.value.leg)
      modifies this`kept, this`floor, this`completeCost, this`completed, this`breaches, this`attempt, this`record
      ensures Core() && attempt == None && record == NO_TRADES && completed == old(completed) + 1
      ensures floor == old(floor) + a.quantity * 20_000 && completeCost == old(completeCost) + a.spent
      ensures breaches == old(breaches) + (if a.quantity * 20_000 - a.spent < config.margin then 1 else 0)
    {
      hide Kept, Gone, ValidConfig, Sane, Reserve, Sum, Recorded;
      var payout := a.quantity * 20_000;
      KeptAppend(kept, completed, floor, completeCost, a);
      kept := kept + [a];
      floor := floor + payout;
      completeCost := completeCost + a.spent;
      completed := completed + 1;
      if payout - a.spent < config.margin {
        breaches := breaches + 1;
      }
      attempt, record := None, NO_TRADES;
    }

    /** The response to a buy: a partial fill ends the attempt, the third full leg completes it,
        and otherwise the next leg is sent. */
    method AnswerBuy(books: map<nat, Cached>) returns (fault: Option<Fault>)
      requires Valid() && Cache(config, books) && attempt.Some? && !halted && attempt.value.stage == BuyResponse
      modifies this
      ensures fault == ClockFault(old(AfterEvent(config, Look(), books)))
      ensures fault.None? ==> Valid() && (attempt.Some? && !halted ==> attempt.value.due == old(attempt.value.due) + config.delay)
      ensures fault.None? ==> Look() == old(AfterEvent(config, Look(), books))
    {
      hide Cache, Sendable, LegQuote, AfterSend, AfterExit, Core, Staged;
      AnswerFacts();
      Release();
      var a := attempt.value;
      fault := None;
      if a.holdings.At(a.leg) != a.quantity {
        fault := BeginExit(a.due);
        return;
      }
      if a.leg + 1 == 3 {
        HoldBasket(a.(leg := 3));
        return;
      }
      fault := SendNext(books);
    }

    method Release()
      requires Core()
      modifies this`reserved
      ensures Core() && Look() == old(Look()).(reserved := 0)
    {
      hide Kept, Gone, Sane, Recorded, ValidConfig;
      reserved := 0;
    }

    lemma AnswerFacts()
      requires Valid() && attempt.Some? && !halted && attempt.value.stage == BuyResponse
      ensures var a := attempt.value;
        a.leg < 3 && a.received == 0 && Bought(a, a.leg, a.leg + 1) && 0 <= a.due <= INT64_MAX
    {
      hide Kept, Gone, Recorded;
    }

    method SendNext(books: map<nat, Cached>) returns (fault: Option<Fault>)
      requires Core() && Cache(config, books) && attempt.Some? && !halted && reserved == 0 && attempt.value.leg < 2
      requires attempt.value.received == 0 && Bought(attempt.value, attempt.value.leg + 1, attempt.value.leg + 1)
      modifies this
      ensures fault.None? ==> Valid() && (attempt.Some? && !halted ==> attempt.value.due == old(attempt.value.due) + config.delay)
      ensures old(Ready(config, attempt.value.(leg := attempt.value.leg + 1), books))
      ensures fault == ClockFault(old(AfterSend(config, Look(), attempt.value.(leg := attempt.value.leg + 1), attempt.value.due, books)))
      ensures fault.None? ==>
        var v, a := old(Look()), old(attempt.value);
        Look() == AfterSend(config, v, a.(leg := a.leg + 1), a.due, books)
    {
      hide Kept, Gone, Cache, AfterSend, Recorded;
      var a := attempt.value;
      SendIgnoresAttempt(config, Look(), Some(a.(leg := a.leg + 1)), a.(leg := a.leg + 1), a.due, books);
      attempt := Some(a.(leg := a.leg + 1));
      fault := SendBuy(a.due, books);
    }

    method AnswerSell(ghost books: map<nat, Cached>) returns (fault: Option<Fault>)
      requires Valid() && Cache(config, books) && attempt.Some? && !halted && attempt.value.stage == SellResponse
      modifies this`attempt, this`halted, this`exited, this`empty, this`unwindNet, this`gone, this`windfall, this`record
      ensures fault == ClockFault(old(AfterEvent(config, Look(), books)))
      ensures fault.None? ==> Valid() && (attempt.Some? && !halted ==> attempt.value.due == old(attempt.value.due) + config.delay)
      ensures fault.None? ==> Look() == old(AfterEvent(config, Look(), books))
    {
      hide Kept, Gone, AfterExit, Recorded;
      ExitIgnoresAttempt(config, Look(), Some(attempt.value.(leg := attempt.value.leg + 1)), attempt.value.(leg := attempt.value.leg + 1),
                         attempt.value.due);
      attempt := Some(attempt.value.(leg := attempt.value.leg + 1));
      fault := SendExit(attempt.value.due);
    }

    /** Every event up to `time`, one after another as `trace` lists them. It ends because each
        one moves the next later by the delay. */
    method Advance(time: int, books: map<nat, Cached>) returns (fault: Option<Fault>, ghost trace: seq<View>)
      requires Valid() && Cache(config, books) && 0 <= time <= INT64_MAX
      modifies this
      ensures trace != []
      ensures fault.Some? ==> Due(config, trace[|trace| - 1], time, books) && fault == ClockFault(AfterEvent(config, trace[|trace| - 1], books))
      ensures fault.None? ==> Valid() && (attempt.Some? && !halted ==> attempt.value.due > time)
      ensures trace[0] == old(Look()) && (fault.None? ==> trace[|trace| - 1] == Look())
      ensures forall i :: 0 <= i < |trace| - 1 ==> Due(config, trace[i], time, books) && trace[i + 1] == AfterEvent(config, trace[i], books)
    {
      hide Core, Staged, Cache, AfterEvent, Sane, Ready;
      trace := [Look()];
      while attempt.Some? && !halted && attempt.value.due <= time
        invariant Valid() && trace != [] && trace[0] == old(Look()) && trace[|trace| - 1] == Look()
        invariant forall i :: 0 <= i < |trace| - 1 ==> Due(config, trace[i], time, books) && trace[i + 1] == AfterEvent(config, trace[i], books)
        decreases if attempt.Some? && !halted then Max(time - attempt.value.due + 1, 0) else 0
      {
        fault := HandleEvent(books);
        if fault.Some? {
          return;
        }
        trace := trace + [Look()];
      }
      fault := None;
    }

    /** One event, and the check of the ledger after it. */
    method HandleEvent(books: map<nat, Cached>) returns (fault: Option<Fault>)
      requires Valid() && Cache(config, books) && attempt.Some? && !halted
      modifies this
      ensures old(Ready(config, attempt.value, books)) && fault == ClockFault(old(AfterEvent(config, Look(), books)))
      ensures fault.None? ==> Valid() && Look() == old(AfterEvent(config, Look(), books))
      ensures fault.None? && attempt.Some? && !halted ==> attempt.value.due > old(attempt.value.due) >= 0
    {
      hide Core, Staged, Cache, AfterEvent, Sane, Ready;
      ReadyNow(books);
      match attempt.value.stage {
        case BuyArrival => fault := ArriveBuy(books);
        case SellArrival => fault := ArriveSell(books);
        case BuyResponse => fault := AnswerBuy(books);
        case SellResponse => fault := AnswerSell(books);
      }
      if fault.Some? {
        return;
      }
      LedgerHolds();
      if cash != config.capital - spent + received || cash < 0 || reserved < 0 || reserved > cash {
        fault := Some(CashLedger);
      }
    }

    lemma ReadyNow(books: map<nat, Cached>)
      requires Valid() && Cache(config, books) && attempt.Some? && !halted
      ensures Ready(config, attempt.value, books) && attempt.value.due >= 0 && config.delay > 0
    {
    }

    lemma LedgerHolds()
      requires Core()
      ensures cash == config.capital - spent + received && 0 <= reserved <= cash && config.delay > 0
    {
    }

    /** The observation can no longer be trusted: the scenario stops as it is. */
    method Censor()
      requires Valid()
      modifies this`censored, this`halted
      ensures Valid() && (attempt.Some? ==> halted) && (attempt.None? || old(halted) ==> censored == old(censored) && halted == old(halted))
      ensures attempt.Some? && !old(halted) ==> censored == old(censored) + 1
    {
      if attempt.None? || halted {
        return;
      }
      censored := censored + 1;
      halted := true;
    }

    // ----------------------------------------------------------------------
    // Decisions
    // ----------------------------------------------------------------------

    /** The optimal size of one basket on what is left of the books. It faults exactly when the
        cash exceeds what sizing accepts: the search budget covers every size. */
    method SizeBasket(b: Basket, books: map<nat, Cached>) returns (fault: Option<Fault>, quote: Option<BasketSizing.SizedBasket>)
      requires ValidConfig(config) && Cache(config, books) && Tradable(config, b) && cash >= 0
      ensures fault == (if cash > CASH_LIMIT then Some(Sizing) else None)
      ensures fault.None? ==>
        && BasketSizing.ValidInput(Depths(config, consumed, b, books), Bounds(config, cash))
        && (quote.Some? ==> BasketSizing.IsOptimum(Depths(config, consumed, b, books), Bounds(config, cash), quote.value))
        && (quote.None? ==> forall q: int :: !BasketSizing.Candidate(Depths(config, consumed, b, books), Bounds(config, cash), q))
    {
      hide Open, BasketSizing.IsOptimum, BasketSizing.Candidate, BasketSizing.Covered, BasketSizing.Quote, Displayed, Cache;
      CacheHas(config, books, b.markets.first);
      CacheHas(config, books, b.markets.second);
      CacheHas(config, books, b.markets.third);
      var first := Levels(Want(b.markets.first, true, false), books);
      var second := Levels(Want(b.markets.second, false, false), books);
      var third := Levels(Want(b.markets.third, false, false), books);
      var depth := BasketSizing.Basket(BuyDepth(first, config.fees[b.markets.first]), BuyDepth(second, config.fees[b.markets.second]),
                                       BuyDepth(third, config.fees[b.markets.third]));
      LegIsValid(config, Want(b.markets.first, true, false), books, consumed);
      LegIsValid(config, Want(b.markets.second, false, false), books, consumed);
      LegIsValid(config, Want(b.markets.third, false, false), books, consumed);
      var result := BasketSizing.SizeBuyBasket(depth, Bounds(config, cash));
      if result.status == InvalidInput || result.status == ArithmeticError || result.status == SearchBudgetExceeded {
        return Some(Sizing), None;
      }
      return None, result.quote;
    }

    /** Picks the basket with the greatest margin among the signals, the smaller identity on a
        tie, and starts buying it. A busy or exhausted scenario does not. */
    method Decide(signals: seq<Signal>, time: int, books: map<nat, Cached>)
      returns (fault: Option<Fault>, ghost quotes: seq<Option<BasketSizing.SizedBasket>>, ghost chosen: Option<nat>)
      requires Valid() && Cache(config, books) && 0 <= time <= INT64_MAX
      requires forall i :: 0 <= i < |signals| ==> Tradable(config, signals[i].basket)
      modifies this
      ensures fault.Some? ==> fault == Some(EventTime) || fault == Some(Sizing)
      ensures fault == Some(Sizing) <==>
        && !(old(halted) || old(attempts) >= config.maxAttempts || old(attempt).Some?) && old(cash) > CASH_LIMIT
        && exists i :: 0 <= i < |signals| && !signals[i].leftCensored
      ensures fault.None? ==> Valid()
      ensures old(halted) || old(attempts) >= config.maxAttempts || old(attempt).Some? ==> fault.None? && chosen == None && quotes == []
      ensures fault != Some(Sizing) && !(old(halted) || old(attempts) >= config.maxAttempts || old(attempt).Some?) ==>
        && |quotes| == |signals| && (forall i :: 0 <= i < |signals| ==> QuoteMeans(config, old(consumed), old(cash), signals[i], books, quotes[i]))
        && (chosen.None? ==> forall i :: 0 <= i < |signals| ==> quotes[i].None?)
      ensures fault.None? && chosen.None? ==> Look() == old(Look()) && attempts == old(attempts)
      ensures fault == Some(EventTime) ==> chosen.Some?
      ensures fault != Some(Sizing) && chosen.Some? ==>
        && BestSignal(signals, quotes, chosen.value) && attempts == old(attempts) + 1
        && var a := StartOf(signals[chosen.value].basket, quotes[chosen.value].value.quantity);
        && Ready(config, a, books) && fault == ClockFault(AfterSend(config, old(Look()), a, time, books))
        && (fault.None? ==> Look() == AfterSend(config, old(Look()), a, time, books))
    {
      hide BestSignal, Core, Staged, Cache, Tradable, QuoteMeans, Depths, Sendable, Chosen, AfterSend, Sane, ValidConfig, Recorded, Gone, Kept;
      fault, quotes, chosen := None, [], None;
      if halted || attempts >= config.maxAttempts {
        return;
      }
      if attempt.Some? {
        busy := busy + |signals|;
        return;
      }
      var best;
      var index;
      fault, best, index, quotes := SizeSignals(signals, books);
      if fault.Some? || best.None? {
        return;
      }
      ChosenIsBest(signals, quotes, best, index);
      var a := StartOf(signals[index].basket, best.value.quantity);
      chosen := Some(index);
      fault := Begin(a, time, books);
    }

    /** Sizes every uncensored signal and keeps the best. */
    method SizeSignals(signals: seq<Signal>, books: map<nat, Cached>)
      returns (fault: Option<Fault>, best: Option<BasketSizing.SizedBasket>, chosen: nat, ghost quotes: seq<Option<BasketSizing.SizedBasket>>)
      requires Core() && Cache(config, books) && forall i :: 0 <= i < |signals| ==> Tradable(config, signals[i].basket)
      modifies this`rejected
      ensures fault == if cash > CASH_LIMIT && exists i :: 0 <= i < |signals| && !signals[i].leftCensored then Some(Sizing) else None
      ensures fault.None? ==> Chosen(signals, quotes, best, chosen) && |quotes| == |signals|
      ensures fault.None? ==> forall i :: 0 <= i < |signals| ==> QuoteMeans(config, consumed, cash, signals[i], books, quotes[i])
      ensures fault.None? && best.None? ==> forall i :: 0 <= i < |signals| ==> quotes[i].None?
      ensures fault.None? && best.Some? ==> chosen < |signals| && 0 < best.value.quantity <= config.cap
    {
      hide Core, Cache, Tradable, BasketSizing.IsOptimum, BasketSizing.ValidInput, BasketSizing.Candidate, Depths, Chosen;
      ConfigHolds();
      fault, best, chosen, quotes := None, None, 0, [];
      NothingChosen(signals);
      var i := 0;
      while i < |signals|
        invariant i <= |signals| && |quotes| == i && Chosen(signals[..i], quotes, best, chosen) && fault == None
        invariant forall j :: 0 <= j < i ==> signals[j].leftCensored || cash <= CASH_LIMIT
        invariant best.Some? ==> chosen < i && 0 < best.value.quantity <= config.cap
        invariant forall j :: 0 <= j < i ==> QuoteMeans(config, consumed, cash, signals[j], books, quotes[j])
      {
        var quote := None;
        if !signals[i].leftCensored {
          fault, quote := SizeBasket(signals[i].basket, books);
          if fault.Some? {
            return;
          }
        }
        NextChosen(signals, quotes, best, chosen, i, quote);
        quotes := quotes + [quote];
        if quote.None? {
          rejected := rejected + 1;
        } else {
          OptimumSize(config, Depths(config, consumed, signals[i].basket, books), cash, quote.value);
          if best.None? || quote.value.netMargin > best.value.netMargin
            || (quote.value.netMargin == best.value.netMargin && signals[i].basket.id < signals[chosen].basket.id) {
            best := quote;
            chosen := i;
          }
        }
        i := i + 1;
      }
      assert signals[..i] == signals;
      NoneChosen(signals, quotes, best, chosen);
    }

    /** Starts an attempt and sends its first leg. */
    method Begin(a: Attempt, time: int, books: map<nat, Cached>) returns (fault: Option<Fault>)
      requires Core() && attempt.None? && Cache(config, books) && 0 <= time <= INT64_MAX
      requires Tradable(config, a.basket) && 0 < a.quantity <= config.cap && a == StartOf(a.basket, a.quantity)
      modifies this`attempts, this`attempt, this`reserved, this`halted, this`exited, this`empty, this`unwindNet, this`gone, this`windfall,
        this`record, this`budgetAborts, this`peakEncumbered, this`consumed
      ensures Ready(config, a, books) && fault == ClockFault(old(AfterSend(config, Look(), a, time, books)))
      ensures attempts == old(attempts) + 1
      ensures fault.None? ==> Valid() && Look() == old(AfterSend(config, Look(), a, time, books))
    {
      hide Core, Staged, Cache, Tradable, AfterSend, Sane, ValidConfig;
      StartAttempt(a);
      StartReady(books);
      SendIgnoresAttempt(config, old(Look()), Some(a), a, time, books);
      fault := SendBuy(time, books);
    }

    method StartAttempt(a: Attempt)
      requires Core() && attempt.None? && Tradable(config, a.basket) && 0 < a.quantity <= config.cap && a == StartOf(a.basket, a.quantity)
      modifies this`attempts, this`attempt
      ensures Core() && attempts == old(attempts) + 1 && !halted && reserved == 0 && attempt == Some(a)
    {
      hide Kept, Gone, Recorded;
      NothingRecorded();
      attempts := attempts + 1;
      attempt := Some(a);
    }

    lemma StartReady(books: map<nat, Cached>)
      requires Core() && Cache(config, books) && attempt.Some? && attempt.value.leg < 3
      ensures Ready(config, attempt.value, books)
    {
    }

    lemma ConfigHolds()
      requires Core()
      ensures ValidConfig(config) && cash >= 0
    {
    }
  }

  /** A new attempt has bought nothing and starts with the first leg. */
  function StartOf(b: Basket, quantity: nat): Attempt {
    Attempt(b, quantity, 0, 0, 0, 0, 0, 0, BuyArrival, Three(0, 0, 0))
  }

  /** What sizing finds for a signal: nothing for a censored one, the optimum, or that there is
      no candidate. */
  ghost predicate QuoteMeans(c: Config, used: Consumed, cash: int, signal: Signal, books: map<nat, Cached>,
                             quote: Option<BasketSizing.SizedBasket>) {
    if signal.leftCensored then quote.None?
    else
      && ValidConfig(c) && cash >= 0 && Cache(c, books) && Tradable(c, signal.basket)
      && var depth, bounds := Depths(c, used, signal.basket, books), Bounds(c, cash);
      && BasketSizing.ValidInput(depth, bounds)
      && if quote.Some? then BasketSizing.IsOptimum(depth, bounds, quote.value)
         else forall q: int :: !BasketSizing.Candidate(depth, bounds, q)
  }

  function Bounds(c: Config, cash: int): SizingLimits
    requires ValidConfig(c) && cash >= 0
  {
    SizingLimits(c.cap, 100, cash, c.margin, 100)
  }

  /** What sizing sees: what is left of each leg's side. */
  function Depths(c: Config, used: Consumed, b: Basket, books: map<nat, Cached>): BasketSizing.Basket
    requires ValidConfig(c) && Cache(c, books) && Tradable(c, b)
  {
    var x, y, z := Want(b.markets.first, true, false), Want(b.markets.second, false, false), Want(b.markets.third, false, false);
    BasketSizing.Basket(BuyDepth(Open(x, Displayed(books[x.market], x), used, c.cap), c.fees[x.market]),
                        BuyDepth(Open(y, Displayed(books[y.market], y), used, c.cap), c.fees[y.market]),
                        BuyDepth(Open(z, Displayed(books[z.market], z), used, c.cap), c.fees[z.market]))
  }

  /** What is left of a sorted side ascends strictly and is positive. */
  lemma {:induction false} OpenAscends(w: Want, side: seq<Level>, used: Consumed, room: nat)
    requires !w.sell && Sorted(if w.yes then Ask else Bid, side)
    ensures var levels := Open(w, side, used, room);
      && Ascending(levels) && |levels| <= |side| && (forall i :: 0 <= i < |levels| ==> levels[i].quantity > 0)
      && (side != [] ==> forall i :: 0 <= i < |levels| ==> Converted(w, side[0].price) <= levels[i].price)
    decreases side
  {
    hide Left, Used, KeyOf, Open;
    NothingOpen(w, side, used, room);
    if side != [] && room != 0 {
      var take := Min(Left(side[0], Used(used, KeyOf(w, side[0].price))), room);
      OpenUnfolds(w, side, 0, used, room);
      assert side[0..] == side;
      OpenAscends(w, side[1..], used, room - take);
      if |side| > 1 {
        assert side[1..][0] == side[1];
      }
    }
  }

  lemma LegIsValid(c: Config, w: Want, books: map<nat, Cached>, used: Consumed)
    requires ValidConfig(c) && Cache(c, books) && w.market in c.fees && w.market in books && !w.sell
    ensures BasketSizing.ValidLeg(BuyDepth(Open(w, Displayed(books[w.market], w), used, c.cap), c.fees[w.market]))
  {
    OpenAscends(w, Displayed(books[w.market], w), used, c.cap);
    hide Open;
  }

  lemma OptimumSize(c: Config, depth: BasketSizing.Basket, cash: int, s: BasketSizing.SizedBasket)
    requires ValidConfig(c) && cash >= 0 && BasketSizing.ValidInput(depth, Bounds(c, cash)) && BasketSizing.IsOptimum(depth, Bounds(c, cash), s)
    ensures 0 < s.quantity <= c.cap
  {
  }

  /** Signal i has a quote, and no other signal has a better one. */
  ghost predicate BestSignal(signals: seq<Signal>, quotes: seq<Option<BasketSizing.SizedBasket>>, i: nat) {
    && |quotes| == |signals| && i < |signals| && !signals[i].leftCensored && quotes[i].Some?
    && forall j :: 0 <= j < |signals| && quotes[j].Some? ==>
         && quotes[j].value.netMargin <= quotes[i].value.netMargin
         && (quotes[j].value.netMargin == quotes[i].value.netMargin ==> signals[i].basket.id <= signals[j].basket.id)
  }

  ghost predicate Chosen(signals: seq<Signal>, quotes: seq<Option<BasketSizing.SizedBasket>>, best: Option<BasketSizing.SizedBasket>, i: nat) {
    && |quotes| == |signals|
    && if best.None? then forall j :: 0 <= j < |quotes| ==> quotes[j].None?
       else BestSignal(signals, quotes, i) && quotes[i] == best
  }

  lemma NothingChosen(signals: seq<Signal>)
    ensures Chosen(signals[..0], [], None, 0)
  {
  }

  lemma NextChosen(signals: seq<Signal>, quotes: seq<Option<BasketSizing.SizedBasket>>, best: Option<BasketSizing.SizedBasket>, i: nat,
                   n: nat, quote: Option<BasketSizing.SizedBasket>)
    requires n < |signals| && Chosen(signals[..n], quotes, best, i) && (best.Some? ==> i < n)
    requires signals[n].leftCensored ==> quote.None?
    ensures quote.None? ==> Chosen(signals[..n + 1], quotes + [quote], best, i)
    ensures quote.Some? ==>
      if best.None? || quote.value.netMargin > best.value.netMargin
         || (quote.value.netMargin == best.value.netMargin && signals[n].basket.id < signals[i].basket.id)
      then Chosen(signals[..n + 1], quotes + [quote], quote, n)
      else Chosen(signals[..n + 1], quotes + [quote], best, i)
  {
  }

  lemma NoneChosen(signals: seq<Signal>, quotes: seq<Option<BasketSizing.SizedBasket>>, best: Option<BasketSizing.SizedBasket>, i: nat)
    requires Chosen(signals, quotes, best, i)
    ensures |quotes| == |signals| && (best.None? ==> forall j :: 0 <= j < |quotes| ==> quotes[j].None?)
  {
  }

  lemma ChosenIsBest(signals: seq<Signal>, quotes: seq<Option<BasketSizing.SizedBasket>>, best: Option<BasketSizing.SizedBasket>, i: nat)
    requires Chosen(signals, quotes, best, i) && best.Some?
    ensures BestSignal(signals, quotes, i) && i < |signals| && quotes[i] == best
  {
  }

  /** An event of the attempt is due. */
  predicate Due(c: Config, v: View, time: int, books: map<nat, Cached>) {
    v.attempt.Some? && !v.halted && Ready(c, v.attempt.value, books) && v.attempt.value.due <= time
  }

  /** What buying the whole quantity of one leg would take now, at any price. */
  function LegQuote(c: Config, used: Consumed, a: Attempt, leg: nat, books: map<nat, Cached>): Fill
    requires Sane(c, a) && ValidConfig(c) && Cache(c, books)
  {
    var w := BuyOf(a, leg);
    Outcome(w, c.fees[w.market], Filled(w, Open(w, Displayed(books[w.market], w), used, c.cap), 10_000, a.quantity))
  }

  /** The cost of the legs from `leg` on. */
  function CostFrom(c: Config, used: Consumed, a: Attempt, leg: nat, books: map<nat, Cached>): int
    requires Sane(c, a) && ValidConfig(c) && Cache(c, books)
    decreases 3 - leg
  {
    if leg >= 3 then 0 else LegQuote(c, used, a, leg, books).cash + CostFrom(c, used, a, leg + 1, books)
  }

  /** The remaining legs can all be bought in full, for less than the payout by the margin, and
      the next one is funded. */
  ghost predicate Sendable(c: Config, used: Consumed, cash: int, a: Attempt, books: map<nat, Cached>)
    requires Sane(c, a) && ValidConfig(c) && Cache(c, books) && a.leg < 3
  {
    && (forall leg: nat :: a.leg <= leg < 3 ==> LegQuote(c, used, a, leg, books).quantity == a.quantity)
    && a.spent + CostFrom(c, used, a, a.leg, books) <= a.quantity * 20_000 - c.margin
    && Reserve(a.quantity, 1, LegQuote(c, used, a, a.leg, books).limit, c.fees[a.basket.markets.At(a.leg)]) <= cash
  }

  function BuyOf(a: Attempt, leg: nat): Want {
    Want(a.basket.markets.At(leg), leg == 0, false)
  }

  function SaleOf(a: Attempt, leg: nat): Want {
    Want(a.basket.markets.At(leg), leg == 0, true)
  }

  lemma CacheHas(c: Config, books: map<nat, Cached>, m: nat)
    requires Cache(c, books) && m in c.fees
    ensures m in books
  {
  }

  lemma FeeIsValid(c: Config, m: nat)
    requires ValidConfig(c) && m in c.fees
    ensures ValidFee(c.fees[m]) && 100 <= c.cap <= 10_000
  {
  }

  lemma OpenUnfolds(w: Want, side: seq<Level>, i: nat, c: Consumed, room: nat)
    requires i < |side| && room > 0
    ensures var take := Min(Left(side[i], Used(c, KeyOf(w, side[i].price))), room);
      && 0 <= take <= room && take <= INT64_MAX
      && Open(w, side[i..], c, room) ==
        if take == 0 then Open(w, side[i + 1..], c, room)
        else [BuyLevel(Converted(w, side[i].price), take)] + Open(w, side[i + 1..], c, room - take)
  {
    assert side[i..][0] == side[i] && side[i..][1..] == side[i + 1..];
  }

  lemma NothingOpen(w: Want, side: seq<Level>, c: Consumed, room: nat)
    ensures side == [] || room == 0 ==> Open(w, side, c, room) == []
  {
  }

  lemma FillBegins(w: Want, fee: FeePolicy, levels: seq<BuyLevel>, c: Consumed)
    requires ValidFee(fee)
    ensures Outcome(w, fee, []) == NOTHING && LedgerOf(w, fee, []).rounding == 0 && DeductAll(w, c, []) == c && levels[0..] == levels
  {
  }

  lemma FilledNothing(w: Want, levels: seq<BuyLevel>, limit: Price, desired: nat)
    ensures levels == [] ==> Filled(w, levels, limit, desired) == []
  {
  }

  lemma FilledUnfolds(w: Want, levels: seq<BuyLevel>, i: nat, limit: Price, desired: nat)
    requires i < |levels|
    ensures var q := Min(desired, levels[i].quantity);
      Filled(w, levels[i..], limit, desired) ==
        if !Acceptable(w, limit, levels[i].price) || q == 0 then []
        else [Trade(q, levels[i].price)] + Filled(w, levels[i + 1..], limit, desired - q)
  {
    assert levels[i..][0] == levels[i] && levels[i..][1..] == levels[i + 1..];
  }

  lemma OutcomeNext(w: Want, fee: FeePolicy, done: seq<Trade>, t: Trade)
    requires ValidFee(fee)
    ensures var l, r := LedgerOf(w, fee, done), Outcome(w, fee, done);
      var f := ExecutionCost.Fill(!w.sell, t.quantity, t.price, fee, l.rounding);
      && Outcome(w, fee, done + [t]) == Fill(r.quantity + t.quantity, r.cash + f.change, t.price)
      && LedgerOf(w, fee, done + [t]).rounding == Outstanding(f, l.rounding) < l.rounding + fee.quantum
  {
    hide AddFill, ExecutionCost.Fill;
    AddFillsSplit(!w.sell, OPENED, done, [t], fee);
    assert [t][1..] == [];
    LiquidityWalk.RoundingGrows(!w.sell, LedgerOf(w, fee, done), t, fee);
  }

  lemma {:induction false} DeductNext(w: Want, c: Consumed, done: seq<Trade>, t: Trade)
    ensures DeductAll(w, c, done + [t]) == Deduct(w, DeductAll(w, c, done), t)
    decreases done
  {
    hide Deduct;
    if done == [] {
      assert done + [t] == [t];
      assert [t][1..] == [];
    } else {
      assert (done + [t])[1..] == done[1..] + [t];
      DeductNext(w, Deduct(w, c, done[0]), done[1..], t);
    }
  }

  // ------------------------------------------------------------------------
  // Attempts that cost nothing
  // ------------------------------------------------------------------------

  /** An unwound attempt is counted by whether it cost anything. Buying costs nothing exactly
      when every fill was at a price of zero; only then can an attempt counted as empty have
      bought something, and its proceeds are missing from the unwinding result. */
  lemma FreeOnlyAtZero(w: Want, fee: FeePolicy, trades: seq<Trade>)
    requires !w.sell && ValidFee(fee) && forall i :: 0 <= i < |trades| ==> trades[i].quantity > 0
    ensures Outcome(w, fee, trades).cash == 0 <==> forall i :: 0 <= i < |trades| ==> trades[i].price == 0
  {
    FreshOrderTotals(true, trades, fee);
    LiquidityWalk.TotalsNonNegative(trades, fee.coefficient);
    NotionalAtZero(trades);
    if forall i :: 0 <= i < |trades| ==> trades[i].price == 0 {
      FreeFills(OPENED, trades, fee);
    }
  }

  lemma {:induction false} NotionalAtZero(trades: seq<Trade>)
    requires forall i :: 0 <= i < |trades| ==> trades[i].quantity > 0
    ensures TotalNotional(trades) >= 0
    ensures TotalNotional(trades) == 0 ==> forall i :: 0 <= i < |trades| ==> trades[i].price == 0
    decreases trades
  {
    if trades != [] {
      NotionalAtZero(trades[1..]);
      if trades[0].price > 0 {
        MulMonotone(1, trades[0].price, trades[0].quantity);
      }
    }
  }

  lemma {:induction false} FreeFills(l: Ledger, trades: seq<Trade>, fee: FeePolicy)
    requires ValidFee(fee) && l.rounding == 0 && forall i :: 0 <= i < |trades| ==> trades[i].price == 0
    ensures AddFills(true, l, trades, fee).cash == l.cash
    decreases trades
  {
    hide AddFill;
    if trades != [] {
      FreeFill(l, trades[0], fee);
      FreeFills(AddFill(true, l, trades[0], fee), trades[1..], fee);
    }
  }

  lemma FreeFill(l: Ledger, t: Trade, fee: FeePolicy)
    requires ValidFee(fee) && l.rounding == 0 && t.price == 0
    ensures AddFill(true, l, t, fee).cash == l.cash && AddFill(true, l, t, fee).rounding == 0
  {
    hide TradeFee, Amounts;
    NoFee(t.quantity, fee.coefficient);
    NoAmounts(fee.quantum);
    assert t.quantity * t.price == 0;
  }

  lemma NoFee(quantity: nat, coefficient: nat)
    ensures TradeFee(quantity, 0, coefficient) == 0
  {
    assert FeeFactor(0, coefficient) == 0;
    hide FeeFactor;
    assert quantity * FeeFactor(0, coefficient) == 0;
  }

  lemma NoAmounts(quantum: nat)
    requires ValidQuantum(quantum)
    ensures var f := Amounts(true, 0, 0, quantum, 0); f.change == 0 && f.roundingFee == f.rebate == 0
  {
  }
}
