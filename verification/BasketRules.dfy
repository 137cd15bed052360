/** What the steps of one scenario of the basket study (src/session/basket_execution.cpp) come to, in
    plain terms: what an order takes from a side, when a leg is sent and on which reservation, and
    what each event books. */
module BasketRules {
  import opened FixedPoint
  import opened Contracts
  import opened ExecutionCost
  import opened Reservation
  import opened OrderBooks
  import opened DepthWalk
  import opened BasketExecution
  import BasketSizing
  import LiquidityWalk

  // ------------------------------------------------------------------------
  // What an order takes
  // ------------------------------------------------------------------------

  /** What earlier orders have left at a level: asks are bought from when YES is bought or NO sold,
      and consumption is counted by side and book price. */
  function LeftAt(m: nat, ask: bool, level: Level, c: Consumed): nat {
    var key := Key(m, ask, level.price);
    var used := if key in c then c[key] else 0;
    if level.quantity > used then level.quantity - used else 0
  }

  function PriceAt(yes: bool, level: Level): int {
    if yes then level.price else 10_000 - level.price
  }

  predicate Within(sell: bool, limit: Price, price: int) {
    if sell then limit <= price else price <= limit
  }

  /** Something more is to be taken than at the levels up to i. */
  ghost predicate Goes(xs: seq<nat>, i: nat, desired: nat) {
    LiquidityWalk.Total(xs) < desired || LiquidityWalk.TakenAfter(xs, i)
  }

  /** Taking x at a level: no more than is left there, within the limit; and all of it as long as
      more is to be taken. */
  predicate TakesAt(w: Want, level: Level, c: Consumed, limit: Price, x: nat, more: bool) {
    var left, within := LeftAt(w.market, w.yes != w.sell, level, c), Within(w.sell, limit, PriceAt(w.yes, level));
    x <= left && (x > 0 ==> within) && (within && more ==> x == left)
  }

  /** Taking x_i at level i, no more than the order and the room of all orders in total. */
  ghost predicate Takes(w: Want, side: seq<Level>, c: Consumed, room: nat, limit: Price, desired: nat, xs: seq<nat>) {
    && |xs| == |side| && LiquidityWalk.Total(xs) <= Min(desired, room)
    && forall i :: 0 <= i < |xs| ==> TakesAt(w, side[i], c, limit, xs[i], Goes(xs, i, Min(desired, room)))
  }

  function TradesOf(w: Want, side: seq<Level>, xs: seq<nat>): seq<Trade>
    requires |xs| == |side|
    decreases side
  {
    if side == [] then [] else (if xs[0] == 0 then [] else [Trade(xs[0], PriceAt(w.yes, side[0]))]) + TradesOf(w, side[1..], xs[1..])
  }

  /** The fills of every order are such a taking. */
  lemma {:induction false} FillsSpelledOut(w: Want, side: seq<Level>, c: Consumed, room: nat, limit: Price, desired: nat) returns (xs: seq<nat>)
    requires Sorted(if w.yes != w.sell then Ask else Bid, side)
    ensures |xs| == |side| && Takes(w, side, c, room, limit, desired, xs)
    ensures Filled(w, Open(w, side, c, room), limit, desired) == TradesOf(w, side, xs)
    decreases side
  {
    hide *;
    if side == [] || room == 0 || desired == 0 {
      xs := NothingTaken(w, side, c, room, limit, desired);
    } else {
      FirstLevel(w, side, c, room, limit, desired);
      var left := LeftAt(w.market, w.yes != w.sell, side[0], c);
      var offered := if left <= room then left else room;
      if left == 0 {
        var rest := FillsSpelledOut(w, side[1..], c, room, limit, desired);
        xs := [0] + rest;
        TakesNext(w, side, c, room, limit, desired, left, 0, rest);
      } else if !Within(w.sell, limit, PriceAt(w.yes, side[0])) {
        xs := NothingTaken(w, side, c, room, limit, desired);
      } else {
        var x := if desired <= offered then desired else offered;
        var rest := FillsSpelledOut(w, side[1..], c, room - offered, limit, desired - x);
        xs := [x] + rest;
        TakesNext(w, side, c, room, limit, desired, offered, x, rest);
      }
    }
  }

  /** What the first level offers, and how the fills go on. */
  lemma FirstLevel(w: Want, side: seq<Level>, c: Consumed, room: nat, limit: Price, desired: nat)
    requires Sorted(if w.yes != w.sell then Ask else Bid, side) && side != [] && room > 0 && desired > 0
    ensures Sorted(if w.yes != w.sell then Ask else Bid, side[1..])
    ensures var left := LeftAt(w.market, w.yes != w.sell, side[0], c);
      var offered := if left <= room then left else room;
      var x := if desired <= offered then desired else offered;
      Filled(w, Open(w, side, c, room), limit, desired)
      == if left == 0 then Filled(w, Open(w, side[1..], c, room), limit, desired)
         else if !Within(w.sell, limit, PriceAt(w.yes, side[0])) then []
         else [Trade(x, PriceAt(w.yes, side[0]))] + Filled(w, Open(w, side[1..], c, room - offered), limit, desired - x)
  {
    TailIsSorted(if w.yes != w.sell then Ask else Bid, side);
    OpenFirst(w, side, c, room);
    hide *;
    var left := LeftAt(w.market, w.yes != w.sell, side[0], c);
    if left != 0 {
      var offered := if left <= room then left else room;
      FilledFirst(w, BuyLevel(PriceAt(w.yes, side[0]), offered), Open(w, side[1..], c, room - offered), limit, desired);
    }
  }

  lemma TailIsSorted(d: Side, side: seq<Level>)
    requires Sorted(d, side) && side != []
    ensures Sorted(d, side[1..])
  {
  }

  lemma OpenFirst(w: Want, side: seq<Level>, c: Consumed, room: nat)
    requires side != [] && room > 0
    ensures var left := LeftAt(w.market, w.yes != w.sell, side[0], c);
      var offered := if left <= room then left else room;
      && 0 <= PriceAt(w.yes, side[0]) <= 10_000 && (left > 0 ==> 0 < offered <= INT64_MAX)
      && Open(w, side, c, room)
         == if left == 0 then Open(w, side[1..], c, room) else [BuyLevel(PriceAt(w.yes, side[0]), offered)] + Open(w, side[1..], c, room - offered)
  {
    assert side[0..] == side;
    OpenUnfolds(w, side, 0, c, room);
    hide Open;
  }

  lemma FilledFirst(w: Want, level: BuyLevel, rest: seq<BuyLevel>, limit: Price, desired: nat)
    requires level.quantity > 0 && desired > 0
    ensures var x := if desired <= level.quantity then desired else level.quantity;
      Filled(w, [level] + rest, limit, desired)
      == if Within(w.sell, limit, level.price) then [Trade(x, level.price)] + Filled(w, rest, limit, desired - x) else []
  {
    assert ([level] + rest)[1..] == rest;
  }

  /** An order for nothing, without room or levels, or beyond its limit takes nothing. */
  lemma NothingTaken(w: Want, side: seq<Level>, c: Consumed, room: nat, limit: Price, desired: nat) returns (xs: seq<nat>)
    requires Sorted(if w.yes != w.sell then Ask else Bid, side)
    requires side == [] || room == 0 || desired == 0
      || (LeftAt(w.market, w.yes != w.sell, side[0], c) > 0 && !Within(w.sell, limit, PriceAt(w.yes, side[0])))
    ensures |xs| == |side| && Takes(w, side, c, room, limit, desired, xs)
    ensures Filled(w, Open(w, side, c, room), limit, desired) == TradesOf(w, side, xs)
  {
    xs := LiquidityWalk.Nothing(|side|);
    NothingTraded(w, side);
    FilledEmpty(w, side, c, room, limit, desired);
    hide Open, Filled, TradesOf, LiquidityWalk.Nothing, LiquidityWalk.Total;
    forall i | 0 <= i < |xs| ensures !LiquidityWalk.TakenAfter(xs, i) {
    }
  }

  lemma FilledEmpty(w: Want, side: seq<Level>, c: Consumed, room: nat, limit: Price, desired: nat)
    requires side == [] || room == 0 || desired == 0
      || (LeftAt(w.market, w.yes != w.sell, side[0], c) > 0 && !Within(w.sell, limit, PriceAt(w.yes, side[0])))
    ensures Filled(w, Open(w, side, c, room), limit, desired) == []
  {
  }

  lemma {:induction false} NothingTraded(w: Want, side: seq<Level>)
    ensures TradesOf(w, side, LiquidityWalk.Nothing(|side|)) == [] && LiquidityWalk.Total(LiquidityWalk.Nothing(|side|)) == 0
    decreases side
  {
    if side != [] {
      assert LiquidityWalk.Nothing(|side|)[1..] == LiquidityWalk.Nothing(|side| - 1);
      NothingTraded(w, side[1..]);
    }
  }

  lemma TakesNext(w: Want, side: seq<Level>, c: Consumed, room: nat, limit: Price, desired: nat, offered: nat, x: nat, rest: seq<nat>)
    requires side != []
    requires var left := LeftAt(w.market, w.yes != w.sell, side[0], c); offered == if left <= room then left else room
    requires x == if desired <= offered then desired else offered
    requires x > 0 ==> Within(w.sell, limit, PriceAt(w.yes, side[0]))
    requires |rest| == |side[1..]| && Takes(w, side[1..], c, room - offered, limit, desired - x, rest)
    ensures Takes(w, side, c, room, limit, desired, [x] + rest)
    ensures TradesOf(w, side, [x] + rest) == (if x == 0 then [] else [Trade(x, PriceAt(w.yes, side[0]))]) + TradesOf(w, side[1..], rest)
  {
    var xs, all, later := [x] + rest, Min(desired, room), Min(desired - x, room - offered);
    assert later == all - x;
    TradesNext(w, side, x, rest);
    GoesFirst(rest, x, all);
    assert TakesAt(w, side[0], c, limit, x, Goes(xs, 0, all)) by {
      hide Goes, LiquidityWalk.Total, PriceAt, Within, LeftAt;
    }
    hide TakesAt, TradesOf, Goes, LiquidityWalk.Total, Min;
    forall i | 0 <= i < |xs| ensures TakesAt(w, side[i], c, limit, xs[i], Goes(xs, i, all)) {
      if i > 0 {
        GoesNext(rest, x, i, all);
        assert xs[i] == rest[i - 1] && side[i] == side[1..][i - 1];
      }
    }
  }

  lemma TradesNext(w: Want, side: seq<Level>, x: nat, rest: seq<nat>)
    requires side != [] && |rest| == |side[1..]|
    ensures TradesOf(w, side, [x] + rest) == (if x == 0 then [] else [Trade(x, PriceAt(w.yes, side[0]))]) + TradesOf(w, side[1..], rest)
    ensures LiquidityWalk.Total([x] + rest) == x + LiquidityWalk.Total(rest)
  {
    assert ([x] + rest)[1..] == rest;
  }

  lemma GoesNext(rest: seq<nat>, x: nat, i: nat, desired: nat)
    requires 0 < i <= |rest| && LiquidityWalk.Total([x] + rest) == x + LiquidityWalk.Total(rest) && x <= desired
    ensures Goes([x] + rest, i, desired) == Goes(rest, i - 1, desired - x)
  {
    hide LiquidityWalk.Total;
    var xs := [x] + rest;
    if LiquidityWalk.TakenAfter(xs, i) {
      var j :| i < j < |xs| && xs[j] > 0;
      assert rest[j - 1] > 0;
    }
    if LiquidityWalk.TakenAfter(rest, i - 1) {
      var j :| i - 1 < j < |rest| && rest[j] > 0;
      assert xs[j + 1] > 0;
    }
  }

  lemma GoesFirst(rest: seq<nat>, x: nat, desired: nat)
    requires LiquidityWalk.Total([x] + rest) == x + LiquidityWalk.Total(rest)
    ensures Goes([x] + rest, 0, desired) ==> x < desired || LiquidityWalk.Total(rest) > 0
  {
    hide LiquidityWalk.Total;
    var xs := [x] + rest;
    if LiquidityWalk.TakenAfter(xs, 0) {
      var j :| 0 < j < |xs| && xs[j] > 0;
      LiquidityWalk.PartOfTotal(rest, j - 1);
    }
  }

  /** What an order takes now, with its cost, on one leg: the first buys YES, the others NO. */
  function TakenNow(c: Config, used: Consumed, books: map<nat, Cached>, m: nat, leg: nat, sell: bool, limit: Price, desired: nat): Fill
    requires ValidConfig(c) && m in c.fees && m in books
  {
    var w := Want(m, leg == 0, sell);
    var side := if !books[m].valid then [] else if w.yes != sell then books[m].asks else books[m].bids;
    Outcome(w, c.fees[m], Filled(w, Open(w, side, used, c.cap), limit, desired))
  }

  /** What the fills amount to: their quantity, their cash with all fees and whole quanta, and the
      price of the last. */
  lemma OutcomeSpelledOut(w: Want, fee: FeePolicy, trades: seq<Trade>)
    requires ValidFee(fee)
    ensures var f, rounding := Outcome(w, fee, trades), LedgerOf(w, fee, trades).rounding;
      && f.quantity == TotalQuantity(trades) && (trades != [] ==> f.limit == trades[|trades| - 1].price) && f.cash % fee.quantum == 0
      && f.cash == if w.sell then TotalNotional(trades) - TotalFees(trades, fee.coefficient) - rounding
                   else TotalNotional(trades) + TotalFees(trades, fee.coefficient) + rounding
  {
    FreshOrderTotals(!w.sell, trades, fee);
    AlignedMeaning(LedgerOf(w, fee, trades).cash, fee.quantum);
    hide AddFills, TotalNotional, TotalFees, TotalQuantity, Aligned;
  }

  /** An applied fill adds what it takes to the level's consumption. */
  lemma {:induction false} DeductedSpelledOut(w: Want, c: Consumed, trades: seq<Trade>, key: Key)
    requires forall i :: 0 <= i < |trades| ==> trades[i].price <= 10_000
    ensures Used(DeductAll(w, c, trades), key) == Used(c, key) + TradedAt(w, trades, key)
    decreases trades
  {
    if trades != [] {
      DeductedSpelledOut(w, Deduct(w, c, trades[0]), trades[1..], key);
    }
  }

  /** The quantity traded at one physical level. */
  function TradedAt(w: Want, trades: seq<Trade>, key: Key): nat {
    if trades == [] then 0
    else
      var t := trades[0];
      var book := if w.yes then t.price else 10_000 - t.price;
      (if key.market == w.market && key.ask == (w.yes != w.sell) && key.price == book then t.quantity else 0) + TradedAt(w, trades[1..], key)
  }

  // ------------------------------------------------------------------------
  // Decisions
  // ------------------------------------------------------------------------

  function AsLevels(trades: seq<Trade>): seq<BuyLevel>
    requires forall i :: 0 <= i < |trades| ==> trades[i].quantity <= INT64_MAX
  {
    if trades == [] then [] else [BuyLevel(trades[0].price, trades[0].quantity)] + AsLevels(trades[1..])
  }

  /** Sizing sees what a buy of the whole cap at any price would take. */
  lemma {:induction false} DepthSpelledOut(w: Want, side: seq<Level>, c: Consumed, room: nat)
    requires !w.sell
    ensures var trades := Filled(w, Open(w, side, c, room), 10_000, room);
      (forall i :: 0 <= i < |trades| ==> trades[i].quantity <= INT64_MAX) && Open(w, side, c, room) == AsLevels(trades)
    decreases side
  {
    hide *;
    if side == [] || room == 0 {
      NothingSeen(w, side, c, room);
    } else {
      OpenFirst(w, side, c, room);
      var left := LeftAt(w.market, w.yes != w.sell, side[0], c);
      if left == 0 {
        DepthSpelledOut(w, side[1..], c, room);
      } else {
        var offered := if left <= room then left else room;
        DepthSpelledOut(w, side[1..], c, room - offered);
        FilledFirst(w, BuyLevel(PriceAt(w.yes, side[0]), offered), Open(w, side[1..], c, room - offered), 10_000, room);
        AsLevelsNext(Trade(offered, PriceAt(w.yes, side[0])), Filled(w, Open(w, side[1..], c, room - offered), 10_000, room - offered));
        AtAnyPrice(PriceAt(w.yes, side[0]));
      }
    }
  }

  lemma NothingSeen(w: Want, side: seq<Level>, c: Consumed, room: nat)
    requires side == [] || room == 0
    ensures Open(w, side, c, room) == [] && Filled(w, [], 10_000, room) == [] && AsLevels([]) == []
  {
  }

  lemma AsLevelsNext(t: Trade, rest: seq<Trade>)
    requires t.quantity <= INT64_MAX && forall i :: 0 <= i < |rest| ==> rest[i].quantity <= INT64_MAX
    ensures forall i :: 0 <= i < |[t] + rest| ==> ([t] + rest)[i].quantity <= INT64_MAX
    ensures AsLevels([t] + rest) == [BuyLevel(t.price, t.quantity)] + AsLevels(rest)
  {
    assert ([t] + rest)[1..] == rest;
  }

  lemma AtAnyPrice(p: int)
    ensures p <= 10_000 ==> Within(false, 10_000, p)
  {
  }

  /** What the legs of a basket offer: YES of the first market from its asks, NO of the others from
      their bids. */
  lemma DepthsSpelledOut(c: Config, used: Consumed, b: Basket, books: map<nat, Cached>)
    requires ValidConfig(c) && Cache(c, books) && Tradable(c, b)
    ensures b.markets.first in books && b.markets.second in books && b.markets.third in books
    ensures var d, x, y, z := Depths(c, used, b, books), books[b.markets.first], books[b.markets.second], books[b.markets.third];
      && d.first == BuyDepth(Open(Want(b.markets.first, true, false), if x.valid then x.asks else [], used, c.cap), c.fees[b.markets.first])
      && d.second == BuyDepth(Open(Want(b.markets.second, false, false), if y.valid then y.bids else [], used, c.cap), c.fees[b.markets.second])
      && d.third == BuyDepth(Open(Want(b.markets.third, false, false), if z.valid then z.bids else [], used, c.cap), c.fees[b.markets.third])
  {
    CacheHas(c, books, b.markets.first);
    CacheHas(c, books, b.markets.second);
    CacheHas(c, books, b.markets.third);
    hide Open, Cache;
  }

  /** A decision takes a signal whose opening was observed, in a size that no size of any such signal
      surpasses in margin; at the same margin its basket has the smallest identity. */
  lemma ChoiceSpelledOut(c: Config, used: Consumed, cash: int, signals: seq<Signal>, books: map<nat, Cached>,
                         quotes: seq<Option<BasketSizing.SizedBasket>>, i: nat)
    returns (x: SizedLeg, y: SizedLeg, z: SizedLeg)
    requires BestSignal(signals, quotes, i) && ValidConfig(c) && Cache(c, books) && cash >= 0
    requires forall j :: 0 <= j < |signals| ==> Tradable(c, signals[j].basket) && QuoteMeans(c, used, cash, signals[j], books, quotes[j])
    ensures !signals[i].leftCensored && quotes[i].Some? && quotes[i].value.quantity >= 0
    ensures var bounds := SizingLimits(c.cap, 100, cash, c.margin, 100);
      var q := quotes[i].value.quantity;
      var margin := 20_000 * q - x.debit - y.debit - z.debit;
      && BasketSizing.Rival(Depths(c, used, signals[i].basket, books), bounds, q, x, y, z)
      && forall j, q': nat, x', y', z' ::
           0 <= j < |signals| && !signals[j].leftCensored && BasketSizing.Rival(Depths(c, used, signals[j].basket, books), bounds, q', x', y', z') ==>
             var margin' := 20_000 * q' - x'.debit - y'.debit - z'.debit;
             margin' < margin || (margin' == margin && signals[i].basket.id <= signals[j].basket.id)
  {
    hide ValidConfig, Cache, Tradable, Depths, BasketSizing.Rival, BasketSizing.IsOptimum, BasketSizing.Candidate, BasketSizing.ValidInput;
    var bounds := Bounds(c, cash);
    x, y, z := QuoteSpelledOut(c, used, cash, signals[i], books, quotes[i]);
    forall j, q': nat, x', y', z' |
      0 <= j < |signals| && !signals[j].leftCensored && BasketSizing.Rival(Depths(c, used, signals[j].basket, books), bounds, q', x', y', z')
      ensures var margin' := 20_000 * q' - x'.debit - y'.debit - z'.debit;
        margin' < quotes[i].value.netMargin || (margin' == quotes[i].value.netMargin && signals[i].basket.id <= signals[j].basket.id)
    {
      var u, v, t := QuoteSpelledOut(c, used, cash, signals[j], books, quotes[j]);
    }
  }

  /** The quote of one signal is a rival that no rival surpasses in margin; without one there is no
      rival. */
  lemma QuoteSpelledOut(c: Config, used: Consumed, cash: int, signal: Signal, books: map<nat, Cached>, quote: Option<BasketSizing.SizedBasket>)
    returns (x: SizedLeg, y: SizedLeg, z: SizedLeg)
    requires QuoteMeans(c, used, cash, signal, books, quote) && !signal.leftCensored
    requires ValidConfig(c) && cash >= 0 && Cache(c, books) && Tradable(c, signal.basket)
    ensures var d, bounds := Depths(c, used, signal.basket, books), Bounds(c, cash);
      && (quote.Some? ==>
            && quote.value.quantity >= 0 && BasketSizing.Rival(d, bounds, quote.value.quantity, x, y, z)
            && quote.value.netMargin == 20_000 * quote.value.quantity - x.debit - y.debit - z.debit)
      && forall q: nat, x', y', z' :: BasketSizing.Rival(d, bounds, q, x', y', z') ==>
           quote.Some? && 20_000 * q - x'.debit - y'.debit - z'.debit <= quote.value.netMargin
  {
    hide Depths, ValidConfig, Cache, Tradable, BasketSizing.ValidInput, BasketSizing.Candidate, BasketSizing.Quote, BasketSizing.Rival, BasketSizing.TotalReserve;
    var d, bounds := Depths(c, used, signal.basket, books), Bounds(c, cash);
    if quote.None? {
      x, y, z := SizedLeg(0, 0, 0, 0), SizedLeg(0, 0, 0, 0), SizedLeg(0, 0, 0, 0);
    } else {
      var s := quote.value;
      OptimumSize(c, d, cash, s);
      BasketSizing.CandidateQuote(d, bounds, s.quantity);
      x, y, z := s.first, s.second, s.third;
    }
    forall q: nat, x', y', z' | BasketSizing.Rival(d, bounds, q, x', y', z')
      ensures quote.Some? && 20_000 * q - x'.debit - y'.debit - z'.debit <= quote.value.netMargin
    {
      BasketSizing.RivalIsCandidate(d, bounds, q, x', y', z');
    }
  }

  // ------------------------------------------------------------------------
  // Sending the next leg
  // ------------------------------------------------------------------------

  /** What the remaining legs would cost now at any price. */
  function RestCost(c: Config, used: Consumed, a: Attempt, books: map<nat, Cached>): int
    requires Ready(c, a, books)
  {
    CacheHas(c, books, a.basket.markets.first);
    CacheHas(c, books, a.basket.markets.second);
    CacheHas(c, books, a.basket.markets.third);
    var x := TakenNow(c, used, books, a.basket.markets.first, 0, false, 10_000, a.quantity);
    var y := TakenNow(c, used, books, a.basket.markets.second, 1, false, 10_000, a.quantity);
    var z := TakenNow(c, used, books, a.basket.markets.third, 2, false, 10_000, a.quantity);
    (if a.leg <= 0 then x.cash else 0) + (if a.leg <= 1 then y.cash else 0) + z.cash
  }

  /** Every remaining leg can be bought whole now. */
  predicate RestOffered(c: Config, used: Consumed, a: Attempt, books: map<nat, Cached>)
    requires Ready(c, a, books)
  {
    CacheHas(c, books, a.basket.markets.first);
    CacheHas(c, books, a.basket.markets.second);
    CacheHas(c, books, a.basket.markets.third);
    && (a.leg <= 0 ==> TakenNow(c, used, books, a.basket.markets.first, 0, false, 10_000, a.quantity).quantity == a.quantity)
    && (a.leg <= 1 ==> TakenNow(c, used, books, a.basket.markets.second, 1, false, 10_000, a.quantity).quantity == a.quantity)
    && TakenNow(c, used, books, a.basket.markets.third, 2, false, 10_000, a.quantity).quantity == a.quantity
  }

  lemma QuoteIsTaken(c: Config, used: Consumed, a: Attempt, leg: nat, books: map<nat, Cached>)
    requires Ready(c, a, books) && leg < 3
    ensures var m := a.basket.markets.At(leg);
      m in books && m in c.fees && LegQuote(c, used, a, leg, books) == TakenNow(c, used, books, m, leg, false, 10_000, a.quantity)
  {
    CacheHas(c, books, a.basket.markets.At(leg));
    hide Outcome, Filled, Open, Cache, Within;
  }

  /** The rest of the basket, leg after leg. */
  lemma RestIsCost(c: Config, used: Consumed, a: Attempt, books: map<nat, Cached>)
    requires Ready(c, a, books)
    ensures RestCost(c, used, a, books) == CostFrom(c, used, a, a.leg, books)
    ensures RestOffered(c, used, a, books) <==> forall leg: nat :: a.leg <= leg < 3 ==> LegQuote(c, used, a, leg, books).quantity == a.quantity
  {
    QuoteIsTaken(c, used, a, 0, books);
    QuoteIsTaken(c, used, a, 1, books);
    QuoteIsTaken(c, used, a, 2, books);
    hide TakenNow, LegQuote, Cache, Within;
    assert CostFrom(c, used, a, 3, books) == 0;
    assert CostFrom(c, used, a, 2, books) == LegQuote(c, used, a, 2, books).cash;
    assert CostFrom(c, used, a, 1, books) == LegQuote(c, used, a, 1, books).cash + CostFrom(c, used, a, 2, books);
  }

  /** The next leg is sent exactly when all remaining legs can be bought whole, what is spent and what
      they would cost leave the margin, and the reservation of the next one is funded; then at its
      quoted limit, on that reservation, arriving after the delay. Otherwise unwinding starts with
      the first leg, and nothing stays reserved. */
  lemma SendSpelledOut(c: Config, v: View, a: Attempt, time: int, books: map<nat, Cached>)
    requires Ready(c, a, books)
    ensures var m := a.basket.markets.At(a.leg);
      m in books && m in c.fees &&
      var quote := TakenNow(c, v.consumed, books, m, a.leg, false, 10_000, a.quantity);
      var needed := Reserve(a.quantity, 1, quote.limit, c.fees[m]);
      AfterSend(c, v, a, time, books)
      == if RestOffered(c, v.consumed, a, books) && a.spent + RestCost(c, v.consumed, a, books) <= 20_000 * a.quantity - c.margin && needed <= v.cash
         then v.(attempt := Some(a.(limit := quote.limit, reserve := needed, stage := BuyArrival, due := time + c.delay)), reserved := needed,
                 peak := if v.peak >= c.capital - v.cash + needed then v.peak else c.capital - v.cash + needed)
         else AfterExit(c, v.(reserved := 0), a.(leg := 0), time)
  {
    QuoteIsTaken(c, v.consumed, a, a.leg, books);
    RestIsCost(c, v.consumed, a, books);
    hide TakenNow, LegQuote, CostFrom, RestCost, RestOffered, AfterExit, Reserve, Cache, Within;
  }

  /** A buy that has just been sent: what is spent and what the rest of the basket would cost leave
      the margin, all of the rest is offered, and the reservation is in the cash. */
  ghost predicate WithinBudget(c: Config, n: View, books: map<nat, Cached>)
    requires n.attempt.Some?
  {
    var a := n.attempt.value.(due := 0);
    && Ready(c, a, books) && n.reserved == a.reserve <= n.cash
    && RestOffered(c, n.consumed, a, books) && a.spent + RestCost(c, n.consumed, a, books) <= 20_000 * a.quantity - c.margin
  }

  lemma BuySentWithinBudget(c: Config, v: View, books: map<nat, Cached>)
    requires v.attempt.Some? && Ready(c, v.attempt.value, books)
    ensures var n := AfterEvent(c, v, books); n.attempt.Some? && n.attempt.value.stage == BuyArrival ==> WithinBudget(c, n, books)
  {
    var a := v.attempt.value;
    NextIsReady(c, a, books);
    hide WithinBudget, Outcome, Filled, Open, Reserve, Cache, Sane, AfterSend, AfterExit;
    match a.stage {
      case BuyResponse =>
        if a.leg < 2 {
          SentWithinBudget(c, v.(reserved := 0), a.(leg := a.leg + 1), a.due, books);
        }
        ExitSells(c, v.(reserved := 0), a.(leg := 0), a.due);
      case SellResponse => ExitSells(c, v, a.(leg := a.leg + 1), a.due);
      case _ =>
    }
  }

  lemma NextIsReady(c: Config, a: Attempt, books: map<nat, Cached>)
    requires Ready(c, a, books)
    ensures a.leg < 2 ==> Ready(c, a.(leg := a.leg + 1), books)
  {
  }

  lemma SentWithinBudget(c: Config, v: View, b: Attempt, time: int, books: map<nat, Cached>)
    requires Ready(c, b, books)
    ensures var n := AfterSend(c, v, b, time, books); n.attempt.Some? && n.attempt.value.stage == BuyArrival ==> WithinBudget(c, n, books)
  {
    hide Outcome, Filled, Open, Reserve, Cache, TakenNow;
    SendSpelledOut(c, v, b, time, books);
    ExitSells(c, v.(reserved := 0), b.(leg := 0), time);
    hide AfterSend, AfterExit;
  }

  /** A step of a run: the next event, or the start of an attempt. */
  datatype Step = Event | Start(attempt: Attempt, time: int)

  /** A run of a scenario from its beginning: step i leads from view i to the next on books i. */
  ghost predicate Runs(c: Config, vs: seq<View>, steps: seq<Step>, books: seq<map<nat, Cached>>) {
    && |vs| == |steps| + 1 == |books| + 1 && vs[0] == NewView(c)
    && forall i :: 0 <= i < |steps| ==> Leads(c, vs[i], steps[i], books[i], vs[i + 1])
  }

  ghost predicate Leads(c: Config, v: View, step: Step, books: map<nat, Cached>, n: View) {
    match step
    case Event => v.attempt.Some? && Ready(c, v.attempt.value, books) && n == AfterEvent(c, v, books)
    case Start(a, time) => v.attempt.None? && Ready(c, a, books) && n == AfterSend(c, v, a, time, books)
  }

  /** Over a whole run, a buy is under way only if it was sent within the budget by the books of the
      step that sent it. */
  lemma RunWithinBudget(c: Config, vs: seq<View>, steps: seq<Step>, books: seq<map<nat, Cached>>, i: nat)
    requires Runs(c, vs, steps, books) && i < |vs| && vs[i].attempt.Some? && vs[i].attempt.value.stage == BuyArrival
    ensures i > 0 && WithinBudget(c, vs[i], books[i - 1])
  {
    hide WithinBudget, AfterEvent, AfterSend, Ready;
    assert i > 0;
    var v, b := vs[i - 1], books[i - 1];
    assert Leads(c, v, steps[i - 1], b, vs[i]);
    match steps[i - 1] {
      case Event => BuySentWithinBudget(c, v, b);
      case Start(a, time) => SentWithinBudget(c, v, a, time, b);
    }
  }

  /** Giving up never leads to a buy. */
  lemma ExitSells(c: Config, v: View, a: Attempt, time: int)
    requires a.leg == 0 || a.stage != BuyArrival
    ensures var n := AfterExit(c, v, a, time); n.attempt.Some? ==> n.attempt.value.stage != BuyArrival
  {
  }

  // ------------------------------------------------------------------------
  // Events
  // ------------------------------------------------------------------------

  /** A buy takes the book at its limit, is paid out of its reservation, and is held; the response
      comes after the delay. */
  lemma BuyArrives(c: Config, v: View, books: map<nat, Cached>)
    requires v.attempt.Some? && Ready(c, v.attempt.value, books) && v.attempt.value.stage == BuyArrival
    ensures var a := v.attempt.value;
      var m := a.basket.markets.At(a.leg);
      m in books && m in c.fees &&
      var f, n := TakenNow(c, v.consumed, books, m, a.leg, false, a.limit, a.quantity), AfterEvent(c, v, books);
      n == v.(attempt := Some(a.(holdings := a.holdings.With(a.leg, f.quantity), spent := a.spent + f.cash, stage := BuyResponse, due := a.due + c.delay)),
              cash := v.cash - f.cash, spent := v.spent + f.cash, reserved := a.reserve - f.cash, consumed := n.consumed, record := n.record)
  {
    CacheHas(c, books, v.attempt.value.basket.markets.At(v.attempt.value.leg));
    BuyEvent(c, v, books);
    hide AfterEvent, Outcome, Filled, Open, Reserve, Cache, DeductAll;
  }

  /** A sale takes the book at any price, for what is held of its leg. */
  lemma SaleArrives(c: Config, v: View, books: map<nat, Cached>)
    requires v.attempt.Some? && Ready(c, v.attempt.value, books) && v.attempt.value.stage == SellArrival
    ensures var a := v.attempt.value;
      var m, held := a.basket.markets.At(a.leg), a.holdings.At(a.leg);
      m in books && m in c.fees &&
      var f, n := TakenNow(c, v.consumed, books, m, a.leg, true, 0, held), AfterEvent(c, v, books);
      n == v.(attempt := Some(a.(holdings := a.holdings.With(a.leg, held - f.quantity), received := a.received + f.cash, stage := SellResponse,
                                 due := a.due + c.delay)),
              cash := v.cash + f.cash, received := v.received + f.cash, consumed := n.consumed, record := n.record)
  {
    CacheHas(c, books, v.attempt.value.basket.markets.At(v.attempt.value.leg));
    hide Outcome, Filled, Open, Reserve, Cache, DeductAll, AfterSend, AfterExit;
  }

  /** Both kinds of arrival use up what they traded at each physical level. */
  lemma ArrivalUses(c: Config, v: View, books: map<nat, Cached>, key: Key)
    requires v.attempt.Some? && Ready(c, v.attempt.value, books) && v.attempt.value.stage in {BuyArrival, SellArrival}
    ensures var a := v.attempt.value;
      var w, trades := Working(a), if a.stage == BuyArrival then BuyTrades(c, v.consumed, a, books) else SaleTrades(c, v.consumed, a, books);
      Used(AfterEvent(c, v, books).consumed, key) == Used(v.consumed, key) + TradedAt(w, trades, key)
  {
    var a := v.attempt.value;
    var w, trades := Working(a), if a.stage == BuyArrival then BuyTrades(c, v.consumed, a, books) else SaleTrades(c, v.consumed, a, books);
    DeductedSpelledOut(w, v.consumed, trades, key);
    hide Outcome, Filled, Open, Reserve, Cache, DeductAll, Used, AfterSend, AfterExit;
  }

  /** A leg bought whole lets the next one be sent, and after the third the basket is held: its
      payout is 20,000 a hundredth, its cost what it spent, and a breach is a margin below the
      configured one. A leg bought in part starts unwinding. Either way the rest of the reservation
      is released. */
  lemma BuyAnswered(c: Config, v: View, books: map<nat, Cached>)
    requires v.attempt.Some? && Ready(c, v.attempt.value, books) && v.attempt.value.stage == BuyResponse
    ensures var a, n := v.attempt.value, AfterEvent(c, v, books);
      var bought := if a.leg == 0 then a.holdings.first else if a.leg == 1 then a.holdings.second else a.holdings.third;
      n == if bought < a.quantity then AfterExit(c, v.(reserved := 0), a.(leg := 0), a.due)
           else if a.leg < 2 then AfterSend(c, v.(reserved := 0), a.(leg := a.leg + 1), a.due, books)
           else v.(attempt := None, record := Record([], []), reserved := 0, completed := v.completed + 1, floor := v.floor + 20_000 * a.quantity,
                   completeCost := v.completeCost + a.spent, breaches := v.breaches + (if 20_000 * a.quantity - a.spent < c.margin then 1 else 0))
  {
    hide AfterExit, AfterSend, Reserve, Cache, Tradable;
  }

  /** Unwinding sells the next held leg whole; with none left ahead it is over, and with something
      held behind the scenario halts. An attempt that spent something counts as exited with what it
      received above it, another as empty. */
  lemma ExitSpelledOut(c: Config, v: View, a: Attempt, time: int)
    ensures var n, h := AfterExit(c, v, a, time), a.holdings;
      if a.leg <= 0 && h.first != 0 then n == v.(attempt := Some(a.(leg := 0, stage := SellArrival, due := time + c.delay)))
      else if a.leg <= 1 && h.second != 0 then n == v.(attempt := Some(a.(leg := 1, stage := SellArrival, due := time + c.delay)))
      else if a.leg <= 2 && h.third != 0 then n == v.(attempt := Some(a.(leg := 2, stage := SellArrival, due := time + c.delay)))
      else if h.first != 0 || h.second != 0 || h.third != 0 then n.halted && n.attempt.Some? && n.cash == v.cash && n.exited == v.exited && n.empty == v.empty
      else
        && n.attempt.None? && n.halted == v.halted && n.cash == v.cash && n.consumed == v.consumed
        && (if a.spent != 0 then n.exited == v.exited + 1 && n.empty == v.empty && n.unwindNet == v.unwindNet + a.received - a.spent
            else n.exited == v.exited && n.empty == v.empty + 1 && n.unwindNet == v.unwindNet)
  {
    assert NextHeld(a.holdings, 3) == 3;
    assert a.leg <= 2 ==> NextHeld(a.holdings, 2) == if a.holdings.third != 0 then 2 else 3;
    assert a.leg <= 1 ==> NextHeld(a.holdings, 1) == if a.holdings.second != 0 then 1 else NextHeld(a.holdings, 2);
    assert a.leg <= 0 ==> NextHeld(a.holdings, 0) == if a.holdings.first != 0 then 0 else NextHeld(a.holdings, 1);
  }

  /** After a sale is answered, unwinding goes on behind its leg. */
  lemma SaleAnswered(c: Config, v: View, books: map<nat, Cached>)
    requires v.attempt.Some? && Ready(c, v.attempt.value, books) && v.attempt.value.stage == SellResponse
    ensures AfterEvent(c, v, books) == AfterExit(c, v, v.attempt.value.(leg := v.attempt.value.leg + 1), v.attempt.value.due)
  {
    hide AfterExit, AfterSend;
  }
}
