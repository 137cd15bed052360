/** What a simulated immediate-or-cancel order takes from a book (`walk` in
    src/session/execution_study.cpp): best level first, net of what earlier simulated orders
    already consumed at the same physical level. */
module LiquidityWalk {
  import opened FixedPoint
  import opened Contracts
  import opened ExecutionCost
  import opened Reservation
  import opened OrderBooks

  /** An order's terms; only an executed walk is scaled by `share`, in basis points. */
  datatype Terms = Terms(leg: PayoffLeg, sell: bool, limit: Price, step: nat, execute: bool, share: nat)

  predicate ValidTerms(t: Terms) {
    (t.step == 1 || t.step == 100) && t.share <= 10_000
  }

  datatype Execution = Execution(quantity: nat, notional: int, debit: int, credit: int, worstPrice: Price, levels: nat)

  const NOTHING := Execution(0, 0, 0, 0, 0, 0)

  /** One fill, at a level that displays `shown`. */
  datatype Take = Take(key: Key, trade: Trade, shown: Quantity)

  function SideTaken(t: Terms): Side {
    if t.leg.yes != t.sell then Ask else Bid
  }

  predicate Acceptable(t: Terms, price: Price) {
    if t.sell then price >= t.limit else price <= t.limit
  }

  function KeyAt(t: Terms, price: Price): Key {
    Key(t.leg.marketId, if t.sell then !t.leg.yes else t.leg.yes, if t.sell then PRICE_SCALE - price else price)
  }

  /** What is left at a level for this walk. */
  function Available(t: Terms, level: Level, used: nat): nat {
    var left := Min(if level.quantity > used then level.quantity - used else 0, QUANTITY_LIMIT);
    if t.execute then left * t.share / 10_000 else left
  }

  function FillAt(t: Terms, level: Level, used: nat, remaining: nat): nat
    requires ValidTerms(t)
  {
    Min(Available(t, level, used), remaining) / t.step * t.step
  }

  function TakeAt(t: Terms, level: Level, c: Consumed, remaining: nat): Take
    requires ValidTerms(t)
  {
    var price := OutcomePrice(t.leg, level.price);
    var key := KeyAt(t, price);
    Take(key, Trade(FillAt(t, level, Used(c, key), remaining), price), level.quantity)
  }

  function Consume(t: Terms, c: Consumed, take: Take): Consumed {
    if t.execute then c[take.key := Used(c, take.key) + take.trade.quantity] else c
  }

  /** Every fill of an order for `remaining` over `levels`, best first. */
  function Takes(t: Terms, levels: seq<Level>, c: Consumed, remaining: nat): seq<Take>
    requires ValidTerms(t)
    decreases levels
  {
    if levels == [] || !Acceptable(t, OutcomePrice(t.leg, levels[0].price)) then []
    else
      var take := TakeAt(t, levels[0], c, remaining);
      if take.trade.quantity == 0 then Takes(t, levels[1..], c, remaining)
      else
        FillFits(t, levels[0], Used(c, take.key), remaining);
        [take] + (if take.trade.quantity < remaining
                  then Takes(t, levels[1..], Consume(t, c, take), remaining - take.trade.quantity) else [])
  }

  function ConsumeAll(t: Terms, c: Consumed, takes: seq<Take>): Consumed
    decreases takes
  {
    if takes == [] then c else ConsumeAll(t, Consume(t, c, takes[0]), takes[1..])
  }

  function Trades(takes: seq<Take>): seq<Trade> {
    if takes == [] then [] else [takes[0].trade] + Trades(takes[1..])
  }

  /** The fills of one order share one rounding accumulator. */
  function LedgerOf(t: Terms, fee: FeePolicy, takes: seq<Take>): Ledger
    requires ValidFee(fee)
  {
    AddFills(!t.sell, OPENED, Trades(takes), fee)
  }

  function Executed(t: Terms, fee: FeePolicy, takes: seq<Take>): Execution
    requires ValidFee(fee)
  {
    var l := LedgerOf(t, fee, takes);
    Execution(l.quantity, l.notional, if t.sell then 0 else l.cash, if t.sell then l.cash else 0,
              if takes == [] then 0 else takes[|takes| - 1].trade.price, |takes|)
  }

  // ------------------------------------------------------------------------
  // What a walk guarantees
  // ------------------------------------------------------------------------

  lemma FillFits(t: Terms, level: Level, used: nat, remaining: nat)
    requires ValidTerms(t)
    ensures var fill := FillAt(t, level, used, remaining);
      && 0 <= fill <= remaining && OnGrid(fill, t.step) && fill <= QUANTITY_LIMIT
      && (fill > 0 ==> used + fill <= level.quantity)
  {
    var left := Min(if level.quantity > used then level.quantity - used else 0, QUANTITY_LIMIT);
    MulMonotone(t.share, 10_000, left);
    DivMonotone(left * t.share, left * 10_000, 10_000);
    DivUnique(left * 10_000, 10_000, left);
    assert Available(t, level, used) <= left;
    FloorToGrid(Min(Available(t, level, used), remaining), t.step);
  }

  /** Selling an outcome takes the same physical level as buying its complement. */
  lemma SharedKey(a: Terms, b: Terms, level: Level)
    requires a.leg.marketId == b.leg.marketId && a.leg.yes != b.leg.yes && a.sell != b.sell
    ensures SideTaken(a) == SideTaken(b)
    ensures KeyAt(a, OutcomePrice(a.leg, level.price)) == KeyAt(b, OutcomePrice(b.leg, level.price))
  {
  }

  /** Different levels that an order can take have different keys. */
  lemma KeysDiffer(t: Terms, p: Price, p': Price)
    requires p != p'
    ensures KeyAt(t, OutcomePrice(t.leg, p)) != KeyAt(t, OutcomePrice(t.leg, p'))
  {
  }

  /** Every fill is a positive whole number of steps within the limit, and together they do not
      exceed the order. */
  lemma {:induction false} TakesWithin(t: Terms, levels: seq<Level>, c: Consumed, remaining: nat)
    requires ValidTerms(t)
    ensures var takes := Takes(t, levels, c, remaining);
      && TotalQuantity(Trades(takes)) <= remaining && OnGrid(TotalQuantity(Trades(takes)), t.step)
      && |takes| <= |levels| && |Trades(takes)| == |takes|
      && (forall i :: 0 <= i < |takes| ==> Trades(takes)[i] == takes[i].trade)
      && (forall i :: 0 <= i < |takes| ==> OnGrid(takes[i].trade.quantity, t.step) && takes[i].trade.quantity > 0)
      && (forall i :: 0 <= i < |takes| ==> Acceptable(t, takes[i].trade.price))
    decreases levels
  {
    hide FillAt, KeyAt, Consume;
    if levels != [] && Acceptable(t, OutcomePrice(t.leg, levels[0].price)) {
      var take := TakeAt(t, levels[0], c, remaining);
      var fill := take.trade.quantity;
      FillFits(t, levels[0], Used(c, take.key), remaining);
      WalkUnfolds(t, levels, c, remaining);
      if fill == 0 || fill < remaining {
        TakesWithin(t, levels[1..], if fill == 0 then c else Consume(t, c, take), remaining - fill);
      }
      hide Takes, TakeAt;
      if fill > 0 {
        var rest := if fill < remaining then Takes(t, levels[1..], Consume(t, c, take), remaining - fill) else [];
        GridSum(fill, TotalQuantity(Trades(rest)), t.step);
        assert ([take] + rest)[1..] == rest;
      }
    }
  }

  /** Used consumption after an order: unchanged, or within what one level with that key displays. */
  ghost predicate WithinDisplay(t: Terms, levels: seq<Level>, key: Key, before: nat, after: nat) {
    || after == before
    || exists i :: 0 <= i < |levels| && key == KeyAt(t, OutcomePrice(t.leg, levels[i].price)) && before < after <= levels[i].quantity
  }

  /** What is consumed after an order on `levels`. */
  function Depleted(t: Terms, levels: seq<Level>, c: Consumed, remaining: nat): Consumed
    requires ValidTerms(t)
  {
    ConsumeAll(t, c, Takes(t, levels, c, remaining))
  }

  lemma DepletedUnfolds(t: Terms, levels: seq<Level>, c: Consumed, remaining: nat)
    requires ValidTerms(t) && levels != []
    ensures var take := TakeAt(t, levels[0], c, remaining);
      && take.trade.quantity <= remaining
      && Depleted(t, levels, c, remaining) ==
        if !Acceptable(t, OutcomePrice(t.leg, levels[0].price)) then c
        else if take.trade.quantity == 0 then Depleted(t, levels[1..], c, remaining)
        else if take.trade.quantity < remaining then Depleted(t, levels[1..], Consume(t, c, take), remaining - take.trade.quantity)
        else Consume(t, c, take)
  {
    TakeFits(t, levels[0], c, remaining);
    if Acceptable(t, OutcomePrice(t.leg, levels[0].price)) {
      WalkUnfolds(t, levels, c, remaining);
      hide TakeAt, Consume, Acceptable, Takes;
      var take := TakeAt(t, levels[0], c, remaining);
      if take.trade.quantity != 0 {
        var rest := if take.trade.quantity < remaining then Takes(t, levels[1..], Consume(t, c, take), remaining - take.trade.quantity) else [];
        assert ([take] + rest)[1..] == rest;
        assert ConsumeAll(t, c, [take] + rest) == ConsumeAll(t, Consume(t, c, take), rest);
      }
    }
  }

  /** An executed order consumes no level beyond what the book displays there. */
  lemma {:induction false} ConsumedWithinDisplay(t: Terms, levels: seq<Level>, c: Consumed, remaining: nat, key: Key)
    requires ValidTerms(t) && t.execute && Sorted(SideTaken(t), levels)
    ensures WithinDisplay(t, levels, key, Used(c, key), Used(Depleted(t, levels, c, remaining), key))
    decreases levels
  {
    if levels != [] {
      DepletedUnfolds(t, levels, c, remaining);
      FirstTaken(t, levels, c, remaining, key);
      hide Depleted, TakeAt, Consume, WithinDisplay, Used;
      var take := TakeAt(t, levels[0], c, remaining);
      var fill := take.trade.quantity;
      if Acceptable(t, OutcomePrice(t.leg, levels[0].price)) && (fill == 0 || fill < remaining) {
        var c' := if fill == 0 then c else Consume(t, c, take);
        ConsumedWithinDisplay(t, levels[1..], c', remaining - fill, key);
        NextLevels(t, levels, key, Used(c', key), Used(Depleted(t, levels[1..], c', remaining - fill), key));
      }
    }
    NothingTaken(t, levels, key, Used(c, key));
  }

  lemma NothingTaken(t: Terms, levels: seq<Level>, key: Key, used: nat)
    ensures WithinDisplay(t, levels, key, used, used)
  {
  }

  /** What the first level's fill does to a key: it is the level's own, or unchanged. */
  lemma FirstTaken(t: Terms, levels: seq<Level>, c: Consumed, remaining: nat, key: Key)
    requires ValidTerms(t) && t.execute && levels != []
    ensures var take := TakeAt(t, levels[0], c, remaining);
      var after := Used(Consume(t, c, take), key);
      && (take.trade.quantity > 0 ==> WithinDisplay(t, levels, key, Used(c, key), after))
      && (key != KeyAt(t, OutcomePrice(t.leg, levels[0].price)) ==> after == Used(c, key))
  {
    FillFits(t, levels[0], Used(c, KeyAt(t, OutcomePrice(t.leg, levels[0].price))), remaining);
    hide FillAt, KeyAt;
  }

  /** A later level has another key than the first. */
  lemma NextLevels(t: Terms, levels: seq<Level>, key: Key, before: nat, after: nat)
    requires levels != [] && Sorted(SideTaken(t), levels) && WithinDisplay(t, levels[1..], key, before, after)
    ensures WithinDisplay(t, levels, key, before, after)
    ensures key == KeyAt(t, OutcomePrice(t.leg, levels[0].price)) ==> after == before
  {
    if after != before {
      var i :| 0 <= i < |levels[1..]| && key == KeyAt(t, OutcomePrice(t.leg, levels[1..][i].price)) && before < after <= levels[1..][i].quantity;
      assert levels[i + 1] == levels[1..][i];
      KeysDiffer(t, levels[0].price, levels[i + 1].price);
    }
  }

  // ------------------------------------------------------------------------
  // The walk in plain terms
  // ------------------------------------------------------------------------

  /** An order takes asks when it buys YES or sells NO, and bids otherwise; the key counts what is
      bought on that side. */
  function LevelKey(t: Terms, level: Level): Key {
    if t.leg.yes != t.sell then Key(t.leg.marketId, true, level.price) else Key(t.leg.marketId, false, 10_000 - level.price)
  }

  /** The level's price for the outcome is no worse than the limit. */
  predicate Takable(t: Terms, level: Level) {
    var price := if t.leg.yes then level.price else 10_000 - level.price;
    if t.sell then t.limit <= price else price <= t.limit
  }

  /** Taking x at a level: whole steps, within what earlier orders left there, and within its share
      when the order is executed. */
  predicate Given(t: Terms, level: Level, used: nat, x: nat)
    requires ValidTerms(t)
  {
    x % t.step == 0 && (x > 0 ==> used + x <= level.quantity && (t.execute ==> x * 10_000 <= t.share * (level.quantity - used)))
  }

  /** One more step at the level would be too much, or more than the walk counts at any level. */
  predicate AllGiven(t: Terms, level: Level, used: nat, x: nat) {
    var left := Min(Max(level.quantity - used, 0), 100_000_000);
    if t.execute then (x + t.step) * 10_000 > t.share * left else x + t.step > left
  }

  function Total(xs: seq<nat>): nat {
    if xs == [] then 0 else xs[0] + Total(xs[1..])
  }

  predicate TakenAfter(xs: seq<nat>, i: nat) {
    exists j :: i < j < |xs| && xs[j] > 0
  }

  /** Taking x_i at level i, on what was consumed before: within the order, at takable levels only,
      and all that a level gives before a later one is used or a step stays open. */
  ghost predicate Walked(t: Terms, levels: seq<Level>, c: Consumed, quantity: nat, xs: seq<nat>)
    requires ValidTerms(t)
  {
    && |xs| == |levels| && Total(xs) <= quantity
    && (forall i :: 0 <= i < |xs| ==> Given(t, levels[i], Used(c, LevelKey(t, levels[i])), xs[i]) && (xs[i] > 0 ==> Takable(t, levels[i])))
    && (forall i :: 0 <= i < |xs| && Takable(t, levels[i]) && (quantity - Total(xs) >= t.step || TakenAfter(xs, i)) ==>
          AllGiven(t, levels[i], Used(c, LevelKey(t, levels[i])), xs[i]))
  }

  function TakesFrom(t: Terms, levels: seq<Level>, xs: seq<nat>): seq<Take>
    requires |xs| == |levels|
    decreases levels
  {
    if levels == [] then []
    else
      (if xs[0] == 0 then []
       else [Take(LevelKey(t, levels[0]), Trade(xs[0], if t.leg.yes then levels[0].price else 10_000 - levels[0].price), levels[0].quantity)])
      + TakesFrom(t, levels[1..], xs[1..])
  }

  /** Every walk is such a taking. */
  lemma {:induction false} WalkSpelledOut(t: Terms, levels: seq<Level>, c: Consumed, quantity: nat) returns (xs: seq<nat>)
    requires ValidTerms(t) && Sorted(SideTaken(t), levels)
    ensures |xs| == |levels| && Walked(t, levels, c, quantity, xs) && Takes(t, levels, c, quantity) == TakesFrom(t, levels, xs)
    decreases levels
  {
    hide *;
    if levels == [] || !Acceptable(t, OutcomePrice(t.leg, levels[0].price)) {
      xs := NoneTaken(t, levels, c, quantity);
    } else {
      FirstStep(t, levels, c, quantity);
      var take := TakeAt(t, levels[0], c, quantity);
      var x := take.trade.quantity;
      if 0 < x == quantity {
        xs := [x] + Nothing(|levels| - 1);
        CompletedAtFirst(t, levels, c, x, Nothing(|levels| - 1));
        assert FirstTake(t, levels[0], x) + [] == FirstTake(t, levels[0], x);
      } else {
        var c' := if x == 0 then c else Consume(t, c, take);
        var rest := WalkSpelledOut(t, levels[1..], c', quantity - x);
        xs := [x] + rest;
        WalkedOn(t, levels, c, c', quantity, x, rest);
        TakesFromNext(t, levels, x, rest);
      }
    }
  }

  /** What the first takable level gives, and how the walk goes on. */
  lemma FirstStep(t: Terms, levels: seq<Level>, c: Consumed, quantity: nat)
    requires ValidTerms(t) && Sorted(SideTaken(t), levels) && levels != [] && Acceptable(t, OutcomePrice(t.leg, levels[0].price))
    ensures Sorted(SideTaken(t), levels[1..])
    ensures var take := TakeAt(t, levels[0], c, quantity);
      var x, used, c' := take.trade.quantity, Used(c, LevelKey(t, levels[0])), Consume(t, c, take);
      && x <= quantity && Takable(t, levels[0]) && Given(t, levels[0], used, x) && (quantity - x >= t.step ==> AllGiven(t, levels[0], used, x))
      && (c' == c || c' == c[LevelKey(t, levels[0]) := used + x])
      && Takes(t, levels, c, quantity)
         == FirstTake(t, levels[0], x)
            + (if x == 0 then Takes(t, levels[1..], c, quantity) else if x < quantity then Takes(t, levels[1..], c', quantity - x) else [])
  {
    hide Given, AllGiven, Takable, LevelKey, Takes;
    WalkUnfolds(t, levels, c, quantity);
    GivenAtFirst(t, levels[0], c, quantity);
    hide TakeAt;
  }

  function Nothing(n: nat): (xs: seq<nat>)
    ensures |xs| == n && forall i :: 0 <= i < n ==> xs[i] == 0
  {
    if n == 0 then [] else [0] + Nothing(n - 1)
  }

  lemma {:induction false} NothingTotal(t: Terms, levels: seq<Level>)
    ensures Total(Nothing(|levels|)) == 0 && TakesFrom(t, levels, Nothing(|levels|)) == []
    decreases levels
  {
    if levels != [] {
      assert Nothing(|levels|)[1..] == Nothing(|levels| - 1);
      NothingTotal(t, levels[1..]);
    }
  }

  /** A level that is not takable leaves no takable one behind it. */
  lemma NoneTaken(t: Terms, levels: seq<Level>, c: Consumed, quantity: nat) returns (xs: seq<nat>)
    requires ValidTerms(t) && Sorted(SideTaken(t), levels) && (levels != [] ==> !Acceptable(t, OutcomePrice(t.leg, levels[0].price)))
    ensures |xs| == |levels| && Walked(t, levels, c, quantity, xs) && TakesFrom(t, levels, xs) == Takes(t, levels, c, quantity)
  {
    xs := Nothing(|levels|);
    NothingTotal(t, levels);
    forall i | 0 <= i < |levels| ensures !Takable(t, levels[i]) {
    }
  }

  lemma GivenAtFirst(t: Terms, level: Level, c: Consumed, quantity: nat)
    requires ValidTerms(t) && Acceptable(t, OutcomePrice(t.leg, level.price))
    ensures var take := TakeAt(t, level, c, quantity);
      var x, used := take.trade.quantity, Used(c, LevelKey(t, level));
      && take.key == LevelKey(t, level) && take.trade.price == (if t.leg.yes then level.price else 10_000 - level.price) && take.shown == level.quantity
      && x <= quantity && Takable(t, level) && Given(t, level, used, x) && (quantity - x >= t.step ==> AllGiven(t, level, used, x))
  {
    var used := Used(c, LevelKey(t, level));
    FillFits(t, level, used, quantity);
    ShareOfLevel(t, level, used, quantity);
    hide FillAt;
  }

  lemma ShareOfLevel(t: Terms, level: Level, used: nat, quantity: nat)
    requires ValidTerms(t)
    ensures var x := FillAt(t, level, used, quantity);
      && x % t.step == 0 && (x > 0 && t.execute ==> x * 10_000 <= t.share * (level.quantity - used))
      && (quantity - x >= t.step ==> AllGiven(t, level, used, x))
  {
    var left := Min(Max(level.quantity - used, 0), 100_000_000);
    var available := Available(t, level, used);
    var x := FillAt(t, level, used, quantity);
    FloorToGrid(Min(available, quantity), t.step);
    if t.execute {
      var product := left * t.share;
      assert available == product / 10_000;
      assert available * 10_000 <= product < (available + 1) * 10_000;
      if level.quantity > used {
        MulMonotone(left, level.quantity - used, t.share);
      }
    }
  }

  function FirstTake(t: Terms, level: Level, x: nat): seq<Take> {
    if x == 0 then [] else [Take(LevelKey(t, level), Trade(x, if t.leg.yes then level.price else 10_000 - level.price), level.quantity)]
  }

  lemma TakesFromNext(t: Terms, levels: seq<Level>, x: nat, rest: seq<nat>)
    requires |levels| == |rest| + 1
    ensures TakesFrom(t, levels, [x] + rest) == FirstTake(t, levels[0], x) + TakesFrom(t, levels[1..], rest)
    ensures Total([x] + rest) == x + Total(rest)
  {
    assert ([x] + rest)[1..] == rest;
  }

  /** The order is complete at the first level. */
  lemma CompletedAtFirst(t: Terms, levels: seq<Level>, c: Consumed, x: nat, rest: seq<nat>)
    requires ValidTerms(t) && levels != [] && x > 0 && Takable(t, levels[0]) && Given(t, levels[0], Used(c, LevelKey(t, levels[0])), x)
    requires rest == Nothing(|levels| - 1)
    ensures Walked(t, levels, c, x, [x] + rest) && TakesFrom(t, levels, [x] + rest) == FirstTake(t, levels[0], x)
  {
    hide Used, LevelKey, Given, AllGiven, Takable, TakesFrom, Nothing, Total, FirstTake;
    var xs := [x] + rest;
    NothingTotal(t, levels[1..]);
    TakesFromNext(t, levels, x, rest);
    forall i | 0 < i < |xs| ensures Given(t, levels[i], Used(c, LevelKey(t, levels[i])), xs[i]) && xs[i] == 0 {
      ZeroGiven(t, levels[i], Used(c, LevelKey(t, levels[i])));
      assert xs[i] == rest[i - 1];
    }
    forall i | 0 <= i < |xs| ensures !TakenAfter(xs, i) {
    }
  }

  lemma ZeroGiven(t: Terms, level: Level, used: nat)
    requires ValidTerms(t)
    ensures Given(t, level, used, 0)
  {
  }

  /** One level, and the walk of the others: they have other keys. */
  lemma WalkedOn(t: Terms, levels: seq<Level>, c: Consumed, c': Consumed, quantity: nat, x: nat, rest: seq<nat>)
    requires ValidTerms(t) && Sorted(SideTaken(t), levels) && levels != [] && x <= quantity
    requires Takable(t, levels[0]) && Given(t, levels[0], Used(c, LevelKey(t, levels[0])), x)
    requires quantity - x >= t.step ==> AllGiven(t, levels[0], Used(c, LevelKey(t, levels[0])), x)
    requires c' == c || c' == c[LevelKey(t, levels[0]) := Used(c, LevelKey(t, levels[0])) + x]
    requires Walked(t, levels[1..], c', quantity - x, rest)
    ensures Walked(t, levels, c, quantity, [x] + rest)
    ensures ([x] + rest)[1..] == rest
  {
    hide AllGiven, Given, Takable;
    var xs := [x] + rest;
    assert xs[1..] == rest;
    forall i | 0 < i < |xs| ensures xs[i] == rest[i - 1] && levels[i] == levels[1..][i - 1] {
    }
    forall i | 0 < i < |xs| ensures Used(c', LevelKey(t, levels[i])) == Used(c, LevelKey(t, levels[i])) {
      assert levels[i].price != levels[0].price;
    }
    if TakenAfter(xs, 0) {
      SomeStep(t, levels[1..], c', quantity - x, rest);
    }
    forall i | 0 < i < |xs| && TakenAfter(xs, i) ensures TakenAfter(rest, i - 1) {
      var j :| i < j < |xs| && xs[j] > 0;
      assert rest[j - 1] > 0;
    }
  }

  /** A later fill means that a step was open before it. */
  lemma SomeStep(t: Terms, levels: seq<Level>, c: Consumed, quantity: nat, xs: seq<nat>)
    requires ValidTerms(t) && Walked(t, levels, c, quantity, xs) && exists j :: 0 <= j < |xs| && xs[j] > 0
    ensures quantity >= t.step
  {
    var j :| 0 <= j < |xs| && xs[j] > 0;
    assert Given(t, levels[j], Used(c, LevelKey(t, levels[j])), xs[j]);
    PartOfTotal(xs, j);
    GridGap(0, xs[j], t.step);
  }

  lemma {:induction false} PartOfTotal(xs: seq<nat>, j: nat)
    requires j < |xs|
    ensures xs[j] <= Total(xs)
    decreases xs
  {
    if j > 0 {
      PartOfTotal(xs[1..], j - 1);
    }
  }

  /** What is taken at one physical level. */
  function TakenOf(t: Terms, levels: seq<Level>, xs: seq<nat>, key: Key): nat
    requires |xs| == |levels|
    decreases levels
  {
    if levels == [] then 0 else (if LevelKey(t, levels[0]) == key then xs[0] else 0) + TakenOf(t, levels[1..], xs[1..], key)
  }

  /** An executed order adds what it takes at a level to that level's consumption; a quote adds
      nothing. */
  lemma {:induction false} ConsumedSpelledOut(t: Terms, levels: seq<Level>, c: Consumed, xs: seq<nat>, key: Key)
    requires |xs| == |levels|
    ensures Used(ConsumeAll(t, c, TakesFrom(t, levels, xs)), key) == Used(c, key) + (if t.execute then TakenOf(t, levels, xs, key) else 0)
    decreases levels
  {
    if levels != [] {
      hide LevelKey;
      var first, rest := FirstTake(t, levels[0], xs[0]), TakesFrom(t, levels[1..], xs[1..]);
      assert TakesFrom(t, levels, xs) == first + rest;
      if xs[0] == 0 {
        assert first + rest == rest;
        ConsumedSpelledOut(t, levels[1..], c, xs[1..], key);
      } else {
        assert (first + rest)[0] == first[0] && (first + rest)[1..] == rest;
        ConsumedSpelledOut(t, levels[1..], Consume(t, c, first[0]), xs[1..], key);
      }
    }
  }

  /** What an order's takes come to: whole quanta, its notional with all fees and what is still
      outstanding of their rounding, at the price of its last take. */
  lemma ExecutedSpelledOut(t: Terms, fee: FeePolicy, takes: seq<Take>)
    requires ValidFee(fee)
    ensures var e, trades := Executed(t, fee, takes), Trades(takes);
      var rounding := LedgerOf(t, fee, takes).rounding;
      && e.quantity == TotalQuantity(trades) && e.notional == TotalNotional(trades) && e.levels == |takes|
      && (takes != [] ==> e.worstPrice == takes[|takes| - 1].trade.price)
      && (if t.sell then e.debit == 0 && e.credit == e.notional - TotalFees(trades, fee.coefficient) - rounding && e.credit % fee.quantum == 0
          else e.credit == 0 && e.debit == e.notional + TotalFees(trades, fee.coefficient) + rounding && e.debit % fee.quantum == 0)
  {
    FreshOrderTotals(!t.sell, Trades(takes), fee);
    OrderTotals(!t.sell, OPENED, Trades(takes), fee);
    AlignedMeaning(LedgerOf(t, fee, takes).cash, fee.quantum);
    hide Trades, AddFills, TotalNotional, TotalFees, TotalQuantity, Aligned;
  }

  /** The funding theorem for a simulated buy: it never costs more than its reservation. */
  lemma BuyWithinReservation(t: Terms, levels: seq<Level>, c: Consumed, quantity: nat, fee: FeePolicy)
    requires ValidTerms(t) && !t.sell && ValidFee(fee) && OnGrid(quantity, t.step)
    ensures var e := Executed(t, fee, Takes(t, levels, c, quantity));
      && e.quantity <= quantity && OnGrid(e.quantity, t.step)
      && 0 <= e.debit <= Reserve(quantity, t.step, t.limit, fee) && e.credit == 0
      && 0 <= e.notional <= e.debit && (e.quantity > 0 ==> e.worstPrice <= t.limit) && (e.quantity == 0 ==> e == NOTHING)
  {
    var takes := Takes(t, levels, c, quantity);
    var trades := Trades(takes);
    TakesWithin(t, levels, c, quantity);
    hide Takes, Reserve;
    FreshOrderTotals(true, trades, fee);
    OrderTotals(true, OPENED, trades, fee);
    TotalsNonNegative(trades, fee.coefficient);
    DebitWithinReservation(trades, quantity, t.step, t.limit, fee);
    if takes != [] {
      SomeQuantity(trades);
    }
  }

  /** A simulated sale credits no more than its notional and never less than nothing. */
  lemma SaleCredit(t: Terms, levels: seq<Level>, c: Consumed, quantity: nat, fee: FeePolicy)
    requires ValidTerms(t) && t.sell && ValidFee(fee)
    ensures var e := Executed(t, fee, Takes(t, levels, c, quantity));
      && e.quantity <= quantity && OnGrid(e.quantity, t.step) && e.debit == 0 && 0 <= e.credit <= e.notional
      && (e.quantity > 0 ==> e.worstPrice >= t.limit) && (e.quantity == 0 ==> e == NOTHING)
  {
    var takes := Takes(t, levels, c, quantity);
    var trades := Trades(takes);
    TakesWithin(t, levels, c, quantity);
    hide Takes;
    FreshOrderTotals(false, trades, fee);
    OrderTotals(false, OPENED, trades, fee);
    TotalsNonNegative(trades, fee.coefficient);
    CreditsNonNegative(OPENED, trades, fee);
    if takes != [] {
      SomeQuantity(trades);
    }
  }

  lemma {:induction false} TotalsNonNegative(trades: seq<Trade>, coefficient: nat)
    ensures TotalNotional(trades) >= 0 && TotalFees(trades, coefficient) >= 0
    decreases trades
  {
    if trades != [] {
      TotalsNonNegative(trades[1..], coefficient);
    }
  }

  lemma {:induction false} CreditsNonNegative(l: Ledger, trades: seq<Trade>, fee: FeePolicy)
    requires ValidFee(fee)
    ensures AddFills(false, l, trades, fee).cash >= l.cash
    decreases trades
  {
    hide Fill;
    if trades != [] {
      SellCreditNonNegative(trades[0].quantity, trades[0].price, fee, l.rounding);
      CreditsNonNegative(AddFill(false, l, trades[0], fee), trades[1..], fee);
    }
  }

  lemma SomeQuantity(trades: seq<Trade>)
    requires trades != [] && trades[0].quantity > 0
    ensures TotalQuantity(trades) > 0
  {
  }

  // ------------------------------------------------------------------------
  // One step of the walk
  // ------------------------------------------------------------------------

  lemma TakeFits(t: Terms, level: Level, c: Consumed, remaining: nat)
    requires ValidTerms(t)
    ensures var take := TakeAt(t, level, c, remaining);
      && 0 <= take.trade.quantity <= remaining && take.trade.quantity <= QUANTITY_LIMIT
      && (take.trade.quantity > 0 ==> Used(c, take.key) + take.trade.quantity <= level.quantity)
      && take.trade.price == OutcomePrice(t.leg, level.price) && take.key == KeyAt(t, take.trade.price)
      && take.trade.quantity == FillAt(t, level, Used(c, take.key), remaining)
  {
    FillFits(t, level, Used(c, KeyAt(t, OutcomePrice(t.leg, level.price))), remaining);
  }

  lemma WalkUnfolds(t: Terms, levels: seq<Level>, c: Consumed, remaining: nat)
    requires ValidTerms(t) && levels != [] && Acceptable(t, OutcomePrice(t.leg, levels[0].price))
    ensures var take := TakeAt(t, levels[0], c, remaining);
      && take.trade.quantity <= remaining
      && Takes(t, levels, c, remaining) ==
        if take.trade.quantity == 0 then Takes(t, levels[1..], c, remaining)
        else [take] + (if take.trade.quantity < remaining
                       then Takes(t, levels[1..], Consume(t, c, take), remaining - take.trade.quantity) else [])
  {
    TakeFits(t, levels[0], c, remaining);
    hide TakeAt, Consume, Acceptable;
  }

  lemma {:induction false} TradesAppend(takes: seq<Take>, take: Take)
    ensures Trades(takes + [take]) == Trades(takes) + [take.trade]
    decreases takes
  {
    if takes == [] {
      assert takes + [take] == [take];
    } else {
      assert (takes + [take])[1..] == takes[1..] + [take];
      TradesAppend(takes[1..], take);
    }
  }

  lemma {:induction false} ConsumeAppend(t: Terms, c: Consumed, takes: seq<Take>, take: Take)
    ensures ConsumeAll(t, c, takes + [take]) == Consume(t, ConsumeAll(t, c, takes), take)
    decreases takes
  {
    hide Consume;
    if takes == [] {
      assert takes + [take] == [take];
      assert [take][1..] == [];
    } else {
      assert (takes + [take])[1..] == takes[1..] + [take];
      ConsumeAppend(t, Consume(t, c, takes[0]), takes[1..], take);
    }
  }

  lemma LedgerAppend(t: Terms, fee: FeePolicy, takes: seq<Take>, take: Take)
    requires ValidFee(fee)
    ensures LedgerOf(t, fee, takes + [take]) == AddFill(!t.sell, LedgerOf(t, fee, takes), take.trade, fee)
  {
    hide AddFill;
    TradesAppend(takes, take);
    AddFillsSplit(!t.sell, OPENED, Trades(takes), [take.trade], fee);
    assert [take.trade][1..] == [];
  }

  /** A fill adds less than one quantum to the rounding outstanding. */
  lemma RoundingGrows(buy: bool, l: Ledger, trade: Trade, fee: FeePolicy)
    requires ValidFee(fee)
    ensures var f := Fill(buy, trade.quantity, trade.price, fee, l.rounding);
      AddFill(buy, l, trade, fee) == Ledger(l.quantity + trade.quantity, l.notional + f.notional, l.fees + f.tradeFee,
                                            l.cash + f.change, Outstanding(f, l.rounding))
      && Outstanding(f, l.rounding) < l.rounding + fee.quantum
  {
    FillMeaning(buy, trade.quantity, trade.price, fee, l.rounding);
    hide Fill;
  }
}
