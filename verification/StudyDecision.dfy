/** Decisions of the lifecycle simulation (src/session/execution_study.cpp): what sizing sees of
    the books, what an attempt is made of, and what a record's decisions amount to. */
module StudyDecisions {
  import opened FixedPoint
  import opened Contracts
  import opened ExecutionCost
  import opened Reservation
  import opened LiquidityWalk
  import opened OrderBooks
  import opened MarketStates
  import opened StudyLedger
  import opened StudyOutcome
  import DepthWalk
  import PairOptimum
  import NetSizing

  // ------------------------------------------------------------------------
  // What sizing sees
  // ------------------------------------------------------------------------

  /** Both depths as sizing sees them. */
  function DepthsOf(p: Policy, c: Consumed, legs: Legs<PayoffLeg>, market: Market): PairOptimum.Pair
    requires ValidPolicy(p) && Tradable(p, legs)
  {
    var first, second := BuyTerms(p, legs.first), BuyTerms(p, legs.second);
    PairOptimum.Pair(DepthWalk.BuyDepth(DepthOf(Takes(first, LevelsFor(market, first), c, p.quantityCap)), p.fees[legs.first.marketId]),
                     DepthWalk.BuyDepth(DepthOf(Takes(second, LevelsFor(market, second), c, p.quantityCap)), p.fees[legs.second.marketId]))
  }

  function LimitsFor(p: Policy, available: int): DepthWalk.SizingLimits
    requires ValidPolicy(p) && available >= 0
  {
    DepthWalk.SizingLimits(p.quantityCap, p.step, available, p.minMargin, p.maxEvaluations)
  }

  lemma DepthIsValid(p: Policy, leg: PayoffLeg, market: Market, c: Consumed)
    requires ValidPolicy(p) && Fit(market) && leg.marketId in p.fees
    ensures PairOptimum.ValidDepth(
      DepthWalk.BuyDepth(DepthOf(Takes(BuyTerms(p, leg), LevelsFor(market, BuyTerms(p, leg)), c, p.quantityCap)), p.fees[leg.marketId]))
  {
    hide Takes, DepthOf, Visited;
    var t := BuyTerms(p, leg);
    if leg.marketId in market.books {
      VisitedMeaning(market.books[leg.marketId], SideTaken(t));
    }
    DepthAscends(t, LevelsFor(market, t), c, p.quantityCap);
  }

  lemma DepthFees(p: Policy, c: Consumed, legs: Legs<PayoffLeg>, market: Market)
    requires ValidPolicy(p) && Tradable(p, legs)
    ensures var d := DepthsOf(p, c, legs, market);
      d.first.fees == p.fees[legs.first.marketId] && d.second.fees == p.fees[legs.second.marketId]
  {
  }

  lemma FreshIsConnected(market: Market)
    requires Fit(market) && market.connected
    ensures market.generation.Some?
  {
  }

  /** An unscaled buy at any price: what sizing assumes. */
  function BuyTerms(p: Policy, leg: PayoffLeg): Terms
    requires ValidPolicy(p)
  {
    Terms(leg, false, 10_000, p.step, false, p.fillShare)
  }

  function DepthOf(takes: seq<Take>): seq<DepthWalk.BuyLevel> {
    if takes == [] then []
    else
      [DepthWalk.BuyLevel(takes[0].trade.price, if takes[0].trade.quantity <= INT64_MAX then takes[0].trade.quantity else 0)]
      + DepthOf(takes[1..])
  }

  lemma DepthOfNothing()
    ensures DepthOf([]) == []
  {
  }

  lemma {:induction false} DepthOfAppend(takes: seq<Take>, take: Take)
    requires take.trade.quantity <= INT64_MAX
    ensures DepthOf(takes + [take]) == DepthOf(takes) + [DepthWalk.BuyLevel(take.trade.price, take.trade.quantity)]
    decreases takes
  {
    if takes == [] {
      assert takes + [take] == [take];
      assert [take][1..] == [];
    } else {
      assert (takes + [take])[1..] == takes[1..] + [take];
      DepthOfAppend(takes[1..], take);
    }
  }

  /** Collecting depth, after `i` levels. */
  ghost predicate Sizing(t: Terms, levels: seq<Level>, c: Consumed, quantity: int, i: nat, done: seq<Take>, total: int) {
    && ValidTerms(t) && !t.execute && i <= |levels| && 0 <= total <= quantity <= QUANTITY_LIMIT && total % t.step == 0
    && Takes(t, levels, c, quantity) == done + Takes(t, levels[i..], c, quantity - total)
  }

  lemma DepthBegins(t: Terms, levels: seq<Level>, c: Consumed, quantity: nat)
    requires ValidTerms(t) && !t.execute && quantity <= QUANTITY_LIMIT
    ensures Sizing(t, levels, c, quantity, 0, [], 0)
  {
    assert levels[0..] == levels;
  }

  lemma SizingNext(t: Terms, levels: seq<Level>, c: Consumed, quantity: int, i: nat, done: seq<Take>, total: int)
    requires Sizing(t, levels, c, quantity, i, done, total) && i < |levels| && !t.sell && t.limit == 10_000
    ensures var take := TakeAt(t, levels[i], c, quantity - total);
      var fill := take.trade.quantity;
      && 0 <= fill <= quantity - total
      && (fill == 0 ==> Sizing(t, levels, c, quantity, i + 1, done, total))
      && (fill > 0 ==> Sizing(t, levels, c, quantity, i + 1, done + [take], total + fill))
  {
    hide TakeAt, Takes;
    assert levels[i..][0] == levels[i] && levels[i..][1..] == levels[i + 1..];
    TakeFits(t, levels[i], c, quantity - total);
    FillFits(t, levels[i], Used(c, TakeAt(t, levels[i], c, quantity - total).key), quantity - total);
    hide FillAt;
    WalkUnfolds(t, levels[i..], c, quantity - total);
    var take := TakeAt(t, levels[i], c, quantity - total);
    if take.trade.quantity > 0 {
      GridSum(total, take.trade.quantity, t.step);
      var rest := Takes(t, levels[i + 1..], c, quantity - total - take.trade.quantity);
      if take.trade.quantity == quantity - total {
        NothingLeft(t, levels[i + 1..], c, 0);
      }
      assert done + ([take] + rest) == done + [take] + rest;
    }
  }

  /** Less than one step is never filled. */
  lemma {:induction false} NothingLeft(t: Terms, levels: seq<Level>, c: Consumed, remaining: nat)
    requires ValidTerms(t) && remaining < t.step
    ensures Takes(t, levels, c, remaining) == []
    decreases levels
  {
    if levels != [] {
      FillFits(t, levels[0], Used(c, TakeAt(t, levels[0], c, remaining).key), remaining);
      NothingLeft(t, levels[1..], c, remaining);
    }
  }

  lemma SizingEnds(t: Terms, levels: seq<Level>, c: Consumed, quantity: int, i: nat, done: seq<Take>, total: int)
    requires Sizing(t, levels, c, quantity, i, done, total)
    requires i == |levels| || total >= quantity / t.step * t.step
    ensures Takes(t, levels, c, quantity) == done
  {
    if i < |levels| {
      FloorToGrid(quantity, t.step);
      FloorToGridGreatest(quantity, t.step, total);
      NothingLeft(t, levels[i..], c, quantity - total);
    }
  }

  /** The take of a walk is the take of the sizing loop. */
  lemma DepthNext(t: Terms, level: Level, c: Consumed, remaining: nat)
    requires ValidTerms(t) && !t.execute && !t.sell && remaining <= QUANTITY_LIMIT
    ensures var price := OutcomePrice(t.leg, level.price);
      var used := Used(c, Key(t.leg.marketId, t.leg.yes, price));
      var left := if level.quantity > used then level.quantity - used else 0;
      TakeAt(t, level, c, remaining) == Take(Key(t.leg.marketId, t.leg.yes, price), Trade(Min(left, remaining) / t.step * t.step, price), level.quantity)
      && Min(left, remaining) / t.step * t.step <= remaining
  {
    FloorToGrid(remaining, t.step);
    FillFits(t, level, Used(c, TakeAt(t, level, c, remaining).key), remaining);
  }

  /** Sizing's levels are strictly ascending, as its search requires. */
  lemma {:induction false} DepthAscends(t: Terms, levels: seq<Level>, c: Consumed, quantity: nat)
    requires ValidTerms(t) && !t.sell && Sorted(SideTaken(t), levels)
    ensures var d := DepthOf(Takes(t, levels, c, quantity));
      && DepthWalk.Ascending(d) && |d| <= |levels|
      && (levels != [] ==> forall i :: 0 <= i < |d| ==> OutcomePrice(t.leg, levels[0].price) <= d[i].price)
    decreases levels
  {
    hide TakeAt;
    if levels != [] && Acceptable(t, OutcomePrice(t.leg, levels[0].price)) {
      WalkUnfolds(t, levels, c, quantity);
      TakeFits(t, levels[0], c, quantity);
      var take := TakeAt(t, levels[0], c, quantity);
      var fill := take.trade.quantity;
      var c' := if fill == 0 then c else Consume(t, c, take);
      if fill == 0 || fill < quantity {
        DepthAscends(t, levels[1..], c', quantity - fill);
      }
      hide Takes;
      var rest := if fill == 0 || fill < quantity then Takes(t, levels[1..], c', quantity - fill) else [];
      assert ([take] + rest)[1..] == rest;
      if |levels| > 1 {
        assert levels[1..][0] == levels[1];
      }
    }
  }

  // ------------------------------------------------------------------------
  // Decisions
  // ------------------------------------------------------------------------

  /** Both legs can be bought now: live, recent and unsettled books. */
  predicate Decidable(p: Policy, c: Scene, legs: Legs<PayoffLeg>, time: int, market: Market) {
    && Fresh(p, c.updates, legs.first, time, market) && Fresh(p, c.updates, legs.second, time, market)
    && legs.first.marketId !in c.settled && legs.second.marketId !in c.settled
  }

  /** One decision: what the search found, if there was one, and the attempt made of it. */
  datatype Decision = Decision(search: Option<NetSizing.SizingResult>, attempt: Option<Attempt>)

  const UNDECIDED := Decision(None, None)

  /** An attempt at the quote of a search. */
  function AttemptOf(id: nat, legs: Legs<PayoffLeg>, generation: nat, q: PairOptimum.SizedPair, time: int): Attempt {
    Attempt(id, legs, generation, q.quantity, Legs(q.first.limit, q.second.limit), Legs(q.first.reservation, q.second.reservation),
            Legs(NOTHING, NOTHING), time, 0, 0, false)
  }

  /** The search answers for what is left of both books and the available cash, and its quote, if
      any, is the attempt. */
  ghost predicate Searched(p: Policy, c: Scene, available: int, id: nat, legs: Legs<PayoffLeg>, d: Decision, time: int, market: Market) {
    && ValidPolicy(p) && Tradable(p, legs) && 0 <= available <= CASH_LIMIT && market.generation.Some?
    && PairOptimum.ValidInput(DepthsOf(p, c.consumed, legs, market), LimitsFor(p, available))
    && d.search.Some? && NetSizing.Answer(DepthsOf(p, c.consumed, legs, market), LimitsFor(p, available), d.search.value)
    && d.attempt == if d.search.value.quote.Some?
                    then Some(AttemptOf(id, legs, market.generation.value, d.search.value.quote.value, time)) else None
  }

  /** A decision on one constraint: none when it has an attempt already or cannot be bought now,
      and otherwise that of a search. */
  ghost predicate Justified(p: Policy, c: Scene, available: int, id: nat, legs: Legs<PayoffLeg>, known: bool, d: Decision, time: int, market: Market) {
    if known || !Decidable(p, c, legs, time, market) then d == UNDECIDED
    else Searched(p, c, available, id, legs, d, time, market)
  }

  /** The clock has no room for an order's latency. */
  predicate Late(p: Policy, time: int) {
    time > INT64_MAX - p.latency.first || time > INT64_MAX - p.latency.second
  }

  /** The books after the decisions of one record. */
  function AllDecided(p: Policy, s: Account, ds: seq<Decision>, time: int): Account {
    if ds == [] then s
    else
      var before, last := AllDecided(p, s, ds[..|ds| - 1], time), ds[|ds| - 1];
      if last.attempt.None? then before else Decided(p, before, last.attempt.value, time)
  }

  lemma NothingDecided(p: Policy, s: Account, time: int)
    ensures AllDecided(p, s, [], time) == s
  {
  }

  lemma NextDecided(p: Policy, s: Account, ds: seq<Decision>, d: Decision, time: int)
    ensures var before := AllDecided(p, s, ds, time);
      AllDecided(p, s, ds + [d], time) == if d.attempt.None? then before else Decided(p, before, d.attempt.value, time)
  {
    assert (ds + [d])[..|ds|] == ds;
  }

  /** The constraint has an attempt, from before or from this record. */
  ghost predicate Known(id: nat, attempted: set<nat>, ds: seq<Decision>) {
    id in attempted || exists j :: 0 <= j < |ds| && ds[j].attempt.Some? && ds[j].attempt.value.id == id
  }

  lemma NothingKnown(attempted: set<nat>)
    ensures forall id :: id in attempted <==> Known(id, attempted, [])
  {
  }

  lemma NextKnown(attempted: set<nat>, ds: seq<Decision>, d: Decision, id: nat)
    ensures Known(id, attempted, ds + [d]) <==> Known(id, attempted, ds) || (d.attempt.Some? && d.attempt.value.id == id)
  {
    var all := ds + [d];
    assert all[|ds|] == d;
    assert forall j :: 0 <= j < |ds| ==> all[j] == ds[j];
  }

  /** The i-th of the decisions of one record, on the cash that the earlier ones left. */
  ghost predicate Considered(p: Policy, c: Scene, s: Account, attempted: set<nat>, legs: Legs<PayoffLeg>, id: nat,
                             ds: seq<Decision>, i: nat, time: int, market: Market) {
    && i < |ds|
    && Justified(p, c, AllDecided(p, s, ds[..i], time).available, id, legs, Known(id, attempted, ds[..i]), ds[i], time, market)
  }

  lemma ConsideredStays(p: Policy, c: Scene, s: Account, attempted: set<nat>, legs: Legs<PayoffLeg>, id: nat,
                        ds: seq<Decision>, d: Decision, i: nat, time: int, market: Market)
    requires Considered(p, c, s, attempted, legs, id, ds, i, time, market)
    ensures Considered(p, c, s, attempted, legs, id, ds + [d], i, time, market)
  {
    hide Justified, Known, AllDecided;
    assert (ds + [d])[..i] == ds[..i];
  }

  lemma ConsideredNow(p: Policy, c: Scene, s: Account, attempted: set<nat>, legs: Legs<PayoffLeg>, id: nat,
                      ds: seq<Decision>, d: Decision, time: int, market: Market)
    requires Justified(p, c, AllDecided(p, s, ds, time).available, id, legs, Known(id, attempted, ds), d, time, market)
    ensures Considered(p, c, s, attempted, legs, id, ds + [d], |ds|, time, market)
  {
    hide Justified, Known, AllDecided;
    assert (ds + [d])[..|ds|] == ds;
  }

  /** The decisions of one record: their attempts lead to the books, and each of them, or its
      absence, is accounted for. */
  ghost predicate Decisions(p: Policy, compiled: map<nat, Legs<PayoffLeg>>, c: Scene, s: Account, attempted: set<nat>,
                            ids: seq<nat>, ds: seq<Decision>, time: int, market: Market) {
    && |ds| <= |ids|
    && forall i :: 0 <= i < |ds| ==> ids[i] in compiled && Considered(p, c, s, attempted, compiled[ids[i]], ids[i], ds, i, time, market)
  }

  /** The decision after `ds` stops the record: the cash exceeds what sizing accepts, or the clock
      has no room for the orders of the quote found. */
  ghost predicate Stops(p: Policy, compiled: map<nat, Legs<PayoffLeg>>, c: Scene, s: Account, attempted: set<nat>,
                        ids: seq<nat>, ds: seq<Decision>, time: int, market: Market, fault: Option<Fault>) {
    && |ds| < |ids| && ids[|ds|] in compiled
    && var id, available := ids[|ds|], AllDecided(p, s, ds, time).available;
    && !Known(id, attempted, ds) && Decidable(p, c, compiled[id], time, market)
    && fault == (if available > CASH_LIMIT then Some(SizingInput) else Some(ArrivalClock))
    && (available <= CASH_LIMIT ==> Late(p, time) && exists d :: Searched(p, c, available, id, compiled[id], d, time, market) && d.attempt.Some?)
  }

  /** The attempt of an optimal quote reserves what both legs can cost, within the cash. */
  lemma OptimumFits(p: Policy, legs: Legs<PayoffLeg>, pair: PairOptimum.Pair, available: int, q: PairOptimum.SizedPair, id: nat,
                    generation: nat, time: int)
    requires ValidPolicy(p) && Tradable(p, legs) && available >= 0 && PairOptimum.ValidInput(pair, LimitsFor(p, available))
    requires PairOptimum.IsOptimum(pair, LimitsFor(p, available), q)
    requires pair.first.fees == p.fees[legs.first.marketId] && pair.second.fees == p.fees[legs.second.marketId]
    ensures var a := AttemptOf(id, legs, generation, q, time);
      NewAttempt(p, a) && 0 <= a.reserve.first + a.reserve.second <= available
  {
    hide DepthWalk.Acquire, Reserve;
  }

  // ------------------------------------------------------------------------
  // Whole observations
  // ------------------------------------------------------------------------

  /** What happens to a simulation: time passes against one state of the market, a record is noted
      with its decisions, or the end leaves what is still pending. */
  datatype Callback =
    | Passed(time: int, inclusive: bool, market: Market, trace: seq<Moment>)
    | Noted(time: int, ds: seq<Decision>, updates: map<nat, int>)
    | Ended

  ghost predicate Led(p: Policy, m: Moment, call: Callback, n: Moment) {
    match call
    case Passed(time, inclusive, market, trace) =>
      Fit(market) && Traced(p, market, time, inclusive, trace) && trace[0] == m && trace[|trace| - 1] == n
    case Noted(time, ds, updates) => n == m.(books := AllDecided(p, m.books, ds, time), scene := m.scene.(updates := updates))
    case Ended => n == m.(books := m.books.(events := []))
  }

  /** The states before, between and after the callbacks, whatever the market did in between. */
  ghost predicate Observed(p: Policy, calls: seq<Callback>, states: seq<Moment>) {
    |states| == |calls| + 1 && forall i :: 0 <= i < |calls| ==> Led(p, states[i], calls[i], states[i + 1])
  }

  lemma NothingObserved(p: Policy, m: Moment)
    ensures Observed(p, [], [m])
  {
  }

  lemma NextObserved(p: Policy, calls: seq<Callback>, states: seq<Moment>, call: Callback, n: Moment)
    requires Observed(p, calls, states) && Led(p, states[|states| - 1], call, n)
    ensures Observed(p, calls + [call], states + [n])
  {
    hide Led;
    var cs, ms := calls + [call], states + [n];
    forall i | 0 <= i < |cs| ensures Led(p, ms[i], cs[i], ms[i + 1]) {
      if i < |calls| {
        assert cs[i] == calls[i] && ms[i] == states[i] && ms[i + 1] == states[i + 1];
      }
    }
  }

  /** The k-th callback takes a level's consumption up to `used`, within what the market displays
      there at that time. */
  ghost predicate TakenIn(calls: seq<Callback>, states: seq<Moment>, key: Key, k: nat, used: nat) {
    && k < |calls| && k + 1 < |states| && calls[k].Passed?
    && Used(states[k].scene.consumed, key) < used == Used(states[k + 1].scene.consumed, key) <= Shown(calls[k].market, key)
  }

  /** Over any sequence of callbacks, while the market changes: what is consumed at a physical
      level is what it was, or the callback that took it there found at least as much displayed. */
  lemma {:induction false} ObservedDisplayed(p: Policy, calls: seq<Callback>, states: seq<Moment>, key: Key)
    requires Observed(p, calls, states)
    ensures var first, last := Used(states[0].scene.consumed, key), Used(states[|states| - 1].scene.consumed, key);
      last == first || (first < last && exists k: nat :: TakenIn(calls, states, key, k, last))
    decreases |calls|
  {
    hide Used, Shown, Fit, Traced, AllDecided;
    var n := |calls|;
    if n > 0 {
      assert Led(p, states[n - 1], calls[n - 1], states[n]);
      var before, earlier := calls[..n - 1], states[..n];
      assert Observed(p, before, earlier) by { EarlierObserved(p, calls, states); }
      ObservedDisplayed(p, before, earlier, key);
      var used := Used(earlier[n - 1].scene.consumed, key);
      if k: nat :| TakenIn(before, earlier, key, k, used) {
        assert TakenIn(calls, states, key, k, used);
      }
      if calls[n - 1].Passed? {
        RunDisplayed(p, calls[n - 1].market, calls[n - 1].time, calls[n - 1].inclusive, calls[n - 1].trace, key);
        if Used(states[n].scene.consumed, key) != used {
          assert TakenIn(calls, states, key, n - 1, Used(states[n].scene.consumed, key));
        }
      }
    }
  }

  lemma EarlierObserved(p: Policy, calls: seq<Callback>, states: seq<Moment>)
    requires Observed(p, calls, states) && calls != []
    ensures Observed(p, calls[..|calls| - 1], states[..|calls|])
  {
    hide Led;
  }
}
