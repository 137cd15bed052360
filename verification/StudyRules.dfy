/** What the steps of the lifecycle simulation (src/session/execution_study.cpp) come to, in plain
    terms: which books are used, what is taken at which share, what is booked where, and when the
    follow-up events are due. */
module StudyRules {
  import opened FixedPoint
  import opened Contracts
  import opened ExecutionCost
  import opened Reservation
  import opened LiquidityWalk
  import opened OrderBooks
  import opened MarketStates
  import opened StudyLedger
  import opened StudyOutcome
  import opened StudyDecisions
  import opened LotAccounting
  import DepthWalk
  import PairOptimum
  import NetSizing
  import Positions = StudyPositions

  /** The market's book is valid on an open connection and was updated at most the maximum age ago. */
  predicate Recent(p: Policy, c: Scene, m: nat, time: int, market: Market) {
    && market.connected && m in market.books && market.books[m].state == Valid
    && m in c.updates && 0 <= time - c.updates[m] <= p.maxAge
  }

  /** The book can be traded for an attempt that was decided on connection `generation`. */
  predicate Usable(p: Policy, c: Scene, generation: nat, m: nat, time: int, market: Market) {
    Recent(p, c, m, time, market) && m !in c.settled && market.generation == Some(generation)
  }

  /** What an order takes from a book now. */
  function TakenNow(p: Policy, c: Scene, market: Market, leg: PayoffLeg, sell: bool, limit: Price, execute: bool, share: nat, quantity: nat): Execution
    requires ValidPolicy(p) && leg.marketId in p.fees && share <= 10_000
  {
    var t := Terms(leg, sell, limit, p.step, execute, share);
    var levels := if leg.marketId in market.books then Visited(market.books[leg.marketId], if leg.yes != sell then Ask else Bid) else [];
    Executed(t, p.fees[leg.marketId], Takes(t, levels, c.consumed, quantity))
  }

  // ------------------------------------------------------------------------
  // Arrivals
  // ------------------------------------------------------------------------

  /** A buy that arrives takes the policy's share of the book at its own limit, if its leg is not
      rejected and its book is usable, and nothing otherwise. What it took is booked as spent but
      unconfirmed, as its attempt's fills and as one lot; its response is due after the leg's
      response latency. */
  lemma BuyArrives(p: Policy, m: Moment, market: Market) returns (fill: Execution, total: Execution)
    requires EventReady(p, m) && !SettlesNext(p, m) && !m.books.events[0].response && !m.books.orders[m.books.events[0].order].sell
    ensures var x, e := m.books.orders[m.books.events[0].order], m.books.events[0];
      var a := m.books.attempts[x.attempt];
      var leg, before := a.legs.At(x.leg), a.fills.At(x.leg);
      && leg.marketId in p.fees && x.quantity >= 0
      && fill == (if !p.reject.At(x.leg) && Usable(p, m.scene, a.generation, leg.marketId, e.time, market)
                  then TakenNow(p, m.scene, market, leg, false, x.limit, true, p.fillShare, x.quantity) else NOTHING)
      && total == before.(quantity := before.quantity + fill.quantity, notional := before.notional + fill.notional, debit := before.debit + fill.debit,
                          worstPrice := if before.worstPrice >= fill.worstPrice then before.worstPrice else fill.worstPrice,
                          levels := before.levels + fill.levels)
    ensures var n, e := Outcome(p, m, market), m.books.events[0];
      var x := m.books.orders[e.order];
      var a, slot := m.books.attempts[x.attempt], x.attempt * 2 + x.leg;
      && slot < |m.scene.stocks|
      && n.books == m.books.(orders := m.books.orders[e.order := x.(arrived := true, fill := fill)], events := n.books.events,
                             attempts := m.books.attempts[x.attempt := a.(fills := a.fills.With(x.leg, total))],
                             spent := m.books.spent + fill.debit, notional := m.books.notional + fill.notional,
                             unconfirmedDebit := m.books.unconfirmedDebit + fill.debit)
      && n.scene.stocks == (if fill.quantity == 0 then m.scene.stocks
                            else m.scene.stocks[slot := Positions.Stock(a.legs.At(x.leg), m.scene.stocks[slot].lots + [Holding(fill.quantity, Max(fill.debit, 0), e.time)])])
      && multiset(n.books.events) == multiset(m.books.events[1..]) + multiset{Event(e.time + p.responseLatency.At(x.leg), e.order, true)}
  {
    hide Executed, Takes, Visited, Insert, Depleted, OrderFits;
    var e := m.books.events[0];
    var x := m.books.orders[e.order];
    var a := m.books.attempts[x.attempt];
    FitsLeg(p, m);
    InsertAdds(m.books.events[1..], Event(e.time + p.responseLatency.At(x.leg), e.order, true));
    BuyFillFits(p, m.scene, a, x, e.time, market);
    fill := BuyFill(p, m.scene, a, x, e.time, market);
    total := Aggregated(a.fills.At(x.leg), fill);
  }

  lemma FitsLeg(p: Policy, m: Moment)
    requires EventReady(p, m)
    ensures var x := m.books.orders[m.books.events[0].order];
      x.leg < 2 && x.quantity >= 0 && m.books.attempts[x.attempt].legs.At(x.leg).marketId in p.fees && (x.sell ==> p.exit.Some?)
  {
  }

  lemma InsertAdds(events: seq<Event>, e: Event)
    ensures multiset(Insert(events, e)) == multiset(events) + multiset{e}
  {
    var k := Place(events, e);
    assert events == events[..k] + events[k..];
  }

  /** An exit that arrives takes the exit's own share, of no more than is still held; what it sold
      leaves the oldest lots, and is credited but unconfirmed. */
  lemma SaleArrives(p: Policy, m: Moment, market: Market) returns (fill: Execution)
    requires EventReady(p, m) && !SettlesNext(p, m) && !m.books.events[0].response && m.books.orders[m.books.events[0].order].sell
    ensures p.exit.Some?
    ensures var x, e := m.books.orders[m.books.events[0].order], m.books.events[0];
      var a, slot := m.books.attempts[x.attempt], x.attempt * 2 + x.leg;
      var leg := a.legs.At(x.leg);
      && leg.marketId in p.fees && x.quantity >= 0 && slot < |m.scene.stocks|
      && var held := HeldQuantity(m.scene.stocks[slot].lots);
      fill == (if !p.exit.value.reject && Usable(p, m.scene, a.generation, leg.marketId, e.time, market) && held > 0
               then TakenNow(p, m.scene, market, leg, true, x.limit, true, p.exit.value.fillShare, Min(held, x.quantity)) else NOTHING)
    ensures var n, e := Outcome(p, m, market), m.books.events[0];
      var x := m.books.orders[e.order];
      var slot := x.attempt * 2 + x.leg;
      && n.books == m.books.(orders := m.books.orders[e.order := x.(arrived := true, fill := fill)], events := n.books.events,
                             unconfirmedCredit := m.books.unconfirmedCredit + fill.credit, exitCredit := m.books.exitCredit + fill.credit,
                             exitFees := m.books.exitFees + fill.notional - fill.credit)
      && n.scene.stocks == m.scene.stocks[slot := m.scene.stocks[slot].(lots := CloseFifo(m.scene.stocks[slot].lots, fill.quantity, e.time).left)]
      && n.exitQuantity == m.exitQuantity + fill.quantity
      && n.exitBasis == m.exitBasis + CloseFifo(m.scene.stocks[slot].lots, fill.quantity, e.time).released
      && n.costTime == m.costTime + CloseFifo(m.scene.stocks[slot].lots, fill.quantity, e.time).costTime
      && multiset(n.books.events) == multiset(m.books.events[1..]) + multiset{Event(e.time + p.exit.value.responseLatency, e.order, true)}
  {
    hide Executed, Takes, Visited, Insert, Depleted, OrderFits, CloseFifo, HeldQuantity;
    var e := m.books.events[0];
    var x := m.books.orders[e.order];
    FitsLeg(p, m);
    InsertAdds(m.books.events[1..], Event(e.time + p.exit.value.responseLatency, e.order, true));
    fill := SaleFill(p, m.scene, m.books.attempts[x.attempt], x, e.time, market);
  }

  // ------------------------------------------------------------------------
  // Responses
  // ------------------------------------------------------------------------

  /** A response to an exit makes its proceeds available. */
  lemma SaleAnswers(p: Policy, m: Moment, market: Market)
    requires EventReady(p, m) && !SettlesNext(p, m) && m.books.events[0].response && m.books.orders[m.books.events[0].order].sell
    ensures var n, i := Outcome(p, m, market), m.books.events[0].order;
      var x := m.books.orders[i];
      n == m.(books := m.books.(events := m.books.events[1..], orders := m.books.orders[i := x.(responded := true)],
                                available := m.books.available + x.fill.credit, unconfirmedCredit := m.books.unconfirmedCredit - x.fill.credit))
  {
  }

  /** A response to a buy gives back what its reservation did not spend. A parallel attempt that has
      all its responses decides on its exit; a sequential one completes its second leg, or decides. */
  lemma BuyAnswers(p: Policy, m: Moment, market: Market)
    requires EventReady(p, m) && !SettlesNext(p, m) && m.books.events[0].response && !m.books.orders[m.books.events[0].order].sell
    ensures var n, e := Outcome(p, m, market), m.books.events[0];
      var x := m.books.orders[e.order];
      var k, a := x.attempt, m.books.attempts[x.attempt];
      a.pendingBuys > 0 &&
      var t := m.books.(events := m.books.events[1..], orders := m.books.orders[e.order := x.(responded := true)],
                        attempts := m.books.attempts[k := a.(pendingBuys := a.pendingBuys - 1, reserve := a.reserve.With(x.leg, 0))],
                        available := m.books.available + x.reserve - x.fill.debit, reservedTotal := m.books.reservedTotal - x.reserve,
                        unconfirmedDebit := m.books.unconfirmedDebit - x.fill.debit);
      n == m.(books := if p.sequential then CompletionOutcome(p, m.scene, t, k, e.time, market)
                       else if a.pendingBuys == 1 then ExitOutcome(p, m.scene, t, k, e.time, market) else t)
  {
    hide CompletionOutcome, ExitOutcome, OrderFits;
  }

  /** The leg of which more was bought, and by how much. */
  predicate Unmatched(a: Attempt, leg: nat, excess: nat) {
    (leg == 0 || leg == 1) && excess > 0 && a.fills.At(leg).quantity - a.fills.At(1 - leg).quantity == excess
  }

  /** An exit is sent exactly when the policy reduces, one leg was bought more than the other, there
      is time for it, the book is usable and takes some of what is held at the minimum price. It
      sells that much of that leg, at the price it was quoted, and reserves nothing. */
  lemma ExitSpelledOut(p: Policy, c: Scene, s: Account, k: nat, time: int, market: Market)
    requires ValidPolicy(p) && k < |s.attempts| && Tradable(p, s.attempts[k].legs) && p.exit.Some?
    ensures var a, config, t := s.attempts[k], p.exit.value, ExitOutcome(p, c, s, k, time, market);
      && t.attempts == s.attempts[k := a.(exitConsidered := true)] && t == s.(attempts := t.attempts, orders := t.orders, events := t.events)
      && (t.orders != s.orders || t.events != s.events ==> exists leg: nat, excess: nat :: Unmatched(a, leg, excess))
      && forall leg: nat, excess: nat :: Unmatched(a, leg, excess) ==>
           var quote := TakenNow(p, c, market, a.legs.At(leg), true, config.minimumPrice, false, config.fillShare, Min(excess, Owned(c, k, leg)));
           if config.reduce && 0 <= time - a.started && time - a.started + config.latency <= config.timeout
              && Usable(p, c, a.generation, a.legs.At(leg).marketId, time, market) && quote.quantity > 0 then
             && t.orders == s.orders + [Order(k, leg, quote.quantity, quote.worstPrice, 0, NOTHING, false, false, true)]
             && multiset(t.events) == multiset(s.events) + multiset{Event(time + config.latency, |s.orders|, false)}
           else t.orders == s.orders && t.events == s.events
  {
    hide Executed, Takes, Visited, Insert, Owned;
    InsertAdds(s.events, Event(time + p.exit.value.latency, |s.orders|, false));
    var a := s.attempts[k];
    if a.fills.first.quantity != a.fills.second.quantity {
      assert Unmatched(a, if a.fills.first.quantity > a.fills.second.quantity then 0 else 1,
                       Max(a.fills.first.quantity - a.fills.second.quantity, a.fills.second.quantity - a.fills.first.quantity));
    }
  }

  /** Another order for the second leg is sent exactly when some of the first is unmatched, there is
      time and an order left for it, the book is usable, and what it offers at any price is worth it
      and within the cash and the second reservation. It buys what was quoted, at the quoted price,
      on its own reservation. Otherwise that reservation is given back, and the exit is decided. */
  lemma CompletionSpelledOut(p: Policy, c: Scene, s: Account, k: nat, time: int, market: Market)
    requires ValidPolicy(p) && k < |s.attempts| && Tradable(p, s.attempts[k].legs)
    ensures var a, t := s.attempts[k], CompletionOutcome(p, c, s, k, time, market);
      var missing, leg := a.fills.first.quantity - a.fills.second.quantity, a.legs.second;
      if missing > 0 && 0 <= time - a.started && time - a.started + p.latency.second <= p.completionTimeout
         && a.completionOrders < p.maxCompletionOrders && Usable(p, c, a.generation, leg.marketId, time, market)
         && (var quote := TakenNow(p, c, market, leg, false, 10_000, false, p.fillShare, missing);
             && quote.quantity > 0
             && a.fills.first.debit + a.fills.second.debit + quote.debit <= (a.fills.second.quantity + quote.quantity) * 10_000 + p.completionLossLimit
             && Reserve(quote.quantity, p.step, quote.worstPrice, p.fees[leg.marketId]) <= s.available + a.reserve.second) then
        var quote := TakenNow(p, c, market, leg, false, 10_000, false, p.fillShare, missing);
        var needed := Reserve(quote.quantity, p.step, quote.worstPrice, p.fees[leg.marketId]);
        && t.orders == s.orders + [Order(k, 1, quote.quantity, quote.worstPrice, needed, NOTHING, false, false, false)]
        && multiset(t.events) == multiset(s.events) + multiset{Event(time + p.latency.second, |s.orders|, false)}
        && t.attempts == s.attempts[k := a.(reserve := a.reserve.With(1, needed), completionOrders := a.completionOrders + 1, pendingBuys := a.pendingBuys + 1)]
        && t.available == s.available + a.reserve.second - needed && t.reservedTotal == s.reservedTotal - a.reserve.second + needed
      else
        t == ExitOutcome(p, c, s.(attempts := s.attempts[k := a.(reserve := a.reserve.With(1, 0))],
                                  available := s.available + a.reserve.second, reservedTotal := s.reservedTotal - a.reserve.second), k, time, market)
  {
    hide Executed, Takes, Visited, Insert, ExitOutcome, Reserve;
    var a := s.attempts[k];
    InsertAdds(s.events, Event(time + p.latency.second, |s.orders|, false));
  }

  // ------------------------------------------------------------------------
  // Settlements
  // ------------------------------------------------------------------------

  /** A settlement closes its market, empties the positions on it and pays their winning contracts; it
      fails exactly when a position breaks a bound, or the cash received from settlements or the
      available cash would pass 10^15. */
  lemma SettlesSpelledOut(p: Policy, m: Moment, market: Market)
    requires SettlesNext(p, m)
    ensures var s, stocks := p.settlements[m.index], m.scene.stocks;
      var payout, time := Positions.SettledPayout(stocks, s), Positions.SettledCostTime(stocks, s);
      && Outcome(p, m, market)
         == m.(books := m.books.(available := m.books.available + payout, settlementCash := m.books.settlementCash + payout), index := m.index + 1,
               scene := m.scene.(settled := m.scene.settled + {s.marketId}, stocks := Positions.SettledStocks(stocks, s)), costTime := m.costTime + time)
      && FaultOf(p, m, market)
         == match Positions.SettleFault(stocks, s, m.costTime)
            case Some(f) => Some(PositionBound(f))
            case None =>
              if m.books.settlementCash + payout > 1_000_000_000_000_000 || m.books.available + payout > 1_000_000_000_000_000 then Some(SettlementCashBound)
              else None
  {
  }

  // ------------------------------------------------------------------------
  // What a step fails on
  // ------------------------------------------------------------------------

  /** An arrival that takes anything uses it up, out of the policy's share or the exit's. */
  lemma ArrivalUses(p: Policy, m: Moment, market: Market)
    requires EventReady(p, m) && !SettlesNext(p, m) && !m.books.events[0].response
    ensures var x, e := m.books.orders[m.books.events[0].order], m.books.events[0];
      var a := m.books.attempts[x.attempt];
      var leg, share, slot := a.legs.At(x.leg), if x.sell && p.exit.Some? then p.exit.value.fillShare else p.fillShare, x.attempt * 2 + x.leg;
      && x.quantity >= 0 && slot < |m.scene.stocks| && (x.sell ==> p.exit.Some?)
      && var t := Terms(leg, x.sell, x.limit, p.step, true, share);
      var levels := if leg.marketId in market.books then Visited(market.books[leg.marketId], if leg.yes != x.sell then Ask else Bid) else [];
      var held := HeldQuantity(m.scene.stocks[slot].lots);
      Outcome(p, m, market).scene.consumed
      == if !Usable(p, m.scene, a.generation, leg.marketId, e.time, market) then m.scene.consumed
         else if !x.sell then (if p.reject.At(x.leg) then m.scene.consumed else ConsumeAll(t, m.scene.consumed, Takes(t, levels, m.scene.consumed, x.quantity)))
         else if p.exit.value.reject || held == 0 then m.scene.consumed
         else ConsumeAll(t, m.scene.consumed, Takes(t, levels, m.scene.consumed, Min(held, x.quantity)))
  {
    hide Executed, Takes, ConsumeAll, Visited, Insert, HeldQuantity, CloseFifo;
    FitsLeg(p, m);
    var x := m.books.orders[m.books.events[0].order];
    if x.sell {
      EventIsNext(p, m, market);
    }
  }

  /** What an arrival fails on: the cash spent, or received from exits or paid in their fees, would pass
      10^15; the seconds of the capital time would leave 64 bits; or the response would not fit the
      clock. */
  lemma ArrivalFaults(p: Policy, m: Moment, market: Market)
    requires EventReady(p, m) && !SettlesNext(p, m) && !m.books.events[0].response
    ensures var n, e := Outcome(p, m, market), m.books.events[0];
      var x := m.books.orders[e.order];
      && e.order < |n.books.orders| && x.leg < 2 && (x.sell ==> p.exit.Some?)
      && FaultOf(p, m, market)
         == if !x.sell then
              if n.books.spent > 1_000_000_000_000_000 then Some(SpendingBound)
              else if e.time + p.responseLatency.At(x.leg) > 9_223_372_036_854_775_807 then Some(ResponseClock)
              else None
            else if n.books.exitCredit > 1_000_000_000_000_000 || n.books.exitFees > 1_000_000_000_000_000 then Some(ExitCashBound)
            else if n.costTime / 1_000_000_000 > 0xffff_ffff_ffff_ffff then Some(PositionBound(Positions.CapitalTimeOverflow))
            else if e.time + p.exit.value.responseLatency > 9_223_372_036_854_775_807 then Some(ExitResponseClock)
            else None
  {
    hide Executed, Takes, Visited, Insert, CloseFifo, Meets;
    FitsLeg(p, m);
  }

  /** A response fails on proceeds that would make more than 10^15 available, and otherwise on its
      follow-up order. */
  lemma ResponseFaults(p: Policy, m: Moment, market: Market)
    requires EventReady(p, m) && !SettlesNext(p, m) && m.books.events[0].response
    ensures var n, e := Outcome(p, m, market), m.books.events[0];
      var x := m.books.orders[e.order];
      FaultOf(p, m, market)
      == if x.sell && n.books.available > 1_000_000_000_000_000 then Some(AvailableExitBound)
         else if |n.books.orders| == |m.books.orders| then None
         else FollowUpFault(p, n.books.orders[|n.books.orders| - 1], e.time)
  {
    hide CompletionOutcome, ExitOutcome, CompletionFault, ExitFault, OrderFits;
    var e, s := m.books.events[0], m.books.(events := m.books.events[1..]);
    var x := s.orders[e.order];
    if !x.sell {
      var k, t := x.attempt, StudyLedger.BuyAnswered(s, e.order);
      CompletionFaults(p, m.scene, t, k, e.time, market);
      ExitFaults(p, m.scene, t, k, e.time, market);
    }
  }

  /** A new order arrives after its latency, which has to fit the clock. */
  function FollowUpFault(p: Policy, x: Order, time: int): Option<Fault> {
    if x.sell then
      if p.exit.Some? && time + p.exit.value.latency > 9_223_372_036_854_775_807 then Some(ExitClock) else None
    else if time + p.latency.second > 9_223_372_036_854_775_807 then Some(CompletionClock)
    else None
  }

  lemma ExitFaults(p: Policy, c: Scene, s: Account, k: nat, time: int, market: Market)
    requires ValidPolicy(p) && k < |s.attempts| && Tradable(p, s.attempts[k].legs)
    ensures var t := ExitOutcome(p, c, s, k, time, market);
      && |s.orders| <= |t.orders|
      && ExitFault(p, c, s.attempts[k], k, time, market)
         == if |t.orders| == |s.orders| then None else FollowUpFault(p, t.orders[|t.orders| - 1], time)
  {
    hide ExitWanted, ExitQuote, Insert;
  }

  lemma CompletionFaults(p: Policy, c: Scene, s: Account, k: nat, time: int, market: Market)
    requires ValidPolicy(p) && k < |s.attempts| && Tradable(p, s.attempts[k].legs)
    ensures var t := CompletionOutcome(p, c, s, k, time, market);
      && |s.orders| <= |t.orders|
      && CompletionFault(p, c, s, k, time, market)
         == if |t.orders| == |s.orders| then None else FollowUpFault(p, t.orders[|t.orders| - 1], time)
  {
    hide CompletionWanted, CompletionQuote, CompletionWorth, CompletionReserve, ExitOutcome, ExitFault, Insert;
    ExitFaults(p, c, StudyLedger.AcquisitionFinished(s, k), k, time, market);
  }

  // ------------------------------------------------------------------------
  // The order of steps
  // ------------------------------------------------------------------------

  /** A settlement comes before every event at its time or later, and after every earlier one; at
      equal times the older order's event is first, and its arrival before its response. */
  lemma NextStep(p: Policy, m: Moment)
    requires InOrder(m.books.events)
    ensures SettlesNext(p, m) <==>
      m.index < |p.settlements| && forall i :: 0 <= i < |m.books.events| ==> p.settlements[m.index].time <= m.books.events[i].time
    ensures forall i :: 0 < i < |m.books.events| ==>
      var e, f := m.books.events[0], m.books.events[i];
      e.time < f.time || (e.time == f.time && (e.order < f.order || (e.order == f.order && (f.response || !e.response))))
  {
    forall i | 0 < i < |m.books.events| ensures !Precedes(m.books.events[i], m.books.events[0]) {
    }
  }

  /** Before a time events at it wait, at the end they do not; settlements at it never do. */
  lemma DueSpelledOut(p: Policy, m: Moment, time: int)
    requires InOrder(m.books.events)
    ensures Due(p, m, time, false) <==>
      || (m.index < |p.settlements| && p.settlements[m.index].time <= time)
      || exists i :: 0 <= i < |m.books.events| && m.books.events[i].time < time
    ensures Due(p, m, time, true) <==>
      || (m.index < |p.settlements| && p.settlements[m.index].time <= time)
      || exists i :: 0 <= i < |m.books.events| && m.books.events[i].time <= time
  {
    NextStep(p, m);
    if m.books.events != [] {
      assert Due(p, m, time, true) == Due(p, m, time, true);
    }
  }

  // ------------------------------------------------------------------------
  // Decisions
  // ------------------------------------------------------------------------

  /** A decision is possible exactly on two recent books of unsettled markets. */
  lemma DecidableSpelledOut(p: Policy, c: Scene, legs: Legs<PayoffLeg>, time: int, market: Market)
    ensures Decidable(p, c, legs, time, market) <==>
      && Recent(p, c, legs.first.marketId, time, market) && legs.first.marketId !in c.settled
      && Recent(p, c, legs.second.marketId, time, market) && legs.second.marketId !in c.settled
  {
  }

  /** The levels are what an unscaled buy of the whole cap, at any price, would take. */
  ghost predicate Offers(p: Policy, c: Consumed, leg: PayoffLeg, market: Market, levels: seq<DepthWalk.BuyLevel>)
    requires ValidPolicy(p)
  {
    var t := Terms(leg, false, 10_000, p.step, false, p.fillShare);
    var takes := Takes(t, if leg.marketId in market.books then Visited(market.books[leg.marketId], if leg.yes then Ask else Bid) else [], c, p.quantityCap);
    && |levels| == |takes|
    && forall i :: 0 <= i < |takes| ==> levels[i].price == takes[i].trade.price && levels[i].quantity == takes[i].trade.quantity
  }

  lemma DepthOffers(p: Policy, c: Consumed, leg: PayoffLeg, market: Market)
    requires ValidPolicy(p)
    ensures Offers(p, c, leg, market, DepthOf(Takes(BuyTerms(p, leg), LevelsFor(market, BuyTerms(p, leg)), c, p.quantityCap)))
  {
    hide Takes, DepthOf, Visited;
    TakesWithin(BuyTerms(p, leg), LevelsFor(market, BuyTerms(p, leg)), c, p.quantityCap);
    DepthEach(Takes(BuyTerms(p, leg), LevelsFor(market, BuyTerms(p, leg)), c, p.quantityCap));
  }

  lemma {:induction false} DepthEach(takes: seq<Take>)
    ensures |DepthOf(takes)| == |takes|
    ensures TotalQuantity(Trades(takes)) <= INT64_MAX ==>
      forall i :: 0 <= i < |takes| ==> DepthOf(takes)[i].price == takes[i].trade.price && DepthOf(takes)[i].quantity == takes[i].trade.quantity
    decreases takes
  {
    if takes != [] {
      DepthEach(takes[1..]);
      assert Trades(takes)[1..] == Trades(takes[1..]);
    }
  }

  /** The attempt of a decision is a pair that no other pair surpasses, on the depth that is left
      and within the policy's limits and the available cash; it starts now, with the limits and
      the reservations of its legs. */
  lemma AttemptSpelledOut(p: Policy, c: Scene, available: int, id: nat, legs: Legs<PayoffLeg>, d: Decision, time: int, market: Market)
    returns (first: seq<DepthWalk.BuyLevel>, second: seq<DepthWalk.BuyLevel>, x: DepthWalk.SizedLeg, y: DepthWalk.SizedLeg)
    requires Searched(p, c, available, id, legs, d, time, market) && d.attempt.Some?
    ensures Offers(p, c.consumed, legs.first, market, first) && Offers(p, c.consumed, legs.second, market, second)
    ensures var a := d.attempt.value;
      var pair := PairOptimum.Pair(DepthWalk.BuyDepth(first, p.fees[legs.first.marketId]), DepthWalk.BuyDepth(second, p.fees[legs.second.marketId]));
      var limits := DepthWalk.SizingLimits(p.quantityCap, p.step, available, p.minMargin, p.maxEvaluations);
      && a.quantity >= 0 && NetSizing.Rival(pair, limits, a.quantity, x, y)
      && (forall q: nat, u, v :: NetSizing.Rival(pair, limits, q, u, v) ==>
            10_000 * q - u.debit - v.debit <= 10_000 * a.quantity - x.debit - y.debit)
      && a.limit == Legs(x.limit, y.limit) && a.reserve == Legs(x.reservation, y.reservation)
      && a.id == id && a.legs == legs && market.generation == Some(a.generation) && a.started == time
      && a.fills == Legs(NOTHING, NOTHING) && a.completionOrders == 0 && !a.exitConsidered
  {
    hide Takes, DepthOf, NetSizing.Rival, NetSizing.Answer, PairOptimum.ValidInput, Offers;
    var pair, limits, r := DepthsOf(p, c.consumed, legs, market), LimitsFor(p, available), d.search.value;
    DepthOffers(p, c.consumed, legs.first, market);
    DepthOffers(p, c.consumed, legs.second, market);
    NetSizing.AnswerSpelledOut(pair, limits, r);
    first, second, x, y := pair.first.levels, pair.second.levels, r.quote.value.first, r.quote.value.second;
  }

  /** A decision sets both reservations aside and sends the first leg's order, and the second's when
      the attempt is parallel; each arrives after its leg's latency. */
  lemma DecisionSpelledOut(p: Policy, s: Account, a: Attempt, time: int)
    ensures var t, k := Decided(p, s, a, time), |s.attempts|;
      var first := Order(k, 0, a.quantity, a.limit.first, a.reserve.first, NOTHING, false, false, false);
      var second := Order(k, 1, a.quantity, a.limit.second, a.reserve.second, NOTHING, false, false, false);
      && t.available == s.available - a.reserve.first - a.reserve.second && t.reservedTotal == s.reservedTotal + a.reserve.first + a.reserve.second
      && t.attempts == s.attempts + [a.(pendingBuys := if p.sequential then 1 else 2)]
      && t.orders == s.orders + (if p.sequential then [first] else [first, second])
      && multiset(t.events) == multiset(s.events) + multiset{Event(time + p.latency.first, |s.orders|, false)}
           + (if p.sequential then multiset{} else multiset{Event(time + p.latency.second, |s.orders| + 1, false)})
      && t == s.(available := t.available, reservedTotal := t.reservedTotal, attempts := t.attempts, orders := t.orders, events := t.events)
  {
    hide Insert;
    var e, f := Event(time + p.latency.first, |s.orders|, false), Event(time + p.latency.second, |s.orders| + 1, false);
    InsertAdds(s.events, e);
    InsertAdds(Insert(s.events, e), f);
  }
}
