/** The event-driven execution simulation (src/session/execution_study.cpp, lifecycle policies):
    decisions, order arrivals and responses, completion orders, exits and settlements. Every
    guard of the source that throws is in the code here; those on the simulation's own
    consistency are proved never to decide. */
module ExecutionStudy {
  import opened FixedPoint
  import opened Contracts
  import opened ExecutionCost
  import opened Reservation
  import opened LiquidityWalk
  import opened OrderBooks
  import opened MarketStates
  import opened StudyLedger
  import opened StudyOutcome
  import opened StudyDecisions
  import DepthWalk
  import PairOptimum
  import NetSizing
  import LotAccounting
  import Positions = StudyPositions

  /** A position of an attempt holds no more than the attempt bought, on the leg it bought. */
  predicate PositionFits(a: Attempt, leg: nat, x: Positions.Position) {
    x.quantity <= a.fills.At(leg).quantity && (x.quantity > 0 ==> x.leg == a.legs.At(leg))
  }

  ghost predicate PositionsOk(attempts: seq<Attempt>, positions: seq<Positions.Position>, settled: set<nat>) {
    && 2 * |attempts| <= |positions|
    && (forall k :: 0 <= k < |attempts| ==> PositionFits(attempts[k], 0, positions[k * 2]) && PositionFits(attempts[k], 1, positions[k * 2 + 1]))
    && (forall i :: 2 * |attempts| <= i < |positions| ==> positions[i].quantity == 0)
    && (forall i :: 0 <= i < |positions| && positions[i].quantity > 0 ==> positions[i].leg.marketId !in settled)
  }

  /** At most one attempt per constraint, and all of their markets have fees. */
  ghost predicate Catalogued(p: Policy, compiled: map<nat, Legs<PayoffLeg>>, attempts: seq<Attempt>, attempted: set<nat>, positions: nat) {
    && (forall id :: id in compiled ==> Tradable(p, compiled[id]))
    && attempted <= compiled.Keys && |attempts| == |attempted| && positions == |compiled| * 2
  }

  /** Settlements are sorted by time; what is left of them is not in the past. */
  predicate SettlementsAhead(p: Policy, index: nat, now: int) {
    && index <= |p.settlements|
    && forall i :: index <= i < |p.settlements| ==> now <= p.settlements[i].time
  }

  /** Constraints of two markets each, in the order of their identities. */
  ghost predicate Catalogue(p: Policy, ids: seq<nat>, templates: map<nat, Legs<PayoffLeg>>) {
    && Increasing(ids) && (forall id :: id in ids <==> id in templates)
    && forall id :: id in templates ==> Tradable(p, templates[id]) && templates[id].first.marketId != templates[id].second.marketId
  }

  predicate Increasing(ids: seq<nat>) {
    forall i, j :: 0 <= i < j < |ids| ==> ids[i] < ids[j]
  }

  /** The leg that is bought first: that of the smaller market, or of the greater one. */
  function Oriented(p: Policy, legs: Legs<PayoffLeg>): Legs<PayoffLeg> {
    if (legs.first.marketId < legs.second.marketId) == !p.reverseLegs then legs else Legs(legs.second, legs.first)
  }

  function Compiled(p: Policy, templates: map<nat, Legs<PayoffLeg>>): map<nat, Legs<PayoffLeg>> {
    map id | id in templates :: Oriented(p, templates[id])
  }

  predicate Involves(legs: Legs<PayoffLeg>, m: nat) {
    legs.first.marketId == m || legs.second.marketId == m
  }

  /** The index of constraints by market lists each of them under both of its markets and nowhere
      else, in the order of their identities. */
  ghost predicate Indexed(index: map<nat, seq<nat>>, compiled: map<nat, Legs<PayoffLeg>>) {
    && (forall m, id :: ListedUnder(index, m, id) <==> id in compiled && Involves(compiled[id], m))
    && forall m :: m in index ==> index[m] != [] && Increasing(index[m])
  }

  lemma NothingIndexed()
    ensures Indexed(map[], map[])
  {
  }

  lemma NextIndexed(index: map<nat, seq<nat>>, compiled: map<nat, Legs<PayoffLeg>>, id: nat, legs: Legs<PayoffLeg>)
    requires Indexed(index, compiled) && legs.first.marketId != legs.second.marketId && forall k :: k in compiled ==> k < id
    ensures Indexed(Dependent(Dependent(index, legs.first.marketId, id), legs.second.marketId, id), compiled[id := legs])
  {
    var one := Dependent(index, legs.first.marketId, id);
    var both := Dependent(one, legs.second.marketId, id);
    forall m, k ensures ListedUnder(both, m, k) <==> k in compiled[id := legs] && Involves(compiled[id := legs][k], m) {
      DependentMeaning(index, legs.first.marketId, id, m, k);
      DependentMeaning(one, legs.second.marketId, id, m, k);
    }
    forall m, i | m in index && 0 <= i < |index[m]| ensures index[m][i] < id {
      assert ListedUnder(index, m, index[m][i]);
    }
  }

  lemma ListedIsCompiled(index: map<nat, seq<nat>>, compiled: map<nat, Legs<PayoffLeg>>, m: nat)
    requires Indexed(index, compiled) && m in index
    ensures forall i :: 0 <= i < |index[m]| ==> index[m][i] in compiled
  {
    forall i | 0 <= i < |index[m]| ensures index[m][i] in compiled {
      assert ListedUnder(index, m, index[m][i]);
    }
  }

  /** Compiles the constraints and builds the index. */
  method Compile(p: Policy, ids: seq<nat>, templates: map<nat, Legs<PayoffLeg>>)
    returns (compiled: map<nat, Legs<PayoffLeg>>, index: map<nat, seq<nat>>)
    requires Catalogue(p, ids, templates)
    ensures compiled == Compiled(p, templates) && Indexed(index, compiled)
  {
    hide Dependent, Indexed;
    compiled, index := map[], map[];
    NothingIndexed();
    var i := 0;
    while i < |ids|
      invariant i <= |ids| && Indexed(index, compiled)
      invariant forall id :: id in compiled <==> id in ids[..i]
      invariant forall id :: id in compiled ==> compiled[id] == Oriented(p, templates[id])
    {
      var id := ids[i];
      var legs := Oriented(p, templates[id]);
      NextIndexed(index, compiled, id, legs);
      compiled := compiled[id := legs];
      index := Dependent(index, legs.first.marketId, id);
      index := Dependent(index, legs.second.marketId, id);
      i := i + 1;
    }
    assert ids[..i] == ids;
  }

  lemma RoomForAttempt(p: Policy, compiled: map<nat, Legs<PayoffLeg>>, attempts: seq<Attempt>, attempted: set<nat>, positions: nat, id: nat)
    requires Catalogued(p, compiled, attempts, attempted, positions) && id in compiled && id !in attempted
    ensures 2 * |attempts| + 2 <= positions
    ensures forall a: Attempt :: Catalogued(p, compiled, attempts + [a], attempted + {id}, positions)
    ensures Tradable(p, compiled[id])
  {
    SubsetSize(attempted + {id}, compiled.Keys);
  }

  lemma {:induction false} SubsetSize(a: set<nat>, b: set<nat>)
    requires a <= b
    ensures |a| <= |b|
  {
    if a != {} {
      var x :| x in a;
      SubsetSize(a - {x}, b - {x});
    }
  }

  /** What surrounds the books: the constraints, the positions, the settled markets. */
  datatype Surroundings = Surroundings(compiled: map<nat, Legs<PayoffLeg>>, attempted: set<nat>, positions: seq<Positions.Position>,
                                       settled: set<nat>, index: nat)

  ghost predicate Whole(p: Policy, s: Account, c: Surroundings, now: int, busy: Option<nat>) {
    && ValidPolicy(p) && Consistent(p, s, busy) && 0 <= now <= INT64_MAX
    && PositionsOk(s.attempts, c.positions, c.settled)
    && Catalogued(p, c.compiled, s.attempts, c.attempted, |c.positions|)
    && SettlementsAhead(p, c.index, now)
  }

  /** Between two steps of the event loop. */
  ghost predicate Steady(p: Policy, s: Account, c: Surroundings, now: int, busy: Option<nat>) {
    Whole(p, s, c, now, busy) && EventsOk(s.orders, s.events, now)
  }

  /** A walk in progress after `i` levels: `done` so far, and the same walk still ahead. */
  ghost predicate Walking(t: Terms, levels: seq<Level>, fee: FeePolicy, c0: Consumed, quantity: nat, i: nat,
                          done: seq<Take>, c: Consumed, filled: nat) {
    && ValidTerms(t) && ValidFee(fee) && i <= |levels| && filled <= quantity
    && Takes(t, levels, c0, quantity) == done + Takes(t, levels[i..], c, quantity - filled)
    && c == ConsumeAll(t, c0, done) && LedgerOf(t, fee, done).quantity == filled
    && LedgerOf(t, fee, done).rounding <= filled * 10_000
  }

  lemma WalkBegins(t: Terms, levels: seq<Level>, fee: FeePolicy, c: Consumed, quantity: nat)
    requires ValidTerms(t) && ValidFee(fee)
    ensures Walking(t, levels, fee, c, quantity, 0, [], c, 0)
    ensures LedgerOf(t, fee, []) == OPENED
  {
    assert levels[0..] == levels;
  }

  lemma WalkStops(t: Terms, levels: seq<Level>, fee: FeePolicy, c0: Consumed, quantity: nat, i: nat,
                  done: seq<Take>, c: Consumed, filled: nat)
    requires Walking(t, levels, fee, c0, quantity, i, done, c, filled)
    requires i == |levels| || !Acceptable(t, OutcomePrice(t.leg, levels[i].price))
    ensures Takes(t, levels, c0, quantity) == done
  {
  }

  /** One level: skipped, or one more take that leaves the order open or completes it. */
  lemma WalkNext(t: Terms, levels: seq<Level>, fee: FeePolicy, c0: Consumed, quantity: nat, i: nat,
                 done: seq<Take>, c: Consumed, filled: nat)
    requires Walking(t, levels, fee, c0, quantity, i, done, c, filled)
    requires i < |levels| && Acceptable(t, OutcomePrice(t.leg, levels[i].price))
    ensures var take := TakeAt(t, levels[i], c, quantity - filled);
      var fill := take.trade.quantity;
      && 0 <= fill <= quantity - filled && fill <= QUANTITY_LIMIT
      && (fill == 0 ==> Walking(t, levels, fee, c0, quantity, i + 1, done, c, filled))
      && (fill > 0 ==>
            && Used(c, take.key) + fill <= levels[i].quantity
            && LedgerOf(t, fee, done + [take]) == AddFill(!t.sell, LedgerOf(t, fee, done), take.trade, fee)
            && (if fill < quantity - filled
                then Walking(t, levels, fee, c0, quantity, i + 1, done + [take], Consume(t, c, take), filled + fill)
                else Takes(t, levels, c0, quantity) == done + [take] && Consume(t, c, take) == ConsumeAll(t, c0, done + [take])))
  {
    hide TakeAt, LedgerOf, ConsumeAll, Consume, AddFill, KeyAt, Acceptable, Takes;
    var take := TakeAt(t, levels[i], c, quantity - filled);
    TakeFits(t, levels[i], c, quantity - filled);
    LedgerNext(t, fee, done, take, filled);
    ConsumeAppend(t, c0, done, take);
    TakesGoOn(t, levels, i, c, quantity - filled, done);
  }

  /** What is still ahead of a walk goes on behind what is done. */
  lemma TakesGoOn(t: Terms, levels: seq<Level>, i: nat, c: Consumed, remaining: nat, done: seq<Take>)
    requires ValidTerms(t) && i < |levels| && Acceptable(t, OutcomePrice(t.leg, levels[i].price))
    ensures var take := TakeAt(t, levels[i], c, remaining);
      && take.trade.quantity <= remaining
      && done + Takes(t, levels[i..], c, remaining) ==
        if take.trade.quantity == 0 then done + Takes(t, levels[i + 1..], c, remaining)
        else if take.trade.quantity < remaining then done + [take] + Takes(t, levels[i + 1..], Consume(t, c, take), remaining - take.trade.quantity)
        else done + [take]
  {
    hide TakeAt, Consume, Acceptable, Takes;
    TakesUnfold(t, levels, i, c, remaining);
    var take := TakeAt(t, levels[i], c, remaining);
    if 0 < take.trade.quantity < remaining {
      var rest := Takes(t, levels[i + 1..], Consume(t, c, take), remaining - take.trade.quantity);
      assert done + ([take] + rest) == done + [take] + rest;
    }
  }

  lemma TakesUnfold(t: Terms, levels: seq<Level>, i: nat, c: Consumed, remaining: nat)
    requires ValidTerms(t) && i < |levels| && Acceptable(t, OutcomePrice(t.leg, levels[i].price))
    ensures var take := TakeAt(t, levels[i], c, remaining);
      && take.trade.quantity <= remaining
      && Takes(t, levels[i..], c, remaining) ==
        if take.trade.quantity == 0 then Takes(t, levels[i + 1..], c, remaining)
        else [take] + (if take.trade.quantity < remaining
                       then Takes(t, levels[i + 1..], Consume(t, c, take), remaining - take.trade.quantity) else [])
  {
    hide TakeAt, Consume, Acceptable;
    assert levels[i..][0] == levels[i] && levels[i..][1..] == levels[i + 1..];
    WalkUnfolds(t, levels[i..], c, remaining);
  }

  lemma LedgerNext(t: Terms, fee: FeePolicy, done: seq<Take>, take: Take, filled: nat)
    requires ValidFee(fee) && LedgerOf(t, fee, done).quantity == filled && LedgerOf(t, fee, done).rounding <= filled * 10_000
    ensures LedgerOf(t, fee, done + [take]) == AddFill(!t.sell, LedgerOf(t, fee, done), take.trade, fee)
    ensures take.trade.quantity > 0 ==>
      && LedgerOf(t, fee, done + [take]).quantity == filled + take.trade.quantity
      && LedgerOf(t, fee, done + [take]).rounding <= (filled + take.trade.quantity) * 10_000
  {
    hide LedgerOf, AddFill;
    LedgerAppend(t, fee, done, take);
    RoundingGrows(!t.sell, LedgerOf(t, fee, done), take.trade, fee);
  }

  /** What one more fill adds to the result. */
  lemma ExecutedNext(t: Terms, fee: FeePolicy, done: seq<Take>, take: Take)
    requires ValidFee(fee)
    ensures var l := LedgerOf(t, fee, done);
      var f := Fill(!t.sell, take.trade.quantity, take.trade.price, fee, l.rounding);
      var e := Executed(t, fee, done);
      && Executed(t, fee, done + [take])
        == Execution(e.quantity + take.trade.quantity, e.notional + f.notional, if t.sell then 0 else e.debit + f.change,
                     if t.sell then e.credit + f.change else 0, take.trade.price, e.levels + 1)
      && LedgerOf(t, fee, done + [take]).rounding == Outstanding(f, l.rounding)
      && e.quantity == l.quantity
  {
    hide LedgerOf, Fill, AddFill;
    LedgerAppend(t, fee, done, take);
    RoundingGrows(!t.sell, LedgerOf(t, fee, done), take.trade, fee);
  }

  class Simulation {
    const policy: Policy
    const compiledLegs: map<nat, Legs<PayoffLeg>>
    const dependencies: map<nat, seq<nat>>
    const positions: Positions.StudyPositions

    var available: int
    var spent: int
    var notional: int
    var lastUpdate: map<nat, int>
    var consumed: Consumed
    var attempts: seq<Attempt>
    var attempted: set<nat>
    var unobserved: nat
    var orders: seq<Order>
    var events: seq<Event>
    var settledMarkets: set<nat>
    var settlementIndex: nat
    var settlementCash: int
    var reservedTotal: int
    var unconfirmedDebit: int
    var exitCredit: int
    var exitFees: int
    var exitQuantity: int
    var exitBasis: int
    var unconfirmedCredit: int
    /** The latest time that has been processed. */
    ghost var now: int

    ghost function Books(): Account
      reads this
    {
      Account(attempts, orders, events, available, reservedTotal, unconfirmedDebit, unconfirmedCredit, spent, notional,
              settlementCash, exitCredit, exitFees)
    }

    ghost function Around(): Surroundings
      reads this, positions
    {
      Surroundings(compiledLegs, attempted, positions.positions, settledMarkets, settlementIndex)
    }

    /** What orders meet. */
    ghost function Look(): Scene
      reads this`consumed, this`settledMarkets, this`lastUpdate, positions
    {
      Scene(consumed, settledMarkets, lastUpdate, positions.Stocks())
    }

    /** Everything that a step reads or changes. */
    ghost function Current(): Moment
      reads this, positions, positions.capitalTime
    {
      Moment(Books(), Look(), settlementIndex, positions.capitalTime.Value(), exitBasis, exitQuantity)
    }

    /** The positions are those of the books: all that was spent was acquired, up to now. */
    ghost predicate Held()
      reads this`spent, this`now, positions, positions.capitalTime
    {
      positions.Valid() && positions.acquired == spent && Positions.AcquiredBy(positions.lots, now)
    }

    /** Everything between two steps; `busy` is an attempt whose response is being handled. */
    ghost predicate Holds(busy: Option<nat>)
      reads this, positions, positions.capitalTime
    {
      Held() && Steady(policy, Books(), Around(), now, busy)
    }

    /** What is left to process. */
    ghost function Left(): int
      reads this
    {
      Remaining(policy, Books(), settlementIndex)
    }

    /** The constraints come in the order of their identities, each with its two legs. */
    constructor (policy: Policy, ids: seq<nat>, templates: map<nat, Legs<PayoffLeg>>)
      requires ValidPolicy(policy) && Catalogue(policy, ids, templates)
      ensures this.policy == policy && compiledLegs == Compiled(policy, templates) && Wired()
      ensures Holds(None) && attempted == {} && unobserved == 0 && now == 0
      ensures Current() == StartOf(policy, |templates|)
      ensures fresh(positions) && fresh(positions.capitalTime)
    {
      var compiled, index := Compile(policy, ids, templates);
      assert compiled.Keys == templates.Keys;
      this.policy, compiledLegs, dependencies := policy, compiled, index;
      positions := new Positions.StudyPositions(|compiled|);
      available, spent, notional, lastUpdate, consumed := policy.capital, 0, 0, map[], map[];
      attempts, attempted, unobserved, orders, events := [], {}, 0, [], [];
      settledMarkets, settlementIndex, settlementCash := {}, 0, 0;
      reservedTotal, unconfirmedDebit, unconfirmedCredit := 0, 0, 0;
      exitCredit, exitFees, exitQuantity, exitBasis := 0, 0, 0, 0;
      now := 0;
      new;
      hide Steady;
      SteadyAtStart(policy, Books(), Around());
    }

    // ----------------------------------------------------------------------
    // Taking liquidity
    // ----------------------------------------------------------------------

    /** One order's fills on the current book. Charges and consumption never overflow. */
    method Walk(t: Terms, quantity: int, market: Market) returns (fault: Option<Fault>, fill: Execution)
      requires ValidPolicy(policy) && ValidTerms(t) && t.leg.marketId in policy.fees && 0 <= quantity <= QUANTITY_LIMIT
      modifies this`consumed
      ensures fault == None
      ensures fill == Executed(t, policy.fees[t.leg.marketId], Takes(t, LevelsFor(market, t), old(consumed), quantity))
      ensures consumed == ConsumeAll(t, old(consumed), Takes(t, LevelsFor(market, t), old(consumed), quantity))
    {
      hide Takes, TakeAt, FillAt, ConsumeAll, Executed, LedgerOf, Visited, Fits, Fill, Acceptable;
      var fee := policy.fees[t.leg.marketId];
      var levels := LevelsFor(market, t);
      var fees := new FeeAccumulator(0);
      fill := NOTHING;
      fault := None;
      ghost var c0, done: seq<Take> := consumed, [];
      NothingExecuted(t, fee);
      WalkBegins(t, levels, fee, consumed, quantity);
      var i := 0;
      while i < |levels|
        invariant i <= |levels| && fault == None
        invariant Walking(t, levels, fee, c0, quantity, i, done, consumed, fill.quantity)
        invariant fill == Executed(t, fee, done) && fees.rounding as int == LedgerOf(t, fee, done).rounding
      {
        var price := OutcomePrice(t.leg, levels[i].price);
        if !Acceptable(t, price) {
          WalkStops(t, levels, fee, c0, quantity, i, done, consumed, fill.quantity);
          return;
        }
        WalkNext(t, levels, fee, c0, quantity, i, done, consumed, fill.quantity);
        var take := TakeAt(t, levels[i], consumed, quantity - fill.quantity);
        TakeFits(t, levels[i], consumed, quantity - fill.quantity);
        var size := take.trade.quantity;
        if size != 0 {
          ExecutedNext(t, fee, done, take);
          FitsSmall(!t.sell, size, price, fee, fees.rounding as int);
          var charge;
          if t.sell {
            charge := CreditSellFill(size, price, fee, fees);
            if charge.None? {
              return Some(SaleOverflow), fill;
            }
          } else {
            charge := ChargeBuyFill(size, price, fee, fees);
            if charge.None? {
              return Some(FillCharge), fill;
            }
          }
          if t.execute && Used(consumed, take.key) > INT64_MAX - size {
            return Some(LiquidityOverflow), fill;
          }
          fill := Execution(fill.quantity + size, fill.notional + charge.value.notional,
                            if t.sell then 0 else fill.debit + charge.value.change,
                            if t.sell then fill.credit + charge.value.change else 0, price, fill.levels + 1);
          consumed := Consume(t, consumed, take);
          done := done + [take];
          if fill.quantity >= quantity {
            return;
          }
        }
        i := i + 1;
      }
      WalkStops(t, levels, fee, c0, quantity, i, done, consumed, fill.quantity);
    }

    method ReserveFor(leg: PayoffLeg, quantity: int, price: Price) returns (fault: Option<Fault>, amount: int)
      requires ValidPolicy(policy) && leg.marketId in policy.fees && OnGrid(quantity, policy.step) && quantity <= QUANTITY_LIMIT
      ensures fault == None && amount == Reserve(quantity, policy.step, price, policy.fees[leg.marketId])
    {
      hide Reserve;
      ReservationExists(quantity, policy.step, price, policy.fees[leg.marketId]);
      var value := BuyReservation(quantity, policy.step, price, policy.fees[leg.marketId]);
      if value.None? {
        return Some(ReservationOverflow), 0;
      }
      return None, value.value;
    }

    /** The cash check of the source. */
    method CheckCash() returns (ok: bool)
      requires Consistent(policy, Books(), None) && ValidPolicy(policy)
      ensures ok
    {
      hide Consistent;
      AccountsHold(policy, Books(), None);
      CashConserved(policy, Books(), None);
      ok := available >= 0 && reservedTotal >= 0 && unconfirmedDebit >= 0 && unconfirmedCredit >= 0
        && available + reservedTotal - unconfirmedDebit + unconfirmedCredit == policy.capital - spent + settlementCash + exitCredit;
    }

    method Submit(attempt: nat, leg: nat, quantity: int, limit: Price, reservation: int, arrival: int, sell: bool)
      modifies this`events, this`orders
      ensures Books() == Submitted(old(Books()), Order(attempt, leg, quantity, limit, reservation, NOTHING, false, false, sell), arrival)
    {
      events := Insert(events, Event(arrival, |orders|, false));
      orders := orders + [Order(attempt, leg, quantity, limit, reservation, NOTHING, false, false, sell)];
    }

    // ----------------------------------------------------------------------
    // Exits
    // ----------------------------------------------------------------------

    /** Positions without their links hold what the positions hold. */
    lemma OwnedIsHeld(k: nat, leg: nat)
      requires Held() && Slot(k, leg) < |positions.positions|
      ensures Owned(Look(), k, leg) == positions.positions[Slot(k, leg)].quantity
    {
      positions.StockIsHeld(Slot(k, leg));
    }

    method QuoteExit(a: Attempt, k: nat, index: nat, excess: int, market: Market) returns (fault: Option<Fault>, quote: Execution)
      requires ValidPolicy(policy) && policy.exit.Some? && Tradable(policy, a.legs) && Held()
      requires Slot(k, 1) < |positions.positions| && index == ExcessLeg(a) && excess == Excess(a) <= QUANTITY_LIMIT
      modifies this`consumed
      ensures fault == None && consumed == old(consumed) && quote == ExitQuote(policy, Look(), a, k, market)
      ensures quote.quantity <= Excess(a) && OnGrid(quote.quantity, policy.step)
    {
      hide Takes, Executed, ConsumeAll, ValidFee, Held;
      OwnedIsHeld(k, index);
      var leg, owned := a.legs.At(index), positions.positions[k * 2 + index].quantity;
      var quantity := Min(excess, owned);
      var t := TermsOf(policy, leg, true, policy.exit.value.minimumPrice, false);
      SaleCredit(t, LevelsFor(market, t), consumed, quantity, policy.fees[leg.marketId]);
      QuoteTakesNothing(t, LevelsFor(market, t), consumed, quantity);
      fault, quote := Walk(t, quantity, market);
    }

    /** Once per attempt, when all of its buys are answered. */
    method ConsiderExit(k: nat, time: int, market: Market) returns (fault: Option<Fault>)
      requires Holds(None) && time == now && Settling(policy, Books(), Around(), k)
      modifies this`attempts, this`events, this`orders, this`consumed
      ensures fault == old(ExitFault(policy, Look(), attempts[k], k, time, market))
      ensures consumed == old(consumed)
      ensures fault.None? ==> Holds(None) && Left() <= old(Left()) && Books() == old(ExitOutcome(policy, Look(), Books(), k, time, market))
    {
      hide Steady, Held, ExecutionOf, Remaining, Submitted, TermsOf, Insert, Reserve, OrderFits, Tradable, ValidFee, ExitQuote,
        Positions.StudyPositions.Stocks, MarketStates.Live;
      fault := None;
      if policy.exit.None? {
        return;
      }
      if attempts[k].exitConsidered {
        return Some(DuplicateExit);
      }
      if attempts[k].pendingBuys != 0 {
        return Some(EarlyExit);
      }
      ExitDecidedStep(policy, Books(), Around(), now, k);
      var a, config := attempts[k], policy.exit.value;
      attempts := attempts[k := a.(exitConsidered := true)];
      assert Books() == ExitDecided(old(Books()), k);
      var difference := a.fills.first.quantity - a.fills.second.quantity;
      var index := if difference > 0 then 0 else 1;
      var leg := a.legs.At(index);
      if difference == 0 || !config.reduce {
        return;
      }
      if time < a.started || time - a.started > config.timeout || config.latency > config.timeout - (time - a.started) {
        return;
      }
      if leg.marketId in settledMarkets || !Fresh(policy, lastUpdate, leg, time, market) || market.generation != Some(a.generation) {
        return;
      }
      var quote;
      fault, quote := QuoteExit(a, k, index, if difference > 0 then difference else -difference, market);
      if fault.Some? || quote.quantity == 0 {
        return;
      }
      if time > INT64_MAX - config.latency {
        return Some(ExitClock);
      }
      ExitSentStep(policy, old(Books()), Around(), now, k, index, quote, time + config.latency);
      Submit(k, index, quote.quantity, quote.worstPrice, 0, time + config.latency, true);
    }

    // ----------------------------------------------------------------------
    // Completing the second leg
    // ----------------------------------------------------------------------

    /** A sequential attempt ends its purchases and may reduce what is left over. */
    method FinishAcquisition(k: nat, time: int, market: Market) returns (fault: Option<Fault>)
      requires Holds(Some(k)) && time == now && Settling(policy, Books(), Around(), k)
      modifies this`reservedTotal, this`available, this`attempts, this`events, this`orders, this`consumed
      ensures fault == old(ExitFault(policy, Look(), AcquisitionFinished(Books(), k).attempts[k], k, time, market))
      ensures consumed == old(consumed)
      ensures fault.None? ==>
        && Holds(None) && Left() <= old(Left())
        && Books() == old(ExitOutcome(policy, Look(), AcquisitionFinished(Books(), k), k, time, market))
    {
      hide Steady, Held, Remaining, ExitOutcome, ExitFault;
      AcquisitionFinishedStep(policy, Books(), Around(), now, k);
      var a := attempts[k];
      reservedTotal := reservedTotal - a.reserve.second;
      available := available + a.reserve.second;
      attempts := attempts[k := a.(reserve := a.reserve.With(1, 0))];
      assert Books() == AcquisitionFinished(old(Books()), k);
      fault := ConsiderExit(k, time, market);
    }

    method QuoteCompletion(a: Attempt, market: Market) returns (fault: Option<Fault>, quote: Execution)
      requires ValidPolicy(policy) && Tradable(policy, a.legs)
      requires 0 <= a.fills.first.quantity - a.fills.second.quantity <= QUANTITY_LIMIT
      requires OnGrid(a.fills.first.quantity - a.fills.second.quantity, policy.step)
      modifies this`consumed
      ensures fault == None && consumed == old(consumed) && quote == CompletionQuote(policy, Look(), a, market)
      ensures quote.quantity <= a.fills.first.quantity - a.fills.second.quantity && OnGrid(quote.quantity, policy.step)
    {
      hide Takes, Executed, ConsumeAll, Reserve;
      var remaining := a.fills.first.quantity - a.fills.second.quantity;
      var t := TermsOf(policy, a.legs.second, false, 10_000, false);
      BuyWithinReservation(t, LevelsFor(market, t), consumed, remaining, policy.fees[a.legs.second.marketId]);
      QuoteTakesNothing(t, LevelsFor(market, t), consumed, remaining);
      fault, quote := Walk(t, remaining, market);
    }

    /** What another order for the second leg would take and reserve, exactly when one is sent. */
    method PlanCompletion(k: nat, time: int, market: Market) returns (fault: Option<Fault>, quote: Execution, needed: Option<int>)
      requires Holds(Some(k)) && Settling(policy, Books(), Around(), k) && policy.sequential
      modifies this`consumed
      ensures fault == None && consumed == old(consumed)
      ensures needed.Some? <==> Completes(policy, Look(), Books(), k, time, market)
      ensures needed.Some? ==>
        && attempts[k].fills.first.quantity >= attempts[k].fills.second.quantity
        && quote == CompletionQuote(policy, Look(), attempts[k], market)
        && needed.value == CompletionReserve(policy, attempts[k], quote) && CompletionFits(policy, Books(), k, quote, needed.value)
    {
      hide Steady, Held, Remaining, CompletionQuote, Reserve, MarketStates.Live, Positions.StudyPositions.Stocks, ValidFee;
      SettlingFacts(policy, Books(), Around(), now, k);
      var a := attempts[k];
      var remaining := a.fills.first.quantity - a.fills.second.quantity;
      fault, quote, needed := None, NOTHING, None;
      if remaining <= 0 || time < a.started || time - a.started > policy.completionTimeout
        || policy.latency.second > policy.completionTimeout - (time - a.started)
        || a.completionOrders >= policy.maxCompletionOrders {
        return;
      }
      var leg := a.legs.second;
      if !Fresh(policy, lastUpdate, leg, time, market) || market.generation != Some(a.generation) || leg.marketId in settledMarkets {
        return;
      }
      fault, quote := QuoteCompletion(a, market);
      if fault.Some? || quote.quantity == 0 || !CompletionWorth(policy, a, quote) {
        return;
      }
      var amount;
      fault, amount := ReserveFor(leg, quote.quantity, quote.worstPrice);
      if fault.None? && amount <= available + a.reserve.second {
        needed := Some(amount);
      }
    }

    method CompleteSecond(k: nat, time: int, market: Market) returns (fault: Option<Fault>)
      requires Holds(Some(k)) && time == now && Settling(policy, Books(), Around(), k) && policy.sequential
      modifies this`reservedTotal, this`available, this`attempts, this`events, this`orders, this`consumed
      ensures fault == old(CompletionFault(policy, Look(), Books(), k, time, market))
      ensures consumed == old(consumed)
      ensures fault.None? ==>
        Holds(None) && Left() <= old(Left()) && Books() == old(CompletionOutcome(policy, Look(), Books(), k, time, market))
    {
      hide Steady, Held, Remaining, ExitOutcome, ExitFault, CompletionQuote, CompletionReserve, CompletionFits, Submitted, Completes,
        Positions.StudyPositions.Stocks;
      var quote, needed;
      fault, quote, needed := PlanCompletion(k, time, market);
      if fault.Some? {
        return;
      }
      if needed.None? {
        fault := FinishAcquisition(k, time, market);
        return;
      }
      fault := SendCompletion(k, quote, needed.value, time);
    }

    method SendCompletion(k: nat, quote: Execution, needed: int, time: int) returns (fault: Option<Fault>)
      requires Holds(Some(k)) && time == now && Settling(policy, Books(), Around(), k)
      requires CompletionFits(policy, Books(), k, quote, needed)
      modifies this`reservedTotal, this`available, this`attempts, this`orders, this`events
      ensures fault == if time > INT64_MAX - policy.latency.second then Some(CompletionClock) else None
      ensures fault.None? ==> Holds(None) && Left() < old(Left())
      ensures fault.None? ==>
        Books() == CompletionSent(old(Books()), k, quote.quantity, quote.worstPrice, needed, time + policy.latency.second)
    {
      hide Steady, Held, Remaining, Submitted, CompletionFits;
      fault := None;
      var a := attempts[k];
      reservedTotal := reservedTotal + (needed - a.reserve.second);
      available := available + (a.reserve.second - needed);
      attempts := attempts[k := a.(reserve := a.reserve.With(1, needed), completionOrders := a.completionOrders + 1,
                                   pendingBuys := a.pendingBuys + 1)];
      if time > INT64_MAX - policy.latency.second {
        return Some(CompletionClock);
      }
      CompletionSentStep(policy, old(Books()), Around(), now, k, quote, needed, time + policy.latency.second);
      Submit(k, 1, quote.quantity, quote.worstPrice, needed, time + policy.latency.second, false);
    }

    // ----------------------------------------------------------------------
    // Settlement
    // ----------------------------------------------------------------------

    /** The market is settled: what is held on it is closed. */
    method ClosePositions(x: Positions.Settlement) returns (fault: Option<Fault>, payout: int)
      requires Held() && now <= x.time <= INT64_MAX && 0 <= x.time
      modifies this`settlementIndex, this`settledMarkets, positions, positions.capitalTime
      ensures fault ==
        var f := Positions.SettleFault(old(positions.Stocks()), x, old(positions.capitalTime.Value()));
        if f.Some? then Some(PositionBound(f.value)) else None
      ensures fault.None? ==>
        && Positions.AcquiredBy(positions.lots, x.time) && positions.Valid() && positions.acquired == spent
        && Positions.SettledOn(old(positions.positions), positions.positions, x)
        && payout == Positions.SettledPayout(old(positions.Stocks()), x) >= 0
        && Positions.SameDates(old(positions.lots), positions.lots)
        && var m := old(Current());
           Current() == m.(index := m.index + 1, costTime := m.costTime + Positions.SettledCostTime(m.scene.stocks, x),
                           scene := m.scene.(settled := m.scene.settled + {x.marketId}, stocks := Positions.SettledStocks(m.scene.stocks, x)))
    {
      hide Positions.SettledPayout, Positions.SettledQuantity, Positions.SettledCostTime, Positions.SettledStocks, Positions.SettleFault,
        Positions.AcquiredBy, Positions.SameDates, Positions.StudyPositions.Stocks, Positions.StudyPositions.Valid, Positions.SettledOn,
        Positions.CapitalTime.Value;
      DatesPass(positions.lots, positions.lots, now, x.time);
      settlementIndex := settlementIndex + 1;
      settledMarkets := settledMarkets + {x.marketId};
      var failed, quantity;
      failed, quantity, payout := positions.Settle(x);
      fault := if failed.Some? then Some(PositionBound(failed.value)) else None;
      DatesPass(old(positions.lots), positions.lots, now, x.time);
    }

    /** The next settlement: its positions are closed and paid, whatever orders are under way. */
    method SettleMarket() returns (fault: Option<Fault>)
      requires Held() && Whole(policy, Books(), Around(), now, None) && settlementIndex < |policy.settlements|
      modifies this`settlementIndex, this`settledMarkets, this`settlementCash, this`available, this`now, positions, positions.capitalTime
      ensures fault == old(SettlementFault(policy, Current()))
      ensures fault.None? ==>
        && Current() == old(AfterSettlement(policy, Current()))
        && Held() && Whole(policy, Books(), Around(), now, None) && now == policy.settlements[old(settlementIndex)].time
        && Positions.SameDates(old(positions.lots), positions.lots) && Left() == old(Left()) - 1
    {
      hide Whole, Remaining, Positions.SettledPayout, Positions.SettledStocks, Positions.SettledCostTime, Positions.SettleFault,
        Positions.AcquiredBy, Positions.SameDates, Positions.SettledOn, Positions.StudyPositions.Valid, Positions.StudyPositions.Stocks,
        Positions.CapitalTime.Value, Paid, CashFault, Consistent, ValidPolicy;
      WholeSettlements(policy, Books(), Around(), now, None);
      var x := policy.settlements[settlementIndex];
      var payout;
      fault, payout := ClosePositions(x);
      if fault.Some? {
        return;
      }
      if CashFault(Books(), payout).None? {
        PaidStep(policy, Books(), old(Around()), Around(), now, x, payout);
        WholeIsConsistent(policy, Paid(Books(), payout), Around(), x.time, None);
      }
      now := x.time;
      fault := PayOut(payout);
    }

    method PayOut(payout: int) returns (fault: Option<Fault>)
      requires CashFault(Books(), payout).None? ==> ValidPolicy(policy) && Consistent(policy, Paid(Books(), payout), None)
      modifies this`settlementCash, this`available
      ensures fault == CashFault(old(Books()), payout)
      ensures fault.None? ==> Books() == Paid(old(Books()), payout)
    {
      hide Consistent, ValidPolicy;
      if payout > CASH_LIMIT - settlementCash || payout > CASH_LIMIT - available {
        return Some(SettlementCashBound);
      }
      settlementCash := settlementCash + payout;
      available := available + payout;
      var ok := CheckCash();
      if !ok {
        return Some(CashConservation);
      }
      return None;
    }

    // ----------------------------------------------------------------------
    // Responses
    // ----------------------------------------------------------------------

    /** The first event is a response: its reservation is released or its proceeds become
        available, and the attempt goes on. */
    method HandleResponse(market: Market) returns (fault: Option<Fault>)
      requires Holds(None) && EventReady(policy, Current()) && events[0].response
      requires SettlementsAhead(policy, settlementIndex, events[0].time)
      modifies this`events, this`orders, this`attempts, this`reservedTotal, this`unconfirmedDebit, this`unconfirmedCredit, this`available,
        this`now, this`consumed
      ensures fault == old(ResponseFault(policy, Current(), market))
      ensures fault.None? ==> Holds(None) && Left() < old(Left()) && now == old(events)[0].time
      ensures fault.None? ==> Current() == old(AfterResponse(policy, Current(), market))
    {
      hide Steady, Held, Remaining, CompletionOutcome, ExitOutcome, CompletionFault, ExitFault, OrderFits, SettlementsAhead;
      FirstEventFacts(policy, Books(), Around(), now);
      var x := orders[events[0].order];
      if !x.arrived || x.responded {
        return Some(ResponseLifecycle);
      }
      if x.sell {
        fault := AnswerSale();
      } else {
        fault := AnswerBuy(market);
      }
    }

    method AnswerSale() returns (fault: Option<Fault>)
      requires Holds(None) && events != [] && events[0].response && events[0].order < |orders| && orders[events[0].order].sell
      requires SettlementsAhead(policy, settlementIndex, events[0].time)
      modifies this`events, this`orders, this`unconfirmedCredit, this`available, this`now
      ensures fault == old(if orders[events[0].order].fill.credit > CASH_LIMIT - available then Some(AvailableExitBound) else None)
      ensures fault.None? ==> Holds(None) && Left() < old(Left()) && now == old(events)[0].time
      ensures fault.None? ==> Books() == old(SaleAnswered(Books().(events := events[1..]), events[0].order))
    {
      hide Steady, Remaining, Positions.AcquiredBy, Positions.StudyPositions.Valid, SettlementsAhead;
      FirstEventFacts(policy, Books(), Around(), now);
      SaleAnsweredStep(policy, Books(), Around(), now);
      TimeMoves(events[0].time);
      var event := events[0];
      events := events[1..];
      now := event.time;
      var x := orders[event.order];
      orders := orders[event.order := x.(responded := true)];
      if x.fill.credit > CASH_LIMIT - available {
        return Some(AvailableExitBound);
      }
      unconfirmedCredit := unconfirmedCredit - x.fill.credit;
      available := available + x.fill.credit;
      fault := ConfirmCash();
    }

    /** The response to a buy gives back what it did not spend. */
    method ReleaseReservation(i: nat, k: nat)
      requires Holds(None) && events != [] && events[0].response && events[0].order == i < |orders| && !orders[i].sell
      requires orders[i].attempt == k < |attempts| && attempts[k].pendingBuys > 0
      requires SettlementsAhead(policy, settlementIndex, events[0].time)
      modifies this`events, this`orders, this`attempts, this`reservedTotal, this`unconfirmedDebit, this`available, this`now
      ensures var s := old(Books()); Books() == BuyAnswered(s.(events := s.events[1..]), i)
      ensures k < |attempts| && now == old(events)[0].time && Holds(Some(k)) && Left() < old(Left())
      ensures policy.sequential || attempts[k].pendingBuys == 0 ==> Settling(policy, Books(), Around(), k)
      ensures !policy.sequential ==> Holds(None)
    {
      hide Steady, Remaining, Settling, Positions.AcquiredBy, Positions.StudyPositions.Valid, OrderFits, SettlementsAhead;
      BuyAnsweredStep(policy, Books(), Around(), now);
      FirstEventTime(policy, Books(), Around(), now);
      TimeMoves(events[0].time);
      now := events[0].time;
      events := events[1..];
      var x, a := orders[i], attempts[k];
      orders := orders[i := x.(responded := true)];
      reservedTotal := reservedTotal - x.reserve;
      unconfirmedDebit := unconfirmedDebit - x.fill.debit;
      available := available + (x.reserve - x.fill.debit);
      attempts := attempts[k := a.(pendingBuys := a.pendingBuys - 1, reserve := a.reserve.With(x.leg, 0))];
    }

    method AnswerBuy(market: Market) returns (fault: Option<Fault>)
      requires Holds(None) && EventReady(policy, Current()) && events[0].response && !orders[events[0].order].sell
      requires SettlementsAhead(policy, settlementIndex, events[0].time)
      modifies this`events, this`orders, this`attempts, this`reservedTotal, this`unconfirmedDebit, this`available, this`now, this`consumed
      ensures fault == old(ResponseFault(policy, Current(), market)) && consumed == old(consumed)
      ensures fault.None? ==> Holds(None) && Left() < old(Left()) && now == old(events)[0].time
      ensures fault.None? ==> Books() == old(Answered(policy, Current(), market))
    {
      hide Steady, Held, Remaining, CompletionOutcome, ExitOutcome, CompletionFault, ExitFault, SettlementsAhead, BuyAnswered, OrderFits;
      BuyAnsweredStep(policy, Books(), Around(), now);
      var event := events[0];
      var k := orders[event.order].attempt;
      if attempts[k].pendingBuys == 0 {
        return Some(ResponseCount);
      }
      ReleaseReservation(event.order, k);
      fault := None;
      if policy.sequential {
        fault := CompleteSecond(k, event.time, market);
      } else if attempts[k].pendingBuys == 0 {
        fault := ConsiderExit(k, event.time, market);
      }
      if fault.None? {
        fault := ConfirmCash();
      }
    }

    /** Time passes without acquisitions. */
    lemma TimeMoves(later: int)
      requires Held() && now <= later
      ensures Positions.AcquiredBy(positions.lots, later)
    {
      DatesPass(positions.lots, positions.lots, now, later);
    }

    method ConfirmCash() returns (fault: Option<Fault>)
      requires Holds(None)
      ensures fault == None
    {
      hide Consistent, EventsOk;
      WholeIsConsistent(policy, Books(), Around(), now, None);
      var ok := CheckCash();
      if !ok {
        return Some(CashConservation);
      }
      return None;
    }

    // ----------------------------------------------------------------------
    // Arrivals
    // ----------------------------------------------------------------------

    method ExecuteBuy(a: Attempt, x: Order, time: int, market: Market) returns (fault: Option<Fault>, fill: Execution)
      requires ValidPolicy(policy) && Tradable(policy, a.legs) && OrderFits(policy, a, x) && !x.sell
      modifies this`consumed
      ensures fault == None && fill == old(BuyFill(policy, Look(), a, x, time, market)) && FillsOrder(policy, x, fill)
      ensures consumed == old(BuyConsumption(policy, Look(), a, x, time, market))
      ensures fill.quantity == 0 ==> fill.debit == 0
      ensures fill.quantity > 0 ==> a.legs.At(x.leg).marketId !in settledMarkets
    {
      BuyFillFits(policy, Look(), a, x, time, market);
      hide Takes, Executed, ConsumeAll, Reserve;
      fault, fill := None, NOTHING;
      var leg := a.legs.At(x.leg);
      if !policy.reject.At(x.leg) && leg.marketId !in settledMarkets && market.generation == Some(a.generation)
        && Fresh(policy, lastUpdate, leg, time, market) {
        var t := TermsOf(policy, leg, false, x.limit, true);
        fault, fill := Walk(t, x.quantity, market);
      }
    }

    /** Books a purchase as a lot of its attempt; its bounds never decide. */
    method AcquireFill(k: nat, leg: nat, payoff: PayoffLeg, fill: Execution, time: int) returns (fault: Option<Fault>)
      requires positions.Valid() && Positions.AcquiredBy(positions.lots, time) && 0 <= time <= INT64_MAX
      requires leg < 2 && Slot(k, leg) < |positions.positions| && 0 <= fill.quantity && 0 <= fill.debit <= CASH_LIMIT
      requires positions.positions[Slot(k, leg)].quantity + fill.quantity <= QUANTITY_LIMIT && (fill.quantity == 0 ==> fill.debit == 0)
      modifies positions
      ensures fault == None && positions.Valid() && Positions.AcquiredBy(positions.lots, time)
      ensures positions.acquired == old(positions.acquired) + fill.debit
      ensures Grown(old(positions.positions), positions.positions, Slot(k, leg), payoff, fill.quantity)
      ensures positions.Stocks() == Stocked(old(positions.Stocks()), Slot(k, leg), payoff, fill, time)
    {
      hide Positions.AcquiredBy, Positions.StudyPositions.Stocks;
      fault := None;
      if fill.quantity != 0 {
        var failed := positions.Acquire(k, leg, payoff, fill.quantity, fill.debit, time);
        if failed.Some? {
          return Some(PositionBound(Positions.AcquisitionBound));
        }
      }
    }

    /** Charges a purchase to the accounts. Until its response is queued the order has no event. */
    method ChargePurchase(i: nat, x: Order, a: Attempt, fill: Execution) returns (fault: Option<Fault>)
      requires Holds(None) && events != [] && !events[0].response && events[0].order == i < |orders| && !x.sell
      requires orders[i] == x && x.attempt < |attempts| && attempts[x.attempt] == a && FillsOrder(policy, x, fill)
      modifies this`events, this`orders, this`attempts, this`spent, this`notional, this`unconfirmedDebit
      ensures fault == if fill.debit > CASH_LIMIT - old(spent) then Some(SpendingBound) else None
      ensures fault.None? ==> spent == old(spent) + fill.debit
      ensures fault.None? ==> var s := old(Books()); Books() == BuyArrived(s.(events := s.events[1..]), i, fill)
    {
      hide Steady, Held, Remaining, OrderFits, Consistent;
      FirstEventFacts(policy, Books(), Around(), now);
      PurchaseFits(policy, Books(), Around(), now, fill);
      if fill.debit > x.reserve {
        return Some(ReservationExceeded);
      }
      if fill.debit > CASH_LIMIT - spent {
        return Some(SpendingBound);
      }
      events := events[1..];
      orders := orders[i := x.(arrived := true, fill := fill)];
      attempts := attempts[x.attempt := a.(fills := a.fills.With(x.leg, Aggregated(a.fills.At(x.leg), fill)))];
      spent := spent + fill.debit;
      notional := notional + fill.notional;
      unconfirmedDebit := unconfirmedDebit + fill.debit;
      var ok := CheckCash();
      if !ok {
        return Some(CashConservation);
      }
      return None;
    }

    /** A buy has executed as `fill`: it is charged and booked, and its response is queued. */
    method ReceiveFill(event: Event, x: Order, a: Attempt, fill: Execution) returns (fault: Option<Fault>)
      requires Holds(None) && events != [] && !events[0].response && events[0] == event && event.order < |orders| && !x.sell
      requires orders[event.order] == x && x.attempt < |attempts| && attempts[x.attempt] == a && FillsOrder(policy, x, fill)
      requires (fill.quantity == 0 ==> fill.debit == 0) && (fill.quantity > 0 ==> a.legs.At(x.leg).marketId !in settledMarkets)
      requires SettlementsAhead(policy, settlementIndex, event.time) && Slot(x.attempt, x.leg) < |positions.positions|
      modifies this`events, this`orders, this`attempts, this`spent, this`notional, this`unconfirmedDebit, this`now, positions
      ensures fault == BuyFault(policy, old(Books()), x, fill, event.time)
      ensures fault.None? ==> Holds(None) && Left() < old(Left()) && now == event.time
      ensures fault.None? ==>
        && Books() == BuyArrived(old(Books().(events := Queued(policy, Books()))), event.order, fill)
        && positions.Stocks() == Stocked(old(positions.Stocks()), Slot(x.attempt, x.leg), a.legs.At(x.leg), fill, event.time)
    {
      hide Steady, Remaining, OrderFits, SettlementsAhead, Positions.AcquiredBy, Positions.StudyPositions.Valid, Grown, BuyArrived,
        ValidPolicy, FillsOrder, Consistent, Insert, Stocked, Positions.StudyPositions.Stocks;
      FirstEventFacts(policy, Books(), Around(), now);
      TimeMoves(event.time);
      PurchaseFits(policy, Books(), Around(), now, fill);
      fault := ChargePurchase(event.order, x, a, fill);
      if fault.Some? {
        return;
      }
      now := event.time;
      fault := AcquireFill(x.attempt, x.leg, a.legs.At(x.leg), fill, event.time);
      if fault.Some? {
        return;
      }
      var latency := policy.responseLatency.At(x.leg);
      if event.time > INT64_MAX - latency {
        return Some(ResponseClock);
      }
      BuyArrivedStep(policy, old(Books()), old(Around()), Around(), old(now), fill, event.time + latency);
      events := Insert(events, Event(event.time + latency, event.order, true));
      BuyArrivedQueue(old(Books()), event.order, fill, old(events)[1..], events);
    }

    /** A buy reaches the market: it spends at most its reservation, and its response is due. */
    method ArriveBuy(market: Market) returns (fault: Option<Fault>)
      requires Holds(None) && EventReady(policy, Current()) && !events[0].response && !orders[events[0].order].sell
      requires SettlementsAhead(policy, settlementIndex, events[0].time)
      modifies this`events, this`orders, this`attempts, this`spent, this`notional, this`unconfirmedDebit, this`now, this`consumed, positions
      ensures fault == old(ArrivalFault(policy, Current(), market))
      ensures fault.None? ==> Holds(None) && Left() < old(Left()) && now == old(events)[0].time
      ensures fault.None? ==> Current() == old(AfterBuy(policy, Current(), market))
    {
      hide Steady, Held, Remaining, BuyFill, BuyConsumption, OrderFits, SettlementsAhead, FillsOrder, BuyArrived, ValidPolicy, Stocked,
        Queued, Positions.StudyPositions.Stocks;
      FirstEventFacts(policy, Books(), Around(), now);
      var event := events[0];
      var x := orders[event.order];
      var a := attempts[x.attempt];
      var fill;
      fault, fill := ExecuteBuy(a, x, event.time, market);
      if fault.None? {
        fault := ReceiveFill(event, x, a, fill);
      }
    }

    method ExecuteSale(a: Attempt, x: Order, time: int, market: Market) returns (fault: Option<Fault>, fill: Execution)
      requires ValidPolicy(policy) && Tradable(policy, a.legs) && OrderFits(policy, a, x) && x.sell && Held()
      requires Slot(x.attempt, x.leg) < |positions.positions|
      modifies this`consumed
      ensures fault == None && fill == old(SaleFill(policy, Look(), a, x, time, market)) && FillsSale(x, fill)
      ensures consumed == old(SaleConsumption(policy, Look(), a, x, time, market))
      ensures fill.quantity <= positions.positions[Slot(x.attempt, x.leg)].quantity
    {
      SaleFillFits(policy, Look(), a, x, time, market);
      OwnedIsHeld(x.attempt, x.leg);
      hide Takes, Executed, ConsumeAll, Reserve, LevelsFor, LedgerOf, Held, Positions.StudyPositions.Stocks;
      fault, fill := None, NOTHING;
      var leg := a.legs.At(x.leg);
      if !policy.exit.value.reject && leg.marketId !in settledMarkets && market.generation == Some(a.generation)
        && Fresh(policy, lastUpdate, leg, time, market) {
        var owned := positions.positions[Slot(x.attempt, x.leg)].quantity;
        if owned != 0 {
          var t := TermsOf(policy, leg, true, x.limit, true);
          fault, fill := Walk(t, Min(owned, x.quantity), market);
        }
      }
    }

    /** Closes what an exit sold, oldest lots first; it is always owned. */
    method CloseSold(k: nat, leg: nat, quantity: int, time: int) returns (fault: Option<Fault>)
      requires positions.Valid() && Positions.AcquiredBy(positions.lots, time) && 0 <= time <= INT64_MAX
      requires leg < 2 && Slot(k, leg) < |positions.positions| && 0 <= quantity <= positions.positions[Slot(k, leg)].quantity
      modifies this`exitBasis, this`exitQuantity, positions, positions.capitalTime
      ensures var stocks, i := old(positions.Stocks()), Slot(k, leg);
        var closed, value := LotAccounting.CloseFifo(stocks[i].lots, quantity, time), old(positions.capitalTime.Value()) ;
        && fault == (if Positions.Overflows(value + closed.costTime) then Some(PositionBound(Positions.CapitalTimeOverflow)) else None)
        && (fault.None? ==>
              && positions.Valid() && Positions.AcquiredBy(positions.lots, time)
              && positions.acquired == old(positions.acquired) && exitBasis == old(exitBasis) + closed.released
              && exitQuantity == old(exitQuantity) + quantity
              && positions.Stocks() == stocks[i := stocks[i].(lots := closed.left)]
              && positions.capitalTime.Value() == value + closed.costTime
              && SoldFrom(old(positions.positions), positions.positions, i, quantity))
    {
      hide Positions.AcquiredBy, Positions.SameDates, Positions.StudyPositions.Valid, Positions.StudyPositions.Stocks,
        LotAccounting.CloseFifo, Positions.Overflows, Positions.CapitalTime.Value, LotAccounting.HeldQuantity;
      positions.StockIsHeld(Slot(k, leg));
      var failed, basis;
      failed, basis := positions.Close(k, leg, quantity, time);
      DatesPass(old(positions.lots), positions.lots, time, time);
      if failed.Some? {
        return Some(PositionBound(Positions.CapitalTimeOverflow));
      }
      exitBasis, exitQuantity := exitBasis + basis, exitQuantity + quantity;
      fault := None;
    }

    /** An exit has executed as `fill`: its lots are closed, and its credit awaits the response. */
    method ReceiveSale(event: Event, x: Order, fill: Execution) returns (fault: Option<Fault>)
      requires Holds(None) && events != [] && !events[0].response && events[0] == event && event.order < |orders| && x.sell
      requires orders[event.order] == x && x.leg < 2 && Slot(x.attempt, x.leg) < |positions.positions| && FillsSale(x, fill)
      requires fill.quantity <= positions.positions[Slot(x.attempt, x.leg)].quantity && policy.exit.Some?
      requires SettlementsAhead(policy, settlementIndex, event.time)
      modifies this`events, this`orders, this`exitCredit, this`exitFees, this`exitBasis, this`exitQuantity, this`unconfirmedCredit,
        this`now, positions, positions.capitalTime
      ensures fault == old(SaleFault(policy, Current(), x, fill, event.time))
      ensures fault.None? ==> Holds(None) && Left() < old(Left()) && now == event.time
      ensures fault.None? ==>
        var m, i := old(Current()), Slot(x.attempt, x.leg);
        var closed := LotAccounting.CloseFifo(m.scene.stocks[i].lots, fill.quantity, event.time);
        && Books() == SaleArrived(m.books.(events := Queued(policy, m.books)), event.order, fill)
        && positions.Stocks() == m.scene.stocks[i := m.scene.stocks[i].(lots := closed.left)]
        && positions.capitalTime.Value() == m.costTime + closed.costTime
        && exitBasis == m.exitBasis + closed.released && exitQuantity == m.exitQuantity + fill.quantity
    {
      hide Steady, Remaining, OrderFits, SettlementsAhead, Positions.AcquiredBy, Positions.StudyPositions.Valid, SaleArrived,
        ValidPolicy, Consistent, SoldFrom, FillsSale, Insert, Queued, Positions.StudyPositions.Stocks, Positions.Overflows,
        LotAccounting.CloseFifo, Positions.CapitalTime.Value;
      FirstEventTime(policy, Books(), Around(), now);
      TimeMoves(event.time);
      if fill.credit > CASH_LIMIT - exitCredit || fill.notional - fill.credit > CASH_LIMIT - exitFees {
        return Some(ExitCashBound);
      }
      now := event.time;
      fault := CloseSold(x.attempt, x.leg, fill.quantity, event.time);
      if fault.Some? {
        return;
      }
      SaleArrivedParts(policy, old(Books()), old(Around()), old(now), fill);
      fault := CreditSale(event, x, fill);
      if fault.None? {
        SaleArrivedStep(policy, old(Books()), old(Around()), Around(), old(now), fill, event.time + policy.exit.value.responseLatency);
      }
    }

    /** Credits a sale to the accounts and queues its response. */
    method CreditSale(event: Event, x: Order, fill: Execution) returns (fault: Option<Fault>)
      requires events != [] && events[0] == event && event.order < |orders| && orders[event.order] == x && ValidPolicy(policy)
      requires var s := Books(); Consistent(policy, SaleArrived(s.(events := s.events[1..]), event.order, fill), None)
      requires policy.exit.Some? && x.sell
      modifies this`events, this`orders, this`exitCredit, this`exitFees, this`unconfirmedCredit
      ensures fault == if event.time > INT64_MAX - policy.exit.value.responseLatency then Some(ExitResponseClock) else None
      ensures fault.None? ==>
        var s := old(Books());
        var response := Event(event.time + policy.exit.value.responseLatency, event.order, true);
        && Books() == SaleArrived(s.(events := Insert(s.events[1..], response)), event.order, fill)
        && Queued(policy, s) == Insert(s.events[1..], response)
    {
      hide Consistent, Insert;
      events := events[1..];
      orders := orders[event.order := x.(arrived := true, fill := fill)];
      exitCredit := exitCredit + fill.credit;
      exitFees := exitFees + (fill.notional - fill.credit);
      unconfirmedCredit := unconfirmedCredit + fill.credit;
      var ok := CheckCash();
      if !ok {
        return Some(CashConservation);
      }
      var latency := policy.exit.value.responseLatency;
      if event.time > INT64_MAX - latency {
        return Some(ExitResponseClock);
      }
      events := Insert(events, Event(event.time + latency, event.order, true));
      return None;
    }

    method ArriveSale(market: Market) returns (fault: Option<Fault>)
      requires Holds(None) && EventReady(policy, Current()) && !events[0].response && orders[events[0].order].sell
      requires SettlementsAhead(policy, settlementIndex, events[0].time)
      modifies this`events, this`orders, this`exitCredit, this`exitFees, this`exitBasis, this`exitQuantity, this`unconfirmedCredit,
        this`now, this`consumed, positions, positions.capitalTime
      ensures fault == old(ArrivalFault(policy, Current(), market))
      ensures fault.None? ==> Holds(None) && Left() < old(Left()) && now == old(events)[0].time
      ensures fault.None? ==> Current() == old(AfterSale(policy, Current(), market))
    {
      hide Steady, Held, Remaining, SaleFill, SaleConsumption, SettlementsAhead, FillsSale, SaleArrived, ValidPolicy, Reserve, SaleFault,
        Queued, Positions.StudyPositions.Stocks, LotAccounting.CloseFifo, Positions.CapitalTime.Value;
      FirstEventFacts(policy, Books(), Around(), now);
      var event := events[0];
      var x := orders[event.order];
      var fill;
      fault, fill := ExecuteSale(attempts[x.attempt], x, event.time, market);
      if fault.None? {
        SaleFaultFrame(policy, old(Current()), Current(), x, fill, event.time);
        fault := ReceiveSale(event, x, fill);
      }
    }

    /** The first event is an arrival: the order executes, and its response is queued. */
    method HandleArrival(market: Market) returns (fault: Option<Fault>)
      requires Holds(None) && EventReady(policy, Current()) && !events[0].response
      requires SettlementsAhead(policy, settlementIndex, events[0].time)
      modifies this`events, this`orders, this`attempts, this`spent, this`notional, this`unconfirmedDebit, this`exitCredit, this`exitFees,
        this`exitBasis, this`exitQuantity, this`unconfirmedCredit, this`now, this`consumed, positions, positions.capitalTime
      ensures fault == old(ArrivalFault(policy, Current(), market))
      ensures fault.None? ==> Holds(None) && Left() < old(Left()) && now == old(events)[0].time
      ensures fault.None? ==> Current() == old(AfterArrival(policy, Current(), market))
    {
      hide Steady, Held, Remaining, AfterBuy, AfterSale, ArrivalFault, OrderFits, SettlementsAhead;
      FirstEventFacts(policy, Books(), Around(), now);
      var x := orders[events[0].order];
      if x.arrived {
        return Some(DuplicateArrival);
      }
      if x.sell {
        fault := ArriveSale(market);
      } else {
        fault := ArriveBuy(market);
      }
    }

    // ----------------------------------------------------------------------
    // The event loop
    // ----------------------------------------------------------------------

    /** Nothing up to `time` is left to process; events at that time wait unless `inclusive`. */
    ghost predicate DrainedTo(time: int, inclusive: bool)
      reads this`events, this`settlementIndex, this`now
    {
      && now == time
      && (events != [] ==> if inclusive then events[0].time > time else events[0].time >= time)
      && (settlementIndex < |policy.settlements| ==> policy.settlements[settlementIndex].time > time)
    }

    /** Processes settlements and order events in time order; a settlement goes first at equal
        times. `trace` lists every moment, each the exact outcome of the one before. It ends with
        nothing due, or with a step that breaks exactly the bound reported. The loop ends although
        it may send new orders that are due at once. */
    method Drain(time: int, inclusive: bool, market: Market) returns (fault: Option<Fault>, ghost trace: seq<Moment>)
      requires Holds(None) && time <= INT64_MAX
      modifies this, positions, positions.capitalTime
      ensures Traced(policy, market, time, inclusive, trace) && trace[0] == old(Current())
      ensures fault.None? ==> trace[|trace| - 1] == Current() && !Due(policy, Current(), time, inclusive)
      ensures fault.Some? ==> BoundFault(fault.value) && FailsAt(policy, market, time, inclusive, trace[|trace| - 1], fault)
      ensures fault.None? ==> Holds(None) && unobserved == old(unobserved) && lastUpdate == old(lastUpdate) && attempted == old(attempted)
      ensures fault.None? ==> now == Max(time, old(now)) && (old(now) <= time ==> DrainedTo(time, inclusive))
    {
      hide Steady, Held, Remaining, BoundFault, SettlementsAhead, ValidPolicy, Whole, EventsOk, Stepped, FaultOf, Outcome, Ready, EventReady;
      trace := [Current()];
      while true
        invariant Holds(None) && now <= Max(time, old(now)) && unobserved == old(unobserved) && lastUpdate == old(lastUpdate)
        invariant attempted == old(attempted) && old(now) <= now
        invariant Traced(policy, market, time, inclusive, trace) && trace[0] == old(Current()) && trace[|trace| - 1] == Current()
        decreases Left()
      {
        LoopFacts(policy, Books(), Around(), now);
        var settlementDue := settlementIndex < |policy.settlements| && policy.settlements[settlementIndex].time <= time;
        var orderDue := events != [] && (events[0].time < time || (inclusive && events[0].time == time));
        if !settlementDue && !orderDue {
          break;
        }
        ghost var m := Current();
        ReadyNow(time, inclusive);
        FaultIsBound(policy, m, market);
        if settlementDue && (!orderDue || policy.settlements[settlementIndex].time <= events[0].time) {
          fault := SettleNext(market);
        } else {
          fault := HandleEvent(market);
        }
        if fault.Some? {
          return;
        }
        StepTaken(policy, market, time, inclusive, m, Current());
        TraceGrows(policy, market, time, inclusive, trace, Current());
        trace := trace + [Current()];
        LoopFacts(policy, Books(), Around(), now);
      }
      if time >= now {
        Rest(time);
      }
      fault := None;
    }

    /** Whatever is due can be processed. */
    lemma ReadyNow(time: int, inclusive: bool)
      requires Holds(None) && Due(policy, Current(), time, inclusive)
      ensures Ready(policy, Current())
    {
      hide Steady, Held, OrderFits;
      if !SettlesNext(policy, Current()) {
        EventIsReady();
      }
    }

    lemma EventIsReady()
      requires Holds(None) && events != []
      ensures EventReady(policy, Current())
    {
      hide Steady, Held, OrderFits;
      FirstEventFacts(policy, Books(), Around(), now);
      FirstEventPends(policy, Books(), Around(), now);
    }

    /** Nothing more is due until `time`. */
    ghost method Rest(time: int)
      requires Holds(None) && now <= time <= INT64_MAX
      requires events != [] ==> time <= events[0].time
      requires settlementIndex < |policy.settlements| ==> time <= policy.settlements[settlementIndex].time
      modifies this`now
      ensures Holds(None) && now == time
    {
      hide Steady, Positions.AcquiredBy, Positions.StudyPositions.Valid, Remaining, SettlementsAhead, ValidPolicy, Whole, EventsOk;
      LoopFacts(policy, Books(), Around(), now);
      SettlementsAfter(policy, settlementIndex, time);
      SteadyLater(policy, Books(), Around(), now, time);
      HeldLater(time);
      now := time;
    }

    /** The first event, which is earlier than the next settlement. */
    method HandleEvent(market: Market) returns (fault: Option<Fault>)
      requires Holds(None) && Ready(policy, Current()) && !SettlesNext(policy, Current())
      modifies this, positions, positions.capitalTime
      ensures fault == old(FaultOf(policy, Current(), market))
      ensures fault.None? ==> Current() == old(Outcome(policy, Current(), market))
      ensures fault.None? ==>
        && Holds(None) && Left() < old(Left()) && now == old(events)[0].time && unobserved == old(unobserved)
        && lastUpdate == old(lastUpdate) && attempted == old(attempted)
    {
      hide Steady, Held, Remaining, AfterResponse, AfterArrival, ResponseFault, ArrivalFault, SettlementsAhead, ValidPolicy, EventReady,
        Outcome, FaultOf, Ready, Whole, EventsOk;
      LoopFacts(policy, Books(), Around(), now);
      EventIsNext(policy, Current(), market);
      SettlementsAfter(policy, settlementIndex, events[0].time);
      if events[0].response {
        fault := HandleResponse(market);
      } else {
        fault := HandleArrival(market);
      }
    }

    /** A settlement that is not later than the first event. */
    method SettleNext(ghost market: Market) returns (fault: Option<Fault>)
      requires Holds(None) && SettlesNext(policy, Current())
      modifies this, positions, positions.capitalTime
      ensures fault == old(FaultOf(policy, Current(), market))
      ensures fault.None? ==> Current() == old(Outcome(policy, Current(), market))
      ensures fault.None? ==>
        && Holds(None) && Left() < old(Left()) && now == policy.settlements[old(settlementIndex)].time
        && unobserved == old(unobserved) && lastUpdate == old(lastUpdate) && attempted == old(attempted)
    {
      hide Whole, Held, Remaining, BoundFault, SettlementFault, AfterSettlement;
      LoopFacts(policy, Books(), Around(), now);
      fault := SettleMarket();
      if fault.None? {
        PaidQueue(policy, old(Current()));
        TimePasses(orders, events, old(now), now);
      }
    }

    lemma HeldLater(later: int)
      requires Held() && now <= later
      ensures positions.Valid() && positions.acquired == spent && Positions.AcquiredBy(positions.lots, later)
    {
      DatesPass(positions.lots, positions.lots, now, later);
    }

    /** All observations at a time precede the simulated arrivals at that time. */
    method Before(time: int, market: Market) returns (fault: Option<Fault>, ghost trace: seq<Moment>)
      requires Holds(None) && time <= INT64_MAX
      modifies this, positions, positions.capitalTime
      ensures Traced(policy, market, time, false, trace) && trace[0] == old(Current())
      ensures fault.None? ==> trace[|trace| - 1] == Current() && !Due(policy, Current(), time, false)
      ensures fault.Some? ==> BoundFault(fault.value) && FailsAt(policy, market, time, false, trace[|trace| - 1], fault)
      ensures fault.None? ==> Holds(None) && unobserved == old(unobserved) && lastUpdate == old(lastUpdate) && attempted == old(attempted)
      ensures fault.None? ==> now == Max(time, old(now)) && (old(now) <= time ==> DrainedTo(time, false))
    {
      fault, trace := Drain(time, false, market);
    }

    // ----------------------------------------------------------------------
    // Decisions
    // ----------------------------------------------------------------------

    /** The depth that sizing sees: exactly the fills that a buy of the whole quantity cap would
        take now. */
    method Depth(leg: PayoffLeg, market: Market) returns (levels: seq<DepthWalk.BuyLevel>)
      requires ValidPolicy(policy)
      ensures levels == DepthOf(Takes(BuyTerms(policy, leg), LevelsFor(market, BuyTerms(policy, leg)), consumed, policy.quantityCap))
    {
      hide Takes, DepthOf, Visited, TakeAt;
      var t := BuyTerms(policy, leg);
      var all := LevelsFor(market, t);
      ghost var done: seq<Take> := [];
      var total: int := 0;
      var cap := policy.quantityCap / policy.step * policy.step;
      FloorToGrid(policy.quantityCap, policy.step);
      levels := [];
      DepthOfNothing();
      DepthBegins(t, all, consumed, policy.quantityCap);
      var i := 0;
      while i < |all| && total < cap
        invariant i <= |all| && Sizing(t, all, consumed, policy.quantityCap, i, done, total) && levels == DepthOf(done)
      {
        var price := OutcomePrice(leg, all[i].price);
        var used := Used(consumed, Key(leg.marketId, leg.yes, price));
        var left := if all[i].quantity > used then all[i].quantity - used else 0;
        var take := Min(left, policy.quantityCap - total) / policy.step * policy.step;
        SizingNext(t, all, consumed, policy.quantityCap, i, done, total);
        DepthNext(t, all[i], consumed, policy.quantityCap - total);
        if take != 0 {
          DepthOfAppend(done, TakeAt(t, all[i], consumed, policy.quantityCap - total));
          levels := levels + [DepthWalk.BuyLevel(price, take)];
          done := done + [TakeAt(t, all[i], consumed, policy.quantityCap - total)];
          total := total + take;
        }
        i := i + 1;
      }
      SizingEnds(t, all, consumed, policy.quantityCap, i, done, total);
    }

    /** The optimal size of both legs on what is left of the books, or what the search found
        instead. It faults exactly when the available cash exceeds what sizing accepts. */
    method OptimalQuote(legs: Legs<PayoffLeg>, market: Market) returns (fault: Option<Fault>, result: NetSizing.SizingResult)
      requires ValidPolicy(policy) && Tradable(policy, legs) && Fit(market) && available >= 0
      ensures fault == (if available > CASH_LIMIT then Some(SizingInput) else None)
      ensures fault.None? ==>
        && PairOptimum.ValidInput(DepthsOf(policy, consumed, legs, market), LimitsFor(policy, available))
        && NetSizing.Answer(DepthsOf(policy, consumed, legs, market), LimitsFor(policy, available), result)
    {
      hide Takes, DepthOf, PairOptimum.IsOptimum, PairOptimum.Candidate, PairOptimum.Covered, LevelsFor;
      var first := Depth(legs.first, market);
      var second := Depth(legs.second, market);
      var pair := PairOptimum.Pair(DepthWalk.BuyDepth(first, policy.fees[legs.first.marketId]),
                                   DepthWalk.BuyDepth(second, policy.fees[legs.second.marketId]));
      DepthIsValid(policy, legs.first, market, consumed);
      DepthIsValid(policy, legs.second, market, consumed);
      result := NetSizing.SizeBuyPair(pair, LimitsFor(policy, available));
      fault := if result.status == DepthWalk.InvalidInput || result.status == DepthWalk.ArithmeticError then Some(SizingInput) else None;
    }

    /** Charges and submits one leg of a decision. */
    method SendLeg(index: nat, leg: nat, a: Attempt, time: int) returns (fault: Option<Fault>, sent: nat)
      requires leg < 2
      modifies this`events, this`orders, this`available, this`reservedTotal
      ensures fault == (if time > INT64_MAX - policy.latency.At(leg) then Some(ArrivalClock) else None)
      ensures fault.None? ==>
        && sent == (if !policy.sequential || leg == 0 then 1 else 0)
        && var s := old(Books());
           var x := Order(index, leg, a.quantity, a.limit.At(leg), a.reserve.At(leg), NOTHING, false, false, false);
           var t := if sent == 1 then Submitted(s, x, time + policy.latency.At(leg)) else s;
           Books() == t.(available := s.available - a.reserve.At(leg), reservedTotal := s.reservedTotal + a.reserve.At(leg))
    {
      hide Submitted;
      sent := 0;
      if time > INT64_MAX - policy.latency.At(leg) {
        return Some(ArrivalClock), sent;
      }
      ghost var s := Books();
      if !policy.sequential || leg == 0 {
        Submit(index, leg, a.quantity, a.limit.At(leg), a.reserve.At(leg), time + policy.latency.At(leg), false);
        sent := 1;
      }
      ghost var t := Books();
      available := available - a.reserve.At(leg);
      reservedTotal := reservedTotal + a.reserve.At(leg);
      assert Books() == t.(available := t.available - a.reserve.At(leg), reservedTotal := t.reservedTotal + a.reserve.At(leg));
      SubmittedCash(s, Order(index, leg, a.quantity, a.limit.At(leg), a.reserve.At(leg), NOTHING, false, false, false), time + policy.latency.At(leg));
      return None, sent;
    }

    /** Evaluates one constraint: if its legs can be bought and sizing finds an optimum, both
        reservations are set aside and the attempt's orders are sent. */
    method Decide(id: nat, time: int, market: Market) returns (fault: Option<Fault>, ghost d: Decision)
      requires Holds(None) && id in compiledLegs && id !in attempted && now <= time <= INT64_MAX && Fit(market)
      modifies this`events, this`orders, this`available, this`reservedTotal, this`attempts, this`attempted
      ensures fault.Some? ==> fault == Some(SizingInput) || fault == Some(ArrivalClock)
      ensures fault == Some(SizingInput) <==> Decidable(policy, Look(), compiledLegs[id], time, market) && old(available) > CASH_LIMIT
      ensures fault != Some(SizingInput) ==> Justified(policy, Look(), old(available), id, compiledLegs[id], false, d, time, market)
      ensures fault == Some(ArrivalClock) <==> fault != Some(SizingInput) && d.attempt.Some? && Late(policy, time)
      ensures fault.None? ==>
        && Holds(None) && attempted == (if d.attempt.Some? then old(attempted) + {id} else old(attempted))
        && Books() == if d.attempt.Some? then Decided(policy, old(Books()), d.attempt.value, time) else old(Books())
      ensures fault.None? && d.attempt.Some? ==> d.attempt.value.id == id
    {
      hide Steady, Held, Takes, DepthOf, LevelsFor, Decided, PairOptimum.IsOptimum, PairOptimum.ValidInput, Fit, DepthsOf,
        NewAttempt, PairOptimum.Candidate, Late;
      d := UNDECIDED;
      var legs := compiledLegs[id];
      if !Fresh(policy, lastUpdate, legs.first, time, market) || !Fresh(policy, lastUpdate, legs.second, time, market) {
        return None, d;
      }
      if legs.first.marketId in settledMarkets || legs.second.marketId in settledMarkets {
        return None, d;
      }
      DecisionFacts(policy, Books(), Around(), now, id);
      var result;
      fault, result := OptimalQuote(legs, market);
      if fault.Some? {
        return;
      }
      FreshIsConnected(market);
      d := Decision(Some(result), None);
      if result.quote.None? {
        return;
      }
      var q := result.quote.value;
      var a := Attempt(id, legs, market.generation.value, q.quantity, Legs(q.first.limit, q.second.limit),
                       Legs(q.first.reservation, q.second.reservation), Legs(NOTHING, NOTHING), time, 0, 0, false);
      d := Decision(Some(result), Some(a));
      DepthFees(policy, consumed, legs, market);
      OptimumFits(policy, legs, DepthsOf(policy, consumed, legs, market), available, q, id, market.generation.value, time);
      fault := SendAttempt(a, id, time);
    }

    /** Sets both reservations aside and sends the attempt's orders. */
    method SendAttempt(a: Attempt, id: nat, time: int) returns (fault: Option<Fault>)
      requires Holds(None) && id in compiledLegs && id !in attempted && now <= time <= INT64_MAX
      requires NewAttempt(policy, a) && a.reserve.first + a.reserve.second <= available
      modifies this`events, this`orders, this`available, this`reservedTotal, this`attempts, this`attempted
      ensures fault == if Late(policy, time) then Some(ArrivalClock) else None
      ensures fault.None? ==> Holds(None) && attempted == old(attempted) + {id} && Books() == Decided(policy, old(Books()), a, time)
    {
      hide Steady, Held, Decided, NewAttempt, LegsSent;
      var sent;
      fault, sent := SendLegs(a, time);
      if fault.Some? {
        return;
      }
      attempted := attempted + {id};
      attempts := attempts + [a.(pendingBuys := sent)];
      DecidedParts(policy, old(Books()), a, time);
      DecidedStep(policy, old(Books()), old(Around()), now, a, time, id);
      fault := ConfirmCash();
    }

    method SendLegs(a: Attempt, time: int) returns (fault: Option<Fault>, sent: nat)
      modifies this`events, this`orders, this`available, this`reservedTotal
      ensures fault == if Late(policy, time) then Some(ArrivalClock) else None
      ensures fault.None? ==> sent == (if policy.sequential then 1 else 2) && Books() == LegsSent(policy, old(Books()), a, time)
    {
      hide Submitted;
      var index, first, second := |attempts|, 0, 0;
      fault, first := SendLeg(index, 0, a, time);
      if fault.Some? {
        return fault, 0;
      }
      fault, second := SendLeg(index, 1, a, time);
      sent := first + second;
      SubmittedCash(old(Books()), FirstOrder(old(Books()), a, 0), time + policy.latency.first);
    }

    // ----------------------------------------------------------------------
    // Observations
    // ----------------------------------------------------------------------

    /** Every market lists the constraints that it is a leg of, and no others. */
    ghost predicate Wired() {
      Indexed(dependencies, compiledLegs)
    }

    /** An applied update is recorded, and every constraint on its market that has no attempt
        yet is decided, in order, each on the cash that the earlier ones left. */
    method After(marketId: Option<nat>, applied: bool, time: int, market: Market) returns (fault: Option<Fault>, ghost ds: seq<Decision>)
      requires Holds(None) && Wired() && now <= time <= INT64_MAX && Fit(market)
      modifies this`lastUpdate, this`events, this`orders, this`available, this`reservedTotal, this`attempts, this`attempted
      ensures lastUpdate == if marketId.Some? && applied then old(lastUpdate)[marketId.value := time] else old(lastUpdate)
      ensures var ids := if marketId.Some? && applied && marketId.value in dependencies then dependencies[marketId.value] else [];
        && Decisions(policy, compiledLegs, Look(), old(Books()), old(attempted), ids, ds, time, market)
        && if fault.None? then
             Holds(None) && |ds| == |ids| && Books() == AllDecided(policy, old(Books()), ds, time)
             && forall id :: id in attempted <==> Known(id, old(attempted), ds)
           else Stops(policy, compiledLegs, Look(), old(Books()), old(attempted), ids, ds, time, market, fault)
    {
      hide Steady, Held, Considered, Stops, Known, Fit, Indexed;
      ds := [];
      NothingDecided(policy, Books(), time);
      NothingKnown(attempted);
      if marketId.None? || !applied {
        return None, ds;
      }
      lastUpdate := lastUpdate[marketId.value := time];
      if marketId.value !in dependencies {
        return None, ds;
      }
      ListedIsCompiled(dependencies, compiledLegs, marketId.value);
      fault, ds := DecideAll(dependencies[marketId.value], time, market);
    }

    method DecideAll(ids: seq<nat>, time: int, market: Market) returns (fault: Option<Fault>, ghost ds: seq<Decision>)
      requires Holds(None) && now <= time <= INT64_MAX && Fit(market) && forall i :: 0 <= i < |ids| ==> ids[i] in compiledLegs
      modifies this`events, this`orders, this`available, this`reservedTotal, this`attempts, this`attempted
      ensures Decisions(policy, compiledLegs, Look(), old(Books()), old(attempted), ids, ds, time, market)
      ensures if fault.None? then
                Holds(None) && |ds| == |ids| && Books() == AllDecided(policy, old(Books()), ds, time)
                && forall id :: id in attempted <==> Known(id, old(attempted), ds)
              else Stops(policy, compiledLegs, Look(), old(Books()), old(attempted), ids, ds, time, market, fault)
    {
      hide Steady, Held, AllDecided, Known, Considered, Decidable, Fit, Stops;
      ds := [];
      NothingDecided(policy, Books(), time);
      NothingKnown(attempted);
      ghost var s, before := Books(), attempted;
      var i := 0;
      while i < |ids|
        invariant i <= |ids| && Holds(None) && |ds| == i && Books() == AllDecided(policy, s, ds, time)
        invariant forall id :: id in attempted <==> Known(id, before, ds)
        invariant forall k :: 0 <= k < i ==> Considered(policy, Look(), s, before, compiledLegs[ids[k]], ids[k], ds, k, time, market)
      {
        ghost var d;
        fault, d := DecideOnce(ids, i, time, market, s, before, ds);
        if fault.Some? {
          return;
        }
        forall k | 0 <= k < i ensures Considered(policy, Look(), s, before, compiledLegs[ids[k]], ids[k], ds + [d], k, time, market) {
          ConsideredStays(policy, Look(), s, before, compiledLegs[ids[k]], ids[k], ds, d, k, time, market);
        }
        ds := ds + [d];
        i := i + 1;
      }
      fault := None;
    }

    /** Decides one constraint unless it has an attempt. */
    method DecideOnce(ids: seq<nat>, i: nat, time: int, market: Market, ghost s: Account, ghost before: set<nat>, ghost ds: seq<Decision>)
      returns (fault: Option<Fault>, ghost d: Decision)
      requires Holds(None) && now <= time <= INT64_MAX && Fit(market) && i == |ds| < |ids| && ids[i] in compiledLegs
      requires Books() == AllDecided(policy, s, ds, time) && forall id :: id in attempted <==> Known(id, before, ds)
      modifies this`events, this`orders, this`available, this`reservedTotal, this`attempts, this`attempted
      ensures fault.Some? ==> Stops(policy, compiledLegs, Look(), s, before, ids, ds, time, market, fault)
      ensures fault.None? ==> Holds(None) && Books() == AllDecided(policy, s, ds + [d], time)
      ensures fault.None? ==> forall id :: id in attempted <==> Known(id, before, ds + [d])
      ensures fault.None? ==> Considered(policy, Look(), s, before, compiledLegs[ids[i]], ids[i], ds + [d], i, time, market)
    {
      hide Steady, Held, Decided, NewAttempt, Fit, Decidable, Searched, Considered, AllDecided, Known, Late;
      var id := ids[i];
      fault, d := None, UNDECIDED;
      ghost var known := id in attempted;
      if id !in attempted {
        fault, d := Decide(id, time, market);
        if fault.Some? {
          return;
        }
      }
      NextDecided(policy, s, ds, d, time);
      forall id ensures Known(id, before, ds + [d]) <==> Known(id, before, ds) || (d.attempt.Some? && d.attempt.value.id == id) {
        NextKnown(before, ds, d, id);
      }
      ConsideredNow(policy, Look(), s, before, compiledLegs[id], id, ds, d, time, market);
    }

    /** The end of the observations: what has not arrived or been answered by then stays unknown
        and keeps its reservation, and the remaining settlements are paid, as `rest` lists them.
        Exactly one event was pending per unknown order. */
    method Finish(time: int, market: Market) returns (fault: Option<Fault>, ghost trace: seq<Moment>, ghost rest: seq<Moment>)
      requires Holds(None) && now <= time <= INT64_MAX
      modifies this, positions, positions.capitalTime
      ensures Traced(policy, market, time, true, trace) && trace[0] == old(Current())
      ensures fault.Some? ==>
        || FailsAt(policy, market, time, true, trace[|trace| - 1], fault)
        || (rest != [] && FailsAt(policy, market, INT64_MAX, true, rest[|rest| - 1], fault))
        || (fault == Some(PositionBound(Positions.CapitalTimeOverflow)) && Positions.Overflows(positions.IntegralAt(time)))
      ensures fault.None? ==>
        && !Due(policy, trace[|trace| - 1], time, true)
        && Traced(policy, market, INT64_MAX, true, rest) && rest[0] == (var m := trace[|trace| - 1]; m.(books := m.books.(events := [])))
        && Current() == rest[|rest| - 1].(costTime := positions.IntegralAt(time)) && settlementIndex == |policy.settlements|
      ensures fault.None? ==>
        && Whole(policy, Books(), Around(), now, None) && events == [] && positions.acquired == spent
        && orders == trace[|trace| - 1].books.orders && unobserved - old(unobserved) == Sum(orders, Waiting)
    {
      hide Steady, Whole, Remaining, EventsOk, Consistent, DrainedTo, Positions.AcquiredBy, Positions.SameDates,
        Positions.StudyPositions.Valid, Positions.StudyPositions.Stocks, Stepped, Due, FailsAt, Positions.Overflows, Positions.CapitalTime.Value;
      fault, trace := Drain(time, true, market);
      rest := [];
      if fault.Some? {
        return;
      }
      LoopFacts(policy, Books(), Around(), now);
      DrainedAt(time);
      OneEventEach(orders, events, now);
      WholeQueue(policy, Books(), Around(), now, []);
      DropEvents();
      fault, rest := SettleRest(time, market);
      if fault.Some? {
        return;
      }
      var failed := positions.Finish(time);
      if failed.Some? {
        fault := Some(PositionBound(Positions.CapitalTimeOverflow));
      }
    }

    /** The final report: what the attempts guarantee and how many are complete or unbalanced. Its
        own sum of reservations never disagrees with the running total, and once every order is
        answered the available cash is exactly the final cash. */
    method Report() returns (fault: Option<Fault>, report: StudyReport)
      requires Whole(policy, Books(), Around(), now, None)
      ensures fault == if Floors(attempts) > CASH_LIMIT then Some(PayoutBound) else None
      ensures fault.None? ==>
        && report.floor == Floors(attempts) && report.completed == Completed(attempts) && report.unbalanced == Unbalanced(attempts)
        && report.fees == Sum(orders, BuyFee) && report.reserved == reservedTotal && report.unknown == Sum(orders, Waiting)
        && report.finalCash == policy.capital - spent + settlementCash + exitCredit
        && (report.complete <==>
              report.unknown == 0 && report.reserved == 0 && forall i :: 0 <= i < |positions.lots| ==> positions.lots[i].quantity == 0)
        && (report.unknown == 0 ==> report.reserved == 0 && available == report.finalCash)
    {
      hide Whole, Consistent;
      WholeIsConsistent(policy, Books(), Around(), now, None);
      report := StudyReport(0, 0, 0, 0, 0, 0, 0, false);
      var floor, completed, unbalanced;
      fault, floor, completed, unbalanced := Tally();
      if fault.Some? {
        return;
      }
      var reserved := SumReserved();
      var unknown := CountUnknown();
      if reserved != reservedTotal {
        return Some(ReservationDisagreement), report;
      }
      var ok := CheckCash();
      if !ok {
        return Some(CashConservation), report;
      }
      var unresolved := exists i :: 0 <= i < |positions.lots| && positions.lots[i].quantity != 0;
      NoneUnknown(policy, Books());
      fault := None;
      FeesPaid(policy, Books());
      report := StudyReport(floor, completed, unbalanced, spent - notional, reserved, unknown, policy.capital - spent + settlementCash + exitCredit,
                            !unresolved && unknown == 0 && reserved == 0);
    }

    /** What both legs of every attempt guarantee together, and how the attempts ended. */
    method Tally() returns (fault: Option<Fault>, floor: int, completed: nat, unbalanced: nat)
      requires Consistent(policy, Books(), None)
      ensures fault == if Floors(attempts) > CASH_LIMIT then Some(PayoutBound) else None
      ensures fault.None? ==> floor == Floors(attempts) && completed == Completed(attempts) && unbalanced == Unbalanced(attempts)
    {
      FillsNonNegative(policy, Books());
      hide Consistent;
      floor, completed, unbalanced := 0, 0, 0;
      var i := 0;
      while i < |attempts|
        invariant i <= |attempts| && floor == Floors(attempts[..i]) <= CASH_LIMIT
        invariant completed == Completed(attempts[..i]) && unbalanced == Unbalanced(attempts[..i])
      {
        assert attempts[..i + 1][..i] == attempts[..i];
        FloorsGrow(attempts, i + 1);
        var a, b := attempts[i].fills.first.quantity, attempts[i].fills.second.quantity;
        var payout := Min(a, b) * 10_000;
        if floor > CASH_LIMIT - payout {
          fault := Some(PayoutBound);
          return;
        }
        floor := floor + payout;
        if a == attempts[i].quantity && b == attempts[i].quantity {
          completed := completed + 1;
        }
        if a != b {
          unbalanced := unbalanced + 1;
        }
        i := i + 1;
      }
      assert attempts[..i] == attempts;
      fault := None;
    }

    method SumReserved() returns (reserved: int)
      requires Consistent(policy, Books(), None)
      ensures reserved == reservedTotal
    {
      ReservedIsTotal(policy, Books());
      hide Consistent;
      reserved := 0;
      var i := 0;
      while i < |attempts|
        invariant i <= |attempts| && reserved == Reserved(attempts[..i])
      {
        assert attempts[..i + 1][..i] == attempts[..i];
        reserved := reserved + attempts[i].reserve.first + attempts[i].reserve.second;
        i := i + 1;
      }
      assert attempts[..i] == attempts;
    }

    method CountUnknown() returns (unknown: int)
      ensures unknown == Sum(orders, Waiting)
    {
      unknown := 0;
      var i := 0;
      while i < |orders|
        invariant i <= |orders| && unknown == Sum(orders[..i], Waiting)
      {
        assert orders[..i + 1] == orders[..i] + [orders[i]];
        SumAppend(orders[..i], orders[i], Waiting);
        if !orders[i].responded {
          unknown := unknown + 1;
        }
        i := i + 1;
      }
      assert orders[..i] == orders;
    }

    method DropEvents()
      modifies this`events, this`unobserved
      ensures events == [] && unobserved == old(unobserved) + |old(events)|
    {
      while events != []
        invariant unobserved + |events| == old(unobserved) + |old(events)|
        decreases |events|
      {
        events := events[1..];
        unobserved := unobserved + 1;
      }
    }

    method SettleRest(time: int, ghost market: Market) returns (fault: Option<Fault>, ghost rest: seq<Moment>)
      requires Held() && Whole(policy, Books(), Around(), now, None) && Positions.AcquiredBy(positions.lots, time) && events == []
      modifies this, positions, positions.capitalTime
      ensures Traced(policy, market, INT64_MAX, true, rest) && rest[0] == old(Current())
      ensures fault.Some? ==> FailsAt(policy, market, INT64_MAX, true, rest[|rest| - 1], fault)
      ensures fault.None? ==>
        && rest[|rest| - 1] == Current()
        && Held() && Whole(policy, Books(), Around(), now, None) && Positions.AcquiredBy(positions.lots, time)
        && settlementIndex == |policy.settlements| && orders == old(orders) && events == [] && unobserved == old(unobserved)
    {
      hide Held, Whole, BoundFault, Positions.AcquiredBy, Positions.SameDates, Positions.StudyPositions.Stocks, Remaining, Stepped, FaultOf,
        Outcome, AfterSettlement, SettlementFault, EventReady;
      WholeSettlements(policy, Books(), Around(), now, None);
      fault := None;
      rest := [Current()];
      while settlementIndex < |policy.settlements|
        invariant Held() && Whole(policy, Books(), Around(), now, None) && Positions.AcquiredBy(positions.lots, time)
        invariant settlementIndex <= |policy.settlements| && fault == None
        invariant orders == old(orders) && events == [] && unobserved == old(unobserved)
        invariant Traced(policy, market, INT64_MAX, true, rest) && rest[0] == old(Current()) && rest[|rest| - 1] == Current()
      {
        ghost var lots, m := positions.lots, Current();
        WholeSettlements(policy, Books(), Around(), now, None);
        SettlementIsNext(policy, m, market);
        fault := SettleMarket();
        if fault.Some? {
          return;
        }
        PaidQueue(policy, m);
        DatesPass(lots, positions.lots, time, time);
        StepTaken(policy, market, INT64_MAX, true, m, Current());
        TraceGrows(policy, market, INT64_MAX, true, rest, Current());
        rest := rest + [Current()];
      }
    }

    lemma DrainedAt(time: int)
      requires Held() && DrainedTo(time, true)
      ensures now == time && Positions.AcquiredBy(positions.lots, time)
    {
    }
  }

  datatype StudyReport = StudyReport(floor: int, completed: nat, unbalanced: nat, fees: int, reserved: int, unknown: int, finalCash: int, complete: bool)

  /** The payout that both legs of every attempt guarantee together. */
  function Floors(attempts: seq<Attempt>): int {
    if attempts == [] then 0
    else
      var a := attempts[|attempts| - 1];
      Floors(attempts[..|attempts| - 1]) + Min(a.fills.first.quantity, a.fills.second.quantity) * 10_000
  }

  /** The attempts that bought all of both legs, and those that hold more of one leg. */
  function Completed(attempts: seq<Attempt>): nat {
    if attempts == [] then 0
    else
      var a := attempts[|attempts| - 1];
      Completed(attempts[..|attempts| - 1]) + (if a.fills.first.quantity == a.quantity == a.fills.second.quantity then 1 else 0)
  }

  function Unbalanced(attempts: seq<Attempt>): nat {
    if attempts == [] then 0
    else
      var a := attempts[|attempts| - 1];
      Unbalanced(attempts[..|attempts| - 1]) + (if a.fills.first.quantity != a.fills.second.quantity then 1 else 0)
  }

  /** What an executed buy paid beyond its notional. */
  function BuyFee(x: Order): int {
    if x.sell then 0 else x.fill.debit - x.fill.notional
  }

  lemma FeesPaid(p: Policy, s: Account)
    requires Consistent(p, s, None)
    ensures s.spent - s.notional == Sum(s.orders, BuyFee)
  {
    FeesAddUp(s.orders);
    hide OrdersOk, AttemptsOk, Released, OneExit, Sum, Reserved;
  }

  lemma {:induction false} FeesAddUp(orders: seq<Order>)
    ensures Sum(orders, Bought) - Sum(orders, BoughtNotional) == Sum(orders, BuyFee)
    decreases orders
  {
    if orders != [] {
      FeesAddUp(orders[1..]);
    }
  }

  lemma FillsNonNegative(p: Policy, s: Account)
    requires Consistent(p, s, None)
    ensures forall k :: 0 <= k < |s.attempts| ==> s.attempts[k].fills.first.quantity >= 0 && s.attempts[k].fills.second.quantity >= 0
  {
    hide Consistent;
    forall k | 0 <= k < |s.attempts| ensures s.attempts[k].fills.first.quantity >= 0 && s.attempts[k].fills.second.quantity >= 0 {
      AttemptFacts(p, s, k, None);
    }
  }

  lemma {:induction false} FloorsGrow(attempts: seq<Attempt>, i: nat)
    requires i <= |attempts|
    requires forall k :: 0 <= k < |attempts| ==> attempts[k].fills.first.quantity >= 0 && attempts[k].fills.second.quantity >= 0
    ensures Floors(attempts[..i]) <= Floors(attempts)
    decreases |attempts|
  {
    if i == |attempts| {
      assert attempts[..i] == attempts;
    } else {
      FloorsGrow(attempts[..|attempts| - 1], i);
      assert attempts[..|attempts| - 1][..i] == attempts[..i];
    }
  }

  lemma ReservedIsTotal(p: Policy, s: Account)
    requires Consistent(p, s, None)
    ensures s.reservedTotal == Reserved(s.attempts)
  {
    hide OrdersOk, AttemptsOk, Released, OneExit, Sum, Reserved;
  }

  lemma NoneUnknown(p: Policy, s: Account)
    requires ValidPolicy(p) && Consistent(p, s, None)
    ensures Sum(s.orders, Waiting) == 0 ==>
      s.reservedTotal == 0 && s.available == p.capital - s.spent + s.settlementCash + s.exitCredit
  {
    hide Consistent;
    if Sum(s.orders, Waiting) == 0 {
      SumAtMost(s.orders, Waiting, Waiting);
      forall i | 0 <= i < |s.orders| ensures s.orders[i].responded {
        assert Waiting(s.orders[i]) <= 0;
      }
      AllAnswered(p, s);
    }
  }

  /** One pending event for every unanswered order. */
  lemma OneEventEach(orders: seq<Order>, events: seq<Event>, now: int)
    requires EventsOk(orders, events, now)
    ensures |events| == Sum(orders, Waiting)
  {
    hide Sum;
  }

  lemma WholeQueue(p: Policy, s: Account, c: Surroundings, now: int, events: seq<Event>)
    requires Whole(p, s, c, now, None)
    ensures Whole(p, s.(events := events), c, now, None)
  {
    hide Consistent, PositionsOk, Catalogued;
    QueueIrrelevant(p, s, events, None);
  }

  lemma SubmittedCash(s: Account, x: Order, time: int)
    ensures Submitted(s, x, time).available == s.available && Submitted(s, x, time).reservedTotal == s.reservedTotal
  {
  }

  lemma DecisionFacts(p: Policy, s: Account, c: Surroundings, now: int, id: nat)
    requires Steady(p, s, c, now, None) && id in c.compiled && id !in c.attempted
    ensures ValidPolicy(p) && s.available >= 0 && Tradable(p, c.compiled[id])
  {
    hide Consistent, EventsOk, PositionsOk;
    CashConserved(p, s, None);
  }

  /** Both legs charged, and one or both orders sent. */
  function LegsSent(p: Policy, s: Account, a: Attempt, time: int): Account {
    var u := Submitted(s, FirstOrder(s, a, 0), time + p.latency.first).(available := s.available - a.reserve.first,
                                                                       reservedTotal := s.reservedTotal + a.reserve.first);
    var v := if p.sequential then u else Submitted(u, FirstOrder(u, a, 1), time + p.latency.second);
    v.(available := u.available - a.reserve.second, reservedTotal := u.reservedTotal + a.reserve.second)
  }

  lemma DecidedParts(p: Policy, s: Account, a: Attempt, time: int)
    ensures LegsSent(p, s, a, time).(attempts := s.attempts + [a.(pendingBuys := if p.sequential then 1 else 2)]) == Decided(p, s, a, time)
    ensures LegsSent(p, s, a, time).attempts == s.attempts
  {
    hide Insert;
  }

  lemma DecidedStep(p: Policy, s: Account, c: Surroundings, now: int, a: Attempt, time: int, id: nat)
    requires Steady(p, s, c, now, None) && NewAttempt(p, a) && a.reserve.first + a.reserve.second <= s.available
    requires id in c.compiled && id !in c.attempted && now <= time
    requires time + p.latency.first <= INT64_MAX && time + p.latency.second <= INT64_MAX
    ensures Steady(p, Decided(p, s, a, time), c.(attempted := c.attempted + {id}), now, None)
  {
    hide Consistent, EventsOk, Catalogued, Insert, NewAttempt;
    var t := Decided(p, s, a, time);
    var x, y := FirstOrder(s, a, 0), FirstOrder(s, a, 1);
    DecidedKeeps(p, s, a, time);
    RoomForAttempt(p, c.compiled, s.attempts, c.attempted, |c.positions|, id);
    SubmitKeepsEvents(s.orders, s.events, now, x, time + p.latency.first);
    if !p.sequential {
      var u := Submitted(s, x, time + p.latency.first);
      SubmitKeepsEvents(u.orders, u.events, now, y, time + p.latency.second);
    }
    NewPositionsFit(s.attempts, c.positions, c.settled, t.attempts[|s.attempts|]);
    assert NewFills(a) by { FreshFills(p, a); }
    hide PositionsOk;
  }

  predicate NewFills(a: Attempt) {
    a.fills == Legs(NOTHING, NOTHING)
  }

  lemma FreshFills(p: Policy, a: Attempt)
    requires NewAttempt(p, a)
    ensures NewFills(a)
  {
  }

  lemma NewPositionsFit(attempts: seq<Attempt>, positions: seq<Positions.Position>, settled: set<nat>, a: Attempt)
    requires PositionsOk(attempts, positions, settled) && 2 * |attempts| + 2 <= |positions|
    ensures NewFills(a) ==> PositionsOk(attempts + [a], positions, settled)
  {
  }

  lemma LoopFacts(p: Policy, s: Account, c: Surroundings, now: int)
    requires Steady(p, s, c, now, None)
    ensures ValidPolicy(p) && Whole(p, s, c, now, None) && EventsOk(s.orders, s.events, now) && Remaining(p, s, c.index) >= 0
    ensures 0 <= now <= INT64_MAX
    ensures c.index <= |p.settlements| && SettlementsAhead(p, c.index, now)
    ensures s.events != [] ==> now <= s.events[0].time
    ensures c.index < |p.settlements| ==> now <= p.settlements[c.index].time
  {
    hide Consistent, PositionsOk, Catalogued, Remaining;
    if s.events != [] {
      FirstEventTime(p, s, c, now);
    }
    RemainingNonNegative(p, s, c.index, None);
  }

  lemma SettlementsAfter(p: Policy, index: nat, time: int)
    requires ValidPolicy(p) && index <= |p.settlements| && (index < |p.settlements| ==> time <= p.settlements[index].time)
    ensures SettlementsAhead(p, index, time)
  {
  }

  lemma SteadyLater(p: Policy, s: Account, c: Surroundings, now: int, later: int)
    requires Steady(p, s, c, now, None) && now <= later <= INT64_MAX && SettlementsAhead(p, c.index, later)
    requires s.events != [] ==> later <= s.events[0].time
    ensures Steady(p, s, c, later, None)
  {
    hide Consistent, PositionsOk, Catalogued, EventsOk;
    TimePasses(s.orders, s.events, now, later);
  }

  lemma SaleArrivedParts(p: Policy, s: Account, c: Surroundings, now: int, fill: Execution)
    requires Steady(p, s, c, now, None) && s.events != [] && !s.events[0].response
    requires s.events[0].order < |s.orders| && s.orders[s.events[0].order].sell && FillsSale(s.orders[s.events[0].order], fill)
    requires s.exitCredit + fill.credit <= CASH_LIMIT && s.exitFees + (fill.notional - fill.credit) <= CASH_LIMIT
    ensures Consistent(p, SaleArrived(s.(events := s.events[1..]), s.events[0].order, fill), None)
  {
    hide Consistent, EventsOk, Catalogued, Remaining, PositionsOk, Insert, Reserve;
    FirstEventFacts(p, s, c, now);
    QueueIrrelevant(p, s, s.events[1..], None);
    SaleArrivedKeeps(p, s.(events := s.events[1..]), s.events[0].order, fill);
  }

  /** One position shrinks by a sale. */
  ghost predicate SoldFrom(positions: seq<Positions.Position>, positions': seq<Positions.Position>, i: nat, quantity: int) {
    && |positions'| == |positions| && i < |positions|
    && positions'[i].leg == positions[i].leg && positions'[i].quantity == positions[i].quantity - quantity
    && forall j :: 0 <= j < |positions| && j != i ==> positions'[j] == positions[j]
  }

  lemma SoldFromShrinks(positions: seq<Positions.Position>, positions': seq<Positions.Position>, i: nat, quantity: nat,
                        attempts: seq<Attempt>, settled: set<nat>)
    requires SoldFrom(positions, positions', i, quantity) && PositionsOk(attempts, positions, settled)
    ensures PositionsOk(attempts, positions', settled) && |positions'| == |positions|
  {
    ShrinkingKeeps(attempts, positions, positions', settled, settled);
  }

  lemma SaleArrivedStep(p: Policy, s: Account, c: Surroundings, c': Surroundings, now: int, fill: Execution, time: int)
    requires Steady(p, s, c, now, None) && s.events != [] && !s.events[0].response && SettlementsAhead(p, c.index, s.events[0].time)
    requires s.events[0].order < |s.orders| && s.orders[s.events[0].order].sell && FillsSale(s.orders[s.events[0].order], fill)
    requires s.exitCredit + fill.credit <= CASH_LIMIT && s.exitFees + (fill.notional - fill.credit) <= CASH_LIMIT
    requires var x := s.orders[s.events[0].order];
      c' == c.(positions := c'.positions) && SoldFrom(c.positions, c'.positions, x.attempt * 2 + x.leg, fill.quantity)
    requires s.events[0].time <= time <= INT64_MAX
    ensures var i := s.events[0].order;
      var t := SaleArrived(s.(events := Insert(s.events[1..], Event(time, i, true))), i, fill);
      && Steady(p, t, c', s.events[0].time, None) && Remaining(p, t, c'.index) == Remaining(p, s, c.index) - 1
  {
    hide Consistent, EventsOk, Catalogued, Remaining, Insert, Reserve, PositionsOk, SoldFrom;
    FirstEventFacts(p, s, c, now);
    var i := s.events[0].order;
    var events := Insert(s.events[1..], Event(time, i, true));
    QueueIrrelevant(p, s, events, None);
    SaleArrivedKeeps(p, s.(events := events), i, fill);
    var t := SaleArrived(s.(events := events), i, fill);
    ArrivalKeepsEvents(s.orders, s.events, now, t.orders[i], time);
    SoldFromShrinks(c.positions, c'.positions, s.orders[i].attempt * 2 + s.orders[i].leg, fill.quantity, s.attempts, c.settled);
    RemainingOrder(p, s, t, i, t.orders[i], c.index);
  }

  /** One position grows by a purchase. */
  ghost predicate Grown(positions: seq<Positions.Position>, positions': seq<Positions.Position>, i: nat, leg: PayoffLeg, quantity: int) {
    && |positions'| == |positions| && i < |positions|
    && (quantity == 0 ==> positions' == positions)
    && (quantity != 0 ==> positions'[i].leg == leg && positions'[i].quantity == positions[i].quantity + quantity)
    && forall j :: 0 <= j < |positions| && j != i ==> positions'[j] == positions[j]
  }

  /** Attempt k has all of its buys answered and has not decided on an exit. */
  ghost predicate Settling(p: Policy, s: Account, c: Surroundings, k: nat) {
    && k < |s.attempts| && s.attempts[k].pendingBuys == 0 && !s.attempts[k].exitConsidered
    && Tradable(p, s.attempts[k].legs) && k * 2 + 1 < |c.positions|
  }

  lemma SteadyAtStart(p: Policy, s: Account, c: Surroundings)
    requires ValidPolicy(p) && s == Account([], [], [], p.capital, 0, 0, 0, 0, 0, 0, 0, 0)
    requires c.attempted == {} && c.settled == {} && c.index == 0 && |c.positions| == |c.compiled| * 2
    requires forall id :: id in c.compiled ==> Tradable(p, c.compiled[id])
    requires forall i :: 0 <= i < |c.positions| ==> c.positions[i].quantity == 0
    ensures Steady(p, s, c, 0, None)
  {
  }

  lemma AcquisitionFinishedStep(p: Policy, s: Account, c: Surroundings, now: int, k: nat)
    requires Steady(p, s, c, now, Some(k)) && Settling(p, s, c, k)
    ensures var t := AcquisitionFinished(s, k);
      Steady(p, t, c, now, None) && Settling(p, t, c, k) && Remaining(p, t, c.index) == Remaining(p, s, c.index)
  {
    hide Consistent, EventsOk, PositionsOk, Catalogued, Remaining;
    var t := AcquisitionFinished(s, k);
    AcquisitionFinishedKeeps(p, s, k);
    AttemptRelabelled(p, c.compiled, s.attempts, t.attempts, c.attempted, c.positions, c.settled);
    RemainingAttempt(p, s, t, k, c.index);
  }

  /** A completion order within what is missing, and funded. */
  ghost predicate CompletionFits(p: Policy, s: Account, k: nat, quote: Execution, needed: int) {
    && ValidPolicy(p) && p.sequential && k < |s.attempts|
    && var a := s.attempts[k];
    && Tradable(p, a.legs) && a.completionOrders < p.maxCompletionOrders
    && 0 < quote.quantity <= a.fills.first.quantity - a.fills.second.quantity && OnGrid(quote.quantity, p.step)
    && needed == Reserve(quote.quantity, p.step, quote.worstPrice, p.fees[a.legs.second.marketId]) <= s.available + a.reserve.second
  }

  lemma CompletionSentStep(p: Policy, s: Account, c: Surroundings, now: int, k: nat, quote: Execution, needed: int, time: int)
    requires Steady(p, s, c, now, Some(k)) && Settling(p, s, c, k) && CompletionFits(p, s, k, quote, needed)
    requires now <= time <= INT64_MAX
    ensures var t := CompletionSent(s, k, quote.quantity, quote.worstPrice, needed, time);
      Steady(p, t, c, now, None) && Remaining(p, t, c.index) == Remaining(p, s, c.index) - 1
  {
    hide Consistent, EventsOk, PositionsOk, Catalogued, Remaining, Insert, Reserve;
    CompletionSentKeeps(p, s, k, quote.quantity, quote.worstPrice, needed, time);
    var a := s.attempts[k];
    var x := Order(k, 1, quote.quantity, quote.worstPrice, needed, NOTHING, false, false, false);
    var u := s.(attempts := s.attempts[k := a.(reserve := a.reserve.With(1, needed), completionOrders := a.completionOrders + 1,
                                               pendingBuys := a.pendingBuys + 1)],
                reservedTotal := s.reservedTotal + (needed - a.reserve.second), available := s.available + (a.reserve.second - needed));
    AttemptRelabelled(p, c.compiled, s.attempts, u.attempts, c.attempted, c.positions, c.settled);
    RemainingAttempt(p, s, u, k, c.index);
    RemainingSubmitted(p, u, x, time, c.index);
    SubmitKeepsEvents(s.orders, s.events, now, x, time);
  }

  lemma SettlingFacts(p: Policy, s: Account, c: Surroundings, now: int, k: nat)
    requires Steady(p, s, c, now, Some(k)) && k < |s.attempts|
    ensures var f, g := s.attempts[k].fills.first.quantity, s.attempts[k].fills.second.quantity;
      && ValidPolicy(p) && 0 <= f <= QUANTITY_LIMIT && 0 <= g <= QUANTITY_LIMIT
      && OnGrid(f, p.step) && OnGrid(g, p.step) && (f >= g ==> OnGrid(f - g, p.step))
  {
    hide Consistent, EventsOk, PositionsOk, Catalogued;
    AttemptFacts(p, s, k, Some(k));
    GridSum(s.attempts[k].fills.first.quantity, s.attempts[k].fills.second.quantity, p.step);
  }

  lemma WholeIsConsistent(p: Policy, s: Account, c: Surroundings, now: int, busy: Option<nat>)
    requires Whole(p, s, c, now, busy)
    ensures ValidPolicy(p) && Consistent(p, s, busy) && 0 <= now <= INT64_MAX
  {
    hide Consistent, PositionsOk, Catalogued;
  }

  lemma WholeSettlements(p: Policy, s: Account, c: Surroundings, now: int, busy: Option<nat>)
    requires Whole(p, s, c, now, busy)
    ensures c.index <= |p.settlements|
    ensures c.index < |p.settlements| ==> 0 <= now <= p.settlements[c.index].time <= INT64_MAX
  {
    hide Consistent, PositionsOk, Catalogued;
  }

  /** Lots acquired by one time are acquired by any later one. */
  lemma {:induction false} DatesPass(lots: seq<LotAccounting.Lot>, lots': seq<LotAccounting.Lot>, now: int, later: int)
    requires Positions.AcquiredBy(lots, now) && now <= later
    ensures Positions.SameDates(lots, lots') ==> Positions.AcquiredBy(lots', later)
    ensures Positions.SameDates(lots, lots)
  {
  }

  /** Positions that only shrink, off the settled markets. */
  ghost predicate Shrunk(positions: seq<Positions.Position>, positions': seq<Positions.Position>, settled: set<nat>) {
    |positions| == |positions'| && forall i :: 0 <= i < |positions| ==>
      && positions'[i].quantity <= positions[i].quantity
      && (positions'[i].quantity > 0 ==> positions'[i].leg == positions[i].leg && positions[i].leg.marketId !in settled)
  }

  lemma ShrinkingKeeps(attempts: seq<Attempt>, positions: seq<Positions.Position>, positions': seq<Positions.Position>, settled: set<nat>, settled': set<nat>)
    requires PositionsOk(attempts, positions, settled) && Shrunk(positions, positions', settled')
    ensures PositionsOk(attempts, positions', settled')
  {
    forall k | 0 <= k < |attempts|
      ensures PositionFits(attempts[k], 0, positions'[k * 2]) && PositionFits(attempts[k], 1, positions'[k * 2 + 1])
    {
      assert PositionFits(attempts[k], 0, positions[k * 2]) && PositionFits(attempts[k], 1, positions[k * 2 + 1]);
    }
  }

  lemma PaidStep(p: Policy, s: Account, c: Surroundings, c': Surroundings, now: int, x: Positions.Settlement, payout: int)
    requires Whole(p, s, c, now, None) && c.index < |p.settlements| && x == p.settlements[c.index]
    requires 0 <= payout && CashFault(s, payout).None?
    requires c' == c.(index := c.index + 1, settled := c.settled + {x.marketId}, positions := c'.positions)
    requires Positions.SettledOn(c.positions, c'.positions, x)
    ensures Whole(p, Paid(s, payout), c', x.time, None)
    ensures Remaining(p, Paid(s, payout), c'.index) == Remaining(p, s, c.index) - 1
  {
    hide Consistent, Catalogued;
    PaidKeeps(p, s, payout);
    ShrinkingKeeps(s.attempts, c.positions, c'.positions, c.settled, c'.settled);
    hide PositionsOk;
  }

  /** The first event is for an order that waits for it, and what is known of that order. */
  lemma FirstEventFacts(p: Policy, s: Account, c: Surroundings, now: int)
    requires Steady(p, s, c, now, None) && s.events != []
    ensures ValidPolicy(p)
    ensures var e := s.events[0];
      && 0 <= now <= e.time <= INT64_MAX && e.order < |s.orders|
      && var x := s.orders[e.order];
      && e.response == x.arrived && !x.responded
      && x.attempt < |s.attempts| && x.leg < 2 && x.attempt * 2 + 1 < |c.positions|
      && Tradable(p, s.attempts[x.attempt].legs) && OrderFits(p, s.attempts[x.attempt], x)
      && 0 < s.attempts[x.attempt].quantity <= QUANTITY_LIMIT
  {
    hide Consistent, EventsOk, Catalogued, Remaining, Reserve;
    FirstIsNext(s.orders, s.events, now);
    OrderFacts(p, s, s.events[0].order, None);
    AttemptFacts(p, s, s.orders[s.events[0].order].attempt, None);
  }

  /** A buy that is answered still counts as pending. */
  lemma FirstEventPends(p: Policy, s: Account, c: Surroundings, now: int)
    requires Steady(p, s, c, now, None) && s.events != [] && s.events[0].order < |s.orders|
    ensures var x := s.orders[s.events[0].order];
      s.events[0].response && !x.sell ==> x.attempt < |s.attempts| && s.attempts[x.attempt].pendingBuys > 0
  {
    hide Consistent, EventsOk, Catalogued, Remaining, PositionsOk, OrderFits;
    FirstEventFacts(p, s, c, now);
    if s.events[0].response && !s.orders[s.events[0].order].sell {
      BuyAnsweredKeeps(p, s, s.events[0].order);
    }
  }

  lemma FirstEventTime(p: Policy, s: Account, c: Surroundings, now: int)
    requires Steady(p, s, c, now, None) && s.events != []
    ensures ValidPolicy(p) && 0 <= now <= s.events[0].time <= INT64_MAX && s.events[0].order < |s.orders|
  {
    hide Steady, OrderFits;
    FirstEventFacts(p, s, c, now);
  }

  lemma SaleAnsweredStep(p: Policy, s: Account, c: Surroundings, now: int)
    requires Steady(p, s, c, now, None) && s.events != [] && s.events[0].response && SettlementsAhead(p, c.index, s.events[0].time)
    requires s.events[0].order < |s.orders| && s.orders[s.events[0].order].sell
    ensures var t := SaleAnswered(s.(events := s.events[1..]), s.events[0].order);
      Steady(p, t, c, s.events[0].time, None) && Remaining(p, t, c.index) == Remaining(p, s, c.index) - 1
  {
    hide Consistent, EventsOk, Catalogued, Remaining, PositionsOk, OrderFits;
    FirstEventFacts(p, s, c, now);
    var u, i := s.(events := s.events[1..]), s.events[0].order;
    var t := SaleAnswered(u, i);
    QueueIrrelevant(p, s, s.events[1..], None);
    SaleAnsweredKeeps(p, u, i);
    ResponseKeepsEvents(s.orders, s.events, now, t.orders[i]);
    RemainingOrder(p, s, t, i, t.orders[i], c.index);
  }

  lemma BuyAnsweredStep(p: Policy, s: Account, c: Surroundings, now: int)
    requires Steady(p, s, c, now, None) && s.events != [] && s.events[0].response && SettlementsAhead(p, c.index, s.events[0].time)
    requires s.events[0].order < |s.orders| && !s.orders[s.events[0].order].sell
    ensures var i := s.events[0].order;
      && s.orders[i].attempt < |s.attempts| && s.attempts[s.orders[i].attempt].pendingBuys > 0
      && var t, k := BuyAnswered(s.(events := s.events[1..]), i), s.orders[i].attempt;
      && Steady(p, t, c, s.events[0].time, Some(k)) && Remaining(p, t, c.index) == Remaining(p, s, c.index) - 1
      && (p.sequential || t.attempts[k].pendingBuys == 0 ==> Settling(p, t, c, k))
      && (!p.sequential ==> Steady(p, t, c, s.events[0].time, None))
  {
    hide Consistent, EventsOk, Catalogued, Remaining, PositionsOk, OrderFits;
    FirstEventFacts(p, s, c, now);
    var u, i := s.(events := s.events[1..]), s.events[0].order;
    var x := s.orders[i];
    QueueIrrelevant(p, s, s.events[1..], None);
    BuyAnsweredKeeps(p, u, i);
    var t, k := BuyAnswered(u, i), x.attempt;
    ResponseKeepsEvents(s.orders, s.events, now, t.orders[i]);
    AttemptRelabelled(p, c.compiled, s.attempts, t.attempts, c.attempted, c.positions, c.settled);
    var v := s.(orders := t.orders);
    RemainingOrder(p, s, v, i, t.orders[i], c.index);
    RemainingAttempt(p, v, t, k, c.index);
    if !p.sequential {
      ParallelReleased(p, t, k);
    }
  }

  lemma GrowingKeeps(attempts: seq<Attempt>, attempts': seq<Attempt>, k: nat, leg: nat, quantity: int,
                     positions: seq<Positions.Position>, positions': seq<Positions.Position>, settled: set<nat>)
    requires PositionsOk(attempts, positions, settled) && k < |attempts| && leg < 2 && 0 <= quantity
    requires Grown(positions, positions', k * 2 + leg, attempts[k].legs.At(leg), quantity)
    requires quantity > 0 ==> attempts[k].legs.At(leg).marketId !in settled
    requires |attempts'| == |attempts| && attempts' == attempts[k := attempts'[k]] && attempts'[k].legs == attempts[k].legs
    requires attempts'[k].fills.At(leg).quantity == attempts[k].fills.At(leg).quantity + quantity
    requires attempts'[k].fills.At(1 - leg) == attempts[k].fills.At(1 - leg)
    ensures PositionsOk(attempts', positions', settled) && |positions'| == |positions|
  {
    forall j | 0 <= j < |attempts'|
      ensures PositionFits(attempts'[j], 0, positions'[j * 2]) && PositionFits(attempts'[j], 1, positions'[j * 2 + 1])
    {
      assert PositionFits(attempts[j], 0, positions[j * 2]) && PositionFits(attempts[j], 1, positions[j * 2 + 1]);
    }
  }

  lemma BuyArrivedStep(p: Policy, s: Account, c: Surroundings, c': Surroundings, now: int, fill: Execution, time: int)
    requires Steady(p, s, c, now, None) && s.events != [] && !s.events[0].response && SettlementsAhead(p, c.index, s.events[0].time)
    requires s.events[0].order < |s.orders| && !s.orders[s.events[0].order].sell && s.orders[s.events[0].order].attempt < |s.attempts|
    requires var x := s.orders[s.events[0].order]; var leg := s.attempts[x.attempt].legs.At(x.leg);
      && FillsOrder(p, x, fill) && (fill.quantity > 0 ==> leg.marketId !in c.settled)
      && c' == c.(positions := c'.positions) && Grown(c.positions, c'.positions, x.attempt * 2 + x.leg, leg, fill.quantity)
    requires s.spent + fill.debit <= CASH_LIMIT && s.events[0].time <= time <= INT64_MAX
    ensures var i := s.events[0].order;
      var t := BuyArrived(s.(events := Insert(s.events[1..], Event(time, i, true))), i, fill);
      && Steady(p, t, c', s.events[0].time, None) && Remaining(p, t, c'.index) == Remaining(p, s, c.index) - 1
  {
    hide Consistent, EventsOk, Catalogued, Remaining, PositionsOk, Insert, Grown, Reserve;
    FirstEventFacts(p, s, c, now);
    var i := s.events[0].order;
    var events := Insert(s.events[1..], Event(time, i, true));
    var u := s.(events := events);
    var x := s.orders[i];
    QueueIrrelevant(p, s, events, None);
    BuyArrivedKeeps(p, u, i, fill);
    var t, k := BuyArrived(u, i, fill), x.attempt;
    ArrivalKeepsEvents(s.orders, s.events, now, t.orders[i], time);
    GrowingKeeps(s.attempts, t.attempts, k, x.leg, fill.quantity, c.positions, c'.positions, c.settled);
    AttemptRelabelledCatalogue(p, c.compiled, s.attempts, t.attempts, c.attempted, |c.positions|);
    var v := s.(orders := t.orders);
    RemainingOrder(p, s, v, i, t.orders[i], c.index);
    RemainingAttempt(p, v, t, k, c.index);
  }

  /** Queueing and arriving do not depend on each other. */
  lemma BuyArrivedQueue(s: Account, i: nat, fill: Execution, events: seq<Event>, events': seq<Event>)
    requires i < |s.orders| && s.orders[i].attempt < |s.attempts|
    ensures BuyArrived(s.(events := events), i, fill).(events := events') == BuyArrived(s.(events := events'), i, fill)
    ensures BuyArrived(s.(events := events), i, fill).events == events
  {
  }

  /** A purchase of a waiting buy keeps the accounts consistent and fits its position. */
  lemma PurchaseFits(p: Policy, s: Account, c: Surroundings, now: int, fill: Execution)
    requires Steady(p, s, c, now, None) && s.events != [] && !s.events[0].response
    requires s.events[0].order < |s.orders| && !s.orders[s.events[0].order].sell && s.orders[s.events[0].order].attempt < |s.attempts|
    requires FillsOrder(p, s.orders[s.events[0].order], fill)
    ensures var i := s.events[0].order;
      var x := s.orders[i];
      && (s.spent + fill.debit <= CASH_LIMIT ==> Consistent(p, BuyArrived(s.(events := s.events[1..]), i, fill), None))
      && x.leg < 2 && x.attempt * 2 + x.leg < |c.positions|
      && 0 <= fill.debit <= CASH_LIMIT
      && c.positions[x.attempt * 2 + x.leg].quantity + fill.quantity <= QUANTITY_LIMIT
  {
    hide Consistent, EventsOk, Catalogued, Reserve;
    FirstEventFacts(p, s, c, now);
    var i := s.events[0].order;
    var x := s.orders[i];
    var a := s.attempts[x.attempt];
    QueueIrrelevant(p, s, s.events[1..], None);
    if s.spent + fill.debit <= CASH_LIMIT {
      BuyArrivedKeeps(p, s.(events := s.events[1..]), i, fill);
    }
    AttemptFacts(p, s, x.attempt, None);
    assert PositionFits(a, 0, c.positions[x.attempt * 2]) && PositionFits(a, 1, c.positions[x.attempt * 2 + 1]);
    ReserveBounded(p, a, x);
  }

  lemma ReserveBounded(p: Policy, a: Attempt, x: Order)
    requires ValidPolicy(p) && OrderFits(p, a, x) && !x.sell
    ensures x.reserve <= CASH_LIMIT
  {
    ReservationExists(x.quantity, p.step, x.limit, p.fees[a.legs.At(x.leg).marketId]);
  }

  lemma AttemptRelabelledCatalogue(p: Policy, compiled: map<nat, Legs<PayoffLeg>>, attempts: seq<Attempt>, attempts': seq<Attempt>,
                                   attempted: set<nat>, positions: nat)
    requires |attempts| == |attempts'| && Catalogued(p, compiled, attempts, attempted, positions)
    ensures Catalogued(p, compiled, attempts', attempted, positions)
  {
  }

  lemma ExitDecidedStep(p: Policy, s: Account, c: Surroundings, now: int, k: nat)
    requires Steady(p, s, c, now, None) && k < |s.attempts| && s.attempts[k].pendingBuys == 0 && !s.attempts[k].exitConsidered
    ensures Steady(p, ExitDecided(s, k), c, now, None)
    ensures Remaining(p, ExitDecided(s, k), c.index) == Remaining(p, s, c.index) - 3
    ensures ValidPolicy(p) && s.attempts[k].quantity <= QUANTITY_LIMIT
    ensures 0 <= s.attempts[k].fills.first.quantity <= s.attempts[k].quantity
    ensures 0 <= s.attempts[k].fills.second.quantity <= s.attempts[k].quantity
  {
    hide Consistent, EventsOk, PositionsOk, Catalogued, Remaining;
    ExitDecidedKeeps(p, s, k);
    AttemptFacts(p, s, k, None);
    var t := ExitDecided(s, k);
    AttemptRelabelled(p, c.compiled, s.attempts, t.attempts, c.attempted, c.positions, c.settled);
    RemainingAttempt(p, s, t, k, c.index);
  }

  lemma ExitSentStep(p: Policy, s: Account, c: Surroundings, now: int, k: nat, leg: nat, quote: Execution, time: int)
    requires Steady(p, s, c, now, None) && k < |s.attempts| && s.attempts[k].pendingBuys == 0 && !s.attempts[k].exitConsidered
    requires leg < 2 && 0 < quote.quantity <= QUANTITY_LIMIT && OnGrid(quote.quantity, p.step) && now <= time <= INT64_MAX && p.exit.Some?
    requires quote.quantity <= s.attempts[k].fills.At(leg).quantity - s.attempts[k].fills.At(1 - leg).quantity
    ensures var t := ExitSent(ExitDecided(s, k), k, leg, quote.quantity, quote.worstPrice, time);
      Steady(p, t, c, now, None) && Remaining(p, t, c.index) == Remaining(p, s, c.index) - 1
  {
    hide Consistent, EventsOk, PositionsOk, Catalogued, Remaining, Insert;
    var t := ExitDecided(s, k);
    ExitDecidedStep(p, s, c, now, k);
    NoExitYet(p, s, k, None);
    ExitSentKeeps(p, t, k, leg, quote.quantity, quote.worstPrice, time);
    var x := Order(k, leg, quote.quantity, quote.worstPrice, 0, NOTHING, false, false, true);
    SubmitKeepsEvents(t.orders, t.events, now, x, time);
    RemainingSubmitted(p, t, x, time, c.index);
  }

  /** Changing an attempt without touching its legs and fills. */
  lemma AttemptRelabelled(p: Policy, compiled: map<nat, Legs<PayoffLeg>>, attempts: seq<Attempt>, attempts': seq<Attempt>,
                          attempted: set<nat>, positions: seq<Positions.Position>, settled: set<nat>)
    requires |attempts| == |attempts'| && forall k :: 0 <= k < |attempts| ==> attempts'[k].legs == attempts[k].legs && attempts'[k].fills == attempts[k].fills
    ensures PositionsOk(attempts, positions, settled) ==> PositionsOk(attempts', positions, settled)
    ensures Catalogued(p, compiled, attempts, attempted, |positions|) ==> Catalogued(p, compiled, attempts', attempted, |positions|)
  {
  }

  /** A quote leaves the liquidity alone. */
  lemma {:induction false} QuoteConsumesNothing(t: Terms, c: Consumed, takes: seq<Take>)
    requires !t.execute
    ensures ConsumeAll(t, c, takes) == c
    decreases takes
  {
    if takes != [] {
      QuoteConsumesNothing(t, c, takes[1..]);
    }
  }

  lemma QuoteTakesNothing(t: Terms, levels: seq<Level>, c: Consumed, quantity: nat)
    requires !t.execute && ValidTerms(t)
    ensures ConsumeAll(t, c, Takes(t, levels, c, quantity)) == c
  {
    QuoteConsumesNothing(t, c, Takes(t, levels, c, quantity));
  }

  lemma NothingExecuted(t: Terms, fee: FeePolicy)
    requires ValidFee(fee)
    ensures Executed(t, fee, []) == NOTHING
  {
  }

  // ------------------------------------------------------------------------
  // A whole replay
  // ------------------------------------------------------------------------

  /** One record of a replay, with the market that it leaves. */
  datatype Record = Record(time: int, market: Option<nat>, applied: bool, state: Market)

  ghost predicate InOrder(records: seq<Record>, from: int, end: int) {
    && (forall i :: 0 <= i < |records| ==> from <= records[i].time <= end && Fit(records[i].state))
    && (forall i, j :: 0 <= i < j < |records| ==> records[i].time <= records[j].time)
  }

  /** The market before record i. */
  function MarketBefore(records: seq<Record>, start: Market, i: nat): Market
    requires i <= |records|
  {
    if i == 0 then start else records[i - 1].state
  }

  /** A record's time passes on the market before it, until nothing is due. */
  ghost predicate Announced(p: Policy, time: int, inclusive: bool, state: Market, call: Callback, n: Moment) {
    call.Passed? && call.time == time && call.inclusive == inclusive && call.market == state && !Due(p, n, time, inclusive)
  }

  /** An applied record is noted as the update of its market, and on the market that it leaves every
      constraint on it is decided; `known` have been attempted before. */
  ghost predicate IsNoted(p: Policy, compiled: map<nat, Legs<PayoffLeg>>, dependencies: map<nat, seq<nat>>, record: Record, known: set<nat>,
                          m: Moment, call: Callback) {
    && call.Noted? && call.time == record.time
    && call.updates == (if record.market.Some? && record.applied then m.scene.updates[record.market.value := record.time] else m.scene.updates)
    && var ids := if record.market.Some? && record.applied && record.market.value in dependencies then dependencies[record.market.value] else [];
    |call.ds| == |ids| && Decisions(p, compiled, m.scene.(updates := call.updates), m.books, known, ids, call.ds, record.time, record.state)
  }

  /** What has been attempted after some decisions. */
  ghost predicate Learned(before: set<nat>, ds: seq<Decision>, after: set<nat>) {
    forall id :: id in after <==> Known(id, before, ds)
  }

  /** Callbacks 2 i and 2 i + 1 are those of record i. */
  ghost predicate RecordDone(p: Policy, compiled: map<nat, Legs<PayoffLeg>>, dependencies: map<nat, seq<nat>>, records: seq<Record>, start: Market,
                             calls: seq<Callback>, states: seq<Moment>, known: seq<set<nat>>, i: nat) {
    && i < |records| && 2 * i + 1 < |calls| && 2 * i + 1 < |states| && i + 1 < |known|
    && Announced(p, records[i].time, false, MarketBefore(records, start, i), calls[2 * i], states[2 * i + 1])
    && IsNoted(p, compiled, dependencies, records[i], known[i], states[2 * i + 1], calls[2 * i + 1])
    && Learned(known[i], calls[2 * i + 1].ds, known[i + 1])
  }

  ghost predicate Replayed(p: Policy, compiled: map<nat, Legs<PayoffLeg>>, dependencies: map<nat, seq<nat>>, records: seq<Record>, start: Market,
                           calls: seq<Callback>, states: seq<Moment>, known: seq<set<nat>>, n: nat) {
    forall i: nat :: i < n ==> RecordDone(p, compiled, dependencies, records, start, calls, states, known, i)
  }

  lemma ReplayedStays(p: Policy, compiled: map<nat, Legs<PayoffLeg>>, dependencies: map<nat, seq<nat>>, records: seq<Record>, start: Market,
                      calls: seq<Callback>, states: seq<Moment>, known: seq<set<nat>>,
                      calls': seq<Callback>, states': seq<Moment>, known': seq<set<nat>>, n: nat)
    requires Replayed(p, compiled, dependencies, records, start, calls, states, known, n)
    requires calls <= calls' && states <= states' && known <= known'
    ensures Replayed(p, compiled, dependencies, records, start, calls', states', known', n)
  {
    hide Announced, IsNoted, Learned;
    forall i: nat | i < n ensures RecordDone(p, compiled, dependencies, records, start, calls', states', known', i) {
      assert RecordDone(p, compiled, dependencies, records, start, calls, states, known, i);
    }
  }

  lemma ReplayedNext(p: Policy, compiled: map<nat, Legs<PayoffLeg>>, dependencies: map<nat, seq<nat>>, records: seq<Record>, start: Market,
                     calls: seq<Callback>, states: seq<Moment>, known: seq<set<nat>>, n: nat)
    requires Replayed(p, compiled, dependencies, records, start, calls, states, known, n)
    requires RecordDone(p, compiled, dependencies, records, start, calls, states, known, n)
    ensures Replayed(p, compiled, dependencies, records, start, calls, states, known, n + 1)
  {
    hide RecordDone;
  }

  /** The end: time passes to it, what is pending is left, and then to the last settlement. */
  ghost predicate Concluded(p: Policy, state: Market, end: int, calls: seq<Callback>, states: seq<Moment>, at: nat) {
    && |calls| == at + 3 && |states| == at + 4
    && Announced(p, end, true, state, calls[at], states[at + 1]) && calls[at + 1] == Ended
    && calls[at + 2].Passed? && calls[at + 2].time == INT64_MAX && calls[at + 2].inclusive && calls[at + 2].market == state
  }

  /** Every record is announced on the market before it and noted on the market after it, where the
      constraints on its market are decided; then the observation ends. The callbacks lead from the
      simulation's state through those recorded, and a fault stops them where it occurs. */
  method Replay(sim: Simulation, records: seq<Record>, start: Market, end: int)
    returns (fault: Option<Fault>, ghost calls: seq<Callback>, ghost states: seq<Moment>, ghost known: seq<set<nat>>)
    requires sim.Holds(None) && sim.Wired() && Fit(start) && sim.now <= end <= INT64_MAX && InOrder(records, sim.now, end)
    modifies sim, sim.positions, sim.positions.capitalTime
    ensures Observed(sim.policy, calls, states) && states[0] == old(sim.Current())
    ensures known != [] && known[0] == old(sim.attempted) && |known| - 1 <= |records|
    ensures Replayed(sim.policy, sim.compiledLegs, sim.dependencies, records, start, calls, states, known, |known| - 1)
    ensures fault.Some? ==> BoundFault(fault.value) && |calls| == 2 * |known| - 1
    ensures fault.None? ==> |known| - 1 == |records| && Concluded(sim.policy, MarketBefore(records, start, |records|), end, calls, states, 2 * |records|)
    ensures fault.None? ==> sim.Look() == states[|states| - 1].scene && sim.orders == states[|states| - 1].books.orders && sim.events == []
  {
    hide Simulation.Holds, Simulation.Wired, Observed, Fit, Replayed, RecordDone, Announced, IsNoted, Learned;
    ghost var p, compiled, dependencies := sim.policy, sim.compiledLegs, sim.dependencies;
    calls, states, known, fault := [], [sim.Current()], [sim.attempted], None;
    NothingObserved(sim.policy, sim.Current());
    NothingReplayed(p, compiled, dependencies, records, start, calls, states, known);
    var state, i := start, 0;
    while i < |records|
      invariant i <= |records| && sim.Holds(None) && sim.Wired() && Fit(state) && fault == None && sim.now <= end && state == MarketBefore(records, start, i)
      invariant i < |records| ==> sim.now <= records[i].time
      invariant Observed(sim.policy, calls, states) && |states| == 2 * i + 1 && |calls| == 2 * i
      invariant states[0] == old(sim.Current()) && states[|states| - 1] == sim.Current()
      invariant |known| == i + 1 && known[0] == old(sim.attempted) && known[i] == sim.attempted
      invariant Replayed(p, compiled, dependencies, records, start, calls, states, known, i)
    {
      ghost var before, passed, knew := calls, states, known;
      fault, calls, states := ReplayRecord(sim, records[i], state, calls, states);
      ReplayedStays(p, compiled, dependencies, records, start, before, passed, knew, calls, states, knew, i);
      if fault.Some? {
        return;
      }
      known := known + [sim.attempted];
      ReplayedStays(p, compiled, dependencies, records, start, calls, states, knew, calls, states, known, i);
      IsDone(p, compiled, dependencies, records, start, calls, states, known, i);
      ReplayedNext(p, compiled, dependencies, records, start, calls, states, known, i);
      state := records[i].state;
      i := i + 1;
    }
    ghost var before, passed := calls, states;
    fault, calls, states := Conclude(sim, state, end, calls, states);
    ReplayedStays(p, compiled, dependencies, records, start, before, passed, known, calls, states, known, i);
  }

  lemma NothingReplayed(p: Policy, compiled: map<nat, Legs<PayoffLeg>>, dependencies: map<nat, seq<nat>>, records: seq<Record>, start: Market,
                        calls: seq<Callback>, states: seq<Moment>, known: seq<set<nat>>)
    ensures Replayed(p, compiled, dependencies, records, start, calls, states, known, 0)
  {
  }

  lemma IsDone(p: Policy, compiled: map<nat, Legs<PayoffLeg>>, dependencies: map<nat, seq<nat>>, records: seq<Record>, start: Market,
               calls: seq<Callback>, states: seq<Moment>, known: seq<set<nat>>, i: nat)
    requires i < |records| && 2 * i + 1 < |calls| && 2 * i + 1 < |states| && i + 1 < |known|
    requires Announced(p, records[i].time, false, MarketBefore(records, start, i), calls[2 * i], states[2 * i + 1])
    requires IsNoted(p, compiled, dependencies, records[i], known[i], states[2 * i + 1], calls[2 * i + 1])
    requires Learned(known[i], calls[2 * i + 1].ds, known[i + 1])
    ensures RecordDone(p, compiled, dependencies, records, start, calls, states, known, i)
  {
  }

  method ReplayRecord(sim: Simulation, record: Record, state: Market, ghost before: seq<Callback>, ghost passed: seq<Moment>)
    returns (fault: Option<Fault>, ghost calls: seq<Callback>, ghost states: seq<Moment>)
    requires sim.Holds(None) && sim.Wired() && Fit(state) && Fit(record.state) && sim.now <= record.time <= INT64_MAX
    requires Observed(sim.policy, before, passed) && |passed| == |before| + 1 && passed[|passed| - 1] == sim.Current()
    modifies sim, sim.positions, sim.positions.capitalTime
    ensures Observed(sim.policy, calls, states) && before <= calls && passed <= states && |states| == |calls| + 1
    ensures fault.Some? ==> BoundFault(fault.value) && |calls| == |before| + 1
    ensures fault.None? ==> sim.Holds(None) && sim.Wired() && sim.now == record.time && states[|states| - 1] == sim.Current()
    ensures fault.None? ==> |calls| == |before| + 2
    ensures fault.None? ==>
      var at := |before|;
      && Announced(sim.policy, record.time, false, state, calls[at], states[at + 1])
      && IsNoted(sim.policy, sim.compiledLegs, sim.dependencies, record, old(sim.attempted), states[at + 1], calls[at + 1])
      && Learned(old(sim.attempted), calls[at + 1].ds, sim.attempted)
  {
    hide Simulation.Holds, Simulation.Wired, Simulation.DrainedTo, Observed, Fit, AllDecided, Decisions, Stops, FailsAt, Due, Stepped, Known;
    ghost var trace, ds;
    fault, trace := sim.Before(record.time, state);
    ghost var call := Passed(record.time, false, state, trace);
    NextObserved(sim.policy, before, passed, call, trace[|trace| - 1]);
    calls, states := before + [call], passed + [trace[|trace| - 1]];
    if fault.Some? {
      return;
    }
    ghost var s, attempted := sim.Books(), sim.attempted;
    fault, ds := sim.After(record.market, record.applied, record.time, record.state);
    if fault.Some? {
      ghost var ids := if record.market.Some? && record.applied && record.market.value in sim.dependencies then sim.dependencies[record.market.value] else [];
      StopIsBound(sim.policy, sim.compiledLegs, sim.Look(), s, attempted, ids, ds, record.time, record.state, fault);
      return;
    }
    call := Noted(record.time, ds, sim.lastUpdate);
    NextObserved(sim.policy, calls, states, call, sim.Current());
    calls, states := calls + [call], states + [sim.Current()];
  }

  lemma StopIsBound(p: Policy, compiled: map<nat, Legs<PayoffLeg>>, c: Scene, s: Account, attempted: set<nat>,
                    ids: seq<nat>, ds: seq<Decision>, time: int, market: Market, fault: Option<Fault>)
    requires Stops(p, compiled, c, s, attempted, ids, ds, time, market, fault)
    ensures fault.Some? && BoundFault(fault.value)
  {
  }

  lemma FailureIsBound(p: Policy, market: Market, time: int, m: Moment, fault: Option<Fault>)
    ensures FailsAt(p, market, time, true, m, fault) ==> fault.Some? && BoundFault(fault.value)
  {
    hide Due, Ready, FaultOf;
    if FailsAt(p, market, time, true, m, fault) {
      FaultIsBound(p, m, market);
    }
  }

  /** The end of the observation. */
  method Conclude(sim: Simulation, state: Market, end: int, ghost before: seq<Callback>, ghost passed: seq<Moment>)
    returns (fault: Option<Fault>, ghost calls: seq<Callback>, ghost states: seq<Moment>)
    requires sim.Holds(None) && Fit(state) && sim.now <= end <= INT64_MAX
    requires Observed(sim.policy, before, passed) && |passed| == |before| + 1 && passed[|passed| - 1] == sim.Current()
    modifies sim, sim.positions, sim.positions.capitalTime
    ensures Observed(sim.policy, calls, states) && before <= calls && passed <= states && |states| == |calls| + 1
    ensures fault.Some? ==> BoundFault(fault.value) && |calls| == |before| + 1
    ensures fault.None? ==> Concluded(sim.policy, state, end, calls, states, |before|)
    ensures fault.None? ==> sim.Look() == states[|states| - 1].scene && sim.orders == states[|states| - 1].books.orders && sim.events == []
  {
    hide Simulation.Holds, Observed, Stepped, Fit, Whole, FailsAt, Due;
    ghost var trace, rest;
    fault, trace, rest := sim.Finish(end, state);
    ghost var call, m := Passed(end, true, state, trace), trace[|trace| - 1];
    NextObserved(sim.policy, before, passed, call, m);
    calls, states := before + [call], passed + [m];
    if fault.Some? {
      FailureIsBound(sim.policy, state, end, m, fault);
      FailureIsBound(sim.policy, state, INT64_MAX, if rest == [] then m else rest[|rest| - 1], fault);
      return;
    }
    ghost var n := m.(books := m.books.(events := []));
    NextObserved(sim.policy, calls, states, Ended, n);
    calls, states := calls + [Ended], states + [n];
    call := Passed(INT64_MAX, true, state, rest);
    NextObserved(sim.policy, calls, states, call, rest[|rest| - 1]);
    calls, states := calls + [call], states + [rest[|rest| - 1]];
  }
}
