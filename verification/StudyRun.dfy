/** A run of the lifecycle simulation in which the available cash exceeds what sizing accepts: the
    next decision faults although every bound on the way was kept. */
module StudyRuns {
  import opened FixedPoint
  import opened Contracts
  import opened ExecutionCost
  import opened Reservation
  import opened LiquidityWalk
  import opened OrderBooks
  import opened MarketStates
  import opened StudyLedger
  import opened StudyOutcome
  import opened StudyDecisions
  import opened ExecutionStudy
  import opened LotAccounting
  import DepthWalk
  import PairOptimum
  import NetSizing
  import Positions = StudyPositions

  // ------------------------------------------------------------------------
  // The input
  // ------------------------------------------------------------------------

  const FEE := FeePolicy(0, 100)
  const PAIR := Legs(PayoffLeg(1, true), PayoffLeg(2, true))
  const NEXT_PAIR := Legs(PayoffLeg(2, true), PayoffLeg(3, true))

  /** All the cash that a policy may have, one contract per attempt, and a settlement that pays
      while the second leg's response is still under way. */
  function RunPolicy(): Policy {
    Policy(CASH_LIMIT, 100, 100, 0, 1, 1_000, Legs(1, 1), Legs(false, false), 10_000, map[1 := FEE, 2 := FEE, 3 := FEE],
           false, Legs(1, 10), 0, 0, 1, [Positions.Settlement(1, true, 5)], None, false)
  }

  function OneAsk(price: Price): Book {
    Book(Valid, Some(1), Some(1), map[], map[price := 100])
  }

  /** The market after each record: a snapshot of one more book. Both legs of the first pair cost
      99.99 cents together. */
  function FirstMarket(): Market {
    Market(false, Some(1), true, map[1 := OneAsk(4_999)], map[])
  }

  function RunMarket(): Market {
    Market(false, Some(1), true, map[1 := OneAsk(4_999), 2 := OneAsk(5_000)], map[])
  }

  function LastMarket(): Market {
    Market(false, Some(1), true, map[1 := OneAsk(4_999), 2 := OneAsk(5_000), 3 := OneAsk(5_000)], map[])
  }

  /** The pairs share their second and first market. */
  function Constraints(): map<nat, Legs<PayoffLeg>> {
    map[0 := PAIR, 1 := NEXT_PAIR]
  }

  lemma InputFits()
    ensures ValidPolicy(RunPolicy()) && Fit(RunMarket())
  {
  }

  lemma OtherMarketsFit()
    ensures Fit(FirstMarket()) && Fit(LastMarket())
  {
  }

  lemma RunCatalogue()
    ensures Catalogue(RunPolicy(), [0, 1], Constraints()) && Compiled(RunPolicy(), Constraints()) == Constraints()
    ensures |Constraints()| == 2
  {
    assert Constraints().Keys == {0, 1};
  }

  function SnapshotOf(m: nat, price: Price): Transition {
    Apply(Update.Snapshot(1, m, 1, 1, [], [Level(price, 100)]))
  }

  /** The markets are those of a connection that has received the snapshots. */
  lemma MarketsFollow()
    ensures Next(Next(Unconnected(false), Open(1)), SnapshotOf(1, 4_999)) == FirstMarket()
    ensures Next(FirstMarket(), SnapshotOf(2, 5_000)) == RunMarket()
    ensures Next(RunMarket(), SnapshotOf(3, 5_000)) == LastMarket()
  {
    OneLevelLoads(4_999);
    OneLevelLoads(5_000);
  }

  lemma OneLevelLoads(price: Price)
    ensures AfterSnapshot(UNKNOWN, 1, 1, [], [Level(price, 100)]) == (OneAsk(price), Applied)
  {
    var source := [Level(price, 100)];
    assert source[..0] == [];
  }

  /** The index of the constraints: the market that both have lists both. */
  lemma RunIndex(index: map<nat, seq<nat>>)
    requires Indexed(index, Constraints())
    ensures 1 in index && 2 in index && 3 in index && index[1] == [0] && index[2] == [0, 1] && index[3] == [1]
  {
    forall m, id ensures ListedUnder(index, m, id) <==> (id == 0 && (m == 1 || m == 2)) || (id == 1 && (m == 2 || m == 3)) {
    }
    hide Indexed;
    assert ListedUnder(index, 1, 0) && ListedUnder(index, 2, 0) && ListedUnder(index, 2, 1) && ListedUnder(index, 3, 1);
    OnlyMembers(index, Constraints(), 1, 0, 0);
    OnlyMembers(index, Constraints(), 2, 0, 1);
    OnlyMembers(index, Constraints(), 3, 1, 1);
  }

  /** A market lists its constraints in increasing order, none twice. */
  lemma OnlyMembers(index: map<nat, seq<nat>>, compiled: map<nat, Legs<PayoffLeg>>, m: nat, a: nat, b: nat)
    requires Indexed(index, compiled) && a <= b && forall id :: ListedUnder(index, m, id) <==> id == a || id == b
    ensures m in index && index[m] == if a == b then [a] else [a, b]
  {
    assert ListedUnder(index, m, a) && ListedUnder(index, m, b);
    var ids := index[m];
    forall i | 0 <= i < |ids| ensures ids[i] == a || ids[i] == b {
      assert ListedUnder(index, m, ids[i]);
    }
    assert Increasing(ids);
    hide Indexed;
    assert a in ids && b in ids;
    assert |ids| >= 2 ==> ids[0] < ids[1];
    if |ids| > 2 {
      FirstThree(ids);
    }
  }

  lemma FirstThree(ids: seq<nat>)
    requires Increasing(ids) && |ids| > 2
    ensures ids[0] < ids[1] < ids[2]
  {
  }

  // ------------------------------------------------------------------------
  // One contract at one price
  // ------------------------------------------------------------------------

  /** A side with one level is visited as that level. */
  lemma OneAskVisited(price: Price)
    ensures Visited(OneAsk(price), Ask) == [Level(price, 100)]
  {
    hide Visited, Sorted;
    var b, v := OneAsk(price), Visited(OneAsk(price), Ask);
    var m := SideOf(b, Ask);
    assert m == map[price := 100];
    VisitedSorted(b, Ask);
    VisitedHas(b, Ask, price);
    forall i | 0 <= i < |v| ensures v[i] == Level(price, 100) {
      VisitedOffers(b, Ask, i);
    }
    OnlyLevel(v, Level(price, 100));
  }

  lemma OnlyLevel(v: seq<Level>, level: Level)
    requires Sorted(Ask, v) && level in v && forall i :: 0 <= i < |v| ==> v[i] == level
    ensures v == [level]
  {
    FirstTwo(v);
  }

  lemma FirstTwo(v: seq<Level>)
    requires Sorted(Ask, v)
    ensures |v| > 1 ==> v[0].price < v[1].price
  {
  }

  function OneTake(leg: PayoffLeg, price: Price): Take {
    Take(Key(leg.marketId, true, price), Trade(100, price), 100)
  }

  /** One contract is taken from an untouched level. */
  lemma OneContractTaken(t: Terms, price: Price, c: Consumed)
    requires t.leg.yes && !t.sell && t.limit >= price && t.step == 100 && t.share == 10_000
    requires Key(t.leg.marketId, true, price) !in c
    ensures Takes(t, [Level(price, 100)], c, 100) == [OneTake(t.leg, price)]
    ensures ConsumeAll(t, c, [OneTake(t.leg, price)]) == if t.execute then c[Key(t.leg.marketId, true, price) := 100] else c
  {
    var levels := [Level(price, 100)];
    assert levels[1..] == [];
    assert TakeAt(t, levels[0], c, 100) == OneTake(t.leg, price);
    assert [OneTake(t.leg, price)][1..] == [];
  }

  lemma OneContractCosts(price: Price)
    ensures Fill(true, 100, price, FEE, 0) == FillAmounts(100 * price, 0, 0, 0, 100 * price)
    ensures AddFill(true, OPENED, Trade(100, price), FEE) == Ledger(100, 100 * price, 0, 100 * price, 0)
    ensures Reserve(100, 100, price, FEE) == 100 * price + 101
  {
    assert FeeFactor(price, 0) == 0 && FeeFactor(5_000, 0) == 0;
    assert TradeFee(100, price, 0) == 0 && TradeFee(100, 5_000, 0) == 0;
  }

  function OneFill(price: Price): Execution {
    Execution(100, 100 * price, 100 * price, 0, price, 1)
  }

  lemma OneContractExecuted(t: Terms, price: Price)
    requires t.leg.yes && !t.sell
    ensures Executed(t, FEE, [OneTake(t.leg, price)]) == OneFill(price)
  {
    OneContractCosts(price);
    hide Fill, AddFill;
    var takes := [OneTake(t.leg, price)];
    assert takes[1..] == [];
    assert Trades(takes) == [Trade(100, price)];
    assert [Trade(100, price)][1..] == [];
    assert AddFills(true, OPENED, [Trade(100, price)], FEE) == AddFills(true, AddFill(true, OPENED, Trade(100, price), FEE), [], FEE);
  }

  /** A buy of one contract in the run's market. */
  lemma OneContractBought(t: Terms, price: Price, c: Consumed)
    requires t.leg.marketId in RunMarket().books && RunMarket().books[t.leg.marketId] == OneAsk(price)
    requires t.leg.yes && !t.sell && t.limit >= price && t.step == 100 && t.share == 10_000
    requires Key(t.leg.marketId, true, price) !in c
    ensures TakesOf(RunMarket(), t, c, 100) == [OneTake(t.leg, price)]
    ensures Executed(t, FEE, [OneTake(t.leg, price)]) == OneFill(price)
    ensures t.execute ==> Depleted(t, LevelsFor(RunMarket(), t), c, 100) == c[Key(t.leg.marketId, true, price) := 100]
  {
    OneAskVisited(price);
    OneContractTaken(t, price, c);
    OneContractExecuted(t, price);
    hide Visited, Takes, Executed, ConsumeAll;
  }

  // ------------------------------------------------------------------------
  // The decision
  // ------------------------------------------------------------------------

  function RunAttempt(): Attempt {
    Attempt(0, PAIR, 1, 100, Legs(4_999, 5_000), Legs(500_001, 500_101), Legs(NOTHING, NOTHING), 0, 0, 0, false)
  }

  function OneLevel(price: Price): DepthWalk.BuyDepth {
    DepthWalk.BuyDepth([DepthWalk.BuyLevel(price, 100)], FEE)
  }

  lemma RunDepth(leg: PayoffLeg, price: Price)
    requires ValidPolicy(RunPolicy()) && leg.yes && leg.marketId in RunMarket().books && RunMarket().books[leg.marketId] == OneAsk(price)
    ensures DepthOf(Takes(BuyTerms(RunPolicy(), leg), LevelsFor(RunMarket(), BuyTerms(RunPolicy(), leg)), map[], 100)) == [DepthWalk.BuyLevel(price, 100)]
  {
    hide ValidPolicy, RunMarket;
    OneContractBought(BuyTerms(RunPolicy(), leg), price, map[]);
    hide Takes, Executed, Depleted, LevelsFor, RunPolicy;
    assert [OneTake(leg, price)][1..] == [];
  }

  lemma RunDepths()
    ensures ValidPolicy(RunPolicy()) && Tradable(RunPolicy(), PAIR)
    ensures DepthsOf(RunPolicy(), map[], PAIR, RunMarket()) == PairOptimum.Pair(OneLevel(4_999), OneLevel(5_000))
  {
    hide Takes, LevelsFor, ValidPolicy, DepthOf, RunMarket, BuyTerms, RunPolicy, Fit, OneAsk;
    InputFits();
    RunBooks();
    PolicyFacts();
    RunDepth(PAIR.first, 4_999);
    RunDepth(PAIR.second, 5_000);
  }

  lemma RunBooks()
    ensures var m := RunMarket();
      && m.connected && m.generation == Some(1) && 1 in m.books && 2 in m.books
      && m.books[1] == OneAsk(4_999) && m.books[2] == OneAsk(5_000)
      && MarketStates.Live(m, 1) && MarketStates.Live(m, 2)
    ensures LastMarket().connected && MarketStates.Live(LastMarket(), 2) && MarketStates.Live(LastMarket(), 3)
  {
  }

  lemma PolicyFacts()
    ensures var p := RunPolicy();
      && p.capital == CASH_LIMIT && Tradable(p, PAIR) && Tradable(p, NEXT_PAIR) && p.quantityCap == p.step == 100 && p.fillShare == 10_000
      && p.fees[1] == FEE && p.fees[2] == FEE
      && !p.reject.first && !p.reject.second && p.exit.None? && p.maxAge == 1_000 && !p.sequential
      && p.latency == Legs(1, 1) && p.responseLatency == Legs(1, 10) && p.settlements == [Positions.Settlement(1, true, 5)]
  {
  }

  lemma OneContractQuoted(price: Price)
    ensures DepthWalk.Acquire(OneLevel(price), 100, 100) == Some(DepthWalk.Acquisition(Ledger(100, 100 * price, 0, 100 * price, 0), price))
    ensures DepthWalk.LegOf(OneLevel(price), 100, 100) == DepthWalk.SizedLeg(price, 100 * price, 100 * price, 100 * price + 101)
  {
    OneContractCosts(price);
    hide AddFill, Reserve;
  }

  /** The first decision buys one pair. */
  lemma FirstDecision(c: Scene, d: Decision)
    requires ValidPolicy(RunPolicy()) && Tradable(RunPolicy(), PAIR) && c.consumed == map[]
    requires Searched(RunPolicy(), c, CASH_LIMIT, 0, PAIR, d, 0, RunMarket())
    ensures d.attempt == Some(RunAttempt())
  {
    hide ValidPolicy, RunMarket;
    RunDepths();
    var pair, lim := PairOptimum.Pair(OneLevel(4_999), OneLevel(5_000)), LimitsFor(RunPolicy(), CASH_LIMIT);
    hide DepthsOf;
    assert d.search.Some? && PairOptimum.ValidInput(pair, lim) && NetSizing.Answer(pair, lim, d.search.value);
    OnePairOptimal(lim, d.search.value);
    assert RunMarket().generation == Some(1) by { RunGeneration(); }
  }

  lemma RunGeneration()
    ensures RunMarket().generation == Some(1)
  {
  }

  /** One contract is all that the cap allows, and it has a margin: it is the optimum. */
  lemma OnePairOptimal(lim: DepthWalk.SizingLimits, r: NetSizing.SizingResult)
    requires lim == DepthWalk.SizingLimits(100, 100, CASH_LIMIT, 0, 1)
    requires PairOptimum.ValidInput(PairOptimum.Pair(OneLevel(4_999), OneLevel(5_000)), lim)
    requires NetSizing.Answer(PairOptimum.Pair(OneLevel(4_999), OneLevel(5_000)), lim, r)
    ensures r.quote.Some? && r.quote.value.quantity == 100
    ensures r.quote.value.first == DepthWalk.SizedLeg(4_999, 499_900, 499_900, 500_001)
    ensures r.quote.value.second == DepthWalk.SizedLeg(5_000, 500_000, 500_000, 500_101)
  {
    hide PairOptimum.Candidate, PairOptimum.ValidInput, DepthWalk.LegOf, PairOptimum.Covered, PairOptimum.PairReserve, PairOptimum.Margin, OneLevel;
    OnePairCompetes(lim);
    OneContractQuoted(4_999);
    OneContractQuoted(5_000);
    assert NetSizing.GridIndex(100, 100) == 1;
    assert r.quote.Some?;
    CandidateIsOne(lim, r.quote.value.quantity);
  }

  lemma OnePairCompetes(lim: DepthWalk.SizingLimits)
    requires lim == DepthWalk.SizingLimits(100, 100, CASH_LIMIT, 0, 1)
    requires PairOptimum.ValidInput(PairOptimum.Pair(OneLevel(4_999), OneLevel(5_000)), lim)
    ensures PairOptimum.Candidate(PairOptimum.Pair(OneLevel(4_999), OneLevel(5_000)), lim, 100)
  {
    hide DepthWalk.Acquire, DepthWalk.LegOf, OneLevel, PairOptimum.ValidInput, PairOptimum.Covered, PairOptimum.PairReserve, PairOptimum.Margin;
    OnePairNumbers(4_999, 5_000, 100);
  }

  lemma OnePairNumbers(first: Price, second: Price, q: nat)
    requires q == 100
    ensures var d := PairOptimum.Pair(OneLevel(first), OneLevel(second));
      && PairOptimum.ValidDepth(d.first) && PairOptimum.ValidDepth(d.second) && PairOptimum.Covered(d, q, q)
      && PairOptimum.PairReserve(d, q, q) == 100 * first + 100 * second + 202
      && PairOptimum.Margin(d, q, q) == 1_000_000 - 100 * first - 100 * second
  {
    OneContractQuoted(first);
    OneContractQuoted(second);
    hide DepthWalk.Acquire, DepthWalk.LegOf;
  }

  lemma CandidateIsOne(lim: DepthWalk.SizingLimits, q: int)
    requires lim == DepthWalk.SizingLimits(100, 100, CASH_LIMIT, 0, 1) && q >= 0
    requires PairOptimum.ValidInput(PairOptimum.Pair(OneLevel(4_999), OneLevel(5_000)), lim)
    ensures PairOptimum.Candidate(PairOptimum.Pair(OneLevel(4_999), OneLevel(5_000)), lim, q) ==> q == 100
  {
    hide OneLevel, PairOptimum.Covered, PairOptimum.Margin, PairOptimum.PairReserve;
    OnlyOne(q);
  }

  lemma OnlyOne(q: int)
    ensures OnGrid(q, 100) && 100 <= q <= 100 ==> q == 100
  {
  }

  // ------------------------------------------------------------------------
  // The run
  // ------------------------------------------------------------------------

  const EMPTY := Positions.Stock(PayoffLeg(0, false), [])
  const CASH_LEFT := CASH_LIMIT - 1_000_102

  function Buy(leg: nat, price: Price, fill: Execution, arrived: bool, responded: bool): Order {
    Order(0, leg, 100, price, 100 * price + 101, fill, arrived, responded, false)
  }

  function Taken(firstTaken: bool, secondTaken: bool): Consumed {
    var c: Consumed := map[];
    var c' := if firstTaken then c[Key(1, true, 4_999) := 100] else c;
    if secondTaken then c'[Key(2, true, 5_000) := 100] else c'
  }

  function Progress(fills: Legs<Execution>, reserve: Legs<int>, pending: nat): Attempt {
    RunAttempt().(fills := fills, reserve := reserve, pendingBuys := pending)
  }

  const FIRST := OneFill(4_999)
  const SECOND := OneFill(5_000)
  const HELD_FIRST := Positions.Stock(PayoffLeg(1, true), [Holding(100, 499_900, 1)])
  const HELD_SECOND := Positions.Stock(PayoffLeg(2, true), [Holding(100, 500_000, 1)])

  function RunScene(consumed: Consumed, settled: set<nat>, first: Positions.Stock, second: Positions.Stock): Scene {
    Scene(consumed, settled, map[1 := 0, 2 := 0], [first, second, EMPTY, EMPTY])
  }

  /** Both orders are on their way. */
  function Sent(): Moment {
    Moment(Account([Progress(Legs(NOTHING, NOTHING), Legs(500_001, 500_101), 2)],
                   [Buy(0, 4_999, NOTHING, false, false), Buy(1, 5_000, NOTHING, false, false)],
                   [Event(1, 0, false), Event(1, 1, false)], CASH_LEFT, 1_000_102, 0, 0, 0, 0, 0, 0, 0),
           RunScene(Taken(false, false), {}, EMPTY, EMPTY), 0, 0, 0, 0)
  }

  /** The first order has executed. */
  function FirstArrived(): Moment {
    Moment(Account([Progress(Legs(FIRST, NOTHING), Legs(500_001, 500_101), 2)],
                   [Buy(0, 4_999, FIRST, true, false), Buy(1, 5_000, NOTHING, false, false)],
                   [Event(1, 1, false), Event(2, 0, true)], CASH_LEFT, 1_000_102, 499_900, 0, 499_900, 499_900, 0, 0, 0),
           RunScene(Taken(true, false), {}, HELD_FIRST, EMPTY), 0, 0, 0, 0)
  }

  /** So has the second. */
  function BothArrived(): Moment {
    Moment(Account([Progress(Legs(FIRST, SECOND), Legs(500_001, 500_101), 2)],
                   [Buy(0, 4_999, FIRST, true, false), Buy(1, 5_000, SECOND, true, false)],
                   [Event(2, 0, true), Event(11, 1, true)], CASH_LEFT, 1_000_102, 999_900, 0, 999_900, 999_900, 0, 0, 0),
           RunScene(Taken(true, true), {}, HELD_FIRST, HELD_SECOND), 0, 0, 0, 0)
  }

  /** The first order is answered; the second still holds its reservation. */
  function FirstAnswered(): Moment {
    Moment(Account([Progress(Legs(FIRST, SECOND), Legs(0, 500_101), 1)],
                   [Buy(0, 4_999, FIRST, true, true), Buy(1, 5_000, SECOND, true, false)],
                   [Event(11, 1, true)], CASH_LEFT + 101, 500_101, 500_000, 0, 999_900, 999_900, 0, 0, 0),
           RunScene(Taken(true, true), {}, HELD_FIRST, HELD_SECOND), 0, 0, 0, 0)
  }

  /** The first market has paid a dollar: the available cash is just within the limit. */
  function Settled(): Moment {
    Moment(Account([Progress(Legs(FIRST, SECOND), Legs(0, 500_101), 1)],
                   [Buy(0, 4_999, FIRST, true, true), Buy(1, 5_000, SECOND, true, false)],
                   [Event(11, 1, true)], CASH_LIMIT - 1, 500_101, 500_000, 0, 999_900, 999_900, 1_000_000, 0, 0),
           RunScene(Taken(true, true), {1}, Positions.Stock(PayoffLeg(1, true), []), HELD_SECOND), 1, 4 * 499_900, 0, 0)
  }

  /** The second order is answered, and what it did not spend is available too. */
  function BothAnswered(): Moment {
    Moment(Account([Progress(Legs(FIRST, SECOND), Legs(0, 0), 0)],
                   [Buy(0, 4_999, FIRST, true, true), Buy(1, 5_000, SECOND, true, true)],
                   [], CASH_LIMIT + 100, 0, 0, 0, 999_900, 999_900, 1_000_000, 0, 0),
           RunScene(Taken(true, true), {1}, Positions.Stock(PayoffLeg(1, true), []), HELD_SECOND), 1, 4 * 499_900, 0, 0)
  }

  /** One step of the run. */
  predicate Leads(m: Moment, n: Moment) {
    Due(RunPolicy(), m, 12, false) && Ready(RunPolicy(), m) && FaultOf(RunPolicy(), m, RunMarket()) == None
    && Outcome(RunPolicy(), m, RunMarket()) == n
  }

  lemma BuyFits(a: Attempt, leg: nat, price: Price, fill: Execution, arrived: bool, responded: bool)
    requires leg < 2 && a.legs == PAIR && a.quantity == 100 && fill in {NOTHING, OneFill(price)} && (responded ==> arrived)
    requires !arrived ==> fill == NOTHING && a.fills.At(leg).quantity == 0
    requires !responded ==> a.reserve.At(leg) == 100 * price + 101
    ensures OrderFits(RunPolicy(), a, Buy(leg, price, fill, arrived, responded))
    ensures Tradable(RunPolicy(), a.legs)
  {
    OneContractCosts(price);
    hide Reserve, Fill, AddFill;
  }

  lemma FirstArrives()
    ensures Leads(Sent(), FirstArrived())
  {
    hide ValidPolicy, RunPolicy, RunMarket, Fit, EventReady, BuyFill, BuyConsumption;
    InputFits();
    PolicyFacts();
    var m := Sent();
    RunBuys(m.scene, m.books.attempts[0], 0, 4_999);
    SentReady();
    InsertBehind(Event(1, 1, false), Event(2, 0, true));
    hide Insert;
    var n := AfterBuy(RunPolicy(), m, RunMarket());
    assert Queued(RunPolicy(), m.books) == FirstArrived().books.events;
    assert n.books == FirstArrived().books;
    assert n.scene.consumed == FirstArrived().scene.consumed;
    assert n.scene.stocks[0].lots == HELD_FIRST.lots;
    assert n.scene.stocks == FirstArrived().scene.stocks;
    assert n.scene == FirstArrived().scene;
  }

  lemma InsertBehind(first: Event, e: Event)
    requires !Precedes(e, first)
    ensures Insert([first], e) == [first, e]
  {
    assert [first][1..] == [];
    assert Place([], e) == 0;
  }

  lemma SentReady()
    ensures EventReady(RunPolicy(), Sent())
  {
    hide ValidPolicy, RunPolicy, OrderFits, Fit;
    InputFits();
    PolicyFacts();
    var m := Sent();
    BuyFits(m.books.attempts[0], 0, 4_999, NOTHING, false, false);
  }

  lemma SecondArrives()
    ensures Leads(FirstArrived(), BothArrived())
  {
    hide ValidPolicy, RunPolicy, RunMarket, Fit, EventReady, BuyFill, BuyConsumption;
    InputFits();
    PolicyFacts();
    var m := FirstArrived();
    RunBuys(m.scene, m.books.attempts[0], 1, 5_000);
    FirstArrivedReady();
    InsertBehind(Event(2, 0, true), Event(11, 1, true));
    hide Insert;
    var n := AfterBuy(RunPolicy(), m, RunMarket());
    assert Queued(RunPolicy(), m.books) == BothArrived().books.events;
    assert n.books == BothArrived().books;
    assert n.scene.consumed == BothArrived().scene.consumed;
    assert n.scene.stocks[1].lots == HELD_SECOND.lots;
    assert n.scene.stocks == BothArrived().scene.stocks;
    assert n.scene == BothArrived().scene;
  }

  lemma FirstArrivedReady()
    ensures EventReady(RunPolicy(), FirstArrived())
  {
    hide ValidPolicy, RunPolicy, OrderFits, Fit;
    InputFits();
    PolicyFacts();
    var m := FirstArrived();
    BuyFits(m.books.attempts[0], 1, 5_000, NOTHING, false, false);
  }

  lemma FirstResponds()
    ensures Leads(BothArrived(), FirstAnswered())
  {
    hide ValidPolicy, RunPolicy, RunMarket, Fit, OrderFits;
    InputFits();
    PolicyFacts();
    var m := BothArrived();
    BuyFits(m.books.attempts[0], 0, 4_999, FIRST, true, false);
    assert EventReady(RunPolicy(), m);
    hide EventReady;
    var n := AfterResponse(RunPolicy(), m, RunMarket());
    assert n.books.orders == FirstAnswered().books.orders;
    assert n.books == FirstAnswered().books;
  }

  lemma MarketSettles()
    ensures Leads(FirstAnswered(), Settled())
  {
    hide ValidPolicy, RunPolicy, RunMarket, Fit, EventReady, Positions.SettledPayout, Positions.SettledCostTime, Positions.SettleFault;
    InputFits();
    PolicyFacts();
    var m := FirstAnswered();
    SettledPair(Positions.Settlement(1, true, 5), 0);
    var n := AfterSettlement(RunPolicy(), m);
    assert n.scene.stocks == Settled().scene.stocks;
    assert n.scene == Settled().scene;
    assert n.books == Settled().books;
  }

  lemma SettledPair(x: Positions.Settlement, value: int)
    requires x == Positions.Settlement(1, true, 5) && value == 0
    ensures var stocks := [HELD_FIRST, HELD_SECOND, EMPTY, EMPTY];
      && Positions.SettledPayout(stocks, x) == 1_000_000 && Positions.SettledCostTime(stocks, x) == 4 * 499_900
      && Positions.SettleFault(stocks, x, value) == None
  {
    var stocks := [HELD_FIRST, HELD_SECOND, EMPTY, EMPTY];
    assert stocks[..0] == [] && stocks[..4] == stocks;
    assert HELD_FIRST.lots[1..] == [];
    assert CloseFifo(HELD_FIRST.lots, 100, 5) == Closed([], 499_900, 499_900 * 4);
    Positions.NothingSettled(x, value);
    Positions.SettledNext(stocks, 0, x, value);
    Positions.SettledNext(stocks, 1, x, value);
    Positions.SettledNext(stocks, 2, x, value);
    Positions.SettledNext(stocks, 3, x, value);
    hide Positions.SettledPayout, Positions.SettledCostTime, Positions.SettledQuantity, Positions.SettleFault, CloseFifo;
  }

  lemma SecondResponds()
    ensures Leads(Settled(), BothAnswered())
  {
    hide ValidPolicy, RunPolicy, RunMarket, Fit, OrderFits;
    InputFits();
    PolicyFacts();
    var m := Settled();
    BuyFits(m.books.attempts[0], 1, 5_000, SECOND, true, false);
    assert EventReady(RunPolicy(), m);
    hide EventReady;
    var n := AfterResponse(RunPolicy(), m, RunMarket());
    assert n.books.orders == BothAnswered().books.orders;
    assert n.books == BothAnswered().books;
  }

  /** A buy that arrives at its quoted price is filled. */
  lemma RunBuys(c: Scene, a: Attempt, leg: nat, price: Price)
    requires ValidPolicy(RunPolicy()) && Tradable(RunPolicy(), PAIR)
    requires c.settled == {} && c.updates == map[1 := 0, 2 := 0] && a.legs == PAIR && a.generation == 1
    requires (leg == 0 && price == 4_999) || (leg == 1 && price == 5_000)
    requires Key(PAIR.At(leg).marketId, true, price) !in c.consumed
    ensures var x := Buy(leg, price, NOTHING, false, false);
      && BuyFill(RunPolicy(), c, a, x, 1, RunMarket()) == OneFill(price)
      && BuyConsumption(RunPolicy(), c, a, x, 1, RunMarket()) == c.consumed[Key(PAIR.At(leg).marketId, true, price) := 100]
  {
    hide ValidPolicy, RunMarket, RunPolicy, Depleted, Executed, Takes, LevelsFor, OneAsk, Visited;
    PolicyFacts();
    RunBooks();
    OneContractBought(BuyTermsOf(RunPolicy(), a, Buy(leg, price, NOTHING, false, false)), price, c.consumed);
  }

  // ------------------------------------------------------------------------
  // The records
  // ------------------------------------------------------------------------

  lemma InsertFirst(e: Event)
    ensures Insert([], e) == [e]
  {
    assert Place([], e) == 0;
  }

  /** The decision sends both orders. */
  lemma DecidedIsSent(s: Account, d: Decision)
    requires s == Account([], [], [], CASH_LIMIT, 0, 0, 0, 0, 0, 0, 0, 0) && d.attempt == Some(RunAttempt())
    ensures AllDecided(RunPolicy(), s, [d], 0) == Sent().books
  {
    PolicyFacts();
    InsertFirst(Event(1, 0, false));
    InsertBehind(Event(1, 0, false), Event(1, 1, false));
    hide Insert, RunPolicy;
    assert [d][..0] == [];
    var t := Decided(RunPolicy(), s, RunAttempt(), 0);
    assert t.orders == Sent().books.orders;
    assert t.attempts == Sent().books.attempts;
    assert t.events == Sent().books.events;
  }

  /** A constraint cannot be bought before both of its markets have been seen. */
  lemma NotSeen(c: Scene, legs: Legs<PayoffLeg>, time: int, market: Market)
    requires legs.first.marketId !in c.updates || legs.second.marketId !in c.updates
    ensures !Decidable(RunPolicy(), c, legs, time, market)
  {
    hide RunPolicy;
  }

  /** The first record decides nothing. */
  lemma FirstRecord(c: Scene, s: Account, ds: seq<Decision>, fault: Option<Fault>)
    requires c.updates == map[1 := 0]
    requires Decisions(RunPolicy(), Constraints(), c, s, {}, [0], ds, 0, FirstMarket())
    requires if fault.None? then |ds| == 1 else Stops(RunPolicy(), Constraints(), c, s, {}, [0], ds, 0, FirstMarket(), fault)
    ensures fault.None? && ds == [UNDECIDED] && AllDecided(RunPolicy(), s, ds, 0) == s
  {
    hide RunPolicy, FirstMarket, Searched, Decidable;
    NotSeen(c, PAIR, 0, FirstMarket());
    if |ds| > 0 {
      OneConsidered(c, s, {}, [0], ds, 0, FirstMarket());
      NothingDecided(RunPolicy(), s, 0);
      NextDecided(RunPolicy(), s, [], UNDECIDED, 0);
      assert ds == [] + [UNDECIDED];
    }
  }

  /** The record that completes the first pair decides it, and not the second. */
  lemma SecondRecord(c: Scene, s: Account, ds: seq<Decision>, fault: Option<Fault>)
    requires s == Account([], [], [], CASH_LIMIT, 0, 0, 0, 0, 0, 0, 0, 0)
    requires c.consumed == map[] && c.settled == {} && c.updates == map[1 := 0, 2 := 0]
    requires Decisions(RunPolicy(), Constraints(), c, s, {}, [0, 1], ds, 0, RunMarket())
    requires if fault.None? then |ds| == 2 else Stops(RunPolicy(), Constraints(), c, s, {}, [0, 1], ds, 0, RunMarket(), fault)
    ensures fault.None? && AllDecided(RunPolicy(), s, ds, 0) == Sent().books && |ds| == 2
    ensures ds[0].attempt == Some(RunAttempt()) && ds[1] == UNDECIDED
  {
    hide ValidPolicy, RunPolicy, RunMarket, Searched, Fit, Decisions, Known, Late, AllDecided;
    InputFits();
    PolicyFacts();
    NotSeen(c, NEXT_PAIR, 0, RunMarket());
    PairDecidable(c);
    NotStopped(c, s, ds, fault);
    OneConsidered(c, s, {}, [0, 1], ds, 0, RunMarket());
    FirstDecision(c, ds[0]);
    DecidedIsSent(s, ds[0]);
    NotDecided(c, s, {}, [0, 1], ds, 1, 0, RunMarket());
    assert ds == [ds[0]] + [UNDECIDED];
    NextDecided(RunPolicy(), s, [ds[0]], UNDECIDED, 0);
  }

  lemma PairDecidable(c: Scene)
    requires c.settled == {} && c.updates == map[1 := 0, 2 := 0]
    ensures Decidable(RunPolicy(), c, PAIR, 0, RunMarket())
  {
    hide RunPolicy, RunMarket;
    PolicyFacts();
    RunBooks();
  }

  /** Neither decision of the second record faults. */
  lemma NotStopped(c: Scene, s: Account, ds: seq<Decision>, fault: Option<Fault>)
    requires s.available == CASH_LIMIT && !Decidable(RunPolicy(), c, NEXT_PAIR, 0, RunMarket())
    requires Decisions(RunPolicy(), Constraints(), c, s, {}, [0, 1], ds, 0, RunMarket())
    requires if fault.None? then |ds| == 2 else Stops(RunPolicy(), Constraints(), c, s, {}, [0, 1], ds, 0, RunMarket(), fault)
    ensures fault.None? && |ds| == 2
  {
    hide RunPolicy, RunMarket, Searched, Decidable, Known, Considered;
    PolicyFacts();
    NothingYet(s, ds, 0);
  }

  lemma NothingYet(s: Account, ds: seq<Decision>, time: int)
    ensures ds == [] ==> AllDecided(RunPolicy(), s, ds, time) == s
  {
  }

  /** The first decision of a record is on the cash before it. */
  lemma OneConsidered(c: Scene, s: Account, attempted: set<nat>, ids: seq<nat>, ds: seq<Decision>, time: int, market: Market)
    requires 0 < |ds| && Decisions(RunPolicy(), Constraints(), c, s, attempted, ids, ds, time, market)
    ensures ids[0] in Constraints()
    ensures Justified(RunPolicy(), c, s.available, ids[0], Constraints()[ids[0]], ids[0] in attempted, ds[0], time, market)
  {
    hide RunPolicy, Justified, Constraints;
    assert Considered(RunPolicy(), c, s, attempted, Constraints()[ids[0]], ids[0], ds, 0, time, market);
    assert ds[..0] == [];
    NothingDecided(RunPolicy(), s, time);
    NothingKnown(attempted);
  }

  /** A constraint that cannot be bought is not decided. */
  lemma NotDecided(c: Scene, s: Account, attempted: set<nat>, ids: seq<nat>, ds: seq<Decision>, i: nat, time: int, market: Market)
    requires i < |ds| && Decisions(RunPolicy(), Constraints(), c, s, attempted, ids, ds, time, market)
    requires ids[i] in Constraints() && !Decidable(RunPolicy(), c, Constraints()[ids[i]], time, market)
    ensures ds[i] == UNDECIDED
  {
    hide RunPolicy, Constraints, Decidable, Searched, Known;
    assert Considered(RunPolicy(), c, s, attempted, Constraints()[ids[i]], ids[i], ds, i, time, market);
  }

  /** The record after the run finds more cash than sizing accepts. */
  lemma LastRecord(c: Scene, s: Account, attempted: set<nat>, ds: seq<Decision>, fault: Option<Fault>)
    requires s.available > CASH_LIMIT && 1 !in attempted
    requires c.settled == {1} && c.updates == map[1 := 0, 2 := 0, 3 := 12]
    requires Decisions(RunPolicy(), Constraints(), c, s, attempted, [1], ds, 12, LastMarket())
    requires if fault.None? then |ds| == 1 else Stops(RunPolicy(), Constraints(), c, s, attempted, [1], ds, 12, LastMarket(), fault)
    ensures fault == Some(SizingInput)
  {
    hide ValidPolicy, RunPolicy, LastMarket, Fit;
    PolicyFacts();
    RunBooks();
    NothingYet(s, ds, 12);
    if |ds| > 0 {
      OneConsidered(c, s, attempted, [1], ds, 12, LastMarket());
    }
  }

  // ------------------------------------------------------------------------
  // The event loop
  // ------------------------------------------------------------------------

  /** What a call of `Before` says of its trace. */
  ghost predicate Ran(trace: seq<Moment>, fault: Option<Fault>) {
    && Traced(RunPolicy(), RunMarket(), 12, false, trace)
    && (fault.None? ==> !Due(RunPolicy(), trace[|trace| - 1], 12, false))
    && (fault.Some? ==> FailsAt(RunPolicy(), RunMarket(), 12, false, trace[|trace| - 1], fault))
  }

  lemma NextMoment(trace: seq<Moment>, fault: Option<Fault>, i: nat, m: Moment, n: Moment)
    requires Ran(trace, fault) && i < |trace| && trace[i] == m && Leads(m, n)
    ensures i + 1 < |trace| && trace[i + 1] == n
  {
    hide Due, Ready, FaultOf, Outcome, RunPolicy, RunMarket;
    if i + 1 < |trace| {
      assert Stepped(RunPolicy(), RunMarket(), 12, false, trace[i], trace[i + 1]);
    }
  }

  /** The whole run: five steps, and nothing that stops it. */
  lemma RunEnds(trace: seq<Moment>, fault: Option<Fault>)
    requires Ran(trace, fault) && 0 < |trace| && trace[0] == Sent()
    ensures fault.None? && trace[|trace| - 1] == BothAnswered()
  {
    hide Ran, Leads, Sent, FirstArrived, BothArrived, FirstAnswered, Settled;
    FirstArrives();
    SecondArrives();
    FirstResponds();
    MarketSettles();
    SecondResponds();
    NextMoment(trace, fault, 0, Sent(), FirstArrived());
    NextMoment(trace, fault, 1, FirstArrived(), BothArrived());
    NextMoment(trace, fault, 2, BothArrived(), FirstAnswered());
    NextMoment(trace, fault, 3, FirstAnswered(), Settled());
    NextMoment(trace, fault, 4, Settled(), BothAnswered());
    LastMoment(trace, fault);
  }

  lemma LastMoment(trace: seq<Moment>, fault: Option<Fault>)
    requires Ran(trace, fault) && 5 < |trace| && trace[5] == BothAnswered()
    ensures fault.None? && |trace| == 6
  {
    PolicyFacts();
    hide Ready, FaultOf, Outcome, RunPolicy, RunMarket;
    assert !Due(RunPolicy(), BothAnswered(), 12, false);
    if |trace| > 6 {
      StepWasDue(trace, fault, 5);
    }
  }

  lemma StepWasDue(trace: seq<Moment>, fault: Option<Fault>, i: nat)
    requires Ran(trace, fault) && i + 1 < |trace|
    ensures Due(RunPolicy(), trace[i], 12, false)
  {
    hide Due, Ready, FaultOf, Outcome, RunPolicy, RunMarket;
    assert Stepped(RunPolicy(), RunMarket(), 12, false, trace[i], trace[i + 1]);
  }

  /** The first two records: the second completes the first pair, and one attempt is made. */
  method FirstRecords(sim: Simulation) returns (first: Option<Fault>, second: Option<Fault>)
    requires sim.Holds(None) && sim.Wired() && sim.policy == RunPolicy() && sim.compiledLegs == Constraints()
    requires sim.Current() == StartOf(RunPolicy(), 2) && sim.attempted == {} && sim.now == 0
    modifies sim`lastUpdate, sim`events, sim`orders, sim`available, sim`reservedTotal, sim`attempts, sim`attempted
    ensures first == second == None && sim.Holds(None) && sim.Current() == Sent() && 1 !in sim.attempted
  {
    hide ValidPolicy, RunPolicy, FirstMarket, RunMarket, Fit, Simulation.Holds, Searched, Considered, Justified, Late, Fresh, Constraints,
      Indexed, Decisions, Stops, Known, AllDecided;
    InputFits();
    OtherMarketsFit();
    PolicyFacts();
    RunIndex(sim.dependencies);
    ghost var s, ds := sim.Books(), [];
    first, ds := sim.After(Some(1), true, 0, FirstMarket());
    FirstRecord(sim.Look(), s, ds, first);
    KnownBy(ds, {});
    assert sim.attempted == {};
    second, ds := sim.After(Some(2), true, 0, RunMarket());
    assert sim.Look() == Scene(map[], {}, map[1 := 0, 2 := 0], sim.positions.Stocks());
    SecondRecord(sim.Look(), s, ds, second);
    KnownBy(ds, {});
    assert sim.Current() == Sent();
  }

  /** Which constraints have an attempt after one or two decisions. */
  lemma KnownBy(ds: seq<Decision>, attempted: set<nat>)
    ensures ds == [UNDECIDED] ==> forall id :: Known(id, attempted, ds) <==> id in attempted
    ensures |ds| == 2 && ds[0].attempt == Some(RunAttempt()) && ds[1] == UNDECIDED ==>
      forall id :: Known(id, attempted, ds) <==> id in attempted || id == 0
  {
    hide Known;
    NothingKnown(attempted);
    if ds == [UNDECIDED] {
      forall id ensures Known(id, attempted, ds) <==> id in attempted {
        NextKnown(attempted, [], UNDECIDED, id);
        assert [] + [UNDECIDED] == ds;
      }
    }
    if |ds| == 2 && ds[0].attempt == Some(RunAttempt()) && ds[1] == UNDECIDED {
      forall id ensures Known(id, attempted, ds) <==> id in attempted || id == 0 {
        NextKnown(attempted, [], ds[0], id);
        NextKnown(attempted, [ds[0]], UNDECIDED, id);
        assert [] + [ds[0]] == [ds[0]] && [ds[0]] + [UNDECIDED] == ds;
      }
    }
  }

  /** Every call but the last succeeds; the last decision faults on the available cash. */
  method CashAboveLimit() returns (first: Option<Fault>, second: Option<Fault>, third: Option<Fault>, last: Option<Fault>, cash: int)
    ensures first == second == third == None && last == Some(SizingInput) && cash == CASH_LIMIT + 100
  {
    hide ValidPolicy, RunPolicy, RunMarket, LastMarket, Fit, Traced, Due, FailsAt, Simulation.Holds, Decisions, Stops, AllDecided, StartOf, Sent, Ran,
      Indexed, Constraints;
    InputFits();
    OtherMarketsFit();
    RunCatalogue();
    var sim := new Simulation(RunPolicy(), [0, 1], Constraints());
    first, second := FirstRecords(sim);
    ghost var trace, ds;
    third, trace := sim.Before(12, RunMarket());
    assert Ran(trace, third) by { RanMeaning(trace, third); }
    RunEnds(trace, third);
    cash := sim.available;
    ghost var s, attempted := sim.Books(), sim.attempted;
    RunIndex(sim.dependencies);
    last, ds := sim.After(Some(3), true, 12, LastMarket());
    LastRecord(sim.Look(), s, attempted, ds, last);
  }

  lemma RanMeaning(trace: seq<Moment>, fault: Option<Fault>)
    requires Traced(RunPolicy(), RunMarket(), 12, false, trace)
    requires fault.None? ==> !Due(RunPolicy(), trace[|trace| - 1], 12, false)
    requires fault.Some? ==> FailsAt(RunPolicy(), RunMarket(), 12, false, trace[|trace| - 1], fault)
    ensures Ran(trace, fault)
  {
  }
}
