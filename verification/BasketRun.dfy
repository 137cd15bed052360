/** A run of a basket scenario in which an attempt that bought at a price of zero sells what it
    bought: it counts as empty, and its proceeds are in the cash but not in the unwinding result. */
module BasketRuns {
  import opened FixedPoint
  import opened Contracts
  import opened ExecutionCost
  import opened Reservation
  import opened OrderBooks
  import opened DepthWalk
  import opened BasketExecution
  import BasketSizing

  // ------------------------------------------------------------------------
  // The input
  // ------------------------------------------------------------------------

  const FEE := FeePolicy(0, 100)
  const BASKET := Basket(7, Three(0, 1, 2))
  const DELAY := 1_000_000

  function RunConfig(): Config {
    Config(2_000_000, 100, 1, 1, DELAY, map[0 := FEE, 1 := FEE, 2 := FEE])
  }

  /** One contract of the first leg is offered for nothing, and of the others for 50 cents. */
  function Opening(): map<nat, Cached> {
    map[0 := Cached([], [Level(0, 100)], true), 1 := Cached([Level(5_000, 100)], [], true), 2 := Cached([Level(5_000, 100)], [], true)]
  }

  /** The other legs are gone, and the first is bid for at 30 cents. */
  function Closing(): map<nat, Cached> {
    map[0 := Cached([Level(3_000, 100)], [], true), 1 := Cached([], [], true), 2 := Cached([], [], true)]
  }

  lemma InputFits()
    ensures ValidConfig(RunConfig()) && Cache(RunConfig(), Opening()) && Cache(RunConfig(), Closing()) && Tradable(RunConfig(), BASKET)
  {
  }

  lemma ConfigFacts()
    ensures var c := RunConfig();
      && c.capital == 2_000_000 && NewView(c).cash == 2_000_000 && c.cap == 100 && c.margin == 1 && c.maxAttempts == 1 && c.delay == DELAY
      && 0 in c.fees && 1 in c.fees && 2 in c.fees && c.fees[0] == FEE && c.fees[1] == FEE && c.fees[2] == FEE
      && c.fees.Keys == {0, 1, 2}
  {
  }

  // ------------------------------------------------------------------------
  // One contract at one price
  // ------------------------------------------------------------------------

  lemma OneContractCosts(price: Price)
    ensures ExecutionCost.Fill(true, 100, price, FEE, 0) == FillAmounts(100 * price, 0, 0, 0, 100 * price)
    ensures ExecutionCost.Fill(false, 100, price, FEE, 0) == FillAmounts(100 * price, 0, 0, 0, 100 * price)
    ensures Reserve(100, 1, price, FEE) == 100 * price + 10_100
  {
    assert FeeFactor(price, 0) == 0 && FeeFactor(5_000, 0) == 0;
    assert TradeFee(100, price, 0) == 0 && TradeFee(100, 5_000, 0) == 0;
  }

  lemma OneContractReserves(price: Price)
    ensures Reserve(100, 1, price, FEE) == 100 * price + 10_100
  {
    OneContractCosts(price);
    hide Reserve, ExecutionCost.Fill;
  }

  lemma OneContractOpen(w: Want, level: Level, used: Consumed)
    requires level.quantity == 100 && KeyOf(w, level.price) !in used
    ensures Open(w, [level], used, 100) == [BuyLevel(Converted(w, level.price), 100)]
  {
    assert [level][1..] == [];
  }

  lemma OneContractFilled(w: Want, price: Price, limit: Price, used: Consumed)
    requires Acceptable(w, limit, price)
    ensures Filled(w, [BuyLevel(price, 100)], limit, 100) == [Trade(100, price)]
    ensures Outcome(w, FEE, [Trade(100, price)]) == BasketExecution.Fill(100, 100 * price, price)
    ensures DeductAll(w, used, [Trade(100, price)]) == Deduct(w, used, Trade(100, price))
  {
    OneContractCosts(price);
    hide ExecutionCost.Fill;
    assert [BuyLevel(price, 100)][1..] == [];
    assert [Trade(100, price)][1..] == [];
    assert AddFills(!w.sell, OPENED, [Trade(100, price)], FEE) == AddFill(!w.sell, OPENED, Trade(100, price), FEE);
  }

  /** What an order on a side with one untouched level takes. */
  lemma OneContractTaken(w: Want, level: Level, used: Consumed, limit: Price)
    requires level.quantity == 100 && KeyOf(w, level.price) !in used && Acceptable(w, limit, Converted(w, level.price))
    ensures Open(w, [level], used, 100) == [BuyLevel(Converted(w, level.price), 100)]
    ensures Filled(w, Open(w, [level], used, 100), limit, 100) == [Trade(100, Converted(w, level.price))]
    ensures Outcome(w, FEE, [Trade(100, Converted(w, level.price))])
      == BasketExecution.Fill(100, 100 * Converted(w, level.price), Converted(w, level.price))
  {
    OneContractOpen(w, level, used);
    OneContractFilled(w, Converted(w, level.price), limit, used);
    hide Open, Filled, Outcome, DeductAll;
  }

  // ------------------------------------------------------------------------
  // The decision
  // ------------------------------------------------------------------------

  function OneLevel(price: Price): BuyDepth {
    BuyDepth([BuyLevel(price, 100)], FEE)
  }

  lemma RunDepths()
    requires ValidConfig(RunConfig()) && Cache(RunConfig(), Opening()) && Tradable(RunConfig(), BASKET)
    ensures Depths(RunConfig(), map[], BASKET, Opening()) == BasketSizing.Basket(OneLevel(0), OneLevel(5_000), OneLevel(5_000))
  {
    hide RunConfig, ValidConfig, Cache, Open;
    ConfigFacts();
    OneContractOpen(Want(0, true, false), Level(0, 100), map[]);
    OneContractOpen(Want(1, false, false), Level(5_000, 100), map[]);
    OneContractOpen(Want(2, false, false), Level(5_000, 100), map[]);
  }

  lemma OneContractQuoted(price: Price)
    ensures Acquire(OneLevel(price), 1, 100).Some?
    ensures LegOf(OneLevel(price), 1, 100) == SizedLeg(price, 100 * price, 100 * price, 100 * price + 10_100)
  {
    OneContractCosts(price);
    hide ExecutionCost.Fill, Reserve;
  }

  lemma OneBasketNumbers(first: Price, second: Price, third: Price, q: nat)
    requires q == 100
    ensures var d := BasketSizing.Basket(OneLevel(first), OneLevel(second), OneLevel(third));
      && BasketSizing.ValidLeg(d.first) && BasketSizing.ValidLeg(d.second) && BasketSizing.ValidLeg(d.third)
      && BasketSizing.Covered(d, q)
      && BasketSizing.TotalReserve(BasketSizing.Quote(d, q)) == 100 * first + 100 * second + 100 * third + 30_300
      && BasketSizing.Quote(d, q).netMargin == 2_000_000 - 100 * first - 100 * second - 100 * third
  {
    OneContractQuoted(first);
    OneContractQuoted(second);
    OneContractQuoted(third);
    hide Acquire, LegOf;
  }

  /** One contract is all that the cap allows, and it has a margin. */
  lemma OneBasketCompetes(lim: SizingLimits)
    requires lim == SizingLimits(100, 100, 2_000_000, 1, 100)
    requires BasketSizing.ValidInput(BasketSizing.Basket(OneLevel(0), OneLevel(5_000), OneLevel(5_000)), lim)
    ensures var d := BasketSizing.Basket(OneLevel(0), OneLevel(5_000), OneLevel(5_000));
      && BasketSizing.Candidate(d, lim, 100) && forall q :: BasketSizing.Candidate(d, lim, q) ==> q == 100
  {
    hide OneLevel, BasketSizing.ValidInput, BasketSizing.Covered, BasketSizing.Quote, BasketSizing.TotalReserve;
    OneBasketNumbers(0, 5_000, 5_000, 100);
  }

  /** Sizing finds one contract. */
  lemma RunQuote(quote: Option<BasketSizing.SizedBasket>)
    requires QuoteMeans(RunConfig(), map[], 2_000_000, Signal(BASKET, false), Opening(), quote)
    ensures quote.Some? && quote.value.quantity == 100
  {
    hide ValidConfig, Cache, RunConfig, Opening, BasketSizing.ValidInput, BasketSizing.Candidate, Depths;
    ConfigFacts();
    RunDepths();
    OneBasketCompetes(Bounds(RunConfig(), 2_000_000));
  }

  // ------------------------------------------------------------------------
  // The run
  // ------------------------------------------------------------------------

  function RunAttempt(stage: Stage, due: int, reserve: int, held: int, received: int): Attempt {
    Attempt(BASKET, 100, 0, received, due, 0, reserve, 0, stage, Three(held, 0, 0))
  }

  const ASKED := Key(0, true, 0)
  const BID := Key(0, false, 3_000)

  function Empty(): View {
    NewView(RunConfig())
  }

  function Ordered(): View {
    Empty().(attempt := Some(RunAttempt(BuyArrival, DELAY, 10_100, 0, 0)), reserved := 10_100, peak := 10_100)
  }

  /** One contract was bought for nothing. */
  function Bought(): View {
    Empty().(attempt := Some(RunAttempt(BuyResponse, 2 * DELAY, 10_100, 100, 0)), reserved := 10_100, peak := 10_100, consumed := map[ASKED := 100],
             record := Record([Trade(100, 0)], []))
  }

  /** The other legs are missing, so it is to be sold. */
  function Unwinding(): View {
    Bought().(attempt := Some(RunAttempt(SellArrival, 3 * DELAY, 10_100, 100, 0)), reserved := 0)
  }

  function Sold(): View {
    Unwinding().(attempt := Some(RunAttempt(SellResponse, 4 * DELAY, 10_100, 0, 300_000)), cash := 2_300_000, received := 300_000,
                 consumed := map[ASKED := 100, BID := 100], record := Record([Trade(100, 0)], [300_000]))
  }

  /** The attempt counts as empty, and the unwinding result is still nothing. */
  function Ended(): View {
    Sold().(attempt := None, record := NO_TRADES, empty := 1, windfall := 300_000,
            gone := [BasketExecution.Unwinding(RunAttempt(SellResponse, 4 * DELAY, 10_100, 0, 300_000).(leg := 3),
                                               Record([Trade(100, 0)], [300_000]))])
  }

  ghost predicate Leads(v: View, w: View, time: int, books: map<nat, Cached>) {
    Due(RunConfig(), v, time, books) && AfterEvent(RunConfig(), v, books) == w
  }

  lemma RunReady(a: Attempt, books: map<nat, Cached>)
    requires ValidConfig(RunConfig()) && Cache(RunConfig(), books)
    requires a.basket == BASKET && a.quantity == 100 && a.holdings in {Three(0, 0, 0), Three(100, 0, 0)} && a.spent == 0 && 0 <= a.received
    requires 0 <= a.due <= INT64_MAX && a.leg < 3
    ensures Ready(RunConfig(), a, books)
  {
    hide ValidConfig, Cache, RunConfig;
    ConfigFacts();
  }

  lemma LegsQuoted(a: Attempt)
    requires Ready(RunConfig(), a, Opening()) && a.basket == BASKET && a.quantity == 100
    ensures LegQuote(RunConfig(), map[], a, 0, Opening()) == BasketExecution.Fill(100, 0, 0)
    ensures LegQuote(RunConfig(), map[], a, 1, Opening()) == BasketExecution.Fill(100, 500_000, 5_000)
    ensures LegQuote(RunConfig(), map[], a, 2, Opening()) == BasketExecution.Fill(100, 500_000, 5_000)
  {
    hide RunConfig, ValidConfig, Cache, Open, Filled, Outcome;
    ConfigFacts();
    OneContractTaken(Want(0, true, false), Level(0, 100), map[], 10_000);
    OneContractTaken(Want(1, false, false), Level(5_000, 100), map[], 10_000);
    OneContractTaken(Want(2, false, false), Level(5_000, 100), map[], 10_000);
  }

  /** All legs can be bought in full, within budget and funded. */
  lemma FirstSendable(a: Attempt, cash: int)
    requires Ready(RunConfig(), a, Opening()) && a == StartOf(BASKET, a.quantity) && a.quantity == 100 && cash == 2_000_000
    ensures Sendable(RunConfig(), map[], cash, a, Opening())
  {
    hide RunConfig, ValidConfig, Cache, LegQuote, Reserve, Opening, CostFrom, Sane;
    ConfigFacts();
    LegsQuoted(a);
    OneContractReserves(0);
    AllLegsCost(RunConfig(), map[], a, Opening());
  }

  lemma AllLegsCost(c: Config, used: Consumed, a: Attempt, books: map<nat, Cached>)
    requires Ready(c, a, books)
    ensures CostFrom(c, used, a, 0, books)
      == LegQuote(c, used, a, 0, books).cash + LegQuote(c, used, a, 1, books).cash + LegQuote(c, used, a, 2, books).cash
  {
    hide LegQuote, ValidConfig, Cache;
    var none := CostFrom(c, used, a, 3, books);
    var third := CostFrom(c, used, a, 2, books);
    var second := CostFrom(c, used, a, 1, books);
  }

  /** The decision sends the order for the first leg. */
  lemma FirstSent()
    ensures var a := StartOf(BASKET, 100);
      Ready(RunConfig(), a, Opening()) && AfterSend(RunConfig(), Empty(), a, 0, Opening()) == Ordered()
  {
    hide RunConfig, ValidConfig, Cache, LegQuote, Reserve, Opening, Sendable, AfterExit;
    InputFits();
    ConfigFacts();
    var a := StartOf(BASKET, 100);
    RunReady(a, Opening());
    LegsQuoted(a);
    FirstSendable(a, 2_000_000);
    OneContractReserves(0);
  }

  lemma FirstArrives()
    ensures Leads(Ordered(), Bought(), DELAY, Opening())
  {
    hide RunConfig, ValidConfig, Cache, LegQuote, Reserve, Open, Filled, Outcome, AfterSend, AfterExit;
    InputFits();
    ConfigFacts();
    var a := Ordered().attempt.value;
    RunReady(a, Opening());
    OneContractTaken(Want(0, true, false), Level(0, 100), map[], 0);
    OneContractFilled(Want(0, true, false), 0, 0, map[]);
    assert [] + [Trade(100, 0)] == [Trade(100, 0)];
    hide DeductAll;
    assert AfterEvent(RunConfig(), Ordered(), Opening()).consumed == map[ASKED := 100];
  }

  /** The second leg is missing: the attempt is unwound. */
  lemma SecondFails()
    ensures Leads(Bought(), Unwinding(), 4 * DELAY, Closing())
  {
    hide RunConfig, ValidConfig, Cache, Reserve, Outcome;
    InputFits();
    ConfigFacts();
    var a := Bought().attempt.value;
    RunReady(a, Closing());
    var b := a.(leg := 1);
    RunReady(b, Closing());
    NothingQuoted(b, Bought().consumed);
    hide LegQuote;
    assert !Sendable(RunConfig(), Bought().consumed, 2_000_000, b, Closing());
  }

  lemma NothingQuoted(a: Attempt, used: Consumed)
    requires Ready(RunConfig(), a, Closing()) && a.basket == BASKET
    ensures LegQuote(RunConfig(), used, a, 1, Closing()).quantity == 0
  {
    hide RunConfig, ValidConfig, Cache;
    ConfigFacts();
    var w := BuyOf(a, 1);
    assert Open(w, [], used, 100) == [];
    assert Filled(w, [], 10_000, a.quantity) == [];
    hide Open, Filled;
  }

  lemma FirstSells()
    ensures Leads(Unwinding(), Sold(), 4 * DELAY, Closing())
  {
    hide RunConfig, ValidConfig, Cache, LegQuote, Reserve, Open, Filled, Outcome, AfterSend, AfterExit;
    InputFits();
    ConfigFacts();
    var a := Unwinding().attempt.value;
    RunReady(a, Closing());
    var w := Want(0, true, true);
    OneContractTaken(w, Level(3_000, 100), map[ASKED := 100], 0);
    OneContractFilled(w, 3_000, 0, map[ASKED := 100]);
    assert [] + [300_000] == [300_000];
    hide DeductAll;
    assert AfterEvent(RunConfig(), Unwinding(), Closing()).consumed == map[ASKED := 100, BID := 100];
  }

  lemma AttemptEnds()
    ensures Leads(Sold(), Ended(), 4 * DELAY, Closing())
  {
    hide RunConfig, ValidConfig, Cache, Reserve, Outcome, LegQuote, AfterSend;
    InputFits();
    ConfigFacts();
    var a := Sold().attempt.value;
    RunReady(a, Closing());
    assert NextHeld(a.holdings, 3) == 3;
    assert NextHeld(a.holdings, 2) == 3;
    assert NextHeld(a.holdings, 1) == 3;
  }

  // ------------------------------------------------------------------------
  // The events
  // ------------------------------------------------------------------------

  /** What a call of `Advance` says of its trace. */
  ghost predicate Ran(trace: seq<View>, fault: Option<Fault>, now: View, time: int, books: map<nat, Cached>) {
    && trace != []
    && (fault.Some? ==> Due(RunConfig(), trace[|trace| - 1], time, books)
                        && fault == ClockFault(AfterEvent(RunConfig(), trace[|trace| - 1], books)))
    && (fault.None? ==> trace[|trace| - 1] == now && (now.attempt.Some? && !now.halted ==> now.attempt.value.due > time))
    && forall i :: 0 <= i < |trace| - 1 ==> Due(RunConfig(), trace[i], time, books) && trace[i + 1] == AfterEvent(RunConfig(), trace[i], books)
  }

  lemma NextView(trace: seq<View>, fault: Option<Fault>, now: View, time: int, books: map<nat, Cached>, i: nat, v: View, w: View)
    requires Ran(trace, fault, now, time, books) && i < |trace| && trace[i] == v && Leads(v, w, time, books) && !Late(w)
    ensures i + 1 < |trace| && trace[i + 1] == w
  {
    hide AfterEvent, RunConfig, Ready;
  }

  lemma LastView(trace: seq<View>, fault: Option<Fault>, now: View, time: int, books: map<nat, Cached>, i: nat, v: View)
    requires Ran(trace, fault, now, time, books) && i < |trace| && trace[i] == v
    requires v.attempt.None? || v.attempt.value.due > time
    ensures fault.None? && now == v
  {
    hide AfterEvent, RunConfig, Ready;
  }

  lemma FirstRun(trace: seq<View>, fault: Option<Fault>, now: View)
    requires Ran(trace, fault, now, DELAY, Opening()) && 0 < |trace| && trace[0] == Ordered()
    ensures fault.None? && now == Bought()
  {
    hide Ran, Leads, Opening;
    FirstArrives();
    NextView(trace, fault, now, DELAY, Opening(), 0, Ordered(), Bought());
    LastView(trace, fault, now, DELAY, Opening(), 1, Bought());
  }

  lemma SecondRun(trace: seq<View>, fault: Option<Fault>, now: View)
    requires Ran(trace, fault, now, 4 * DELAY, Closing()) && 0 < |trace| && trace[0] == Bought()
    ensures fault.None? && now == Ended()
  {
    hide Ran, Leads, Closing;
    SecondFails();
    FirstSells();
    AttemptEnds();
    NextView(trace, fault, now, 4 * DELAY, Closing(), 0, Bought(), Unwinding());
    NextView(trace, fault, now, 4 * DELAY, Closing(), 1, Unwinding(), Sold());
    NextView(trace, fault, now, 4 * DELAY, Closing(), 2, Sold(), Ended());
    LastView(trace, fault, now, 4 * DELAY, Closing(), 3, Ended());
  }

  /** The sale of what was bought for nothing is in the cash; the attempt counts as empty, and the
      unwinding result does not know of it. */
  method FreeAttempt() returns (first: Option<Fault>, second: Option<Fault>, third: Option<Fault>, cash: int, unwindNet: int, empty: nat, exited: nat)
    ensures first == second == third == None
    ensures cash == 2_300_000 && unwindNet == 0 && empty == 1 && exited == 0
  {
    hide ValidConfig, Cache, RunConfig, Opening, Closing, QuoteMeans, AfterSend, Ready, Due, AfterEvent, Scenario.Core, Staged;
    InputFits();
    ConfigFacts();
    var scenario := new Scenario(RunConfig());
    assert scenario.Look() == Empty();
    var signals := [Signal(BASKET, false)];
    ghost var quotes, chosen, trace;
    first, quotes, chosen := scenario.Decide(signals, 0, Opening());
    RunQuote(quotes[0]);
    assert chosen == Some(0);
    FirstSent();
    assert first.None? && scenario.Look() == Ordered();
    second, trace := scenario.Advance(DELAY, Opening());
    assert Ran(trace, second, scenario.Look(), DELAY, Opening());
    FirstRun(trace, second, scenario.Look());
    third, trace := scenario.Advance(4 * DELAY, Closing());
    assert Ran(trace, third, scenario.Look(), 4 * DELAY, Closing());
    SecondRun(trace, third, scenario.Look());
    cash, unwindNet, empty, exited := scenario.cash, scenario.unwindNet, scenario.empty, scenario.exited;
  }
}
