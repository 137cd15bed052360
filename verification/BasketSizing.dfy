/** Exact three-leg sizing over whole contracts (src/core/basket_sizing.cpp): increasing
    sizes, with incremental cost cursors in place of repeated walks. */
module BasketSizing {
  import opened FixedPoint
  import opened ExecutionCost
  import opened Reservation
  import opened DepthWalk
  import PairOptimum

  const MAXIMUM_QUANTITY := 10_000
  const QUANTITY_STEP := 100

  datatype Basket = Basket(first: BuyDepth, second: BuyDepth, third: BuyDepth)
  datatype SizedBasket = SizedBasket(quantity: int, first: SizedLeg, second: SizedLeg, third: SizedLeg,
                                     payoutFloor: int, netMargin: int)
  datatype BasketSizingResult = BasketSizingResult(status: SizingStatus, quote: Option<SizedBasket>,
                                                   oneContract: Option<SizedBasket>, evaluated: nat)

  predicate ValidLeg(d: BuyDepth) {
    PairOptimum.ValidDepth(d) && forall i :: 0 <= i < |d.levels| ==> d.levels[i].quantity > 0
  }

  predicate ValidLimits(lim: SizingLimits) {
    && QUANTITY_STEP <= lim.cap <= MAXIMUM_QUANTITY && lim.cap % QUANTITY_STEP == 0 && lim.step == QUANTITY_STEP
    && lim.available <= CASH_LIMIT && lim.minimumMargin <= CASH_LIMIT && lim.maxEvaluations != 0
  }

  predicate ValidInput(d: Basket, lim: SizingLimits) {
    ValidLimits(lim) && ValidLeg(d.first) && ValidLeg(d.second) && ValidLeg(d.third)
  }

  // ------------------------------------------------------------------------
  // The optimum, by from-scratch walks
  // ------------------------------------------------------------------------

  predicate Covered(d: Basket, q: nat)
    requires ValidLeg(d.first) && ValidLeg(d.second) && ValidLeg(d.third)
  {
    Acquire(d.first, 1, q).Some? && Acquire(d.second, 1, q).Some? && Acquire(d.third, 1, q).Some?
  }

  /** The basket that walking all three legs from scratch quotes for q. */
  function Quote(d: Basket, q: nat): SizedBasket
    requires ValidLeg(d.first) && ValidLeg(d.second) && ValidLeg(d.third) && Covered(d, q)
  {
    var a, b, c := LegOf(d.first, 1, q), LegOf(d.second, 1, q), LegOf(d.third, 1, q);
    SizedBasket(q, a, b, c, q * 20_000, q * 20_000 - (a.debit + b.debit + c.debit))
  }

  function TotalReserve(s: SizedBasket): int {
    s.first.reservation + s.second.reservation + s.third.reservation
  }

  predicate Size(lim: SizingLimits, q: int) {
    QUANTITY_STEP <= q <= lim.cap && q % QUANTITY_STEP == 0
  }

  predicate Candidate(d: Basket, lim: SizingLimits, q: int)
    requires ValidInput(d, lim)
  {
    Size(lim, q) && Covered(d, q) && TotalReserve(Quote(d, q)) <= lim.available && Quote(d, q).netMargin > lim.minimumMargin
  }

  predicate Beats(s: SizedBasket, t: SizedBasket) {
    PairOptimum.Beats(s.netMargin, TotalReserve(s), s.quantity, t.netMargin, TotalReserve(t), t.quantity)
  }

  ghost predicate IsOptimum(d: Basket, lim: SizingLimits, s: SizedBasket)
    requires ValidInput(d, lim)
  {
    && Candidate(d, lim, s.quantity) && s == Quote(d, s.quantity)
    && forall q :: q != s.quantity && Candidate(d, lim, q) ==> Beats(s, Quote(d, q))
  }

  ghost predicate Answer(d: Basket, lim: SizingLimits, r: BasketSizingResult)
    requires ValidInput(d, lim)
  {
    && (r.quote.Some? <==> r.status == Optimal)
    && (r.status == Optimal ==> IsOptimum(d, lim, r.quote.value))
    && (r.status != Optimal && r.status != SearchBudgetExceeded ==> forall q :: !Candidate(d, lim, q))
    && (r.status == NoDepth <==> !Covered(d, QUANTITY_STEP))
    && (r.oneContract == if Covered(d, QUANTITY_STEP) then Some(Quote(d, QUANTITY_STEP)) else None)
    && (r.status == InsufficientCash <==>
          Covered(d, QUANTITY_STEP) && TotalReserve(Quote(d, QUANTITY_STEP)) > lim.available)
    && r.status != InvalidInput && r.status != ArithmeticError
    && r.evaluated <= lim.maxEvaluations && r.evaluated <= lim.cap / QUANTITY_STEP
    && (r.status == SearchBudgetExceeded ==> r.evaluated == lim.maxEvaluations < lim.cap / QUANTITY_STEP)
  }

  /** A leg as a buy of q whole hundredths from the depth and its reservation quote it. */
  ghost predicate LegIs(d: BuyDepth, q: nat, leg: SizedLeg) {
    && ValidFee(d.fees) && Acquire(d, 1, q).Some?
    && var a := Acquire(d, 1, q).value;
    leg.limit == a.limit && leg.notional == a.ledger.notional && leg.debit == a.ledger.cash
    && q <= INT64_MAX && BuyReservation(q, 1, a.limit, d.fees) == Some(leg.reservation)
  }

  ghost predicate Legs(d: Basket, q: nat, x: SizedLeg, y: SizedLeg, z: SizedLeg) {
    LegIs(d.first, q, x) && LegIs(d.second, q, y) && LegIs(d.third, q, z)
  }

  /** Whole contracts that could be quoted: funded, and above the minimum margin on a payout of two
      dollars each. */
  ghost predicate Rival(d: Basket, lim: SizingLimits, q: nat, x: SizedLeg, y: SizedLeg, z: SizedLeg) {
    && 100 <= q <= lim.cap && q % 100 == 0 && Legs(d, q, x, y, z)
    && x.reservation + y.reservation + z.reservation <= lim.available && 20_000 * q - x.debit - y.debit - z.debit > lim.minimumMargin
  }

  /** A quote is a rival that no rival surpasses: none has a greater margin, none of the same margin
      needs less cash, and none of the same margin and cash is smaller. Without a quote, and with
      budget left, there is no rival. */
  lemma AnswerSpelledOut(d: Basket, lim: SizingLimits, r: BasketSizingResult)
    requires ValidInput(d, lim) && Answer(d, lim, r)
    ensures r.quote.Some? ==>
      var s := r.quote.value;
      && s.quantity >= 0 && Rival(d, lim, s.quantity, s.first, s.second, s.third)
      && s.payoutFloor == 20_000 * s.quantity && s.netMargin == 20_000 * s.quantity - s.first.debit - s.second.debit - s.third.debit
      && forall q: nat, x, y, z :: Rival(d, lim, q, x, y, z) ==>
           var margin, cash := 20_000 * q - x.debit - y.debit - z.debit, x.reservation + y.reservation + z.reservation;
           var needed := s.first.reservation + s.second.reservation + s.third.reservation;
           margin < s.netMargin || (margin == s.netMargin && (cash > needed || (cash == needed && q >= s.quantity)))
    ensures r.quote.None? && r.status != SearchBudgetExceeded ==> forall q: nat, x, y, z :: !Rival(d, lim, q, x, y, z)
    ensures r.status == NoDepth <==> forall x, y, z :: !Legs(d, 100, x, y, z)
    ensures r.status == InsufficientCash <==>
      exists x, y, z :: Legs(d, 100, x, y, z) && x.reservation + y.reservation + z.reservation > lim.available
  {
    hide Acquire;
    forall q: nat, x, y, z | Rival(d, lim, q, x, y, z)
      ensures Candidate(d, lim, q) && x == LegOf(d.first, 1, q) && y == LegOf(d.second, 1, q) && z == LegOf(d.third, 1, q)
    {
      LegsSpelledOut(d, q);
    }
    if r.quote.Some? {
      LegsSpelledOut(d, r.quote.value.quantity);
    }
    LegsSpelledOut(d, 100);
    if Covered(d, 100) {
      assert Legs(d, 100, LegOf(d.first, 1, 100), LegOf(d.second, 1, 100), LegOf(d.third, 1, 100));
    }
    hide LegOf, Legs;
  }

  lemma CandidateIsRival(d: Basket, lim: SizingLimits, q: nat)
    requires ValidInput(d, lim)
    ensures Candidate(d, lim, q) <==> exists x, y, z :: Rival(d, lim, q, x, y, z)
  {
    if Candidate(d, lim, q) {
      CandidateQuote(d, lim, q);
    }
    if x, y, z :| Rival(d, lim, q, x, y, z) {
      RivalIsCandidate(d, lim, q, x, y, z);
    }
    hide Rival, Candidate;
  }

  lemma RivalIsCandidate(d: Basket, lim: SizingLimits, q: nat, x: SizedLeg, y: SizedLeg, z: SizedLeg)
    requires ValidInput(d, lim) && Rival(d, lim, q, x, y, z)
    ensures Candidate(d, lim, q) && Quote(d, q) == SizedBasket(q, x, y, z, 20_000 * q, 20_000 * q - x.debit - y.debit - z.debit)
  {
    hide Acquire, Legs, LegOf, ValidLeg, ValidLimits;
    SizeBounded(lim, q);
    LegsSpelledOut(d, q);
    hide Covered;
  }

  lemma CandidateQuote(d: Basket, lim: SizingLimits, q: nat)
    requires ValidInput(d, lim) && Candidate(d, lim, q)
    ensures var s := Quote(d, q);
      && Rival(d, lim, q, s.first, s.second, s.third) && s.quantity == q && s.netMargin == 20_000 * q - s.first.debit - s.second.debit - s.third.debit
  {
    hide Acquire, Legs, LegOf, ValidLeg, ValidLimits;
    SizeBounded(lim, q);
    LegsSpelledOut(d, q);
    hide Covered;
  }

  lemma SizeBounded(lim: SizingLimits, q: nat)
    requires ValidLimits(lim)
    ensures q <= lim.cap ==> q <= MAXIMUM_QUANTITY
  {
  }

  lemma LegsSpelledOut(d: Basket, q: nat)
    requires ValidLeg(d.first) && ValidLeg(d.second) && ValidLeg(d.third) && q <= MAXIMUM_QUANTITY
    ensures (exists x, y, z :: Legs(d, q, x, y, z)) <==> Covered(d, q)
    ensures Covered(d, q) ==>
      forall x, y, z :: Legs(d, q, x, y, z) <==> x == LegOf(d.first, 1, q) && y == LegOf(d.second, 1, q) && z == LegOf(d.third, 1, q)
  {
    hide Walk, Reserve;
    if Covered(d, q) {
      LegSpelledOut(d.first, q);
      LegSpelledOut(d.second, q);
      LegSpelledOut(d.third, q);
      assert Legs(d, q, LegOf(d.first, 1, q), LegOf(d.second, 1, q), LegOf(d.third, 1, q));
    }
    hide Acquire, LegOf;
  }

  lemma LegSpelledOut(d: BuyDepth, q: nat)
    requires ValidLeg(d) && q <= MAXIMUM_QUANTITY && Acquire(d, 1, q).Some?
    ensures forall leg :: LegIs(d, q, leg) <==> leg == LegOf(d, 1, q)
  {
    hide Walk, Reserve;
    ReservationExists(q, 1, Acquire(d, 1, q).value.limit, d.fees);
  }

  lemma FundingMonotone(d: Basket, q: nat, q': nat)
    requires ValidLeg(d.first) && ValidLeg(d.second) && ValidLeg(d.third) && q <= q' && Covered(d, q')
    ensures Covered(d, q) && TotalReserve(Quote(d, q)) <= TotalReserve(Quote(d, q'))
  {
    AcquireMonotone(d.first, 1, q, q');
    AcquireMonotone(d.second, 1, q, q');
    AcquireMonotone(d.third, 1, q, q');
  }

  /** Once a size is unfunded, no larger size competes. */
  lemma UnfundedEndsSearch(d: Basket, lim: SizingLimits, q: nat, q': int)
    requires ValidInput(d, lim) && Covered(d, q) && TotalReserve(Quote(d, q)) > lim.available && q <= q'
    ensures !Candidate(d, lim, q')
  {
    hide Acquire, LegOf, Quote;
    if Size(lim, q') && Covered(d, q') {
      FundingMonotone(d, q, q');
    }
  }

  /** How many sizes from q on an unlimited search evaluates: the covered ones, up to the first that
      is unfunded. */
  ghost function SizesFrom(d: Basket, cap: nat, available: int, q: nat): nat
    requires ValidLeg(d.first) && ValidLeg(d.second) && ValidLeg(d.third)
    decreases cap - q
  {
    if q > cap || !Covered(d, q) then 0
    else if TotalReserve(Quote(d, q)) > available then 1
    else 1 + SizesFrom(d, cap, available, q + QUANTITY_STEP)
  }

  ghost function Sizes(d: Basket, lim: SizingLimits): nat
    requires ValidInput(d, lim)
  {
    SizesFrom(d, lim.cap, lim.available, QUANTITY_STEP)
  }

  /** A size is evaluated exactly when it is covered and the size before it, if any, is funded. */
  lemma SizesMeaning(d: Basket, lim: SizingLimits, q: nat)
    requires ValidInput(d, lim) && Size(lim, q)
    ensures Covered(d, q) ==> Covered(d, q - QUANTITY_STEP)
    ensures q <= Sizes(d, lim) * QUANTITY_STEP <==>
      Covered(d, q) && (q > QUANTITY_STEP ==> TotalReserve(Quote(d, q - QUANTITY_STEP)) <= lim.available)
    ensures Sizes(d, lim) <= lim.cap / QUANTITY_STEP
  {
    hide Covered, Quote, ValidLeg, TotalReserve;
    if Covered(d, q) {
      FundingMonotone(d, q - QUANTITY_STEP, q);
    }
    SizesReach(d, lim, QUANTITY_STEP, q);
    SizesBounded(d, lim.cap, lim.available, QUANTITY_STEP);
  }

  lemma {:induction false} SizesReach(d: Basket, lim: SizingLimits, from: nat, q: nat)
    requires ValidInput(d, lim) && Size(lim, q) && Size(lim, from) && from <= q
    requires Covered(d, q) ==> Covered(d, q - QUANTITY_STEP)
    ensures q < from + SizesFrom(d, lim.cap, lim.available, from) * QUANTITY_STEP <==>
      Covered(d, q) && (q > from ==> TotalReserve(Quote(d, q - QUANTITY_STEP)) <= lim.available)
    decreases lim.cap - from
  {
    hide Covered, Quote, ValidLeg, TotalReserve;
    if q > from {
      GridGap(from, q, QUANTITY_STEP);
      if Covered(d, q) {
        FundingMonotone(d, from, q);
        FundingMonotone(d, from, q - QUANTITY_STEP);
      }
      if Covered(d, from) && TotalReserve(Quote(d, from)) <= lim.available {
        SizesReach(d, lim, from + QUANTITY_STEP, q);
      }
    }
  }

  lemma {:induction false} SizesBounded(d: Basket, cap: nat, available: int, q: nat)
    requires ValidLeg(d.first) && ValidLeg(d.second) && ValidLeg(d.third)
    ensures q <= cap + QUANTITY_STEP ==> SizesFrom(d, cap, available, q) * QUANTITY_STEP <= cap + QUANTITY_STEP - q
    decreases cap - q
  {
    hide Covered, Quote, ValidLeg, TotalReserve;
    if q <= cap && Covered(d, q) && TotalReserve(Quote(d, q)) <= available {
      SizesBounded(d, cap, available, q + QUANTITY_STEP);
    }
  }

  // ------------------------------------------------------------------------
  // The incremental cursor
  // ------------------------------------------------------------------------

  class CostCursor {
    const depth: BuyDepth
    const accumulator: FeeAccumulator
    var index: nat
    var prefixQuantity: nat
    var prefixNotional: int
    var prefixDebit: int

    constructor (depth: BuyDepth)
      requires ValidLeg(depth)
      ensures Valid() && fresh(this) && fresh(accumulator) && this.depth == depth && prefixQuantity == 0
    {
      this.depth := depth;
      accumulator := new FeeAccumulator(0);
      index, prefixQuantity, prefixNotional, prefixDebit := 0, 0, 0, 0;
    }

    ghost predicate Valid()
      reads this, accumulator
    {
      && ValidLeg(depth) && index <= |depth.levels|
      && var l := PrefixLedger(depth, 1, index);
      && l.quantity == prefixQuantity <= MAXIMUM_QUANTITY && l.notional == prefixNotional
      && l.cash == prefixDebit && l.rounding == accumulator.rounding as int
    }

    /** The leg for `quantity`, larger than any asked for before: exactly what a walk from the
        first level would give. */
    method At(quantity: nat) returns (leg: Option<SizedLeg>)
      requires Valid() && prefixQuantity < quantity <= MAXIMUM_QUANTITY
      modifies this, accumulator
      ensures Valid() && prefixQuantity < quantity
      ensures leg == if Acquire(depth, 1, quantity).Some? then Some(LegOf(depth, 1, quantity)) else None
    {
      hide AddFill, Conserved, Walk, PrefixLedger, Fill, Reserve, LevelSize;
      while index < |depth.levels| && depth.levels[index].quantity < quantity - prefixQuantity
        invariant Valid() && prefixQuantity < quantity
        decreases |depth.levels| - index
      {
        var level := depth.levels[index];
        ghost var l, t := PrefixLedger(depth, 1, index), Trade(level.quantity, level.price);
        WholeLevel(depth, index);
        PrefixBounds(depth, 1, index);
        FitsSmall(true, t.quantity, t.price, depth.fees, l.rounding);
        LedgerAfter(l, t, depth.fees);
        var charge := ChargeBuyFill(level.quantity, level.price, depth.fees, accumulator);
        if charge.None? {
          return None;
        }
        prefixQuantity := prefixQuantity + level.quantity;
        prefixNotional := prefixNotional + charge.value.notional;
        prefixDebit := prefixDebit + charge.value.change;
        index := index + 1;
      }
      if index == |depth.levels| {
        WalkBeyondDepth(depth, 1, quantity);
        return None;
      }
      WholeLevel(depth, index);
      var level := depth.levels[index];
      ghost var l, t := PrefixLedger(depth, 1, index), Trade(quantity - prefixQuantity, level.price);
      PrefixBounds(depth, 1, index);
      FitsSmall(true, t.quantity, t.price, depth.fees, l.rounding);
      LedgerAfter(l, t, depth.fees);
      WalkInLevel(depth, 1, index, quantity);
      ReservationExists(quantity, 1, level.price, depth.fees);
      var partial := new FeeAccumulator(accumulator.rounding);
      var charge := ChargeBuyFill(quantity - prefixQuantity, level.price, depth.fees, partial);
      var reserve := BuyReservation(quantity, 1, level.price, depth.fees);
      if charge.None? || reserve.None? {
        return None;
      }
      return Some(SizedLeg(level.price, prefixNotional + charge.value.notional, prefixDebit + charge.value.change, reserve.value));
    }
  }

  lemma WholeLevel(d: BuyDepth, k: nat)
    requires ValidLeg(d) && k < |d.levels|
    ensures LevelSize(d.levels[k], 1) == d.levels[k].quantity
    ensures PrefixLedger(d, 1, k + 1) == AddFill(true, PrefixLedger(d, 1, k), Trade(d.levels[k].quantity, d.levels[k].price), d.fees)
    ensures PrefixQuantity(d, 1, k + 1) == PrefixQuantity(d, 1, k) + d.levels[k].quantity
  {
  }

  // ------------------------------------------------------------------------
  // The enumeration
  // ------------------------------------------------------------------------

  /** Validates a leg and adds up its depth, no further than the cap. */
  method CheckLeg(leg: BuyDepth, cap: nat) returns (ok: bool, total: nat)
    ensures ok == ValidLeg(leg)
    ensures ok ==> total == Min(cap, PrefixQuantity(leg, 1, |leg.levels|))
  {
    total := 0;
    if |leg.levels| > 10_001 || !ValidFee(leg.fees) {
      return false, 0;
    }
    var previous: int, i := -1, 0;
    while i < |leg.levels|
      invariant i <= |leg.levels|
      invariant previous == if i == 0 then -1 else leg.levels[i - 1].price
      invariant forall j, k :: 0 <= j < k < i ==> leg.levels[j].price < leg.levels[k].price
      invariant forall j :: 0 <= j < i ==> leg.levels[j].quantity > 0
      invariant total == Min(cap, PrefixQuantity(leg, 1, i))
    {
      var level := leg.levels[i];
      if level.price <= previous || level.quantity == 0 {
        return false, 0;
      }
      previous := level.price;
      PrefixStep(leg, 1, i);
      total := Min(cap, total + Min(level.quantity, cap));
      i := i + 1;
    }
    ok := true;
  }

  /** `best` is the best candidate among sizes below `bound`. */
  ghost predicate BestBelow(d: Basket, lim: SizingLimits, best: Option<SizedBasket>, bound: int)
    requires ValidInput(d, lim)
  {
    && (best.Some? ==> Candidate(d, lim, best.value.quantity) && best.value == Quote(d, best.value.quantity) && best.value.quantity < bound)
    && forall q :: q < bound && Candidate(d, lim, q) ==>
         best.Some? && (q == best.value.quantity || Beats(best.value, Quote(d, q)))
  }

  method SizeBuyBasket(depth: Basket, limits: SizingLimits) returns (r: BasketSizingResult)
    ensures r.status == InvalidInput <==> !ValidInput(depth, limits)
    ensures ValidInput(depth, limits) ==> Answer(depth, limits, r)
    ensures ValidInput(depth, limits) ==>
      && r.evaluated == Min(limits.maxEvaluations, Sizes(depth, limits))
      && (r.status == SearchBudgetExceeded <==> Sizes(depth, limits) > limits.maxEvaluations)
    ensures r.status == InvalidInput ==> r == BasketSizingResult(InvalidInput, None, None, 0)
  {
    hide Acquire, LegOf, Quote, Candidate, PrefixQuantity, IsOptimum, PairOptimum.ValidDepth, SizesFrom;
    r := BasketSizingResult(InvalidInput, None, None, 0);
    if limits.cap < QUANTITY_STEP || limits.cap > MAXIMUM_QUANTITY || limits.cap % QUANTITY_STEP != 0
      || limits.step != QUANTITY_STEP || limits.available > CASH_LIMIT || limits.minimumMargin > CASH_LIMIT
      || limits.maxEvaluations == 0 {
      return;
    }
    var ok, total := CheckLeg(depth.first, limits.cap);
    if !ok {
      return;
    }
    var available := Min(limits.cap, total);
    ok, total := CheckLeg(depth.second, limits.cap);
    if !ok {
      return;
    }
    available := Min(available, total);
    ok, total := CheckLeg(depth.third, limits.cap);
    if !ok {
      return;
    }
    available := Min(available, total);
    CoveredUpTo(depth, limits, available);
    if available < QUANTITY_STEP {
      NoMoreSizes(depth, limits, available, QUANTITY_STEP);
      return BasketSizingResult(NoDepth, None, None, 0);
    }
    r := Enumerate(depth, limits, available);
  }

  lemma CoveredUpTo(d: Basket, lim: SizingLimits, available: int)
    requires ValidInput(d, lim)
    requires available == Min(Min(Min(lim.cap, Min(lim.cap, PrefixQuantity(d.first, 1, |d.first.levels|))),
                                  Min(lim.cap, PrefixQuantity(d.second, 1, |d.second.levels|))),
                              Min(lim.cap, PrefixQuantity(d.third, 1, |d.third.levels|)))
    ensures CoversUpTo(d, lim, available)
    ensures available < QUANTITY_STEP ==> forall q :: !Candidate(d, lim, q)
  {
    forall q | Size(lim, q) ensures Covered(d, q) <==> q <= available {
      CoverageIsDepth(d.first, 1, q);
      CoverageIsDepth(d.second, 1, q);
      CoverageIsDepth(d.third, 1, q);
    }
    assert Size(lim, QUANTITY_STEP);
  }

  /** The sizes that are covered are those up to `available`. */
  ghost predicate CoversUpTo(d: Basket, lim: SizingLimits, available: int)
    requires ValidInput(d, lim)
  {
    forall q :: Size(lim, q) ==> (Covered(d, q) <==> q <= available)
  }

  method Enumerate(depth: Basket, limits: SizingLimits, available: nat) returns (r: BasketSizingResult)
    requires ValidInput(depth, limits) && QUANTITY_STEP <= available <= limits.cap && CoversUpTo(depth, limits, available)
    ensures Answer(depth, limits, r)
    ensures r.evaluated == Min(limits.maxEvaluations, Sizes(depth, limits))
    ensures r.status == SearchBudgetExceeded <==> Sizes(depth, limits) > limits.maxEvaluations
  {
    hide Acquire, LegOf, Quote, Candidate, IsOptimum, ValidLeg, BestBelow, Covered, Beats, Answer, CoversUpTo, Size, TotalReserve, Ready, SizesFrom;
    CoversSize(depth, limits, available, QUANTITY_STEP);
    var first, second, third := NewCursors(depth);
    var best: Option<SizedBasket>, oneContract: Option<SizedBasket> := None, None;
    var funded, evaluated, q := false, 0, QUANTITY_STEP;
    NothingBelowOneContract(depth, limits);
    while q <= available
      invariant q == (evaluated + 1) * QUANTITY_STEP && q <= available + QUANTITY_STEP
      invariant Ready(depth, first, second, third, q)
      invariant BestBelow(depth, limits, best, q)
      invariant evaluated <= limits.maxEvaluations
      invariant oneContract == if evaluated == 0 then None else Some(Quote(depth, QUANTITY_STEP))
      invariant funded == (evaluated > 0)
      invariant funded ==> TotalReserve(Quote(depth, QUANTITY_STEP)) <= limits.available
      invariant Sizes(depth, limits) == evaluated + SizesFrom(depth, limits.cap, limits.available, q)
      decreases available + QUANTITY_STEP - q
    {
      CoversSize(depth, limits, available, q);
      SizesUnfold(depth, limits.cap, limits.available, q);
      if evaluated == limits.maxEvaluations {
        r := BasketSizingResult(SearchBudgetExceeded, None, oneContract, evaluated);
        BudgetAnswer(depth, limits, r);
        return;
      }
      evaluated := evaluated + 1;
      var value := Evaluate(depth, first, second, third, q);
      r := BasketSizingResult(ArithmeticError, None, oneContract, evaluated);
      if value.None? {
        return;
      }
      if q == QUANTITY_STEP {
        oneContract := value;
      }
      if TotalReserve(value.value) > limits.available {
        UnfundedIsLast(depth, limits, best, q);
        break;
      }
      funded := true;
      ghost var before := best;
      if value.value.netMargin > limits.minimumMargin && (best.None? || Beats(value.value, best.value)) {
        best := value;
      }
      BestExtends(depth, limits, before, best, q);
      q := q + QUANTITY_STEP;
    }
    if q > available {
      CoverageIsLast(depth, limits, best, q, available);
      NoMoreSizes(depth, limits, available, q);
    }
    var status := if best.Some? then Optimal else if !funded then InsufficientCash else NoPositiveMargin;
    r := BasketSizingResult(status, best, oneContract, evaluated);
    FinalAnswer(depth, limits, r, funded);
  }

  lemma CoversSize(d: Basket, lim: SizingLimits, available: int, q: int)
    requires ValidInput(d, lim) && CoversUpTo(d, lim, available) && QUANTITY_STEP <= q <= available <= lim.cap && q % QUANTITY_STEP == 0
    ensures Size(lim, q) && Covered(d, q)
  {
  }

  lemma SizesUnfold(d: Basket, cap: nat, available: int, q: nat)
    requires ValidLeg(d.first) && ValidLeg(d.second) && ValidLeg(d.third) && q <= cap && Covered(d, q)
    ensures SizesFrom(d, cap, available, q)
      == if TotalReserve(Quote(d, q)) > available then 1 else 1 + SizesFrom(d, cap, available, q + QUANTITY_STEP)
  {
    hide Covered, Quote, ValidLeg, TotalReserve;
  }

  /** Beyond the depth nothing is evaluated. */
  lemma NoMoreSizes(d: Basket, lim: SizingLimits, available: int, q: nat)
    requires ValidInput(d, lim) && CoversUpTo(d, lim, available) && available < q && QUANTITY_STEP <= q && q % QUANTITY_STEP == 0
    ensures SizesFrom(d, lim.cap, lim.available, q) == 0
  {
    hide Covered, Quote, ValidLeg, TotalReserve;
  }

  lemma BudgetAnswer(d: Basket, lim: SizingLimits, r: BasketSizingResult)
    requires ValidInput(d, lim) && Covered(d, QUANTITY_STEP) && r.status == SearchBudgetExceeded && r.quote == None
    requires r.evaluated == lim.maxEvaluations && (r.evaluated + 1) * QUANTITY_STEP <= lim.cap
    requires r.oneContract == Some(Quote(d, QUANTITY_STEP)) && TotalReserve(Quote(d, QUANTITY_STEP)) <= lim.available
    ensures Answer(d, lim, r)
  {
    hide Quote, Covered, Candidate, IsOptimum;
  }

  lemma FinalAnswer(d: Basket, lim: SizingLimits, r: BasketSizingResult, funded: bool)
    requires ValidInput(d, lim) && Covered(d, QUANTITY_STEP) && BestBelow(d, lim, r.quote, lim.cap + 1)
    requires r.status == if r.quote.Some? then Optimal else if !funded then InsufficientCash else NoPositiveMargin
    requires r.oneContract == Some(Quote(d, QUANTITY_STEP))
    requires funded <==> TotalReserve(Quote(d, QUANTITY_STEP)) <= lim.available
    requires r.evaluated <= lim.maxEvaluations && r.evaluated * QUANTITY_STEP <= lim.cap
    ensures Answer(d, lim, r)
  {
    hide Quote, Covered, BestBelow;
    BestIsOptimum(d, lim, r.quote);
    if r.quote.Some? && !funded {
      UnfundedEndsSearch(d, lim, QUANTITY_STEP, r.quote.value.quantity);
    }
  }

  /** The cursors belong to the three legs and have not passed q. */
  ghost predicate Ready(depth: Basket, first: CostCursor, second: CostCursor, third: CostCursor, q: nat)
    reads first, first.accumulator, second, second.accumulator, third, third.accumulator
  {
    && first.Valid() && first.depth == depth.first && first.prefixQuantity < q
    && second.Valid() && second.depth == depth.second && second.prefixQuantity < q
    && third.Valid() && third.depth == depth.third && third.prefixQuantity < q
    && first != second && second != third && third != first
    && first.accumulator != second.accumulator && second.accumulator != third.accumulator && third.accumulator != first.accumulator
  }

  method NewCursors(depth: Basket) returns (first: CostCursor, second: CostCursor, third: CostCursor)
    requires ValidLeg(depth.first) && ValidLeg(depth.second) && ValidLeg(depth.third)
    ensures Ready(depth, first, second, third, QUANTITY_STEP)
    ensures fresh({first, second, third}) && fresh({first.accumulator, second.accumulator, third.accumulator})
  {
    first := new CostCursor(depth.first);
    second := new CostCursor(depth.second);
    third := new CostCursor(depth.third);
  }

  /** Three legs at one size, or nothing when any leg fails. */
  method Evaluate(ghost depth: Basket, first: CostCursor, second: CostCursor, third: CostCursor, q: nat)
    returns (value: Option<SizedBasket>)
    requires ValidLeg(depth.first) && ValidLeg(depth.second) && ValidLeg(depth.third) && q <= MAXIMUM_QUANTITY && Covered(depth, q)
    requires Ready(depth, first, second, third, q)
    modifies first, first.accumulator, second, second.accumulator, third, third.accumulator
    ensures Ready(depth, first, second, third, q + QUANTITY_STEP)
    ensures value == Some(Quote(depth, q))
  {
    hide Acquire, LegOf, PrefixLedger, ValidLeg;
    var a := first.At(q);
    if a.None? {
      return None;
    }
    var b := second.At(q);
    if b.None? {
      return None;
    }
    var c := third.At(q);
    if c.None? {
      return None;
    }
    var debit := a.value.debit + b.value.debit + c.value.debit;
    return Some(SizedBasket(q, a.value, b.value, c.value, q * 20_000, q * 20_000 - debit));
  }

  lemma NothingBelowOneContract(d: Basket, lim: SizingLimits)
    requires ValidInput(d, lim)
    ensures BestBelow(d, lim, None, QUANTITY_STEP)
  {
  }

  lemma BestExtends(d: Basket, lim: SizingLimits, best: Option<SizedBasket>, best': Option<SizedBasket>, q: nat)
    requires ValidInput(d, lim) && Size(lim, q) && Covered(d, q) && BestBelow(d, lim, best, q)
    requires TotalReserve(Quote(d, q)) <= lim.available
    requires best' == if Quote(d, q).netMargin > lim.minimumMargin && (best.None? || Beats(Quote(d, q), best.value)) then Some(Quote(d, q)) else best
    ensures BestBelow(d, lim, best', q + QUANTITY_STEP)
  {
    hide Acquire, LegOf, ValidLeg;
    forall x | x < q + QUANTITY_STEP && Candidate(d, lim, x)
      ensures best'.Some? && (x == best'.value.quantity || Beats(best'.value, Quote(d, x)))
    {
      if x > q {
        GridGap(q, x, QUANTITY_STEP);
      }
    }
  }

  lemma UnfundedIsLast(d: Basket, lim: SizingLimits, best: Option<SizedBasket>, q: nat)
    requires ValidInput(d, lim) && Covered(d, q) && BestBelow(d, lim, best, q) && q <= lim.cap
    requires TotalReserve(Quote(d, q)) > lim.available
    ensures BestBelow(d, lim, best, lim.cap + 1)
  {
    hide Candidate, Quote, Covered, Beats;
    forall x | q <= x ensures !Candidate(d, lim, x) {
      UnfundedEndsSearch(d, lim, q, x);
    }
  }

  lemma CoverageIsLast(d: Basket, lim: SizingLimits, best: Option<SizedBasket>, q: nat, available: nat)
    requires ValidInput(d, lim) && BestBelow(d, lim, best, q) && available < q && CoversUpTo(d, lim, available)
    ensures BestBelow(d, lim, best, lim.cap + 1)
  {
    hide Quote, Covered, Beats;
  }

  lemma BestIsOptimum(d: Basket, lim: SizingLimits, best: Option<SizedBasket>)
    requires ValidInput(d, lim) && BestBelow(d, lim, best, lim.cap + 1)
    ensures best.None? ==> forall q :: !Candidate(d, lim, q)
    ensures best.Some? ==> IsOptimum(d, lim, best.value)
  {
    hide Quote, Covered, Beats;
  }
}
