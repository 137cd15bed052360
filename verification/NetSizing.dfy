/** The exact two-leg sizing search (src/core/net_sizing.cpp). */
module NetSizing {
  import opened FixedPoint
  import opened ExecutionCost
  import opened Reservation
  import opened DepthWalk
  import opened PairOptimum

  datatype SizingResult = SizingResult(status: SizingStatus, quote: Option<SizedPair>, evaluated: nat, pruned: nat)

  /** One leg's position in its depth: the first `index` levels have been charged whole. */
  class Cursor {
    const depth: BuyDepth
    const step: Quantity
    const cap: Quantity
    const accumulator: FeeAccumulator
    var index: nat
    var prefixQuantity: nat
    var prefixNotional: int
    var prefixDebit: int

    constructor (depth: BuyDepth, step: Quantity, cap: Quantity)
      requires ValidDepth(depth) && (step == 1 || step == 100) && step <= cap <= QUANTITY_LIMIT
      ensures Valid() && fresh(this) && fresh(accumulator)
      ensures this.depth == depth && this.step == step && this.cap == cap && index == 0
    {
      this.depth, this.step, this.cap := depth, step, cap;
      accumulator := new FeeAccumulator(0);
      index, prefixQuantity, prefixNotional, prefixDebit := 0, 0, 0, 0;
    }

    ghost predicate Valid()
      reads this, accumulator
    {
      && ValidDepth(depth) && (step == 1 || step == 100) && step <= cap <= QUANTITY_LIMIT
      && index <= |depth.levels|
      && var l := PrefixLedger(depth, step, index);
      && l.quantity == prefixQuantity <= cap && l.notional == prefixNotional
      && l.cash == prefixDebit && l.rounding == accumulator.rounding as int
    }

    function Size(): (s: nat)
      requires step > 0 && index < |depth.levels|
      reads this
    {
      Min(depth.levels[index].quantity, cap) / step * step
    }

    function End(): nat
      requires step > 0 && index < |depth.levels|
      reads this
    {
      prefixQuantity + Size()
    }

    /** The cursor stands on a level that offers at least one step. */
    predicate OnLevel()
      requires step > 0
      reads this
    {
      index < |depth.levels| && Size() > 0
    }

    /** Everything before `from` has been passed, and an active level reaches `from`. */
    ghost predicate Before(from: int)
      requires step > 0
      reads this
    {
      prefixQuantity <= from - step && (prefixQuantity == from - step || (OnLevel() && from <= End()))
    }

    lemma Reaches(from: int)
      requires Valid() && Before(from) && OnLevel()
      ensures from <= End() && End() % step == 0
      ensures forall q :: from <= q <= End() ==> InLevel(depth, step, index, q)
    {
      SizeOnGrid();
      GridGap(0, Size(), step);
      PrefixOnGrid(depth, step, index);
      GridSum(prefixQuantity, Size(), step);
    }

    lemma SizeOnGrid()
      requires step > 0 && index < |depth.levels|
      ensures Size() % step == 0 && Size() <= LevelSize(depth.levels[index], step) && Size() <= cap / step * step
      ensures cap >= step && Size() == 0 ==> LevelSize(depth.levels[index], step) == 0
      ensures Size() < cap / step * step ==> Size() == LevelSize(depth.levels[index], step)
    {
      var quantity := depth.levels[index].quantity;
      FloorToGrid(Min(quantity, cap), step);
      FloorToGrid(quantity, step);
      FloorToGrid(cap, step);
      FloorToGridGreatest(quantity, step, Size());
      FloorToGridGreatest(cap, step, Size());
      if cap < step {
      } else if quantity < step {
        DivMonotone(quantity, step - 1, step);
      } else {
        FloorToGridGreatest(Min(quantity, cap), step, step);
      }
    }

    /** Skips levels smaller than a step; they change nothing in the walk. */
    method Seek() returns (found: bool)
      requires Valid()
      modifies this`index
      ensures Valid() && old(index) <= index
      ensures PrefixLedger(depth, step, index) == PrefixLedger(depth, step, old(index))
      ensures found == OnLevel()
      ensures !found ==> index == |depth.levels|
      ensures old(OnLevel()) ==> index == old(index)
    {
      hide AddFill;
      while index < |depth.levels| && Size() == 0
        invariant Valid() && old(index) <= index
        invariant PrefixLedger(depth, step, index) == PrefixLedger(depth, step, old(index))
        invariant old(OnLevel()) ==> index == old(index)
        decreases |depth.levels| - index
      {
        SizeOnGrid();
        index := index + 1;
      }
      return index < |depth.levels|;
    }

    /** Charges the whole active level, which does not reach the cap. */
    method Advance() returns (ok: bool)
      requires Valid() && OnLevel() && End() < cap / step * step
      modifies this, accumulator
      ensures ok && Valid() && index == old(index) + 1 && prefixQuantity == old(End())
    {
      hide AddFill, Conserved;
      var count := Size();
      SizeOnGrid();
      FloorToGrid(cap, step);
      PrefixBounds(depth, step, index);
      ghost var l := PrefixLedger(depth, step, index);
      ghost var t := Trade(count, depth.levels[index].price);
      FitsSmall(true, count, t.price, depth.fees, l.rounding);
      LedgerAfter(l, t, depth.fees);
      var charge := ChargeBuyFill(count, depth.levels[index].price, depth.fees, accumulator);
      if charge.None? {
        return false;
      }
      prefixQuantity := prefixQuantity + count;
      prefixNotional := prefixNotional + charge.value.notional;
      prefixDebit := prefixDebit + charge.value.change;
      index := index + 1;
      return true;
    }
  }

  /** The contract of a search over valid input. */
  ghost predicate Answer(d: Pair, lim: SizingLimits, r: SizingResult)
    requires ValidInput(d, lim)
  {
    && (r.quote.Some? <==> r.status == Optimal)
    && (r.status == Optimal ==> IsOptimum(d, lim, r.quote.value))
    && (r.status != Optimal && r.status != SearchBudgetExceeded ==> forall q: nat :: !Candidate(d, lim, q))
    && (r.status == NoDepth <==> !Covered(d, lim.step, lim.step))
    && (r.status == InsufficientCash <==>
          && Covered(d, lim.step, lim.step)
          && PairReserve(d, lim.step, lim.step) > lim.available
          && LegOf(d.first, lim.step, lim.step).limit + LegOf(d.second, lim.step, lim.step).limit < 10_000)
    && r.status != InvalidInput && r.status != ArithmeticError
    && r.evaluated <= lim.maxEvaluations && r.evaluated <= GridIndex(lim.cap, lim.step)
    && (r.status == SearchBudgetExceeded ==> r.evaluated == lim.maxEvaluations < GridIndex(lim.cap, lim.step))
  }

  /** A leg as a buy of q from the depth and its reservation quote it. */
  ghost predicate LegIs(d: BuyDepth, step: nat, q: nat, leg: SizedLeg) {
    && ValidFee(d.fees) && step > 0 && Acquire(d, step, q).Some?
    && var a := Acquire(d, step, q).value;
    leg.limit == a.limit && leg.notional == a.ledger.notional && leg.debit == a.ledger.cash
    && q <= INT64_MAX && step <= INT64_MAX && BuyReservation(q, step, a.limit, d.fees) == Some(leg.reservation)
  }

  /** A pair of q that could be quoted, with its legs. */
  ghost predicate Rival(d: Pair, lim: SizingLimits, q: nat, a: SizedLeg, b: SizedLeg) {
    && 0 < lim.step <= q <= lim.cap && q % lim.step == 0 && LegIs(d.first, lim.step, q, a) && LegIs(d.second, lim.step, q, b)
    && a.reservation + b.reservation <= lim.available && 10_000 * q - a.debit - b.debit > lim.minimumMargin
  }

  /** A quote is a rival that no rival surpasses: none has a greater margin, none of the same margin
      needs less cash, and none of the same margin and cash is smaller. Without a quote, and with
      budget left, there is no rival. */
  lemma AnswerSpelledOut(d: Pair, lim: SizingLimits, r: SizingResult)
    requires ValidInput(d, lim) && Answer(d, lim, r)
    ensures r.quote.Some? ==>
      var s := r.quote.value;
      && s.quantity >= 0 && Rival(d, lim, s.quantity, s.first, s.second)
      && s.payoutFloor == 10_000 * s.quantity && s.netMargin == 10_000 * s.quantity - s.first.debit - s.second.debit
      && forall q: nat, a, b :: Rival(d, lim, q, a, b) ==>
           var margin, cash, needed := 10_000 * q - a.debit - b.debit, a.reservation + b.reservation, s.first.reservation + s.second.reservation;
           margin < s.netMargin || (margin == s.netMargin && (cash > needed || (cash == needed && q >= s.quantity)))
    ensures r.quote.None? && r.status != SearchBudgetExceeded ==> forall q: nat, a, b :: !Rival(d, lim, q, a, b)
    ensures r.status == NoDepth <==> Acquire(d.first, lim.step, lim.step).None? || Acquire(d.second, lim.step, lim.step).None?
    ensures r.status == InsufficientCash <==>
      exists a, b :: LegIs(d.first, lim.step, lim.step, a) && LegIs(d.second, lim.step, lim.step, b)
        && a.reservation + b.reservation > lim.available && a.limit + b.limit < 10_000
  {
    hide Walk;
    forall q: nat, a, b | Rival(d, lim, q, a, b)
      ensures Candidate(d, lim, q) && a == LegOf(d.first, lim.step, q) && b == LegOf(d.second, lim.step, q)
    {
      LegSpelledOut(d.first, lim.step, q);
      LegSpelledOut(d.second, lim.step, q);
    }
    if r.quote.Some? {
      var s := r.quote.value;
      LegSpelledOut(d.first, lim.step, s.quantity);
      LegSpelledOut(d.second, lim.step, s.quantity);
    }
    if Covered(d, lim.step, lim.step) {
      LegSpelledOut(d.first, lim.step, lim.step);
      LegSpelledOut(d.second, lim.step, lim.step);
    }
    hide Acquire, LegOf, Reserve;
  }

  lemma LegSpelledOut(d: BuyDepth, step: nat, q: nat)
    requires ValidDepth(d) && OnGrid(q, step) && q <= QUANTITY_LIMIT
    ensures Acquire(d, step, q).Some? ==> forall leg :: LegIs(d, step, q, leg) <==> leg == LegOf(d, step, q)
  {
    hide Walk, Reserve;
    if Acquire(d, step, q).Some? {
      ReservationExists(q, step, Acquire(d, step, q).value.limit, d.fees);
    }
  }

  datatype Evaluation = Evaluation(q: nat, first: SizedLeg, second: SizedLeg, margin: int, reserve: int, upper: int)

  // ------------------------------------------------------------------------
  // Facts about the best evaluation so far
  // ------------------------------------------------------------------------

  /** `best` quotes a candidate exactly. */
  predicate Quotes(d: Pair, lim: SizingLimits, best: Option<Evaluation>)
    requires ValidInput(d, lim)
  {
    best.Some? ==>
      var e := best.value;
      && Candidate(d, lim, e.q)
      && e.first == LegOf(d.first, lim.step, e.q) && e.second == LegOf(d.second, lim.step, e.q)
      && e.margin == Margin(d, lim.step, e.q) && e.reserve == PairReserve(d, lim.step, e.q)
  }

  /** q is no candidate, or does not beat `best`. */
  predicate Settled(d: Pair, lim: SizingLimits, best: Option<Evaluation>, q: int)
    requires ValidInput(d, lim)
  {
    q >= 0 && Candidate(d, lim, q) ==>
      best.Some? && !Beats(Margin(d, lim.step, q), PairReserve(d, lim.step, q), q, best.value.margin, best.value.reserve, best.value.q)
  }

  /** A later best settles whatever an earlier one did. */
  predicate Improves(best: Option<Evaluation>, best': Option<Evaluation>) {
    best.Some? ==> best'.Some? && !Beats(best.value.margin, best.value.reserve, best.value.q,
                                         best'.value.margin, best'.value.reserve, best'.value.q)
  }

  lemma SettledStays(d: Pair, lim: SizingLimits, best: Option<Evaluation>, best': Option<Evaluation>, q: int)
    requires ValidInput(d, lim) && Improves(best, best') && Settled(d, lim, best, q)
    ensures Settled(d, lim, best', q)
  {
  }

  lemma ImprovesTransitively(a: Option<Evaluation>, b: Option<Evaluation>, c: Option<Evaluation>)
    requires Improves(a, b) && Improves(b, c)
    ensures Improves(a, c)
  {
  }

  lemma SameBestImproves(a: Option<Evaluation>)
    ensures Improves(a, a)
  {
  }

  /** What the pruning test proves: no quantity between low and high beats `best`. A tie on
      margin is lost because a larger quantity never has a smaller reservation. */
  lemma BoundSettles(d: Pair, lim: SizingLimits, i: nat, j: nat, low: nat, high: nat, best: Option<Evaluation>)
    requires ValidInput(d, lim) && Quotes(d, lim, best) && low <= high
    requires InSegment(d, lim.step, i, j, low) && InSegment(d, lim.step, i, j, high)
    requires var upper := Upper(d, lim.step, i, j, if Slope(d, i, j) >= 0 then high else low);
      var floor := if best.Some? then best.value.margin else lim.minimumMargin;
      upper < floor || (upper == floor && (best.None? || low >= best.value.q))
    ensures forall q :: low <= q <= high ==> Settled(d, lim, best, q)
  {
    hide Upper, Slope, Margin, PairReserve, InSegment, Walk;
    forall q | low <= q <= high
      ensures Settled(d, lim, best, q)
    {
      SegmentBound(d, lim.step, i, j, low, q, high);
      if best.Some? && best.value.q <= q {
        FundingMonotone(d, lim.step, best.value.q, q);
      }
    }
  }

  /** A full search: the best candidate is the optimum, and without one there is none. */
  lemma SettledIsOptimum(d: Pair, lim: SizingLimits, best: Option<Evaluation>)
    requires ValidInput(d, lim) && Quotes(d, lim, best) && forall q: nat :: Settled(d, lim, best, q)
    ensures best.None? ==> forall q: nat :: !Candidate(d, lim, q)
    ensures best.Some? ==>
      var e := best.value;
      IsOptimum(d, lim, SizedPair(e.q, e.first, e.second, e.q * 10_000, e.margin))
  {
    hide Margin, PairReserve, Candidate;
    assert forall q: nat :: Settled(d, lim, best, q) && Candidate(d, lim, q) ==> best.Some?;
    if best.Some? {
      var e := best.value;
      assert Candidate(d, lim, e.q);
      forall q | 0 <= q && q != e.q && Candidate(d, lim, q)
        ensures Covered(d, lim.step, q) && Covered(d, lim.step, e.q)
        ensures Beats(Margin(d, lim.step, e.q), PairReserve(d, lim.step, e.q), e.q, Margin(d, lim.step, q), PairReserve(d, lim.step, q), q)
      {
        CandidateCovered(d, lim, q);
        CandidateCovered(d, lim, e.q);
        assert Settled(d, lim, best, q);
      }
    }
  }

  lemma CandidateCovered(d: Pair, lim: SizingLimits, q: nat)
    requires ValidInput(d, lim) && Candidate(d, lim, q)
    ensures Covered(d, lim.step, q)
  {
  }

  // ------------------------------------------------------------------------
  // The search
  // ------------------------------------------------------------------------

  /** The evaluation of q while the cursors stand on levels i and j. */
  function EvaluationAt(d: Pair, step: nat, i: nat, j: nat, q: nat): Evaluation
    requires ValidDepth(d.first) && ValidDepth(d.second) && step > 0 && Covered(d, step, q)
    requires i < |d.first.levels| && j < |d.second.levels|
  {
    Evaluation(q, LegOf(d.first, step, q), LegOf(d.second, step, q), Margin(d, step, q), PairReserve(d, step, q),
               Upper(d, step, i, j, q))
  }

  /** An evaluation's sums fit 64 bits, and its bound is its margin with the losses given back. */
  lemma EvaluationFits(d: Pair, lim: SizingLimits, i: nat, j: nat, q: nat, error: int)
    requires ValidInput(d, lim) && InSegment(d, lim.step, i, j, q) && OnGrid(q, lim.step) && 0 < q <= lim.cap
    requires error
      == FeeCeilError(q - PrefixQuantity(d.first, lim.step, i), FeeFactor(d.first.levels[i].price, d.first.fees.coefficient))
       + FeeCeilError(q - PrefixQuantity(d.second, lim.step, j), FeeFactor(d.second.levels[j].price, d.second.fees.coefficient))
    ensures Covered(d, lim.step, q) && FitsInt64(q * 10_000) && FitsInt64(Margin(d, lim.step, q))
    ensures FitsInt64(PairReserve(d, lim.step, q)) && FitsInt64(Upper(d, lim.step, i, j, q))
    ensures 0 <= RoundingAfter(d.first, lim.step, i, q) && 0 <= RoundingAfter(d.second, lim.step, j, q)
    ensures FitsInt64(RoundingAfter(d.first, lim.step, i, q) + RoundingAfter(d.second, lim.step, j, q))
    ensures Upper(d, lim.step, i, j, q)
      == Margin(d, lim.step, q) + RoundingAfter(d.first, lim.step, i, q) + RoundingAfter(d.second, lim.step, j, q) + error / FEE_DENOMINATOR
    ensures 0 <= LegOf(d.first, lim.step, q).debit <= LegOf(d.first, lim.step, q).reservation <= 3_000_000_000_000
    ensures 0 <= LegOf(d.second, lim.step, q).debit <= LegOf(d.second, lim.step, q).reservation <= 3_000_000_000_000
  {
    hide FeeFactor, Walk, LegOf, RoundingAfter, Upper, FeeCeilError, Margin, PairReserve, PrefixFits, PrefixLedger, Slope;
    UpperFromMargin(d, lim.step, i, j, q, error);
    SearchFitsInt64(d, lim, i, j, q);
    RoundingNonNegative(d.first, lim.step, i, q);
    RoundingNonNegative(d.second, lim.step, j, q);
    LegFits(d.first, lim.step, q);
    LegFits(d.second, lim.step, q);
  }

  /** How a round of the main loop ended. */
  datatype Outcome = Continued(next: nat) | Stopped(unfunded: bool) | Failed

  class Search {
    const limits: SizingLimits
    const first: Cursor
    const second: Cursor
    var status: SizingStatus
    var evaluated: nat
    var pruned: nat
    var best: Option<Evaluation>
    var slope: int
    ghost var seen: set<int>

    constructor (depth: Pair, limits: SizingLimits)
      requires ValidInput(depth, limits)
      ensures Valid() && Depth() == depth && this.limits == limits
      ensures fresh(first) && fresh(first.accumulator) && fresh(second) && fresh(second.accumulator)
      ensures best == None && seen == {} && pruned == 0 && first.index == 0 && second.index == 0
    {
      this.limits := limits;
      first := new Cursor(depth.first, limits.step, limits.cap);
      second := new Cursor(depth.second, limits.step, limits.cap);
      status, evaluated, pruned, best, slope, seen := InvalidInput, 0, 0, None, 0, {};
    }

    ghost function Depth(): Pair {
      Pair(first.depth, second.depth)
    }

    ghost predicate Valid()
      reads this`evaluated, this`best, this`seen, first, first.accumulator, second, second.accumulator
    {
      && first != second && first.accumulator != second.accumulator
      && first.Valid() && second.Valid()
      && first.step == second.step == limits.step && first.cap == second.cap == limits.cap
      && ValidInput(Depth(), limits)
      && |seen| == evaluated <= limits.maxEvaluations
      && Quotes(Depth(), limits, best)
    }

    lemma ValidFacts()
      requires Valid()
      ensures ValidInput(Depth(), limits) && Quotes(Depth(), limits, best) && evaluated <= limits.maxEvaluations
      ensures first.step == second.step == limits.step && first.cap == second.cap == limits.cap
    {
    }

    /** Both cursors stand on a level, and q lies within both. */
    ghost predicate Active(q: int)
      requires ValidInput(Depth(), limits)
      reads first, second
    {
      && first.index < |first.depth.levels| && second.index < |second.depth.levels|
      && InSegment(Depth(), limits.step, first.index, second.index, q)
    }

    ghost predicate IsEvaluation(e: Evaluation)
      requires ValidInput(Depth(), limits)
      reads first, second
    {
      && Active(e.q) && OnGrid(e.q, limits.step) && limits.step <= e.q <= limits.cap
      && Covered(Depth(), limits.step, e.q) && PairReserve(Depth(), limits.step, e.q) <= limits.available
      && e == EvaluationAt(Depth(), limits.step, first.index, second.index, e.q)
    }

    /** One leg of an evaluation: its quote, its outstanding rounding and the exact amount by
        which its active fee was rounded up. */
    method EvaluateLeg(cursor: Cursor, q: nat) returns (ok: bool, leg: SizedLeg, rounding: int, error: int)
      requires cursor.Valid() && OnGrid(q, cursor.step) && q <= cursor.cap
      requires InLevel(cursor.depth, cursor.step, cursor.index, q)
      ensures ok && Acquire(cursor.depth, cursor.step, q).Some?
      ensures leg == LegOf(cursor.depth, cursor.step, q)
      ensures rounding == RoundingAfter(cursor.depth, cursor.step, cursor.index, q)
      ensures error == FeeCeilError(q - cursor.prefixQuantity,
                                    FeeFactor(cursor.depth.levels[cursor.index].price, cursor.depth.fees.coefficient))
      ensures 0 <= error < FEE_DENOMINATOR
    {
      hide AddFill, Conserved, Walk, FeeFactor, Fill;
      var level, fees := cursor.depth.levels[cursor.index], cursor.depth.fees;
      ghost var l, t := PrefixLedger(cursor.depth, cursor.step, cursor.index), Trade(q - cursor.prefixQuantity, level.price);
      PrefixBounds(cursor.depth, cursor.step, cursor.index);
      FitsSmall(true, t.quantity, t.price, fees, l.rounding);
      WalkInLevel(cursor.depth, cursor.step, cursor.index, q);
      LedgerAfter(l, t, fees);
      ReservationExists(q, cursor.step, level.price, fees);
      leg, rounding, error := SizedLeg(level.price, 0, 0, 0), 0, 0;
      var accumulator := new FeeAccumulator(cursor.accumulator.rounding);
      var charge := ChargeBuyFill(q - cursor.prefixQuantity, level.price, fees, accumulator);
      var reserve := BuyReservation(q, cursor.step, level.price, fees);
      if charge.None? || reserve.None? {
        ok := false;
        return;
      }
      leg := SizedLeg(level.price, cursor.prefixNotional + charge.value.notional,
                      cursor.prefixDebit + charge.value.change, reserve.value);
      rounding := accumulator.rounding as int;
      error := CeilError(q - cursor.prefixQuantity, level.price, fees.coefficient);
      ok := true;
    }

    static method FactorOf(price: Price, coefficient: nat) returns (factor: uint64)
      requires coefficient <= 1_000_000
      ensures factor as int == FeeFactor(price, coefficient)
    {
      FeeFactorBounds(price, coefficient);
      var p := price as uint64;
      var product := coefficient as uint64 * p;
      factor := product * (10_000 - p);
    }

    /** By how much a fee is rounded up, times FEE_DENOMINATOR, in unsigned 64-bit arithmetic: the
        product is reduced before it is formed. */
    static method CeilError(x: nat, price: Price, coefficient: nat) returns (error: int)
      requires x <= QUANTITY_LIMIT && coefficient <= 1_000_000
      ensures error == FeeCeilError(x, FeeFactor(price, coefficient)) && 0 <= error < FEE_DENOMINATOR
    {
      hide FeeFactor, FeeCeilError;
      FeeFactorBounds(price, coefficient);
      CeilErrorByRemainder(x, FeeFactor(price, coefficient));
      var factor := FactorOf(price, coefficient);
      var denominator: uint64 := 10_000_000_000;
      var reduced := factor % denominator;
      var remainder := (x as uint64 * reduced) % denominator;
      error := if remainder != 0 then (denominator - remainder) as int else 0;
    }

    /** The margin, the reservation and the bound of an evaluation, in signed 64-bit arithmetic. */
    static method Sum(q: nat, a: SizedLeg, b: SizedLeg, rounding: nat, error: nat) returns (margin: int, reserve: int, upper: int)
      requires FitsInt64(q * 10_000) && FitsInt64(q * 10_000 - a.debit - b.debit)
      requires 0 <= a.debit && 0 <= b.debit && FitsInt64(a.debit) && FitsInt64(b.debit)
      requires 0 <= a.reservation && 0 <= b.reservation && FitsInt64(a.reservation + b.reservation)
      requires FitsInt64(rounding) && error <= UINT64_MAX
      requires FitsInt64(q * 10_000 - a.debit - b.debit + rounding + error / FEE_DENOMINATOR)
      ensures margin == q * 10_000 - a.debit - b.debit && reserve == a.reservation + b.reservation
      ensures upper == margin + rounding + error / FEE_DENOMINATOR
    {
      var payout: int64 := q as int64 * 10_000;
      var net := payout - a.debit as int64 - b.debit as int64;
      var total := a.reservation as int64 + b.reservation as int64;
      var carried, ceiling := rounding as int64, error as uint64;
      var whole := ceiling / 10_000_000_000;
      var given := net + carried;
      margin, reserve := net as int, total as int;
      upper := (given + whole as int64) as int;
    }

    /** The slope of the unrounded margin, in signed 64-bit arithmetic. */
    static method SlopeOf(p: Price, coefficient: nat, p': Price, coefficient': nat) returns (slope: int)
      requires coefficient <= 1_000_000 && coefficient' <= 1_000_000
      ensures slope == FEE_DENOMINATOR * (10_000 - p - p') - FeeFactor(p, coefficient) - FeeFactor(p', coefficient')
    {
      FeeFactorBounds(p, coefficient);
      FeeFactorBounds(p', coefficient');
      TermFits(p, coefficient);
      TermFits(p', coefficient');
      hide FeeFactor;
      var x, y: int64 := p as int64, p' as int64;
      var s: int64 := 10_000_000_000 * (10_000 - x - y);
      s := s - coefficient as int64 * x * (10_000 - x);
      s := s - coefficient' as int64 * y * (10_000 - y);
      slope := s as int;
    }

    static lemma TermFits(p: Price, coefficient: nat)
      requires coefficient <= 1_000_000
      ensures 0 <= coefficient * p <= 10_000_000_000 && FeeFactor(p, coefficient) == coefficient * p * (10_000 - p) <= 25_000_000_000_000
    {
      MulMonotone(coefficient, 1_000_000, p);
      FeeFactorBounds(p, coefficient);
    }

    /** Evaluates one quantity exactly, and keeps it if it is the best so far. */
    method Evaluate(q: nat) returns (value: Option<Evaluation>)
      requires Valid() && Active(q) && OnGrid(q, limits.step) && limits.step <= q <= limits.cap && q !in seen
      requires Covered(Depth(), limits.step, q) ==> PairReserve(Depth(), limits.step, q) <= limits.available
      modifies this`status, this`evaluated, this`best, this`seen
      ensures Valid()
      ensures value.None? ==> status == SearchBudgetExceeded && evaluated == old(evaluated) == limits.maxEvaluations && seen == old(seen)
      ensures value.Some? ==>
        && value.value.q == q && IsEvaluation(value.value)
        && status == old(status) && evaluated == old(evaluated) + 1 && seen == old(seen) + {q}
        && Improves(old(best), best) && Settled(Depth(), limits, best, q)
    {
      hide AddFill, Conserved, Walk, FeeFactor, FeeCeilError, LegOf, RoundingAfter, Upper, InLevel, PrefixLedger;
      if evaluated == limits.maxEvaluations {
        status := SearchBudgetExceeded;
        return None;
      }
      evaluated := evaluated + 1;
      seen := seen + {q};
      var ok, a, rounding, error := EvaluateLeg(first, q);
      var ok', b, rounding', error' := EvaluateLeg(second, q);
      status := if ok && ok' then status else ArithmeticError;
      if !ok || !ok' {
        return None;
      }
      EvaluationFits(Depth(), limits, first.index, second.index, q, error + error');
      var margin, reserve, upper := Sum(q, a, b, rounding + rounding', error + error');
      value := Some(Evaluation(q, a, b, margin, reserve, upper));
      if margin > limits.minimumMargin
        && (best.None? || Beats(margin, reserve, q, best.value.margin, best.value.reserve, best.value.q)) {
        best := value;
      }
    }

    /** Settles every quantity between two evaluated ones: by the bound, or by bisection. */
    method Interval(low: Evaluation, high: Evaluation) returns (ok: bool)
      requires Valid() && IsEvaluation(low) && IsEvaluation(high) && low.q <= high.q
      requires slope == Slope(Depth(), first.index, second.index)
      requires Settled(Depth(), limits, best, low.q) && Settled(Depth(), limits, best, high.q)
      requires forall x :: x in seen ==> !(low.q < x < high.q)
      modifies this`status, this`evaluated, this`pruned, this`best, this`seen
      ensures Valid()
      ensures old(seen) <= seen && forall x :: x in seen && x !in old(seen) ==> low.q < x < high.q
      ensures low.q == high.q ==> evaluated == old(evaluated)
      ensures low.q < high.q ==>
        evaluated - old(evaluated) < GridIndex(high.q, limits.step) - GridIndex(low.q, limits.step)
      ensures !ok ==> status == SearchBudgetExceeded && evaluated == limits.maxEvaluations
      ensures !ok ==>
        && low.q < high.q
        && evaluated + 1 - old(evaluated) < GridIndex(high.q, limits.step) - GridIndex(low.q, limits.step)
      ensures ok ==> status == old(status) && Improves(old(best), best)
      ensures ok ==> forall q :: low.q <= q <= high.q ==> Settled(Depth(), limits, best, q)
      decreases high.q - low.q
    {
      hide LegOf, Margin, PairReserve, Upper, Slope, Candidate, Covered, InSegment, PrefixLedger, Quotes, Settled, ValidDepth, InLevel, OnGrid, EvaluationAt, IsEvaluation, GridIndex, Improves, Valid, Cursor.Valid;
      ValidFacts();
      ghost var d, i, j := Depth(), first.index, second.index;
      SameBestImproves(best);
      EvaluationMeaning(low);
      EvaluationMeaning(high);
      if high.q - low.q <= limits.step {
        NeighboursSettle(d, limits, best, low.q, high.q);
        return true;
      }
      Midpoint(low.q, high.q, limits.step);
      var upper := if slope >= 0 then high.upper else low.upper;
      var floor := if best.Some? then best.value.margin else limits.minimumMargin;
      if upper < floor || (upper == floor && (best.None? || low.q >= best.value.q)) {
        pruned := pruned + 1;
        BoundSettles(d, limits, i, j, low.q, high.q, best);
        return true;
      }
      var steps := (high.q - low.q) / limits.step;
      var m := low.q + (steps / 2) * limits.step;
      BetweenActive(m, low, high);
      var mid := Evaluate(m);
      if mid.None? {
        return false;
      }
      ghost var best1 := best;
      SettledStays(d, limits, old(best), best1, low.q);
      SettledStays(d, limits, old(best), best1, high.q);
      ok := Interval(low, mid.value);
      ghost var best2 := best;
      if !ok {
        return false;
      }
      SettledStays(d, limits, best1, best2, high.q);
      ok := Interval(mid.value, high);
      if ok {
        ImprovesTransitively(old(best), best1, best2);
        ImprovesTransitively(old(best), best2, best);
        forall q | low.q <= q <= high.q
          ensures Settled(d, limits, best, q)
        {
          if q <= m {
            SettledStays(d, limits, best2, best, q);
          }
        }
      }
    }

    /** Both cursors look for a level, the second only if the first finds one. */
    method SeekBoth() returns (found: bool)
      requires Valid()
      modifies first`index, second`index
      ensures Valid()
      ensures PrefixLedger(first.depth, limits.step, first.index) == PrefixLedger(first.depth, limits.step, old(first.index))
      ensures PrefixLedger(second.depth, limits.step, second.index) == PrefixLedger(second.depth, limits.step, old(second.index))
      ensures found ==> first.OnLevel() && second.OnLevel()
      ensures !found ==> first.index == |first.depth.levels| || (first.OnLevel() && second.index == |second.depth.levels|)
      ensures old(first.OnLevel()) ==> first.index == old(first.index)
      ensures old(second.OnLevel()) ==> second.index == old(second.index)
    {
      hide PrefixLedger, Quotes, Settled;
      found := first.Seek();
      if found {
        found := second.Seek();
      }
    }

    // ----------------------------------------------------------------------
    // Segments
    // ----------------------------------------------------------------------

    function Price(cursor: Cursor): Price
      requires cursor.index < |cursor.depth.levels|
      reads cursor
    {
      cursor.depth.levels[cursor.index].price
    }

    /** Both legs' reservations at the active prices. */
    function ReservationAt(q: nat): int
      requires first.index < |first.depth.levels| && second.index < |second.depth.levels| && q <= QUANTITY_LIMIT
      reads first, second
    {
      var a := BuyReservation(q, limits.step, Price(first), first.depth.fees);
      var b := BuyReservation(q, limits.step, Price(second), second.depth.fees);
      if a.None? || b.None? then INT64_MAX else a.value + b.value
    }

    lemma ReservationInSegment(q: nat)
      requires Valid() && Active(q) && OnGrid(q, limits.step) && q <= limits.cap
      ensures Covered(Depth(), limits.step, q) && ReservationAt(q) == PairReserve(Depth(), limits.step, q)
      ensures if ReservationAt(q) <= limits.available then Funded(q) else Unfunded(q)
    {
      hide AddFill, Walk, Reserve, FeeFactor;
      LegIdentity(first.depth, limits.step, first.index, q);
      LegIdentity(second.depth, limits.step, second.index, q);
      ReservationExists(q, limits.step, Price(first), first.depth.fees);
      ReservationExists(q, limits.step, Price(second), second.depth.fees);
    }

    /** The segment's last funded grid point, or the point before `from` when there is none. */
    method LastFunded(from: nat, end: nat) returns (last: int)
      requires Valid() && OnGrid(from, limits.step) && OnGrid(end, limits.step)
      requires limits.step <= from <= end <= limits.cap && Active(from) && Active(end)
      ensures (last == from - limits.step || from <= last) && last <= end && OnGrid(last, limits.step)
      ensures from <= last ==> Active(last) && Funded(last)
      ensures last < end ==> Unfunded(last + limits.step)
    {
      hide Covered, PairReserve, InSegment, BuyReservation, Funded, Unfunded, ReservationAt, Quotes, PrefixLedger, ValidDepth;
      var step := limits.step;
      ReservationInSegment(end);
      if ReservationAt(end) <= limits.available {
        return end;
      }
      var lo, hi := from / step - 1, end / step;
      ghost var a, z := lo, hi;
      DivMonotone(from, end, step);
      while lo < hi
        invariant a <= lo <= hi <= z
        invariant a < lo ==> Funded(lo * step)
        invariant hi < z ==> Unfunded((hi + 1) * step)
      {
        var mid := lo + (hi - lo + 1) / 2;
        GridPoint(from, mid, end, step);
        Between(mid * step, from, end);
        ReservationInSegment(mid * step);
        if ReservationAt(mid * step) <= limits.available {
          lo := mid;
        } else {
          hi := mid - 1;
        }
      }
      last := lo * step;
      GridPoint(from, lo + 1, end, step);
      if a < lo {
        GridPoint(from, lo, end, step);
        Between(last, from, end);
      }
      assert (lo + 1) * step == last + step;
      assert a < lo || last == from - step;
    }

    ghost predicate Funded(q: int)
      requires ValidInput(Depth(), limits)
    {
      q >= 0 && Covered(Depth(), limits.step, q) && PairReserve(Depth(), limits.step, q) <= limits.available
    }

    ghost predicate Unfunded(q: int)
      requires ValidInput(Depth(), limits)
    {
      q >= 0 && Covered(Depth(), limits.step, q) && PairReserve(Depth(), limits.step, q) > limits.available
    }

    lemma Between(q: int, low: int, high: int)
      requires Valid() && Active(low) && Active(high) && low <= q <= high
      ensures Active(q)
    {
    }

    lemma FeesValid()
      requires Valid()
      ensures first.depth.fees.coefficient <= 1_000_000 && second.depth.fees.coefficient <= 1_000_000
    {
    }

    /** Searches one funded segment completely, or runs out of budget. */
    method SearchSegment(from: nat, last: nat) returns (ok: bool)
      requires Valid() && OnGrid(from, limits.step) && OnGrid(last, limits.step)
      requires limits.step <= from <= last <= limits.cap && Active(from) && Active(last)
      requires Funded(last) && forall x :: x in seen ==> x < from
      modifies this`status, this`evaluated, this`pruned, this`best, this`seen, this`slope
      ensures Valid() && forall x :: x in seen ==> x <= last
      ensures evaluated - old(evaluated) <= GridIndex(last, limits.step) - GridIndex(from, limits.step) + 1
      ensures !ok ==> status == SearchBudgetExceeded && evaluated == limits.maxEvaluations
      ensures !ok ==> evaluated - old(evaluated) <= GridIndex(last, limits.step) - GridIndex(from, limits.step)
      ensures ok ==> status == old(status) && Improves(old(best), best)
      ensures ok ==> forall q :: from <= q <= last ==> Settled(Depth(), limits, best, q)
    {
      hide LegOf, Margin, PairReserve, Upper, Candidate, Covered, InSegment, PrefixLedger, Quotes, Settled, ValidDepth, InLevel, OnGrid, EvaluationAt, GridIndex, FeeFactor;
      GridIndexMonotone(from, last, limits.step);
      FundingMonotone(Depth(), limits.step, from, last);
      FeesValid();
      slope := SlopeOf(Price(first), first.depth.fees.coefficient, Price(second), second.depth.fees.coefficient);
      var low := Evaluate(from);
      if low.None? {
        return false;
      }
      ghost var best1 := best;
      var high := low;
      if last != from {
        high := Evaluate(last);
        if high.None? {
          return false;
        }
        SettledStays(Depth(), limits, best1, best, from);
      }
      ghost var best2 := best;
      ok := Interval(low.value, high.value);
      if ok {
        ImprovesTransitively(old(best), best1, best2);
        ImprovesTransitively(old(best), best2, best);
      }
    }

    // ----------------------------------------------------------------------
    // The whole search
    // ----------------------------------------------------------------------

    /** One step is covered exactly when both cursors find a level. */
    lemma FirstStep()
      requires Valid() && first.prefixQuantity == 0 && second.prefixQuantity == 0
      requires first.OnLevel() || first.index == |first.depth.levels|
      requires second.OnLevel() || second.index == |second.depth.levels|
      ensures Covered(Depth(), limits.step, limits.step) <==> first.OnLevel() && second.OnLevel()
      ensures first.OnLevel() && second.OnLevel() ==>
        && LegOf(first.depth, limits.step, limits.step).limit == Price(first)
        && LegOf(second.depth, limits.step, limits.step).limit == Price(second)
    {
      hide AddFill, Walk, LegOf;
      LegFirstStep(first);
      LegFirstStep(second);
    }

    lemma LegFirstStep(c: Cursor)
      requires c.Valid() && c.prefixQuantity == 0 && (c.OnLevel() || c.index == |c.depth.levels|)
      ensures Acquire(c.depth, c.step, c.step).Some? <==> c.OnLevel()
      ensures c.OnLevel() ==> LegOf(c.depth, c.step, c.step).limit == Price(c)
    {
      if c.OnLevel() {
        c.Reaches(c.step);
        LegIdentity(c.depth, c.step, c.index, c.step);
      } else {
        WalkBeyondDepth(c.depth, c.step, c.step);
      }
    }

    /** A leg whose cursor ran out covers nothing from `from` on. */
    lemma NoDepthSettles(c: Cursor, from: nat, q: nat)
      requires Valid() && (c == first || c == second)
      requires c.index == |c.depth.levels| && c.prefixQuantity < from <= q
      ensures Settled(Depth(), limits, best, q)
    {
      hide Walk, AddFill;
      WalkBeyondDepth(c.depth, limits.step, q);
    }

    /** An unfunded grid point leaves everything from it on unfunded. */
    lemma UnfundedSettles(from: nat, q: nat)
      requires Valid() && Unfunded(from) && from <= q
      ensures Settled(Depth(), limits, best, q)
    {
      hide Acquire, LegOf;
      if Covered(Depth(), limits.step, q) {
        FundingMonotone(Depth(), limits.step, from, q);
      }
    }

    method AdvanceIfEnded(cursor: Cursor, end: nat) returns (ok: bool)
      requires cursor.Valid() && cursor.OnLevel() && cursor.prefixQuantity < end <= cursor.End() && end % cursor.step == 0
      requires end < cursor.cap / cursor.step * cursor.step
      modifies cursor, cursor.accumulator
      ensures ok && cursor.Valid() && cursor.Before(end + cursor.step)
    {
      hide AddFill, PrefixLedger;
      cursor.SizeOnGrid();
      PrefixOnGrid(cursor.depth, cursor.step, cursor.index);
      GridSum(cursor.prefixQuantity, cursor.Size(), cursor.step);
      GridGap(cursor.prefixQuantity, end, cursor.step);
      if end < cursor.End() {
        GridGap(end, cursor.End(), cursor.step);
      }
      ok := true;
      if cursor.End() == end {
        ok := cursor.Advance();
      }
    }

    ghost predicate Searched'(from: nat)
      reads this, first, first.accumulator, second, second.accumulator
    {
      && Valid() && status == NoPositiveMargin && OnGrid(from, limits.step) && limits.step <= from
      && SettledBelow(from)
      && (forall x :: x in seen ==> x < from)
      && evaluated < GridIndex(from, limits.step)
    }

    /** Everything that the search has established about quantities below `from`. */
    ghost predicate Searched(from: nat, funded: bool)
      reads this, first, first.accumulator, second, second.accumulator
    {
      && Valid() && status == NoPositiveMargin
      && OnGrid(from, limits.step) && limits.step <= from
      && first.Before(from) && second.Before(from)
      && Searched'(from)
      && (if funded then Funded(limits.step) else from == limits.step && best == None && first.OnLevel() && second.OnLevel())
    }

    method Run() returns (r: SizingResult)
      requires Valid() && best == None && seen == {} && first.index == 0 && second.index == 0
      modifies this, first, first.accumulator, second, second.accumulator
      ensures ValidInput(Depth(), limits) && Answer(Depth(), limits, r)
    {
      hide LegOf, Margin, PairReserve, Candidate, Covered, Quotes, Settled, ValidDepth, InLevel, AddFill, IsOptimum;
      status := NoPositiveMargin;
      var found := SeekBoth();
      if !found {
        NothingCovered();
        return SizingResult(NoDepth, None, evaluated, pruned);
      }
      FirstStep();
      if Price(first) + Price(second) >= 10_000 {
        NoMarginAnywhere();
        return SizingResult(NoPositiveMargin, None, evaluated, pruned);
      }
      SearchBegins();
      r := SearchAll();
    }

    /** Either leg has no level of a step or more. */
    lemma NothingCovered()
      requires Valid() && first.prefixQuantity == 0 && second.prefixQuantity == 0
      requires first.index == |first.depth.levels| || (first.OnLevel() && second.index == |second.depth.levels|)
      ensures !Covered(Depth(), limits.step, limits.step)
      ensures forall q: nat :: !Candidate(Depth(), limits, q)
    {
      hide Acquire, LegOf, PairReserve, Margin;
      if first.index == |first.depth.levels| {
        WalkBeyondDepth(first.depth, limits.step, limits.step);
      } else {
        WalkBeyondDepth(second.depth, limits.step, limits.step);
      }
      forall q: nat ensures !Candidate(Depth(), limits, q) {
        if Candidate(Depth(), limits, q) {
          CandidateCovered(Depth(), limits, q);
          FundingMonotone(Depth(), limits.step, limits.step, q);
        }
      }
    }

    lemma NoMarginAnywhere()
      requires Valid() && first.prefixQuantity == 0 && second.prefixQuantity == 0
      requires first.index < |first.depth.levels| && second.index < |second.depth.levels|
      requires PrefixLedger(first.depth, limits.step, first.index) == OPENED
      requires PrefixLedger(second.depth, limits.step, second.index) == OPENED
      requires Price(first) + Price(second) >= 10_000
      ensures forall q: nat :: !Candidate(Depth(), limits, q)
    {
      hide Candidate, PrefixLedger;
      forall q: nat ensures !Candidate(Depth(), limits, q) {
        NoMarginAtADollar(Depth(), limits, first.index, second.index, q);
      }
    }

    lemma SearchBegins()
      requires Valid() && first.prefixQuantity == 0 && second.prefixQuantity == 0
      requires first.OnLevel() && second.OnLevel()
      requires best == None && seen == {} && status == NoPositiveMargin
      ensures Searched(limits.step, false)
    {
      hide Covered, PrefixLedger;
      ModDropsMultiples(0, limits.step, 1);
      assert GridIndex(limits.step, limits.step) == 1;
    }

    /** The main loop: segment after segment, up to the cap, the end of a leg's depth or the
        end of the funds. */
    method SearchAll() returns (r: SizingResult)
      requires Searched(limits.step, false)
      requires Covered(Depth(), limits.step, limits.step)
      requires LegOf(first.depth, limits.step, limits.step).limit + LegOf(second.depth, limits.step, limits.step).limit < 10_000
      modifies this, first, first.accumulator, second, second.accumulator
      ensures Answer(Depth(), limits, r)
    {
      hide LegOf, PairReserve, Covered, PrefixLedger, Quotes, SettledAll, GridIndex, Answer;
      var step := limits.step;
      var cap := StepsOfCap();
      var from, funded := step, false;
      while from <= cap
        invariant ValidInput(Depth(), limits) && Searched(from, funded) && cap == limits.cap / step * step && from <= cap
        decreases cap - from
      {
        var outcome := SearchFrom(from, cap, funded);
        match outcome
        case Stopped(unfunded) =>
          funded := funded || !unfunded;
          break;
        case Failed =>
          BudgetAnswer(SizingResult(status, None, evaluated, pruned));
          return SizingResult(status, None, evaluated, pruned);
        case Continued(next) =>
          from, funded := next, true;
      }
      r := Conclude(funded);
    }

    method StepsOfCap() returns (cap: nat)
      requires Valid()
      ensures cap == limits.cap / limits.step * limits.step && limits.step <= cap
    {
      FloorToGridGreatest(limits.cap, limits.step, limits.step);
      cap := limits.cap / limits.step * limits.step;
    }

    /** One round of the main loop. */
    method SearchFrom(from: nat, cap: nat, funded: bool) returns (o: Outcome)
      requires Searched(from, funded) && cap == limits.cap / limits.step * limits.step && from <= cap
      modifies this, first, first.accumulator, second, second.accumulator
      ensures Valid()
      ensures o.Failed? ==> Funded(limits.step) && status == SearchBudgetExceeded && evaluated == limits.maxEvaluations < GridIndex(limits.cap, limits.step)
      ensures o.Continued? ==> from < o.next <= cap && Searched(o.next, true)
      ensures o.Stopped? ==> Concluded(funded || !o.unfunded)
    {
      hide Margin, PairReserve, Candidate, Covered, PrefixLedger, Quotes, Settled, ValidDepth, InLevel, GridIndex, AddFill, SettledAll, SettledBelowBy, Funded, Unfunded, Active, InSegment, Improves, Cursor.Valid;
      var found := SeekBoth();
      GridIndexMonotone(from, limits.cap, limits.step);
      if !found {
        SettledWithoutDepth(from);
        return Stopped(true);
      }
      var end := SegmentEnd(from, cap);
      var last := LastFunded(from, end);
      if last < from {
        SettledWithoutFunds(from);
        return Stopped(true);
      }
      FundedFromStart(last);
      GridIndexMonotone(last, limits.cap, limits.step);
      o := FinishSegment(from, last, end, cap);
    }

    /** Searches a funded segment, and decides whether it was the last one. */
    method FinishSegment(from: nat, last: nat, end: nat, cap: nat) returns (o: Outcome)
      requires Searched'(from) && Funded(limits.step) && cap == limits.cap / limits.step * limits.step
      requires from <= last <= end <= cap && OnGrid(last, limits.step) && OnGrid(end, limits.step)
      requires Active(from) && Active(last) && Funded(last)
      requires first.OnLevel() && first.prefixQuantity < end <= first.End()
      requires second.OnLevel() && second.prefixQuantity < end <= second.End()
      requires last < end ==> Unfunded(last + limits.step)
      requires GridIndex(last, limits.step) <= GridIndex(limits.cap, limits.step)
      modifies this, first, first.accumulator, second, second.accumulator
      ensures Valid()
      ensures o.Failed? ==> Funded(limits.step) && status == SearchBudgetExceeded && evaluated == limits.maxEvaluations < GridIndex(limits.cap, limits.step)
      ensures o.Continued? ==> from < o.next <= cap && Searched(o.next, true)
      ensures o.Stopped? ==> !o.unfunded && Concluded(true)
    {
      hide Margin, PairReserve, Candidate, Covered, PrefixLedger, Quotes, Settled, ValidDepth, InLevel, GridIndex, AddFill, SettledAll, SettledBelowBy, Funded, Unfunded, Active, InSegment, Improves, Cursor.Valid;
      ghost var before := best;
      var complete := SearchSegment(from, last);
      if !complete {
        return Failed;
      }
      SettledAfterSegment(before, from, last);
      SettledToNextStep(last);
      if last < end || end == cap {
        if last < end {
          SettledWithoutFunds(last + limits.step);
        } else {
          SettledToCap(cap);
        }
        return Stopped(false);
      }
      o := AdvanceBoth(end, cap);
    }

    method AdvanceBoth(end: nat, cap: nat) returns (o: Outcome)
      requires Valid() && cap == limits.cap / limits.step * limits.step && end < cap && OnGrid(end, limits.step)
      requires first.OnLevel() && first.prefixQuantity < end <= first.End()
      requires second.OnLevel() && second.prefixQuantity < end <= second.End()
      requires status == NoPositiveMargin && SettledBelow(end + limits.step) && Funded(limits.step)
      requires evaluated <= GridIndex(end, limits.step) && forall x :: x in seen ==> x <= end
      modifies first, first.accumulator, second, second.accumulator
      ensures o == Continued(end + limits.step) && o.next <= cap && Searched(o.next, true)
    {
      hide PrefixLedger, Quotes, Settled, ValidDepth, AddFill;
      NextIndex(end, limits.step);
      FloorToGrid(limits.cap, limits.step);
      GridGap(end, cap, limits.step);
      var advanced := AdvanceIfEnded(first, end);
      if advanced {
        advanced := AdvanceIfEnded(second, end);
      }
      return if advanced then Continued(end + limits.step) else Failed;
    }

    /** What holds when the main loop stops with its work done. */
    ghost predicate Concluded(funded: bool)
      reads this, first, first.accumulator, second, second.accumulator
    {
      && Valid() && status == NoPositiveMargin && SettledAll()
      && evaluated <= GridIndex(limits.cap, limits.step)
      && (if funded then Funded(limits.step) else best == None && first.OnLevel() && second.OnLevel() && Unfunded(limits.step))
    }

    lemma BudgetAnswer(r: SizingResult)
      requires ValidInput(Depth(), limits)
      requires r.status == SearchBudgetExceeded && r.quote == None && r.evaluated == limits.maxEvaluations < GridIndex(limits.cap, limits.step)
      requires Covered(Depth(), limits.step, limits.step) && Funded(limits.step)
      ensures Answer(Depth(), limits, r)
    {
    }

    /** The segment ends where the first of the cap and both active levels ends. */
    method SegmentEnd(from: nat, cap: nat) returns (end: nat)
      requires Valid() && first.OnLevel() && second.OnLevel() && first.Before(from) && second.Before(from)
      requires cap == limits.cap / limits.step * limits.step && limits.step <= from <= cap && OnGrid(from, limits.step)
      ensures from <= end <= cap <= limits.cap && OnGrid(end, limits.step) && end <= first.End() && end <= second.End()
      ensures Active(from) && Active(end)
    {
      hide PrefixLedger;
      FloorToGrid(limits.cap, limits.step);
      first.Reaches(from);
      second.Reaches(from);
      end := Min(cap, Min(first.End(), second.End()));
    }

    /** Every quantity below `bound` is settled. */
    ghost predicate SettledBelow(bound: int)
      requires ValidInput(Depth(), limits)
      reads this`best
    {
      SettledBelowBy(best, bound)
    }

    ghost predicate SettledBelowBy(before: Option<Evaluation>, bound: int)
      requires ValidInput(Depth(), limits)
    {
      forall q: nat :: q < bound ==> Settled(Depth(), limits, before, q)
    }

    ghost predicate SettledAll()
      requires ValidInput(Depth(), limits)
      reads this`best
    {
      forall q: nat :: Settled(Depth(), limits, best, q)
    }

    /** Only grid points compete. */
    lemma SettledToNextStep(last: nat)
      requires Valid() && OnGrid(last, limits.step) && SettledBelow(last + 1)
      ensures SettledBelow(last + limits.step)
    {
      hide Covered, Margin, PairReserve;
      forall q: nat | last < q < last + limits.step ensures Settled(Depth(), limits, best, q) {
        if OnGrid(q, limits.step) {
          GridGap(last, q, limits.step);
        }
      }
    }

    lemma SettledWithoutDepth(from: nat)
      requires Valid() && first.prefixQuantity < from && second.prefixQuantity < from && SettledBelow(from)
      requires first.index == |first.depth.levels| || second.index == |second.depth.levels|
      ensures SettledAll()
    {
      hide Settled, PrefixLedger;
      forall q: nat ensures Settled(Depth(), limits, best, q) {
        if q >= from {
          NoDepthSettles(if first.index == |first.depth.levels| then first else second, from, q);
        }
      }
    }

    lemma SettledWithoutFunds(from: nat)
      requires Valid() && Unfunded(from) && SettledBelow(from)
      ensures SettledAll()
    {
      hide Settled, Covered, PairReserve;
      forall q: nat ensures Settled(Depth(), limits, best, q) {
        if q >= from {
          UnfundedSettles(from, q);
        }
      }
    }

    lemma SettledToCap(cap: nat)
      requires Valid() && cap == limits.cap / limits.step * limits.step && SettledBelow(cap + 1)
      ensures SettledAll()
    {
      hide Covered, Margin, PairReserve;
      forall q: nat ensures Settled(Depth(), limits, best, q) {
        if q > cap && OnGrid(q, limits.step) && q <= limits.cap {
          FloorToGridGreatest(limits.cap, limits.step, q);
        }
      }
    }

    lemma SettledAfterSegment(before: Option<Evaluation>, from: nat, last: nat)
      requires Valid() && Improves(before, best)
      requires SettledBelowBy(before, from)
      requires forall q :: from <= q <= last ==> Settled(Depth(), limits, best, q)
      ensures SettledBelow(last + 1)
    {
      hide Settled, Improves;
      assert forall q: nat :: q < from ==> Settled(Depth(), limits, before, q);
      forall q: nat | q <= last ensures Settled(Depth(), limits, best, q) {
        if q < from {
          SettledStays(Depth(), limits, before, best, q);
        }
      }
    }

    lemma FundedFromStart(last: nat)
      requires Valid() && Funded(last) && limits.step <= last
      ensures Funded(limits.step)
    {
      FundingMonotone(Depth(), limits.step, limits.step, last);
    }

    /** The final status. */
    method Conclude(funded: bool) returns (r: SizingResult)
      requires Concluded(funded)
      requires Covered(Depth(), limits.step, limits.step)
      requires LegOf(first.depth, limits.step, limits.step).limit + LegOf(second.depth, limits.step, limits.step).limit < 10_000
      modifies this`status, first`index, second`index
      ensures Answer(Depth(), limits, r)
    {
      hide LegOf, Margin, PairReserve, Candidate, Covered, Quotes, Settled, ValidDepth, InLevel, AddFill, IsOptimum, GridIndex, PrefixLedger;
      SettledIsOptimum(Depth(), limits, best);
      var quote: Option<SizedPair> := None;
      if best.Some? {
        status := Optimal;
        var e := best.value;
        quote := Some(SizedPair(e.q, e.first, e.second, e.q * 10_000, e.margin));
      } else if !funded {
        var found := true;
        if first.prefixQuantity == 0 {
          found := SeekBoth();
        }
        status := if first.prefixQuantity == 0 && !found then NoDepth else InsufficientCash;
      }
      return SizingResult(status, quote, evaluated, pruned);
    }

    /** Between two evaluated quantities of a segment everything is covered and funded. */
    lemma BetweenActive(q: nat, low: Evaluation, high: Evaluation)
      requires Valid() && IsEvaluation(low) && IsEvaluation(high) && low.q <= q <= high.q
      ensures Active(q) && Covered(Depth(), limits.step, q) && PairReserve(Depth(), limits.step, q) <= limits.available
    {
      FundingMonotone(Depth(), limits.step, q, high.q);
    }

    lemma EvaluationMeaning(e: Evaluation)
      requires Valid() && IsEvaluation(e)
      ensures OnGrid(e.q, limits.step) && limits.step <= e.q <= limits.cap
      ensures Active(e.q) && e.upper == Upper(Depth(), limits.step, first.index, second.index, e.q)
    {
    }
  }

  /** The number of grid points up to q. */
  function GridIndex(q: int, step: int): int
    requires step > 0
  {
    q / step
  }

  lemma GridIndexMonotone(a: int, b: int, step: nat)
    requires step > 0 && a <= b
    ensures GridIndex(a, step) <= GridIndex(b, step)
    ensures a < b && OnGrid(a, step) && OnGrid(b, step) ==> GridIndex(a, step) < GridIndex(b, step)
  {
    DivMonotone(a, b, step);
  }

  lemma NextIndex(q: int, step: nat)
    requires step > 0 && q % step == 0
    ensures GridIndex(q + step, step) == GridIndex(q, step) + 1 && (q + step) % step == 0
  {
    DivUnique(q + step, step, q / step + 1);
    ModDropsMultiples(q, step, 1);
  }

  lemma GridPoint(from: nat, k: int, end: nat, step: nat)
    requires OnGrid(from, step) && OnGrid(end, step)
    ensures k * step % step == 0 && k * step + step == (k + 1) * step
    ensures k >= from / step <==> k * step >= from
    ensures k <= end / step <==> k * step <= end
  {
    ModDropsMultiples(0, step, k);
    assert from == from / step * step && end == end / step * step;
    if step == 1 { } else { }
  }

  /** Nothing lies between neighbours on the grid. */
  lemma NeighboursSettle(d: Pair, lim: SizingLimits, best: Option<Evaluation>, low: nat, high: nat)
    requires ValidInput(d, lim) && low <= high <= low + lim.step && OnGrid(low, lim.step) && OnGrid(high, lim.step)
    requires Settled(d, lim, best, low) && Settled(d, lim, best, high)
    ensures forall q :: low <= q <= high ==> Settled(d, lim, best, q)
    ensures low < high ==> GridIndex(low, lim.step) < GridIndex(high, lim.step)
  {
    if low < high {
      GridGap(low, high, lim.step);
      ModDropsMultiples(low, lim.step, 1);
    }
    forall q | low < q < high
      ensures Settled(d, lim, best, q)
    {
      if OnGrid(q, lim.step) {
        GridGap(low, q, lim.step);
      }
    }
  }

  lemma Midpoint(low: nat, high: nat, step: nat)
    requires OnGrid(low, step) && OnGrid(high, step) && low + step < high
    ensures var m := low + ((high - low) / step / 2) * step;
      low < m < high && OnGrid(m, step) && GridIndex(low, step) < GridIndex(m, step) < GridIndex(high, step)
  {
    GridSum(high, low, step);
    GridGap(low + step, high, step) by { GridSum(low, step, step); }
    var steps := (high - low) / step;
    assert high - low == steps * step;
    var m := low + (steps / 2) * step;
    MulMonotone(1, steps / 2, step);
    MulMonotone(steps / 2 + 1, steps, step);
    assert (steps / 2 + 1) * step == steps / 2 * step + step;
    ModDropsMultiples(low, step, steps / 2);
    assert low == low / step * step;
    DivUnique(m, step, low / step + steps / 2);
    DivUnique(high, step, low / step + steps);
  }

  /** `size_buy_pair`: exact on the configured grid, or an explicit status without a quote. */
  method SizeBuyPair(depth: Pair, limits: SizingLimits) returns (r: SizingResult)
    ensures r.status == InvalidInput <==> !ValidInput(depth, limits)
    ensures ValidInput(depth, limits) ==> Answer(depth, limits, r)
    ensures r.status == InvalidInput ==> r.quote.None? && r.evaluated == 0
  {
    hide IsOptimum, Candidate, Covered, PairReserve, LegOf;
    if limits.cap > QUANTITY_LIMIT || (limits.step != 1 && limits.step != 100) || limits.cap < limits.step
      || limits.available > CASH_LIMIT || limits.minimumMargin > CASH_LIMIT || limits.maxEvaluations == 0 {
      return SizingResult(InvalidInput, None, 0, 0);
    }
    var valid := CheckDepth(depth.first);
    if valid {
      valid := CheckDepth(depth.second);
    }
    if !valid {
      return SizingResult(InvalidInput, None, 0, 0);
    }
    var search := new Search(depth, limits);
    r := search.Run();
  }

  method CheckDepth(leg: BuyDepth) returns (ok: bool)
    ensures ok == ValidDepth(leg)
  {
    if !ValidFee(leg.fees) || |leg.levels| > 10_001 {
      return false;
    }
    var previous: int, i := -1, 0;
    while i < |leg.levels|
      invariant i <= |leg.levels|
      invariant previous == if i == 0 then -1 else leg.levels[i - 1].price
      invariant forall j, k :: 0 <= j < k < i ==> leg.levels[j].price < leg.levels[k].price
    {
      if leg.levels[i].price <= previous {
        return false;
      }
      previous := leg.levels[i].price;
      i := i + 1;
    }
    return true;
  }
}
